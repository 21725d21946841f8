# Verified model of the treasury close

A Dafny model of the parts of the treasury close library that carry its invariants, and proofs of
what those parts are for. Values are datatypes and functions; what the library updates in place is
a class whose methods are proved to do to its fields exactly what the value-level function says, and
the theorems are about those functions, over all inputs, all runs and all reachable states.

`dafny verify dfyconfig.toml` checks everything.

| files | part of the library |
|---|---|
| `Merkle`, `Inclusion` | RFC 6962 tree heads, audit paths, the bit-shifting inclusion verifier |
| `Anchoring` | the evidence store and the log of anchor receipts |
| `Lots`, `LotRelief`, `LotConservation`, `LotAtomicity`, `LotIdentity`, `LotLives`, `LotMeaning`, `LotBook`, `Rounding` | the lot book: planning, floor-division relief, disposal, transfer |
| `Valuation`, `ValuationSuccess`, `ValuationTransfers` | marking a book to a price snapshot |
| `Matcher`, `MatcherTheory` | pairing outflows with inflows, and the close blockers |
| `Json`, `JsonTheory`, `JsonMeaning`, `CanonWriter` | canonical JSON |
| `Ledger`, `LedgerTheory` | the bitemporal, hash-chained event ledger |
| `LogFile`, `FileLedger`, `FileEvidence` | the two file backends and crash recovery |
| `Posting`, `PostingTheory`, `PostingDrive`, `PostingMeaning` | dual control, the posting protocol, the fixture ledger, the drive |
| `Checkpoints` | the checkpoint lineages |
| `Prelude`, `Amounts`, `Sorting`, `Filtering`, `StringOrder` | shared vocabulary |

## Modelling decisions

- Hashes are ideal. A digest is the message it was computed from: `Sha256(message)` with explicit
  prefix bytes for Merkle trees, constructors such as `EventHash(prev, time, envelope)`,
  `CheckpointHash`, `IdOf(batch)` elsewhere. A leg id, a lot id and an entry hash are numbers, since
  only their equality and order are used; the lot hash is a parameter of the book.
- `i128`, `i64`, `u64` and `usize` are ranges of integers and every checked operation answers `None`
  or an error exactly when the result leaves the range.
- A JSON object is a list of fields without a repeated key (`Json.WellFormed`), as the original's maps
  guarantee.
- An event commits to its payload through the payload's canonical text, so two events with one id
  have payloads that are the same up to the order of fields (`LedgerTheory.SameEvent`), which is
  also how the original compares payloads.
- The record codec of a log file is a parameter. Its one assumption, made for the records that were
  written, is `Faithful`: a line is read back as its record and contains no line ending.
- The posting guarantees are proved against any ledger that keeps the first record per id and shows
  for it what it likes; messages may be lost, repeated or delayed. The fixture ledger is then shown
  to be such a ledger.

## Where code and documentation disagree

The model follows the code.

- `crates/treasury-lots/src/book.rs:166-168` promises that a failed disposal leaves the book as it
  was. It does not when, after the first lot was relieved, a planned id repeats, a planned lot is
  already empty, or a product overflows, or when the totals do not fit.
  `LotAtomicity.NamingALotTwiceEmptiesIt`, `LotAtomicity.EmptyLotStopsDisposal` and
  `LotAtomicity.TwoLotsOfOneIdStopDisposal` give inputs; the last is a book that one acquisition
  booked twice leads to (`LotAtomicity.BookingTwiceGivesTwoLots`), since `acquire` does not compare
  ids. `LotAtomicity.FailedDisposalChangesBookIff` and `LotAtomicity.FailedTransferChangesBookIff`
  give the exact conditions on every book that calls can leave behind, half-done and repeated ones
  included: the one hypothesis is a collision-free lot hash (`LotIdentity.EveryRunStaysConsistent`).
  `LotAtomicity.CarefulRunConserves` gives a bound under which the promise holds over whole runs.
- A lot that a failed call has left empty stays in the book until the next call that succeeds, and
  `crates/treasury-fairvalue/src/valuation.rs:105-121` values it: its asset needs a price
  (`ValuationSuccess.ValueBookOkIff`) and gets a position of no atoms (`Valuation.ReportExact`), which
  the next transfer removes. So a transfer is invisible to valuation exactly when every asset with a
  lot is held (`ValuationTransfers.TransferIsInvisible`;
  `ValuationTransfers.EmptyLotMakesTransferVisible` gives an input).
- An inclusion proof states the tree size itself. With a wrong size a head can verify at a position
  that is not its own (`Inclusion.WrongSizeMisplacesIndex`). Membership holds for every size
  (`Inclusion.InclusionSound`); `Inclusion.AcceptedIff` says exactly which proofs are accepted, and
  `Inclusion.TrustworthyIff` exactly which claimed positions can be relied on.
- `crates/treasury-gl/src/drive.rs:24-27` calls an absent batch safe to retry by the caller. A second
  `post_batch` on the same protocol is refused at the release
  (`PostingDrive.RetryableIsNeverDrivenAgain`); the
  retry that works goes through `begin_submit` (`PostingTheory.HonestRetryVerifies`).

## Model

| member | source | states |
|---|---|---|
| Merkle.SplitPointUnique | crates/treasury-evidence/src/merkle.rs:50-58 | exactly one power of two lies below n and not below half of it, and it is the split point |
| Merkle.LargestPowerOfTwoBelow | crates/treasury-evidence/src/merkle.rs:52-58 | the doubling loop with saturating multiplication finds the split point of every representable size |
| Merkle.EntriesOfRoot | crates/treasury-evidence/src/merkle.rs:20-48 | the ordered entries can be read back out of any tree head |
| Merkle.RootInjective | crates/treasury-evidence/src/merkle.rs:20-48 | equal tree heads mean equal ordered lists, of any lengths |
| Merkle.SmallTrees | crates/treasury-evidence/src/merkle.rs:20-48 | the heads of the trees of no, one, two, three and five entries, byte for byte of their prefixes |
| Inclusion.VerifyInclusion | crates/treasury-anchor/src/aggregation.rs:67-91 | the bit-shifting loop decides acceptance as the level-by-level climb defines it, malformed proofs included |
| Inclusion.TurnsFromTop | crates/treasury-anchor/src/aggregation.rs:67-112 | the turns taken by shifting the index bottom-up are those of the recursive splits read top-down, in every unbalanced tree |
| Inclusion.RebuildExact | crates/treasury-anchor/src/aggregation.rs:67-112 | climbing an unbalanced tree bottom-up reaches its root if and only if it starts from the right leaf hash with the right audit path |
| Inclusion.AcceptedIff | crates/treasury-anchor/src/aggregation.rs:67-91 | whatever a proof claims, it is accepted if and only if it carries the head and the audit path of some entry and its index and size stand for the turns of that entry |
| Inclusion.TrustworthyIff | crates/treasury-anchor/src/aggregation.rs:67-91 | a claimed index and size always speak of the head at that index if and only if every entry with the same turns is that head |
| Inclusion.InclusionExact | crates/treasury-anchor/src/aggregation.rs:67-112 | with the true tree size a proof is accepted if and only if the head is the one at the claimed index and the path is its audit path |
| Inclusion.AggregateVerifies | crates/treasury-anchor/src/aggregation.rs:49-112 | there is no aggregation exactly of no heads; the i-th proof of one carries index i, the number of heads and the audit path of the i-th head, and is accepted against its root |
| Inclusion.InclusionSound | crates/treasury-anchor/src/aggregation.rs:67-91 | whatever index, size and path a proof claims, an accepted head is one of the aggregated heads |
| Inclusion.TrueSizeIsTrustworthy | crates/treasury-anchor/src/aggregation.rs:67-91 | a proof with the true tree size always speaks of the head at its index |
| Inclusion.WrongSizeMisplacesIndex | crates/treasury-anchor/src/aggregation.rs:67-91 | over three heads a proof with size two is accepted for a different head than the one at its index, while size four misplaces none |
| EvidenceStore.InMemoryEvidenceStore.PutBytes | crates/treasury-evidence/src/store.rs:71-78 | storing returns the content address, is idempotent and keeps the store's invariant |
| EvidenceStore.PutKeepsInvariant | crates/treasury-evidence/src/store.rs:71-94 | a stored item can be read back at once, order grows only at the end, and a second put changes nothing |
| EvidenceStore.StoredForever | crates/treasury-evidence/src/store.rs:71-94 | a stored item is read back and passes its integrity check after any later puts |
| EvidenceStore.StoreAnswers | crates/treasury-evidence/src/store.rs:80-105 | reading answers under exactly the keys stored, with bytes that hash to the key; a head is given for exactly the prefixes held, the longest being the own head |
| EvidenceStore.VerifyExact | crates/treasury-evidence/src/store.rs:87-94 | in any store, tampered or not, the integrity check passes exactly for an item whose bytes hash to its key |
| AnchorLog.Log.Append | crates/treasury-anchor/src/log.rs:29-47 | a receipt is admitted if and only if the log stays ordered in time and coverage; a refusal changes nothing |
| AnchorLog.Log.VerifyAgainst | crates/treasury-anchor/src/log.rs:69-88 | passes if and only if every receipt covers a prefix the store still has, and otherwise names the first failure |
| AnchorLog.RefusedTruly | crates/treasury-anchor/src/log.rs:29-47 | a refused receipt is not later than the last one or covers less, as the error says |
| AnchorLog.CheckReceiptExact | crates/treasury-anchor/src/log.rs:69-88 | a failed receipt covers more than the store holds, or has another head than the one named |
| AnchorLog.AnchoredPrefixIsUnique | crates/treasury-anchor/src/log.rs:58-88 | two stores that pass one log agree entry for entry up to the latest receipt's count |
| AnchorLog.PassesAfterPuts | crates/treasury-anchor/src/log.rs:58-88 | a store that passes still passes after any sequence of puts |
| AnchorLog.PassesIffExtendsAnchoredPrefix | crates/treasury-anchor/src/log.rs:29-88 | given one passing store, another passes if and only if it extends the prefix under the latest receipt |
| AnchorLog.EveryRunVerifies | crates/treasury-anchor/src/log.rs:29-88 | in every run of puts and anchorings the log verifies against the live store |
| AnchorLog.AnchoringFailsOnlyOnTime | crates/treasury-anchor/src/log.rs:29-47 | anchoring the current head is refused only for its time, never for coverage |
| LotBooks.LotBook.AcquireLot | crates/treasury-lots/src/book.rs:83-127 | the new list of lots and the result, refusals included |
| LotMeaning.AcquireAcceptedIff | crates/treasury-lots/src/book.rs:93-126 | accepted if and only if the quantity is positive and the money is of one currency and not negative; then the lot described is the last of the book and its hash is returned; a refusal changes nothing and names a true reason |
| LotBooks.LotBook.PlanRelief | crates/treasury-lots/src/book.rs:268-325 | the plan, or the error, that the value-level planning gives |
| LotBooks.LotBook.ApplyPlan | crates/treasury-lots/src/book.rs:349-383 | the edited list of lots and the reliefs, half-applied failures included |
| LotBooks.LotBook.DisposeLots | crates/treasury-lots/src/book.rs:178-207 | the new list of lots and the disposal report or error |
| LotBooks.LotBook.TransferLots | crates/treasury-lots/src/book.rs:215-265 | the new list of lots and the ids returned, or the error, half-applied failures included |
| LotMeaning.TransferLotByLot | crates/treasury-lots/src/book.rs:215-265 | a transfer relieves lots of the asset at the old venue, each of the floor share of its money, and leaves all others; each relief arrives as one lot at the new venue with the date of the lot it came from, its id as origin and the event given; arrivals add up to the quantity asked for and their ids are returned in order |
| LotMeaning.DisposalLotByLot | crates/treasury-lots/src/book.rs:178-207 | a disposal relieves lots of the asset at the venue as planned and leaves all others; the report carries the reliefs, their total basis, the proceeds and the difference, in one currency |
| LotReliefTheory.ProRataIsFloor | crates/treasury-lots/src/book.rs:385-391 | the share is the floor of the exact share, or an overflow exactly when the product does not fit |
| LotReliefTheory.RelieveLotExact | crates/treasury-lots/src/book.rs:349-383 | one relief succeeds exactly when both products fit, splits atoms, basis and fee without loss, and leaves no money in an emptied lot |
| LotReliefTheory.LotLifetimeRounding | crates/treasury-lots/src/book.rs:349-391 | after k reliefs of T of N atoms the basis relieved R satisfies B·T/N − k < R ≤ B·T/N, and, for B > 0, R = B if and only if T = N; the same for the fee |
| LotReliefTheory.PlanExact | crates/treasury-lots/src/book.rs:268-325 | a plan takes exactly the atoms asked for, from lots of that asset at that venue, and never more than a lot holds |
| LotReliefTheory.FifoIsOldestFirst | crates/treasury-lots/src/book.rs:268-325 | a lot of the asset at the venue is touched before every one acquired after it, or at the same time under a greater id |
| LotReliefTheory.SpecificKeepsOrder | crates/treasury-lots/src/book.rs:268-325 | named lots are taken in the order named |
| LotReliefTheory.FifoPlanExistsIff | crates/treasury-lots/src/book.rs:268-325 | a first-in-first-out plan exists if and only if the quantity is positive and held at that venue and the holdings there can be added up |
| LotMeaning.SpecificPlanExistsIff | crates/treasury-lots/src/book.rs:268-325 | a plan over named lots exists if and only if every id names a lot of the asset at the venue and these hold the positive quantity |
| LotMeaning.PlanRefusalIsTrue | crates/treasury-lots/src/book.rs:268-325 | the reason planning gives is true: an id without a lot, a lot elsewhere, the quantity held, or a total that does not fit |
| LotMeaning.AdmittedIff | crates/treasury-lots/src/book.rs:178-207 | a disposal gets past planning if and only if a plan exists and every planned lot has its basis in the currency of the proceeds |
| LotMeaning.BasisCurrencyIff | crates/treasury-lots/src/book.rs:328-346 | a plan has a currency if and only if it is not empty and every lot it names has a basis in it |
| LotConservation.TransferConserves | crates/treasury-lots/src/book.rs:215-265 | a transfer leaves atoms, basis and fee per asset and currency as they were |
| LotConservation.DisposeConserves | crates/treasury-lots/src/book.rs:178-207 | a disposal takes out of the book exactly the atoms, basis and fee it reports |
| LotConservation.RunConserves | crates/treasury-lots/src/book.rs:83-265 | over every run of successful operations, acquired equals relieved plus held per asset and currency, and every open lot has positive atoms and non-negative money |
| LotConservation.EveryRunConserves | crates/treasury-lots/src/book.rs:83-265 | over every run, refused and half-done operations included, acquired equals relieved plus held plus what the failed operations lost |
| LotIdentity.EveryRunStaysConsistent | crates/treasury-lots/src/book.rs:83-383 | with a collision-free lot hash every run, whatever is booked how often and whatever fails, leaves no money in an empty lot, and lots of one id were opened alike |
| LotIdentity.ReachableBooksConserve | crates/treasury-lots/src/book.rs:83-383 | conservation and consistency of every book that calls on an empty one can produce |
| LotIdentity.DistinctOpeningsKeepIdsDistinct | crates/treasury-lots/src/book.rs:83-265 | if moreover no opening is booked twice, lot ids are distinct after every call |
| LotLives.RunLife | crates/treasury-lots/src/book.rs:349-383 | the reliefs one lot of the book receives over any run, from whichever calls, follow on one another, also where it shares its id |
| LotLives.RoundingOverRuns | crates/treasury-lots/src/book.rs:349-391 | the rounding bound holds of the reliefs any lot receives over any run of the book, and the rest is still in the lot |
| LotAtomicity.DisposeSucceedsIff | crates/treasury-lots/src/book.rs:178-207 | a disposal that got past planning succeeds if and only if no lot repeats, all products fit and the totals fit |
| LotAtomicity.FailedDisposalChangesBookIff | crates/treasury-lots/src/book.rs:166-207 | on every consistent book, which calls never leave, exactly when a failed disposal has changed it |
| LotAtomicity.FailedTransferChangesBookIff | crates/treasury-lots/src/book.rs:215-265 | the same for a failed transfer |
| LotAtomicity.NamingALotTwiceEmptiesIt | crates/treasury-lots/src/book.rs:268-383 | an input for which a failed disposal empties a lot |
| LotAtomicity.EmptyLotStopsDisposal | crates/treasury-lots/src/book.rs:268-391 | an input, on a book with an emptied lot, for which a first-in-first-out disposal that names each lot once fails half done |
| LotAtomicity.TwoLotsOfOneIdStopDisposal | crates/treasury-lots/src/book.rs:268-391 | an input, on a book with two lots of one id, for which a first-in-first-out disposal fails half done |
| LotAtomicity.BookingTwiceGivesTwoLots | crates/treasury-lots/src/book.rs:83-207 | booking one acquisition twice and disposing of some of it leads to such a book |
| LotAtomicity.BoundedDisposalIsAtomic | crates/treasury-lots/src/book.rs:168-207 | within the bound, with each lot named once and proceeds not negative, a disposal succeeds or fails at planning with the book unchanged |
| LotAtomicity.BoundedTransferIsAtomic | crates/treasury-lots/src/book.rs:215-265 | within the bound a transfer succeeds or fails at planning with the book unchanged |
| LotAtomicity.OperationsKeepBounded | crates/treasury-lots/src/book.rs:83-265 | a successful operation preserves the bound, except exactly an acquisition whose own products or basis total exceed it |
| LotAtomicity.CarefulRunConserves | crates/treasury-lots/src/book.rs:83-265 | over a run within the bound, refused calls change nothing and acquired equals relieved plus held |
| LotAtomicity.DisposalReport | crates/treasury-lots/src/book.rs:178-207 | a disposal takes exactly the atoms asked for, and the gain is proceeds less the basis that left the book |
| Valuation.ComputeValue | crates/treasury-fairvalue/src/valuation.rs:88-159 | the loops over lots and assets compute the report of the value-level function, errors included |
| Valuation.ReportExact | crates/treasury-fairvalue/src/valuation.rs:88-159 | one position per asset that has a lot and no other, no asset twice, in name order, with the book's balances, atoms times price rounded toward zero and its mark, in the currency of the snapshot |
| Valuation.ReportTotals | crates/treasury-fairvalue/src/valuation.rs:121-159 | a report has the date of its snapshot, and its totals are the sums over its positions in the currency of the snapshot |
| ValuationSuccess.RefusedTruly | crates/treasury-fairvalue/src/valuation.rs:88-159 | a refused valuation names an asset of the book without a price or with a useless one, a lot in another currency, or an amount that does not fit |
| ValuationSuccess.ValueBookOkIff | crates/treasury-fairvalue/src/valuation.rs:88-159 | exactly when a book can be valued: currency, balances, a usable price for every asset that has a lot, marks and running totals |
| Valuation.UnrealizedAddsUp | crates/treasury-fairvalue/src/valuation.rs:121-159 | total unrealized is total fair value less the book's total basis |
| Valuation.ValueDependsOnBalances | crates/treasury-fairvalue/src/valuation.rs:88-159 | books with equal balances and lots of the same assets have equal values |
| ValuationTransfers.EmptyLotsAddPositions | crates/treasury-fairvalue/src/valuation.rs:88-159 | dropping the empty lots of a book drops exactly the positions without atoms from its report |
| ValuationTransfers.TransferIsInvisible | crates/treasury-fairvalue/src/valuation.rs:88-159 | a book that can be valued can be valued after any transfer, with the same totals and the positions that have atoms; the report is identical if and only if every asset with a lot is held |
| ValuationTransfers.GoodBooksHoldAll | crates/treasury-fairvalue/src/valuation.rs:88-159 | in a book without empty lots every asset with a lot is held, so every transfer is invisible |
| ValuationTransfers.EmptyLotMakesTransferVisible | crates/treasury-fairvalue/src/valuation.rs:88-159 | an input for which a transfer changes the report |
| Matcher.RunMatcher | crates/treasury-reconcile/src/matcher.rs:74-209 | the two passes and the blocker computation produce the value-level outcome |
| MatcherTheory.EveryProposalJustified | crates/treasury-reconcile/src/matcher.rs:99-181 | every proposal names an outflow and an inflow of the input with the evidence of its tier in numbers: tier 0 shares transaction and asset; tiers 1 and 2 have inflow plus fee equal to outflow in one asset, not earlier and within the window; a tier-1 partner was the only one of the same address then free, and only below the materiality threshold is it netted without a human |
| MatcherTheory.NoLegConsumedTwice | crates/treasury-reconcile/src/matcher.rs:99-181 | tier-0 and tier-1 proposals share no leg |
| MatcherTheory.EveryLegAccountedFor | crates/treasury-reconcile/src/matcher.rs:183-209 | every leg is in a proposal or unmatched, never both |
| MatcherTheory.NothingPairableLeftBehind | crates/treasury-reconcile/src/matcher.rs:99-245 | an unmatched outflow and an inflow not consumed neither share a transaction and asset, nor is inflow plus fee the outflow in one asset within the window |
| MatcherTheory.TestsMean | crates/treasury-reconcile/src/matcher.rs:211-245 | the tests of the matcher in numbers: expected amount after the fee, window, shared transaction, shared address, threshold |
| MatcherTheory.MixedTenantsIff | crates/treasury-reconcile/src/matcher.rs:74-82 | refused if and only if two legs are of different tenants |
| MatcherTheory.ProposalsInSequence | crates/treasury-reconcile/src/matcher.rs:86-181 | proposals are listed tier 0 first and then by the time and id of the outflow |
| MatcherTheory.UnmatchedInOrder | crates/treasury-reconcile/src/matcher.rs:194-201 | the unmatched legs are listed in strictly increasing order of their ids |
| MatcherTheory.QueuedExact | crates/treasury-reconcile/src/matcher.rs:183-193 | the decisions that block the close are those of the queued proposals, in order |
| MatcherTheory.ClosePermittedIff | crates/treasury-reconcile/src/matcher.rs:27-33 | the close is permitted if and only if every leg is named by a proposal and every proposal nets by itself |
| MatcherTheory.PermittedCloseIsPerfect | crates/treasury-reconcile/src/matcher.rs:27-209 | when the close is permitted the proposals pair all outflows with all inflows one to one, same asset, all auto-netted |
| MatcherTheory.MatchForgetsOrder | crates/treasury-reconcile/src/matcher.rs:74-209 | any permutation of the legs gives the identical proposals, decisions and unmatched legs |
| CanonWriter.CanonicalBytes | crates/treasury-evidence/src/canon.rs:29-85 | writing succeeds if and only if there is no non-integer number and no part nests deeper than 128; the bytes are the canonical text; a refusal names a true reason |
| JsonTheory.CanonicalRoundTrip | crates/treasury-evidence/src/canon.rs:29-91 | a parser recovers the value, fields rearranged, from its canonical text |
| JsonTheory.CanonicalTextIdentifies | crates/treasury-evidence/src/canon.rs:1-91 | two encodable values have one canonical text if and only if they are equal up to field order |
| JsonMeaning.CanonicalTextMeans | crates/treasury-evidence/src/canon.rs:1-91 | the canonical text is the text of the same value with, at every level, the keys of an object strictly ascending: at the first position where two keys differ the earlier has the smaller character or ends |
| JsonMeaning.SampleText | crates/treasury-evidence/src/canon.rs:29-85 | the text of an object with a list, in both orders of its fields |
| JsonMeaning.EscapesAreShort | crates/treasury-evidence/src/canon.rs:87-91 | the seven short escapes are used where there is one, other control characters take six characters, and everything else stands for itself |
| JsonMeaning.NoLeadingZero | crates/treasury-evidence/src/canon.rs:43-51 | integers are written without leading zeros |
| JsonMeaning.DepthLimit | crates/treasury-evidence/src/canon.rs:35-38 | 128 levels can be written and 129 cannot |
| Ledger.InMemoryLedger.AppendEvent | crates/treasury-ledger/src/ledger.rs:62-133 | the new streams, index and superseded set, or the first broken rule with nothing changed |
| LedgerTheory.AppendAcceptedIff | crates/treasury-ledger/src/ledger.rs:62-133 | accepted if and only if the provenance is of the kind its layer demands, the time is later than all of the stream, the event corrected, if any, is an uncorrected one of the same stream and layer, and the payload can be hashed; a refusal names a true reason |
| LedgerTheory.ProvenanceBacks | crates/treasury-ledger/src/event.rs:71-78 | observations come with a source, derived facts with code and inputs, judgments with approvers, policy outputs with their module |
| LedgerTheory.AppendBooks | crates/treasury-ledger/src/ledger.rs:62-133 | an accepted append puts the draft and time given at the end of the stream, linked to the last id and under the hash returned; nothing else changes, and nothing when refused |
| Ledger.InMemoryLedger.VerifyChain | crates/treasury-ledger/src/ledger.rs:157-174 | the loop gives the verdict of the chain check, first violation first |
| Ledger.InMemoryLedger.ActiveAsOf | crates/treasury-ledger/src/ledger.rs:135-155 | the events booked by a time and not superseded by it |
| LedgerTheory.CheckChainExact | crates/treasury-ledger/src/ledger.rs:157-174 | the chain check passes if and only if every event names its predecessor and carries its own hash |
| LedgerTheory.CheckChainFailsAt | crates/treasury-ledger/src/ledger.rs:157-174 | a failed check names the first event that is not linked, or says that it cannot be hashed |
| LedgerTheory.ReachableLedgersAreSound | crates/treasury-ledger/src/ledger.rs:62-133 | the indexes, chains, times and supersessions are consistent in every ledger that appends can produce |
| LedgerTheory.ReachableChainsVerify | crates/treasury-ledger/src/ledger.rs:157-174 | the chain check passes for every tenant in every reachable ledger |
| LedgerTheory.LastIdDeterminesStream | crates/treasury-ledger/src/event.rs:118-158 | two streams of one tenant that pass the check and end in one id are equal event for event and in length |
| LedgerTheory.AppendKeepsHistory | crates/treasury-ledger/src/ledger.rs:62-155 | an append at time k leaves every query before k, and every other tenant, as it was |
| LedgerTheory.HistoryIsFrozen | crates/treasury-ledger/src/ledger.rs:62-155 | once a stream has reached a time, no later appends change what the books say as of that time |
| LedgerTheory.ActiveIsLatest | crates/treasury-ledger/src/ledger.rs:84-155 | an event is active if and only if it is the latest link of its correction chain |
| LedgerTheory.CorrectionsFormPaths | crates/treasury-ledger/src/ledger.rs:62-155 | in every reachable ledger a query lists exactly the latest link of each chain begun by then, one per chain, each of the tenant and layer of the chain's first event |
| LedgerTheory.CorrectionAcceptedIff | crates/treasury-ledger/src/ledger.rs:84-111 | a supersession is accepted if and only if its target is active in the tenant's own books and of the same layer |
| LogFile.CutLogReopens | crates/treasury-ledger/src/file.rs:50-94 | a log cut anywhere reopens with recovery to the state after its complete records, and without recovery if and only if it was cut between records |
| LogFile.RunSurvivesCrash | crates/treasury-evidence/src/file.rs:48-130 | for any backend whose records replay its commands, the log of any run cut anywhere reopens to the state after the completed commands and continues as if the torn one had not been given |
| LogFile.ReplayOutcome | crates/treasury-ledger/src/file.rs:77-86 | replay of any lines goes through if and only if each is read as a record that applies, and otherwise names the first line where this fails and why |
| LogFile.TornIff | crates/treasury-ledger/src/file.rs:60-94 | any text is refused as torn if and only if it does not end with a newline and recovery is not asked for; one that opens is cut back to its last newline |
| LogFile.LineEndings | crates/treasury-ledger/src/file.rs:77-78 | a carriage return before the newline is no part of the line |
| FileLedgers.FileLedger.Reopen | crates/treasury-ledger/src/file.rs:50-94 | the replay loop gives the state, file or error of the value-level opening, for any text |
| FileLedgers.FileLedger.AppendEvent | crates/treasury-ledger/src/file.rs:96-123 | an accepted append adds its one line to the file, a refused one nothing |
| FileLedgers.LedgerSurvivesCrash | crates/treasury-ledger/src/file.rs:50-123 | the log of any run cut anywhere reopens to the ledger after the commands whose records are complete |
| FileLedgers.RecoveredLedgerContinues | crates/treasury-ledger/src/file.rs:50-123 | appends after recovery give the ledger and log of a run without the torn append |
| FileLedgers.OpenedLedgerIsSound | crates/treasury-ledger/src/file.rs:4-10 | whatever a file holds, a ledger that opens satisfies the invariant and all its chains verify |
| FileLedgers.OpenedLedgerHoldsRecords | crates/treasury-ledger/src/file.rs:74-94 | whatever a file holds, if it opens every complete line is a record and the events of each tenant are its records, in order, with equal id, time and draft |
| FileLedgers.ForgedRecordRefused | crates/treasury-ledger/src/file.rs:77-86 | a record whose id is not the hash of its content at its place in the chain makes opening fail at its line |
| FileLedgers.SameIdsSameEvents | crates/treasury-ledger/src/file.rs:79-86 | two journals with the same ids have the same events, up to the order of fields inside payloads |
| FileEvidence.FileEvidenceStore.Reopen | crates/treasury-evidence/src/file.rs:48-103 | the replay loop gives the store, file or error of the value-level opening, for any text |
| FileEvidence.FileEvidenceStore.PutBytes | crates/treasury-evidence/src/file.rs:105-130 | a new item adds one line to the file, a repeated one nothing |
| FileEvidence.StoreSurvivesCrash | crates/treasury-evidence/src/file.rs:48-130 | the log of any puts cut anywhere reopens to the store after the puts whose records are complete |
| FileEvidence.RecoveredStoreContinues | crates/treasury-evidence/src/file.rs:48-130 | puts after recovery give the store and log of a run without the torn put |
| FileEvidence.OpenedStoreIsSound | crates/treasury-evidence/src/file.rs:4-9 | whatever a file holds, in a store that opens every item passes its integrity check |
| FileEvidence.OpenedStoreHoldsRecords | crates/treasury-evidence/src/file.rs:72-103 | whatever a file holds, if it opens every complete line is a record under the hash of its item, and the store is what these items make |
| FileEvidence.ForgedItemRefused | crates/treasury-evidence/src/file.rs:88-90 | a record whose hash is not that of its item makes opening fail at its line |
| DualControl.DualControlQueue.ConfirmItem | crates/treasury-core/src/dual_control.rs:80-93 | the new items and the error, in the order the rules are checked |
| DualControl.DecisionsAreFinal | crates/treasury-core/src/dual_control.rs:66-115 | over any operations an item keeps its payload, preparer and decision, and is never confirmed by its preparer |
| DualControl.OperationsMean | crates/treasury-core/src/dual_control.rs:66-115 | a proposal waits under its preparer and is never replaced; only a waiting item can be decided, and confirmed only by another actor; refusals change nothing |
| DualControl.RejectionStands | crates/treasury-core/src/dual_control.rs:95-115 | a rejected item keeps the rejection with its actor and reason over any operations, and every later confirmation is refused |
| Posting.PostingProtocol.ReleaseBatch | crates/treasury-posting/src/protocol.rs:83-94 | the new approvals and states: the approval is confirmed before the state is looked at |
| Posting.PostingProtocol.VerifyBatch | crates/treasury-posting/src/protocol.rs:190-228 | the new state is the verdict of the two-way comparison |
| PostingMeaning.TransitionsMean | crates/treasury-posting/src/protocol.rs:96-182 | each transition leads from its one state to its next and touches nothing else, and is refused from every other state |
| PostingTheory.FingerprintIdentifiesSet | crates/treasury-posting/src/batch.rs:60-73 | two batches have one fingerprint if and only if they have the same set of entries |
| PostingTheory.VerdictExact | crates/treasury-posting/src/protocol.rs:206-226 | verified if and only if the two sets are equal; otherwise missing and unexpected are exactly the differences, in increasing order |
| PostingTheory.PostingIsSafe | crates/treasury-posting/src/protocol.rs:65-228 | in every run with losses, repetitions, delays and retries: two different actors before anything leaves approval, one record per id, posted means held under that reference, verified means the sets are equal |
| PostingTheory.NothingPostedUnapproved | crates/treasury-posting/src/protocol.rs:78-111 | every record in the ledger was registered and released in that run by two different actors |
| PostingTheory.VerdictsAreFinal | crates/treasury-posting/src/protocol.rs:27-42 | a verdict never changes and no record disappears |
| PostingTheory.HonestRetryVerifies | crates/treasury-posting/src/protocol.rs:155-182 | from the ready state one more attempt at an honest ledger ends verified, whether or not an earlier one had landed |
| GeneralLedger.FixtureGl.SubmitBatch | crates/treasury-gl/src/fixture.rs:64-120 | the new records, fault and sequence number, and the outcome, fault by fault |
| PostingMeaning.FirstSubmission | crates/treasury-gl/src/fixture.rs:64-145 | what a first submission is answered, whether a record is kept and what is then read back, fault by fault: all entries, all but the greatest, or all and one more |
| PostingMeaning.RepeatedSubmission | crates/treasury-gl/src/fixture.rs:64-120 | a repeated submission keeps the record and its reference under every fault |
| PostingMeaning.SubmissionKeepsRefsApartIff | crates/treasury-gl/src/fixture.rs:64-88 | references stay apart if and only if the submission makes no new record with an exhausted counter whose last value is already given out |
| PostingMeaning.SessionsKeepRefsApart | crates/treasury-gl/src/fixture.rs:64-120 | in every session of fewer calls than the counter has values no two batches share a reference |
| Drive.PostBatch | crates/treasury-gl/src/drive.rs:40-98 | the final protocol, ledger and outcome, along every path |
| PostingDrive.DriveIsARun | crates/treasury-gl/src/drive.rs:40-98 | one drive against the fixture is a run of the protocol against a deduplicating ledger |
| PostingDrive.SessionsAreSafe | crates/treasury-gl/src/drive.rs:40-98 | the guarantees hold after any session of drives and injected faults |
| PostingDrive.FirstDriveOutcome | crates/treasury-gl/src/drive.rs:40-98 | what a first drive ends in, fault by fault: verified exactly when the ledger shows the batch's entries, retry exactly when nothing was posted |
| PostingDrive.ReleasePassesIff | crates/treasury-gl/src/drive.rs:47-49 | exactly when a drive gets past the release |
| PostingDrive.RetryableIsNeverDrivenAgain | crates/treasury-gl/src/drive.rs:24-74 | after a drive that reported a safe retry, every further drive of the batch is refused at the release and changes nothing |
| PostingDrive.SecondDriveRefused | crates/treasury-gl/src/drive.rs:47-49 | a batch beyond approval cannot be driven again and nothing changes |
| PostingDrive.LoneActorRefused | crates/treasury-gl/src/drive.rs:47-49 | one actor alone gets nothing into the ledger |
| Checkpoints.CheckpointDag.SealCheckpoint | crates/treasury-close/src/dag.rs:38-98 | the new lineages, index and superseded set, or the first broken rule with nothing changed |
| Checkpoints.CheckpointDag.HeadOf | crates/treasury-close/src/dag.rs:110-116 | the backwards search finds the last checkpoint not superseded |
| Checkpoints.LineagesAreLinear | crates/treasury-close/src/dag.rs:38-116 | in every reachable DAG each checkpoint after the first supersedes exactly its predecessor, and the head is the one sealed last |
| Checkpoints.SealAcceptedIff | crates/treasury-close/src/dag.rs:24-79 | sealing accepts exactly a plain first checkpoint or a justified, later supersession of the head |
| Checkpoints.SealBooks | crates/treasury-close/src/dag.rs:38-98 | an accepted sealing puts the draft and time given at the end of its lineage under the hash returned; nothing else changes, and nothing when refused |
| Checkpoints.SealRefusedTruly | crates/treasury-close/src/dag.rs:38-98 | in every reachable DAG the reason a sealing is refused for is true |
| Checkpoints.AsFiledIsPermanent | crates/treasury-close/src/dag.rs:100-105 | lineages grow only at the end, so what was filed first never changes |
| Checkpoints.AsFiledIsTheInitial | crates/treasury-close/src/dag.rs:100-105 | in every reachable DAG what was filed is the one checkpoint of its lineage that supersedes none, and there is none exactly for an empty lineage |

## Left out

- SHA-256, hexadecimal and UTF-8 encoding: hashes are ideal and canonical text is a sequence of characters.
- serde and the nesting limit of its parser: the record codec is a parameter, and a JSON number is an integer of `i64` or `u64` or a float.
- Filesystem calls, flushing, a cut inside a multi-byte character, and going on after a failed write.
- The error detail of a refused payload in `Ledger`: `Canon` does not say which part was refused; `CanonWriter.CanonicalBytes` does.
- `open_lots`, `held`, `lots_hash`, the valuation hash and key, and the method and policy fields of disposal reports: they add no state.
- Fields that only ride along (tenant of a lot, rationale texts, source labels) where no rule reads them.
- ValuationSuccess.RefusedTruly: does not say which amount did not fit; `ValuationSuccess.ValueBookOkIff` says when all do.
- PostingTheory.VerdictExact: compares sets of entries, not multisets, because the original drops repetitions before it compares.
- Acknowledgements and read-backs invented by a caller: in a run they come from the ledger.
- Concurrency between processes on one file, and everything else that needs a clock or a network.
- Order independence of the chain history hash: its sort key omits the amount, so ties are not resolved.
- Ingestion, scope, policy, accounting entries, disclosure, conformance and the anchor submitter: thin, or settled by reading one branch.
