/** A log of records, one per line: what a reader makes of a file that a writer may have
    left in the middle of a line. */
module LogFile {
  import opened Prelude

  datatype OpenError = TornTail | CorruptRecord(line: nat, detail: string)

  datatype Codec<!R> = Codec(encode: R -> string, decode: string -> Result<R, string>)

  // ------------------------------------------------------------------------------
  // Reading.

  /** The length up to and including the last newline. */
  function CompleteLen(raw: string): (n: nat)
    ensures n <= |raw|
  {
    if raw == [] then 0
    else if raw[|raw| - 1] == '\n' then |raw|
    else CompleteLen(raw[..|raw| - 1])
  }

  /** The length of the first line, without its newline. */
  function LineLen(s: string): (n: nat)
    ensures n <= |s|
  {
    if s == [] || s[0] == '\n' then 0 else 1 + LineLen(s[1..])
  }

  /** A carriage return before the newline belongs to the line ending. */
  function StripReturn(line: string): string {
    if line != [] && line[|line| - 1] == '\r' then line[..|line| - 1] else line
  }

  function Lines(s: string): seq<string>
    decreases |s|
  {
    if s == [] then []
    else
      var n := LineLen(s);
      if n == |s| then [s] else [StripReturn(s[..n])] + Lines(s[n + 1..])
  }

  /** Reads the records from line `i` on, each checked against the state so far. */
  function Replay<S, R>(s: S, lines: seq<string>, i: nat, codec: Codec<R>, apply: (S, R) -> Result<S, string>): Result<S, OpenError>
    requires i <= |lines|
    decreases |lines| - i
  {
    if i == |lines| then Ok(s)
    else match codec.decode(lines[i])
      case Err(detail) => Err(CorruptRecord(i, detail))
      case Ok(record) =>
        match apply(s, record)
        case Err(detail) => Err(CorruptRecord(i, detail))
        case Ok(s') => Replay(s', lines, i + 1, codec, apply)
  }

  /** The state a file opens to, and the file afterwards. */
  function Open<S, R>(raw: string, recover: bool, s: S, codec: Codec<R>, apply: (S, R) -> Result<S, string>): Result<(S, string), OpenError> {
    var n := CompleteLen(raw);
    if n < |raw| && !recover then Err(TornTail)
    else match Replay(s, Lines(raw[..n]), 0, codec, apply)
      case Err(e) => Err(e)
      case Ok(s') => Ok((s', raw[..n]))
  }

  // ------------------------------------------------------------------------------
  // Writing.

  function LineText<R>(record: R, codec: Codec<R>): string { codec.encode(record) + "\n" }

  function LogText<R>(records: seq<R>, codec: Codec<R>): string {
    if records == [] then [] else LineText(records[0], codec) + LogText(records[1..], codec)
  }

  /** The record is read back from its line, which contains no line ending. */
  ghost predicate Faithful<R>(record: R, codec: Codec<R>) {
    var line := codec.encode(record);
    && codec.decode(line) == Ok(record) && (forall i :: 0 <= i < |line| ==> line[i] != '\n')
    && (line != [] ==> line[|line| - 1] != '\r')
  }

  ghost predicate AllFaithful<R>(records: seq<R>, codec: Codec<R>) {
    forall i :: 0 <= i < |records| ==> Faithful(records[i], codec)
  }

  /** The state after the records, if each of them applies. */
  function ApplyAll<S, R>(s: S, records: seq<R>, apply: (S, R) -> Result<S, string>): Result<S, string>
    decreases |records|
  {
    if records == [] then Ok(s)
    else match apply(s, records[0])
      case Err(e) => Err(e)
      case Ok(s') => ApplyAll(s', records[1..], apply)
  }

  /** How many records lie wholly within the first `cut` characters. */
  ghost function CompleteRecords<R>(records: seq<R>, cut: nat, codec: Codec<R>): (n: nat)
    ensures n <= |records|
  {
    if records == [] || cut < |LineText(records[0], codec)| then 0
    else 1 + CompleteRecords(records[1..], cut - |LineText(records[0], codec)|, codec)
  }

  lemma {:induction false} LogAppend<R>(a: seq<R>, b: seq<R>, codec: Codec<R>)
    ensures LogText(a + b, codec) == LogText(a, codec) + LogText(b, codec)
    decreases |a|
  {
    if a == [] {
      assert a + b == b;
    } else {
      assert (a + b)[0] == a[0] && (a + b)[1..] == a[1..] + b;
      LogAppend(a[1..], b, codec);
    }
  }

  // ------------------------------------------------------------------------------
  // A cut log read back.

  lemma {:induction false} NoNewline(s: string)
    requires forall i :: 0 <= i < |s| ==> s[i] != '\n'
    ensures CompleteLen(s) == 0
  {
    if s != [] { NoNewline(s[..|s| - 1]); }
  }

  lemma {:induction false} CompleteLenAfter(front: string, back: string)
    requires front != [] && front[|front| - 1] == '\n'
    ensures CompleteLen(front + back) == |front| + CompleteLen(back)
    decreases |back|
  {
    if back == [] {
      assert front + back == front;
    } else {
      var last := |back| - 1;
      assert (front + back)[..|front| + last] == front + back[..last];
      CompleteLenAfter(front, back[..last]);
    }
  }

  lemma {:induction false} FirstLine(line: string, rest: string)
    requires forall i :: 0 <= i < |line| ==> line[i] != '\n'
    ensures LineLen(line + "\n" + rest) == |line|
  {
    var s := line + "\n" + rest;
    if line != [] {
      assert s[1..] == line[1..] + "\n" + rest;
      FirstLine(line[1..], rest);
    }
  }

  lemma LinesStep(line: string, rest: string)
    requires forall i :: 0 <= i < |line| ==> line[i] != '\n'
    requires line != [] ==> line[|line| - 1] != '\r'
    ensures Lines(line + "\n" + rest) == [line] + Lines(rest)
  {
    FirstLine(line, rest);
    var s := line + "\n" + rest;
    assert s[..|line|] == line && s[|line| + 1..] == rest;
  }

  lemma {:induction false} LinesOfLog<R>(records: seq<R>, codec: Codec<R>)
    requires AllFaithful(records, codec)
    ensures |Lines(LogText(records, codec))| == |records|
    ensures forall i :: 0 <= i < |records| ==> Lines(LogText(records, codec))[i] == codec.encode(records[i])
  {
    if records != [] {
      assert Faithful(records[0], codec);
      LinesOfLog(records[1..], codec);
      LinesStep(codec.encode(records[0]), LogText(records[1..], codec));
    }
  }

  lemma {:induction false} ReplayFrom<S, R>(s: S, records: seq<R>, lines: seq<string>, i: nat, codec: Codec<R>, apply: (S, R) -> Result<S, string>)
    requires i <= |records| == |lines| && AllFaithful(records, codec)
    requires forall k :: 0 <= k < |records| ==> lines[k] == codec.encode(records[k])
    requires ApplyAll(s, records[i..], apply).Ok?
    ensures Replay(s, lines, i, codec, apply) == Ok(ApplyAll(s, records[i..], apply).value)
    decreases |records| - i
  {
    if i < |records| {
      assert Faithful(records[i], codec);
      assert records[i..][0] == records[i] && records[i..][1..] == records[i + 1..];
      var s' := apply(s, records[i]).value;
      ReplayFrom(s', records, lines, i + 1, codec, apply);
    }
  }

  lemma {:induction false} ApplyPrefix<S, R>(s: S, records: seq<R>, n: nat, apply: (S, R) -> Result<S, string>)
    requires ApplyAll(s, records, apply).Ok? && n <= |records|
    ensures ApplyAll(s, records[..n], apply).Ok?
    decreases n
  {
    if n > 0 {
      assert records[..n][0] == records[0] && records[..n][1..] == records[1..][..n - 1];
      ApplyPrefix(apply(s, records[0]).value, records[1..], n - 1, apply);
    }
  }

  lemma CutInLine(line: string, rest: string, cut: nat)
    requires cut <= |line| && forall i :: 0 <= i < |line| ==> line[i] != '\n'
    ensures CompleteLen((line + "\n" + rest)[..cut]) == 0
  {
    assert (line + "\n" + rest)[..cut] == line[..cut];
    NoNewline(line[..cut]);
  }

  lemma CutAfterLine(line: string, rest: string, cut: nat)
    requires line != [] && line[|line| - 1] == '\n' && |line| <= cut <= |line + rest|
    ensures (line + rest)[..cut] == line + rest[..cut - |line|]
    ensures CompleteLen((line + rest)[..cut]) == |line| + CompleteLen(rest[..cut - |line|])
  {
    assert (line + rest)[..cut] == line + rest[..cut - |line|];
    CompleteLenAfter(line, rest[..cut - |line|]);
  }

  lemma LogOfPrefix<R>(records: seq<R>, n: nat, codec: Codec<R>)
    requires n < |records|
    ensures LogText(records[..n + 1], codec) == LineText(records[0], codec) + LogText(records[1..][..n], codec)
  {
    assert records[..n + 1][0] == records[0] && records[..n + 1][1..] == records[1..][..n];
  }

  /** The complete part of a cut log is the log of the complete records. */
  lemma {:induction false} CompletePart<R>(records: seq<R>, cut: nat, codec: Codec<R>)
    requires AllFaithful(records, codec) && cut <= |LogText(records, codec)|
    ensures var raw, done := LogText(records, codec)[..cut], LogText(records[..CompleteRecords(records, cut, codec)], codec);
      CompleteLen(raw) == |done| && done <= raw
  {
    assert records[..0] == [];
    if records != [] {
      var line, rest := LineText(records[0], codec), LogText(records[1..], codec);
      assert Faithful(records[0], codec);
      if cut < |line| {
        CutInLine(codec.encode(records[0]), rest, cut);
      } else {
        CutAfterLine(line, rest, cut);
        CompletePart(records[1..], cut - |line|, codec);
        LogOfPrefix(records, CompleteRecords(records[1..], cut - |line|, codec), codec);
      }
    }
  }

  lemma {:induction false} BoundaryIsComplete<R>(records: seq<R>, n: nat, codec: Codec<R>)
    requires n <= |records|
    ensures CompleteRecords(records, |LogText(records[..n], codec)|, codec) == n
    decreases n
  {
    if n > 0 {
      assert records[..n][0] == records[0] && records[..n][1..] == records[1..][..n - 1];
      BoundaryIsComplete(records[1..], n - 1, codec);
    } else {
      assert records[..0] == [];
    }
  }

  ghost predicate AtBoundary<R>(records: seq<R>, cut: nat, codec: Codec<R>) {
    exists n :: 0 <= n <= |records| && cut == |LogText(records[..n], codec)|
  }

  /** Crash recovery: a log cut anywhere opens, with recovery, to the state after the
      complete records and is shortened to them; it opens without recovery if and only if
      it was cut between records, and then to the same. */
  lemma CutLogReopens<S, R>(s: S, records: seq<R>, cut: nat, codec: Codec<R>, apply: (S, R) -> Result<S, string>) returns (n: nat)
    requires AllFaithful(records, codec) && ApplyAll(s, records, apply).Ok? && cut <= |LogText(records, codec)|
    ensures n == CompleteRecords(records, cut, codec) && ApplyAll(s, records[..n], apply).Ok?
    ensures Open(LogText(records, codec)[..cut], true, s, codec, apply)
         == Ok((ApplyAll(s, records[..n], apply).value, LogText(records[..n], codec)))
    ensures Open(LogText(records, codec)[..cut], false, s, codec, apply)
         == if AtBoundary(records, cut, codec) then Open(LogText(records, codec)[..cut], true, s, codec, apply) else Err(TornTail)
  {
    n := CompleteRecords(records, cut, codec);
    var raw, done, kept := LogText(records, codec)[..cut], LogText(records[..n], codec), records[..n];
    CompletePart(records, cut, codec);
    ApplyPrefix(s, records, n, apply);
    LinesOfLog(kept, codec);
    assert kept[0..] == kept;
    ReplayFrom(s, kept, Lines(done), 0, codec, apply);
    assert raw[..|done|] == done;
    assert AtBoundary(records, cut, codec) <==> |done| == cut by {
      if m :| 0 <= m <= |records| && cut == |LogText(records[..m], codec)| { BoundaryIsComplete(records, m, codec); }
    }
  }

  // ------------------------------------------------------------------------------
  // What opening makes of any text.

  /** A carriage return before the newline is no part of the line. */
  lemma LineEndings(line: string, rest: string)
    requires forall i :: 0 <= i < |line| ==> line[i] != '\n'
    ensures Lines(line + "\r\n" + rest) == [line] + Lines(rest)
  {
    var full := line + "\r";
    FirstLine(full, rest);
    assert line + "\r\n" + rest == full + "\n" + rest;
    var s := full + "\n" + rest;
    assert s[..|full|] == full && s[|full| + 1..] == rest && full[..|line|] == line;
  }

  /** The records that the lines from `i` on are read as. */
  ghost predicate ReadAs<R>(lines: seq<string>, i: nat, records: seq<R>, codec: Codec<R>) {
    i + |records| <= |lines| && forall k :: 0 <= k < |records| ==> codec.decode(lines[i + k]) == Ok(records[k])
  }

  /** Why this line is refused in this state. */
  ghost predicate RefusedFor<S, R>(line: string, s: S, codec: Codec<R>, apply: (S, R) -> Result<S, string>, detail: string) {
    match codec.decode(line)
    case Err(d) => d == detail
    case Ok(record) => apply(s, record) == Err(detail)
  }

  /** Replay goes through exactly when every line is read as a record and every record
      applies; otherwise it names the first line where this fails, and why. */
  lemma {:induction false} ReplayOutcome<S, R>(s: S, lines: seq<string>, i: nat, codec: Codec<R>, apply: (S, R) -> Result<S, string>)
    returns (records: seq<R>)
    requires i <= |lines|
    ensures ReadAs(lines, i, records, codec) && ApplyAll(s, records, apply).Ok?
    ensures var reached := ApplyAll(s, records, apply).value;
      match Replay(s, lines, i, codec, apply)
      case Ok(s') => i + |records| == |lines| && s' == reached
      case Err(e) =>
        && i + |records| < |lines| && e.CorruptRecord? && e.line == i + |records|
        && RefusedFor(lines[i + |records|], reached, codec, apply, e.detail)
    decreases |lines| - i
  {
    records := [];
    if i < |lines| && codec.decode(lines[i]).Ok? {
      var r := codec.decode(lines[i]).value;
      if apply(s, r).Ok? {
        var rest := ReplayOutcome(apply(s, r).value, lines, i + 1, codec, apply);
        records := [r] + rest;
        assert records[1..] == rest;
        forall k | 0 <= k < |records| ensures codec.decode(lines[i + k]) == Ok(records[k]) {
          if k > 0 { assert records[k] == rest[k - 1] && lines[i + k] == lines[i + 1 + (k - 1)]; }
        }
      }
    }
  }

  /** A record that does not apply after the records before it makes replay fail at its line. */
  lemma {:induction false} ReplayFailsAt<S, R>(s: S, lines: seq<string>, i: nat, records: seq<R>, codec: Codec<R>, apply: (S, R) -> Result<S, string>, detail: string)
    requires ReadAs(lines, i, records, codec) && ApplyAll(s, records, apply).Ok? && i + |records| < |lines|
    requires RefusedFor(lines[i + |records|], ApplyAll(s, records, apply).value, codec, apply, detail)
    ensures Replay(s, lines, i, codec, apply) == Err(CorruptRecord(i + |records|, detail))
    decreases |records|
  {
    if records != [] {
      var rest := records[1..];
      assert codec.decode(lines[i + 0]) == Ok(records[0]);
      forall k | 0 <= k < |rest| ensures codec.decode(lines[i + 1 + k]) == Ok(rest[k]) {
        assert rest[k] == records[k + 1] && lines[i + 1 + k] == lines[i + (k + 1)];
      }
      ReplayFailsAt(apply(s, records[0]).value, lines, i + 1, rest, codec, apply, detail);
    }
  }

  /** The complete part of a text ends with its last newline. */
  lemma {:induction false} CompleteEnds(raw: string)
    ensures var n := CompleteLen(raw);
      (n > 0 ==> raw[n - 1] == '\n') && forall i :: n <= i < |raw| ==> raw[i] != '\n'
  {
    if raw != [] && raw[|raw| - 1] != '\n' { CompleteEnds(raw[..|raw| - 1]); }
  }

  /** A text is refused as torn exactly when it does not end with a newline and recovery is
      not asked for; one that opens is cut back to its last newline and to nothing less. */
  lemma TornIff<S, R>(raw: string, recover: bool, s: S, codec: Codec<R>, apply: (S, R) -> Result<S, string>)
    ensures var r := Open(raw, recover, s, codec, apply);
      && (r == Err(TornTail) <==> !recover && raw != [] && raw[|raw| - 1] != '\n')
      && (r.Ok? ==>
            && r.value.1 <= raw && (r.value.1 != [] ==> r.value.1[|r.value.1| - 1] == '\n')
            && forall i :: |r.value.1| <= i < |raw| ==> raw[i] != '\n')
  {
    CompleteEnds(raw);
    var records := ReplayOutcome(s, Lines(raw[..CompleteLen(raw)]), 0, codec, apply);
  }

  // ------------------------------------------------------------------------------
  // Whole runs.

  /** A backend: what a command does to the state, the record it writes, if any, and what
      reading the record does. */
  datatype Backend<!S, !C, !R> = Backend(step: (S, C) -> S, emit: (S, C) -> Option<R>, apply: (S, R) -> Result<S, string>)

  function RunAll<S, C, R>(s: S, commands: seq<C>, b: Backend<S, C, R>): S
    decreases |commands|
  {
    if commands == [] then s else RunAll(b.step(s, commands[0]), commands[1..], b)
  }

  function First<R>(r: Option<R>): seq<R> { match r case Some(x) => [x] case None => [] }

  /** The records that a run writes. */
  function Written<S, C, R>(s: S, commands: seq<C>, b: Backend<S, C, R>): seq<R>
    decreases |commands|
  {
    if commands == [] then []
    else First(b.emit(s, commands[0])) + Written(b.step(s, commands[0]), commands[1..], b)
  }

  lemma WrittenByOne<S, C, R>(s: S, c: C, b: Backend<S, C, R>, codec: Codec<R>)
    ensures LogText(Written(s, [c], b), codec) == match b.emit(s, c) case Some(r) => LineText(r, codec) case None => ""
  {
    assert [c][1..] == [];
    assert Written(s, [c], b) == First(b.emit(s, c));
    match b.emit(s, c)
    case Some(r) =>
      assert [r][1..] == [];
      assert LogText([r], codec) == LineText(r, codec) + LogText([], codec);
    case None =>
  }

  /** Reading a record does what the command did that wrote it, and a command that writes
      nothing does nothing. */
  ghost predicate Replayable<S(!new), C(!new), R>(b: Backend<S, C, R>) {
    forall s, c :: match b.emit(s, c) case None => b.step(s, c) == s case Some(r) => b.apply(s, r) == Ok(b.step(s, c))
  }

  /** Replaying what a run wrote rebuilds its state. */
  lemma {:induction false} WrittenReplays<S(!new), C(!new), R>(s: S, commands: seq<C>, b: Backend<S, C, R>)
    requires Replayable(b)
    ensures ApplyAll(s, Written(s, commands, b), b.apply) == Ok(RunAll(s, commands, b))
    decreases |commands|
  {
    if commands != [] {
      var c := commands[0];
      WrittenReplays(b.step(s, c), commands[1..], b);
      var rest := Written(b.step(s, c), commands[1..], b);
      match b.emit(s, c)
      case Some(r) => assert ([r] + rest)[1..] == rest;
      case None => assert [] + rest == rest;
    }
  }

  /** The first `n` records were written by the first `m` commands. */
  lemma {:induction false} WrittenPrefix<S, C, R>(s: S, commands: seq<C>, b: Backend<S, C, R>, n: nat) returns (m: nat)
    requires n <= |Written(s, commands, b)|
    ensures m <= |commands| && Written(s, commands[..m], b) == Written(s, commands, b)[..n]
    decreases |commands|
  {
    if n == 0 {
      m := 0;
    } else {
      var head, s' := First(b.emit(s, commands[0])), b.step(s, commands[0]);
      var m' := WrittenPrefix(s', commands[1..], b, n - |head|);
      m := m' + 1;
      assert commands[..m][0] == commands[0] && commands[..m][1..] == commands[1..][..m'];
      assert Written(s, commands, b)[..n] == head + Written(s', commands[1..], b)[..n - |head|];
    }
  }

  lemma {:induction false} RunAppend<S, C, R>(s: S, x: seq<C>, y: seq<C>, b: Backend<S, C, R>)
    ensures RunAll(s, x + y, b) == RunAll(RunAll(s, x, b), y, b)
    ensures Written(s, x + y, b) == Written(s, x, b) + Written(RunAll(s, x, b), y, b)
    decreases |x|
  {
    if x == [] {
      assert x + y == y;
    } else {
      assert (x + y)[0] == x[0] && (x + y)[1..] == x[1..] + y;
      RunAppend(b.step(s, x[0]), x[1..], y, b);
    }
  }

  /** The log of any run, cut anywhere, reopens to the state after the commands whose records
      are complete, and to their log; plain opening works exactly at a boundary; and what is
      done afterwards is as if the torn command had never been given. */
  lemma RunSurvivesCrash<S(!new), C(!new), R>(s: S, commands: seq<C>, b: Backend<S, C, R>, cut: nat, codec: Codec<R>) returns (m: nat)
    requires var records := Written(s, commands, b);
      Replayable(b) && AllFaithful(records, codec) && cut <= |LogText(records, codec)|
    ensures m <= |commands|
    ensures var records := Written(s, commands, b);
      var raw, survivors := LogText(records, codec)[..cut], commands[..m];
      && Written(s, survivors, b) == records[..CompleteRecords(records, cut, codec)]
      && Open(raw, true, s, codec, b.apply) == Ok((RunAll(s, survivors, b), LogText(Written(s, survivors, b), codec)))
      && Open(raw, false, s, codec, b.apply)
         == if AtBoundary(records, cut, codec) then Open(raw, true, s, codec, b.apply) else Err(TornTail)
    ensures forall more :: ContinuesAs(s, commands[..m], more, b, codec)
  {
    var records := Written(s, commands, b);
    WrittenReplays(s, commands, b);
    var n := CutLogReopens(s, records, cut, codec, b.apply);
    m := WrittenPrefix(s, commands, b, n);
    WrittenReplays(s, commands[..m], b);
    forall more ensures ContinuesAs(s, commands[..m], more, b, codec) { Continues(s, commands[..m], more, b, codec); }
  }

  /** Going on from a state and its log gives the state and the log of one run. */
  ghost predicate ContinuesAs<S, C, R>(s: S, survivors: seq<C>, more: seq<C>, b: Backend<S, C, R>, codec: Codec<R>) {
    var now := RunAll(s, survivors, b);
    && RunAll(now, more, b) == RunAll(s, survivors + more, b)
    && LogText(Written(s, survivors, b), codec) + LogText(Written(now, more, b), codec)
       == LogText(Written(s, survivors + more, b), codec)
  }

  lemma Continues<S, C, R>(s: S, survivors: seq<C>, more: seq<C>, b: Backend<S, C, R>, codec: Codec<R>)
    ensures ContinuesAs(s, survivors, more, b, codec)
  {
    RunAppend(s, survivors, more, b);
    LogAppend(Written(s, survivors, b), Written(RunAll(s, survivors, b), more, b), codec);
  }
}
