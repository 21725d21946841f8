/** Canonical text is unambiguous: parsing recovers the value, and two values have the same
    canonical text exactly when they differ in nothing but the order of fields. */
module JsonTheory {
  import opened Prelude
  import opened Sorting
  import opened Filtering
  import opened StringOrder
  import opened Json

  // ------------------------------------------------------------------------------
  // Strings.

  lemma EscapeCharRoundTrip(c: char, rest: string)
    ensures ParseChar(EscapeChar(c) + rest) == Parsed(c, rest)
    ensures EscapeChar(c) != [] && EscapeChar(c)[0] != '\"'
  {
    var e := EscapeChar(c);
    var s := e + rest;
    assert s[|e|..] == rest;
    if c < ' ' && |e| == 6 {
      assert c as int == 16 * (c as int / 16) + c as int % 16;
      assert s[..6] == e;
    }
  }

  lemma {:induction false} EscapeRoundTrip(s: string, rest: string)
    ensures ParseStringRest(Escape(s) + "\"" + rest) == Parsed(s, rest)
  {
    if s == [] {
      assert Escape(s) + "\"" + rest == ['\"'] + rest;
    } else {
      var tail := Escape(s[1..]) + "\"" + rest;
      assert Escape(s) + "\"" + rest == EscapeChar(s[0]) + tail;
      EscapeCharRoundTrip(s[0], tail);
      EscapeRoundTrip(s[1..], rest);
      assert [s[0]] + s[1..] == s;
    }
  }

  lemma StringRoundTrip(s: string, rest: string)
    ensures ParseString(StringText(s) + rest) == Parsed(s, rest)
  {
    EscapeRoundTrip(s, rest);
    Quoted(Escape(s), rest);
  }

  lemma Quoted(inner: string, rest: string)
    ensures var s := ("\"" + inner + "\"") + rest;
      s != [] && s[0] == '\"' && s[1..] == inner + "\"" + rest
  {
  }

  // ------------------------------------------------------------------------------
  // Numbers.

  /** The text does not continue a number. */
  ghost predicate Ends(rest: string) { rest == [] || !IsDecimal(rest[0]) }

  /** Reading the digits of `n` after `acc` appends them to `acc`. */
  ghost function Shifted(acc: nat, n: nat): nat {
    if n < 10 then 10 * acc + n else 10 * Shifted(acc, n / 10) + n % 10
  }

  lemma {:induction false} ShiftedZero(n: nat)
    ensures Shifted(0, n) == n
  {
    if n >= 10 { ShiftedZero(n / 10); }
  }

  lemma DigitChar(d: nat)
    requires d < 10
    ensures IsDecimal(Digit(d)) && Digit(d) as int - '0' as int == d
  {
  }

  lemma {:induction false} ParseDigits(s: string, acc: nat, n: nat, rest: string)
    requires s == Decimal(n) + rest
    ensures ParseDecimal(s, acc) == ParseDecimal(rest, Shifted(acc, n))
    decreases n
  {
    if n < 10 {
      DigitChar(n);
      assert s[0] == Digit(n) && s[1..] == rest;
    } else {
      DigitChar(n % 10);
      var tail := [Digit(n % 10)] + rest;
      assert s == Decimal(n / 10) + tail;
      ParseDigits(s, acc, n / 10, tail);
      assert tail[1..] == rest;
    }
  }

  lemma {:induction false} DecimalStarts(n: nat)
    ensures Decimal(n) != [] && IsDecimal(Decimal(n)[0])
  {
    if n < 10 { DigitChar(n); } else { DecimalStarts(n / 10); }
  }

  lemma DecimalRoundTrip(n: nat, rest: string)
    requires Ends(rest)
    ensures ParseDecimal(Decimal(n) + rest, 0) == Parsed(n, rest)
  {
    ParseDigits(Decimal(n) + rest, 0, n, rest);
    ShiftedZero(n);
  }

  lemma DigitsRead(n: nat, rest: string) returns (digits: string)
    requires Ends(rest)
    ensures digits == Decimal(n) + rest && Decimal(n) != [] && IsDecimal(Decimal(n)[0])
    ensures digits != [] && IsDecimal(digits[0])
    ensures ParseDecimal(digits[1..], digits[0] as int - '0' as int) == Parsed(n, rest)
  {
    digits := Decimal(n) + rest;
    DecimalStarts(n);
    DecimalRoundTrip(n, rest);
    assert ParseDecimal(digits, 0) == ParseDecimal(digits[1..], digits[0] as int - '0' as int);
  }

  lemma IntRoundTrip(n: int, rest: string)
    requires Ends(rest)
    ensures ParseInt(IntText(n) + rest) == Parsed(n, rest)
    ensures IntText(n) != [] && (IntText(n)[0] == '-' || IsDecimal(IntText(n)[0]))
  {
    var m := if n < 0 then -n else n;
    var digits := DigitsRead(m, rest);
    if n < 0 { Bracketed('-', Decimal(m), rest); }
    if n < 0 { assert (IntText(n) + rest)[2..] == digits[1..]; }
  }

  // ------------------------------------------------------------------------------
  // Values.

  lemma WordRoundTrip(word: string, v: Json, rest: string)
    requires word != []
    ensures ParseWord(word + rest, word, v) == Parsed(v, rest)
  {
    assert (word + rest)[..|word|] == word && (word + rest)[|word|..] == rest;
  }

  lemma {:induction false} TextRoundTrip(v: Json, rest: string)
    requires FloatFree(v) && Ends(rest)
    ensures ParseValue(Text(v) + rest) == Parsed(v, rest)
    decreases v, 0
  {
    match v
    case Null => WordRoundTrip("null", v, rest);
    case Bool(b) => WordRoundTrip(if b then "true" else "false", v, rest);
    case Int(n) => IntRoundTrip(n, rest);
    case Str(t) => StringRoundTrip(t, rest);
    case Arr(items) =>
      ItemsRoundTrip(items, 0, rest);
      ArrayRoundTrip(items, rest);
    case Obj(fields) =>
      FieldsRoundTrip(fields, 0, rest);
      ObjectRoundTrip(fields, rest);
  }

  lemma ArrayRoundTrip(items: seq<Json>, rest: string)
    requires ParseItems(ItemsText(items, 0) + rest, true) == Parsed(items[0..], rest)
    ensures ParseValue(Text(Arr(items)) + rest) == Parsed(Arr(items), rest)
  {
    Bracketed('[', ItemsText(items, 0), rest);
    assert items[0..] == items;
  }

  lemma ObjectRoundTrip(fields: seq<Field>, rest: string)
    requires ParseFields(FieldsText(fields, 0) + rest, true) == Parsed(fields[0..], rest)
    ensures ParseValue(Text(Obj(fields)) + rest) == Parsed(Obj(fields), rest)
  {
    Bracketed('{', FieldsText(fields, 0), rest);
    assert fields[0..] == fields;
  }

  lemma Bracketed(open: char, inner: string, rest: string)
    ensures ([open] + inner + rest)[0] == open && ([open] + inner + rest)[1..] == inner + rest
  {
  }

  lemma {:induction false} TextStarts(v: Json)
    requires FloatFree(v)
    ensures Text(v) != [] && Text(v)[0] != ']' && Text(v)[0] != '}' && Text(v)[0] != ','
  {
    if v.Int? { IntRoundTrip(v.n, []); }
  }

  lemma TailEnds(items: seq<Json>, fields: seq<Field>, i: nat, rest: string)
    ensures 0 < i <= |items| ==> Ends(ItemsText(items, i) + rest)
    ensures 0 < i <= |fields| ==> Ends(FieldsText(fields, i) + rest)
  {
  }

  lemma SkipComma(first: bool, t: string)
    requires t != [] && t[0] != ']' && t[0] != '}'
    ensures AfterComma(Comma(first) + t, first) == Some(t)
    ensures (Comma(first) + t)[0] != ']' && (Comma(first) + t)[0] != '}'
  {
    assert "" + t == t && ("," + t)[1..] == t;
  }

  lemma SliceFrom<T>(xs: seq<T>, i: nat)
    requires i < |xs|
    ensures [xs[i]] + xs[i + 1..] == xs[i..]
  {
  }

  /** One element of an array: `t` is the text after the separator, `tail` what follows. */
  lemma ItemStep(s: string, first: bool, t: string, v: Json, tail: string, vs: seq<Json>, rest: string)
    requires s != [] && s[0] != ']' && AfterComma(s, first) == Some(t)
    requires ParseValue(t) == Parsed(v, tail) && ParseItems(tail, false) == Parsed(vs, rest)
    ensures ParseItems(s, first) == Parsed([v] + vs, rest)
  {
  }

  lemma FieldStep(s: string, first: bool, t: string, f: Field, colon: string, tail: string, fs: seq<Field>, rest: string)
    requires s != [] && s[0] != '}' && AfterComma(s, first) == Some(t)
    requires ParseString(t) == Parsed(f.key, colon) && colon != [] && colon[0] == ':'
    requires ParseValue(colon[1..]) == Parsed(f.value, tail) && ParseFields(tail, false) == Parsed(fs, rest)
    ensures ParseFields(s, first) == Parsed([f] + fs, rest)
  {
  }

  /** The text of the items from `i` on, taken apart. */
  lemma ItemsStart(items: seq<Json>, i: nat, rest: string) returns (s: string, t: string, tail: string)
    requires i < |items| && FloatFree(items[i])
    ensures s == ItemsText(items, i) + rest && s != [] && s[0] != ']' && AfterComma(s, i == 0) == Some(t)
    ensures t == Text(items[i]) + tail && tail == ItemsText(items, i + 1) + rest && Ends(tail)
  {
    var head, more := Text(items[i]), ItemsText(items, i + 1);
    s, t, tail := ItemsText(items, i) + rest, head + (more + rest), more + rest;
    TextStarts(items[i]);
    TailEnds(items, [], i + 1, rest);
    RegroupItem(Comma(i == 0), head, more, rest);
    SkipComma(i == 0, t);
  }

  /** One more item in front of items that are read back. */
  lemma ItemsCons(items: seq<Json>, i: nat, rest: string)
    requires i < |items| && FloatFree(items[i])
    requires ParseValue(Text(items[i]) + (ItemsText(items, i + 1) + rest)) == Parsed(items[i], ItemsText(items, i + 1) + rest)
    requires ParseItems(ItemsText(items, i + 1) + rest, false) == Parsed(items[i + 1..], rest)
    ensures ParseItems(ItemsText(items, i) + rest, i == 0) == Parsed(items[i..], rest)
  {
    var s, t, tail := ItemsStart(items, i, rest);
    ItemStep(s, i == 0, t, items[i], tail, items[i + 1..], rest);
    SliceFrom(items, i);
  }

  lemma {:induction false} ItemsRoundTrip(items: seq<Json>, i: nat, rest: string)
    requires i <= |items| && forall j :: 0 <= j < |items| ==> FloatFree(items[j])
    ensures ParseItems(ItemsText(items, i) + rest, i == 0) == Parsed(items[i..], rest)
    decreases items, |items| - i
  {
    if i == |items| {
      Bracketed(']', "", rest);
      assert items[i..] == [];
    } else {
      TailEnds(items, [], i + 1, rest);
      TextRoundTrip(items[i], ItemsText(items, i + 1) + rest);
      ItemsRoundTrip(items, i + 1, rest);
      ItemsCons(items, i, rest);
    }
  }

  lemma FieldsStart(fields: seq<Field>, i: nat, rest: string) returns (s: string, t: string, colon: string, tail: string)
    requires i < |fields|
    ensures s == FieldsText(fields, i) + rest && s != [] && s[0] != '}' && AfterComma(s, i == 0) == Some(t)
    ensures ParseString(t) == Parsed(fields[i].key, colon) && colon != [] && colon[0] == ':'
    ensures colon[1..] == Text(fields[i].value) + tail && tail == FieldsText(fields, i + 1) + rest && Ends(tail)
  {
    var head, value, more := StringText(fields[i].key), Text(fields[i].value), FieldsText(fields, i + 1);
    s, tail := FieldsText(fields, i) + rest, more + rest;
    colon := ":" + (value + tail);
    t := head + colon;
    TailEnds([], fields, i + 1, rest);
    Regroup(Comma(i == 0), head, value, more, rest);
    SkipComma(i == 0, t);
    assert colon[1..] == value + tail;
    StringRoundTrip(fields[i].key, colon);
  }

  /** One more field in front of fields that are read back. */
  lemma FieldsCons(fields: seq<Field>, i: nat, rest: string)
    requires i < |fields|
    requires var tail := FieldsText(fields, i + 1) + rest;
      ParseValue(Text(fields[i].value) + tail) == Parsed(fields[i].value, tail)
    requires ParseFields(FieldsText(fields, i + 1) + rest, false) == Parsed(fields[i + 1..], rest)
    ensures ParseFields(FieldsText(fields, i) + rest, i == 0) == Parsed(fields[i..], rest)
  {
    var s, t, colon, tail := FieldsStart(fields, i, rest);
    FieldStep(s, i == 0, t, fields[i], colon, tail, fields[i + 1..], rest);
    SliceFrom(fields, i);
  }

  lemma {:induction false} FieldsRoundTrip(fields: seq<Field>, i: nat, rest: string)
    requires i <= |fields| && forall j :: 0 <= j < |fields| ==> FloatFree(fields[j].value)
    ensures ParseFields(FieldsText(fields, i) + rest, i == 0) == Parsed(fields[i..], rest)
    decreases fields, |fields| - i
  {
    if i == |fields| {
      Bracketed('}', "", rest);
      assert fields[i..] == [];
    } else {
      TailEnds([], fields, i + 1, rest);
      TextRoundTrip(fields[i].value, FieldsText(fields, i + 1) + rest);
      FieldsRoundTrip(fields, i + 1, rest);
      FieldsCons(fields, i, rest);
    }
  }

  lemma RegroupItem(comma: string, head: string, more: string, rest: string)
    ensures (comma + head + more) + rest == comma + (head + (more + rest))
  {
  }

  lemma Regroup(comma: string, head: string, value: string, more: string, rest: string)
    ensures (comma + head + ":" + value + more) + rest == comma + (head + (":" + (value + (more + rest))))
  {
  }

  // ------------------------------------------------------------------------------
  // Normal forms.

  lemma {:induction false} NormalKeepsFloatFree(v: Json)
    ensures FloatFree(v) ==> FloatFree(Normal(v))
    decreases v
  {
    match v
    case Arr(items) =>
      forall i | 0 <= i < |items| ensures FloatFree(items[i]) ==> FloatFree(NormalItems(items)[i]) {
        NormalKeepsFloatFree(items[i]);
        NormalItemsAt(items, i);
      }
    case Obj(fields) =>
      var fs := NormalFields(fields);
      forall i | 0 <= i < |fields| ensures FloatFree(fields[i].value) ==> FloatFree(fs[i].value) {
        NormalKeepsFloatFree(fields[i].value);
        NormalFieldsAt(fields, i);
      }
      SortMembers(fs, KeyLeq);
      forall i | 0 <= i < |fs| && FloatFree(v) ensures FloatFree(SortBy(fs, KeyLeq)[i].value) {
        assert SortBy(fs, KeyLeq)[i] in fs;
      }
    case _ =>
  }

  /** Invertibility: the parser recovers the value, in key order, from the text. */
  lemma CanonicalRoundTrip(v: Json)
    requires FloatFree(v)
    ensures ParseText(CanonicalText(v)) == Some(Normal(v))
  {
    NormalKeepsFloatFree(v);
    TextRoundTrip(Normal(v), []);
    assert Text(Normal(v)) + [] == Text(Normal(v));
  }

  // ------------------------------------------------------------------------------
  // Equality up to field order.

  function FindKey(fields: seq<Field>, key: string): (r: Option<nat>)
    ensures r.Some? ==> r.value < |fields| && fields[r.value].key == key
    ensures r.None? ==> forall i :: 0 <= i < |fields| ==> fields[i].key != key
  {
    if fields == [] then None
    else if fields[0].key == key then Some(0)
    else match FindKey(fields[1..], key) case Some(i) => Some(i + 1) case None => None
  }

  /** The same value but for the order of fields, at any level. */
  ghost predicate Same(a: Json, b: Json)
    decreases a
  {
    match a
    case Arr(xs) => b.Arr? && |xs| == |b.items| && forall i :: 0 <= i < |xs| ==> Same(xs[i], b.items[i])
    case Obj(fs) =>
      && b.Obj? && |fs| == |b.fields|
      && forall i :: 0 <= i < |fs| ==>
           && FindKey(b.fields, fs[i].key).Some?
           && Same(fs[i].value, b.fields[FindKey(b.fields, fs[i].key).value].value)
    case _ => a == b
  }

  lemma FindKeyUnique(fields: seq<Field>, i: nat)
    requires DistinctKeys(fields) && i < |fields|
    ensures FindKey(fields, fields[i].key) == Some(i)
  {
    var r := FindKey(fields, fields[i].key);
    assert r.Some?;
  }

  lemma NormalFieldsDistinct(fields: seq<Field>)
    requires DistinctKeys(fields)
    ensures DistinctKeys(NormalFields(fields))
  {
    forall i | 0 <= i < |fields| ensures NormalFields(fields)[i].key == fields[i].key { NormalFieldsAt(fields, i); }
  }

  lemma KeyOrder(fs: seq<Field>)
    requires DistinctKeys(fs)
    ensures TotalPreorder(KeyLeq) && Distinguishes(KeyLeq, fs)
  {
    StringsAreOrdered();
    forall x, y | x in fs && y in fs && KeyLeq(x, y) && KeyLeq(y, x) ensures x == y {
      var i :| 0 <= i < |fs| && fs[i] == x;
      var j :| 0 <= j < |fs| && fs[j] == y;
      assert i == j;
    }
  }

  /** Among lists without repeated keys, inclusion and equal length make a permutation. */
  lemma IncludedIsPermuted(a: seq<Field>, b: seq<Field>)
    requires DistinctKeys(a) && DistinctKeys(b) && |a| == |b| && forall f :: f in a ==> f in b
    ensures multiset(a) == multiset(b)
  {
    forall f ensures multiset(a)[f] <= multiset(b)[f] {
      DistinctCount(a, (x: Field) => x.key, f);
      DistinctCount(b, (x: Field) => x.key, f);
    }
    var extra := multiset(b) - multiset(a);
    assert multiset(a) + extra == multiset(b);
    assert |multiset(a)| + |extra| == |multiset(b)|;
    assert extra == multiset{};
  }

  /** Values that agree up to field order have one normal form. */
  lemma {:induction false} SameGivesNormal(a: Json, b: Json)
    requires WellFormed(a) && WellFormed(b) && Same(a, b)
    ensures Normal(a) == Normal(b)
    decreases a
  {
    match a
    case Arr(xs) =>
      forall i | 0 <= i < |xs| ensures NormalItems(xs)[i] == NormalItems(b.items)[i] {
        SameGivesNormal(xs[i], b.items[i]);
        NormalItemsAt(xs, i);
        NormalItemsAt(b.items, i);
      }
      assert NormalItems(xs) == NormalItems(b.items);
    case Obj(fs) =>
      var gs := b.fields;
      var x, y := NormalFields(fs), NormalFields(gs);
      forall i | 0 <= i < |fs| ensures x[i] in y {
        var j := FindKey(gs, fs[i].key).value;
        SameGivesNormal(fs[i].value, gs[j].value);
        NormalFieldsAt(fs, i);
        NormalFieldsAt(gs, j);
        assert y[j] == x[i];
      }
      NormalFieldsDistinct(fs);
      NormalFieldsDistinct(gs);
      IncludedIsPermuted(x, y);
      KeyOrder(x);
      SortForgetsOrder(x, y, KeyLeq);
    case _ =>
  }

  lemma SameSorted(x: seq<Field>, y: seq<Field>)
    requires SortBy(x, KeyLeq) == SortBy(y, KeyLeq)
    ensures |x| == |y| && forall i :: 0 <= i < |x| ==> x[i] in y
  {
    SortMembers(x, KeyLeq);
    SortMembers(y, KeyLeq);
    forall i | 0 <= i < |x| ensures x[i] in y { assert x[i] in SortBy(x, KeyLeq); }
  }

  /** One normal form only for values that agree up to field order. */
  lemma {:induction false} NormalGivesSame(a: Json, b: Json)
    requires WellFormed(a) && WellFormed(b) && Normal(a) == Normal(b)
    ensures Same(a, b)
    decreases a
  {
    match a
    case Arr(xs) =>
      forall i | 0 <= i < |xs| ensures Same(xs[i], b.items[i]) {
        NormalItemsAt(xs, i);
        NormalItemsAt(b.items, i);
        NormalGivesSame(xs[i], b.items[i]);
      }
    case Obj(fs) =>
      var gs := b.fields;
      var x, y := NormalFields(fs), NormalFields(gs);
      SameSorted(x, y);
      forall i | 0 <= i < |fs|
        ensures FindKey(gs, fs[i].key).Some? && Same(fs[i].value, gs[FindKey(gs, fs[i].key).value].value)
      {
        var j :| 0 <= j < |y| && y[j] == x[i];
        NormalFieldsAt(fs, i);
        NormalFieldsAt(gs, j);
        FindKeyUnique(gs, j);
        NormalGivesSame(fs[i].value, gs[j].value);
      }
    case _ =>
  }

  /** Unambiguity: two values that can be encoded have the same canonical text if and only
      if they are the same up to the order of fields. */
  lemma CanonicalTextIdentifies(a: Json, b: Json)
    requires WellFormed(a) && WellFormed(b) && FloatFree(a) && FloatFree(b)
    ensures CanonicalText(a) == CanonicalText(b) <==> Same(a, b)
  {
    CanonicalRoundTrip(a);
    CanonicalRoundTrip(b);
    if CanonicalText(a) == CanonicalText(b) { NormalGivesSame(a, b); }
    if Same(a, b) { SameGivesNormal(a, b); }
  }
}
