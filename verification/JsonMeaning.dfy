/** What canonical text is, said without the functions that write it: keys ascend by their
    characters at every level, escapes are the short ones, numbers have no leading zeros. */
module JsonMeaning {
  import opened Prelude
  import opened Sorting
  import opened Filtering
  import opened StringOrder
  import opened Json
  import opened JsonTheory

  // ------------------------------------------------------------------------------
  // Key order.

  ghost predicate AscendingKeys(fields: seq<Field>) {
    forall i, j :: 0 <= i < j < |fields| ==> Before(fields[i].key, fields[j].key)
  }

  /** At every level the keys of an object ascend by their characters, none twice. */
  ghost predicate Ascending(v: Json) {
    match v
    case Arr(items) => forall i :: 0 <= i < |items| ==> Ascending(items[i])
    case Obj(fields) => AscendingKeys(fields) && forall i :: 0 <= i < |fields| ==> Ascending(fields[i].value)
    case _ => true
  }

  lemma NormalKeysDistinct(fields: seq<Field>)
    requires DistinctKeys(fields)
    ensures DistinctKeys(NormalFields(fields)) && DistinctKeys(SortBy(NormalFields(fields), KeyLeq))
  {
    var x, key := NormalFields(fields), (f: Field) => f.key;
    forall i, j | 0 <= i < j < |x| ensures x[i].key != x[j].key {
      NormalFieldsAt(fields, i);
      NormalFieldsAt(fields, j);
    }
    assert DistinctOn(x, key);
    DistinctPermuted(x, SortBy(x, KeyLeq), key);
    assert DistinctOn(SortBy(x, KeyLeq), key);
  }

  lemma SortedKeysAscend(fields: seq<Field>)
    requires DistinctKeys(fields)
    ensures AscendingKeys(SortBy(NormalFields(fields), KeyLeq))
  {
    var sorted := SortBy(NormalFields(fields), KeyLeq);
    NormalKeysDistinct(fields);
    StringsAreOrdered();
    assert TotalPreorder(KeyLeq);
    SortBySorted(NormalFields(fields), KeyLeq);
    forall i, j | 0 <= i < j < |sorted| ensures Before(sorted[i].key, sorted[j].key) {
      assert KeyLeq(sorted[i], sorted[j]);
      StrLeqMeans(sorted[i].key, sorted[j].key);
    }
  }

  /** In the value that is written, keys ascend at every level. */
  lemma {:induction false} NormalAscends(v: Json)
    requires WellFormed(v)
    ensures Ascending(Normal(v))
    decreases v
  {
    match v
    case Arr(items) =>
      forall i | 0 <= i < |items| ensures Ascending(NormalItems(items)[i]) {
        NormalAscends(items[i]);
        NormalItemsAt(items, i);
      }
    case Obj(fields) =>
      var x := NormalFields(fields);
      forall i | 0 <= i < |fields| ensures Ascending(x[i].value) {
        NormalAscends(fields[i].value);
        NormalFieldsAt(fields, i);
      }
      SortedKeysAscend(fields);
      SortMembers(x, KeyLeq);
      forall i | 0 <= i < |x| ensures Ascending(SortBy(x, KeyLeq)[i].value) { assert SortBy(x, KeyLeq)[i] in x; }
    case _ =>
  }

  /** And it is the same value. */
  lemma {:induction false} NormalIsSame(v: Json)
    requires WellFormed(v)
    ensures Same(v, Normal(v))
    decreases v
  {
    match v
    case Arr(items) =>
      forall i | 0 <= i < |items| ensures Same(items[i], NormalItems(items)[i]) {
        NormalIsSame(items[i]);
        NormalItemsAt(items, i);
      }
    case Obj(fields) =>
      var x := NormalFields(fields);
      var sorted := SortBy(x, KeyLeq);
      NormalKeysDistinct(fields);
      SortMembers(x, KeyLeq);
      forall i | 0 <= i < |fields|
        ensures FindKey(sorted, fields[i].key).Some? && Same(fields[i].value, sorted[FindKey(sorted, fields[i].key).value].value)
      {
        NormalIsSame(fields[i].value);
        NormalFieldsAt(fields, i);
        assert x[i] in sorted;
        var j :| 0 <= j < |sorted| && sorted[j] == x[i];
        FindKeyUnique(sorted, j);
      }
    case _ =>
  }

  /** What the text of an encodable value says: it is read back as the same value, with its
      keys ascending at every level. */
  lemma CanonicalTextMeans(v: Json)
    requires WellFormed(v) && FloatFree(v)
    ensures ParseText(CanonicalText(v)).Some?
    ensures Same(v, ParseText(CanonicalText(v)).value) && Ascending(ParseText(CanonicalText(v)).value)
  {
    CanonicalRoundTrip(v);
    NormalAscends(v);
    NormalIsSame(v);
  }

  /** One text, character by character: fields in ascending order, no blanks. */
  lemma SampleText(v: Json)
    requires v == Obj([Field("b", Int(1)), Field("a", Arr([Bool(true), Null, Str("x")]))])
    ensures CanonicalText(v) == "{" + "\"a\":[true,null,\"x\"]" + ",\"b\":1" + "}"
  {
    var list, fb := Arr([Bool(true), Null, Str("x")]), Field("b", Int(1));
    var fa := Field("a", list);
    SampleList(list);
    SampleOrder(fa, fb);
    SampleFields(fa, fb);
    TwoFields(fa, fb, "\"a\":[true,null,\"x\"]", ",\"b\":1");
  }

  lemma SampleFields(fa: Field, fb: Field)
    requires fa.key == "a" && Text(fa.value) == "[true,null,\"x\"]" && fb == Field("b", Int(1))
    ensures FieldText(fa, true) == "\"a\":[true,null,\"x\"]" && FieldText(fb, false) == ",\"b\":1"
  {
    SampleKey("a", "\"a\"");
    SampleKey("b", "\"b\"");
    assert IntText(1) == Decimal(1) == "1";
  }

  lemma TwoFields(fa: Field, fb: Field, ta: string, tb: string)
    requires FieldText(fa, true) == ta && FieldText(fb, false) == tb
    ensures Text(Obj([fa, fb])) == "{" + ta + tb + "}"
  {
    var fields := [fa, fb];
    assert FieldsText(fields, 2) == "}";
    assert FieldsText(fields, 1) == tb + "}";
    assert FieldsText(fields, 0) == ta + (tb + "}");
  }

  lemma SampleKey(key: string, text: string)
    requires |key| == 1 && (key[0] == 'a' || key[0] == 'b' || key[0] == 'x') && text == "\"" + key + "\""
    ensures StringText(key) == text
  {
    assert key[1..] == [] && EscapeChar(key[0]) == key;
    assert Escape(key) == key + Escape([]);
  }

  lemma SampleList(list: Json)
    requires list == Arr([Bool(true), Null, Str("x")])
    ensures Normal(list) == list && Text(list) == "[true,null,\"x\"]"
  {
    var items := list.items;
    assert NormalItems(items) == items by {
      forall i | 0 <= i < |items| ensures NormalItems(items)[i] == items[i] { NormalItemsAt(items, i); }
    }
    SampleKey("x", "\"x\"");
    assert ItemsText(items, 3) == "]";
    assert ItemsText(items, 2) == ",\"x\"" + "]";
    assert ItemsText(items, 1) == ",null" + ItemsText(items, 2);
    assert ItemsText(items, 0) == "true" + ItemsText(items, 1);
  }

  lemma InsertAfter(fa: Field, fb: Field)
    requires !StrLeq(fb.key, fa.key)
    ensures SortBy([fb, fa], KeyLeq) == [fa, fb]
  {
    var fields, one := [fb, fa], [fa];
    assert fields[1..] == one && one[1..] == [];
    assert SortBy(one, KeyLeq) == Insert(fa, [], KeyLeq) == one;
    assert Insert(fb, one, KeyLeq) == [fa] + Insert(fb, [], KeyLeq) == [fa, fb];
  }

  lemma SampleOrder(fa: Field, fb: Field)
    requires fa.key == "a" && fb.key == "b" && Normal(fa.value) == fa.value && Normal(fb.value) == fb.value
    ensures Normal(Obj([fb, fa])) == Obj([fa, fb])
  {
    var fields, one := [fb, fa], [fa];
    assert fields[1..] == one && one[1..] == [];
    assert NormalFields(one) == one;
    assert NormalFields(fields) == fields;
    assert !StrLeq("b", "a");
    InsertAfter(fa, fb);
  }

  // ------------------------------------------------------------------------------
  // Strings and numbers.

  /** The seven short escapes are used where there is one; other control characters take
      four lower-case hexadecimal digits; everything else stands for itself. */
  lemma EscapesAreShort(c: char)
    ensures EscapeChar('\"') == "\\\"" && EscapeChar('\\') == "\\\\"
    ensures EscapeChar('\n') == "\\n" && EscapeChar('\r') == "\\r" && EscapeChar('\t') == "\\t"
    ensures EscapeChar('\U{0008}') == "\\b" && EscapeChar('\U{000c}') == "\\f"
    ensures EscapeChar('\U{0000}') == "\\u0000" && EscapeChar('\U{001f}') == "\\u001f"
    ensures |EscapeChar(c)| == 1 <==> c >= ' ' && c != '\"' && c != '\\'
    ensures |EscapeChar(c)| == 1 ==> EscapeChar(c) == [c]
    ensures |EscapeChar(c)| == 2 <==>
      c == '\"' || c == '\\' || c == '\n' || c == '\r' || c == '\t' || c == '\U{0008}' || c == '\U{000c}'
    ensures |EscapeChar(c)| > 2 ==> |EscapeChar(c)| == 6 && EscapeChar(c)[..4] == "\\u00"
  {
  }

  /** Numbers are written without leading zeros. */
  lemma {:induction false} NoLeadingZero(n: nat)
    ensures |Decimal(n)| > 1 ==> Decimal(n)[0] != '0'
  {
    if n >= 10 {
      var tens := n / 10;
      NoLeadingZero(tens);
      if tens < 10 {
        assert Decimal(tens) == [Digit(tens)] && 1 <= tens;
        DigitIsZero(tens);
      }
      assert Decimal(n)[0] == Decimal(tens)[0];
    } else {
      assert Decimal(n) == [Digit(n)] && |Decimal(n)| == 1;
    }
  }

  lemma DigitIsZero(d: nat)
    requires d < 10
    ensures Digit(d) == '0' <==> d == 0
  {
  }

  // ------------------------------------------------------------------------------
  // Nesting.

  /** Nothing, inside `n` arrays. */
  ghost function Nested(n: nat): Json { if n == 0 then Null else Arr([Nested(n - 1)]) }

  lemma {:induction false} NestedFits(n: nat, room: int)
    ensures FloatFree(Nested(n)) && (NestsWithin(Nested(n), room) <==> n <= room)
  {
    if n > 0 {
      NestedFits(n - 1, room - 1);
      assert Nested(n).items[0] == Nested(n - 1);
    }
  }

  /** The limit: 128 levels can be written, 129 cannot. */
  lemma DepthLimit()
    ensures NestsWithin(Nested(128), MAX_DEPTH) && !NestsWithin(Nested(129), MAX_DEPTH)
  {
    NestedFits(128, MAX_DEPTH);
    NestedFits(129, MAX_DEPTH);
  }
}
