/** The writer of the original: it appends to one shared buffer, level by level. */
module CanonWriter {
  import opened Prelude
  import opened Sorting
  import opened Json

  datatype CanonError = FloatRejected(text: string) | TooDeep

  lemma {:induction false} InsertCommutes(f: Field, fs: seq<Field>)
    ensures NormalFields(Insert(f, fs, KeyLeq)) == Insert(Field(f.key, Normal(f.value)), NormalFields(fs), KeyLeq)
  {
    if fs != [] {
      assert NormalFields(fs)[1..] == NormalFields(fs[1..]);
      if !KeyLeq(f, fs[0]) {
        InsertCommutes(f, fs[1..]);
        assert Insert(f, fs, KeyLeq)[1..] == Insert(f, fs[1..], KeyLeq);
      }
    }
  }

  /** Sorting looks at keys only, so it may be done before or after normalising values. */
  lemma {:induction false} SortCommutes(fs: seq<Field>)
    ensures NormalFields(SortBy(fs, KeyLeq)) == SortBy(NormalFields(fs), KeyLeq)
  {
    if fs != [] {
      SortCommutes(fs[1..]);
      InsertCommutes(fs[0], SortBy(fs[1..], KeyLeq));
      assert NormalFields(fs)[1..] == NormalFields(fs[1..]);
    }
  }

  ghost predicate Writable(v: Json, room: int) { FloatFree(v) && NestsWithin(v, room) }

  /** The first `n` items can be written with this much room for nesting. */
  ghost predicate ItemsWritable(items: seq<Json>, n: nat, room: int)
    requires n <= |items|
  {
    forall j :: 0 <= j < n ==> Writable(items[j], room)
  }

  ghost predicate FieldsWritable(fields: seq<Field>, n: nat, room: int)
    requires n <= |fields|
  {
    forall j :: 0 <= j < n ==> Writable(fields[j].value, room)
  }

  lemma ContainersWritable(v: Json, room: int)
    requires 0 <= room
    ensures v.Arr? ==> (Writable(v, room) <==> ItemsWritable(v.items, |v.items|, room - 1))
    ensures v.Obj? ==> (Writable(v, room) <==> FieldsWritable(v.fields, |v.fields|, room - 1))
  {
    if v.Arr? && ItemsWritable(v.items, |v.items|, room - 1) {
      forall i | 0 <= i < |v.items| ensures FloatFree(v.items[i]) && NestsWithin(v.items[i], room - 1) {
        assert Writable(v.items[i], room - 1);
      }
    }
    if v.Obj? && FieldsWritable(v.fields, |v.fields|, room - 1) {
      forall i | 0 <= i < |v.fields| ensures FloatFree(v.fields[i].value) && NestsWithin(v.fields[i].value, room - 1) {
        assert Writable(v.fields[i].value, room - 1);
      }
    }
  }

  lemma FaultInItem(v: Json, i: nat, e: CanonError, room: int)
    requires v.Arr? && i < |v.items| && Truthful(e, v.items[i], room - 1)
    ensures Truthful(e, v, room)
  {
  }

  lemma FaultInField(v: Json, i: nat, e: CanonError, room: int)
    requires v.Obj? && i < |v.fields| && Truthful(e, v.fields[i].value, room - 1)
    ensures Truthful(e, v, room)
  {
  }

  /** `sorted[j]` is the field that stood at `from[j]`. */
  ghost predicate Rearranges(sorted: seq<Field>, fields: seq<Field>, from: seq<nat>) {
    && |from| == |sorted|
    && forall j :: 0 <= j < |sorted| ==> from[j] < |fields| && sorted[j] == fields[from[j]]
  }

  /** `sorted` holds the fields of the object in the order they are written. */
  ghost predicate InKeyOrder(v: Json, sorted: seq<Field>, from: seq<nat>, room: int) {
    && v.Obj? && Rearranges(sorted, v.fields, from)
    && (FieldsWritable(sorted, |sorted|, room - 1) <==> Writable(v, room))
    && CanonicalText(v) == "{" + FieldsText(NormalFields(sorted), 0)
  }

  lemma FieldBelow(v: Json, sorted: seq<Field>, from: seq<nat>, i: nat)
    requires v.Obj? && i < |sorted| && Rearranges(sorted, v.fields, from)
    ensures (sorted[i] decreases to sorted[i].value) && (v decreases to sorted[i])
    ensures NormalFields(sorted)[i] == Field(sorted[i].key, Normal(sorted[i].value))
  {
    assert sorted[i] == v.fields[from[i]];
    NormalFieldsAt(sorted, i);
  }

  /** What an error says is true of the value. */
  ghost predicate Truthful(e: CanonError, v: Json, room: int) {
    match e case TooDeep => !NestsWithin(v, room) case FloatRejected(text) => ContainsFloat(v, text)
  }

  class Writer {
    var out: string

    constructor ()
      ensures out == []
    {
      out := [];
    }

    method WriteValue(v: Json, depth: nat) returns (r: Result<(), CanonError>)
      modifies this
      ensures r.Ok? <==> Writable(v, MAX_DEPTH - depth)
      ensures r.Ok? ==> out == old(out) + CanonicalText(v)
      ensures r.Err? ==> Truthful(r.error, v, MAX_DEPTH - depth)
      decreases v, 2
    {
      if depth > MAX_DEPTH { return Err(TooDeep); }
      if v.Arr? {
        r := WriteArray(v, depth);
      } else if v.Obj? {
        r := WriteObject(v, depth);
      } else {
        r := WriteScalar(v);
      }
    }

    method WriteScalar(v: Json) returns (r: Result<(), CanonError>)
      requires !v.Arr? && !v.Obj?
      modifies this
      ensures r == if v.Float? then Err(FloatRejected(v.text)) else Ok(())
      ensures r.Ok? ==> out == old(out) + CanonicalText(v)
    {
      match v {
        case Null => out := out + "null";
        case Bool(b) => out := out + (if b then "true" else "false");
        case Int(n) => out := out + IntText(n);
        case Float(text) => return Err(FloatRejected(text));
        case Str(s) => out := out + StringText(s);
      }
      r := Ok(());
    }

    method WriteArray(v: Json, depth: nat) returns (r: Result<(), CanonError>)
      requires v.Arr? && depth <= MAX_DEPTH
      modifies this
      ensures r.Ok? <==> Writable(v, MAX_DEPTH - depth)
      ensures r.Ok? ==> out == old(out) + CanonicalText(v)
      ensures r.Err? ==> Truthful(r.error, v, MAX_DEPTH - depth)
      decreases v, 1
    {
      ghost var before, inner := out, ItemsText(NormalItems(v.items), 0);
      out := out + "[";
      ghost var bad;
      r, bad := WriteItems(v, depth);
      ContainersWritable(v, MAX_DEPTH - depth);
      if r.Err? { FaultInItem(v, bad, r.error, MAX_DEPTH - depth); }
      assert CanonicalText(v) == "[" + inner;
      Append(before, "[", inner);
    }

    method WriteObject(v: Json, depth: nat) returns (r: Result<(), CanonError>)
      requires v.Obj? && depth <= MAX_DEPTH
      modifies this
      ensures r.Ok? <==> Writable(v, MAX_DEPTH - depth)
      ensures r.Ok? ==> out == old(out) + CanonicalText(v)
      ensures r.Err? ==> Truthful(r.error, v, MAX_DEPTH - depth)
      decreases v, 1
    {
      var sorted, from := SortKeys(v, MAX_DEPTH - depth);
      r := WriteBraces(v, sorted, from, depth);
    }

    method WriteBraces(v: Json, sorted: seq<Field>, ghost from: seq<nat>, depth: nat) returns (r: Result<(), CanonError>)
      requires depth <= MAX_DEPTH && InKeyOrder(v, sorted, from, MAX_DEPTH - depth)
      modifies this
      ensures r.Ok? <==> Writable(v, MAX_DEPTH - depth)
      ensures r.Ok? ==> out == old(out) + CanonicalText(v)
      ensures r.Err? ==> Truthful(r.error, v, MAX_DEPTH - depth)
      decreases v, 0, 1
    {
      ghost var before := out;
      out := out + "{";
      ghost var bad;
      r, bad := WriteFields(v, sorted, from, depth);
      if r.Err? {
        FaultInField(v, from[bad], r.error, MAX_DEPTH - depth);
      } else {
        Append(before, "{", FieldsText(NormalFields(sorted), 0));
      }
    }

    static method SortKeys(v: Json, ghost room: int) returns (sorted: seq<Field>, ghost from: seq<nat>)
      requires v.Obj? && 0 <= room
      ensures InKeyOrder(v, sorted, from, room)
    {
      sorted := SortBy(v.fields, KeyLeq);
      SortMembers(v.fields, KeyLeq);
      SortCommutes(v.fields);
      FieldsCovered(v.fields, sorted, room - 1);
      ContainersWritable(v, room);
      from := Origins(sorted, v.fields);
    }

    method WriteItem(v: Json, first: bool, depth: nat) returns (r: Result<(), CanonError>)
      modifies this
      ensures r.Ok? <==> Writable(v, MAX_DEPTH - depth)
      ensures r.Ok? ==> out == old(out) + (Comma(first) + CanonicalText(v))
      ensures r.Err? ==> Truthful(r.error, v, MAX_DEPTH - depth)
      decreases v, 3
    {
      ghost var before := out;
      if !first { out := out + ","; }
      assert out == before + Comma(first);
      r := WriteValue(v, depth);
      Append(before, Comma(first), CanonicalText(v));
    }

    /** Everything after the opening bracket. */
    method WriteItems(v: Json, depth: nat) returns (r: Result<(), CanonError>, ghost bad: nat)
      requires v.Arr? && depth <= MAX_DEPTH
      modifies this
      ensures r.Ok? <==> ItemsWritable(v.items, |v.items|, MAX_DEPTH - depth - 1)
      ensures r.Ok? ==> out == old(out) + ItemsText(NormalItems(v.items), 0)
      ensures r.Err? ==> bad < |v.items| && Truthful(r.error, v.items[bad], MAX_DEPTH - depth - 1)
      decreases v, 0
    {
      var items := v.items;
      ghost var normal := NormalItems(items);
      ghost var target := out + ItemsText(normal, 0);
      var first := true;
      bad := 0;
      for i := 0 to |items|
        invariant first == (i == 0) && out + ItemsText(normal, i) == target
        invariant ItemsWritable(items, i, MAX_DEPTH - depth - 1)
      {
        NormalItemsAt(items, i);
        Append(out, Comma(first) + Text(normal[i]), ItemsText(normal, i + 1));
        r := WriteItem(items[i], first, depth + 1);
        if r.Err? {
          bad := i;
          return;
        }
        first := false;
      }
      out := out + "]";
      r := Ok(());
    }

    method WriteField(f: Field, first: bool, depth: nat) returns (r: Result<(), CanonError>)
      modifies this
      ensures r.Ok? <==> Writable(f.value, MAX_DEPTH - depth)
      ensures r.Ok? ==> out == old(out) + FieldText(Field(f.key, Normal(f.value)), first)
      ensures r.Err? ==> Truthful(r.error, f.value, MAX_DEPTH - depth)
      decreases f, 0
    {
      ghost var before, key, value := out, StringText(f.key), CanonicalText(f.value);
      if !first { out := out + ","; }
      assert out == before + Comma(first);
      out := out + StringText(f.key);
      out := out + ":";
      r := WriteValue(f.value, depth);
      AppendFour(before, Comma(first), key, value);
    }

    /** One step of the loop over fields, measured by the text still to be written. */
    method WriteNext(f: Field, ghost normal: seq<Field>, i: nat, depth: nat) returns (r: Result<(), CanonError>)
      requires i < |normal| && normal[i] == Field(f.key, Normal(f.value))
      modifies this
      ensures r.Ok? <==> Writable(f.value, MAX_DEPTH - depth)
      ensures r.Ok? ==> out + FieldsText(normal, i + 1) == old(out) + FieldsText(normal, i)
      ensures r.Err? ==> Truthful(r.error, f.value, MAX_DEPTH - depth)
      decreases f, 1
    {
      ghost var before := out;
      r := WriteField(f, i == 0, depth);
      Append(before, FieldText(normal[i], i == 0), FieldsText(normal, i + 1));
    }

    /** Everything after the opening brace, for the fields in key order. */
    method WriteFields(v: Json, sorted: seq<Field>, ghost from: seq<nat>, depth: nat)
      returns (r: Result<(), CanonError>, ghost bad: nat)
      requires v.Obj? && depth <= MAX_DEPTH && Rearranges(sorted, v.fields, from)
      modifies this
      ensures r.Ok? <==> FieldsWritable(sorted, |sorted|, MAX_DEPTH - depth - 1)
      ensures r.Ok? ==> out == old(out) + FieldsText(NormalFields(sorted), 0)
      ensures r.Err? ==> bad < |sorted| && Truthful(r.error, sorted[bad].value, MAX_DEPTH - depth - 1)
      decreases v, 0, 0
    {
      ghost var normal := NormalFields(sorted);
      ghost var target := out + FieldsText(normal, 0);
      bad := 0;
      for i := 0 to |sorted|
        invariant out + FieldsText(normal, i) == target
        invariant FieldsWritable(sorted, i, MAX_DEPTH - depth - 1)
      {
        FieldBelow(v, sorted, from, i);
        r := WriteNext(sorted[i], normal, i, depth + 1);
        if r.Err? {
          bad := i;
          return;
        }
      }
      out := out + "}";
      r := Ok(());
    }
  }

  lemma AppendFour(before: string, comma: string, key: string, value: string)
    ensures (((before + comma) + key) + ":") + value == before + (comma + key + ":" + value)
  {
  }

  lemma Append(before: string, piece: string, rest: string)
    ensures before + (piece + rest) == (before + piece) + rest
  {
  }

  lemma {:induction false} Origins(sorted: seq<Field>, fields: seq<Field>) returns (from: seq<nat>)
    requires forall f :: f in sorted ==> f in fields
    ensures Rearranges(sorted, fields, from)
  {
    from := [];
    while |from| < |sorted|
      invariant |from| <= |sorted|
      invariant forall j :: 0 <= j < |from| ==> from[j] < |fields| && sorted[j] == fields[from[j]]
    {
      assert sorted[|from|] in sorted;
      var k: nat :| k < |fields| && fields[k] == sorted[|from|];
      from := from + [k];
    }
  }

  lemma FieldsCovered(fields: seq<Field>, sorted: seq<Field>, room: int)
    requires forall f :: f in fields <==> f in sorted
    ensures FieldsWritable(sorted, |sorted|, room) <==> FieldsWritable(fields, |fields|, room)
  {
    if FieldsWritable(sorted, |sorted|, room) {
      forall i | 0 <= i < |fields| ensures Writable(fields[i].value, room) { assert fields[i] in sorted; }
    }
    if FieldsWritable(fields, |fields|, room) {
      forall i | 0 <= i < |sorted| ensures Writable(sorted[i].value, room) { assert sorted[i] in fields; }
    }
  }

  /** Encoding succeeds exactly for values without non-integer numbers that nest no deeper
      than the limit, and then gives the canonical text. A refusal names a true reason. */
  method CanonicalBytes(v: Json) returns (r: Result<string, CanonError>)
    ensures r.Ok? <==> FloatFree(v) && NestsWithin(v, MAX_DEPTH)
    ensures r.Ok? ==> r.value == CanonicalText(v)
    ensures r.Err? ==> Truthful(r.error, v, MAX_DEPTH)
  {
    var w := new Writer();
    var written := w.WriteValue(v, 0);
    if written.Err? { return Err(written.error); }
    assert [] + CanonicalText(v) == CanonicalText(v);
    r := Ok(w.out);
  }
}
