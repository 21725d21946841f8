/** Canonical JSON: values, their canonical text, and a parser that reads it back. Text is
    a sequence of Unicode characters; the bytes are its UTF-8 encoding. */
module Json {
  import opened Prelude
  import opened Sorting
  import opened StringOrder

  /** The integers a JSON number can hold exactly: those of `i64` and of `u64`. */
  type JsonInt = n: int | I64_MIN <= n <= U64_MAX

  datatype Json =
    | Null
    | Bool(b: bool)
    | Int(n: JsonInt)
    | Float(text: string)
    | Str(s: string)
    | Arr(items: seq<Json>)
    | Obj(fields: seq<Field>)

  datatype Field = Field(key: string, value: Json)

  const MAX_DEPTH: nat := 128

  const BACKSPACE: char := '\U{0008}'
  const FORM_FEED: char := '\U{000c}'

  // ------------------------------------------------------------------------------
  // Properties of values.

  ghost predicate DistinctKeys(fields: seq<Field>) {
    forall i, j :: 0 <= i < j < |fields| ==> fields[i].key != fields[j].key
  }

  /** No object repeats a key, at any level. */
  ghost predicate WellFormed(v: Json) {
    match v
    case Arr(items) => forall i :: 0 <= i < |items| ==> WellFormed(items[i])
    case Obj(fields) => DistinctKeys(fields) && forall i :: 0 <= i < |fields| ==> WellFormed(fields[i].value)
    case _ => true
  }

  predicate FloatFree(v: Json) {
    match v
    case Float(_) => false
    case Arr(items) => forall i :: 0 <= i < |items| ==> FloatFree(items[i])
    case Obj(fields) => forall i :: 0 <= i < |fields| ==> FloatFree(fields[i].value)
    case _ => true
  }

  /** No part of the value lies more than `room` levels below it. */
  predicate NestsWithin(v: Json, room: int) {
    && 0 <= room
    && match v
      case Arr(items) => forall i :: 0 <= i < |items| ==> NestsWithin(items[i], room - 1)
      case Obj(fields) => forall i :: 0 <= i < |fields| ==> NestsWithin(fields[i].value, room - 1)
      case _ => true
  }

  /** Some part of the value is this float. */
  ghost predicate ContainsFloat(v: Json, text: string) {
    match v
    case Float(t) => t == text
    case Arr(items) => exists i :: 0 <= i < |items| && ContainsFloat(items[i], text)
    case Obj(fields) => exists i :: 0 <= i < |fields| && ContainsFloat(fields[i].value, text)
    case _ => false
  }

  // ------------------------------------------------------------------------------
  // Text.

  function Digit(d: nat): char
    requires d < 16
  {
    "0123456789abcdef"[d]
  }

  function EscapeChar(c: char): string {
    if c == '\"' then "\\\""
    else if c == '\\' then "\\\\"
    else if c == BACKSPACE then "\\b"
    else if c == '\t' then "\\t"
    else if c == '\n' then "\\n"
    else if c == FORM_FEED then "\\f"
    else if c == '\r' then "\\r"
    else if c < ' ' then "\\u00" + [Digit(c as int / 16), Digit(c as int % 16)]
    else [c]
  }

  function Escape(s: string): string {
    if s == [] then [] else EscapeChar(s[0]) + Escape(s[1..])
  }

  function StringText(s: string): string { "\"" + Escape(s) + "\"" }

  function Decimal(n: nat): string {
    if n < 10 then [Digit(n)] else Decimal(n / 10) + [Digit(n % 10)]
  }

  function IntText(n: int): string { if n < 0 then "-" + Decimal(-n) else Decimal(n) }

  /** The text of a value with its fields in the order given. */
  function Text(v: Json): string
    decreases v
  {
    match v
    case Null => "null"
    case Bool(b) => if b then "true" else "false"
    case Int(n) => IntText(n)
    case Float(text) => text
    case Str(s) => StringText(s)
    case Arr(items) => "[" + ItemsText(items, 0)
    case Obj(fields) => "{" + FieldsText(fields, 0)
  }

  function Comma(first: bool): string { if first then "" else "," }

  /** The items from position `i` on, and the closing bracket. */
  function ItemsText(items: seq<Json>, i: nat): string
    requires i <= |items|
    decreases items, |items| - i
  {
    if i == |items| then "]" else (Comma(i == 0) + Text(items[i])) + ItemsText(items, i + 1)
  }

  function FieldText(f: Field, first: bool): string
    decreases f
  {
    Comma(first) + StringText(f.key) + ":" + Text(f.value)
  }

  /** The fields from position `i` on, and the closing brace. */
  function FieldsText(fields: seq<Field>, i: nat): string
    requires i <= |fields|
    decreases fields, |fields| - i
  {
    if i == |fields| then "}" else FieldText(fields[i], i == 0) + FieldsText(fields, i + 1)
  }

  predicate KeyLeq(a: Field, b: Field) { StrLeq(a.key, b.key) }

  /** The same value with every object's fields in key order. */
  function Normal(v: Json): Json
    decreases v
  {
    match v
    case Arr(items) => Arr(NormalItems(items))
    case Obj(fields) => Obj(SortBy(NormalFields(fields), KeyLeq))
    case _ => v
  }

  function NormalItems(items: seq<Json>): (r: seq<Json>)
    ensures |r| == |items|
    decreases items
  {
    if items == [] then [] else [Normal(items[0])] + NormalItems(items[1..])
  }

  function NormalFields(fields: seq<Field>): (r: seq<Field>)
    ensures |r| == |fields|
    decreases fields
  {
    if fields == [] then []
    else [Field(fields[0].key, Normal(fields[0].value))] + NormalFields(fields[1..])
  }

  lemma {:induction false} NormalItemsAt(items: seq<Json>, i: nat)
    requires i < |items|
    ensures NormalItems(items)[i] == Normal(items[i])
  {
    if i > 0 { NormalItemsAt(items[1..], i - 1); }
  }

  lemma {:induction false} NormalFieldsAt(fields: seq<Field>, i: nat)
    requires i < |fields|
    ensures NormalFields(fields)[i] == Field(fields[i].key, Normal(fields[i].value))
  {
    if i > 0 { NormalFieldsAt(fields[1..], i - 1); }
  }

  function CanonicalText(v: Json): string { Text(Normal(v)) }

  // ------------------------------------------------------------------------------
  // A parser for canonical text.

  datatype Parsed<+T> = Failed | Parsed(value: T, rest: string)

  function FromDigit(c: char): Option<nat> {
    if '0' <= c <= '9' then Some(c as int - '0' as int)
    else if 'a' <= c <= 'f' then Some(c as int - 'a' as int + 10)
    else None
  }

  predicate IsDecimal(c: char) { '0' <= c <= '9' }

  /** One possibly escaped character. */
  function ParseChar(s: string): (r: Parsed<char>)
    ensures r.Parsed? ==> |r.rest| < |s|
  {
    if s == [] || s[0] == '\"' then Failed
    else if s[0] != '\\' then Parsed(s[0], s[1..])
    else if |s| < 2 then Failed
    else match s[1]
      case '\"' => Parsed('\"', s[2..])
      case '\\' => Parsed('\\', s[2..])
      case 'b' => Parsed(BACKSPACE, s[2..])
      case 't' => Parsed('\t', s[2..])
      case 'n' => Parsed('\n', s[2..])
      case 'f' => Parsed(FORM_FEED, s[2..])
      case 'r' => Parsed('\r', s[2..])
      case 'u' =>
        if |s| < 6 || s[2] != '0' || s[3] != '0' then Failed
        else
          var hi, lo := FromDigit(s[4]), FromDigit(s[5]);
          if hi.None? || lo.None? || hi.value >= 16 || lo.value >= 16 then Failed
          else Parsed((16 * hi.value + lo.value) as char, s[6..])
      case _ => Failed
  }

  /** The rest of a string, up to and including its closing quote. */
  function ParseStringRest(s: string): (r: Parsed<string>)
    ensures r.Parsed? ==> |r.rest| < |s|
  {
    if s == [] then Failed
    else if s[0] == '\"' then Parsed([], s[1..])
    else match ParseChar(s)
      case Failed => Failed
      case Parsed(c, rest) =>
        match ParseStringRest(rest)
        case Failed => Failed
        case Parsed(cs, rest') => Parsed([c] + cs, rest')
  }

  function ParseString(s: string): (r: Parsed<string>)
    ensures r.Parsed? ==> |r.rest| < |s|
  {
    if s == [] || s[0] != '\"' then Failed else ParseStringRest(s[1..])
  }

  /** Reads decimal digits as long as there are any. */
  function ParseDecimal(s: string, acc: nat): (r: Parsed<nat>)
    ensures r.Parsed? && |r.rest| <= |s|
    decreases |s|
  {
    if s == [] || !IsDecimal(s[0]) then Parsed(acc, s)
    else ParseDecimal(s[1..], 10 * acc + (s[0] as int - '0' as int))
  }

  function ParseInt(s: string): (r: Parsed<int>)
    ensures r.Parsed? ==> |r.rest| < |s|
  {
    if s != [] && IsDecimal(s[0]) then
      var d := ParseDecimal(s[1..], s[0] as int - '0' as int);
      Parsed<int>.Parsed(d.value, d.rest)
    else if |s| >= 2 && s[0] == '-' && IsDecimal(s[1]) then
      var d := ParseDecimal(s[2..], s[1] as int - '0' as int);
      var n: int := d.value;
      Parsed<int>.Parsed(-n, d.rest)
    else Failed
  }

  function ParseWord(s: string, word: string, v: Json): (r: Parsed<Json>)
    requires word != []
    ensures r.Parsed? ==> |r.rest| < |s|
  {
    if word <= s then Parsed(v, s[|word|..]) else Failed
  }

  function ParseValue(s: string): (r: Parsed<Json>)
    ensures r.Parsed? ==> |r.rest| < |s|
    decreases |s|, 0
  {
    if s == [] then Failed
    else match s[0]
      case 'n' => ParseWord(s, "null", Null)
      case 't' => ParseWord(s, "true", Bool(true))
      case 'f' => ParseWord(s, "false", Bool(false))
      case '\"' => (match ParseString(s) case Failed => Failed case Parsed(cs, rest) => Parsed(Str(cs), rest))
      case '[' =>
        (match ParseItems(s[1..], true) case Failed => Failed case Parsed(items, rest) => Parsed(Arr(items), rest))
      case '{' =>
        (match ParseFields(s[1..], true) case Failed => Failed case Parsed(fs, rest) => Parsed(Obj(fs), rest))
      case _ =>
        match ParseInt(s)
        case Failed => Failed
        case Parsed(n, rest) => if I64_MIN <= n <= U64_MAX then Parsed(Int(n), rest) else Failed
  }

  /** The part of `s` after the separator that must stand before a further element. */
  function AfterComma(s: string, first: bool): (r: Option<string>)
    ensures r.Some? ==> |r.value| <= |s|
  {
    if first then Some(s) else if s != [] && s[0] == ',' then Some(s[1..]) else None
  }

  function ParseItems(s: string, first: bool): (r: Parsed<seq<Json>>)
    ensures r.Parsed? ==> |r.rest| < |s|
    decreases |s|, 1
  {
    if s != [] && s[0] == ']' then Parsed([], s[1..])
    else match AfterComma(s, first)
      case None => Failed
      case Some(t) =>
        match ParseValue(t)
        case Failed => Failed
        case Parsed(v, rest) =>
          match ParseItems(rest, false)
          case Failed => Failed
          case Parsed(vs, rest') => Parsed([v] + vs, rest')
  }

  function ParseFields(s: string, first: bool): (r: Parsed<seq<Field>>)
    ensures r.Parsed? ==> |r.rest| < |s|
    decreases |s|, 1
  {
    if s != [] && s[0] == '}' then Parsed([], s[1..])
    else match AfterComma(s, first)
      case None => Failed
      case Some(t) =>
        match ParseString(t)
        case Failed => Failed
        case Parsed(key, colon) =>
          if colon == [] || colon[0] != ':' then Failed
          else match ParseValue(colon[1..])
            case Failed => Failed
            case Parsed(v, rest) =>
              match ParseFields(rest, false)
              case Failed => Failed
              case Parsed(fs, rest') => Parsed([Field(key, v)] + fs, rest')
  }

  /** A whole text that is one value. */
  function ParseText(s: string): Option<Json> {
    match ParseValue(s)
    case Failed => None
    case Parsed(v, rest) => if rest == [] then Some(v) else None
  }
}
