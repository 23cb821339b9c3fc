/**
 * JSON values and their compact serialization, as serde_json writes them:
 * objects in ascending key order, strings escaped per section 7 of RFC 8259.
 */
module Json {
  import opened Prelude
  import opened Text

  /**
   * A parsed JSON value. `Int` is an integer serde_json keeps as i64 or u64;
   * `Float` is any other number, kept as its decimal text.
   */
  datatype Json =
    | Null
    | Bool(b: bool)
    | Int(n: int)
    | Float(text: string)
    | Str(s: string)
    | Arr(items: seq<Json>)
    | Obj(fields: seq<Field>)

  datatype Field = Field(key: string, value: Json)

  // ---- Strings ----

  const HEX: string := "0123456789abcdef"

  /** The escaped form of one character inside a JSON string. */
  function EscapeChar(c: char): string {
    if c == '\"' then ['\\', '\"']
    else if c == '\\' then ['\\', '\\']
    else if c == '\n' then ['\\', 'n']
    else if c == '\r' then ['\\', 'r']
    else if c == '\t' then ['\\', 't']
    else if c == '\U{0008}' then ['\\', 'b']
    else if c == '\U{000c}' then ['\\', 'f']
    else if c < ' ' then ['\\', 'u', '0', '0', HEX[c as int / 16], HEX[c as int % 16]]
    else [c]
  }

  function Escape(s: string): string {
    if s == [] then [] else EscapeChar(s[0]) + Escape(s[1..])
  }

  function Quote(s: string): string {
    ['\"'] + Escape(s) + ['\"']
  }

  /** Bytes one character occupies inside a serialized string. */
  function EscapedWidth(c: char): (w: nat)
    ensures Width(c) <= w <= 6
  {
    if c == '\"' || c == '\\' || c == '\n' || c == '\r' || c == '\t' || c == '\U{0008}' || c == '\U{000c}'
    then 2
    else if c < ' ' then 6
    else Width(c)
  }

  /** Bytes a string occupies when serialized, without its quotes. */
  function EscapedLen(s: string): nat {
    Weigh(s, EscapedWidth)
  }

  lemma EscapeCharWidth(c: char)
    ensures ByteLen(EscapeChar(c)) == EscapedWidth(c)
  {
    var e := EscapeChar(c);
    ByteLenOfAscii(e[..|e| - 1]);
    WeighAppend(e[..|e| - 1], [e[|e| - 1]], Width);
    assert e == e[..|e| - 1] + [e[|e| - 1]];
    assert [e[|e| - 1]][1..] == [];
  }

  lemma {:induction false} ByteLenOfAscii(s: string)
    requires forall i :: 0 <= i < |s| ==> s[i] < '\U{0080}'
    ensures ByteLen(s) == |s|
  {
    if s != [] {
      ByteLenOfAscii(s[1..]);
    }
  }

  /** The width table agrees with the escaper on every string. */
  lemma {:induction false} EscapedLenExact(s: string)
    ensures ByteLen(Escape(s)) == EscapedLen(s)
    ensures ByteLen(Quote(s)) == 2 + EscapedLen(s)
  {
    if s != [] {
      EscapedLenExact(s[1..]);
      EscapeCharWidth(s[0]);
      WeighAppend(EscapeChar(s[0]), Escape(s[1..]), Width);
    }
    WeighAppend(['\"'] + Escape(s), ['\"'], Width);
    WeighAppend(['\"'], Escape(s), Width);
    ByteLenOfAscii(['\"']);
  }

  lemma EscapingNeverShrinks(s: string)
    ensures ByteLen(s) <= EscapedLen(s)
  {
    WeighMonotone(s, Width, EscapedWidth);
  }

  // ---- Numbers ----

  function DigitChar(d: nat): (c: char)
    requires d < 10
    ensures '0' <= c <= '9'
  {
    ('0' as int + d) as char
  }

  /** The decimal digits of a natural number, most significant first. */
  function Digits(n: nat): (s: string)
    ensures |s| > 0
    ensures forall i :: 0 <= i < |s| ==> '0' <= s[i] <= '9'
  {
    if n < 10 then [DigitChar(n)] else Digits(n / 10) + [DigitChar(n % 10)]
  }

  function Decimal(n: int): (s: string)
    ensures |s| > 0
  {
    if n < 0 then ['-'] + Digits(-n) else Digits(n)
  }

  lemma DecimalWidth(n: int)
    ensures ByteLen(Decimal(n)) == |Decimal(n)|
  {
    ByteLenOfAscii(Decimal(n));
  }

  /** Brackets add one byte each. */
  lemma Bracketed(open: char, inner: string, close: char)
    requires open < '\U{0080}' && close < '\U{0080}'
    ensures ByteLen([open] + inner + [close]) == 2 + ByteLen(inner)
  {
    WeighAppend([open] + inner, [close], Width);
    WeighAppend([open], inner, Width);
    ByteLenOfAscii([open]);
    ByteLenOfAscii([close]);
  }

  // ---- Values ----

  function Serialize(v: Json): string
    decreases v
  {
    match v
    case Null => "null"
    case Bool(b) => if b then "true" else "false"
    case Int(n) => Decimal(n)
    case Float(text) => text
    case Str(s) => Quote(s)
    case Arr(items) => ['['] + SerializeItems(items) + [']']
    case Obj(fields) => ['{'] + SerializeFields(fields) + ['}']
  }

  function SerializeItems(items: seq<Json>): string
    decreases items
  {
    if items == [] then []
    else if |items| == 1 then Serialize(items[0])
    else Serialize(items[0]) + [','] + SerializeItems(items[1..])
  }

  function SerializeField(f: Field): string
    decreases f
  {
    Quote(f.key) + [':'] + Serialize(f.value)
  }

  function SerializeFields(fields: seq<Field>): string
    decreases fields
  {
    if fields == [] then []
    else if |fields| == 1 then SerializeField(fields[0])
    else SerializeField(fields[0]) + [','] + SerializeFields(fields[1..])
  }

  /** The serialized size of a value in bytes. */
  function Size(v: Json): nat {
    ByteLen(Serialize(v))
  }

  // ---- Object access ----

  function Find(fields: seq<Field>, key: string): Option<Json> {
    if fields == [] then None
    else if fields[0].key == key then Some(fields[0].value)
    else Find(fields[1..], key)
  }

  /** `value.get(key)`: the member of an object, or nothing. */
  function Get(v: Json, key: string): Option<Json> {
    if v.Obj? then Find(v.fields, key) else None
  }

  function AsStr(v: Option<Json>): Option<string> {
    if v.Some? && v.value.Str? then Some(v.value.s) else None
  }

  // ---- Key order ----

  /** Code-point order on strings, which is also UTF-8 byte order. */
  predicate Before(a: string, b: string) {
    b != [] && (a == [] || a[0] < b[0] || (a[0] == b[0] && Before(a[1..], b[1..])))
  }

  predicate KeysAscend(fields: seq<Field>) {
    forall i :: 0 <= i < |fields| - 1 ==> Before(fields[i].key, fields[i + 1].key)
  }

  predicate KeysDistinct(fields: seq<Field>) {
    forall i, j :: 0 <= i < j < |fields| ==> fields[i].key != fields[j].key
  }

  lemma {:induction false} BeforeTransitive(a: string, b: string, c: string)
    requires Before(a, b) && Before(b, c)
    ensures Before(a, c)
  {
    if a != [] && a[0] == b[0] && b[0] == c[0] {
      BeforeTransitive(a[1..], b[1..], c[1..]);
    }
  }

  lemma {:induction false} BeforeIrreflexive(a: string)
    ensures !Before(a, a)
  {
    if a != [] {
      BeforeIrreflexive(a[1..]);
    }
  }

  lemma {:induction false} AscendingKeysOrdered(fields: seq<Field>, i: nat, j: nat)
    requires KeysAscend(fields) && i < j < |fields|
    ensures Before(fields[i].key, fields[j].key)
    decreases j
  {
    if i < j - 1 {
      AscendingKeysOrdered(fields, i, j - 1);
      BeforeTransitive(fields[i].key, fields[j - 1].key, fields[j].key);
    }
  }

  /** A key-ordered object never repeats a key. */
  lemma AscendingKeysDistinct(fields: seq<Field>)
    requires KeysAscend(fields)
    ensures KeysDistinct(fields)
  {
    forall i, j | 0 <= i < j < |fields| ensures fields[i].key != fields[j].key {
      AscendingKeysOrdered(fields, i, j);
      BeforeIrreflexive(fields[i].key);
    }
  }

  lemma {:induction false} BeforeShared(p: string, a: string, b: string)
    requires Before(a, b)
    ensures Before(p + a, p + b)
  {
    if p == [] {
      assert p + a == a && p + b == b;
    } else {
      assert (p + a)[1..] == p[1..] + a && (p + b)[1..] == p[1..] + b;
      BeforeShared(p[1..], a, b);
    }
  }

  lemma BeforeByFirst(a: string, b: string)
    requires a != [] && b != [] && a[0] < b[0]
    ensures Before(a, b)
  {
  }

  lemma {:induction false} FindAppend(a: seq<Field>, b: seq<Field>, key: string)
    ensures Find(a + b, key) == if Find(a, key).Some? then Find(a, key) else Find(b, key)
  {
    if a == [] {
      assert a + b == b;
    } else {
      assert (a + b)[1..] == a[1..] + b;
      FindAppend(a[1..], b, key);
    }
  }
}
