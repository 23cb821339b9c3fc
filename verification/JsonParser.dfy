/** Reading JSON text back: the parser undoes the serializer. */
module JsonParser {
  import opened Prelude
  import opened Json

  /** A parsed prefix and the text that follows it. */
  type Parsed<T> = Option<(T, string)>

  predicate IsSpace(c: char) {
    c == ' ' || c == '\t' || c == '\n' || c == '\r'
  }

  function SkipSpace(s: string): (r: string)
    ensures |r| <= |s|
    ensures r == [] || !IsSpace(r[0])
  {
    if s != [] && IsSpace(s[0]) then SkipSpace(s[1..]) else s
  }

  // ---- Numbers ----

  predicate IsDigit(c: char) {
    '0' <= c <= '9'
  }

  predicate IsNumberChar(c: char) {
    IsDigit(c) || c == '-' || c == '+' || c == '.' || c == 'e' || c == 'E'
  }

  /** The leading run of characters a number can hold. */
  function NumberRun(s: string): (r: string)
    ensures |r| <= |s|
  {
    if s != [] && IsNumberChar(s[0]) then [s[0]] + NumberRun(s[1..]) else []
  }

  function DigitRun(s: string): (n: nat)
    ensures n <= |s|
  {
    if s != [] && IsDigit(s[0]) then 1 + DigitRun(s[1..]) else 0
  }

  function DigitsValue(s: string): nat {
    if s == [] then 0
    else if !IsDigit(s[|s| - 1]) then 0
    else 10 * DigitsValue(s[..|s| - 1]) + (s[|s| - 1] as int - '0' as int)
  }

  predicate AllDigits(s: string) {
    forall i :: 0 <= i < |s| ==> IsDigit(s[i])
  }

  /** A nonempty run of digits without a redundant leading zero. */
  predicate CanonicalDigits(s: string) {
    |s| > 0 && AllDigits(s) && (s[0] == '0' ==> |s| == 1)
  }

  const I64_MIN: int := -0x8000_0000_0000_0000
  const I64_MAX: int := 0x7fff_ffff_ffff_ffff
  const U64_MAX: int := 0xffff_ffff_ffff_ffff

  predicate IntegerInRange(n: int) {
    I64_MIN <= n <= U64_MAX
  }

  /** An optional exponent part: `e` or `E`, an optional sign, digits. */
  predicate IsExponent(s: string) {
    s == [] ||
    ((s[0] == 'e' || s[0] == 'E')
     && var body := if |s| > 1 && (s[1] == '+' || s[1] == '-') then s[2..] else s[1..];
        |body| > 0 && AllDigits(body))
  }

  /** An optional fraction followed by an optional exponent. */
  predicate IsNumberTail(s: string) {
    if s != [] && s[0] == '.' then
      var n := DigitRun(s[1..]);
      n > 0 && IsExponent(s[1 + n..])
    else IsExponent(s)
  }

  /** The number grammar of section 6 of RFC 8259. */
  predicate IsNumber(s: string) {
    var u := if s != [] && s[0] == '-' then s[1..] else s;
    var n := DigitRun(u);
    CanonicalDigits(u[..n]) && IsNumberTail(u[n..])
  }

  /** An integer when it is one serde_json keeps exactly, otherwise its decimal text. */
  function NumberOf(run: string): Option<Json> {
    if CanonicalDigits(run) && IntegerInRange(DigitsValue(run)) then Some(Int(DigitsValue(run)))
    else if |run| > 1 && run[0] == '-' && run != "-0" && CanonicalDigits(run[1..]) &&
        IntegerInRange(0 - DigitsValue(run[1..]))
    then Some(Int(0 - DigitsValue(run[1..])))
    else if IsNumber(run) then Some(Float(run))
    else None
  }

  // ---- Strings ----

  function HexValue(c: char): Option<nat> {
    if '0' <= c <= '9' then Some(c as int - '0' as int)
    else if 'a' <= c <= 'f' then Some(c as int - 'a' as int + 10)
    else if 'A' <= c <= 'F' then Some(c as int - 'A' as int + 10)
    else None
  }

  /** Four hex digits at the front of `s`. */
  function Hex4(s: string): (r: Option<nat>)
    ensures r.Some? ==> r.value < 0x1_0000 && |s| >= 4
  {
    if |s| < 4 then None
    else
      var a, b, c, d := HexValue(s[0]), HexValue(s[1]), HexValue(s[2]), HexValue(s[3]);
      if a.None? || b.None? || c.None? || d.None? then None
      else Some(((a.value * 16 + b.value) * 16 + c.value) * 16 + d.value)
  }

  /** A `\u` escape, after the `u`: one scalar value, possibly a surrogate pair. */
  function UnicodeEscape(s: string): (r: Parsed<char>)
    ensures r.Some? ==> |r.value.1| < |s|
  {
    var high := Hex4(s);
    if high.None? then None
    else if 0xdc00 <= high.value < 0xe000 then None
    else if high.value < 0xd800 || high.value >= 0xe000 then Some((high.value as char, s[4..]))
    else if |s| < 6 || s[4] != '\\' || s[5] != 'u' then None
    else
      var low := Hex4(s[6..]);
      if low.None? || !(0xdc00 <= low.value < 0xe000) then None
      else Some(((0x1_0000 + (high.value - 0xd800) * 0x400 + (low.value - 0xdc00)) as char, s[10..]))
  }

  /** One possibly escaped character of a string body. */
  function ParseChar(s: string): (r: Parsed<char>)
    requires s != []
    ensures r.Some? ==> |r.value.1| < |s|
  {
    if s[0] < ' ' then None
    else if s[0] != '\\' then Some((s[0], s[1..]))
    else if |s| < 2 then None
    else match s[1]
      case '\"' => Some(('\"', s[2..]))
      case '\\' => Some(('\\', s[2..]))
      case '/' => Some(('/', s[2..]))
      case 'b' => Some(('\U{0008}', s[2..]))
      case 'f' => Some(('\U{000c}', s[2..]))
      case 'n' => Some(('\n', s[2..]))
      case 'r' => Some(('\r', s[2..]))
      case 't' => Some(('\t', s[2..]))
      case 'u' => UnicodeEscape(s[2..])
      case _ => None
  }

  /** A string body up to and including its closing quote. */
  function ParseString(s: string): (r: Parsed<string>)
    ensures r.Some? ==> |r.value.1| < |s|
    decreases |s|
  {
    if s == [] then None
    else if s[0] == '\"' then Some(([], s[1..]))
    else
      var c := ParseChar(s);
      if c.None? then None else
      var rest := ParseString(c.value.1);
      if rest.None? then None else Some(([c.value.0] + rest.value.0, rest.value.1))
  }

  // ---- Values ----

  function Literal(s: string, word: string, v: Json): (r: Parsed<Json>)
    requires word != []
    ensures r.Some? ==> |r.value.1| < |s|
  {
    if word <= s then Some((v, s[|word|..])) else None
  }

  /** Insert a member into an object whose later members take precedence. */
  function AddField(f: Field, fields: seq<Field>): seq<Field> {
    if fields == [] || Before(f.key, fields[0].key) then [f] + fields
    else if f.key == fields[0].key then fields
    else [fields[0]] + AddField(f, fields[1..])
  }

  function ParseValue(s: string): (r: Parsed<Json>)
    ensures r.Some? ==> |r.value.1| < |s|
    decreases |s|, 1
  {
    var t := SkipSpace(s);
    if t == [] then None
    else match t[0]
      case 'n' => Literal(t, "null", Null)
      case 't' => Literal(t, "true", Bool(true))
      case 'f' => Literal(t, "false", Bool(false))
      case '\"' =>
        var str := ParseString(t[1..]);
        if str.None? then None else Some((Str(str.value.0), str.value.1))
      case '[' =>
        var u := SkipSpace(t[1..]);
        if u != [] && u[0] == ']' then Some((Arr([]), u[1..])) else
        var items := ParseItems(t[1..]);
        if items.None? then None else Some((Arr(items.value.0), items.value.1))
      case '{' =>
        var u := SkipSpace(t[1..]);
        if u != [] && u[0] == '}' then Some((Obj([]), u[1..])) else
        var fields := ParseFields(t[1..]);
        if fields.None? then None else Some((Obj(fields.value.0), fields.value.1))
      case _ =>
        var run := NumberRun(t);
        var n := NumberOf(run);
        if n.None? || run == [] then None else Some((n.value, t[|run|..]))
  }

  /** Array elements up to and including the closing bracket. */
  function ParseItems(s: string): (r: Parsed<seq<Json>>)
    ensures r.Some? ==> |r.value.1| < |s|
    decreases |s|, 2
  {
    var first := ParseValue(s);
    if first.None? then None else
    var t := SkipSpace(first.value.1);
    if t == [] then None
    else if t[0] == ']' then Some(([first.value.0], t[1..]))
    else if t[0] != ',' then None
    else
      var rest := ParseItems(t[1..]);
      if rest.None? then None else Some(([first.value.0] + rest.value.0, rest.value.1))
  }

  /** One object member. */
  function ParseField(s: string): (r: Parsed<Field>)
    ensures r.Some? ==> |r.value.1| < |s|
    decreases |s|, 2
  {
    var t := SkipSpace(s);
    if t == [] || t[0] != '\"' then None else
    var key := ParseString(t[1..]);
    if key.None? then None else
    var u := SkipSpace(key.value.1);
    if u == [] || u[0] != ':' then None else
    var v := ParseValue(u[1..]);
    if v.None? then None else Some((Field(key.value.0, v.value.0), v.value.1))
  }

  /** Object members up to and including the closing brace. */
  function ParseFields(s: string): (r: Parsed<seq<Field>>)
    ensures r.Some? ==> |r.value.1| < |s|
    decreases |s|, 3
  {
    var first := ParseField(s);
    if first.None? then None else
    var t := SkipSpace(first.value.1);
    if t == [] then None
    else if t[0] == '}' then Some(([first.value.0], t[1..]))
    else if t[0] != ',' then None
    else
      var rest := ParseFields(t[1..]);
      if rest.None? then None else Some((AddField(first.value.0, rest.value.0), rest.value.1))
  }

  /** `serde_json::from_str`: a whole text holding one value. */
  function Parse(s: string): Option<Json> {
    var r := ParseValue(s);
    if r.None? || SkipSpace(r.value.1) != [] then None else Some(r.value.0)
  }

  // ---- Round trip ----

  /** The values serde_json holds: numbers it can represent, objects in key order. */
  predicate WellFormed(v: Json)
    decreases v
  {
    match v
    case Int(n) => IntegerInRange(n)
    case Float(text) =>
      && NumberOf(text) == Some(v) && text != []
      && (forall i :: 0 <= i < |text| ==> IsNumberChar(text[i]))
      && (IsDigit(text[0]) || text[0] == '-')
    case Arr(items) => forall j :: 0 <= j < |items| ==> WellFormed(items[j])
    case Obj(fields) => KeysAscend(fields) && forall j :: 0 <= j < |fields| ==> WellFormed(fields[j].value)
    case _ => true
  }

  /** Text after a value that cannot be read as more of it. */
  predicate Ends(rest: string) {
    rest == [] || !IsNumberChar(rest[0])
  }

  lemma CharRoundTrip(c: char, rest: string)
    ensures ParseChar(EscapeChar(c) + rest) == Some((c, rest))
    ensures EscapeChar(c)[0] != '\"'
  {
    var e := EscapeChar(c);
    var s := e + rest;
    assert s[0] == e[0];
    if |e| == 2 {
      assert s[1] == e[1] && s[2..] == rest;
    } else if |e| == 6 {
      assert s[1] == 'u' && s[2..] == e[2..] + rest;
      var h := e[2..] + rest;
      assert h[0] == '0' && h[1] == '0' && h[2] == HEX[c as int / 16] && h[3] == HEX[c as int % 16];
      HexRoundTrip(c as int / 16);
      HexRoundTrip(c as int % 16);
      assert Hex4(h) == Some(c as int);
      assert h[4..] == rest;
    } else {
      assert s[1..] == rest;
    }
  }

  lemma HexRoundTrip(d: nat)
    requires d < 16
    ensures HexValue(HEX[d]) == Some(d)
  {
    assert HEX == ['0', '1', '2', '3', '4', '5', '6', '7', '8', '9', 'a', 'b', 'c', 'd', 'e', 'f'];
  }

  /** Unescaping undoes escaping. */
  lemma {:induction false} StringRoundTrip(s: string, rest: string)
    ensures ParseString(Escape(s) + ['\"'] + rest) == Some((s, rest))
  {
    hide EscapeChar, ParseChar;
    var text := Escape(s) + ['\"'] + rest;
    if s == [] {
      assert text[1..] == rest;
    } else {
      var tail := Escape(s[1..]) + ['\"'] + rest;
      assert text == EscapeChar(s[0]) + tail;
      CharRoundTrip(s[0], tail);
      StringRoundTrip(s[1..], rest);
      assert [s[0]] + s[1..] == s;
    }
  }

  lemma {:induction false} NumberRunWhole(text: string, rest: string)
    requires forall i :: 0 <= i < |text| ==> IsNumberChar(text[i])
    requires Ends(rest)
    ensures NumberRun(text + rest) == text
  {
    if text == [] {
      assert text + rest == rest;
    } else {
      assert (text + rest)[1..] == text[1..] + rest;
      NumberRunWhole(text[1..], rest);
    }
  }

  lemma {:induction false} DigitsRoundTrip(n: nat)
    ensures CanonicalDigits(Digits(n)) && DigitsValue(Digits(n)) == n
    ensures n > 0 ==> Digits(n)[0] != '0'
  {
    var s := Digits(n);
    if n >= 10 {
      DigitsRoundTrip(n / 10);
      assert s[..|s| - 1] == Digits(n / 10);
    } else {
      assert s[..|s| - 1] == [];
    }
  }

  /** Reading a decimal integer gives the integer back. */
  lemma DecimalRoundTrip(n: int)
    requires IntegerInRange(n)
    ensures NumberOf(Decimal(n)) == Some(Int(n))
    ensures forall i :: 0 <= i < |Decimal(n)| ==> IsNumberChar(Decimal(n)[i])
    ensures IsDigit(Decimal(n)[0]) || Decimal(n)[0] == '-'
  {
    var s := Decimal(n);
    if n >= 0 {
      DigitsRoundTrip(n);
    } else {
      DigitsRoundTrip(-n);
      assert s[1..] == Digits(-n);
      assert !IsDigit(s[0]);
    }
  }

  lemma NumberRoundTrip(v: Json, text: string, rest: string)
    requires NumberOf(text) == Some(v) && text != [] && Ends(rest)
    requires forall i :: 0 <= i < |text| ==> IsNumberChar(text[i])
    requires IsDigit(text[0]) || text[0] == '-'
    ensures ParseValue(text + rest) == Some((v, rest))
  {
    hide NumberOf, ParseString, ParseItems, ParseFields, Literal, NumberRun;
    var s := text + rest;
    assert s[0] == text[0];
    assert SkipSpace(s) == s;
    NumberRunWhole(text, rest);
    assert s[|text|..] == rest;
  }

  lemma LiteralRoundTrip(word: string, v: Json, rest: string)
    requires || (word == "null" && v == Null)
             || (word == "true" && v == Bool(true))
             || (word == "false" && v == Bool(false))
    ensures ParseValue(word + rest) == Some((v, rest))
  {
    var s := word + rest;
    assert s[0] == word[0];
    assert word <= s && s[|word|..] == rest;
  }

  /** The first character of serialized text is never white space, nor a closing bracket. */
  lemma SerializedStart(v: Json)
    requires WellFormed(v)
    ensures var s := Serialize(v);
            s != [] && !IsSpace(s[0]) && s[0] != ']' && s[0] != '}'
  {
    if v.Int? {
      DecimalRoundTrip(v.n);
    }
  }

  lemma OpenString(body: string, t: string, rest: string)
    requires ParseString(body) == Some((t, rest))
    ensures ParseValue(['\"'] + body) == Some((Str(t), rest))
  {
    var s := ['\"'] + body;
    assert SkipSpace(s) == s && s[1..] == body;
  }

  lemma OpenArray(body: string, items: seq<Json>, rest: string)
    requires ParseItems(body) == Some((items, rest))
    requires body != [] && !IsSpace(body[0]) && body[0] != ']'
    ensures ParseValue(['['] + body) == Some((Arr(items), rest))
  {
    hide ParseFields, ParseItems, ParseString;
    var s := ['['] + body;
    assert SkipSpace(s) == s && s[1..] == body && SkipSpace(body) == body;
  }

  lemma OpenObject(body: string, fields: seq<Field>, rest: string)
    requires ParseFields(body) == Some((fields, rest))
    requires body != [] && body[0] == '\"'
    ensures ParseValue(['{'] + body) == Some((Obj(fields), rest))
  {
    hide ParseFields, ParseItems, ParseString;
    var s := ['{'] + body;
    assert SkipSpace(s) == s && s[1..] == body && SkipSpace(body) == body;
  }

  lemma EmptyContainers(rest: string)
    ensures ParseValue(Serialize(Arr([])) + rest) == Some((Arr([]), rest))
    ensures ParseValue(Serialize(Obj([])) + rest) == Some((Obj([]), rest))
  {
    var s, t := ['[', ']'] + rest, ['{', '}'] + rest;
    assert Serialize(Arr([])) + rest == s && Serialize(Obj([])) + rest == t;
    assert SkipSpace(s) == s && SkipSpace(s[1..]) == s[1..] && s[1..][1..] == rest;
    assert SkipSpace(t) == t && SkipSpace(t[1..]) == t[1..] && t[1..][1..] == rest;
  }

  /** Parsing what the serializer wrote gives the value back, whatever follows it. */
  lemma {:induction false} ValueRoundTrip(v: Json, rest: string)
    requires WellFormed(v) && Ends(rest)
    ensures ParseValue(Serialize(v) + rest) == Some((v, rest))
    decreases v
  {
    hide ParseValue, ParseItems, ParseFields, ParseString, IsSpace, NumberOf, KeysAscend, Escape,
      SerializeItems, SerializeFields, Decimal, IntegerInRange;
    var s := Serialize(v) + rest;
    match v
    case Null => LiteralRoundTrip("null", v, rest);
    case Bool(b) => LiteralRoundTrip(if b then "true" else "false", v, rest);
    case Int(n) =>
      DecimalRoundTrip(n);
      NumberRoundTrip(v, Decimal(n), rest);
    case Float(text) => NumberRoundTrip(v, text, rest);
    case Str(t) =>
      var body := Escape(t) + ['\"'] + rest;
      StringRoundTrip(t, rest);
      OpenString(body, t, rest);
      assert s == ['\"'] + body;
    case Arr(items) =>
      if items == [] {
        EmptyContainers(rest);
      } else {
        var body := SerializeItems(items) + [']'] + rest;
        ItemsRoundTrip(items, rest);
        ItemsStart(items, rest);
        OpenArray(body, items, rest);
        assert s == ['['] + body;
      }
    case Obj(fields) =>
      if fields == [] {
        EmptyContainers(rest);
      } else {
        var body := SerializeFields(fields) + ['}'] + rest;
        FieldsRoundTrip(fields, rest);
        FieldsStart(fields, rest);
        OpenObject(body, fields, rest);
        assert s == ['{'] + body;
      }
  }

  lemma ItemsStart(items: seq<Json>, rest: string)
    requires items != [] && WellFormed(items[0])
    ensures var t := SerializeItems(items) + [']'] + rest;
            t != [] && !IsSpace(t[0]) && t[0] != ']'
  {
    SerializedStart(items[0]);
    assert (SerializeItems(items) + [']'] + rest)[0] == Serialize(items[0])[0];
  }

  lemma FieldsStart(fields: seq<Field>, rest: string)
    requires fields != []
    ensures (SerializeFields(fields) + ['}'] + rest)[0] == '\"'
  {
  }

  lemma LastItem(s: string, v: Json, t: string)
    requires ParseValue(s) == Some((v, [']'] + t))
    ensures ParseItems(s) == Some(([v], t))
  {
    var u := [']'] + t;
    assert SkipSpace(u) == u && u[1..] == t;
  }

  lemma NextItem(s: string, v: Json, more: string, rest: seq<Json>, t: string)
    requires ParseValue(s) == Some((v, [','] + more)) && ParseItems(more) == Some((rest, t))
    ensures ParseItems(s) == Some(([v] + rest, t))
  {
    var u := [','] + more;
    assert SkipSpace(u) == u && u[1..] == more;
  }

  lemma {:induction false} ItemsRoundTrip(items: seq<Json>, rest: string)
    requires items != [] && forall j :: 0 <= j < |items| ==> WellFormed(items[j])
    ensures ParseItems(SerializeItems(items) + [']'] + rest) == Some((items, rest))
    decreases items
  {
    hide ParseItems, ParseValue, WellFormed, Serialize;
    var s := SerializeItems(items) + [']'] + rest;
    if |items| == 1 {
      var t := [']'] + rest;
      assert s == Serialize(items[0]) + t;
      ValueRoundTrip(items[0], t);
      LastItem(s, items[0], rest);
      assert items == [items[0]];
    } else {
      var more := SerializeItems(items[1..]) + [']'] + rest;
      var t := [','] + more;
      assert s == Serialize(items[0]) + t;
      ValueRoundTrip(items[0], t);
      ItemsRoundTrip(items[1..], rest);
      NextItem(s, items[0], more, items[1..], rest);
      assert [items[0]] + items[1..] == items;
    }
  }

  lemma KeyThenValue(s: string, body: string, key: string, after: string, v: Json, rest: string)
    requires s == ['\"'] + body && ParseString(body) == Some((key, [':'] + after))
    requires ParseValue(after) == Some((v, rest))
    ensures ParseField(s) == Some((Field(key, v), rest))
  {
    var u := [':'] + after;
    assert SkipSpace(s) == s && s[1..] == body;
    assert SkipSpace(u) == u && u[1..] == after;
  }

  lemma {:induction false} FieldRoundTrip(f: Field, rest: string)
    requires WellFormed(f.value) && Ends(rest)
    ensures ParseField(SerializeField(f) + rest) == Some((f, rest))
    decreases f
  {
    hide ParseField, ParseValue, ParseString, Escape, Serialize, WellFormed;
    var after := Serialize(f.value) + rest;
    var body := Escape(f.key) + ['\"'] + ([':'] + after);
    assert SerializeField(f) + rest == ['\"'] + body;
    StringRoundTrip(f.key, [':'] + after);
    ValueRoundTrip(f.value, rest);
    KeyThenValue(SerializeField(f) + rest, body, f.key, after, f.value, rest);
  }

  lemma LastField(s: string, f: Field, t: string)
    requires ParseField(s) == Some((f, ['}'] + t))
    ensures ParseFields(s) == Some(([f], t))
  {
    var u := ['}'] + t;
    assert SkipSpace(u) == u && u[1..] == t;
  }

  lemma NextField(s: string, f: Field, more: string, rest: seq<Field>, t: string)
    requires ParseField(s) == Some((f, [','] + more)) && ParseFields(more) == Some((rest, t))
    requires rest != [] && Before(f.key, rest[0].key)
    ensures ParseFields(s) == Some(([f] + rest, t))
  {
    var u := [','] + more;
    assert SkipSpace(u) == u && u[1..] == more;
  }

  lemma {:induction false} FieldsRoundTrip(fields: seq<Field>, rest: string)
    requires fields != [] && KeysAscend(fields)
    requires forall j :: 0 <= j < |fields| ==> WellFormed(fields[j].value)
    ensures ParseFields(SerializeFields(fields) + ['}'] + rest) == Some((fields, rest))
    decreases fields
  {
    hide ParseField, ParseFields, Before, WellFormed, SerializeField;
    var s := SerializeFields(fields) + ['}'] + rest;
    if |fields| == 1 {
      var t := ['}'] + rest;
      assert s == SerializeField(fields[0]) + t;
      FieldRoundTrip(fields[0], t);
      LastField(s, fields[0], rest);
      assert fields == [fields[0]];
    } else {
      var more := SerializeFields(fields[1..]) + ['}'] + rest;
      var t := [','] + more;
      assert s == SerializeField(fields[0]) + t;
      FieldRoundTrip(fields[0], t);
      FieldsRoundTrip(fields[1..], rest);
      assert Before(fields[0].key, fields[1].key);
      NextField(s, fields[0], more, fields[1..], rest);
      assert [fields[0]] + fields[1..] == fields;
    }
  }

  /** Text written for a value parses back to that value. */
  lemma RoundTrip(v: Json)
    requires WellFormed(v)
    ensures Parse(Serialize(v)) == Some(v)
  {
    ValueRoundTrip(v, []);
    assert Serialize(v) + [] == Serialize(v);
  }

  lemma {:induction false} SpaceSkipped(space: string, text: string)
    requires forall i :: 0 <= i < |space| ==> IsSpace(space[i])
    ensures SkipSpace(space + text) == SkipSpace(text)
  {
    if space == [] {
      assert space + text == text;
    } else {
      assert (space + text)[1..] == space[1..] + text;
      SpaceSkipped(space[1..], text);
    }
  }

  lemma {:induction false} OnlySpace(s: string)
    ensures SkipSpace(s) == [] <==> forall i :: 0 <= i < |s| ==> IsSpace(s[i])
  {
    if s != [] {
      OnlySpace(s[1..]);
      assert s == [s[0]] + s[1..];
    }
  }

  /** Around a value, white space alone is allowed: it changes nothing before, and anything else after is refused. */
  lemma SurroundedBySpace(space: string, v: Json, rest: string)
    requires WellFormed(v) && Ends(rest) && forall i :: 0 <= i < |space| ==> IsSpace(space[i])
    ensures Parse(space + Serialize(v) + rest)
         == if forall i :: 0 <= i < |rest| ==> IsSpace(rest[i]) then Some(v) else None
  {
    ValueRoundTrip(v, rest);
    SpaceSkipped(space, Serialize(v) + rest);
    OnlySpace(rest);
    assert space + Serialize(v) + rest == space + (Serialize(v) + rest);
    hide Serialize, WellFormed, SkipSpace, ParseString, ParseItems, ParseFields, NumberRun, NumberOf, Literal;
    assert ParseValue(space + Serialize(v) + rest) == ParseValue(Serialize(v) + rest);
  }
}
