/** Page cursors: event ids written in decimal and read back, and the page envelope. */
module Cursors {
  import opened Prelude
  import opened Json
  import opened JsonParser
  import opened EventLog

  /** A page of a bounded read. */
  datatype Page<+T> = Page(items: seq<T>, nextCursor: Option<string>, hasMore: bool)

  datatype Invalid = BadLimit | BadCursor | BothCursors

  /** An optional sign and digits within i64 range. */
  function ParseI64(s: string): Option<int> {
    var digits := if s != [] && (s[0] == '-' || s[0] == '+') then s[1..] else s;
    if digits == [] || !AllDigits(digits) then None
    else
      var n := if s[0] == '-' then 0 - DigitsValue(digits) else DigitsValue(digits);
      if I64_MIN <= n <= I64_MAX then Some(n) else None
  }

  /** A cursor names a positive event id. */
  function ParseCursor(s: string): Option<int> {
    var n := ParseI64(s);
    if n.Some? && n.value > 0 then n else None
  }

  /** Every id is one a cursor can name. */
  predicate IdsPositive(log: seq<Row>) {
    forall row :: row in log ==> 0 < row.id <= I64_MAX
  }

  /** A cursor a page hands out is accepted, and names the same id, exactly when that id is positive. */
  lemma CursorRoundTrip(id: int)
    requires I64_MIN <= id <= I64_MAX
    ensures ParseI64(Decimal(id)) == Some(id)
    ensures ParseCursor(Decimal(id)) == if id > 0 then Some(id) else None
  {
    hide DigitsValue, Digits;
    if id < 0 {
      DigitsRoundTrip(-id);
      assert Decimal(id)[1..] == Digits(-id);
    } else {
      DigitsRoundTrip(id);
      assert '0' <= Digits(id)[0] <= '9';
    }
  }
}
