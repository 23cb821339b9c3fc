/**
 * Bounded event reads: a page of the events below or above a cursor, taken with one
 * probe row more than it serves.
 */
module EventPages {
  import opened Prelude
  import opened Json
  import opened JsonParser
  import opened EventLog
  import opened Cursors

  const EVENTS_DEFAULT_PAGE: nat := 100
  const EVENTS_MAX_PAGE: nat := 500

  datatype EventPageQuery = EventPageQuery(before: Option<string>, after: Option<string>, limit: Option<int>)

  datatype EventWindow = Before(before: Option<int>) | After(after: int)

  function ResolveWindow(q: EventPageQuery): Result<EventWindow, Invalid> {
    if q.before.Some? && q.after.Some? then Err(BothCursors)
    else if q.before.Some? then
      var id := ParseCursor(q.before.value);
      if id.None? then Err(BadCursor) else Ok(Before(id))
    else if q.after.Some? then
      var id := ParseCursor(q.after.value);
      if id.None? then Err(BadCursor) else Ok(After(id.value))
    else Ok(Before(None))
  }

  /** Which rows a query asks for and how many, or what is wrong with it. */
  function Resolve(q: EventPageQuery): (r: Result<(EventWindow, nat), Invalid>)
    ensures r.Ok? <==>
              && !(q.before.Some? && q.after.Some?)
              && (q.before.Some? ==> ParseCursor(q.before.value).Some?)
              && (q.after.Some? ==> ParseCursor(q.after.value).Some?)
              && (q.limit.Some? ==> 1 <= q.limit.value <= EVENTS_MAX_PAGE)
    ensures r.Ok? ==> 1 <= r.value.1 <= EVENTS_MAX_PAGE && (r.value.0.After? <==> q.after.Some?)
  {
    var window := ResolveWindow(q);
    if window.Err? then Err(window.error)
    else if q.limit.None? then Ok((window.value, EVENTS_DEFAULT_PAGE))
    else if 1 <= q.limit.value <= EVENTS_MAX_PAGE then Ok((window.value, q.limit.value))
    else Err(BadLimit)
  }

  // ---- Reads ----

  function Reversed(rows: seq<Row>): (r: seq<Row>)
    ensures |r| == |rows|
    ensures forall k :: 0 <= k < |rows| ==> r[k] == rows[|rows| - 1 - k]
  {
    if rows == [] then [] else Reversed(rows[1..]) + [rows[0]]
  }

  function Take(rows: seq<Row>, n: nat): seq<Row> {
    if |rows| <= n then rows else rows[..n]
  }

  /** At most `n` rows of the window nearest its cursor, ascending by id. */
  function ReadWindow(log: seq<Row>, keep: Row -> bool, window: EventWindow, n: nat): seq<Row> {
    match window
    case Before(before) => Reversed(Take(Newest(log, keep, before), n))
    case After(after) => Take(Oldest(log, keep, after), n)
  }

  /** The rows whose payload decodes. */
  function Decoded(rows: seq<Row>): seq<Row> {
    if rows == [] then []
    else if rows[0].payload.None? then Decoded(rows[1..])
    else [rows[0]] + Decoded(rows[1..])
  }

  function Without(rows: seq<Row>, probe: Option<int>): seq<Row> {
    if rows == [] then []
    else if Some(rows[0].id) == probe then Without(rows[1..], probe)
    else [rows[0]] + Without(rows[1..], probe)
  }

  /** A scanned window in the page envelope; the scan holds one row more than the page when there is more. */
  function EventPage(scan: seq<Row>, limit: nat, window: EventWindow): Page<Row>
    requires limit > 0
  {
    if |scan| <= limit then Page(Without(Decoded(scan), None), None, false)
    else
      var probe := if window.Before? then scan[0].id else scan[|scan| - 1].id;
      var next := if window.Before? then scan[1].id else scan[|scan| - 2].id;
      Page(Without(Decoded(scan), Some(probe)), Some(Decimal(next)), true)
  }

  /** One bounded event read. */
  function ListEvents(log: seq<Row>, keep: Row -> bool, q: EventPageQuery): Result<Page<Row>, Invalid> {
    var r := Resolve(q);
    if r.Err? then Err(r.error)
    else Ok(EventPage(ReadWindow(log, keep, r.value.0, r.value.1 + 1), r.value.1, r.value.0))
  }

  // ---- What a page serves ----

  lemma {:induction false} DecodedAppend(a: seq<Row>, b: seq<Row>)
    ensures Decoded(a + b) == Decoded(a) + Decoded(b)
  {
    if a == [] {
      assert a + b == b;
    } else {
      assert (a + b)[1..] == a[1..] + b;
      DecodedAppend(a[1..], b);
    }
  }

  lemma {:induction false} ReversedAppend(a: seq<Row>, b: seq<Row>)
    ensures Reversed(a + b) == Reversed(b) + Reversed(a)
  {
  }

  lemma {:induction false} DecodedFrom(rows: seq<Row>)
    ensures forall r :: r in Decoded(rows) ==> r in rows
  {
    if rows != [] {
      DecodedFrom(rows[1..]);
    }
  }

  lemma {:induction false} WithoutAbsent(rows: seq<Row>, probe: Option<int>)
    requires forall r :: r in rows ==> Some(r.id) != probe
    ensures Without(rows, probe) == rows
  {
    if rows != [] {
      assert rows[0] in rows;
      WithoutAbsent(rows[1..], probe);
    }
  }

  lemma {:induction false} WithoutAppend(a: seq<Row>, b: seq<Row>, probe: Option<int>)
    ensures Without(a + b, probe) == Without(a, probe) + Without(b, probe)
  {
    if a == [] {
      assert a + b == b;
    } else {
      assert (a + b)[1..] == a[1..] + b;
      WithoutAppend(a[1..], b, probe);
    }
  }

  /** Dropping the probe row leaves the decoded rows of the rest. */
  lemma ProbeDropped(rest: seq<Row>, probe: Row)
    requires forall r :: r in rest ==> r.id != probe.id
    ensures Without(Decoded([probe] + rest), Some(probe.id)) == Decoded(rest)
    ensures Without(Decoded(rest + [probe]), Some(probe.id)) == Decoded(rest)
  {
    DecodedAppend([probe], rest);
    DecodedAppend(rest, [probe]);
    WithoutAppend(Decoded([probe]), Decoded(rest), Some(probe.id));
    WithoutAppend(Decoded(rest), Decoded([probe]), Some(probe.id));
    DecodedFrom(rest);
    WithoutAbsent(Decoded(rest), Some(probe.id));
    assert [probe][1..] == [];
    assert Without(Decoded([probe]), Some(probe.id)) == [];
  }

  /** The page of a window: its nearest rows, what follows, and whether anything does. */
  function Served(rows: seq<Row>, limit: nat, older: bool): Page<Row>
    requires limit > 0
  {
    var nearest := Take(rows, limit);
    Page(Decoded(if older then Reversed(nearest) else nearest),
      if |rows| <= limit then None else Some(Decimal(rows[limit - 1].id)),
      |rows| > limit)
  }

  lemma OlderServed(rows: seq<Row>, limit: nat, before: Option<int>)
    requires IdsDescend(rows) && limit > 0
    ensures EventPage(Reversed(Take(rows, limit + 1)), limit, Before(before)) == Served(rows, limit, true)
  {
    hide Decimal, Decoded, Without;
    if |rows| <= limit {
      WithoutAbsent(Decoded(Reversed(rows)), None);
    } else {
      var nearest, probe := rows[..limit], rows[limit];
      var scan := [probe] + Reversed(nearest);
      ReversedSnoc(rows, limit);
      assert Take(rows, limit + 1) == rows[..limit + 1];
      assert Reversed(nearest)[0] == nearest[limit - 1];
      forall r | r in Reversed(nearest) ensures r.id != probe.id {
        var k :| 0 <= k < limit && Reversed(nearest)[k] == r;
        assert r == rows[limit - 1 - k];
      }
      ProbeDropped(Reversed(nearest), probe);
    }
  }

  lemma ReversedSnoc(rows: seq<Row>, k: nat)
    requires k < |rows|
    ensures Reversed(rows[..k + 1]) == [rows[k]] + Reversed(rows[..k])
  {
    assert rows[..k + 1] == rows[..k] + [rows[k]];
    ReversedAppend(rows[..k], [rows[k]]);
  }

  lemma NewerServed(rows: seq<Row>, limit: nat, after: int)
    requires IdsAscend(rows) && limit > 0
    ensures EventPage(Take(rows, limit + 1), limit, After(after)) == Served(rows, limit, false)
  {
    hide Decimal, Decoded, Without;
    if |rows| <= limit {
      WithoutAbsent(Decoded(rows), None);
    } else {
      var scan, nearest, probe := rows[..limit + 1], rows[..limit], rows[limit];
      assert Take(rows, limit + 1) == scan == nearest + [probe];
      forall r | r in nearest ensures r.id != probe.id {
        var k :| 0 <= k < limit && nearest[k] == r;
        assert r == rows[k];
      }
      ProbeDropped(nearest, probe);
    }
  }

  /**
   * A page below a cursor serves the nearest decodable rows in ascending order, and
   * its cursor is the lowest row it covered, present exactly when rows remain below.
   */
  lemma OlderPage(log: seq<Row>, keep: Row -> bool, q: EventPageQuery)
    requires IdsAscend(log) && Resolve(q).Ok? && Resolve(q).value.0.Before?
    ensures ListEvents(log, keep, q)
         == Ok(Served(Newest(log, keep, Resolve(q).value.0.before), Resolve(q).value.1, true))
  {
    hide Resolve, Newest, Oldest, EventPage, Served, Take, Reversed, IdsAscend, IdsDescend;
    ReadsOrdered(log, keep, Resolve(q).value.0.before, 0);
    OlderServed(Newest(log, keep, Resolve(q).value.0.before), Resolve(q).value.1, Resolve(q).value.0.before);
  }

  /** A page above a cursor, likewise. */
  lemma NewerPage(log: seq<Row>, keep: Row -> bool, q: EventPageQuery)
    requires IdsAscend(log) && Resolve(q).Ok? && Resolve(q).value.0.After?
    ensures ListEvents(log, keep, q)
         == Ok(Served(Oldest(log, keep, Resolve(q).value.0.after), Resolve(q).value.1, false))
  {
    hide Resolve, Newest, Oldest, EventPage, Served, Take, IdsAscend, IdsDescend;
    ReadsOrdered(log, keep, None, Resolve(q).value.0.after);
    NewerServed(Oldest(log, keep, Resolve(q).value.0.after), Resolve(q).value.1, Resolve(q).value.0.after);
  }

  // ---- Page chains over a growing log ----

  /** Rows become visible in id order: a later read sees the earlier log and then some. */
  ghost predicate Grows(logs: nat -> seq<Row>) {
    forall i, j :: 0 <= i <= j ==> logs(i) <= logs(j)
  }

  /** Rows appended above a cursor do not change what lies below it. */
  lemma {:induction false} NewestStable(log: seq<Row>, later: seq<Row>, keep: Row -> bool, c: int)
    requires log <= later && forall k :: |log| <= k < |later| ==> later[k].id >= c
    ensures Newest(later, keep, Some(c)) == Newest(log, keep, Some(c))
    decreases |later|
  {
    if |later| > |log| {
      NewestStable(log, later[..|later| - 1], keep, c);
    } else {
      assert log == later;
    }
  }

  lemma AppendedAbove(log: seq<Row>, later: seq<Row>, r: Row)
    requires log <= later && IdsAscend(later) && r in log
    ensures forall k :: |log| <= k < |later| ==> later[k].id > r.id
  {
    var j :| 0 <= j < |log| && log[j] == r;
    assert later[j] == r;
  }

  /** Rows appended to the log are appended to what lies above a cursor. */
  lemma {:induction false} OldestGrows(log: seq<Row>, later: seq<Row>, keep: Row -> bool, after: int)
    requires log <= later
    ensures Oldest(log, keep, after) <= Oldest(later, keep, after)
    decreases |later|
  {
    if |later| > |log| {
      OldestGrows(log, later[..|later| - 1], keep, after);
    } else {
      assert log == later;
    }
  }

  /** The kept rows of a log, oldest first. */
  function Kept(log: seq<Row>, keep: Row -> bool): seq<Row> {
    if log == [] then []
    else
      var last, rest := log[|log| - 1], Kept(log[..|log| - 1], keep);
      if keep(last) then rest + [last] else rest
  }

  lemma {:induction false} NewestReversed(log: seq<Row>, keep: Row -> bool)
    ensures Reversed(Newest(log, keep, None)) == Kept(log, keep)
  {
    if log != [] {
      NewestReversed(log[..|log| - 1], keep);
    }
  }

  predicate LimitAccepted(limit: Option<int>) {
    limit.Some? ==> 1 <= limit.value <= EVENTS_MAX_PAGE
  }

  function LimitOf(limit: Option<int>): nat
    requires LimitAccepted(limit)
  {
    if limit.Some? then limit.value else EVENTS_DEFAULT_PAGE
  }

  ghost predicate Readable(logs: nat -> seq<Row>) {
    Grows(logs) && forall i :: IdsAscend(logs(i)) && IdsPositive(logs(i))
  }

  lemma LogAt(logs: nat -> seq<Row>, i: nat, j: nat)
    requires Readable(logs) && i <= j
    ensures logs(i) <= logs(j) && IdsAscend(logs(j)) && IdsPositive(logs(j))
  {
  }

  /** The rows below the last one read are the same in any later log. */
  lemma OlderRest(log: seq<Row>, later: seq<Row>, keep: Row -> bool, before: Option<int>, pos: nat)
    requires IdsAscend(log) && IdsAscend(later) && IdsPositive(log) && log <= later
    requires 0 < pos <= |Newest(log, keep, before)|
    ensures var all := Newest(log, keep, before);
            && ParseCursor(Decimal(all[pos - 1].id)) == Some(all[pos - 1].id)
            && Newest(later, keep, Some(all[pos - 1].id)) == all[pos..]
  {
    hide IdsAscend, ParseCursor, Decimal;
    var all := Newest(log, keep, before);
    NewestFrom(log, keep, before, pos - 1);
    CursorRoundTrip(all[pos - 1].id);
    NewestResumes(log, keep, before, pos - 1);
    AppendedAbove(log, later, all[pos - 1]);
    NewestStable(log, later, keep, all[pos - 1].id);
  }

  /** One more page below puts its rows before those already read. */
  lemma OlderJoins(all: seq<Row>, pos: nat, limit: nat, pages: seq<seq<Row>>)
    requires pos <= |all| && limit > 0 && Flatten(pages) == Decoded(Reversed(all[..pos]))
    ensures var n := pos + |Take(all[pos..], limit)|;
            n <= |all| && Flatten([Decoded(Reversed(Take(all[pos..], limit)))] + pages) == Decoded(Reversed(all[..n]))
  {
    hide Decoded, Reversed;
    var nearest := Take(all[pos..], limit);
    var n := pos + |nearest|;
    assert all[..n] == all[..pos] + nearest;
    ReversedAppend(all[..pos], nearest);
    DecodedAppend(Reversed(nearest), Reversed(all[..pos]));
    var more := [Decoded(Reversed(nearest))] + pages;
    assert more[1..] == pages;
  }

  /** The id a cursor stands for, and the cursor of an id. */
  function CursorFor(id: Option<int>): Option<string> {
    if id.Some? then Some(Decimal(id.value)) else None
  }

  predicate Nameable(id: Option<int>) {
    id.Some? ==> 0 < id.value <= I64_MAX
  }

  lemma CursorNames(id: Option<int>)
    requires Nameable(id)
    ensures CursorFor(id).Some? ==> ParseCursor(CursorFor(id).value) == id
  {
    if id.Some? {
      CursorRoundTrip(id.value);
    }
  }

  /**
   * Following cursors downwards from `before`, or from the newest event, while the
   * log keeps growing: the pages end, and put in order they are the decodable events
   * below `before` of the log as it was when the first page was read, each once.
   */
  method WalkOlder(logs: nat -> seq<Row>, keep: Row -> bool, before: Option<int>, limit: Option<int>)
    returns (pages: seq<seq<Row>>)
    requires Readable(logs) && LimitAccepted(limit) && Nameable(before)
    ensures Flatten(pages) == Decoded(Reversed(Newest(logs(0), keep, before)))
    ensures forall i :: 0 <= i < |pages| ==> |pages[i]| <= LimitOf(limit)
  {
    hide Readable, IdsAscend, IdsPositive, Decimal, ParseCursor, Decoded, Reversed, Newest, Flatten, Kept, ListEvents,
        Nameable;
    LogAt(logs, 0, 0);
    ghost var all := Newest(logs(0), keep, before);
    ghost var pos := 0;
    CursorNames(before);
    var cursor := CursorFor(before);
    pages := [];
    NothingRead(all);
    var i := 0;
    while true
      invariant pos <= |all|
      invariant cursor == if pos == 0 then CursorFor(before) else Some(Decimal(all[pos - 1].id))
      invariant Flatten(pages) == Decoded(Reversed(all[..pos]))
      invariant forall k :: 0 <= k < |pages| ==> |pages[k]| <= LimitOf(limit)
      invariant i == 0 <==> pos == 0
      decreases |all| - pos
    {
      LogAt(logs, 0, i);
      if pos > 0 {
        OlderRest(logs(0), logs(i), keep, before, pos);
      }
      var q := EventPageQuery(cursor, None, limit);
      OlderPage(logs(i), keep, q);
      var page := ListEvents(logs(i), keep, q).value;
      assert Newest(logs(i), keep, if pos == 0 then before else Some(all[pos - 1].id)) == all[pos..];
      assert page == Served(all[pos..], LimitOf(limit), true);
      OlderJoins(all, pos, LimitOf(limit), pages);
      DecodedShorter(Reversed(Take(all[pos..], LimitOf(limit))));
      pages := [page.items] + pages;
      pos := pos + |Take(all[pos..], LimitOf(limit))|;
      if !page.hasMore {
        break;
      }
      cursor, i := page.nextCursor, i + 1;
    }
    assert all[..pos] == all;
  }

  /** From the newest event, that is every decodable event of that log. */
  method WalkAll(logs: nat -> seq<Row>, keep: Row -> bool, limit: Option<int>) returns (pages: seq<seq<Row>>)
    requires Readable(logs) && LimitAccepted(limit)
    ensures Flatten(pages) == Decoded(Kept(logs(0), keep))
    ensures forall i :: 0 <= i < |pages| ==> |pages[i]| <= LimitOf(limit)
  {
    NewestReversed(logs(0), keep);
    pages := WalkOlder(logs, keep, None, limit);
  }

  lemma NothingRead(all: seq<Row>)
    ensures Flatten<Row>([]) == Decoded(Reversed(all[..0])) == Decoded(all[..0]) == []
  {
  }

  lemma {:induction false} DecodedShorter(rows: seq<Row>)
    ensures |Decoded(rows)| <= |rows|
  {
    if rows != [] {
      DecodedShorter(rows[1..]);
    }
  }

  /** The rows above the last one read, in the log as it has grown since. */
  lemma NewerRest(log: seq<Row>, keep: Row -> bool, after: int, pos: nat)
    requires IdsAscend(log) && IdsPositive(log) && 0 < pos <= |Oldest(log, keep, after)|
    ensures var all := Oldest(log, keep, after);
            && ParseCursor(Decimal(all[pos - 1].id)) == Some(all[pos - 1].id)
            && Oldest(log, keep, all[pos - 1].id) == all[pos..]
  {
    hide IdsAscend, ParseCursor, Decimal;
    var all := Oldest(log, keep, after);
    OldestFrom(log, keep, after, pos - 1);
    CursorRoundTrip(all[pos - 1].id);
    OldestResumes(log, keep, after, pos - 1);
  }

  lemma {:induction false} OldestFrom(log: seq<Row>, keep: Row -> bool, after: int, k: nat)
    requires k < |Oldest(log, keep, after)|
    ensures Oldest(log, keep, after)[k] in log
  {
    var init, last := log[..|log| - 1], log[|log| - 1];
    if k < |Oldest(init, keep, after)| {
      OldestFrom(init, keep, after, k);
    }
  }

  lemma NewerJoins(all: seq<Row>, pos: nat, limit: nat, pages: seq<seq<Row>>)
    requires pos <= |all| && limit > 0 && Flatten(pages) == Decoded(all[..pos])
    ensures var n := pos + |Take(all[pos..], limit)|;
            n <= |all| && Flatten(pages + [Decoded(Take(all[pos..], limit))]) == Decoded(all[..n])
  {
    hide Decoded;
    var nearest := Take(all[pos..], limit);
    var n := pos + |nearest|;
    assert all[..n] == all[..pos] + nearest;
    DecodedAppend(all[..pos], nearest);
    FlattenSnoc(pages, Decoded(nearest));
  }

  /** The cursor that resumes above the first `pos` rows. */
  function CursorAt(rows: seq<Row>, after: int, pos: nat): string
    requires pos <= |rows|
  {
    if pos == 0 then Decimal(after) else Decimal(rows[pos - 1].id)
  }

  /** The page read there serves the rows that follow. */
  lemma NewerStep(log: seq<Row>, keep: Row -> bool, after: int, limit: Option<int>, pos: nat)
    requires IdsAscend(log) && IdsPositive(log) && LimitAccepted(limit) && 0 < after <= I64_MAX
    requires pos <= |Oldest(log, keep, after)|
    ensures var all := Oldest(log, keep, after);
            ListEvents(log, keep, EventPageQuery(None, Some(CursorAt(all, after, pos)), limit))
            == Ok(Served(all[pos..], LimitOf(limit), false))
  {
    hide IdsAscend, IdsPositive, Decimal, ParseCursor, Oldest, ListEvents, Served;
    var all := Oldest(log, keep, after);
    CursorRoundTrip(after);
    if pos > 0 {
      NewerRest(log, keep, after, pos);
    }
    assert all[0..] == all;
    NewerPage(log, keep, EventPageQuery(None, Some(CursorAt(all, after, pos)), limit));
  }

  /**
   * Following cursors upwards while the log grows towards `final`: the pages end, and
   * are the decodable events above `after` in the log as it was when the last page
   * was read, each once, in order.
   */
  method WalkNewer(logs: nat -> seq<Row>, ghost final: seq<Row>, keep: Row -> bool, after: int, limit: Option<int>)
    returns (pages: seq<seq<Row>>)
    requires Readable(logs) && LimitAccepted(limit) && 0 < after <= I64_MAX
    requires forall i :: logs(i) <= final
    ensures pages != []
    ensures Flatten(pages) == Decoded(Oldest(logs(|pages| - 1), keep, after))
    ensures forall i :: 0 <= i < |pages| ==> |pages[i]| <= LimitOf(limit)
  {
    hide Readable, IdsAscend, IdsPositive, Decimal, ParseCursor, Decoded, Oldest, Flatten, ListEvents;
    ghost var pos := 0;
    var cursor := Decimal(after);
    pages := [];
    NothingRead(Oldest(logs(0), keep, after));
    while true
      invariant pos <= |Oldest(logs(|pages|), keep, after)|
      invariant cursor == CursorAt(Oldest(logs(|pages|), keep, after), after, pos)
      invariant Flatten(pages) == Decoded(Oldest(logs(|pages|), keep, after)[..pos])
      invariant forall k :: 0 <= k < |pages| ==> |pages[k]| <= LimitOf(limit)
      decreases |Oldest(final, keep, after)| - pos
    {
      var log := logs(|pages|);
      ghost var all := Oldest(log, keep, after);
      LogAt(logs, |pages|, |pages| + 1);
      LogAt(logs, |pages|, |pages|);
      OldestGrows(log, final, keep, after);
      OldestGrows(log, logs(|pages| + 1), keep, after);
      NewerStep(log, keep, after, limit, pos);
      var page := ListEvents(log, keep, EventPageQuery(None, Some(cursor), limit)).value;
      NewerJoins(all, pos, LimitOf(limit), pages);
      DecodedShorter(Take(all[pos..], LimitOf(limit)));
      pages := pages + [page.items];
      pos := pos + |Take(all[pos..], LimitOf(limit))|;
      if !page.hasMore {
        assert all[..pos] == all;
        break;
      }
      cursor := page.nextCursor.value;
      assert Oldest(logs(|pages|), keep, after)[..pos] == all[..pos];
    }
  }
}
