/**
 * The live event stream of one execution: it opens at a position, catches up on every
 * wakeup, and closes after the event that ends the execution.
 */
module EventStream {
  import opened Prelude
  import opened JsonParser
  import opened EventLog
  import opened Cursors
  import opened EventPages
  import opened TerminalEvents

  datatype Ephemeral = Ephemeral(sessionId: string, msgSeq: int, payload: string)

  /** What wakes the stream. */
  datatype Wake =
    | Notified(executionId: string, ephemeral: Option<Ephemeral>)
    | Lagged
    | ChannelClosed
    | Tick

  datatype Frame =
    | Position(position: Option<int>, historyBefore: Option<int>)
    | EphemeralFrame(copy: Ephemeral)
    | EventFrame(row: Row)
    | ProtocolError

  /** The stored events a client of the stream receives. */
  function EventsOf(frames: seq<Frame>): seq<Row> {
    if frames == [] then []
    else EventsOf(frames[..|frames| - 1]) + if frames[|frames| - 1].EventFrame? then [frames[|frames| - 1].row] else []
  }

  lemma EventsSnoc(frames: seq<Frame>, f: Frame)
    ensures EventsOf(frames + [f]) == if f.EventFrame? then EventsOf(frames) + [f.row] else EventsOf(frames)
  {
    assert (frames + [f])[..|frames|] == frames;
    assert EventsOf(frames) + [] == EventsOf(frames);
  }

  /** Stored events only. */
  predicate OnlyEvents(frames: seq<Frame>) {
    forall i :: 0 <= i < |frames| ==> frames[i].EventFrame?
  }

  // ---- Catching up ----

  /** Snapshots of a log that grows from `base` towards `final`; a read may fail. */
  ghost predicate Snapshots(logs: nat -> Option<seq<Row>>, base: seq<Row>, final: seq<Row>) {
    && IdsAscend(final) && IdsPositive(final) && base <= final
    && (forall k :: logs(k).Some? ==> base <= logs(k).value <= final)
    && (forall i, j :: 0 <= i <= j && logs(i).Some? && logs(j).Some? ==> logs(i).value <= logs(j).value)
  }

  lemma SnapshotAt(logs: nat -> Option<seq<Row>>, base: seq<Row>, final: seq<Row>, k: nat)
    requires Snapshots(logs, base, final) && logs(k).Some?
    ensures base <= logs(k).value <= final && IdsAscend(logs(k).value) && IdsAscend(final)
  {
  }

  /** How far the stream is: of the rows `all` above `start`, the first `n` are scanned. */
  ghost predicate At(all: seq<Row>, start: int, n: nat, last: int, sent: seq<Row>) {
    && n <= |all| && last == (if n == 0 then start else all[n - 1].id)
    && sent == Decoded(all[..n]) && NoTerminal(sent)
  }

  /** Some scanned rows further. */
  lemma AtNext(all: seq<Row>, start: int, n: nat, last: int, sent: seq<Row>, m: nat)
    requires At(all, start, n, last, sent) && n <= m <= |all| && NoTerminal(Decoded(all[n..m]))
    ensures At(all, start, m, if m == n then last else all[m - 1].id, sent + Decoded(all[n..m]))
  {
    hide IsTerminalEvent, Decoded;
    assert all[..m] == all[..n] + all[n..m];
    DecodedAppend(all[..n], all[n..m]);
  }

  /** What follows a terminal event does not matter. */
  lemma ClosesHere(sent: seq<Row>, next: seq<Row>, rest: seq<Row>)
    requires NoTerminal(sent) && !NoTerminal(next)
    ensures sent + UpToTerminal(next) == UpToTerminal(sent + (next + rest))
    ensures !NoTerminal(sent + UpToTerminal(next))
  {
    hide NoTerminal, UpToTerminal;
    UpToTerminalAppend(sent, next + rest);
    UpToTerminalWithin(next, rest);
    UpToTerminalEnds(next);
    SomeTerminal(sent, UpToTerminal(next));
  }

  lemma SplitInThree(rows: seq<Row>, n: nat, m: nat)
    requires n <= m <= |rows|
    ensures rows == rows[..n] + (rows[n..m] + rows[m..])
  {
  }

  lemma DecodedInThree(all: seq<Row>, n: nat, m: nat)
    requires n <= m <= |all|
    ensures Decoded(all) == Decoded(all[..n]) + (Decoded(all[n..m]) + Decoded(all[m..]))
  {
    hide Decoded;
    SplitInThree(all, n, m);
    DecodedAppend(all[..n], all[n..m] + all[m..]);
    DecodedAppend(all[n..m], all[m..]);
  }

  /** A terminal event among the next rows closes the stream where the whole log says. */
  lemma AtTerminal(all: seq<Row>, start: int, n: nat, last: int, sent: seq<Row>, m: nat)
    requires At(all, start, n, last, sent) && n <= m <= |all| && !NoTerminal(Decoded(all[n..m]))
    ensures sent + UpToTerminal(Decoded(all[n..m])) == UpToTerminal(Decoded(all))
    ensures !NoTerminal(UpToTerminal(Decoded(all)))
  {
    hide NoTerminal, Decoded, UpToTerminal;
    DecodedInThree(all, n, m);
    ClosesHere(sent, Decoded(all[n..m]), Decoded(all[m..]));
  }

  /** The highest id scanned, decoded or not. */
  function HighestId(rows: seq<Row>): Option<int> {
    if rows == [] then None
    else
      var rest := HighestId(rows[1..]);
      Some(if rest.Some? then Max(rows[0].id, rest.value) else rows[0].id)
  }

  lemma {:induction false} HighestIsLast(rows: seq<Row>)
    requires IdsAscend(rows) && rows != []
    ensures HighestId(rows) == Some(rows[|rows| - 1].id)
  {
    if |rows| > 1 {
      HighestIsLast(rows[1..]);
    }
  }

  /** Send a batch, up to the event that ends the execution. */
  method SendBatch(frames0: seq<Frame>, batch: seq<Row>, last0: int)
    returns (frames: seq<Frame>, last: int, closed: bool)
    requires IdsAscend(batch)
    requires forall r :: r in batch ==> last0 < r.id
    ensures frames0 <= frames && OnlyEvents(frames[|frames0|..])
    ensures closed <==> !NoTerminal(Decoded(batch))
    ensures !closed ==> EventsOf(frames) == EventsOf(frames0) + Decoded(batch)
    ensures !closed ==> last == if batch == [] then last0 else batch[|batch| - 1].id
    ensures closed ==> EventsOf(frames) == EventsOf(frames0) + UpToTerminal(Decoded(batch))
  {
    hide IsTerminalEvent, EventsOf, IdsAscend;
    var events := Decoded(batch);
    DecodedFrom(batch);
    if batch != [] {
      HighestIsLast(batch);
      BelowLast(batch);
    }
    frames, last, closed := frames0, last0, false;
    for i := 0 to |events|
      invariant frames0 <= frames && OnlyEvents(frames[|frames0|..])
      invariant EventsOf(frames) == EventsOf(frames0) + events[..i]
      invariant NoTerminal(events[..i])
      invariant last == last0 || (batch != [] && last <= batch[|batch| - 1].id)
    {
      var event := events[i];
      assert event in batch;
      EventsSnoc(frames, EventFrame(event));
      frames := frames + [EventFrame(event)];
      last := event.id;
      assert events[..i + 1] == events[..i] + [event];
      if IsTerminalEvent(event) {
        closed := true;
        assert event in events;
        StopsHere(events, i);
        return;
      }
    }
    assert events[..|events|] == events;
    var highest := HighestId(batch);
    if highest.Some? {
      last := Max(last, highest.value);
    }
  }

  lemma BelowLast(rows: seq<Row>)
    requires IdsAscend(rows) && rows != []
    ensures forall r :: r in rows ==> r.id <= rows[|rows| - 1].id
  {
  }

  /** Reading above the last scanned row resumes after the rows scanned. */
  lemma RestOf(log: seq<Row>, final: seq<Row>, keep: Row -> bool, start: int, n: nat, last: int)
    requires IdsAscend(final) && log <= final
    requires var rows := Oldest(log, keep, start);
             n <= |rows| && last == (if n == 0 then start else rows[n - 1].id)
    ensures Oldest(log, keep, start) <= Oldest(final, keep, start)
    ensures Oldest(log, keep, last) == Oldest(log, keep, start)[n..]
    ensures IdsAscend(Oldest(log, keep, last))
    ensures forall r :: r in Oldest(log, keep, last) ==> last < r.id
  {
    PrefixAscends(log, final);
    hide Oldest, IdsAscend;
    OldestGrows(log, final, keep, start);
    OldestAbove(log, keep, last);
    if n > 0 {
      OldestResumes(log, keep, start, n - 1);
    } else {
      assert Oldest(log, keep, start)[0..] == Oldest(log, keep, start);
    }
  }

  lemma PrefixAscends(log: seq<Row>, final: seq<Row>)
    requires IdsAscend(final) && log <= final
    ensures IdsAscend(log)
  {
  }

  /** A batch is the next stretch of the rows the finished log holds; a short one exhausts its snapshot. */
  lemma BatchIsNext(log: seq<Row>, final: seq<Row>, keep: Row -> bool, start: int, n: nat, last: int)
    requires IdsAscend(final) && log <= final
    requires var rows := Oldest(log, keep, start);
             n <= |rows| && last == (if n == 0 then start else rows[n - 1].id)
    ensures var all, rows := Oldest(final, keep, start), Oldest(log, keep, start);
            var batch := Take(Oldest(log, keep, last), EVENTS_MAX_PAGE);
            && rows <= all
            && n + |batch| <= |rows| && batch == all[n..n + |batch|]
            && (|batch| < EVENTS_MAX_PAGE ==> n + |batch| == |rows|)
            && IdsAscend(batch) && forall r :: r in batch ==> last < r.id
  {
    hide Oldest, Take, IdsAscend;
    RestOf(log, final, keep, start, n, last);
    TakeIsNext(Oldest(log, keep, start), Oldest(final, keep, start), n, last);
  }

  lemma TakeIsNext(rows: seq<Row>, all: seq<Row>, n: nat, last: int)
    requires rows <= all && n <= |rows|
    requires IdsAscend(rows[n..]) && forall r :: r in rows[n..] ==> last < r.id
    ensures var batch := Take(rows[n..], EVENTS_MAX_PAGE);
            && n + |batch| <= |rows| && batch == all[n..n + |batch|]
            && (|batch| < EVENTS_MAX_PAGE ==> n + |batch| == |rows|)
            && IdsAscend(batch) && forall r :: r in batch ==> last < r.id
  {
    var rest := rows[n..];
    var batch := Take(rest, EVENTS_MAX_PAGE);
    assert batch <= rest;
    assert batch == rows[n..n + |batch|] == all[n..n + |batch|];
    forall r | r in batch ensures last < r.id {
      assert r in rest;
    }
  }

  /** Rows scanned so far are in every snapshot still to be read. */
  ghost predicate Scanned(logs: nat -> Option<seq<Row>>, keep: Row -> bool, start: int, k: nat, n: nat) {
    forall j :: j >= k && logs(j).Some? ==> n <= |Oldest(logs(j).value, keep, start)|
  }

  lemma ScannedNext(logs: nat -> Option<seq<Row>>, base: seq<Row>, final: seq<Row>, keep: Row -> bool, start: int,
      k: nat, n: nat)
    requires Snapshots(logs, base, final) && logs(k).Some? && n <= |Oldest(logs(k).value, keep, start)|
    ensures Scanned(logs, keep, start, k + 1, n)
  {
    forall j | j >= k + 1 && logs(j).Some? ensures n <= |Oldest(logs(j).value, keep, start)| {
      OldestGrows(logs(k).value, logs(j).value, keep, start);
    }
  }

  lemma ScannedLater(logs: nat -> Option<seq<Row>>, keep: Row -> bool, start: int, k: nat, n: nat)
    requires Scanned(logs, keep, start, k, n)
    ensures Scanned(logs, keep, start, k + 1, n)
  {
  }

  /** What a read at snapshot `k` can rely on. */
  lemma ScannedHere(logs: nat -> Option<seq<Row>>, base: seq<Row>, final: seq<Row>, keep: Row -> bool,
                    start: int, k: nat, n: nat, last: int, sent: seq<Row>)
    requires Following(logs, base, final, keep, start, k, n, last, sent) && logs(k).Some?
    ensures IdsAscend(final) && logs(k).value <= final
    ensures var rows := Oldest(logs(k).value, keep, start);
            n <= |rows| && last == (if n == 0 then start else rows[n - 1].id)
  {
    hide IsTerminalEvent, Oldest, Decoded;
    OldestGrows(logs(k).value, final, keep, start);
  }

  /** The rows of the execution a stream serves, above where it started, in the finished log. */
  ghost predicate Following(logs: nat -> Option<seq<Row>>, base: seq<Row>, final: seq<Row>, keep: Row -> bool,
                            start: int, k: nat, n: nat, last: int, sent: seq<Row>)
  {
    && Snapshots(logs, base, final)
    && At(Oldest(final, keep, start), start, n, last, sent)
    && Scanned(logs, keep, start, k, n)
  }

  datatype Status = Open | Ended | Broken | Dropped

  /** What a stream that broke ends with. */
  function Closing(status: Status): seq<Frame> {
    if status == Broken then [ProtocolError] else []
  }

  /** `frames` are `frames0`, then stored events, then the error when the stream broke. */
  ghost predicate Served(frames0: seq<Frame>, frames: seq<Frame>, events: seq<Frame>, status: Status) {
    frames == frames0 + events + Closing(status) && OnlyEvents(events)
  }

  lemma EventsGrow(frames0: seq<Frame>, events: seq<Frame>, frames: seq<Frame>)
    requires OnlyEvents(events) && frames0 + events <= frames && OnlyEvents(frames[|frames0 + events|..])
    ensures frames == frames0 + frames[|frames0|..] && OnlyEvents(frames[|frames0|..])
  {
    var more := frames[|frames0|..];
    forall i | 0 <= i < |more| ensures more[i].EventFrame? {
      if i >= |events| {
        assert more[i] == frames[|frames0 + events|..][i - |events|];
      }
    }
  }

  lemma NothingYet(frames: seq<Frame>)
    ensures frames == frames + [] && OnlyEvents([])
  {
  }

  /**
   * One catch-up: batches are read from snapshot `k0` on, until one comes short, a
   * read fails, or the event that ends the execution has been sent.
   */
  method CatchUp(logs: nat -> Option<seq<Row>>, ghost base: seq<Row>, ghost final: seq<Row>, keep: Row -> bool,
                 ghost start: int, frames0: seq<Frame>, ghost n0: nat, last0: int, k0: nat)
    returns (frames: seq<Frame>, last: int, status: Status, k: nat, ghost n: nat, ghost events: seq<Frame>)
    requires Following(logs, base, final, keep, start, k0, n0, last0, EventsOf(frames0))
    ensures k > k0 && Served(frames0, frames, events, status)
    ensures status != Dropped
    ensures status != Ended ==> Following(logs, base, final, keep, start, k, n, last, EventsOf(frames))
    ensures status == Open ==> logs(k - 1).Some? && n == |Oldest(logs(k - 1).value, keep, start)|
    ensures status == Ended ==>
              EventsOf(frames) == UpToTerminal(Decoded(Oldest(final, keep, start))) && !NoTerminal(EventsOf(frames))
  {
    hide IsTerminalEvent, EventsOf, IdsAscend, Oldest, Decoded, UpToTerminal, Snapshots, Scanned, OnlyEvents;
    ghost var all := Oldest(final, keep, start);
    NothingYet(frames0);
    frames, last, k, n, events := frames0, last0, k0, n0, [];
    while true
      invariant k >= k0 && frames == frames0 + events && OnlyEvents(events)
      invariant Following(logs, base, final, keep, start, k, n, last, EventsOf(frames))
      decreases |all| - n
    {
      if logs(k).None? {
        EventsSnoc(frames, ProtocolError);
        frames, status, k := frames + [ProtocolError], Broken, k + 1;
        ScannedLater(logs, keep, start, k - 1, n);
        return;
      }
      ScannedHere(logs, base, final, keep, start, k, n, last, EventsOf(frames));
      BatchIsNext(logs(k).value, final, keep, start, n, last);
      var batch := Take(Oldest(logs(k).value, keep, last), EVENTS_MAX_PAGE);
      var closed;
      ghost var sent, was := EventsOf(frames), last;
      frames, last, closed := SendBatch(frames, batch, last);
      EventsGrow(frames0, events, frames);
      events := frames[|frames0|..];
      if closed {
        AtTerminal(all, start, n, was, sent, n + |batch|);
        status, k := Ended, k + 1;
        return;
      }
      AtNext(all, start, n, was, sent, n + |batch|);
      n := n + |batch|;
      ScannedNext(logs, base, final, keep, start, k, n);
      k := k + 1;
      if |batch| < EVENTS_MAX_PAGE {
        status := Open;
        return;
      }
    }
  }

  // ---- The stream ----

  function OfExecution(executionId: string): Row -> bool {
    (r: Row) => r.executionId == executionId
  }

  /** The highest id of the kept rows. */
  function MaxId(log: seq<Row>, keep: Row -> bool): Option<int> {
    if log == [] then None
    else
      var last, rest := log[|log| - 1], MaxId(log[..|log| - 1], keep);
      if !keep(last) then rest else if rest.None? then Some(last.id) else Some(Max(last.id, rest.value))
  }

  lemma {:induction false} MaxIdBounds(log: seq<Row>, keep: Row -> bool)
    ensures forall r :: r in log && keep(r) ==> MaxId(log, keep).Some? && r.id <= MaxId(log, keep).value
    ensures MaxId(log, keep).Some? ==> exists r :: r in log && keep(r) && r.id == MaxId(log, keep).value
  {
    if log != [] {
      var init, last := log[..|log| - 1], log[|log| - 1];
      assert log == init + [last];
      MaxIdBounds(init, keep);
      if keep(last) {
        assert last in log;
      }
    }
  }

  function StartOf(position: Option<int>): int {
    if position.Some? then position.value else 0
  }

  /** One past the position, unless that overflows. */
  function HistoryBefore(position: Option<int>): Option<int> {
    if position.Some? && position.value < I64_MAX then Some(position.value + 1) else None
  }

  predicate WakesFor(wake: Wake, executionId: string) {
    wake.Tick? || (wake.Notified? && wake.executionId == executionId)
  }

  lemma StartHolds(logs: nat -> Option<seq<Row>>, base: seq<Row>, final: seq<Row>, keep: Row -> bool, start: int)
    requires Snapshots(logs, base, final)
    ensures Following(logs, base, final, keep, start, 0, 0, start, [])
  {
    hide Snapshots, IsTerminalEvent;
    assert Decoded(Oldest(final, keep, start)[..0]) == [];
  }

  // ---- What each wake brings ----

  /** The copy a wake carries for this execution. */
  function CopyOf(wake: Wake, executionId: string): seq<Ephemeral> {
    if wake.Notified? && wake.executionId == executionId && wake.ephemeral.Some? then [wake.ephemeral.value] else []
  }

  /** The copies some wakes carry, in order. */
  function CopiesFor(wakes: seq<Wake>, executionId: string): seq<Ephemeral> {
    if wakes == [] then []
    else CopiesFor(wakes[..|wakes| - 1], executionId) + CopyOf(wakes[|wakes| - 1], executionId)
  }

  /** The copies a client of the stream receives. */
  function CopiesOf(frames: seq<Frame>): seq<Ephemeral> {
    if frames == [] then []
    else
      CopiesOf(frames[..|frames| - 1])
      + if frames[|frames| - 1].EphemeralFrame? then [frames[|frames| - 1].copy] else []
  }

  function CopyFrame(wake: Wake, executionId: string): seq<Frame> {
    var copies := CopyOf(wake, executionId);
    if copies == [] then [] else [EphemeralFrame(copies[0])]
  }

  /** Wake by wake: the copy it carries, then the events sent for it. */
  function Brought(wakes: seq<Wake>, served: seq<seq<Frame>>, executionId: string): seq<Frame>
    requires |served| <= |wakes|
    decreases |served|
  {
    if served == [] then []
    else
      var n := |served| - 1;
      Brought(wakes, served[..n], executionId) + CopyFrame(wakes[n], executionId) + served[n]
  }

  /** Events are sent for this execution's wakes alone. */
  ghost predicate ServesWakes(wakes: seq<Wake>, served: seq<seq<Frame>>, executionId: string) {
    && |served| <= |wakes|
    && forall i :: 0 <= i < |served| ==>
         OnlyEvents(served[i]) && (!WakesFor(wakes[i], executionId) ==> served[i] == [])
  }

  /** A wake that drops the stream. */
  predicate Drops(wake: Wake) {
    wake.Lagged? || wake.ChannelClosed?
  }

  /** How far a stream in this state got through its wakes. */
  ghost predicate Handled(wakes: seq<Wake>, executionId: string, n: nat, status: Status) {
    && n <= |wakes| && (forall i :: 0 <= i < n ==> !Drops(wakes[i]))
    && match status
       case Open => n == |wakes|
       case Dropped => n < |wakes| && Drops(wakes[n])
       case _ => n > 0 && WakesFor(wakes[n - 1], executionId)
  }

  lemma BroughtSnoc(wakes: seq<Wake>, served: seq<seq<Frame>>, executionId: string, events: seq<Frame>)
    requires |served| < |wakes|
    ensures Brought(wakes, served + [events], executionId)
         == Brought(wakes, served, executionId) + CopyFrame(wakes[|served|], executionId) + events
  {
    assert (served + [events])[..|served|] == served;
  }

  lemma {:induction false} CopiesAppend(a: seq<Frame>, b: seq<Frame>)
    ensures CopiesOf(a + b) == CopiesOf(a) + CopiesOf(b)
  {
    if b == [] {
      assert a + b == a;
    } else {
      assert (a + b)[..|a + b| - 1] == a + b[..|b| - 1];
      CopiesAppend(a, b[..|b| - 1]);
    }
  }

  lemma {:induction false} EventsCarryNoCopy(events: seq<Frame>)
    requires OnlyEvents(events)
    ensures CopiesOf(events) == []
  {
    if events != [] {
      EventsCarryNoCopy(events[..|events| - 1]);
    }
  }

  lemma NoCopy(f: Frame)
    requires !f.EphemeralFrame?
    ensures CopiesOf([f]) == [] && CopiesOf([]) == []
  {
    assert [f][..0] == [];
  }

  lemma CopyFrameCarries(wake: Wake, executionId: string)
    ensures CopiesOf(CopyFrame(wake, executionId)) == CopyOf(wake, executionId)
  {
    var frames := CopyFrame(wake, executionId);
    if frames != [] {
      assert frames[..0] == [];
    }
  }

  /** What the wakes brought holds their copies, in order, and neither an opening nor an error. */
  lemma {:induction false} BroughtHolds(wakes: seq<Wake>, served: seq<seq<Frame>>, executionId: string)
    requires ServesWakes(wakes, served, executionId)
    ensures CopiesOf(Brought(wakes, served, executionId)) == CopiesFor(wakes[..|served|], executionId)
    ensures forall f :: f in Brought(wakes, served, executionId) ==> f.EventFrame? || f.EphemeralFrame?
    decreases |served|
  {
    hide CopiesOf, CopyOf;
    if served == [] {
      assert Brought(wakes, served, executionId) == [];
      NoCopy(ProtocolError);
    } else {
      var n := |served| - 1;
      BroughtHolds(wakes, served[..n], executionId);
      var before, copy := Brought(wakes, served[..n], executionId), CopyFrame(wakes[n], executionId);
      CopiesAppend(before, copy);
      CopiesAppend(before + copy, served[n]);
      CopyFrameCarries(wakes[n], executionId);
      EventsCarryNoCopy(served[n]);
      assert wakes[..|served|][..n] == wakes[..n];
    }
  }

  /** The frames are the opening, then wake by wake what was brought, then the error of a stream that broke. */
  ghost predicate LaidOut(frames: seq<Frame>, opening: Frame, wakes: seq<Wake>, served: seq<seq<Frame>>,
                          executionId: string, status: Status)
  {
    && ServesWakes(wakes, served, executionId)
    && frames == [opening] + Brought(wakes, served, executionId) + Closing(status)
  }

  lemma LaidFirst(opening: Frame, wakes: seq<Wake>, executionId: string)
    ensures LaidOut([opening], opening, wakes, [], executionId, Open)
  {
    assert [opening] + [] + [] == [opening];
  }

  /** One more wake handled, with the events sent for it. */
  lemma LaidNext(frames0: seq<Frame>, opening: Frame, wakes: seq<Wake>, served: seq<seq<Frame>>, executionId: string,
                 events: seq<Frame>, frames: seq<Frame>, status: Status)
    requires LaidOut(frames0, opening, wakes, served, executionId, Open) && |served| < |wakes|
    requires Served(frames0 + CopyFrame(wakes[|served|], executionId), frames, events, status)
    requires WakesFor(wakes[|served|], executionId) || events == []
    ensures LaidOut(frames, opening, wakes, served + [events], executionId, status)
  {
    hide OnlyEvents, CopyFrame, Brought;
    BroughtSnoc(wakes, served, executionId, events);
    var brought, copy := Brought(wakes, served, executionId), CopyFrame(wakes[|served|], executionId);
    assert [opening] + brought + [] + copy + events == [opening] + (brought + copy + events);
  }

  lemma NothingSent(frames: seq<Frame>, wake: Wake, executionId: string)
    requires !WakesFor(wake, executionId)
    ensures Served(frames + CopyFrame(wake, executionId), frames, [], Open)
  {
    assert frames + [] + [] + [] == frames;
  }

  lemma LaidDropped(frames: seq<Frame>, opening: Frame, wakes: seq<Wake>, served: seq<seq<Frame>>, executionId: string)
    requires LaidOut(frames, opening, wakes, served, executionId, Open)
    ensures LaidOut(frames, opening, wakes, served, executionId, Dropped)
  {
  }

  /**
   * A stream laid out wake by wake delivers the copies of the wakes it handled for its
   * execution, each once and in order, and an error exactly as the last frame of a
   * stream that broke.
   */
  lemma CopiesDelivered(frames: seq<Frame>, opening: Frame, wakes: seq<Wake>, served: seq<seq<Frame>>,
                        executionId: string, status: Status)
    requires LaidOut(frames, opening, wakes, served, executionId, status) && opening.Position?
    ensures CopiesOf(frames) == CopiesFor(wakes[..|served|], executionId)
    ensures forall i :: 0 <= i < |frames| ==> (frames[i].ProtocolError? <==> i == |frames| - 1 && status == Broken)
  {
    BroughtHolds(wakes, served, executionId);
    hide Brought, CopiesFor, CopiesOf;
    var brought := Brought(wakes, served, executionId);
    CopiesAppend([opening], brought);
    CopiesAppend([opening] + brought, Closing(status));
    NoCopy(opening);
    NoCopy(ProtocolError);
    assert CopiesOf([opening] + brought + Closing(status)) == [] + CopiesOf(brought) + [];
    ErrorIsLast(opening, brought, status);
  }

  lemma ErrorIsLast(opening: Frame, brought: seq<Frame>, status: Status)
    requires opening.Position? && forall f :: f in brought ==> f.EventFrame? || f.EphemeralFrame?
    ensures var frames := [opening] + brought + Closing(status);
            forall i :: 0 <= i < |frames| ==> (frames[i].ProtocolError? <==> i == |frames| - 1 && status == Broken)
  {
    var frames := [opening] + brought + Closing(status);
    forall i | 0 <= i < |frames| ensures frames[i].ProtocolError? <==> i == |frames| - 1 && status == Broken {
      if 1 <= i <= |brought| {
        assert frames[i] == brought[i - 1] && brought[i - 1] in brought;
      }
    }
  }

  /** A wake for this execution: the copy it carries is sent on, and the stream catches up. */
  method ServeWake(executionId: string, ephemeral: Option<Ephemeral>, logs: nat -> Option<seq<Row>>,
                   ghost base: seq<Row>, ghost final: seq<Row>, keep: Row -> bool, ghost start: int,
                   frames0: seq<Frame>, ghost n0: nat, last0: int, k0: nat)
    returns (frames: seq<Frame>, last: int, status: Status, k: nat, ghost n: nat, ghost events: seq<Frame>)
    requires Following(logs, base, final, keep, start, k0, n0, last0, EventsOf(frames0))
    ensures Served(frames0 + if ephemeral.Some? then [EphemeralFrame(ephemeral.value)] else [], frames, events, status)
    ensures k > k0 && status != Dropped
    ensures status != Ended ==> Following(logs, base, final, keep, start, k, n, last, EventsOf(frames))
    ensures status == Open ==> logs(k - 1).Some? && n == |Oldest(logs(k - 1).value, keep, start)|
    ensures status == Ended ==>
              EventsOf(frames) == UpToTerminal(Decoded(Oldest(final, keep, start))) && !NoTerminal(EventsOf(frames))
  {
    hide EventsOf, Following, NoTerminal, Decoded, Oldest, UpToTerminal, Served;
    frames := frames0;
    if ephemeral.Some? {
      EventsSnoc(frames, EphemeralFrame(ephemeral.value));
      frames := frames + [EphemeralFrame(ephemeral.value)];
    } else {
      assert frames0 + [] == frames0;
    }
    frames, last, status, k, n, events := CatchUp(logs, base, final, keep, start, frames, n0, last0, k0);
  }

  /**
   * The event stream of an execution, opened on `base` and woken by `wakes`: `served` is
   * what each handled wake brought besides its own copy.
   */
  method StreamEvents(executionId: string, base: seq<Row>, logs: nat -> Option<seq<Row>>, ghost final: seq<Row>,
      wakes: seq<Wake>)
    returns (frames: seq<Frame>, status: Status, k: nat, ghost n: nat, ghost last: int, ghost served: seq<seq<Frame>>)
    requires Snapshots(logs, base, final)
    ensures var keep, position := OfExecution(executionId), MaxId(base, OfExecution(executionId));
            && LaidOut(frames, Position(position, HistoryBefore(position)), wakes, served, executionId, status)
            && Handled(wakes, executionId, |served|, status)
            && (status != Ended ==> Following(logs, base, final, keep, StartOf(position), k, n, last, EventsOf(frames)))
            && (status == Ended ==> EventsOf(frames) == UpToTerminal(Decoded(Oldest(final, keep, StartOf(position))))
                                    && !NoTerminal(EventsOf(frames)))
            && (status == Open && k > 0 ==>
                  logs(k - 1).Some? && n == |Oldest(logs(k - 1).value, keep, StartOf(position))|)
    ensures |served| <= |wakes| && CopiesOf(frames) == CopiesFor(wakes[..|served|], executionId)
    ensures forall i :: 0 <= i < |frames| ==> (frames[i].ProtocolError? <==> i == |frames| - 1 && status == Broken)
    ensures status == Open && wakes != [] && WakesFor(wakes[|wakes| - 1], executionId) ==> k > 0
    ensures status == Ended ==> exists r :: r in final && EndsStream(r, executionId)
  {
    hide EventsOf, Snapshots, Following, NoTerminal, Decoded, Oldest, UpToTerminal, MaxId, LaidOut, CopiesOf, CopiesFor,
      Served;
    var keep := OfExecution(executionId);
    var position := MaxId(base, keep);
    var lastSent := StartOf(position);
    ghost var start := StartOf(position);
    StartHolds(logs, base, final, keep, start);
    var opening := Position(position, HistoryBefore(position));
    FirstFrame(opening);
    LaidFirst(opening, wakes, executionId);
    frames, status, k, n, served := [opening], Open, 0, 0, [];
    for i := 0 to |wakes|
      invariant |served| == i && status == Open
      invariant LaidOut(frames, opening, wakes, served, executionId, Open)
      invariant forall j :: 0 <= j < i ==> !Drops(wakes[j])
      invariant Following(logs, base, final, keep, start, k, n, lastSent, EventsOf(frames))
      invariant k > 0 ==> logs(k - 1).Some? && n == |Oldest(logs(k - 1).value, keep, start)|
      invariant i > 0 && WakesFor(wakes[i - 1], executionId) ==> k > 0
    {
      last := lastSent;
      var ephemeral: Option<Ephemeral> := None;
      match wakes[i] {
        case Notified(source, copy) =>
          if source != executionId {
            NothingSent(frames, wakes[i], executionId);
            LaidNext(frames, opening, wakes, served, executionId, [], frames, Open);
            served := served + [[]];
            continue;
          }
          ephemeral := copy;
        case Lagged =>
          status := Dropped;
        case ChannelClosed =>
          status := Dropped;
        case Tick =>
      }
      if status == Dropped {
        LaidDropped(frames, opening, wakes, served, executionId);
        CopiesDelivered(frames, opening, wakes, served, executionId, Dropped);
        return;
      }
      ghost var before, events := frames, [];
      frames, lastSent, status, k, n, events :=
        ServeWake(executionId, ephemeral, logs, base, final, keep, start, frames, n, lastSent, k);
      last := lastSent;
      LaidNext(before, opening, wakes, served, executionId, events, frames, status);
      served := served + [events];
      if status != Open {
        if status == Ended {
          EndedByStateChange(logs, base, final, executionId, start);
        }
        CopiesDelivered(frames, opening, wakes, served, executionId, status);
        return;
      }
    }
    last := lastSent;
    CopiesDelivered(frames, opening, wakes, served, executionId, status);
  }

  /** Only a state change of the execution itself can end its stream. */
  predicate EndsStream(row: Row, executionId: string) {
    row.executionId == executionId && row.sessionId.None? && row.kind == StateChange
  }

  lemma EndedByStateChange(logs: nat -> Option<seq<Row>>, base: seq<Row>, final: seq<Row>, executionId: string,
      start: int)
    requires Snapshots(logs, base, final)
    requires !NoTerminal(UpToTerminal(Decoded(Oldest(final, OfExecution(executionId), start))))
    ensures exists r :: r in final && EndsStream(r, executionId)
  {
    var keep := OfExecution(executionId);
    var rows := Decoded(Oldest(final, keep, start));
    OldestRows(final, keep, start);
    DecodedFrom(Oldest(final, keep, start));
    if forall r :: r in rows ==> r.sessionId.Some? || r.kind != StateChange {
      SessionsEndNothing(rows);
      assert false;
    }
    var r :| r in rows && r.sessionId.None? && r.kind == StateChange;
    assert EndsStream(r, executionId);
  }

  lemma FirstFrame(f: Frame)
    requires !f.EventFrame?
    ensures EventsOf([f]) == []
  {
    EventsSnoc([], f);
    assert [] + [f] == [f];
  }

  // ---- History and stream together ----

  /** Above the position, a later log holds exactly the rows appended since. */
  lemma {:induction false} KeptSplits(base: seq<Row>, later: seq<Row>, keep: Row -> bool, start: int)
    requires base <= later && IdsAscend(later)
    requires forall r :: r in base && keep(r) ==> r.id <= start
    requires start == 0 || exists r :: r in base && r.id == start
    requires forall r :: r in later ==> r.id > 0
    ensures Kept(later, keep) == Kept(base, keep) + Oldest(later, keep, start)
    decreases |later|
  {
    if |later| > |base| {
      var init, last := later[..|later| - 1], later[|later| - 1];
      KeptSplits(base, init, keep, start);
      if start != 0 {
        var r :| r in base && r.id == start;
        AppendedAbove(base, later, r);
      }
      assert last.id > start;
    } else {
      assert base == later;
      OldestNone(base, keep, start);
    }
  }

  lemma PositionIsMax(base: seq<Row>, later: seq<Row>, keep: Row -> bool)
    requires base <= later && IdsAscend(later) && IdsPositive(later)
    ensures var start := StartOf(MaxId(base, keep));
            Kept(later, keep) == Kept(base, keep) + Oldest(later, keep, start)
    ensures MaxId(base, keep).None? ==> Kept(base, keep) == []
    ensures MaxId(base, keep).Some? ==> 0 < MaxId(base, keep).value <= I64_MAX
  {
    MaxIdBounds(base, keep);
    hide MaxId, Kept, Oldest;
    assert forall r :: r in base ==> r in later;
    KeptSplits(base, later, keep, StartOf(MaxId(base, keep)));
    if MaxId(base, keep).None? {
      KeptNone(base, keep);
    }
  }

  lemma {:induction false} KeptNone(log: seq<Row>, keep: Row -> bool)
    requires forall r :: r in log ==> !keep(r)
    ensures Kept(log, keep) == []
  {
    if log != [] {
      KeptNone(log[..|log| - 1], keep);
    }
  }

  /** Below `history_before`, any later log still holds exactly the rows the stream does not send. */
  lemma HistoryIsBase(base: seq<Row>, later: seq<Row>, keep: Row -> bool)
    requires base <= later && IdsAscend(later) && IdsPositive(later) && MaxId(base, keep).Some?
    ensures Reversed(Newest(later, keep, HistoryBefore(MaxId(base, keep)))) == Kept(base, keep)
  {
    var position := MaxId(base, keep).value;
    MaxIdBounds(base, keep);
    var top :| top in base && keep(top) && top.id == position;
    AppendedAbove(base, later, top);
    hide MaxId;
    var bound := HistoryBefore(Some(position));
    if bound.Some? {
      NewestStable(base, later, keep, bound.value);
      NewestUnbounded(base, keep, bound);
    } else {
      assert forall k :: |base| <= k < |later| ==> later[k] in later;
      assert later == base;
    }
    NewestReversed(base, keep);
  }

  /**
   * History followed by what was streamed is every decodable event of the execution
   * once, in order: up to the first terminal event after the history when the stream
   * ended, and all of the last snapshot read while it is open.
   */
  ghost predicate OnceInOrder(logs: nat -> Option<seq<Row>>, final: seq<Row>, keep: Row -> bool, status: Status, k: nat,
                              history: seq<Row>, streamed: seq<Row>)
  {
    && (status != Ended ==> history + streamed <= Decoded(Kept(final, keep)) && NoTerminal(streamed))
    && (status == Open && k > 0 ==> logs(k - 1).Some? && history + streamed == Decoded(Kept(logs(k - 1).value, keep)))
    && (status == Ended ==> EndedOnce(Decoded(Kept(final, keep)), history, streamed))
  }

  ghost predicate EndedOnce(all: seq<Row>, history: seq<Row>, streamed: seq<Row>) {
    history <= all && streamed == UpToTerminal(all[|history|..]) && !NoTerminal(streamed)
  }

  /** The stream has read some snapshot whole, or the execution's end. */
  predicate CaughtUp(status: Status, k: nat) {
    status == Ended || (status == Open && k > 0)
  }

  lemma DecodedPrefix(a: seq<Row>, b: seq<Row>)
    requires a <= b
    ensures Decoded(a) <= Decoded(b)
  {
    assert b == a + b[|a|..];
    DecodedAppend(a, b[|a|..]);
  }

  lemma SeenOpen(base: seq<Row>, logs: nat -> Option<seq<Row>>, final: seq<Row>, keep: Row -> bool,
                 status: Status, k: nat, n: nat, last: int, streamed: seq<Row>)
    requires var start := StartOf(MaxId(base, keep));
             && Following(logs, base, final, keep, start, k, n, last, streamed)
             && (status == Open && k > 0 ==> logs(k - 1).Some? && n == |Oldest(logs(k - 1).value, keep, start)|)
    requires status != Ended
    ensures OnceInOrder(logs, final, keep, status, k, Decoded(Kept(base, keep)), streamed)
  {
    hide IsTerminalEvent, NoTerminal, Decoded, Oldest, Kept, MaxId, IdsAscend, IdsPositive, Scanned;
    var start, history := StartOf(MaxId(base, keep)), Decoded(Kept(base, keep));
    var all := Oldest(final, keep, start);
    PositionIsMax(base, final, keep);
    DecodedAppend(Kept(base, keep), all);
    DecodedPrefix(all[..n], all);
    if status == Open && k > 0 {
      var log := logs(k - 1).value;
      SnapshotAt(logs, base, final, k - 1);
      SnapshotPositive(log, final);
      PositionIsMax(base, log, keep);
      OldestGrows(log, final, keep, start);
      assert all[..n] == Oldest(log, keep, start);
      DecodedAppend(Kept(base, keep), Oldest(log, keep, start));
    }
  }

  lemma SnapshotPositive(log: seq<Row>, final: seq<Row>)
    requires log <= final && IdsPositive(final)
    ensures IdsPositive(log)
  {
    assert forall r :: r in log ==> r in final;
  }

  lemma SeenEnded(base: seq<Row>, logs: nat -> Option<seq<Row>>, final: seq<Row>, keep: Row -> bool, k: nat,
      streamed: seq<Row>)
    requires Snapshots(logs, base, final)
    requires streamed == UpToTerminal(Decoded(Oldest(final, keep, StartOf(MaxId(base, keep))))) && !NoTerminal(streamed)
    ensures OnceInOrder(logs, final, keep, Ended, k, Decoded(Kept(base, keep)), streamed)
  {
    hide IsTerminalEvent, NoTerminal, Decoded, Oldest, Kept, MaxId, IdsAscend, IdsPositive, UpToTerminal;
    var all := Oldest(final, keep, StartOf(MaxId(base, keep)));
    PositionIsMax(base, final, keep);
    DecodedAppend(Kept(base, keep), all);
    var history := Decoded(Kept(base, keep));
    assert Decoded(Kept(final, keep)) == history + Decoded(all);
    assert (history + Decoded(all))[|history|..] == Decoded(all);
  }

  lemma {:induction false} DecodedAscends(rows: seq<Row>)
    requires IdsAscend(rows)
    ensures IdsAscend(Decoded(rows))
  {
    if rows != [] {
      var rest := Decoded(rows[1..]);
      DecodedAscends(rows[1..]);
      DecodedFrom(rows[1..]);
      forall j | 0 <= j < |rest| ensures rows[0].id < rest[j].id {
        assert rest[j] in rows[1..];
      }
    }
  }

  lemma {:induction false} KeptGrows(log: seq<Row>, later: seq<Row>, keep: Row -> bool)
    requires log <= later
    ensures Kept(log, keep) <= Kept(later, keep)
    decreases |later|
  {
    if |later| > |log| {
      KeptGrows(log, later[..|later| - 1], keep);
    } else {
      assert log == later;
    }
  }

  /** A stream that sends everything from the first event on leaves no room for a history. */
  lemma HistoryRepeats(logs: nat -> Option<seq<Row>>, final: seq<Row>, keep: Row -> bool, status: Status, k: nat,
                       history: seq<Row>, streamed: seq<Row>)
    requires IdsAscend(Decoded(Kept(final, keep))) && history != [] && CaughtUp(status, k)
    requires OnceInOrder(logs, final, keep, status, k, [], streamed)
    ensures !OnceInOrder(logs, final, keep, status, k, history, streamed)
  {
    hide Decoded, Kept, NoTerminal, UpToTerminal;
    var all := Decoded(Kept(final, keep));
    assert [] + streamed == streamed && all[0..] == all;
    if status == Ended && history <= all {
      UpToTerminalStarts(all);
      UpToTerminalStarts(all[|history|..]);
    }
  }

  /** What is streamed from the first event on starts with it, and so does any history. */
  lemma FirstEventTwice(logs: nat -> Option<seq<Row>>, final: seq<Row>, keep: Row -> bool, status: Status, k: nat,
                        log: seq<Row>, streamed: seq<Row>)
    requires log <= final && Decoded(Kept(log, keep)) != [] && streamed != []
    requires OnceInOrder(logs, final, keep, status, k, [], streamed)
    ensures exists r :: r in Decoded(Kept(log, keep)) && r in streamed
  {
    KeptGrows(log, final, keep);
    DecodedPrefix(Kept(log, keep), Kept(final, keep));
    hide Decoded, Kept, NoTerminal, UpToTerminal;
    var all := Decoded(Kept(final, keep));
    assert [] + streamed == streamed && all[0..] == all;
    UpToTerminalStarts(all);
    var first := streamed[0];
    if status == Ended {
      assert first == all[0];
    } else {
      assert streamed <= all;
    }
    assert Decoded(Kept(log, keep))[0] == first && first in streamed;
  }

  /** With no position, the events of any log are those above the stream's start. */
  lemma NothingBefore(base: seq<Row>, later: seq<Row>, keep: Row -> bool)
    requires base <= later && IdsAscend(later) && IdsPositive(later) && MaxId(base, keep).None?
    ensures Kept(base, keep) == [] && Decoded(Kept(base, keep)) == []
    ensures IdsAscend(Decoded(Kept(later, keep)))
  {
    PositionIsMax(base, later, keep);
    ReadsOrdered(later, keep, None, 0);
    assert [] + Oldest(later, keep, 0) == Oldest(later, keep, 0);
    DecodedAscends(Kept(later, keep));
  }

  /** Whether the history a client pages through shares nothing with the stream. */
  ghost predicate Seamless(base: seq<Row>, history: seq<Row>, keep: Row -> bool) {
    MaxId(base, keep).Some? || Decoded(Kept(history, keep)) == []
  }

  /** The first history page is read from the handed-off bound, or from the top without one. */
  lemma HistoryServed(base: seq<Row>, history: seq<Row>, keep: Row -> bool)
    requires base <= history && IdsAscend(history) && IdsPositive(history)
    ensures var shown := Decoded(Reversed(Newest(history, keep, HistoryBefore(MaxId(base, keep)))));
            && shown == Decoded(Kept(if MaxId(base, keep).Some? then base else history, keep))
            && (Seamless(base, history, keep) ==> shown == Decoded(Kept(base, keep)))
            && Nameable(HistoryBefore(MaxId(base, keep)))
  {
    PositionIsMax(base, history, keep);
    if MaxId(base, keep).Some? {
      HistoryIsBase(base, history, keep);
    } else {
      NothingBefore(base, history, keep);
      NewestReversed(history, keep);
    }
  }

  /**
   * A client opens the stream, pages through the history from the bound it was handed,
   * or from the top when there is none, and follows the stream. It sees every decodable
   * event once, in order, if and only if the stream had a position, or no event was
   * visible yet when the history was read; otherwise the first event comes twice.
   */
  method Watch(executionId: string, base: seq<Row>, history: nat -> seq<Row>, logs: nat -> Option<seq<Row>>,
               ghost final: seq<Row>, wakes: seq<Wake>, limit: Option<int>)
    returns (pages: seq<seq<Row>>, frames: seq<Frame>, status: Status, k: nat)
    requires Snapshots(logs, base, final) && Readable(history) && base <= history(0) && LimitAccepted(limit)
    ensures var keep := OfExecution(executionId);
            var seen, streamed := Flatten(pages), EventsOf(frames);
            && seen == Decoded(Kept(if MaxId(base, keep).Some? then base else history(0), keep))
            && (Seamless(base, history(0), keep) ==>
                  seen == Decoded(Kept(base, keep)) && OnceInOrder(logs, final, keep, status, k, seen, streamed))
            && (CaughtUp(status, k) ==>
                  (OnceInOrder(logs, final, keep, status, k, seen, streamed) <==> Seamless(base, history(0), keep)))
            && (!Seamless(base, history(0), keep) && history(0) <= final && streamed != [] ==>
                  exists r :: r in seen && r in streamed)
  {
    hide Following, NoTerminal, Decoded, Oldest, UpToTerminal, MaxId, Kept, EventsOf, OnceInOrder, Newest, Reversed,
      OfExecution, IdsAscend, IdsPositive, HistoryBefore, Seamless, Flatten;
    var keep := OfExecution(executionId);
    ghost var n, last, served;
    frames, status, k, n, last, served := StreamEvents(executionId, base, logs, final, wakes);
    if status == Ended {
      SeenEnded(base, logs, final, keep, k, EventsOf(frames));
    } else {
      SeenOpen(base, logs, final, keep, status, k, n, last, EventsOf(frames));
    }
    LogAt(history, 0, 0);
    HistoryServed(base, history(0), keep);
    pages := WalkOlder(history, keep, frames[0].historyBefore, limit);
    Together(base, history(0), logs, final, keep, status, k, Flatten(pages), EventsOf(frames));
  }

  lemma Together(base: seq<Row>, history: seq<Row>, logs: nat -> Option<seq<Row>>, final: seq<Row>, keep: Row -> bool,
                 status: Status, k: nat, seen: seq<Row>, streamed: seq<Row>)
    requires IdsAscend(final) && IdsPositive(final) && base <= final
    requires seen == Decoded(Kept(if MaxId(base, keep).Some? then base else history, keep))
    requires OnceInOrder(logs, final, keep, status, k, Decoded(Kept(base, keep)), streamed)
    ensures Seamless(base, history, keep) ==>
              seen == Decoded(Kept(base, keep)) && OnceInOrder(logs, final, keep, status, k, seen, streamed)
    ensures CaughtUp(status, k) ==>
              (OnceInOrder(logs, final, keep, status, k, seen, streamed) <==> Seamless(base, history, keep))
    ensures !Seamless(base, history, keep) && history <= final && streamed != [] ==>
              exists r :: r in seen && r in streamed
  {
    hide Decoded, Kept, MaxId, IdsAscend, IdsPositive, OnceInOrder, CaughtUp;
    if MaxId(base, keep).None? {
      NothingBefore(base, final, keep);
      if seen != [] {
        if CaughtUp(status, k) {
          HistoryRepeats(logs, final, keep, status, k, seen, streamed);
        }
        if history <= final && streamed != [] {
          FirstEventTwice(logs, final, keep, status, k, history, streamed);
        }
      }
    }
  }

  lemma SingleRow(row: Row, keep: Row -> bool)
    requires keep(row) && row.id > 0 && row.payload.Some?
    ensures Newest([row], keep, None) == [row] && Oldest([row], keep, 0) == [row]
    ensures Kept([row], keep) == [row] && Decoded([row]) == [row] && Reversed([row]) == [row]
  {
    assert [row][..0] == [] && [row][1..] == [];
    assert Newest([], keep, None) == [] && Oldest([], keep, 0) == [] && Kept([], keep) == [];
    assert [] + [row] == [row] + [] == [row];
  }

  /** One event, stored after the stream opened on an empty log and before the history is read: both carry it. */
  lemma EmptyStartRepeats()
    ensures var row := Row(1, "e", None, Message, Some("{}"), None, false);
            var keep := OfExecution("e");
            && HistoryBefore(MaxId([], keep)) == None
            && Reversed(Newest([row], keep, HistoryBefore(MaxId([], keep)))) == [row]
            && Oldest([row], keep, StartOf(MaxId([], keep))) == [row]
            && !Seamless([], [row], keep)
  {
    SingleRow(Row(1, "e", None, Message, Some("{}"), None, false), OfExecution("e"));
    hide Newest, Oldest, Kept, Decoded, Reversed;
  }
}
