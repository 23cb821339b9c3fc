/**
 * Pending decisions and the resolved-history walk: escalations of active executions
 * without a resolution are pending, every other one is history, read newest first in
 * bounded pages.
 */
module Decisions {
  import opened Prelude
  import opened Json
  import opened JsonParser
  import opened Markers
  import opened Payloads
  import opened EventLog
  import opened Cursors

  const DECISIONS_RESOLVED_DEFAULT_PAGE: nat := 50
  const DECISIONS_RESOLVED_MAX_PAGE: nat := 200
  const SCAN_CHUNK: nat := 500
  const SCAN_CHUNK_BUDGET: nat := 4

  /** A session-bound escalation event. */
  datatype Decision = Decision(id: int, executionId: string, sessionId: string, data: Escalation)

  /** The escalation a resolution points at, within one session of one execution. */
  datatype MarkerTarget = MarkerTarget(escalationEventId: int, executionId: string, sessionId: string)

  datatype PendingScan = PendingScan(escalations: seq<Decision>, resolved: set<MarkerTarget>)

  function DecisionOf(row: Row): Option<Decision> {
    if row.sessionId.None? || row.payload.None? then None
    else
      var data := EscalationData(row.payload.value);
      if data.None? then None else Some(Decision(row.id, row.executionId, row.sessionId.value, data.value))
  }

  // ---- Pending decisions ----

  /** A decodable platform event of an active execution, in a session of that execution. */
  predicate InWindow(row: Row, sessions: Sessions, active: set<string>) {
    row.kind == Platform && row.executionId in active && row.payload.Some? && Coherent(row, sessions)
  }

  function TargetsIn(cands: seq<Candidate>, executionId: string, sessionId: string): set<MarkerTarget> {
    set c | c in cands && c.escalationEventId.Some? :: MarkerTarget(c.escalationEventId.value, executionId, sessionId)
  }

  /** The escalations a row's resolutions name; an escalation resolves nothing. */
  function TargetsOf(row: Row): set<MarkerTarget> {
    if row.sessionId.None? || row.payload.None? || DecisionOf(row).Some? then {}
    else
      var parts := ParseParts(row.payload.value);
      if parts.None? then {} else TargetsIn(Candidates(parts.value, row.id), row.executionId, row.sessionId.value)
  }

  ghost predicate Resolved(log: seq<Row>, sessions: Sessions, active: set<string>, d: Decision) {
    exists row :: row in log && InWindow(row, sessions, active) &&
        MarkerTarget(d.id, d.executionId, d.sessionId) in TargetsOf(row)
  }

  /** The ids of the escalations in the window that no row of the window resolves. */
  ghost function Pending(log: seq<Row>, sessions: Sessions, active: set<string>): set<int> {
    set row | row in log && InWindow(row, sessions, active) && DecisionOf(row).Some?
              && !Resolved(log, sessions, active, DecisionOf(row).value) :: row.id
  }

  function PendingIds(scan: PendingScan): set<int> {
    set d | d in scan.escalations && MarkerTarget(d.id, d.executionId, d.sessionId) !in scan.resolved :: d.id
  }

  /** What one row adds to the scan. */
  function ScanRow(scan: PendingScan, row: Row, sessions: Sessions, active: set<string>): PendingScan {
    if !InWindow(row, sessions, active) then scan
    else if DecisionOf(row).Some? then scan.(escalations := scan.escalations + [DecisionOf(row).value])
    else scan.(resolved := scan.resolved + TargetsOf(row))
  }

  function ScanRows(rows: seq<Row>, sessions: Sessions, active: set<string>): PendingScan {
    if rows == [] then PendingScan([], {})
    else ScanRow(ScanRows(rows[..|rows| - 1], sessions, active), rows[|rows| - 1], sessions, active)
  }

  lemma {:induction false} ScanRowsExact(rows: seq<Row>, sessions: Sessions, active: set<string>)
    ensures var scan := ScanRows(rows, sessions, active);
            && (forall d :: d in scan.escalations <==>
                  exists row :: row in rows && InWindow(row, sessions, active) && DecisionOf(row) == Some(d))
            && (forall t :: t in scan.resolved <==>
                  exists row :: row in rows && InWindow(row, sessions, active) && t in TargetsOf(row))
  {
    hide InWindow, DecisionOf;
    if rows != [] {
      var init, last := rows[..|rows| - 1], rows[|rows| - 1];
      ScanRowsExact(init, sessions, active);
      assert rows == init + [last];
      assert DecisionOf(last).Some? ==> TargetsOf(last) == {};
      hide TargetsOf;
      var prior, scan := ScanRows(init, sessions, active), ScanRows(rows, sessions, active);
      assert forall row :: row in rows <==> row in init || row == last;
      forall d ensures d in scan.escalations <==>
          exists row :: row in rows && InWindow(row, sessions, active) && DecisionOf(row) == Some(d)
      {
      }
    }
  }

  lemma PendingForward(log: seq<Row>, sessions: Sessions, active: set<string>, id: int)
    requires id in PendingIds(ScanRows(log, sessions, active))
    ensures id in Pending(log, sessions, active)
  {
    ScanRowsExact(log, sessions, active);
    hide InWindow, TargetsOf, ScanRows, DecisionOf;
    var scan := ScanRows(log, sessions, active);
    var d :| d in scan.escalations && MarkerTarget(d.id, d.executionId, d.sessionId) !in scan.resolved && d.id == id;
    var row :| row in log && InWindow(row, sessions, active) && DecisionOf(row) == Some(d);
    DecisionOfRow(row);
    assert !Resolved(log, sessions, active, d);
  }

  lemma PendingBackward(log: seq<Row>, sessions: Sessions, active: set<string>, id: int)
    requires id in Pending(log, sessions, active)
    ensures id in PendingIds(ScanRows(log, sessions, active))
  {
    ScanRowsExact(log, sessions, active);
    hide InWindow, TargetsOf, ScanRows, DecisionOf;
    var scan := ScanRows(log, sessions, active);
    var row :| row in log && InWindow(row, sessions, active) && DecisionOf(row).Some?
      && !Resolved(log, sessions, active, DecisionOf(row).value) && row.id == id;
    var d := DecisionOf(row).value;
    DecisionOfRow(row);
    assert d in scan.escalations && MarkerTarget(d.id, d.executionId, d.sessionId) !in scan.resolved;
  }

  /** The scan leaves pending exactly the escalations of the window that nothing in it resolves. */
  lemma ScanPendingExact(log: seq<Row>, sessions: Sessions, active: set<string>)
    ensures PendingIds(ScanRows(log, sessions, active)) == Pending(log, sessions, active)
  {
    var listed, pending := PendingIds(ScanRows(log, sessions, active)), Pending(log, sessions, active);
    hide PendingIds, Pending, ScanRows;
    forall id | id in listed ensures id in pending {
      PendingForward(log, sessions, active, id);
    }
    forall id | id in pending ensures id in listed {
      PendingBackward(log, sessions, active, id);
    }
  }

  lemma DecisionOfRow(row: Row)
    ensures DecisionOf(row).Some? ==>
            DecisionOf(row).value.id == row.id && row.sessionId == Some(DecisionOf(row).value.sessionId)
  {
  }

  lemma TargetsSnoc(cands: seq<Candidate>, cand: Candidate, executionId: string, sessionId: string)
    ensures TargetsIn(cands + [cand], executionId, sessionId)
         == TargetsIn(cands, executionId, sessionId)
            + if cand.escalationEventId.None? then {}
              else {MarkerTarget(cand.escalationEventId.value, executionId, sessionId)}
  {
    var more := cands + [cand];
    assert forall c :: c in more <==> c in cands || c == cand;
  }

  method InsertTargets(cands: seq<Candidate>, executionId: string, sessionId: string, resolved0: set<MarkerTarget>)
    returns (resolved: set<MarkerTarget>)
    ensures resolved == resolved0 + TargetsIn(cands, executionId, sessionId)
  {
    resolved := resolved0;
    assert TargetsIn([], executionId, sessionId) == {};
    for k := 0 to |cands|
      invariant resolved == resolved0 + TargetsIn(cands[..k], executionId, sessionId)
    {
      TargetsSnoc(cands[..k], cands[k], executionId, sessionId);
      assert cands[..k + 1] == cands[..k] + [cands[k]];
      hide TargetsIn;
      if cands[k].escalationEventId.Some? {
        resolved := resolved + {MarkerTarget(cands[k].escalationEventId.value, executionId, sessionId)};
      }
    }
    assert cands[..|cands|] == cands;
  }

  method CollectTargets(row: Row, resolved0: set<MarkerTarget>) returns (resolved: set<MarkerTarget>)
    requires row.sessionId.Some? && row.payload.Some? && DecisionOf(row).None?
    ensures resolved == resolved0 + TargetsOf(row)
  {
    hide ParseParts, Candidates, DecisionOf, TargetsIn;
    var parts := ParseParts(row.payload.value);
    if parts.None? {
      return resolved0;
    }
    var cands := ResolutionCandidates(parts.value, row.id);
    resolved := InsertTargets(cands, row.executionId, row.sessionId.value, resolved0);
  }

  /** The scan behind one pending-decisions response. */
  method ScanPending(log: seq<Row>, sessions: Sessions, active: set<string>) returns (scan: PendingScan)
    ensures scan == ScanRows(log, sessions, active)
    ensures PendingIds(scan) == Pending(log, sessions, active)
  {
    hide DecisionOf, TargetsOf, Coherent;
    var escalations: seq<Decision>, resolved: set<MarkerTarget> := [], {};
    for i := 0 to |log|
      invariant PendingScan(escalations, resolved) == ScanRows(log[..i], sessions, active)
    {
      var row := log[i];
      assert log[..i + 1][..i] == log[..i];
      if row.kind == Platform && row.executionId in active && row.payload.Some? && Coherent(row, sessions) {
        CoherentHasSession(row, sessions);
        var decision := DecisionOf(row);
        if decision.Some? {
          escalations := escalations + [decision.value];
        } else {
          resolved := CollectTargets(row, resolved);
        }
      }
    }
    assert log[..|log|] == log;
    scan := PendingScan(escalations, resolved);
    ScanPendingExact(log, sessions, active);
  }

  lemma CoherentHasSession(row: Row, sessions: Sessions)
    requires Coherent(row, sessions)
    ensures row.sessionId.Some?
  {
  }

  // ---- What a stored resolution settles ----

  lemma OneTarget(c: Candidate, executionId: string, sessionId: string)
    ensures TargetsIn([c], executionId, sessionId)
            == if c.escalationEventId.None? then {}
               else {MarkerTarget(c.escalationEventId.value, executionId, sessionId)}
  {
    assert c in [c];
  }

  /** A stored dismissal names its own escalation, within its session and execution, and nothing else. */
  lemma DismissalTargets(row: Row, batchId: string, escalationId: int)
    requires row.sessionId.Some? && 0 < escalationId <= I64_MAX
    requires row.payload == Some(Serialize(DismissPayload(batchId, escalationId)))
    ensures TargetsOf(row) == {MarkerTarget(escalationId, row.executionId, row.sessionId.value)}
  {
    DismissReadsBack(batchId, escalationId, row.id);
    OneTarget(DismissCandidate(batchId, escalationId, 0, row.id), row.executionId, row.sessionId.value);
    hide EscalationData, ParseParts, Candidates, TargetsIn, DismissPayload;
  }

  /** So does a stored answer marker that carries the escalation's id. */
  lemma MarkerTargets(row: Row, batchId: string, escalationId: int, resolvedId: int, resolvedAt: string,
                      answer: Option<string>, truncated: bool)
    requires row.sessionId.Some? && 0 < escalationId <= I64_MAX && I64_MIN <= resolvedId <= I64_MAX
    requires row.payload
             == Some(Serialize(MarkerPayload(batchId, Some(escalationId), resolvedId, resolvedAt, answer, truncated)))
    ensures TargetsOf(row) == {MarkerTarget(escalationId, row.executionId, row.sessionId.value)}
  {
    MarkerReadsBack(batchId, Some(escalationId), resolvedId, resolvedAt, answer, truncated, row.id);
    OneTarget(MarkerCandidate(batchId, Some(escalationId), resolvedId, resolvedAt, answer, truncated, row.id),
      row.executionId, row.sessionId.value);
    hide EscalationData, ParseParts, Candidates, TargetsIn, MarkerPayload;
  }

  /** A row of the window names this question, within its session and execution. */
  predicate Settles(row: Row, sessions: Sessions, active: set<string>, asked: Row) {
    && InWindow(row, sessions, active) && asked.sessionId.Some?
    && MarkerTarget(asked.id, asked.executionId, asked.sessionId.value) in TargetsOf(row)
  }

  lemma SettledNotPending(log: seq<Row>, sessions: Sessions, active: set<string>, asked: Row, row: Row)
    requires IdsAscend(log) && asked in log && row in log && Settles(row, sessions, active, asked)
    ensures asked.id !in Pending(log, sessions, active)
  {
    hide InWindow, TargetsOf;
    forall r | r in log && r.id == asked.id && DecisionOf(r).Some?
      ensures Resolved(log, sessions, active, DecisionOf(r).value)
    {
      SameIdSameRow(log, r, asked);
    }
  }

  lemma SameIdSameRow(log: seq<Row>, a: Row, b: Row)
    requires IdsAscend(log) && a in log && b in log && a.id == b.id
    ensures a == b
  {
    var i :| 0 <= i < |log| && log[i] == a;
    var j :| 0 <= j < |log| && log[j] == b;
    if i < j {
      assert log[i].id < log[j].id;
    } else if j < i {
      assert log[j].id < log[i].id;
    }
  }

  /** A question stored in a session is pending until a row of its window names it. */
  lemma AskedPending(log: seq<Row>, sessions: Sessions, active: set<string>, asked: Row, batchId: string,
                     importance: Option<string>, questions: seq<Json>)
    requires asked in log && InWindow(asked, sessions, active) && IdsAscend(log)
    requires questions != [] && forall k :: 0 <= k < |questions| ==> WellFormed(questions[k])
    requires asked.payload == Some(Serialize(EscalatePayload(batchId, importance, questions)))
    ensures asked.id in Pending(log, sessions, active) <==>
            !exists row :: row in log && Settles(row, sessions, active, asked)
  {
    EscalateReadsBack(batchId, importance, questions, asked.id);
    CoherentHasSession(asked, sessions);
    hide EscalationData, EscalatePayload, WellFormed, Coherent;
    var data := Escalation(batchId, if importance.Some? then importance.value else "blocking", questions);
    assert DecisionOf(asked) == Some(Decision(asked.id, asked.executionId, asked.sessionId.value, data));
    hide TargetsOf, InWindow, DecisionOf;
    if row :| row in log && Settles(row, sessions, active, asked) {
      SettledNotPending(log, sessions, active, asked, row);
    }
  }

  /** Only questions of active executions, asked in a session of their own execution, are ever pending. */
  lemma OnlyActivePending(log: seq<Row>, sessions: Sessions, active: set<string>, id: int)
    requires id in Pending(log, sessions, active)
    ensures exists row :: && row in log && row.id == id && row.kind == Platform && row.executionId in active
                          && row.sessionId.Some? && (row.sessionId.value, row.executionId) in sessions
                          && row.payload.Some? && EscalationData(row.payload.value).Some?
  {
    hide EscalationData, Resolved;
  }

  /** A dismissal stored in the question's session and execution takes it off the pending list. */
  lemma DismissedNotPending(log: seq<Row>, sessions: Sessions, active: set<string>, asked: Row, row: Row,
      batchId: string)
    requires IdsAscend(log) && asked in log && row in log && 0 < asked.id <= I64_MAX
    requires InWindow(row, sessions, active)
    requires row.executionId == asked.executionId && row.sessionId == asked.sessionId
    requires row.payload == Some(Serialize(DismissPayload(batchId, asked.id)))
    ensures asked.id !in Pending(log, sessions, active)
  {
    CoherentHasSession(row, sessions);
    DismissalTargets(row, batchId, asked.id);
    hide TargetsOf, Pending, Coherent, IdsAscend, DismissPayload;
    SettledNotPending(log, sessions, active, asked, row);
  }

  /** So does an answer marker that carries its id. */
  lemma AnsweredNotPending(log: seq<Row>, sessions: Sessions, active: set<string>, asked: Row, row: Row,
      batchId: string, resolvedId: int, resolvedAt: string, answer: Option<string>, truncated: bool)
    requires IdsAscend(log) && asked in log && row in log && 0 < asked.id <= I64_MAX
    requires InWindow(row, sessions, active) && I64_MIN <= resolvedId <= I64_MAX
    requires row.executionId == asked.executionId && row.sessionId == asked.sessionId
    requires row.payload
             == Some(Serialize(MarkerPayload(batchId, Some(asked.id), resolvedId, resolvedAt, answer, truncated)))
    ensures asked.id !in Pending(log, sessions, active)
  {
    CoherentHasSession(row, sessions);
    MarkerTargets(row, batchId, asked.id, resolvedId, resolvedAt, answer, truncated);
    hide TargetsOf, Pending, Coherent, IdsAscend, MarkerPayload;
    SettledNotPending(log, sessions, active, asked, row);
  }

  // ---- Resolved history ----

  predicate InPlatformLane(row: Row) {
    row.kind == Platform
  }

  /** The platform rows below a cursor, newest first. */
  function Lane(log: seq<Row>, before: Option<int>): seq<Row> {
    Newest(log, InPlatformLane, before)
  }

  function HitOf(row: Row, hidden: set<int>): seq<Decision> {
    if DecisionOf(row).None? || row.id in hidden then [] else [DecisionOf(row).value]
  }

  /** The decisions among some rows that are not hidden, in row order. */
  function Hits(rows: seq<Row>, hidden: set<int>): seq<Decision> {
    if rows == [] then [] else HitOf(rows[0], hidden) + Hits(rows[1..], hidden)
  }

  lemma HitIs(row: Row, hidden: set<int>)
    ensures |HitOf(row, hidden)| <= 1
    ensures HitOf(row, hidden) != [] ==> HitOf(row, hidden)[0].id == row.id
  {
    DecisionOfRow(row);
  }

  lemma {:induction false} HitsAppend(a: seq<Row>, b: seq<Row>, hidden: set<int>)
    ensures Hits(a + b, hidden) == Hits(a, hidden) + Hits(b, hidden)
  {
    hide HitOf;
    if a == [] {
      assert a + b == b;
    } else {
      assert (a + b)[1..] == a[1..] + b;
      HitsAppend(a[1..], b, hidden);
    }
  }

  lemma HitsNext(rows: seq<Row>, n: nat, hidden: set<int>)
    requires n < |rows|
    ensures Hits(rows[..n + 1], hidden) == Hits(rows[..n], hidden) + HitOf(rows[n], hidden)
  {
    hide HitOf;
    assert rows[..n + 1] == rows[..n] + [rows[n]];
    HitsAppend(rows[..n], [rows[n]], hidden);
    assert [rows[n]][1..] == [];
    assert Hits([rows[n]], hidden) == HitOf(rows[n], hidden) + [];
  }

  lemma {:induction false} HitsGrow(rows: seq<Row>, m: nat, n: nat, hidden: set<int>)
    requires m <= n <= |rows|
    ensures |Hits(rows[..m], hidden)| <= |Hits(rows[..n], hidden)|
  {
    assert rows[..n] == rows[..m] + rows[m..n];
    HitsAppend(rows[..m], rows[m..n], hidden);
  }

  /** The decisions of a list that are not pending. */
  function Retain(found: seq<Decision>, pending: set<int>): seq<Decision> {
    if found == [] then []
    else if found[0].id in pending then Retain(found[1..], pending)
    else [found[0]] + Retain(found[1..], pending)
  }

  lemma {:induction false} RetainHits(rows: seq<Row>, hidden: set<int>, pending: set<int>)
    ensures Retain(Hits(rows, hidden), pending) == Hits(rows, hidden + pending)
  {
    if rows != [] {
      RetainHits(rows[1..], hidden, pending);
      hide DecisionOf;
      var d := DecisionOf(rows[0]);
      DecisionOfRow(rows[0]);
      if HitOf(rows[0], hidden) == [] {
        assert Hits(rows, hidden) == Hits(rows[1..], hidden);
      } else {
        assert Hits(rows, hidden)[0] == d.value && Hits(rows, hidden)[1..] == Hits(rows[1..], hidden);
      }
    }
  }

  /**
   * Where a page stops: after the row that fills it, after the whole chunk budget, or
   * at the end of the lane, whichever comes first.
   */
  predicate StopsAt(rows: seq<Row>, limit: nat, hidden: set<int>, n: nat) {
    && n <= |rows| && n <= SCAN_CHUNK * SCAN_CHUNK_BUDGET
    && |Hits(rows[..n], hidden)| <= limit
    && (n > 0 ==> |Hits(rows[..n - 1], hidden)| < limit)
    && (n < |rows| && n < SCAN_CHUNK * SCAN_CHUNK_BUDGET ==> |Hits(rows[..n], hidden)| == limit)
  }

  /** A page stops at one place. */
  lemma StopsAtUnique(rows: seq<Row>, limit: nat, hidden: set<int>, m: nat, n: nat)
    requires StopsAt(rows, limit, hidden, m) && StopsAt(rows, limit, hidden, n)
    ensures m == n
  {
    hide Hits;
    if m < n {
      HitsGrow(rows, m, n - 1, hidden);
    } else if n < m {
      HitsGrow(rows, n, m - 1, hidden);
    }
  }

  /** A page that is not full and not last has read the whole chunk budget or lost rows to the recheck. */
  function PageOf(rows: seq<Row>, n: nat, hidden: set<int>): Page<Decision>
    requires n <= |rows|
  {
    var more := 0 < n < |rows|;
    Page(Hits(rows[..n], hidden), if more then Some(Decimal(rows[n - 1].id)) else None, more)
  }

  /** The accepted page size. */
  predicate LimitAccepted(limit: Option<int>) {
    limit.Some? ==> 1 <= limit.value <= DECISIONS_RESOLVED_MAX_PAGE
  }

  function LimitOf(limit: Option<int>): nat
    requires LimitAccepted(limit)
  {
    if limit.Some? then limit.value else DECISIONS_RESOLVED_DEFAULT_PAGE
  }

  /** What reading stands at after `n` rows of the lane. */
  ghost predicate ReadTo(log: seq<Row>, rows: seq<Row>, n: nat, cursor: Option<int>, found: seq<Decision>,
                         hidden: set<int>)
  {
    && n <= |rows|
    && Lane(log, cursor) == rows[n..]
    && (n > 0 ==> cursor == Some(rows[n - 1].id))
    && found == Hits(rows[..n], hidden)
  }

  /** One row further down the lane. */
  lemma ReadOne(log: seq<Row>, before: Option<int>, n: nat, cursor: Option<int>, found: seq<Decision>, hidden: set<int>)
    requires IdsAscend(log) && n < |Lane(log, before)|
    requires ReadTo(log, Lane(log, before), n, cursor, found, hidden)
    ensures var rows := Lane(log, before);
            ReadTo(log, rows, n + 1, Some(rows[n].id), found + HitOf(rows[n], hidden), hidden)
  {
    hide HitOf, Hits, IdsAscend;
    NewestResumes(log, InPlatformLane, before, n);
    HitsNext(Lane(log, before), n, hidden);
  }

  /**
   * One chunk of at most SCAN_CHUNK rows, read until the page is full. `inspected`
   * counts the rows taken.
   */
  method ReadChunk(log: seq<Row>, ghost before: Option<int>, ghost n: nat, cursor0: Option<int>, lowest0: Option<int>,
                   found0: seq<Decision>, limit: nat, hidden: set<int>)
    returns (scanned: nat, inspected: nat, cursor: Option<int>, lowest: Option<int>, found: seq<Decision>)
    requires IdsAscend(log) && limit > 0
    requires ReadTo(log, Lane(log, before), n, cursor0, found0, hidden) && |found0| < limit
    requires lowest0 == if n == 0 then None else cursor0
    ensures inspected <= scanned && scanned == Min(SCAN_CHUNK, |Lane(log, before)| - n)
    ensures ReadTo(log, Lane(log, before), n + inspected, cursor, found, hidden) && |found| <= limit
    ensures lowest == if n + inspected == 0 then None else cursor
    ensures inspected > 0 ==> |Hits(Lane(log, before)[..n + inspected - 1], hidden)| < limit
    ensures |found| < limit ==> inspected == scanned
  {
    hide HitOf, Hits, IdsAscend, Lane;
    ghost var rows := Lane(log, before);
    var below := Lane(log, cursor0);
    var chunk := if |below| <= SCAN_CHUNK then below else below[..SCAN_CHUNK];
    scanned, inspected := |chunk|, 0;
    cursor, lowest, found := cursor0, lowest0, found0;
    while inspected < |chunk|
      invariant inspected <= |chunk|
      invariant ReadTo(log, rows, n + inspected, cursor, found, hidden) && |found| < limit
      invariant lowest == if n + inspected == 0 then None else cursor
      invariant inspected > 0 ==> |Hits(rows[..n + inspected - 1], hidden)| < limit
    {
      var row := chunk[inspected];
      assert row == rows[n + inspected];
      ReadOne(log, before, n + inspected, cursor, found, hidden);
      assert |Hits(rows[..n + inspected], hidden)| < limit;
      inspected := inspected + 1;
      lowest, cursor := Some(row.id), Some(row.id);
      var hit := HitOf(row, hidden);
      HitIs(row, hidden);
      found := found + hit;
      if hit != [] && |found| >= limit {
        return;
      }
    }
  }

  /** Platform rows strictly below an id exist. */
  predicate RowsBelow(log: seq<Row>, id: int) {
    Lane(log, Some(id)) != []
  }

  /** The chunks of one page: what they found, and the lowest row they inspected. */
  method ReadChunks(log: seq<Row>, before: Option<int>, limit: nat, hidden: set<int>)
    returns (found: seq<Decision>, lowest: Option<int>, exhausted: bool, extent: nat)
    requires IdsAscend(log) && limit > 0
    ensures StopsAt(Lane(log, before), limit, hidden, extent)
    ensures found == Hits(Lane(log, before)[..extent], hidden)
    ensures lowest == if extent == 0 then None else Some(Lane(log, before)[extent - 1].id)
    ensures exhausted ==> extent == |Lane(log, before)|
    ensures !exhausted && extent < |Lane(log, before)| ==>
              extent > 0 && Lane(log, lowest) == Lane(log, before)[extent..]
    ensures !exhausted && extent == |Lane(log, before)| ==> lowest.Some? && Lane(log, lowest) == []
  {
    hide IdsAscend, Hits, HitOf, Lane;
    ghost var rows := Lane(log, before);
    var cursor := before;
    extent, found, lowest, exhausted := 0, [], None, false;
    NothingRead(log, before, hidden);
    var chunk := 0;
    while chunk < SCAN_CHUNK_BUDGET
      invariant chunk <= SCAN_CHUNK_BUDGET && extent == chunk * SCAN_CHUNK && extent <= |rows|
      invariant ReadTo(log, rows, extent, cursor, found, hidden) && |found| < limit
      invariant lowest == if extent == 0 then None else cursor
      invariant extent > 0 ==> |Hits(rows[..extent - 1], hidden)| < limit
      invariant !exhausted
    {
      var scanned, inspected;
      scanned, inspected, cursor, lowest, found := ReadChunk(log, before, extent, cursor, lowest, found, limit, hidden);
      if scanned == 0 {
        exhausted := true;
        return;
      }
      extent := extent + inspected;
      chunk := chunk + 1;
      if inspected < scanned {
        return;
      }
      if scanned < SCAN_CHUNK {
        exhausted := true;
        return;
      }
      if |found| >= limit {
        return;
      }
    }
  }

  /**
   * One page of resolved history. `activeThen` and `activeNow` are the executions
   * active when the walk starts and when it rechecks what it found.
   */
  method ResolvedDecisions(log: seq<Row>, sessions: Sessions, activeThen: set<string>, activeNow: set<string>,
                           before: Option<string>, limit: Option<int>)
    returns (r: Result<Page<Decision>, Invalid>, ghost extent: nat)
    requires IdsAscend(log)
    ensures r.Ok? <==> LimitAccepted(limit) && (before.Some? ==> ParseCursor(before.value).Some?)
    ensures !LimitAccepted(limit) ==> r == Err(BadLimit)
    ensures LimitAccepted(limit) && r.Err? ==> r == Err(BadCursor)
    ensures r.Ok? ==>
              var rows := Lane(log, if before.Some? then ParseCursor(before.value) else None);
              && StopsAt(rows, LimitOf(limit), Pending(log, sessions, activeThen), extent)
              && r.value == PageOf(rows, extent, Pending(log, sessions, activeThen) + Pending(log, sessions, activeNow))
  {
    hide IdsAscend, PendingIds, Pending, ScanRows, Hits, Lane, StopsAt, Retain, Decimal, ParseCursor;
    extent := 0;
    if limit.Some? && !(1 <= limit.value <= DECISIONS_RESOLVED_MAX_PAGE) {
      return Err(BadLimit), 0;
    }
    var pageSize := if limit.Some? then limit.value else DECISIONS_RESOLVED_DEFAULT_PAGE;
    var cursor: Option<int> := None;
    if before.Some? {
      cursor := ParseCursor(before.value);
      if cursor.None? {
        return Err(BadCursor), 0;
      }
    }
    var prescan := ScanPending(log, sessions, activeThen);
    var hidden := PendingIds(prescan);
    var found, lowest, exhausted;
    found, lowest, exhausted, extent := ReadChunks(log, cursor, pageSize, hidden);
    ghost var rows := Lane(log, cursor);
    StopsWithin(rows, pageSize, hidden, extent);
    var postscan := ScanPending(log, sessions, activeNow);
    var pending := PendingIds(postscan);
    RetainHits(rows[..extent], hidden, pending);
    var items := Retain(found, pending);
    var hasMore := if lowest.None? || exhausted then false else RowsBelow(log, lowest.value);
    var nextCursor := if hasMore then Some(Decimal(lowest.value)) else None;
    r := Ok(Page(items, nextCursor, hasMore));
  }

  lemma StopsWithin(rows: seq<Row>, limit: nat, hidden: set<int>, n: nat)
    requires StopsAt(rows, limit, hidden, n)
    ensures n <= |rows|
  {
  }

  lemma NothingRead(log: seq<Row>, before: Option<int>, hidden: set<int>)
    ensures ReadTo(log, Lane(log, before), 0, before, [], hidden)
  {
  }

  // ---- Following the cursor ----

  predicate DecisionsDescend(list: seq<Decision>) {
    forall i, j :: 0 <= i < j < |list| ==> list[i].id > list[j].id
  }

  lemma {:induction false} HitsFrom(rows: seq<Row>, hidden: set<int>, d: Decision)
    requires d in Hits(rows, hidden)
    ensures exists row :: row in rows && DecisionOf(row) == Some(d) && row.id !in hidden && row.id == d.id
  {
    hide DecisionOf;
    DecisionOfRow(rows[0]);
    if d in HitOf(rows[0], hidden) {
      assert rows[0] in rows;
    } else {
      HitsFrom(rows[1..], hidden, d);
      var row :| row in rows[1..] && DecisionOf(row) == Some(d) && row.id !in hidden && row.id == d.id;
      assert row in rows;
    }
  }

  lemma {:induction false} HitsHave(rows: seq<Row>, hidden: set<int>, k: nat)
    requires k < |rows| && DecisionOf(rows[k]).Some? && rows[k].id !in hidden
    ensures DecisionOf(rows[k]).value in Hits(rows, hidden)
  {
    hide DecisionOf;
    if k > 0 {
      HitsHave(rows[1..], hidden, k - 1);
    }
  }

  lemma {:induction false} HitsDescend(rows: seq<Row>, hidden: set<int>)
    requires IdsDescend(rows)
    ensures DecisionsDescend(Hits(rows, hidden))
  {
    hide DecisionOf, HitOf;
    if rows != [] {
      var part, rest := HitOf(rows[0], hidden), Hits(rows[1..], hidden);
      HitsDescend(rows[1..], hidden);
      HitIs(rows[0], hidden);
      forall d | d in rest ensures d.id < rows[0].id {
        HitsFrom(rows[1..], hidden, d);
        var row :| row in rows[1..] && DecisionOf(row) == Some(d) && row.id !in hidden && row.id == d.id;
      }
      assert Hits(rows, hidden) == part + rest;
    }
  }

  lemma HitsExact(rows: seq<Row>, hidden: set<int>)
    requires IdsDescend(rows)
    ensures DecisionsDescend(Hits(rows, hidden))
    ensures forall d :: d in Hits(rows, hidden) <==>
              exists row :: row in rows && DecisionOf(row) == Some(d) && row.id !in hidden
  {
    HitsDescend(rows, hidden);
    hide DecisionOf, Hits, DecisionsDescend, IdsDescend;
    forall d | d in Hits(rows, hidden)
      ensures exists row :: row in rows && DecisionOf(row) == Some(d) && row.id !in hidden
    {
      HitsFrom(rows, hidden, d);
    }
    forall k | 0 <= k < |rows| && DecisionOf(rows[k]).Some? && rows[k].id !in hidden
      ensures DecisionOf(rows[k]).value in Hits(rows, hidden)
    {
      HitsHave(rows, hidden, k);
    }
  }

  lemma {:induction false} HitsCongruent(rows: seq<Row>, a: set<int>, b: set<int>)
    requires forall row :: row in rows ==> (row.id in a <==> row.id in b)
    ensures Hits(rows, a) == Hits(rows, b)
  {
    hide DecisionOf;
    if rows != [] {
      HitsCongruent(rows[1..], a, b);
      assert rows[0] in rows;
    }
  }

  /** The ids a page hides among the rows it read. */
  function HiddenAmong(rows: seq<Row>, hidden: set<int>): set<int> {
    set row | row in rows && row.id in hidden :: row.id
  }

  /** Adding a page's hidden ids to those of the rows above it changes neither part. */
  lemma PageJoins(rows: seq<Row>, m: nat, n: nat, unseen: set<int>, hidden: set<int>)
    requires IdsDescend(rows) && m <= n <= |rows|
    requires unseen <= HiddenAmong(rows[..m], unseen)
    ensures var all := unseen + HiddenAmong(rows[m..n], hidden);
            && Hits(rows[..n], all) == Hits(rows[..m], unseen) + Hits(rows[m..n], hidden)
            && all <= HiddenAmong(rows[..n], all)
  {
    hide Hits;
    var all := unseen + HiddenAmong(rows[m..n], hidden);
    var above, below := rows[..m], rows[m..n];
    assert rows[..n] == above + below;
    forall a, b | a in above && b in below ensures a.id != b.id {
    }
    HitsAppend(above, below, all);
    HitsCongruent(above, unseen, all);
    HitsCongruent(below, hidden, all);
    forall id | id in all ensures id in HiddenAmong(rows[..n], all) {
      if id in unseen {
        var row :| row in above && row.id == id;
        assert row in rows[..n];
      } else {
        var row :| row in below && row.id == id;
        assert row in rows[..n];
      }
    }
  }

  /** The ids page `i` withholds: those pending when it starts or when it rechecks. */
  ghost function HiddenOn(log: seq<Row>, sessions: Sessions, active: nat -> set<string>, i: nat): set<int> {
    Pending(log, sessions, active(2 * i)) + Pending(log, sessions, active(2 * i + 1))
  }

  /** A page with no more rows below it reached the end of the lane; any other made progress. */
  lemma PageProgress(rows: seq<Row>, limit: nat, hidden: set<int>, n: nat)
    requires limit > 0 && StopsAt(rows, limit, hidden, n)
    ensures rows != [] ==> n > 0
    ensures !(0 < n < |rows|) ==> n == |rows|
  {
    hide HitOf;
    assert Hits(rows[..0], hidden) == [];
  }

  /** The page after one that stopped at row `n`. */
  lemma NextPageRows(log: seq<Row>, pos: nat, n: nat, before: Option<int>)
    requires IdsAscend(log) && IdsPositive(log)
    requires var all := Lane(log, None); pos <= |all| && Lane(log, before) == all[pos..] && 0 < n < |all| - pos
    ensures var all := Lane(log, None); var id := all[pos + n - 1].id;
            && ParseCursor(Decimal(id)) == Some(id)
            && Lane(log, Some(id)) == all[pos + n..]
  {
    hide IdsAscend, Decimal, ParseCursor;
    var all := Lane(log, None);
    NewestResumes(log, InPlatformLane, None, pos + n - 1);
    NewestFrom(log, InPlatformLane, None, pos + n - 1);
    CursorRoundTrip(all[pos + n - 1].id);
  }

  lemma RetainedShorter(rows: seq<Row>, a: set<int>, b: set<int>)
    ensures |Hits(rows, a + b)| <= |Hits(rows, a)|
    decreases |rows|
  {
    if rows != [] {
      RetainedShorter(rows[1..], a, b);
    }
  }

  lemma PageBounded(rows: seq<Row>, limit: nat, early: set<int>, late: set<int>, n: nat)
    requires StopsAt(rows, limit, early, n)
    ensures |Hits(rows[..n], early + late)| <= limit
  {
    RetainedShorter(rows[..n], early, late);
  }

  lemma LaneDescends(log: seq<Row>)
    requires IdsAscend(log)
    ensures IdsDescend(Lane(log, None)) && Lane(log, None)[0..] == Lane(log, None)
  {
    NewestRows(log, InPlatformLane, None);
  }

  lemma NoHits(hidden: set<int>)
    ensures Hits([], hidden) == []
  {
  }

  // ---- The walk page by page ----

  /** Page `i` holds the decisions among rows `m` to `n`, except those pending at one of its own reads. */
  ghost predicate PageRead(log: seq<Row>, sessions: Sessions, active: nat -> set<string>, rows: seq<Row>,
                           m: nat, n: nat, i: nat, page: seq<Decision>)
  {
    m <= n <= |rows| && page == Hits(rows[m..n], HiddenOn(log, sessions, active, i))
  }

  /** The pages read consecutive stretches of the rows: page `i` from `cuts[i]` up to `cuts[i + 1]`. */
  ghost predicate PagesRead(log: seq<Row>, sessions: Sessions, active: nat -> set<string>, rows: seq<Row>,
                            cuts: seq<nat>, pages: seq<seq<Decision>>)
  {
    && |cuts| == |pages| + 1 && cuts[0] == 0
    && forall i :: 0 <= i < |pages| ==> PageRead(log, sessions, active, rows, cuts[i], cuts[i + 1], i, pages[i])
  }

  lemma PagesReadNext(log: seq<Row>, sessions: Sessions, active: nat -> set<string>, rows: seq<Row>, cuts: seq<nat>,
                      pages: seq<seq<Decision>>, end: nat, page: seq<Decision>)
    requires PagesRead(log, sessions, active, rows, cuts, pages)
    requires cuts[|pages|] <= end <= |rows|
    requires page == Hits(rows[cuts[|pages|]..end], HiddenOn(log, sessions, active, |pages|))
    ensures PagesRead(log, sessions, active, rows, cuts + [end], pages + [page])
  {
    hide Hits, HiddenOn;
    assert PageRead(log, sessions, active, rows, cuts[|pages|], end, |pages|, page);
    hide PageRead;
  }

  /** The cursor a walk follows at row `pos`. */
  ghost predicate Resumes(log: seq<Row>, cursor: Option<string>, pos: nat) {
    && pos <= |Lane(log, None)|
    && (cursor.Some? ==> ParseCursor(cursor.value).Some?)
    && Lane(log, if cursor.Some? then ParseCursor(cursor.value) else None) == Lane(log, None)[pos..]
  }

  /** What one more page reads, and where the next one resumes. */
  lemma WalkStep(log: seq<Row>, sessions: Sessions, active: nat -> set<string>, limit: nat, i: nat,
                 cursor: Option<string>, pos: nat, extent: nat, page: Page<Decision>)
    requires IdsAscend(log) && IdsPositive(log) && limit > 0 && Resumes(log, cursor, pos)
    requires var rows := Lane(log, None)[pos..];
             && StopsAt(rows, limit, Pending(log, sessions, active(2 * i)), extent)
             && page == PageOf(rows, extent, HiddenOn(log, sessions, active, i))
    ensures var all := Lane(log, None);
            && pos + extent <= |all| && |page.items| <= limit
            && page.items == Hits(all[pos..pos + extent], HiddenOn(log, sessions, active, i))
            && (if page.hasMore then extent > 0 && pos + extent < |all| && Resumes(log, page.nextCursor, pos + extent)
                else pos + extent == |all|)
  {
    hide IdsAscend, IdsPositive, Hits, Lane, Decimal, ParseCursor, Pending;
    var all := Lane(log, None);
    var early, late := Pending(log, sessions, active(2 * i)), Pending(log, sessions, active(2 * i + 1));
    PageProgress(all[pos..], limit, early, extent);
    PageBounded(all[pos..], limit, early, late, extent);
    hide StopsAt;
    assert all[pos..][..extent] == all[pos..pos + extent];
    if page.hasMore {
      NextPageRows(log, pos, extent, if cursor.Some? then ParseCursor(cursor.value) else None);
    }
  }

  /** Page `i` of a walk, read from where the cursor resumes. */
  method WalkPage(log: seq<Row>, sessions: Sessions, active: nat -> set<string>, limit: Option<int>, i: nat,
                  cursor: Option<string>, ghost pos: nat)
    returns (page: Page<Decision>, ghost end: nat)
    requires IdsAscend(log) && IdsPositive(log) && LimitAccepted(limit) && Resumes(log, cursor, pos)
    ensures pos <= end <= |Lane(log, None)| && |page.items| <= LimitOf(limit)
    ensures page.items == Hits(Lane(log, None)[pos..end], HiddenOn(log, sessions, active, i))
    ensures if page.hasMore then pos < end < |Lane(log, None)| && Resumes(log, page.nextCursor, end)
            else end == |Lane(log, None)|
  {
    hide IdsAscend, IdsPositive, Hits, Lane, StopsAt, PageOf, HiddenOn, Pending, ParseCursor, Resumes;
    ResumesWhere(log, cursor, pos);
    var r, extent := ResolvedDecisions(log, sessions, active(2 * i), active(2 * i + 1), cursor, limit);
    HiddenOnPage(log, sessions, active, i);
    WalkStep(log, sessions, active, LimitOf(limit), i, cursor, pos, extent, r.value);
    page, end := r.value, pos + extent;
  }

  /**
   * Following `next_cursor` from the newest row: page `i` runs while the executions in
   * `active(2 * i)`, then `active(2 * i + 1)`, are the active ones. The walk ends, its
   * pages keep to the limit, and together they read every row of the lane once.
   */
  method WalkResolved(log: seq<Row>, sessions: Sessions, active: nat -> set<string>, limit: Option<int>)
    returns (pages: seq<seq<Decision>>, ghost cuts: seq<nat>)
    requires IdsAscend(log) && IdsPositive(log) && LimitAccepted(limit)
    ensures forall i :: 0 <= i < |pages| ==> |pages[i]| <= LimitOf(limit)
    ensures PagesRead(log, sessions, active, Lane(log, None), cuts, pages)
    ensures cuts[|pages|] == |Lane(log, None)|
  {
    hide IdsAscend, IdsPositive, Hits, Lane, HiddenOn, PagesRead, Resumes, LimitAccepted, LimitOf;
    WalkStart(log, sessions, active);
    var cursor: Option<string> := None;
    pages, cuts := [], [0];
    var more := true;
    while more
      invariant PagesRead(log, sessions, active, Lane(log, None), cuts, pages)
      invariant |cuts| == |pages| + 1
      invariant more ==> Resumes(log, cursor, cuts[|pages|]) && (cuts[|pages|] < |Lane(log, None)| || pages == [])
      invariant !more ==> cuts[|pages|] == |Lane(log, None)|
      invariant forall i :: 0 <= i < |pages| ==> |pages[i]| <= LimitOf(limit)
      decreases more, |Lane(log, None)| - cuts[|pages|]
    {
      var page;
      ghost var end;
      page, end := WalkPage(log, sessions, active, limit, |pages|, cursor, cuts[|pages|]);
      PagesReadNext(log, sessions, active, Lane(log, None), cuts, pages, end, page.items);
      pages, cuts := pages + [page.items], cuts + [end];
      more, cursor := page.hasMore, page.nextCursor;
    }
  }

  lemma WalkStart(log: seq<Row>, sessions: Sessions, active: nat -> set<string>)
    ensures PagesRead(log, sessions, active, Lane(log, None), [0], []) && Resumes(log, None, 0)
  {
    assert Lane(log, None)[0..] == Lane(log, None);
  }

  lemma ResumesWhere(log: seq<Row>, cursor: Option<string>, pos: nat)
    requires Resumes(log, cursor, pos)
    ensures pos <= |Lane(log, None)| && (cursor.Some? ==> ParseCursor(cursor.value).Some?)
    ensures Lane(log, if cursor.Some? then ParseCursor(cursor.value) else None) == Lane(log, None)[pos..]
  {
  }

  lemma HiddenOnPage(log: seq<Row>, sessions: Sessions, active: nat -> set<string>, i: nat)
    ensures HiddenOn(log, sessions, active, i)
         == Pending(log, sessions, active(2 * i)) + Pending(log, sessions, active(2 * i + 1))
  {
  }

  // ---- What the walk lists ----

  function Slice(rows: seq<Row>, m: nat, n: nat): seq<Row> {
    if m <= n <= |rows| then rows[m..n] else []
  }

  /** The ids withheld among the rows of the first `n` pages, each by the page that read it. */
  ghost function Withheld(log: seq<Row>, sessions: Sessions, active: nat -> set<string>, rows: seq<Row>,
                          cuts: seq<nat>, n: nat): set<int>
    requires n < |cuts|
  {
    if n == 0 then {} else
    var page := HiddenAmong(Slice(rows, cuts[n - 1], cuts[n]), HiddenOn(log, sessions, active, n - 1));
    Withheld(log, sessions, active, rows, cuts, n - 1) + page
  }

  lemma ThePage(log: seq<Row>, sessions: Sessions, active: nat -> set<string>, rows: seq<Row>,
                cuts: seq<nat>, pages: seq<seq<Decision>>, i: nat)
    requires PagesRead(log, sessions, active, rows, cuts, pages) && i < |pages|
    ensures cuts[i] <= cuts[i + 1] <= |rows|
    ensures pages[i] == Hits(rows[cuts[i]..cuts[i + 1]], HiddenOn(log, sessions, active, i))
  {
    hide Hits, HiddenOn;
    assert PageRead(log, sessions, active, rows, cuts[i], cuts[i + 1], i, pages[i]);
  }

  lemma PagesSized(log: seq<Row>, sessions: Sessions, active: nat -> set<string>, rows: seq<Row>,
                   cuts: seq<nat>, pages: seq<seq<Decision>>)
    requires PagesRead(log, sessions, active, rows, cuts, pages)
    ensures |cuts| == |pages| + 1 && cuts[0] == 0
  {
  }

  lemma WithheldNext(log: seq<Row>, sessions: Sessions, active: nat -> set<string>, rows: seq<Row>, cuts: seq<nat>,
      n: nat)
    requires 0 < n < |cuts| && cuts[n - 1] <= cuts[n] <= |rows|
    ensures Withheld(log, sessions, active, rows, cuts, n) == Withheld(log, sessions, active, rows, cuts, n - 1)
              + HiddenAmong(rows[cuts[n - 1]..cuts[n]], HiddenOn(log, sessions, active, n - 1))
  {
    hide HiddenAmong, HiddenOn;
  }

  /** The first `n` pages, concatenated, are the decisions among their rows that none of them withheld. */
  lemma {:induction false} PagesAreHits(log: seq<Row>, sessions: Sessions, active: nat -> set<string>, rows: seq<Row>,
                                        cuts: seq<nat>, pages: seq<seq<Decision>>, n: nat)
    requires IdsDescend(rows) && PagesRead(log, sessions, active, rows, cuts, pages) && n <= |pages|
    ensures n < |cuts| && cuts[n] <= |rows|
    ensures var unseen := Withheld(log, sessions, active, rows, cuts, n);
            && Flatten(pages[..n]) == Hits(rows[..cuts[n]], unseen)
            && unseen <= HiddenAmong(rows[..cuts[n]], unseen)
  {
    hide Hits, HiddenOn, HiddenAmong, IdsDescend, Flatten, PagesRead;
    PagesSized(log, sessions, active, rows, cuts, pages);
    if n == 0 {
      NoHits({});
      NothingFlattened();
      assert rows[..0] == [] && pages[..0] == [];
    } else {
      PagesAreHits(log, sessions, active, rows, cuts, pages, n - 1);
      ThePage(log, sessions, active, rows, cuts, pages, n - 1);
      WithheldNext(log, sessions, active, rows, cuts, n);
      PageJoins(rows, cuts[n - 1], cuts[n], Withheld(log, sessions, active, rows, cuts, n - 1),
        HiddenOn(log, sessions, active, n - 1));
      hide Withheld;
      assert pages[..n] == pages[..n - 1] + [pages[n - 1]];
      FlattenSnoc(pages[..n - 1], pages[n - 1]);
    }
  }

  lemma NothingFlattened()
    ensures Flatten<Decision>([]) == [] && {} <= HiddenAmong([], {})
  {
  }

  /** A later page reads rows further down. */
  lemma {:induction false} LaterPageBelow(log: seq<Row>, sessions: Sessions, active: nat -> set<string>, rows: seq<Row>,
                                          cuts: seq<nat>, pages: seq<seq<Decision>>, i: nat, j: nat)
    requires PagesRead(log, sessions, active, rows, cuts, pages) && i <= j <= |pages|
    ensures |cuts| == |pages| + 1 && cuts[i] <= cuts[j]
  {
    hide Hits, PagesRead;
    PagesSized(log, sessions, active, rows, cuts, pages);
    if i < j {
      LaterPageBelow(log, sessions, active, rows, cuts, pages, i, j - 1);
      ThePage(log, sessions, active, rows, cuts, pages, j - 1);
    }
  }

  lemma OnlyAbove(rows: seq<Row>, m: nat, k: nat, unseen: set<int>)
    requires IdsDescend(rows) && m <= k < |rows| && unseen <= HiddenAmong(rows[..m], unseen)
    ensures rows[k].id !in unseen
  {
    forall row | row in rows[..m] ensures row.id > rows[k].id {
      var j :| 0 <= j < m && rows[j] == row;
    }
  }

  /** A page withholds one of its own rows by its own pending ids, and none of the rows above it. */
  lemma HiddenWithin(rows: seq<Row>, m: nat, n: nat, k: nat, hidden: set<int>)
    requires IdsDescend(rows) && m <= n <= |rows| && k < n
    ensures rows[k].id in HiddenAmong(rows[m..n], hidden) <==> m <= k && rows[k].id in hidden
  {
    if m <= k {
      assert rows[m..n][k - m] == rows[k];
    } else {
      forall row | row in rows[m..n] ensures row.id < rows[k].id {
        var j :| 0 <= j < n - m && rows[m..n][j] == row;
        assert row == rows[m + j];
      }
    }
  }

  /** A row that page `i` read is withheld exactly when its id was pending at one of that page's reads. */
  lemma {:induction false} WithheldByItsPage(log: seq<Row>, sessions: Sessions, active: nat -> set<string>,
                                             rows: seq<Row>, cuts: seq<nat>, pages: seq<seq<Decision>>,
                                             n: nat, i: nat, k: nat)
    requires IdsDescend(rows) && PagesRead(log, sessions, active, rows, cuts, pages) && i < n <= |pages|
    requires |cuts| == |pages| + 1 && cuts[i] <= k < cuts[i + 1]
    ensures k < |rows|
    ensures rows[k].id in Withheld(log, sessions, active, rows, cuts, n) <==>
            rows[k].id in HiddenOn(log, sessions, active, i)
  {
    hide HiddenOn, Hits, HiddenAmong, IdsDescend, PagesRead, Withheld;
    PagesSized(log, sessions, active, rows, cuts, pages);
    ThePage(log, sessions, active, rows, cuts, pages, i);
    ThePage(log, sessions, active, rows, cuts, pages, n - 1);
    WithheldNext(log, sessions, active, rows, cuts, n);
    LaterPageBelow(log, sessions, active, rows, cuts, pages, i + 1, n);
    HiddenWithin(rows, cuts[n - 1], cuts[n], k, HiddenOn(log, sessions, active, n - 1));
    if i == n - 1 {
      PagesAreHits(log, sessions, active, rows, cuts, pages, n - 1);
      OnlyAbove(rows, cuts[i], k, Withheld(log, sessions, active, rows, cuts, n - 1));
    } else {
      LaterPageBelow(log, sessions, active, rows, cuts, pages, i + 1, n - 1);
      WithheldByItsPage(log, sessions, active, rows, cuts, pages, n - 1, i, k);
    }
  }

  /**
   * The whole walk, concatenated, lists the lane's decisions except those that were
   * pending when the page that read their row was served.
   */
  lemma WalkIsHits(log: seq<Row>, sessions: Sessions, active: nat -> set<string>,
                   cuts: seq<nat>, pages: seq<seq<Decision>>)
      returns (unseen: set<int>)
    requires IdsAscend(log) && PagesRead(log, sessions, active, Lane(log, None), cuts, pages)
    requires cuts[|pages|] == |Lane(log, None)|
    ensures Flatten(pages) == Hits(Lane(log, None), unseen) && unseen <= HiddenAmong(Lane(log, None), unseen)
    ensures forall i, k :: 0 <= i < |pages| && cuts[i] <= k < cuts[i + 1] ==>
              (Lane(log, None)[k].id in unseen <==> Lane(log, None)[k].id in HiddenOn(log, sessions, active, i))
  {
    hide Hits, Lane, HiddenOn, Flatten, HiddenAmong;
    var rows := Lane(log, None);
    LaneDescends(log);
    PagesAreHits(log, sessions, active, rows, cuts, pages, |pages|);
    assert pages[..|pages|] == pages && rows[..|rows|] == rows;
    unseen := Withheld(log, sessions, active, rows, cuts, |pages|);
    forall i, k | 0 <= i < |pages| && cuts[i] <= k < cuts[i + 1]
      ensures rows[k].id in unseen <==> rows[k].id in HiddenOn(log, sessions, active, i)
    {
      WithheldByItsPage(log, sessions, active, rows, cuts, pages, |pages|, i, k);
    }
  }

  /** Every row read was read by some page. */
  lemma {:induction false} PageReading(cuts: seq<nat>, n: nat, k: nat) returns (i: nat)
    requires n < |cuts| && cuts[0] == 0 && k < cuts[n]
    ensures i < n && cuts[i] <= k < cuts[i + 1]
  {
    if cuts[n - 1] <= k {
      i := n - 1;
    } else {
      i := PageReading(cuts, n - 1, k);
    }
  }

  /**
   * The walk lists decisions newest first, none twice, and each is a session-bound
   * escalation of the log that no page withheld.
   */
  lemma WalkLists(log: seq<Row>, unseen: set<int>)
    requires IdsAscend(log)
    ensures var list := Hits(Lane(log, None), unseen);
            && DecisionsDescend(list)
            && forall d :: d in list <==>
                 exists row :: row in log && row.kind == Platform && DecisionOf(row) == Some(d) && row.id !in unseen
  {
    hide DecisionOf, DecisionsDescend, Hits;
    NewestRows(log, InPlatformLane, None);
    HitsExact(Lane(log, None), unseen);
  }

  /**
   * While the active executions stay the same, the walk lists every session-bound
   * escalation that is not pending exactly once, newest first.
   */
  method WalkSteady(log: seq<Row>, sessions: Sessions, active: set<string>, limit: Option<int>)
    returns (pages: seq<seq<Decision>>)
    requires IdsAscend(log) && IdsPositive(log) && LimitAccepted(limit)
    ensures forall i :: 0 <= i < |pages| ==> |pages[i]| <= LimitOf(limit)
    ensures DecisionsDescend(Flatten(pages))
    ensures forall d :: d in Flatten(pages) <==>
              exists row :: row in log && row.kind == Platform && DecisionOf(row) == Some(d) &&
                  row.id !in Pending(log, sessions, active)
  {
    hide DecisionOf, Pending, Hits, Flatten, DecisionsDescend, IdsPositive, IdsAscend, Lane;
    ghost var cuts;
    pages, cuts := WalkResolved(log, sessions, (k: nat) => active, limit);
    SteadyWithheld(log, sessions, active, cuts, pages);
    WalkLists(log, Pending(log, sessions, active));
  }

  lemma SteadyWithheld(log: seq<Row>, sessions: Sessions, active: set<string>, cuts: seq<nat>,
      pages: seq<seq<Decision>>)
    requires IdsAscend(log) && PagesRead(log, sessions, (k: nat) => active, Lane(log, None), cuts, pages)
    requires cuts[|pages|] == |Lane(log, None)|
    ensures Flatten(pages) == Hits(Lane(log, None), Pending(log, sessions, active))
  {
    hide Pending, Hits, Lane, Flatten, IdsAscend;
    var steady := (k: nat) => active;
    var unseen := WalkIsHits(log, sessions, steady, cuts, pages);
    var rows := Lane(log, None);
    forall k | 0 <= k < |rows| ensures rows[k].id in unseen <==> rows[k].id in Pending(log, sessions, active) {
      var i := PageReading(cuts, |pages|, k);
      HiddenOnPage(log, sessions, steady, i);
    }
    HitsCongruent(rows, unseen, Pending(log, sessions, active));
  }
}
