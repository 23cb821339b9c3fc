/** When the backfill scan gives up: the byte cap is exact, and every other abort has its row. */
module BackfillAborts {
  import opened Prelude
  import opened Markers
  import opened EventLog
  import opened BackfillScan

  // ---- The cap ----

  /** A phase that ends with `kept` bytes, having started with `before`, stays under this cap. */
  predicate Under(cap: nat, before: nat, kept: nat) {
    kept == before || kept <= cap
  }

  function Capped(st: PlatformState, before: nat, cap: nat): Result<PlatformState, Abort> {
    if Under(cap, before, st.retained) then Ok(st) else Err(CapExceeded)
  }

  lemma {:induction false} ClaimsCapped(st: PlatformState, batches: seq<string>, owner: Owner, cap: nat, other: nat)
    requires ClaimBatches(st, batches, owner, cap).Ok?
    ensures var r := ClaimBatches(st, batches, owner, cap).value;
            && st.retained <= r.retained && Under(cap, st.retained, r.retained)
            && ClaimBatches(st, batches, owner, other) == Capped(r, st.retained, other)
    decreases |batches|
  {
    hide OwnerBytes;
    if batches != [] {
      if batches[0] in st.owners {
        ClaimsCapped(st, batches[1..], owner, cap, other);
      } else {
        OwnerWeighs(batches[0], owner);
        var retained := st.retained + OwnerBytes(batches[0], owner);
        ClaimsCapped(st.(owners := st.owners[batches[0] := owner], retained := retained), batches[1..], owner, cap,
          other);
      }
    }
  }

  lemma OwnerWeighs(batchId: string, owner: Owner)
    ensures OwnerBytes(batchId, owner) > 0
  {
  }

  lemma KeyWeighs(key: SourceKey)
    ensures KeyBytes(key) > 0
  {
  }

  lemma {:induction false} AddsCapped(st: PlatformState, cands: seq<Candidate>, exec: string, session: string, cap: nat,
                                      other: nat)
    requires AddKeys(st, cands, exec, session, cap).Ok?
    ensures var r := AddKeys(st, cands, exec, session, cap).value;
            && st.retained <= r.retained && Under(cap, st.retained, r.retained)
            && AddKeys(st, cands, exec, session, other) == Capped(r, st.retained, other)
    decreases |cands|
  {
    hide KeyBytes;
    if cands != [] {
      var c := cands[0];
      if c.embeddedResolvedEventId.None? {
        AddsCapped(st, cands[1..], exec, session, cap, other);
      } else {
        var k := SourceKey(exec, session, c.batchId, c.embeddedResolvedEventId.value);
        KeyWeighs(k);
        if k in st.existing {
          AddsCapped(st, cands[1..], exec, session, cap, other);
        } else {
          AddsCapped(st.(existing := st.existing + {k}, retained := st.retained + KeyBytes(k)), cands[1..], exec,
            session, cap, other);
        }
      }
    }
  }

  lemma RowCapped(st: PlatformState, row: Row, sessions: Sessions, cap: nat, abort: bool, other: nat)
    requires PlatformRow(st, row, sessions, cap, abort).Ok?
    ensures var r := PlatformRow(st, row, sessions, cap, abort).value;
            && st.retained <= r.retained && Under(cap, st.retained, r.retained)
            && PlatformRow(st, row, sessions, other, abort) == Capped(r, st.retained, other)
  {
    hide EscalatedBatches, ParseParts, Candidates, ClaimBatches, AddKeys;
    if row.kind == Platform && row.payload.Some? {
      var claimed := ClaimRow(st, row, sessions, cap, abort).value;
      if Coherent(row, sessions) {
        ClaimsCapped(st, EscalatedBatches(row.payload.value), Owner(row.executionId, row.sessionId.value), cap, other);
      }
      var parts := ParseParts(row.payload.value);
      if row.sessionId.Some? && parts.Some? {
        AddsCapped(claimed, Candidates(parts.value, row.id), row.executionId, row.sessionId.value, cap, other);
      }
    }
  }

  lemma {:induction false} PlatformCapped(st: PlatformState, rows: seq<Row>, sessions: Sessions, cap: nat, abort: bool,
                                          other: nat)
    requires PlatformScan(st, rows, sessions, cap, abort).Ok?
    ensures var r := PlatformScan(st, rows, sessions, cap, abort).value;
            && st.retained <= r.retained && Under(cap, st.retained, r.retained)
            && PlatformScan(st, rows, sessions, other, abort) == Capped(r, st.retained, other)
    decreases |rows|
  {
    hide PlatformRow;
    if rows != [] {
      RowCapped(st, rows[0], sessions, cap, abort, other);
      PlatformCapped(PlatformRow(st, rows[0], sessions, cap, abort).value, rows[1..], sessions, cap, abort, other);
    }
  }

  lemma {:induction false} MessagesCapped(ms: MessageState, rows: seq<Row>, st: PlatformState, cap: nat, abort: bool,
                                          other: nat)
    requires MessageScan(ms, rows, st, cap, abort).Ok?
    ensures var r := MessageScan(ms, rows, st, cap, abort).value;
            && ms.retained <= r.retained && Under(cap, ms.retained, r.retained)
            && MessageScan(ms, rows, st, other, abort)
               == if Under(other, ms.retained, r.retained) then Ok(r) else Err(CapExceeded)
    decreases |rows|
  {
    hide SourceOf, KeyBytes, Representable, SourceYieldsNoMarker, KeyOf;
    if rows != [] {
      KeyNeedsSource(rows[0], st.owners);
      var key := KeyOf(rows[0], st.owners);
      if key.Some? {
        KeyWeighs(key.value);
      }
      MessagesCapped(MessageRow(ms, rows[0], st, cap, abort).value, rows[1..], st, cap, abort, other);
    }
  }

  /**
   * A scan that succeeds under one cap gives the same result under every cap that
   * holds the bytes it kept, and gives up under every smaller one.
   */
  lemma CapExact(log: seq<Row>, sessions: Sessions, cap: nat, abort: bool, other: nat)
    requires Collect(log, sessions, cap, abort).Ok?
    ensures var found := Collect(log, sessions, cap, abort);
            Collect(log, sessions, other, abort) == if found.value.retained <= other then found else Err(CapExceeded)
  {
    hide PlatformScan, MessageScan;
    var st := PlatformScan(START, log, sessions, cap, abort).value;
    PlatformCapped(START, log, sessions, cap, abort, other);
    MessagesCapped(MessageState([], Stats(0, 0, 0, 0), st.retained), log, st, cap, abort, other);
  }

  // ---- What a log could keep at most ----

  function BatchesBytes(batches: seq<string>, owner: Owner): nat {
    if batches == [] then 0 else OwnerBytes(batches[0], owner) + BatchesBytes(batches[1..], owner)
  }

  function CandidatesBytes(cands: seq<Candidate>, exec: string, session: string): nat {
    if cands == [] then 0
    else
      (if cands[0].embeddedResolvedEventId.None? then 0
       else KeyBytes(SourceKey(exec, session, cands[0].batchId, cands[0].embeddedResolvedEventId.value)))
      + CandidatesBytes(cands[1..], exec, session)
  }

  function PlatformBytes(row: Row): nat {
    if row.kind != Platform || row.payload.None? || row.sessionId.None? then 0
    else
      var parts := ParseParts(row.payload.value);
      BatchesBytes(EscalatedBatches(row.payload.value), Owner(row.executionId, row.sessionId.value))
      + if parts.None? then 0
        else CandidatesBytes(Candidates(parts.value, row.id), row.executionId, row.sessionId.value)
  }

  /** The bytes of everything the rows name, as if nothing were named twice. */
  function NamedBytes(log: seq<Row>, sessions: Sessions, rows: seq<Row>): nat {
    if rows == [] then 0
    else
      var key := SourceKeyOf(log, sessions, rows[0]);
      PlatformBytes(rows[0]) + (if key.Some? then KeyBytes(key.value) else 0) + NamedBytes(log, sessions, rows[1..])
  }

  /** A result that keeps at most so much more, or gives up because the cap is less. */
  predicate Bounded(r: Result<PlatformState, Abort>, before: nat, more: nat, cap: nat) {
    match r
    case Ok(st) => st.retained <= before + more
    case Err(e) => e == CapExceeded && cap < before + more
  }

  lemma {:induction false} ClaimsBounded(st: PlatformState, batches: seq<string>, owner: Owner, cap: nat)
    ensures Bounded(ClaimBatches(st, batches, owner, cap), st.retained, BatchesBytes(batches, owner), cap)
    decreases |batches|
  {
    hide OwnerBytes;
    if batches != [] {
      if batches[0] in st.owners {
        ClaimsBounded(st, batches[1..], owner, cap);
      } else {
        var retained := st.retained + OwnerBytes(batches[0], owner);
        ClaimsBounded(st.(owners := st.owners[batches[0] := owner], retained := retained), batches[1..], owner, cap);
      }
    }
  }

  lemma {:induction false} AddsBounded(st: PlatformState, cands: seq<Candidate>, exec: string, session: string,
                                       cap: nat)
    ensures Bounded(AddKeys(st, cands, exec, session, cap), st.retained, CandidatesBytes(cands, exec, session), cap)
    decreases |cands|
  {
    hide KeyBytes;
    if cands != [] {
      var c := cands[0];
      if c.embeddedResolvedEventId.None? {
        AddsBounded(st, cands[1..], exec, session, cap);
      } else {
        var k := SourceKey(exec, session, c.batchId, c.embeddedResolvedEventId.value);
        if k in st.existing {
          AddsBounded(st, cands[1..], exec, session, cap);
        } else {
          AddsBounded(st.(existing := st.existing + {k}, retained := st.retained + KeyBytes(k)), cands[1..], exec,
            session, cap);
        }
      }
    }
  }

  /** A platform row that escalates in a session of its own execution, under an id no cursor can name. */
  ghost predicate BadEscalation(row: Row, sessions: Sessions) {
    row.id <= 0 && exists b :: Escalates(row, sessions, b)
  }

  lemma RowBounded(st: PlatformState, row: Row, sessions: Sessions, cap: nat, abort: bool)
    ensures var r := PlatformRow(st, row, sessions, cap, abort);
            || Bounded(r, st.retained, PlatformBytes(row), cap)
            || (abort && r == Err(NonPositiveId(row.id)) && BadEscalation(row, sessions))
  {
    hide EscalatedBatches, ParseParts, Candidates, ClaimBatches, AddKeys, BatchesBytes, CandidatesBytes;
    if row.kind == Platform && row.payload.Some? && row.sessionId.Some? {
      var batches, owner := EscalatedBatches(row.payload.value), Owner(row.executionId, row.sessionId.value);
      ClaimsBounded(st, batches, owner, cap);
      if abort && Coherent(row, sessions) && batches != [] && row.id <= 0 {
        assert Escalates(row, sessions, batches[0]);
      }
      var claimed := ClaimRow(st, row, sessions, cap, abort);
      var parts := ParseParts(row.payload.value);
      if claimed.Ok? && parts.Some? {
        AddsBounded(claimed.value, Candidates(parts.value, row.id), row.executionId, row.sessionId.value, cap);
      }
    }
  }

  /** Why the platform phase gave up, or how much it kept. */
  ghost predicate PlatformCause(r: Result<PlatformState, Abort>, rows: seq<Row>, sessions: Sessions, before: nat,
                                more: nat, cap: nat, abort: bool)
  {
    || Bounded(r, before, more, cap)
    || (abort && exists row :: row in rows && r == Err(NonPositiveId(row.id)) && BadEscalation(row, sessions))
  }

  function PlatformTotal(rows: seq<Row>): nat {
    if rows == [] then 0 else PlatformBytes(rows[0]) + PlatformTotal(rows[1..])
  }

  lemma {:induction false} PlatformCauses(st: PlatformState, rows: seq<Row>, sessions: Sessions, cap: nat, abort: bool)
    ensures var r := PlatformScan(st, rows, sessions, cap, abort);
            PlatformCause(r, rows, sessions, st.retained, PlatformTotal(rows), cap, abort)
    decreases |rows|
  {
    hide PlatformRow, BadEscalation, PlatformBytes;
    if rows != [] {
      RowBounded(st, rows[0], sessions, cap, abort);
      var r := PlatformRow(st, rows[0], sessions, cap, abort);
      assert rows[0] in rows && forall row :: row in rows[1..] ==> row in rows;
      if r.Ok? {
        PlatformCauses(r.value, rows[1..], sessions, cap, abort);
      }
    }
  }

  /** Why the message phase gives up at a row. */
  ghost predicate MessageCause(row: Row, e: Abort, log: seq<Row>, sessions: Sessions, abort: bool) {
    match e
    case CapExceeded => false
    case NonPositiveId(id) => abort && id == row.id <= 0 && SourceKeyOf(log, sessions, row).Some?
    case UnformattableCreatedAt(id) =>
      id == row.id && (row.createdAt.None? || !Representable(row.createdAt.value))
      && exists key :: Unmarked(log, sessions, row, key)
  }

  function SourceBytes(log: seq<Row>, sessions: Sessions, rows: seq<Row>): nat {
    if rows == [] then 0
    else
      var key := SourceKeyOf(log, sessions, rows[0]);
      (if key.Some? then KeyBytes(key.value) else 0) + SourceBytes(log, sessions, rows[1..])
  }

  lemma {:induction false} BytesSplit(log: seq<Row>, sessions: Sessions, rows: seq<Row>)
    ensures NamedBytes(log, sessions, rows) == PlatformTotal(rows) + SourceBytes(log, sessions, rows)
  {
    hide PlatformBytes, SourceKeyOf, KeyBytes;
    if rows != [] {
      BytesSplit(log, sessions, rows[1..]);
    }
  }

  lemma MessageStops(ms: MessageState, row: Row, st: PlatformState, cap: nat, abort: bool, log: seq<Row>,
                     sessions: Sessions)
    requires Knows(log, sessions, st)
    ensures var r, key := MessageRow(ms, row, st, cap, abort), SourceKeyOf(log, sessions, row);
            var more := if key.Some? then KeyBytes(key.value) else 0;
            && (r.Ok? ==> r.value.retained <= ms.retained + more)
            && (r.Err? ==> (r.error == CapExceeded && cap < ms.retained + more)
                           || MessageCause(row, r.error, log, sessions, abort))
  {
    KeyNeedsSource(row, st.owners);
    hide SourceOf, KeyBytes, Representable, SourceYieldsNoMarker, SourceKeyOf, Marked, KeyOf;
    var r, key := MessageRow(ms, row, st, cap, abort), SourceKeyOf(log, sessions, row);
    if r.Err? && r.error.UnformattableCreatedAt? {
      assert Unmarked(log, sessions, row, key.value);
    }
  }

  lemma {:induction false} MessageStopsSomewhere(ms: MessageState, rows: seq<Row>, st: PlatformState, cap: nat,
                                                 abort: bool, log: seq<Row>, sessions: Sessions)
    requires Knows(log, sessions, st)
    ensures var r := MessageScan(ms, rows, st, cap, abort);
            r.Err? ==> || (r.error == CapExceeded && cap < ms.retained + SourceBytes(log, sessions, rows))
                       || exists row :: row in rows && MessageCause(row, r.error, log, sessions, abort)
    decreases |rows|
  {
    hide MessageRow, MessageCause, KeyBytes, SourceKeyOf, Knows;
    if rows != [] {
      MessageStops(ms, rows[0], st, cap, abort, log, sessions);
      var r := MessageRow(ms, rows[0], st, cap, abort);
      assert rows[0] in rows && forall row :: row in rows[1..] ==> row in rows;
      if r.Ok? {
        MessageStopsSomewhere(r.value, rows[1..], st, cap, abort, log, sessions);
      }
    }
  }

  /**
   * Every abort has its cause in the log: a cap below the bytes of everything the log
   * names; an id that is not positive on a coherent escalation or an owned source, when
   * such ids are refused; or an unmarked source without a usable timestamp.
   */
  lemma AbortsHaveCauses(log: seq<Row>, sessions: Sessions, cap: nat, abort: bool)
    requires Collect(log, sessions, cap, abort).Err?
    ensures match Collect(log, sessions, cap, abort).error
            case CapExceeded => cap < NamedBytes(log, sessions, log)
            case NonPositiveId(id) =>
              && abort && id <= 0
              && exists row :: row in log && row.id == id
                               && (BadEscalation(row, sessions) || SourceKeyOf(log, sessions, row).Some?)
            case UnformattableCreatedAt(id) =>
              exists row, key :: row in log && row.id == id && Unmarked(log, sessions, row, key)
                                 && (row.createdAt.None? || !Representable(row.createdAt.value))
  {
    PlatformCauses(START, log, sessions, cap, abort);
    BytesSplit(log, sessions, log);
    hide PlatformScan, MessageScan, NamedBytes, PlatformTotal, SourceBytes, SourceKeyOf, Unmarked, Representable;
    var r := PlatformScan(START, log, sessions, cap, abort);
    if r.Ok? {
      PlatformKnows(log, sessions, cap, abort);
      hide Knows;
      MessageStopsSomewhere(MessageState([], Stats(0, 0, 0, 0), r.value.retained), log, r.value, cap, abort, log,
        sessions);
    }
  }

  lemma {:induction false} EscalationsPassed(st: PlatformState, rows: seq<Row>, sessions: Sessions, cap: nat)
    requires PlatformScan(st, rows, sessions, cap, true).Ok?
    ensures forall row :: row in rows ==> !BadEscalation(row, sessions)
    decreases |rows|
  {
    hide EscalatedBatches, CoverRow, ClaimBatches;
    if rows != [] {
      EscalationsPassed(PlatformRow(st, rows[0], sessions, cap, true).value, rows[1..], sessions, cap);
      assert forall row :: row in rows <==> row == rows[0] || row in rows[1..];
    }
  }

  lemma MessagePassed(ms: MessageState, row: Row, st: PlatformState, cap: nat, abort: bool, log: seq<Row>,
                      sessions: Sessions, key: SourceKey)
    requires MessageRow(ms, row, st, cap, abort).Ok? && Knows(log, sessions, st)
    ensures SourceKeyOf(log, sessions, row) == Some(key) && abort ==> row.id > 0
    ensures Unmarked(log, sessions, row, key) ==> row.createdAt.Some? && Representable(row.createdAt.value)
  {
    KeyNeedsSource(row, st.owners);
    hide SourceOf, KeyBytes, Representable, SourceYieldsNoMarker, SourceKeyOf, Marked, KeyOf;
  }

  lemma {:induction false} MessagesPassed(ms: MessageState, rows: seq<Row>, st: PlatformState, cap: nat, abort: bool,
                                          log: seq<Row>, sessions: Sessions, row: Row, key: SourceKey)
    requires MessageScan(ms, rows, st, cap, abort).Ok? && Knows(log, sessions, st) && row in rows
    ensures SourceKeyOf(log, sessions, row) == Some(key) && abort ==> row.id > 0
    ensures Unmarked(log, sessions, row, key) ==> row.createdAt.Some? && Representable(row.createdAt.value)
    decreases |rows|
  {
    hide MessageRow, SourceKeyOf, Unmarked, Representable, Knows;
    MessagePassed(ms, rows[0], st, cap, abort, log, sessions, key);
    if row != rows[0] {
      MessagesPassed(MessageRow(ms, rows[0], st, cap, abort).value, rows[1..], st, cap, abort, log, sessions, row, key);
    }
  }

  /** A scan that succeeds met none of these causes anywhere in the log. */
  lemma SuccessMeetsNoCause(log: seq<Row>, sessions: Sessions, cap: nat, abort: bool, row: Row, key: SourceKey)
    requires Collect(log, sessions, cap, abort).Ok? && row in log
    ensures abort ==> !BadEscalation(row, sessions)
    ensures SourceKeyOf(log, sessions, row) == Some(key) && abort ==> row.id > 0
    ensures Unmarked(log, sessions, row, key) ==> row.createdAt.Some? && Representable(row.createdAt.value)
  {
    hide PlatformScan, MessageScan, SourceKeyOf, Unmarked, Representable, BadEscalation;
    PlatformKnows(log, sessions, cap, abort);
    var st := PlatformScan(START, log, sessions, cap, abort).value;
    MessagesPassed(MessageState([], Stats(0, 0, 0, 0), st.retained), log, st, cap, abort, log, sessions, row, key);
    if abort {
      EscalationsPassed(START, log, sessions, cap);
    }
  }
}
