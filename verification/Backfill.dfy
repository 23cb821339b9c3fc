/**
 * The marker backfill: insert a marker for every answer source the scan leaves
 * uncovered, in bounded batches. The audit reruns the same scan.
 */
module Backfill {
  import opened Prelude
  import opened Text
  import opened Json
  import opened JsonParser
  import opened Markers
  import opened EventLog
  import opened BackfillScan

  const READ_CHUNK_ROWS: nat := 256
  const READ_CHUNK_BYTES: nat := 8 * 1024 * 1024
  const INSERT_CHUNK_ROWS: nat := 200
  const INSERT_CHUNK_BYTES: nat := 4 * 1024 * 1024

  // ---- What the scan's answer means ----

  function KeyId(k: SourceKey): int { k.sourceId }

  /** A key the backfill can turn into a marker: its row, its owner, and a fitting size. */
  predicate Ready(row: Row, key: SourceKey, st: PlatformState) {
    && KeyOf(row, st.owners) == Some(key)
    && key !in st.existing
    && !SourceYieldsNoMarker(key.batchId, row.id, SourceOf(row).value.1)
    && row.createdAt.Some? && Representable(row.createdAt.value)
  }

  lemma {:induction false} MessageScanAppends(ms: MessageState, rows: seq<Row>, st: PlatformState, cap: nat,
      abort: bool)
    requires MessageScan(ms, rows, st, cap, abort).Ok?
    ensures var end := MessageScan(ms, rows, st, cap, abort).value;
            && ms.uncovered <= end.uncovered
            && end.retained + KeysBytes(ms.uncovered) == ms.retained + KeysBytes(end.uncovered)
            && (ms.retained <= cap ==> end.retained <= cap)
    decreases |rows|
  {
    hide KeyOf, SourceOf, KeyBytes, Representable, SourceYieldsNoMarker;
    if rows != [] {
      var next := MessageRow(ms, rows[0], st, cap, abort).value;
      MessageScanAppends(next, rows[1..], st, cap, abort);
      if next.uncovered != ms.uncovered {
        KeysBytesSnoc(ms.uncovered, next.uncovered[|ms.uncovered|]);
      }
    }
  }

  lemma {:induction false} KeysBytesSnoc(keys: seq<SourceKey>, k: SourceKey)
    ensures KeysBytes(keys + [k]) == KeysBytes(keys) + KeyBytes(k)
  {
    if keys == [] {
      assert [k][1..] == [];
    } else {
      assert (keys + [k])[1..] == keys[1..] + [k];
      KeysBytesSnoc(keys[1..], k);
    }
  }

  /** Each uncovered key comes from its own row, in id order, with a positive id. */
  lemma {:induction false} UncoveredReady(ms: MessageState, rows: seq<Row>, st: PlatformState, cap: nat)
    requires IdsAscend(rows) && MessageScan(ms, rows, st, cap, true).Ok?
    ensures var end := MessageScan(ms, rows, st, cap, true).value.uncovered;
            && ms.uncovered <= end
            && (forall k :: |ms.uncovered| <= k < |end| ==>
                  && end[k].sourceId > 0
                  && exists i :: 0 <= i < |rows| && rows[i].id == end[k].sourceId && Ready(rows[i], end[k], st))
            && (forall j, k :: |ms.uncovered| <= j < k < |end| ==> end[j].sourceId < end[k].sourceId)
    decreases |rows|
  {
    hide SourceOf, KeyBytes, Representable, SourceYieldsNoMarker;
    if rows != [] {
      var next := MessageRow(ms, rows[0], st, cap, true).value;
      var end := MessageScan(ms, rows, st, cap, true).value.uncovered;
      var n := |next.uncovered|;
      UncoveredReady(next, rows[1..], st, cap);
      forall k | n <= k < |end|
        ensures end[k].sourceId > rows[0].id
        ensures exists i :: 0 <= i < |rows| && rows[i].id == end[k].sourceId && Ready(rows[i], end[k], st)
      {
        var i :| 0 <= i < |rows[1..]| && rows[1..][i].id == end[k].sourceId && Ready(rows[1..][i], end[k], st);
        assert rows[i + 1] == rows[1..][i];
      }
      if n > |ms.uncovered| {
        assert end[|ms.uncovered|] == next.uncovered[|ms.uncovered|];
        assert Ready(rows[0], end[|ms.uncovered|], st);
      }
    }
  }

  // ---- The markers a backfill inserts ----

  /** One inserted row: execution, session and marker payload text. */
  datatype Insert = Insert(executionId: string, sessionId: string, payload: string)

  /** The marker for an uncovered source, built from its stored row. */
  function InsertFor(log: seq<Row>, key: SourceKey): Insert
    requires MarkerSource(log, key)
  {
    var row := RowById(log, key.sourceId).value;
    Insert(key.executionId, key.sessionId,
      Serialize(BackfillMarker(key.batchId, key.sourceId, row.createdAt.value, SourceOf(row).value.1)))
  }

  /** The stored row of a key still reads as a source, with a usable timestamp. */
  predicate MarkerSource(log: seq<Row>, key: SourceKey) {
    var row := RowById(log, key.sourceId);
    row.Some? && SourceOf(row.value).Some? && row.value.createdAt.Some?
  }

  predicate MarkerSources(log: seq<Row>, keys: seq<SourceKey>) {
    forall k :: 0 <= k < |keys| ==> MarkerSource(log, keys[k])
  }

  function InsertsFor(log: seq<Row>, keys: seq<SourceKey>): seq<Insert>
    requires MarkerSources(log, keys)
  {
    seq(|keys|, k requires 0 <= k < |keys| => InsertFor(log, keys[k]))
  }

  lemma SourceTextNonempty(row: Row)
    ensures SourceOf(row).Some? ==> SourceOf(row).value.1 != Some("")
  {
    hide ParseRoleAndParts, FirstText, FirstAnswerBatch, TypeCount;
  }

  /**
   * An inserted marker reads back as the answer of its source: its batch, its id as the
   * resolving event, its time, and its text, cut short only when all of it does not fit.
   */
  lemma InsertReadsBack(log: seq<Row>, key: SourceKey, ownId: int)
    requires MarkerSource(log, key) && 0 < key.sourceId <= I64_MAX
    ensures var ins, row := InsertFor(log, key), RowById(log, key.sourceId).value;
            var answer := SourceOf(row).value.1;
            && ins.executionId == key.executionId && ins.sessionId == key.sessionId
            && ParseParts(ins.payload).Some?
            && var cands := Candidates(ParseParts(ins.payload).value, ownId);
               && |cands| == 1 && cands[0].kind == Answer && cands[0].batchId == key.batchId
               && cands[0].embeddedResolvedEventId == Some(key.sourceId) && cands[0].escalationEventId == None
               && cands[0].resolvedAtRaw == row.createdAt
               && (cands[0].truncated <==>
                     answer.Some? &&
                         Size(MarkerPayload(key.batchId, None, key.sourceId, row.createdAt.value, answer, false))
                         > MARKER_SERIALIZED_CAP_BYTES)
               && (!cands[0].truncated ==> cands[0].answerText == answer)
               && (cands[0].truncated && cands[0].answerText.Some? ==> cands[0].answerText.value < answer.value)
  {
    hide Candidates, ParseParts, MarkerPayload, SourceOf, RowById, Size, Fit;
    var row := RowById(log, key.sourceId).value;
    var createdAt, answer := row.createdAt.value, SourceOf(row).value.1;
    var (text, truncated) := BackfillText(key.batchId, key.sourceId, createdAt, answer);
    MarkerReadsBack(key.batchId, None, key.sourceId, createdAt, text, truncated, ownId);
    SourceTextNonempty(row);
    if answer.Some? {
      WholeAnswerKept(key.batchId, None, key.sourceId, createdAt, answer.value);
      if truncated {
        TruncationKeepsLongest(key.batchId, None, key.sourceId, createdAt, answer.value, 1);
      }
    }
  }

  /** What the first scan establishes about the keys the backfill will cover. */
  ghost predicate Plan(log: seq<Row>, st: PlatformState, keys: seq<SourceKey>) {
    && (forall k :: 0 <= k < |keys| ==> keys[k].sourceId > 0 && keys[k] !in st.existing)
    && (forall j, k :: 0 <= j < k < |keys| ==> keys[j].sourceId < keys[k].sourceId)
    && MarkerSources(log, keys)
    && (forall k :: 0 <= k < |keys| ==>
          ByteLen(InsertFor(log, keys[k]).payload) <= MARKER_SERIALIZED_CAP_BYTES)
  }

  /** A ready key's row is its marker source, and the marker fits. */
  lemma ReadyYieldsInsert(log: seq<Row>, i: nat, key: SourceKey, st: PlatformState)
    requires IdsAscend(log) && i < |log| && log[i].id == key.sourceId && Ready(log[i], key, st)
    ensures MarkerSource(log, key) && key !in st.existing
    ensures ByteLen(InsertFor(log, key).payload) <= MARKER_SERIALIZED_CAP_BYTES
  {
    hide SourceYieldsNoMarker, Representable, SourceOf, BackfillMarker;
    RowByIdUnique(log, i);
    NoMarkerExact(key.batchId, log[i].id, log[i].createdAt.value, SourceOf(log[i]).value.1);
  }

  lemma CollectPlan(log: seq<Row>, sessions: Sessions, cap: nat)
    requires IdsAscend(log) && Collect(log, sessions, cap, true).Ok?
    ensures var st := PlatformScan(START, log, sessions, cap, true).value;
            Plan(log, st, Collect(log, sessions, cap, true).value.uncovered)
  {
    hide PlatformScan, MessageScan, Ready, MarkerSource, InsertFor, ByteLen;
    var st := PlatformScan(START, log, sessions, cap, true).value;
    var keys := Collect(log, sessions, cap, true).value.uncovered;
    UncoveredReady(MessageState([], Stats(0, 0, 0, 0), st.retained), log, st, cap);
    forall k | 0 <= k < |keys|
      ensures MarkerSource(log, keys[k]) && keys[k] !in st.existing
      ensures ByteLen(InsertFor(log, keys[k]).payload) <= MARKER_SERIALIZED_CAP_BYTES
    {
      var i :| 0 <= i < |log| && log[i].id == keys[k].sourceId && Ready(log[i], keys[k], st);
      ReadyYieldsInsert(log, i, keys[k], st);
    }
  }

  // ---- The audit after the backfill ----

  /** The log with the inserted rows appended under fresh, larger ids. */
  ghost predicate Appended(log: seq<Row>, inserts: seq<Insert>, ext: seq<Row>) {
    && |ext| == |log| + |inserts| && ext[..|log|] == log && IdsAscend(ext)
    && (forall k :: 0 <= k < |inserts| ==> InsertedRow(ext[|log| + k], inserts[k]))
    && (forall k :: |log| <= k < |ext| ==> ext[k].kind == Platform)
  }

  predicate InsertedRow(row: Row, ins: Insert) {
    row.kind == Platform && row.executionId == ins.executionId && row.sessionId == Some(ins.sessionId)
    && row.payload == Some(ins.payload)
  }

  lemma {:induction false} PlatformScanConcat(st: PlatformState, a: seq<Row>, b: seq<Row>, sessions: Sessions,
      cap: nat, abort: bool)
    ensures var first := PlatformScan(st, a, sessions, cap, abort);
            PlatformScan(st, a + b, sessions, cap, abort)
            == if first.Err? then first else PlatformScan(first.value, b, sessions, cap, abort)
    decreases |a|
  {
    hide PlatformRow;
    if a == [] {
      assert a + b == b;
    } else {
      assert (a + b)[1..] == a[1..] + b;
      var r := PlatformRow(st, a[0], sessions, cap, abort);
      if r.Ok? {
        PlatformScanConcat(r.value, a[1..], b, sessions, cap, abort);
      }
    }
  }

  /** Tolerating corrupt ids never changes a scan that met none. */
  lemma {:induction false} PlatformScanTolerant(st: PlatformState, rows: seq<Row>, sessions: Sessions, cap: nat)
    requires PlatformScan(st, rows, sessions, cap, true).Ok?
    ensures PlatformScan(st, rows, sessions, cap, false) == PlatformScan(st, rows, sessions, cap, true)
    decreases |rows|
  {
    hide EscalatedBatches, CoverRow, ClaimBatches;
    if rows != [] {
      PlatformScanTolerant(PlatformRow(st, rows[0], sessions, cap, true).value, rows[1..], sessions, cap);
    }
  }

  lemma AddOneKey(st: PlatformState, cand: Candidate, key: SourceKey, cap: nat)
    requires cand.batchId == key.batchId && cand.embeddedResolvedEventId == Some(key.sourceId)
    requires key !in st.existing && st.retained + KeyBytes(key) <= cap
    ensures AddKeys(st, [cand], key.executionId, key.sessionId, cap)
         == Ok(st.(existing := st.existing + {key}, retained := st.retained + KeyBytes(key)))
  {
    hide KeyBytes;
    assert [cand][1..] == [];
  }

  /** A marker row adds the key of the source it resolves, and claims nothing. */
  lemma MarkerRowCovers(st: PlatformState, log: seq<Row>, key: SourceKey, row: Row, sessions: Sessions, cap: nat)
    requires MarkerSource(log, key) && 0 < key.sourceId <= I64_MAX && InsertedRow(row, InsertFor(log, key))
    requires key !in st.existing && st.retained + KeyBytes(key) <= cap
    ensures PlatformRow(st, row, sessions, cap, false)
         == Ok(st.(existing := st.existing + {key}, retained := st.retained + KeyBytes(key)))
  {
    hide Candidates, EscalatedBatches, ParseParts, KeyBytes, BackfillText, MarkerPayload, SourceOf, AddKeys, RowById;
    var src := RowById(log, key.sourceId).value;
    var createdAt, answer := src.createdAt.value, SourceOf(src).value.1;
    var (text, truncated) := BackfillText(key.batchId, key.sourceId, createdAt, answer);
    assert row.payload.value == Serialize(MarkerPayload(key.batchId, None, key.sourceId, createdAt, text, truncated));
    MarkerReadsBack(key.batchId, None, key.sourceId, createdAt, text, truncated, row.id);
    var cand := MarkerCandidate(key.batchId, None, key.sourceId, createdAt, text, truncated, row.id);
    AddOneKey(st, cand, key, cap);
    assert ClaimRow(st, row, sessions, cap, false) == Ok(st);
  }

  function Keyset(keys: seq<SourceKey>): set<SourceKey> {
    set k | k in keys
  }

  lemma KeysetStep(existing: set<SourceKey>, keys: seq<SourceKey>)
    requires keys != []
    ensures existing + {keys[0]} + Keyset(keys[1..]) == existing + Keyset(keys)
  {
    assert keys == [keys[0]] + keys[1..];
  }

  /** Scanning the inserted rows adds exactly the planned keys, byte for byte. */
  lemma {:induction false} MarkerRowsCover(st: PlatformState, log: seq<Row>, keys: seq<SourceKey>, rows: seq<Row>,
                                           sessions: Sessions, cap: nat)
    requires MarkerSources(log, keys) && |rows| == |keys|
    requires forall k :: 0 <= k < |keys| ==>
               0 < keys[k].sourceId <= I64_MAX && keys[k] !in st.existing &&
                   InsertedRow(rows[k], InsertFor(log, keys[k]))
    requires forall j, k :: 0 <= j < k < |keys| ==> keys[j].sourceId < keys[k].sourceId
    requires st.retained + KeysBytes(keys) <= cap
    ensures PlatformScan(st, rows, sessions, cap, false)
         == Ok(st.(existing := st.existing + Keyset(keys), retained := st.retained + KeysBytes(keys)))
    decreases |keys|
  {
    hide PlatformRow, KeyBytes, MarkerSource, InsertedRow, InsertFor;
    if keys == [] {
      assert st.existing + Keyset(keys) == st.existing;
    } else {
      MarkerRowCovers(st, log, keys[0], rows[0], sessions, cap);
      var next := st.(existing := st.existing + {keys[0]}, retained := st.retained + KeyBytes(keys[0]));
      forall k | 0 <= k < |keys[1..]|
        ensures keys[1..][k] !in next.existing && MarkerSource(log, keys[1..][k])
      {
        assert keys[0].sourceId < keys[k + 1].sourceId;
      }
      MarkerRowsCover(next, log, keys[1..], rows[1..], sessions, cap);
      KeysetStep(st.existing, keys);
    }
  }

  /** The statistics an audit reports once every uncovered source is covered. */
  function Covered(ms: MessageState, base: MessageState, st: Stats): Stats
    requires |base.uncovered| <= |ms.uncovered|
    requires base.stats.sourcesSeen <= ms.stats.sourcesSeen
    requires base.stats.alreadyCovered <= ms.stats.alreadyCovered
    requires base.stats.oversizeSkipped <= ms.stats.oversizeSkipped
  {
    Stats(
      st.sourcesSeen + ms.stats.sourcesSeen - base.stats.sourcesSeen,
      st.markersSynthesized,
      st.alreadyCovered + ms.stats.alreadyCovered - base.stats.alreadyCovered + |ms.uncovered| - |base.uncovered|,
      st.oversizeSkipped + ms.stats.oversizeSkipped - base.stats.oversizeSkipped)
  }

  /** Rescanning with every uncovered key covered finds nothing and retains nothing more. */
  lemma {:induction false} RescanFindsNothing(ms: MessageState, again: MessageState, rows: seq<Row>,
                                              st: PlatformState, st': PlatformState, cap: nat)
    requires MessageScan(ms, rows, st, cap, true).Ok?
    requires st'.owners == st.owners && st.existing <= st'.existing
    requires var end := MessageScan(ms, rows, st, cap, true).value.uncovered;
             forall k :: |ms.uncovered| <= k < |end| ==> end[k] in st'.existing
    ensures var end := MessageScan(ms, rows, st, cap, true).value;
            && |ms.uncovered| <= |end.uncovered|
            && ms.stats.sourcesSeen <= end.stats.sourcesSeen
            && ms.stats.alreadyCovered <= end.stats.alreadyCovered
            && ms.stats.oversizeSkipped <= end.stats.oversizeSkipped
            && MessageScan(again, rows, st', cap, false) == Ok(again.(stats := Covered(end, ms, again.stats)))
    decreases |rows|
  {
    hide SourceOf, KeyOf, KeyBytes, Representable, SourceYieldsNoMarker;
    if rows != [] {
      var next := MessageRow(ms, rows[0], st, cap, true).value;
      MessageScanAppends(next, rows[1..], st, cap, true);
      var end := MessageScan(ms, rows, st, cap, true).value.uncovered;
      if next.uncovered != ms.uncovered {
        assert end[|ms.uncovered|] == next.uncovered[|ms.uncovered|];
      }
      var step := MessageRow(again, rows[0], st', cap, false);
      assert step.Ok? && step.value.uncovered == again.uncovered && step.value.retained == again.retained;
      RescanFindsNothing(next, step.value, rows[1..], st, st', cap);
    }
  }

  /** Platform rows contribute nothing to the message phase. */
  lemma {:induction false} PlatformRowsSilent(ms: MessageState, rows: seq<Row>, st: PlatformState, cap: nat)
    requires forall k :: 0 <= k < |rows| ==> rows[k].kind == Platform
    ensures MessageScan(ms, rows, st, cap, false) == Ok(ms)
    decreases |rows|
  {
    if rows != [] {
      PlatformRowsSilent(ms, rows[1..], st, cap);
    }
  }

  lemma {:induction false} MessageScanConcat(ms: MessageState, a: seq<Row>, b: seq<Row>, st: PlatformState, cap: nat,
      abort: bool)
    ensures var first := MessageScan(ms, a, st, cap, abort);
            MessageScan(ms, a + b, st, cap, abort)
            == if first.Err? then first else MessageScan(first.value, b, st, cap, abort)
    decreases |a|
  {
    hide MessageRow;
    if a == [] {
      assert a + b == b;
    } else {
      assert (a + b)[1..] == a[1..] + b;
      var r := MessageRow(ms, a[0], st, cap, abort);
      if r.Ok? {
        MessageScanConcat(r.value, a[1..], b, st, cap, abort);
      }
    }
  }

  lemma {:induction false} AddKeysWithinCap(st: PlatformState, cands: seq<Candidate>, exec: string, session: string,
      cap: nat)
    requires st.retained <= cap && AddKeys(st, cands, exec, session, cap).Ok?
    ensures AddKeys(st, cands, exec, session, cap).value.retained <= cap
    decreases |cands|
  {
    hide KeyBytes;
    if cands != [] {
      var rid := cands[0].embeddedResolvedEventId;
      if rid.Some? && SourceKey(exec, session, cands[0].batchId, rid.value) !in st.existing {
        var key := SourceKey(exec, session, cands[0].batchId, rid.value);
        AddKeysWithinCap(st.(existing := st.existing + {key}, retained := st.retained + KeyBytes(key)),
          cands[1..], exec, session, cap);
      } else {
        AddKeysWithinCap(st, cands[1..], exec, session, cap);
      }
    }
  }

  lemma {:induction false} ClaimsWithinCap(st: PlatformState, batches: seq<string>, owner: Owner, cap: nat)
    requires st.retained <= cap && ClaimBatches(st, batches, owner, cap).Ok?
    ensures ClaimBatches(st, batches, owner, cap).value.retained <= cap
    decreases |batches|
  {
    hide OwnerBytes;
    if batches != [] {
      if batches[0] in st.owners {
        ClaimsWithinCap(st, batches[1..], owner, cap);
      } else {
        ClaimsWithinCap(st.(owners := st.owners[batches[0] := owner],
            retained := st.retained + OwnerBytes(batches[0], owner)),
          batches[1..], owner, cap);
      }
    }
  }

  lemma {:induction false} PlatformWithinCap(st: PlatformState, rows: seq<Row>, sessions: Sessions, cap: nat,
      abort: bool)
    requires st.retained <= cap && PlatformScan(st, rows, sessions, cap, abort).Ok?
    ensures PlatformScan(st, rows, sessions, cap, abort).value.retained <= cap
    decreases |rows|
  {
    hide EscalatedBatches, ParseParts, Candidates, ClaimBatches, AddKeys;
    if rows != [] {
      var row := rows[0];
      var next := PlatformRow(st, row, sessions, cap, abort).value;
      if row.kind == Platform && row.payload.Some? {
        var claimed := ClaimRow(st, row, sessions, cap, abort).value;
        if Coherent(row, sessions) {
          ClaimsWithinCap(st, EscalatedBatches(row.payload.value), Owner(row.executionId, row.sessionId.value), cap);
        }
        if row.sessionId.Some? && ParseParts(row.payload.value).Some? {
          AddKeysWithinCap(claimed, Candidates(ParseParts(row.payload.value).value, row.id),
            row.executionId, row.sessionId.value, cap);
        }
      }
      PlatformWithinCap(next, rows[1..], sessions, cap, abort);
    }
  }

  /**
   * The fixed point. Once the backfill's markers are in the log, the audit under the
   * same cap does not abort and finds no uncovered source; it sees the same sources,
   * every formerly uncovered one is now covered, and it retains exactly the bytes
   * the backfill's own scan retained.
   */
  lemma AuditFindsNothing(log: seq<Row>, sessions: Sessions, cap: nat, ext: seq<Row>)
    requires IdsAscend(log) && (forall i :: 0 <= i < |log| ==> log[i].id <= I64_MAX)
    requires Collect(log, sessions, cap, true).Ok?
    requires var keys := Collect(log, sessions, cap, true).value.uncovered;
             MarkerSources(log, keys) && Appended(log, InsertsFor(log, keys), ext)
    ensures var first := Collect(log, sessions, cap, true).value;
            Collect(ext, sessions, cap, false)
            == Ok(MessageState([], first.stats.(alreadyCovered := first.stats.alreadyCovered + |first.uncovered|),
                first.retained))
    ensures PlatformScan(START, ext, sessions, cap, false).Ok?
    ensures PlatformScan(START, ext, sessions, cap, false).value.owners
         == PlatformScan(START, log, sessions, cap, true).value.owners
  {
    hide PlatformScan, MessageScan, MarkerSource, InsertFor, ByteLen, InsertedRow;
    var st := PlatformScan(START, log, sessions, cap, true).value;
    var begin := MessageState([], Stats(0, 0, 0, 0), st.retained);
    var first := MessageScan(begin, log, st, cap, true).value;
    var keys := first.uncovered;
    CollectPlan(log, sessions, cap);
    FirstScanWithinCap(log, sessions, cap);
    KeysWithinI64(log, keys);
    AuditPlatform(log, sessions, cap, st, keys, ext);
    var st' := st.(existing := st.existing + Keyset(keys), retained := st.retained + KeysBytes(keys));
    AuditMessages(log, cap, st, st', ext);
  }

  lemma FirstScanWithinCap(log: seq<Row>, sessions: Sessions, cap: nat)
    requires Collect(log, sessions, cap, true).Ok?
    ensures var st := PlatformScan(START, log, sessions, cap, true).value;
            var first := Collect(log, sessions, cap, true).value;
            st.retained + KeysBytes(first.uncovered) == first.retained <= cap
  {
    hide PlatformScan, MessageScan;
    var st := PlatformScan(START, log, sessions, cap, true).value;
    PlatformWithinCap(START, log, sessions, cap, true);
    MessageScanAppends(MessageState([], Stats(0, 0, 0, 0), st.retained), log, st, cap, true);
  }

  /** The audit's platform phase ends with the backfill's keys covered. */
  lemma AuditPlatform(log: seq<Row>, sessions: Sessions, cap: nat, st: PlatformState, keys: seq<SourceKey>,
      ext: seq<Row>)
    requires PlatformScan(START, log, sessions, cap, true) == Ok(st) && Plan(log, st, keys)
    requires forall k :: 0 <= k < |keys| ==> keys[k].sourceId <= I64_MAX
    requires st.retained + KeysBytes(keys) <= cap && Appended(log, InsertsFor(log, keys), ext)
    ensures PlatformScan(START, ext, sessions, cap, false)
         == Ok(st.(existing := st.existing + Keyset(keys), retained := st.retained + KeysBytes(keys)))
  {
    hide PlatformScan, MarkerSource, InsertFor, ByteLen, InsertedRow;
    var added := ext[|log|..];
    assert ext == log + added;
    PlatformScanTolerant(START, log, sessions, cap);
    PlatformScanConcat(START, log, added, sessions, cap, false);
    forall k | 0 <= k < |keys| ensures InsertedRow(added[k], InsertFor(log, keys[k])) {
      assert InsertsFor(log, keys)[k] == InsertFor(log, keys[k]);
      assert added[k] == ext[|log| + k];
    }
    MarkerRowsCover(st, log, keys, added, sessions, cap);
  }

  lemma KeysetHolds(keys: seq<SourceKey>)
    ensures forall k :: 0 <= k < |keys| ==> keys[k] in Keyset(keys)
  {
  }

  /** The tally of a rescan that finds everything covered. */
  lemma RescanTally(begin: MessageState, first: MessageState, again: MessageState)
    requires begin.stats == again.stats == Stats(0, 0, 0, 0) && begin.uncovered == []
    requires first.stats.markersSynthesized == 0
    ensures Covered(first, begin, again.stats)
         == first.stats.(alreadyCovered := first.stats.alreadyCovered + |first.uncovered|)
  {
  }

  /** The audit's message phase finds every source covered. */
  lemma AuditMessages(log: seq<Row>, cap: nat, st: PlatformState, st': PlatformState, ext: seq<Row>)
    requires var begin := MessageState([], Stats(0, 0, 0, 0), st.retained);
             && MessageScan(begin, log, st, cap, true).Ok?
             && var keys := MessageScan(begin, log, st, cap, true).value.uncovered;
                st'.existing == st.existing + Keyset(keys) && st'.owners == st.owners
    requires |log| <= |ext| && ext[..|log|] == log && forall k :: |log| <= k < |ext| ==> ext[k].kind == Platform
    ensures var first := MessageScan(MessageState([], Stats(0, 0, 0, 0), st.retained), log, st, cap, true).value;
            MessageScan(MessageState([], Stats(0, 0, 0, 0), st'.retained), ext, st', cap, false)
            == Ok(MessageState([], first.stats.(alreadyCovered := first.stats.alreadyCovered + |first.uncovered|),
                st'.retained))
  {
    hide MessageScan, Keyset, Covered;
    var begin := MessageState([], Stats(0, 0, 0, 0), st.retained);
    var again := MessageState([], Stats(0, 0, 0, 0), st'.retained);
    var first := MessageScan(begin, log, st, cap, true).value;
    KeysetHolds(first.uncovered);
    var added := ext[|log|..];
    assert ext == log + added;
    RescanFindsNothing(begin, again, log, st, st', cap);
    MessageScanConcat(again, log, added, st', cap, false);
    PlatformRowsSilent(again.(stats := Covered(first, begin, again.stats)), added, st', cap);
    SynthesizedStays(begin, log, st, cap, true);
    RescanTally(begin, first, again);
  }

  lemma {:induction false} SynthesizedStays(ms: MessageState, rows: seq<Row>, st: PlatformState, cap: nat, abort: bool)
    requires MessageScan(ms, rows, st, cap, abort).Ok?
    ensures var end := MessageScan(ms, rows, st, cap, abort).value;
            && end.stats.markersSynthesized == ms.stats.markersSynthesized
            && end.stats.sourcesSeen + |ms.uncovered| + ms.stats.alreadyCovered + ms.stats.oversizeSkipped
               == ms.stats.sourcesSeen + |end.uncovered| + end.stats.alreadyCovered + end.stats.oversizeSkipped
    decreases |rows|
  {
    hide SourceOf, KeyOf, KeyBytes, Representable, SourceYieldsNoMarker;
    if rows != [] {
      SynthesizedStays(MessageRow(ms, rows[0], st, cap, abort).value, rows[1..], st, cap, abort);
    }
  }

  lemma KeysWithinI64(log: seq<Row>, keys: seq<SourceKey>)
    requires MarkerSources(log, keys) && forall i :: 0 <= i < |log| ==> log[i].id <= I64_MAX
    ensures forall k :: 0 <= k < |keys| ==> keys[k].sourceId <= I64_MAX
  {
    forall k | 0 <= k < |keys| ensures keys[k].sourceId <= I64_MAX {
      assert MarkerSource(log, keys[k]);
    }
  }

  // ---- Reading in chunks, inserting in batches ----

  function PayloadLen(log: seq<Row>, key: SourceKey): nat {
    var row := RowById(log, key.sourceId);
    if row.Some? && row.value.payload.Some? then ByteLen(row.value.payload.value) else 0
  }

  function ChunkLen(log: seq<Row>, keys: seq<SourceKey>, i: nat, j: nat): nat
    requires i <= j <= |keys|
    decreases j - i
  {
    if i == j then 0 else ChunkLen(log, keys, i, j - 1) + PayloadLen(log, keys[j - 1])
  }

  /**
   * The end of the read chunk starting at `i`: it makes progress, stays within the
   * row and byte limits unless it is a single row, and stops only at one of them.
   */
  method PlanChunk(log: seq<Row>, keys: seq<SourceKey>, i: nat) returns (chunkEnd: nat)
    requires i < |keys|
    ensures i < chunkEnd <= Min(i + READ_CHUNK_ROWS, |keys|)
    ensures chunkEnd == i + 1 || ChunkLen(log, keys, i, chunkEnd) <= READ_CHUNK_BYTES
    ensures chunkEnd == Min(i + READ_CHUNK_ROWS, |keys|) || ChunkLen(log, keys, i, chunkEnd + 1) > READ_CHUNK_BYTES
  {
    hide PayloadLen;
    var windowEnd := Min(i + READ_CHUNK_ROWS, |keys|);
    chunkEnd := i;
    var chunkBytes := 0;
    while chunkEnd < windowEnd
      invariant i <= chunkEnd <= windowEnd
      invariant chunkBytes == ChunkLen(log, keys, i, chunkEnd)
      invariant chunkEnd <= i + 1 || chunkBytes <= READ_CHUNK_BYTES
    {
      var l := PayloadLen(log, keys[chunkEnd]);
      if chunkEnd > i && chunkBytes + l > READ_CHUNK_BYTES {
        break;
      }
      chunkBytes := chunkBytes + l;
      chunkEnd := chunkEnd + 1;
    }
  }

  predicate FlushBeforePush(bufLen: nat, bufBytes: nat, markerLen: nat) {
    bufLen > 0 && bufBytes + markerLen > INSERT_CHUNK_BYTES
  }

  function BatchBytes(batch: seq<Insert>): nat {
    if batch == [] then 0 else BatchBytes(batch[..|batch| - 1]) + ByteLen(batch[|batch| - 1].payload)
  }

  lemma BatchBytesSnoc(batch: seq<Insert>, ins: Insert)
    ensures BatchBytes(batch + [ins]) == BatchBytes(batch) + ByteLen(ins.payload)
  {
    assert (batch + [ins])[..|batch|] == batch;
  }

  /** Every multi-row insert holds between one and 200 rows and at most 4 MiB. */
  predicate BatchesBounded(batches: seq<seq<Insert>>) {
    forall b :: 0 <= b < |batches| ==>
      1 <= |batches[b]| <= INSERT_CHUNK_ROWS && BatchBytes(batches[b]) <= INSERT_CHUNK_BYTES
  }

  /** A buffer that has not yet reached a flush threshold. */
  predicate BufferOpen(buf: seq<Insert>) {
    |buf| < INSERT_CHUNK_ROWS && BatchBytes(buf) < INSERT_CHUNK_BYTES
  }

  /** Buffer one marker, flushing before or after it as the limits demand. */
  method PushMarker(batches0: seq<seq<Insert>>, buf0: seq<Insert>, bytes0: nat, ins: Insert)
      returns (batches: seq<seq<Insert>>, buf: seq<Insert>, bytes: nat)
    requires BatchesBounded(batches0) && BufferOpen(buf0) && bytes0 == BatchBytes(buf0)
    requires ByteLen(ins.payload) <= MARKER_SERIALIZED_CAP_BYTES
    ensures BatchesBounded(batches) && BufferOpen(buf) && bytes == BatchBytes(buf)
    ensures Flatten(batches) + buf == Flatten(batches0) + buf0 + [ins]
  {
    hide ByteLen;
    batches, buf, bytes := batches0, buf0, bytes0;
    var len := ByteLen(ins.payload);
    if FlushBeforePush(|buf|, bytes, len) {
      FlattenSnoc(batches, buf);
      batches, buf, bytes := batches + [buf], [], 0;
    }
    assert Flatten(batches) + buf == Flatten(batches0) + buf0;
    BatchBytesSnoc(buf, ins);
    assert Flatten(batches) + (buf + [ins]) == Flatten(batches) + buf + [ins];
    bytes, buf := bytes + len, buf + [ins];
    if |buf| >= INSERT_CHUNK_ROWS || bytes >= INSERT_CHUNK_BYTES {
      FlattenSnoc(batches, buf);
      batches, buf, bytes := batches + [buf], [], 0;
    }
  }

  /** Build the marker of one source from its re-read row. */
  method BuildMarker(log: seq<Row>, key: SourceKey) returns (ins: Insert)
    requires MarkerSource(log, key)
    ensures ins == InsertFor(log, key)
  {
    hide RowById, SourceOf, Fit;
    var row := RowById(log, key.sourceId).value;
    var answer := SourceOf(row).value.1;
    var text: Option<string>, truncated := None, false;
    if answer.Some? {
      text, truncated := FitAnswerText(key.batchId, None, key.sourceId, row.createdAt.value, answer.value);
    }
    var marker := MarkerPayload(key.batchId, None, key.sourceId, row.createdAt.value, text, truncated);
    ins := Insert(key.executionId, key.sessionId, Serialize(marker));
  }

  lemma UncoveredSorted(log: seq<Row>, st: PlatformState, keys: seq<SourceKey>)
    requires Plan(log, st, keys)
    ensures SortBy(keys, KeyId) == keys
  {
    hide MarkerSource, InsertFor, ByteLen;
    SortBySorted(keys, KeyId);
  }

  /**
   * The backfill. On success the insert batches, concatenated, are the markers of
   * the uncovered sources in ascending source order, each once; every batch is
   * bounded; every source seen is synthesized, already covered or oversize.
   */
  method RunBackfill(log: seq<Row>, sessions: Sessions, cap: nat)
      returns (r: Result<Stats, Abort>, batches: seq<seq<Insert>>)
    requires IdsAscend(log)
    ensures r.Err? <==> Collect(log, sessions, cap, true).Err?
    ensures r.Ok? ==>
              var keys := Collect(log, sessions, cap, true).value.uncovered;
              && MarkerSources(log, keys)
              && Flatten(batches) == InsertsFor(log, keys)
              && BatchesBounded(batches)
              && r.value == Collect(log, sessions, cap, true).value.stats.(markersSynthesized := |keys|)
              && r.value.sourcesSeen == r.value.markersSynthesized + r.value.alreadyCovered + r.value.oversizeSkipped
  {
    hide PlatformScan, MessageScan, MarkerSource, InsertFor, ByteLen, BatchesBounded, BufferOpen, BatchBytes,
        ChunkLen, Flatten, FindsAll;
    batches := [];
    var scan := CollectUncoveredSources(log, sessions, cap, true);
    if scan.Err? {
      return Err(scan.error), [];
    }
    CollectPlan(log, sessions, cap);
    CollectTally(log, sessions, cap);
    ghost var st := PlatformScan(START, log, sessions, cap, true).value;
    var stats := scan.value.stats;
    var uncovered := SortBy(scan.value.uncovered, KeyId);
    UncoveredSorted(log, st, scan.value.uncovered);
    var buf: seq<Insert>, bytes := [], 0;
    NothingBuffered();
    var i := 0;
    while i < |uncovered|
      invariant 0 <= i <= |uncovered|
      invariant BatchesBounded(batches) && BufferOpen(buf) && bytes == BatchBytes(buf)
      invariant Flatten(batches) + buf == InsertsFor(log, uncovered[..i])
      invariant stats == scan.value.stats.(markersSynthesized := i)
    {
      var chunkEnd := PlanChunk(log, uncovered, i);
      for k := i to chunkEnd
        invariant BatchesBounded(batches) && BufferOpen(buf) && bytes == BatchBytes(buf)
        invariant Flatten(batches) + buf == InsertsFor(log, uncovered[..k])
        invariant stats == scan.value.stats.(markersSynthesized := k)
      {
        var ins := BuildMarker(log, uncovered[k]);
        InsertsForNext(log, uncovered, k);
        batches, buf, bytes := PushMarker(batches, buf, bytes, ins);
        stats := stats.(markersSynthesized := stats.markersSynthesized + 1);
      }
      i := chunkEnd;
    }
    assert uncovered[..|uncovered|] == uncovered;
    FinalFlush(batches, buf);
    if buf != [] {
      batches := batches + [buf];
    }
    r := Ok(stats);
  }

  lemma NothingBuffered()
    ensures BatchesBounded([]) && BufferOpen([]) && BatchBytes([]) == 0 && Flatten<Insert>([]) == []
  {
  }

  lemma InsertsForNext(log: seq<Row>, keys: seq<SourceKey>, k: nat)
    requires k < |keys| && MarkerSources(log, keys)
    ensures InsertsFor(log, keys[..k + 1]) == InsertsFor(log, keys[..k]) + [InsertFor(log, keys[k])]
  {
    hide InsertFor, MarkerSource;
  }

  lemma FinalFlush(batches: seq<seq<Insert>>, buf: seq<Insert>)
    requires BatchesBounded(batches) && BufferOpen(buf)
    ensures buf == [] ==> Flatten(batches) + buf == Flatten(batches)
    ensures buf != [] ==> Flatten(batches + [buf]) == Flatten(batches) + buf && BatchesBounded(batches + [buf])
  {
    hide BatchBytes;
    FlattenSnoc(batches, buf);
  }

  /** Every source the scan sees is uncovered, covered or oversize. */
  lemma CollectTally(log: seq<Row>, sessions: Sessions, cap: nat)
    requires Collect(log, sessions, cap, true).Ok?
    ensures var first := Collect(log, sessions, cap, true).value;
            && first.stats.markersSynthesized == 0
            && first.stats.sourcesSeen == |first.uncovered| + first.stats.alreadyCovered + first.stats.oversizeSkipped
  {
    hide PlatformScan, MessageScan;
    var st := PlatformScan(START, log, sessions, cap, true).value;
    SynthesizedStays(MessageState([], Stats(0, 0, 0, 0), st.retained), log, st, cap, true);
  }

  /**
   * Migration followed by audit: with the issued batches appended to the log under
   * fresh ids, the audit reports no orphan.
   */
  method MigrateThenAudit(log: seq<Row>, sessions: Sessions, cap: nat, ext: seq<Row>)
      returns (r: Result<Stats, Abort>, batches: seq<seq<Insert>>, audit: Result<MessageState, Abort>)
    requires IdsAscend(log) && (forall i :: 0 <= i < |log| ==> log[i].id <= I64_MAX)
    ensures r.Ok? && Appended(log, Flatten(batches), ext) ==>
              && audit.Ok? && audit.value.uncovered == []
              && audit.value.stats == Stats(r.value.sourcesSeen, 0,
                   r.value.alreadyCovered + r.value.markersSynthesized, r.value.oversizeSkipped)
  {
    hide PlatformScan, MessageScan, MarkerSource, InsertFor, IdsAscend, Flatten, BatchesBounded;
    r, batches := RunBackfill(log, sessions, cap);
    audit := CollectUncoveredSources(ext, sessions, cap, false);
    if r.Ok? && Appended(log, Flatten(batches), ext) {
      CollectTally(log, sessions, cap);
      AuditFindsNothing(log, sessions, cap, ext);
    }
  }
}
