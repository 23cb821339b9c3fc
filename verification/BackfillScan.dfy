/**
 * The scan behind the marker backfill and its audit: who owns each batch, which answer
 * sources a marker covers already, and which are left.
 */
module BackfillScan {
  import opened Prelude
  import opened Text
  import opened Json
  import opened JsonParser
  import opened Markers
  import opened EventLog
  import LikePattern

  const PER_ENTRY_OVERHEAD: nat := 64

  /** What a marker must agree with to cover a source: the batch's owner, the batch, and the row answered. */
  datatype SourceKey = SourceKey(executionId: string, sessionId: string, batchId: string, sourceId: int)

  datatype Owner = Owner(executionId: string, sessionId: string)

  datatype Stats = Stats(sourcesSeen: nat, markersSynthesized: nat, alreadyCovered: nat, oversizeSkipped: nat)

  datatype Abort = CapExceeded | NonPositiveId(id: int) | UnformattableCreatedAt(id: int)

  function KeyBytes(k: SourceKey): nat {
    ByteLen(k.executionId) + ByteLen(k.sessionId) + ByteLen(k.batchId) + 8 + PER_ENTRY_OVERHEAD
  }

  function OwnerBytes(batchId: string, owner: Owner): nat {
    ByteLen(batchId) + ByteLen(owner.executionId) + ByteLen(owner.sessionId) + PER_ENTRY_OVERHEAD
  }

  function KeysBytes(keys: seq<SourceKey>): nat {
    if keys == [] then 0 else KeyBytes(keys[0]) + KeysBytes(keys[1..])
  }

  // ---- The platform phase ----

  datatype PlatformState = PlatformState(owners: map<string, Owner>, existing: set<SourceKey>, retained: nat)

  const START: PlatformState := PlatformState(map[], {}, 0)

  /** The first escalation of a batch fixes its owner. */
  function ClaimBatches(st: PlatformState, batches: seq<string>, owner: Owner, cap: nat): Result<PlatformState, Abort>
    decreases |batches|
  {
    if batches == [] then Ok(st)
    else if batches[0] in st.owners then ClaimBatches(st, batches[1..], owner, cap)
    else
      var retained := st.retained + OwnerBytes(batches[0], owner);
      if retained > cap then Err(CapExceeded)
      else ClaimBatches(st.(owners := st.owners[batches[0] := owner], retained := retained), batches[1..], owner, cap)
  }

  /** Every marker naming the source it resolves covers that source. */
  function AddKeys(st: PlatformState, cands: seq<Candidate>, executionId: string, sessionId: string, cap: nat)
    : Result<PlatformState, Abort>
    decreases |cands|
  {
    if cands == [] then Ok(st)
    else if cands[0].embeddedResolvedEventId.None? then AddKeys(st, cands[1..], executionId, sessionId, cap)
    else
      var key := SourceKey(executionId, sessionId, cands[0].batchId, cands[0].embeddedResolvedEventId.value);
      if key in st.existing then AddKeys(st, cands[1..], executionId, sessionId, cap)
      else if st.retained + KeyBytes(key) > cap then Err(CapExceeded)
      else AddKeys(st.(existing := st.existing + {key}, retained := st.retained + KeyBytes(key)),
                   cands[1..], executionId, sessionId, cap)
  }

  function ClaimRow(st: PlatformState, row: Row, sessions: Sessions, cap: nat, abortNonPositive: bool)
    : Result<PlatformState, Abort>
    requires row.payload.Some?
  {
    if !Coherent(row, sessions) then Ok(st)
    else
      var batches := EscalatedBatches(row.payload.value);
      if abortNonPositive && batches != [] && row.id <= 0 then Err(NonPositiveId(row.id))
      else ClaimBatches(st, batches, Owner(row.executionId, row.sessionId.value), cap)
  }

  function CoverRow(st: PlatformState, row: Row, cap: nat): Result<PlatformState, Abort>
    requires row.payload.Some?
  {
    var parts := ParseParts(row.payload.value);
    if row.sessionId.None? || parts.None? then Ok(st)
    else AddKeys(st, Candidates(parts.value, row.id), row.executionId, row.sessionId.value, cap)
  }

  function PlatformRow(st: PlatformState, row: Row, sessions: Sessions, cap: nat, abortNonPositive: bool)
    : Result<PlatformState, Abort>
  {
    if row.kind != Platform || row.payload.None? then Ok(st)
    else
      var claimed := ClaimRow(st, row, sessions, cap, abortNonPositive);
      if claimed.Err? then claimed else CoverRow(claimed.value, row, cap)
  }

  function PlatformScan(st: PlatformState, rows: seq<Row>, sessions: Sessions, cap: nat, abortNonPositive: bool)
    : Result<PlatformState, Abort>
    decreases |rows|
  {
    if rows == [] then Ok(st)
    else
      var r := PlatformRow(st, rows[0], sessions, cap, abortNonPositive);
      if r.Err? then r else PlatformScan(r.value, rows[1..], sessions, cap, abortNonPositive)
  }

  // ---- The message phase ----

  datatype MessageState = MessageState(uncovered: seq<SourceKey>, stats: Stats, retained: nat)

  /** The batch and answer of an eligible answer source. */
  function SourceOf(row: Row): Option<(string, Option<string>)> {
    if row.kind != Message || !row.mentionsAnswer || row.payload.None? then None
    else
      var parsed := ParseRoleAndParts(row.payload.value);
      if parsed.None? then None else AnswerSource(parsed.value.0, parsed.value.1)
  }

  /** The SQL filter on the message lane hides no answer source among stored values. */
  lemma FilterMissesNoSource(row: Row, v: Json)
    requires row.kind == Message && row.payload == Some(Serialize(v)) && WellFormed(v)
    requires row.mentionsAnswer == LikePattern.Like(LikePattern.ANSWER_FILTER, row.payload.value)
    ensures SourceOf(row) == SourceOf(row.(mentionsAnswer := true))
  {
    hide WellFormed, Parse, PartsDomainValid, TypeCount;
    RoundTrip(v);
    var parsed := ParseRoleAndParts(row.payload.value);
    if parsed.Some? && AnswerSource(parsed.value.0, parsed.value.1).Some? {
      LikePattern.FilterPassesAnswers(v, parsed.value.1);
    }
  }

  /** The key of an owned source. */
  function KeyOf(row: Row, owners: map<string, Owner>): Option<SourceKey> {
    var source := SourceOf(row);
    if source.None? || source.value.0 !in owners then None
    else
      var owner := owners[source.value.0];
      Some(SourceKey(owner.executionId, owner.sessionId, source.value.0, row.id))
  }

  function MessageRow(ms: MessageState, row: Row, st: PlatformState, cap: nat, abortNonPositive: bool)
    : Result<MessageState, Abort>
  {
    var key := KeyOf(row, st.owners);
    if key.None? then Ok(ms)
    else if abortNonPositive && row.id <= 0 then Err(NonPositiveId(row.id))
    else
      var seen := ms.stats.(sourcesSeen := ms.stats.sourcesSeen + 1);
      if SourceYieldsNoMarker(key.value.batchId, row.id, SourceOf(row).value.1) then
        Ok(ms.(stats := seen.(oversizeSkipped := seen.oversizeSkipped + 1)))
      else if key.value in st.existing then
        Ok(ms.(stats := seen.(alreadyCovered := seen.alreadyCovered + 1)))
      else if ms.retained + KeyBytes(key.value) > cap then Err(CapExceeded)
      else if row.createdAt.None? || !Representable(row.createdAt.value) then Err(UnformattableCreatedAt(row.id))
      else Ok(MessageState(ms.uncovered + [key.value], seen, ms.retained + KeyBytes(key.value)))
  }

  function MessageScan(ms: MessageState, rows: seq<Row>, st: PlatformState, cap: nat, abortNonPositive: bool)
    : Result<MessageState, Abort>
    decreases |rows|
  {
    if rows == [] then Ok(ms)
    else
      var r := MessageRow(ms, rows[0], st, cap, abortNonPositive);
      if r.Err? then r else MessageScan(r.value, rows[1..], st, cap, abortNonPositive)
  }

  /** The answer sources that no marker covers, in id order, and the counts of the scan. */
  function Collect(log: seq<Row>, sessions: Sessions, cap: nat, abortNonPositive: bool): Result<MessageState, Abort> {
    var st := PlatformScan(START, log, sessions, cap, abortNonPositive);
    if st.Err? then Err(st.error)
    else MessageScan(MessageState([], Stats(0, 0, 0, 0), st.value.retained), log, st.value, cap, abortNonPositive)
  }

  // ---- What the scan finds, read off the log ----

  /** A platform row that escalates a batch, in a session of its own execution. */
  predicate Escalates(row: Row, sessions: Sessions, batchId: string) {
    && row.kind == Platform && row.payload.Some? && Coherent(row, sessions)
    && batchId in EscalatedBatches(row.payload.value)
  }

  /** The execution and session of the first row that escalates a batch. */
  function FirstOwner(log: seq<Row>, sessions: Sessions, batchId: string): Option<Owner> {
    if log == [] then None
    else if Escalates(log[0], sessions, batchId) then Some(Owner(log[0].executionId, log[0].sessionId.value))
    else FirstOwner(log[1..], sessions, batchId)
  }

  /** A platform row with a marker that names the source a key stands for. */
  predicate Marks(row: Row, key: SourceKey) {
    && row.kind == Platform && row.payload.Some? && row.sessionId.Some? && ParseParts(row.payload.value).Some?
    && row.executionId == key.executionId && row.sessionId.value == key.sessionId
    && exists c :: c in Candidates(ParseParts(row.payload.value).value, row.id)
                   && c.batchId == key.batchId && c.embeddedResolvedEventId == Some(key.sourceId)
  }

  predicate Marked(log: seq<Row>, key: SourceKey) {
    exists row :: row in log && Marks(row, key)
  }

  /** The key of a row that answers an escalated batch. */
  function SourceKeyOf(log: seq<Row>, sessions: Sessions, row: Row): Option<SourceKey> {
    var source := SourceOf(row);
    if source.None? then None else
    var owner := FirstOwner(log, sessions, source.value.0);
    if owner.None? then None
    else Some(SourceKey(owner.value.executionId, owner.value.sessionId, source.value.0, row.id))
  }

  predicate Oversize(row: Row, key: SourceKey) {
    SourceOf(row).Some? && SourceYieldsNoMarker(key.batchId, row.id, SourceOf(row).value.1)
  }

  /** An answer source that fits a marker and has none. */
  predicate Unmarked(log: seq<Row>, sessions: Sessions, row: Row, key: SourceKey) {
    SourceKeyOf(log, sessions, row) == Some(key) && !Oversize(row, key) && !Marked(log, key)
  }

  /** How many rows answer an escalated batch. */
  function SourceCount(log: seq<Row>, sessions: Sessions, rows: seq<Row>): nat {
    if rows == [] then 0
    else (if SourceKeyOf(log, sessions, rows[0]).Some? then 1 else 0) + SourceCount(log, sessions, rows[1..])
  }

  /** How many of them no marker could hold. */
  function OversizeCount(log: seq<Row>, sessions: Sessions, rows: seq<Row>): nat {
    if rows == [] then 0
    else
      var key := SourceKeyOf(log, sessions, rows[0]);
      (if key.Some? && Oversize(rows[0], key.value) then 1 else 0) + OversizeCount(log, sessions, rows[1..])
  }

  /** How many of the others have a marker. */
  function MarkedCount(log: seq<Row>, sessions: Sessions, rows: seq<Row>): nat {
    if rows == [] then 0
    else
      var key := SourceKeyOf(log, sessions, rows[0]);
      (if key.Some? && !Oversize(rows[0], key.value) && Marked(log, key.value) then 1 else 0)
        + MarkedCount(log, sessions, rows[1..])
  }

  /** What a scan of the log found is all there is: every unmarked source, every source counted. */
  ghost predicate FindsAll(log: seq<Row>, sessions: Sessions, found: MessageState) {
    && (forall key :: key in found.uncovered <==> exists row :: row in log && Unmarked(log, sessions, row, key))
    && found.stats.sourcesSeen == SourceCount(log, sessions, log)
    && found.stats.oversizeSkipped == OversizeCount(log, sessions, log)
    && found.stats.alreadyCovered == MarkedCount(log, sessions, log)
  }

  // ---- The platform phase claims first owners and collects every marker ----

  lemma {:induction false} ClaimsOwners(st: PlatformState, batches: seq<string>, owner: Owner, cap: nat, b: string)
    requires ClaimBatches(st, batches, owner, cap).Ok?
    ensures var owners := ClaimBatches(st, batches, owner, cap).value.owners;
            && (b in st.owners ==> b in owners && owners[b] == st.owners[b])
            && (b !in st.owners ==> (b in owners <==> b in batches) && (b in owners ==> owners[b] == owner))
    ensures ClaimBatches(st, batches, owner, cap).value.existing == st.existing
    decreases |batches|
  {
    hide OwnerBytes;
    if batches != [] {
      if batches[0] in st.owners {
        ClaimsOwners(st, batches[1..], owner, cap, b);
      } else {
        var retained := st.retained + OwnerBytes(batches[0], owner);
        ClaimsOwners(st.(owners := st.owners[batches[0] := owner], retained := retained), batches[1..], owner, cap, b);
      }
      assert b in batches <==> b == batches[0] || b in batches[1..];
    }
  }

  lemma {:induction false} AddsKeys(st: PlatformState, cands: seq<Candidate>, exec: string, session: string, cap: nat,
                                    key: SourceKey)
    requires AddKeys(st, cands, exec, session, cap).Ok?
    ensures AddKeys(st, cands, exec, session, cap).value.owners == st.owners
    ensures key in AddKeys(st, cands, exec, session, cap).value.existing <==>
              || key in st.existing
              || (key.executionId == exec && key.sessionId == session
                  && exists c :: c in cands && c.batchId == key.batchId
                                 && c.embeddedResolvedEventId == Some(key.sourceId))
    decreases |cands|
  {
    hide KeyBytes;
    if cands != [] {
      var c, rest := cands[0], cands[1..];
      assert forall d :: d in cands <==> d == c || d in rest;
      if c.embeddedResolvedEventId.None? {
        AddsKeys(st, rest, exec, session, cap, key);
      } else {
        var k := SourceKey(exec, session, c.batchId, c.embeddedResolvedEventId.value);
        if k in st.existing {
          AddsKeys(st, rest, exec, session, cap, key);
        } else {
          AddsKeys(st.(existing := st.existing + {k}, retained := st.retained + KeyBytes(k)), rest, exec, session, cap,
            key);
        }
      }
    }
  }

  /** One platform row claims a batch for its own session only if nobody has it yet. */
  lemma RowOwners(st: PlatformState, row: Row, sessions: Sessions, cap: nat, abort: bool, b: string)
    requires PlatformRow(st, row, sessions, cap, abort).Ok?
    ensures var owners := PlatformRow(st, row, sessions, cap, abort).value.owners;
            && (b in st.owners ==> b in owners && owners[b] == st.owners[b])
            && (b !in st.owners ==>
                  && (b in owners <==> Escalates(row, sessions, b))
                  && (b in owners ==> owners[b] == Owner(row.executionId, row.sessionId.value)))
  {
    hide EscalatedBatches, ParseParts, Candidates, ClaimBatches, AddKeys;
    if row.kind == Platform && row.payload.Some? {
      var claimed := ClaimRow(st, row, sessions, cap, abort);
      if Coherent(row, sessions) {
        ClaimsOwners(st, EscalatedBatches(row.payload.value), Owner(row.executionId, row.sessionId.value), cap, b);
      }
      var parts := ParseParts(row.payload.value);
      if row.sessionId.Some? && parts.Some? {
        AddsKeys(claimed.value, Candidates(parts.value, row.id), row.executionId, row.sessionId.value, cap,
          SourceKey("", "", b, 0));
      }
    }
  }

  lemma RowMarks(st: PlatformState, row: Row, sessions: Sessions, cap: nat, abort: bool, key: SourceKey)
    requires PlatformRow(st, row, sessions, cap, abort).Ok?
    ensures key in PlatformRow(st, row, sessions, cap, abort).value.existing <==> key in st.existing || Marks(row, key)
  {
    hide EscalatedBatches, ParseParts, Candidates, ClaimBatches, AddKeys;
    if row.kind == Platform && row.payload.Some? {
      var claimed := ClaimRow(st, row, sessions, cap, abort);
      if Coherent(row, sessions) {
        ClaimsOwners(st, EscalatedBatches(row.payload.value), Owner(row.executionId, row.sessionId.value), cap, "");
      }
      var parts := ParseParts(row.payload.value);
      if row.sessionId.Some? && parts.Some? {
        AddsKeys(claimed.value, Candidates(parts.value, row.id), row.executionId, row.sessionId.value, cap, key);
      }
    }
  }

  /** The owners after the platform phase are the first owners. */
  lemma {:induction false} ScanOwners(st: PlatformState, rows: seq<Row>, sessions: Sessions, cap: nat, abort: bool,
                                      b: string)
    requires PlatformScan(st, rows, sessions, cap, abort).Ok?
    ensures var owners := PlatformScan(st, rows, sessions, cap, abort).value.owners;
            if b in st.owners then b in owners && owners[b] == st.owners[b]
            else if b in owners then FirstOwner(rows, sessions, b) == Some(owners[b])
            else FirstOwner(rows, sessions, b) == None
    decreases |rows|
  {
    hide PlatformRow, Escalates;
    if rows != [] {
      RowOwners(st, rows[0], sessions, cap, abort, b);
      ScanOwners(PlatformRow(st, rows[0], sessions, cap, abort).value, rows[1..], sessions, cap, abort, b);
    }
  }

  lemma {:induction false} ScanMarks(st: PlatformState, rows: seq<Row>, sessions: Sessions, cap: nat, abort: bool,
                                     key: SourceKey)
    requires PlatformScan(st, rows, sessions, cap, abort).Ok?
    ensures key in PlatformScan(st, rows, sessions, cap, abort).value.existing <==>
            key in st.existing || Marked(rows, key)
    decreases |rows|
  {
    hide PlatformRow, Marks;
    if rows != [] {
      RowMarks(st, rows[0], sessions, cap, abort, key);
      ScanMarks(PlatformRow(st, rows[0], sessions, cap, abort).value, rows[1..], sessions, cap, abort, key);
      assert forall row :: row in rows <==> row == rows[0] || row in rows[1..];
    }
  }

  /** The platform phase knows exactly the first owners and the markers of the log. */
  ghost predicate Knows(log: seq<Row>, sessions: Sessions, st: PlatformState) {
    && (forall row :: KeyOf(row, st.owners) == SourceKeyOf(log, sessions, row))
    && (forall key :: key in st.existing <==> Marked(log, key))
  }

  lemma PlatformKnows(log: seq<Row>, sessions: Sessions, cap: nat, abort: bool)
    requires PlatformScan(START, log, sessions, cap, abort).Ok?
    ensures Knows(log, sessions, PlatformScan(START, log, sessions, cap, abort).value)
  {
    hide PlatformScan, FirstOwner, Marked, SourceOf;
    var st := PlatformScan(START, log, sessions, cap, abort).value;
    forall row: Row ensures KeyOf(row, st.owners) == SourceKeyOf(log, sessions, row) {
      if SourceOf(row).Some? {
        ScanOwners(START, log, sessions, cap, abort, SourceOf(row).value.0);
      }
    }
    forall key ensures key in st.existing <==> Marked(log, key) {
      ScanMarks(START, log, sessions, cap, abort, key);
    }
  }

  // ---- The message phase finds every source ----

  lemma {:induction false} MessagesFound(ms: MessageState, rows: seq<Row>, st: PlatformState, cap: nat, abort: bool,
                                         log: seq<Row>, sessions: Sessions, key: SourceKey)
    requires MessageScan(ms, rows, st, cap, abort).Ok? && Knows(log, sessions, st)
    ensures key in MessageScan(ms, rows, st, cap, abort).value.uncovered <==>
            key in ms.uncovered || exists row :: row in rows && Unmarked(log, sessions, row, key)
    decreases |rows|
  {
    hide SourceOf, KeyBytes, Representable, SourceYieldsNoMarker, SourceKeyOf, Marked, KeyOf;
    if rows != [] {
      MessageFound(ms, rows[0], st, cap, abort, log, sessions, key);
      hide MessageRow, Unmarked, Knows;
      MessagesFound(MessageRow(ms, rows[0], st, cap, abort).value, rows[1..], st, cap, abort, log, sessions, key);
      assert forall row :: row in rows <==> row == rows[0] || row in rows[1..];
    }
  }

  lemma MessageFound(ms: MessageState, row: Row, st: PlatformState, cap: nat, abort: bool,
                     log: seq<Row>, sessions: Sessions, key: SourceKey)
    requires MessageRow(ms, row, st, cap, abort).Ok? && Knows(log, sessions, st)
    ensures key in MessageRow(ms, row, st, cap, abort).value.uncovered <==>
            key in ms.uncovered || Unmarked(log, sessions, row, key)
  {
    KeyNeedsSource(row, st.owners);
    hide SourceOf, KeyBytes, Representable, SourceYieldsNoMarker, SourceKeyOf, Marked, KeyOf;
  }

  lemma KeyNeedsSource(row: Row, owners: map<string, Owner>)
    ensures KeyOf(row, owners).Some? ==> SourceOf(row).Some?
  {
  }

  lemma {:induction false} MessagesCounted(ms: MessageState, rows: seq<Row>, st: PlatformState, cap: nat, abort: bool,
                                           log: seq<Row>, sessions: Sessions)
    requires MessageScan(ms, rows, st, cap, abort).Ok? && Knows(log, sessions, st)
    ensures var end := MessageScan(ms, rows, st, cap, abort).value.stats;
            && end.sourcesSeen == ms.stats.sourcesSeen + SourceCount(log, sessions, rows)
            && end.oversizeSkipped == ms.stats.oversizeSkipped + OversizeCount(log, sessions, rows)
            && end.alreadyCovered == ms.stats.alreadyCovered + MarkedCount(log, sessions, rows)
    decreases |rows|
  {
    hide SourceOf, KeyBytes, Representable, SourceYieldsNoMarker, SourceKeyOf, Marked, KeyOf;
    if rows != [] {
      KeyNeedsSource(rows[0], st.owners);
      var next := MessageRow(ms, rows[0], st, cap, abort).value;
      MessagesCounted(next, rows[1..], st, cap, abort, log, sessions);
    }
  }

  /** A scan that ends without aborting found everything. */
  lemma CollectFindsAll(log: seq<Row>, sessions: Sessions, cap: nat, abort: bool)
    requires Collect(log, sessions, cap, abort).Ok?
    ensures FindsAll(log, sessions, Collect(log, sessions, cap, abort).value)
  {
    hide PlatformScan, MessageScan, Unmarked, SourceCount, OversizeCount, MarkedCount, Knows;
    var st := PlatformScan(START, log, sessions, cap, abort).value;
    var begin := MessageState([], Stats(0, 0, 0, 0), st.retained);
    PlatformKnows(log, sessions, cap, abort);
    MessagesCounted(begin, log, st, cap, abort, log, sessions);
    var found := Collect(log, sessions, cap, abort).value;
    forall key ensures key in found.uncovered <==> exists row :: row in log && Unmarked(log, sessions, row, key) {
      MessagesFound(begin, log, st, cap, abort, log, sessions, key);
    }
  }

  /** The two-phase scan shared by the backfill and the audit. */
  method CollectUncoveredSources(log: seq<Row>, sessions: Sessions, cap: nat, abortNonPositive: bool)
      returns (r: Result<MessageState, Abort>)
    ensures r == Collect(log, sessions, cap, abortNonPositive)
    ensures r.Ok? ==> FindsAll(log, sessions, r.value)
  {
    hide EscalatedBatches, ParseParts, Candidates, SourceOf, KeyBytes, OwnerBytes, Representable, SourceYieldsNoMarker,
      FindsAll;
    if Collect(log, sessions, cap, abortNonPositive).Ok? {
      CollectFindsAll(log, sessions, cap, abortNonPositive);
    }
    var owners: map<string, Owner> := map[];
    var existing: set<SourceKey> := {};
    var retained: nat := 0;
    for i := 0 to |log|
      invariant PlatformScan(START, log, sessions, cap, abortNonPositive)
             == PlatformScan(PlatformState(owners, existing, retained), log[i..], sessions, cap, abortNonPositive)
    {
      assert log[i..][1..] == log[i + 1..];
      var row := log[i];
      if row.kind == Platform && row.payload.Some? {
        var claimed;
        claimed, owners, retained := ClaimPhase(row, sessions, cap, abortNonPositive, owners, existing, retained);
        if claimed.Err? {
          return Err(claimed.error);
        }
        var covered;
        covered, existing, retained := CoverPhase(row, cap, owners, existing, retained);
        if covered.Err? {
          return Err(covered.error);
        }
      }
    }
    var uncovered: seq<SourceKey> := [];
    var stats := Stats(0, 0, 0, 0);
    ghost var platform := PlatformState(owners, existing, retained);
    ghost var begin := MessageState([], stats, retained);
    for i := 0 to |log|
      invariant MessageScan(begin, log, platform, cap, abortNonPositive)
             == MessageScan(MessageState(uncovered, stats, retained), log[i..], platform, cap, abortNonPositive)
    {
      assert log[i..][1..] == log[i + 1..];
      var row := log[i];
      var source := SourceOf(row);
      if source.None? || source.value.0 !in owners {
        continue;
      }
      var (batchId, answer) := source.value;
      var owner := owners[batchId];
      if abortNonPositive && row.id <= 0 {
        return Err(NonPositiveId(row.id));
      }
      stats := stats.(sourcesSeen := stats.sourcesSeen + 1);
      if SourceYieldsNoMarker(batchId, row.id, answer) {
        stats := stats.(oversizeSkipped := stats.oversizeSkipped + 1);
        continue;
      }
      var key := SourceKey(owner.executionId, owner.sessionId, batchId, row.id);
      if key in existing {
        stats := stats.(alreadyCovered := stats.alreadyCovered + 1);
        continue;
      }
      retained := retained + KeyBytes(key);
      if retained > cap {
        return Err(CapExceeded);
      }
      if row.createdAt.None? || !Representable(row.createdAt.value) {
        return Err(UnformattableCreatedAt(row.id));
      }
      uncovered := uncovered + [key];
    }
    r := Ok(MessageState(uncovered, stats, retained));
  }

  /** Claims the batches a platform row escalates. */
  method ClaimPhase(row: Row, sessions: Sessions, cap: nat, abortNonPositive: bool,
                    owners0: map<string, Owner>, ghost existing: set<SourceKey>, retained0: nat)
      returns (r: Result<(), Abort>, owners: map<string, Owner>, retained: nat)
    requires row.payload.Some?
    ensures var spec := ClaimRow(PlatformState(owners0, existing, retained0), row, sessions, cap, abortNonPositive);
            if r.Err? then spec == Err(r.error) else spec == Ok(PlatformState(owners, existing, retained))
  {
    hide EscalatedBatches, OwnerBytes;
    owners, retained := owners0, retained0;
    if !Coherent(row, sessions) {
      return Ok(()), owners, retained;
    }
    var batches := EscalatedBatches(row.payload.value);
    if abortNonPositive && batches != [] && row.id <= 0 {
      return Err(NonPositiveId(row.id)), owners, retained;
    }
    var owner := Owner(row.executionId, row.sessionId.value);
    for j := 0 to |batches|
      invariant ClaimBatches(PlatformState(owners0, existing, retained0), batches, owner, cap)
             == ClaimBatches(PlatformState(owners, existing, retained), batches[j..], owner, cap)
    {
      assert batches[j..][1..] == batches[j + 1..];
      if batches[j] !in owners {
        retained := retained + OwnerBytes(batches[j], owner);
        if retained > cap {
          return Err(CapExceeded), owners, retained;
        }
        owners := owners[batches[j] := owner];
      }
    }
    r := Ok(());
  }

  /** Records the sources a platform row's markers cover. */
  method CoverPhase(row: Row, cap: nat, ghost owners: map<string, Owner>, existing0: set<SourceKey>, retained0: nat)
      returns (r: Result<(), Abort>, existing: set<SourceKey>, retained: nat)
    requires row.payload.Some?
    ensures var spec := CoverRow(PlatformState(owners, existing0, retained0), row, cap);
            if r.Err? then spec == Err(r.error) else spec == Ok(PlatformState(owners, existing, retained))
  {
    hide ParseParts, Candidates, KeyBytes;
    existing, retained := existing0, retained0;
    var parts := ParseParts(row.payload.value);
    if row.sessionId.None? || parts.None? {
      return Ok(()), existing, retained;
    }
    var cands := ResolutionCandidates(parts.value, row.id);
    var exec, session := row.executionId, row.sessionId.value;
    for j := 0 to |cands|
      invariant AddKeys(PlatformState(owners, existing0, retained0), cands, exec, session, cap)
             == AddKeys(PlatformState(owners, existing, retained), cands[j..], exec, session, cap)
    {
      assert cands[j..][1..] == cands[j + 1..];
      var rid := cands[j].embeddedResolvedEventId;
      if rid.None? {
        continue;
      }
      var key := SourceKey(exec, session, cands[j].batchId, rid.value);
      if key !in existing {
        retained := retained + KeyBytes(key);
        if retained > cap {
          return Err(CapExceeded), existing, retained;
        }
        existing := existing + {key};
      }
    }
    r := Ok(());
  }
}
