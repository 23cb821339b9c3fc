/**
 * Escalations and dismissals as the scheduler stores them, what reading them gives
 * back, and which parts of any payload the readers answer to.
 */
module Payloads {
  import opened Prelude
  import opened Json
  import opened JsonParser
  import opened Markers

  // ---- Payloads with a role and one data part ----

  /** One data part under a role, members in key order. */
  function RolePayload(role: string, data: Json): Json {
    Obj([Field("parts", Arr([DataPart(data)])), Field("role", Str(role))])
  }

  function DataPart(data: Json): Json {
    Obj([Field("data", data)])
  }

  function DismissData(batchId: string, escalationId: int): Json {
    Obj([Field("batch_id", Str(batchId)), Field("escalation_event_id", Int(escalationId)),
        Field("type", Str(DISMISS_TYPE))])
  }

  function DismissPayload(batchId: string, escalationId: int): Json {
    RolePayload(ROLE_USER, DismissData(batchId, escalationId))
  }

  function ImportanceMember(importance: Option<string>): seq<Field> {
    if importance.Some? then [Field("importance", Str(importance.value))] else []
  }

  /** Escalation data; older events may lack an importance. */
  function EscalateData(batchId: string, importance: Option<string>, questions: seq<Json>): Json {
    Obj([Field("batch_id", Str(batchId))] + ImportanceMember(importance) + QuestionMembers(questions))
  }

  function QuestionMembers(questions: seq<Json>): seq<Field> {
    [Field("questions", Arr(questions)), Field("type", Str(ESCALATE_TYPE))]
  }

  function EscalatePayload(batchId: string, importance: Option<string>, questions: seq<Json>): Json {
    RolePayload(ROLE_AGENT, EscalateData(batchId, importance, questions))
  }

  lemma DataPartReads(data: Json, key: string)
    ensures Get(DataPart(data), "data") == Some(data)
    ensures DataMember(DataPart(data), key) == Get(data, key)
  {
    assert [Field("data", data)][0].key == "data";
  }

  lemma RoleMembers(role: string, data: Json)
    ensures Get(RolePayload(role, data), "parts") == Some(Arr([DataPart(data)]))
    ensures Get(RolePayload(role, data), "role") == Some(Str(role))
  {
    var parts, r := Field("parts", Arr([DataPart(data)])), Field("role", Str(role));
    assert |"parts"| != |"role"|;
    assert [parts, r][1..] == [r];
    assert Find([r], "role") == Some(Str(role));
  }

  lemma RoleWellFormed(role: string, data: Json)
    requires WellFormed(data)
    ensures WellFormed(RolePayload(role, data))
  {
    hide Before;
    SingleMember("data", data);
    assert WellFormed(Arr([DataPart(data)]));
    BeforeByFirst("parts", "role");
    assert KeysAscend([Field("parts", Arr([DataPart(data)])), Field("role", Str(role))]);
  }

  /** Reading a stored payload of this shape gives back the role and the one part. */
  lemma RoleReads(role: string, data: Json)
    requires WellFormed(data) && data.Obj?
    ensures var text := Serialize(RolePayload(role, data));
            && ParseRoleAndParts(text) == Some((Some(role), [DataPart(data)]))
            && ParseParts(text) == Some([DataPart(data)]) && TopRole(text) == Some(role)
  {
    hide Get, Find, DataPart, RolePayload, WellFormed, Parse;
    RoleWellFormed(role, data);
    RoundTrip(RolePayload(role, data));
    RoleMembers(role, data);
    DataPartReads(data, "type");
    DataPartIsObject(data);
  }

  lemma DataPartIsObject(data: Json)
    ensures DataPart(data).Obj?
  {
  }

  // ---- Dismissals ----

  lemma DismissMembers(batchId: string, escalationId: int)
    ensures var data := DismissData(batchId, escalationId);
            && Get(data, "batch_id") == Some(Str(batchId))
            && Get(data, "escalation_event_id") == Some(Int(escalationId))
            && Get(data, "type") == Some(Str(DISMISS_TYPE))
  {
    var b, e := Field("batch_id", Str(batchId)), Field("escalation_event_id", Int(escalationId));
    var t := Field("type", Str(DISMISS_TYPE));
    assert |"batch_id"| != |"escalation_event_id"| && |"batch_id"| != |"type"| && |"escalation_event_id"| != |"type"|;
    assert [b, e, t][1..] == [e, t] && [e, t][1..] == [t];
    assert Find([t], "type") == Some(Str(DISMISS_TYPE));
    assert Find([e, t], "type") == Find([t], "type");
    assert Find([e, t], "escalation_event_id") == Some(Int(escalationId));
  }

  lemma DismissWellFormed(batchId: string, escalationId: int)
    requires IntegerInRange(escalationId)
    ensures WellFormed(DismissData(batchId, escalationId))
  {
    hide Before;
    BeforeByFirst("batch_id", "escalation_event_id");
    BeforeByFirst("escalation_event_id", "type");
    var fields := DismissData(batchId, escalationId).fields;
    assert KeysAscend(fields);
    forall j | 0 <= j < |fields| ensures WellFormed(fields[j].value) {
    }
  }

  /** The candidate a dismissal stands for: it names its escalation when the id is positive. */
  function DismissCandidate(batchId: string, escalationId: int, ordinal: nat, ownId: int): Candidate {
    Candidate(Dismiss, batchId, if 0 < escalationId then Some(escalationId) else None,
      OrderKey(ownId, ownId, ordinal), None, None, None, false)
  }

  lemma DismissCandidateOf(batchId: string, escalationId: int, ordinal: nat, ownId: int)
    requires escalationId <= I64_MAX
    ensures var part := DataPart(DismissData(batchId, escalationId));
            && CandidateOf(part, ordinal, ownId) == Some(DismissCandidate(batchId, escalationId, ordinal, ownId))
            && PartDataType(part) == Some(DISMISS_TYPE)
  {
    hide Get, Find, DataPart, DismissData;
    var data := DismissData(batchId, escalationId);
    DismissMembers(batchId, escalationId);
    DataPartReads(data, "batch_id");
    DataPartReads(data, "escalation_event_id");
    DataPartReads(data, "type");
    assert |DISMISS_TYPE| != |ANSWER_TYPE|;
  }

  /**
   * Reading back a stored dismissal yields exactly one candidate: a dismissal of that
   * batch, naming its escalation, without text; and no escalation.
   */
  lemma DismissReadsBack(batchId: string, escalationId: int, ownId: int)
    requires I64_MIN <= escalationId <= I64_MAX
    ensures var text := Serialize(DismissPayload(batchId, escalationId));
            && ParseParts(text).Some?
            && Candidates(ParseParts(text).value, ownId) == [DismissCandidate(batchId, escalationId, 0, ownId)]
            && TopRole(text) == Some(ROLE_USER)
            && EscalatedBatches(text) == [] && EscalationData(text) == None
  {
    hide WellFormed, Parse, DismissData, CandidateOf, PartDataType, Get, DataPart, DismissCandidate, RolePayload,
        ParseRoleAndParts;
    var data := DismissData(batchId, escalationId);
    var part := DataPart(data);
    DismissWellFormed(batchId, escalationId);
    DismissIsObject(batchId, escalationId);
    RoleReads(ROLE_USER, data);
    DismissCandidateOf(batchId, escalationId, 0, ownId);
    assert [part][1..] == [];
    assert TypeCount([part], ANSWER_TYPE) == 0 by {
      assert |DISMISS_TYPE| != |ANSWER_TYPE|;
    }
    assert CandidatesFrom([part], 1, ownId) == [];
    assert ROLE_USER[5] != ROLE_AGENT[5];
  }

  lemma DismissIsObject(batchId: string, escalationId: int)
    ensures DismissData(batchId, escalationId).Obj?
  {
  }

  // ---- Escalations ----

  lemma EscalateMembers(batchId: string, importance: Option<string>, questions: seq<Json>)
    ensures var data := EscalateData(batchId, importance, questions);
            && data.Obj? && Get(data, "batch_id") == Some(Str(batchId))
            && AsStr(Get(data, "importance")) == importance
            && Get(data, "questions") == Some(Arr(questions))
            && Get(data, "type") == Some(Str(ESCALATE_TYPE))
  {
    var b, i, q := [Field("batch_id", Str(batchId))], ImportanceMember(importance), QuestionMembers(questions);
    forall key | key in {"batch_id", "importance", "questions", "type"}
      ensures Find(b + i + q, key) == if key == "batch_id" then Some(Str(batchId))
                                      else if key == "importance" && importance.Some? then Some(Str(importance.value))
                                      else Find(q, key)
    {
      FindAppend(b, i, key);
      FindAppend(b + i, q, key);
      OneMember("batch_id", Str(batchId), key);
      OneMember("importance", Str(if importance.Some? then importance.value else ""), key);
    }
    QuestionFind(questions);
  }

  lemma OneMember(name: string, v: Json, key: string)
    ensures Find([Field(name, v)], key) == if key == name then Some(v) else None
    ensures Find([], key) == None
  {
  }

  lemma QuestionFind(questions: seq<Json>)
    ensures var q := QuestionMembers(questions);
            && Find(q, "questions") == Some(Arr(questions)) && Find(q, "type") == Some(Str(ESCALATE_TYPE))
            && Find(q, "importance") == None
  {
    var q, t := Field("questions", Arr(questions)), Field("type", Str(ESCALATE_TYPE));
    assert "importance"[0] == 'i' && "questions"[0] == 'q' && "type"[0] == 't';
    assert [q, t][1..] == [t];
    OneMember("type", Str(ESCALATE_TYPE), "type");
    OneMember("type", Str(ESCALATE_TYPE), "importance");
    assert Find([q, t], "type") == Find([t], "type") && Find([q, t], "importance") == Find([t], "importance");
  }

  lemma EscalateWellFormed(batchId: string, importance: Option<string>, questions: seq<Json>)
    requires forall k :: 0 <= k < |questions| ==> WellFormed(questions[k])
    ensures WellFormed(EscalateData(batchId, importance, questions))
  {
    hide Before;
    BeforeByFirst("batch_id", "importance");
    BeforeByFirst("batch_id", "questions");
    BeforeByFirst("importance", "questions");
    BeforeByFirst("questions", "type");
    var fields := EscalateData(batchId, importance, questions).fields;
    assert KeysAscend(fields);
    assert WellFormed(Arr(questions));
    forall j | 0 <= j < |fields| ensures WellFormed(fields[j].value) {
    }
  }

  /**
   * Reading back a stored escalation gives its batch, its importance, blocking unless it
   * has one, and its questions, or nothing when it asks nothing; it escalates that one batch and resolves nothing.
   */
  lemma EscalateReadsBack(batchId: string, importance: Option<string>, questions: seq<Json>, ownId: int)
    requires forall k :: 0 <= k < |questions| ==> WellFormed(questions[k])
    ensures var text := Serialize(EscalatePayload(batchId, importance, questions));
            && EscalationData(text)
               == (if questions == [] then None
                   else Some(Escalation(batchId, if importance.Some? then importance.value else "blocking", questions)))
            && EscalatedBatches(text) == [batchId]
            && ParseParts(text).Some? && Candidates(ParseParts(text).value, ownId) == []
            && TopRole(text) == Some(ROLE_AGENT)
  {
    hide WellFormed, Parse, EscalateData, Get, Find, DataPart, RolePayload, ParseRoleAndParts;
    var data := EscalateData(batchId, importance, questions);
    var part := DataPart(data);
    EscalateWellFormed(batchId, importance, questions);
    EscalateMembers(batchId, importance, questions);
    RoleReads(ROLE_AGENT, data);
    DataPartReads(data, "batch_id");
    DataPartReads(data, "importance");
    DataPartReads(data, "questions");
    DataPartReads(data, "type");
    assert [part][1..] == [];
    assert |ESCALATE_TYPE| != |ANSWER_TYPE| && |ESCALATE_TYPE| != |DISMISS_TYPE|;
    assert TypeCount([part], ANSWER_TYPE) == 0;
    assert CandidateOf(part, 0, ownId) == None;
    assert CandidatesFrom([part], 1, ownId) == [];
    assert BatchesOf([part]) == [batchId] + [];
  }

  // ---- Which payloads are read at all ----

  /**
   * The parts of a stored value are read exactly when it has an array of them, each an
   * object whose data, if any, is an object too; then they are that array.
   */
  lemma PartsReadIff(v: Json, parts: seq<Json>)
    requires WellFormed(v)
    ensures ParseParts(Serialize(v)) == Some(parts) <==>
            && Get(v, "parts") == Some(Arr(parts))
            && forall k :: 0 <= k < |parts| ==>
                 parts[k].Obj? && forall data :: Get(parts[k], "data") == Some(data) ==> data.Obj?
  {
    hide WellFormed, Parse, Get;
    RoundTrip(v);
  }

  // ---- What the readers answer to ----

  /** A part's batch, when it names one as a string. */
  function BatchOf(part: Json): Option<string> {
    AsStr(DataMember(part, "batch_id"))
  }

  /** The part resolves a question: an answer or a dismissal that names its batch. */
  predicate Resolves(part: Json) {
    BatchOf(part).Some? && (PartDataType(part) == Some(ANSWER_TYPE) || PartDataType(part) == Some(DISMISS_TYPE))
  }

  predicate IsAnswer(part: Json) {
    PartDataType(part) == Some(ANSWER_TYPE)
  }

  lemma {:induction false} CountPositive(parts: seq<Json>, dataType: string)
    ensures TypeCount(parts, dataType) > 0 <==> exists k :: 0 <= k < |parts| && PartDataType(parts[k]) == Some(dataType)
  {
    hide PartDataType;
    if parts != [] {
      var rest := parts[1..];
      CountPositive(rest, dataType);
      if TypeCount(parts, dataType) > 0 && PartDataType(parts[0]) != Some(dataType) {
        var k :| 0 <= k < |rest| && PartDataType(rest[k]) == Some(dataType);
        assert PartDataType(parts[k + 1]) == Some(dataType);
      }
      if k :| 0 <= k < |parts| && PartDataType(parts[k]) == Some(dataType) {
        if k > 0 {
          assert PartDataType(rest[k - 1]) == Some(dataType);
        }
      }
    }
  }

  /** The part at `k` has this type, and no other part does. */
  predicate OnlyPart(parts: seq<Json>, dataType: string, k: int) {
    && 0 <= k < |parts| && PartDataType(parts[k]) == Some(dataType)
    && forall j :: 0 <= j < |parts| && PartDataType(parts[j]) == Some(dataType) ==> j == k
  }

  /** Counting finds a single part of a type exactly when one part has it and no other does. */
  lemma {:induction false} CountOne(parts: seq<Json>, dataType: string)
    ensures TypeCount(parts, dataType) == 1 <==> exists k :: OnlyPart(parts, dataType, k)
  {
    hide PartDataType;
    if parts != [] {
      var rest := parts[1..];
      CountOne(rest, dataType);
      CountPositive(rest, dataType);
      if TypeCount(parts, dataType) == 1 {
        if PartDataType(parts[0]) == Some(dataType) {
          assert forall j :: 0 < j < |parts| ==> parts[j] == rest[j - 1];
          assert OnlyPart(parts, dataType, 0);
        } else {
          var k :| OnlyPart(rest, dataType, k);
          assert forall j :: 0 < j < |parts| ==> parts[j] == rest[j - 1];
          assert OnlyPart(parts, dataType, k + 1);
        }
      }
      if k :| OnlyPart(parts, dataType, k) {
        if k > 0 {
          assert OnlyPart(rest, dataType, k - 1);
        }
      }
    }
  }

  lemma {:induction false} CandidatesFromExact(parts: seq<Json>, k: nat, ownId: int)
    requires k <= |parts|
    ensures forall c :: c in CandidatesFrom(parts, k, ownId) <==>
              k <= c.orderKey.partOrdinal < |parts|
              && CandidateOf(parts[c.orderKey.partOrdinal], c.orderKey.partOrdinal, ownId) == Some(c)
    decreases |parts| - k
  {
    if k < |parts| {
      CandidatesFromExact(parts, k + 1, ownId);
      CandidateShape(parts[k], k, ownId);
      hide CandidateOf;
      var c := CandidateOf(parts[k], k, ownId);
      assert CandidatesFrom(parts, k, ownId)
          == (if c.Some? then [c.value] else []) + CandidatesFrom(parts, k + 1, ownId);
    }
  }

  lemma CandidateShape(part: Json, k: nat, ownId: int)
    ensures CandidateOf(part, k, ownId).Some? <==> Resolves(part)
    ensures CandidateOf(part, k, ownId).Some? ==>
              var c := CandidateOf(part, k, ownId).value;
              && c.orderKey.partOrdinal == k && c.orderKey.ownEventId == ownId && Some(c.batchId) == BatchOf(part)
              && (c.kind == Answer <==> IsAnswer(part))
              && (c.truncated <==> IsAnswer(part) && DataMember(part, "truncated") == Some(Bool(true)))
              && forall id :: c.escalationEventId == Some(id) <==>
                              0 < id <= I64_MAX && DataMember(part, "escalation_event_id") == Some(Int(id))
  {
    assert |DISMISS_TYPE| != |ANSWER_TYPE|;
  }

  /**
   * Unless it carries several answers, a payload's resolutions stand one for each part
   * that resolves a question, under that part's own position, batch and kind, naming
   * the escalation the part names by a positive id.
   */
  lemma CandidatesExact(parts: seq<Json>, ownId: int, k: nat)
    requires k < |parts|
    ensures (exists c :: c in Candidates(parts, ownId) && c.orderKey.partOrdinal == k) <==>
            Resolves(parts[k]) && TypeCount(parts, ANSWER_TYPE) <= 1
    ensures forall c :: c in Candidates(parts, ownId) && c.orderKey.partOrdinal == k ==>
              && Some(c.batchId) == BatchOf(parts[k]) && c.orderKey.ownEventId == ownId
              && (c.kind == Answer <==> IsAnswer(parts[k]))
              && (c.truncated <==> IsAnswer(parts[k]) && DataMember(parts[k], "truncated") == Some(Bool(true)))
              && forall id :: c.escalationEventId == Some(id) <==>
                              0 < id <= I64_MAX && DataMember(parts[k], "escalation_event_id") == Some(Int(id))
  {
    CandidatesFromExact(parts, 0, ownId);
    CandidateShape(parts[k], k, ownId);
    hide CandidateOf, CandidatesFrom, Resolves, BatchOf, IsAnswer, DataMember;
    var c := CandidateOf(parts[k], k, ownId);
    if c.Some? && TypeCount(parts, ANSWER_TYPE) <= 1 {
      assert c.value in Candidates(parts, ownId);
    }
  }

  predicate EscalatesBatch(part: Json, b: string) {
    PartDataType(part) == Some(ESCALATE_TYPE) && BatchOf(part) == Some(b)
  }

  /** A batch is escalated exactly when some escalation part names it. */
  lemma {:induction false} BatchesExact(parts: seq<Json>, b: string)
    ensures b in BatchesOf(parts) <==> exists k :: 0 <= k < |parts| && EscalatesBatch(parts[k], b)
  {
    hide PartDataType, DataMember;
    if parts != [] {
      var rest := parts[1..];
      BatchesExact(rest, b);
      if b in BatchesOf(rest) {
        var k :| 0 <= k < |rest| && EscalatesBatch(rest[k], b);
        assert parts[k + 1] == rest[k];
      }
      if k :| 0 <= k < |parts| && EscalatesBatch(parts[k], b) {
        if k > 0 {
          assert rest[k - 1] == parts[k];
        }
      }
    }
  }

  // ---- Answers among messages ----

  /** The part at `k` is the first with a text, which is `t`. */
  predicate FirstTextAt(parts: seq<Json>, k: int, t: string) {
    && 0 <= k < |parts| && AsStr(Get(parts[k], "text")) == Some(t)
    && forall j :: 0 <= j < k ==> AsStr(Get(parts[j], "text")).None?
  }

  lemma {:induction false} FirstTextExact(parts: seq<Json>, t: string)
    ensures FirstText(parts) == Some(t) <==> exists k :: FirstTextAt(parts, k, t)
  {
    hide Get, AsStr;
    if parts != [] {
      var rest := parts[1..];
      FirstTextExact(rest, t);
      assert forall j :: 0 < j < |parts| ==> parts[j] == rest[j - 1];
      assert forall j :: 0 <= j < |rest| ==> rest[j] == parts[j + 1];
      if AsStr(Get(parts[0], "text")).None? {
        if k :| FirstTextAt(rest, k, t) {
          assert FirstTextAt(parts, k + 1, t);
        }
        if k :| FirstTextAt(parts, k, t) {
          assert FirstTextAt(rest, k - 1, t);
        }
      } else {
        assert AsStr(Get(parts[0], "text")) == Some(t) ==> FirstTextAt(parts, 0, t);
      }
    }
  }

  lemma {:induction false} FirstAnswerOf(parts: seq<Json>, k: int)
    requires OnlyPart(parts, ANSWER_TYPE, k)
    ensures FirstAnswerBatch(parts) == BatchOf(parts[k])
  {
    hide PartDataType, DataMember;
    if k == 0 {
      NoAnswerBatch(parts[1..]);
    } else {
      assert forall j :: 0 < j < |parts| ==> parts[j] == parts[1..][j - 1];
      FirstAnswerOf(parts[1..], k - 1);
    }
  }

  lemma {:induction false} NoAnswerBatch(parts: seq<Json>)
    requires forall j :: 0 <= j < |parts| ==> PartDataType(parts[j]) != Some(ANSWER_TYPE)
    ensures FirstAnswerBatch(parts) == None
  {
    hide PartDataType, DataMember;
    if parts != [] {
      NoAnswerBatch(parts[1..]);
    }
  }

  /**
   * A message answers a batch exactly when a user sent it, no part names a sender and
   * its only answer part names that batch; the answer is the first text, unless empty.
   */
  lemma AnswerSourceExact(role: Option<string>, parts: seq<Json>, batchId: string)
    ensures (AnswerSource(role, parts).Some? && AnswerSource(role, parts).value.0 == batchId) <==>
            && role == Some(ROLE_USER)
            && (forall k :: 0 <= k < |parts| ==> PartDataType(parts[k]) != Some(SENDER_TYPE))
            && exists k :: 0 <= k < |parts| && OnlyPart(parts, ANSWER_TYPE, k) && BatchOf(parts[k]) == Some(batchId)
    ensures AnswerSource(role, parts).Some? ==>
              forall t :: AnswerSource(role, parts).value.1 == Some(t) <==>
                            t != "" && exists k :: FirstTextAt(parts, k, t)
  {
    CountPositive(parts, SENDER_TYPE);
    CountOne(parts, ANSWER_TYPE);
    hide PartDataType, DataMember, OnlyPart, TypeCount, FirstText, FirstAnswerBatch, FirstTextAt, BatchOf;
    if k :| OnlyPart(parts, ANSWER_TYPE, k) {
      FirstAnswerOf(parts, k);
      OnlyPartUnique(parts, k);
    }
    assert TypeCount(parts, SENDER_TYPE) == 0 <==>
           forall k :: 0 <= k < |parts| ==> PartDataType(parts[k]) != Some(SENDER_TYPE);
    forall t ensures FirstText(parts) == Some(t) <==> exists k :: FirstTextAt(parts, k, t) {
      FirstTextExact(parts, t);
    }
  }

  lemma OnlyPartUnique(parts: seq<Json>, k: int)
    requires OnlyPart(parts, ANSWER_TYPE, k)
    ensures 0 <= k < |parts|
    ensures forall j :: OnlyPart(parts, ANSWER_TYPE, j) ==> j == k
  {
  }
}
