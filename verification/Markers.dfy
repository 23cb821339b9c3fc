/** Question-resolution markers: building, measuring, truncating and reading them back. */
module Markers {
  import opened Prelude
  import opened Text
  import opened Json
  import opened JsonParser

  const ROLE_AGENT: string := "ROLE_AGENT"
  const ROLE_USER: string := "ROLE_USER"
  const ESCALATE_TYPE: string := "escalate"
  const ANSWER_TYPE: string := "question_answer"
  const DISMISS_TYPE: string := "question_dismiss"
  const SENDER_TYPE: string := "sender"

  /** No stored marker is longer than this many bytes. */
  const MARKER_SERIALIZED_CAP_BYTES: nat := 96 * 1024

  const RESERVED_EVENT_ID: int := I64_MAX
  const RESERVED_TIMESTAMP: string := "9999-12-31T23:59:59Z"
  const RESERVED_BATCH_ID: string := "00000000-0000-0000-0000-000000000000"

  // ---- Timestamps ----

  predicate Separators(s: string)
    requires |s| == 20
  {
    && s[4] == '-' && s[7] == '-' && (s[10] == 'T' || s[10] == 't' || s[10] == ' ')
    && s[13] == ':' && s[16] == ':' && (s[19] == 'Z' || s[19] == 'z')
  }

  /** A timestamp of the reserved width in the shape RFC 3339 gives one without fraction or offset. */
  predicate Representable(s: string) {
    && |s| == 20 && Separators(s)
    && forall i :: 0 <= i < 20 && i !in {4, 7, 10, 13, 16, 19} ==> IsDigit(s[i])
  }

  lemma {:induction false} PlainWidth(s: string)
    requires forall i :: 0 <= i < |s| ==> EscapedWidth(s[i]) == 1
    ensures EscapedLen(s) == |s|
  {
    if s != [] {
      PlainWidth(s[1..]);
    }
  }

  /** Every representable timestamp occupies exactly the reserved width. */
  lemma TimestampWidth(s: string)
    requires Representable(s)
    ensures EscapedLen(s) == 20
  {
    forall i | 0 <= i < |s| ensures EscapedWidth(s[i]) == 1 {
      if i !in {4, 7, 10, 13, 16, 19} {
        assert IsDigit(s[i]);
      }
    }
    PlainWidth(s);
  }

  lemma ReservedTimestampRepresentable()
    ensures Representable(RESERVED_TIMESTAMP)
  {
    var s := RESERVED_TIMESTAMP;
    assert s == ['9', '9', '9', '9', '-', '1', '2', '-', '3', '1', 'T', '2', '3', ':', '5', '9', ':', '5', '9', 'Z'];
  }

  // ---- Building a marker ----

  function AnswerMember(answer: Option<string>): seq<Field> {
    if answer.Some? then [Field("answer_text", Str(answer.value))] else []
  }

  function EscalationMember(id: Option<int>): seq<Field> {
    if id.Some? then [Field("escalation_event_id", Int(id.value))] else []
  }

  function ResolvedMembers(resolvedId: int, resolvedAt: string): seq<Field> {
    [Field("resolved_at", Str(resolvedAt)), Field("resolved_event_id", Int(resolvedId))]
  }

  function TruncatedMember(truncated: bool): seq<Field> {
    if truncated then [Field("truncated", Bool(true))] else []
  }

  /** The marker `data` object, members in key order. */
  function MarkerData(batchId: string, escalationId: Option<int>, resolvedId: int, resolvedAt: string,
                      answer: Option<string>, truncated: bool): Json
  {
    Obj(AnswerMember(answer)
        + [Field("batch_id", Str(batchId))]
        + EscalationMember(escalationId)
        + ResolvedMembers(resolvedId, resolvedAt)
        + TruncatedMember(truncated)
        + [Field("type", Str(ANSWER_TYPE))])
  }

  /** A marker as stored: nothing but the marker data, in one part. */
  function MarkerPayload(batchId: string, escalationId: Option<int>, resolvedId: int, resolvedAt: string,
                         answer: Option<string>, truncated: bool): Json
  {
    Obj([Field("parts", Arr([Obj([Field("data",
      MarkerData(batchId, escalationId, resolvedId, resolvedAt, answer, truncated))])]))])
  }

  // ---- Measuring a marker ----

  /** The serialized decimal length of an i64. */
  method I64Digits(n: int) returns (r: nat)
    ensures r == |Decimal(n)|
  {
    var sign := if n < 0 then 1 else 0;
    var m: nat := if n < 0 then -n else n;
    ghost var start := m;
    var d: nat := 1;
    while m >= 10
      invariant d >= 1 && |Digits(start)| == |Digits(m)| + d - 1
    {
      m := m / 10;
      d := d + 1;
    }
    r := sign + d;
  }

  /** The closed-form byte length of a serialized marker. */
  function SerializedMarkerBytes(batchId: string, escalationId: Option<int>, resolvedId: int, resolvedAt: string,
                                 answer: Option<string>, truncated: bool): nat
  {
    99 + EscapedLen(batchId) + |Decimal(resolvedId)| + EscapedLen(resolvedAt)
      + (if escalationId.Some? then 23 + |Decimal(escalationId.value)| else 0)
      + (if answer.Some? then 17 + EscapedLen(answer.value) else 0)
      + (if truncated then 17 else 0)
  }

  function FieldsBytes(fields: seq<Field>): nat {
    if fields == [] then 0 else ByteLen(SerializeField(fields[0])) + 1 + FieldsBytes(fields[1..])
  }

  lemma {:induction false} FieldsBytesExact(fields: seq<Field>)
    requires fields != []
    ensures ByteLen(SerializeFields(fields)) + 1 == FieldsBytes(fields)
  {
    if |fields| == 1 {
      assert fields[1..] == [];
    } else {
      FieldsBytesExact(fields[1..]);
      WeighAppend(SerializeField(fields[0]) + [','], SerializeFields(fields[1..]), Width);
      WeighAppend(SerializeField(fields[0]), [','], Width);
      ByteLenOfAscii([',']);
    }
  }

  lemma {:induction false} FieldsBytesAppend(a: seq<Field>, b: seq<Field>)
    ensures FieldsBytes(a + b) == FieldsBytes(a) + FieldsBytes(b)
  {
    if a == [] {
      assert a + b == b;
    } else {
      assert (a + b)[1..] == a[1..] + b;
      FieldsBytesAppend(a[1..], b);
    }
  }

  lemma FieldBytes(f: Field)
    ensures ByteLen(SerializeField(f)) == 3 + EscapedLen(f.key) + Size(f.value)
    ensures FieldsBytes([f]) == 4 + EscapedLen(f.key) + Size(f.value)
  {
    EscapedLenExact(f.key);
    WeighAppend(Quote(f.key) + [':'], Serialize(f.value), Width);
    WeighAppend(Quote(f.key), [':'], Width);
    ByteLenOfAscii([':']);
    assert [f][1..] == [];
  }

  /** A member whose key needs no escaping. */
  lemma PlainField(key: string, v: Json)
    requires forall i :: 0 <= i < |key| ==> EscapedWidth(key[i]) == 1
    ensures FieldsBytes([Field(key, v)]) == 4 + |key| + Size(v)
    ensures v.Str? ==> FieldsBytes([Field(key, v)]) == 6 + |key| + EscapedLen(v.s)
    ensures v.Int? ==> FieldsBytes([Field(key, v)]) == 4 + |key| + |Decimal(v.n)|
  {
    FieldBytes(Field(key, v));
    PlainWidth(key);
    if v.Str? {
      EscapedLenExact(v.s);
    } else if v.Int? {
      DecimalWidth(v.n);
    }
  }

  lemma TrueSize()
    ensures Size(Bool(true)) == 4
  {
    ByteLenOfAscii("true");
  }

  lemma FlagBytes()
    ensures FieldsBytes([Field("truncated", Bool(true))]) == 17
  {
    hide FieldsBytes, Weigh, Size, Serialize;
    TrueSize();
    PlainField("truncated", Bool(true));
  }

  lemma AnswerTypeWidth()
    ensures EscapedLen(ANSWER_TYPE) == 15
  {
    hide Weigh;
    PlainWidth(ANSWER_TYPE);
  }

  lemma TypeBytes()
    ensures FieldsBytes([Field("type", Str(ANSWER_TYPE))]) == 25
  {
    hide FieldsBytes, Weigh, Size, Serialize, EscapedLen;
    AnswerTypeWidth();
    PlainField("type", Str(ANSWER_TYPE));
  }

  lemma SixParts(a: seq<Field>, b: seq<Field>, c: seq<Field>, d: seq<Field>, e: seq<Field>, f: seq<Field>)
    ensures FieldsBytes(a + b + c + d + e + f)
         == FieldsBytes(a) + FieldsBytes(b) + FieldsBytes(c) + FieldsBytes(d) + FieldsBytes(e) + FieldsBytes(f)
  {
    hide FieldsBytes;
    FieldsBytesAppend(a, b);
    FieldsBytesAppend(a + b, c);
    FieldsBytesAppend(a + b + c, d);
    FieldsBytesAppend(a + b + c + d, e);
    FieldsBytesAppend(a + b + c + d + e, f);
  }

  lemma AnswerBytes(answer: Option<string>)
    ensures FieldsBytes(AnswerMember(answer)) == if answer.Some? then 17 + EscapedLen(answer.value) else 0
  {
    if answer.Some? { PlainField("answer_text", Str(answer.value)); }
  }

  lemma EscalationBytes(id: Option<int>)
    ensures FieldsBytes(EscalationMember(id)) == if id.Some? then 23 + |Decimal(id.value)| else 0
  {
    if id.Some? { PlainField("escalation_event_id", Int(id.value)); }
  }

  lemma ResolvedBytes(resolvedId: int, resolvedAt: string)
    ensures FieldsBytes(ResolvedMembers(resolvedId, resolvedAt)) == 38 + EscapedLen(resolvedAt) + |Decimal(resolvedId)|
  {
    hide FieldsBytes, Weigh, Decimal;
    var at, id := Field("resolved_at", Str(resolvedAt)), Field("resolved_event_id", Int(resolvedId));
    PlainField("resolved_at", Str(resolvedAt));
    PlainField("resolved_event_id", Int(resolvedId));
    FieldsBytesAppend([at], [id]);
    assert [at, id] == [at] + [id];
  }

  lemma TruncatedBytes(truncated: bool)
    ensures FieldsBytes(TruncatedMember(truncated)) == if truncated then 17 else 0
  {
    FlagBytes();
  }

  lemma MarkerDataBytes(batchId: string, escalationId: Option<int>, resolvedId: int, resolvedAt: string,
                        answer: Option<string>, truncated: bool)
    ensures FieldsBytes(MarkerData(batchId, escalationId, resolvedId, resolvedAt, answer, truncated).fields) + 22
         == SerializedMarkerBytes(batchId, escalationId, resolvedId, resolvedAt, answer, truncated)
  {
    hide FieldsBytes, EscapedLen, Decimal, AnswerMember, EscalationMember, ResolvedMembers, TruncatedMember;
    AnswerBytes(answer);
    PlainField("batch_id", Str(batchId));
    EscalationBytes(escalationId);
    ResolvedBytes(resolvedId, resolvedAt);
    TruncatedBytes(truncated);
    TypeBytes();
    SixParts(AnswerMember(answer), [Field("batch_id", Str(batchId))], EscalationMember(escalationId),
      ResolvedMembers(resolvedId, resolvedAt), TruncatedMember(truncated), [Field("type", Str(ANSWER_TYPE))]);
  }

  lemma ObjectBytes(fields: seq<Field>)
    requires fields != []
    ensures Size(Obj(fields)) == 1 + FieldsBytes(fields)
  {
    FieldsBytesExact(fields);
    Bracketed('{', SerializeFields(fields), '}');
  }

  /** The closed form is the exact byte length of the serialized marker. */
  lemma MarkerBytesExact(batchId: string, escalationId: Option<int>, resolvedId: int, resolvedAt: string,
                         answer: Option<string>, truncated: bool)
    ensures SerializedMarkerBytes(batchId, escalationId, resolvedId, resolvedAt, answer, truncated)
         == Size(MarkerPayload(batchId, escalationId, resolvedId, resolvedAt, answer, truncated))
  {
    hide FieldsBytes, SerializedMarkerBytes, EscapedLen;
    var data := MarkerData(batchId, escalationId, resolvedId, resolvedAt, answer, truncated);
    MarkerDataBytes(batchId, escalationId, resolvedId, resolvedAt, answer, truncated);
    ObjectBytes(data.fields);
    var part := [Field("data", data)];
    FieldBytes(part[0]);
    PlainWidth("data");
    ObjectBytes(part);
    assert SerializeItems([Obj(part)]) == Serialize(Obj(part));
    Bracketed('[', SerializeItems([Obj(part)]), ']');
    var parts := [Field("parts", Arr([Obj(part)]))];
    FieldBytes(parts[0]);
    PlainWidth("parts");
    ObjectBytes(parts);
  }

  // ---- Fitting answer text ----

  /** The single empty-means-absent rule for answer text. */
  function NonEmpty(s: string): Option<string> {
    if s == "" then None else Some(s)
  }

  /** The answer text and truncation flag of a backfilled marker. */
  function Fit(batchId: string, escalationId: Option<int>, resolvedId: int, resolvedAt: string, answer: string)
    : (Option<string>, bool)
  {
    if SerializedMarkerBytes(batchId, escalationId, resolvedId, resolvedAt, NonEmpty(answer), false)
       <= MARKER_SERIALIZED_CAP_BYTES
    then (NonEmpty(answer), false)
    else
      var fixed := SerializedMarkerBytes(batchId, escalationId, resolvedId, resolvedAt, Some(""), true);
      (NonEmpty(LongestPrefix(answer, MARKER_SERIALIZED_CAP_BYTES - fixed, EscapedWidth)), true)
  }

  /** Stopping where the next character overflows the budget yields the longest prefix. */
  lemma GreedyIsLongest(s: string, k: nat, budget: int)
    requires k <= |s|
    requires k > 0 ==> EscapedLen(s[..k]) <= budget
    requires k < |s| ==> EscapedLen(s[..k]) + EscapedWidth(s[k]) > budget
    ensures LongestPrefix(s, budget, EscapedWidth) == s[..k]
  {
    forall j | k < j <= |s| ensures EscapedLen(s[..j]) > budget {
      WeighPrefixes(s, k, j, EscapedWidth);
    }
    LongestPrefixCorrect(s, budget, EscapedWidth);
    LongestPrefixUnique(s[..k], LongestPrefix(s, budget, EscapedWidth), s, budget, EscapedWidth);
  }

  lemma NextPrefix(s: string, k: nat, w: char -> nat)
    requires k < |s|
    ensures Weigh(s[..k + 1], w) == Weigh(s[..k], w) + w(s[k])
  {
    assert s[..k + 1] == s[..k] + [s[k]];
    WeighAppend(s[..k], [s[k]], w);
    assert [s[k]][1..] == [];
  }

  /** Keep characters of the answer for as long as the marker stays under the cap. */
  method FitAnswerText(batchId: string, escalationId: Option<int>, resolvedId: int, resolvedAt: string, answer: string)
      returns (text: Option<string>, truncated: bool)
    ensures (text, truncated) == Fit(batchId, escalationId, resolvedId, resolvedAt, answer)
  {
    hide SerializedMarkerBytes, Weigh, LongestPrefix, BytePrefix, IsCharBoundary;
    var normalized := if answer == "" then None else Some(answer);
    if SerializedMarkerBytes(batchId, escalationId, resolvedId, resolvedAt, normalized, false)
       <= MARKER_SERIALIZED_CAP_BYTES {
      return normalized, false;
    }
    var fixed := SerializedMarkerBytes(batchId, escalationId, resolvedId, resolvedAt, Some(""), true);
    var budget := MARKER_SERIALIZED_CAP_BYTES - fixed;
    var acc, cut, k := 0, 0, 0;
    EmptyWeighsNothing(answer);
    while k < |answer|
      invariant 0 <= k <= |answer|
      invariant acc == EscapedLen(answer[..k]) && cut == ByteLen(answer[..k])
      invariant k > 0 ==> acc <= budget
    {
      var w := EscapedWidth(answer[k]);
      if acc + w > budget {
        break;
      }
      NextPrefix(answer, k, EscapedWidth);
      NextPrefix(answer, k, Width);
      acc, cut, k := acc + w, cut + Width(answer[k]), k + 1;
    }
    GreedyIsLongest(answer, k, budget);
    BytePrefixOfPrefix(answer, k);
    var prefix := BytePrefix(answer, cut);
    return if prefix == "" then None else Some(prefix), true;
  }

  lemma EmptyWeighsNothing(s: string)
    ensures EscapedLen(s[..0]) == 0 && ByteLen(s[..0]) == 0
  {
  }

  /**
   * When the whole answer does not fit, a nonempty prefix's truncated marker fits
   * the cap exactly when the prefix is no longer than the text kept.
   */
  lemma TruncationKeepsLongest(batchId: string, escalationId: Option<int>, resolvedId: int, resolvedAt: string,
                               answer: string, n: nat)
    requires Fit(batchId, escalationId, resolvedId, resolvedAt, answer).1
    requires 0 < n <= |answer|
    ensures var kept := Fit(batchId, escalationId, resolvedId, resolvedAt, answer).0;
            && (kept.Some? ==> kept.value != "" && kept.value < answer)
            && (Size(MarkerPayload(batchId, escalationId, resolvedId, resolvedAt, Some(answer[..n]), true))
                  <= MARKER_SERIALIZED_CAP_BYTES
                <==> kept.Some? && n <= |kept.value|)
  {
    hide Size, MarkerPayload, Decimal, LongestPrefix;
    var fixed := SerializedMarkerBytes(batchId, escalationId, resolvedId, resolvedAt, Some(""), true);
    var budget := MARKER_SERIALIZED_CAP_BYTES - fixed;
    var p := LongestPrefix(answer, budget, EscapedWidth);
    LongestPrefixCorrect(answer, budget, EscapedWidth);
    MarkerBytesExact(batchId, escalationId, resolvedId, resolvedAt, Some(answer[..n]), true);
    assert EscapedLen("") == 0;
    assert p == answer[..|p|];
    if n <= |p| {
      WeighPrefixes(answer, n, |p|, EscapedWidth);
    }
    assert answer[..|answer|] == answer;
  }

  /** The answer is kept whole, empty counting as absent, exactly when a marker holding all of it fits. */
  lemma WholeAnswerKept(batchId: string, escalationId: Option<int>, resolvedId: int, resolvedAt: string, answer: string)
    ensures var (kept, truncated) := Fit(batchId, escalationId, resolvedId, resolvedAt, answer);
            var whole := if answer == "" then None else Some(answer);
            && (!truncated <==> Size(MarkerPayload(batchId, escalationId, resolvedId, resolvedAt, whole, false))
                                <= MARKER_SERIALIZED_CAP_BYTES)
            && (!truncated ==> kept == whole)
  {
    hide Size, MarkerPayload, Decimal, LongestPrefix, EscapedLen;
    MarkerBytesExact(batchId, escalationId, resolvedId, resolvedAt, NonEmpty(answer), false);
  }

  // ---- Which sources yield a marker ----

  predicate EnvelopeOnlyExceedsCap(batchId: string, resolvedId: int, resolvedAt: string) {
    SerializedMarkerBytes(batchId, None, resolvedId, resolvedAt, None, false) > MARKER_SERIALIZED_CAP_BYTES
  }

  predicate SourceFits(batchId: string, sourceId: int, answer: Option<string>, truncated: bool) {
    SerializedMarkerBytes(batchId, None, sourceId, RESERVED_TIMESTAMP, answer, truncated) <= MARKER_SERIALIZED_CAP_BYTES
  }

  /** The scan's prediction that no marker for this source would fit. */
  predicate SourceYieldsNoMarker(batchId: string, sourceId: int, answer: Option<string>) {
    if EnvelopeOnlyExceedsCap(batchId, sourceId, RESERVED_TIMESTAMP) then true
    else if SourceFits(batchId, sourceId, if answer == Some("") then None else answer, false) then false
    else !SourceFits(batchId, sourceId, None, true)
  }

  /** The answer text and truncation flag the backfill gives a source's marker. */
  function BackfillText(batchId: string, sourceId: int, createdAt: string, answer: Option<string>)
    : (Option<string>, bool)
  {
    if answer.Some? then Fit(batchId, None, sourceId, createdAt, answer.value) else (None, false)
  }

  /** The marker the backfill builds for a source. */
  function BackfillMarker(batchId: string, sourceId: int, createdAt: string, answer: Option<string>): Json {
    var (text, truncated) := BackfillText(batchId, sourceId, createdAt, answer);
    MarkerPayload(batchId, None, sourceId, createdAt, text, truncated)
  }

  lemma TimestampDoesNotMatter(batchId: string, sourceId: int, createdAt: string, answer: Option<string>,
      truncated: bool)
    requires Representable(createdAt)
    ensures SerializedMarkerBytes(batchId, None, sourceId, createdAt, answer, truncated)
         == SerializedMarkerBytes(batchId, None, sourceId, RESERVED_TIMESTAMP, answer, truncated)
  {
    hide Representable, EscapedLen;
    ReservedTimestampRepresentable();
    TimestampWidth(createdAt);
    TimestampWidth(RESERVED_TIMESTAMP);
  }

  lemma FitSize(batchId: string, sourceId: int, createdAt: string, answer: string)
    requires Fit(batchId, None, sourceId, createdAt, answer).1
    ensures var kept := Fit(batchId, None, sourceId, createdAt, answer).0;
            SerializedMarkerBytes(batchId, None, sourceId, createdAt, kept, true) <= MARKER_SERIALIZED_CAP_BYTES
            <==> SerializedMarkerBytes(batchId, None, sourceId, createdAt, None, true) <= MARKER_SERIALIZED_CAP_BYTES
  {
    var fixed := SerializedMarkerBytes(batchId, None, sourceId, createdAt, Some(""), true);
    LongestPrefixCorrect(answer, MARKER_SERIALIZED_CAP_BYTES - fixed, EscapedWidth);
    assert EscapedLen("") == 0;
  }

  /**
   * The scan's prediction is exact: a source is judged to yield no marker precisely
   * when the marker the backfill would build for it exceeds the cap.
   */
  lemma NoMarkerExact(batchId: string, sourceId: int, createdAt: string, answer: Option<string>)
    requires Representable(createdAt)
    ensures SourceYieldsNoMarker(batchId, sourceId, answer)
       <==> Size(BackfillMarker(batchId, sourceId, createdAt, answer)) > MARKER_SERIALIZED_CAP_BYTES
  {
    hide Representable, EscapedLen, Decimal, LongestPrefix, MarkerPayload, Size;
    var (text, truncated) := BackfillText(batchId, sourceId, createdAt, answer);
    MarkerBytesExact(batchId, None, sourceId, createdAt, text, truncated);
    var normalized := if answer == Some("") then None else answer;
    TimestampDoesNotMatter(batchId, sourceId, createdAt, None, false);
    TimestampDoesNotMatter(batchId, sourceId, createdAt, normalized, false);
    TimestampDoesNotMatter(batchId, sourceId, createdAt, None, true);
    if truncated {
      FitSize(batchId, sourceId, createdAt, answer.value);
    }
  }

  // ---- The live gate ----

  /** The live gate: the widest ids and batch id would push the marker over the cap. */
  predicate ReservedEnvelopeExceedsCap(answer: Option<string>) {
    SerializedMarkerBytes(RESERVED_BATCH_ID, Some(RESERVED_EVENT_ID), RESERVED_EVENT_ID, RESERVED_TIMESTAMP, answer,
        false)
      > MARKER_SERIALIZED_CAP_BYTES
  }

  lemma {:induction false} DigitsMonotone(a: nat, b: nat)
    requires a <= b
    ensures |Digits(a)| <= |Digits(b)|
  {
    if a >= 10 {
      DigitsMonotone(a / 10, b / 10);
    }
  }

  lemma ReservedBatchWidth()
    ensures EscapedLen(RESERVED_BATCH_ID) == 36
  {
    var s := RESERVED_BATCH_ID;
    assert forall i :: 0 <= i < |s| ==> s[i] == '0' || s[i] == '-';
    PlainWidth(s);
  }

  /**
   * The live gate is conservative: an answer it admits fits the cap in every marker
   * with a batch id no wider than a UUID, positive ids and a representable timestamp.
   */
  lemma LiveGateConservative(batchId: string, escalationId: Option<int>, resolvedId: int, resolvedAt: string,
                             answer: Option<string>)
    requires !ReservedEnvelopeExceedsCap(answer)
    requires EscapedLen(batchId) <= 36 && Representable(resolvedAt)
    requires escalationId.Some? ==> 0 < escalationId.value <= I64_MAX
    requires 0 < resolvedId <= I64_MAX
    ensures Size(MarkerPayload(batchId, escalationId, resolvedId, resolvedAt, answer, false))
         <= MARKER_SERIALIZED_CAP_BYTES
  {
    hide Representable, Weigh, Digits;
    MarkerBytesExact(batchId, escalationId, resolvedId, resolvedAt, answer, false);
    ReservedBatchWidth();
    ReservedTimestampRepresentable();
    TimestampWidth(resolvedAt);
    TimestampWidth(RESERVED_TIMESTAMP);
    DigitsMonotone(resolvedId, RESERVED_EVENT_ID);
    if escalationId.Some? {
      DigitsMonotone(escalationId.value, RESERVED_EVENT_ID);
    }
  }

  /** It refuses no more than that demands: only answers the widest such marker has no room for. */
  lemma LiveGateTight(batchId: string, resolvedAt: string, answer: Option<string>)
    requires EscapedLen(batchId) == 36 && Representable(resolvedAt)
    ensures ReservedEnvelopeExceedsCap(answer) <==>
            Size(MarkerPayload(batchId, Some(I64_MAX), I64_MAX, resolvedAt, answer, false))
            > MARKER_SERIALIZED_CAP_BYTES
  {
    hide Representable, Weigh, Digits;
    MarkerBytesExact(batchId, Some(I64_MAX), I64_MAX, resolvedAt, answer, false);
    ReservedBatchWidth();
    ReservedTimestampRepresentable();
    TimestampWidth(resolvedAt);
    TimestampWidth(RESERVED_TIMESTAMP);
  }

  // ---- Reading payloads ----

  datatype ResolutionKind = Answer | Dismiss

  datatype OrderKey = OrderKey(primaryId: int, ownEventId: int, partOrdinal: nat)

  datatype Candidate = Candidate(
    kind: ResolutionKind,
    batchId: string,
    escalationEventId: Option<int>,
    orderKey: OrderKey,
    answerText: Option<string>,
    resolvedAtRaw: Option<string>,
    embeddedResolvedEventId: Option<int>,
    truncated: bool)

  /** Every part is an object, and every `data` member is one too. */
  predicate PartsDomainValid(parts: seq<Json>) {
    forall k :: 0 <= k < |parts| ==>
      parts[k].Obj? && (Get(parts[k], "data").Some? ==> Get(parts[k], "data").value.Obj?)
  }

  /** A payload's role and its domain-valid parts. */
  function ParseRoleAndParts(payload: string): Option<(Option<string>, seq<Json>)> {
    var v := Parse(payload);
    if v.None? then None else
    var parts := Get(v.value, "parts");
    if parts.None? || !parts.value.Arr? || !PartsDomainValid(parts.value.items) then None
    else Some((AsStr(Get(v.value, "role")), parts.value.items))
  }

  function ParseParts(payload: string): Option<seq<Json>> {
    var r := ParseRoleAndParts(payload);
    if r.None? then None else Some(r.value.1)
  }

  function TopRole(payload: string): Option<string> {
    var v := Parse(payload);
    if v.None? then None else AsStr(Get(v.value, "role"))
  }

  function DataMember(part: Json, key: string): Option<Json> {
    var data := Get(part, "data");
    if data.None? then None else Get(data.value, key)
  }

  function PartDataType(part: Json): Option<string> {
    AsStr(DataMember(part, "type"))
  }

  /** An id read from a payload counts only when it is a positive 64-bit integer. */
  function PositiveId(v: Option<Json>): Option<int> {
    if v.Some? && v.value.Int? && 0 < v.value.n <= I64_MAX then Some(v.value.n) else None
  }

  function TypeCount(parts: seq<Json>, dataType: string): nat {
    if parts == [] then 0
    else (if PartDataType(parts[0]) == Some(dataType) then 1 else 0) + TypeCount(parts[1..], dataType)
  }

  /** The resolution one part emits, if any. */
  function CandidateOf(part: Json, ordinal: nat, ownId: int): Option<Candidate> {
    var batchId := AsStr(DataMember(part, "batch_id"));
    if batchId.None? then None
    else if PartDataType(part) == Some(ANSWER_TYPE) then
      var embedded := PositiveId(DataMember(part, "resolved_event_id"));
      var text := AsStr(DataMember(part, "answer_text"));
      Some(Candidate(Answer, batchId.value, PositiveId(DataMember(part, "escalation_event_id")),
        OrderKey(if embedded.Some? then embedded.value else ownId, ownId, ordinal),
        if text == Some("") then None else text,
        AsStr(DataMember(part, "resolved_at")), embedded,
        DataMember(part, "truncated") == Some(Bool(true))))
    else if PartDataType(part) == Some(DISMISS_TYPE) then
      Some(Candidate(Dismiss, batchId.value, PositiveId(DataMember(part, "escalation_event_id")),
        OrderKey(ownId, ownId, ordinal), None, None, None, false))
    else None
  }

  function CandidatesFrom(parts: seq<Json>, k: nat, ownId: int): seq<Candidate>
    requires k <= |parts|
    decreases |parts| - k
  {
    if k == |parts| then []
    else
      var c := CandidateOf(parts[k], k, ownId);
      (if c.Some? then [c.value] else []) + CandidatesFrom(parts, k + 1, ownId)
  }

  /** Resolution candidates of a platform event; none when it carries several answers. */
  function Candidates(parts: seq<Json>, ownId: int): seq<Candidate> {
    if TypeCount(parts, ANSWER_TYPE) > 1 then [] else CandidatesFrom(parts, 0, ownId)
  }

  lemma CandidatesNext(parts: seq<Json>, k: nat, ownId: int, out: seq<Candidate>)
    requires k < |parts|
    ensures var c := CandidateOf(parts[k], k, ownId);
            out + CandidatesFrom(parts, k, ownId)
            == (if c.Some? then out + [c.value] else out) + CandidatesFrom(parts, k + 1, ownId)
  {
    hide CandidateOf;
  }

  method ResolutionCandidates(parts: seq<Json>, ownId: int) returns (out: seq<Candidate>)
    ensures out == Candidates(parts, ownId)
  {
    hide CandidateOf, TypeCount, CandidatesFrom;
    out := [];
    if TypeCount(parts, ANSWER_TYPE) > 1 {
      return;
    }
    for k := 0 to |parts|
      invariant out + CandidatesFrom(parts, k, ownId) == CandidatesFrom(parts, 0, ownId)
    {
      CandidatesNext(parts, k, ownId, out);
      var c := CandidateOf(parts[k], k, ownId);
      if c.Some? {
        out := out + [c.value];
      }
    }
    NoCandidatesLeft(parts, ownId);
  }

  lemma NoCandidatesLeft(parts: seq<Json>, ownId: int)
    ensures CandidatesFrom(parts, |parts|, ownId) == []
  {
  }

  /** The batch ids an agent's platform event escalates, in part order. */
  function EscalatedBatches(payload: string): seq<string> {
    if TopRole(payload) != Some(ROLE_AGENT) then []
    else
      var parts := ParseParts(payload);
      if parts.None? then [] else BatchesOf(parts.value)
  }

  function BatchesOf(parts: seq<Json>): seq<string> {
    if parts == [] then []
    else
      var batchId := AsStr(DataMember(parts[0], "batch_id"));
      (if PartDataType(parts[0]) == Some(ESCALATE_TYPE) && batchId.Some? then [batchId.value] else [])
        + BatchesOf(parts[1..])
  }

  datatype Escalation = Escalation(batchId: string, importance: string, questions: seq<Json>)

  /** The escalation batch a payload carries, when this contract wrote it. */
  function EscalationData(payload: string): Option<Escalation> {
    var r := ParseRoleAndParts(payload);
    if r.None? || r.value.0 != Some(ROLE_AGENT) then None else FirstEscalation(r.value.1)
  }

  function FirstEscalation(parts: seq<Json>): Option<Escalation> {
    if parts == [] || Get(parts[0], "data").None? then None
    else if PartDataType(parts[0]) != Some(ESCALATE_TYPE) then FirstEscalation(parts[1..])
    else
      var batchId := AsStr(DataMember(parts[0], "batch_id"));
      var questions := DataMember(parts[0], "questions");
      var importance := AsStr(DataMember(parts[0], "importance"));
      if batchId.None? || questions.None? || !questions.value.Arr? || questions.value.items == [] then None
      else Some(Escalation(batchId.value, if importance.Some? then importance.value else "blocking",
          questions.value.items))
  }

  function FirstText(parts: seq<Json>): Option<string> {
    if parts == [] then None
    else
      var text := AsStr(Get(parts[0], "text"));
      if text.Some? then text else FirstText(parts[1..])
  }

  function FirstAnswerBatch(parts: seq<Json>): Option<string> {
    if parts == [] then None
    else
      var batchId := AsStr(DataMember(parts[0], "batch_id"));
      if PartDataType(parts[0]) == Some(ANSWER_TYPE) && batchId.Some? then batchId
      else FirstAnswerBatch(parts[1..])
  }

  /** The batch and answer of a message-lane answer source, when it is an eligible one. */
  function AnswerSource(role: Option<string>, parts: seq<Json>): Option<(string, Option<string>)> {
    if role != Some(ROLE_USER) || TypeCount(parts, SENDER_TYPE) > 0 || TypeCount(parts, ANSWER_TYPE) != 1 then None
    else
      var batchId := FirstAnswerBatch(parts);
      var text := FirstText(parts);
      if batchId.None? then None
      else Some((batchId.value, if text == Some("") then None else text))
  }

  // ---- Reading a marker back ----

  lemma MarkerKeyOrder()
    ensures Before("answer_text", "batch_id") && Before("batch_id", "escalation_event_id")
    ensures Before("batch_id", "resolved_at") && Before("escalation_event_id", "resolved_at")
    ensures Before("resolved_at", "resolved_event_id")
    ensures Before("resolved_event_id", "truncated") && Before("resolved_event_id", "type")
    ensures Before("truncated", "type")
  {
    hide Before;
    BeforeByFirst("answer_text", "batch_id");
    BeforeByFirst("batch_id", "escalation_event_id");
    BeforeByFirst("batch_id", "resolved_at");
    BeforeByFirst("escalation_event_id", "resolved_at");
    BeforeByFirst("resolved_event_id", "truncated");
    BeforeByFirst("resolved_event_id", "type");
    BeforeByFirst("at", "event_id");
    BeforeShared("resolved_", "at", "event_id");
    assert "resolved_at" == "resolved_" + "at" && "resolved_event_id" == "resolved_" + "event_id";
    BeforeByFirst("runcated", "ype");
    BeforeShared("t", "runcated", "ype");
    assert "truncated" == "t" + "runcated" && "type" == "t" + "ype";
  }

  lemma ResolvedFind(resolvedId: int, resolvedAt: string, key: string)
    ensures key == "resolved_at" ==> Find(ResolvedMembers(resolvedId, resolvedAt), key) == Some(Str(resolvedAt))
    ensures key == "resolved_event_id" ==> Find(ResolvedMembers(resolvedId, resolvedAt), key) == Some(Int(resolvedId))
    ensures key != "resolved_at" && key != "resolved_event_id" ==>
              Find(ResolvedMembers(resolvedId, resolvedAt), key) == None
  {
    var d := ResolvedMembers(resolvedId, resolvedAt);
    var rest := [Field("resolved_event_id", Int(resolvedId))];
    assert d[1..] == rest && rest[1..] == [];
    assert Find(rest, key) == if key == "resolved_event_id" then Some(Int(resolvedId)) else None;
    assert |"resolved_at"| != |"resolved_event_id"|;
  }

  /** A member of the marker data by its key, part by part. */
  lemma MarkerFind(batchId: string, escalationId: Option<int>, resolvedId: int, resolvedAt: string,
                   answer: Option<string>, truncated: bool, key: string)
    ensures Get(MarkerData(batchId, escalationId, resolvedId, resolvedAt, answer, truncated), key)
         == if key == "answer_text" && answer.Some? then Some(Str(answer.value))
            else if key == "batch_id" then Some(Str(batchId))
            else if key == "escalation_event_id" && escalationId.Some? then Some(Int(escalationId.value))
            else if key == "resolved_at" then Some(Str(resolvedAt))
            else if key == "resolved_event_id" then Some(Int(resolvedId))
            else if key == "truncated" && truncated then Some(Bool(true))
            else if key == "type" then Some(Str(ANSWER_TYPE))
            else None
  {
    var a, b, c := AnswerMember(answer), [Field("batch_id", Str(batchId))], EscalationMember(escalationId);
    var d, e, f := ResolvedMembers(resolvedId, resolvedAt), TruncatedMember(truncated),
        [Field("type", Str(ANSWER_TYPE))];
    FindAppend(a, b, key);
    FindAppend(a + b, c, key);
    FindAppend(a + b + c, d, key);
    FindAppend(a + b + c + d, e, key);
    FindAppend(a + b + c + d + e, f, key);
    assert Find(a, key) == if key == "answer_text" && answer.Some? then Some(Str(answer.value)) else None;
    assert Find(c, key)
        == if key == "escalation_event_id" && escalationId.Some? then Some(Int(escalationId.value)) else None;
    ResolvedFind(resolvedId, resolvedAt, key);
    assert Find(e, key) == if key == "truncated" && truncated then Some(Bool(true)) else None;
    assert "answer_text"[0] != "resolved_at"[0];
  }

  lemma KeysAscendAppend(a: seq<Field>, b: seq<Field>)
    requires KeysAscend(a) && KeysAscend(b)
    requires a != [] && b != [] ==> Before(a[|a| - 1].key, b[0].key)
    ensures KeysAscend(a + b)
  {
    hide Before;
    var s := a + b;
    forall i | 0 <= i < |s| - 1 ensures Before(s[i].key, s[i + 1].key) {
      if i < |a| - 1 {
        assert s[i] == a[i] && s[i + 1] == a[i + 1];
      } else if i >= |a| {
        assert s[i] == b[i - |a|] && s[i + 1] == b[i + 1 - |a|];
      }
    }
  }

  lemma MarkerKeysAscend(batchId: string, escalationId: Option<int>, resolvedId: int, resolvedAt: string,
                         answer: Option<string>, truncated: bool)
    ensures KeysAscend(MarkerData(batchId, escalationId, resolvedId, resolvedAt, answer, truncated).fields)
  {
    hide Before;
    MarkerKeyOrder();
    var a, b, c := AnswerMember(answer), [Field("batch_id", Str(batchId))], EscalationMember(escalationId);
    var d, e, f := ResolvedMembers(resolvedId, resolvedAt), TruncatedMember(truncated),
        [Field("type", Str(ANSWER_TYPE))];
    KeysAscendAppend(a, b);
    KeysAscendAppend(a + b, c);
    KeysAscendAppend(a + b + c, d);
    KeysAscendAppend(a + b + c + d, e);
    KeysAscendAppend(a + b + c + d + e, f);
  }

  /** A marker with i64 ids is a value serde_json holds. */
  lemma MarkerWellFormed(batchId: string, escalationId: Option<int>, resolvedId: int, resolvedAt: string,
                         answer: Option<string>, truncated: bool)
    requires IntegerInRange(resolvedId) && (escalationId.Some? ==> IntegerInRange(escalationId.value))
    ensures WellFormed(MarkerPayload(batchId, escalationId, resolvedId, resolvedAt, answer, truncated))
  {
    hide KeysAscend, IntegerInRange;
    var data := MarkerData(batchId, escalationId, resolvedId, resolvedAt, answer, truncated);
    MarkerKeysAscend(batchId, escalationId, resolvedId, resolvedAt, answer, truncated);
    forall j | 0 <= j < |data.fields| ensures WellFormed(data.fields[j].value) {
      MarkerValues(batchId, escalationId, resolvedId, resolvedAt, answer, truncated, j);
    }
    assert WellFormed(data);
    var part := Obj([Field("data", data)]);
    SingleMember("data", data);
    assert WellFormed(Arr([part]));
    SingleMember("parts", Arr([part]));
  }

  lemma SingleMember(key: string, v: Json)
    requires WellFormed(v)
    ensures WellFormed(Obj([Field(key, v)]))
  {
  }

  lemma MarkerValues(batchId: string, escalationId: Option<int>, resolvedId: int, resolvedAt: string,
                     answer: Option<string>, truncated: bool, j: nat)
    requires var fields := MarkerData(batchId, escalationId, resolvedId, resolvedAt, answer, truncated).fields;
             j < |fields|
    ensures var v := MarkerData(batchId, escalationId, resolvedId, resolvedAt, answer, truncated).fields[j].value;
            v.Str? || v.Bool? || v == Int(resolvedId) || (escalationId.Some? && v == Int(escalationId.value))
  {
  }

  /** The candidate a marker stands for: ids count only when positive, text only when nonempty. */
  function MarkerCandidate(batchId: string, escalationId: Option<int>, resolvedId: int, resolvedAt: string,
                           answer: Option<string>, truncated: bool, ownId: int): Candidate
  {
    Candidate(Answer, batchId,
      if escalationId.Some? && 0 < escalationId.value then escalationId else None,
      OrderKey(if 0 < resolvedId then resolvedId else ownId, ownId, 0),
      if answer == Some("") then None else answer,
      Some(resolvedAt), if 0 < resolvedId then Some(resolvedId) else None, truncated)
  }

  lemma MarkerParts(batchId: string, escalationId: Option<int>, resolvedId: int, resolvedAt: string,
                    answer: Option<string>, truncated: bool)
    ensures var data := MarkerData(batchId, escalationId, resolvedId, resolvedAt, answer, truncated);
            var payload := MarkerPayload(batchId, escalationId, resolvedId, resolvedAt, answer, truncated);
            && Get(payload, "parts") == Some(Arr([Obj([Field("data", data)])]))
            && Get(payload, "role") == None
            && PartsDomainValid([Obj([Field("data", data)])])
  {
    var data := MarkerData(batchId, escalationId, resolvedId, resolvedAt, answer, truncated);
    assert data.Obj?;
    hide MarkerData;
    var part := Obj([Field("data", data)]);
    var top := [Field("parts", Arr([part]))];
    assert |"parts"| != |"role"| && top[1..] == [];
    assert Get(part, "data") == Some(data);
    assert Find(top, "role") == None && Find(top, "parts") == Some(Arr([part]));
  }

  lemma MarkerCandidateOf(batchId: string, escalationId: Option<int>, resolvedId: int, resolvedAt: string,
                          answer: Option<string>, truncated: bool, ownId: int)
    requires resolvedId <= I64_MAX && (escalationId.Some? ==> escalationId.value <= I64_MAX)
    ensures var part := Obj([Field("data",
            MarkerData(batchId, escalationId, resolvedId, resolvedAt, answer, truncated))]);
            && CandidateOf(part, 0, ownId)
               == Some(MarkerCandidate(batchId, escalationId, resolvedId, resolvedAt, answer, truncated, ownId))
            && PartDataType(part) == Some(ANSWER_TYPE)
  {
    var data := MarkerData(batchId, escalationId, resolvedId, resolvedAt, answer, truncated);
    var part := Obj([Field("data", data)]);
    assert Get(part, "data") == Some(data);
    hide MarkerData, Get, Find;
    MarkerFind(batchId, escalationId, resolvedId, resolvedAt, answer, truncated, "answer_text");
    MarkerFind(batchId, escalationId, resolvedId, resolvedAt, answer, truncated, "batch_id");
    MarkerFind(batchId, escalationId, resolvedId, resolvedAt, answer, truncated, "escalation_event_id");
    MarkerFind(batchId, escalationId, resolvedId, resolvedAt, answer, truncated, "resolved_at");
    MarkerFind(batchId, escalationId, resolvedId, resolvedAt, answer, truncated, "resolved_event_id");
    MarkerFind(batchId, escalationId, resolvedId, resolvedAt, answer, truncated, "truncated");
    MarkerFind(batchId, escalationId, resolvedId, resolvedAt, answer, truncated, "type");
    assert "answer_text"[0] != "resolved_at"[0];
  }

  /**
   * Reading back the stored text of a marker yields exactly one candidate, with the
   * fields it was written with, and no role or escalation.
   */
  lemma MarkerReadsBack(batchId: string, escalationId: Option<int>, resolvedId: int, resolvedAt: string,
                        answer: Option<string>, truncated: bool, ownId: int)
    requires I64_MIN <= resolvedId <= I64_MAX
    requires escalationId.Some? ==> I64_MIN <= escalationId.value <= I64_MAX
    ensures var text := Serialize(MarkerPayload(batchId, escalationId, resolvedId, resolvedAt, answer, truncated));
            && ParseParts(text).Some?
            && Candidates(ParseParts(text).value, ownId)
               == [MarkerCandidate(batchId, escalationId, resolvedId, resolvedAt, answer, truncated, ownId)]
            && TopRole(text) == None
            && EscalatedBatches(text) == []
            && EscalationData(text) == None
  {
    hide WellFormed, Parse, MarkerData, MarkerPayload, CandidateOf, PartsDomainValid, PartDataType, MarkerCandidate,
        Get;
    var payload := MarkerPayload(batchId, escalationId, resolvedId, resolvedAt, answer, truncated);
    var part := Obj([Field("data", MarkerData(batchId, escalationId, resolvedId, resolvedAt, answer, truncated))]);
    MarkerWellFormed(batchId, escalationId, resolvedId, resolvedAt, answer, truncated);
    RoundTrip(payload);
    MarkerParts(batchId, escalationId, resolvedId, resolvedAt, answer, truncated);
    MarkerCandidateOf(batchId, escalationId, resolvedId, resolvedAt, answer, truncated, ownId);
    assert [part][1..] == [];
    assert TypeCount([part], ANSWER_TYPE) == 1;
    assert CandidatesFrom([part], 1, ownId) == [];
  }
}
