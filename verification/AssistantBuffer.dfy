/**
 * The executor's assistant buffer within one attempt: content blocks are held until a
 * message is known to be final, then emitted as one persisted message.
 */
module AssistantBuffer {
  import opened Prelude

  // ---- What the SDK delivers ----

  datatype Block =
    | TextBlock(text: string)
    | ToolUse(toolUseId: string)
    | ToolResult(forToolUseId: string)
    | UsageUpdate(inputTokens: int, outputTokens: int)
    | OtherBlock(raw: string)

  datatype Usage = Usage(inputTokens: int, cacheRead: Option<int>, cacheCreation: Option<int>,
      outputTokens: Option<int>)

  /**
   * A message of the SDK stream. `content` is absent where it is not an array,
   * `usage` where it has no numeric input count, `subtype` and `result` where they
   * are not strings; `contextWindow` is the largest one reported, or 0.
   */
  datatype Message =
    | SystemInit(sessionId: string)
    | CompactBoundary(trigger: Option<string>)
    | OtherSystem(raw: string)
    | Assistant(content: Option<seq<Block>>, usage: Option<Usage>, stopReason: bool, error: Option<string>)
    | User(userContent: Option<seq<Block>>)
    | ResultMessage(subtype: Option<string>, result: Option<string>, contextWindow: int)
    | Delta(raw: string)
    | MessageStop
    | OtherStreamEvent(raw: string)
    | NoEvent
    | Unhandled(raw: string, toolProgress: bool)

  datatype Emission =
    | Init(sessionId: string)
    | Flushed(blocks: seq<Block>)
    | ToolResults(blocks: seq<Block>)
    | ErrorEcho(error: string)
    | UsageSnapshot(contextWindow: int)
    | Passthrough(raw: string, ephemeral: bool)
    | Compaction(trigger: string)
    | TurnResult(subtype: string, result: Option<string>)

  // ---- The step function ----

  datatype State = State(pending: Option<seq<Block>>, finalOutput: Option<string>, emitted: seq<Emission>)

  const FRESH: State := State(None, None, [])

  function Emit(s: State, e: Emission): State {
    s.(emitted := s.emitted + [e])
  }

  /** The text of a message's text blocks. */
  function TextOf(blocks: seq<Block>): string {
    if blocks == [] then ""
    else if blocks[0].TextBlock? then blocks[0].text + TextOf(blocks[1..])
    else TextOf(blocks[1..])
  }

  /** Text is taken from text blocks alone. */
  lemma TextOfOne(block: Block)
    ensures TextOf([block]) == if block.TextBlock? then block.text else ""
  {
    assert [block][1..] == [];
  }

  /** Text is taken block by block, in order. */
  lemma {:induction false} TextInOrder(a: seq<Block>, b: seq<Block>)
    ensures TextOf(a + b) == TextOf(a) + TextOf(b)
  {
    if a == [] {
      assert a + b == b;
    } else {
      assert (a + b)[1..] == a[1..] + b;
      TextInOrder(a[1..], b);
    }
  }

  function Flush(s: State): State {
    if s.pending.None? then s
    else State(None, Some(TextOf(s.pending.value)), s.emitted + [Flushed(s.pending.value)])
  }

  function UsageBlock(usage: Usage): Block {
    UsageUpdate(
      usage.inputTokens + (if usage.cacheRead.Some? then usage.cacheRead.value else 0)
        + (if usage.cacheCreation.Some? then usage.cacheCreation.value else 0),
      if usage.outputTokens.Some? then usage.outputTokens.value else 0)
  }

  /** Tokens read from or written to the cache count as input; a count that is absent is nothing. */
  lemma UsageCounted(usage: Usage)
    ensures var b := UsageBlock(usage);
            && b.UsageUpdate?
            && b.inputTokens - usage.inputTokens == Count(usage.cacheRead) + Count(usage.cacheCreation)
            && b.outputTokens == Count(usage.outputTokens)
  {
  }

  function Count(tokens: Option<int>): int {
    match tokens
    case None => 0
    case Some(n) => n
  }

  /** The blocks an assistant message adds to the buffer. */
  function BlocksOf(m: Message): seq<Block> {
    if !m.Assistant? then []
    else (if m.content.Some? then m.content.value else []) + (if m.usage.Some? then [UsageBlock(m.usage.value)] else [])
  }

  function Buffered(s: State): seq<Block> {
    if s.pending.Some? then s.pending.value else []
  }

  function OnAssistant(s: State, m: Message): State
    requires m.Assistant?
  {
    var s1 := if m.error.Some? && m.error.value != "" then Emit(s, ErrorEcho(m.error.value)) else s;
    var s2 := s1.(pending := Some(Buffered(s1) + BlocksOf(m)));
    if m.stopReason then Flush(s2) else s2
  }

  function ResultsIn(blocks: seq<Block>): seq<Block> {
    if blocks == [] then []
    else (if blocks[0].ToolResult? then [blocks[0]] else []) + ResultsIn(blocks[1..])
  }

  function OnUser(s: State, content: Option<seq<Block>>): State {
    var results := if content.Some? then ResultsIn(content.value) else [];
    if results == [] then s else Emit(Flush(s), ToolResults(results))
  }

  /** The result text: the SDK's own, or the last flushed text of a successful turn. */
  function ResultText(subtype: Option<string>, result: Option<string>, fallback: Option<string>): Option<string> {
    if subtype != Some("success") then None
    else if result.Some? then result
    else if fallback.Some? && fallback.value != "" then fallback
    else None
  }

  function OnResult(s: State, subtype: Option<string>, result: Option<string>, contextWindow: int): State {
    var s1 := if subtype == Some("success") && Buffered(s) != [] then Flush(s) else s;
    var s2 := State(None, None, s1.emitted + if contextWindow > 0 then [UsageSnapshot(contextWindow)] else []);
    Emit(s2, TurnResult(if subtype.Some? then subtype.value else "success",
        ResultText(subtype, result, s1.finalOutput)))
  }

  function Step(s: State, m: Message): State {
    match m
    case SystemInit(sessionId) => Emit(s, Init(sessionId))
    case CompactBoundary(trigger) => Emit(s, Compaction(if trigger.Some? then trigger.value else "auto"))
    case OtherSystem(raw) => Emit(s, Passthrough(raw, false))
    case Assistant(_, _, _, _) => OnAssistant(s, m)
    case User(content) => OnUser(s, content)
    case ResultMessage(subtype, result, contextWindow) => OnResult(s, subtype, result, contextWindow)
    case Delta(raw) => Emit(s, Passthrough(raw, true))
    case MessageStop => Flush(s)
    case OtherStreamEvent(raw) => Emit(s, Passthrough(raw, true))
    case NoEvent => s
    case Unhandled(raw, toolProgress) => Emit(s, Passthrough(raw, toolProgress))
  }

  function Run(s: State, stream: seq<Message>): State
    decreases |stream|
  {
    if stream == [] then s else Run(Step(s, stream[0]), stream[1..])
  }

  lemma {:induction false} RunConcat(s: State, a: seq<Message>, b: seq<Message>)
    ensures Run(s, a + b) == Run(Run(s, a), b)
    decreases |a|
  {
    hide Step;
    if a == [] {
      assert a + b == b;
    } else {
      assert (a + b)[1..] == a[1..] + b;
      RunConcat(Step(s, a[0]), a[1..], b);
    }
  }

  // ---- What becomes of each block, read off the stream alone ----

  datatype Fate = Delivered | Discarded | Held

  /** Messages that show the buffered content to be final. */
  predicate Confirms(m: Message) {
    || (m.Assistant? && m.stopReason)
    || m.MessageStop?
    || (m.User? && m.userContent.Some? && exists b :: b in m.userContent.value && b.ToolResult?)
    || (m.ResultMessage? && m.subtype == Some("success"))
  }

  /** The fate of content that is in the buffer when `stream` arrives: the next boundary decides. */
  function FateOf(stream: seq<Message>): Fate {
    if stream == [] then Held
    else if Confirms(stream[0]) then Delivered
    else if stream[0].ResultMessage? then Discarded
    else FateOf(stream[1..])
  }

  /** The blocks received in the stream that meet a given fate, in order. */
  function BlocksWith(stream: seq<Message>, fate: Fate): seq<Block> {
    if stream == [] then []
    else (if FateOf(stream) == fate then BlocksOf(stream[0]) else []) + BlocksWith(stream[1..], fate)
  }

  /** The blocks of the flushed messages, in order. */
  function FlushedOf(emitted: seq<Emission>): seq<Block> {
    if emitted == [] then []
    else
      var last := emitted[|emitted| - 1];
      FlushedOf(emitted[..|emitted| - 1]) + if last.Flushed? then last.blocks else []
  }

  lemma FlushedSnoc(emitted: seq<Emission>, e: Emission)
    ensures FlushedOf(emitted + [e]) == if e.Flushed? then FlushedOf(emitted) + e.blocks else FlushedOf(emitted)
  {
    assert (emitted + [e])[..|emitted|] == emitted;
    assert FlushedOf(emitted) + [] == FlushedOf(emitted);
  }

  lemma FlushMoves(s: State)
    ensures FlushedOf(Flush(s).emitted) == FlushedOf(s.emitted) + Buffered(s)
    ensures Buffered(Flush(s)) == [] && Flush(s).pending.None?
  {
    hide FlushedOf;
    if s.pending.Some? {
      FlushedSnoc(s.emitted, Flushed(s.pending.value));
    } else {
      assert FlushedOf(s.emitted) + [] == FlushedOf(s.emitted);
    }
  }

  lemma {:induction false} ResultsEmpty(blocks: seq<Block>)
    ensures ResultsIn(blocks) == [] <==> forall b :: b in blocks ==> !b.ToolResult?
  {
    if blocks != [] {
      ResultsEmpty(blocks[1..]);
      assert blocks == [blocks[0]] + blocks[1..];
    }
  }

  lemma UserMoves(s: State, content: Option<seq<Block>>)
    ensures var r := OnUser(s, content);
            if Confirms(User(content))
            then FlushedOf(r.emitted) == FlushedOf(s.emitted) + Buffered(s) && Buffered(r) == []
            else r == s
  {
    hide FlushedOf, Flush;
    if content.Some? {
      ResultsEmpty(content.value);
      FlushMoves(s);
      FlushedSnoc(Flush(s).emitted, ToolResults(ResultsIn(content.value)));
    }
  }

  lemma ResultMoves(s: State, subtype: Option<string>, result: Option<string>, contextWindow: int)
    ensures var r := OnResult(s, subtype, result, contextWindow);
            && Buffered(r) == []
            && FlushedOf(r.emitted) == FlushedOf(s.emitted) + if subtype == Some("success") then Buffered(s) else []
  {
    hide FlushedOf, Flush, ResultText;
    var s1 := if subtype == Some("success") && Buffered(s) != [] then Flush(s) else s;
    FlushMoves(s);
    var window := s1.emitted + if contextWindow > 0 then [UsageSnapshot(contextWindow)] else [];
    FlushedSnoc(s1.emitted, UsageSnapshot(contextWindow));
    assert s1.emitted + [] == s1.emitted;
    var text := ResultText(subtype, result, s1.finalOutput);
    FlushedSnoc(window, TurnResult(if subtype.Some? then subtype.value else "success", text));
    assert FlushedOf(s.emitted) + [] == FlushedOf(s.emitted);
  }

  lemma AssistantMoves(s: State, m: Message)
    requires m.Assistant?
    ensures var r := OnAssistant(s, m);
            if m.stopReason
            then FlushedOf(r.emitted) == FlushedOf(s.emitted) + Buffered(s) + BlocksOf(m) && Buffered(r) == []
            else FlushedOf(r.emitted) == FlushedOf(s.emitted) && Buffered(r) == Buffered(s) + BlocksOf(m)
  {
    hide FlushedOf, Flush, BlocksOf;
    var s1 := if m.error.Some? && m.error.value != "" then Emit(s, ErrorEcho(m.error.value)) else s;
    if m.error.Some? {
      FlushedSnoc(s.emitted, ErrorEcho(m.error.value));
    }
    var s2 := s1.(pending := Some(Buffered(s1) + BlocksOf(m)));
    FlushMoves(s2);
    assert FlushedOf(s.emitted) + (Buffered(s) + BlocksOf(m)) == FlushedOf(s.emitted) + Buffered(s) + BlocksOf(m);
  }

  /** One message moves the buffer, and its own blocks, where the message says. */
  lemma StepMoves(s: State, m: Message)
    ensures var r := Step(s, m);
            var all := Buffered(s) + BlocksOf(m);
            && (Confirms(m) ==> FlushedOf(r.emitted) == FlushedOf(s.emitted) + all && Buffered(r) == [])
            && (!Confirms(m) && m.ResultMessage? ==> FlushedOf(r.emitted) == FlushedOf(s.emitted) && Buffered(r) == [])
            && (!Confirms(m) && !m.ResultMessage? ==>
                FlushedOf(r.emitted) == FlushedOf(s.emitted) && Buffered(r) == all)
  {
    hide FlushedOf, Flush, OnAssistant, OnUser, OnResult;
    assert m.Assistant? || Buffered(s) + BlocksOf(m) == Buffered(s);
    match m
    case Assistant(_, _, _, _) =>
      AssistantMoves(s, m);
      assert FlushedOf(s.emitted) + (Buffered(s) + BlocksOf(m)) == FlushedOf(s.emitted) + Buffered(s) + BlocksOf(m);
    case User(content) => UserMoves(s, content);
    case ResultMessage(subtype, result, contextWindow) =>
      ResultMoves(s, subtype, result, contextWindow);
      assert FlushedOf(s.emitted) + [] == FlushedOf(s.emitted);
    case MessageStop => FlushMoves(s);
    case NoEvent =>
    case _ => FlushedSnoc(s.emitted, Step(s, m).emitted[|s.emitted|]);
  }

  lemma {:induction false} RunMoves(s: State, stream: seq<Message>)
    ensures var r := Run(s, stream);
            && FlushedOf(r.emitted) == FlushedOf(s.emitted) + (if FateOf(stream) == Delivered then Buffered(s) else [])
                                         + BlocksWith(stream, Delivered)
            && Buffered(r) == (if FateOf(stream) == Held then Buffered(s) else []) + BlocksWith(stream, Held)
    decreases |stream|
  {
    hide FlushedOf, Step, BlocksOf, Confirms;
    if stream == [] {
      assert FlushedOf(s.emitted) + [] + [] == FlushedOf(s.emitted);
    } else {
      StepMoves(s, stream[0]);
      var s1 := Step(s, stream[0]);
      RunMoves(s1, stream[1..]);
    }
  }

  /**
   * The flushed messages carry exactly the blocks whose next boundary confirms them,
   * in the order received, and the buffer exactly those no boundary has reached; the
   * rest were discarded at a result that was not a success.
   */
  lemma BlocksConserved(stream: seq<Message>)
    ensures FlushedOf(Run(FRESH, stream).emitted) == BlocksWith(stream, Delivered)
    ensures Buffered(Run(FRESH, stream)) == BlocksWith(stream, Held)
  {
    RunMoves(FRESH, stream);
  }

  /** The blocks received in the stream that were not discarded, in order. */
  function NotDiscarded(stream: seq<Message>): seq<Block> {
    if stream == [] then []
    else (if FateOf(stream) == Discarded then [] else BlocksOf(stream[0])) + NotDiscarded(stream[1..])
  }

  lemma {:induction false} NothingDeliveredAfter(stream: seq<Message>)
    requires FateOf(stream) == Held
    ensures BlocksWith(stream, Delivered) == []
  {
    if stream != [] {
      NothingDeliveredAfter(stream[1..]);
    }
  }

  lemma {:induction false} DeliveredThenHeld(stream: seq<Message>)
    ensures BlocksWith(stream, Delivered) + BlocksWith(stream, Held) == NotDiscarded(stream)
  {
    hide BlocksOf, Confirms;
    if stream != [] {
      DeliveredThenHeld(stream[1..]);
      var own, rest := BlocksOf(stream[0]), stream[1..];
      match FateOf(stream)
      case Delivered => assert own + BlocksWith(rest, Delivered) + BlocksWith(rest, Held) == own + NotDiscarded(rest);
      case Held => NothingDeliveredAfter(stream);
      case Discarded =>
    }
  }

  /** Flushed blocks followed by the buffer are what was received, minus what was discarded. */
  lemma NothingTwiceNothingLost(stream: seq<Message>)
    ensures var r := Run(FRESH, stream); FlushedOf(r.emitted) + Buffered(r) == NotDiscarded(stream)
  {
    BlocksConserved(stream);
    DeliveredThenHeld(stream);
  }

  function AllBlocks(stream: seq<Message>): seq<Block> {
    if stream == [] then [] else BlocksOf(stream[0]) + AllBlocks(stream[1..])
  }

  predicate OnlySuccesses(stream: seq<Message>) {
    forall m :: m in stream ==> (m.ResultMessage? ==> m.subtype == Some("success"))
  }

  lemma {:induction false} SuccessDiscardsNothing(stream: seq<Message>)
    requires OnlySuccesses(stream)
    ensures FateOf(stream) != Discarded && NotDiscarded(stream) == AllBlocks(stream)
  {
    hide BlocksOf;
    if stream != [] {
      assert stream[0] in stream && forall m :: m in stream[1..] ==> m in stream;
      SuccessDiscardsNothing(stream[1..]);
    }
  }

  /** When every result is a success, no block is lost. */
  lemma NoneLostOnSuccess(stream: seq<Message>)
    requires OnlySuccesses(stream)
    ensures var r := Run(FRESH, stream); FlushedOf(r.emitted) + Buffered(r) == AllBlocks(stream)
  {
    hide OnlySuccesses, FlushedOf, NotDiscarded, AllBlocks, Run;
    NothingTwiceNothingLost(stream);
    SuccessDiscardsNothing(stream);
  }

  // ---- Exactly when blocks are lost ----

  /** A result that the executor reports as a success. */
  predicate ReportedSuccess(m: Message) {
    m.ResultMessage? && (m.subtype.None? || m.subtype == Some("success"))
  }

  /** The report is the last thing a result emits, and says what the subtype says, or success without one. */
  lemma ResultReports(s: State, m: Message)
    requires m.ResultMessage?
    ensures var out := Step(s, m).emitted;
            && out != [] && out[|out| - 1].TurnResult?
            && (out[|out| - 1].subtype == "success" <==> ReportedSuccess(m))
  {
    hide Flush, ResultText;
  }

  /**
   * A result reported as a success delivers the buffer exactly when it carries a
   * subtype, or there was nothing to deliver.
   */
  lemma ReportedSuccessExact(stream: seq<Message>, m: Message)
    requires ReportedSuccess(m)
    ensures var before, after := Run(FRESH, stream), Run(FRESH, stream + [m]);
            && after.emitted != [] && after.emitted[|after.emitted| - 1].TurnResult?
            && after.emitted[|after.emitted| - 1].subtype == "success"
            && Buffered(after) == []
            && (FlushedOf(after.emitted) == FlushedOf(before.emitted) + Buffered(before)
                <==> m.subtype.Some? || Buffered(before) == [])
  {
    hide FlushedOf, Flush, OnResult;
    var before := Run(FRESH, stream);
    RunConcat(FRESH, stream, [m]);
    assert [m][1..] == [];
    assert Run(FRESH, stream + [m]) == Step(before, m);
    hide Run;
    ResultReports(before, m);
    ResultMoves(before, m.subtype, m.result, m.contextWindow);
    assert FlushedOf(before.emitted) + [] == FlushedOf(before.emitted);
  }

  lemma TextHeld(text: string)
    ensures Step(FRESH, Assistant(Some([TextBlock(text)]), None, false, None)) ==
            State(Some([TextBlock(text)]), None, [])
  {
    var m := Assistant(Some([TextBlock(text)]), None, false, None);
    assert BlocksOf(m) == [TextBlock(text)] && [] + BlocksOf(m) == BlocksOf(m);
  }

  lemma UnmarkedResultDrops(s: State)
    requires s.emitted == []
    ensures Step(s, ResultMessage(None, None, 0)) == State(None, None, [TurnResult("success", None)])
  {
  }

  /** Text before a result without a subtype: reported as a success, delivered nowhere, held nowhere. */
  lemma UnmarkedResultLosesText()
    ensures var text := Assistant(Some([TextBlock("x")]), None, false, None);
            var r := Run(FRESH, [text, ResultMessage(None, None, 0)]);
            r.emitted == [TurnResult("success", None)] && FlushedOf(r.emitted) == [] && Buffered(r) == []
  {
    hide Step;
    var text, done := Assistant(Some([TextBlock("x")]), None, false, None), ResultMessage(None, None, 0);
    TextHeld("x");
    UnmarkedResultDrops(Step(FRESH, text));
    assert [text, done][1..] == [done] && [done][1..] == [];
    assert Run(Step(FRESH, text), [done]) == Step(Step(FRESH, text), done);
    FlushedSnoc([], TurnResult("success", None));
    assert [] + [TurnResult("success", None)] == [TurnResult("success", None)];
  }

  /** A result that discards what is buffered: any whose subtype is not a success, absent or not. */
  predicate Discards(m: Message) {
    m.ResultMessage? && m.subtype != Some("success")
  }

  /** Every discarding result arrives with nothing buffered. */
  predicate DiscardsOnlyEmpty(stream: seq<Message>) {
    forall k :: 0 <= k < |stream| && Discards(stream[k]) ==> BlocksWith(stream[..k], Held) == []
  }

  lemma DiscardsOnlyEmptyNext(stream: seq<Message>, m: Message)
    ensures DiscardsOnlyEmpty(stream + [m]) <==>
            DiscardsOnlyEmpty(stream) && (Discards(m) ==> BlocksWith(stream, Held) == [])
  {
    hide Discards, BlocksWith;
    var more := stream + [m];
    assert more[..|stream|] == stream && more[|stream|] == m;
    forall k | 0 <= k < |stream| ensures more[..k] == stream[..k] && more[k] == stream[k] {
    }
    if DiscardsOnlyEmpty(more) {
      forall k | 0 <= k < |stream| && Discards(stream[k]) ensures BlocksWith(stream[..k], Held) == [] {
        assert Discards(more[k]);
      }
      assert Discards(m) ==> Discards(more[|stream|]);
    }
  }

  lemma {:induction false} AllBlocksNext(stream: seq<Message>, m: Message)
    ensures AllBlocks(stream + [m]) == AllBlocks(stream) + BlocksOf(m)
  {
    hide BlocksOf;
    if stream == [] {
      assert stream + [m] == [m] && [m][1..] == [];
    } else {
      assert (stream + [m])[1..] == stream[1..] + [m];
      AllBlocksNext(stream[1..], m);
    }
  }

  /** The blocks delivered or held after one more message. */
  lemma SurvivorsNext(s: State, m: Message)
    ensures var r := Step(s, m);
            var was, now := FlushedOf(s.emitted) + Buffered(s), FlushedOf(r.emitted) + Buffered(r);
            if Discards(m) then now == FlushedOf(s.emitted) else now == was + BlocksOf(m)
  {
    hide FlushedOf, BlocksOf, Step;
    StepMoves(s, m);
    ResultsBringNothing(m);
    var flushed, held, own := FlushedOf(s.emitted), Buffered(s), BlocksOf(m);
    assert flushed + (held + own) == flushed + held + own;
    assert flushed + [] == flushed;
    if m.ResultMessage? {
      assert Confirms(m) <==> !Discards(m);
    }
  }

  lemma ResultsBringNothing(m: Message)
    ensures Discards(m) ==> BlocksOf(m) == []
  {
  }

  lemma {:induction false} SurvivorsCounted(stream: seq<Message>)
    ensures var r := Run(FRESH, stream);
            var kept := FlushedOf(r.emitted) + Buffered(r);
            && |kept| <= |AllBlocks(stream)|
            && (|kept| == |AllBlocks(stream)| <==> DiscardsOnlyEmpty(stream))
            && (DiscardsOnlyEmpty(stream) ==> kept == AllBlocks(stream))
    decreases |stream|
  {
    hide FlushedOf, BlocksOf, Step, BlocksWith, DiscardsOnlyEmpty, AllBlocks, Buffered;
    if stream == [] {
      NothingReceived();
    } else {
      var init, m := stream[..|stream| - 1], stream[|stream| - 1];
      var s := Run(FRESH, init);
      assert stream == init + [m];
      SurvivorsCounted(init);
      OneMore(stream, |init|);
      assert stream[..|init| + 1] == stream;
      SurvivorsNext(s, m);
      AllBlocksNext(init, m);
      DiscardsOnlyEmptyNext(init, m);
      BlocksConserved(init);
      ResultsBringNothing(m);
    }
  }

  lemma NothingReceived()
    ensures FlushedOf([]) == [] && Buffered(FRESH) == [] && AllBlocks([]) == [] && DiscardsOnlyEmpty([])
  {
  }

  /**
   * A stream loses no block exactly when every result whose subtype is not a success,
   * whether it names a failure or nothing, arrives with the buffer empty.
   */
  lemma NoneLostExact(stream: seq<Message>)
    ensures var r := Run(FRESH, stream);
            FlushedOf(r.emitted) + Buffered(r) == AllBlocks(stream) <==> DiscardsOnlyEmpty(stream)
  {
    hide Run, FlushedOf, Buffered, AllBlocks, DiscardsOnlyEmpty;
    SurvivorsCounted(stream);
  }

  // ---- Tool uses precede their results ----

  lemma {:induction false} FateGrows(a: seq<Message>, m: Message)
    ensures FateOf(a + [m]) ==
            if FateOf(a) != Held then FateOf(a)
            else if Confirms(m) then Delivered
            else if m.ResultMessage? then Discarded
            else Held
  {
    hide Confirms;
    if a == [] {
      assert a + [m] == [m] && [m][1..] == [];
    } else {
      assert (a + [m])[1..] == a[1..] + [m];
      FateGrows(a[1..], m);
    }
  }

  lemma {:induction false} BlockKept(stream: seq<Message>, i: nat, b: Block)
    requires i < |stream| && b in BlocksOf(stream[i]) && FateOf(stream[i..]) != Discarded
    ensures b in NotDiscarded(stream)
  {
    hide BlocksOf, Confirms;
    if i == 0 {
      assert stream[0..] == stream;
    } else {
      assert stream[1..][i - 1..] == stream[i..];
      BlockKept(stream[1..], i - 1, b);
    }
  }

  lemma {:induction false} FlushedSomewhere(emitted: seq<Emission>, b: Block)
    requires b in FlushedOf(emitted)
    ensures exists p :: 0 <= p < |emitted| && emitted[p].Flushed? && b in emitted[p].blocks
  {
    var last, init := emitted[|emitted| - 1], emitted[..|emitted| - 1];
    if last.Flushed? && b in last.blocks {
      assert emitted[|emitted| - 1] == last;
    } else {
      FlushedSomewhere(init, b);
      var p :| 0 <= p < |init| && init[p].Flushed? && b in init[p].blocks;
      assert emitted[p] == init[p];
    }
  }

  lemma StepExtends(s: State, m: Message)
    ensures s.emitted <= Step(s, m).emitted
  {
  }

  lemma {:induction false} RunExtends(s: State, stream: seq<Message>)
    ensures s.emitted <= Run(s, stream).emitted
    decreases |stream|
  {
    hide Step;
    if stream != [] {
      StepExtends(s, stream[0]);
      RunExtends(Step(s, stream[0]), stream[1..]);
    }
  }

  predicate HasResults(m: Message) {
    m.User? && m.userContent.Some? && ResultsIn(m.userContent.value) != []
  }

  /** Tool results are emitted with the buffer empty, right after it was flushed. */
  lemma ResultsFollowFlush(s: State, m: Message)
    requires HasResults(m)
    ensures Step(s, m).pending.None?
    ensures Step(s, m).emitted == Flush(s).emitted + [ToolResults(ResultsIn(m.userContent.value))]
    ensures FlushedOf(Flush(s).emitted) == FlushedOf(s.emitted) + Buffered(s)
  {
    FlushMoves(s);
  }

  /** A block received before some tool results, and not discarded, is persisted before them. */
  lemma ToolUsePrecedesResult(stream: seq<Message>, i: nat, k: nat, b: Block)
    requires i < k < |stream| && HasResults(stream[k])
    requires b in BlocksOf(stream[i]) && FateOf(stream[i..k]) != Discarded
    ensures var out := Run(FRESH, stream).emitted;
            exists p, q :: 0 <= p < q < |out| && out[p].Flushed? && b in out[p].blocks
              && out[q] == ToolResults(ResultsIn(stream[k].userContent.value))
  {
    hide Step, Flush, FlushedOf, BlocksOf, FateOf, NotDiscarded, Buffered, Run;
    var before, m := stream[..k], stream[k];
    var s := Run(FRESH, before);
    NothingTwiceNothingLost(before);
    assert before[i..] == stream[i..k];
    BlockKept(before, i, b);
    ResultsFollowFlush(s, m);
    FlushedSomewhere(Flush(s).emitted, b);
    var p :| 0 <= p < |Flush(s).emitted| && Flush(s).emitted[p].Flushed? && b in Flush(s).emitted[p].blocks;
    var q := |Flush(s).emitted|;
    OneMore(stream, k);
    var out := Run(FRESH, stream).emitted;
    assert stream == stream[..k + 1] + stream[k + 1..];
    RunConcat(FRESH, stream[..k + 1], stream[k + 1..]);
    RunExtends(Step(s, m), stream[k + 1..]);
    assert Step(s, m).emitted <= out;
    assert out[p] == Flush(s).emitted[p] && out[q] == ToolResults(ResultsIn(m.userContent.value));
  }

  lemma OneMore(stream: seq<Message>, k: nat)
    requires k < |stream|
    ensures Run(FRESH, stream[..k + 1]) == Step(Run(FRESH, stream[..k]), stream[k])
  {
    hide Step;
    assert stream[..k + 1] == stream[..k] + [stream[k]];
    RunConcat(FRESH, stream[..k], [stream[k]]);
    assert [stream[k]][1..] == [];
  }

  // ---- The result text ----

  /** The text of the last message flushed since the last result. */
  function LastFlushText(emitted: seq<Emission>): Option<string> {
    if emitted == [] then None
    else
      var last := emitted[|emitted| - 1];
      if last.TurnResult? then None
      else if last.Flushed? then Some(TextOf(last.blocks))
      else LastFlushText(emitted[..|emitted| - 1])
  }

  lemma LastFlushSnoc(emitted: seq<Emission>, e: Emission)
    ensures LastFlushText(emitted + [e]) ==
            if e.TurnResult? then None else if e.Flushed? then Some(TextOf(e.blocks)) else LastFlushText(emitted)
  {
    assert (emitted + [e])[..|emitted|] == emitted;
  }

  predicate TextTracked(s: State) {
    s.finalOutput == LastFlushText(s.emitted)
  }

  lemma FlushTracked(s: State)
    requires TextTracked(s)
    ensures TextTracked(Flush(s))
  {
    if s.pending.Some? {
      LastFlushSnoc(s.emitted, Flushed(s.pending.value));
    }
  }

  lemma EmitTracked(s: State, e: Emission)
    requires TextTracked(s) && !e.TurnResult? && !e.Flushed?
    ensures TextTracked(Emit(s, e))
  {
    LastFlushSnoc(s.emitted, e);
  }

  lemma StepTracked(s: State, m: Message)
    requires TextTracked(s)
    ensures TextTracked(Step(s, m))
  {
    hide LastFlushText, TextOf, Flush, ResultText;
    match m
    case Assistant(_, _, _, _) =>
      var s1 := if m.error.Some? && m.error.value != "" then Emit(s, ErrorEcho(m.error.value)) else s;
      if m.error.Some? {
        EmitTracked(s, ErrorEcho(m.error.value));
      }
      FlushTracked(s1.(pending := Some(Buffered(s1) + BlocksOf(m))));
    case User(content) =>
      FlushTracked(s);
      EmitTracked(Flush(s), ToolResults(if content.Some? then ResultsIn(content.value) else []));
    case ResultMessage(subtype, result, contextWindow) =>
      var s1 := if subtype == Some("success") && Buffered(s) != [] then Flush(s) else s;
      var window := s1.emitted + if contextWindow > 0 then [UsageSnapshot(contextWindow)] else [];
      LastFlushSnoc(window, TurnResult(if subtype.Some? then subtype.value else "success",
          ResultText(subtype, result, s1.finalOutput)));
    case MessageStop => FlushTracked(s);
    case NoEvent =>
    case _ => EmitTracked(s, Step(s, m).emitted[|s.emitted|]);
  }

  lemma {:induction false} RunTracked(s: State, stream: seq<Message>)
    requires TextTracked(s)
    ensures TextTracked(Run(s, stream))
    decreases |stream|
  {
    hide Step, TextTracked;
    if stream != [] {
      StepTracked(s, stream[0]);
      RunTracked(Step(s, stream[0]), stream[1..]);
    }
  }

  /**
   * A result carries the SDK's own text or, when a successful one has none, the text
   * of the last message flushed since the previous result; never an older one.
   */
  lemma ResultFallsBack(stream: seq<Message>, m: Message)
    requires m.ResultMessage?
    ensures var out := Run(FRESH, stream + [m]).emitted;
            && out != [] && out[|out| - 1].TurnResult?
            && var last := LastFlushText(out[..|out| - 1]);
               out[|out| - 1].result ==
                 if m.subtype != Some("success") then None
                 else if m.result.Some? then m.result
                 else if last == Some("") then None
                 else last
  {
    hide LastFlushText, TextOf, Flush;
    var s := Run(FRESH, stream);
    EmptyTracked();
    RunTracked(FRESH, stream);
    RunConcat(FRESH, stream, [m]);
    assert [m][1..] == [];
    hide Run;
    var s1 := if m.subtype == Some("success") && Buffered(s) != [] then Flush(s) else s;
    FlushTracked(s);
    LastFlushSnoc(s1.emitted, UsageSnapshot(m.contextWindow));
    var r := Step(s, m);
    assert r.emitted[..|r.emitted| - 1]
        == s1.emitted + if m.contextWindow > 0 then [UsageSnapshot(m.contextWindow)] else [];
    assert s1.emitted + [] == s1.emitted;
  }

  lemma EmptyTracked()
    ensures TextTracked(FRESH)
  {
  }

  // ---- The attempt as the executor runs it ----

  class Attempt {
    var pendingAssistant: Option<seq<Block>>
    var lastFinalOutput: Option<string>
    /** Everything emitted on stdout so far. */
    ghost var emitted: seq<Emission>

    ghost function View(): State
      reads this
    {
      State(pendingAssistant, lastFinalOutput, emitted)
    }

    constructor ()
      ensures View() == FRESH
    {
      pendingAssistant, lastFinalOutput, emitted := None, None, [];
    }

    method FlushPendingAssistant()
      modifies this
      ensures View() == Flush(old(View()))
    {
      if pendingAssistant.None? {
        return;
      }
      var flushed := pendingAssistant.value;
      emitted := emitted + [Flushed(flushed)];
      lastFinalOutput := Some(TextOf(flushed));
      pendingAssistant := None;
    }

    method HandleAssistant(content: Option<seq<Block>>, usage: Option<Usage>, stopReason: bool, error: Option<string>)
      modifies this
      ensures View() == OnAssistant(old(View()), Assistant(content, usage, stopReason, error))
    {
      hide Flush;
      if error.Some? && error.value != "" {
        emitted := emitted + [ErrorEcho(error.value)];
      }
      var blocks := if content.Some? then content.value else [];
      if usage.Some? {
        blocks := blocks + [UsageBlock(usage.value)];
      }
      assert blocks == BlocksOf(Assistant(content, usage, stopReason, error));
      pendingAssistant := Some((if pendingAssistant.Some? then pendingAssistant.value else []) + blocks);
      if stopReason {
        FlushPendingAssistant();
      }
    }

    method HandleUser(content: Option<seq<Block>>)
      modifies this
      ensures View() == OnUser(old(View()), content)
    {
      if content.Some? {
        var toolResults := ResultsIn(content.value);
        if |toolResults| > 0 {
          FlushPendingAssistant();
          emitted := emitted + [ToolResults(toolResults)];
        }
      }
    }

    method HandleResult(subtype: Option<string>, result: Option<string>, contextWindow: int)
      modifies this
      ensures View() == OnResult(old(View()), subtype, result, contextWindow)
    {
      if subtype == Some("success") && pendingAssistant.Some? && |pendingAssistant.value| > 0 {
        FlushPendingAssistant();
      }
      pendingAssistant := None;
      var fallbackResult := lastFinalOutput;
      lastFinalOutput := None;
      if contextWindow > 0 {
        emitted := emitted + [UsageSnapshot(contextWindow)];
      }
      var text: Option<string> := None;
      if subtype == Some("success") && result.Some? {
        text := result;
      } else if subtype == Some("success") && fallbackResult.Some? && fallbackResult.value != "" {
        text := fallbackResult;
      }
      emitted := emitted + [TurnResult(if subtype.Some? then subtype.value else "success", text)];
    }

    /** One message of the SDK stream. */
    method Dispatch(m: Message)
      modifies this
      ensures View() == Step(old(View()), m)
    {
      match m {
        case SystemInit(sessionId) => emitted := emitted + [Init(sessionId)];
        case CompactBoundary(trigger) =>
          emitted := emitted + [Compaction(if trigger.Some? then trigger.value else "auto")];
        case OtherSystem(raw) => emitted := emitted + [Passthrough(raw, false)];
        case Assistant(content, usage, stopReason, error) => HandleAssistant(content, usage, stopReason, error);
        case User(content) => HandleUser(content);
        case ResultMessage(subtype, result, contextWindow) => HandleResult(subtype, result, contextWindow);
        case Delta(raw) => emitted := emitted + [Passthrough(raw, true)];
        case MessageStop => FlushPendingAssistant();
        case OtherStreamEvent(raw) => emitted := emitted + [Passthrough(raw, true)];
        case NoEvent =>
        case Unhandled(raw, toolProgress) => emitted := emitted + [Passthrough(raw, toolProgress)];
      }
    }

    /** The attempt's message loop: what was flushed and what is still held is decided by the stream. */
    method Consume(stream: seq<Message>)
      requires View() == FRESH
      modifies this
      ensures View() == Run(FRESH, stream)
      ensures FlushedOf(emitted) == BlocksWith(stream, Delivered)
      ensures (if pendingAssistant.Some? then pendingAssistant.value else []) == BlocksWith(stream, Held)
    {
      hide Step;
      for k := 0 to |stream|
        invariant View() == Run(FRESH, stream[..k])
      {
        Dispatch(stream[k]);
        OneMore(stream, k);
      }
      assert stream[..|stream|] == stream;
      BlocksConserved(stream);
    }
  }
}
