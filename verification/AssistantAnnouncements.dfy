/** What an attempt emits besides the flushed messages, read off the stream alone. */
module AssistantAnnouncements {
  import opened Prelude
  import opened AssistantBuffer

  /** What one message has the attempt announce; the text of a result is another matter. */
  function Announces(m: Message): seq<Emission> {
    match m
    case SystemInit(sessionId) => [Init(sessionId)]
    case CompactBoundary(trigger) => [Compaction(if trigger == None then "auto" else trigger.value)]
    case OtherSystem(raw) => [Passthrough(raw, false)]
    case Assistant(_, _, _, error) => if error == None || error == Some("") then [] else [ErrorEcho(error.value)]
    case User(content) =>
      if content.Some? && exists b :: b in content.value && b.ToolResult? then [ToolResults(ResultsIn(content.value))]
      else []
    case ResultMessage(subtype, _, window) =>
      (if window <= 0 then [] else [UsageSnapshot(window)])
      + [TurnResult(if subtype == None then "success" else subtype.value, None)]
    case Delta(raw) => [Passthrough(raw, true)]
    case OtherStreamEvent(raw) => [Passthrough(raw, true)]
    case Unhandled(raw, toolProgress) => [Passthrough(raw, toolProgress)]
    case MessageStop => []
    case NoEvent => []
  }

  function AllAnnounced(stream: seq<Message>): seq<Emission> {
    if stream == [] then [] else Announces(stream[0]) + AllAnnounced(stream[1..])
  }

  /** An emission as an announcement: flushed messages are none, and a result's text is left out. */
  function Announced(e: Emission): seq<Emission> {
    match e
    case Flushed(_) => []
    case TurnResult(subtype, _) => [TurnResult(subtype, None)]
    case _ => [e]
  }

  function Announcements(emitted: seq<Emission>): seq<Emission> {
    if emitted == [] then []
    else Announcements(emitted[..|emitted| - 1]) + Announced(emitted[|emitted| - 1])
  }

  lemma AnnouncementsSnoc(emitted: seq<Emission>, e: Emission)
    ensures Announcements(emitted + [e]) == Announcements(emitted) + Announced(e)
  {
    assert (emitted + [e])[..|emitted|] == emitted;
  }

  /** The tool results of a user message are its tool result blocks, in order. */
  lemma {:induction false} ResultsInOrder(a: seq<Block>, block: Block, b: seq<Block>)
    ensures ResultsIn(a + [block] + b) == ResultsIn(a) + (if block.ToolResult? then [block] else []) + ResultsIn(b)
  {
    if a == [] {
      assert (a + [block] + b)[0] == block && (a + [block] + b)[1..] == b;
    } else {
      assert (a + [block] + b)[0] == a[0] && (a + [block] + b)[1..] == a[1..] + [block] + b;
      ResultsInOrder(a[1..], block, b);
    }
  }

  lemma FlushAnnouncesNothing(s: State)
    ensures Announcements(Flush(s).emitted) == Announcements(s.emitted)
  {
    hide TextOf;
    if s.pending.Some? {
      AnnouncementsSnoc(s.emitted, Flushed(s.pending.value));
    }
  }

  lemma AssistantAnnounces(s: State, m: Message)
    requires m.Assistant?
    ensures Announcements(OnAssistant(s, m).emitted) == Announcements(s.emitted) + Announces(m)
  {
    hide Announcements, Flush, BlocksOf;
    var echoes := m.error.Some? && m.error.value != "";
    var s1 := if echoes then Emit(s, ErrorEcho(m.error.value)) else s;
    if echoes {
      AnnouncementsSnoc(s.emitted, ErrorEcho(m.error.value));
    }
    FlushAnnouncesNothing(s1.(pending := Some(Buffered(s1) + BlocksOf(m))));
  }

  lemma UserAnnounces(s: State, content: Option<seq<Block>>)
    ensures Announcements(OnUser(s, content).emitted) == Announcements(s.emitted) + Announces(User(content))
  {
    hide Announcements, Flush, ResultsIn;
    if content.Some? {
      ResultsEmpty(content.value);
      FlushAnnouncesNothing(s);
      AnnouncementsSnoc(Flush(s).emitted, ToolResults(ResultsIn(content.value)));
    }
  }

  lemma ResultAnnounces(s: State, subtype: Option<string>, result: Option<string>, window: int)
    ensures Announcements(OnResult(s, subtype, result, window).emitted)
         == Announcements(s.emitted) + Announces(ResultMessage(subtype, result, window))
  {
    hide Announcements, Flush, ResultText;
    var s1 := if subtype == Some("success") && Buffered(s) != [] then Flush(s) else s;
    FlushAnnouncesNothing(s);
    AnnouncementsSnoc(s1.emitted, UsageSnapshot(window));
    var sized := s1.emitted + if window > 0 then [UsageSnapshot(window)] else [];
    assert s1.emitted + [] == s1.emitted;
    AnnouncementsSnoc(sized,
      TurnResult(if subtype.Some? then subtype.value else "success", ResultText(subtype, result, s1.finalOutput)));
  }

  lemma StepAnnounces(s: State, m: Message)
    ensures Announcements(Step(s, m).emitted) == Announcements(s.emitted) + Announces(m)
  {
    hide Announcements, Flush, OnAssistant, OnUser, OnResult;
    match m
    case Assistant(_, _, _, _) => AssistantAnnounces(s, m);
    case User(content) => UserAnnounces(s, content);
    case ResultMessage(subtype, result, window) => ResultAnnounces(s, subtype, result, window);
    case MessageStop => FlushAnnouncesNothing(s);
    case NoEvent =>
    case _ => AnnouncementsSnoc(s.emitted, Step(s, m).emitted[|s.emitted|]);
  }

  lemma {:induction false} RunAnnounces(s: State, stream: seq<Message>)
    ensures Announcements(Run(s, stream).emitted) == Announcements(s.emitted) + AllAnnounced(stream)
    decreases |stream|
  {
    hide Announcements, Step, Announces;
    if stream != [] {
      StepAnnounces(s, stream[0]);
      RunAnnounces(Step(s, stream[0]), stream[1..]);
    }
  }

  /**
   * Buffering neither loses, repeats nor reorders what is not buffered: besides flushed
   * messages an attempt emits exactly what each message announces, in stream order.
   */
  lemma AnnouncementsConserved(stream: seq<Message>)
    ensures Announcements(Run(FRESH, stream).emitted) == AllAnnounced(stream)
  {
    RunAnnounces(FRESH, stream);
    assert Announcements([]) == [];
  }
}
