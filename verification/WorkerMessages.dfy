/** Conservation of the messages an executor emits across turn reports. */
module WorkerMessages {
  import opened Prelude
  import opened Worker

  datatype Origin = Persisted | Ephemeral | Synthesized

  /** One numbered message, and why it got its number. */
  datatype Numbered = Numbered(message: TurnMessage, origin: Origin)

  /**
   * The messages a stream of inputs numbers, read off the inputs alone: one per
   * message event, and one per completed turn that had output but no persisted
   * message. `last` is the number before the first, `empty` whether the current
   * turn has persisted nothing yet.
   */
  function Ledger(inputs: seq<Input>, last: int, empty: bool): seq<Numbered>
    decreases |inputs|
  {
    if inputs == [] then []
    else match inputs[0]
      case MessageEvent(payload, ephemeral) =>
        [Numbered(TurnMessage(last + 1, payload), if ephemeral then Ephemeral else Persisted)]
          + Ledger(inputs[1..], last + 1, empty && ephemeral)
      case TurnComplete(output, _, _, _) =>
        if empty && output.Some? then
          [Numbered(TurnMessage(last + 1, output.value), Synthesized)] + Ledger(inputs[1..], last + 1, true)
        else Ledger(inputs[1..], last, true)
      case _ => Ledger(inputs[1..], last, empty)
  }

  /** Whether the turn has persisted nothing after one more input. */
  predicate EmptyAfter(i: Input, empty: bool) {
    i.TurnComplete? || (empty && (i.MessageEvent? ==> i.ephemeral))
  }

  /** What one numbered message contributes to the turn results. */
  function KeptPart(n: Numbered): seq<TurnMessage> {
    if n.origin.Ephemeral? then [] else [n.message]
  }

  /** What one numbered message contributes to the copies forwarded mid-turn, with its ephemeral flag. */
  function ForwardedPart(n: Numbered): seq<(TurnMessage, bool)> {
    if n.origin.Synthesized? then [] else [(n.message, n.origin.Ephemeral?)]
  }

  /** The messages kept for turn results. */
  function Kept(ledger: seq<Numbered>): seq<TurnMessage> {
    if ledger == [] then [] else KeptPart(ledger[0]) + Kept(ledger[1..])
  }

  /** The messages forwarded mid-turn. */
  function ForwardedOf(ledger: seq<Numbered>): seq<(TurnMessage, bool)> {
    if ledger == [] then [] else ForwardedPart(ledger[0]) + ForwardedOf(ledger[1..])
  }

  /** Ledger entries carry consecutive numbers. */
  lemma {:induction false} LedgerNumbers(inputs: seq<Input>, last: int, empty: bool, k: nat)
    requires k < |Ledger(inputs, last, empty)|
    ensures Ledger(inputs, last, empty)[k].message.msgSeq == last + 1 + k
    decreases |inputs|
  {
    match inputs[0]
    case MessageEvent(payload, ephemeral) =>
      if k > 0 {
        LedgerNumbers(inputs[1..], last + 1, empty && ephemeral, k - 1);
      }
    case TurnComplete(output, _, _, _) =>
      if empty && output.Some? {
        if k > 0 {
          LedgerNumbers(inputs[1..], last + 1, true, k - 1);
        }
      } else {
        LedgerNumbers(inputs[1..], last, true, k);
      }
    case _ => LedgerNumbers(inputs[1..], last, empty, k);
  }

  // ---- What the log shows ----

  /** The messages of all turn results issued, in order. */
  function Reported(log: seq<Entry>): seq<TurnMessage> {
    if log == [] then []
    else
      var last := log[|log| - 1];
      Reported(log[..|log| - 1]) + if last.Synced? && last.messages.Some? then last.messages.value else []
  }

  /** The copies forwarded mid-turn, in order. */
  function Copies(log: seq<Entry>): seq<(TurnMessage, bool)> {
    if log == [] then []
    else
      var last := log[|log| - 1];
      Copies(log[..|log| - 1]) + if last.Forwarded? then [(last.message, last.ephemeral)] else []
  }

  /** What the worker has numbered so far: reported, still buffered, forwarded, and the last number. */
  datatype Books = Books(kept: seq<TurnMessage>, copies: seq<(TurnMessage, bool)>, last: int, empty: bool)

  function BooksOf(s: State): Books {
    Books(Reported(s.log) + s.buffer, Copies(s.log), s.msgSeq, s.buffer == [])
  }

  predicate SilentEntry(e: Entry) {
    !e.Forwarded? && !(e.Synced? && e.messages.Some?)
  }

  lemma AppendSilent(log: seq<Entry>, e: Entry)
    requires SilentEntry(e)
    ensures Reported(log + [e]) == Reported(log) && Copies(log + [e]) == Copies(log)
  {
    assert (log + [e])[..|log|] == log;
  }

  /** Handling a command changes neither the buffer nor the numbering, and logs its delivery and at most one send. */
  lemma HandleShape(s: State, token: Token, action: Action)
    ensures var h := Handle(s, token, action);
            var log, command := s.log + [Delivered(token, action)], Forward(s, token, action);
            && h.buffer == s.buffer && h.msgSeq == s.msgSeq
            && h.log == if command.Some? then log + [Sent(command.value)] else log
  {
    hide HandleHeld, Forward;
  }

  lemma HandleSilent(s: State, token: Token, action: Action)
    ensures BooksOf(Handle(s, token, action)) == BooksOf(s)
    ensures BooksOf(Arm(Handle(s, token, action))) == BooksOf(s)
  {
    HandleShape(s, token, action);
    hide Handle, Forward, Reported, Copies;
    var log := s.log + [Delivered(token, action)];
    AppendSilent(s.log, Delivered(token, action));
    var command := Forward(s, token, action);
    if command.Some? {
      AppendSilent(log, Sent(command.value));
    }
    AppendSilent(Handle(s, token, action).log, Armed);
  }

  lemma PollSilent(s: State, ack: Option<Token>, report: Option<ExecutorState>)
    ensures BooksOf(Poll(s, ack, report)) == BooksOf(s)
  {
    hide Reported, Copies;
    AppendSilent(s.log, Polled(ack, report));
  }

  lemma ResumeSilent(s: State, reply: Reply)
    ensures BooksOf(ResumeTurn(s, reply)) == BooksOf(s)
  {
    hide Reported, Copies, Handle, Arm, Poll;
    var s1 := Answered(s);
    match reply
    case Failed => AppendSilent(s.log, Sent(StopAgent));
    case NoAction => PollSilent(s1, s1.held.lastAck, None);
    case Command(t, action) =>
      HandleSilent(s1, t, action);
      var h := Arm(Handle(s1, t, action));
      PollSilent(h, if h.held.pendingStop.Some? || h.held.pendingFeed.Some? then None else h.held.lastAck, None);
  }

  lemma AcceptedSilent(s: State, reply: Reply)
    ensures BooksOf(OnAccepted(s, reply)) == BooksOf(s)
  {
    hide Reported, Copies, Handle, Arm, Poll;
    if s.held.pendingFeed.Some? {
      var token := s.held.pendingFeed.value;
      var e := Synced(Some(token), Some(Running), None);
      AppendSilent(s.log, FeedAccepted(token));
      AppendSilent(s.log + [FeedAccepted(token)], e);
      var s2 := FeedAcked(s, token);
      match reply {
        case Command(t, action) =>
          HandleSilent(s2, t, action);
          var s3 := Arm(Handle(s2, t, action));
          PollSilent(s3, AckForPoll(s3), ReportOf(s3));
        case NoAction => PollSilent(s2, AckForPoll(s2), ReportOf(s2));
        case Failed =>
          var s3 := s2.(held := s2.held.(lastAck := Some(token)));
          PollSilent(s3, AckForPoll(s3), ReportOf(s3));
      }
    }
  }

  lemma PollDoneSilent(s: State, reply: Reply)
    ensures BooksOf(OnPollDone(s, reply)) == BooksOf(s)
  {
    hide Reported, Copies, Handle, Arm, Poll;
    var s1 := s.(polling := false);
    var cleared := if s.held.cancelPending then s1 else s1.(held := s1.held.(lastAck := None));
    match reply {
      case Command(t, action) =>
        HandleSilent(cleared, t, action);
        var s2 := Arm(Handle(cleared, t, action));
        PollSilent(s2, AckForPoll(s2), ReportOf(s2));
      case NoAction => PollSilent(cleared, AckForPoll(cleared), ReportOf(cleared));
      case Failed => PollSilent(s1, AckForPoll(s1), ReportOf(s1));
    }
  }

  /** Reporting a turn moves the buffer into the results, with one synthesized message at most. */
  lemma ReportBooks(s: State, output: Option<Payload>, agentSession: Option<string>, settled: bool)
    ensures var synth := Synthesizes(s, output);
            BooksOf(ReportTurn(s, output, agentSession, settled))
            == BooksOf(s).(
                 kept := BooksOf(s).kept + if synth then [TurnMessage(s.msgSeq + 1, output.value)] else [],
                 last := if synth then s.msgSeq + 1 else s.msgSeq,
                 empty := true)
  {
    hide TakeAck;
    var s1 := TurnBooked(s, output, agentSession, settled);
    TakeAckKeeps(s1);
    var e := Synced(TakeAck(s1).0, Some(if settled then Idle else Running), Some(TurnMessages(s, output)));
    assert (s.log + [e])[..|s.log|] == s.log;
    var r := ReportTurn(s, output, agentSession, settled);
    assert r.log == s.log + [e] && r.buffer == [] && r.msgSeq == s1.msgSeq;
    assert Reported(r.log) == Reported(s.log) + TurnMessages(s, output) && Copies(r.log) == Copies(s.log) + [];
  }

  lemma MessageBooks(s: State, payload: Payload, ephemeral: bool)
    ensures var m := TurnMessage(s.msgSeq + 1, payload);
            BooksOf(OnMessage(s, payload, ephemeral))
            == Books(BooksOf(s).kept + if ephemeral then [] else [m], BooksOf(s).copies + [(m, ephemeral)],
                 s.msgSeq + 1, BooksOf(s).empty && ephemeral)
  {
    var m := TurnMessage(s.msgSeq + 1, payload);
    assert (s.log + [Forwarded(m, ephemeral)])[..|s.log|] == s.log;
    assert Reported(s.log) + (s.buffer + [m]) == Reported(s.log) + s.buffer + [m];
  }

  lemma TakeAckKeeps(s: State)
    ensures TakeAck(s).1.log == s.log && TakeAck(s).1.buffer == s.buffer && TakeAck(s).1.msgSeq == s.msgSeq
  {
  }

  lemma DiedBooks(s: State, agentSession: Option<string>)
    ensures BooksOf(OnProcessDied(s, agentSession)) == BooksOf(s).(empty := true)
  {
    hide TakeAck;
    var s1 := Abandoned(s, agentSession);
    TakeAckKeeps(s1);
    var e := Synced(TakeAck(s1).0, Some(Crashed), Some(s.buffer));
    assert (s.log + [e])[..|s.log|] == s.log;
    var r := OnProcessDied(s, agentSession);
    assert r.log == s.log + [e] && r.buffer == [] && r.msgSeq == s.msgSeq;
    assert Reported(r.log) == Reported(s.log) + s.buffer && Copies(r.log) == Copies(s.log) + [];
  }

  lemma ClosedBooks(s: State)
    ensures BooksOf(OnClosed(s)) == BooksOf(s)
  {
    hide TakeAck, Reported, Copies;
    TakeAckKeeps(s);
    AppendSilent(s.log, Synced(TakeAck(s).0, None, None));
  }

  lemma QuietBooks(s: State, i: Input)
    requires i.Init? || i.EscalationTimer? || i.SilenceTimer?
    ensures BooksOf(Step(s, i)) == BooksOf(s)
  {
    hide Reported, Copies;
    var r := Step(s, i);
    if |r.log| > |s.log| {
      AppendSilent(s.log, r.log[|s.log|]);
    }
    if |r.log| > |s.log| + 1 {
      AppendSilent(s.log + [Started], r.log[|s.log| + 1]);
    }
  }

  /** What one input numbers. */
  lemma LedgerOfOne(i: Input, last: int, empty: bool)
    ensures i.MessageEvent? ==>
              Ledger([i], last, empty)
              == [Numbered(TurnMessage(last + 1, i.payload), if i.ephemeral then Ephemeral else Persisted)]
    ensures i.TurnComplete? ==>
              Ledger([i], last, empty)
              == if empty && i.output.Some? then [Numbered(TurnMessage(last + 1, i.output.value), Synthesized)] else []
    ensures !i.MessageEvent? && !i.TurnComplete? ==> Ledger([i], last, empty) == []
  {
    assert [i][1..] == [];
  }

  lemma PartsOfOne(n: Numbered)
    ensures Kept([n]) == KeptPart(n) && ForwardedOf([n]) == ForwardedPart(n)
    ensures Kept([]) == [] && ForwardedOf([]) == []
  {
    assert [n][1..] == [];
    assert Kept([n]) == KeptPart(n) + [] && ForwardedOf([n]) == ForwardedPart(n) + [];
  }

  /** The books after one input, in terms of that input's ledger entry. */
  lemma StepBooks(s: State, i: Input)
    requires !s.done
    ensures var l := Ledger([i], s.msgSeq, s.buffer == []);
            var b, b' := BooksOf(s), BooksOf(Step(s, i));
            && b'.kept == b.kept + Kept(l) && b'.copies == b.copies + ForwardedOf(l) && b'.last == b.last + |l|
            && (!i.ProcessDied? ==> b'.empty == EmptyAfter(i, b.empty))
  {
    hide Reported, Copies, Ledger, Kept, ForwardedOf, OnAccepted, OnPollDone, OnInit, OnMessage, OnProcessDied,
      OnClosed, OnEscalationTimer, OnSilenceTimer, ReportTurn, ResumeTurn;
    LedgerOfOne(i, s.msgSeq, s.buffer == []);
    var l := Ledger([i], s.msgSeq, s.buffer == []);
    PartsOfOne(if l == [] then Numbered(TurnMessage(0, ""), Persisted) else l[0]);
    match i
    case TurnComplete(output, agentSession, settled, reply) =>
      ReportBooks(s, output, agentSession, settled);
      ResumeSilent(ReportTurn(s, output, agentSession, settled), reply);
    case MessageEvent(payload, ephemeral) => MessageBooks(s, payload, ephemeral);
    case Accepted(reply) => AcceptedSilent(s, reply);
    case PollDone(reply) => PollDoneSilent(s, reply);
    case ProcessDied(agentSession) => DiedBooks(s, agentSession);
    case Closed => ClosedBooks(s);
    case _ => QuietBooks(s, i);
  }

  /** The session is still running before each of these inputs. */
  predicate Live(s: State, inputs: seq<Input>)
    decreases |inputs|
  {
    inputs == [] || (!s.done && Live(Step(s, inputs[0]), inputs[1..]))
  }

  lemma LedgerStep(i: Input, rest: seq<Input>, last: int, empty: bool)
    ensures var l := Ledger([i], last, empty);
            Ledger([i] + rest, last, empty) == l + Ledger(rest, last + |l|, EmptyAfter(i, empty))
  {
    assert ([i] + rest)[1..] == rest && [i][1..] == [];
  }

  lemma {:induction false} KeptAppend(a: seq<Numbered>, b: seq<Numbered>)
    ensures Kept(a + b) == Kept(a) + Kept(b)
  {
    hide KeptPart;
    if a == [] {
      assert a + b == b;
    } else {
      assert (a + b)[1..] == a[1..] + b;
      KeptAppend(a[1..], b);
    }
  }

  lemma {:induction false} ForwardedAppend(a: seq<Numbered>, b: seq<Numbered>)
    ensures ForwardedOf(a + b) == ForwardedOf(a) + ForwardedOf(b)
  {
    hide ForwardedPart;
    if a == [] {
      assert a + b == b;
    } else {
      assert (a + b)[1..] == a[1..] + b;
      ForwardedAppend(a[1..], b);
    }
  }

  lemma DiedEnds(s: State, i: Input, rest: seq<Input>)
    requires !s.done && i.ProcessDied? && Live(Step(s, i), rest)
    ensures rest == []
  {
  }

  lemma {:induction false} RunBooks(s: State, inputs: seq<Input>)
    requires Live(s, inputs)
    ensures var l := Ledger(inputs, s.msgSeq, s.buffer == []);
            var b, b' := BooksOf(s), BooksOf(Run(s, inputs));
            && b'.kept == b.kept + Kept(l) && b'.copies == b.copies + ForwardedOf(l) && b'.last == b.last + |l|
    decreases |inputs|
  {
    hide Step, Reported, Copies, Kept, ForwardedOf, Ledger;
    if inputs == [] {
      NothingNumbered(s.msgSeq, s.buffer == []);
    } else {
      var i, rest := inputs[0], inputs[1..];
      var s1 := Step(s, i);
      var l := Ledger([i], s.msgSeq, s.buffer == []);
      assert inputs == [i] + rest;
      StepBooks(s, i);
      LedgerStep(i, rest, s.msgSeq, s.buffer == []);
      RunBooks(s1, rest);
      if i.ProcessDied? {
        DiedEnds(s, i, rest);
        NothingNumbered(s1.msgSeq, s1.buffer == []);
        NothingNumbered(s1.msgSeq, s.buffer == []);
      }
      KeptAppend(l, Ledger(rest, s1.msgSeq, s1.buffer == []));
      ForwardedAppend(l, Ledger(rest, s1.msgSeq, s1.buffer == []));
    }
  }

  lemma NothingNumbered(last: int, empty: bool)
    ensures Ledger([], last, empty) == [] && Kept([]) == [] && ForwardedOf([]) == []
  {
  }

  /** The inputs the loop takes before the session ends. */
  function Taken(s: State, inputs: seq<Input>): (taken: seq<Input>)
    ensures taken <= inputs
    decreases |inputs|
  {
    if inputs == [] || s.done then [] else [inputs[0]] + Taken(Step(s, inputs[0]), inputs[1..])
  }

  lemma {:induction false} TakenRuns(s: State, inputs: seq<Input>)
    ensures Live(s, Taken(s, inputs)) && Run(s, Taken(s, inputs)) == Run(s, inputs)
    decreases |inputs|
  {
    hide Step;
    if s.done {
      RunStops(s, inputs);
    } else if inputs != [] {
      TakenRuns(Step(s, inputs[0]), inputs[1..]);
      assert Taken(s, inputs)[1..] == Taken(Step(s, inputs[0]), inputs[1..]);
    }
  }

  /**
   * Conservation over any run: the turn results issued so far followed by the
   * buffer are the persisted messages received, in order, plus one synthesized
   * message per turn that buffered none and had output; the forwarded copies are the
   * received messages; and numbers run consecutively from the first free one.
   */
  lemma MessagesConserved(initial: Token, asid: Option<string>, seq0: int, hasPid: bool, inputs: seq<Input>)
    ensures var s := Run(Start(initial, asid, seq0, hasPid), inputs);
            var l := Ledger(Taken(Start(initial, asid, seq0, hasPid), inputs), seq0, true);
            && Reported(s.log) + s.buffer == Kept(l)
            && Copies(s.log) == ForwardedOf(l)
            && s.msgSeq == seq0 + |l|
            && forall k :: 0 <= k < |l| ==> l[k].message.msgSeq == seq0 + 1 + k
  {
    hide Step, Ledger, Kept, ForwardedOf, Taken;
    var start := Start(initial, asid, seq0, hasPid);
    var taken := Taken(start, inputs);
    var l := Ledger(taken, seq0, true);
    TakenRuns(start, inputs);
    RunBooks(start, taken);
    forall k | 0 <= k < |l| ensures l[k].message.msgSeq == seq0 + 1 + k {
      LedgerNumbers(taken, seq0, true, k);
    }
  }
}
