/** Escalation of unanswered stop and cancel commands: SIGINT, then SIGKILL. */
module WorkerEscalation {
  import opened Prelude
  import opened Worker

  predicate Outstanding(h: Held) {
    h.cancelPending || h.pendingStop.Some?
  }

  /** The escalation signals sent since the timer was last armed. */
  function SinceArming(log: seq<Entry>): seq<Signal> {
    if log == [] then []
    else
      var last, init := log[|log| - 1], log[..|log| - 1];
      match last
      case Armed => []
      case Escalated(signal) => SinceArming(init) + [signal]
      case _ => SinceArming(init)
  }

  /** The signals a stage stands for. */
  function Rungs(stage: nat): seq<Signal>
    requires stage <= 2
  {
    if stage == 0 then [] else if stage == 1 then [SigInt] else [SigInt, SigKill]
  }

  /** Every escalation signal is the next rung: SIGKILL only after a SIGINT since the last arming. */
  ghost predicate LadderClimbed(log: seq<Entry>) {
    forall i :: 0 <= i < |log| && log[i].Escalated? ==>
      SinceArming(log[..i]) == if log[i].signal == SigKill then [SigInt] else []
  }

  /** The stage agrees with the signals sent, while the ladder is being climbed. */
  ghost predicate StageAgrees(log: seq<Entry>, hasPid: bool, armed: bool, stage: nat) {
    && stage <= 2 && (armed ==> stage <= 1)
    && LadderClimbed(log)
    && (hasPid && (armed || stage > 0) ==> SinceArming(log) == Rungs(stage))
  }

  /** The escalation invariant of a running session. */
  ghost predicate Escalation(s: State) {
    && StageAgrees(s.log, s.hasPid, s.armed, s.stage)
    && (!s.done ==> (s.armed ==> Outstanding(s.held)) && (Outstanding(s.held) ==> s.armed || s.stage == 2))
  }

  lemma AppendEntry(log: seq<Entry>, e: Entry)
    ensures SinceArming(log + [e]) ==
            if e.Armed? then [] else if e.Escalated? then SinceArming(log) + [e.signal] else SinceArming(log)
    ensures LadderClimbed(log)
            && (e.Escalated? ==> SinceArming(log) == if e.signal == SigKill then [SigInt] else [])
            ==> LadderClimbed(log + [e])
  {
    var r := log + [e];
    assert r[..|r| - 1] == log;
    if LadderClimbed(log) && (e.Escalated? ==> SinceArming(log) == if e.signal == SigKill then [SigInt] else []) {
      forall i | 0 <= i < |r| && r[i].Escalated?
        ensures SinceArming(r[..i]) == if r[i].signal == SigKill then [SigInt] else []
      {
        if i < |log| {
          assert r[..i] == log[..i];
        } else {
          assert r[..i] == log;
        }
      }
    }
  }

  lemma QuietAgrees(log: seq<Entry>, e: Entry, hasPid: bool, armed: bool, stage: nat)
    requires StageAgrees(log, hasPid, armed, stage) && !e.Armed? && !e.Escalated?
    ensures StageAgrees(log + [e], hasPid, armed, stage)
  {
    AppendEntry(log, e);
  }

  lemma HandleAgrees(s: State, token: Token, action: Action)
    requires StageAgrees(s.log, s.hasPid, s.armed, s.stage)
    ensures StageAgrees(Handle(s, token, action).log, s.hasPid, s.armed, s.stage)
  {
    hide StageAgrees, HandleHeld;
    var log := s.log + [Delivered(token, action)];
    QuietAgrees(s.log, Delivered(token, action), s.hasPid, s.armed, s.stage);
    var command := Forward(s, token, action);
    if command.Some? {
      QuietAgrees(log, Sent(command.value), s.hasPid, s.armed, s.stage);
    }
    assert Handle(s, token, action).log == if command.Some? then log + [Sent(command.value)] else log;
  }

  lemma ArmAgrees(s: State)
    requires StageAgrees(s.log, s.hasPid, s.armed, s.stage)
    ensures var r := Arm(s); StageAgrees(r.log, r.hasPid, r.armed, r.stage)
  {
    AppendEntry(s.log, Armed);
  }

  lemma PollEscalation(s: State, ack: Option<Token>, report: Option<ExecutorState>)
    requires Escalation(s)
    ensures Escalation(Poll(s, ack, report))
  {
    hide StageAgrees;
    QuietAgrees(s.log, Polled(ack, report), s.hasPid, s.armed, s.stage);
  }

  /** Handling a command re-arms the timer whenever something is outstanding. */
  lemma CommandEscalation(s: State, token: Token, action: Action)
    requires StageAgrees(s.log, s.hasPid, s.armed, s.stage) && (s.armed ==> Outstanding(s.held))
    ensures Escalation(Arm(Handle(s, token, action)))
  {
    HandleAgrees(s, token, action);
    ArmAgrees(Handle(s, token, action));
    hide StageAgrees;
  }

  lemma CommandPollEscalation(s: State, token: Token, action: Action, ack: Option<Token>, report: Option<ExecutorState>)
    requires StageAgrees(s.log, s.hasPid, s.armed, s.stage) && (s.armed ==> Outstanding(s.held))
    ensures Escalation(Poll(Arm(Handle(s, token, action)), ack, report))
  {
    hide StageAgrees, Escalation, Arm, Handle, Poll;
    CommandEscalation(s, token, action);
    PollEscalation(Arm(Handle(s, token, action)), ack, report);
  }

  lemma ResumeEscalation(s: State, reply: Reply)
    requires StageAgrees(s.log, s.hasPid, s.armed, s.stage) && (s.held.cancelPending || s.held.pendingStop.None?)
    ensures Escalation(ResumeTurn(s, reply))
  {
    hide Arm, Handle, Poll, LadderClimbed, SinceArming;
    QuietAgrees(s.log, Sent(StopAgent), s.hasPid, s.armed, s.stage);
    if !reply.Failed? && !s.held.cancelPending {
      var s1 := Answered(s);
      if reply.NoAction? {
        PollEscalation(s1, s1.held.lastAck, None);
      } else {
        var h := Arm(Handle(s1, reply.token, reply.action));
        CommandPollEscalation(s1, reply.token, reply.action,
          if h.held.pendingStop.Some? || h.held.pendingFeed.Some? then None else h.held.lastAck, None);
      }
    }
  }

  lemma ReportAgrees(s: State, output: Option<Payload>, agentSession: Option<string>, settled: bool)
    requires StageAgrees(s.log, s.hasPid, s.armed, s.stage)
    ensures var r := ReportTurn(s, output, agentSession, settled);
            && StageAgrees(r.log, r.hasPid, r.armed, r.stage)
            && (r.held.cancelPending || r.held.pendingStop.None?)
  {
    hide StageAgrees;
    var r := ReportTurn(s, output, agentSession, settled);
    QuietAgrees(s.log, r.log[|s.log|], s.hasPid, s.armed, s.stage);
  }

  lemma AcceptedEscalation(s: State, reply: Reply)
    requires Escalation(s) && !s.done
    ensures Escalation(OnAccepted(s, reply))
  {
    hide Arm, Handle, Poll, StageAgrees;
    if s.held.pendingFeed.Some? {
      var token := s.held.pendingFeed.value;
      var e := Synced(Some(token), Some(Running), None);
      QuietAgrees(s.log, FeedAccepted(token), s.hasPid, s.armed, s.stage);
      QuietAgrees(s.log + [FeedAccepted(token)], e, s.hasPid, s.armed, s.stage);
      var s2 := FeedAcked(s, token);
      match reply {
        case Command(t, action) =>
          var s3 := Arm(Handle(s2, t, action));
          CommandPollEscalation(s2, t, action, AckForPoll(s3), ReportOf(s3));
        case NoAction => PollEscalation(s2, AckForPoll(s2), ReportOf(s2));
        case Failed =>
          var s3 := s2.(held := s2.held.(lastAck := Some(token)));
          PollEscalation(s3, AckForPoll(s3), ReportOf(s3));
      }
    }
  }

  lemma PollDoneEscalation(s: State, reply: Reply)
    requires Escalation(s) && !s.done
    ensures Escalation(OnPollDone(s, reply))
  {
    hide Arm, Handle, Poll, StageAgrees;
    var s1 := s.(polling := false);
    var cleared := if s.held.cancelPending then s1 else s1.(held := s1.held.(lastAck := None));
    match reply {
      case Command(t, action) =>
        var s2 := Arm(Handle(cleared, t, action));
        CommandPollEscalation(cleared, t, action, AckForPoll(s2), ReportOf(s2));
      case NoAction => PollEscalation(cleared, AckForPoll(cleared), ReportOf(cleared));
      case Failed => PollEscalation(s1, AckForPoll(s1), ReportOf(s1));
    }
  }

  lemma QuietEscalation(s: State, i: Input)
    requires Escalation(s)
    requires i.Init? || i.MessageEvent? || i.SilenceTimer?
    ensures Escalation(Step(s, i))
  {
    hide StageAgrees;
    var r := Step(s, i);
    if |r.log| > |s.log| {
      QuietAgrees(s.log, r.log[|s.log|], s.hasPid, s.armed, s.stage);
    }
    if |r.log| > |s.log| + 1 {
      QuietAgrees(s.log + [Started], r.log[|s.log| + 1], s.hasPid, s.armed, s.stage);
    }
  }

  lemma TakeAckShape(s: State)
    ensures var r := TakeAck(s).1;
            r.log == s.log && r.hasPid == s.hasPid && r.armed == s.armed && r.stage == s.stage
  {
  }

  lemma DiedEscalation(s: State, agentSession: Option<string>)
    requires Escalation(s)
    ensures Escalation(OnProcessDied(s, agentSession))
  {
    hide StageAgrees, TakeAck;
    var s1 := Abandoned(s, agentSession);
    TakeAckShape(s1);
    QuietAgrees(s.log, Synced(TakeAck(s1).0, Some(Crashed), Some(s.buffer)), s.hasPid, s.armed, s.stage);
  }

  lemma ClosedEscalation(s: State)
    requires Escalation(s)
    ensures Escalation(OnClosed(s))
  {
    hide StageAgrees, TakeAck;
    TakeAckShape(s);
    QuietAgrees(s.log, Synced(TakeAck(s).0, None, None), s.hasPid, s.armed, s.stage);
  }

  lemma TimerEscalation(s: State)
    requires Escalation(s) && s.armed
    ensures Escalation(OnEscalationTimer(s))
  {
    AppendEntry(s.log, Escalated(if s.stage == 0 then SigInt else SigKill));
  }

  lemma StepEscalation(s: State, i: Input)
    requires Escalation(s)
    ensures Escalation(Step(s, i))
  {
    hide StageAgrees, OnAccepted, OnPollDone, OnInit, OnMessage, OnProcessDied, OnClosed, OnEscalationTimer,
      OnSilenceTimer, ReportTurn, ResumeTurn;
    if Enabled(s, i) {
      match i
      case TurnComplete(output, agentSession, settled, reply) =>
        ReportAgrees(s, output, agentSession, settled);
        ResumeEscalation(ReportTurn(s, output, agentSession, settled), reply);
      case Accepted(reply) => AcceptedEscalation(s, reply);
      case PollDone(reply) => PollDoneEscalation(s, reply);
      case EscalationTimer => TimerEscalation(s);
      case ProcessDied(agentSession) => DiedEscalation(s, agentSession);
      case Closed => ClosedEscalation(s);
      case _ => QuietEscalation(s, i);
    }
  }

  lemma {:induction false} RunEscalation(s: State, inputs: seq<Input>)
    requires Escalation(s)
    ensures Escalation(Run(s, inputs))
    decreases |inputs|
  {
    hide Escalation, Step;
    if inputs != [] {
      StepEscalation(s, inputs[0]);
      RunEscalation(Step(s, inputs[0]), inputs[1..]);
    }
  }

  /**
   * In every reachable state of a running session the timer is armed only while a
   * stop or cancel is outstanding, an outstanding one has the timer armed or the
   * whole ladder climbed, and every SIGKILL escalation follows a SIGINT since the
   * last arming.
   */
  lemma EscalationSafety(initial: Token, asid: Option<string>, seq0: int, hasPid: bool, inputs: seq<Input>)
    ensures var s := Run(Start(initial, asid, seq0, hasPid), inputs);
            && s.stage <= 2
            && LadderClimbed(s.log)
            && (!s.done && s.armed ==> Outstanding(s.held) && s.stage <= 1)
            && (!s.done && Outstanding(s.held) ==>
                  s.armed || (s.stage == 2 && (hasPid ==> SinceArming(s.log) == [SigInt, SigKill])))
  {
    hide SinceArming;
    RunEscalation(Start(initial, asid, seq0, hasPid), inputs);
    RunKeepsPid(Start(initial, asid, seq0, hasPid), inputs);
  }

  lemma CommandKeepsPid(s: State, token: Token, action: Action)
    ensures Arm(Handle(s, token, action)).hasPid == s.hasPid
  {
    hide HandleHeld, Forward;
  }

  lemma ReportKeepsPid(s: State, output: Option<Payload>, agentSession: Option<string>, settled: bool)
    ensures ReportTurn(s, output, agentSession, settled).hasPid == s.hasPid
  {
  }

  lemma ResumeKeepsPid(s: State, reply: Reply)
    ensures ResumeTurn(s, reply).hasPid == s.hasPid
  {
    hide Arm, Handle;
    if reply.Command? {
      CommandKeepsPid(Answered(s), reply.token, reply.action);
    }
  }

  lemma AcceptedKeepsPid(s: State, reply: Reply)
    ensures OnAccepted(s, reply).hasPid == s.hasPid
  {
    hide Arm, Handle;
    if s.held.pendingFeed.Some? && reply.Command? {
      var token := s.held.pendingFeed.value;
      CommandKeepsPid(FeedAcked(s, token), reply.token, reply.action);
    }
  }

  lemma PollDoneKeepsPid(s: State, reply: Reply)
    ensures OnPollDone(s, reply).hasPid == s.hasPid
  {
    hide Arm, Handle;
    var s1 := s.(polling := false);
    if reply.Command? {
      CommandKeepsPid(if s.held.cancelPending then s1 else s1.(held := s1.held.(lastAck := None)), reply.token,
          reply.action);
    }
  }

  lemma StepKeepsPid(s: State, i: Input)
    ensures Step(s, i).hasPid == s.hasPid
  {
    hide OnAccepted, OnPollDone, ReportTurn, ResumeTurn;
    match i
    case TurnComplete(output, agentSession, settled, reply) =>
      ReportKeepsPid(s, output, agentSession, settled);
      ResumeKeepsPid(ReportTurn(s, output, agentSession, settled), reply);
    case Accepted(reply) => AcceptedKeepsPid(s, reply);
    case PollDone(reply) => PollDoneKeepsPid(s, reply);
    case _ =>
  }

  lemma {:induction false} RunKeepsPid(s: State, inputs: seq<Input>)
    ensures Run(s, inputs).hasPid == s.hasPid
    decreases |inputs|
  {
    hide Step;
    if inputs != [] {
      StepKeepsPid(s, inputs[0]);
      RunKeepsPid(Step(s, inputs[0]), inputs[1..]);
    }
  }
}
