/** Which acknowledgements a session may issue, and when stop and cancel tokens are withheld. */
module WorkerAcks {
  import opened Prelude
  import opened Worker

  // ---- Where tokens come from ----

  /** A token whose acknowledgement has been earned by what the log records. */
  ghost predicate Earned(log: seq<Entry>, initial: Token, t: Token) {
    || t == initial
    || FeedAccepted(t) in log
    || Delivered(t, StopTurn) in log
    || Delivered(t, Cancel) in log
  }

  /** Every acknowledgement in the log was earned before it was issued. */
  ghost predicate AcksEarned(log: seq<Entry>, initial: Token) {
    forall i :: 0 <= i < |log| && AckOf(log[i]).Some? ==> Earned(log[..i], initial, AckOf(log[i]).value)
  }

  ghost predicate Backed(log: seq<Entry>, initial: Token, lastAck: Option<Token>, stop: Option<Token>) {
    && AcksEarned(log, initial)
    && (lastAck.Some? ==> Earned(log, initial, lastAck.value))
    && (stop.Some? ==> Earned(log, initial, stop.value))
  }

  /** Every acknowledgement issued, and every token waiting to be one, is earned. */
  ghost predicate TokensEarned(s: State, initial: Token) {
    Backed(s.log, initial, s.held.lastAck, s.held.pendingStop)
  }

  /** A new entry that acknowledges nothing unearned keeps the tokens earned. */
  lemma AppendBacked(log: seq<Entry>, initial: Token, lastAck: Option<Token>, stop: Option<Token>, e: Entry)
    requires Backed(log, initial, lastAck, stop)
    requires AckOf(e).Some? ==> Earned(log, initial, AckOf(e).value)
    ensures Backed(log + [e], initial, lastAck, stop)
  {
    var r := log + [e];
    forall i | 0 <= i < |r| && AckOf(r[i]).Some? ensures Earned(r[..i], initial, AckOf(r[i]).value) {
      if i < |log| {
        assert r[..i] == log[..i];
      } else {
        assert r[..i] == log;
      }
    }
  }

  /** Dropping tokens, and acknowledging one that was held, keeps the rest earned. */
  lemma IssueBacked(log: seq<Entry>, initial: Token, lastAck: Option<Token>, stop: Option<Token>, e: Entry,
                    lastAck': Option<Token>, stop': Option<Token>)
    requires Backed(log, initial, lastAck, stop)
    requires AckOf(e).None? || AckOf(e) == lastAck || AckOf(e) == stop
    requires (lastAck'.None? || lastAck' == lastAck) && (stop'.None? || stop' == stop)
    ensures Backed(log + [e], initial, lastAck', stop')
    ensures Backed(log, initial, lastAck', stop')
  {
    AppendBacked(log, initial, lastAck', stop', e);
  }

  /** A delivered stop or cancel earns its token. */
  lemma DeliverBacked(log: seq<Entry>, initial: Token, lastAck: Option<Token>, stop: Option<Token>, t: Token,
      action: Action)
    requires Backed(log, initial, lastAck, stop)
    ensures var log' := log + [Delivered(t, action)];
            && Backed(log', initial, lastAck, stop)
            && (action.StopTurn? || action.Cancel? ==>
                  && Backed(log', initial, Some(t), stop)
                  && Backed(log', initial, lastAck, Some(t))
                  && Backed(log', initial, Some(t), None))
  {
    AppendBacked(log, initial, lastAck, stop, Delivered(t, action));
    assert (log + [Delivered(t, action)])[|log|] == Delivered(t, action);
  }

  lemma HandleEarned(s: State, t: Token, action: Action, initial: Token)
    requires TokensEarned(s, initial)
    ensures TokensEarned(Handle(s, t, action), initial)
  {
    hide Backed;
    var log := s.log + [Delivered(t, action)];
    var r := Handle(s, t, action);
    DeliverBacked(s.log, initial, s.held.lastAck, s.held.pendingStop, t, action);
    if r.log != log {
      HandleIssues(s, t, action);
      IssueBacked(log, initial, r.held.lastAck, r.held.pendingStop, r.log[|log|], r.held.lastAck, r.held.pendingStop);
    }
  }

  lemma HandleIssues(s: State, t: Token, action: Action)
    ensures var r := Handle(s, t, action);
            var log := s.log + [Delivered(t, action)];
            r.log == log || (|r.log| == |log| + 1 && r.log == log + [r.log[|log|]] && r.log[|log|].Sent?)
  {
  }

  lemma ArmEarned(s: State, initial: Token)
    requires TokensEarned(s, initial)
    ensures TokensEarned(Arm(s), initial)
  {
    hide Backed;
    IssueBacked(s.log, initial, s.held.lastAck, s.held.pendingStop, Armed, s.held.lastAck, s.held.pendingStop);
  }

  lemma PollEarned(s: State, ack: Option<Token>, report: Option<ExecutorState>, initial: Token)
    requires TokensEarned(s, initial) && (ack.None? || ack == s.held.lastAck)
    ensures TokensEarned(Poll(s, ack, report), initial)
  {
    hide Backed;
    IssueBacked(s.log, initial, s.held.lastAck, s.held.pendingStop, Polled(ack, report), s.held.lastAck,
        s.held.pendingStop);
  }

  lemma CommandEarned(s: State, t: Token, action: Action, ack: Option<Token>, report: Option<ExecutorState>,
      initial: Token)
    requires TokensEarned(s, initial)
    requires var h := Arm(Handle(s, t, action)); ack.None? || ack == h.held.lastAck
    ensures TokensEarned(Poll(Arm(Handle(s, t, action)), ack, report), initial)
  {
    hide TokensEarned, Handle, Arm, Poll;
    HandleEarned(s, t, action, initial);
    ArmEarned(Handle(s, t, action), initial);
    PollEarned(Arm(Handle(s, t, action)), ack, report, initial);
  }

  lemma TakeAckFacts(s: State)
    ensures var (ack, r) := TakeAck(s);
            && (ack == s.held.lastAck || ack == s.held.pendingStop) && r.log == s.log
            && (r.held.lastAck.None? || r.held.lastAck == s.held.lastAck)
            && (r.held.pendingStop.None? || r.held.pendingStop == s.held.pendingStop)
  {
  }

  /** A turn-ending report acknowledges one held token and drops it. */
  lemma ReportEarned(s: State, s1: State, report: Option<ExecutorState>, messages: Option<seq<TurnMessage>>,
      initial: Token)
    requires TokensEarned(s, initial)
    requires s1.log == s.log && s1.held.lastAck == s.held.lastAck && s1.held.pendingStop == s.held.pendingStop
    ensures var (ack, r) := TakeAck(s1);
            && Backed(r.log + [Synced(ack, report, messages)], initial, r.held.lastAck, r.held.pendingStop)
            && Backed(r.log, initial, r.held.lastAck, r.held.pendingStop)
  {
    hide Backed, TakeAck;
    TakeAckFacts(s1);
    var (ack, r) := TakeAck(s1);
    IssueBacked(s.log, initial, s.held.lastAck, s.held.pendingStop, Synced(ack, report, messages), r.held.lastAck,
        r.held.pendingStop);
  }

  lemma ReportTurnEarned(s: State, output: Option<Payload>, agentSession: Option<string>, settled: bool, initial: Token)
    requires TokensEarned(s, initial)
    ensures TokensEarned(ReportTurn(s, output, agentSession, settled), initial)
  {
    hide Backed, TakeAck;
    ReportEarned(s, TurnBooked(s, output, agentSession, settled), Some(if settled then Idle else Running),
      Some(TurnMessages(s, output)), initial);
  }

  lemma ResumeTurnEarned(s: State, reply: Reply, initial: Token)
    requires TokensEarned(s, initial)
    ensures TokensEarned(ResumeTurn(s, reply), initial)
  {
    hide Backed, Handle, Arm, Poll;
    var s1 := Answered(s);
    match reply
    case Failed => IssueBacked(s.log, initial, s.held.lastAck, s.held.pendingStop, Sent(StopAgent), s.held.lastAck,
        s.held.pendingStop);
    case NoAction => PollEarned(s1, s1.held.lastAck, None, initial);
    case Command(t, action) =>
      var h := Arm(Handle(s1, t, action));
      CommandEarned(s1, t, action,
          if h.held.pendingStop.Some? || h.held.pendingFeed.Some? then None else h.held.lastAck, None, initial);
  }

  lemma AcceptedEarned(s: State, reply: Reply, initial: Token)
    requires TokensEarned(s, initial)
    ensures TokensEarned(OnAccepted(s, reply), initial)
  {
    hide Handle, Arm, Poll, AcksEarned;
    if s.held.pendingFeed.Some? {
      var token := s.held.pendingFeed.value;
      var s1 := Emit(s.(silence := false, held := s.held.(pendingFeed := None), polling := false), FeedAccepted(token));
      AppendBacked(s.log, initial, s.held.lastAck, s.held.pendingStop, FeedAccepted(token));
      assert s1.log[|s.log|] == FeedAccepted(token);
      AppendBacked(s1.log, initial, s.held.lastAck, s.held.pendingStop, Synced(Some(token), Some(Running), None));
      var s2 := Emit(s1, Synced(Some(token), Some(Running), None));
      assert s2.log[|s.log|] == FeedAccepted(token);
      match reply {
        case NoAction => PollEarned(s2, AckForPoll(s2), ReportOf(s2), initial);
        case Failed =>
          var s3 := s2.(held := s2.held.(lastAck := Some(token)));
          PollEarned(s3, AckForPoll(s3), ReportOf(s3), initial);
        case Command(t, action) =>
          var s3 := Arm(Handle(s2, t, action));
          CommandEarned(s2, t, action, AckForPoll(s3), ReportOf(s3), initial);
      }
    }
  }

  lemma PollDoneEarned(s: State, reply: Reply, initial: Token)
    requires TokensEarned(s, initial)
    ensures TokensEarned(OnPollDone(s, reply), initial)
  {
    hide Backed, Handle, Arm, Poll;
    var s1 := s.(polling := false);
    var cleared := if s.held.cancelPending then s1 else s1.(held := s1.held.(lastAck := None));
    IssueBacked(s.log, initial, s.held.lastAck, s.held.pendingStop, Armed, cleared.held.lastAck, s.held.pendingStop);
    match reply
    case Failed => PollEarned(s1, AckForPoll(s1), ReportOf(s1), initial);
    case NoAction => PollEarned(cleared, AckForPoll(cleared), ReportOf(cleared), initial);
    case Command(t, action) =>
      var s2 := Arm(Handle(cleared, t, action));
      CommandEarned(cleared, t, action, AckForPoll(s2), ReportOf(s2), initial);
  }

  lemma DiedEarned(s: State, agentSession: Option<string>, initial: Token)
    requires TokensEarned(s, initial)
    ensures TokensEarned(OnProcessDied(s, agentSession), initial)
  {
    hide Backed, TakeAck;
    var s1 := Abandoned(s, agentSession);
    ReportEarned(s, s1, Some(Crashed), Some(s.buffer), initial);
  }

  lemma ClosedEarned(s: State, initial: Token)
    requires TokensEarned(s, initial)
    ensures TokensEarned(OnClosed(s), initial)
  {
    hide Backed, TakeAck;
    ReportEarned(s, s, None, None, initial);
  }

  /** A step whose entries acknowledge at most the last held token. */
  lemma QuietEarned(s: State, i: Input, initial: Token)
    requires TokensEarned(s, initial)
    requires i.Init? || i.MessageEvent? || i.EscalationTimer? || i.SilenceTimer?
    ensures TokensEarned(Step(s, i), initial)
  {
    hide Backed;
    var r := Step(s, i);
    if |r.log| > |s.log| {
      IssueBacked(s.log, initial, s.held.lastAck, s.held.pendingStop, r.log[|s.log|], s.held.lastAck,
          s.held.pendingStop);
    }
    if |r.log| > |s.log| + 1 {
      IssueBacked(s.log + [Started], initial, s.held.lastAck, s.held.pendingStop, r.log[|s.log| + 1], s.held.lastAck,
          s.held.pendingStop);
    }
  }

  lemma StepEarned(s: State, i: Input, initial: Token)
    requires TokensEarned(s, initial)
    ensures TokensEarned(Step(s, i), initial)
  {
    hide Backed, ReportTurn, ResumeTurn, OnAccepted, OnPollDone, OnProcessDied, OnClosed,
      OnEscalationTimer, OnSilenceTimer, OnInit, OnMessage;
    match i
    case TurnComplete(output, agentSession, settled, reply) =>
      ReportTurnEarned(s, output, agentSession, settled, initial);
      ResumeTurnEarned(ReportTurn(s, output, agentSession, settled), reply, initial);
    case Accepted(reply) => AcceptedEarned(s, reply, initial);
    case PollDone(reply) => PollDoneEarned(s, reply, initial);
    case ProcessDied(agentSession) => DiedEarned(s, agentSession, initial);
    case Closed => ClosedEarned(s, initial);
    case _ => QuietEarned(s, i, initial);
  }

  lemma {:induction false} RunEarned(s: State, inputs: seq<Input>, initial: Token)
    requires TokensEarned(s, initial)
    ensures TokensEarned(Run(s, inputs), initial)
    decreases |inputs|
  {
    hide TokensEarned, Step;
    if inputs != [] {
      StepEarned(s, inputs[0], initial);
      RunEarned(Step(s, inputs[0]), inputs[1..], initial);
    }
  }

  /** In every run, each acknowledgement was earned by what the log recorded before it. */
  lemma AcksEarnedInRun(initial: Token, asid: Option<string>, seq0: int, hasPid: bool, inputs: seq<Input>)
    ensures AcksEarned(Run(Start(initial, asid, seq0, hasPid), inputs).log, initial)
  {
    RunEarned(Start(initial, asid, seq0, hasPid), inputs, initial);
    hide Run;
  }

  /**
   * In every run, a token that is not the assignment's and that no stop or cancel has
   * delivered before is acknowledged only after an Accepted event was handled while
   * that token's feed was pending.
   */
  lemma FeedAckNeedsAccepted(initial: Token, asid: Option<string>, seq0: int, hasPid: bool, inputs: seq<Input>,
      k: nat, t: Token)
    requires var log := Run(Start(initial, asid, seq0, hasPid), inputs).log;
             && k < |log| && AckOf(log[k]) == Some(t)
             && Delivered(t, StopTurn) !in log[..k] && Delivered(t, Cancel) !in log[..k]
    requires t != initial
    ensures var log := Run(Start(initial, asid, seq0, hasPid), inputs).log;
            exists j :: 0 <= j < k && log[j] == FeedAccepted(t)
  {
    AcksEarnedInRun(initial, asid, seq0, hasPid, inputs);
    hide Run;
    var log := Run(Start(initial, asid, seq0, hasPid), inputs).log;
    assert Earned(log[..k], initial, t);
    assert FeedAccepted(t) in log[..k];
  }

  // ---- Stop and cancel tokens are withheld ----

  predicate Brings(i: Input, t: Token) {
    ReplyOf(i).Command? && ReplyOf(i).token == t
  }

  /** Nothing from position `base` of the log on acknowledges `t`. */
  ghost predicate Unacked(log: seq<Entry>, base: nat, t: Token) {
    base <= |log| && forall i :: base <= i < |log| ==> AckOf(log[i]) != Some(t)
  }

  lemma UnackedAppend(log: seq<Entry>, base: nat, t: Token, e: Entry)
    requires Unacked(log, base, t) && AckOf(e) != Some(t)
    ensures Unacked(log + [e], base, t)
  {
  }

  lemma UnackedNow(log: seq<Entry>, t: Token)
    ensures Unacked(log, |log|, t)
  {
  }

  /** Handling a command acknowledges nothing. */
  lemma HandleUnacked(s: State, t': Token, action: Action, t: Token, base: nat)
    requires Unacked(s.log, base, t)
    ensures Unacked(Handle(s, t', action).log, base, t)
    ensures Unacked(Arm(Handle(s, t', action)).log, base, t)
  {
    hide Unacked, HandleHeld;
    var log := s.log + [Delivered(t', action)];
    UnackedAppend(s.log, base, t, Delivered(t', action));
    var command := Forward(s, t', action);
    if command.Some? {
      UnackedAppend(log, base, t, Sent(command.value));
    }
    var h := Handle(s, t', action);
    assert h.log == if command.Some? then log + [Sent(command.value)] else log;
    UnackedAppend(h.log, base, t, Armed);
  }

  /** No part of the state holds `t`. */
  predicate Unheld(s: State, t: Token) {
    s.held.lastAck != Some(t) && s.held.pendingStop != Some(t) && s.held.pendingFeed != Some(t)
  }

  lemma CommandUnheld(s: State, t': Token, action: Action, t: Token, ack: Option<Token>, report: Option<ExecutorState>)
    requires Unheld(s, t) && t' != t
    ensures Unheld(Arm(Handle(s, t', action)), t)
    ensures Unheld(Poll(Arm(Handle(s, t', action)), ack, report), t)
  {
  }

  lemma PollUnheld(s: State, ack: Option<Token>, report: Option<ExecutorState>, t: Token)
    requires Unheld(s, t)
    ensures Unheld(Poll(s, ack, report), t)
  {
  }

  lemma ResumeUnheld(s: State, reply: Reply, t: Token)
    requires Unheld(s, t) && (reply.Command? ==> reply.token != t)
    ensures Unheld(ResumeTurn(s, reply), t)
  {
    hide Handle, Arm, Poll;
    var s1 := Answered(s);
    if reply.Command? {
      CommandUnheld(s1, reply.token, reply.action, t, None, None);
      var h := Arm(Handle(s1, reply.token, reply.action));
      PollUnheld(h, if h.held.pendingStop.Some? || h.held.pendingFeed.Some? then None else h.held.lastAck, None, t);
    } else {
      PollUnheld(s1, s1.held.lastAck, None, t);
    }
  }

  lemma TurnUnheld(s: State, i: Input, t: Token)
    requires Unheld(s, t) && !Brings(i, t) && i.TurnComplete?
    ensures Unheld(Step(s, i), t)
  {
    hide ReportTurn, ResumeTurn;
    var r := ReportTurn(s, i.output, i.agentSession, i.settled);
    ReportUnheld(s, i.output, i.agentSession, i.settled, t);
    ResumeUnheld(r, i.reply, t);
  }

  lemma AcceptedUnheld(s: State, reply: Reply, t: Token)
    requires Unheld(s, t) && (reply.Command? ==> reply.token != t)
    ensures Unheld(OnAccepted(s, reply), t)
  {
    hide Handle, Arm;
    if s.held.pendingFeed.Some? && reply.Command? {
      var token := s.held.pendingFeed.value;
      var s2 := FeedAcked(s, token);
      CommandUnheld(s2, reply.token, reply.action, t, None, None);
    }
  }

  lemma PollDoneUnheld(s: State, reply: Reply, t: Token)
    requires Unheld(s, t) && (reply.Command? ==> reply.token != t)
    ensures Unheld(OnPollDone(s, reply), t)
  {
    hide Handle, Arm;
    if reply.Command? {
      var s1 := s.(polling := false);
      CommandUnheld(if s.held.cancelPending then s1 else s1.(held := s1.held.(lastAck := None)), reply.token,
          reply.action, t, None, None);
    }
  }

  lemma TakeAckUnheld(s: State, t: Token)
    requires Unheld(s, t)
    ensures Unheld(TakeAck(s).1, t)
  {
  }

  lemma QuietUnheld(s: State, i: Input, t: Token)
    requires Unheld(s, t) && !i.TurnComplete? && !i.Accepted? && !i.PollDone?
    ensures Unheld(Step(s, i), t)
  {
    hide TakeAck;
    if i.ProcessDied? {
      TakeAckUnheld(Abandoned(s, i.diedSession), t);
    } else if i.Closed? {
      TakeAckUnheld(s, t);
    }
  }

  lemma StepUnheld(s: State, i: Input, t: Token)
    requires Unheld(s, t) && !Brings(i, t)
    ensures Unheld(Step(s, i), t)
  {
    hide Unheld, OnAccepted, OnPollDone, OnTurnComplete, OnInit, OnMessage, OnEscalationTimer, OnSilenceTimer,
        OnProcessDied, OnClosed;
    match i
    case TurnComplete(_, _, _, _) => TurnUnheld(s, i, t);
    case Accepted(reply) => AcceptedUnheld(s, reply, t);
    case PollDone(reply) => PollDoneUnheld(s, reply, t);
    case _ => QuietUnheld(s, i, t);
  }

  lemma {:induction false} RunUnheld(s: State, inputs: seq<Input>, t: Token)
    requires Unheld(s, t) && forall k :: 0 <= k < |inputs| ==> !Brings(inputs[k], t)
    ensures Unheld(Run(s, inputs), t)
    decreases |inputs|
  {
    hide Step, Brings, Unheld;
    if inputs != [] {
      StepUnheld(s, inputs[0], t);
      RunUnheld(Step(s, inputs[0]), inputs[1..], t);
    }
  }

  /** A stop token is held for the end of the turn: the executor runs and no other slot has it. */
  ghost predicate StopHeld(s: State, t: Token, base: nat) {
    Unacked(s.log, base, t) && s.held.lastAck != Some(t) && s.held.pendingFeed != Some(t) && (s.running || s.done)
  }

  lemma HandleStopHeld(s: State, t': Token, action: Action, t: Token, base: nat)
    requires StopHeld(s, t, base) && s.running && (t' == t ==> action.StopTurn?)
    ensures StopHeld(Handle(s, t', action), t, base) && Handle(s, t', action).running
  {
    hide Unacked;
    HandleUnacked(s, t', action, t, base);
  }

  lemma ArmPollStopHeld(s: State, ack: Option<Token>, report: Option<ExecutorState>, t: Token, base: nat)
    requires StopHeld(s, t, base) && s.running
    ensures StopHeld(Arm(s), t, base) && Arm(s).running
    ensures ack != Some(t) ==> StopHeld(Poll(s, ack, report), t, base)
  {
    hide Unacked;
    UnackedAppend(s.log, base, t, Armed);
    if ack != Some(t) {
      UnackedAppend(s.log, base, t, Polled(ack, report));
    }
  }

  lemma CommandStopHeld(s: State, t': Token, action: Action, ack: Option<Token>, report: Option<ExecutorState>,
      t: Token, base: nat)
    requires StopHeld(s, t, base) && s.running && (t' == t ==> action.StopTurn?) && ack != Some(t)
    ensures StopHeld(Arm(Handle(s, t', action)), t, base)
    ensures StopHeld(Poll(Arm(Handle(s, t', action)), ack, report), t, base)
  {
    hide StopHeld, Handle, Arm, Poll;
    HandleStopHeld(s, t', action, t, base);
    ArmPollStopHeld(Handle(s, t', action), ack, report, t, base);
    ArmPollStopHeld(Arm(Handle(s, t', action)), ack, report, t, base);
  }

  lemma ArmHandleLastAck(s: State, t': Token, action: Action, t: Token)
    requires s.running && s.held.lastAck != Some(t) && (t' == t ==> action.StopTurn?)
    ensures Arm(Handle(s, t', action)).held.lastAck != Some(t)
  {
  }

  lemma AcceptedStopHeld(s: State, reply: Reply, t: Token, base: nat)
    requires StopHeld(s, t, base) && s.running
    requires reply.Command? && reply.token == t ==> reply.action.StopTurn?
    ensures StopHeld(OnAccepted(s, reply), t, base)
  {
    hide Unacked, Handle, Arm;
    if s.held.pendingFeed.Some? {
      var token := s.held.pendingFeed.value;
      var e := Synced(Some(token), Some(Running), None);
      UnackedAppend(s.log, base, t, FeedAccepted(token));
      UnackedAppend(s.log + [FeedAccepted(token)], base, t, e);
      var s2 := FeedAcked(s, token);
      assert StopHeld(s2, t, base);
      match reply {
        case Command(t', action) =>
          ArmHandleLastAck(s2, t', action, t);
          var s3 := Arm(Handle(s2, t', action));
          CommandStopHeld(s2, t', action, AckForPoll(s3), ReportOf(s3), t, base);
        case NoAction => ArmPollStopHeld(s2, AckForPoll(s2), ReportOf(s2), t, base);
        case Failed =>
          var s3 := s2.(held := s2.held.(lastAck := Some(token)));
          ArmPollStopHeld(s3, AckForPoll(s3), ReportOf(s3), t, base);
      }
    }
  }

  lemma PollDoneStopHeld(s: State, reply: Reply, t: Token, base: nat)
    requires StopHeld(s, t, base) && s.running
    requires reply.Command? && reply.token == t ==> reply.action.StopTurn?
    ensures StopHeld(OnPollDone(s, reply), t, base)
  {
    hide Unacked, Handle, Arm;
    var s1 := s.(polling := false);
    var cleared := if s.held.cancelPending then s1 else s1.(held := s1.held.(lastAck := None));
    match reply {
      case Command(t', action) =>
        ArmHandleLastAck(cleared, t', action, t);
        var s2 := Arm(Handle(cleared, t', action));
        CommandStopHeld(cleared, t', action, AckForPoll(s2), ReportOf(s2), t, base);
      case NoAction => ArmPollStopHeld(cleared, AckForPoll(cleared), ReportOf(cleared), t, base);
      case Failed => ArmPollStopHeld(s1, AckForPoll(s1), ReportOf(s1), t, base);
    }
  }

  lemma QuietStopHeld(s: State, i: Input, t: Token, base: nat)
    requires StopHeld(s, t, base)
    requires i.Init? || i.MessageEvent? || i.EscalationTimer? || i.SilenceTimer?
    ensures StopHeld(Step(s, i), t, base)
  {
    hide Unacked;
    var r := Step(s, i);
    if |r.log| > |s.log| {
      UnackedAppend(s.log, base, t, r.log[|s.log|]);
    }
    if |r.log| > |s.log| + 1 {
      UnackedAppend(s.log + [Started], base, t, r.log[|s.log| + 1]);
    }
  }

  lemma StepStopHeld(s: State, i: Input, t: Token, base: nat)
    requires StopHeld(s, t, base) && !EndsTurn(i) && (Brings(i, t) ==> ReplyOf(i).action.StopTurn?)
    ensures StopHeld(Step(s, i), t, base)
  {
    hide StopHeld, OnAccepted, OnPollDone, OnTurnComplete, OnInit, OnMessage, OnEscalationTimer, OnSilenceTimer,
        OnProcessDied, OnClosed;
    if Enabled(s, i) {
      StopHeldRunning(s, t, base);
      match i
      case Accepted(reply) => AcceptedStopHeld(s, reply, t, base);
      case PollDone(reply) => PollDoneStopHeld(s, reply, t, base);
      case _ => QuietStopHeld(s, i, t, base);
    }
  }

  lemma StopHeldRunning(s: State, t: Token, base: nat)
    requires StopHeld(s, t, base) && !s.done
    ensures s.running
  {
  }

  lemma {:induction false} RunStopHeld(s: State, inputs: seq<Input>, t: Token, base: nat)
    requires StopHeld(s, t, base)
    requires forall k :: 0 <= k < |inputs| ==>
               !EndsTurn(inputs[k]) && (Brings(inputs[k], t) ==> ReplyOf(inputs[k]).action.StopTurn?)
    ensures StopHeld(Run(s, inputs), t, base)
    decreases |inputs|
  {
    hide Step, Brings, StopHeld, EndsTurn, ReplyOf;
    if inputs != [] {
      StepStopHeld(s, inputs[0], t, base);
      RunStopHeld(Step(s, inputs[0]), inputs[1..], t, base);
    }
  }

  lemma ResumeStops(s: State, reply: Reply, t: Token, base: nat)
    requires Unheld(s, t) && Unacked(s.log, base, t)
    requires ResumeTurn(s, reply).held.pendingStop == Some(t) && !ResumeTurn(s, reply).done
    ensures StopHeld(ResumeTurn(s, reply), t, base)
  {
    hide Unacked, Handle, Arm;
    if reply.Command? {
      HeldStopCommand(Answered(s), reply, t, base, None);
    }
  }

  lemma PollDoneStops(s: State, reply: Reply, t: Token, base: nat)
    requires Unheld(s, t) && Unacked(s.log, base, t) && OnPollDone(s, reply).held.pendingStop == Some(t)
    ensures StopHeld(OnPollDone(s, reply), t, base)
  {
    hide Unacked, Handle, Arm;
    if reply.Command? {
      var s1 := s.(polling := false);
      var c := if s.held.cancelPending then s1 else s1.(held := s1.held.(lastAck := None));
      HeldStopCommand(c, reply, t, base, ReportOf(Arm(Handle(c, reply.token, reply.action))));
    }
  }

  lemma AcceptedStops(s: State, reply: Reply, t: Token, base: nat)
    requires Unheld(s, t) && Unacked(s.log, base, t) && OnAccepted(s, reply).held.pendingStop == Some(t)
    ensures StopHeld(OnAccepted(s, reply), t, base)
  {
    hide Unacked, Handle, Arm;
    if s.held.pendingFeed.Some? && reply.Command? {
      var token := s.held.pendingFeed.value;
      var e := Synced(Some(token), Some(Running), None);
      UnackedAppend(s.log, base, t, FeedAccepted(token));
      UnackedAppend(s.log + [FeedAccepted(token)], base, t, e);
      var s2 := FeedAcked(s, token);
      HeldStopCommand(s2, reply, t, base, ReportOf(Arm(Handle(s2, reply.token, reply.action))));
    }
  }

  /** The step that makes a fresh stop pending acknowledges it nowhere. */
  lemma StopStart(s: State, d: Input, t: Token)
    requires Unheld(s, t) && Enabled(s, d) && Step(s, d).held.pendingStop == Some(t) && !Step(s, d).done
    ensures StopHeld(Step(s, d), t, |s.log|)
  {
    hide Unacked, ReportTurn, ResumeTurn, OnAccepted, OnPollDone;
    UnackedNow(s.log, t);
    match d
    case TurnComplete(output, agentSession, settled, reply) =>
      ReportUnheld(s, output, agentSession, settled, t);
      ResumeStops(ReportTurn(s, output, agentSession, settled), reply, t, |s.log|);
    case PollDone(reply) => PollDoneStops(s, reply, t, |s.log|);
    case Accepted(reply) => AcceptedStops(s, reply, t, |s.log|);
    case _ =>
  }

  lemma ReportUnheld(s: State, output: Option<Payload>, agentSession: Option<string>, settled: bool, t: Token)
    requires Unheld(s, t)
    ensures var r := ReportTurn(s, output, agentSession, settled);
            Unheld(r, t) && Unacked(r.log, |s.log|, t) && r.running == (s.running && !settled)
  {
  }

  /** A stop that a command makes pending was delivered while the executor ran. */
  lemma HeldStopCommand(s: State, reply: Reply, t: Token, base: nat, report: Option<ExecutorState>)
    requires Unheld(s, t) && Unacked(s.log, base, t) && reply.Command?
    requires Arm(Handle(s, reply.token, reply.action)).held.pendingStop == Some(t)
    ensures var h := Arm(Handle(s, reply.token, reply.action));
            && StopHeld(h, t, base) && h.held.lastAck != Some(t)
            && StopHeld(Poll(h, AckForPoll(h), report), t, base)
            && StopHeld(Poll(h, if h.held.pendingStop.Some? || h.held.pendingFeed.Some? then None else h.held.lastAck,
                report), t, base)
  {
    hide Unacked;
    HandleStops(s, reply, t);
    var h := Arm(Handle(s, reply.token, reply.action));
    hide Handle, Arm;
    CommandStopHeld(s, reply.token, reply.action, None, report, t, base);
  }

  lemma HandleStops(s: State, reply: Reply, t: Token)
    requires Unheld(s, t) && reply.Command?
    requires Arm(Handle(s, reply.token, reply.action)).held.pendingStop == Some(t)
    ensures s.running && reply.token == t && reply.action.StopTurn?
    ensures Arm(Handle(s, reply.token, reply.action)).held.lastAck != Some(t)
  {
  }

  /**
   * A fresh stop token that becomes pending is acknowledged by nothing issued from
   * its delivery until the turn ends, whatever else arrives, however often the same
   * stop is redelivered.
   */
  lemma StopWithheld(initial: Token, asid: Option<string>, seq0: int, hasPid: bool,
                     before: seq<Input>, delivery: Input, after: seq<Input>, t: Token, k: nat)
    requires t != initial && forall j :: 0 <= j < |before| ==> !Brings(before[j], t)
    requires var s := Run(Start(initial, asid, seq0, hasPid), before);
             && Enabled(s, delivery) && Step(s, delivery).held.pendingStop == Some(t) && !Step(s, delivery).done
             && |s.log| <= k < |Run(Step(s, delivery), after).log|
    requires forall j :: 0 <= j < |after| ==>
               !EndsTurn(after[j]) && (Brings(after[j], t) ==> ReplyOf(after[j]).action.StopTurn?)
    ensures var s := Run(Start(initial, asid, seq0, hasPid), before);
            AckOf(Run(Step(s, delivery), after).log[k]) != Some(t)
  {
    RunUnheld(Start(initial, asid, seq0, hasPid), before, t);
    hide Run, Step, Brings, EndsTurn, Enabled;
    var s := Run(Start(initial, asid, seq0, hasPid), before);
    StopStart(s, delivery, t);
    RunStopHeld(Step(s, delivery), after, t, |s.log|);
  }

  /** The report that ends the turn acknowledges the held stop. */
  lemma HeldStopAcked(s: State, i: Input, t: Token)
    requires !s.done && EndsTurn(i) && !s.held.cancelPending && s.held.pendingStop == Some(t)
    ensures |Step(s, i).log| > |s.log| && Step(s, i).log[|s.log|].Synced?
    ensures AckOf(Step(s, i).log[|s.log|]) == Some(t)
  {
    hide Handle, Arm;
    if i.TurnComplete? {
      var r := ReportTurn(s, i.output, i.agentSession, i.settled);
      assert r.log[|s.log|].Synced? && AckOf(r.log[|s.log|]) == Some(t);
      ResumeExtends(r, i.reply);
    }
  }

  lemma HandleExtends(s: State, token: Token, action: Action)
    ensures s.log <= Arm(Handle(s, token, action)).log
  {
    hide HandleHeld;
  }

  lemma ResumeExtends(s: State, reply: Reply)
    ensures s.log <= ResumeTurn(s, reply).log
  {
    hide Handle, Arm;
    if reply.Command? {
      HandleExtends(Answered(s), reply.token, reply.action);
    }
  }

  // ---- Cancel tokens: withheld unless they answer a turn report ----

  /** A cancel is outstanding, a poll is in flight, and no feed carries `t`. */
  ghost predicate CancelHeld(s: State, t: Token, base: nat) {
    Unacked(s.log, base, t) && (s.done || (s.held.cancelPending && s.polling && s.held.pendingFeed != Some(t)))
  }

  lemma CommandCancelHeld(s: State, t': Token, action: Action, report: Option<ExecutorState>, t: Token, base: nat)
    requires Unacked(s.log, base, t) && s.held.pendingFeed != Some(t)
    requires t' == t ==> action.Cancel?
    requires s.held.cancelPending || (t' == t && action.Cancel?)
    ensures var h := Arm(Handle(s, t', action));
            h.held.cancelPending && CancelHeld(Poll(h, AckForPoll(h), report), t, base)
  {
    hide Unacked;
    HandleUnacked(s, t', action, t, base);
    var h := Arm(Handle(s, t', action));
    UnackedAppend(h.log, base, t, Polled(None, report));
  }

  lemma PollCancelHeld(s: State, report: Option<ExecutorState>, t: Token, base: nat)
    requires Unacked(s.log, base, t) && s.held.cancelPending && s.held.pendingFeed != Some(t)
    ensures CancelHeld(Poll(s, AckForPoll(s), report), t, base)
  {
    UnackedAppend(s.log, base, t, Polled(None, report));
  }

  lemma AcceptedCancelHeld(s: State, reply: Reply, t: Token, base: nat)
    requires Unacked(s.log, base, t) && s.held.pendingFeed != Some(t) && s.held.pendingFeed.Some?
    requires reply.Command? && reply.token == t ==> reply.action.Cancel?
    requires s.held.cancelPending || (reply.Command? && reply.token == t)
    ensures CancelHeld(OnAccepted(s, reply), t, base)
  {
    hide Unacked, Handle, Arm;
    var token := s.held.pendingFeed.value;
    var e := Synced(Some(token), Some(Running), None);
    UnackedAppend(s.log, base, t, FeedAccepted(token));
    UnackedAppend(s.log + [FeedAccepted(token)], base, t, e);
    var s2 := FeedAcked(s, token);
    match reply {
      case Command(t', action) =>
        CommandCancelHeld(s2, t', action, ReportOf(Arm(Handle(s2, t', action))), t, base);
      case NoAction => PollCancelHeld(s2, ReportOf(s2), t, base);
      case Failed =>
        var s3 := s2.(held := s2.held.(lastAck := Some(token)));
        PollCancelHeld(s3, ReportOf(s3), t, base);
    }
  }

  lemma PollDoneCancelHeld(s: State, reply: Reply, t: Token, base: nat)
    requires Unacked(s.log, base, t) && s.held.pendingFeed != Some(t)
    requires reply.Command? && reply.token == t ==> reply.action.Cancel?
    requires s.held.cancelPending || (reply.Command? && reply.token == t)
    ensures CancelHeld(OnPollDone(s, reply), t, base)
  {
    hide Unacked, Handle, Arm;
    var s1 := s.(polling := false);
    var cleared := if s.held.cancelPending then s1 else s1.(held := s1.held.(lastAck := None));
    match reply {
      case Command(t', action) =>
        CommandCancelHeld(cleared, t', action, ReportOf(Arm(Handle(cleared, t', action))), t, base);
      case NoAction => PollCancelHeld(s1, ReportOf(s1), t, base);
      case Failed => PollCancelHeld(s1, ReportOf(s1), t, base);
    }
  }

  lemma StepCancelHeld(s: State, i: Input, t: Token, base: nat)
    requires CancelHeld(s, t, base) && !EndsTurn(i) && (Brings(i, t) ==> ReplyOf(i).action.Cancel?)
    ensures CancelHeld(Step(s, i), t, base)
  {
    hide Unacked, OnAccepted, OnPollDone, OnTurnComplete, OnProcessDied, OnClosed;
    if Enabled(s, i) {
      match i
      case Accepted(reply) =>
        if s.held.pendingFeed.Some? {
          AcceptedCancelHeld(s, reply, t, base);
        } else {
          AcceptedIgnored(s, reply);
        }
      case PollDone(reply) => PollDoneCancelHeld(s, reply, t, base);
      case _ => QuietCancelHeld(s, i, t, base);
    }
  }

  lemma AcceptedIgnored(s: State, reply: Reply)
    requires s.held.pendingFeed.None?
    ensures OnAccepted(s, reply) == s.(silence := false)
  {
  }

  lemma QuietCancelHeld(s: State, i: Input, t: Token, base: nat)
    requires CancelHeld(s, t, base)
    requires i.Init? || i.MessageEvent? || i.EscalationTimer? || i.SilenceTimer?
    ensures CancelHeld(Step(s, i), t, base)
  {
    hide Unacked;
    var r := Step(s, i);
    if |r.log| > |s.log| {
      UnackedAppend(s.log, base, t, r.log[|s.log|]);
    }
  }

  lemma {:induction false} RunCancelHeld(s: State, inputs: seq<Input>, t: Token, base: nat)
    requires CancelHeld(s, t, base)
    requires forall k :: 0 <= k < |inputs| ==>
               !EndsTurn(inputs[k]) && (Brings(inputs[k], t) ==> ReplyOf(inputs[k]).action.Cancel?)
    ensures CancelHeld(Run(s, inputs), t, base)
    decreases |inputs|
  {
    hide Step, Brings, CancelHeld, EndsTurn, ReplyOf;
    if inputs != [] {
      StepCancelHeld(s, inputs[0], t, base);
      RunCancelHeld(Step(s, inputs[0]), inputs[1..], t, base);
    }
  }

  /** A cancel command is handled at this step. */
  predicate CancelsAt(s: State, d: Input, t: Token) {
    && Enabled(s, d) && ReplyOf(d) == Command(t, Cancel)
    && (d.Accepted? ==> s.held.pendingFeed.Some?)
    && (d.TurnComplete? ==> !s.held.cancelPending)
  }

  lemma TurnCancelAcksAtOnce(s: State, d: Input, t: Token)
    requires CancelsAt(s, d, t) && d.TurnComplete?
    ensures var log := Step(s, d).log;
            |log| > |s.log| && log[|log| - 1] == Polled(Some(t), None)
  {
    var r := ReportTurn(s, d.output, d.agentSession, d.settled);
    assert |r.log| > |s.log| && !r.held.cancelPending;
    hide ReportTurn;
    var s1 := Answered(r);
    var h := Arm(Handle(s1, t, Cancel));
    assert h.held == Held(Some(t), true, None, None);
  }

  /**
   * A fresh cancel token is withheld until the turn ends exactly when it did not
   * arrive as the reply to a turn report: there, the poll issued at once carries it.
   */
  lemma CancelWithheldIff(initial: Token, asid: Option<string>, seq0: int, hasPid: bool,
                          before: seq<Input>, delivery: Input, after: seq<Input>, t: Token)
    requires t != initial && forall j :: 0 <= j < |before| ==> !Brings(before[j], t)
    requires CancelsAt(Run(Start(initial, asid, seq0, hasPid), before), delivery, t)
    requires forall j :: 0 <= j < |after| ==>
               !EndsTurn(after[j]) && (Brings(after[j], t) ==> ReplyOf(after[j]).action.Cancel?)
    ensures var s := Run(Start(initial, asid, seq0, hasPid), before);
            && (delivery.TurnComplete? ==> !Unacked(Step(s, delivery).log, |s.log|, t))
            && (!delivery.TurnComplete? ==> Unacked(Run(Step(s, delivery), after).log, |s.log|, t))
  {
    RunUnheld(Start(initial, asid, seq0, hasPid), before, t);
    var s := Run(Start(initial, asid, seq0, hasPid), before);
    hide Run, Brings, EndsTurn, Start;
    if delivery.TurnComplete? {
      hide Unheld;
      TurnCancelAcksAtOnce(s, delivery, t);
      hide Step;
      var log := Step(s, delivery).log;
      assert AckOf(log[|log| - 1]) == Some(t);
    } else {
      CancelStart(s, delivery, t);
      hide Step;
      RunCancelHeld(Step(s, delivery), after, t, |s.log|);
    }
  }

  lemma CancelStart(s: State, d: Input, t: Token)
    requires CancelsAt(s, d, t) && Unheld(s, t) && !d.TurnComplete?
    ensures CancelHeld(Step(s, d), t, |s.log|)
  {
    hide OnAccepted, OnPollDone, OnTurnComplete, OnInit, OnMessage, OnEscalationTimer, OnSilenceTimer, OnProcessDied,
        OnClosed;
    assert Unacked(s.log, |s.log|, t);
    match d
    case Accepted(reply) => AcceptedCancelHeld(s, reply, t, |s.log|);
    case PollDone(reply) => PollDoneCancelHeld(s, reply, t, |s.log|);
    case _ =>
  }
}
