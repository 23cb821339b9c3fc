/** What ends a session, what its turn reports acknowledge, and when silence is fatal. */
module WorkerLifecycle {
  import opened Prelude
  import opened Worker

  // ---- The end ----

  /**
   * A session ends with its executor or its channel, with a report that failed, or with
   * the report of a cancelled turn.
   */
  lemma EndsExactly(s: State, i: Input)
    requires Enabled(s, i)
    ensures Step(s, i).done <==>
            i.ProcessDied? || i.Closed? || (i.TurnComplete? && (i.reply.Failed? || s.held.cancelPending))
  {
    hide OnAccepted, OnPollDone, OnProcessDied, OnClosed, ReportTurn, ResumeTurn;
    match i
    case TurnComplete(output, agentSession, settled, reply) =>
      ReportKeepsGoing(s, output, agentSession, settled);
      ResumeEnds(ReportTurn(s, output, agentSession, settled), reply);
    case Accepted(reply) => AcceptedNames(s, reply);
    case PollDone(reply) => PollDoneNames(s, reply);
    case ProcessDied(agentSession) => EndNames(s, agentSession);
    case Closed => EndNames(s, None);
    case _ =>
  }

  lemma CommandKeepsGoing(s: State, token: Token, action: Action)
    ensures Arm(Handle(s, token, action)).done == s.done
    ensures Arm(Handle(s, token, action)).silence == s.silence
    ensures Arm(Handle(s, token, action)).agentSession == s.agentSession
  {
    hide HandleHeld, Forward;
  }

  lemma ReportKeepsGoing(s: State, output: Option<Payload>, agentSession: Option<string>, settled: bool)
    ensures var r := ReportTurn(s, output, agentSession, settled);
            && r.done == s.done && !r.silence && r.held.cancelPending == s.held.cancelPending
            && r.agentSession == if agentSession.Some? then agentSession else s.agentSession
  {
  }

  lemma ResumeEnds(s: State, reply: Reply)
    ensures var r := ResumeTurn(s, reply);
            && r.done == (s.done || reply.Failed? || s.held.cancelPending)
            && r.silence == s.silence && r.agentSession == s.agentSession
  {
    hide Arm, Handle;
    if reply.Command? {
      CommandKeepsGoing(Answered(s), reply.token, reply.action);
    }
  }

  /**
   * What ends a turn acknowledges the pending stop when no cancel is outstanding, and
   * the last token held otherwise; only a closed channel with no token says nothing.
   */
  lemma TurnEndAcks(s: State, i: Input)
    requires Enabled(s, i) && EndsTurn(i)
    ensures var due := if !s.held.cancelPending && s.held.pendingStop.Some? then s.held.pendingStop else s.held.lastAck;
            var log := Step(s, i).log;
            if i.Closed? && due.None? then log == s.log
            else |log| > |s.log| && log[|s.log|].Synced? && log[|s.log|].ack == due
  {
    hide ResumeTurn;
    if i.TurnComplete? {
      var r := ReportTurn(s, i.output, i.agentSession, i.settled);
      assert |r.log| == |s.log| + 1;
      LogGrows(r, i.reply);
    }
  }

  lemma LogGrows(s: State, reply: Reply)
    ensures s.log <= ResumeTurn(s, reply).log
  {
    hide Arm, Handle;
    if reply.Command? {
      CommandLogGrows(Answered(s), reply.token, reply.action);
    }
  }

  lemma CommandLogGrows(s: State, token: Token, action: Action)
    ensures s.log <= Arm(Handle(s, token, action)).log
  {
    hide HandleHeld;
  }

  // ---- Silence and identity ----

  /** The agent session known after an input, given the one known before. */
  function Named(i: Input, before: Option<string>): Option<string> {
    match i
    case Init(sessionId) => Some(sessionId)
    case TurnComplete(_, Some(named), _, _) => Some(named)
    case ProcessDied(Some(named)) => Some(named)
    case _ => before
  }

  /** Whether a silence is awaited after an input, given whether one was before. */
  function Awaits(i: Input, before: bool): bool {
    match i
    case TurnComplete(_, _, settled, _) => !settled
    case PollDone(_) => before
    case EscalationTimer => before
    case _ => false
  }

  /** Whether the last thing heard from the executor was a turn that did not settle. */
  function Unsettled(inputs: seq<Input>): bool {
    inputs != [] && Awaits(inputs[|inputs| - 1], Unsettled(inputs[..|inputs| - 1]))
  }

  /** The agent session last named by the executor, or the one resumed. */
  function LastNamed(resumed: Option<string>, inputs: seq<Input>): Option<string> {
    if inputs == [] then resumed
    else Named(inputs[|inputs| - 1], LastNamed(resumed, inputs[..|inputs| - 1]))
  }

  lemma TurnNames(s: State, i: Input)
    requires i.TurnComplete?
    ensures var r := OnTurnComplete(s, i.output, i.agentSession, i.settled, i.reply);
            r.agentSession == Named(i, s.agentSession) && (!r.done ==> r.silence == Awaits(i, s.silence))
  {
    hide ReportTurn, ResumeTurn;
    ReportKeepsGoing(s, i.output, i.agentSession, i.settled);
    ResumeEnds(ReportTurn(s, i.output, i.agentSession, i.settled), i.reply);
  }

  lemma AcceptedNames(s: State, reply: Reply)
    ensures var r := OnAccepted(s, reply); r.agentSession == s.agentSession && !r.silence && r.done == s.done
  {
    hide Arm, Handle;
    if s.held.pendingFeed.Some? && reply.Command? {
      CommandKeepsGoing(FeedAcked(s, s.held.pendingFeed.value), reply.token, reply.action);
    }
  }

  lemma PollDoneNames(s: State, reply: Reply)
    ensures var r := OnPollDone(s, reply);
            r.agentSession == s.agentSession && r.silence == s.silence && r.done == s.done
  {
    hide Arm, Handle;
    var s1 := s.(polling := false);
    if reply.Command? {
      CommandKeepsGoing(if s.held.cancelPending then s1 else s1.(held := s1.held.(lastAck := None)), reply.token,
        reply.action);
    }
  }

  lemma EndNames(s: State, agentSession: Option<string>)
    ensures OnProcessDied(s, agentSession).agentSession == Named(ProcessDied(agentSession), s.agentSession)
    ensures OnClosed(s).agentSession == s.agentSession
    ensures OnProcessDied(s, agentSession).done && OnClosed(s).done
  {
    hide TakeAck;
    TakeAckNames(Abandoned(s, agentSession));
    TakeAckNames(s);
  }

  lemma StepNames(s: State, i: Input)
    requires !s.done
    ensures Step(s, i).agentSession == Named(i, s.agentSession)
    ensures !Step(s, i).done ==> Step(s, i).silence == Awaits(i, s.silence)
  {
    hide OnTurnComplete, OnAccepted, OnPollDone, OnProcessDied, OnClosed;
    match i
    case TurnComplete(_, _, _, _) => TurnNames(s, i);
    case Accepted(reply) => AcceptedNames(s, reply);
    case PollDone(reply) => PollDoneNames(s, reply);
    case ProcessDied(agentSession) => EndNames(s, agentSession);
    case Closed => EndNames(s, None);
    case _ =>
  }

  lemma TakeAckNames(s: State)
    ensures TakeAck(s).1.agentSession == s.agentSession
  {
  }

  /**
   * While a session runs, its silence timer is armed exactly when the last it heard
   * from the executor was a turn that did not settle, and it knows the agent by the
   * last session named.
   */
  lemma {:induction false} SilenceExact(initial: Token, asid: Option<string>, seq0: int, hasPid: bool,
      inputs: seq<Input>)
    ensures var s := Run(Start(initial, asid, seq0, hasPid), inputs);
            !s.done ==> s.silence == Unsettled(inputs) && s.agentSession == LastNamed(asid, inputs)
    decreases |inputs|
  {
    hide Step;
    var start := Start(initial, asid, seq0, hasPid);
    if inputs != [] {
      var init, last := inputs[..|inputs| - 1], inputs[|inputs| - 1];
      SilenceExact(initial, asid, seq0, hasPid, init);
      assert inputs == init + [last];
      RunConcat(start, init, [last]);
      assert [last][1..] == [];
      var s := Run(start, init);
      assert Run(start, inputs) == Step(s, last);
      if s.done {
        RunStops(s, [last]);
      } else {
        StepNames(s, last);
      }
    }
  }
}
