/**
 * The session loop as the worker runs it: local variables updated in place, event by
 * event, in the order of the source. Each method is tied to the step function that
 * the properties of whole runs are proved about.
 */
module WorkerSession {
  import opened Prelude
  import opened Worker
  import WorkerAcks
  import opened WorkerCommands
  import opened WorkerEscalation
  import opened WorkerMessages

  class Session {
    var agentSessionId: Option<string>
    var msgSeq: int
    var turnMessages: seq<TurnMessage>
    var lastAck: Option<Token>
    var executorRunning: bool
    var cancelAckPending: bool
    var pendingStopToken: Option<Token>
    var pendingFeedToken: Option<Token>
    var escalationArmed: bool
    var escalationStage: nat
    var silenceArmed: bool
    var polling: bool
    var exited: bool
    const childPid: bool
    /** Requests, signals and commands issued so far. */
    ghost var issued: seq<Entry>

    ghost function Tokens(): Held
      reads this
    {
      Held(lastAck, cancelAckPending, pendingStopToken, pendingFeedToken)
    }

    ghost function View(): State
      reads this
    {
      State(agentSessionId, msgSeq, turnMessages, Tokens(), executorRunning, escalationArmed, escalationStage,
        silenceArmed, polling, exited, childPid, issued)
    }

    constructor (initialToken: Token, initialAgentSession: Option<string>, nextMsgSeq: int, hasPid: bool)
      ensures View() == Start(initialToken, initialAgentSession, nextMsgSeq, hasPid)
    {
      agentSessionId, msgSeq, turnMessages := initialAgentSession, nextMsgSeq, [];
      lastAck, executorRunning, cancelAckPending := Some(initialToken), true, false;
      pendingStopToken, pendingFeedToken := None, None;
      escalationArmed, escalationStage, silenceArmed := false, 0, false;
      polling, exited, childPid, issued := false, false, hasPid, [];
    }

    method HandleCommand(token: Token, action: Action)
      modifies this
      ensures View() == Handle(old(View()), token, action)
    {
      issued := issued + [Delivered(token, action)];
      match action {
        case FeedTurn(extracted) =>
          if pendingFeedToken == Some(token) {
            return;
          }
          match extracted {
            case Some(parts) =>
              executorRunning := true;
              issued := issued + [Sent(Prompt(parts))];
              pendingFeedToken := Some(token);
            case None =>
          }
        case StopTurn =>
          pendingFeedToken := None;
          if executorRunning {
            issued := issued + [Sent(StopAgentTurn)];
            pendingStopToken := Some(token);
          } else {
            lastAck := Some(token);
          }
        case Cancel =>
          issued := issued + [Sent(CancelAgent)];
          pendingFeedToken := None;
          pendingStopToken := None;
          lastAck := Some(token);
          cancelAckPending := true;
        case Assign =>
      }
    }

    method ArmEscalation()
      modifies this
      ensures View() == Arm(old(View()))
    {
      if cancelAckPending || pendingStopToken.Some? {
        escalationArmed, escalationStage := true, 0;
        issued := issued + [Armed];
      }
    }

    method StartLongPoll(report: Option<ExecutorState>, ack: Option<Token>)
      modifies this
      ensures View() == Poll(old(View()), ack, report)
    {
      polling := true;
      issued := issued + [Polled(ack, report)];
    }

    /** A command, the timer it arms, and the poll that follows it outside a turn report. */
    method RunCommand(token: Token, action: Action)
      modifies this
      ensures View() == Arm(Handle(old(View()), token, action))
    {
      HandleCommand(token, action);
      ArmEscalation();
    }

    method PollAfterReply()
      modifies this
      ensures View() == Poll(old(View()), AckForPoll(old(View())), ReportOf(old(View())))
    {
      var report := if executorRunning then Running else Idle;
      var ack := if cancelAckPending || pendingStopToken.Some? || pendingFeedToken.Some? then None else lastAck;
      StartLongPoll(Some(report), ack);
    }

    method TakeCommandAck() returns (ack: Option<Token>)
      modifies this
      ensures (ack, View()) == TakeAck(old(View()))
    {
      if cancelAckPending {
        ack := lastAck;
        lastAck := None;
      } else if pendingStopToken.Some? {
        ack := pendingStopToken;
        pendingStopToken := None;
      } else {
        ack := lastAck;
        lastAck := None;
      }
    }

    /** Take the messages a completed turn reports, and leave the turn behind. */
    method BookTurn(output: Option<Payload>, agentSession: Option<string>, settled: bool)
      returns (messages: seq<TurnMessage>)
      modifies this
      ensures View() == TurnBooked(old(View()), output, agentSession, settled)
      ensures messages == TurnMessages(old(View()), output)
    {
      silenceArmed := false;
      agentSessionId := if agentSession.Some? then agentSession else agentSessionId;
      messages := turnMessages;
      turnMessages := [];
      if messages == [] && output.Some? {
        msgSeq := msgSeq + 1;
        messages := [TurnMessage(msgSeq, output.value)];
      }
      polling := false;
      if settled {
        executorRunning := false;
      }
    }

    method SendTurnReport(output: Option<Payload>, agentSession: Option<string>, settled: bool)
      modifies this
      ensures View() == ReportTurn(old(View()), output, agentSession, settled)
    {
      hide TakeAck, TurnBooked, TurnMessages;
      var messages := BookTurn(output, agentSession, settled);
      var state := if settled then Idle else Running;
      var ack := TakeCommandAck();
      issued := issued + [Synced(ack, Some(state), Some(messages))];
    }

    method ReceiveTurnReply(reply: Reply)
      modifies this
      ensures View() == ResumeTurn(old(View()), reply)
    {
      hide Handle, Arm;
      if reply.Failed? {
        issued := issued + [Sent(StopAgent)];
        exited := true;
        return;
      }
      var wasCancelAck := cancelAckPending;
      cancelAckPending := false;
      escalationArmed, escalationStage := false, 0;
      assert View() == Answered(old(View()));
      if wasCancelAck {
        exited := true;
        return;
      }
      match reply {
        case Command(token, action) =>
          RunCommand(token, action);
          var ack := if pendingStopToken.Some? || pendingFeedToken.Some? then None else lastAck;
          StartLongPoll(None, ack);
        case NoAction =>
          StartLongPoll(None, lastAck);
      }
    }

    method OnTurnCompleteEvent(output: Option<Payload>, agentSession: Option<string>, settled: bool, reply: Reply)
      modifies this
      ensures View() == OnTurnComplete(old(View()), output, agentSession, settled, reply)
    {
      hide ReportTurn, ResumeTurn;
      SendTurnReport(output, agentSession, settled);
      ReceiveTurnReply(reply);
      if !exited && !settled {
        silenceArmed := true;
      }
    }

    method OnInitEvent(sessionId: string)
      modifies this
      ensures View() == OnInit(old(View()), sessionId)
    {
      silenceArmed := false;
      agentSessionId := Some(sessionId);
      executorRunning := true;
      issued := issued + [Started];
      if !polling {
        StartLongPoll(Some(Running), lastAck);
      }
    }

    /** Acknowledge the pending feed, which the executor has accepted. */
    method AckFeed(feedToken: Token)
      modifies this
      ensures View() == FeedAcked(old(View()), feedToken)
    {
      silenceArmed := false;
      pendingFeedToken := None;
      polling := false;
      issued := issued + [FeedAccepted(feedToken)];
      issued := issued + [Synced(Some(feedToken), Some(Running), None)];
    }

    method OnAcceptedEvent(reply: Reply)
      modifies this
      ensures View() == OnAccepted(old(View()), reply)
    {
      hide Handle, Arm, FeedAcked;
      if pendingFeedToken.Some? {
        var feedToken := pendingFeedToken.value;
        AckFeed(feedToken);
        match reply {
          case Command(token, action) => RunCommand(token, action);
          case NoAction =>
          case Failed => lastAck := Some(feedToken);
        }
        PollAfterReply();
      } else {
        silenceArmed := false;
      }
    }

    method OnMessageEvent(payload: Payload, ephemeral: bool)
      modifies this
      ensures View() == OnMessage(old(View()), payload, ephemeral)
    {
      silenceArmed := false;
      msgSeq := msgSeq + 1;
      if !ephemeral {
        turnMessages := turnMessages + [TurnMessage(msgSeq, payload)];
      }
      issued := issued + [Forwarded(TurnMessage(msgSeq, payload), ephemeral)];
    }

    method OnProcessDiedEvent(agentSession: Option<string>)
      modifies this
      ensures View() == OnProcessDied(old(View()), agentSession)
    {
      hide TakeAck;
      silenceArmed := false;
      if agentSession.Some? {
        agentSessionId := agentSession;
      }
      pendingFeedToken := None;
      var messages := turnMessages;
      turnMessages := [];
      assert View() == Abandoned(old(View()), agentSession);
      var ack := TakeCommandAck();
      issued := issued + [Synced(ack, Some(Crashed), Some(messages))];
      exited := true;
    }

    method OnChannelClosed()
      modifies this
      ensures View() == OnClosed(old(View()))
    {
      var ack := TakeCommandAck();
      if ack.Some? {
        issued := issued + [Synced(ack, None, None)];
      }
      exited := true;
    }

    method OnPollReply(reply: Reply)
      modifies this
      ensures View() == OnPollDone(old(View()), reply)
    {
      hide Handle, Arm;
      polling := false;
      match reply {
        case Command(token, action) =>
          if !cancelAckPending {
            lastAck := None;
          }
          RunCommand(token, action);
        case NoAction =>
          if !cancelAckPending {
            lastAck := None;
          }
        case Failed =>
      }
      PollAfterReply();
    }

    method OnEscalationDeadline()
      modifies this
      ensures View() == OnEscalationTimer(old(View()))
    {
      escalationStage := escalationStage + 1;
      if escalationStage == 1 {
        if childPid {
          issued := issued + [Escalated(SigInt)];
        }
      } else {
        if childPid {
          issued := issued + [Escalated(SigKill)];
        }
        escalationArmed := false;
      }
    }

    method OnSilenceDeadline()
      modifies this
      ensures View() == OnSilenceTimer(old(View()))
    {
      silenceArmed := false;
      if childPid {
        issued := issued + [Silenced];
      }
    }

    /** One turn of the select loop; a branch whose source is not active is not taken. */
    method Select(input: Input)
      requires !exited
      modifies this
      ensures View() == Step(old(View()), input)
    {
      hide OnTurnComplete, OnInit, OnAccepted, OnMessage, OnProcessDied, OnClosed, OnPollDone, OnEscalationTimer,
          OnSilenceTimer;
      match input {
        case TurnComplete(output, agentSession, settled, reply) =>
          OnTurnCompleteEvent(output, agentSession, settled, reply);
        case Init(sessionId) => OnInitEvent(sessionId);
        case Accepted(reply) => OnAcceptedEvent(reply);
        case MessageEvent(payload, ephemeral) => OnMessageEvent(payload, ephemeral);
        case ProcessDied(agentSession) => OnProcessDiedEvent(agentSession);
        case Closed => OnChannelClosed();
        case PollDone(reply) =>
          if polling {
            OnPollReply(reply);
          }
        case EscalationTimer =>
          if escalationArmed {
            OnEscalationDeadline();
          }
        case SilenceTimer =>
          if silenceArmed {
            OnSilenceDeadline();
          }
      }
    }

    /** The loop over whatever arrives, until the session ends. */
    method Loop(inputs: seq<Input>)
      requires !exited
      modifies this
      ensures View() == Run(old(View()), inputs)
    {
      hide Step;
      var i := 0;
      while i < |inputs| && !exited
        invariant i <= |inputs|
        invariant View() == Run(old(View()), inputs[..i])
      {
        Select(inputs[i]);
        RunOneMore(old(View()), inputs, i);
        i := i + 1;
      }
      assert inputs == inputs[..i] + inputs[i..];
      RunConcat(old(View()), inputs[..i], inputs[i..]);
      if exited {
        RunStops(View(), inputs[i..]);
      } else {
        assert inputs[i..] == [];
      }
    }

    /**
     * A session from its start, over whatever arrives. What it has issued keeps to the
     * protocol: acknowledgements are earned before they are sent, commands reach the
     * executor exactly where a delivery calls for them, escalation climbs the ladder and
     * runs while a stop or cancel is outstanding, and every message received is reported
     * or still buffered, under its own number.
     */
    method RunSession(inputs: seq<Input>)
      requires lastAck.Some? && View() == Start(lastAck.value, agentSessionId, msgSeq, childPid)
      modifies this
      ensures View() == Run(old(View()), inputs)
      ensures WorkerAcks.AcksEarned(issued, old(lastAck).value)
      ensures Commanded(issued) && PollsTruthful(issued)
      ensures executorRunning == Runs(issued) && pendingFeedToken == Feed(issued)
      ensures LadderClimbed(issued) && escalationStage <= 2
      ensures !exited && escalationArmed ==> Outstanding(Tokens()) && escalationStage <= 1
      ensures !exited && Outstanding(Tokens()) ==>
                escalationArmed || (escalationStage == 2 && (childPid ==> SinceArming(issued) == [SigInt, SigKill]))
      ensures var ledger := Ledger(Taken(old(View()), inputs), old(msgSeq), true);
              && Reported(issued) + turnMessages == Kept(ledger)
              && Copies(issued) == ForwardedOf(ledger)
              && msgSeq == old(msgSeq) + |ledger|
    {
      hide Run, Step, LadderClimbed, SinceArming, Ledger, Taken, Reported, Copies, Kept, ForwardedOf,
          WorkerAcks.AcksEarned, Commanded, PollsTruthful, Runs, Feed;
      WorkerAcks.AcksEarnedInRun(lastAck.value, agentSessionId, msgSeq, childPid, inputs);
      CommandsForwarded(lastAck.value, agentSessionId, msgSeq, childPid, inputs);
      EscalationSafety(lastAck.value, agentSessionId, msgSeq, childPid, inputs);
      MessagesConserved(lastAck.value, agentSessionId, msgSeq, childPid, inputs);
      Loop(inputs);
    }
  }

  lemma RunOneMore(s: State, inputs: seq<Input>, i: nat)
    requires i < |inputs|
    ensures Run(s, inputs[..i + 1]) == Step(Run(s, inputs[..i]), inputs[i])
  {
    hide Step;
    assert inputs[..i + 1] == inputs[..i] + [inputs[i]];
    RunConcat(s, inputs[..i], [inputs[i]]);
    assert [inputs[i]][1..] == [];
  }
}
