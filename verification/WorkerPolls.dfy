/** Acknowledgements that are sent when they are due, and the one that is lost. */
module WorkerPolls {
  import opened Prelude
  import opened Worker
  import opened WorkerEscalation

  /** Nothing is waiting on the executor: no stop, cancel or feed. */
  predicate Clear(h: Held) {
    !Outstanding(h) && h.pendingFeed.None?
  }

  /** The last entry is a poll; what it acknowledges. */
  predicate EndsPolling(log: seq<Entry>, ack: Option<Token>) {
    log != [] && log[|log| - 1].Polled? && log[|log| - 1].ack == ack
  }

  /** The first poll, made when the agent announces its session, acknowledges the assignment. */
  lemma FirstPollAcks(initial: Token, asid: Option<string>, seq0: int, hasPid: bool, sessionId: string)
    ensures Run(Start(initial, asid, seq0, hasPid), [Init(sessionId)]).log
            == [Started, Polled(Some(initial), Some(Running))]
  {
    assert [Init(sessionId)][1..] == [];
  }

  /** A poll that failed is repeated with its acknowledgement, and nothing waiting is dropped. */
  lemma FailedPollRepeats(s: State)
    requires Enabled(s, PollDone(Failed))
    ensures var r := Step(s, PollDone(Failed));
            r.held == s.held && EndsPolling(r.log, if Clear(s.held) then s.held.lastAck else None)
  {
    hide Handle, Arm;
  }

  /** An acknowledgement whose poll was answered is not sent again. */
  lemma AnsweredPollForgets(s: State)
    requires Enabled(s, PollDone(NoAction)) && !s.held.cancelPending
    ensures var r := Step(s, PollDone(NoAction));
            r.held == s.held.(lastAck := None) && EndsPolling(r.log, None)
  {
    hide Handle, Arm;
  }

  /** The poll after a turn report that brought nothing carries what the report left to acknowledge. */
  lemma ReportedThenPolls(s: State, i: Input)
    requires Enabled(s, i) && i.TurnComplete? && i.reply.NoAction? && !s.held.cancelPending
    ensures EndsPolling(Step(s, i).log, if s.held.pendingStop.Some? then s.held.lastAck else None)
  {
    hide Handle, Arm;
  }

  /** A stop that finds the executor idle is acknowledged by the poll issued at once. */
  lemma IdleStopAcked(s: State, t: Token)
    requires Enabled(s, PollDone(Command(t, StopTurn))) && !s.running && !Outstanding(s.held)
    ensures var r := Step(s, PollDone(Command(t, StopTurn)));
            r.log == s.log + [Delivered(t, StopTurn), Polled(Some(t), Some(Idle))]
  {
  }

  /**
   * A feed whose acknowledgement failed to arrive is acknowledged by the poll issued at
   * once exactly when no stop and no cancel is outstanding.
   */
  lemma FeedAckRetriedIff(s: State, t: Token)
    requires Enabled(s, Accepted(Failed)) && s.held.pendingFeed == Some(t)
    ensures EndsPolling(Step(s, Accepted(Failed)).log, Some(t)) <==> !Outstanding(s.held)
  {
    hide Handle, Arm;
  }

  /** With a stop outstanding, the answer to that poll drops the token for good: no slot holds it any more. */
  lemma FeedAckDropped(s: State, t: Token)
    requires Enabled(s, Accepted(Failed)) && s.held.pendingFeed == Some(t)
    requires !s.held.cancelPending && s.held.pendingStop.Some? && s.held.pendingStop != Some(t)
    ensures var r := Run(s, [Accepted(Failed), PollDone(NoAction)]);
            && Some(t) !in {r.held.lastAck, r.held.pendingStop, r.held.pendingFeed}
            && EndsPolling(Step(s, Accepted(Failed)).log, None) && EndsPolling(r.log, None)
  {
    var s1 := Step(s, Accepted(Failed));
    FeedAckHeld(s, t);
    AnsweredPollForgets(s1);
    hide Step;
    var s2 := Step(s1, PollDone(NoAction));
    var inputs := [Accepted(Failed), PollDone(NoAction)];
    assert inputs[1..] == [PollDone(NoAction)] && [PollDone(NoAction)][1..] == [];
    assert Run(s1, inputs[1..]) == Run(s2, []) == s2;
  }

  lemma FeedAckHeld(s: State, t: Token)
    requires Enabled(s, Accepted(Failed)) && s.held.pendingFeed == Some(t)
    requires !s.held.cancelPending && s.held.pendingStop.Some?
    ensures var r := Step(s, Accepted(Failed));
            && r.held == Held(Some(t), false, s.held.pendingStop, None) && EndsPolling(r.log, None)
            && Enabled(r, PollDone(NoAction))
  {
    hide Handle, Arm;
  }

  /** A feed delivered after a stop that is still outstanding reaches that case. */
  lemma FeedAckDroppedReached(initial: Token, asid: Option<string>, hasPid: bool)
    ensures var s := Run(Start(initial, asid, 0, hasPid),
                         [Init("agent"), PollDone(Command("stop", StopTurn)),
                           PollDone(Command("feed", FeedTurn(Some("parts"))))]);
            && Enabled(s, Accepted(Failed)) && s.held.pendingFeed == Some("feed")
            && !s.held.cancelPending && s.held.pendingStop == Some("stop")
  {
    var stop, feed := PollDone(Command("stop", StopTurn)), PollDone(Command("feed", FeedTurn(Some("parts"))));
    var s0 := Start(initial, asid, 0, hasPid);
    assert [Init("agent"), stop, feed][1..] == [stop, feed];
    assert [stop, feed][1..] == [feed];
    assert [feed][1..] == [];
    var s1 := Step(s0, Init("agent"));
    var s2 := Step(s1, stop);
    assert s2.held == Held(None, false, Some("stop"), None) && s2.polling && !s2.done;
    var s3 := Step(s2, feed);
    assert s3.held == Held(None, false, Some("stop"), Some("feed")) && !s3.done;
    hide Step;
    assert Run(s2, [feed]) == Run(s3, []) == s3;
    assert Run(s1, [stop, feed]) == Run(s2, [feed]);
    assert Run(s0, [Init("agent"), stop, feed]) == Run(s1, [stop, feed]);
  }
}
