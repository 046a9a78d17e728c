/** What a listener learns from a query reply, and the reply a producer gives when its node logs in. */
module ClockReply {
  import opened Words
  import opened Calendar
  import opened NodeTable
  import opened FastClock
  import opened ClockTable
  import opened ClockRuns
  import opened ClockProducer
  import ClockSync

  // ---- A listener ----

  /** What a node on the network holds of a clock, and of its next minute. */
  datatype Listener = Listener(running: bool, rate: int, year: nat, month: nat, day: nat, hour: nat, minute: nat,
                               nextHour: nat, nextMinute: nat)

  function Hear(l: Listener, m: ReplyMessage): Listener {
    match m
    case StartOrStop(running) => l.(running := running)
    case Rate(rate) => l.(rate := rate)
    case Year(year) => l.(year := year)
    case Date(month, day) => l.(month := month, day := day)
    case CurrentTime(hour, minute) => l.(hour := hour, minute := minute)
    case NextMinute(hour, minute) => l.(nextHour := hour, nextMinute := minute)
  }

  function Heard(l: Listener, replies: seq<Output>): Listener {
    if replies == [] then l
    else
      var o := replies[|replies| - 1];
      var before := Heard(l, replies[..|replies| - 1]);
      if o.Reply? then Hear(before, o.msg) else before
  }

  /** The poll that sends message j of the reply. */
  function SentAt(last: nat, polls: seq<Poll>, k: nat, j: nat): (i: nat)
    requires k <= |polls| && j < Accepts(last, polls, k)
    ensures i < k && Elapsed(last, polls, i) > 0 && polls[i].accept && Accepts(last, polls, i) <= j
  {
    if j < Accepts(last, polls, k - 1) then SentAt(last, polls, k - 1, j) else k - 1
  }

  /** The clock's time when message j is sent. */
  function NowAt(c: Clock, last: nat, polls: seq<Poll>, k: nat, j: nat): DateTime
    requires k <= |polls| && j < Accepts(last, polls, k)
  {
    After(c, last, polls, SentAt(last, polls, k, j) + 1).now
  }

  /** The listener holds what the messages sent so far should tell, each as of the poll that sent it. */
  ghost predicate Knows(c: Clock, last: nat, polls: seq<Poll>, k: nat, l: Listener)
    requires k <= |polls|
  {
    var a := Accepts(last, polls, k);
    && (a > 0 ==> l.running == c.running)
    && (a > 1 ==> l.rate == c.rate)
    && (a > 2 ==> l.year == NowAt(c, last, polls, k, 2).year)
    && (a > 3 ==> l.month == NowAt(c, last, polls, k, 3).month && l.day == NowAt(c, last, polls, k, 3).day)
    && (a > 4 ==> l.hour == NowAt(c, last, polls, k, 4).hour && l.minute == NowAt(c, last, polls, k, 4).minute)
    && (a > 5 ==> var next := Forward(NowAt(c, last, polls, k, 5)); l.nextHour == next.hour && l.nextMinute == next.minute)
  }

  /** One message tells the part of the clock its position stands for. */
  lemma MessageTells(c: Clock, l: Listener)
    requires c.replyState <= 5 && c.now.OnDial()
    ensures var h, t := Hear(l, ReplyMessageFor(c)), Forward(c.now);
            h == match c.replyState
                 case 0 => l.(running := c.running)
                 case 1 => l.(rate := c.rate)
                 case 2 => l.(year := c.now.year)
                 case 3 => l.(month := c.now.month, day := c.now.day)
                 case 4 => l.(hour := c.now.hour, minute := c.now.minute)
                 case _ => l.(nextHour := t.hour, nextMinute := t.minute)
  {
    hide Calendar.DaysInMonth;
    TimeFields(c.now);
  }

  lemma HeardMore(l: Listener, replies: seq<Output>, o: Output)
    requires o.Reply?
    ensures Heard(l, replies + [o]) == Hear(Heard(l, replies), o.msg)
  {
    assert (replies + [o])[..|replies|] == replies;
  }

  /** A poll that sends none of the six messages changes nothing of what is known. */
  lemma KnowsStill(c: Clock, last: nat, polls: seq<Poll>, k: nat, l: Listener)
    requires 0 < k <= |polls|
    requires Accepts(last, polls, k) == Accepts(last, polls, k - 1) || Accepts(last, polls, k - 1) >= 6
    requires Knows(c, last, polls, k - 1, l)
    ensures Knows(c, last, polls, k, l)
  {
  }

  /** The next message adds what it tells to what is known. */
  lemma KnowsMore(c: Clock, last: nat, polls: seq<Poll>, k: nat, l: Listener, r: Clock)
    requires 0 < k <= |polls| && Accepts(last, polls, k) == Accepts(last, polls, k - 1) + 1
    requires Knows(c, last, polls, k - 1, l)
    requires r.replyState == Accepts(last, polls, k - 1) <= 5 && r.now.OnDial()
    requires SameSetup(c, r) && r.now == After(c, last, polls, k).now
    ensures Knows(c, last, polls, k, Hear(l, ReplyMessageFor(r)))
  {
    hide After, Calendar.Forward, Calendar.Backward;
    MessageTells(r, l);
  }

  /** Poll k - 1 of an undisturbed reply: what it adds to the accepted messages. */
  lemma PollAdds(c: Clock, last: nat, polls: seq<Poll>, k: nat, r: Clock)
    requires Undisturbed(c, polls) && c.replyPending && c.replyState == 0 && 0 < k <= |polls|
    requires r == BeforeReply(After(c, last, polls, k - 1), Elapsed(last, polls, k - 1), polls[k - 1].runState)
    ensures var a := Accepts(last, polls, k - 1);
            var sent := Elapsed(last, polls, k - 1) > 0 && polls[k - 1].accept && a < 6;
            && Select(AcceptedReplies, Trace(c, last, polls, k))
               == Select(AcceptedReplies, Trace(c, last, polls, k - 1)) + (if sent then [Reply(ReplyMessageFor(r), true)] else [])
            && (sent ==> SameSetup(c, r) && r.replyState == a && r.now == After(c, last, polls, k).now)
  {
    hide Select, BeforeReply, Polled, PolledOutputs, ReplyMessageFor, Elapsed, EndsInOrder, Position;
    ReplyOverRun(c, last, polls, k - 1);
    var b, p, e := After(c, last, polls, k - 1), polls[k - 1], Elapsed(last, polls, k - 1);
    SelectConcat(AcceptedReplies, Trace(c, last, polls, k - 1), Produced(c, last, polls, k - 1));
    if e == 0 {
      PollStill(b, p.runState, p.accept);
      SelectNone(AcceptedReplies, []);
    } else {
      CalmBeforeReply(b, e, p.runState);
      PollAttempts(b, e, p.runState, p.accept);
    }
  }

  /** After any part of an undisturbed reply a listener knows what the messages sent so far tell. */
  lemma {:induction false} ListenerKnows(c: Clock, last: nat, polls: seq<Poll>, k: nat, l: Listener)
    requires c.Valid() && Undisturbed(c, polls) && c.replyPending && c.replyState == 0 && k <= |polls|
    ensures Knows(c, last, polls, k, Heard(l, Select(AcceptedReplies, Trace(c, last, polls, k))))
  {
    hide Select, BeforeReply, Polled, PolledOutputs, ReplyMessageFor, Elapsed, Knows, Heard, Undisturbed, DateTime.OnDial;
    if k == 0 {
      KnowsNothing(c, last, polls, Heard(l, Select(AcceptedReplies, Trace(c, last, polls, 0))));
    } else {
      ListenerKnows(c, last, polls, k - 1, l);
      var r := BeforeReply(After(c, last, polls, k - 1), Elapsed(last, polls, k - 1), polls[k - 1].runState);
      PollAdds(c, last, polls, k, r);
      RunKeeps(c, last, polls, k);
      var before := Select(AcceptedReplies, Trace(c, last, polls, k - 1));
      if Elapsed(last, polls, k - 1) > 0 && polls[k - 1].accept && Accepts(last, polls, k - 1) < 6 {
        HeardMore(l, before, Reply(ReplyMessageFor(r), true));
        KnowsMore(c, last, polls, k, Heard(l, before), r);
      } else {
        assert Select(AcceptedReplies, Trace(c, last, polls, k)) == before;
        KnowsStill(c, last, polls, k, Heard(l, before));
      }
    }
  }

  lemma KnowsNothing(c: Clock, last: nat, polls: seq<Poll>, l: Listener)
    ensures Knows(c, last, polls, 0, l)
  {
  }

  /**
   A listener that applies a whole reply, whatever it held before, holds the producer's running flag and rate, and its
   year, its date and its time as they were when each was sent, and of the next minute the calendar's next.
   */
  lemma ListenerLearns(c: Clock, last: nat, polls: seq<Poll>, k: nat, l: Listener)
    requires c.Valid() && Undisturbed(c, polls) && c.replyPending && c.replyState == 0 && k <= |polls|
    requires Accepts(last, polls, k) >= 6
    ensures var date, time, next := NowAt(c, last, polls, k, 3), NowAt(c, last, polls, k, 4), Forward(NowAt(c, last, polls, k, 5));
            Heard(l, Select(AcceptedReplies, Trace(c, last, polls, k)))
            == Listener(c.running, c.rate, NowAt(c, last, polls, k, 2).year, date.month, date.day, time.hour, time.minute,
                        next.hour, next.minute)
  {
    hide Select, Trace, Heard, NowAt, Undisturbed, Calendar.Forward;
    ListenerKnows(c, last, polls, k, l);
  }

  // ---- The reply at login ----

  /** The node of a producer reaches RUNSTATE_RUN in poll f, the tick having moved, and stays there. */
  ghost predicate LogsIn(c: Clock, last: nat, polls: seq<Poll>, f: nat) {
    && c.isAllocated && c.isProducer && c.node.Some? && !c.syncPending && c.previousRunState < RUNSTATE_RUN
    && f < |polls| && Elapsed(last, polls, f) > 0
    && (forall i :: 0 <= i < f ==> polls[i].runState < RUNSTATE_RUN)
    && forall i :: f <= i < |polls| ==> polls[i].runState >= RUNSTATE_RUN
  }

  /** The slot as though its reply had been asked for and its node had long been running. */
  function Restarted(c: Clock): Clock {
    c.(replyPending := true, replyState := 0, previousRunState := RUNSTATE_RUN)
  }

  lemma RestartedPoll(c: Clock, elapsed: nat, runState: nat, accept: bool)
    requires c.isAllocated && c.isProducer && c.node.Some? && !c.syncPending && elapsed > 0
    requires c.previousRunState < RUNSTATE_RUN <= runState
    ensures Polled(c, elapsed, runState, accept) == Polled(Restarted(c), elapsed, runState, accept)
    ensures PolledOutputs(c, elapsed, runState, accept) == PolledOutputs(Restarted(c), elapsed, runState, accept)
  {
    hide Advance, AdvanceOutputs, Cool, ReplyStep, ReplyOutputs;
    var r := Restarted(c);
    assert r == ClockSync.Timers(c, r);
    ClockSync.AdvanceIgnoresTimers(c, r, elapsed);
    AdvanceKeepsFlags(c, elapsed);
    var a := Advance(c, elapsed);
    ClockSync.CoolIgnoresTimers(a, r, elapsed);
    ClockSync.CoolOnly(a, elapsed);
    assert Restarted(Cool(a, elapsed)) == ClockSync.Timers(Cool(a, elapsed), r);
    RestartedTimers(Cool(a, elapsed), elapsed, runState);
  }

  lemma RestartedTimers(c: Clock, elapsed: nat, runState: nat)
    requires c.isProducer && c.node.Some? && !c.syncPending && c.previousRunState < RUNSTATE_RUN <= runState
    ensures Startup(Sync(c, elapsed), runState) == Startup(Sync(Restarted(c), elapsed), runState)
  {
    hide Startup;
    RestartedSync(c, elapsed);
    RestartedStartup(Sync(c, elapsed), runState);
  }

  lemma RestartedSync(c: Clock, elapsed: nat)
    requires c.isProducer && !c.syncPending
    ensures var s := Sync(c, elapsed);
            Sync(Restarted(c), elapsed) == Restarted(s) && s == c.(syncDelay := s.syncDelay)
  {
  }

  lemma RestartedStartup(c: Clock, runState: nat)
    requires c.isProducer && c.node.Some? && c.previousRunState < RUNSTATE_RUN <= runState
    ensures Startup(c, runState) == Startup(Restarted(c), runState)
  {
  }

  /** While its node has not logged in a producer's reply, if none is asked for, does not start. */
  lemma {:induction false} BeforeLogin(c: Clock, last: nat, polls: seq<Poll>, f: nat, k: nat)
    requires LogsIn(c, last, polls, f) && k <= f
    ensures var b := After(c, last, polls, k);
            && SameSetup(c, b) && !b.syncPending && b.previousRunState < RUNSTATE_RUN
            && (!c.replyPending ==> !b.replyPending && Select(ReplyAttempts, Trace(c, last, polls, k)) == [])
  {
    hide Select, Elapsed, Polled, PolledOutputs;
    if k == 0 {
      SelectNone(ReplyAttempts, []);
    } else {
      BeforeLogin(c, last, polls, f, k - 1);
      var b, e, p := After(c, last, polls, k - 1), Elapsed(last, polls, k - 1), polls[k - 1];
      WaitingPoll(b, e, p.runState, p.accept);
      SelectConcat(ReplyAttempts, Trace(c, last, polls, k - 1), Produced(c, last, polls, k - 1));
    }
  }

  lemma WaitingPoll(c: Clock, elapsed: nat, runState: nat, accept: bool)
    requires c.isAllocated && c.isProducer && c.node.Some? && !c.syncPending
    requires c.previousRunState < RUNSTATE_RUN && runState < RUNSTATE_RUN
    ensures var d := Polled(c, elapsed, runState, accept);
            && SameSetup(c, d) && !d.syncPending && d.previousRunState < RUNSTATE_RUN
            && (!c.replyPending ==>
                  !d.replyPending && Select(ReplyAttempts, PolledOutputs(c, elapsed, runState, accept)) == [])
  {
    hide Select, BeforeReply, PolledOutputs, Polled;
    if elapsed == 0 {
      PollStill(c, runState, accept);
      SelectNone(ReplyAttempts, []);
    } else {
      PollAttempts(c, elapsed, runState, accept);
      WaitingBefore(c, elapsed, runState);
    }
  }

  lemma WaitingBefore(c: Clock, elapsed: nat, runState: nat)
    requires c.isProducer && c.node.Some? && !c.syncPending
    requires c.previousRunState < RUNSTATE_RUN && runState < RUNSTATE_RUN
    ensures var b := BeforeReply(c, elapsed, runState);
            && SameSetup(c, b) && !b.syncPending && b.previousRunState < RUNSTATE_RUN && b.replyPending == c.replyPending
  {
    hide Advance, Cool;
    AdvanceKeepsFlags(c, elapsed);
    ClockSync.CoolOnly(Advance(c, elapsed), elapsed);
  }

  /** From the login on the run is that of a reply just restarted. */
  lemma {:induction false} LoginRun(c: Clock, last: nat, polls: seq<Poll>, f: nat, m: nat)
    requires LogsIn(c, last, polls, f) && 1 <= m <= |polls| - f
    ensures var b, from, rest := After(c, last, polls, f), TickBefore(last, polls, f), polls[f..];
            && TickBefore(from, rest, m) == TickBefore(last, polls, f + m)
            && After(c, last, polls, f + m) == After(Restarted(b), from, rest, m)
            && Trace(c, last, polls, f + m) == Trace(c, last, polls, f) + Trace(Restarted(b), from, rest, m)
  {
    hide Polled, PolledOutputs, U8;
    var b, from, rest := After(c, last, polls, f), TickBefore(last, polls, f), polls[f..];
    if m == 1 {
      BeforeLogin(c, last, polls, f, f);
      assert Elapsed(from, rest, 0) == Elapsed(last, polls, f);
      RestartedPoll(b, Elapsed(last, polls, f), polls[f].runState, polls[f].accept);
      ClockSync.FirstPoll(Restarted(b), from, rest);
    } else {
      LoginRun(c, last, polls, f, m - 1);
      assert Elapsed(from, rest, m - 1) == Elapsed(last, polls, f + m - 1);
    }
  }

  /**
   When its node logs in a producer gives one reply: none before if none was asked for, the first message attempted in
   the poll that sees the login, and the six accepted in order, once; a reply in progress is restarted.
   */
  lemma LoginGivesOneReply(c: Clock, last: nat, polls: seq<Poll>, f: nat, k: nat)
    requires LogsIn(c, last, polls, f) && f < k <= |polls|
    ensures !c.replyPending ==> Select(ReplyAttempts, Trace(c, last, polls, f)) == []
    ensures Select(ReplyAttempts, Produced(c, last, polls, f)) == [Reply(StartOrStop(c.running), polls[f].accept)]
    ensures var from, rest := TickBefore(last, polls, f), polls[f..];
            exists out :: Trace(c, last, polls, k) == Trace(c, last, polls, f) + out
                          && ClockSync.OneReply(out, After(c, last, polls, k), Accepts(from, rest, k - f))
  {
    hide Polled, PolledOutputs, Select, EndsInOrder, Elapsed, After, Trace, Position;
    var b, from, rest := After(c, last, polls, f), TickBefore(last, polls, f), polls[f..];
    BeforeLogin(c, last, polls, f, f);
    LoginRun(c, last, polls, f, k - f);
    ReplyOverRun(Restarted(b), from, rest, k - f);
    FirstMessage(b, Elapsed(last, polls, f), polls[f]);
    assert ClockSync.OneReply(Trace(Restarted(b), from, rest, k - f), After(c, last, polls, k), Accepts(from, rest, k - f));
  }

  lemma FirstMessage(c: Clock, elapsed: nat, p: Poll)
    requires c.isAllocated && c.isProducer && c.node.Some? && !c.syncPending && elapsed > 0
    requires c.previousRunState < RUNSTATE_RUN <= p.runState
    ensures Select(ReplyAttempts, PolledOutputs(c, elapsed, p.runState, p.accept))
            == [Reply(StartOrStop(c.running), p.accept)]
  {
    hide BeforeReply, Select, PolledOutputs, Polled;
    RestartedPoll(c, elapsed, p.runState, p.accept);
    CalmBeforeReply(Restarted(c), elapsed, p.runState);
    PollAttempts(Restarted(c), elapsed, p.runState, p.accept);
  }
}
