/** The producer side of a clock over runs: query reply, sync coalescing, report spacing. */
module ClockProducer {
  import opened Words
  import opened Calendar
  import opened NodeTable
  import opened FastClock
  import opened ClockTable
  import opened ClockRuns

  // ---- The six-message query reply ----

  /** Position of a message in the reply of section 6.3 of the Broadcast Time Standard. */
  function Position(o: Output): int {
    if !o.Reply? then -1
    else match o.msg
      case StartOrStop(_) => 0
      case Rate(_) => 1
      case Year(_) => 2
      case Date(_, _) => 3
      case CurrentTime(_, _) => 4
      case NextMinute(_, _) => 5
  }

  /** The last n of the accepted messages are the first n of the reply, in order. */
  ghost predicate EndsInOrder(accepted: seq<Output>, n: nat) {
    && n <= |accepted|
    && forall j :: |accepted| - n <= j < |accepted| ==> Position(accepted[j]) == j - (|accepted| - n)
  }

  lemma OrderExtends(accepted: seq<Output>, n: nat, o: Output)
    requires EndsInOrder(accepted, n) && Position(o) == n
    ensures EndsInOrder(accepted + [o], n + 1)
  {
  }

  /** Advancing the time replies nothing. */
  lemma {:induction false} DrainRepliesNothing(kind: Kind, c: Clock)
    requires kind == ReplyAttempts || kind == AcceptedReplies
    ensures Select(kind, DrainOutputs(c)) == []
    decreases c.accumulator
  {
    hide Select, MinuteOutputs, Stepped;
    if c.accumulator < MINUTE_THRESHOLD {
      SelectNone(kind, []);
    } else {
      DrainRepliesNothing(kind, MinuteStep(c));
      MinuteSelects(kind, c);
      SelectConcat(kind, MinuteOutputs(c), DrainOutputs(MinuteStep(c)));
    }
  }

  lemma PollReplies(kind: Kind, c: Clock, elapsed: nat, runState: nat, accept: bool)
    requires c.isAllocated && 0 < elapsed
    requires kind == ReplyAttempts || kind == AcceptedReplies
    ensures var r := ReplyOutputs(BeforeReply(c, elapsed, runState), accept);
            Select(kind, PolledOutputs(c, elapsed, runState, accept)) ==
            if kind == ReplyAttempts || accept then r else []
  {
    hide BeforeReply, Select, DrainOutputs, ReplyMessageFor;
    var r := ReplyOutputs(BeforeReply(c, elapsed, runState), accept);
    SelectConcat(kind, AdvanceOutputs(c, elapsed), r);
    SelectNone(kind, []);
    if c.Advances() { DrainRepliesNothing(kind, Filled(c, elapsed)); }
    if r != [] { SelectOne(kind, r[0]); }
  }

  lemma AdvanceRepliesNothing(c: Clock, elapsed: nat)
    ensures Select(ReplyAttempts, AdvanceOutputs(c, elapsed)) == []
  {
    hide Select, DrainOutputs;
    SelectNone(ReplyAttempts, []);
    if c.Advances() { DrainRepliesNothing(ReplyAttempts, Filled(c, elapsed)); }
  }

  lemma {:induction false} NoneSelected(kind: Kind, s: seq<Output>)
    requires Select(kind, s) == []
    ensures forall o :: o in s ==> !Is(kind, o)
  {
    if s != [] {
      NoneSelected(kind, s[..|s| - 1]);
      assert s == s[..|s| - 1] + [s[|s| - 1]];
    }
  }

  /** What a poll of a slot attempts: at most one message, exactly when a reply is pending. */
  lemma PollAttempts(c: Clock, elapsed: nat, runState: nat, accept: bool)
    requires c.isAllocated && 0 < elapsed
    ensures var b := BeforeReply(c, elapsed, runState);
            var out := PolledOutputs(c, elapsed, runState, accept);
            && Select(ReplyAttempts, out) == ReplyOutputs(b, accept)
            && Select(AcceptedReplies, out) == (if accept then ReplyOutputs(b, accept) else [])
            && Polled(c, elapsed, runState, accept) == ReplyStep(b, accept)
  {
    hide BeforeReply, Select, ReplyStep, ReplyOutputs, AdvanceOutputs;
    PollReplies(ReplyAttempts, c, elapsed, runState, accept);
    PollReplies(AcceptedReplies, c, elapsed, runState, accept);
  }

  /** The reply's message comes after everything the minutes of a poll tell and send. */
  lemma ReplyComesLast(c: Clock, elapsed: nat, runState: nat, accept: bool)
    ensures var out := PolledOutputs(c, elapsed, runState, accept);
            forall i :: 0 <= i < |out| - 1 ==> !out[i].Reply?
  {
    hide BeforeReply, Select, AdvanceOutputs;
    AdvanceRepliesNothing(c, elapsed);
    NoneSelected(ReplyAttempts, AdvanceOutputs(c, elapsed));
    var told := AdvanceOutputs(c, elapsed);
    forall i | 0 <= i < |told| ensures !told[i].Reply? { assert told[i] in told; }
  }

  /** d is c with the reply where it was, or restarted. */
  ghost predicate KeepsOrRestarts(c: Clock, d: Clock) {
    && SameSetup(c, d)
    && ((d.replyState == c.replyState && d.replyPending == c.replyPending) || (d.replyState == 0 && d.replyPending))
  }

  lemma BeforeReplyPosition(c: Clock, elapsed: nat, runState: nat)
    ensures KeepsOrRestarts(c, BeforeReply(c, elapsed, runState))
  {
    hide Advance, Cool, Sync, Startup;
    AdvanceKeepsFlags(c, elapsed);
    var a := Advance(c, elapsed);
    SyncRestarts(a, elapsed);
    StartupRestarts(Sync(Cool(a, elapsed), elapsed), runState);
  }

  lemma SyncRestarts(c: Clock, elapsed: nat)
    ensures KeepsOrRestarts(c, Sync(Cool(c, elapsed), elapsed))
  {
    assert KeepsOrRestarts(c, Cool(c, elapsed));
  }

  lemma StartupRestarts(c: Clock, runState: nat)
    ensures KeepsOrRestarts(c, Startup(c, runState))
  {
  }

  /** The message is that of the position the slot is in, and carries the clock's own data; the sixth, the following minute. */
  lemma ReplyContent(c: Clock)
    requires Replies(c)
    ensures Position(Reply(ReplyMessageFor(c), true)) == c.replyState
    ensures match ReplyMessageFor(c)
            case StartOrStop(running) => running == c.running
            case Rate(rate) => rate == c.rate
            case Year(year) => year == c.now.year
            case Date(month, day) => month == c.now.month && day == c.now.day
            case CurrentTime(hour, minute) => hour == c.now.hour && minute == c.now.minute
            case NextMinute(hour, minute) =>
              c.now.OnDial() ==> hour == Forward(c.now).hour && minute == Forward(c.now).minute
  {
    hide Calendar.DaysInMonth;
    if c.replyState == 5 && c.now.OnDial() {
      assert c.now.hour < 24 && c.now.minute < 60;
    }
  }

  datatype Op = Poll(poll: Poll) | QueryTrigger | SyncTrigger

  function OpAfter(c: Clock, last: nat, op: Op): Clock {
    match op
    case Poll(p) => Polled(c, U8(p.tick - last), p.runState, p.accept)
    case QueryTrigger => if c.isProducer then QueryTriggered(c) else c
    case SyncTrigger => if c.isProducer then SyncTriggered(c) else c
  }

  function OpOutputs(c: Clock, last: nat, op: Op): seq<Output> {
    match op
    case Poll(p) => PolledOutputs(c, U8(p.tick - last), p.runState, p.accept)
    case _ => []
  }

  function LastTick(last: nat, ops: seq<Op>, k: nat): nat
    requires k <= |ops|
  {
    if k == 0 then last else if ops[k - 1].Poll? then ops[k - 1].poll.tick else LastTick(last, ops, k - 1)
  }

  /** A slot after polls and triggers in any order, and all it sent on the way. */
  function OpsAfter(c: Clock, last: nat, ops: seq<Op>, k: nat): Clock
    requires k <= |ops|
  {
    if k == 0 then c else OpAfter(OpsAfter(c, last, ops, k - 1), LastTick(last, ops, k - 1), ops[k - 1])
  }

  function OpsTrace(c: Clock, last: nat, ops: seq<Op>, k: nat): seq<Output>
    requires k <= |ops|
  {
    if k == 0 then []
    else OpsTrace(c, last, ops, k - 1)
         + OpOutputs(OpsAfter(c, last, ops, k - 1), LastTick(last, ops, k - 1), ops[k - 1])
  }

  /** One more operation: the accepted messages still end in the part of the reply already sent. */
  lemma OpKeepsOrder(c: Clock, last: nat, op: Op, history: seq<Output>)
    requires c.isAllocated && EndsInOrder(Select(AcceptedReplies, history), c.replyState) && c.replyState <= 5
    ensures var d := OpAfter(c, last, op);
            var accepted := Select(AcceptedReplies, history + OpOutputs(c, last, op));
            && d.isAllocated && d.replyState <= 5
            && EndsInOrder(accepted, d.replyState)
            && (op.Poll? && c.replyPending && !d.replyPending ==> EndsInOrder(accepted, 6))
  {
    hide Select, BeforeReply, Polled, PolledOutputs, ReplyMessageFor;
    SelectConcat(AcceptedReplies, history, OpOutputs(c, last, op));
    SelectNone(AcceptedReplies, []);
    if op.Poll? {
      var p, e := op.poll, U8(op.poll.tick - last);
      if e > 0 {
        PollAttempts(c, e, p.runState, p.accept);
        BeforeReplyPosition(c, e, p.runState);
        var b := BeforeReply(c, e, p.runState);
        if Replies(b) {
          ReplyContent(b);
          if p.accept {
            OrderExtends(Select(AcceptedReplies, history), b.replyState, Reply(ReplyMessageFor(b), true));
          }
        }
      } else {
        assert Polled(c, e, p.runState, p.accept) == c && PolledOutputs(c, e, p.runState, p.accept) == [] by {
          PollStill(c, p.runState, p.accept);
        }
      }
    }
  }

  lemma PollStill(c: Clock, runState: nat, accept: bool)
    ensures Polled(c, 0, runState, accept) == c && PolledOutputs(c, 0, runState, accept) == []
  {
  }

  /**
   However polls, refusals and triggers interleave: whenever a poll completes a reply, the last six
   messages the transport accepted are the whole reply in order.
   */
  lemma {:induction false} CompletedRepliesAreWhole(c: Clock, last: nat, ops: seq<Op>, k: nat)
    requires c.isAllocated && c.replyState == 0 && k <= |ops|
    ensures OpsAfter(c, last, ops, k).isAllocated && OpsAfter(c, last, ops, k).replyState <= 5
    ensures EndsInOrder(Select(AcceptedReplies, OpsTrace(c, last, ops, k)), OpsAfter(c, last, ops, k).replyState)
    ensures k > 0 && ops[k - 1].Poll?
            && OpsAfter(c, last, ops, k - 1).replyPending && !OpsAfter(c, last, ops, k).replyPending
            ==> EndsInOrder(Select(AcceptedReplies, OpsTrace(c, last, ops, k)), 6)
  {
    hide Select, OpAfter, OpOutputs, EndsInOrder;
    if k == 0 {
      assert EndsInOrder(Select(AcceptedReplies, []), 0) by { EmptyInOrder(); }
    } else {
      CompletedRepliesAreWhole(c, last, ops, k - 1);
      OpKeepsOrder(OpsAfter(c, last, ops, k - 1), LastTick(last, ops, k - 1), ops[k - 1],
                   OpsTrace(c, last, ops, k - 1));
    }
  }

  lemma EmptyInOrder()
    ensures EndsInOrder(Select(AcceptedReplies, []), 0)
  {
  }

  // ---- An undisturbed reply ----

  /** Nothing but the transport's answers can move the reply: no sync waits and the node stays logged in. */
  ghost predicate Undisturbed(c: Clock, polls: seq<Poll>) {
    && c.isAllocated && c.isProducer && c.node.Some? && c.replyState <= 5
    && !c.syncPending && c.previousRunState >= RUNSTATE_RUN
    && forall k :: 0 <= k < |polls| ==> polls[k].runState >= RUNSTATE_RUN
  }

  /** How many of the first k polls find that the tick has moved. */
  function Live(last: nat, polls: seq<Poll>, k: nat): nat
    requires k <= |polls|
  {
    if k == 0 then 0 else Live(last, polls, k - 1) + if Elapsed(last, polls, k - 1) > 0 then 1 else 0
  }

  /** How many of those the transport accepts a message in. */
  function Accepts(last: nat, polls: seq<Poll>, k: nat): nat
    requires k <= |polls|
  {
    if k == 0 then 0
    else Accepts(last, polls, k - 1) + if Elapsed(last, polls, k - 1) > 0 && polls[k - 1].accept then 1 else 0
  }

  lemma CalmBeforeReply(c: Clock, elapsed: nat, runState: nat)
    requires c.isAllocated && c.Sends() && !c.syncPending
    requires c.previousRunState >= RUNSTATE_RUN && runState >= RUNSTATE_RUN
    ensures var b := BeforeReply(c, elapsed, runState);
            && SameSetup(c, b) && b.replyState == c.replyState && b.replyPending == c.replyPending
            && !b.syncPending && b.previousRunState == runState
  {
    hide Advance;
    AdvanceKeepsFlags(c, elapsed);
    var a := Advance(c, elapsed);
    assert Sync(Cool(a, elapsed), elapsed).syncPending == false;
  }

  /**
   A reply pending from its start and left undisturbed: every poll whose tick has moved attempts one message
   until the sixth is accepted, the accepted ones are the reply in order, and the pending flag clears exactly
   with the sixth.
   */
  lemma {:induction false} ReplyOverRun(c: Clock, last: nat, polls: seq<Poll>, k: nat)
    requires Undisturbed(c, polls) && c.replyPending && c.replyState == 0 && k <= |polls|
    ensures var d, a := After(c, last, polls, k), Accepts(last, polls, k);
            var accepted := Select(AcceptedReplies, Trace(c, last, polls, k));
            && Undisturbed(d, []) && SameSetup(c, d)
            && (d.replyPending <==> a < 6)
            && (a < 6 ==> d.replyState == a && |Select(ReplyAttempts, Trace(c, last, polls, k))| == Live(last, polls, k))
            && |accepted| == Min(a, 6) && EndsInOrder(accepted, |accepted|)
  {
    hide Select, BeforeReply, Polled, PolledOutputs, ReplyMessageFor, Elapsed, EndsInOrder, Position;
    if k == 0 {
      SelectNone(AcceptedReplies, []);
      SelectNone(ReplyAttempts, []);
      EmptyInOrder();
    } else {
      ReplyOverRun(c, last, polls, k - 1);
      var b, p, e := After(c, last, polls, k - 1), polls[k - 1], Elapsed(last, polls, k - 1);
      if e == 0 {
        PollStill(b, p.runState, p.accept);
        assert Trace(c, last, polls, k) == Trace(c, last, polls, k - 1);
      } else {
        CalmBeforeReply(b, e, p.runState);
        PollAttempts(b, e, p.runState, p.accept);
        SelectConcat(AcceptedReplies, Trace(c, last, polls, k - 1), Produced(c, last, polls, k - 1));
        SelectConcat(ReplyAttempts, Trace(c, last, polls, k - 1), Produced(c, last, polls, k - 1));
        var r := BeforeReply(b, e, p.runState);
        var before := Select(AcceptedReplies, Trace(c, last, polls, k - 1));
        var now := Select(AcceptedReplies, Trace(c, last, polls, k));
        if Replies(r) && p.accept {
          ReplyContent(r);
          OrderExtends(before, r.replyState, Reply(ReplyMessageFor(r), true));
          assert now == before + [Reply(ReplyMessageFor(r), true)];
        } else {
          assert now == before;
        }
      }
    }
  }

  // ---- Periodic reports are rate-limited ----

  lemma {:induction false} DrainReports(c: Clock)
    ensures Select(Reports, DrainOutputs(c)) ==
            if c.Sends() && c.cooldown == 0 && c.accumulator >= MINUTE_THRESHOLD
            then [ReportTime(Stepped(c).hour, Stepped(c).minute)] else []
    decreases c.accumulator
  {
    hide Select, MinuteOutputs, Stepped;
    if c.accumulator < MINUTE_THRESHOLD {
      SelectNone(Reports, []);
    } else {
      DrainReports(MinuteStep(c));
      MinuteSelects(Reports, c);
      SelectConcat(Reports, MinuteOutputs(c), DrainOutputs(MinuteStep(c)));
    }
  }

  lemma BeforeReplyCooldown(a: Clock, elapsed: nat, runState: nat)
    ensures Startup(Sync(Cool(a, elapsed), elapsed), runState).cooldown == Cool(a, elapsed).cooldown
  {
    hide Cool;
    var b := Cool(a, elapsed);
    SyncCooldown(b, elapsed);
    StartupCooldown(Sync(b, elapsed), runState);
  }

  lemma SyncCooldown(c: Clock, elapsed: nat)
    ensures Sync(c, elapsed).cooldown == c.cooldown
  {
  }

  lemma StartupCooldown(c: Clock, runState: nat)
    ensures Startup(c, runState).cooldown == c.cooldown
  {
  }

  lemma FilledOnly(c: Clock, elapsed: nat)
    ensures Filled(c, elapsed) == c.(accumulator := Filled(c, elapsed).accumulator)
  {
  }

  /** The report of the minute that follows the one the clock shows. */
  function NextMinuteReport(c: Clock): Output {
    var t := Steps(c.rate > 0, 1, c.now);
    ReportTime(t.hour, t.minute)
  }

  /** Advancing reports once if the cooldown has run out and a whole minute is in, and restarts the cooldown. */
  lemma AdvanceReports(c: Clock, elapsed: nat)
    requires c.Valid() && elapsed < BYTE
    ensures var reports := c.Sends() && c.Advances() && c.cooldown == 0 && Fed(c, elapsed) >= MINUTE_THRESHOLD;
            && Select(Reports, AdvanceOutputs(c, elapsed)) == (if reports then [NextMinuteReport(c)] else [])
            && Advance(c, elapsed).cooldown == (if reports then REPORT_COOLDOWN_TICKS else c.cooldown)
            && Advance(c, elapsed).isProducer == c.isProducer
  {
    hide Select, DrainOutputs, Drain, DateTime.OnDial, Filled, Fed, Calendar.Forward, Calendar.Backward;
    StepsOne(c.rate > 0, c.now);
    var f := Filled(c, elapsed);
    NoOverflow(c, elapsed);
    FilledOnly(c, elapsed);
    if c.Advances() {
      DrainReports(f);
      DrainCooldown(f);
      DrainKeeps(f);
    } else {
      SelectNone(Reports, []);
    }
  }

  /**
   A poll reports at most once, however many minutes it holds, the first of them, and only with the cooldown run out;
   the cooldown it leaves behind has already lost the poll's own ticks.
   */
  lemma PollReports(c: Clock, elapsed: nat, runState: nat, accept: bool)
    requires c.Valid() && c.isAllocated && elapsed < BYTE
    ensures var d := Polled(c, elapsed, runState, accept);
            var reports := Select(Reports, PolledOutputs(c, elapsed, runState, accept));
            var n := |reports|;
            && n <= 1 && (n == 1 ==> elapsed > 0 && reports == [NextMinuteReport(c)])
            && (n == 1 <==> c.isProducer && c.node.Some? && c.running && c.rate != 0 && c.cooldown == 0
                            && Fed(c, elapsed) >= MINUTE_THRESHOLD)
            && (n == 1 ==> d.cooldown == REPORT_COOLDOWN_TICKS - elapsed)
            && (n == 0 && c.isProducer ==> d.cooldown == if elapsed >= c.cooldown then 0 else c.cooldown - elapsed)
  {
    hide Select, Advance, AdvanceOutputs, Startup, Sync, Clock.Valid, Fed, NextMinuteReport;
    if elapsed == 0 {
      PollStill(c, runState, accept);
      SelectNone(Reports, []);
      StillMinute(c);
      return;
    }
    var a := Advance(c, elapsed);
    var b := BeforeReply(c, elapsed, runState);
    AdvanceReports(c, elapsed);
    BeforeReplyCooldown(a, elapsed, runState);
    SelectConcat(Reports, AdvanceOutputs(c, elapsed), ReplyOutputs(b, accept));
    SelectNone(Reports, ReplyOutputs(b, accept));
  }

  /** Without a tick no minute is completed. */
  lemma StillMinute(c: Clock)
    requires c.Valid()
    ensures Fed(c, 0) < MINUTE_THRESHOLD && c.cooldown <= REPORT_COOLDOWN_TICKS
  {
    FedNothing(c);
  }

  predicate ReportsAt(c: Clock, last: nat, polls: seq<Poll>, k: nat)
    requires k < |polls|
  {
    |Select(Reports, Produced(c, last, polls, k))| > 0
  }

  /** The cooldown left k polls after a report. */
  lemma {:induction false} CooldownAfterReport(c: Clock, start: nat, last: nat, polls: seq<Poll>, times: seq<nat>,
                                               i: nat, k: nat)
    requires c.Valid() && c.isAllocated && Faithful(start, last, polls, times) && |polls| == |times|
    requires i < k <= |polls| && ReportsAt(c, last, polls, i)
    requires forall j :: i < j < k ==> !ReportsAt(c, last, polls, j)
    ensures After(c, last, polls, k).isProducer
    ensures After(c, last, polls, k).cooldown + TimeBefore(start, times, k) - times[i]
            >= REPORT_COOLDOWN_TICKS - Elapsed(last, polls, i)
  {
    hide Polled, PolledOutputs, Select, Elapsed, U8, Clock.Valid, Fed;
    RunKeeps(c, last, polls, k - 1);
    ElapsedIsTrue(start, last, polls, times, k - 1);
    PollReports(After(c, last, polls, k - 1), Elapsed(last, polls, k - 1), polls[k - 1].runState, polls[k - 1].accept);
    PollKeeps(After(c, last, polls, k - 1), Elapsed(last, polls, k - 1), polls[k - 1].runState, polls[k - 1].accept);
    if k > i + 1 {
      CooldownAfterReport(c, start, last, polls, times, i, k - 1);
    }
  }

  /**
   Two consecutive Report Time polls i and j are at least 600 ticks apart, less what poll i batched,
   plus what poll j batched; polls that find the tick unmoved may come between. Polled every tick that is 600
   ticks, the promised 60 seconds.
   */
  lemma ReportsApart(c: Clock, start: nat, last: nat, polls: seq<Poll>, times: seq<nat>, i: nat, j: nat)
    requires c.Valid() && c.isAllocated && Faithful(start, last, polls, times) && |polls| == |times|
    requires i < j < |polls| && ReportsAt(c, last, polls, i) && ReportsAt(c, last, polls, j)
    requires forall k :: i < k < j ==> !ReportsAt(c, last, polls, k)
    ensures Elapsed(last, polls, i) > 0 && Elapsed(last, polls, j) > 0
    ensures times[j] - times[i] >= 600 - Elapsed(last, polls, i) + Elapsed(last, polls, j)
  {
    hide Polled, PolledOutputs, Select, Elapsed, U8, Clock.Valid, Fed;
    RunKeeps(c, last, polls, i);
    ElapsedIsTrue(start, last, polls, times, i);
    PollReports(After(c, last, polls, i), Elapsed(last, polls, i), polls[i].runState, polls[i].accept);
    CooldownAfterReport(c, start, last, polls, times, i, j);
    RunKeeps(c, last, polls, j);
    ElapsedIsTrue(start, last, polls, times, j);
    PollReports(After(c, last, polls, j), Elapsed(last, polls, j), polls[j].runState, polls[j].accept);
  }
}
