/** Bursts of Set commands: however many come and whatever goes on meanwhile, they are worth one reply, 30 ticks after the last. */
module ClockSync {
  import opened Words
  import opened Calendar
  import opened NodeTable
  import opened FastClock
  import opened ClockTable
  import opened ClockRuns
  import opened ClockProducer

  // ---- A waiting sync changes nothing ----

  /** The slot as though no Set command had come. */
  function Cleared(c: Clock): Clock {
    c.(syncPending := false, syncDelay := 0)
  }

  /** The slot with a sync that waits for the given number of ticks. */
  function Pending(c: Clock, delay: nat): Clock {
    c.(syncPending := true, syncDelay := delay)
  }

  /** The slot with its reply restarted and no sync waiting. */
  function Fired(c: Clock): Clock {
    c.(syncPending := false, syncDelay := 0, replyPending := true, replyState := 0)
  }

  /** c with the timers and the reply of d. */
  function Timers(c: Clock, d: Clock): Clock {
    c.(replyPending := d.replyPending, syncPending := d.syncPending, replyState := d.replyState, syncDelay := d.syncDelay,
       previousRunState := d.previousRunState)
  }

  lemma {:induction false} DrainIgnoresTimers(c: Clock, d: Clock)
    ensures Drain(Timers(c, d)) == Timers(Drain(c), d) && DrainOutputs(Timers(c, d)) == DrainOutputs(c)
    decreases c.accumulator
  {
    hide Stepped, ForwardCalls, BackwardCalls;
    if c.accumulator >= MINUTE_THRESHOLD {
      assert MinuteStep(Timers(c, d)) == Timers(MinuteStep(c), d) by { StepIgnores(c, d); }
      assert MinuteOutputs(Timers(c, d)) == MinuteOutputs(c) by { StepIgnores(c, d); }
      DrainIgnoresTimers(MinuteStep(c), d);
    }
  }

  lemma StepIgnores(c: Clock, d: Clock)
    requires c.accumulator >= MINUTE_THRESHOLD
    ensures MinuteStep(Timers(c, d)) == Timers(MinuteStep(c), d) && MinuteOutputs(Timers(c, d)) == MinuteOutputs(c)
  {
    hide Forward, Backward, ForwardCalls, BackwardCalls;
  }

  lemma AdvanceIgnoresTimers(c: Clock, d: Clock, elapsed: nat)
    ensures Advance(Timers(c, d), elapsed) == Timers(Advance(c, elapsed), d)
    ensures AdvanceOutputs(Timers(c, d), elapsed) == AdvanceOutputs(c, elapsed)
  {
    hide Drain, DrainOutputs;
    if c.Advances() {
      assert Filled(Timers(c, d), elapsed) == Timers(Filled(c, elapsed), d);
      DrainIgnoresTimers(Filled(c, elapsed), d);
    }
  }

  lemma ReplyIgnoresSync(b: Clock, delay: nat, accept: bool)
    ensures ReplyStep(Pending(b, delay), accept) == Pending(ReplyStep(b, accept), delay)
    ensures ReplyOutputs(Pending(b, delay), accept) == ReplyOutputs(b, accept)
    ensures ReplyStep(Cleared(b), accept) == Cleared(ReplyStep(b, accept))
  {
  }

  lemma CoolIgnoresTimers(c: Clock, d: Clock, elapsed: nat)
    ensures Cool(Timers(c, d), elapsed) == Timers(Cool(c, elapsed), d)
  {
  }

  lemma SyncWaits(c: Clock, delay: nat, elapsed: nat)
    requires c.isProducer && 0 < delay && elapsed < delay
    ensures Sync(Pending(c, delay), elapsed) == Pending(c, delay - elapsed) && Sync(Cleared(c), elapsed) == Cleared(c)
  {
  }

  lemma SyncFires(c: Clock, delay: nat, elapsed: nat)
    requires c.isProducer && 0 < delay <= elapsed
    ensures Sync(Pending(c, delay), elapsed) == Fired(c) && Sync(Fired(c), elapsed) == Fired(c)
  {
  }

  lemma StartupIgnoresSync(c: Clock, delay: nat, runState: nat)
    ensures Startup(Pending(c, delay), runState) == Pending(Startup(c, runState), delay)
  {
  }

  lemma StartupKeepsClear(c: Clock, runState: nat)
    ensures Startup(Cleared(c), runState) == Cleared(Startup(c, runState))
  {
  }

  lemma WaitingBefore(c: Clock, delay: nat, elapsed: nat, runState: nat)
    requires c.isProducer && 0 < delay && elapsed < delay
    ensures var b := BeforeReply(Cleared(c), elapsed, runState);
            BeforeReply(Pending(c, delay), elapsed, runState) == Pending(b, delay - elapsed) && b == Cleared(b)
  {
    hide Advance, AdvanceOutputs, Cool, Sync, Startup;
    AdvanceIgnoresTimers(c, Cleared(c), elapsed);
    AdvanceIgnoresTimers(c, Pending(c, delay), elapsed);
    AdvanceKeepsFlags(c, elapsed);
    assert Timers(c, Cleared(c)) == Cleared(c) && Timers(c, Pending(c, delay)) == Pending(c, delay);
    var a := Advance(c, elapsed);
    CoolIgnoresTimers(a, Cleared(c), elapsed);
    CoolIgnoresTimers(a, Pending(c, delay), elapsed);
    var d := Cool(a, elapsed);
    CoolOnly(a, elapsed);
    assert Timers(d, Cleared(c)) == Cleared(d) && Timers(d, Pending(c, delay)) == Pending(d, delay);
    SyncWaits(d, delay, elapsed);
    StartupIgnoresSync(d, delay - elapsed, runState);
    StartupKeepsClear(d, runState);
  }

  lemma CoolOnly(c: Clock, elapsed: nat)
    ensures Cool(c, elapsed) == c.(cooldown := Cool(c, elapsed).cooldown)
  {
  }

  lemma FiringBefore(c: Clock, delay: nat, elapsed: nat, runState: nat)
    requires c.isProducer && 0 < delay <= elapsed
    ensures BeforeReply(Pending(c, delay), elapsed, runState) == BeforeReply(Fired(c), elapsed, runState)
  {
    hide Advance, AdvanceOutputs, Cool, Sync, Startup;
    AdvanceIgnoresTimers(c, Fired(c), elapsed);
    AdvanceIgnoresTimers(c, Pending(c, delay), elapsed);
    AdvanceKeepsFlags(c, elapsed);
    assert Timers(c, Fired(c)) == Fired(c) && Timers(c, Pending(c, delay)) == Pending(c, delay);
    var a := Advance(c, elapsed);
    CoolIgnoresTimers(a, Fired(c), elapsed);
    CoolIgnoresTimers(a, Pending(c, delay), elapsed);
    var d := Cool(a, elapsed);
    CoolOnly(a, elapsed);
    assert Timers(d, Fired(c)) == Fired(d) && Timers(d, Pending(c, delay)) == Pending(d, delay);
    SyncFires(d, delay, elapsed);
  }

  /** A poll that does not reach the delay does what it would do without the sync, and shortens the delay. */
  lemma WaitingPoll(c: Clock, delay: nat, elapsed: nat, runState: nat, accept: bool)
    requires c.isAllocated && c.isProducer && 0 < delay && elapsed < delay
    ensures var clean := Polled(Cleared(c), elapsed, runState, accept);
            && Polled(Pending(c, delay), elapsed, runState, accept) == Pending(clean, delay - elapsed)
            && clean == Cleared(clean)
            && PolledOutputs(Pending(c, delay), elapsed, runState, accept) == PolledOutputs(Cleared(c), elapsed, runState, accept)
  {
    hide AdvanceOutputs, BeforeReply, ReplyStep, ReplyOutputs;
    AdvanceIgnoresTimers(c, Cleared(c), elapsed);
    AdvanceIgnoresTimers(c, Pending(c, delay), elapsed);
    assert Timers(c, Cleared(c)) == Cleared(c) && Timers(c, Pending(c, delay)) == Pending(c, delay);
    WaitingBefore(c, delay, elapsed, runState);
    ReplyIgnoresSync(BeforeReply(Cleared(c), elapsed, runState), delay - elapsed, accept);
  }

  /** The poll that reaches it does what it would do had the reply just been restarted. */
  lemma FiringPoll(c: Clock, delay: nat, elapsed: nat, runState: nat, accept: bool)
    requires c.isAllocated && c.isProducer && 0 < delay <= elapsed
    ensures Polled(Pending(c, delay), elapsed, runState, accept) == Polled(Fired(c), elapsed, runState, accept)
    ensures PolledOutputs(Pending(c, delay), elapsed, runState, accept) == PolledOutputs(Fired(c), elapsed, runState, accept)
  {
    hide AdvanceOutputs, BeforeReply, ReplyStep, ReplyOutputs;
    AdvanceIgnoresTimers(c, Fired(c), elapsed);
    AdvanceIgnoresTimers(c, Pending(c, delay), elapsed);
    assert Timers(c, Fired(c)) == Fired(c) && Timers(c, Pending(c, delay)) == Pending(c, delay);
    FiringBefore(c, delay, elapsed, runState);
  }

  // ---- Bursts ----

  /** The ticks a poll finds elapsed among other operations. */
  function OpElapsed(last: nat, ops: seq<Op>, k: nat): nat
    requires k < |ops|
  {
    if ops[k].Poll? then U8(ops[k].poll.tick - LastTick(last, ops, k)) else 0
  }

  /** Ticks the polls have seen since the last Set command among the first k operations, or since the start. */
  function Since(last: nat, ops: seq<Op>, k: nat): nat
    requires k <= |ops|
  {
    if k == 0 || ops[k - 1].SyncTrigger? then 0 else Since(last, ops, k - 1) + OpElapsed(last, ops, k - 1)
  }

  /** The slot after the first k operations had their Set commands never come. */
  function Clean(c: Clock, last: nat, ops: seq<Op>, k: nat): Clock
    requires k <= |ops|
  {
    if k == 0 then Cleared(c)
    else if ops[k - 1].SyncTrigger? then Clean(c, last, ops, k - 1)
    else OpAfter(Clean(c, last, ops, k - 1), LastTick(last, ops, k - 1), ops[k - 1])
  }

  function CleanTrace(c: Clock, last: nat, ops: seq<Op>, k: nat): seq<Output>
    requires k <= |ops|
  {
    if k == 0 then []
    else CleanTrace(c, last, ops, k - 1)
         + if ops[k - 1].SyncTrigger? then [] else OpOutputs(Clean(c, last, ops, k - 1), LastTick(last, ops, k - 1), ops[k - 1])
  }

  /** Polls and Set commands, no 30 ticks without a Set command. */
  ghost predicate Burst(last: nat, ops: seq<Op>, k: nat)
    requires k <= |ops|
  {
    && (forall j :: 0 <= j < k ==> !ops[j].QueryTrigger?)
    && forall j :: 0 <= j <= k ==> Since(last, ops, j) < 30
  }

  /**
   During a burst the slot does exactly what it would do without it, a reply in progress included; only the
   delay counts down from the last Set command.
   */
  lemma {:induction false} BurstWaits(c: Clock, last: nat, ops: seq<Op>, k: nat)
    requires c.isAllocated && c.isProducer && k <= |ops| && Burst(last, ops, k)
    ensures var b := Clean(c, last, ops, k);
            && b == Cleared(b) && SameSetup(c, b)
            && OpsAfter(SyncTriggered(c), last, ops, k) == Pending(b, SYNC_DELAY_TICKS - Since(last, ops, k))
            && OpsTrace(SyncTriggered(c), last, ops, k) == CleanTrace(c, last, ops, k)
  {
    hide Polled, PolledOutputs, U8;
    if k > 0 {
      BurstWaits(c, last, ops, k - 1);
      if ops[k - 1].Poll? {
        var b, p := Clean(c, last, ops, k - 1), ops[k - 1].poll;
        WaitingPoll(b, SYNC_DELAY_TICKS - Since(last, ops, k - 1), OpElapsed(last, ops, k - 1), p.runState, p.accept);
        PolledSetup(b, OpElapsed(last, ops, k - 1), p.runState, p.accept);
      }
    }
  }

  lemma PolledSetup(c: Clock, elapsed: nat, runState: nat, accept: bool)
    ensures SameSetup(c, Polled(c, elapsed, runState, accept))
  {
    hide BeforeReply;
    BeforeReplyPosition(c, elapsed, runState);
  }

  /** Without a reply in progress, nothing is attempted during a burst. */
  lemma {:induction false} BurstIsSilent(c: Clock, last: nat, ops: seq<Op>, k: nat)
    requires c.isAllocated && c.Sends() && !c.replyPending && LoggedIn(c, ops) && k <= |ops|
    requires forall j :: 0 <= j < k ==> !ops[j].QueryTrigger?
    ensures Select(ReplyAttempts, CleanTrace(c, last, ops, k)) == []
    ensures var b := Clean(c, last, ops, k);
            && SameSetup(c, b) && !b.replyPending && !b.syncPending && b.syncDelay == 0
            && b.previousRunState >= RUNSTATE_RUN
  {
    hide Polled, PolledOutputs, U8, Select, BeforeReply;
    if k == 0 {
      SelectNone(ReplyAttempts, []);
    } else {
      BurstIsSilent(c, last, ops, k - 1);
      if ops[k - 1].Poll? {
        SilentPoll(Clean(c, last, ops, k - 1), OpElapsed(last, ops, k - 1), ops[k - 1].poll);
        SelectConcat(ReplyAttempts, CleanTrace(c, last, ops, k - 1),
                     OpOutputs(Clean(c, last, ops, k - 1), LastTick(last, ops, k - 1), ops[k - 1]));
      } else {
        assert CleanTrace(c, last, ops, k) == CleanTrace(c, last, ops, k - 1);
      }
    }
  }

  /** A slot with neither a reply nor a sync pending attempts nothing and stays so. */
  lemma SilentPoll(c: Clock, elapsed: nat, p: ClockRuns.Poll)
    requires c.isAllocated && c.Sends() && !c.replyPending && !c.syncPending && c.syncDelay == 0
    requires c.previousRunState >= RUNSTATE_RUN && p.runState >= RUNSTATE_RUN
    ensures Select(ReplyAttempts, PolledOutputs(c, elapsed, p.runState, p.accept)) == []
    ensures var d := Polled(c, elapsed, p.runState, p.accept);
            && SameSetup(c, d) && !d.replyPending && !d.syncPending && d.syncDelay == 0
            && d.previousRunState >= RUNSTATE_RUN
  {
    hide BeforeReply, Select, PolledOutputs;
    if elapsed == 0 {
      PollStill(c, p.runState, p.accept);
      SelectNone(ReplyAttempts, []);
    } else {
      CalmBeforeReply(c, elapsed, p.runState);
      PollAttempts(c, elapsed, p.runState, p.accept);
      SilentDelay(c, elapsed, p.runState);
    }
  }

  lemma SilentDelay(c: Clock, elapsed: nat, runState: nat)
    requires c.syncDelay == 0
    ensures BeforeReply(c, elapsed, runState).syncDelay == 0
  {
    hide Advance;
    AdvanceKeepsFlags(c, elapsed);
  }

  /** The node has logged in and stays so. */
  ghost predicate LoggedIn(c: Clock, ops: seq<Op>) {
    && c.previousRunState >= RUNSTATE_RUN
    && forall j :: 0 <= j < |ops| && ops[j].Poll? ==> ops[j].poll.runState >= RUNSTATE_RUN
  }

  lemma {:induction false} CleanStaysLoggedIn(c: Clock, last: nat, ops: seq<Op>, k: nat)
    requires c.isAllocated && c.Sends() && LoggedIn(c, ops) && k <= |ops|
    requires forall j :: 0 <= j < k ==> !ops[j].QueryTrigger?
    ensures var b := Clean(c, last, ops, k); SameSetup(c, b) && b.previousRunState >= RUNSTATE_RUN
  {
    hide Polled, PolledOutputs, U8;
    if k > 0 {
      CleanStaysLoggedIn(c, last, ops, k - 1);
      if ops[k - 1].Poll? {
        PolledLogin(Clean(c, last, ops, k - 1), OpElapsed(last, ops, k - 1), ops[k - 1].poll);
      }
    }
  }

  lemma PolledLogin(c: Clock, elapsed: nat, p: ClockRuns.Poll)
    requires c.previousRunState >= RUNSTATE_RUN && p.runState >= RUNSTATE_RUN
    ensures var d := Polled(c, elapsed, p.runState, p.accept); SameSetup(c, d) && d.previousRunState >= RUNSTATE_RUN
  {
    hide Advance, Cool, Sync, ReplyStep;
    PolledSetup(c, elapsed, p.runState, p.accept);
    AdvanceKeepsFlags(c, elapsed);
    TimersKeepLogin(Advance(c, elapsed), elapsed, p.runState, p.accept);
  }

  lemma TimersKeepLogin(a: Clock, elapsed: nat, runState: nat, accept: bool)
    requires a.previousRunState >= RUNSTATE_RUN && runState >= RUNSTATE_RUN
    ensures ReplyStep(Startup(Sync(Cool(a, elapsed), elapsed), runState), accept).previousRunState >= RUNSTATE_RUN
  {
    hide Cool, Sync, Startup, ReplyStep;
    CoolOnly(a, elapsed);
    var b := Cool(a, elapsed);
    SyncOnly(b, elapsed);
    var d := Sync(b, elapsed);
    StartupLogin(d, runState);
    ReplyOnly(Startup(d, runState), accept);
  }

  lemma SyncOnly(c: Clock, elapsed: nat)
    ensures Sync(c, elapsed).previousRunState == c.previousRunState
  {
  }

  lemma StartupLogin(c: Clock, runState: nat)
    requires c.previousRunState >= RUNSTATE_RUN && runState >= RUNSTATE_RUN
    ensures Startup(c, runState).previousRunState >= RUNSTATE_RUN
  {
  }

  lemma ReplyOnly(c: Clock, accept: bool)
    ensures ReplyStep(c, accept).previousRunState == c.previousRunState
  {
  }

  // ---- The polls after the last trigger ----

  /** The polls among the operations from f on, when there is nothing else. */
  function PollsFrom(ops: seq<Op>, f: nat): (polls: seq<ClockRuns.Poll>)
    requires f <= |ops| && forall j :: f <= j < |ops| ==> ops[j].Poll?
    ensures |polls| == |ops| - f
  {
    seq(|ops| - f, i requires 0 <= i < |ops| - f => ops[f + i].poll)
  }

  lemma {:induction false} OpsArePolls(c: Clock, last: nat, ops: seq<Op>, f: nat, m: nat)
    requires f + m <= |ops| && forall j :: f <= j < |ops| ==> ops[j].Poll?
    ensures var polls, from := PollsFrom(ops, f), LastTick(last, ops, f);
            && TickBefore(from, polls, m) == LastTick(last, ops, f + m)
            && OpsAfter(c, last, ops, f + m) == After(OpsAfter(c, last, ops, f), from, polls, m)
            && OpsTrace(c, last, ops, f + m) == OpsTrace(c, last, ops, f) + Trace(OpsAfter(c, last, ops, f), from, polls, m)
  {
    hide Polled, PolledOutputs, U8;
    if m > 0 {
      OpsArePolls(c, last, ops, f, m - 1);
    }
  }

  /** A run whose first poll reaches the delay is the run of a reply just restarted. */
  lemma {:induction false} FiredRun(c: Clock, delay: nat, last: nat, polls: seq<ClockRuns.Poll>, m: nat)
    requires c.isAllocated && c.isProducer && 0 < delay && 1 <= m <= |polls| && Elapsed(last, polls, 0) >= delay
    ensures After(Pending(c, delay), last, polls, m) == After(Fired(c), last, polls, m)
    ensures Trace(Pending(c, delay), last, polls, m) == Trace(Fired(c), last, polls, m)
  {
    hide Polled, PolledOutputs, U8;
    if m == 1 {
      FiringPoll(c, delay, Elapsed(last, polls, 0), polls[0].runState, polls[0].accept);
      FirstPoll(Pending(c, delay), last, polls);
      FirstPoll(Fired(c), last, polls);
    } else {
      FiredRun(c, delay, last, polls, m - 1);
    }
  }

  lemma FirstPoll(c: Clock, last: nat, polls: seq<ClockRuns.Poll>)
    requires |polls| > 0
    ensures After(c, last, polls, 1) == Polled(c, Elapsed(last, polls, 0), polls[0].runState, polls[0].accept)
    ensures Trace(c, last, polls, 1) == PolledOutputs(c, Elapsed(last, polls, 0), polls[0].runState, polls[0].accept)
  {
    hide Polled, PolledOutputs;
    assert After(c, last, polls, 0) == c && Trace(c, last, polls, 0) == [];
  }

  /** One whole reply and no more: what came out of m polls and the state it leaves, for the given number of acceptances. */
  ghost predicate OneReply(out: seq<Output>, d: Clock, accepts: nat) {
    var accepted := Select(AcceptedReplies, out);
    && (d.replyPending <==> accepts < 6) && !d.syncPending
    && |accepted| == Min(accepts, 6) && EndsInOrder(accepted, |accepted|)
  }

  /**
   A burst of Set commands is worth one reply. Until 30 ticks after the last one the slot does what it would do
   without the burst; the poll that reaches them attempts the first message, restarting a reply in progress;
   and from it on the accepted messages are the six of one reply, in order, once.
   */
  lemma BurstGivesOneReply(c: Clock, last: nat, ops: seq<Op>, f: nat, k: nat)
    requires c.isAllocated && c.Sends() && LoggedIn(c, ops) && f < k <= |ops|
    requires Burst(last, ops, f) && (forall j :: f <= j < |ops| ==> ops[j].Poll?)
    requires Since(last, ops, f + 1) >= 30
    ensures OpsTrace(SyncTriggered(c), last, ops, f) == CleanTrace(c, last, ops, f)
    ensures Select(ReplyAttempts, OpOutputs(OpsAfter(SyncTriggered(c), last, ops, f), LastTick(last, ops, f), ops[f]))
            == [Reply(StartOrStop(c.running), ops[f].poll.accept)]
    ensures var polls, from := PollsFrom(ops, f), LastTick(last, ops, f);
            var out := Trace(OpsAfter(SyncTriggered(c), last, ops, f), from, polls, k - f);
            && OpsTrace(SyncTriggered(c), last, ops, k) == OpsTrace(SyncTriggered(c), last, ops, f) + out
            && OneReply(out, OpsAfter(SyncTriggered(c), last, ops, k), Accepts(from, polls, k - f))
  {
    hide Polled, PolledOutputs, U8, Select, Clean, CleanTrace, OpsAfter, OpsTrace, Burst, After, Trace, EndsInOrder;
    BurstWaits(c, last, ops, f);
    CleanBurst(c, last, ops, f);
    var b, delay := Clean(c, last, ops, f), SYNC_DELAY_TICKS - Since(last, ops, f);
    var polls, from := PollsFrom(ops, f), LastTick(last, ops, f);
    OpsArePolls(SyncTriggered(c), last, ops, f, k - f);
    assert Elapsed(from, polls, 0) == OpElapsed(last, ops, f);
    FiredRun(b, delay, from, polls, k - f);
    ReplyOverRun(Fired(b), from, polls, k - f);
    FirstAttempt(b, delay, OpElapsed(last, ops, f), polls[0]);
  }

  lemma CleanBurst(c: Clock, last: nat, ops: seq<Op>, f: nat)
    requires c.isAllocated && c.Sends() && LoggedIn(c, ops) && f <= |ops| && Burst(last, ops, f)
    ensures var b := Clean(c, last, ops, f); SameSetup(c, b) && b.previousRunState >= RUNSTATE_RUN
    ensures Since(last, ops, f) < SYNC_DELAY_TICKS
  {
    hide Polled, U8;
    CleanStaysLoggedIn(c, last, ops, f);
  }

  lemma FirstAttempt(c: Clock, delay: nat, elapsed: nat, p: ClockRuns.Poll)
    requires c.isAllocated && c.Sends() && c.previousRunState >= RUNSTATE_RUN && p.runState >= RUNSTATE_RUN
    requires 0 < delay <= elapsed
    ensures Select(ReplyAttempts, PolledOutputs(Pending(c, delay), elapsed, p.runState, p.accept))
            == [Reply(StartOrStop(c.running), p.accept)]
  {
    hide BeforeReply, Select, PolledOutputs, Polled;
    FiringPoll(c, delay, elapsed, p.runState, p.accept);
    CalmBeforeReply(Fired(c), elapsed, p.runState);
    PollAttempts(Fired(c), elapsed, p.runState, p.accept);
  }

  // ---- A query supersedes a burst ----

  /** A query during a burst leaves the slot as though no Set command had come. */
  lemma QueryErasesBurst(c: Clock, last: nat, ops: seq<Op>, q: nat)
    requires c.isAllocated && c.Sends() && q < |ops| && Burst(last, ops, q) && ops[q].QueryTrigger?
    ensures OpsAfter(SyncTriggered(c), last, ops, q + 1) == QueryTriggered(Clean(c, last, ops, q))
    ensures OpsTrace(SyncTriggered(c), last, ops, q + 1) == CleanTrace(c, last, ops, q)
  {
    hide Polled, PolledOutputs, U8, Clean, CleanTrace, Burst;
    BurstWaits(c, last, ops, q);
  }

  /**
   After a query the sync of any earlier Set command starts nothing: whatever came before, the messages
   accepted from the query on are the six of its one reply, in order, once.
   */
  lemma QueryCancelsSync(c: Clock, last: nat, ops: seq<Op>, q: nat, k: nat)
    requires q < |ops| && ops[q].QueryTrigger? && (forall j :: q < j < |ops| ==> ops[j].Poll?) && q < k <= |ops|
    requires var b := OpsAfter(c, last, ops, q); b.isAllocated && b.Sends() && LoggedIn(b, ops)
    ensures var polls, from := PollsFrom(ops, q + 1), LastTick(last, ops, q + 1);
            var out := Trace(OpsAfter(c, last, ops, q + 1), from, polls, k - q - 1);
            && OpsTrace(c, last, ops, k) == OpsTrace(c, last, ops, q) + out
            && OneReply(out, OpsAfter(c, last, ops, k), Accepts(from, polls, k - q - 1))
  {
    hide Polled, PolledOutputs, U8, Select, After, Trace, EndsInOrder;
    var b := OpsAfter(c, last, ops, q);
    var polls, from := PollsFrom(ops, q + 1), LastTick(last, ops, q + 1);
    assert OpsAfter(c, last, ops, q + 1) == QueryTriggered(b);
    assert OpsTrace(c, last, ops, q + 1) == OpsTrace(c, last, ops, q) + [];
    OpsArePolls(c, last, ops, q + 1, k - q - 1);
    ReplyOverRun(QueryTriggered(b), from, polls, k - q - 1);
  }

  // ---- Ticks are true time ----

  /** True time of the last poll among the first k operations, or the start. */
  function PollTime(start: nat, ops: seq<Op>, times: seq<nat>, k: nat): nat
    requires k <= |ops| == |times|
  {
    if k == 0 then start else if ops[k - 1].Poll? then times[k - 1] else PollTime(start, ops, times, k - 1)
  }

  /** True time of the last poll before the last Set command among the first k operations. */
  function TriggerTime(start: nat, ops: seq<Op>, times: seq<nat>, k: nat): nat
    requires k <= |ops| == |times|
  {
    if k == 0 then start
    else if ops[k - 1].SyncTrigger? then PollTime(start, ops, times, k - 1) else TriggerTime(start, ops, times, k - 1)
  }

  /** Each poll happens at its true time, fewer than 256 ticks after the one before. */
  ghost predicate Timed(start: nat, last: nat, ops: seq<Op>, times: seq<nat>) {
    && last == U8(start) && |times| == |ops|
    && forall k :: 0 <= k < |ops| && ops[k].Poll? ==>
         && ops[k].poll.tick == U8(times[k])
         && PollTime(start, ops, times, k) <= times[k] < PollTime(start, ops, times, k) + BYTE
  }

  /** The ticks counted since the last Set command are true time, from the last tick seen before it. */
  lemma {:induction false} SinceIsTrue(start: nat, last: nat, ops: seq<Op>, times: seq<nat>, k: nat)
    requires Timed(start, last, ops, times) && k <= |ops|
    ensures LastTick(last, ops, k) == U8(PollTime(start, ops, times, k))
    ensures Since(last, ops, k) == PollTime(start, ops, times, k) - TriggerTime(start, ops, times, k)
  {
    hide U8;
    if k > 0 {
      SinceIsTrue(start, last, ops, times, k - 1);
      if ops[k - 1].Poll? { WrapElapsed(PollTime(start, ops, times, k - 1), times[k - 1]); }
    }
  }
}
