/** The spacing of a producer's Report Time messages when polls batch ticks, and the bound on batches that keeps the promised 600. */
module ClockSpacing {
  import opened Words
  import opened Calendar
  import opened NodeTable
  import opened FastClock
  import opened ClockTable
  import opened ClockRuns
  import opened ClockProducer

  /** Polled once after e ticks and then every tick. */
  ghost predicate OneBatch(start: nat, last: nat, polls: seq<Poll>, times: seq<nat>, e: nat) {
    && 0 < e < BYTE && Faithful(start, last, polls, times) && |polls| == |times|
    && forall j :: 0 <= j < |times| ==> times[j] == start + e + j
  }

  /** A producer about to report, with a whole minute in the first e ticks. */
  predicate AboutToReport(c: Clock, e: nat) {
    c.Valid() && c.isAllocated && c.Sends() && c.Advances() && c.cooldown == 0 && Fed(c, e) >= MINUTE_THRESHOLD
  }

  /** The cooldown after k polls: the first reports and loses its own e ticks, the others lose one each. */
  lemma {:induction false} CooldownAfterFirst(c: Clock, start: nat, last: nat, polls: seq<Poll>, times: seq<nat>, e: nat, k: nat)
    requires AboutToReport(c, e) && OneBatch(start, last, polls, times, e)
    requires 1 <= k <= |polls| && k <= REPORT_COOLDOWN_TICKS + 1 - e
    ensures After(c, last, polls, k).cooldown == REPORT_COOLDOWN_TICKS + 1 - e - k
    ensures ReportsAt(c, last, polls, k - 1) <==> k == 1
  {
    hide Polled, PolledOutputs, Select, Elapsed, U8, Clock.Valid, Fed;
    RunKeeps(c, last, polls, k - 1);
    ElapsedIsTrue(start, last, polls, times, k - 1);
    PollReports(After(c, last, polls, k - 1), Elapsed(last, polls, k - 1), polls[k - 1].runState, polls[k - 1].accept);
    if k > 1 {
      CooldownAfterFirst(c, start, last, polls, times, e, k - 1);
    }
  }

  /** The accumulator after k polls. */
  lemma AccumulatorAfter(c: Clock, start: nat, last: nat, polls: seq<Poll>, times: seq<nat>, e: nat, k: nat)
    requires AboutToReport(c, e) && OneBatch(start, last, polls, times, e) && 1 <= k <= |polls|
    ensures After(c, last, polls, k).accumulator == Fed(c, e + k - 1) % MINUTE_THRESHOLD
  {
    hide Polled, PolledOutputs, U8, Clock.Valid, Fed, TimeCounted, MidnightsCounted;
    MinutesOverRun(c, start, last, polls, times, k);
    assert TimeBefore(start, times, k) - start == e + k - 1;
  }

  /** One more tick completes a fast minute after the given number of ticks. */
  predicate MinuteDue(c: Clock, ticks: nat) {
    Fed(c, ticks) % MINUTE_THRESHOLD + Fill(c.rate, 1) >= MINUTE_THRESHOLD
  }

  /**
   After a report in a poll of e ticks the cooldown is spent 600 - e polls later. The next poll, 601 - e ticks
   after the report, reports again exactly if its tick completes a minute; that keeps the promised 600 ticks
   exactly if e is 1.
   */
  lemma BatchingShortensTheGap(c: Clock, start: nat, last: nat, polls: seq<Poll>, times: seq<nat>, e: nat)
    requires AboutToReport(c, e) && OneBatch(start, last, polls, times, e)
    requires |polls| > REPORT_COOLDOWN_TICKS + 1 - e
    ensures var j := REPORT_COOLDOWN_TICKS + 1 - e;
            && ReportsAt(c, last, polls, 0) && (forall k :: 0 < k < j ==> !ReportsAt(c, last, polls, k))
            && (ReportsAt(c, last, polls, j) <==> MinuteDue(c, REPORT_COOLDOWN_TICKS))
            && times[j] - times[0] == REPORT_COOLDOWN_TICKS + 1 - e
            && (times[j] - times[0] >= REPORT_COOLDOWN_TICKS <==> e == 1)
  {
    hide Polled, PolledOutputs, Select, Elapsed, U8, Clock.Valid, Fill, ReportsAt;
    var j := REPORT_COOLDOWN_TICKS + 1 - e;
    forall k | 0 <= k < j ensures ReportsAt(c, last, polls, k) <==> k == 0 {
      CooldownAfterFirst(c, start, last, polls, times, e, k + 1);
    }
    CooldownAfterFirst(c, start, last, polls, times, e, j);
    AccumulatorAfter(c, start, last, polls, times, e, j);
    ReportAgain(c, start, last, polls, times, j);
  }

  /** A poll of one tick with the cooldown spent reports exactly if it completes a minute. */
  lemma ReportAgain(c: Clock, start: nat, last: nat, polls: seq<Poll>, times: seq<nat>, j: nat)
    requires c.Valid() && c.isAllocated && c.Sends() && c.Advances() && Faithful(start, last, polls, times)
    requires 0 < j < |polls| == |times| && times[j] == times[j - 1] + 1 && After(c, last, polls, j).cooldown == 0
    ensures ReportsAt(c, last, polls, j) <==>
            After(c, last, polls, j).accumulator + Fill(c.rate, 1) >= MINUTE_THRESHOLD
  {
    hide Polled, PolledOutputs, Select, Elapsed, U8, Clock.Valid, Fill;
    RunKeeps(c, last, polls, j);
    ElapsedIsTrue(start, last, polls, times, j);
    PollReports(After(c, last, polls, j), Elapsed(last, polls, j), polls[j].runState, polls[j].accept);
  }

  // ---- The exact bound on batching ----

  /** The rates a rate event can carry: twelve bits, signed. */
  predicate Receivable(rate: int) {
    -0x800 <= rate < 0x800
  }

  /** Polls i and j report, and none between does. */
  ghost predicate Consecutive(c: Clock, start: nat, last: nat, polls: seq<Poll>, times: seq<nat>, i: nat, j: nat) {
    && c.Valid() && c.isAllocated && Receivable(c.rate)
    && Faithful(start, last, polls, times) && |polls| == |times|
    && i < j < |polls| && ReportsAt(c, last, polls, i) && ReportsAt(c, last, polls, j)
    && forall k :: i < k < j ==> !ReportsAt(c, last, polls, k)
  }

  ghost predicate BatchesAtMost(last: nat, polls: seq<Poll>, bound: nat) {
    forall k :: 0 <= k < |polls| ==> Elapsed(last, polls, k) <= bound
  }

  predicate KeepsPromise(times: seq<nat>, i: nat, j: nat) {
    i < |times| && j < |times| && times[j] >= times[i] + 600
  }

  /** Every producer at every receivable rate keeps its reports 600 ticks apart in every run of polls that batch at most this. */
  ghost predicate SpacingHolds(bound: nat) {
    forall c: Clock, start: nat, last: nat, polls: seq<Poll>, times: seq<nat>, i: nat, j: nat ::
      Consecutive(c, start, last, polls, times, i, j) && BatchesAtMost(last, polls, bound)
      ==> KeepsPromise(times, i, j)
  }

  /** A producer at rate 2047, its accumulator empty as a rate event leaves it. */
  function FastProducer(): Clock {
    Clock(0, DateTime(2000, 1, 1, 0, 0), 0x7FF, true, 0, false, true, true, false, false, 0, 0, 0, RUNSTATE_RUN, Some(0))
  }

  /** One poll of two ticks, then 599 of one. */
  function WitnessTimes(): seq<nat> {
    seq(600, k requires 0 <= k < 600 => 2 + k)
  }

  function WitnessPolls(): seq<Poll> {
    seq(600, k requires 0 <= k < 600 => Poll.Poll(U8(2 + k), RUNSTATE_RUN, true))
  }

  lemma WitnessIsFaithful()
    ensures OneBatch(0, 0, WitnessPolls(), WitnessTimes(), 2)
  {
  }

  lemma WitnessReports()
    ensures AboutToReport(FastProducer(), 2) && MinuteDue(FastProducer(), REPORT_COOLDOWN_TICKS)
    ensures Receivable(FastProducer().rate)
  {
    var c := FastProducer();
    assert Fed(c, 600) == 122820000 && Fill(c.rate, 1) == 204700 && Fed(c, 2) == 409400;
    DivModUnique(122820000, MINUTE_THRESHOLD, 511, 180000);
  }

  lemma WitnessElapsed(k: nat)
    requires k < 600
    ensures k < |WitnessPolls()| && Elapsed(0, WitnessPolls(), k) == if k == 0 then 2 else 1
  {
    hide U8;
    WitnessIsFaithful();
    ElapsedIsTrue(0, 0, WitnessPolls(), WitnessTimes(), k);
  }

  /** The bound is exact: the promised spacing holds for all runs with batches of at most the bound if and only if it is at most 1. */
  lemma SpacingBound(bound: nat)
    ensures SpacingHolds(bound) <==> bound <= 1
  {
    if bound <= 1 {
      forall c: Clock, start: nat, last: nat, polls: seq<Poll>, times: seq<nat>, i: nat, j: nat
        | Consecutive(c, start, last, polls, times, i, j) && BatchesAtMost(last, polls, bound)
        ensures KeepsPromise(times, i, j)
      {
        Unbatched(c, start, last, polls, times, i, j, bound);
      }
    } else {
      WitnessFails(bound);
    }
  }

  lemma Unbatched(c: Clock, start: nat, last: nat, polls: seq<Poll>, times: seq<nat>, i: nat, j: nat, bound: nat)
    requires Consecutive(c, start, last, polls, times, i, j) && BatchesAtMost(last, polls, bound) && bound <= 1
    ensures KeepsPromise(times, i, j)
  {
    hide ReportsAt, Elapsed, Faithful, Clock.Valid;
    ReportsApart(c, start, last, polls, times, i, j);
  }

  lemma WitnessFails(bound: nat)
    requires bound >= 2
    ensures !SpacingHolds(bound)
  {
    hide ReportsAt, Elapsed, Faithful, U8, MinuteDue, AboutToReport, After, Clock.Valid, Fed;
    var c, polls, times := FastProducer(), WitnessPolls(), WitnessTimes();
    WitnessIsFaithful();
    WitnessReports();
    BatchingShortensTheGap(c, 0, 0, polls, times, 2);
    forall k | 0 <= k < |polls| ensures 0 < Elapsed(0, polls, k) <= 2 {
      WitnessElapsed(k);
    }
    assert AboutToReport(c, 2);
    Producing(c);
    assert Consecutive(c, 0, 0, polls, times, 0, 599);
    assert BatchesAtMost(0, polls, bound);
  }

  lemma Producing(c: Clock)
    requires AboutToReport(c, 2)
    ensures c.Valid() && c.isAllocated
  {
  }
}
