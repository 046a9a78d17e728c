/**
 All a clock tells over a run: its callbacks, and the dates a producer sends at midnight. What each contains is the
 calendar time of its own minute.
 */
module ClockStory {
  import opened Words
  import opened Calendar
  import opened FastClock
  import opened ClockTable
  import opened ClockRuns

  /** The callbacks of a step from one time to the next, by what changes between the two. */
  function CallsBetween(forward: bool, t: DateTime, u: DateTime): seq<Output> {
    (if u.MinuteOfDay() == (if forward then 0 else 1439) then [OnDateRollover(t.(hour := u.hour, minute := u.minute))] else [])
    + (if u.year != t.year then [OnYearReceived(if forward then u else u.(day := t.day))] else [])
    + (if u.month != t.month then [OnDateReceived(u)] else [])
    + [OnTimeReceived(u)]
  }

  /** What a producer with a node sends when it reaches midnight. */
  function DatesBetween(sends: bool, forward: bool, u: DateTime): seq<Output> {
    if sends && forward && u.hour == 0 && u.minute == 0
    then [DateRollover, ReportYear(u.year), ReportDate(u.month, u.day)] else []
  }

  /** All that a step tells but its report. */
  function Told(sends: bool, forward: bool, t: DateTime, u: DateTime): seq<Output> {
    CallsBetween(forward, t, u) + [OnTimeChanged(u)] + DatesBetween(sends, forward, u)
  }

  /** All that n minutes from t tell. */
  function Story(sends: bool, forward: bool, n: nat, t: DateTime): seq<Output> {
    if n == 0 then []
    else Story(sends, forward, n - 1, t) + Told(sends, forward, Steps(forward, n - 1, t), Steps(forward, n, t))
  }

  /** The dates sent in n minutes from t. */
  function Dates(sends: bool, forward: bool, n: nat, t: DateTime): seq<Output> {
    if n == 0 then [] else Dates(sends, forward, n - 1, t) + DatesBetween(sends, forward, Steps(forward, n, t))
  }

  // ---- One minute ----

  /** Within a day only the time of day changes. */
  lemma WithinDay(forward: bool, t: DateTime, u: DateTime)
    requires t.OnDial() && u == t.(hour := u.hour, minute := u.minute)
    requires u.MinuteOfDay() != if forward then 0 else 1439
    ensures CallsBetween(forward, t, u) == [OnTimeReceived(u)]
  {
  }

  lemma NextDayChanges(t: DateTime)
    ensures NextDayCalls(t) == (if NextDay(t).year != t.year then [OnYearReceived(NextDay(t))] else [])
                               + (if NextDay(t).month != t.month then [OnDateReceived(NextDay(t))] else [])
  {
    hide DaysInMonth;
  }

  lemma PreviousDayChanges(t: DateTime)
    ensures var u := PreviousDay(t);
            PreviousDayCalls(t) == (if u.year != t.year then [OnYearReceived(u.(day := t.day))] else [])
                                   + (if u.month != t.month then [OnDateReceived(u)] else [])
  {
    hide DaysInMonth;
  }

  lemma ForwardChanges(t: DateTime)
    requires t.OnDial()
    ensures ForwardCalls(t) == CallsBetween(true, t, Forward(t))
  {
    hide NextDay, NextDayCalls;
    if t.MinuteOfDay() == 1439 {
      var s := t.(hour := 0, minute := 0);
      NextDayChanges(s);
      NextDayTime(s);
      assert Forward(t) == NextDay(s);
    } else {
      WithinDay(true, t, Forward(t));
    }
  }

  lemma BackwardChanges(t: DateTime)
    requires t.OnDial()
    ensures BackwardCalls(t) == CallsBetween(false, t, Backward(t))
  {
    hide PreviousDay, PreviousDayCalls;
    if t.MinuteOfDay() == 0 {
      var s := t.(hour := 23, minute := 59);
      PreviousDayChanges(s);
      PreviousDayTime(s);
      assert Backward(t) == PreviousDay(s);
    } else {
      WithinDay(false, t, Backward(t));
    }
  }

  lemma MinuteTells(c: Clock)
    requires c.now.OnDial()
    ensures Select(ClockEvents, MinuteOutputs(c)) == Told(c.isProducer && c.node.Some?, c.rate > 0, c.now, Stepped(c))
  {
    hide Select, MinuteOutputs, Calendar.Forward, Calendar.Backward, ForwardCalls, BackwardCalls, CallsBetween;
    MinuteSelects(ClockEvents, c);
    ForwardChanges(c.now);
    BackwardChanges(c.now);
    MinuteDates(c);
  }

  /** One minute in full: its callbacks, the change, the report if one is due, and at midnight the dates, in this order. */
  lemma MinuteInFull(c: Clock)
    requires c.now.OnDial()
    ensures var u, sends := Steps(c.rate > 0, 1, c.now), c.isProducer && c.node.Some?;
            MinuteOutputs(c) == CallsBetween(c.rate > 0, c.now, u) + [OnTimeChanged(u)]
                                + (if sends && c.cooldown == 0 then [ReportTime(u.hour, u.minute)] else [])
                                + DatesBetween(sends, c.rate > 0, u)
  {
    hide Calendar.Forward, Calendar.Backward, ForwardCalls, BackwardCalls, CallsBetween, DatesBetween;
    StepsOne(c.rate > 0, c.now);
    ForwardChanges(c.now);
    BackwardChanges(c.now);
    MinuteDates(c);
    MinuteOutputsAre(c);
  }

  lemma MinuteOutputsAre(c: Clock)
    ensures MinuteOutputs(c) == CallsOf(c) + [OnTimeChanged(Stepped(c))] + ReportsOf(c) + DatesOf(c)
  {
    hide Stepped, ForwardCalls, BackwardCalls;
  }

  lemma MinuteDates(c: Clock)
    requires c.now.OnDial()
    ensures DatesOf(c) == DatesBetween(c.isProducer && c.node.Some?, c.rate > 0, Stepped(c))
  {
    hide Calendar.Forward, Calendar.Backward;
    ForwardOverDay(c.now);
    BackwardOverDay(c.now);
    TimeFields(c.now);
    TimeFields(Stepped(c));
  }

  lemma {:induction false} StorySplit(sends: bool, f: bool, m: nat, n: nat, t: DateTime)
    ensures Story(sends, f, m + n, t) == Story(sends, f, m, t) + Story(sends, f, n, Steps(f, m, t))
  {
    hide Told, Steps;
    if n > 0 {
      StorySplit(sends, f, m, n - 1, t);
      StepsSplit(f, m, n - 1, t);
      StepsSplit(f, m, n, t);
    }
  }

  /** Draining tells the story of its minutes. */
  lemma {:induction false} DrainTells(c: Clock)
    requires c.now.OnDial()
    ensures Select(ClockEvents, DrainOutputs(c))
            == Story(c.isProducer && c.node.Some?, c.rate > 0, c.accumulator / MINUTE_THRESHOLD, c.now)
    decreases c.accumulator
  {
    hide Calendar.Forward, Calendar.Backward, MinuteOutputs, DateTime.OnDial, Select, Told;
    if c.accumulator < MINUTE_THRESHOLD {
      SelectNone(ClockEvents, []);
    } else {
      var s, f, sends := MinuteStep(c), c.rate > 0, c.isProducer && c.node.Some?;
      ForwardOverDay(c.now);
      BackwardOverDay(c.now);
      MinuteTells(c);
      DrainTells(s);
      SelectConcat(ClockEvents, MinuteOutputs(c), DrainOutputs(s));
      var n := s.accumulator / MINUTE_THRESHOLD;
      DivModUnique(c.accumulator, MINUTE_THRESHOLD, n + 1, s.accumulator % MINUTE_THRESHOLD);
      OneMinuteStory(sends, f, c.now);
      StorySplit(sends, f, 1, n, c.now);
      StepsOne(f, c.now);
    }
  }

  lemma OneMinuteStory(sends: bool, f: bool, t: DateTime)
    ensures Story(sends, f, 1, t) == Told(sends, f, t, if f then Forward(t) else Backward(t))
  {
    hide Told;
    StepsOne(f, t);
    assert Story(sends, f, 0, t) == [] && Steps(f, 0, t) == t;
    assert Story(sends, f, 1, t) == Story(sends, f, 0, t) + Told(sends, f, Steps(f, 0, t), Steps(f, 1, t));
  }

  // ---- Over runs ----

  lemma PollTells(c: Clock, elapsed: nat, runState: nat, accept: bool)
    requires c.Valid() && c.isAllocated && c.Advances() && elapsed < BYTE
    ensures Select(ClockEvents, PolledOutputs(c, elapsed, runState, accept))
            == Story(c.isProducer && c.node.Some?, c.rate > 0, Fed(c, elapsed) / MINUTE_THRESHOLD, c.now)
  {
    hide Story, DrainOutputs, DateTime.OnDial, Select, BeforeReply, Fill, Filled;
    if elapsed == 0 {
      FillSplit(c.rate, 0, 0);
      SelectNone(ClockEvents, []);
      StoryOfNothing(c.isProducer && c.node.Some?, c.rate > 0, c.now);
    } else {
      var d, b := Filled(c, elapsed), BeforeReply(c, elapsed, runState);
      NoOverflow(c, elapsed);
      FilledTime(c, elapsed);
      DrainTells(d);
      SelectConcat(ClockEvents, DrainOutputs(d), ReplyOutputs(b, accept));
      SelectNone(ClockEvents, ReplyOutputs(b, accept));
    }
  }

  lemma FilledTime(c: Clock, elapsed: nat)
    ensures Filled(c, elapsed) == c.(accumulator := Filled(c, elapsed).accumulator)
  {
  }

  lemma StoryOfNothing(sends: bool, f: bool, t: DateTime)
    ensures Story(sends, f, 0, t) == []
  {
  }

  /**
   Over any run of polls less than 256 ticks apart a running clock tells exactly the story of the minutes its rate and the
   true time call for, each callback and each date with the calendar time of its own minute, in order and nothing else.
   */
  lemma {:induction false} StoryOverRun(c: Clock, start: nat, last: nat, polls: seq<Poll>, times: seq<nat>, k: nat)
    requires c.Valid() && c.isAllocated && (c.isConsumer || c.isProducer) && c.running && c.rate != 0
    requires Faithful(start, last, polls, times) && k <= |polls| == |times|
    ensures start <= TimeBefore(start, times, k)
    ensures Select(ClockEvents, Trace(c, last, polls, k))
            == Story(c.isProducer && c.node.Some?, c.rate > 0,
                     Fed(c, TimeBefore(start, times, k) - start) / MINUTE_THRESHOLD, c.now)
  {
    hide Polled, PolledOutputs, Fed, Clock.Valid, Faithful, U8, Select, Story, Counted, Elapsed;
    MinutesOverRun(c, start, last, polls, times, k);
    if k == 0 {
      FedNothing(c);
      SelectNone(ClockEvents, []);
      ShortOfAMinute(c);
      StoryOfNothing(c.isProducer && c.node.Some?, c.rate > 0, c.now);
    } else {
      StoryOverRun(c, start, last, polls, times, k - 1);
      MinutesOverRun(c, start, last, polls, times, k - 1);
      RunKeeps(c, last, polls, k - 1);
      ElapsedIsTrue(start, last, polls, times, k - 1);
      var b, e, ticks := After(c, last, polls, k - 1), Elapsed(last, polls, k - 1), TimeBefore(start, times, k - 1) - start;
      StoryExtends(c, ticks, b, Trace(c, last, polls, k - 1), e, polls[k - 1]);
    }
  }

  /** The next poll goes on with the story. */
  lemma StoryExtends(c: Clock, ticks: nat, b: Clock, out: seq<Output>, elapsed: nat, p: Poll)
    requires c.Valid() && b.Valid() && SameSetup(c, b) && c.isAllocated && c.Advances() && elapsed < BYTE
    requires Counted(c, Fed(c, ticks), b, out)
    requires var sends := c.isProducer && c.node.Some?;
             Select(ClockEvents, out) == Story(sends, c.rate > 0, Fed(c, ticks) / MINUTE_THRESHOLD, c.now)
    ensures var sends := c.isProducer && c.node.Some?;
            Select(ClockEvents, out + PolledOutputs(b, elapsed, p.runState, p.accept))
            == Story(sends, c.rate > 0, Fed(c, ticks + elapsed) / MINUTE_THRESHOLD, c.now)
  {
    hide PolledOutputs, Fill, Clock.Valid, Select, Story, MidnightsCounted;
    PollTells(b, elapsed, p.runState, p.accept);
    SelectConcat(ClockEvents, out, PolledOutputs(b, elapsed, p.runState, p.accept));
    FillSplit(c.rate, ticks, elapsed);
    CarryRemainder(Fed(c, ticks), Fill(c.rate, elapsed));
    StorySplit(c.isProducer && c.node.Some?, c.rate > 0, Fed(c, ticks) / MINUTE_THRESHOLD,
               Fed(b, elapsed) / MINUTE_THRESHOLD, c.now);
  }

  lemma ShortOfAMinute(c: Clock)
    requires c.Valid()
    ensures c.accumulator / MINUTE_THRESHOLD == 0
  {
  }

  lemma {:induction false} SelectTwice(s: seq<Output>)
    ensures Select(DateSends, Select(ClockEvents, s)) == Select(DateSends, s)
  {
    if s != [] {
      var front, o := s[..|s| - 1], s[|s| - 1];
      SelectTwice(front);
      if Is(ClockEvents, o) {
        SelectConcat(DateSends, Select(ClockEvents, front), [o]);
        SelectOne(DateSends, o);
      } else {
        assert Select(ClockEvents, s) == Select(ClockEvents, front);
      }
    }
  }

  lemma {:induction false} DatesOfStory(sends: bool, f: bool, n: nat, t: DateTime)
    ensures Select(DateSends, Story(sends, f, n, t)) == Dates(sends, f, n, t)
  {
    hide Steps, Select, Told;
    if n == 0 {
      SelectNone(DateSends, []);
    } else {
      DatesOfStory(sends, f, n - 1, t);
      DatesTold(sends, f, Steps(f, n - 1, t), Steps(f, n, t));
      SelectConcat(DateSends, Story(sends, f, n - 1, t), Told(sends, f, Steps(f, n - 1, t), Steps(f, n, t)));
    }
  }

  lemma DatesTold(sends: bool, f: bool, t: DateTime, u: DateTime)
    ensures Select(DateSends, Told(sends, f, t, u)) == DatesBetween(sends, f, u)
  {
    hide Select;
    var calls, dates := CallsBetween(f, t, u), DatesBetween(sends, f, u);
    SelectConcat(DateSends, calls + [OnTimeChanged(u)], dates);
    SelectNone(DateSends, calls + [OnTimeChanged(u)]);
    SelectAll(DateSends, dates);
  }

  /**
   Over any run a producer with a node that runs forward sends Date Rollover, Report Year and Report Date at exactly the
   minutes that are midnight, in order, with the date that begins; any other running clock sends no date.
   */
  lemma DatesOverRun(c: Clock, start: nat, last: nat, polls: seq<Poll>, times: seq<nat>, k: nat)
    requires c.Valid() && c.isAllocated && (c.isConsumer || c.isProducer) && c.running && c.rate != 0
    requires Faithful(start, last, polls, times) && k <= |polls| == |times|
    ensures start <= TimeBefore(start, times, k)
    ensures Select(DateSends, Trace(c, last, polls, k))
            == Dates(c.isProducer && c.node.Some?, c.rate > 0,
                     Fed(c, TimeBefore(start, times, k) - start) / MINUTE_THRESHOLD, c.now)
  {
    hide Select, Trace, Fill, Clock.Valid, Faithful, Story;
    StoryOverRun(c, start, last, polls, times, k);
    SelectTwice(Trace(c, last, polls, k));
    DatesOfStory(c.isProducer && c.node.Some?, c.rate > 0, Fed(c, TimeBefore(start, times, k) - start) / MINUTE_THRESHOLD, c.now);
  }

  // ---- Clocks that do not run, and clocks that send for no node ----

  /** A slot that is unclaimed, stopped, at rate 0 or configured as nothing keeps its time and tells nothing. */
  lemma {:induction false} StandsStill(c: Clock, last: nat, polls: seq<Poll>, k: nat)
    requires !(c.isAllocated && (c.isConsumer || c.isProducer) && c.running && c.rate != 0) && k <= |polls|
    ensures var d := After(c, last, polls, k);
            SameSetup(c, d) && d.now == c.now && d.accumulator == c.accumulator
    ensures Select(ClockEvents, Trace(c, last, polls, k)) == [] && Select(Reports, Trace(c, last, polls, k)) == []
  {
    hide Select, Elapsed, Polled, PolledOutputs;
    if k == 0 {
      SelectNone(ClockEvents, []);
      SelectNone(Reports, []);
    } else {
      StandsStill(c, last, polls, k - 1);
      var b := After(c, last, polls, k - 1);
      StillPoll(b, Elapsed(last, polls, k - 1), polls[k - 1].runState, polls[k - 1].accept);
      SelectConcat(ClockEvents, Trace(c, last, polls, k - 1), Produced(c, last, polls, k - 1));
      SelectConcat(Reports, Trace(c, last, polls, k - 1), Produced(c, last, polls, k - 1));
    }
  }

  lemma StillPoll(c: Clock, elapsed: nat, runState: nat, accept: bool)
    requires !(c.isAllocated && (c.isConsumer || c.isProducer) && c.running && c.rate != 0)
    ensures var d := Polled(c, elapsed, runState, accept);
            SameSetup(c, d) && d.now == c.now && d.accumulator == c.accumulator
    ensures var out := PolledOutputs(c, elapsed, runState, accept);
            Select(ClockEvents, out) == [] && Select(Reports, out) == []
  {
    hide Select, ReplyMessageFor, Cool, Sync, Startup, ReplyStep;
    SelectNone(ClockEvents, PolledOutputs(c, elapsed, runState, accept));
    SelectNone(Reports, PolledOutputs(c, elapsed, runState, accept));
    CoolAndSyncKeep(c, elapsed);
    StartupAndReplyKeep(Sync(Cool(c, elapsed), elapsed), runState, accept);
  }

  /** A slot that is no producer, or has no node, sends nothing at all. */
  lemma {:induction false} SendsForNoOne(c: Clock, last: nat, polls: seq<Poll>, k: nat)
    requires !(c.isProducer && c.node.Some?) && k <= |polls|
    ensures SameSetup(c, After(c, last, polls, k)) && Select(ProducerSends, Trace(c, last, polls, k)) == []
  {
    hide Select, Elapsed, Polled, PolledOutputs;
    if k == 0 {
      SelectNone(ProducerSends, []);
    } else {
      SendsForNoOne(c, last, polls, k - 1);
      var b := After(c, last, polls, k - 1);
      SilentPoll(b, Elapsed(last, polls, k - 1), polls[k - 1].runState, polls[k - 1].accept);
      SelectConcat(ProducerSends, Trace(c, last, polls, k - 1), Produced(c, last, polls, k - 1));
    }
  }

  lemma {:induction false} SilentDrain(c: Clock)
    requires !(c.isProducer && c.node.Some?)
    ensures Select(ProducerSends, DrainOutputs(c)) == []
    decreases c.accumulator
  {
    hide Select, MinuteOutputs, Stepped;
    if c.accumulator < MINUTE_THRESHOLD {
      SelectNone(ProducerSends, []);
    } else {
      SilentDrain(MinuteStep(c));
      MinuteSelects(ProducerSends, c);
      SelectConcat(ProducerSends, MinuteOutputs(c), DrainOutputs(MinuteStep(c)));
    }
  }

  lemma StartupSetup(c: Clock, runState: nat)
    ensures SameSetup(c, Startup(c, runState))
  {
  }

  lemma SilentPoll(c: Clock, elapsed: nat, runState: nat, accept: bool)
    requires !(c.isProducer && c.node.Some?)
    ensures SameSetup(c, Polled(c, elapsed, runState, accept))
    ensures Select(ProducerSends, PolledOutputs(c, elapsed, runState, accept)) == []
  {
    hide Select, DrainOutputs, Advance, Cool, Sync, Startup, ReplyStep, Filled;
    SelectNone(ProducerSends, []);
    if c.isAllocated && elapsed > 0 {
      var a, b := Advance(c, elapsed), BeforeReply(c, elapsed, runState);
      AdvanceKeepsFlags(c, elapsed);
      FilledTime(c, elapsed);
      SilentDrain(Filled(c, elapsed));
      CoolAndSyncKeep(a, elapsed);
      StartupAndReplyKeep(Sync(Cool(a, elapsed), elapsed), runState, accept);
      StartupSetup(Sync(Cool(a, elapsed), elapsed), runState);
      assert ReplyOutputs(b, accept) == [];
      SelectConcat(ProducerSends, AdvanceOutputs(c, elapsed), []);
    }
  }
}
