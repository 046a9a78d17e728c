/** Properties of a clock slot over whole runs of tick calls. */
module ClockRuns {
  import opened Words
  import opened Calendar
  import opened FastClock
  import opened ClockTable

  /** One tick call as a slot sees it: the 8-bit tick, its node's run state, whether the transport accepts. */
  datatype Poll = Poll(tick: nat, runState: nat, accept: bool)

  function TickBefore(last: nat, polls: seq<Poll>, k: nat): nat
    requires k <= |polls|
  {
    if k == 0 then last else polls[k - 1].tick
  }

  function Elapsed(last: nat, polls: seq<Poll>, k: nat): nat
    requires k < |polls|
  {
    U8(polls[k].tick - TickBefore(last, polls, k))
  }

  /** The slot after the first k polls. */
  function After(c: Clock, last: nat, polls: seq<Poll>, k: nat): Clock
    requires k <= |polls|
  {
    if k == 0 then c
    else Polled(After(c, last, polls, k - 1), Elapsed(last, polls, k - 1), polls[k - 1].runState, polls[k - 1].accept)
  }

  /** What poll k calls and sends. */
  function Produced(c: Clock, last: nat, polls: seq<Poll>, k: nat): seq<Output>
    requires k < |polls|
  {
    PolledOutputs(After(c, last, polls, k), Elapsed(last, polls, k), polls[k].runState, polls[k].accept)
  }

  function Trace(c: Clock, last: nat, polls: seq<Poll>, k: nat): seq<Output>
    requires k <= |polls|
  {
    if k == 0 then [] else Trace(c, last, polls, k - 1) + Produced(c, last, polls, k - 1)
  }

  // ---- Projections of a trace ----

  datatype Kind =
    | TimeChanges | MidnightCalls | RolloverSends | DateSends | Reports | AcceptedReplies | ReplyAttempts
    | ClockEvents | ProducerSends

  predicate Is(kind: Kind, o: Output) {
    match kind
    case TimeChanges => o.OnTimeChanged?
    case MidnightCalls => o.OnDateRollover?
    case RolloverSends => o.DateRollover?
    case DateSends => o.DateRollover? || o.ReportYear? || o.ReportDate?
    case Reports => o.ReportTime?
    case AcceptedReplies => o.Reply? && o.accepted
    case ReplyAttempts => o.Reply?
    case ClockEvents => !o.ReportTime? && !o.Reply?
    case ProducerSends => o.DateRollover? || o.ReportYear? || o.ReportDate? || o.ReportTime? || o.Reply?
  }

  function Select(kind: Kind, s: seq<Output>): seq<Output> {
    if s == [] then []
    else Select(kind, s[..|s| - 1]) + if Is(kind, s[|s| - 1]) then [s[|s| - 1]] else []
  }

  lemma {:induction false} SelectConcat(kind: Kind, a: seq<Output>, b: seq<Output>)
    ensures Select(kind, a + b) == Select(kind, a) + Select(kind, b)
  {
    if b == [] {
      assert a + b == a;
    } else {
      var s := a + b;
      assert s[..|s| - 1] == a + b[..|b| - 1];
      SelectConcat(kind, a, b[..|b| - 1]);
    }
  }

  lemma SelectOne(kind: Kind, o: Output)
    ensures Select(kind, [o]) == if Is(kind, o) then [o] else []
  {
    assert [o][..0] == [];
  }

  lemma {:induction false} SelectNone(kind: Kind, s: seq<Output>)
    requires forall i :: 0 <= i < |s| ==> !Is(kind, s[i])
    ensures Select(kind, s) == []
  {
    if s != [] { SelectNone(kind, s[..|s| - 1]); }
  }

  // ---- Ticks wrap, elapsed time does not ----

  function TimeBefore(start: nat, times: seq<nat>, k: nat): nat
    requires k <= |times|
  {
    if k == 0 then start else times[k - 1]
  }

  /** Poll k happens at true tick times[k], fewer than 256 ticks after the one before. */
  ghost predicate Faithful(start: nat, last: nat, polls: seq<Poll>, times: seq<nat>) {
    && last == U8(start) && |times| == |polls|
    && forall k :: 0 <= k < |polls| ==>
         && polls[k].tick == U8(times[k])
         && TimeBefore(start, times, k) <= times[k] < TimeBefore(start, times, k) + BYTE
  }

  lemma WrapElapsed(a: nat, b: nat)
    requires a <= b < a + BYTE
    ensures U8(U8(b) - U8(a)) == b - a
  {
    DivModUnique(U8(b) - U8(a), 256, a / 256 - b / 256, b - a);
  }

  /** The 8-bit subtraction recovers the true gap between two polls. */
  lemma ElapsedIsTrue(start: nat, last: nat, polls: seq<Poll>, times: seq<nat>, k: nat)
    requires Faithful(start, last, polls, times) && k < |polls|
    ensures Elapsed(last, polls, k) == times[k] - TimeBefore(start, times, k)
    ensures Elapsed(last, polls, k) < BYTE
  {
    WrapElapsed(TimeBefore(start, times, k), times[k]);
    if k > 0 { assert polls[k - 1].tick == U8(times[k - 1]); }
  }

  // ---- Minutes counted by one tick ----

  lemma ProductBound(a: nat, e: nat)
    requires a <= 0x8000 && e < BYTE
    ensures a * e <= 0x8000 * 255
  {
    MulMono(a, 0x8000, e, 255);
  }

  /** The 32-bit accumulator never overflows. */
  lemma NoOverflow(c: Clock, elapsed: nat)
    requires c.Valid() && elapsed < BYTE
    ensures Filled(c, elapsed).accumulator == Fed(c, elapsed)
  {
    ProductBound(Abs(c.rate), elapsed);
    var a := Abs(c.rate);
    assert U16(a) == a;
    assert 100 * a * elapsed == 100 * (a * elapsed);
  }

  /** The loop takes out exactly the whole minutes, one calendar step each, and leaves the remainder. */
  lemma {:induction false} DrainCounts(c: Clock)
    ensures Drain(c).accumulator == c.accumulator % MINUTE_THRESHOLD
    ensures Drain(c).now == Steps(c.rate > 0, c.accumulator / MINUTE_THRESHOLD, c.now)
    decreases c.accumulator
  {
    hide Calendar.Forward, Calendar.Backward;
    if c.accumulator >= MINUTE_THRESHOLD {
      var s := MinuteStep(c);
      DrainCounts(s);
      var n := s.accumulator / MINUTE_THRESHOLD;
      DivModUnique(c.accumulator, MINUTE_THRESHOLD, n + 1, s.accumulator % MINUTE_THRESHOLD);
      StepsSplit(c.rate > 0, 1, n, c.now);
      StepsOne(c.rate > 0, c.now);
    }
  }

  /** The n minutes after t, in order. */
  function Minutes(forward: bool, n: nat, t: DateTime): (s: seq<DateTime>)
    ensures |s| == n
    ensures forall i :: 0 <= i < n ==> s[i] == Steps(forward, i + 1, t)
  {
    if n == 0 then [] else Minutes(forward, n - 1, t) + [Steps(forward, n, t)]
  }

  function Changes(s: seq<DateTime>): seq<Output> {
    seq(|s|, i requires 0 <= i < |s| => OnTimeChanged(s[i]))
  }

  lemma SelectEmpty(kind: Kind)
    ensures Select(kind, []) == []
  {
  }

  lemma SelectShort(kind: Kind, s: seq<Output>)
    requires |s| <= 3
    ensures |s| == 0 ==> Select(kind, s) == []
    ensures |s| == 1 ==> Select(kind, s) == if Is(kind, s[0]) then [s[0]] else []
    ensures |s| == 3 ==> Select(kind, s) == (if Is(kind, s[0]) then [s[0]] else [])
                                          + (if Is(kind, s[1]) then [s[1]] else [])
                                          + (if Is(kind, s[2]) then [s[2]] else [])
  {
    hide Is, Select;
    SelectEmpty(kind);
    if |s| == 0 {
      assert s == [];
    } else if |s| == 1 {
      assert s == [s[0]];
      SelectOne(kind, s[0]);
    } else if |s| == 3 {
      assert s == [s[0]] + [s[1]] + [s[2]];
      SelectConcat(kind, [s[0]] + [s[1]], [s[2]]);
      SelectConcat(kind, [s[0]], [s[1]]);
      SelectOne(kind, s[0]);
      SelectOne(kind, s[1]);
      SelectOne(kind, s[2]);
    }
  }

  lemma CallsAreCallbacks(c: Clock)
    ensures var calls := CallsOf(c);
            forall i :: 0 <= i < |calls| ==>
              calls[i].OnDateRollover? || calls[i].OnYearReceived? || calls[i].OnDateReceived? || calls[i].OnTimeReceived?
  {
    hide Calendar.Forward, Calendar.Backward, Calendar.DaysInMonth, Calendar.NextDay, Calendar.PreviousDay;
  }

  lemma SelectParts(kind: Kind, a: seq<Output>, o: Output, b: seq<Output>, d: seq<Output>)
    ensures Select(kind, a + [o] + b + d) ==
            Select(kind, a) + (if Is(kind, o) then [o] else []) + Select(kind, b) + Select(kind, d)
  {
    SelectConcat(kind, a + [o] + b, d);
    SelectConcat(kind, a + [o], b);
    SelectConcat(kind, a, [o]);
    SelectOne(kind, o);
  }

  function CallsOf(c: Clock): seq<Output> {
    if c.rate > 0 then ForwardCalls(c.now) else BackwardCalls(c.now)
  }

  function ReportsOf(c: Clock): seq<Output> {
    if c.Sends() && c.cooldown == 0 then [ReportTime(Stepped(c).hour, Stepped(c).minute)] else []
  }

  /** What one fast minute contributes to each projection. */
  function PerMinute(kind: Kind, c: Clock): seq<Output> {
    match kind
    case TimeChanges => [OnTimeChanged(Stepped(c))]
    case Reports => ReportsOf(c)
    case RolloverSends => if DatesOf(c) == [] then [] else [DateRollover]
    case MidnightCalls => Select(MidnightCalls, CallsOf(c))
    case DateSends => DatesOf(c)
    case ClockEvents => CallsOf(c) + [OnTimeChanged(Stepped(c))] + DatesOf(c)
    case ProducerSends => ReportsOf(c) + DatesOf(c)
    case _ => []
  }

  function DatesOf(c: Clock): seq<Output> {
    if c.Sends() && c.now.hour == 23 && Stepped(c).hour == 0
    then [DateRollover, ReportYear(Stepped(c).year), ReportDate(Stepped(c).month, Stepped(c).day)] else []
  }

  lemma {:induction false} SelectAll(kind: Kind, s: seq<Output>)
    requires forall i :: 0 <= i < |s| ==> Is(kind, s[i])
    ensures Select(kind, s) == s
  {
    if s != [] {
      SelectAll(kind, s[..|s| - 1]);
      assert s == s[..|s| - 1] + [s[|s| - 1]];
    }
  }

  lemma MinuteParts(kind: Kind, c: Clock)
    ensures Select(kind, MinuteOutputs(c)) == Select(kind, CallsOf(c)) + Select(kind, [OnTimeChanged(Stepped(c))])
                                              + Select(kind, ReportsOf(c)) + Select(kind, DatesOf(c))
  {
    hide Select, Stepped, Clock.Sends, ForwardCalls, BackwardCalls;
    assert MinuteOutputs(c) == CallsOf(c) + [OnTimeChanged(Stepped(c))] + ReportsOf(c) + DatesOf(c);
    SelectParts(kind, CallsOf(c), OnTimeChanged(Stepped(c)), ReportsOf(c), DatesOf(c));
    SelectOne(kind, OnTimeChanged(Stepped(c)));
  }

  lemma SelectDates(kind: Kind, c: Clock)
    ensures Select(kind, DatesOf(c)) == if kind == DateSends || kind == ClockEvents || kind == ProducerSends then DatesOf(c)
                                        else if kind == RolloverSends && DatesOf(c) != [] then [DateRollover] else []
  {
    hide Select, Stepped, Clock.Sends;
    SelectShort(kind, DatesOf(c));
  }

  lemma SelectReports(kind: Kind, c: Clock)
    ensures Select(kind, ReportsOf(c)) == if kind == Reports || kind == ProducerSends then ReportsOf(c) else []
  {
    hide Select, Stepped, Clock.Sends;
    SelectShort(kind, ReportsOf(c));
  }

  lemma SelectCalls(kind: Kind, c: Clock)
    requires kind != MidnightCalls
    ensures Select(kind, CallsOf(c)) == if kind == ClockEvents then CallsOf(c) else []
  {
    hide Select, CallsOf;
    CallsAreCallbacks(c);
    if kind == ClockEvents { SelectAll(kind, CallsOf(c)); } else { SelectNone(kind, CallsOf(c)); }
  }

  lemma MinuteSelects(kind: Kind, c: Clock)
    ensures Select(kind, MinuteOutputs(c)) == PerMinute(kind, c)
  {
    hide Select, Stepped, Clock.Sends, MinuteOutputs, CallsOf, DatesOf, ReportsOf;
    MinuteParts(kind, c);
    SelectOne(kind, OnTimeChanged(Stepped(c)));
    SelectDates(kind, c);
    SelectReports(kind, c);
    if kind != MidnightCalls { SelectCalls(kind, c); }
  }

  /** Draining announces every minute once, in order. */
  lemma {:induction false} DrainAnnounces(c: Clock)
    ensures Select(TimeChanges, DrainOutputs(c)) ==
            Changes(Minutes(c.rate > 0, c.accumulator / MINUTE_THRESHOLD, c.now))
    decreases c.accumulator
  {
    hide Calendar.Forward, Calendar.Backward, MinuteOutputs;
    if c.accumulator >= MINUTE_THRESHOLD {
      var s := MinuteStep(c);
      var f := c.rate > 0;
      DrainAnnounces(s);
      MinuteSelects(TimeChanges, c);
      SelectConcat(TimeChanges, MinuteOutputs(c), DrainOutputs(s));
      var n := s.accumulator / MINUTE_THRESHOLD;
      DivModUnique(c.accumulator, MINUTE_THRESHOLD, n + 1, s.accumulator % MINUTE_THRESHOLD);
      StepsOne(f, c.now);
      var whole := Minutes(f, n + 1, c.now);
      var rest := Minutes(f, n, s.now);
      forall i | 0 <= i < n
        ensures rest[i] == whole[i + 1]
      {
        StepsSplit(f, 1, i + 1, c.now);
      }
      assert Changes(whole) == [OnTimeChanged(whole[0])] + Changes(rest);
    }
  }

  // ---- Midnights ----

  /** Midnights met in n steps that start from minute m of the day. */
  function Midnights(forward: bool, n: nat, m: nat): int {
    if forward then (m + n) / MINUTES_PER_DAY else (MINUTES_PER_DAY - 1 - m + n) / MINUTES_PER_DAY
  }

  function MinuteAfter(forward: bool, n: int, m: nat): nat {
    (m + Signed(forward, n)) % MINUTES_PER_DAY
  }

  lemma MidnightsSplit(f: bool, a: nat, b: nat, m: nat)
    requires m < MINUTES_PER_DAY
    ensures Midnights(f, a + b, m) == Midnights(f, a, m) + Midnights(f, b, MinuteAfter(f, a, m))
    ensures MinuteAfter(f, a + b, m) == MinuteAfter(f, b, MinuteAfter(f, a, m))
  {
    if f {
      ModAdd(m + a, b, 1440);
    } else {
      ModAdd(m - a, Signed(false, b), 1440);
      var w := 1439 - m;
      assert (m - a) % 1440 == 1439 - (w + a) % 1440 by {
        DivModUnique(m - a, 1440, -((w + a) / 1440), 1439 - (w + a) % 1440);
      }
    }
  }

  lemma PreviousDayTime(t: DateTime)
    ensures PreviousDay(t).hour == t.hour && PreviousDay(t).minute == t.minute
  {
  }

  lemma NextDayTime(t: DateTime)
    ensures NextDay(t).hour == t.hour && NextDay(t).minute == t.minute
  {
    hide Calendar.DaysInMonth;
  }

  lemma ForwardOverDay(t: DateTime)
    requires t.OnDial()
    ensures var s := Forward(t);
            && s.OnDial() && s.MinuteOfDay() == MinuteAfter(true, 1, t.MinuteOfDay())
            && (t.hour == 23 && s.hour == 0 <==> Midnights(true, 1, t.MinuteOfDay()) == 1)
  {
    hide Calendar.NextDay;
    NextDayTime(t.(minute := 0, hour := 0));
  }

  lemma BackwardOverDay(t: DateTime)
    requires t.OnDial()
    ensures var s := Backward(t);
            && s.OnDial() && s.MinuteOfDay() == MinuteAfter(false, 1, t.MinuteOfDay())
            && !(t.hour == 23 && s.hour == 0)
  {
    hide Calendar.PreviousDay;
    PreviousDayTime(t.(minute := 59, hour := 23));
  }

  lemma TimeFields(t: DateTime)
    requires t.OnDial()
    ensures t.hour < 24 && t.minute < 60
  {
  }

  /** Stepping keeps a time of day, whatever the date. */
  lemma {:induction false} StepsOnDial(forward: bool, n: nat, t: DateTime)
    requires t.OnDial()
    ensures Steps(forward, n, t).OnDial()
  {
    hide Calendar.Forward, Calendar.Backward, DateTime.OnDial;
    if n > 0 {
      StepsOnDial(forward, n - 1, t);
      ForwardOverDay(Steps(forward, n - 1, t));
      BackwardOverDay(Steps(forward, n - 1, t));
    }
  }

  lemma CallsMidnight(t: DateTime)
    requires t.OnDial()
    ensures |Select(MidnightCalls, ForwardCalls(t))| == Midnights(true, 1, t.MinuteOfDay())
    ensures |Select(MidnightCalls, BackwardCalls(t))| == Midnights(false, 1, t.MinuteOfDay())
  {
    hide Calendar.DaysInMonth, Calendar.Forward, Calendar.Backward;
    ForwardCallsMidnight(t);
    BackwardCallsMidnight(t);
  }

  lemma ForwardCallsMidnight(t: DateTime)
    requires t.hour < 24 && t.minute < 60
    ensures |Select(MidnightCalls, ForwardCalls(t))| == Midnights(true, 1, t.MinuteOfDay())
  {
    hide Calendar.DaysInMonth, Calendar.Forward, Calendar.NextDay, Select;
    var last := [OnTimeReceived(Forward(t))];
    SelectNone(MidnightCalls, last);
    if t.MinuteOfDay() == 1439 {
      var midnight := t.(minute := 0, hour := 0);
      SelectNone(MidnightCalls, NextDayCalls(midnight));
      SelectConcat(MidnightCalls, [OnDateRollover(midnight)] + NextDayCalls(midnight), last);
      SelectConcat(MidnightCalls, [OnDateRollover(midnight)], NextDayCalls(midnight));
      SelectOne(MidnightCalls, OnDateRollover(midnight));
    } else {
      assert [] + last == last;
    }
  }

  lemma BackwardCallsMidnight(t: DateTime)
    requires t.hour < 24 && t.minute < 60
    ensures |Select(MidnightCalls, BackwardCalls(t))| == Midnights(false, 1, t.MinuteOfDay())
  {
    hide Calendar.DaysInMonth, Calendar.Backward, Calendar.PreviousDay, Select;
    var last := [OnTimeReceived(Backward(t))];
    SelectNone(MidnightCalls, last);
    if t.MinuteOfDay() == 0 {
      var midnight := t.(minute := 59, hour := 23);
      SelectNone(MidnightCalls, PreviousDayCalls(midnight));
      SelectConcat(MidnightCalls, [OnDateRollover(midnight)] + PreviousDayCalls(midnight), last);
      SelectConcat(MidnightCalls, [OnDateRollover(midnight)], PreviousDayCalls(midnight));
      SelectOne(MidnightCalls, OnDateRollover(midnight));
    } else {
      assert [] + last == last;
    }
  }

  /** Draining meets the midnights of its minutes: a callback for each, and a send for each crossed forward. */
  lemma {:induction false} DrainMidnights(c: Clock)
    requires c.now.OnDial()
    ensures var n, m, f := c.accumulator / MINUTE_THRESHOLD, c.now.MinuteOfDay(), c.rate > 0;
            && Drain(c).now.OnDial()
            && Drain(c).now.MinuteOfDay() == MinuteAfter(f, n, m)
            && |Select(MidnightCalls, DrainOutputs(c))| == Midnights(f, n, m)
            && |Select(RolloverSends, DrainOutputs(c))| == if c.Sends() && f then Midnights(f, n, m) else 0
    decreases c.accumulator
  {
    hide Calendar.Forward, Calendar.Backward, MinuteOutputs, DateTime.OnDial, Select;
    TimeFields(c.now);
    if c.accumulator < MINUTE_THRESHOLD {
      SelectNone(MidnightCalls, []);
      SelectNone(RolloverSends, []);
    } else {
      var s := MinuteStep(c);
      ForwardOverDay(c.now);
      BackwardOverDay(c.now);
      CallsMidnight(c.now);
      DrainMidnights(s);
      TimeFields(s.now);
      MinuteSelects(MidnightCalls, c);
      MinuteSelects(RolloverSends, c);
      SelectConcat(MidnightCalls, MinuteOutputs(c), DrainOutputs(s));
      SelectConcat(RolloverSends, MinuteOutputs(c), DrainOutputs(s));
      var n := s.accumulator / MINUTE_THRESHOLD;
      DivModUnique(c.accumulator, MINUTE_THRESHOLD, n + 1, s.accumulator % MINUTE_THRESHOLD);
      MidnightsSplit(c.rate > 0, 1, n, c.now.MinuteOfDay());
    }
  }

  // ---- What a tick leaves alone ----

  /** The configuration a tick never touches. */
  ghost predicate SameSetup(c: Clock, d: Clock) {
    && d.clockId == c.clockId && d.rate == c.rate && d.running == c.running && d.node == c.node
    && d.isConsumer == c.isConsumer && d.isProducer == c.isProducer && d.isAllocated == c.isAllocated
  }

  lemma {:induction false} DrainCooldown(c: Clock)
    requires c.cooldown <= REPORT_COOLDOWN_TICKS
    ensures Drain(c).cooldown == if c.Sends() && c.cooldown == 0 && c.accumulator >= MINUTE_THRESHOLD
                                 then REPORT_COOLDOWN_TICKS else c.cooldown
    decreases c.accumulator
  {
    hide Stepped;
    if c.accumulator >= MINUTE_THRESHOLD {
      DrainCooldown(MinuteStep(c));
    }
  }

  lemma AdvanceKeeps(c: Clock, elapsed: nat)
    requires c.Valid() && elapsed < BYTE
    ensures var a := Advance(c, elapsed);
            && a.Valid() && a == c.(accumulator := a.accumulator, now := a.now, cooldown := a.cooldown)
  {
    hide DateTime.OnDial;
    AdvanceKeepsFlags(c, elapsed);
    if c.Advances() {
      var f := Filled(c, elapsed);
      DrainCounts(f);
      DrainCooldown(f);
      StepsOnDial(c.rate > 0, f.accumulator / MINUTE_THRESHOLD, c.now);
    }
  }

  /** The producer's timers and replies touch neither the time nor the setup. */
  ghost predicate OnlyTimers(c: Clock, d: Clock) {
    && SameSetup(c, d) && d.now == c.now && d.accumulator == c.accumulator
    && (c.Valid() ==> d.Valid())
  }

  lemma CoolAndSyncKeep(c: Clock, elapsed: nat)
    ensures OnlyTimers(c, Sync(Cool(c, elapsed), elapsed))
  {
    hide DateTime.OnDial;
    assert OnlyTimers(c, Cool(c, elapsed));
  }

  lemma StartupAndReplyKeep(c: Clock, runState: nat, accept: bool)
    ensures OnlyTimers(c, ReplyStep(Startup(c, runState), accept))
  {
    hide DateTime.OnDial;
    assert OnlyTimers(c, Startup(c, runState));
  }

  /** A poll keeps a slot valid and its setup; its time is that of the advance. */
  lemma PollKeeps(c: Clock, elapsed: nat, runState: nat, accept: bool)
    requires c.Valid() && elapsed < BYTE
    ensures var p := Polled(c, elapsed, runState, accept);
            && p.Valid() && SameSetup(c, p)
            && (c.isAllocated && elapsed > 0 ==>
                  p.now == Advance(c, elapsed).now && p.accumulator == Advance(c, elapsed).accumulator)
            && (c.isAllocated && elapsed == 0 ==> p == c)
  {
    hide Clock.Valid, Advance, Cool, Sync, Startup, ReplyStep;
    AdvanceKeeps(c, elapsed);
    var a := Advance(c, elapsed);
    CoolAndSyncKeep(a, elapsed);
    StartupAndReplyKeep(Sync(Cool(a, elapsed), elapsed), runState, accept);
  }

  lemma {:induction false} RunKeeps(c: Clock, last: nat, polls: seq<Poll>, k: nat)
    requires c.Valid() && k <= |polls|
    ensures After(c, last, polls, k).Valid() && SameSetup(c, After(c, last, polls, k))
  {
    hide Polled, Clock.Valid;
    if k > 0 {
      RunKeeps(c, last, polls, k - 1);
      PollKeeps(After(c, last, polls, k - 1), Elapsed(last, polls, k - 1), polls[k - 1].runState, polls[k - 1].accept);
    }
  }

  // ---- Fast time over whole runs ----

  /** The accumulator's content had it never been drained. */
  function Fed(c: Clock, ticks: nat): nat {
    c.accumulator + Fill(c.rate, ticks)
  }

  function Fill(rate: int, ticks: nat): nat {
    100 * (Abs(rate) * ticks)
  }

  lemma FillSplit(rate: int, before: nat, more: nat)
    ensures Fill(rate, before + more) == Fill(rate, before) + Fill(rate, more)
    ensures Fill(rate, 0) == 0
  {
    assert Abs(rate) * (before + more) == Abs(rate) * before + Abs(rate) * more;
    assert Abs(rate) * 0 == 0;
  }

  lemma {:induction false} MinutesSplit(forward: bool, m: nat, n: nat, t: DateTime)
    ensures Minutes(forward, m + n, t) == Minutes(forward, m, t) + Minutes(forward, n, Steps(forward, m, t))
  {
    forall i | 0 <= i < n
      ensures Minutes(forward, m + n, t)[m + i] == Minutes(forward, n, Steps(forward, m, t))[i]
    {
      StepsSplit(forward, m, i + 1, t);
    }
  }

  lemma ChangesConcat(a: seq<DateTime>, b: seq<DateTime>)
    ensures Changes(a + b) == Changes(a) + Changes(b)
  {
  }

  /** Carrying the remainder from one batch into the next loses nothing. */
  lemma CarryRemainder(total: nat, more: nat)
    ensures (total % MINUTE_THRESHOLD + more) % MINUTE_THRESHOLD == (total + more) % MINUTE_THRESHOLD
    ensures (total % MINUTE_THRESHOLD + more) / MINUTE_THRESHOLD + total / MINUTE_THRESHOLD
            == (total + more) / MINUTE_THRESHOLD
  {
  }

  /** d is c after n whole minutes, each announced once and in order, with the given remainder left. */
  ghost predicate TimeCounted(c: Clock, n: nat, d: Clock, out: seq<Output>) {
    && d.now == Steps(c.rate > 0, n, c.now)
    && Select(TimeChanges, out) == Changes(Minutes(c.rate > 0, n, c.now))
  }

  /** A callback at every midnight, and a Date Rollover sent at every midnight a producer crosses forward. */
  ghost predicate MidnightsCounted(c: Clock, n: nat, d: Clock, out: seq<Output>) {
    var f, m := c.rate > 0, c.now.MinuteOfDay();
    && d.now.MinuteOfDay() == MinuteAfter(f, n, m)
    && |Select(MidnightCalls, out)| == Midnights(f, n, m)
    && |Select(RolloverSends, out)| == if c.Sends() && f then Midnights(f, n, m) else 0
  }

  /** d is c after its accumulator was fed up to fed: the whole minutes counted, the remainder kept. */
  ghost predicate Counted(c: Clock, fed: nat, d: Clock, out: seq<Output>) {
    var n := fed / MINUTE_THRESHOLD;
    && d.accumulator == fed % MINUTE_THRESHOLD
    && TimeCounted(c, n, d, out)
    && MidnightsCounted(c, n, d, out)
  }

  lemma CountedNothing(c: Clock)
    requires c.Valid()
    ensures Counted(c, c.accumulator, c, [])
  {
    forall kind { SelectNone(kind, []); }
  }

  lemma PollCounts(c: Clock, elapsed: nat, runState: nat, accept: bool)
    requires c.Valid() && c.isAllocated && c.Advances() && elapsed < BYTE
    ensures Counted(c, Fed(c, elapsed), Polled(c, elapsed, runState, accept),
                    PolledOutputs(c, elapsed, runState, accept))
  {
    hide Calendar.Forward, Calendar.Backward, Drain, DrainOutputs, DateTime.OnDial, Select, BeforeReply;
    PollKeeps(c, elapsed, runState, accept);
    if elapsed == 0 {
      FillSplit(c.rate, 0, 0);
      CountedNothing(c);
    } else {
      var d := Filled(c, elapsed);
      NoOverflow(c, elapsed);
      DrainCounts(d);
      DrainAnnounces(d);
      DrainMidnights(d);
      var b := BeforeReply(c, elapsed, runState);
      forall kind {
        SelectConcat(kind, DrainOutputs(d), ReplyOutputs(b, accept));
      }
      forall kind | kind == TimeChanges || kind == MidnightCalls || kind == RolloverSends {
        SelectNone(kind, ReplyOutputs(b, accept));
      }
    }
  }

  lemma TimeTransitive(c: Clock, m: nat, b: Clock, first: seq<Output>, n: nat, d: Clock, second: seq<Output>)
    requires TimeCounted(c, m, b, first) && (b.rate > 0) == (c.rate > 0) && TimeCounted(b, n, d, second)
    ensures TimeCounted(c, m + n, d, first + second)
  {
    hide Select;
    var f := c.rate > 0;
    StepsSplit(f, m, n, c.now);
    MinutesSplit(f, m, n, c.now);
    ChangesConcat(Minutes(f, m, c.now), Minutes(f, n, b.now));
    SelectConcat(TimeChanges, first, second);
  }

  lemma MidnightsTransitive(c: Clock, m: nat, b: Clock, first: seq<Output>, n: nat, d: Clock, second: seq<Output>)
    requires c.now.MinuteOfDay() < MINUTES_PER_DAY
    requires MidnightsCounted(c, m, b, first) && (b.rate > 0) == (c.rate > 0) && b.Sends() == c.Sends()
    requires MidnightsCounted(b, n, d, second)
    ensures MidnightsCounted(c, m + n, d, first + second)
  {
    hide Select, Midnights, MinuteAfter;
    MidnightsSplit(c.rate > 0, m, n, c.now.MinuteOfDay());
    SelectConcat(MidnightCalls, first, second);
    SelectConcat(RolloverSends, first, second);
  }

  /** Two stretches of counting make one. */
  lemma CountedTransitive(c: Clock, fed: nat, b: Clock, first: seq<Output>, more: nat, d: Clock, second: seq<Output>)
    requires Counted(c, fed, b, first) && SameSetup(c, b) && c.Valid()
    requires Counted(b, b.accumulator + more, d, second)
    ensures Counted(c, fed + more, d, first + second)
  {
    hide TimeCounted, MidnightsCounted;
    var m, n := fed / MINUTE_THRESHOLD, (b.accumulator + more) / MINUTE_THRESHOLD;
    CarryRemainder(fed, more);
    TimeFields(c.now);
    TimeTransitive(c, m, b, first, n, d, second);
    MidnightsTransitive(c, m, b, first, n, d, second);
  }

  lemma {:induction false} TimesAscend(start: nat, last: nat, polls: seq<Poll>, times: seq<nat>, k: nat)
    requires Faithful(start, last, polls, times) && k <= |polls|
    ensures start <= TimeBefore(start, times, k)
  {
    if k > 0 { TimesAscend(start, last, polls, times, k - 1); }
  }

  /** The next poll extends a count. */
  lemma PollExtends(c: Clock, ticks: nat, b: Clock, out: seq<Output>, elapsed: nat, p: Poll)
    requires Counted(c, Fed(c, ticks), b, out) && SameSetup(c, b) && c.isAllocated && c.Advances()
    requires c.Valid() && b.Valid() && elapsed < BYTE
    ensures Counted(c, Fed(c, ticks + elapsed), Polled(b, elapsed, p.runState, p.accept),
                    out + PolledOutputs(b, elapsed, p.runState, p.accept))
  {
    hide Counted, Polled, PolledOutputs, Fill, Clock.Valid;
    PollCounts(b, elapsed, p.runState, p.accept);
    FillSplit(c.rate, ticks, elapsed);
    CountedTransitive(c, Fed(c, ticks), b, out, Fill(c.rate, elapsed),
                      Polled(b, elapsed, p.runState, p.accept), PolledOutputs(b, elapsed, p.runState, p.accept));
  }

  /**
   Over any run of polls less than 256 ticks apart, however batched and however often the 8-bit
   tick wraps, a running clock moves exactly the whole minutes its rate and the true elapsed time
   call for, keeps the remainder, and announces each minute once, in order.
   */
  lemma {:induction false} MinutesOverRun(c: Clock, start: nat, last: nat, polls: seq<Poll>, times: seq<nat>, k: nat)
    requires c.Valid() && c.isAllocated && (c.isConsumer || c.isProducer) && c.running && c.rate != 0
    requires Faithful(start, last, polls, times) && k <= |polls| == |times|
    ensures start <= TimeBefore(start, times, k)
    ensures Counted(c, Fed(c, TimeBefore(start, times, k) - start), After(c, last, polls, k), Trace(c, last, polls, k))
    ensures Fed(c, TimeBefore(start, times, k) - start) / MINUTE_THRESHOLD
            == (c.accumulator + 100 * (Abs(c.rate) * (TimeBefore(start, times, k) - start))) / 240000
  {
    hide Counted, Polled, PolledOutputs, Clock.Valid, SameSetup, Faithful, U8;
    TimesAscend(start, last, polls, times, k);
    if k == 0 {
      FedNothing(c);
      CountedNothing(c);
    } else {
      TimesAscend(start, last, polls, times, k - 1);
      MinutesOverRun(c, start, last, polls, times, k - 1);
      RunKeeps(c, last, polls, k - 1);
      ElapsedIsTrue(start, last, polls, times, k - 1);
      PollExtends(c, TimeBefore(start, times, k - 1) - start, After(c, last, polls, k - 1),
                  Trace(c, last, polls, k - 1), Elapsed(last, polls, k - 1), polls[k - 1]);
    }
  }

  lemma FedNothing(c: Clock)
    ensures Fed(c, 0) == c.accumulator
  {
    FillSplit(c.rate, 0, 0);
  }

  lemma {:induction false} OppositeCounts(c: Clock, out: Clock, back: Clock, ticks: nat,
                                        t1: seq<Output>, t2: seq<Output>)
    requires c.Valid() && c.now.Valid() && c.rate != 0
    requires Counted(c, Fed(c, ticks), out, t1)
    requires Counted(out.(rate := -c.rate), Fed(out.(rate := -c.rate), ticks), back, t2)
    ensures back.now == c.now || back.now == Steps(true, 1, c.now) || back.now == Steps(false, 1, c.now)
  {
    hide Steps, Select, DateTime.OnDial, DateTime.Valid, MidnightsCounted;
    var f := c.rate > 0;
    var x := Fill(c.rate, ticks);
    assert Fill(-c.rate, ticks) == x;
    var n, m := (c.accumulator + x) / MINUTE_THRESHOLD, (out.accumulator + x) / MINUTE_THRESHOLD;
    assert n - 1 <= m <= n + 1;
    assert back.now == Steps(!f, m, Steps(f, n, c.now));
    StepsUndo(f, n, c.now);
    if m == n + 1 {
      StepsSplit(!f, n, 1, Steps(f, n, c.now));
    } else if m == n - 1 {
      StepsSplit(f, 1, m, c.now);
      StepsCount(f, 1, c.now);
      StepsUndo(f, m, Steps(f, 1, c.now));
    }
  }

  /**
   As many ticks at the opposite rate bring a clock with a calendar date back to where it was, to within one minute:
   the carried remainder decides whether it ends on the start or on a neighbour of it.
   */
  lemma ThereAndBack(c: Clock, start: nat, last: nat, polls: seq<Poll>, times: seq<nat>,
                     turn: nat, turnLast: nat, backPolls: seq<Poll>, backTimes: seq<nat>)
    requires c.Valid() && c.now.Valid() && c.isAllocated && c.Advances() && c.rate != -0x8000
    requires Faithful(start, last, polls, times) && |polls| == |times|
    requires Faithful(turn, turnLast, backPolls, backTimes) && |backPolls| == |backTimes|
    requires TimeBefore(start, times, |times|) - start == TimeBefore(turn, backTimes, |backTimes|) - turn
    ensures var out := After(c, last, polls, |polls|).(rate := -c.rate);
            var back := After(out, turnLast, backPolls, |backPolls|).now;
            back == c.now || back == Forward(c.now) || back == Backward(c.now)
  {
    hide Counted, Polled, PolledOutputs, DateTime.OnDial, DateTime.Valid, Faithful, U8;
    RunKeeps(c, last, polls, |polls|);
    var out := After(c, last, polls, |polls|);
    var reversed := out.(rate := -c.rate);
    assert reversed.Valid() && reversed.Advances();
    MinutesOverRun(c, start, last, polls, times, |polls|);
    MinutesOverRun(reversed, turn, turnLast, backPolls, backTimes, |backPolls|);
    OppositeCounts(c, out, After(reversed, turnLast, backPolls, |backPolls|),
                   TimeBefore(start, times, |times|) - start,
                   Trace(c, last, polls, |polls|), Trace(reversed, turnLast, backPolls, |backPolls|));
    StepsOne(true, c.now);
    StepsOne(false, c.now);
  }
}
