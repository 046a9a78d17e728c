/** Light groups and strings switched by events, and the schedule that switches groups by the fast clock. */
module Lights {
  import opened Words
  import opened Calendar
  import opened FastClock
  import opened ClockRuns

  const MAX_GROUPS: nat := 6
  const MAX_STRINGS: nat := 4
  const LUMINANCE_EVENTS: nat := 2
  const GROUP_EVENTS: nat := 12
  const EVENTS: nat := 42

  /** Configured on and off times of a group (bytes of configuration memory). */
  datatype Group = Group(onHour: nat, onMinute: nat, offHour: nat, offMinute: nat)
  {
    function On(): nat { onHour * 60 + onMinute }

    function Off(): nat { offHour * 60 + offMinute }

    /** Two different times of day. */
    predicate Valid() {
      && onHour < 24 && onMinute < 60 && offHour < 24 && offMinute < 60
      && On() != Off()
    }
  }

  // ---- Events ----

  /** What an event index from 0 to 41 stands for. */
  datatype LightEvent =
    | Luminance(high: bool)
    | GroupSwitch(group: nat, on: bool)
    | StringEvent(line: nat, action: nat)

  function Decode(index: nat): LightEvent {
    if index < LUMINANCE_EVENTS then Luminance(index == 0)
    else if index - LUMINANCE_EVENTS < GROUP_EVENTS then
      GroupSwitch((index - LUMINANCE_EVENTS) / 2, (index - LUMINANCE_EVENTS + 1) % 2 == 1)
    else
      StringEvent((index - LUMINANCE_EVENTS - GROUP_EVENTS) / 7, (index - LUMINANCE_EVENTS - GROUP_EVENTS) % 7)
  }

  /** Each event index is the index of what it decodes to, so no two events collide. */
  function Encode(e: LightEvent): nat {
    match e
    case Luminance(high) => if high then 0 else 1
    case GroupSwitch(g, on) => LUMINANCE_EVENTS + 2 * g + if on then 0 else 1
    case StringEvent(s, a) => LUMINANCE_EVENTS + GROUP_EVENTS + 7 * s + a
  }

  lemma DecodeEncode(index: nat)
    requires index < EVENTS
    ensures Encode(Decode(index)) == index
    ensures match Decode(index)
            case Luminance(_) => true
            case GroupSwitch(g, _) => g < MAX_GROUPS
            case StringEvent(s, a) => s < MAX_STRINGS && a < 7
  {
  }

  /** All that events switch: the group flags, and of each string whether it is on, runs effects and is dimmed. */
  datatype Panel = Panel(groups: seq<bool>, on: seq<bool>, effects: seq<bool>, dim: seq<bool>)
  {
    predicate Valid() {
      |groups| == MAX_GROUPS && |on| == |effects| == |dim| == MAX_STRINGS
    }
  }

  /** The panel after an event; n strings are configured. */
  function Pressed(p: Panel, n: nat, index: nat): (q: Panel)
    requires p.Valid() && index < EVENTS
    ensures q.Valid()
  {
    match Decode(index)
    case Luminance(high) =>
      p.(on := seq(MAX_STRINGS, s requires 0 <= s < MAX_STRINGS => s < n || p.on[s]),
         dim := seq(MAX_STRINGS, s requires 0 <= s < MAX_STRINGS => if s < n then !high else p.dim[s]))
    case GroupSwitch(g, on) => DecodeEncode(index); p.(groups := p.groups[g := on])
    case StringEvent(s, a) =>
      DecodeEncode(index);
      p.(on := p.on[s := StringOnAfter(p.on[s], a)],
         effects := p.effects[s := EffectsOnAfter(p.effects[s], a)],
         dim := p.dim[s := if a == 6 then !p.dim[s] else p.dim[s]])
  }

  /** The schedule's effect on one group's flag when the clock shows hour:minute. */
  function Scheduled(g: Group, flag: bool, hour: nat, minute: nat): bool {
    if g.On() == g.Off() then flag
    else if hour == g.offHour && minute == g.offMinute then false
    else if hour == g.onHour && minute == g.onMinute then true
    else flag
  }

  /** The three ranges of event indices. */
  lemma DecodeCases(index: nat)
    requires index < EVENTS
    ensures index < 2 ==> Decode(index) == Luminance(index == 0)
    ensures 2 <= index < 14 ==>
              (index - 2) / 2 < MAX_GROUPS && Decode(index) == GroupSwitch((index - 2) / 2, (index - 1) % 2 == 1)
    ensures 14 <= index ==>
              (index - 14) / 7 < MAX_STRINGS && Decode(index) == StringEvent((index - 14) / 7, (index - 14) % 7)
  {
  }

  class LightControl {
    const groupState: array<bool>
    const stringOn: array<bool>
    const effectsOn: array<bool>
    const dimOn: array<bool>
    const numberOfStrings: nat

    ghost predicate Valid() {
      && groupState.Length == MAX_GROUPS
      && stringOn.Length == effectsOn.Length == dimOn.Length == MAX_STRINGS
      && groupState != stringOn && groupState != effectsOn && groupState != dimOn
      && stringOn != effectsOn && stringOn != dimOn && effectsOn != dimOn
      && numberOfStrings <= MAX_STRINGS
    }

    function Value(): (p: Panel)
      requires Valid()
      reads groupState, stringOn, effectsOn, dimOn
      ensures p.Valid()
    {
      Panel(groupState[..], stringOn[..], effectsOn[..], dimOn[..])
    }

    /** All strings on with effects, undimmed; all groups on. */
    constructor (numberOfStrings: nat)
      requires numberOfStrings <= MAX_STRINGS
      ensures Valid() && groupState[..] == seq(MAX_GROUPS, i => true)
      ensures stringOn[..] == effectsOn[..] == seq(MAX_STRINGS, i => true)
      ensures dimOn[..] == seq(MAX_STRINGS, i => false)
    {
      this.numberOfStrings := numberOfStrings;
      groupState := new bool[MAX_GROUPS](i => true);
      stringOn := new bool[MAX_STRINGS](i => true);
      effectsOn := new bool[MAX_STRINGS](i => true);
      dimOn := new bool[MAX_STRINGS](i => false);
    }

    method PixelCallback(callin: nat)
      requires Valid() && callin < EVENTS
      modifies groupState, stringOn, effectsOn, dimOn
      ensures Value() == Pressed(old(Value()), numberOfStrings, callin)
    {
      hide StringOnAfter, EffectsOnAfter, Decode;
      DecodeCases(callin);
      var index := callin;
      if index < LUMINANCE_EVENTS {
        if index == 0 { Dimmer(false); }
        if index == 1 { Dimmer(true); }
      } else {
        index := index - LUMINANCE_EVENTS;
        if index < GROUP_EVENTS {
          groupState[index / 2] := (index + 1) % 2 == 1;
        } else {
          var sindex := index - GROUP_EVENTS;
          StringAction(sindex / 7, sindex % 7);
        }
      }
    }

    method StringAction(i: nat, action: nat)
      requires Valid() && i < MAX_STRINGS && action < 7
      modifies stringOn, effectsOn, dimOn
      ensures stringOn[..] == old(stringOn[..])[i := StringOnAfter(old(stringOn[i]), action)]
      ensures effectsOn[..] == old(effectsOn[..])[i := EffectsOnAfter(old(effectsOn[i]), action)]
      ensures dimOn[..] == old(dimOn[..])[i := if action == 6 then !old(dimOn[i]) else old(dimOn[i])]
    {
      match action {
        case 0 => stringOn[i] := true;
        case 1 => stringOn[i] := false;
        case 2 => stringOn[i] := !stringOn[i];
        case 3 => effectsOn[i] := true;
        case 4 => effectsOn[i] := false;
        case 5 => effectsOn[i] := !effectsOn[i];
        case 6 =>
          stringOn[i] := true;
          dimOn[i] := !dimOn[i];
      }
    }

    /** DimmerHigh and DimmerLow: switching a string's luminance also turns it on. */
    method Dimmer(dim: bool)
      requires Valid()
      modifies stringOn, dimOn
      ensures forall s :: 0 <= s < MAX_STRINGS ==>
                && stringOn[s] == (s < numberOfStrings || old(stringOn[s]))
                && dimOn[s] == if s < numberOfStrings then dim else old(dimOn[s])
    {
      for i := 0 to numberOfStrings
        invariant forall s :: 0 <= s < MAX_STRINGS ==>
                    && stringOn[s] == (s < i || old(stringOn[s]))
                    && dimOn[s] == if s < i then dim else old(dimOn[s])
      {
        stringOn[i] := false;
        dimOn[i] := dim;
        stringOn[i] := true;
      }
    }

    /** The clock callback: each group's schedule is applied to its own flag. */
    method OnTimeChanged(groups: seq<Group>, hour: nat, minute: nat)
      requires Valid() && |groups| == MAX_GROUPS
      modifies groupState, stringOn, effectsOn, dimOn
      ensures forall g :: 0 <= g < MAX_GROUPS ==>
                groupState[g] == Scheduled(groups[g], old(groupState[g]), hour, minute)
      ensures stringOn[..] == old(stringOn[..]) && effectsOn[..] == old(effectsOn[..]) && dimOn[..] == old(dimOn[..])
    {
      for i := 0 to MAX_GROUPS
        invariant forall g :: 0 <= g < i ==>
                    groupState[g] == Scheduled(groups[g], old(groupState[g]), hour, minute)
        invariant forall g :: i <= g < MAX_GROUPS ==> groupState[g] == old(groupState[g])
        invariant stringOn[..] == old(stringOn[..])
        invariant effectsOn[..] == old(effectsOn[..]) && dimOn[..] == old(dimOn[..])
      {
        var c := groups[i];
        if c.onHour * 60 + c.onMinute != c.offHour * 60 + c.offMinute {
          if hour == c.onHour && minute == c.onMinute {
            PixelCallback(2 + 2 * i);
          }
          if hour == c.offHour && minute == c.offMinute {
            PixelCallback(2 + 2 * i + 1);
          }
        }
      }
    }
  }

  function StringOnAfter(on: bool, action: nat): bool {
    match action
    case 0 => true
    case 1 => false
    case 2 => !on
    case 6 => true
    case _ => on
  }

  function EffectsOnAfter(on: bool, action: nat): bool {
    match action
    case 3 => true
    case 4 => false
    case 5 => !on
    case _ => on
  }

  // ---- The schedule over time ----

  /** The cyclic interval of the day from a up to but excluding b. */
  predicate InCycle(a: int, b: int, m: int) {
    if a < b then a <= m < b else m >= a || m < b
  }

  /** The minutes a group should be lit. */
  predicate Lit(g: Group, m: nat) {
    InCycle(g.onHour * 60 + g.onMinute, g.offHour * 60 + g.offMinute, m)
  }

  /** The minutes a group is lit when time runs backward: after Off downwards to On, both ends swapped. */
  predicate LitBackward(g: Group, m: nat) {
    !InCycle(g.On() + 1, g.Off() + 1, m)
  }

  predicate IsTrigger(g: Group, m: nat) {
    m == g.On() || m == g.Off()
  }

  /** A group's flag after the clock has announced these minutes. */
  function Follow(g: Group, flag: bool, times: seq<DateTime>): bool {
    if times == [] then flag
    else
      var t := times[|times| - 1];
      Scheduled(g, Follow(g, flag, times[..|times| - 1]), t.hour, t.minute)
  }

  /** Some announced minute was one of the group's two times. */
  ghost predicate Triggered(g: Group, times: seq<DateTime>) {
    exists i :: 0 <= i < |times| && IsTrigger(g, times[i].MinuteOfDay())
  }

  /** The state of a group after n minutes in the given direction. */
  predicate Right(g: Group, forward: bool, m: nat, flag: bool) {
    flag == if forward then Lit(g, m) else LitBackward(g, m)
  }

  /** One announced minute: a trigger puts the flag right, and between triggers a right flag stays right. */
  lemma OneMinute(g: Group, forward: bool, before: DateTime, now: DateTime, flag: bool)
    requires g.Valid() && before.hour < 24 && before.minute < 60 && now.hour < 24 && now.minute < 60
    requires now.MinuteOfDay() == MinuteAfter(forward, 1, before.MinuteOfDay())
    requires Right(g, forward, before.MinuteOfDay(), flag) || IsTrigger(g, now.MinuteOfDay())
    ensures Right(g, forward, now.MinuteOfDay(), Scheduled(g, flag, now.hour, now.minute))
  {
    hide DateTime.OnDial, MinuteAfter;
    var b, n := before.MinuteOfDay(), now.MinuteOfDay();
    MinuteAfterOne(forward, b);
    SameTime(now.hour, now.minute, g.onHour, g.onMinute);
    SameTime(now.hour, now.minute, g.offHour, g.offMinute);
  }

  lemma MinuteAfterOne(forward: bool, m: nat)
    requires m < MINUTES_PER_DAY
    ensures MinuteAfter(forward, 1, m) ==
            if forward then (if m == 1439 then 0 else m + 1) else if m == 0 then 1439 else m - 1
  {
  }

  lemma SameTime(h1: nat, m1: nat, h2: nat, m2: nat)
    requires m1 < 60 && m2 < 60
    ensures h1 * 60 + m1 == h2 * 60 + m2 <==> h1 == h2 && m1 == m2
  {
  }

  lemma TimesOfDay(forward: bool, n: nat, t: DateTime)
    requires t.OnDial()
    ensures Steps(forward, n, t).OnDial()
    ensures Steps(forward, n, t).hour < 24 && Steps(forward, n, t).minute < 60
    ensures n > 0 ==> Steps(forward, n, t).MinuteOfDay()
                      == MinuteAfter(forward, 1, Steps(forward, n - 1, t).MinuteOfDay())
  {
    hide DateTime.OnDial, Calendar.Forward, Calendar.Backward;
    StepsOnDial(forward, n, t);
    TimeFields(Steps(forward, n, t));
    if n > 0 {
      StepsOnDial(forward, n - 1, t);
      ForwardOverDay(Steps(forward, n - 1, t));
      BackwardOverDay(Steps(forward, n - 1, t));
    }
  }

  /** Once any trigger minute has been announced, and from a right start even before, the flag is right. */
  lemma {:induction false} FollowIsRight(g: Group, forward: bool, n: nat, t: DateTime, flag: bool)
    requires g.Valid() && t.OnDial()
    requires Right(g, forward, t.MinuteOfDay(), flag) || Triggered(g, Minutes(forward, n, t))
    ensures Right(g, forward, Steps(forward, n, t).MinuteOfDay(), Follow(g, flag, Minutes(forward, n, t)))
  {
    hide DateTime.OnDial, Right, IsTrigger, Scheduled;
    var times := Minutes(forward, n, t);
    if n > 0 {
      var earlier := Minutes(forward, n - 1, t);
      var now, before := Steps(forward, n, t), Steps(forward, n - 1, t);
      assert times[..n - 1] == earlier && times[n - 1] == now;
      TimesOfDay(forward, n, t);
      TimesOfDay(forward, n - 1, t);
      if !IsTrigger(g, now.MinuteOfDay()) {
        if !Right(g, forward, t.MinuteOfDay(), flag) {
          var i :| 0 <= i < |times| && IsTrigger(g, times[i].MinuteOfDay());
          assert earlier[i] == times[i];
        }
        FollowIsRight(g, forward, n - 1, t, flag);
      }
      OneMinute(g, forward, before, now, Follow(g, flag, earlier));
    }
  }

  /** A group whose two times are the same minute, or none of whose times is announced, keeps its flag. */
  lemma {:induction false} OnlyItsTimesSwitch(g: Group, flag: bool, times: seq<DateTime>)
    requires || g.onHour * 60 + g.onMinute == g.offHour * 60 + g.offMinute
             || forall i :: 0 <= i < |times| ==>
                  && !(times[i].hour == g.onHour && times[i].minute == g.onMinute)
                  && !(times[i].hour == g.offHour && times[i].minute == g.offMinute)
    ensures Follow(g, flag, times) == flag
  {
    if times != [] { OnlyItsTimesSwitch(g, flag, times[..|times| - 1]); }
  }

  /** Every day passes every trigger minute: 1440 announced minutes are enough. */
  lemma {:induction false} ADayTriggers(g: Group, forward: bool, n: nat, t: DateTime)
    requires g.Valid() && t.OnDial() && n >= MINUTES_PER_DAY
    ensures Triggered(g, Minutes(forward, n, t))
  {
    hide DateTime.OnDial, MinuteAfter;
    TimeFields(t);
    var m := t.MinuteOfDay();
    var d := if forward then g.On() - m else m - g.On();
    var i := if d <= 0 then d + 1440 else d;
    MinuteOfSteps(forward, i, t);
    ReachMinute(forward, m, g.On(), i);
    assert IsTrigger(g, Minutes(forward, n, t)[i - 1].MinuteOfDay());
  }

  lemma ReachMinute(forward: bool, m: nat, goal: nat, i: nat)
    requires m < MINUTES_PER_DAY && goal < MINUTES_PER_DAY
    requires i == (if forward then goal - m else m - goal) || i == 1440 + if forward then goal - m else m - goal
    ensures MinuteAfter(forward, i, m) == goal
  {
  }

  lemma {:induction false} MinuteOfSteps(forward: bool, n: nat, t: DateTime)
    requires t.OnDial()
    ensures Steps(forward, n, t).MinuteOfDay() == MinuteAfter(forward, n, t.MinuteOfDay())
  {
    hide DateTime.OnDial, MinuteAfter;
    TimeFields(t);
    if n == 0 {
      MinuteAfterNone(forward, t.MinuteOfDay());
    } else {
      MinuteOfSteps(forward, n - 1, t);
      TimesOfDay(forward, n, t);
      MidnightsSplit(forward, n - 1, 1, t.MinuteOfDay());
    }
  }

  lemma MinuteAfterNone(forward: bool, m: nat)
    requires m < MINUTES_PER_DAY
    ensures MinuteAfter(forward, 0, m) == m
  {
  }

  /** Following the announcements of a trace. */
  function TimesOf(announcements: seq<Output>): seq<DateTime>
    requires forall i :: 0 <= i < |announcements| ==> announcements[i].OnTimeChanged?
  {
    seq(|announcements|, i requires 0 <= i < |announcements| => announcements[i].now)
  }

  /**
   The schedule end to end. A running clock is polled in any batches; the group flag follows what
   the clock announces. Once a trigger minute has been announced (a whole day always contains one)
   a clock running forward leaves the flag true exactly inside [on, off). A clock running backward
   leaves it true exactly outside (on, off], which agrees with the schedule only at the two
   trigger minutes themselves.
   */
  lemma ScheduleOverRun(g: Group, c: Clock, start: nat, last: nat, polls: seq<Poll>, times: seq<nat>, flag: bool)
    requires g.Valid() && c.Valid() && c.isAllocated && c.Advances()
    requires Faithful(start, last, polls, times) && |polls| == |times|
    ensures var announced := Select(TimeChanges, Trace(c, last, polls, |polls|));
            && (forall i :: 0 <= i < |announced| ==> announced[i].OnTimeChanged?)
            && (|announced| >= MINUTES_PER_DAY ==> Triggered(g, TimesOf(announced)))
            && (Right(g, c.rate > 0, c.now.MinuteOfDay(), flag) ==>
                  Right(g, c.rate > 0, After(c, last, polls, |polls|).now.MinuteOfDay(), Follow(g, flag, TimesOf(announced))))
            && (Triggered(g, TimesOf(announced)) ==>
                  var m := After(c, last, polls, |polls|).now.MinuteOfDay();
                  var lit := Follow(g, flag, TimesOf(announced));
                  && (c.rate > 0 ==> lit == Lit(g, m))
                  && (c.rate < 0 ==> (lit == Lit(g, m) <==> IsTrigger(g, m))))
  {
    hide Select, Follow, DateTime.OnDial, Faithful, U8, Triggered, MidnightsCounted, Fed;
    var f := c.rate > 0;
    MinutesOverRun(c, start, last, polls, times, |polls|);
    var announced := Select(TimeChanges, Trace(c, last, polls, |polls|));
    var n := |announced|;
    assert TimesOf(announced) == Minutes(f, n, c.now);
    if n >= MINUTES_PER_DAY { ADayTriggers(g, f, n, c.now); }
    if Triggered(g, TimesOf(announced)) || Right(g, f, c.now.MinuteOfDay(), flag) {
      FollowIsRight(g, f, n, c.now, flag);
      TimesOfDay(f, n, c.now);
      BackwardAgreesOnlyAtTriggers(g, Steps(f, n, c.now).MinuteOfDay());
    }
  }

  lemma BackwardAgreesOnlyAtTriggers(g: Group, m: nat)
    requires g.Valid() && m < MINUTES_PER_DAY
    ensures LitBackward(g, m) == Lit(g, m) <==> IsTrigger(g, m)
  {
  }
}
