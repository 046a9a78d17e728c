/**
 The broadcast fast clock: the specification of one clock slot on values, and the slot and the
 slot table that the firmware updates in place.
 */
module FastClock {
  import opened Words
  import opened Calendar
  import opened NodeTable

  /** 4 * 60 * 1000: one fast minute in the accumulator's fixed-point scale. */
  const MINUTE_THRESHOLD: nat := 240000
  const REPORT_COOLDOWN_TICKS: nat := 600
  const SYNC_DELAY_TICKS: nat := 30

  /** The messages of the query reply, with the clock data each carries. */
  datatype ReplyMessage =
    | StartOrStop(running: bool)
    | Rate(rate: int)
    | Year(year: nat)
    | Date(month: nat, day: nat)
    | CurrentTime(hour: nat, minute: nat)
    | NextMinute(hour: nat, minute: nat)

  /** What a tick hands to the application callbacks and to the transport, in order. */
  datatype Output =
    | OnDateRollover(now: DateTime)
    | OnYearReceived(now: DateTime)
    | OnDateReceived(now: DateTime)
    | OnTimeReceived(now: DateTime)
    | OnTimeChanged(now: DateTime)
    | ReportTime(hour: nat, minute: nat)
    | DateRollover
    | ReportYear(year: nat)
    | ReportDate(month: nat, day: nat)
    | Reply(msg: ReplyMessage, accepted: bool)

  datatype Clock = Clock(
    clockId: nat, now: DateTime, rate: int, running: bool, accumulator: nat,
    isConsumer: bool, isProducer: bool, isAllocated: bool,
    replyPending: bool, syncPending: bool, replyState: nat,
    syncDelay: nat, cooldown: nat, previousRunState: nat, node: Option<nat>)
  {
    /** The clock sends on behalf of a node. */
    predicate Sends() {
      isProducer && node.Some?
    }

    predicate Advances() {
      (isConsumer || isProducer) && running && rate != 0
    }

    /** The ranges of the fields, the date's aside; the accumulator is below one minute between ticks. */
    predicate Valid() {
      && now.OnDial()
      && -0x8000 <= rate < 0x8000
      && accumulator < MINUTE_THRESHOLD
      && replyState <= 5
      && syncDelay <= SYNC_DELAY_TICKS
      && cooldown <= REPORT_COOLDOWN_TICKS
    }
  }

  // ---- Callbacks made while stepping one minute ----

  function NextDayCalls(t: DateTime): seq<Output> {
    if U8(t.day + 1) <= DaysInMonth(t.month, t.year) then []
    else if U8(t.month + 1) <= 12 then [OnDateReceived(NextDay(t))]
    else [OnYearReceived(NextDay(t)), OnDateReceived(NextDay(t))]
  }

  function ForwardCalls(t: DateTime): seq<Output> {
    (if U8(t.minute + 1) >= 60 && U8(t.hour + 1) >= 24 then
       var midnight := t.(minute := 0, hour := 0);
       [OnDateRollover(midnight)] + NextDayCalls(midnight)
     else [])
    + [OnTimeReceived(Forward(t))]
  }

  function PreviousDayCalls(t: DateTime): seq<Output> {
    if t.day > 1 then []
    else if t.month <= 1 then
      [OnYearReceived(t.(month := 12, year := U16(t.year - 1))), OnDateReceived(PreviousDay(t))]
    else [OnDateReceived(PreviousDay(t))]
  }

  function BackwardCalls(t: DateTime): seq<Output> {
    (if t.minute == 0 && t.hour == 0 then
       var lastMinute := t.(minute := 59, hour := 23);
       [OnDateRollover(lastMinute)] + PreviousDayCalls(lastMinute)
     else [])
    + [OnTimeReceived(Backward(t))]
  }

  // ---- Time advancement ----

  function Stepped(c: Clock): DateTime {
    if c.rate > 0 then Forward(c.now) else Backward(c.now)
  }

  /** One fast minute taken out of the accumulator. */
  function MinuteStep(c: Clock): Clock
    requires c.accumulator >= MINUTE_THRESHOLD
  {
    c.(accumulator := c.accumulator - MINUTE_THRESHOLD,
       now := Stepped(c),
       cooldown := if c.Sends() && c.cooldown == 0 then REPORT_COOLDOWN_TICKS else c.cooldown)
  }

  function MinuteOutputs(c: Clock): seq<Output> {
    var now := Stepped(c);
    (if c.rate > 0 then ForwardCalls(c.now) else BackwardCalls(c.now))
    + [OnTimeChanged(now)]
    + (if c.Sends() && c.cooldown == 0 then [ReportTime(now.hour, now.minute)] else [])
    + (if c.Sends() && c.now.hour == 23 && now.hour == 0
       then [DateRollover, ReportYear(now.year), ReportDate(now.month, now.day)] else [])
  }

  /** Every whole minute in the accumulator, one after the other. */
  function Drain(c: Clock): Clock
    decreases c.accumulator
  {
    if c.accumulator < MINUTE_THRESHOLD then c else Drain(MinuteStep(c))
  }

  function DrainOutputs(c: Clock): seq<Output>
    decreases c.accumulator
  {
    if c.accumulator < MINUTE_THRESHOLD then [] else MinuteOutputs(c) + DrainOutputs(MinuteStep(c))
  }

  /** The accumulator after adding the elapsed ticks, in uint32_t arithmetic. */
  function Filled(c: Clock, elapsed: nat): Clock {
    c.(accumulator := U32(c.accumulator + 100 * U16(Abs(c.rate)) * elapsed))
  }

  function Advance(c: Clock, elapsed: nat): Clock {
    if c.Advances() then Drain(Filled(c, elapsed)) else c
  }

  function AdvanceOutputs(c: Clock, elapsed: nat): seq<Output> {
    if c.Advances() then DrainOutputs(Filled(c, elapsed)) else []
  }

  // ---- Producer timers and the query reply ----

  function Cool(c: Clock, elapsed: nat): Clock {
    if c.isProducer && c.cooldown > 0
    then c.(cooldown := if elapsed >= c.cooldown then 0 else c.cooldown - elapsed) else c
  }

  function Sync(c: Clock, elapsed: nat): Clock {
    if !c.isProducer || c.syncDelay == 0 then c
    else if elapsed < c.syncDelay then c.(syncDelay := c.syncDelay - elapsed)
    else if c.syncPending then c.(syncDelay := 0, syncPending := false, replyPending := true, replyState := 0)
    else c.(syncDelay := 0)
  }

  /** The producer's node has just reached the run state. */
  predicate LoginCompletes(c: Clock, runState: nat) {
    c.Sends() && c.previousRunState < RUNSTATE_RUN && runState >= RUNSTATE_RUN
  }

  function Startup(c: Clock, runState: nat): Clock {
    if !c.Sends() then c
    else if LoginCompletes(c, runState)
    then c.(previousRunState := runState, replyPending := true, replyState := 0)
    else c.(previousRunState := runState)
  }

  /** The clock fields a reply message reports; after five messages, the following minute. */
  function ReplyMessageFor(c: Clock): ReplyMessage {
    match c.replyState
    case 0 => StartOrStop(c.running)
    case 1 => Rate(c.rate)
    case 2 => Year(c.now.year)
    case 3 => Date(c.now.month, c.now.day)
    case 4 => CurrentTime(c.now.hour, c.now.minute)
    case _ =>
      var minute := U8(c.now.minute + 1);
      if minute >= 60 then NextMinute((c.now.hour + 1) % 24, 0) else NextMinute(c.now.hour, minute)
  }

  predicate Replies(c: Clock) {
    c.Sends() && c.replyPending && c.replyState <= 5
  }

  function ReplyStep(c: Clock, accept: bool): Clock {
    if !Replies(c) then c
    else c.(replyState := QueryReplyState(c.replyState, accept), replyPending := !(accept && c.replyState == 5))
  }

  function ReplyOutputs(c: Clock, accept: bool): seq<Output> {
    if Replies(c) then [Reply(ReplyMessageFor(c), accept)] else []
  }

  function QueryReplyState(state: nat, accept: bool): nat {
    if !accept || state > 5 then state else if state == 5 then 0 else state + 1
  }

  // ---- One tick of one slot ----

  /** The slot when it comes to the query reply. */
  function BeforeReply(c: Clock, elapsed: nat, runState: nat): Clock {
    Startup(Sync(Cool(Advance(c, elapsed), elapsed), elapsed), runState)
  }

  function Tick(c: Clock, elapsed: nat, runState: nat, accept: bool): Clock {
    if c.isAllocated then ReplyStep(BeforeReply(c, elapsed, runState), accept) else c
  }

  function TickOutputs(c: Clock, elapsed: nat, runState: nat, accept: bool): seq<Output> {
    if c.isAllocated
    then AdvanceOutputs(c, elapsed) + ReplyOutputs(BeforeReply(c, elapsed, runState), accept)
    else []
  }

  /** An immediate query reply supersedes a pending sync. */
  function QueryTriggered(c: Clock): Clock {
    c.(replyPending := true, replyState := 0, syncPending := false, syncDelay := 0)
  }

  function SyncTriggered(c: Clock): Clock {
    c.(syncDelay := SYNC_DELAY_TICKS, syncPending := true)
  }

  // ---- The slot in memory ----

  function ZeroedClock(): Clock {
    Clock(0, DateTime(0, 0, 0, 0, 0), 0, false, 0, false, false, false, false, false, 0, 0, 0, 0, None)
  }

  class BroadcastClock {
    var clockId: nat
    var now: DateTime
    var rate: int
    var running: bool
    var accumulator: nat
    var isConsumer: bool
    var isProducer: bool
    var isAllocated: bool
    var replyPending: bool
    var syncPending: bool
    var replyState: nat
    var syncDelay: nat
    var cooldown: nat
    var previousRunState: nat
    var node: Option<nat>

    function Value(): Clock
      reads this
    {
      Clock(clockId, now, rate, running, accumulator, isConsumer, isProducer, isAllocated,
            replyPending, syncPending, replyState, syncDelay, cooldown, previousRunState, node)
    }

    /** A zeroed slot, as in memory after initialisation. */
    constructor ()
      ensures Value() == ZeroedClock()
    {
      clockId, now, rate := 0, DateTime(0, 0, 0, 0, 0), 0;
      running, accumulator, isConsumer, isProducer, isAllocated := false, 0, false, false, false;
      replyPending, syncPending, replyState, syncDelay := false, false, 0, 0;
      cooldown, previousRunState, node := 0, 0, None;
    }

    /** memset of the slot. */
    method Zero()
      modifies this
      ensures Value() == ZeroedClock()
    {
      clockId, now, rate := 0, DateTime(0, 0, 0, 0, 0), 0;
      running, accumulator, isConsumer, isProducer, isAllocated := false, 0, false, false, false;
      replyPending, syncPending, replyState, syncDelay := false, false, 0, 0;
      cooldown, previousRunState, node := 0, 0, None;
    }

    method AdvanceMinuteForward() returns (out: seq<Output>)
      modifies this`now
      ensures now == Forward(old(now)) && out == ForwardCalls(old(now))
    {
      hide DaysInMonth;
      out := [];
      now := now.(minute := U8(now.minute + 1));
      if now.minute >= 60 {
        now := now.(minute := 0);
        now := now.(hour := U8(now.hour + 1));
        if now.hour >= 24 {
          now := now.(hour := 0);
          out := out + [OnDateRollover(now)];
          now := now.(day := U8(now.day + 1));
          if now.day > DaysInMonth(now.month, now.year) {
            now := now.(day := 1);
            now := now.(month := U8(now.month + 1));
            if now.month > 12 {
              now := now.(month := 1);
              now := now.(year := U16(now.year + 1));
              out := out + [OnYearReceived(now)];
            }
            out := out + [OnDateReceived(now)];
          }
        }
      }
      out := out + [OnTimeReceived(now)];
    }

    method AdvanceMinuteBackward() returns (out: seq<Output>)
      modifies this`now
      ensures now == Backward(old(now)) && out == BackwardCalls(old(now))
    {
      hide DaysInMonth;
      out := [];
      if now.minute == 0 {
        now := now.(minute := 59);
        if now.hour == 0 {
          now := now.(hour := 23);
          out := out + [OnDateRollover(now)];
          if now.day <= 1 {
            if now.month <= 1 {
              now := now.(month := 12);
              now := now.(year := U16(now.year - 1));
              out := out + [OnYearReceived(now)];
            } else {
              now := now.(month := now.month - 1);
            }
            now := now.(day := DaysInMonth(now.month, now.year));
            out := out + [OnDateReceived(now)];
          } else {
            now := now.(day := now.day - 1);
          }
        } else {
          now := now.(hour := now.hour - 1);
        }
      } else {
        now := now.(minute := now.minute - 1);
      }
      out := out + [OnTimeReceived(now)];
    }

    /** One pass of the accumulator loop. */
    method AdvanceOneMinute() returns (out: seq<Output>)
      requires accumulator >= MINUTE_THRESHOLD
      modifies this`accumulator, this`now, this`cooldown
      ensures Value() == MinuteStep(old(Value())) && out == MinuteOutputs(old(Value()))
      ensures accumulator == old(accumulator) - MINUTE_THRESHOLD
    {
      hide Forward, Backward, ForwardCalls, BackwardCalls;
      accumulator := accumulator - MINUTE_THRESHOLD;
      var previousHour := now.hour;
      if rate > 0 {
        out := AdvanceMinuteForward();
      } else {
        out := AdvanceMinuteBackward();
      }
      out := out + [OnTimeChanged(now)];
      if isProducer && node.Some? {
        if cooldown == 0 {
          out := out + [ReportTime(now.hour, now.minute)];
          cooldown := REPORT_COOLDOWN_TICKS;
        }
        if previousHour == 23 && now.hour == 0 {
          out := out + [DateRollover, ReportYear(now.year), ReportDate(now.month, now.day)];
        }
      }
    }

    method AdvanceTime(elapsed: nat) returns (out: seq<Output>)
      modifies this`accumulator, this`now, this`cooldown
      ensures Value() == Advance(old(Value()), elapsed)
      ensures out == AdvanceOutputs(old(Value()), elapsed)
    {
      hide MinuteStep, MinuteOutputs;
      out := [];
      if (isConsumer || isProducer) && running {
        if rate != 0 {
          var absRate := U16(Abs(rate));
          accumulator := U32(accumulator + 100 * absRate * elapsed);
          ghost var filled := Value();
          while accumulator >= MINUTE_THRESHOLD
            invariant Drain(Value()) == Drain(filled)
            invariant out + DrainOutputs(Value()) == DrainOutputs(filled)
            decreases accumulator
          {
            var o := AdvanceOneMinute();
            out := out + o;
          }
        }
      }
    }

    method CoolDown(elapsed: nat)
      modifies this`cooldown
      ensures Value() == Cool(old(Value()), elapsed)
    {
      if isProducer && cooldown > 0 {
        if elapsed >= cooldown {
          cooldown := 0;
        } else {
          cooldown := cooldown - elapsed;
        }
      }
    }

    method CountDownSync(elapsed: nat)
      modifies this`syncDelay, this`syncPending, this`replyPending, this`replyState
      ensures Value() == Sync(old(Value()), elapsed)
    {
      if isProducer && syncDelay > 0 {
        if elapsed >= syncDelay {
          syncDelay := 0;
          if syncPending {
            syncPending := false;
            replyPending := true;
            replyState := 0;
          }
        } else {
          syncDelay := syncDelay - elapsed;
        }
      }
    }

    method WatchLogin(runState: nat)
      modifies this`previousRunState, this`replyPending, this`replyState
      ensures Value() == Startup(old(Value()), runState)
    {
      if isProducer && node.Some? {
        if previousRunState < RUNSTATE_RUN && runState >= RUNSTATE_RUN {
          replyPending := true;
          replyState := 0;
        }
        previousRunState := runState;
      }
    }

    method RequestReply()
      modifies this`replyPending, this`replyState, this`syncPending, this`syncDelay
      ensures Value() == QueryTriggered(old(Value()))
    {
      replyPending := true;
      replyState := 0;
      syncPending := false;
      syncDelay := 0;
    }

    method RequestSync()
      modifies this`syncDelay, this`syncPending
      ensures Value() == SyncTriggered(old(Value()))
    {
      syncDelay := SYNC_DELAY_TICKS;
      syncPending := true;
    }

    method SendQueryReply(nextHour: nat, nextMinute: nat, accept: bool) returns (done: bool, out: seq<Output>)
      modifies this`replyState
      ensures replyState == QueryReplyState(old(replyState), accept)
      ensures done == (accept && old(replyState) == 5)
      ensures out == if old(replyState) > 5 then []
                     else if old(replyState) == 5 then [Reply(NextMinute(nextHour, nextMinute), accept)]
                     else [Reply(ReplyMessageFor(old(Value())), accept)]
    {
      done, out := false, [];
      match replyState {
        case 0 =>
          out := [Reply(StartOrStop(running), accept)];
          if accept { replyState := 1; }
        case 1 =>
          out := [Reply(Rate(rate), accept)];
          if accept { replyState := 2; }
        case 2 =>
          out := [Reply(Year(now.year), accept)];
          if accept { replyState := 3; }
        case 3 =>
          out := [Reply(Date(now.month, now.day), accept)];
          if accept { replyState := 4; }
        case 4 =>
          out := [Reply(CurrentTime(now.hour, now.minute), accept)];
          if accept { replyState := 5; }
        case 5 =>
          out := [Reply(NextMinute(nextHour, nextMinute), accept)];
          if accept {
            replyState := 0;
            done := true;
          }
        case _ =>
      }
    }

    method DriveReply(accept: bool) returns (out: seq<Output>)
      modifies this`replyState, this`replyPending
      ensures Value() == ReplyStep(old(Value()), accept) && out == ReplyOutputs(old(Value()), accept)
    {
      out := [];
      if isProducer && replyPending && node.Some? {
        var nextHour := now.hour;
        var nextMinute := U8(now.minute + 1);
        if nextMinute >= 60 {
          nextMinute := 0;
          nextHour := (nextHour + 1) % 24;
        }
        var done;
        done, out := SendQueryReply(nextHour, nextMinute, accept);
        if done {
          replyPending := false;
        }
      }
    }

    /** The body of the tick loop for this slot. */
    method TickSlot(elapsed: nat, runState: nat, accept: bool) returns (out: seq<Output>)
      modifies this`accumulator, this`now, this`cooldown, this`syncDelay, this`syncPending
      modifies this`replyPending, this`replyState, this`previousRunState
      ensures Value() == Tick(old(Value()), elapsed, runState, accept)
      ensures out == TickOutputs(old(Value()), elapsed, runState, accept)
    {
      hide Advance, AdvanceOutputs, Cool, Sync, Startup, ReplyStep, ReplyOutputs;
      out := [];
      if !isAllocated {
        return;
      }
      out := AdvanceTime(elapsed);
      CoolDown(elapsed);
      CountDownSync(elapsed);
      WatchLogin(runState);
      var o := DriveReply(accept);
      out := out + o;
    }
  }

  /** Advancing the time leaves the configuration and the reply machinery alone. */
  lemma {:induction false} DrainKeeps(c: Clock)
    ensures var d := Drain(c);
            d == c.(accumulator := d.accumulator, now := d.now, cooldown := d.cooldown)
    decreases c.accumulator
  {
    if c.accumulator >= MINUTE_THRESHOLD {
      DrainKeeps(MinuteStep(c));
    }
  }

  lemma AdvanceKeepsFlags(c: Clock, elapsed: nat)
    ensures var d := Advance(c, elapsed);
            d == c.(accumulator := d.accumulator, now := d.now, cooldown := d.cooldown)
  {
    if c.Advances() {
      DrainKeeps(Filled(c, elapsed));
    }
  }
}
