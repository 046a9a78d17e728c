/** Messages in assembly over runs of the list: each is released at the first sweep where it is due. */
module BufferTimeouts {
  import opened Words
  import opened BufferList

  /** What happens to the list: messages come, complete or are swept at true times. */
  datatype Op<T> = Put(entry: Entry<T>) | Take(msg: T) | Sweep(time: nat)

  function Apply<T(==)>(entries: seq<Option<Entry<T>>>, op: Op<T>): (r: seq<Option<Entry<T>>>)
    ensures |r| == |entries|
  {
    match op
    case Put(e) => Added(entries, e)
    case Take(m) => Removed(entries, m)
    case Sweep(time) => Swept(entries, U8(time))
  }

  function After<T(==)>(entries: seq<Option<Entry<T>>>, ops: seq<Op<T>>, k: nat): (r: seq<Option<Entry<T>>>)
    requires k <= |ops|
    ensures |r| == |entries|
  {
    if k == 0 then entries else Apply(After(entries, ops, k - 1), ops[k - 1])
  }

  /** True time of the last sweep among the first k operations, or the start. */
  function LastSweep<T>(start: nat, ops: seq<Op<T>>, k: nat): nat
    requires k <= |ops|
  {
    if k == 0 then start else if ops[k - 1].Sweep? then ops[k - 1].time else LastSweep(start, ops, k - 1)
  }

  /** Sweeps follow each other within 226 ticks. */
  ghost predicate Regular<T>(start: nat, ops: seq<Op<T>>) {
    forall k :: 0 <= k < |ops| && ops[k].Sweep? ==>
      LastSweep(start, ops, k) <= ops[k].time <= LastSweep(start, ops, k) + 226
  }

  /**
   From operation a on the message is on the list in slot i, in assembly since true tick stamp; it does not
   complete, and no sweep before operation k finds it due.
   */
  ghost predicate Assembling<T>(entries: seq<Option<Entry<T>>>, start: nat, ops: seq<Op<T>>,
                                m: T, stamp: nat, i: nat, a: nat, k: nat) {
    && a <= k <= |ops| && i < |entries|
    && After(entries, ops, a)[i] == Some(Entry(m, true, U8(stamp)))
    && LastSweep(start, ops, a) <= stamp
    && forall j :: a <= j < k ==>
         && ops[j] != Take(m)
         && (ops[j].Sweep? ==> stamp <= ops[j].time < stamp + TIMEOUT_TICKS)
  }

  lemma AgeAtSweep(stamp: nat, last: nat, time: nat)
    requires stamp <= time <= last + 226 && last < stamp + TIMEOUT_TICKS
    ensures Expired(U8(time), U8(stamp)) <==> time - stamp >= TIMEOUT_TICKS
  {
    AgeWraps(stamp, time);
    DivModUnique(time - stamp, 256, 0, time - stamp);
  }

  lemma {:induction false} LastSweepIsEarly<T>(entries: seq<Option<Entry<T>>>, start: nat, ops: seq<Op<T>>,
                                                m: T, stamp: nat, i: nat, a: nat, k: nat)
    requires Assembling(entries, start, ops, m, stamp, i, a, k)
    ensures LastSweep(start, ops, k) < stamp + TIMEOUT_TICKS
    decreases k
  {
    if k > a { LastSweepIsEarly(entries, start, ops, m, stamp, i, a, k - 1); }
  }

  /** Until a sweep finds it due a message in assembly stays where it is, whatever comes, completes or is swept. */
  lemma {:induction false} StaysUntilDue<T>(entries: seq<Option<Entry<T>>>, start: nat, ops: seq<Op<T>>,
                                             m: T, stamp: nat, i: nat, a: nat, k: nat)
    requires Regular(start, ops) && Assembling(entries, start, ops, m, stamp, i, a, k)
    ensures After(entries, ops, k)[i] == Some(Entry(m, true, U8(stamp)))
    decreases k
  {
    hide Expired, U8;
    if k > a {
      StaysUntilDue(entries, start, ops, m, stamp, i, a, k - 1);
      if ops[k - 1].Sweep? {
        LastSweepIsEarly(entries, start, ops, m, stamp, i, a, k - 1);
        AgeAtSweep(stamp, LastSweep(start, ops, k - 1), ops[k - 1].time);
      }
    }
  }

  /** The first sweep that finds it due, 30 ticks of true age or more, takes it off the list. */
  lemma LeavesWhenDue<T>(entries: seq<Option<Entry<T>>>, start: nat, ops: seq<Op<T>>,
                         m: T, stamp: nat, i: nat, a: nat, k: nat)
    requires Regular(start, ops) && Assembling(entries, start, ops, m, stamp, i, a, k)
    requires k < |ops| && ops[k].Sweep? && stamp <= ops[k].time
    ensures After(entries, ops, k)[i] == Some(Entry(m, true, U8(stamp)))
    ensures After(entries, ops, k + 1)[i] ==
            if ops[k].time - stamp >= 30 then None else Some(Entry(m, true, U8(stamp)))
  {
    hide Expired, U8;
    StaysUntilDue(entries, start, ops, m, stamp, i, a, k);
    LastSweepIsEarly(entries, start, ops, m, stamp, i, a, k);
    AgeAtSweep(stamp, LastSweep(start, ops, k), ops[k].time);
  }
}
