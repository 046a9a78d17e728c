/** What the message pool keeps over any sequence of allocations, references and frees. */
module BufferAccounting {
  import opened Words
  import opened BufferStore

  datatype Op = Alloc(t: PayloadType) | Inc(i: nat) | Release(i: nat) | ClearMax

  function Apply(d: Depths, p: Pool, op: Op): Pool
    requires WellShaped(d, p)
    requires op.Inc? || op.Release? ==> op.i < d.Total()
  {
    match op
    case Alloc(t) => Allocate(d, p, t)
    case Inc(i) => Reference(p, i)
    case Release(i) => Free(d, p, i)
    case ClearMax => ClearPeaks(p)
  }

  /** The references really held on each slot. */
  function Ledger(d: Depths, p: Pool, held: seq<nat>, op: Op): seq<nat>
    requires WellShaped(d, p) && |held| == d.Total() && Legal(d, held, op)
  {
    match op
    case Alloc(t) => (match Allocated(d, p, t) case Some(i) => held[i := 1] case None => held)
    case Inc(i) => held[i := held[i] + 1]
    case Release(i) => held[i := held[i] - 1]
    case ClearMax => held
  }

  /** References are taken and given back on live buffers only. */
  predicate Legal(d: Depths, held: seq<nat>, op: Op)
    requires |held| == d.Total()
  {
    match op
    case Inc(i) => i < d.Total() && held[i] > 0
    case Release(i) => i < d.Total() && held[i] > 0
    case _ => true
  }

  /** Slots in use between lo and hi. */
  function InUse(slots: seq<Slot>, lo: nat, hi: nat): (n: nat)
    requires lo <= hi <= |slots|
    ensures n <= hi - lo
    decreases hi - lo
  {
    if lo == hi then 0 else (if slots[hi - 1].inUse then 1 else 0) + InUse(slots, lo, hi - 1)
  }

  lemma {:induction false} InUseUpdate(slots: seq<Slot>, i: nat, s: Slot, lo: nat, hi: nat)
    requires lo <= hi <= |slots| && i < |slots|
    ensures InUse(slots[i := s], lo, hi) + (if lo <= i < hi && slots[i].inUse then 1 else 0)
            == InUse(slots, lo, hi) + if lo <= i < hi && s.inUse then 1 else 0
    decreases hi - lo
  {
    if lo < hi { InUseUpdate(slots, i, s, lo, hi - 1); }
  }

  lemma {:induction false} InUseFull(slots: seq<Slot>, lo: nat, hi: nat)
    requires lo <= hi <= |slots|
    ensures InUse(slots, lo, hi) == hi - lo <==> forall i :: lo <= i < hi ==> slots[i].inUse
    decreases hi - lo
  {
    if lo < hi { InUseFull(slots, lo, hi - 1); }
  }

  /** Slots of a segment in use. */
  function InUseOf(d: Depths, slots: seq<Slot>, t: PayloadType): nat
    requires d.Valid() && |slots| == d.Total()
  {
    InUse(slots, d.Start(t), d.End(t))
  }

  /** Flags and reference bytes agree with the references held; each counter is the number of slots in use. */
  ghost predicate Accounted(d: Depths, p: Pool, held: seq<nat>) {
    && WellShaped(d, p) && |held| == d.Total()
    && (forall i :: 0 <= i < |held| ==> p.slots[i].inUse == (held[i] > 0) && p.slots[i].refs == U8(held[i]))
    && forall t: PayloadType :: p.counts.Of(t) == InUseOf(d, p.slots, t)
  }

  /** An allocation fails exactly when its segment is full; a segment holds its depth. */
  lemma AllocationFailsWhenFull(d: Depths, p: Pool, held: seq<nat>, t: PayloadType)
    requires Accounted(d, p, held)
    ensures Allocated(d, p, t).None? <==> p.counts.Of(t) == match t
                                                              case Basic => d.basic
                                                              case Datagram => d.datagram
                                                              case Snip => d.snip
                                                              case Stream => d.stream
                                                              case Worker => 0
    ensures Allocated(d, p, t).Some? ==>
              var i := Allocated(d, p, t).value;
              i < d.Total() && d.TypeOf(i) == t && held[i] == 0 && t != Worker
  {
    hide FirstFree, InUse;
    InUseFull(p.slots, d.Start(t), d.End(t));
    if Allocated(d, p, t).Some? {
      SegmentsPartition(d, t, Allocated(d, p, t).value);
    }
  }

  /** One slot changing hands moves its own segment's count and no other. */
  lemma SlotChangesOneCount(d: Depths, slots: seq<Slot>, i: nat, s: Slot, t: PayloadType)
    requires d.Valid() && |slots| == d.Total() && i < |slots|
    ensures InUseOf(d, slots[i := s], t) + (if d.TypeOf(i) == t && slots[i].inUse then 1 else 0)
            == InUseOf(d, slots, t) + if d.TypeOf(i) == t && s.inUse then 1 else 0
  {
    hide InUse, Depths.TypeOf, Depths.Start, Depths.End;
    SegmentsPartition(d, t, i);
    InUseUpdate(slots, i, s, d.Start(t), d.End(t));
  }

  lemma AllocKeepsAccounts(d: Depths, p: Pool, held: seq<nat>, t: PayloadType)
    requires Accounted(d, p, held)
    ensures Accounted(d, Allocate(d, p, t), Ledger(d, p, held, Alloc(t)))
  {
    hide InUseOf, Depths.TypeOf, Depths.Start, Depths.End, FirstFree;
    AllocationFailsWhenFull(d, p, held, t);
    if Allocated(d, p, t).Some? {
      var i := Allocated(d, p, t).value;
      var q := Allocate(d, p, t);
      forall u: PayloadType
        ensures q.counts.Of(u) == InUseOf(d, q.slots, u)
      {
        SlotChangesOneCount(d, p.slots, i, Slot(true, 1), u);
        InUseBound(d, q.slots, u);
      }
    }
  }

  lemma InUseBound(d: Depths, slots: seq<Slot>, t: PayloadType)
    requires d.Valid() && |slots| == d.Total()
    ensures InUseOf(d, slots, t) < WORD
  {
  }

  /**
   Freeing on a live buffer keeps the accounts unless 257 references were held on it: then the
   reference byte reads 1 and the slot is given back with 256 references outstanding.
   */
  lemma FreeKeepsAccounts(d: Depths, p: Pool, held: seq<nat>, i: nat)
    requires Accounted(d, p, held) && i < d.Total() && held[i] > 0
    ensures var released := !Free(d, p, i).slots[i].inUse;
            && released == (U8(held[i] - 1) == 0)
            && (held[i] <= 256 ==> released == (held[i] == 1))
            && (held[i] == 257 ==> released)
    ensures U8(held[i] - 1) != 0 || held[i] == 1 <==> Accounted(d, Free(d, p, i), held[i := held[i] - 1])
  {
    hide InUseOf, Depths.TypeOf, Depths.Start, Depths.End;
    var q := Free(d, p, i);
    ModAdd(held[i], Minus(1), 256);
    assert U8((p.slots[i].refs as int) - 1) == U8(held[i] - 1);
    forall u: PayloadType
      ensures U8(held[i] - 1) != 0 || held[i] == 1 ==> q.counts.Of(u) == InUseOf(d, q.slots, u)
    {
      SlotChangesOneCount(d, p.slots, i, q.slots[i], u);
      InUseBound(d, p.slots, u);
    }
  }

  function Minus(n: int): int {
    -n
  }

  lemma IncKeepsAccounts(d: Depths, p: Pool, held: seq<nat>, i: nat)
    requires Accounted(d, p, held) && i < d.Total() && held[i] > 0
    ensures Accounted(d, Reference(p, i), held[i := held[i] + 1])
  {
    hide InUseOf;
    var q := Reference(p, i);
    ModAdd(held[i], 1, 256);
    forall u: PayloadType
      ensures q.counts.Of(u) == InUseOf(d, q.slots, u)
    {
      SlotChangesOneCount(d, p.slots, i, q.slots[i], u);
    }
  }

  lemma PeaksAside(d: Depths, p: Pool, held: seq<nat>)
    requires Accounted(d, p, held)
    ensures Accounted(d, ClearPeaks(p), held)
  {
  }

  /** The byte agrees with the references held on whether this release is the last one. */
  predicate Sound(d: Depths, held: seq<nat>, op: Op)
    requires |held| == d.Total() && Legal(d, held, op)
  {
    op.Release? ==> U8(held[op.i] - 1) != 0 || held[op.i] == 1
  }

  /** A legal operation keeps the accounts exactly if it is not a release that the byte takes for the last one too early. */
  lemma OpKeepsAccounts(d: Depths, p: Pool, held: seq<nat>, op: Op)
    requires Accounted(d, p, held) && Legal(d, held, op)
    ensures Accounted(d, Apply(d, p, op), Ledger(d, p, held, op)) <==> Sound(d, held, op)
  {
    hide Accounted, Free, Reference, Allocate;
    match op {
      case Alloc(t) => AllocKeepsAccounts(d, p, held, t);
      case Inc(i) => IncKeepsAccounts(d, p, held, i);
      case Release(i) => FreeKeepsAccounts(d, p, held, i);
      case ClearMax => PeaksAside(d, p, held);
    }
  }

  /** The references left after one was given back for each index. */
  function HeldAfter(held: seq<nat>, order: seq<nat>): (r: seq<nat>)
    requires forall k :: 0 <= k < |order| ==> order[k] < |held| && held[order[k]] > 0
    requires forall i, k :: 0 <= i < k < |order| ==> order[i] != order[k]
    ensures |r| == |held|
    ensures forall j :: 0 <= j < |held| ==> r[j] == if j in order then held[j] - 1 else held[j]
  {
    if order == [] then held
    else
      var front := HeldAfter(held, order[..|order| - 1]);
      front[order[|order| - 1] := front[order[|order| - 1]] - 1]
  }

  /** A sweep that gives back one reference of each of several messages keeps the accounts, counters included. */
  lemma {:induction false} SweepKeepsAccounts(d: Depths, p: Pool, held: seq<nat>, order: seq<nat>)
    requires Accounted(d, p, held)
    requires forall k :: 0 <= k < |order| ==> order[k] < d.Total() && held[order[k]] > 0 && Sound(d, held, Release(order[k]))
    requires forall i, k :: 0 <= i < k < |order| ==> order[i] != order[k]
    ensures Accounted(d, FreeAll(d, p, order), HeldAfter(held, order))
  {
    hide Accounted, Free, Depths.Total;
    AccountedShape(d, p, held);
    if order != [] {
      var front, last := order[..|order| - 1], order[|order| - 1];
      SweepKeepsAccounts(d, p, held, front);
      assert last !in front;
      AccountedShape(d, FreeAll(d, p, front), HeldAfter(held, front));
      FreeKeepsAccounts(d, FreeAll(d, p, front), HeldAfter(held, front), last);
    }
  }

  lemma AccountedShape(d: Depths, p: Pool, held: seq<nat>)
    requires Accounted(d, p, held)
    ensures WellShaped(d, p) && |held| == d.Total()
  {
  }

  /** The pool as initialised: nothing held, nothing counted. */
  lemma {:induction false} InitiallyAccounted(d: Depths, p: Pool)
    requires WellShaped(d, p) && p.counts == Tally(0, 0, 0, 0)
    requires forall i :: 0 <= i < |p.slots| ==> p.slots[i] == Slot(false, 0)
    ensures Accounted(d, p, seq(d.Total(), i => 0))
  {
    forall t: PayloadType
      ensures InUseOf(d, p.slots, t) == 0
    {
      NoneInUse(p.slots, d.Start(t), d.End(t));
    }
  }

  lemma {:induction false} NoneInUse(slots: seq<Slot>, lo: nat, hi: nat)
    requires lo <= hi <= |slots| && forall i :: 0 <= i < |slots| ==> !slots[i].inUse
    ensures InUse(slots, lo, hi) == 0
    decreases hi - lo
  {
    if lo < hi { NoneInUse(slots, lo, hi - 1); }
  }

  // ---- Whole runs ----

  datatype State = State(pool: Pool, held: seq<nat>)

  /** One legal operation that is not a premature last release. */
  ghost predicate Step(d: Depths, s: State, op: Op, next: State) {
    && WellShaped(d, s.pool) && |s.held| == d.Total()
    && Legal(d, s.held, op) && Sound(d, s.held, op)
    && next == State(Apply(d, s.pool, op), Ledger(d, s.pool, s.held, op))
  }

  ghost predicate Run(d: Depths, states: seq<State>, ops: seq<Op>) {
    && |states| == |ops| + 1
    && forall k :: 0 <= k < |ops| ==> Step(d, states[k], ops[k], states[k + 1])
  }

  /** The slots in use, segment by segment. */
  function Tallied(d: Depths, slots: seq<Slot>): Tally
    requires d.Valid() && |slots| == d.Total()
  {
    Tally(InUseOf(d, slots, Basic), InUseOf(d, slots, Datagram), InUseOf(d, slots, Snip), InUseOf(d, slots, Stream))
  }

  lemma CountsAre(d: Depths, p: Pool, held: seq<nat>)
    requires Accounted(d, p, held)
    ensures WellShaped(d, p) && p.counts == Tallied(d, p.slots)
  {
    hide InUseOf;
    assert p.counts.Of(Basic) == InUseOf(d, p.slots, Basic) && p.counts.Of(Datagram) == InUseOf(d, p.slots, Datagram);
    assert p.counts.Of(Snip) == InUseOf(d, p.slots, Snip) && p.counts.Of(Stream) == InUseOf(d, p.slots, Stream);
  }

  /** In every state of every run, flags, reference bytes and counters agree with the references held. */
  lemma {:induction false} AccountsOverRun(d: Depths, states: seq<State>, ops: seq<Op>, k: nat)
    requires Run(d, states, ops) && k <= |ops|
    requires Accounted(d, states[0].pool, states[0].held)
    ensures Accounted(d, states[k].pool, states[k].held)
  {
    hide Accounted, Apply, Ledger;
    if k > 0 {
      AccountsOverRun(d, states, ops, k - 1);
      assert Step(d, states[k - 1], ops[k - 1], states[k]);
      OpKeepsAccounts(d, states[k - 1].pool, states[k - 1].held, ops[k - 1]);
    }
  }

  /** So in every state each counter is the number of slots in use in its own segment. */
  lemma CountsOverRun(d: Depths, states: seq<State>, ops: seq<Op>, k: nat)
    requires Run(d, states, ops) && k <= |ops|
    requires Accounted(d, states[0].pool, states[0].held)
    ensures WellShaped(d, states[k].pool) && states[k].pool.counts == Tallied(d, states[k].pool.slots)
  {
    hide Accounted, Step;
    AccountsOverRun(d, states, ops, k);
    CountsAre(d, states[k].pool, states[k].held);
  }

  /** Operation k allocates a buffer of the type. */
  ghost predicate Allocates(d: Depths, states: seq<State>, ops: seq<Op>, k: nat, t: PayloadType)
    requires k < |ops| && k < |states|
  {
    WellShaped(d, states[k].pool) && ops[k] == Alloc(t) && Allocated(d, states[k].pool, t).Some?
  }

  /** What an operation does to a peak. */
  lemma PeakStep(d: Depths, s: State, op: Op, next: State, t: PayloadType)
    requires Step(d, s, op, next) && Accounted(d, s.pool, s.held) && op != ClearMax
    ensures next.pool.peaks.Of(t) ==
            if op == Alloc(t) && Allocated(d, s.pool, t).Some? then Max(s.pool.peaks.Of(t), next.pool.counts.Of(t))
            else s.pool.peaks.Of(t)
  {
    hide Accounted;
    if op.Alloc? && Allocated(d, s.pool, op.t).Some? {
      AllocationFailsWhenFull(d, s.pool, s.held, op.t);
    }
  }

  /**
   A peak is the largest count an allocation of its type has reached since the peaks were last
   cleared: no allocation since exceeds it, and one attains it unless there was none.
   */
  lemma {:induction false} PeaksOverRun(d: Depths, states: seq<State>, ops: seq<Op>, c: nat, k: nat, t: PayloadType)
    requires Run(d, states, ops) && c <= k <= |ops|
    requires Accounted(d, states[0].pool, states[0].held)
    requires if c == 0 then states[0].pool.peaks == Tally(0, 0, 0, 0) else ops[c - 1] == ClearMax
    requires forall j :: c <= j < k ==> ops[j] != ClearMax
    ensures forall j :: c <= j < k && Allocates(d, states, ops, j, t) ==>
              states[j + 1].pool.counts.Of(t) <= states[k].pool.peaks.Of(t)
    ensures states[k].pool.peaks.Of(t) == 0
            || exists j :: c <= j < k && Allocates(d, states, ops, j, t)
                           && states[j + 1].pool.counts.Of(t) == states[k].pool.peaks.Of(t)
  {
    hide Step, Accounted, Tally.Of, WellShaped, Allocated;
    if k == c {
      if c > 0 { assert Step(d, states[c - 1], ops[c - 1], states[c]); }
      PeaksCleared(d, states, ops, c);
      ZeroTally(t);
    } else {
      PeaksOverRun(d, states, ops, c, k - 1, t);
      AccountsOverRun(d, states, ops, k - 1);
      assert Step(d, states[k - 1], ops[k - 1], states[k]);
      PeakStep(d, states[k - 1], ops[k - 1], states[k], t);
      StepWellShaped(d, states[k - 1], ops[k - 1], states[k]);
      assert Allocates(d, states, ops, k - 1, t) <==>
             ops[k - 1] == Alloc(t) && Allocated(d, states[k - 1].pool, t).Some?;
    }
  }

  lemma PeaksCleared(d: Depths, states: seq<State>, ops: seq<Op>, c: nat)
    requires c <= |ops| && |states| == |ops| + 1 && (c > 0 ==> Step(d, states[c - 1], ops[c - 1], states[c]))
    requires if c == 0 then states[0].pool.peaks == Tally(0, 0, 0, 0) else ops[c - 1] == ClearMax
    ensures states[c].pool.peaks == Tally(0, 0, 0, 0)
  {
  }

  lemma ZeroTally(t: PayloadType)
    ensures Tally(0, 0, 0, 0).Of(t) == 0
  {
  }

  lemma StepWellShaped(d: Depths, s: State, op: Op, next: State)
    requires Step(d, s, op, next)
    ensures WellShaped(d, s.pool)
  {
  }
}
