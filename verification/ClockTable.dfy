/** The fixed array of clock slots: lookup, allocation, triggers, and the tick that polls every slot. */
module ClockTable {
  import opened Words
  import opened Calendar
  import opened FastClock

  /** The slot a lookup by id settles on: a producer with a node if there is one, else the first match. */
  predicate Matches(c: Clock, clockId: nat) {
    c.isAllocated && c.clockId == clockId
  }

  function FirstMatch(slots: seq<Clock>, clockId: nat): (slot: Option<nat>)
    ensures slot.Some? ==> slot.value < |slots|
  {
    if slots == [] then None
    else match FirstMatch(slots[..|slots| - 1], clockId)
      case Some(i) => Some(i)
      case None => if Matches(slots[|slots| - 1], clockId) then Some(|slots| - 1) else None
  }

  function FirstProducer(slots: seq<Clock>, clockId: nat): (slot: Option<nat>)
    ensures slot.Some? ==> slot.value < |slots|
  {
    if slots == [] then None
    else match FirstProducer(slots[..|slots| - 1], clockId)
      case Some(i) => Some(i)
      case None =>
        var c := slots[|slots| - 1];
        if Matches(c, clockId) && c.Sends() then Some(|slots| - 1) else None
  }

  function Find(slots: seq<Clock>, clockId: nat): (slot: Option<nat>)
    ensures slot.Some? ==> slot.value < |slots|
  {
    var p := FirstProducer(slots, clockId);
    if p.Some? then p else FirstMatch(slots, clockId)
  }

  /** At most one slot per clock id. */
  ghost predicate UniqueIds(slots: seq<Clock>) {
    forall i, j :: 0 <= i < j < |slots| && slots[i].isAllocated && slots[j].isAllocated
      ==> slots[i].clockId != slots[j].clockId
  }

  lemma {:induction false} FirstMatchMeans(slots: seq<Clock>, clockId: nat)
    ensures match FirstMatch(slots, clockId)
            case Some(i) => i < |slots| && Matches(slots[i], clockId)
                            && forall j :: 0 <= j < i ==> !Matches(slots[j], clockId)
            case None => forall j :: 0 <= j < |slots| ==> !Matches(slots[j], clockId)
  {
    if slots != [] { FirstMatchMeans(slots[..|slots| - 1], clockId); }
  }

  lemma {:induction false} FirstProducerMeans(slots: seq<Clock>, clockId: nat)
    ensures match FirstProducer(slots, clockId)
            case Some(i) => i < |slots| && Matches(slots[i], clockId) && slots[i].Sends()
                            && forall j :: 0 <= j < i ==> !(Matches(slots[j], clockId) && slots[j].Sends())
            case None => forall j :: 0 <= j < |slots| ==> !(Matches(slots[j], clockId) && slots[j].Sends())
  {
    if slots != [] { FirstProducerMeans(slots[..|slots| - 1], clockId); }
  }

  /**
   A lookup fails exactly when no allocated slot has the id, never returns a silent duplicate of a producer, and passes
   over a slot with the id only for the first producer with a node.
   */
  lemma {:induction false} FindMeans(slots: seq<Clock>, clockId: nat)
    ensures Find(slots, clockId).None? <==> forall j :: 0 <= j < |slots| ==> !Matches(slots[j], clockId)
    ensures Find(slots, clockId).Some? ==>
              var i := Find(slots, clockId).value;
              && i < |slots| && slots[i].isAllocated && slots[i].clockId == clockId
              && forall j :: 0 <= j < i && Matches(slots[j], clockId) ==>
                   slots[i].isProducer && slots[i].node.Some? && !(slots[j].isProducer && slots[j].node.Some?)
    ensures forall j :: 0 <= j < |slots| && Matches(slots[j], clockId) && slots[j].Sends() ==>
              Find(slots, clockId).Some? && slots[Find(slots, clockId).value].Sends()
  {
    FirstMatchMeans(slots, clockId);
    FirstProducerMeans(slots, clockId);
  }

  /** With unique ids a lookup finds the one slot that has the id. */
  lemma FindUnique(slots: seq<Clock>, i: nat)
    requires UniqueIds(slots) && i < |slots| && slots[i].isAllocated
    ensures Find(slots, slots[i].clockId) == Some(i)
  {
    FindMeans(slots, slots[i].clockId);
    assert Matches(slots[i], slots[i].clockId);
  }

  /** Index of the first free slot. */
  function FirstFree(slots: seq<Clock>): (i: nat)
    ensures i <= |slots|
    ensures i < |slots| ==> !slots[i].isAllocated
    ensures forall j :: 0 <= j < i ==> slots[j].isAllocated
  {
    if slots == [] then 0
    else
      var i := FirstFree(slots[..|slots| - 1]);
      if i < |slots| - 1 then i
      else if slots[|slots| - 1].isAllocated then |slots| else |slots| - 1
  }

  function NewSlot(clockId: nat): Clock {
    ZeroedClock().(clockId := clockId, isAllocated := true)
  }

  class BroadcastTime {
    const clocks: array<BroadcastClock>
    var lastTick: nat

    ghost predicate Valid()
      reads this, clocks
    {
      && lastTick < BYTE
      && forall i, j :: 0 <= i < j < clocks.Length ==> clocks[i] != clocks[j]
    }

    ghost function Slots(): set<BroadcastClock>
      reads clocks
    {
      set c | c in clocks[..]
    }

    ghost function Values(): (v: seq<Clock>)
      reads this, clocks, clocks[..]
      ensures |v| == clocks.Length
      ensures forall i :: 0 <= i < |v| ==> v[i] == clocks[i].Value()
    {
      seq(clocks.Length, i requires 0 <= i < clocks.Length reads this, clocks, clocks[..] => clocks[i].Value())
    }

    method FindClockById(clockId: nat) returns (slot: Option<nat>)
      requires Valid()
      ensures slot == Find(Values(), clockId)
      ensures slot.Some? ==> slot.value < clocks.Length
    {
      var firstMatch: Option<nat> := None;
      ghost var v := Values();
      for i := 0 to clocks.Length
        invariant FirstProducer(v[..i], clockId) == None
        invariant firstMatch == FirstMatch(v[..i], clockId)
        invariant firstMatch.Some? ==> firstMatch.value < i
      {
        assert v[..i + 1][..i] == v[..i];
        if clocks[i].isAllocated && clocks[i].clockId == clockId {
          if clocks[i].isProducer && clocks[i].node.Some? {
            FoundProducer(v, clockId, i);
            return Some(i);
          }
          if firstMatch.None? {
            firstMatch := Some(i);
          }
        }
      }
      assert v[..clocks.Length] == v;
      slot := firstMatch;
    }

    method FindOrAllocate(clockId: nat) returns (slot: Option<nat>)
      requires Valid()
      modifies Slots()
      ensures Valid()
      ensures var v := old(Values());
              slot == if Find(v, clockId).Some? then Find(v, clockId)
                      else if FirstFree(v) < |v| then Some(FirstFree(v)) else None
      ensures slot.Some? ==> slot.value < clocks.Length
      ensures Values() == if Find(old(Values()), clockId).Some? || slot.None? then old(Values())
                          else old(Values())[slot.value := NewSlot(clockId)]
    {
      slot := FindClockById(clockId);
      if slot.Some? {
        return;
      }
      ghost var v := Values();
      for i := 0 to clocks.Length
        invariant forall j :: 0 <= j < i ==> v[j].isAllocated
        invariant Values() == v
        invariant slot == None
      {
        var c := clocks[i];
        if !c.isAllocated {
          c.Zero();
          c.clockId := clockId;
          c.isAllocated := true;
          assert FirstFree(v) == i;
          assert Values() == v[i := NewSlot(clockId)];
          return Some(i);
        }
      }
      assert FirstFree(v) == |v|;
    }

    method TriggerQueryReply(clockId: nat)
      requires Valid()
      modifies Slots()
      ensures Valid()
      ensures var v := old(Values()); var f := Find(v, clockId);
              Values() == if f.Some? && v[f.value].isProducer
                          then v[f.value := QueryTriggered(v[f.value])] else v
    {
      FindMeans(Values(), clockId);
      var slot := FindClockById(clockId);
      ghost var v := Values();
      if slot.Some? && clocks[slot.value].isProducer {
        clocks[slot.value].RequestReply();
        assert Values() == v[slot.value := QueryTriggered(v[slot.value])];
      }
    }

    method TriggerSyncDelay(clockId: nat)
      requires Valid()
      modifies Slots()
      ensures Valid()
      ensures var v := old(Values()); var f := Find(v, clockId);
              Values() == if f.Some? && v[f.value].isProducer
                          then v[f.value := SyncTriggered(v[f.value])] else v
    {
      FindMeans(Values(), clockId);
      var slot := FindClockById(clockId);
      ghost var v := Values();
      if slot.Some? && clocks[slot.value].isProducer {
        clocks[slot.value].RequestSync();
        assert Values() == v[slot.value := SyncTriggered(v[slot.value])];
      }
    }

    /**
     One call of the 100 ms tick with the current 8-bit tick count. runStates[i] is the run state
     of slot i's node and accepts[i] whether the transport takes slot i's reply message.
     */
    method TimeTick(currentTick: nat, runStates: seq<nat>, accepts: seq<bool>) returns (out: seq<seq<Output>>)
      requires Valid() && currentTick < BYTE
      requires |runStates| == |accepts| == clocks.Length
      modifies this`lastTick, Slots()
      ensures Valid() && lastTick == currentTick
      ensures |out| == clocks.Length
      ensures var e := U8(currentTick - old(lastTick));
              forall i :: 0 <= i < clocks.Length ==>
                && Values()[i] == Polled(old(Values())[i], e, runStates[i], accepts[i])
                && out[i] == PolledOutputs(old(Values())[i], e, runStates[i], accepts[i])
    {
      hide Tick, TickOutputs, BroadcastClock.Value;
      var elapsed := U8(currentTick - lastTick);
      if elapsed == 0 {
        out := seq(clocks.Length, i => []);
        return;
      }
      lastTick := currentTick;
      out := [];
      ghost var v := Values();
      for i := 0 to clocks.Length
        invariant |out| == i && lastTick == currentTick
        invariant forall j :: i <= j < clocks.Length ==> clocks[j].Value() == v[j]
        invariant forall j :: 0 <= j < i ==>
                    && clocks[j].Value() == Tick(v[j], elapsed, runStates[j], accepts[j])
                    && out[j] == TickOutputs(v[j], elapsed, runStates[j], accepts[j])
      {
        var o := clocks[i].TickSlot(elapsed, runStates[i], accepts[i]);
        out := out + [o];
      }
    }
  }

  /** A poll whose tick count has not moved does nothing. */
  function Polled(c: Clock, elapsed: nat, runState: nat, accept: bool): Clock {
    if elapsed == 0 then c else Tick(c, elapsed, runState, accept)
  }

  function PolledOutputs(c: Clock, elapsed: nat, runState: nat, accept: bool): seq<Output> {
    if elapsed == 0 then [] else TickOutputs(c, elapsed, runState, accept)
  }

  lemma {:induction false} FoundProducer(slots: seq<Clock>, clockId: nat, i: nat)
    requires i < |slots| && FirstProducer(slots[..i], clockId).None?
    requires Matches(slots[i], clockId) && slots[i].Sends()
    ensures FirstProducer(slots, clockId) == Some(i)
  {
    FirstProducerMeans(slots[..i], clockId);
    FirstProducerMeans(slots, clockId);
    forall j | 0 <= j < i
      ensures !(Matches(slots[j], clockId) && slots[j].Sends())
    {
      assert slots[..i][j] == slots[j];
    }
  }

  /** Allocation keeps ids unique and, if it succeeds, leaves exactly one slot with the id. */
  lemma AllocationKeepsUnique(slots: seq<Clock>, clockId: nat)
    requires UniqueIds(slots) && Find(slots, clockId).None? && FirstFree(slots) < |slots|
    ensures var s := slots[FirstFree(slots) := NewSlot(clockId)];
            UniqueIds(s) && Find(s, clockId) == Some(FirstFree(slots))
    ensures NewSlot(clockId) == Clock(clockId, DateTime(0, 0, 0, 0, 0), 0, false, 0, false, false, true,
                                      false, false, 0, 0, 0, 0, None)
  {
    var f := FirstFree(slots);
    var s := slots[f := NewSlot(clockId)];
    FindMeans(slots, clockId);
    assert forall j :: 0 <= j < |slots| ==> !Matches(slots[j], clockId);
    FindUnique(s, f);
  }
}
