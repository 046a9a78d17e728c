/** The list of messages being assembled, and the timeout that releases abandoned ones. */
module BufferList {
  import opened Words
  import opened BufferStore

  const TIMEOUT_TICKS: nat := 30

  /** The sweep's test: the 8-bit age of a message in assembly has reached the timeout. */
  predicate Expired(currentTick: nat, assemblyTicks: nat) {
    U8((currentTick as int) - assemblyTicks) >= TIMEOUT_TICKS
  }

  function Dropped(s: Slot): Slot {
    var refs := U8((s.refs as int) - 1);
    if refs > 0 then s.(refs := refs) else Slot(false, 0)
  }

  // ---- The list on values ----

  /** A message on the list, with what the sweep reads of it. */
  datatype Entry<T> = Entry(msg: T, inprocess: bool, ticks: nat)

  predicate Due<T>(e: Option<Entry<T>>, currentTick: nat) {
    e.Some? && e.value.inprocess && Expired(currentTick, e.value.ticks)
  }

  /** The sweep empties the slots of expired messages in assembly. */
  function Swept<T>(entries: seq<Option<Entry<T>>>, currentTick: nat): (r: seq<Option<Entry<T>>>)
    ensures |r| == |entries|
    ensures forall i :: 0 <= i < |r| ==> r[i] == if Due(entries[i], currentTick) then None else entries[i]
  {
    seq(|entries|, i requires 0 <= i < |entries| => if Due(entries[i], currentTick) then None else entries[i])
  }

  /** An added message takes the first empty slot, if there is one. */
  function Added<T>(entries: seq<Option<Entry<T>>>, e: Entry<T>): (r: seq<Option<Entry<T>>>)
    ensures |r| == |entries|
    ensures forall i :: 0 <= i < |r| && entries[i].Some? ==> r[i] == entries[i]
  {
    if entries == [] then []
    else if entries[0].None? then [Some(e)] + entries[1..]
    else [entries[0]] + Added(entries[1..], e)
  }

  function Removed<T(==)>(entries: seq<Option<Entry<T>>>, msg: T): (r: seq<Option<Entry<T>>>)
    ensures |r| == |entries|
    ensures forall i :: 0 <= i < |r| ==>
              r[i] == if entries[i].Some? && entries[i].value.msg == msg then None else entries[i]
  {
    seq(|entries|, i requires 0 <= i < |entries| =>
      if entries[i].Some? && entries[i].value.msg == msg then None else entries[i])
  }

  lemma {:induction false} AddedAt<T>(entries: seq<Option<Entry<T>>>, e: Entry<T>, i: nat)
    requires i <= |entries| && forall j :: 0 <= j < i ==> entries[j].Some?
    requires i < |entries| ==> entries[i].None?
    ensures Added(entries, e) == if i < |entries| then entries[i := Some(e)] else entries
  {
    if i > 0 { AddedAt(entries[1..], e, i - 1); }
  }

  function EntryOf(m: Msg): Entry<Msg>
    reads m
  {
    Entry(m, m.inprocess, m.assemblyTicks)
  }

  /** The pool indices of the freed messages, each once. */
  ghost predicate FreedInOrder(msgs: seq<Msg>, freed: set<Msg>, order: seq<nat>) {
    && (forall i :: 0 <= i < |order| ==> order[i] < |msgs|)
    && (forall i, k :: 0 <= i < k < |order| ==> order[i] != order[k])
    && forall j :: 0 <= j < |msgs| ==> (msgs[j] in freed <==> j in order)
  }

  /** The store after the freed messages gave back one reference each. */
  ghost predicate SweptStore(store: Store, pool: Pool, msgs: seq<Msg>, freed: set<Msg>, order: seq<nat>)
    reads store, store.messages, store.messages[..]
  {
    && store.Valid() && store.messages[..] == msgs
    && WellShaped(store.depths, pool) && FreedInOrder(msgs, freed, order)
    && store.Value() == FreeAll(store.depths, pool, order)
  }

  lemma NothingFreed(store: Store)
    requires store.Valid()
    ensures SweptStore(store, store.Value(), store.messages[..], {}, [])
  {
  }

  lemma SweptShape(store: Store, pool: Pool, msgs: seq<Msg>, freed: set<Msg>, order: seq<nat>)
    requires SweptStore(store, pool, msgs, freed, order)
    ensures store.Valid() && store.messages[..] == msgs && WellShaped(store.depths, pool)
    ensures FreedInOrder(msgs, freed, order) && |msgs| == store.depths.Total()
    ensures store.Value() == FreeAll(store.depths, pool, order)
    ensures forall j :: 0 <= j < |msgs| ==>
              store.Slots()[j] == if msgs[j] in freed then Dropped(pool.slots[j]) else pool.slots[j]
  {
    FreeAllSlots(store.depths, pool, order);
  }

  /** Each slot freed once drops one reference, and no other slot changes. */
  lemma {:induction false} FreeAllSlots(d: Depths, p: Pool, order: seq<nat>)
    requires WellShaped(d, p) && forall k :: 0 <= k < |order| ==> order[k] < d.Total()
    requires forall i, k :: 0 <= i < k < |order| ==> order[i] != order[k]
    ensures forall j :: 0 <= j < |p.slots| ==>
              FreeAll(d, p, order).slots[j] == if j in order then Dropped(p.slots[j]) else p.slots[j]
  {
    if order != [] {
      var front, last := order[..|order| - 1], order[|order| - 1];
      FreeAllSlots(d, p, front);
      assert last !in front;
      assert forall j :: j in order <==> j in front || j == last;
    }
  }

  lemma OneMoreFreed(d: Depths, p: Pool, msgs: seq<Msg>, freed: set<Msg>, order: seq<nat>, j: nat)
    requires FreedInOrder(msgs, freed, order) && j < |msgs| && msgs[j] !in freed
    requires forall i, k :: 0 <= i < k < |msgs| ==> msgs[i] != msgs[k]
    requires WellShaped(d, p) && |msgs| == d.Total()
    ensures FreedInOrder(msgs, freed + {msgs[j]}, order + [j])
    ensures FreeAll(d, p, order + [j]) == Free(d, FreeAll(d, p, order), j)
  {
    assert (order + [j])[..|order|] == order;
  }

  class List {
    const list: array<Msg?>

    ghost function Entries(): (r: seq<Option<Entry<Msg>>>)
      reads list, list[..]
      ensures |r| == list.Length
      ensures forall i :: 0 <= i < |r| ==>
                r[i] == if list[i] == null then None else Some(EntryOf(list[i]))
    {
      seq(list.Length, i requires 0 <= i < list.Length reads list, list[..] =>
        if list[i] == null then None else Some(EntryOf(list[i])))
    }

    /** Entries are distinct messages. */
    ghost predicate Valid()
      reads list
    {
      forall i, j :: 0 <= i < j < list.Length && list[i] != null ==> list[i] != list[j]
    }

    constructor (depth: nat)
      ensures Valid() && list.Length == depth && fresh(list)
      ensures forall i :: 0 <= i < depth ==> list[i] == null
    {
      list := new Msg?[depth](i => null);
    }

    /** Stores a message in the first empty slot; null exactly when there is none. */
    method Add(newMsg: Msg) returns (result: Msg?)
      requires Valid()
      modifies list
      ensures newMsg !in old(list[..]) ==> Valid()
      ensures result == null <==> null !in old(list[..])
      ensures result == null ==> list[..] == old(list[..])
      ensures result != null ==>
                && result == newMsg
                && exists i :: 0 <= i < list.Length && null !in old(list[..i]) && old(list[i]) == null
                               && list[..] == old(list[..])[i := newMsg]
      ensures Entries() == Added(old(Entries()), EntryOf(newMsg))
    {
      ghost var was := Entries();
      ghost var entry := EntryOf(newMsg);
      for i := 0 to list.Length
        invariant list[..] == old(list[..]) && null !in list[..i]
      {
        if list[i] == null {
          assert forall j :: 0 <= j < i ==> list[..i][j] != null;
          AddedAt(was, entry, i);
          list[i] := newMsg;
          assert Entries() == was[i := Some(entry)];
          assert list[..] == old(list[..])[i := newMsg];
          return newMsg;
        }
      }
      assert forall j :: 0 <= j < list.Length ==> list[..list.Length][j] != null;
      AddedAt(was, entry, list.Length);
      return null;
    }

    /** The first message with this source, destination and MTI, or null if none has them. */
    method Find(sourceAlias: nat, destAlias: nat, mti: nat) returns (result: Msg?)
      ensures result != null ==>
                && result.sourceAlias == sourceAlias && result.destAlias == destAlias && result.mti == mti
                && exists i :: 0 <= i < list.Length && list[i] == result
                     && forall j :: 0 <= j < i && list[j] != null ==>
                          !(list[j].sourceAlias == sourceAlias && list[j].destAlias == destAlias && list[j].mti == mti)
      ensures result == null ==>
                forall j :: 0 <= j < list.Length && list[j] != null ==>
                  !(list[j].sourceAlias == sourceAlias && list[j].destAlias == destAlias && list[j].mti == mti)
    {
      for i := 0 to list.Length
        invariant forall j :: 0 <= j < i && list[j] != null ==>
                    !(list[j].sourceAlias == sourceAlias && list[j].destAlias == destAlias && list[j].mti == mti)
      {
        var m := list[i];
        if m != null {
          if m.destAlias == destAlias && m.sourceAlias == sourceAlias && m.mti == mti {
            return m;
          }
        }
      }
      return null;
    }

    /** Takes a message off the list without freeing it; null when it is not there. */
    method Release(msg: Msg?) returns (result: Msg?)
      requires Valid()
      modifies list
      ensures Valid()
      ensures result == if msg != null && msg in old(list[..]) then msg else null
      ensures forall i :: 0 <= i < list.Length ==>
                list[i] == if msg != null && old(list[i]) == msg then null else old(list[i])
      ensures Entries() == if msg == null then old(Entries()) else Removed(old(Entries()), msg)
    {
      if msg == null {
        return null;
      }
      for i := 0 to list.Length
        invariant list[..] == old(list[..]) && msg !in list[..i]
      {
        if list[i] == msg {
          list[i] := null;
          return msg;
        }
      }
      return null;
    }

    /**
     The timeout sweep. Exactly the expired messages in assembly leave the list, each giving back one
     reference; every other entry and every other pool slot is as it was.
     */
    method CheckTimeouts(currentTick: nat, store: Store) returns (ghost freed: set<Msg>, ghost order: seq<nat>)
      requires Valid() && store.Valid()
      requires forall i :: 0 <= i < list.Length && list[i] != null ==> list[i] in store.messages[..]
      modifies list, store, store.messages[..]
      ensures Valid() && store.Valid()
      ensures forall m: Msg :: m in freed <==>
                m in old(list[..]) && old(m.inprocess) && Expired(currentTick, old(m.assemblyTicks))
      ensures forall i :: 0 <= i < list.Length ==>
                list[i] == if old(list[i]) != null && old(list[i]) in freed then null else old(list[i])
      ensures forall j :: 0 <= j < store.messages.Length ==>
                store.Slots()[j] == if store.messages[j] in freed then Dropped(old(store.Slots())[j])
                                    else old(store.Slots())[j]
      ensures Entries() == Swept(old(Entries()), currentTick)
      ensures FreedInOrder(store.messages[..], freed, order)
      ensures WellShaped(store.depths, old(store.Value()))
      ensures store.Value() == FreeAll(store.depths, old(store.Value()), order)
    {
      hide Expired, Store.Valid, SweptStore;
      freed, order := {}, [];
      ghost var was := list[..];
      ghost var pool := store.Value();
      ghost var msgs := store.messages[..];
      NothingFreed(store);
      for i := 0 to list.Length
        invariant SweptStore(store, pool, msgs, freed, order)
        invariant store.messages[..] == msgs
        invariant forall k :: i <= k < list.Length ==> list[k] == was[k]
        invariant forall k :: 0 <= k < i ==> list[k] == if was[k] != null && was[k] in freed then null else was[k]
        invariant forall m: Msg :: m in freed <==>
                    m in was[..i] && old(m.inprocess) && Expired(currentTick, old(m.assemblyTicks))
        invariant forall m: Msg :: m in msgs ==>
                    m.inprocess == old(m.inprocess) && m.assemblyTicks == old(m.assemblyTicks)
      {
        var msg := list[i];
        assert was[..i + 1] == was[..i] + [was[i]];
        assert msg != null ==> msg !in was[..i];
        if msg != null && msg.inprocess {
          if ExpiredNow(currentTick, msg) {
            list[i] := null;
            ghost var j :| 0 <= j < |msgs| && msgs[j] == msg;
            FreeOne(store, msg, j, pool, msgs, freed, order);
            freed, order := freed + {msg}, order + [j];
          }
        }
      }
      assert was[..list.Length] == was;
      SweptShape(store, pool, msgs, freed, order);
    }

    static predicate ExpiredNow(currentTick: nat, msg: Msg)
      reads msg
    {
      Expired(currentTick, msg.assemblyTicks)
    }

    static method FreeOne(store: Store, msg: Msg, ghost j: nat, ghost pool: Pool, ghost msgs: seq<Msg>,
                          ghost freed: set<Msg>, ghost order: seq<nat>)
      requires SweptStore(store, pool, msgs, freed, order) && j < |msgs| && msgs[j] == msg && msg !in freed
      modifies store, msg
      ensures SweptStore(store, pool, msgs, freed + {msg}, order + [j]) && OnlyReferencesChange(msg)
    {
      hide Store.Valid, FreeAll, Free, FreedInOrder;
      SweptShape(store, pool, msgs, freed, order);
      Distinct(store);
      OneMoreFreed(store.depths, pool, msgs, freed, order, j);
      store.FreeBuffer(msg, j);
    }
  }

  lemma Distinct(store: Store)
    requires store.Valid()
    ensures forall i, k :: 0 <= i < k < store.messages.Length ==> store.messages[i] != store.messages[k]
    ensures store.messages.Length == store.depths.Total()
  {
  }

  // ---- The 8-bit age and how far apart sweeps may be ----

  lemma AgeWraps(stamp: nat, now: nat)
    requires stamp <= now
    ensures U8((U8(now) as int) - U8(stamp)) == (now - stamp) % 256
  {
    var q := now / 256 - stamp / 256;
    assert (now - stamp) == q * 256 + (U8(now) as int) - U8(stamp);
    ModAdd(q * 256, (U8(now) as int) - U8(stamp), 256);
    DivModUnique(q * 256, 256, q, 0);
  }

  /**
   Sweeps at most 226 ticks apart release a message stamped at the given tick at the first sweep
   where its true age has reached 30 ticks, and at no earlier one.
   */
  lemma {:induction false} ReleasedWhenDue(sweeps: seq<nat>, stamp: nat, j: nat)
    requires j < |sweeps| && sweeps[0] <= stamp <= sweeps[j]
    requires forall k :: 0 <= k < |sweeps| - 1 ==> sweeps[k] <= sweeps[k + 1] <= sweeps[k] + 226
    requires forall k :: 0 <= k < j ==> sweeps[k] < stamp + TIMEOUT_TICKS
    ensures Expired(U8(sweeps[j]), U8(stamp)) <==> sweeps[j] - stamp >= 30
  {
    AgeWraps(stamp, sweeps[j]);
    var age := sweeps[j] - stamp;
    if j > 0 { assert sweeps[(j - 1) + 1] <= sweeps[j - 1] + 226; }
    assert age < 256;
    DivModUnique(age, 256, 0, age);
  }

  /** 226 is as far apart as sweeps may be: one tick more and a due message can look new. */
  lemma LongerGapMisses(start: nat, gap: nat)
    requires 227 <= gap <= 255
    ensures var stamp, due := start, start + 256;
            && due - stamp >= TIMEOUT_TICKS && (due - gap) - stamp < TIMEOUT_TICKS
            && !Expired(U8(due), U8(stamp))
  {
    AgeWraps(start, start + 256);
  }

  /** A message of the given age at one sweep is due at the next, the gap later, and is released there. */
  predicate Caught(gap: nat, age: nat) {
    age < TIMEOUT_TICKS <= age + gap ==> Expired(U8(age + gap), 0)
  }

  /** Every due message is caught for all gaps up to a bound exactly if the bound is at most 226. */
  lemma SafeBound(bound: nat)
    ensures (forall gap: nat, age: nat :: gap <= bound ==> Caught(gap, age)) <==> bound <= 226
  {
    assert !Caught(227, 29);
  }

  // ---- The list cannot fill up ----

  ghost predicate DistinctEntries<T>(entries: seq<Option<T>>) {
    forall i, j :: 0 <= i < j < |entries| && entries[i].Some? ==> entries[i] != entries[j]
  }

  /** A list as long as the pool has messages always has room for a pool message not yet on it. */
  lemma {:induction false} UnlistedFits<T>(entries: seq<Option<T>>, pool: set<T>, m: T)
    requires DistinctEntries(entries) && |entries| >= |pool|
    requires forall i :: 0 <= i < |entries| && entries[i].Some? ==> entries[i].value in pool
    requires m in pool && Some(m) !in entries
    ensures None in entries
  {
    if None !in entries {
      AllDistinct(entries, pool - {m});
    }
  }

  lemma {:induction false} AllDistinct<T>(entries: seq<Option<T>>, pool: set<T>)
    requires DistinctEntries(entries)
    requires forall i :: 0 <= i < |entries| ==> entries[i].Some? && entries[i].value in pool
    ensures |entries| <= |pool|
  {
    if entries != [] {
      var n := |entries| - 1;
      AllDistinct(entries[..n], pool - {entries[n].value});
    }
  }
}
