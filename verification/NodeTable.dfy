/** The node pool and its enumeration by independent keys. */
module NodeTable {
  import opened Words

  const MAX_NODE_ENUM_KEYS: nat := 10
  const MAIN_KEY: nat := 4
  const LOGIN_KEY: nat := 5
  const SIBLING_KEY: nat := 8
  const LOGIN_SIBLING_KEY: nat := 9

  /** Run state of a node that has logged in. */
  const RUNSTATE_RUN: nat := 14

  function FirstNode(count: nat): Option<nat> {
    if count == 0 then None else Some(0)
  }

  /** The enumeration indices are bytes; get_next compares the incremented byte with the node count. */
  function NextIndex(index: nat): nat {
    U8(index + 1)
  }

  function NextNode(count: nat, index: nat): Option<nat> {
    if NextIndex(index) >= count then None else Some(NextIndex(index))
  }

  class Nodes {
    const depth: nat
    var count: nat
    const enumIndex: array<nat>
    const inUse: array<bool>
    const ids: array<nat>

    ghost predicate Valid()
      reads this, enumIndex, inUse, ids
    {
      && enumIndex.Length == MAX_NODE_ENUM_KEYS && inUse.Length == ids.Length == depth && depth < WORD
      && count <= depth && ids != enumIndex
      && (forall i :: 0 <= i < depth ==> inUse[i] == (i < count))
      && forall k :: 0 <= k < MAX_NODE_ENUM_KEYS ==> enumIndex[k] < BYTE
    }

    constructor (depth: nat)
      requires 1 <= depth < WORD
      ensures Valid() && this.depth == depth && count == 0
      ensures fresh(enumIndex) && fresh(inUse) && fresh(ids)
    {
      this.depth, count := depth, 0;
      enumIndex := new nat[MAX_NODE_ENUM_KEYS](i => 0);
      inUse := new bool[depth](i => false);
      ids := new nat[depth](i => 0);
    }

    /** Nodes fill the pool from the front; the pool being full is the only failure. */
    method Allocate(nodeId: nat) returns (node: Option<nat>)
      requires Valid()
      modifies this`count, inUse, ids
      ensures Valid()
      ensures if old(count) == depth then node == None && count == old(count) && ids[..] == old(ids[..])
              else node == Some(old(count)) && count == old(count) + 1
                   && ids[..] == old(ids[..])[old(count) := nodeId]
    {
      for i := 0 to depth
        invariant Valid() && count == old(count) && ids[..] == old(ids[..]) && i <= count
      {
        if !inUse[i] {
          ids[i] := nodeId;
          count := U16(count + 1);
          inUse[i] := true;
          return Some(i);
        }
      }
      return None;
    }

    /** Restarts the enumeration of one key; no other key moves. */
    method GetFirst(key: nat) returns (node: Option<nat>)
      requires Valid()
      modifies enumIndex
      ensures Valid()
      ensures key >= MAX_NODE_ENUM_KEYS ==> node == None && enumIndex[..] == old(enumIndex[..])
      ensures key < MAX_NODE_ENUM_KEYS ==>
                && node == FirstNode(count)
                && enumIndex[..] == old(enumIndex[..])[key := 0]
    {
      if key >= MAX_NODE_ENUM_KEYS {
        return None;
      }
      enumIndex[key] := 0;
      if count == 0 {
        return None;
      }
      return Some(enumIndex[key]);
    }

    /** Moves one key on; no other key moves. */
    method GetNext(key: nat) returns (node: Option<nat>)
      requires Valid()
      modifies enumIndex
      ensures Valid()
      ensures key >= MAX_NODE_ENUM_KEYS ==> node == None && enumIndex[..] == old(enumIndex[..])
      ensures key < MAX_NODE_ENUM_KEYS ==>
                && node == NextNode(count, old(enumIndex[key]))
                && enumIndex[..] == old(enumIndex[..])[key := NextIndex(old(enumIndex[key]))]
    {
      if key >= MAX_NODE_ENUM_KEYS {
        return None;
      }
      enumIndex[key] := U8(enumIndex[key] + 1);
      if enumIndex[key] >= count {
        return None;
      }
      return Some(enumIndex[key]);
    }

    method IsLast(key: nat) returns (last: bool)
      requires Valid()
      ensures last <==> key < MAX_NODE_ENUM_KEYS && count > 0 && enumIndex[key] + 1 >= count
    {
      if key >= MAX_NODE_ENUM_KEYS {
        return false;
      }
      if count == 0 {
        return false;
      }
      return enumIndex[key] >= count - 1;
    }
  }

  /** Calls an application makes with several keys in any order. */
  datatype Call = First(key: nat) | Next(key: nat)

  function Indices(indices: seq<nat>, calls: seq<Call>, n: nat): (r: seq<nat>)
    requires |indices| == MAX_NODE_ENUM_KEYS && n <= |calls|
    ensures |r| == MAX_NODE_ENUM_KEYS
  {
    if n == 0 then indices
    else
      var r := Indices(indices, calls, n - 1);
      match calls[n - 1]
      case First(k) => if k < MAX_NODE_ENUM_KEYS then r[k := 0] else r
      case Next(k) => if k < MAX_NODE_ENUM_KEYS then r[k := NextIndex(r[k])] else r
  }

  /** How many Next calls a key has had since its last First. */
  function Since(calls: seq<Call>, n: nat, key: nat): nat
    requires n <= |calls|
  {
    if n == 0 then 0
    else match calls[n - 1]
      case First(k) => if k == key then 0 else Since(calls, n - 1, key)
      case Next(k) => Since(calls, n - 1, key) + if k == key then 1 else 0
  }

  /** However calls with other keys interleave, a key's index counts its own Next calls since its own First. */
  lemma {:induction false} KeysAreIndependent(indices: seq<nat>, calls: seq<Call>, n: nat, key: nat)
    requires |indices| == MAX_NODE_ENUM_KEYS && n <= |calls| && key < MAX_NODE_ENUM_KEYS
    requires exists i :: 0 <= i < n && calls[i] == First(key)
    ensures Indices(indices, calls, n)[key] == U8(Since(calls, n, key))
  {
    if calls[n - 1] != First(key) {
      KeysAreIndependent(indices, calls, n - 1, key);
      if calls[n - 1].Next? { ModAdd(Since(calls, n - 1, key), 1, 256); }
    }
  }

  /** The k-th node of an enumeration: first, then k times next. */
  function Visited(count: nat, k: nat): Option<nat> {
    if k == 0 then FirstNode(count) else NextNode(count, U8(k - 1))
  }

  /**
   With at most 255 nodes an enumeration visits the nodes 0 to count - 1 in order and then ends.
   With more the byte index wraps before the end, and the enumeration never ends.
   */
  lemma EnumerationEnds(count: nat)
    ensures count <= 255 <==> exists k: nat :: k <= count && Visited(count, k).None?
    ensures count <= 255 ==> Visited(count, count).None? && forall k :: 0 <= k < count ==> Visited(count, k) == Some(k)
    ensures count > 255 ==> forall k: nat :: Visited(count, k).Some?
  {
    if count <= 255 {
      forall k | 0 <= k <= count
        ensures Visited(count, k) == if k < count then Some(k) else None
      {
        if k > 0 {
          DivModUnique(k - 1, 256, 0, k - 1);
          DivModUnique(k, 256, 0, k);
        }
      }
      assert Visited(count, count).None?;
    }
  }
}
