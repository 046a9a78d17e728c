/** The receive FIFO: a circular buffer of message pointers with one slot more than the pool has messages. */
module BufferFifo {
  import opened Words
  import opened BufferStore

  /** Position i places after tail, wrapping once. */
  function RingAt(len: nat, tail: nat, i: nat): (r: nat)
    requires tail < len && i <= len
    ensures r < len
  {
    if tail + i < len then tail + i else tail + i - len
  }

  /** The n entries from tail on, wrapping at the end of the buffer. */
  function Window<T>(list: seq<T>, tail: nat, n: nat): (w: seq<T>)
    requires tail < |list| && n <= |list|
    ensures |w| == n
  {
    seq(n, i requires 0 <= i < n => list[RingAt(|list|, tail, i)])
  }

  /** Entries between tail and head. */
  function Held(len: nat, head: nat, tail: nat): nat
    requires head < len && tail < len
  {
    if head >= tail then head - tail else head + len - tail
  }

  class Fifo {
    /** Messages in the pool. */
    const depth: nat
    const list: array<Msg?>
    var head: nat
    var tail: nat

    ghost predicate Valid()
      reads this, list
    {
      && 1 <= depth < WORD && list.Length == depth + 1
      && head < list.Length && tail < list.Length
      && forall i :: 0 <= i < |Contents()| ==> Contents()[i] != null
    }

    /** The queued messages, oldest first. */
    ghost function Contents(): seq<Msg?>
      requires head < list.Length && tail < list.Length
      reads this, list
    {
      Window(list[..], tail, Held(list.Length, head, tail))
    }

    constructor (depth: nat)
      requires 1 <= depth < WORD
      ensures Valid() && this.depth == depth && Contents() == [] && fresh(list)
    {
      this.depth := depth;
      list := new Msg?[depth + 1](i => null);
      head, tail := 0, 0;
    }

    /** Queues a message at the end; refused, with null, exactly when as many are queued as the pool has. */
    method Push(newMsg: Msg) returns (result: Msg?)
      requires Valid()
      modifies this`head, list
      ensures Valid() && tail == old(tail)
      ensures if old(|Contents()|) < depth
              then result == newMsg && Contents() == old(Contents()) + [newMsg]
              else result == null && Contents() == old(Contents())
    {
      ghost var before := Contents();
      var next := U16(head + 1);
      if next >= depth + 1 {
        next := 0;
      }
      if next != tail {
        list[head] := newMsg;
        head := next;
        assert Contents() == before + [newMsg];
        return newMsg;
      }
      return null;
    }

    /** Takes the oldest message, or null when none is queued. */
    method Pop() returns (result: Msg?)
      requires Valid()
      modifies this`tail
      ensures Valid() && head == old(head)
      ensures if old(Contents()) == [] then result == null && Contents() == []
              else result == old(Contents())[0] && result != null && Contents() == old(Contents())[1..]
    {
      result := null;
      ghost var before := Contents();
      if head != tail {
        result := list[tail];
        assert result == before[0];
        tail := U16(tail + 1);
        if tail >= depth + 1 {
          tail := 0;
        }
        assert Contents() == before[1..];
      }
    }

    method IsEmpty() returns (empty: bool)
      requires Valid()
      ensures empty <==> Contents() == []
    {
      empty := head == tail;
    }

    method GetAllocatedCount() returns (n: nat)
      requires Valid()
      ensures n == |Contents()|
    {
      if tail > head {
        n := head + (depth + 1 - tail);
      } else {
        n := head - tail;
      }
    }

    /** Marks exactly the queued messages from a released alias; the queue itself does not change. */
    method InvalidateBySourceAlias(alias: nat)
      requires Valid()
      modifies set m: Msg | m in Contents()
      ensures Valid() && Contents() == old(Contents())
      ensures forall m: Msg :: m in old(Contents()) ==>
                && m.invalid == (old(m.invalid) || (alias != 0 && m.sourceAlias == alias))
                && m.sourceAlias == old(m.sourceAlias)
    {
      if alias == 0 {
        return;
      }
      var index := tail;
      ghost var q := Contents();
      ghost var i := 0;
      ghost var passed: set<Msg?> := {};
      while index != head
        invariant i <= |q| && index == RingAt(list.Length, tail, i) && (i == |q| <==> index == head)
        invariant forall k :: 0 <= k < i ==> q[k] in passed
        invariant forall m: Msg :: m in q ==> m.sourceAlias == old(m.sourceAlias)
        invariant forall m: Msg :: m in q ==>
                    m.invalid == (old(m.invalid) || (m.sourceAlias == alias && m in passed))
        decreases |q| - i
      {
        var msg := list[index];
        assert msg == q[i] by { WindowAt(list[..], tail, |q|, i); }
        hide Window;
        MarkFrom(msg, alias);
        passed := passed + {msg};
        index := U16(index + 1);
        if index >= depth + 1 {
          index := 0;
        }
        i := i + 1;
      }
      assert forall m: Msg :: m in q ==> m in passed;
    }

    static method MarkFrom(msg: Msg?, alias: nat)
      modifies if msg == null then {} else {msg}
      ensures msg != null ==> msg.sourceAlias == old(msg.sourceAlias)
                              && msg.invalid == (old(msg.invalid) || msg.sourceAlias == alias)
    {
      if msg != null && msg.sourceAlias == alias {
        msg.invalid := true;
      }
    }
  }

  lemma WindowAt<T>(list: seq<T>, tail: nat, n: nat, i: nat)
    requires tail < |list| && i < n <= |list|
    ensures Window(list, tail, n)[i] == list[RingAt(|list|, tail, i)]
  {
  }

  // ---- The queue cannot overflow ----

  ghost predicate NoDuplicates<T>(q: seq<T>) {
    forall i, j :: 0 <= i < j < |q| ==> q[i] != q[j]
  }

  lemma {:induction false} DistinctFit<T>(q: seq<T>, pool: set<T>)
    requires NoDuplicates(q) && forall i :: 0 <= i < |q| ==> q[i] in pool
    ensures |q| <= |pool|
  {
    if q != [] {
      var last, front := q[|q| - 1], q[..|q| - 1];
      forall i | 0 <= i < |front|
        ensures front[i] in pool - {last}
      {
        assert front[i] == q[i];
      }
      DistinctFit(front, pool - {last});
    }
  }

  /** Pigeonhole: if every queued message is a different pool message, an unqueued one still fits. */
  lemma UnqueuedFits<T>(q: seq<T>, pool: set<T>, m: T)
    requires NoDuplicates(q) && (forall i :: 0 <= i < |q| ==> q[i] in pool) && m in pool && m !in q
    ensures |q| < |pool|
  {
    DistinctFit(q + [m], pool);
  }

  datatype Op<T> = Push(m: T) | Pop

  /** The queue after an operation, of the given capacity. */
  function Apply<T>(q: seq<T>, capacity: nat, op: Op<T>): seq<T> {
    match op
    case Push(m) => if |q| < capacity then q + [m] else q
    case Pop => if q == [] then q else q[1..]
  }

  function Run<T>(q: seq<T>, capacity: nat, ops: seq<Op<T>>, k: nat): seq<T>
    requires k <= |ops|
  {
    if k == 0 then q else Apply(Run(q, capacity, ops, k - 1), capacity, ops[k - 1])
  }

  /**
   Over any run that pushes pool messages only while they are not queued, no push is ever refused
   and no message is ever queued twice.
   */
  lemma {:induction false} PushNeverRefused<T>(pool: set<T>, ops: seq<Op<T>>, k: nat)
    requires k <= |ops|
    requires forall j :: 0 <= j < k && ops[j].Push? ==>
               ops[j].m in pool && ops[j].m !in Run([], |pool|, ops, j)
    ensures var q := Run([], |pool|, ops, k);
            NoDuplicates(q) && forall i :: 0 <= i < |q| ==> q[i] in pool
    ensures k > 0 && ops[k - 1].Push? ==>
              Run([], |pool|, ops, k) == Run([], |pool|, ops, k - 1) + [ops[k - 1].m]
  {
    if k > 0 {
      PushNeverRefused(pool, ops, k - 1);
      if ops[k - 1].Push? {
        UnqueuedFits(Run([], |pool|, ops, k - 1), pool, ops[k - 1].m);
      }
    }
  }
}
