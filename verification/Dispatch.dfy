/**
 The main state machine: one non-blocking step per call, with sibling dispatch of everything sent.
 The step is specified on values, with a log of what it did; the machine in memory performs it.
 */
module Dispatch {
  import opened Words
  import opened NodeTable

  const MTI_VERIFY_NODE_ID_GLOBAL: nat := 0x0490

  datatype Msg = Msg(mti: nat, sourceAlias: nat, sourceId: nat, destAlias: nat, destId: nat,
                     payload: seq<nat>, loopback: bool, invalid: bool)

  /** What a node looks like when a step consults it. */
  datatype Node = Node(id: nat, alias: nat, runState: nat, initialized: bool)

  /** What a protocol handler does when it is entered: perhaps a reply, and whether it wants to be re-entered. */
  datatype Handling = Handling(reply: Option<Msg>, enumerate: bool)

  /** Everything a step takes from its surroundings. */
  datatype Input = Input(nodes: seq<Node>, accept: bool, handling: Handling, popped: Option<Msg>)

  /** MASK_DEST_ADDRESS_PRESENT is bit 3 of the MTI. */
  predicate Addressed(mti: nat) {
    mti / 8 % 2 == 1
  }

  /** The filter in front of every handler. */
  predicate DoesNodeProcess(node: Node, msg: Msg) {
    && !(msg.loopback && node.id == msg.sourceId)
    && node.initialized
    && (|| !Addressed(msg.mti)
        || node.alias == msg.destAlias || node.id == msg.destId
        || msg.mti == MTI_VERIFY_NODE_ID_GLOBAL)
  }

  // ---- State ----

  /** Where the sibling context's incoming pointer points. */
  datatype Source = Nothing | MainOutgoing | QueueSlot(slot: nat)

  datatype MainContext = MainContext(node: Option<nat>, incoming: Option<Msg>, enumerate: bool, outgoing: Msg, valid: bool)

  datatype SiblingContext = SiblingContext(node: Option<nat>, source: Source, enumerate: bool, outgoing: Msg, valid: bool)

  /** The response queue's slots and indices. */
  datatype Ring = Ring(slots: seq<Msg>, head: nat, tail: nat, highWater: nat)

  datatype State = State(main: MainContext, sibling: SiblingContext, active: bool, queue: Ring)

  /**
   What a step did, as seen from outside. A visit reports the node as it was and the message as it was
   read, whether the handlers were called, whether the filter let them act, whether the context's
   outgoing slot was free when they were called, and, in the main context, whether they want to be
   re-entered.
   */
  datatype Event =
    | Loaded(msg: Msg)
    | MainSent(msg: Msg)
    | SiblingLoaded(msg: Msg)
    | SiblingSent(msg: Msg)
    | QueueRound(msg: Msg)
    | Visit(node: nat, msg: Msg, seen: Node, offered: bool, handled: bool, slotFree: bool)
    | SiblingReentry(at: Option<nat>, handled: bool, slotFree: bool)
    | Finished
    | Popped(msg: Msg)
    | Discarded(msg: Msg)
    | MainVisit(node: nat, msg: Msg, seen: Node, offered: bool, handled: bool, slotFree: bool, more: bool)
    | MainReentry(node: nat, msg: Msg, handled: bool, slotFree: bool, more: bool)
    | Freed(msg: Msg)

  datatype Result = Result(state: State, events: seq<Event>)

  // ---- The response queue ----

  function Succ(r: Ring, i: nat): nat
    requires |r.slots| > 0
  {
    U8(i + 1) % |r.slots|
  }

  predicate Full(r: Ring)
    requires |r.slots| > 0
  {
    Succ(r, r.tail) == r.head
  }

  /** A queued copy is marked as loopback. */
  function Copied(m: Msg): Msg {
    m.(loopback := true, invalid := false)
  }

  /** A full queue silently drops the message. */
  function PushRing(r: Ring, m: Msg): Ring
    requires r.tail < |r.slots|
  {
    if Full(r) then r
    else
      var s := r.(slots := r.slots[r.tail := Copied(m)], tail := Succ(r, r.tail));
      var depth := (s.tail + |s.slots| - s.head) % |s.slots|;
      s.(highWater := if depth > s.highWater then depth else s.highWater)
  }

  // ---- Steps ----

  /** The message the sibling context reads through its pointer. */
  function SiblingIncoming(s: State): Option<Msg> {
    match s.sibling.source
    case Nothing => None
    case MainOutgoing => Some(s.main.outgoing)
    case QueueSlot(i) => if i < |s.queue.slots| then Some(s.queue.slots[i]) else None
  }

  predicate NodeHandles(input: Input, node: Option<nat>, msg: Option<Msg>) {
    node.Some? && node.value < |input.nodes| && msg.Some? && DoesNodeProcess(input.nodes[node.value], msg.value)
  }

  /** process_main_statemachine on the main context. */
  function ProcessMain(s: State, input: Input): State {
    if !NodeHandles(input, s.main.node, s.main.incoming) then s
    else
      var m := s.main.(enumerate := input.handling.enumerate);
      match input.handling.reply
      case None => s.(main := m)
      case Some(r) => s.(main := m.(outgoing := r.(loopback := m.outgoing.loopback), valid := true))
  }

  function LoadEvents(input: Input, handled: bool, main: bool): seq<Event> {
    if handled && input.handling.reply.Some? then
      [if main then Loaded(input.handling.reply.value.(loopback := false)) else SiblingLoaded(input.handling.reply.value)]
    else []
  }

  /** process_main_statemachine on the sibling context. */
  function ProcessSibling(s: State, input: Input): State {
    if !NodeHandles(input, s.sibling.node, SiblingIncoming(s)) then s
    else
      var b := s.sibling.(enumerate := input.handling.enumerate);
      match input.handling.reply
      case None => s.(sibling := b)
      case Some(r) => s.(sibling := b.(outgoing := r, valid := true))
  }

  /** The main outgoing slot is given up at the end of its round. */
  function ClearMainSlot(s: State): State {
    s.(main := s.main.(outgoing := s.main.outgoing.(loopback := false), valid := false))
  }

  /** Priority 1: send the main outgoing message and begin its round. */
  function SendMain(n: nat, s: State, input: Input): Result {
    if !input.accept then Result(s, [])
    else if n <= 1 then
      Result(s.(main := s.main.(valid := false)), [MainSent(s.main.outgoing), Finished])
    else
      Result(s.(main := s.main.(outgoing := s.main.outgoing.(loopback := true)),
                sibling := s.sibling.(source := MainOutgoing, enumerate := false, node := FirstNode(n)),
                active := true),
             [MainSent(s.main.outgoing)])
  }

  /** Priority 2a: send the pending sibling response and queue it for its own round. */
  function SendSibling(s: State, input: Input): Result
    requires s.queue.tail < |s.queue.slots|
  {
    if !input.accept then Result(s, [])
    else Result(s.(queue := PushRing(s.queue, s.sibling.outgoing), sibling := s.sibling.(valid := false)),
                [SiblingSent(s.sibling.outgoing)])
  }

  /** Priority 2b: re-enter the sibling handler. */
  function ReenterSibling(s: State, input: Input): Result {
    var handled := NodeHandles(input, s.sibling.node, SiblingIncoming(s));
    Result(ProcessSibling(s, input),
           [SiblingReentry(s.sibling.node, handled, !s.sibling.valid)] + LoadEvents(input, handled, false))
  }

  /** Priority 2c with a node: show it the message if it is running, then move on. */
  function VisitSibling(n: nat, s: State, input: Input): Result
    requires s.sibling.node.Some? && s.sibling.node.value < |input.nodes| && SiblingIncoming(s).Some?
  {
    var k := s.sibling.node.value;
    var seen := input.nodes[k];
    var offered := seen.runState == RUNSTATE_RUN;
    var handled := offered && NodeHandles(input, s.sibling.node, SiblingIncoming(s));
    var p := if offered then ProcessSibling(s, input) else s;
    var q := p.(sibling := p.sibling.(node := NextNode(n, k)));
    var done := q.sibling.node.None? && !q.sibling.valid;
    var visit := [Visit(k, SiblingIncoming(s).value, seen, offered, handled, !s.sibling.valid)]
                 + LoadEvents(input, handled, false);
    if done
    then Result(ClearMainSlot(q.(active := false, sibling := q.sibling.(source := Nothing))), visit + [Finished])
    else Result(q, visit)
  }

  /** Priority 2c without a node: the last response is out, the round is over. */
  function FinishDeferred(s: State): State {
    ClearMainSlot(s.(active := false, sibling := s.sibling.(source := Nothing)))
  }

  /** Priority 2.5: the oldest queued response gets its round. */
  function StartQueueRound(n: nat, s: State): Result
    requires s.queue.head < |s.queue.slots|
  {
    var i := s.queue.head;
    Result(s.(queue := s.queue.(head := Succ(s.queue, i)), active := true,
              sibling := s.sibling.(source := QueueSlot(i), enumerate := false, node := FirstNode(n))),
           [QueueRound(s.queue.slots[i])])
  }

  /** Priority 3: re-enter the main handler. */
  function ReenterMain(s: State, input: Input): Result
    requires s.main.node.Some? && s.main.incoming.Some?
  {
    var handled := NodeHandles(input, s.main.node, s.main.incoming);
    var p := ProcessMain(s, input);
    Result(p, [MainReentry(s.main.node.value, s.main.incoming.value, handled, !s.main.valid, p.main.enumerate)]
              + LoadEvents(input, handled, true))
  }

  /** Priorities 5 and 6: the main context's node becomes the given one, or the message is freed. */
  function MoveMain(s: State, input: Input, node: Option<nat>): Result
    requires s.main.incoming.Some? && (node.Some? ==> node.value < |input.nodes|)
  {
    var m := s.main.incoming.value;
    match node
    case None => Result(s.(main := s.main.(node := None, incoming := None)), [Freed(m)])
    case Some(k) =>
      var moved := s.(main := s.main.(node := node));
      var seen := input.nodes[k];
      var offered := seen.runState == RUNSTATE_RUN;
      var handled := offered && NodeHandles(input, node, moved.main.incoming);
      var p := if offered then ProcessMain(moved, input) else moved;
      Result(p, [MainVisit(k, m, seen, offered, handled, !s.main.valid, p.main.enumerate)]
                + LoadEvents(input, handled, true))
  }

  /** Priorities 3 to 6. */
  function Incoming(n: nat, s: State, input: Input): Result
    requires n == |input.nodes| && (s.main.node.Some? <==> s.main.incoming.Some?)
    requires s.main.enumerate ==> s.main.node.Some?
  {
    if s.main.enumerate then ReenterMain(s, input)
    else match s.main.node
      case Some(k) => MoveMain(s, input, NextNode(n, k))
      case None =>
        match input.popped
        case None => Result(s, [])
        case Some(m) =>
          if m.invalid then Result(s, [Discarded(m)])
          else
            var r := MoveMain(s.(main := s.main.(incoming := Some(m))), input, FirstNode(n));
            Result(r.state, [Popped(m)] + r.events)
  }

  /** Priorities 2.5 to 6. */
  function Idle(n: nat, s: State, input: Input): Result
    requires Shape(n, s, input)
  {
    if s.queue.head != s.queue.tail then StartQueueRound(n, s) else Incoming(n, s, input)
  }

  /** What every step needs of the state: indices in range, and a held message exactly while enumerating. */
  ghost predicate Shape(n: nat, s: State, input: Input) {
    && n == |input.nodes| && n < BYTE
    && s.queue.head < |s.queue.slots| && s.queue.tail < |s.queue.slots| < BYTE
    && (s.main.node.Some? <==> s.main.incoming.Some?)
    && (s.main.enumerate ==> s.main.node.Some?)
    && (s.main.node.Some? ==> s.main.node.value < n)
    && (s.sibling.node.Some? ==> s.sibling.node.value < n)
    && (s.active ==> SiblingIncoming(s).Some?)
  }

  /** One call of run(). */
  function Step(n: nat, s: State, input: Input): Result
    requires Shape(n, s, input)
  {
    if !s.active then
      if s.main.valid then SendMain(n, s, input) else Idle(n, s, input)
    else if s.sibling.valid then SendSibling(s, input)
    else if s.sibling.enumerate then ReenterSibling(s, input)
    else if s.sibling.node.Some? then VisitSibling(n, s, input)
    else
      var r := Idle(n, FinishDeferred(s), input);
      Result(r.state, [Finished] + r.events)
  }

  // ---- The machine in memory ----

  class MainStatemachine {
    var info: MainContext
    var sibling: SiblingContext
    var siblingDispatchActive: bool
    const responseQueue: array<Msg>
    var queueHead: nat
    var queueTail: nat
    var queueHighWater: nat
    const nodes: Nodes

    function Value(): State
      reads this, responseQueue
    {
      State(info, sibling, siblingDispatchActive, Ring(responseQueue[..], queueHead, queueTail, queueHighWater))
    }

    /** The contexts' node pointers are where their own enumeration keys stand. */
    ghost predicate Valid()
      reads this, responseQueue, nodes, nodes.enumIndex, nodes.inUse, nodes.ids
    {
      && nodes.Valid()
      && queueHead < responseQueue.Length && queueTail < responseQueue.Length < BYTE
      && (info.node.Some? ==> nodes.enumIndex[MAIN_KEY] == info.node.value)
      && (sibling.node.Some? ==> nodes.enumIndex[SIBLING_KEY] == sibling.node.value)
    }

    constructor (depth: nat, nodes: Nodes, blank: Msg)
      requires 1 <= depth < BYTE && nodes.Valid()
      ensures Valid() && this.nodes == nodes && fresh(responseQueue)
      ensures Value() == InitialState(depth, blank)
    {
      this.nodes := nodes;
      info := MainContext(None, None, false, blank, false);
      sibling := SiblingContext(None, Nothing, false, blank, false);
      siblingDispatchActive := false;
      responseQueue := new Msg[depth](i => blank);
      queueHead, queueTail, queueHighWater := 0, 0, 0;
    }

    method QueuePush(msg: Msg)
      requires queueHead < responseQueue.Length && queueTail < responseQueue.Length < BYTE
      modifies this`queueTail, this`queueHighWater, responseQueue
      ensures Value() == old(Value()).(queue := PushRing(old(Value()).queue, msg))
    {
      ghost var was := responseQueue[..];
      var nextTail := U8(queueTail + 1) % responseQueue.Length;
      if nextTail == queueHead {
        return;
      }
      responseQueue[queueTail] := msg.(loopback := true, invalid := false);
      assert responseQueue[..] == was[queueTail := Copied(msg)];
      queueTail := nextTail;
      var depth := (queueTail + responseQueue.Length - queueHead) % responseQueue.Length;
      if depth > queueHighWater {
        queueHighWater := depth;
      }
    }

    method QueuePop() returns (slot: Option<nat>)
      requires queueHead < responseQueue.Length < BYTE
      modifies this`queueHead
      ensures if old(queueHead) == queueTail then slot == None && queueHead == old(queueHead)
              else slot == Some(old(queueHead)) && queueHead == Succ(old(Value()).queue, old(queueHead))
    {
      if queueHead == queueTail {
        return None;
      }
      slot := Some(queueHead);
      queueHead := U8(queueHead + 1) % responseQueue.Length;
    }

    method ProcessMainContext(input: Input) returns (log: seq<Event>, handled: bool)
      modifies this`info
      ensures Value() == ProcessMain(old(Value()), input)
      ensures handled == NodeHandles(input, old(info.node), old(info.incoming))
      ensures log == LoadEvents(input, handled, true)
      ensures info.node == old(info.node) && info.incoming == old(info.incoming)
    {
      log := [];
      handled := NodeHandles(input, info.node, info.incoming);
      if handled {
        info := info.(enumerate := input.handling.enumerate);
        if input.handling.reply.Some? {
          info := info.(outgoing := input.handling.reply.value.(loopback := info.outgoing.loopback), valid := true);
          log := [Loaded(input.handling.reply.value.(loopback := false))];
        }
      }
    }

    method ProcessSiblingContext(input: Input) returns (log: seq<Event>, handled: bool)
      modifies this`sibling
      ensures Value() == ProcessSibling(old(Value()), input)
      ensures handled == NodeHandles(input, old(sibling.node), SiblingIncoming(old(Value())))
      ensures log == LoadEvents(input, handled, false)
      ensures sibling.node == old(sibling.node)
    {
      log := [];
      handled := NodeHandles(input, sibling.node, SiblingIncoming(Value()));
      if handled {
        sibling := sibling.(enumerate := input.handling.enumerate);
        if input.handling.reply.Some? {
          sibling := sibling.(outgoing := input.handling.reply.value, valid := true);
          log := [SiblingLoaded(input.handling.reply.value)];
        }
      }
    }

    /** Sends the main outgoing message and points the sibling context at it. */
    method HandleOutgoing(input: Input) returns (log: seq<Event>)
      requires Valid() && info.valid && nodes.count < BYTE
      modifies this`info, this`sibling, this`siblingDispatchActive, nodes.enumIndex
      ensures Valid() && Value() == SendMain(nodes.count, old(Value()), input).state
      ensures log == SendMain(nodes.count, old(Value()), input).events
    {
      log := [];
      if input.accept {
        log := [MainSent(info.outgoing)];
        if nodes.count <= 1 {
          info := info.(valid := false);
          log := log + [Finished];
        } else {
          sibling := sibling.(source := MainOutgoing, enumerate := false);
          info := info.(outgoing := info.outgoing.(loopback := true));
          var first := nodes.GetFirst(SIBLING_KEY);
          sibling := sibling.(node := first);
          siblingDispatchActive := true;
        }
      }
    }

    method SiblingHandleOutgoing(input: Input) returns (log: seq<Event>)
      requires Valid() && sibling.valid
      modifies this`sibling, this`queueTail, this`queueHighWater, responseQueue
      ensures Valid() && Value() == SendSibling(old(Value()), input).state
      ensures log == SendSibling(old(Value()), input).events
    {
      log := [];
      if input.accept {
        QueuePush(sibling.outgoing);
        sibling := sibling.(valid := false);
        log := [SiblingSent(sibling.outgoing)];
      }
    }

    method ClearSlot()
      modifies this`info
      ensures Value() == ClearMainSlot(old(Value()))
      ensures info.node == old(info.node)
    {
      info := info.(outgoing := info.outgoing.(loopback := false), valid := false);
    }

    /** Shows the message to the current sibling, advances, and ends the round after the last one. */
    method DispatchAndAdvance(input: Input) returns (log: seq<Event>)
      requires Valid() && sibling.node.Some? && sibling.node.value < |input.nodes| == nodes.count < BYTE
      requires SiblingIncoming(Value()).Some? && siblingDispatchActive
      modifies this`info, this`sibling, this`siblingDispatchActive, nodes.enumIndex
      ensures Valid()
      ensures Value() == VisitSibling(nodes.count, old(Value()), input).state
      ensures log == VisitSibling(nodes.count, old(Value()), input).events
    {
      hide DoesNodeProcess;
      var k := sibling.node.value;
      var seen := input.nodes[k];
      var msg := SiblingIncoming(Value()).value;
      var slotFree := !sibling.valid;
      var loads, handled := [], false;
      if seen.runState == RUNSTATE_RUN {
        loads, handled := ProcessSiblingContext(input);
      }
      log := [Visit(k, msg, seen, seen.runState == RUNSTATE_RUN, handled, slotFree)] + loads;
      var next := nodes.GetNext(SIBLING_KEY);
      sibling := sibling.(node := next);
      if next.None? {
        if !sibling.valid {
          siblingDispatchActive := false;
          sibling := sibling.(source := Nothing);
          ClearSlot();
          log := log + [Finished];
        }
      }
    }

    method FinishRound()
      modifies this`info, this`sibling, this`siblingDispatchActive
      ensures Value() == FinishDeferred(old(Value()))
      ensures info.node == old(info.node) && sibling.node == old(sibling.node)
    {
      siblingDispatchActive := false;
      sibling := sibling.(source := Nothing);
      ClearSlot();
    }

    method TryReenumerate(input: Input) returns (taken: bool, log: seq<Event>)
      requires Valid() && (info.enumerate ==> info.node.Some? && info.incoming.Some?)
      modifies this`info
      ensures Valid() && taken == old(info.enumerate)
      ensures if taken then Value() == ReenterMain(old(Value()), input).state && log == ReenterMain(old(Value()), input).events
              else Value() == old(Value()) && log == []
    {
      hide DoesNodeProcess;
      taken, log := info.enumerate, [];
      if info.enumerate {
        var k, m, slotFree := info.node.value, info.incoming.value, !info.valid;
        var loads, handled := ProcessMainContext(input);
        log := [MainReentry(k, m, handled, slotFree, info.enumerate)] + loads;
      }
    }

    /** Enumerates the first or the next node for the held message, freeing it when there is none. */
    method EnumerateNode(input: Input, first: bool) returns (log: seq<Event>)
      requires Valid() && info.incoming.Some? && (first <==> info.node.None?)
      requires |input.nodes| == nodes.count < BYTE
      modifies this`info, nodes.enumIndex
      ensures Valid()
      ensures var n := nodes.count;
              var r := MoveMain(old(Value()), input, if first then FirstNode(n) else NextNode(n, old(info.node.value)));
              Value() == r.state && log == r.events
    {
      hide DoesNodeProcess;
      var m := info.incoming.value;
      var node;
      if first {
        node := nodes.GetFirst(MAIN_KEY);
      } else {
        node := nodes.GetNext(MAIN_KEY);
      }
      info := info.(node := node);
      if node.None? {
        info := info.(incoming := None);
        return [Freed(m)];
      }
      var seen := input.nodes[node.value];
      var slotFree := !info.valid;
      var loads, handled := [], false;
      if seen.runState == RUNSTATE_RUN {
        loads, handled := ProcessMainContext(input);
      }
      log := [MainVisit(node.value, m, seen, seen.runState == RUNSTATE_RUN, handled, slotFree, info.enumerate)] + loads;
    }

    /** Priorities 3 to 6. */
    method HandleIncoming(input: Input) returns (log: seq<Event>)
      requires Valid() && Shape(nodes.count, Value(), input)
      modifies this`info, nodes.enumIndex
      ensures Valid()
      ensures Value() == Incoming(nodes.count, old(Value()), input).state
      ensures log == Incoming(nodes.count, old(Value()), input).events
    {
      hide ReenterMain, MoveMain;
      var taken;
      taken, log := TryReenumerate(input);
      if taken {
        return;
      }
      if info.incoming.None? {
        if input.popped.None? {
          return;
        }
        var m := input.popped.value;
        if m.invalid {
          return [Discarded(m)];
        }
        info := info.(incoming := Some(m));
        log := EnumerateNode(input, true);
        return [Popped(m)] + log;
      }
      log := EnumerateNode(input, false);
    }

    /** Priorities 2.5 to 6. */
    method HandleIdle(input: Input) returns (log: seq<Event>)
      requires Valid() && Shape(nodes.count, Value(), input) && !siblingDispatchActive
      modifies this, nodes.enumIndex
      ensures Valid()
      ensures Value() == Idle(nodes.count, old(Value()), input).state
      ensures log == Idle(nodes.count, old(Value()), input).events
    {
      hide Incoming;
      var queued := QueuePop();
      if queued.Some? {
        var i := queued.value;
        sibling := sibling.(source := QueueSlot(i), enumerate := false);
        var first := nodes.GetFirst(SIBLING_KEY);
        sibling := sibling.(node := first);
        siblingDispatchActive := true;
        return [QueueRound(responseQueue[i])];
      }
      log := HandleIncoming(input);
    }

    method Run(input: Input) returns (log: seq<Event>)
      requires Valid() && Shape(nodes.count, Value(), input)
      modifies this, responseQueue, nodes.enumIndex
      ensures Valid()
      ensures Value() == Step(nodes.count, old(Value()), input).state
      ensures log == Step(nodes.count, old(Value()), input).events
    {
      hide SendMain, SendSibling, VisitSibling, Idle, DoesNodeProcess;
      if !siblingDispatchActive {
        if info.valid {
          log := HandleOutgoing(input);
          return;
        }
        log := HandleIdle(input);
        return;
      }
      if sibling.valid {
        log := SiblingHandleOutgoing(input);
        return;
      }
      if sibling.enumerate {
        var at, slotFree := sibling.node, !sibling.valid;
        var loads, handled := ProcessSiblingContext(input);
        return [SiblingReentry(at, handled, slotFree)] + loads;
      }
      if sibling.node.Some? {
        log := DispatchAndAdvance(input);
        return;
      }
      FinishRound();
      log := HandleIdle(input);
      log := [Finished] + log;
    }
  }

  function InitialState(depth: nat, blank: Msg): State {
    State(MainContext(None, None, false, blank, false), SiblingContext(None, Nothing, false, blank, false), false,
          Ring(seq(depth, i => blank), 0, 0, 0))
  }
}
