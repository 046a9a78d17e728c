/**
 The login state machine: one non-blocking step per call, announcing each node and all its events, with
 sibling dispatch of every announcement. The step is specified on values; the machine in memory performs it.
 */
module Login {
  import opened Words
  import opened NodeTable
  import Dispatch

  type Msg = Dispatch.Msg
  type Node = Dispatch.Node

  const LOAD_INITIALIZATION_COMPLETE: nat := 10
  const LOAD_CONSUMER_EVENTS: nat := 11
  const LOAD_PRODUCER_EVENTS: nat := 12
  const LOGIN_COMPLETE: nat := 13

  const MTI_INITIALIZATION_COMPLETE: nat := 0x0100
  const MTI_INITIALIZATION_COMPLETE_SIMPLE: nat := 0x0101
  const MTI_CONSUMER_RANGE_IDENTIFIED: nat := 0x04A4
  const MTI_PRODUCER_RANGE_IDENTIFIED: nat := 0x0524

  /** The state of an event when it is asked for. */
  datatype EventStatus = StatusUnknown | StatusSet | StatusClear

  function ConsumerMti(status: EventStatus): nat {
    match status
    case StatusUnknown => 0x04C7
    case StatusSet => 0x04C4
    case StatusClear => 0x04C5
  }

  function ProducerMti(status: EventStatus): nat {
    match status
    case StatusUnknown => 0x0547
    case StatusSet => 0x0544
    case StatusClear => 0x0545
  }

  /** The two enumerator indices are bytes. */
  datatype Enumerator = Enumerator(running: bool, index: nat, rangeIndex: nat)

  datatype EventRange = EventRange(start: nat, count: nat)

  datatype Events = Events(list: seq<nat>, ranges: seq<EventRange>, at: Enumerator)

  datatype LoginNode = LoginNode(node: Node, simple: bool, producers: Events, consumers: Events)

  /** Everything a step takes from its surroundings: the wire, the main handlers, an event's state, the application. */
  datatype Input = Input(accept: bool, handling: Dispatch.Handling, status: EventStatus, complete: bool)

  datatype Sibling = Sibling(node: Option<nat>, attached: bool, enumerate: bool, outgoing: Msg, valid: bool)

  datatype State = State(nodes: seq<LoginNode>, node: Option<nat>, outgoing: Msg, valid: bool, enumerate: bool,
                         sibling: Sibling, active: bool)

  datatype Event =
    | Loaded(node: nat, msg: Msg)
    | Sent(from: Option<nat>, msg: Msg)
    | SiblingLoaded(msg: Msg)
    | SiblingSent(msg: Msg)
    | Visit(node: nat, msg: Msg, seen: Node, offered: bool, handled: bool, slotFree: bool)
    | SiblingReentry(at: Option<nat>, handled: bool)
    | Finished

  datatype Result = Result(state: State, events: seq<Event>)

  // ---- The messages ----

  /** A global message from a node. The payload stands for the node or event identifier it carries. */
  function Announce(node: Node, mti: nat, payload: seq<nat>): Msg {
    Dispatch.Msg(mti, node.alias, node.id, 0, 0, payload, false, false)
  }

  function InitializationComplete(n: LoginNode): Msg {
    Announce(n.node, if n.simple then MTI_INITIALIZATION_COMPLETE_SIMPLE else MTI_INITIALIZATION_COMPLETE, [n.node.id])
  }

  /** The identifier of a range is made from its start and its length. */
  function RangeIdentified(n: Node, mti: nat, r: EventRange): Msg {
    Announce(n, mti, [r.start, r.count])
  }

  function EventIdentified(n: Node, mti: nat, event: nat): Msg {
    Announce(n, mti, [event])
  }

  // ---- The handlers ----

  /** The node after a handler, the message it loaded if any, and the enumerate flag it leaves. */
  datatype Load = Load(node: LoginNode, msg: Option<Msg>, enumerate: bool)

  const RESTARTED := Enumerator(true, 0, 0)
  const STOPPED := Enumerator(false, 0, 0)

  function RunState(n: LoginNode, s: nat): LoginNode {
    n.(node := n.node.(runState := s))
  }

  function LoadInitializationComplete(n: LoginNode, enumerate: bool): Load {
    Load(n.(node := n.node.(initialized := true, runState := LOAD_PRODUCER_EVENTS),
            producers := n.producers.(at := RESTARTED), consumers := n.consumers.(at := STOPPED)),
         Some(InitializationComplete(n)), enumerate)
  }

  function NextRange(e: Events): Events {
    e.(at := e.at.(rangeIndex := U8(e.at.rangeIndex + 1)))
  }

  function NextEvent(e: Events): Events {
    e.(at := e.at.(index := U8(e.at.index + 1)))
  }

  /** Ranges first, then events, then on to the consumers. */
  function LoadProducerEvent(n: LoginNode, mti: nat, enumerate: bool): Load {
    var p := n.producers;
    if |p.list| == 0 && |p.ranges| == 0 then
      Load(RunState(n.(producers := p.(at := p.at.(running := false))), LOAD_CONSUMER_EVENTS), None, enumerate)
    else if p.at.rangeIndex < |p.ranges| then
      Load(n.(producers := NextRange(p)),
           Some(RangeIdentified(n.node, MTI_PRODUCER_RANGE_IDENTIFIED, p.ranges[p.at.rangeIndex])), true)
    else if p.at.index < |p.list| then
      Load(n.(producers := NextEvent(p)), Some(EventIdentified(n.node, mti, p.list[p.at.index])), true)
    else
      Load(RunState(n.(producers := p.(at := STOPPED), consumers := n.consumers.(at := RESTARTED)), LOAD_CONSUMER_EVENTS),
           None, false)
  }

  /** Ranges first, then events, then the login is complete. */
  function LoadConsumerEvent(n: LoginNode, mti: nat, enumerate: bool): Load {
    var c := n.consumers;
    if |c.list| == 0 && |c.ranges| == 0 then
      Load(RunState(n.(consumers := c.(at := c.at.(running := false))), LOGIN_COMPLETE), None, enumerate)
    else if c.at.rangeIndex < |c.ranges| then
      Load(n.(consumers := NextRange(c)),
           Some(RangeIdentified(n.node, MTI_CONSUMER_RANGE_IDENTIFIED, c.ranges[c.at.rangeIndex])), true)
    else if c.at.index < |c.list| then
      Load(n.(consumers := NextEvent(c)), Some(EventIdentified(n.node, mti, c.list[c.at.index])), true)
    else
      Load(RunState(n.(producers := n.producers.(at := STOPPED), consumers := c.(at := STOPPED)), LOGIN_COMPLETE), None, false)
  }

  /** Whether a handler or the completion callback runs for a node in this state. */
  predicate Logging(n: LoginNode) {
    LOAD_INITIALIZATION_COMPLETE <= n.node.runState < RUNSTATE_RUN
  }

  /** The handler for the node's run state. The completion callback may refuse, and is then asked again. */
  function Handle(n: LoginNode, input: Input, enumerate: bool): Load
    requires Logging(n)
  {
    if n.node.runState == LOAD_INITIALIZATION_COMPLETE then LoadInitializationComplete(n, enumerate)
    else if n.node.runState == LOAD_CONSUMER_EVENTS then LoadConsumerEvent(n, ConsumerMti(input.status), enumerate)
    else if n.node.runState == LOAD_PRODUCER_EVENTS then LoadProducerEvent(n, ProducerMti(input.status), enumerate)
    else Load(if input.complete then RunState(n, RUNSTATE_RUN) else n, None, enumerate)
  }

  // ---- Steps ----

  /** A handler's result for node k. An event handler that loads nothing gives up the slot. */
  function Applied(s: State, k: nat, r: Load, releases: bool): Result
    requires k < |s.nodes|
  {
    var t := s.(nodes := s.nodes[k := r.node], enumerate := r.enumerate);
    match r.msg
    case Some(m) => Result(t.(outgoing := m.(loopback := s.outgoing.loopback), valid := true), [Loaded(k, m)])
    case None => Result(t.(valid := s.valid && !releases), [])
  }

  function Process(s: State, k: nat, input: Input): Result
    requires k < |s.nodes|
  {
    var n := s.nodes[k];
    if Logging(n) then Applied(s, k, Handle(n, input, s.enumerate), n.node.runState != LOGIN_COMPLETE) else Result(s, [])
  }

  /** What the sibling context reads: the login's outgoing message. */
  function SiblingIncoming(s: State): Option<Msg> {
    if s.sibling.attached then Some(s.outgoing) else None
  }

  predicate SiblingHandles(s: State) {
    && s.sibling.node.Some? && s.sibling.node.value < |s.nodes| && s.sibling.attached
    && Dispatch.DoesNodeProcess(s.nodes[s.sibling.node.value].node, s.outgoing)
  }

  /** The main protocol handlers on the sibling context. */
  function ProcessSibling(s: State, input: Input): State {
    if !SiblingHandles(s) then s
    else
      var b := s.sibling.(enumerate := input.handling.enumerate);
      match input.handling.reply
      case None => s.(sibling := b)
      case Some(r) => s.(sibling := b.(outgoing := r, valid := true))
  }

  function LoadEvents(input: Input, handled: bool): seq<Event> {
    if handled && input.handling.reply.Some? then [SiblingLoaded(input.handling.reply.value)] else []
  }

  /** Priority 1. */
  function SendLogin(s: State, input: Input): Result {
    var n := |s.nodes|;
    if !input.accept then Result(s, [])
    else if n <= 1 then Result(s.(valid := false), [Sent(s.node, s.outgoing), Finished])
    else
      Result(s.(outgoing := s.outgoing.(loopback := true), active := true,
                sibling := s.sibling.(attached := true, enumerate := false, node := FirstNode(n))),
             [Sent(s.node, s.outgoing)])
  }

  /** Priority 2a: unlike in the main state machine, the response gets no round of its own. */
  function SendSibling(s: State, input: Input): Result {
    if !input.accept then Result(s, [])
    else Result(s.(sibling := s.sibling.(valid := false)), [SiblingSent(s.sibling.outgoing)])
  }

  /** Priority 2b. */
  function ReenterSibling(s: State, input: Input): Result {
    var handled := SiblingHandles(s);
    Result(ProcessSibling(s, input), [SiblingReentry(s.sibling.node, handled)] + LoadEvents(input, handled))
  }

  function ClearSlot(s: State): State {
    s.(outgoing := s.outgoing.(loopback := false), valid := false)
  }

  /** Priority 2c: the round ends after the last node, even with its response still to be sent. */
  function VisitSibling(s: State, input: Input): Result
    requires s.sibling.node.Some? && s.sibling.node.value < |s.nodes| && s.sibling.attached
  {
    var k := s.sibling.node.value;
    var seen := s.nodes[k].node;
    var offered := seen.runState == RUNSTATE_RUN;
    var handled := offered && SiblingHandles(s);
    var p := if offered then ProcessSibling(s, input) else s;
    var q := p.(sibling := p.sibling.(node := NextNode(|s.nodes|, k)));
    var visit := [Visit(k, s.outgoing, seen, offered, handled, !s.sibling.valid)] + LoadEvents(input, handled);
    if q.sibling.node.None?
    then Result(ClearSlot(q.(active := false, sibling := q.sibling.(attached := false))), visit + [Finished])
    else Result(q, visit)
  }

  /** Priorities 4 and 5: the node becomes the given one, and is processed unless it is running. */
  function MoveTo(s: State, input: Input, node: Option<nat>): Result
    requires node.Some? ==> node.value < |s.nodes|
  {
    var t := s.(node := node);
    if node.None? || s.nodes[node.value].node.runState >= RUNSTATE_RUN then Result(t, []) else Process(t, node.value, input)
  }

  /** Priorities 3 to 5. */
  function Idle(s: State, input: Input): Result
    requires Shape(s)
  {
    if s.enumerate then Process(s, s.node.value, input)
    else if s.node.None? then MoveTo(s, input, FirstNode(|s.nodes|))
    else MoveTo(s, input, NextNode(|s.nodes|, s.node.value))
  }

  /** What every step needs of the state. */
  ghost predicate Shape(s: State) {
    && |s.nodes| < BYTE
    && (s.node.Some? ==> s.node.value < |s.nodes|)
    && (s.enumerate ==> s.node.Some?)
    && (s.sibling.node.Some? ==> s.sibling.node.value < |s.nodes|)
    && (s.active ==> s.sibling.attached)
  }

  /** One call of run(). */
  function Step(s: State, input: Input): Result
    requires Shape(s)
  {
    if !s.active then
      if s.valid then SendLogin(s, input) else Idle(s, input)
    else if s.sibling.valid then SendSibling(s, input)
    else if s.sibling.enumerate then ReenterSibling(s, input)
    else if s.sibling.node.Some? then VisitSibling(s, input)
    else Idle(s.(active := false), input)
  }
}
