/** What every node announces at login, and the rules that every run of the login state machine keeps. */
module LoginRules {
  import opened Words
  import opened NodeTable
  import opened Login
  import DispatchRules

  // ---- What a node announces ----

  /** How many messages the login of a node takes. */
  function Total(n: LoginNode): nat {
    1 + |n.producers.ranges| + |n.producers.list| + |n.consumers.ranges| + |n.consumers.list|
  }

  /** A global message of the node, carrying the given payload. */
  predicate GlobalFrom(n: Node, m: Msg, payload: seq<nat>) {
    && m.sourceAlias == n.alias && m.sourceId == n.id && m.destAlias == 0 && m.destId == 0
    && m.payload == payload && !m.loopback && !m.invalid
  }

  /**
   Message j of a node's login: Initialization Complete with the node's identifier, then its producer ranges, producer
   events, consumer ranges and consumer events in list order. The MTI of an event tells the event's state when asked:
   unknown, set or clear.
   */
  predicate Conveys(n: LoginNode, j: nat, m: Msg) {
    var p, c := n.producers, n.consumers;
    var b := 1 + |p.ranges|;
    var d := b + |p.list|;
    var e := d + |c.ranges|;
    && j < Total(n)
    && if j == 0 then m.mti == (if n.simple then 0x0101 else 0x0100) && GlobalFrom(n.node, m, [n.node.id])
       else if j < b then m.mti == 0x0524 && GlobalFrom(n.node, m, [p.ranges[j - 1].start, p.ranges[j - 1].count])
       else if j < d then m.mti in {0x0547, 0x0544, 0x0545} && GlobalFrom(n.node, m, [p.list[j - b]])
       else if j < e then m.mti == 0x04A4 && GlobalFrom(n.node, m, [c.ranges[j - d].start, c.ranges[j - d].count])
       else m.mti in {0x04C7, 0x04C4, 0x04C5} && GlobalFrom(n.node, m, [c.list[j - e]])
  }

  predicate IsEventMti(mti: nat) {
    mti in {0x0547, 0x0544, 0x0545, 0x04C7, 0x04C4, 0x04C5}
  }

  /** What the MTI of an event message tells of the event. */
  predicate TellsState(mti: nat, status: EventStatus) {
    match status
    case StatusUnknown => mti in {0x0547, 0x04C7}
    case StatusSet => mti in {0x0544, 0x04C4}
    case StatusClear => mti in {0x0545, 0x04C5}
  }

  /** How many of them the node has loaded. */
  function Done(n: LoginNode): nat {
    var p, c := n.producers, n.consumers;
    if n.node.runState <= LOAD_INITIALIZATION_COMPLETE then 0
    else if n.node.runState == LOAD_PRODUCER_EVENTS then 1 + p.at.rangeIndex + p.at.index
    else if n.node.runState == LOAD_CONSUMER_EVENTS then 1 + |p.ranges| + |p.list| + c.at.rangeIndex + c.at.index
    else Total(n)
  }

  /** An enumerator on its way: ranges before events. */
  predicate Underway(e: Events) {
    && e.at.rangeIndex <= |e.ranges| && e.at.index <= |e.list|
    && (e.at.index > 0 ==> e.at.rangeIndex == |e.ranges|)
  }

  /** The lists are no longer than the byte indices can count. */
  predicate Small(n: LoginNode) {
    && |n.producers.list| < BYTE && |n.producers.ranges| < BYTE
    && |n.consumers.list| < BYTE && |n.consumers.ranges| < BYTE
  }

  /** Once it has announced itself a node is initialized, and its enumerators run while their events are announced. */
  predicate Started(n: LoginNode) {
    && n.node.initialized
    && (n.producers.at.running <==> n.node.runState == LOAD_PRODUCER_EVENTS)
    && (n.consumers.at.running <==>
          n.node.runState == LOAD_CONSUMER_EVENTS && |n.producers.list| + |n.producers.ranges| > 0)
  }

  predicate NodeInv(n: LoginNode) {
    && Small(n) && n.node.runState <= RUNSTATE_RUN
    && (n.node.runState > LOAD_INITIALIZATION_COMPLETE ==> Started(n))
    && (n.node.runState == LOAD_PRODUCER_EVENTS ==> Underway(n.producers) && n.consumers.at == Enumerator(false, 0, 0))
    && (n.node.runState == LOAD_CONSUMER_EVENTS ==> Underway(n.consumers))
  }

  /** A node whose event handler may ask to be re-entered. */
  predicate Enumerating(n: LoginNode) {
    || (n.node.runState == LOAD_PRODUCER_EVENTS && |n.producers.ranges| + |n.producers.list| > 0)
    || (n.node.runState == LOAD_CONSUMER_EVENTS && |n.consumers.ranges| + |n.consumers.list| > 0)
  }

  predicate Announcing(n: LoginNode) {
    n.node.runState == LOAD_PRODUCER_EVENTS || n.node.runState == LOAD_CONSUMER_EVENTS
  }

  predicate SameLists(a: LoginNode, b: LoginNode) {
    && a.node.id == b.node.id && a.simple == b.simple
    && a.producers.list == b.producers.list && a.producers.ranges == b.producers.ranges
    && a.consumers.list == b.consumers.list && a.consumers.ranges == b.consumers.ranges
  }

  /** From a to b the node has loaded these messages, at most one, and they are the next it owes. */
  predicate Grows(a: LoginNode, b: LoginNode, msgs: seq<Msg>) {
    && SameLists(a, b)
    && (Done(a) > 0 ==> a.node.alias == b.node.alias)
    && |msgs| <= 1 && Done(b) == Done(a) + |msgs|
    && (|msgs| == 1 ==> Conveys(b, Done(a), msgs[0]))
  }

  function Listed(m: Option<Msg>): seq<Msg> {
    match m
    case None => []
    case Some(v) => [v]
  }

  /** How many calls of the handlers and of the completion callback, none refused, are left. */
  function Left(n: LoginNode): nat
    requires NodeInv(n)
  {
    if n.node.runState <= LOAD_INITIALIZATION_COMPLETE then Total(n) + 3
    else if n.node.runState == LOAD_PRODUCER_EVENTS then Total(n) - Done(n) + 3
    else if n.node.runState == LOAD_CONSUMER_EVENTS then Total(n) - Done(n) + 2
    else if n.node.runState == LOGIN_COMPLETE then 1
    else 0
  }

  /** A handler loaded the next message its node owes or moved the node on, the given number of calls closer to the end. */
  ghost predicate Advances(n: LoginNode, r: Load, closer: nat)
    requires NodeInv(n)
  {
    && NodeInv(r.node) && Grows(n, r.node, Listed(r.msg))
    && (r.msg.Some? ==> Announcing(r.node) && !r.msg.value.loopback && !Dispatch.Addressed(r.msg.value.mti))
    && (r.enumerate ==> Enumerating(r.node))
    && Left(r.node) + closer == Left(n)
  }

  lemma InitializationAdvances(n: LoginNode)
    requires NodeInv(n) && n.node.runState == LOAD_INITIALIZATION_COMPLETE
    ensures Advances(n, LoadInitializationComplete(n, false), 1)
  {
  }

  lemma ProducerConveys(n: LoginNode, mti: nat, enumerate: bool)
    requires NodeInv(n) && n.node.runState == LOAD_PRODUCER_EVENTS && mti in {0x0547, 0x0544, 0x0545}
    ensures var r := LoadProducerEvent(n, mti, enumerate); r.msg.Some? ==> Conveys(r.node, Done(n), r.msg.value)
  {
    hide U8;
    SmallSteps(n.producers.at.rangeIndex, n.producers.at.index, n.producers);
  }

  lemma ProducerAdvances(n: LoginNode, mti: nat, enumerate: bool)
    requires NodeInv(n) && n.node.runState == LOAD_PRODUCER_EVENTS && (enumerate ==> Enumerating(n))
    requires mti in {0x0547, 0x0544, 0x0545}
    ensures Advances(n, LoadProducerEvent(n, mti, enumerate), 1)
  {
    hide U8, Conveys;
    ProducerConveys(n, mti, enumerate);
    SmallSteps(n.producers.at.rangeIndex, n.producers.at.index, n.producers);
  }

  lemma ConsumerConveys(n: LoginNode, mti: nat, enumerate: bool)
    requires NodeInv(n) && n.node.runState == LOAD_CONSUMER_EVENTS && mti in {0x04C7, 0x04C4, 0x04C5}
    ensures var r := LoadConsumerEvent(n, mti, enumerate); r.msg.Some? ==> Conveys(r.node, Done(n), r.msg.value)
  {
    hide U8;
    SmallSteps(n.consumers.at.rangeIndex, n.consumers.at.index, n.consumers);
  }

  lemma ConsumerAdvances(n: LoginNode, mti: nat, enumerate: bool)
    requires NodeInv(n) && n.node.runState == LOAD_CONSUMER_EVENTS && (enumerate ==> Enumerating(n))
    requires mti in {0x04C7, 0x04C4, 0x04C5}
    ensures Advances(n, LoadConsumerEvent(n, mti, enumerate), 1)
  {
    hide U8, Conveys;
    ConsumerConveys(n, mti, enumerate);
    SmallSteps(n.consumers.at.rangeIndex, n.consumers.at.index, n.consumers);
  }

  lemma HandleAdvances(n: LoginNode, input: Input, enumerate: bool)
    requires Logging(n) && NodeInv(n) && (enumerate ==> Enumerating(n))
    ensures Advances(n, Handle(n, input, enumerate), if n.node.runState == LOGIN_COMPLETE && !input.complete then 0 else 1)
  {
    hide LoadInitializationComplete, LoadProducerEvent, LoadConsumerEvent, Conveys;
    if n.node.runState == LOAD_INITIALIZATION_COMPLETE {
      InitializationAdvances(n);
    } else if n.node.runState == LOAD_PRODUCER_EVENTS {
      ProducerAdvances(n, ProducerMti(input.status), enumerate);
    } else if n.node.runState == LOAD_CONSUMER_EVENTS {
      ConsumerAdvances(n, ConsumerMti(input.status), enumerate);
    }
  }

  lemma SmallSteps(i: nat, j: nat, e: Events)
    requires |e.list| < BYTE && |e.ranges| < BYTE
    ensures i < |e.ranges| ==> U8(i + 1) == i + 1
    ensures j < |e.list| ==> U8(j + 1) == j + 1
  {
    if i < |e.ranges| { DivModUnique(i + 1, 256, 0, i + 1); }
    if j < |e.list| { DivModUnique(j + 1, 256, 0, j + 1); }
  }

  // ---- The rules of sending, as a reference monitor over the log ----

  datatype Item = Item(node: nat, msg: Msg)

  /**
   loaded: the announcement until every node has seen it. response: a sibling's response not yet on the
   wire. round: the node whose turn it is to see the announcement.
   */
  datatype Progress = Broken | Progress(loaded: Option<Item>, response: Option<Msg>, round: Option<nat>)

  function Rule(n: nat, o: Progress, e: Event): Progress {
    if o.Broken? then Broken
    else match e
      case Loaded(k, m) =>
        if o.loaded.None? && o.round.None? && !m.loopback && !Dispatch.Addressed(m.mti)
        then o.(loaded := Some(Item(k, m))) else Broken
      case Sent(from, m) =>
        if from.Some? && o.loaded == Some(Item(from.value, m)) && o.round.None? then o.(round := Some(0)) else Broken
      case Visit(k, m, seen, offered, handled, slotFree) =>
        if o.round == Some(k) && k < n && o.response.None? && o.loaded.Some? && m == o.loaded.value.msg.(loopback := true)
           && DispatchRules.VisitInOrder(seen, m, offered, handled, slotFree)
        then o.(round := Some(k + 1)) else Broken
      case SiblingLoaded(m) =>
        if o.response.None? && o.round.Some? && o.round.value > 0 then o.(response := Some(m)) else Broken
      case SiblingSent(m) =>
        if o.response == Some(m) && o.round.Some? && o.round.value < n then o.(response := None) else Broken
      case SiblingReentry(_, _) => Broken
      case Finished => if o.round == Some(if n <= 1 then 0 else n) then o.(loaded := None, round := None) else Broken
  }

  function Rules(n: nat, o: Progress, log: seq<Event>): Progress {
    if log == [] then o else Rule(n, Rules(n, o, log[..|log| - 1]), log[|log| - 1])
  }

  lemma {:induction false} RulesConcat(n: nat, o: Progress, a: seq<Event>, b: seq<Event>)
    ensures Rules(n, o, a + b) == Rules(n, Rules(n, o, a), b)
  {
    hide Rule;
    if b == [] {
      assert a + b == a;
    } else {
      var s := a + b;
      assert s[..|s| - 1] == a + b[..|b| - 1];
      RulesConcat(n, o, a, b[..|b| - 1]);
    }
  }

  lemma RulesShort(n: nat, o: Progress, a: Event, b: Event, c: Event)
    ensures Rules(n, o, []) == o
    ensures Rules(n, o, [a]) == Rule(n, o, a)
    ensures Rules(n, o, [a, b]) == Rule(n, Rule(n, o, a), b)
    ensures Rules(n, o, [a, b, c]) == Rule(n, Rule(n, Rule(n, o, a), b), c)
  {
    hide Rule;
    assert [a, b, c][..2] == [a, b] && [a, b][..1] == [a] && [a][..0] == [];
    assert Rules(n, o, [a]) == Rule(n, Rules(n, o, [a][..0]), a);
    assert Rules(n, o, [a, b]) == Rule(n, Rules(n, o, [a, b][..1]), b);
    assert Rules(n, o, [a, b, c]) == Rule(n, Rules(n, o, [a, b, c][..2]), c);
  }

  // ---- What every run keeps between calls ----

  predicate AllNodes(nodes: seq<LoginNode>) {
    forall k :: 0 <= k < |nodes| ==> NodeInv(nodes[k])
  }

  ghost predicate Inv(s: State) {
    && |s.nodes| < BYTE && AllNodes(s.nodes)
    && (s.node.Some? ==> s.node.value < |s.nodes|)
    && (s.enumerate ==> s.node.Some? && Enumerating(s.nodes[s.node.value]))
    && (s.valid ==> s.node.Some? && Announcing(s.nodes[s.node.value]) && !Dispatch.Addressed(s.outgoing.mti))
    && (s.sibling.node.Some? ==> s.sibling.node.value < |s.nodes|)
    && (s.active ==> !s.sibling.enumerate)
    && (s.active <==> s.sibling.attached)
    && (s.active ==> s.valid && s.sibling.node.Some? && |s.nodes| >= 2)
    && (s.active <==> s.outgoing.loopback)
  }

  function Standing(s: State): Progress
    requires s.valid ==> s.node.Some?
  {
    Progress(if s.valid then Some(Item(s.node.value, s.outgoing.(loopback := false))) else None,
             if s.sibling.valid then Some(s.sibling.outgoing) else None,
             if s.active then s.sibling.node else None)
  }

  /** The call enters the main handlers of a sibling. */
  predicate EntersSibling(s: State) {
    && s.active && !s.sibling.valid && SiblingHandles(s)
    && s.nodes[s.sibling.node.value].node.runState == RUNSTATE_RUN
  }

  /** No sibling handler asks to be re-entered, unless the round ends with this call. */
  predicate Calm(s: State, input: Input) {
    EntersSibling(s) && input.handling.enumerate ==> s.sibling.node.value + 1 == |s.nodes|
  }

  /** What node k loaded, in the order of the log. */
  function LoadedBy(k: nat, log: seq<Event>): seq<Msg> {
    if log == [] then []
    else
      var e := log[|log| - 1];
      LoadedBy(k, log[..|log| - 1]) + if e.Loaded? && e.node == k then [e.msg] else []
  }

  /** A call keeps the rules, and each node loads the next message it owes or none. */
  ghost predicate Keeps(s: State, r: Result) {
    && Inv(s) && Inv(r.state) && |r.state.nodes| == |s.nodes|
    && Rules(|s.nodes|, Standing(s), r.events) == Standing(r.state)
    && forall k :: 0 <= k < |s.nodes| ==> Grows(s.nodes[k], r.state.nodes[k], LoadedBy(k, r.events))
  }

  // ---- Each branch of a call keeps the rules ----

  lemma LoadedByShort(k: nat, a: Event, b: Event, c: Event)
    ensures LoadedBy(k, []) == []
    ensures LoadedBy(k, [a]) == if a.Loaded? && a.node == k then [a.msg] else []
    ensures !a.Loaded? && !b.Loaded? ==> LoadedBy(k, [a, b]) == []
    ensures !a.Loaded? && !b.Loaded? && !c.Loaded? ==> LoadedBy(k, [a, b, c]) == []
  {
    assert [a, b, c][..2] == [a, b] && [a, b][..1] == [a] && [a][..0] == [];
    assert LoadedBy(k, [a]) == LoadedBy(k, [a][..0]) + if a.Loaded? && a.node == k then [a.msg] else [];
  }

  lemma StandsStill(n: LoginNode)
    ensures Grows(n, n, [])
  {
  }

  lemma SendLoginKeeps(s: State, input: Input)
    requires Inv(s) && !s.active && s.valid
    ensures Keeps(s, SendLogin(s, input))
  {
    hide NodeInv, Enumerating, Announcing, Grows;
    RulesShort(|s.nodes|, Standing(s), Sent(s.node, s.outgoing), Finished, Finished);
    forall k | 0 <= k < |s.nodes| ensures Grows(s.nodes[k], s.nodes[k], LoadedBy(k, SendLogin(s, input).events)) {
      LoadedByShort(k, Sent(s.node, s.outgoing), Finished, Finished);
      StandsStill(s.nodes[k]);
    }
  }

  lemma SendSiblingKeeps(s: State, input: Input)
    requires Inv(s) && s.active && s.sibling.valid
    ensures Keeps(s, SendSibling(s, input))
  {
    hide NodeInv, Enumerating, Announcing, Grows;
    RulesShort(|s.nodes|, Standing(s), SiblingSent(s.sibling.outgoing), Finished, Finished);
    forall k | 0 <= k < |s.nodes| ensures Grows(s.nodes[k], s.nodes[k], LoadedBy(k, SendSibling(s, input).events)) {
      LoadedByShort(k, SiblingSent(s.sibling.outgoing), Finished, Finished);
      StandsStill(s.nodes[k]);
    }
  }

  lemma ProcessKeeps(s: State, k: nat, input: Input)
    requires Inv(s) && !s.active && !s.valid && s.node == Some(k)
    ensures Keeps(s, Process(s, k, input))
  {
    hide NodeInv, Enumerating, Announcing, Grows, Handle, Left;
    var n := s.nodes[k];
    var r := Process(s, k, input);
    var e := if r.events == [] then Finished else r.events[0];
    RulesShort(|s.nodes|, Standing(s), e, e, e);
    if Logging(n) { HandleAdvances(n, input, s.enumerate); }
    assert r.events == [] || r.events == [e];
    forall j | 0 <= j < |s.nodes| ensures Grows(s.nodes[j], r.state.nodes[j], LoadedBy(j, r.events)) {
      LoadedByShort(j, e, e, e);
      StandsStill(s.nodes[j]);
    }
  }

  /** The events of a visit: the visit itself, the response it may load, and the end of the round after the last node. */
  lemma VisitEvents(s: State, input: Input)
    requires Inv(s) && s.active && !s.sibling.valid && Calm(s, input)
    ensures var r := VisitSibling(s, input);
            && Inv(r.state) && r.state.nodes == s.nodes && r.state.node == s.node
            && 1 <= |r.events| <= 3 && r.events[0].Visit?
            && (|r.events| > 1 ==> r.events[1].SiblingLoaded? || r.events[1].Finished?)
            && (|r.events| > 2 ==> r.events[2].Finished?)
  {
    hide NodeInv, Enumerating, Announcing, Grows, Dispatch.DoesNodeProcess;
  }

  lemma VisitKeepsRules(s: State, input: Input)
    requires Inv(s) && s.active && !s.sibling.valid && Calm(s, input)
    ensures var r := VisitSibling(s, input);
            (r.state.valid ==> r.state.node.Some?) && Rules(|s.nodes|, Standing(s), r.events) == Standing(r.state)
  {
    hide NodeInv, Enumerating, Announcing, Grows, Rules, Dispatch.DoesNodeProcess;
    var r := VisitSibling(s, input);
    var b := if |r.events| > 1 then r.events[1] else Finished;
    var c := if |r.events| > 2 then r.events[2] else Finished;
    RulesShort(|s.nodes|, Standing(s), r.events[0], b, c);
    assert r.events == if |r.events| == 1 then [r.events[0]]
                       else if |r.events| == 2 then [r.events[0], b] else [r.events[0], b, c];
  }

  lemma VisitSiblingKeeps(s: State, input: Input)
    requires Inv(s) && s.active && !s.sibling.valid && Calm(s, input)
    ensures Keeps(s, VisitSibling(s, input))
  {
    hide AllNodes, Enumerating, Announcing, Grows, VisitSibling, Rules, LoadedBy, Standing;
    VisitEvents(s, input);
    VisitKeepsRules(s, input);
    var r := VisitSibling(s, input);
    var b := if |r.events| > 1 then r.events[1] else Finished;
    var c := if |r.events| > 2 then r.events[2] else Finished;
    assert r.events == if |r.events| == 1 then [r.events[0]]
                       else if |r.events| == 2 then [r.events[0], b] else [r.events[0], b, c];
    forall k | 0 <= k < |s.nodes| ensures Grows(s.nodes[k], s.nodes[k], LoadedBy(k, r.events)) {
      LoadedByShort(k, r.events[0], b, c);
      StandsStill(s.nodes[k]);
    }
  }

  lemma MoveToKeeps(s: State, input: Input, node: Option<nat>)
    requires Inv(s) && !s.active && !s.valid && !s.enumerate && (node.Some? ==> node.value < |s.nodes|)
    ensures Keeps(s, MoveTo(s, input, node))
  {
    hide NodeInv, Enumerating, Announcing, Grows, Process;
    var t := s.(node := node);
    RulesShort(|s.nodes|, Standing(s), Finished, Finished, Finished);
    if node.Some? { ProcessKeeps(t, node.value, input); }
    forall k | 0 <= k < |s.nodes| ensures Grows(s.nodes[k], s.nodes[k], LoadedBy(k, [])) {
      StandsStill(s.nodes[k]);
    }
  }

  /** Every call keeps the rules, whatever the wire, the handlers and the application do. */
  lemma StepKeeps(s: State, input: Input)
    requires Inv(s) && Calm(s, input)
    ensures Shape(s) && Keeps(s, Step(s, input))
  {
    hide NodeInv, Enumerating, Announcing, Grows, Process, MoveTo, SendLogin, SendSibling, VisitSibling, Standing, Rules, Keeps;
    if s.active {
      if s.sibling.valid { SendSiblingKeeps(s, input); } else { VisitSiblingKeeps(s, input); }
    } else if s.valid {
      SendLoginKeeps(s, input);
    } else if s.enumerate {
      ProcessKeeps(s, s.node.value, input);
    } else {
      MoveToKeeps(s, input, if s.node.None? then FirstNode(|s.nodes|) else NextNode(|s.nodes|, s.node.value));
    }
  }
}
