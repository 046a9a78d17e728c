/** The rules of sibling dispatch and of incoming messages, and that every run of the dispatcher keeps them. */
module DispatchRules {
  import opened Words
  import opened NodeTable
  import opened BufferFifo
  import opened Dispatch

  // ---- The rules, as a reference monitor over the log ----

  /** A message being shown to the nodes; next is the node whose turn it is. */
  datatype Round = Round(fromMain: bool, msg: Msg, next: nat)

  /**
   loaded: the main outgoing message until its round is over. response: a sibling's response not yet
   on the wire. round: the round going on. pending: responses on the wire that wait for their round.
   */
  datatype Outgoing =
    | Broken
    | Outgoing(loaded: Option<Msg>, response: Option<Msg>, round: Option<Round>, pending: seq<Msg>)

  predicate VisitInOrder(seen: Node, msg: Msg, offered: bool, handled: bool, slotFree: bool) {
    && (offered <==> seen.runState == RUNSTATE_RUN)
    && (handled <==> offered && DoesNodeProcess(seen, msg))
    && slotFree
  }

  /** The rule for each event with n nodes and room for cap waiting responses. */
  function Rule(n: nat, cap: nat, o: Outgoing, e: Event): Outgoing {
    if o.Broken? then Broken
    else match e
      case Loaded(m) => if o.loaded.None? && o.round.None? && o.pending == [] then o.(loaded := Some(m)) else Broken
      case MainSent(m) =>
        if o.loaded == Some(m) && o.round.None? && o.response.None? && o.pending == []
        then o.(round := Some(Round(true, m.(loopback := true), 0))) else Broken
      case SiblingLoaded(m) => if o.response.None? && o.round.Some? then o.(response := Some(m)) else Broken
      case SiblingSent(m) =>
        if o.response == Some(m) && o.round.Some?
        then o.(response := None, pending := if |o.pending| < cap then o.pending + [Copied(m)] else o.pending)
        else Broken
      case QueueRound(m) =>
        if o.round.None? && o.loaded.None? && o.response.None? && |o.pending| > 0 && o.pending[0] == m
        then o.(round := Some(Round(false, m, 0)), pending := o.pending[1..]) else Broken
      case Visit(k, m, seen, offered, handled, slotFree) =>
        if o.round.Some? && o.response.None? && o.round.value.msg == m && o.round.value.next == k < n
           && VisitInOrder(seen, m, offered, handled, slotFree)
        then o.(round := Some(o.round.value.(next := k + 1))) else Broken
      case SiblingReentry(_, _, _) => Broken
      case Finished =>
        if o.round.Some? && o.response.None?
           && o.round.value.next == (if o.round.value.fromMain && n <= 1 then 0 else n)
        then o.(round := None, loaded := if o.round.value.fromMain then None else o.loaded) else Broken
      case MainVisit(_, _, _, offered, _, _, _) =>
        if offered ==> o.loaded.None? && o.round.None? then o else Broken
      case MainReentry(_, _, _, _, _) => if o.loaded.None? && o.round.None? then o else Broken
      case _ => o
  }

  function Rules(n: nat, cap: nat, o: Outgoing, log: seq<Event>): Outgoing {
    if log == [] then o else Rule(n, cap, Rules(n, cap, o, log[..|log| - 1]), log[|log| - 1])
  }

  /** The message from the wire being shown to the nodes: visited of them so far; more: the last asked to be re-entered. */
  datatype Held = Unheld | Misheld | Held(msg: Msg, visited: nat, more: bool)

  function HeldRule(n: nat, h: Held, e: Event): Held {
    if h.Misheld? then Misheld
    else match e
      case Popped(m) => if h.Unheld? && !m.invalid then Held(m, 0, false) else Misheld
      case Discarded(m) => if h.Unheld? && m.invalid then h else Misheld
      case MainVisit(k, m, seen, offered, handled, slotFree, more) =>
        if h == Held(m, k, false) && k < n && VisitInOrder(seen, m, offered, handled, slotFree)
        then Held(m, k + 1, more) else Misheld
      case MainReentry(k, m, handled, slotFree, more) =>
        if h == Held(m, k + 1, true) && slotFree then Held(m, k + 1, more) else Misheld
      case Freed(m) => if h == Held(m, n, false) then Unheld else Misheld
      case _ => h
  }

  function HeldRules(n: nat, h: Held, log: seq<Event>): Held {
    if log == [] then h else HeldRule(n, HeldRules(n, h, log[..|log| - 1]), log[|log| - 1])
  }

  lemma {:induction false} RulesConcat(n: nat, cap: nat, o: Outgoing, a: seq<Event>, b: seq<Event>)
    ensures Rules(n, cap, o, a + b) == Rules(n, cap, Rules(n, cap, o, a), b)
  {
    hide Rule;
    if b == [] {
      assert a + b == a;
    } else {
      var s := a + b;
      assert s[..|s| - 1] == a + b[..|b| - 1];
      RulesConcat(n, cap, o, a, b[..|b| - 1]);
    }
  }

  lemma {:induction false} HeldConcat(n: nat, h: Held, a: seq<Event>, b: seq<Event>)
    ensures HeldRules(n, h, a + b) == HeldRules(n, HeldRules(n, h, a), b)
  {
    hide HeldRule;
    if b == [] {
      assert a + b == a;
    } else {
      var s := a + b;
      assert s[..|s| - 1] == a + b[..|b| - 1];
      HeldConcat(n, h, a, b[..|b| - 1]);
    }
  }

  // ---- Where a machine state stands in the rules ----

  /** The responses waiting in the ring, oldest first. */
  function Waiting(r: Ring): seq<Msg>
    requires r.head < |r.slots| && r.tail < |r.slots|
  {
    Window(r.slots, r.head, BufferFifo.Held(|r.slots|, r.tail, r.head))
  }

  function Standing(n: nat, s: State): Outgoing
    requires s.queue.head < |s.queue.slots| && s.queue.tail < |s.queue.slots|
    requires s.active ==> SiblingIncoming(s).Some?
  {
    Outgoing(if s.main.valid then Some(s.main.outgoing.(loopback := false)) else None,
             if s.sibling.valid then Some(s.sibling.outgoing) else None,
             if s.active then Some(Round(s.sibling.source.MainOutgoing?, SiblingIncoming(s).value,
                                         if s.sibling.node.Some? then s.sibling.node.value else n))
             else None,
             Waiting(s.queue))
  }

  function Holding(n: nat, s: State): Held {
    if s.main.incoming.None? || s.main.node.None? then Unheld
    else Held(s.main.incoming.value, s.main.node.value + 1, s.main.enumerate)
  }

  /** What every run keeps between calls. */
  ghost predicate Inv(n: nat, s: State) {
    && n < BYTE
    && s.queue.head < |s.queue.slots| && s.queue.tail < |s.queue.slots| < BYTE
    && (s.main.node.Some? <==> s.main.incoming.Some?)
    && (s.main.enumerate ==> s.main.node.Some?)
    && (s.main.node.Some? ==> s.main.node.value < n)
    && (s.sibling.node.Some? ==> s.sibling.node.value < n)
    && (s.active ==> !s.sibling.enumerate)
    && (!s.active ==> !s.sibling.valid && !s.main.outgoing.loopback)
    && (!s.active && s.main.valid ==> s.queue.head == s.queue.tail)
    && (s.active ==> match s.sibling.source
                     case Nothing => false
                     case MainOutgoing => s.main.valid && s.main.outgoing.loopback && n >= 2
                     case QueueSlot(i) =>
                       !s.main.valid && !s.main.outgoing.loopback && i < |s.queue.slots| && Succ(s.queue, i) == s.queue.head)
  }

  /** It is a sibling's turn. */
  predicate SiblingTurn(s: State) {
    s.active && !s.sibling.valid && s.sibling.node.Some?
  }

  /** The call enters the handlers of a sibling. */
  predicate EntersSibling(s: State, input: Input) {
    && SiblingTurn(s) && s.sibling.node.value < |input.nodes|
    && input.nodes[s.sibling.node.value].runState == RUNSTATE_RUN
    && NodeHandles(input, s.sibling.node, SiblingIncoming(s))
  }

  /** No sibling handler asks to be re-entered, unless the round ends with this call: the last node, without a reply. */
  predicate Calm(s: State, input: Input) {
    EntersSibling(s, input) && input.handling.enumerate ==>
      s.sibling.node.value + 1 == |input.nodes| && input.handling.reply.None?
  }

  /** A call keeps the rules: its log takes the standing of the state before to that of the state after. */
  ghost predicate Keeps(n: nat, s: State, r: Result) {
    && Inv(n, s) && Inv(n, r.state) && |r.state.queue.slots| == |s.queue.slots|
    && Rules(n, |s.queue.slots| - 1, Standing(n, s), r.events) == Standing(n, r.state)
    && HeldRules(n, Holding(n, s), r.events) == Holding(n, r.state)
  }

  // ---- The ring refines a queue of capacity one less than its slots ----

  lemma SuccIs(r: Ring, i: nat)
    requires i < |r.slots| < BYTE
    ensures Succ(r, i) == if i + 1 == |r.slots| then 0 else i + 1
  {
    if i + 1 == |r.slots| { DivModUnique(i + 1, |r.slots|, 1, 0); } else { DivModUnique(i + 1, |r.slots|, 0, i + 1); }
  }

  /** A push appends unless the queue holds one less than its slots, and never touches the slot behind the head. */
  lemma PushAppends(r: Ring, m: Msg)
    requires r.head < |r.slots| && r.tail < |r.slots| < BYTE
    ensures var q := PushRing(r, m);
            && q.head == r.head && q.tail < |q.slots| == |r.slots|
            && Waiting(q) == (if |Waiting(r)| < |r.slots| - 1 then Waiting(r) + [Copied(m)] else Waiting(r))
            && forall i :: 0 <= i < |r.slots| && Succ(r, i) == r.head ==> q.slots[i] == r.slots[i]
  {
    SuccIs(r, r.tail);
    forall i | 0 <= i < |r.slots| { SuccIs(r, i); }
  }

  /** Taking the oldest response leaves the rest. */
  lemma PopTakes(r: Ring)
    requires r.head < |r.slots| && r.tail < |r.slots| < BYTE
    ensures r.head == r.tail <==> Waiting(r) == []
    ensures r.head != r.tail ==>
              var q := r.(head := Succ(r, r.head));
              && q.head < |q.slots| && Waiting(r)[0] == r.slots[r.head] && Waiting(q) == Waiting(r)[1..]
  {
    SuccIs(r, r.head);
  }

  // ---- Short logs ----

  lemma RulesShort(n: nat, cap: nat, o: Outgoing, a: Event, b: Event)
    ensures Rules(n, cap, o, []) == o
    ensures Rules(n, cap, o, [a]) == Rule(n, cap, o, a)
    ensures Rules(n, cap, o, [a, b]) == Rule(n, cap, Rule(n, cap, o, a), b)
  {
    hide Rule;
    assert [a, b][..1] == [a] && [a][..0] == [];
    assert Rules(n, cap, o, [a]) == Rule(n, cap, Rules(n, cap, o, [a][..0]), a);
    assert Rules(n, cap, o, [a, b]) == Rule(n, cap, Rules(n, cap, o, [a, b][..1]), b);
  }

  lemma HeldShort(n: nat, h: Held, a: Event, b: Event)
    ensures HeldRules(n, h, []) == h
    ensures HeldRules(n, h, [a]) == HeldRule(n, h, a)
    ensures HeldRules(n, h, [a, b]) == HeldRule(n, HeldRule(n, h, a), b)
  {
    hide HeldRule;
    assert [a, b][..1] == [a] && [a][..0] == [];
    assert HeldRules(n, h, [a]) == HeldRule(n, HeldRules(n, h, [a][..0]), a);
    assert HeldRules(n, h, [a, b]) == HeldRule(n, HeldRules(n, h, [a, b][..1]), b);
  }

  // ---- Each branch of a call keeps the rules ----

  lemma SendMainKeeps(n: nat, s: State, input: Input)
    requires Inv(n, s) && !s.active && s.main.valid && |input.nodes| == n
    ensures Keeps(n, s, SendMain(n, s, input))
  {
    hide Waiting;
    PopTakes(s.queue);
    RulesShort(n, |s.queue.slots| - 1, Standing(n, s), MainSent(s.main.outgoing), Finished);
    HeldShort(n, Holding(n, s), MainSent(s.main.outgoing), Finished);
  }

  lemma SendSiblingKeeps(n: nat, s: State, input: Input)
    requires Inv(n, s) && s.active && s.sibling.valid && |input.nodes| == n
    ensures Keeps(n, s, SendSibling(s, input))
  {
    hide Waiting, PushRing, Succ;
    RulesShort(n, |s.queue.slots| - 1, Standing(n, s), SiblingSent(s.sibling.outgoing), Finished);
    HeldShort(n, Holding(n, s), SiblingSent(s.sibling.outgoing), Finished);
    PushAppends(s.queue, s.sibling.outgoing);
    SameSlots(s.queue, PushRing(s.queue, s.sibling.outgoing));
  }

  lemma SameSlots(r: Ring, q: Ring)
    requires |r.slots| == |q.slots| > 0
    ensures forall i :: Succ(q, i) == Succ(r, i)
  {
  }

  lemma VisitSiblingKeepsInv(n: nat, s: State, input: Input)
    requires Inv(n, s) && SiblingTurn(s) && Calm(s, input) && |input.nodes| == n
    ensures var r := VisitSibling(n, s, input);
            && Inv(n, r.state) && r.state.queue == s.queue && Holding(n, r.state) == Holding(n, s)
            && (|r.events| == 1 || (|r.events| == 2 && (r.events[1].SiblingLoaded? || r.events[1].Finished?)))
            && r.events[0].Visit?
  {
    hide Succ, DoesNodeProcess;
  }

  lemma VisitSiblingKeeps(n: nat, s: State, input: Input)
    requires Inv(n, s) && SiblingTurn(s) && Calm(s, input) && |input.nodes| == n
    ensures Keeps(n, s, VisitSibling(n, s, input))
  {
    hide Waiting, Succ, DoesNodeProcess;
    VisitSiblingKeepsInv(n, s, input);
    var r := VisitSibling(n, s, input);
    var second := if |r.events| > 1 then r.events[1] else Finished;
    RulesShort(n, |s.queue.slots| - 1, Standing(n, s), r.events[0], second);
    HeldShort(n, Holding(n, s), r.events[0], second);
    assert r.events == if |r.events| > 1 then [r.events[0], second] else [r.events[0]];
  }

  lemma FinishDeferredKeeps(n: nat, s: State)
    requires Inv(n, s) && s.active && !s.sibling.valid && s.sibling.node.None?
    ensures Keeps(n, s, Result(FinishDeferred(s), [Finished]))
  {
    hide Waiting, Succ;
    RulesShort(n, |s.queue.slots| - 1, Standing(n, s), Finished, Finished);
    HeldShort(n, Holding(n, s), Finished, Finished);
  }

  lemma StartQueueRoundKeeps(n: nat, s: State)
    requires Inv(n, s) && !s.active && !s.main.valid && s.queue.head != s.queue.tail
    ensures Keeps(n, s, StartQueueRound(n, s))
  {
    hide Waiting, Succ;
    var r := StartQueueRound(n, s);
    RulesShort(n, |s.queue.slots| - 1, Standing(n, s), r.events[0], Finished);
    HeldShort(n, Holding(n, s), r.events[0], Finished);
    PopTakes(s.queue);
    SameSlots(s.queue, r.state.queue);
  }

  lemma ReenterMainKeeps(n: nat, s: State, input: Input)
    requires Inv(n, s) && !s.active && !s.main.valid && s.main.enumerate && |input.nodes| == n
    requires s.queue.head == s.queue.tail
    ensures Keeps(n, s, ReenterMain(s, input))
  {
    hide Waiting, Succ, DoesNodeProcess;
    PopTakes(s.queue);
    var r := ReenterMain(s, input);
    var second := if |r.events| > 1 then r.events[1] else Finished;
    RulesShort(n, |s.queue.slots| - 1, Standing(n, s), r.events[0], second);
    HeldShort(n, Holding(n, s), r.events[0], second);
    assert r.events == if |r.events| > 1 then [r.events[0], second] else [r.events[0]];
  }

  /** What MoveMain starts from: the message held, and the nodes before the given one visited. */
  ghost predicate Moving(n: nat, s: State, node: Option<nat>, visited: nat) {
    && Inv(n, s.(main := s.main.(node := None, incoming := None)))
    && s.main.incoming.Some? && !s.active && !s.main.valid && !s.main.enumerate
    && visited <= n
    && node == (if visited < n then Some(visited) else None)
  }

  lemma MoveMainKeeps(n: nat, s: State, input: Input, node: Option<nat>, visited: nat)
    requires Moving(n, s, node, visited) && |input.nodes| == n && s.queue.head == s.queue.tail
    ensures var r := MoveMain(s, input, node);
            && Inv(n, r.state) && r.state.queue == s.queue
            && Rules(n, |s.queue.slots| - 1, Standing(n, s), r.events) == Standing(n, r.state)
            && HeldRules(n, Held(s.main.incoming.value, visited, false), r.events) == Holding(n, r.state)
  {
    hide Waiting, Succ, DoesNodeProcess;
    PopTakes(s.queue);
    var r := MoveMain(s, input, node);
    var h := Held(s.main.incoming.value, visited, false);
    var second := if |r.events| > 1 then r.events[1] else Finished;
    RulesShort(n, |s.queue.slots| - 1, Standing(n, s), r.events[0], second);
    HeldShort(n, h, r.events[0], second);
    assert r.events == if |r.events| > 1 then [r.events[0], second] else [r.events[0]];
  }

  lemma PopKeeps(n: nat, s: State, input: Input, m: Msg)
    requires Inv(n, s) && !s.active && !s.main.valid && s.main.node.None? && |input.nodes| == n && !m.invalid
    requires s.queue.head == s.queue.tail
    ensures var moved := MoveMain(s.(main := s.main.(incoming := Some(m))), input, FirstNode(n));
            Keeps(n, s, Result(moved.state, [Popped(m)] + moved.events))
  {
    hide Waiting, Succ, DoesNodeProcess, MoveMain, Rules, HeldRules;
    var held := s.(main := s.main.(incoming := Some(m)));
    var moved := MoveMain(held, input, FirstNode(n));
    MoveMainKeeps(n, held, input, FirstNode(n), 0);
    RulesShort(n, |s.queue.slots| - 1, Standing(n, s), Popped(m), Finished);
    HeldShort(n, Holding(n, s), Popped(m), Finished);
    RulesConcat(n, |s.queue.slots| - 1, Standing(n, s), [Popped(m)], moved.events);
    HeldConcat(n, Holding(n, s), [Popped(m)], moved.events);
  }

  lemma TakeNextKeeps(n: nat, s: State, input: Input)
    requires Inv(n, s) && !s.active && !s.main.valid && s.main.node.None? && |input.nodes| == n
    requires s.queue.head == s.queue.tail
    ensures Keeps(n, s, Incoming(n, s, input))
  {
    hide Waiting, Succ, DoesNodeProcess, MoveMain, Rules, HeldRules, Standing;
    var first := if input.popped.Some? then Discarded(input.popped.value) else Finished;
    RulesShort(n, |s.queue.slots| - 1, Standing(n, s), first, Finished);
    HeldShort(n, Holding(n, s), first, Finished);
    if input.popped.Some? && !input.popped.value.invalid { PopKeeps(n, s, input, input.popped.value); }
  }

  lemma IncomingKeeps(n: nat, s: State, input: Input)
    requires Inv(n, s) && !s.active && !s.main.valid && |input.nodes| == n && s.queue.head == s.queue.tail
    ensures Keeps(n, s, Incoming(n, s, input))
  {
    hide Waiting, Succ, DoesNodeProcess, MoveMain, ReenterMain, Rules, HeldRules;
    if s.main.enumerate {
      ReenterMainKeeps(n, s, input);
    } else if s.main.node.Some? {
      MoveMainKeeps(n, s, input, NextNode(n, s.main.node.value), s.main.node.value + 1);
    } else {
      TakeNextKeeps(n, s, input);
    }
  }

  lemma IdleKeeps(n: nat, s: State, input: Input)
    requires Inv(n, s) && !s.active && !s.main.valid && |input.nodes| == n
    ensures Keeps(n, s, Idle(n, s, input))
  {
    hide Waiting, Succ, Rules, HeldRules, Incoming, StartQueueRound, Standing, Holding;
    if s.queue.head != s.queue.tail { StartQueueRoundKeeps(n, s); } else { IncomingKeeps(n, s, input); }
  }

  /** Every call keeps the rules, whatever the transport, the handlers and the queue of incoming messages do. */
  lemma StepKeeps(n: nat, s: State, input: Input)
    requires Inv(n, s) && |input.nodes| == n && Calm(s, input)
    ensures Shape(n, s, input) && Keeps(n, s, Step(n, s, input))
  {
    hide Waiting, Succ, Rules, HeldRules, Standing, Holding, SendMain, SendSibling, VisitSibling, Idle;
    if !s.active {
      if s.main.valid { SendMainKeeps(n, s, input); } else { IdleKeeps(n, s, input); }
    } else if s.sibling.valid {
      SendSiblingKeeps(n, s, input);
    } else if s.sibling.node.Some? {
      VisitSiblingKeeps(n, s, input);
    } else {
      var done := FinishDeferred(s);
      var r := Idle(n, done, input);
      FinishDeferredKeeps(n, s);
      IdleKeeps(n, done, input);
      RulesConcat(n, |s.queue.slots| - 1, Standing(n, s), [Finished], r.events);
      HeldConcat(n, Holding(n, s), [Finished], r.events);
    }
  }
}
