/**
 Re-entry of sibling handlers at login. As in the main state machine a request reaches the next node; there
 it is served, or it stops the login of every node. The last node's request is dropped.
 */
module LoginReentry {
  import opened Words
  import opened Login
  import opened LoginRules
  import opened LoginRuns
  import Dispatch

  /** What the run theorems assume is exact: a call keeps the invariant if and only if it is calm. */
  lemma CalmKeepsInvariant(s: State, input: Input)
    requires Inv(s)
    ensures Shape(s)
    ensures Inv(Step(s, input).state) <==> Calm(s, input)
  {
    hide AllNodes, Announcing, Enumerating, Dispatch.DoesNodeProcess, Step, Rules, Standing, LoadedBy, Grows;
    if Calm(s, input) { StepKeeps(s, input); } else { RequestStands(s, input); }
  }

  lemma RequestStands(s: State, input: Input)
    requires Inv(s) && !Calm(s, input)
    ensures Shape(s)
    ensures Step(s, input).state.active && Step(s, input).state.sibling.enumerate
  {
    hide AllNodes, Announcing, Enumerating, Dispatch.DoesNodeProcess;
  }

  /** A request stands and the slot is free: the call re-enters the node it stands at. */
  predicate Requested(s: State) {
    && s.active && s.sibling.enumerate && !s.sibling.valid
    && s.sibling.node.Some? && s.sibling.node.value < |s.nodes| && s.sibling.attached
    && !Dispatch.Addressed(s.outgoing.mti)
  }

  /** The state once a request has been made and the reply that came with it, if any, is on the wire. */
  function AfterRequest(s: State, input: Input, sending: Input): State
    requires Shape(s) && Shape(Step(s, input).state)
  {
    var t := Step(s, input).state;
    if t.active && input.handling.reply.Some? then Step(t, sending).state else t
  }

  /** A request of node k goes to node k + 1 with the same announcement; that of the last node goes nowhere. */
  lemma RequestGoes(s: State, input: Input, sending: Input)
    requires Inv(s) && EntersSibling(s) && input.handling.enumerate && sending.accept
    ensures Shape(s) && Shape(Step(s, input).state)
    ensures var k, u := s.sibling.node.value, AfterRequest(s, input, sending);
            && Shape(u) && u.nodes == s.nodes
            && (k + 1 < |s.nodes| ==> Requested(u) && u.sibling.node == Some(k + 1) && u.outgoing == s.outgoing)
            && (k + 1 == |s.nodes| ==> !u.active)
  {
    hide AllNodes, Announcing, Enumerating, Dispatch.DoesNodeProcess, Dispatch.Addressed;
  }

  /**
   While a request stands, a call enters the handlers of the node it stands at exactly if its filter lets it
   act, and takes their answer; otherwise it does nothing.
   */
  lemma RequestedCall(s: State, input: Input)
    requires Requested(s) && Shape(s)
    ensures var r := Step(s, input);
            if SiblingHandles(s) then
              && r.events[0] == SiblingReentry(s.sibling.node, true)
              && r.state.sibling.node == s.sibling.node && r.state.sibling.enumerate == input.handling.enumerate
              && r.state.sibling.valid == input.handling.reply.Some?
            else r == Result(s, [SiblingReentry(s.sibling.node, false)])
  {
    hide Dispatch.DoesNodeProcess, Dispatch.Addressed;
  }

  /** A request of a node that is not the last is served by the node after it if that node's filter lets it act. */
  lemma RequestIsServedByTheNextNode(s: State, input: Input, sending: Input, next: Input)
    requires Inv(s) && EntersSibling(s) && input.handling.enumerate && sending.accept
    requires s.sibling.node.value + 1 < |s.nodes|
    requires Dispatch.DoesNodeProcess(s.nodes[s.sibling.node.value + 1].node, s.outgoing)
    ensures Shape(s) && Shape(Step(s, input).state) && Shape(AfterRequest(s, input, sending))
    ensures var u := AfterRequest(s, input, sending);
            && Step(u, next).events[0] == SiblingReentry(Some(s.sibling.node.value + 1), true)
            && Step(u, next).state.sibling.enumerate == next.handling.enumerate
  {
    hide Inv, Step, Shape, AfterRequest, Dispatch.DoesNodeProcess;
    RequestGoes(s, input, sending);
    RequestedCall(AfterRequest(s, input, sending), next);
  }

  /** The request of the last node is dropped: its round ends in the same call, and the next round starts without it. */
  lemma LastRequestIsDropped(s: State, input: Input, next: Input)
    requires Inv(s) && EntersSibling(s) && input.handling.enumerate && s.sibling.node.value + 1 == |s.nodes|
    ensures Shape(s)
    ensures var r := Step(s, input);
            && !r.state.active && r.events[|r.events| - 1] == Finished
            && (SendLogin(r.state, next).state.active ==> !SendLogin(r.state, next).state.sibling.enumerate)
  {
    hide AllNodes, Announcing, Enumerating, Dispatch.DoesNodeProcess;
  }

  /** b is a as the layer below may have changed it: the stage and the alias of nodes, nothing a global message is filtered by. */
  ghost predicate Frozen(a: State, b: State) {
    && b == a.(nodes := b.nodes) && |b.nodes| == |a.nodes|
    && forall k :: 0 <= k < |a.nodes| ==>
         b.nodes[k].node.id == a.nodes[k].node.id && b.nodes[k].node.initialized == a.nodes[k].node.initialized
  }

  lemma FrozenAct(s: State, t: State, a: Action)
    requires Frozen(s, t) && Requested(s) && !SiblingHandles(s) && Shape(s)
    ensures Shape(t) && Requested(t) && !SiblingHandles(t)
    ensures Frozen(s, Act(t, a).state)
    ensures forall e :: e in Act(t, a).events ==> e == SiblingReentry(s.sibling.node, false)
  {
    hide Step, Dispatch.Addressed;
    if a.Call? { RequestedCall(t, a.input); }
  }

  /** While the node a request stands at rejects the announcement, no call and no work of the layer below changes anything else. */
  lemma {:induction false} StuckForever(s: State, actions: seq<Action>)
    requires Requested(s) && Shape(s) && !SiblingHandles(s)
    ensures Frozen(s, ActsAfter(s, actions))
  {
    hide Act, SiblingHandles, Requested;
    if actions != [] {
      var t := ActsAfter(s, actions[..|actions| - 1]);
      StuckForever(s, actions[..|actions| - 1]);
      FrozenAct(s, t, actions[|actions| - 1]);
    }
  }

  /** Nothing more is loaded, sent or shown: the login of every node has stopped. */
  lemma {:induction false} StuckIsSilent(states: seq<State>, actions: seq<Action>, logs: seq<seq<Event>>)
    requires Behaviour(states, actions, logs) && Requested(states[0]) && Shape(states[0]) && !SiblingHandles(states[0])
    ensures Frozen(states[0], states[|actions|])
    ensures forall e :: e in Flat(logs) ==> e == SiblingReentry(states[0].sibling.node, false)
    decreases |actions|
  {
    hide Act, SiblingHandles, Requested;
    if actions != [] {
      var m := |actions| - 1;
      StuckIsSilent(states[..m + 1], actions[..m], logs[..m]);
      FrozenAct(states[0], states[m], actions[m]);
    }
  }

  /** In the middle of a round, and no sequence of calls changes anything. */
  ghost predicate Stopped(s: State) {
    s.active && forall actions :: Frozen(s, ActsAfter(s, actions))
  }

  lemma RequestedStops(s: State)
    requires Requested(s) && Shape(s)
    ensures Stopped(s) <==> !SiblingHandles(s)
  {
    hide Step, Shape, SiblingHandles;
    if SiblingHandles(s) {
      var asked := Call(Input(true, Dispatch.Handling(None, false), StatusUnknown, true));
      RequestedCall(s, asked.input);
      assert [asked][..0] == [];
      assert ActsAfter(s, [asked]) == Step(s, asked.input).state;
    } else {
      forall actions ensures Frozen(s, ActsAfter(s, actions)) {
        StuckForever(s, actions);
      }
    }
  }

  lemma NotStopped(s: State)
    requires !s.active
    ensures !Stopped(s)
  {
  }

  /**
   When a request stops the login. Once the reply that came with it is out, every continuation leaves
   everything as it is if and only if there is a next node and its filter rejects the announcement: it is the
   announcing node itself, or it has not been initialized.
   */
  lemma RequestStopsTheLogin(s: State, input: Input, sending: Input)
    requires Inv(s) && EntersSibling(s) && input.handling.enumerate && sending.accept
    ensures Shape(s) && Shape(Step(s, input).state)
    ensures var k := s.sibling.node.value;
            Stopped(AfterRequest(s, input, sending)) <==>
            k + 1 < |s.nodes| && !Dispatch.DoesNodeProcess(s.nodes[k + 1].node, s.outgoing)
  {
    hide Step, Shape, Stopped, AfterRequest, Dispatch.DoesNodeProcess, AllNodes, Announcing, Enumerating;
    RequestGoes(s, input, sending);
    var u := AfterRequest(s, input, sending);
    if Requested(u) { RequestedStops(u); } else { NotStopped(u); }
  }

  /** The filter in terms of the node: a global announcement is rejected by its own node and by uninitialized ones. */
  lemma RejectionIs(s: State, k: nat)
    requires Inv(s) && s.active && k < |s.nodes|
    ensures !Dispatch.DoesNodeProcess(s.nodes[k].node, s.outgoing) <==>
            s.nodes[k].node.id == s.outgoing.sourceId || !s.nodes[k].node.initialized
  {
    hide AllNodes, Announcing, Enumerating, Dispatch.Addressed;
  }
}
