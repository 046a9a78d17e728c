/**
 Re-entry of sibling handlers. A sibling is left as soon as it has been shown the message, so its request
 to be entered again is served by the next node, is dropped, or stops the dispatcher for good.
 */
module DispatchReentry {
  import opened Words
  import opened Dispatch
  import opened DispatchRules

  /** What the run theorems assume is exact: a call keeps the invariant if and only if it is calm. */
  lemma CalmKeepsInvariant(n: nat, s: State, input: Input)
    requires Inv(n, s) && |input.nodes| == n
    ensures Shape(n, s, input)
    ensures Inv(n, Step(n, s, input).state) <==> Calm(s, input)
  {
    hide Succ, PushRing, DoesNodeProcess, Step, Rules, HeldRules, Standing, Holding;
    if Calm(s, input) { StepKeeps(n, s, input); } else { RequestStands(n, s, input); }
  }

  lemma RequestStands(n: nat, s: State, input: Input)
    requires Inv(n, s) && |input.nodes| == n && !Calm(s, input)
    ensures Shape(n, s, input)
    ensures Step(n, s, input).state.active && Step(n, s, input).state.sibling.enumerate
  {
    hide Succ, PushRing, DoesNodeProcess;
  }

  /** A request stands and the slot is free: the call re-enters the node it stands at. */
  predicate Requested(s: State) {
    s.active && s.sibling.enumerate && !s.sibling.valid
  }

  /** The state once a request has been made and the reply that came with it, if any, is on the wire. */
  function AfterRequest(n: nat, s: State, input: Input, sending: Input): State
    requires Shape(n, s, input)
    requires input.handling.reply.Some? ==> Shape(n, Step(n, s, input).state, sending)
  {
    var t := Step(n, s, input).state;
    if input.handling.reply.Some? then Step(n, t, sending).state else t
  }

  /** Where a request of node k goes: to node k + 1 with the same message, to no node, or nowhere. */
  ghost predicate Goes(n: nat, s: State, input: Input, u: State)
    requires s.sibling.node.Some?
  {
    var k := s.sibling.node.value;
    && (k + 1 < n ==> Requested(u) && u.sibling.node == Some(k + 1) && SiblingIncoming(u) == SiblingIncoming(s))
    && (k + 1 == n && input.handling.reply.Some? ==> Requested(u) && u.sibling.node.None?)
    && (k + 1 == n && input.handling.reply.None? ==> !u.active)
  }

  lemma RequestGoes(n: nat, s: State, input: Input, sending: Input)
    requires Inv(n, s) && EntersSibling(s, input) && input.handling.enumerate
    requires |input.nodes| == |sending.nodes| == n && sending.accept
    ensures Shape(n, s, input) && Shape(n, Step(n, s, input).state, sending)
    ensures var u := AfterRequest(n, s, input, sending);
            && Goes(n, s, input, u)
            && forall later: Input :: |later.nodes| == n ==> Shape(n, u, later)
  {
    hide DoesNodeProcess, PushRing, Succ;
    var t := Step(n, s, input).state;
    if input.handling.reply.Some? {
      PushAppends(t.queue, t.sibling.outgoing);
    }
  }

  /**
   While a request stands, a call enters the handlers of the node it stands at exactly if there is one and
   its filter lets it act, and takes their answer; otherwise it does nothing.
   */
  lemma RequestedCall(n: nat, s: State, input: Input)
    requires Requested(s) && Shape(n, s, input)
    ensures var r := Step(n, s, input);
            if NodeHandles(input, s.sibling.node, SiblingIncoming(s)) then
              && r.events[0] == SiblingReentry(s.sibling.node, true, true)
              && r.state.sibling.node == s.sibling.node && r.state.sibling.enumerate == input.handling.enumerate
              && r.state.sibling.valid == input.handling.reply.Some?
            else r == Result(s, [SiblingReentry(s.sibling.node, false, true)])
  {
    hide DoesNodeProcess;
  }

  /** A request of a node that is not the last is served by the node after it, as soon as that node's filter lets it act. */
  lemma RequestIsServedByTheNextNode(n: nat, s: State, input: Input, sending: Input, next: Input)
    requires Inv(n, s) && EntersSibling(s, input) && input.handling.enumerate && s.sibling.node.value + 1 < n
    requires |input.nodes| == |sending.nodes| == |next.nodes| == n && sending.accept
    requires DoesNodeProcess(next.nodes[s.sibling.node.value + 1], SiblingIncoming(s).value)
    ensures Shape(n, s, input) && Shape(n, Step(n, s, input).state, sending)
    ensures var u := AfterRequest(n, s, input, sending);
            && Shape(n, u, next)
            && Step(n, u, next).events[0] == SiblingReentry(Some(s.sibling.node.value + 1), true, true)
            && Step(n, u, next).state.sibling.enumerate == next.handling.enumerate
  {
    hide DoesNodeProcess, AfterRequest, Step;
    RequestGoes(n, s, input, sending);
    RequestedCall(n, AfterRequest(n, s, input, sending), next);
  }

  /** The request of the last node is dropped when it has no reply: its round ends in the same call. */
  lemma LastRequestIsDropped(n: nat, s: State, input: Input)
    requires Inv(n, s) && |input.nodes| == n
    requires EntersSibling(s, input) && input.handling == Handling(None, true) && s.sibling.node.value + 1 == n
    ensures Shape(n, s, input)
    ensures var r := Step(n, s, input);
            !r.state.active
            && r.events == [Visit(n - 1, SiblingIncoming(s).value, input.nodes[n - 1], true, true, true), Finished]
  {
    hide DoesNodeProcess;
  }

  /** The state after the given calls. */
  ghost function After(n: nat, s: State, inputs: seq<Input>): State {
    if inputs == [] then s
    else
      var t := After(n, s, inputs[..|inputs| - 1]);
      var input := inputs[|inputs| - 1];
      if Shape(n, t, input) then Step(n, t, input).state else t
  }

  lemma {:induction false} Refused(n: nat, t: State, refusals: seq<Input>)
    requires t.active && t.sibling.valid && forall i :: 0 <= i < |refusals| ==> !refusals[i].accept
    ensures After(n, t, refusals) == t
  {
    hide SendMain, PushRing, ReenterSibling, VisitSibling, Idle;
    if refusals != [] { Refused(n, t, refusals[..|refusals| - 1]); }
  }

  lemma {:induction false} AfterConcat(n: nat, s: State, a: seq<Input>, b: seq<Input>)
    ensures After(n, s, a + b) == After(n, After(n, s, a), b)
  {
    hide Step, Shape;
    if b == [] {
      assert a + b == a;
    } else {
      var c := a + b;
      assert c[..|c| - 1] == a + b[..|b| - 1];
      AfterConcat(n, s, a, b[..|b| - 1]);
    }
  }

  lemma AfterOne(n: nat, s: State, input: Input)
    requires Shape(n, s, input)
    ensures After(n, s, [input]) == Step(n, s, input).state
  {
    hide Step, Shape;
    assert [input][..0] == [];
  }

  /** However often the wire refuses the reply that came with the request, once it accepts the state is AfterRequest. */
  lemma ReplyFirst(n: nat, s: State, input: Input, refusals: seq<Input>, sending: Input)
    requires Inv(n, s) && EntersSibling(s, input) && input.handling.enumerate && input.handling.reply.Some?
    requires |input.nodes| == |sending.nodes| == n && sending.accept
    requires forall i :: 0 <= i < |refusals| ==> !refusals[i].accept
    ensures Shape(n, s, input) && Shape(n, Step(n, s, input).state, sending)
    ensures var t := Step(n, s, input).state;
            && t.active && After(n, s, [input] + refusals) == t
            && After(n, s, [input] + refusals + [sending]) == AfterRequest(n, s, input, sending)
  {
    hide Step, Shape, DoesNodeProcess;
    RequestGoes(n, s, input, sending);
    ReplyWaits(n, s, input);
    var t := Step(n, s, input).state;
    AfterOne(n, s, input);
    AfterOne(n, t, sending);
    AfterConcat(n, s, [input], refusals);
    AfterConcat(n, s, [input] + refusals, [sending]);
    Refused(n, t, refusals);
  }

  lemma ReplyWaits(n: nat, s: State, input: Input)
    requires Inv(n, s) && EntersSibling(s, input) && input.handling.enumerate && input.handling.reply.Some?
    requires |input.nodes| == n
    ensures Shape(n, s, input) && Step(n, s, input).state.active && Step(n, s, input).state.sibling.valid
  {
    hide DoesNodeProcess;
  }

  /** For as long as the node a request stands at rejects the message, or there is none, no call changes anything. */
  lemma {:induction false} StuckWhileRejected(n: nat, s: State, inputs: seq<Input>)
    requires Requested(s)
    requires forall i :: 0 <= i < |inputs| ==> !NodeHandles(inputs[i], s.sibling.node, SiblingIncoming(s))
    ensures After(n, s, inputs) == s
  {
    hide Step, NodeHandles;
    if inputs != [] {
      StuckWhileRejected(n, s, inputs[..|inputs| - 1]);
      if Shape(n, s, inputs[|inputs| - 1]) { RequestedCall(n, s, inputs[|inputs| - 1]); }
    }
  }

  /** In the middle of a round, and no sequence of calls changes anything while the nodes stay as they are. */
  ghost predicate Stopped(n: nat, s: State, nodes: seq<Node>) {
    && s.active
    && forall inputs: seq<Input> :: (forall i :: 0 <= i < |inputs| ==> inputs[i].nodes == nodes) ==> After(n, s, inputs) == s
  }

  /** A standing request stops the dispatcher exactly if the node it stands at rejects the message, or there is none. */
  lemma RequestedStops(n: nat, s: State, nodes: seq<Node>)
    requires Requested(s) && |nodes| == n
    requires forall input: Input :: |input.nodes| == n ==> Shape(n, s, input)
    ensures var asked := Input(nodes, true, Handling(None, false), None);
            Stopped(n, s, nodes) <==> !NodeHandles(asked, s.sibling.node, SiblingIncoming(s))
  {
    hide Step, Shape, DoesNodeProcess;
    var asked := Input(nodes, true, Handling(None, false), None);
    if NodeHandles(asked, s.sibling.node, SiblingIncoming(s)) {
      RequestedCall(n, s, asked);
      assert [asked][..0] == [];
      assert After(n, s, [asked]) == Step(n, s, asked).state;
    } else {
      forall inputs: seq<Input> | forall i :: 0 <= i < |inputs| ==> inputs[i].nodes == nodes
        ensures After(n, s, inputs) == s
      {
        StuckWhileRejected(n, s, inputs);
      }
    }
  }

  /**
   When a request stops the dispatcher. Once the reply that came with it is out, nothing changes under any
   continuation if and only if the asking node was the last and replied, or the filter of the node after it
   rejects the message.
   */
  lemma RequestStopsTheDispatcher(n: nat, s: State, input: Input, sending: Input, nodes: seq<Node>)
    requires Inv(n, s) && EntersSibling(s, input) && input.handling.enumerate
    requires |input.nodes| == |sending.nodes| == |nodes| == n && sending.accept
    ensures Shape(n, s, input) && Shape(n, Step(n, s, input).state, sending)
    ensures var k := s.sibling.node.value;
            Stopped(n, AfterRequest(n, s, input, sending), nodes) <==>
            if k + 1 < n then !DoesNodeProcess(nodes[k + 1], SiblingIncoming(s).value) else input.handling.reply.Some?
  {
    hide Step, Shape, Stopped, AfterRequest, DoesNodeProcess, SiblingIncoming;
    RequestGoes(n, s, input, sending);
    var u := AfterRequest(n, s, input, sending);
    if Requested(u) { RequestedStops(n, u, nodes); } else { NotStopped(n, u, nodes); }
  }

  lemma NotStopped(n: nat, s: State, nodes: seq<Node>)
    requires !s.active
    ensures !Stopped(n, s, nodes)
  {
  }
}
