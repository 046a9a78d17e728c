/** Once the wire and the application stop refusing, every node that has reached login gets to run. */
module LoginProgress {
  import opened Words
  import opened NodeTable
  import opened Login
  import opened LoginRules
  import opened LoginRuns
  import Dispatch

  /** The handler calls left over all nodes. */
  function SumLeft(nodes: seq<LoginNode>): nat
    requires AllNodes(nodes)
  {
    if nodes == [] then 0 else SumLeft(nodes[..|nodes| - 1]) + Left(nodes[|nodes| - 1])
  }

  lemma {:induction false} SumUpdate(nodes: seq<LoginNode>, k: nat, n: LoginNode)
    requires AllNodes(nodes) && k < |nodes| && NodeInv(n)
    ensures SumLeft(nodes[k := n]) == SumLeft(nodes) - Left(nodes[k]) + Left(n)
  {
    hide NodeInv, Left;
    var last := |nodes| - 1;
    var updated := nodes[k := n];
    if k < last {
      assert updated[..last] == nodes[..last][k := n];
      SumUpdate(nodes[..last], k, n);
    } else {
      assert updated[..last] == nodes[..last];
    }
  }

  /** Calls until the enumeration stands on node t. */
  function Distance(n: nat, node: Option<nat>, t: nat): nat
    requires t < n && (node.Some? ==> node.value < n)
    ensures 1 <= Distance(n, node, t) <= n + 1
  {
    match node
    case None => t + 1
    case Some(p) => if p < t then t - p else n - p + t + 1
  }

  /** Calls until the outgoing slot is free. */
  function Slot(s: State): nat
    requires s.active ==> s.sibling.node.Some? && s.sibling.node.value < |s.nodes|
    ensures Slot(s) <= 2 * |s.nodes| + 3
  {
    if s.active then 2 * (|s.nodes| - s.sibling.node.value) + (if s.sibling.valid then 1 else 0)
    else if s.valid then 2 * |s.nodes| + 3
    else 0
  }

  /** Calls until the next handler call, at most. */
  ghost function Wait(s: State, t: nat): nat
    requires Inv(s) && t < |s.nodes|
  {
    Times(Distance(|s.nodes|, s.node, t), 2 * |s.nodes| + 4) + Slot(s)
  }

  function Limit(n: nat): nat {
    (n + 2) * (2 * n + 4)
  }

  lemma WaitIsBounded(s: State, t: nat)
    requires Inv(s) && t < |s.nodes|
    ensures Wait(s, t) < Limit(|s.nodes|)
  {
    hide AllNodes, Enumerating, Announcing, Slot, Distance;
    var n := |s.nodes|;
    var d := Distance(n, s.node, t);
    assert d * (2 * n + 4) <= (n + 1) * (2 * n + 4) by { MulMono(d, n + 1, 2 * n + 4, 2 * n + 4); }
    assert (n + 2) * (2 * n + 4) == (n + 1) * (2 * n + 4) + (2 * n + 4);
  }

  /** Calls until node t runs, at most. */
  ghost function Rank(s: State, t: nat): nat
    requires Inv(s) && t < |s.nodes|
  {
    Times(SumLeft(s.nodes), Limit(|s.nodes|)) + Wait(s, t)
  }

  predicate Willing(s: State, a: Action) {
    CalmAction(s, a) && (a.Call? ==> a.input.accept && a.input.complete)
  }

  lemma ProcessIsProductive(s: State, k: nat, input: Input)
    requires Inv(s) && !s.active && !s.valid && s.node == Some(k) && input.complete && Logging(s.nodes[k])
    ensures var r := Process(s, k, input).state;
            AllNodes(r.nodes) && SumLeft(r.nodes) == SumLeft(s.nodes) - 1
  {
    hide Handle, Left, Enumerating, Announcing, Grows;
    HandleAdvances(s.nodes[k], input, s.enumerate);
    var r := Handle(s.nodes[k], input, s.enumerate).node;
    SumUpdate(s.nodes, k, r);
  }

  /** A call makes a handler call, or is one call closer to the next. */
  lemma CallComesCloser(s: State, t: nat, input: Input)
    requires Inv(s) && t < |s.nodes| && Logging(s.nodes[t])
    requires Calm(s, input) && input.accept && input.complete
    ensures Shape(s)
    ensures var r := Step(s, input).state;
            && Inv(r) && |r.nodes| == |s.nodes|
            && (SumLeft(r.nodes) < SumLeft(s.nodes) || (r.nodes == s.nodes && Wait(r, t) < Wait(s, t)))
  {
    hide Rules, LoadedBy, Grows, Left, SumLeft, Enumerating, Announcing, NodeInv, Process, VisitSibling, Logging, Wait, Slot;
    StepKeeps(s, input);
    if s.active || s.valid {
      SlotShrinks(s, t, input);
    } else if s.enumerate {
      EnumeratingLogs(s.nodes[s.node.value]);
      ProcessIsProductive(s, s.node.value, input);
    } else {
      MoveComesCloser(s, t, input, if s.node.None? then FirstNode(|s.nodes|) else NextNode(|s.nodes|, s.node.value));
    }
  }

  lemma EnumeratingLogs(n: LoginNode)
    requires Enumerating(n)
    ensures Logging(n)
  {
  }

  lemma SlotShrinks(s: State, t: nat, input: Input)
    requires Inv(s) && t < |s.nodes| && s.valid && Calm(s, input) && input.accept
    requires Shape(s) && Inv(Step(s, input).state)
    ensures var r := Step(s, input).state;
            r.nodes == s.nodes && Wait(r, t) < Wait(s, t)
  {
    hide AllNodes, Enumerating, Announcing, Distance, Slot, Step, Calm;
    SlotStep(s, input);
  }

  lemma SlotStep(s: State, input: Input)
    requires Inv(s) && s.valid && Calm(s, input) && input.accept
    requires Shape(s) && Inv(Step(s, input).state)
    ensures var r := Step(s, input).state;
            r.nodes == s.nodes && r.node == s.node && Slot(r) < Slot(s)
  {
    hide Left, AllNodes, Enumerating, Announcing, NodeInv, Dispatch.DoesNodeProcess, Dispatch.Addressed, Idle, ReenterSibling;
  }

  /** A move to a node other than t is one call closer to t. */
  lemma DistanceDrops(n: nat, from: Option<nat>, t: nat)
    requires t < n < BYTE && (from.Some? ==> from.value < n)
    ensures var to := if from.None? then FirstNode(n) else NextNode(n, from.value);
            (to.Some? ==> to.value < n) && (to == Some(t) || Distance(n, to, t) == Distance(n, from, t) - 1)
  {
    if from.Some? { DivModUnique(from.value + 1, 256, 0, from.value + 1); }
  }

  lemma MoveComesCloser(s: State, t: nat, input: Input, node: Option<nat>)
    requires Inv(s) && t < |s.nodes| && Logging(s.nodes[t])
    requires !s.active && !s.valid && !s.enumerate && input.complete
    requires node == if s.node.None? then FirstNode(|s.nodes|) else NextNode(|s.nodes|, s.node.value)
    ensures node.Some? ==> node.value < |s.nodes|
    ensures var r := MoveTo(s, input, node).state;
            AllNodes(r.nodes) && (SumLeft(r.nodes) < SumLeft(s.nodes)
                || (Inv(r) && r.nodes == s.nodes && Wait(r, t) < Wait(s, t)))
  {
    hide Left, SumLeft, Enumerating, Announcing, NodeInv, AllNodes, Handle, Distance, NextNode, FirstNode;
    var n := |s.nodes|;
    DistanceDrops(n, s.node, t);
    var moved := s.(node := node);
    if node.Some? && Logging(s.nodes[node.value]) {
      ProcessIsProductive(moved, node.value, input);
    } else {
      MoveWaits(s, moved, t);
    }
  }

  lemma MoveWaits(s: State, r: State, t: nat)
    requires Inv(s) && Inv(r) && t < |s.nodes| == |r.nodes| && Slot(r) == Slot(s)
    requires Distance(|s.nodes|, r.node, t) == Distance(|s.nodes|, s.node, t) - 1
    ensures Wait(r, t) < Wait(s, t)
  {
    hide AllNodes, Enumerating, Announcing, Slot, Distance;
    var n := |s.nodes|;
    var a, b := Distance(n, r.node, t), Distance(n, s.node, t);
    assert b * (2 * n + 4) == a * (2 * n + 4) + (2 * n + 4);
  }

  lemma CallLowersRank(s: State, t: nat, input: Input)
    requires Inv(s) && t < |s.nodes| && Logging(s.nodes[t])
    requires Calm(s, input) && input.accept && input.complete
    ensures Shape(s)
    ensures var r := Step(s, input).state; Inv(r) && |r.nodes| == |s.nodes| && Rank(r, t) < Rank(s, t)
  {
    hide AllNodes, Enumerating, Announcing, Step, Wait, SumLeft, Logging, Limit;
    CallComesCloser(s, t, input);
    var r := Step(s, input).state;
    var m := Limit(|s.nodes|);
    WaitIsBounded(r, t);
    if SumLeft(r.nodes) < SumLeft(s.nodes) {
      MulMono(SumLeft(r.nodes), SumLeft(s.nodes) - 1, m, m);
      assert (SumLeft(s.nodes) - 1) * m == SumLeft(s.nodes) * m - m;
    }
  }

  lemma StageKeepsRank(s: State, t: nat, a: Action)
    requires Inv(s) && t < |s.nodes| && a.Stage?
    ensures Shape(s)
    ensures var r := Act(s, a).state; Inv(r) && |r.nodes| == |s.nodes| && Rank(r, t) == Rank(s, t)
  {
    hide Rules, LoadedBy, Grows, Enumerating, Announcing, SumLeft;
    ActKeeps(s, a);
    if a.k < |s.nodes| { SumUpdate(s.nodes, a.k, Act(s, a).state.nodes[a.k]); }
  }

  /** The nodes are as before but for at most one that is logging in, which its handler took further. */
  ghost predicate HandlesOne(s: State, input: Input, r: State) {
    r.nodes == s.nodes
    || exists k, enumerate :: 0 <= k < |s.nodes| && Logging(s.nodes[k])
         && r.nodes == s.nodes[k := Handle(s.nodes[k], input, enumerate).node]
  }

  lemma ProcessHandlesOne(s: State, k: nat, input: Input)
    requires k < |s.nodes|
    ensures HandlesOne(s, input, Process(s, k, input).state)
  {
    hide Handle;
  }

  lemma StepHandlesOne(s: State, input: Input)
    requires Shape(s)
    ensures HandlesOne(s, input, Step(s, input).state)
  {
    hide Handle, Logging, Process, SendLogin, SendSibling, ReenterSibling, VisitSibling, Dispatch.DoesNodeProcess, HandlesOne;
    if !s.active && !s.valid {
      IdleHandlesOne(s, input);
    } else if s.active && !s.sibling.valid && !s.sibling.enumerate && s.sibling.node.None? {
      IdleHandlesOne(s.(active := false), input);
      SameNodes(s.(active := false), s, input, Step(s, input).state);
    } else {
      SendsKeepNodes(s, input);
    }
  }

  lemma SameNodes(a: State, b: State, input: Input, r: State)
    requires a.nodes == b.nodes && HandlesOne(a, input, r)
    ensures HandlesOne(b, input, r)
  {
    hide Handle, Logging;
  }

  lemma IdleHandlesOne(s: State, input: Input)
    requires Shape(s)
    ensures HandlesOne(s, input, Idle(s, input).state)
  {
    hide Handle, Logging, Process, HandlesOne;
    var node := if s.enumerate then s.node else if s.node.None? then FirstNode(|s.nodes|) else NextNode(|s.nodes|, s.node.value);
    if node.Some? {
      ProcessHandlesOne(s.(node := node), node.value, input);
      SameNodes(s.(node := node), s, input, Process(s.(node := node), node.value, input).state);
    }
    Untouched(s, input, s.(node := node));
  }

  lemma Untouched(s: State, input: Input, r: State)
    requires r.nodes == s.nodes
    ensures HandlesOne(s, input, r)
  {
  }

  lemma SendsKeepNodes(s: State, input: Input)
    requires Shape(s) && (s.active || s.valid)
    requires s.active ==> s.sibling.valid || s.sibling.enumerate || s.sibling.node.Some?
    ensures HandlesOne(s, input, Step(s, input).state)
  {
    hide Dispatch.DoesNodeProcess, Handle, Idle;
  }

  lemma HandleNeverBack(n: LoginNode, input: Input, enumerate: bool)
    requires Logging(n)
    ensures Handle(n, input, enumerate).node.node.runState >= LOAD_INITIALIZATION_COMPLETE
  {
  }

  /** A node never goes back, and one that runs stays. */
  lemma NeverBack(s: State, t: nat, a: Action)
    requires Shape(s) && t < |s.nodes|
    ensures var r := Act(s, a).state;
            && |r.nodes| == |s.nodes|
            && (s.nodes[t].node.runState >= LOAD_INITIALIZATION_COMPLETE ==>
                  r.nodes[t].node.runState >= LOAD_INITIALIZATION_COMPLETE)
            && (s.nodes[t].node.runState == RUNSTATE_RUN ==> r.nodes[t].node.runState == RUNSTATE_RUN)
  {
    hide Step, Handle;
    if a.Call? {
      StepHandlesOne(s, a.input);
      var r := Step(s, a.input).state;
      if r.nodes != s.nodes {
        var k, enumerate :| 0 <= k < |s.nodes| && Logging(s.nodes[k])
                            && r.nodes == s.nodes[k := Handle(s.nodes[k], a.input, enumerate).node];
        HandleNeverBack(s.nodes[k], a.input, enumerate);
      }
    }
  }

  function Calls(actions: seq<Action>): nat {
    if actions == [] then 0 else Calls(actions[1..]) + if actions[0].Call? then 1 else 0
  }

  /** With more than Rank calls, none refused, a node that has reached login runs, whatever the layer below does between them. */
  lemma {:induction false} LoginEnds(states: seq<State>, actions: seq<Action>, logs: seq<seq<Event>>, t: nat)
    requires Behaviour(states, actions, logs) && Inv(states[0]) && t < |states[0].nodes|
    requires forall i :: 0 <= i < |actions| ==> Willing(states[i], actions[i])
    requires states[0].nodes[t].node.runState >= LOAD_INITIALIZATION_COMPLETE
    requires states[0].nodes[t].node.runState == RUNSTATE_RUN || Calls(actions) > Rank(states[0], t)
    ensures |states[|actions|].nodes| == |states[0].nodes| && states[|actions|].nodes[t].node.runState == RUNSTATE_RUN
    decreases |actions|
  {
    hide Inv, Act, CalmAction, Rank, NodeInv;
    if actions != [] {
      var s, a := states[0], actions[0];
      RanksDown(s, t, a);
      NeverBack(s, t, a);
      LoginEnds(states[1..], actions[1..], logs[1..], t);
    }
  }

  lemma RanksDown(s: State, t: nat, a: Action)
    requires Inv(s) && t < |s.nodes| && Willing(s, a) && s.nodes[t].node.runState >= LOAD_INITIALIZATION_COMPLETE
    ensures Shape(s)
    ensures var r := Act(s, a).state;
            && Inv(r) && |r.nodes| == |s.nodes|
            && (s.nodes[t].node.runState < RUNSTATE_RUN ==> Rank(r, t) <= Rank(s, t) - if a.Call? then 1 else 0)
            && s.nodes[t].node.runState <= RUNSTATE_RUN
  {
    hide Step, Rank, Calm, Enumerating, Announcing, Grows, Rules, LoadedBy;
    ActKeeps(s, a);
    if a.Stage? { StageKeepsRank(s, t, a); } else if Logging(s.nodes[t]) { CallLowersRank(s, t, a.input); }
  }
}
