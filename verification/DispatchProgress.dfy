/** A held message is freed, once the wire accepts, handlers stop asking to be re-entered and siblings stop replying. */
module DispatchProgress {
  import opened Words
  import opened NodeTable
  import opened Dispatch
  import opened DispatchRules
  import opened DispatchRuns

  /** The wire accepts, no handler asks, no sibling replies, and a main handler that asked before is let act again. */
  predicate Helpful(s: State, input: Input) {
    && input.accept && !input.handling.enumerate
    && (EntersSibling(s, input) ==> input.handling.reply.None?)
    && (s.main.enumerate ==> NodeHandles(input, s.main.node, s.main.incoming))
  }

  /** Calls a message takes once it is loaded or queued: one to start its round, one for each node, one to end it. */
  function PerMessage(n: nat): nat {
    n + 2
  }

  /** Calls left in the round going on. */
  function InRound(n: nat, s: State): nat
    requires s.sibling.node.Some? ==> s.sibling.node.value < n
  {
    if !s.active then 0 else n + 1 - (if s.sibling.node.Some? then s.sibling.node.value else n)
  }

  /** Responses waiting in the queue. */
  function Queued(r: Ring): nat
    requires r.head < |r.slots| && r.tail < |r.slots|
  {
    |Waiting(r)|
  }

  /** Nodes the held message has yet to be moved to, and its release. */
  function Moves(n: nat, s: State): nat
    requires s.main.node.Some? ==> s.main.node.value < n
  {
    if s.main.node.Some? then n - s.main.node.value else 0
  }

  /** Calls until the held message is freed, at most: each handler entry of the main context may load one more message. */
  ghost function Remaining(n: nat, s: State): nat
    requires Inv(n, s)
  {
    Times(Moves(n, s), PerMessage(n) + 1)
    + (if s.main.enumerate then PerMessage(n) + 1 else 0)
    + (if s.main.valid && !s.active then PerMessage(n) else 0)
    + (if s.sibling.valid then PerMessage(n) + 1 else 0)
    + Times(Queued(s.queue), PerMessage(n))
    + InRound(n, s)
  }

  /** One call closer to the release of the held message, or there. */
  ghost predicate Closer(n: nat, s: State, r: Result)
    requires Inv(n, s)
  {
    && Inv(n, r.state)
    && (|| (s.main.incoming.Some? && Freed(s.main.incoming.value) in r.events)
        || (r.state.main.incoming == s.main.incoming && Remaining(n, r.state) < Remaining(n, s)))
  }

  lemma SendMainCloser(n: nat, s: State, input: Input)
    requires Inv(n, s) && !s.active && s.main.valid && input.accept && |input.nodes| == n
    ensures Closer(n, s, SendMain(n, s, input))
  {
    hide Waiting, Succ, Times;
  }

  lemma SendSiblingCloser(n: nat, s: State, input: Input)
    requires Inv(n, s) && s.active && s.sibling.valid && input.accept && |input.nodes| == n
    ensures Closer(n, s, SendSibling(s, input))
  {
    hide Waiting, Succ, PushRing, Times, Rules, HeldRules, Standing, Holding;
    SendSiblingKeeps(n, s, input);
    PushAppends(s.queue, s.sibling.outgoing);
    var q := PushRing(s.queue, s.sibling.outgoing);
    if Queued(q) != Queued(s.queue) { TimesLess(Queued(q), PerMessage(n)); }
  }

  lemma VisitCloser(n: nat, s: State, input: Input)
    requires Inv(n, s) && SiblingTurn(s) && Helpful(s, input) && |input.nodes| == n
    ensures Closer(n, s, VisitSibling(n, s, input))
  {
    hide Waiting, Succ, Times, DoesNodeProcess;
  }

  lemma StartQueueRoundCloser(n: nat, s: State)
    requires Inv(n, s) && !s.active && !s.main.valid && s.queue.head != s.queue.tail
    ensures Closer(n, s, StartQueueRound(n, s))
  {
    hide Waiting, Succ, Times, Rules, HeldRules, Standing, Holding;
    StartQueueRoundKeeps(n, s);
    PopTakes(s.queue);
    TimesLess(Queued(s.queue), PerMessage(n));
  }

  lemma ReenterMainCloser(n: nat, s: State, input: Input)
    requires Inv(n, s) && !s.active && !s.main.valid && s.main.enumerate && Helpful(s, input) && |input.nodes| == n
    requires s.queue.head == s.queue.tail
    ensures Closer(n, s, ReenterMain(s, input))
  {
    hide Waiting, Succ, Times, DoesNodeProcess;
  }

  lemma MoveMainCloser(n: nat, s: State, input: Input)
    requires Inv(n, s) && !s.active && !s.main.valid && !s.main.enumerate && s.main.node.Some?
    requires !input.handling.enumerate && |input.nodes| == n && s.queue.head == s.queue.tail
    ensures NextNode(n, s.main.node.value).Some? ==> NextNode(n, s.main.node.value).value < n
    ensures Closer(n, s, MoveMain(s, input, NextNode(n, s.main.node.value)))
  {
    hide Waiting, Succ, Times, DoesNodeProcess;
    var k := s.main.node.value;
    DivModUnique(k + 1, 256, if k == 255 then 1 else 0, if k == 255 then 0 else k + 1);
    TimesLess(Moves(n, s), PerMessage(n) + 1);
  }

  lemma IdleCloser(n: nat, s: State, input: Input)
    requires Inv(n, s) && !s.active && !s.main.valid && s.main.incoming.Some? && Helpful(s, input) && |input.nodes| == n
    ensures Closer(n, s, Idle(n, s, input))
  {
    hide Waiting, Succ, Times, DoesNodeProcess, StartQueueRound, ReenterMain, MoveMain, Closer;
    if s.queue.head != s.queue.tail {
      StartQueueRoundCloser(n, s);
    } else if s.main.enumerate {
      ReenterMainCloser(n, s, input);
    } else {
      MoveMainCloser(n, s, input);
    }
  }

  lemma FinishCloser(n: nat, s: State)
    requires Inv(n, s) && s.active && !s.sibling.valid && s.sibling.node.None?
    ensures Inv(n, FinishDeferred(s)) && Remaining(n, FinishDeferred(s)) < Remaining(n, s)
    ensures FinishDeferred(s).main.incoming == s.main.incoming && !FinishDeferred(s).active && !FinishDeferred(s).main.valid
  {
    hide Waiting, Succ, Times;
  }

  lemma StepCloser(n: nat, s: State, input: Input)
    requires Inv(n, s) && s.main.incoming.Some? && Helpful(s, input) && |input.nodes| == n
    ensures Shape(n, s, input) && Closer(n, s, Step(n, s, input))
  {
    hide Waiting, Succ, Times, DoesNodeProcess, SendMain, SendSibling, VisitSibling, Idle, Remaining, NodeHandles;
    if !s.active {
      if s.main.valid { SendMainCloser(n, s, input); } else { IdleCloser(n, s, input); }
    } else if s.sibling.valid {
      SendSiblingCloser(n, s, input);
    } else if s.sibling.node.Some? {
      VisitCloser(n, s, input);
    } else {
      FinishCloser(n, s);
      IdleCloser(n, FinishDeferred(s), input);
    }
  }

  /** A message held at the start is freed within Remaining calls and one more. */
  lemma {:induction false} HeldIsFreed(n: nat, states: seq<State>, inputs: seq<Input>, logs: seq<seq<Event>>)
    requires Behaviour(n, states, inputs, logs) && Inv(n, states[0]) && states[0].main.incoming.Some?
    requires forall i :: 0 <= i < |inputs| ==> Helpful(states[i], inputs[i])
    requires |inputs| > Remaining(n, states[0])
    ensures exists i :: 0 <= i <= Remaining(n, states[0]) && Freed(states[0].main.incoming.value) in logs[i]
    decreases |inputs|
  {
    hide Inv, Step, Helpful, Remaining;
    var freed := Freed(states[0].main.incoming.value);
    StepCloser(n, states[0], inputs[0]);
    if freed !in logs[0] {
      HeldIsFreed(n, states[1..], inputs[1..], logs[1..]);
      var i :| 0 <= i <= Remaining(n, states[1]) && freed in logs[1..][i];
      assert freed in logs[i + 1];
    }
  }
}
