/** For which numbers of nodes and slots no response to a main message is ever lost. */
module DispatchFull {
  import opened Words
  import opened NodeTable
  import opened Dispatch
  import opened DispatchRules
  import opened DispatchRuns
  import opened DispatchQueue
  import opened DispatchStopped

  /** Whatever happens in a calm run, every response to a main message is admitted; own: the message is one of the nodes'. */
  ghost predicate NeverLost(own: bool, n: nat, depth: nat)
    requires depth >= 1
  {
    forall blank: Msg, states: seq<State>, inputs: seq<Input>, logs: seq<seq<Event>>, i: nat, j: nat ::
      && CalmRun(n, depth, blank, states, inputs, logs)
      && MainRound(Flat(logs), i, j)
      && (own ==> OwnMessage(Flat(logs), i, j))
      ==> NoneLost(depth - 1, Flat(logs), i, j)
  }

  // ---- A run in which every node that may answers ----

  datatype Run = Run(states: seq<State>, inputs: seq<Input>, logs: seq<seq<Event>>)

  ghost predicate Calls(n: nat, depth: nat, r: Run) {
    CalmRun(n, depth, From(0), r.states, r.inputs, r.logs) && |r.states| == |r.inputs| + 1
  }

  function Last(r: Run): State
    requires r.states != []
  {
    r.states[|r.states| - 1]
  }

  lemma Extend(n: nat, depth: nat, r: Run, input: Input) returns (t: Run)
    requires Calls(n, depth, r) && |input.nodes| == n && Calm(Last(r), input)
    ensures Inv(n, Last(r)) && Shape(n, Last(r), input) && Calls(n, depth, t)
    ensures Last(t) == Step(n, Last(r), input).state
    ensures Flat(t.logs) == Flat(r.logs) + Step(n, Last(r), input).events
  {
    hide Inv, Calm, Step, Rules, HeldRules, Standing, Holding;
    RulesOverRun(n, depth, From(0), r.states, r.inputs, r.logs);
    var step := Step(n, Last(r), input);
    t := Run(r.states + [step.state], r.inputs + [input], r.logs + [step.events]);
    assert t.logs[..|t.logs| - 1] == r.logs;
  }

  function Everyone(n: nat): (r: seq<Node>)
    ensures |r| == n
  {
    seq(n, k requires 0 <= k < n => Node(k + 1, k + 1, RUNSTATE_RUN, true))
  }

  /** The wire accepts, and the handler entered replies with the given message. */
  function Replying(n: nat, m: Option<Msg>): Input {
    Input(Everyone(n), true, Handling(m, false), Some(From(0)))
  }

  function Sender(own: bool): nat {
    if own then 1 else 0
  }

  /** The round of the sender's message stands before node k. */
  predicate Showing(own: bool, n: nat, s: State, k: nat) {
    && s.active && !s.sibling.valid && !s.sibling.enumerate
    && s.sibling.node == (if k < n then Some(k) else None)
    && s.sibling.source == MainOutgoing && s.main.outgoing == From(Sender(own)).(loopback := true)
  }

  /** So it stands in the round of event i, and all nodes before k but the sender have answered. */
  ghost predicate Turn(own: bool, n: nat, depth: nat, r: Run, i: nat, k: nat) {
    && Calls(n, depth, r) && Showing(own, n, Last(r), k)
    && var log := Flat(r.logs);
    && i < |log| && log[i] == MainSent(From(Sender(own))) && Finished !in log[i + 1..]
    && |Carrying(SiblingSends, log[i + 1..])| == (if own && k > 0 then k - 1 else k)
    && (k == 0 ==> i + 1 == |log|)
    && (own && k > 0 ==> SeenFirst(Visits(log[i + 1..])))
  }

  predicate SeenFirst(visits: seq<Event>) {
    visits != [] && visits[0].Visit? && visits[0].seen.id == 1
  }

  /** Node 0 loads the message. */
  lemma Loads(own: bool, n: nat, depth: nat)
    requires 2 <= n < BYTE && 1 <= depth < BYTE
    ensures var s, input := InitialState(depth, From(0)), Replying(n, Some(From(Sender(own))));
            && Shape(n, s, input) && Calm(s, input)
            && Step(n, s, input).state
               == s.(main := MainContext(Some(0), Some(From(0)), false, From(Sender(own)), true))
  {
    assert DoesNodeProcess(Everyone(n)[0], From(0));
  }

  /** It is sent, and its round begins with node 0. */
  lemma Sends(own: bool, n: nat, s: State, input: Input)
    requires Shape(n, s, input) && !s.active && s.main.valid && s.main.outgoing == From(Sender(own))
    requires !s.sibling.valid && n >= 2 && input.accept
    ensures Calm(s, input)
    ensures var r := Step(n, s, input);
            r.events == [MainSent(From(Sender(own)))] && Showing(own, n, r.state, 0)
  {
  }

  lemma Opening(own: bool, n: nat, depth: nat) returns (r: Run, i: nat)
    requires 2 <= n < BYTE && 1 <= depth < BYTE
    ensures Turn(own, n, depth, r, i, 0)
  {
    hide Step, Calm, Inv, Shape;
    r := Run([InitialState(depth, From(0))], [], [[]][..0]);
    Loads(own, n, depth);
    r := Extend(n, depth, r, Replying(n, Some(From(Sender(own)))));
    var input := Replying(n, None);
    i := |Flat(r.logs)|;
    RulesOverRun(n, depth, From(0), r.states, r.inputs, r.logs);
    Sends(own, n, Last(r), input);
    r := Extend(n, depth, r, input);
    assert Flat(r.logs)[i + 1..] == [];
  }

  function VisitEvent(own: bool, n: nat, k: nat): Event
    requires k < n
  {
    Visit(k, From(Sender(own)).(loopback := true), Everyone(n)[k], true, !own || k > 0, true)
  }

  /** The sender is passed over. */
  lemma SenderVisit(n: nat, s: State, input: Input)
    requires 2 <= n < BYTE && Inv(n, s) && Showing(true, n, s, 0) && input.nodes == Everyone(n)
    ensures Shape(n, s, input) && Calm(s, input)
    ensures var r := Step(n, s, input); Showing(true, n, r.state, 1) && r.events == [VisitEvent(true, n, 0)]
  {
    assert !DoesNodeProcess(Everyone(n)[0], s.main.outgoing);
  }

  /** Any other node answers. */
  lemma OtherVisit(own: bool, n: nat, s: State, k: nat)
    requires Inv(n, s) && Showing(own, n, s, k) && k < n && (own ==> k > 0)
    ensures var input := Replying(n, Some(From(k + 1)));
            && Shape(n, s, input) && Calm(s, input)
            && var r := Step(n, s, input);
               && r.events == [VisitEvent(own, n, k), SiblingLoaded(From(k + 1))]
               && r.state.sibling.valid && r.state.sibling.outgoing == From(k + 1)
               && Showing(own, n, r.state.(sibling := r.state.sibling.(valid := false)), k + 1)
  {
    assert DoesNodeProcess(Everyone(n)[k], s.main.outgoing);
  }

  /** The answer is sent. */
  lemma AnswerSent(own: bool, n: nat, s: State, k: nat, input: Input)
    requires Inv(n, s) && Showing(own, n, s.(sibling := s.sibling.(valid := false)), k) && s.sibling.valid
    requires |input.nodes| == n && input.accept
    ensures Shape(n, s, input) && Calm(s, input)
    ensures var r := Step(n, s, input);
            r.events == [SiblingSent(s.sibling.outgoing)] && Showing(own, n, r.state, k)
  {
  }

  /** A call within the round adds to its stretch of the log. */
  lemma Stretch(log: seq<Event>, more: seq<Event>, i: nat)
    requires i < |log|
    ensures (log + more)[i + 1..] == log[i + 1..] + more
    ensures Carrying(SiblingSends, (log + more)[i + 1..])
            == Carrying(SiblingSends, log[i + 1..]) + Carrying(SiblingSends, more)
    ensures Visits((log + more)[i + 1..]) == Visits(log[i + 1..]) + Visits(more)
  {
    assert (log + more)[i + 1..] == log[i + 1..] + more;
    CarryingConcat(SiblingSends, log[i + 1..], more);
    VisitsConcat(log[i + 1..], more);
  }

  lemma {:induction false} VisitsConcat(a: seq<Event>, b: seq<Event>)
    ensures Visits(a + b) == Visits(a) + Visits(b)
  {
    if b == [] {
      assert a + b == a;
    } else {
      var s := a + b;
      assert s[..|s| - 1] == a + b[..|b| - 1];
      VisitsConcat(a, b[..|b| - 1]);
    }
  }

  /** What a call's events add to the stretch. */
  lemma ShortStretch(e: Event, m: Msg)
    requires e.Visit?
    ensures Visits([]) == [] && Carrying(SiblingSends, []) == []
    ensures Carrying(SiblingSends, [e]) == [] && Visits([e]) == [e]
    ensures Carrying(SiblingSends, [e, SiblingLoaded(m)]) == [] && Visits([e, SiblingLoaded(m)]) == [e]
    ensures Carrying(SiblingSends, [SiblingSent(m)]) == [m] && Visits([SiblingSent(m)]) == []
  {
    assert [e, SiblingLoaded(m)][..1] == [e] && [e][..0] == [];
    assert Visits([e]) == Visits([e][..0]) + [e];
    assert Visits([SiblingSent(m)]) == Visits([SiblingSent(m)][..0]);
    assert Visits([e, SiblingLoaded(m)]) == Visits([e, SiblingLoaded(m)][..1]);
  }

  /** The sender's turn passes to node 1. */
  lemma SendersTurn(n: nat, depth: nat, r: Run, i: nat) returns (t: Run)
    requires 2 <= n < BYTE && Turn(true, n, depth, r, i, 0)
    ensures Turn(true, n, depth, t, i, 1)
  {
    hide Step, Calm, Inv, Shape, Showing, CalmRun, Carrying, Visits, Rules, HeldRules, Standing, Holding;
    var input, e := Replying(n, None), VisitEvent(true, n, 0);
    RulesOverRun(n, depth, From(0), r.states, r.inputs, r.logs);
    SenderVisit(n, Last(r), input);
    t := Extend(n, depth, r, input);
    Stretch(Flat(r.logs), [e], i);
    ShortStretch(e, From(0));
  }

  /** Any other node's turn passes to the next, with its answer sent. */
  lemma OthersTurn(own: bool, n: nat, depth: nat, r: Run, i: nat, k: nat) returns (t: Run)
    requires Turn(own, n, depth, r, i, k) && k < n && (own ==> k > 0)
    ensures Turn(own, n, depth, t, i, k + 1)
  {
    hide Step, Calm, Inv, Shape, Showing, CalmRun, Carrying, Visits, Rules, HeldRules, Standing, Holding;
    var input, none, e, m := Replying(n, Some(From(k + 1))), Replying(n, None), VisitEvent(own, n, k), From(k + 1);
    RulesOverRun(n, depth, From(0), r.states, r.inputs, r.logs);
    OtherVisit(own, n, Last(r), k);
    var u := Extend(n, depth, r, input);
    RulesOverRun(n, depth, From(0), u.states, u.inputs, u.logs);
    AnswerSent(own, n, Last(u), k + 1, none);
    t := Extend(n, depth, u, none);
    Stretch(Flat(r.logs), [e, SiblingLoaded(m)], i);
    Stretch(Flat(u.logs), [SiblingSent(m)], i);
    ShortStretch(e, m);
  }

  lemma {:induction false} AllTurns(own: bool, n: nat, depth: nat, k: nat) returns (r: Run, i: nat)
    requires 2 <= n < BYTE && 1 <= depth < BYTE && k <= n
    ensures Turn(own, n, depth, r, i, k)
  {
    hide Turn;
    if k == 0 {
      r, i := Opening(own, n, depth);
    } else {
      r, i := AllTurns(own, n, depth, k - 1);
      if own && k == 1 { r := SendersTurn(n, depth, r, i); } else { r := OthersTurn(own, n, depth, r, i, k - 1); }
    }
  }

  /** The call after the last answer ends the round. */
  lemma Ends(own: bool, n: nat, s: State, input: Input)
    requires Inv(n, s) && Showing(own, n, s, n) && |input.nodes| == n
    ensures Shape(n, s, input) && Calm(s, input)
    ensures var r := Step(n, s, input); r.events != [] && r.events[0] == Finished
  {
    hide Idle;
  }

  /** A calm run with a round in which every node but the sender answers. */
  lemma FullRound(own: bool, n: nat, depth: nat) returns (r: Run, i: nat, j: nat)
    requires 2 <= n < BYTE && 1 <= depth < BYTE
    ensures Calls(n, depth, r) && MainRound(Flat(r.logs), i, j)
    ensures own ==> OwnMessage(Flat(r.logs), i, j)
    ensures |Responses(Flat(r.logs), i, j)| == if own then n - 1 else n
  {
    hide Step, Calm, Inv, Shape, Showing, CalmRun;
    r, i := AllTurns(own, n, depth, n);
    var log := Flat(r.logs);
    j := |log|;
    RulesOverRun(n, depth, From(0), r.states, r.inputs, r.logs);
    Ends(own, n, Last(r), Replying(n, None));
    r := Extend(n, depth, r, Replying(n, None));
    assert Flat(r.logs)[i + 1..j] == log[i + 1..];
  }

  /** No response to a main message is ever lost if and only if the queue has room for one from each node that may answer. */
  lemma NeverLostExactly(own: bool, n: nat, depth: nat)
    requires n < BYTE && 1 <= depth < BYTE
    ensures NeverLost(own, n, depth) <==> n <= 1 || (if own then n <= depth else n < depth)
  {
    hide CalmRun, NoneLost, OwnMessage, Flat, Responses;
    if n <= 1 || (if own then n <= depth else n < depth) {
      forall blank: Msg, states: seq<State>, inputs: seq<Input>, logs: seq<seq<Event>>, i: nat, j: nat
        | CalmRun(n, depth, blank, states, inputs, logs) && MainRound(Flat(logs), i, j)
          && (own ==> OwnMessage(Flat(logs), i, j))
        ensures NoneLost(depth - 1, Flat(logs), i, j)
      {
        FewResponses(n, depth, blank, states, inputs, logs, i, j);
        LostExactly(n, depth, blank, states, inputs, logs, i, j);
      }
    } else {
      var r, i, j := FullRound(own, n, depth);
      LostExactly(n, depth, From(0), r.states, r.inputs, r.logs, i, j);
    }
  }
}
