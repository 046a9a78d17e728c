/**
 A run from power-up that stops the dispatcher: of two running nodes the first replies to a message from the
 wire, and the second, shown that reply, replies in turn and asks to be re-entered.
 */
module DispatchStopped {
  import opened Words
  import opened NodeTable
  import opened Dispatch
  import opened DispatchRules
  import opened DispatchRuns
  import opened DispatchReentry

  function TwoNodes(): seq<Node> {
    [Node(1, 1, RUNSTATE_RUN, true), Node(2, 2, RUNSTATE_RUN, true)]
  }

  /** A global message from the given sender. */
  function From(id: nat): Msg {
    Msg(0, id, id, 0, 0, [], false, false)
  }

  /** The wire accepts, and handlers do as given. */
  function With(handling: Handling): Input {
    Input(TwoNodes(), true, handling, Some(From(9)))
  }

  const IDLE := Handling(None, false)

  /** The first node replies: its reply waits to be sent. */
  lemma FirstReplies(depth: nat, blank: Msg)
    requires 1 <= depth < BYTE && !blank.loopback
    ensures var s := InitialState(depth, blank);
            && Inv(2, s) && Shape(2, s, With(Handling(Some(From(1)), false)))
            && var t := Step(2, s, With(Handling(Some(From(1)), false))).state;
               Inv(2, t) && t == s.(main := MainContext(Some(0), Some(From(9)), false, From(1), true))
  {
    InitiallyStanding(2, depth, blank);
    assert DoesNodeProcess(TwoNodes()[0], From(9));
  }

  /** It is sent, and the first node passes over its own message. */
  lemma SecondsTurn(s: State)
    requires Inv(2, s) && !s.active && s.main.valid && s.main.outgoing == From(1)
    ensures Shape(2, s, With(IDLE)) && Shape(2, Step(2, s, With(IDLE)).state, With(IDLE))
    ensures var t := Step(2, Step(2, s, With(IDLE)).state, With(IDLE)).state;
            && Inv(2, t) && EntersSibling(t, With(Handling(Some(From(2)), true))) && t.sibling.node == Some(1)
  {
    hide Succ;
    var a := Step(2, s, With(IDLE)).state;
    assert a == SendMain(2, s, With(IDLE)).state;
    assert !DoesNodeProcess(TwoNodes()[0], From(1).(loopback := true));
    assert DoesNodeProcess(TwoNodes()[1], From(1).(loopback := true));
    assert NextNode(2, 0) == Some(1);
  }

  /** Five calls from power-up, and the dispatcher has stopped for good. */
  lemma ADispatcherStops(depth: nat, blank: Msg) returns (states: seq<State>, inputs: seq<Input>, logs: seq<seq<Event>>)
    requires 1 <= depth < BYTE && !blank.loopback
    ensures Behaviour(2, states, inputs, logs) && states[0] == InitialState(depth, blank)
    ensures Stopped(2, states[|inputs|], TwoNodes())
  {
    hide Inv, Shape, Step, Stopped, EntersSibling, DoesNodeProcess;
    var first, asking := With(Handling(Some(From(1)), false)), With(Handling(Some(From(2)), true));
    inputs := [first, With(IDLE), With(IDLE), asking, With(IDLE)];
    var s0 := InitialState(depth, blank);
    FirstReplies(depth, blank);
    var s1 := Step(2, s0, first).state;
    SecondsTurn(s1);
    var s2 := Step(2, s1, With(IDLE)).state;
    var s3 := Step(2, s2, With(IDLE)).state;
    RequestStopsTheDispatcher(2, s3, asking, With(IDLE), TwoNodes());
    var s4 := Step(2, s3, asking).state;
    var s5 := Step(2, s4, With(IDLE)).state;
    states := [s0, s1, s2, s3, s4, s5];
    logs := [Step(2, s0, first).events, Step(2, s1, With(IDLE)).events, Step(2, s2, With(IDLE)).events,
             Step(2, s3, asking).events, Step(2, s4, With(IDLE)).events];
    assert s5 == AfterRequest(2, s3, asking, With(IDLE));
  }
}
