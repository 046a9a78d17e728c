/**
 A run from power-up that stops the login: of two nodes without events the first logs in; then the second
 announces itself, and the first, shown that announcement, asks to be re-entered.
 */
module LoginStopped {
  import opened Words
  import opened NodeTable
  import opened Login
  import opened LoginRules
  import opened LoginRuns
  import opened LoginReentry
  import opened LoginLostReply

  function Unstaged(blank: Msg): State {
    State([Bare(1, 0, 0), Bare(2, 0, 0)], None, blank.(loopback := false), false, false,
          Sibling(None, false, false, blank, false), false)
  }

  /** The first node is staged and logs in. */
  lemma FirstRuns(blank: Msg) returns (actions: seq<Action>)
    ensures Undemanding(actions)
    ensures var u := ActsAfter(Unstaged(blank), actions);
            && Turn(u, 0) && u.nodes[1] == Bare(2, 0, 0) && !u.sibling.valid
            && u.nodes[0].node == Dispatch.Node(1, 1, RUNSTATE_RUN, true)
  {
    hide ActsAfter, AfterAct;
    var s, stage := Unstaged(blank), Stage(0, 1, LOAD_INITIALIZATION_COMPLETE);
    ThreeActs(s, QUIET, QUIET, stage);
    Pass(s);
    Pass(AfterAct(s, QUIET));
    var a := ActsAfter(s, [QUIET, QUIET, stage]);
    assert a == s.(node := Some(1), nodes := s.nodes[0 := Bare(1, 1, LOAD_INITIALIZATION_COMPLETE)]) by {
      StageNode(AfterAct(AfterAct(s, QUIET), QUIET), 0, 1);
    }
    AnnounceNext(a, 0);
    var b := ActsAfter(a, [QUIET, QUIET]);
    var rest := LogIn(b, 0, QUIET);
    var two := [QUIET, QUIET, stage] + [QUIET, QUIET];
    actions := two + rest;
    ActsConcat(s, [QUIET, QUIET, stage], [QUIET, QUIET]);
    ActsConcat(s, two, rest);
  }

  /** The layer below stages a node that has not reached login. */
  lemma StageNode(s: State, k: nat, alias: nat)
    requires Shape(s) && k < |s.nodes| && s.nodes[k].node.runState == 0
    ensures AfterAct(s, Stage(k, alias, LOAD_INITIALIZATION_COMPLETE)) == s.(nodes := s.nodes[k := s.nodes[k].(node :=
              s.nodes[k].node.(alias := alias, runState := LOAD_INITIALIZATION_COMPLETE))])
  {
  }

  /** The second node is staged and announces itself; the announcement is sent, and it is the first node's turn. */
  lemma SecondAnnounces(s: State)
    requires Turn(s, 0) && s.nodes[1] == Bare(2, 0, 0) && !s.sibling.valid
    requires s.nodes[0].node == Dispatch.Node(1, 1, RUNSTATE_RUN, true)
    ensures var u := ActsAfter(s, [Stage(1, 2, LOAD_INITIALIZATION_COMPLETE), QUIET, QUIET]);
            && Shape(u) && EntersSibling(u) && u.sibling.node == Some(0) && |u.nodes| == 2
            && u.nodes[1].node.id == u.outgoing.sourceId && u.outgoing.loopback
  {
    hide ActsAfter, AfterAct;
    var stage := Stage(1, 2, LOAD_INITIALIZATION_COMPLETE);
    ThreeActs(s, stage, QUIET, QUIET);
    StageNode(s, 1, 2);
    var a := AfterAct(s, stage);
    ThreeActs(a, QUIET, QUIET, QUIET);
    AnnounceNow(a, 1);
    SentToFirst(AfterAct(a, QUIET));
  }

  lemma SentToFirst(s: State)
    requires HasAnnounced(s, 1) && s.nodes[0].node.runState == RUNSTATE_RUN && s.nodes[0].node.initialized
    requires s.nodes[0].node.id != s.nodes[1].node.id
    ensures var u := AfterAct(s, QUIET);
            && Shape(u) && EntersSibling(u) && u.sibling.node == Some(0) && u.nodes == s.nodes
            && u.nodes[1].node.id == u.outgoing.sourceId && u.outgoing.loopback
  {
    hide Dispatch.Addressed;
  }

  const ASKING := Input(true, Dispatch.Handling(None, true), StatusUnknown, true)

  /** From power-up to a state in which the login of every node has stopped for good. */
  lemma ALoginStops(blank: Msg) returns (states: seq<State>, actions: seq<Action>, logs: seq<seq<Event>>)
    ensures Behaviour(states, actions, logs) && PoweredUp(states[0]) && Stopped(states[|actions|])
  {
    hide Inv, Shape, Step, Stopped, EntersSibling, ActsAfter, Dispatch.DoesNodeProcess, Turn;
    var s := Unstaged(blank);
    var first := FirstRuns(blank);
    var second := [Stage(1, 2, LOAD_INITIALIZATION_COMPLETE), QUIET, QUIET];
    TurnNodes(ActsAfter(s, first), 0);
    SecondAnnounces(ActsAfter(s, first));
    ActsConcat(s, first, second);
    StartsUp(blank);
    InitiallyStanding(s);
    states, logs := RunOf(s, first + second);
    var u := states[|first + second|];
    RequestStopsTheLogin(u, ASKING, QUIET.input);
    OwnMessage(u);
    actions := first + second + [Call(ASKING)];
    states, logs := states + [Step(u, ASKING).state], logs + [Step(u, ASKING).events];
    assert Act(u, Call(ASKING)) == Step(u, ASKING);
  }

  lemma StartsUp(blank: Msg)
    ensures PoweredUp(Unstaged(blank))
  {
  }

  lemma OwnMessage(s: State)
    requires |s.nodes| == 2 && s.nodes[1].node.id == s.outgoing.sourceId && s.outgoing.loopback
    ensures !Dispatch.DoesNodeProcess(s.nodes[1].node, s.outgoing)
  {
  }
}
