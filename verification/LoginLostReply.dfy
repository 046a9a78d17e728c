/**
 A run from power-up that loses a reply: of two nodes without events the second logs in first; then the first
 does, and the second replies to its announcement.
 */
module LoginLostReply {
  import opened Words
  import opened NodeTable
  import opened Login
  import opened LoginRules
  import opened LoginRuns
  import opened LoginReplies

  const QUIET := Call(Input(true, Dispatch.Handling(None, false), StatusUnknown, true))

  function Replying(reply: Msg): Action {
    Call(Input(true, Dispatch.Handling(Some(reply), false), StatusUnknown, true))
  }

  /** A node without events. */
  function Bare(id: nat, alias: nat, runState: nat): LoginNode {
    LoginNode(Dispatch.Node(id, alias, runState, false), false, Events([], [], STOPPED), Events([], [], STOPPED))
  }

  function PowerUp(blank: Msg): State {
    State([Bare(1, 0, 0), Bare(2, 2, LOAD_INITIALIZATION_COMPLETE)], None, blank.(loopback := false), false, false,
          Sibling(None, false, false, blank, false), false)
  }

  // ---- Runs from actions ----

  predicate Undemanding(actions: seq<Action>) {
    forall i :: 0 <= i < |actions| ==> actions[i].Call? ==> !actions[i].input.handling.enumerate
  }

  /** Actions in which no sibling asks to be re-entered make a run. */
  lemma {:induction false} RunOf(s: State, actions: seq<Action>) returns (states: seq<State>, logs: seq<seq<Event>>)
    requires Inv(s) && Undemanding(actions)
    ensures Behaviour(states, actions, logs) && states[0] == s && states[|actions|] == ActsAfter(s, actions)
    ensures Inv(ActsAfter(s, actions))
    ensures forall i :: 0 <= i < |actions| ==> CalmAction(states[i], actions[i])
  {
    hide Inv, Act, EntersSibling;
    if actions == [] {
      states, logs := [s], [];
    } else {
      var m := |actions| - 1;
      states, logs := RunOf(s, actions[..m]);
      var t := states[m];
      assert actions[..m + 1] == actions;
      assert CalmAction(t, actions[m]);
      ActFits(t, actions[m]);
      states, logs := states + [Act(t, actions[m]).state], logs + [Act(t, actions[m]).events];
    }
  }

  lemma ActFits(s: State, a: Action)
    requires Inv(s) && CalmAction(s, a)
    ensures Shape(s) && Inv(Act(s, a).state)
  {
    hide Inv, Act, Shape, CalmAction, Rules, LoadedBy, Grows;
    ActKeeps(s, a);
  }

  lemma {:induction false} ActsConcat(s: State, a: seq<Action>, b: seq<Action>)
    ensures ActsAfter(s, a + b) == ActsAfter(ActsAfter(s, a), b)
  {
    hide Act, Shape;
    if b == [] {
      assert a + b == a;
    } else {
      var c := a + b;
      assert c[..|c| - 1] == a + b[..|b| - 1];
      ActsConcat(s, a, b[..|b| - 1]);
    }
  }

  /** The state after one action. */
  ghost function AfterAct(s: State, a: Action): State {
    if Shape(s) then Act(s, a).state else s
  }

  lemma ThreeActs(s: State, a: Action, b: Action, c: Action)
    ensures ActsAfter(s, [a, b, c]) == AfterAct(AfterAct(AfterAct(s, a), b), c)
    ensures ActsAfter(s, [a, b]) == AfterAct(AfterAct(s, a), b)
    ensures ActsAfter(s, [a]) == AfterAct(s, a)
  {
    hide Act, Shape;
    assert [a, b, c][..2] == [a, b] && [a, b][..1] == [a] && [a][..0] == [];
    assert ActsAfter(s, [a]) == AfterAct(ActsAfter(s, [a][..0]), a);
    assert ActsAfter(s, [a, b]) == AfterAct(ActsAfter(s, [a, b][..1]), b);
    assert ActsAfter(s, [a, b, c]) == AfterAct(ActsAfter(s, [a, b, c][..2]), c);
  }

  // ---- The stages of the run ----

  /** Between two handler calls, the node t having its turn and the other being idle. */
  ghost predicate Turn(s: State, t: nat) {
    && |s.nodes| == 2 && t < 2 && s.node == Some(t) && !s.active && !s.valid && !s.enumerate
    && s.sibling.node.None?
    && s.nodes[t].producers.list == [] && s.nodes[t].producers.ranges == []
    && s.nodes[t].consumers.list == [] && s.nodes[t].consumers.ranges == []
    && !Logging(s.nodes[1 - t])
  }

  /** Where the enumeration of two nodes goes from a position. */
  function Onward(node: Option<nat>): Option<nat> {
    if node.None? then Some(0) else if node == Some(0) then Some(1) else None
  }

  ghost predicate Between(s: State) {
    |s.nodes| == 2 && Shape(s) && !s.active && !s.valid && !s.enumerate
  }

  /** The enumeration passes over a node that is not logging in. */
  lemma Pass(s: State)
    requires Between(s) && (Onward(s.node).Some? ==> !Logging(s.nodes[Onward(s.node).value]))
    ensures AfterAct(s, QUIET) == s.(node := Onward(s.node)) && Between(AfterAct(s, QUIET))
  {
    hide Handle, Applied;
  }

  /** The enumeration lands on node t, whose handler runs. */
  lemma Land(s: State, t: nat)
    requires Between(s) && Onward(s.node) == Some(t) && Logging(s.nodes[t])
    ensures AfterAct(s, QUIET) == Process(s.(node := Some(t)), t, QUIET.input).state
  {
    hide Handle, Applied;
  }

  /** The handler of a node without events moves it to the next stage. */
  lemma NextStage(s: State, t: nat)
    requires Turn(s, t) && LOAD_CONSUMER_EVENTS <= s.nodes[t].node.runState <= LOGIN_COMPLETE
    ensures var u := Process(s, t, QUIET.input).state;
            && Turn(u, t) && u.sibling == s.sibling && u.nodes[1 - t] == s.nodes[1 - t]
            && u.nodes[t].node == s.nodes[t].node.(runState :=
                 if s.nodes[t].node.runState == LOAD_PRODUCER_EVENTS then LOAD_CONSUMER_EVENTS
                 else if s.nodes[t].node.runState == LOAD_CONSUMER_EVENTS then LOGIN_COMPLETE else RUNSTATE_RUN)
  {
  }

  /** One lap of the enumeration, back to node t, whose handler moves it to the next stage. */
  lemma Lap(s: State, t: nat)
    requires Turn(s, t) && LOAD_CONSUMER_EVENTS <= s.nodes[t].node.runState <= LOGIN_COMPLETE
    ensures var u := ActsAfter(s, [QUIET, QUIET, QUIET]);
            && Turn(u, t) && u.sibling == s.sibling && u.nodes[1 - t] == s.nodes[1 - t]
            && u.nodes[t].node == s.nodes[t].node.(runState :=
                 if s.nodes[t].node.runState == LOAD_PRODUCER_EVENTS then LOAD_CONSUMER_EVENTS
                 else if s.nodes[t].node.runState == LOAD_CONSUMER_EVENTS then LOGIN_COMPLETE else RUNSTATE_RUN)
  {
    hide Process, AfterAct, ActsAfter;
    ThreeActs(s, QUIET, QUIET, QUIET);
    Pass(s);
    var a := AfterAct(s, QUIET);
    Pass(a);
    var b := AfterAct(a, QUIET);
    Land(b, t);
    assert b.(node := Some(t)) == s;
    NextStage(s, t);
  }

  /** Three laps take a node from its announcement to running. */
  lemma ThreeLaps(s: State, t: nat) returns (actions: seq<Action>)
    requires Turn(s, t) && s.nodes[t].node.runState == LOAD_PRODUCER_EVENTS
    ensures Undemanding(actions)
    ensures var u := ActsAfter(s, actions);
            && Turn(u, t) && u.sibling == s.sibling && u.nodes[1 - t] == s.nodes[1 - t]
            && u.nodes[t].node == s.nodes[t].node.(runState := RUNSTATE_RUN)
  {
    hide Turn, ActsAfter;
    var lap := [QUIET, QUIET, QUIET];
    Lap(s, t);
    var a := ActsAfter(s, lap);
    TurnNodes(s, t);
    TurnNodes(a, t);
    Lap(a, t);
    var b := ActsAfter(a, lap);
    TurnNodes(b, t);
    Lap(b, t);
    TurnNodes(ActsAfter(b, lap), t);
    actions := lap + lap + lap;
    ActsConcat(s, lap, lap);
    ActsConcat(s, lap + lap, lap);
  }

  lemma TurnNodes(s: State, t: nat)
    requires Turn(s, t)
    ensures |s.nodes| == 2 && t < 2
  {
  }

  /** A round for two nodes: the first never runs in it; the second replies if it runs and the filter lets it. */
  lemma Round(s: State, t: nat, a: Action)
    requires Shape(s) && |s.nodes| == 2 && t < 2 && s.node == Some(t) && !s.active && s.valid && !s.sibling.valid && !s.enumerate
    requires s.nodes[0].node.runState != RUNSTATE_RUN && a.Call? && !a.input.handling.enumerate
    requires a == QUIET || s.nodes[1].node.runState == RUNSTATE_RUN
    ensures var u := ActsAfter(s, [QUIET, QUIET, a]);
            var handled := s.nodes[1].node.runState == RUNSTATE_RUN
                           && Dispatch.DoesNodeProcess(s.nodes[1].node, s.outgoing.(loopback := true));
            && u.nodes == s.nodes && u.node == s.node && !u.active && !u.valid && !u.enumerate && u.sibling.node.None?
            && !u.outgoing.loopback
            && u.sibling.valid == (handled && a.input.handling.reply.Some?)
            && (u.sibling.valid ==> u.sibling.outgoing == a.input.handling.reply.value)
  {
    hide Dispatch.DoesNodeProcess;
    ThreeActs(s, QUIET, QUIET, a);
  }

  // ---- The run ----

  /** Node t has announced itself and its announcement waits to be sent. */
  ghost predicate HasAnnounced(s: State, t: nat) {
    && |s.nodes| == 2 && t < 2 && Shape(s) && s.node == Some(t) && !s.active && s.valid && !s.enumerate
    && !s.sibling.valid && s.nodes[t].node.runState == LOAD_PRODUCER_EVENTS && s.nodes[t].node.initialized
    && s.outgoing.sourceId == s.nodes[t].node.id && !Dispatch.Addressed(s.outgoing.mti)
    && s.nodes[t].producers.list == [] && s.nodes[t].producers.ranges == []
    && s.nodes[t].consumers.list == [] && s.nodes[t].consumers.ranges == []
  }

  /** A node without events that may log in. */
  predicate Ready(n: LoginNode) {
    && n.node.runState == LOAD_INITIALIZATION_COMPLETE
    && n.producers.list == [] && n.producers.ranges == [] && n.consumers.list == [] && n.consumers.ranges == []
  }

  /** The enumeration lands on node t, which announces itself. */
  lemma AnnounceNow(s: State, t: nat)
    requires Between(s) && t < 2 && Onward(s.node) == Some(t) && !s.sibling.valid && Ready(s.nodes[t])
    ensures var u := ActsAfter(s, [QUIET]);
            && HasAnnounced(u, t) && u.nodes[1 - t] == s.nodes[1 - t] && u.sibling == s.sibling
            && u.nodes[t].node.id == s.nodes[t].node.id && u.nodes[t].node.alias == s.nodes[t].node.alias
  {
    hide AfterAct, ActsAfter;
    ThreeActs(s, QUIET, QUIET, QUIET);
    Land(s, t);
  }

  /** One move passes over a node or the end, the next lands on node t, which announces itself. */
  lemma AnnounceNext(s: State, t: nat)
    requires Between(s) && t < 2 && Onward(Onward(s.node)) == Some(t) && !s.sibling.valid && Ready(s.nodes[t])
    requires Onward(s.node).Some? ==> !Logging(s.nodes[Onward(s.node).value])
    ensures var u := ActsAfter(s, [QUIET, QUIET]);
            && HasAnnounced(u, t) && u.nodes[1 - t] == s.nodes[1 - t] && u.sibling == s.sibling
            && u.nodes[t].node.id == s.nodes[t].node.id && u.nodes[t].node.alias == s.nodes[t].node.alias
  {
    hide AfterAct, ActsAfter, HasAnnounced;
    ThreeActs(s, QUIET, QUIET, QUIET);
    Pass(s);
    ThreeActs(AfterAct(s, QUIET), QUIET, QUIET, QUIET);
    AnnounceNow(AfterAct(s, QUIET), t);
  }

  /** The announcement goes out, the other node replies to it if it runs, and the announcing node gets to run. */
  lemma LogIn(s: State, t: nat, a: Action) returns (actions: seq<Action>)
    requires HasAnnounced(s, t) && s.nodes[0].node.runState != RUNSTATE_RUN && a.Call? && !a.input.handling.enumerate
    requires !Logging(s.nodes[1 - t]) && (a == QUIET || (t == 0 && s.nodes[1].node.runState == RUNSTATE_RUN))
    ensures Undemanding(actions)
    ensures var u := ActsAfter(s, actions);
            var handled := t == 0 && s.nodes[1].node.runState == RUNSTATE_RUN && s.nodes[1].node.initialized
                           && s.nodes[1].node.id != s.nodes[0].node.id;
            && Turn(u, t) && u.nodes[1 - t] == s.nodes[1 - t]
            && u.nodes[t].node == s.nodes[t].node.(runState := RUNSTATE_RUN)
            && u.sibling.valid == (handled && a.input.handling.reply.Some?)
            && (u.sibling.valid ==> u.sibling.outgoing == a.input.handling.reply.value)
  {
    hide ActsAfter, AfterAct;
    var round := [QUIET, QUIET, a];
    Round(s, t, a);
    var u := ActsAfter(s, round);
    var laps := ThreeLaps(u, t);
    actions := round + laps;
    ActsConcat(s, round, laps);
  }

  /** The first half: the second node logs in alone. */
  lemma SecondLogsIn(blank: Msg) returns (actions: seq<Action>)
    ensures Undemanding(actions)
    ensures var u := ActsAfter(PowerUp(blank), actions);
            && Turn(u, 1) && u.nodes[0] == Bare(1, 0, 0) && !u.sibling.valid
            && u.nodes[1].node == Dispatch.Node(2, 2, RUNSTATE_RUN, true)
  {
    hide ActsAfter;
    var s := PowerUp(blank);
    AnnounceNext(s, 1);
    var first := [QUIET, QUIET];
    var rest := LogIn(ActsAfter(s, first), 1, QUIET);
    actions := first + rest;
    ActsConcat(s, first, rest);
  }

  /** The second half: the first node is staged and logs in, and the second replies to it. */
  lemma FirstLogsIn(s: State, reply: Msg) returns (actions: seq<Action>)
    requires Turn(s, 1) && s.nodes[0] == Bare(1, 0, 0) && !s.sibling.valid
    requires s.nodes[1].node == Dispatch.Node(2, 2, RUNSTATE_RUN, true)
    ensures Undemanding(actions)
    ensures var u := ActsAfter(s, actions); AllRunning(u) && u.sibling.valid && u.sibling.outgoing == reply
  {
    hide ActsAfter, AfterAct;
    var stage := Stage(0, 1, LOAD_INITIALIZATION_COMPLETE);
    var a := ActsAfter(s, [stage]);
    ThreeActs(s, stage, stage, stage);
    StageFirst(s);
    AnnounceNext(a, 0);
    var b := ActsAfter(a, [QUIET, QUIET]);
    var rest := LogIn(b, 0, Replying(reply));
    var two := [stage] + [QUIET, QUIET];
    actions := two + rest;
    ActsConcat(s, [stage], [QUIET, QUIET]);
    ActsConcat(s, two, rest);
  }

  lemma StageFirst(s: State)
    requires Turn(s, 1) && s.nodes[0] == Bare(1, 0, 0)
    ensures AfterAct(s, Stage(0, 1, LOAD_INITIALIZATION_COMPLETE)) == s.(nodes := s.nodes[0 := Bare(1, 1, LOAD_INITIALIZATION_COMPLETE)])
  {
  }

  /** A calm run from power-up after which every node runs and the given reply waits, never to be sent. */
  lemma AReplyIsLost(blank: Msg, reply: Msg) returns (states: seq<State>, actions: seq<Action>, logs: seq<seq<Event>>)
    ensures CalmRun(states, actions, logs) && AllRunning(states[|actions|])
    ensures LoadedReplies(Flat(logs)) == SentReplies(Flat(logs)) + [reply]
  {
    hide ActsAfter, Act, LoadedReplies, SentReplies, Flat, LastVisitReplied, CalmAction;
    var s := PowerUp(blank);
    var first := SecondLogsIn(blank);
    var second := FirstLogsIn(ActsAfter(s, first), reply);
    actions := first + second;
    ActsConcat(s, first, second);
    InitiallyStanding(s);
    states, logs := RunOf(s, actions);
    RepliesOverRun(states, actions, logs);
  }
}
