/** Lists too long for the byte indices: the bound under which a login ends is exact. */
module LoginLimits {
  import opened Words
  import opened Login
  import opened LoginRuns
  import opened LoginProgress

  predicate TooLong(e: Events) {
    |e.list| >= BYTE || |e.ranges| >= BYTE
  }

  predicate InBytes(e: Events) {
    e.at.index < BYTE && e.at.rangeIndex < BYTE
  }

  /** A node that can never get past its own lists. */
  predicate Trapped(n: LoginNode) {
    && InBytes(n.producers) && InBytes(n.consumers)
    && (|| ((TooLong(n.producers) || TooLong(n.consumers)) && n.node.runState <= LOAD_INITIALIZATION_COMPLETE)
        || ((TooLong(n.producers) || TooLong(n.consumers)) && n.node.runState == LOAD_PRODUCER_EVENTS)
        || (TooLong(n.consumers) && n.node.runState == LOAD_CONSUMER_EVENTS))
  }

  lemma HandleTraps(n: LoginNode, input: Input, enumerate: bool)
    requires Trapped(n) && Logging(n)
    ensures Trapped(Handle(n, input, enumerate).node)
  {
    hide RangeIdentified, EventIdentified, InitializationComplete;
  }

  lemma ActTraps(s: State, a: Action, t: nat)
    requires Shape(s) && t < |s.nodes| && Trapped(s.nodes[t])
    ensures var r := Act(s, a).state; |r.nodes| == |s.nodes| && Trapped(r.nodes[t])
  {
    hide Step, Handle;
    if a.Call? {
      StepHandlesOne(s, a.input);
      var r := Step(s, a.input).state;
      if r.nodes != s.nodes {
        var k, enumerate :| 0 <= k < |s.nodes| && Logging(s.nodes[k])
                            && r.nodes == s.nodes[k := Handle(s.nodes[k], a.input, enumerate).node];
        if k == t { HandleTraps(s.nodes[k], a.input, enumerate); }
      }
    }
  }

  /**
   The bound of 255 in LoginEnds is exact: a node that starts its login with a longer list of events or
   ranges never runs, whatever its surroundings do.
   */
  lemma {:induction false} TooLongNeverRuns(states: seq<State>, actions: seq<Action>, logs: seq<seq<Event>>, t: nat)
    requires Behaviour(states, actions, logs) && t < |states[0].nodes|
    requires var n := states[0].nodes[t];
             && n.node.runState <= LOAD_INITIALIZATION_COMPLETE && InBytes(n.producers) && InBytes(n.consumers)
             && (TooLong(n.producers) || TooLong(n.consumers))
    ensures var s := states[|actions|];
            |s.nodes| == |states[0].nodes| && Trapped(s.nodes[t]) && s.nodes[t].node.runState < LOGIN_COMPLETE
    decreases |actions|
  {
    hide Act;
    if actions != [] {
      var m := |actions| - 1;
      TooLongNeverRuns(states[..m + 1], actions[..m], logs[..m], t);
      ActTraps(states[m], actions[m], t);
    }
  }
}
