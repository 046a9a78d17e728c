/** What every run of the login state machine puts on the wire, and that it ends. */
module LoginRuns {
  import opened Words
  import opened NodeTable
  import opened Login
  import opened LoginRules

  // ---- Runs ----

  /** A call of run(), or the layer below changing the stage or the alias of a node that has not reached login. */
  datatype Action = Call(input: Input) | Stage(k: nat, alias: nat, runState: nat)

  function Act(s: State, a: Action): Result
    requires Shape(s)
  {
    match a
    case Call(input) => Step(s, input)
    case Stage(k, alias, r) =>
      if k < |s.nodes| && s.nodes[k].node.runState < LOAD_INITIALIZATION_COMPLETE && r <= LOAD_INITIALIZATION_COMPLETE
      then Result(s.(nodes := s.nodes[k := s.nodes[k].(node := s.nodes[k].node.(alias := alias, runState := r))]), [])
      else Result(s, [])
  }

  predicate CalmAction(s: State, a: Action) {
    a.Call? ==> Calm(s, a.input)
  }

  function Flat(logs: seq<seq<Event>>): seq<Event> {
    if logs == [] then [] else Flat(logs[..|logs| - 1]) + logs[|logs| - 1]
  }

  ghost predicate Behaviour(states: seq<State>, actions: seq<Action>, logs: seq<seq<Event>>) {
    && |states| == |actions| + 1 == |logs| + 1
    && forall i :: 0 <= i < |actions| ==> Shape(states[i]) && Act(states[i], actions[i]) == Result(states[i + 1], logs[i])
  }

  /** Power-up with nodes that have not logged in and whose lists the byte indices can count. */
  ghost predicate PoweredUp(s: State) {
    && |s.nodes| < BYTE
    && (forall k :: 0 <= k < |s.nodes| ==> Small(s.nodes[k]) && s.nodes[k].node.runState <= LOAD_INITIALIZATION_COMPLETE)
    && s.node.None? && !s.outgoing.loopback && !s.valid && !s.enumerate && !s.active
    && s.sibling.node.None? && !s.sibling.attached && !s.sibling.enumerate && !s.sibling.valid
  }

  /** A run from power-up of calm calls. */
  ghost predicate CalmRun(states: seq<State>, actions: seq<Action>, logs: seq<seq<Event>>) {
    && Behaviour(states, actions, logs) && PoweredUp(states[0])
    && forall i :: 0 <= i < |actions| ==> CalmAction(states[i], actions[i])
  }

  /** The state after the given actions. */
  ghost function ActsAfter(s: State, actions: seq<Action>): State {
    if actions == [] then s
    else
      var t := ActsAfter(s, actions[..|actions| - 1]);
      if Shape(t) then Act(t, actions[|actions| - 1]).state else t
  }

  lemma ActKeeps(s: State, a: Action)
    requires Inv(s) && CalmAction(s, a)
    ensures Shape(s) && Keeps(s, Act(s, a))
  {
    hide Step, Calm, Rules;
    if a.Call? {
      StepKeeps(s, a.input);
    } else {
      RulesShort(|s.nodes|, Standing(s), Finished, Finished, Finished);
      assert forall k :: LoadedBy(k, []) == [];
    }
  }

  /** A node whose loaded messages are exactly the first it owes, in order. */
  predicate Announced(n: LoginNode, msgs: seq<Msg>) {
    |msgs| == Done(n) && forall j :: 0 <= j < |msgs| ==> Conveys(n, j, msgs[j])
  }

  lemma AnnouncedGrows(a: LoginNode, b: LoginNode, before: seq<Msg>, msgs: seq<Msg>)
    requires Announced(a, before) && Grows(a, b, msgs)
    ensures Announced(b, before + msgs)
  {
    hide Conveys, Done;
    forall j | 0 <= j < |before + msgs| ensures Conveys(b, j, (before + msgs)[j]) {
      if j < |before| { ConveysSame(a, b, j, before[j]); }
    }
  }

  lemma ConveysSame(a: LoginNode, b: LoginNode, j: nat, m: Msg)
    requires Conveys(a, j, m) && SameLists(a, b) && a.node.alias == b.node.alias
    ensures Conveys(b, j, m)
  {
  }

  lemma {:induction false} LoadedByConcat(k: nat, a: seq<Event>, b: seq<Event>)
    ensures LoadedBy(k, a + b) == LoadedBy(k, a) + LoadedBy(k, b)
  {
    if b == [] {
      assert a + b == a;
    } else {
      var s := a + b;
      assert s[..|s| - 1] == a + b[..|b| - 1];
      LoadedByConcat(k, a, b[..|b| - 1]);
    }
  }

  const START := Progress(None, None, None)

  /** Every run keeps the rules, no call is ever refused for the state it finds, and every node loads what it owes in order. */
  lemma {:induction false} RulesOverRun(states: seq<State>, actions: seq<Action>, logs: seq<seq<Event>>)
    requires CalmRun(states, actions, logs)
    ensures var s := states[|actions|];
            && Inv(s) && Shape(s) && |s.nodes| == |states[0].nodes|
            && Rules(|s.nodes|, START, Flat(logs)) == Standing(s)
            && forall k :: 0 <= k < |s.nodes| ==>
                 SameLists(states[0].nodes[k], s.nodes[k]) && Announced(s.nodes[k], LoadedBy(k, Flat(logs)))
    decreases |actions|
  {
    hide Rules, Act, CalmAction, Announced, LoadedBy, Grows;
    var m := |actions|;
    if m == 0 {
      InitiallyStanding(states[0]);
    } else {
      var s, t := states[m - 1], states[m];
      RulesOverRun(states[..m], actions[..m - 1], logs[..m - 1]);
      ActKeeps(s, actions[m - 1]);
      RulesConcat(|s.nodes|, START, Flat(logs[..m - 1]), logs[m - 1]);
      forall k | 0 <= k < |t.nodes|
        ensures SameLists(states[0].nodes[k], t.nodes[k]) && Announced(t.nodes[k], LoadedBy(k, Flat(logs)))
      {
        OneMore(states[0].nodes[k], s.nodes[k], t.nodes[k], k, Flat(logs[..m - 1]), logs[m - 1]);
      }
    }
  }

  lemma OneMore(first: LoginNode, a: LoginNode, b: LoginNode, k: nat, before: seq<Event>, log: seq<Event>)
    requires SameLists(first, a) && Announced(a, LoadedBy(k, before)) && Grows(a, b, LoadedBy(k, log))
    ensures SameLists(first, b) && Announced(b, LoadedBy(k, before + log))
  {
    hide Announced, LoadedBy, Conveys, Done;
    LoadedByConcat(k, before, log);
    AnnouncedGrows(a, b, LoadedBy(k, before), LoadedBy(k, log));
  }

  lemma InitiallyStanding(s: State)
    requires PoweredUp(s)
    ensures Inv(s) && Standing(s) == START && Rules(|s.nodes|, START, []) == START
    ensures forall k :: 0 <= k < |s.nodes| ==> SameLists(s.nodes[k], s.nodes[k]) && Announced(s.nodes[k], LoadedBy(k, []))
  {
  }

  // ---- What the wire accepts ----

  /** What the wire accepted from node k, in the order of the log. */
  function SentBy(k: nat, log: seq<Event>): seq<Msg> {
    if log == [] then []
    else
      var e := log[|log| - 1];
      SentBy(k, log[..|log| - 1]) + if e.Sent? && e.from == Some(k) then [e.msg] else []
  }

  /** The message of node k that is loaded and not yet on the wire. */
  function Unsent(k: nat, o: Progress): seq<Msg>
    requires !o.Broken?
  {
    if o.round.None? && o.loaded.Some? && o.loaded.value.node == k then [o.loaded.value.msg] else []
  }

  lemma {:induction false} BrokenStays(n: nat, log: seq<Event>)
    ensures Rules(n, Progress.Broken, log).Broken?
  {
    if log != [] { BrokenStays(n, log[..|log| - 1]); }
  }

  lemma PrefixSound(n: nat, log: seq<Event>, i: nat)
    requires !Rules(n, START, log).Broken? && i <= |log|
    ensures !Rules(n, START, log[..i]).Broken?
  {
    hide Rules;
    assert log == log[..i] + log[i..];
    RulesConcat(n, START, log[..i], log[i..]);
    if Rules(n, START, log[..i]).Broken? { BrokenStays(n, log[i..]); }
  }

  /** What a node loads the wire accepts once and in order, but for the last message when it still waits. */
  lemma {:induction false} EachSentOnce(n: nat, k: nat, log: seq<Event>)
    requires !Rules(n, START, log).Broken?
    ensures var o := Rules(n, START, log);
            && (o.round.Some? ==> o.loaded.Some?)
            && LoadedBy(k, log) == SentBy(k, log) + Unsent(k, o)
  {
    hide DispatchRules.VisitInOrder;
    if log != [] {
      EachSentOnce(n, k, log[..|log| - 1]);
    }
  }

  /**
   In every calm run, however the nodes interleave and whatever the wire and the application refuse: what
   the wire has accepted from a node is exactly the first messages of its announcement, each once and in
   order, and it is the whole announcement by the time the node has left the event states.
   */
  lemma LoginSequence(states: seq<State>, actions: seq<Action>, logs: seq<seq<Event>>, k: nat)
    requires CalmRun(states, actions, logs) && k < |states[0].nodes|
    ensures |states[|actions|].nodes| == |states[0].nodes|
    ensures var node := states[|actions|].nodes[k];
            var sent := SentBy(k, Flat(logs));
            && SameLists(states[0].nodes[k], node)
            && |sent| <= Total(node)
            && (forall j :: 0 <= j < |sent| ==> Conveys(node, j, sent[j]))
            && (node.node.runState >= LOGIN_COMPLETE ==> |sent| == Total(node))
            && (node.node.runState < LOAD_INITIALIZATION_COMPLETE ==> sent == [])
            && (node.node.runState > LOAD_INITIALIZATION_COMPLETE ==> Started(node))
  {
    hide Rules, LoadedBy, SentBy, Flat, Act, CalmAction, Conveys;
    var s := states[|actions|];
    RulesOverRun(states, actions, logs);
    EachSentOnce(|s.nodes|, k, Flat(logs));
    var loaded, sent := LoadedBy(k, Flat(logs)), SentBy(k, Flat(logs));
    assert forall j :: 0 <= j < |sent| ==> sent[j] == loaded[j];
    DoneIsBounded(s.nodes[k]);
  }

  lemma DoneIsBounded(n: LoginNode)
    requires NodeInv(n)
    ensures Done(n) <= Total(n)
  {
  }

  // ---- Every announcement is shown to every node ----

  function Visits(log: seq<Event>): seq<Event> {
    if log == [] then []
    else Visits(log[..|log| - 1]) + if log[|log| - 1].Visit? then [log[|log| - 1]] else []
  }

  /** Visit k shows m to node k: handled exactly if it is running and the filter lets it act, with its reply slot free. */
  predicate ShownInOrder(visits: seq<Event>, m: Msg) {
    forall k :: 0 <= k < |visits| ==>
      && visits[k].Visit? && visits[k].node == k && visits[k].msg == m
      && DispatchRules.VisitInOrder(visits[k].seen, m, visits[k].offered, visits[k].handled, visits[k].slotFree)
  }

  lemma {:induction false} RoundProgress(n: nat, o: Progress, log: seq<Event>)
    requires o.Progress? && o.round == Some(0) && o.loaded.Some?
    requires Finished !in log && !Rules(n, o, log).Broken?
    ensures var r := Rules(n, o, log);
            && r.round == Some(|Visits(log)|) && r.loaded == o.loaded
            && ShownInOrder(Visits(log), o.loaded.value.msg.(loopback := true))
  {
    if log != [] {
      var prefix := log[..|log| - 1];
      forall e | e in prefix ensures e in log {}
      RoundProgress(n, o, prefix);
    }
  }

  lemma RoundShowsAll(n: nat, log: seq<Event>, i: nat, j: nat)
    requires !Rules(n, START, log).Broken?
    requires i < j < |log| && log[i].Sent? && log[j].Finished? && Finished !in log[i + 1..j]
    ensures var visits := Visits(log[i + 1..j]);
            |visits| == (if n <= 1 then 0 else n) && ShownInOrder(visits, log[i].msg.(loopback := true))
  {
    hide Rule;
    var before := Rules(n, START, log[..i]);
    var begun := Rules(n, START, log[..i + 1]);
    var ending := Rules(n, START, log[..j]);
    PrefixSound(n, log, i + 1);
    PrefixSound(n, log, j);
    PrefixSound(n, log, j + 1);
    assert log[..i + 1] == log[..i] + [log[i]] && log[..j + 1] == log[..j] + [log[j]];
    assert log[..j] == log[..i + 1] + log[i + 1..j];
    RulesConcat(n, START, log[..i], [log[i]]);
    RulesShort(n, before, log[i], log[i], log[i]);
    RulesConcat(n, START, log[..i + 1], log[i + 1..j]);
    RulesConcat(n, START, log[..j], [log[j]]);
    RulesShort(n, ending, log[j], log[j], log[j]);
    BeginsRound(n, before, log[i]);
    RoundProgress(n, begun, log[i + 1..j]);
    EndsRound(n, ending);
  }

  lemma BeginsRound(n: nat, o: Progress, e: Event)
    requires e.Sent? && !Rule(n, o, e).Broken?
    ensures var b := Rule(n, o, e); b.round == Some(0) && b.loaded.Some? && b.loaded.value.msg == e.msg
  {
  }

  lemma EndsRound(n: nat, o: Progress)
    requires !Rule(n, o, Finished).Broken?
    ensures !o.Broken? && o.round == Some(if n <= 1 then 0 else n)
  {
  }

  /** In every calm run each announcement on the wire is shown to every node once, in index order, before its slot is given up. */
  lemma AnnouncementsAreShownToAll(states: seq<State>, actions: seq<Action>, logs: seq<seq<Event>>, i: nat, j: nat)
    requires CalmRun(states, actions, logs)
    requires i < j < |Flat(logs)| && Flat(logs)[i].Sent? && Flat(logs)[j].Finished? && Finished !in Flat(logs)[i + 1..j]
    ensures var n := |states[0].nodes|;
            var visits := Visits(Flat(logs)[i + 1..j]);
            |visits| == (if n <= 1 then 0 else n) && ShownInOrder(visits, Flat(logs)[i].msg.(loopback := true))
  {
    hide Inv, Act, Visits, ShownInOrder, Rules, Announced, SameLists;
    RulesOverRun(states, actions, logs);
    RoundShowsAll(|states[0].nodes|, Flat(logs), i, j);
  }

  lemma {:induction false} LoadedIsGlobal(n: nat, log: seq<Event>)
    requires !Rules(n, START, log).Broken?
    ensures var o := Rules(n, START, log); o.loaded.Some? ==> !Dispatch.Addressed(o.loaded.value.msg.mti)
  {
    hide DispatchRules.VisitInOrder, Dispatch.Addressed;
    if log != [] { LoadedIsGlobal(n, log[..|log| - 1]); }
  }

  lemma SentIsGlobal(n: nat, log: seq<Event>, i: nat)
    requires !Rules(n, START, log).Broken? && i < |log| && log[i].Sent?
    ensures !Dispatch.Addressed(log[i].msg.mti)
  {
    hide Rules, Dispatch.Addressed;
    PrefixSound(n, log, i);
    PrefixSound(n, log, i + 1);
    assert log[..i + 1] == log[..i] + [log[i]];
    RulesConcat(n, START, log[..i], [log[i]]);
    RulesShort(n, Rules(n, START, log[..i]), log[i], log[i], log[i]);
    LoadedIsGlobal(n, log[..i]);
  }

  /** In every calm run an announcement is acted on by every running and initialized node but the one that sent it. */
  lemma AnnouncementsAreActedOn(states: seq<State>, actions: seq<Action>, logs: seq<seq<Event>>, i: nat, j: nat, k: nat)
    requires CalmRun(states, actions, logs)
    requires i < j < |Flat(logs)| && Flat(logs)[i].Sent? && Flat(logs)[j].Finished? && Finished !in Flat(logs)[i + 1..j]
    requires k < |Visits(Flat(logs)[i + 1..j])|
    ensures var v := Visits(Flat(logs)[i + 1..j])[k];
            && v.Visit? && v.node == k
            && (v.handled <==>
                  v.seen.runState == RUNSTATE_RUN && v.seen.initialized && v.seen.id != Flat(logs)[i].msg.sourceId)
  {
    hide Inv, Act, Visits, Rules, Announced, SameLists, Flat;
    RulesOverRun(states, actions, logs);
    SentIsGlobal(|states[0].nodes|, Flat(logs), i);
    AnnouncementsAreShownToAll(states, actions, logs, i, j);
    ShownAt(Visits(Flat(logs)[i + 1..j]), Flat(logs)[i].msg.(loopback := true), k);
  }

  lemma ShownAt(visits: seq<Event>, m: Msg, k: nat)
    requires ShownInOrder(visits, m) && k < |visits| && !Dispatch.Addressed(m.mti) && m.loopback
    ensures var v := visits[k];
            && v.Visit? && v.node == k
            && (v.handled <==> v.seen.runState == RUNSTATE_RUN && v.seen.initialized && v.seen.id != m.sourceId)
  {
  }
}
