/**
 What the login takes from its surroundings and gives to them: the messages the wire accepts, the states of events,
 and what the main handlers answer. The log is tied to these, call by call and over runs.
 */
module LoginCalls {
  import opened Words
  import opened NodeTable
  import opened Login
  import opened LoginRules
  import opened LoginRuns
  import opened LoginReplies
  import opened DispatchFilter

  /** What is put to the wire in a call: a round sends the replies of siblings, and only without one the login's own slot. */
  function Offered(s: State): seq<Msg> {
    if s.active then (if s.sibling.valid then [s.sibling.outgoing] else [])
    else if s.valid then [s.outgoing] else []
  }

  function Accepted(s: State, a: Action): seq<Msg> {
    if a.Call? && a.input.accept then Offered(s) else []
  }

  /** What the log says went on the wire. */
  function WireSends(log: seq<Event>): seq<Msg> {
    if log == [] then []
    else
      var e := log[|log| - 1];
      WireSends(log[..|log| - 1]) + if e.Sent? || e.SiblingSent? then [e.msg] else []
  }

  /** What the handlers that act in a stretch of a call's log answer. */
  function Answered(input: Input, log: seq<Event>): seq<Msg> {
    if log == [] then []
    else
      var e := log[|log| - 1];
      Answered(input, log[..|log| - 1])
      + if (e.Visit? || e.SiblingReentry?) && e.handled then Listed(input.handling.reply) else []
  }

  /** A visit shows the node as it is and lets it act exactly if the filter does; an event's message tells its state. */
  predicate Truthful(s: State, input: Input, e: Event) {
    match e
    case Visit(k, m, seen, offered, handled, _) =>
      && k < |s.nodes| && seen == s.nodes[k].node && (offered <==> seen.runState == RUNSTATE_RUN)
      && (m.mti < WORD ==> (handled <==> offered && ActsOn(seen, m)))
    case Loaded(_, m) => IsEventMti(m.mti) ==> TellsState(m.mti, input.status)
    case _ => true
  }

  ghost predicate Tells(s: State, input: Input, log: seq<Event>) {
    && WireSends(log) == (if input.accept then Offered(s) else [])
    && LoadedReplies(log) == Answered(input, log)
    && forall e :: e in log ==> Truthful(s, input, e)
  }

  lemma ShortLog(input: Input, a: Event, b: Event, c: Event)
    ensures WireSends([]) == LoadedReplies([]) == Answered(input, []) == []
    ensures WireSends([a]) == WireSends([a, b][..1]) && LoadedReplies([a]) == LoadedReplies([a, b][..1])
    ensures WireSends([a]) == if a.Sent? || a.SiblingSent? then [a.msg] else []
    ensures WireSends([a, b]) == WireSends([a]) + if b.Sent? || b.SiblingSent? then [b.msg] else []
    ensures WireSends([a, b, c]) == WireSends([a, b]) + if c.Sent? || c.SiblingSent? then [c.msg] else []
    ensures LoadedReplies([a]) == if a.SiblingLoaded? then [a.msg] else []
    ensures LoadedReplies([a, b]) == LoadedReplies([a]) + if b.SiblingLoaded? then [b.msg] else []
    ensures LoadedReplies([a, b, c]) == LoadedReplies([a, b]) + if c.SiblingLoaded? then [c.msg] else []
  {
    assert [a, b, c][..2] == [a, b] && [a, b][..1] == [a] && [a][..0] == [];
  }

  lemma ShortAnswers(input: Input, a: Event, b: Event, c: Event)
    requires !b.Visit? && !b.SiblingReentry? && !c.Visit? && !c.SiblingReentry?
    ensures Answered(input, [a]) == Answered(input, [a, b]) == Answered(input, [a, b, c])
            == if (a.Visit? || a.SiblingReentry?) && a.handled then Listed(input.handling.reply) else []
  {
    assert [a, b, c][..2] == [a, b] && [a, b][..1] == [a] && [a][..0] == [];
  }

  lemma SendTells(s: State, input: Input)
    requires (!s.active && s.valid) || (s.active && s.sibling.valid)
    ensures Tells(s, input, if s.active then SendSibling(s, input).events else SendLogin(s, input).events)
  {
    var sent := if s.active then SiblingSent(s.sibling.outgoing) else Sent(s.node, s.outgoing);
    ShortLog(input, sent, Finished, Finished);
    ShortAnswers(input, sent, Finished, Finished);
  }

  lemma EntryTells(s: State, input: Input, entry: Event, log: seq<Event>)
    requires (entry.Visit? || entry.SiblingReentry?) && Truthful(s, input, entry) && Offered(s) == []
    requires var visit := [entry] + LoadEvents(input, entry.handled); log == visit || log == visit + [Finished]
    ensures Tells(s, input, log)
  {
    hide WireSends, LoadedReplies, Answered, ActsOn;
    var loads := LoadEvents(input, entry.handled);
    var b := if loads == [] then Finished else loads[0];
    ShortLog(input, entry, b, Finished);
    ShortAnswers(input, entry, b, Finished);
    assert log == [entry] || log == [entry, b] || log == [entry, b, Finished];
  }

  /** A handler of the login loads nothing but an announcement, whose MTI tells the state it was given. */
  lemma LoadTells(s: State, k: nat, input: Input)
    requires k < |s.nodes| && Offered(s) == []
    ensures Tells(s, input, Process(s, k, input).events)
  {
    hide Handle, Truthful;
    var log := Process(s, k, input).events;
    var e := if log == [] then Finished else log[0];
    if Logging(s.nodes[k]) { HandleTells(s, k, input); }
    ShortLog(input, e, Finished, Finished);
    ShortAnswers(input, e, Finished, Finished);
    assert log == [] || log == [e];
  }

  lemma HandleTells(s: State, k: nat, input: Input)
    requires k < |s.nodes| && Logging(s.nodes[k])
    ensures var r := Handle(s.nodes[k], input, s.enumerate); r.msg.Some? ==> Truthful(s, input, Loaded(k, r.msg.value))
  {
    hide ActsOn;
  }

  lemma NothingTells(s: State, input: Input)
    requires Offered(s) == []
    ensures Tells(s, input, [])
  {
  }

  lemma MoveTells(s: State, input: Input, node: Option<nat>)
    requires (node.Some? ==> node.value < |s.nodes|) && Offered(s) == []
    ensures Tells(s, input, MoveTo(s, input, node).events)
  {
    hide Tells, Process;
    NothingTells(s, input);
    if node.Some? {
      var t := s.(node := node);
      LoadTells(t, node.value, input);
      SameTells(s, t, input, Process(t, node.value, input).events);
    }
  }

  lemma SameTells(s: State, t: State, input: Input, log: seq<Event>)
    requires Tells(t, input, log) && Offered(s) == Offered(t) && s.nodes == t.nodes
    ensures Tells(s, input, log)
  {
  }

  lemma IdleTells(s: State, input: Input)
    requires Shape(s) && !s.active && Offered(s) == []
    ensures Tells(s, input, Idle(s, input).events)
  {
    hide Tells, Process, MoveTo;
    if s.enumerate {
      LoadTells(s, s.node.value, input);
    } else {
      MoveTells(s, input, if s.node.None? then FirstNode(|s.nodes|) else NextNode(|s.nodes|, s.node.value));
    }
  }

  lemma ReenterTells(s: State, input: Input)
    requires s.active && !s.sibling.valid && s.sibling.enumerate
    ensures Tells(s, input, ReenterSibling(s, input).events)
  {
    hide Tells;
    EntryTells(s, input, ReenterSibling(s, input).events[0], ReenterSibling(s, input).events);
  }

  lemma VisitTells(s: State, input: Input)
    requires Shape(s) && s.active && !s.sibling.valid && s.sibling.node.Some?
    ensures Tells(s, input, VisitSibling(s, input).events)
  {
    hide Tells, Dispatch.DoesNodeProcess, ActsOn;
    var log := VisitSibling(s, input).events;
    if s.outgoing.mti < WORD { FilterIs(s.nodes[s.sibling.node.value].node, s.outgoing); }
    EntryTells(s, input, log[0], log);
  }

  /** Every call tells the truth, calm or not, unless a round stands at no node, which calm runs never come to. */
  lemma CallTells(s: State, input: Input)
    requires Shape(s) && (s.active ==> s.sibling.node.Some?)
    ensures Tells(s, input, Step(s, input).events)
  {
    hide Tells, Idle, SendLogin, SendSibling, ReenterSibling, VisitSibling;
    if s.active {
      if s.sibling.valid { SendTells(s, input); }
      else if s.sibling.enumerate { ReenterTells(s, input); }
      else { VisitTells(s, input); }
    } else if s.valid {
      SendTells(s, input);
    } else {
      IdleTells(s, input);
    }
  }

  // ---- Over runs ----

  /** What the wire accepted in the first k actions. */
  function OnWire(states: seq<State>, actions: seq<Action>, k: nat): seq<Msg>
    requires k <= |actions| && k <= |states|
  {
    if k == 0 then [] else OnWire(states, actions, k - 1) + Accepted(states[k - 1], actions[k - 1])
  }

  lemma {:induction false} WireSendsConcat(a: seq<Event>, b: seq<Event>)
    ensures WireSends(a + b) == WireSends(a) + WireSends(b)
  {
    if b == [] {
      assert a + b == a;
    } else {
      var s := a + b;
      assert s[..|s| - 1] == a + b[..|b| - 1];
      WireSendsConcat(a, b[..|b| - 1]);
    }
  }

  /** Of action k of a calm run: what it sends, what it loads of replies, and that its log is true. */
  lemma ActionTells(states: seq<State>, actions: seq<Action>, logs: seq<seq<Event>>, k: nat)
    requires CalmRun(states, actions, logs) && k < |actions|
    ensures WireSends(logs[k]) == Accepted(states[k], actions[k])
    ensures actions[k].Call? ==> Tells(states[k], actions[k].input, logs[k])
    ensures actions[k].Stage? ==> logs[k] == []
  {
    hide Tells, Step, Rules, Flat, Announced, SameLists, AllNodes, Announcing, Enumerating, Calm;
    RulesOverRun(states[..k + 1], actions[..k], logs[..k]);
    assert Act(states[k], actions[k]) == Result(states[k + 1], logs[k]);
    if actions[k].Call? { CallTells(states[k], actions[k].input); }
    TellsSends(states[k], actions[k], logs[k]);
  }

  lemma TellsSends(s: State, a: Action, log: seq<Event>)
    requires if a.Call? then Tells(s, a.input, log) else log == []
    ensures WireSends(log) == Accepted(s, a)
  {
  }

  /** In every calm run what the wire accepts is what the calls it accepts in put to it, in order. */
  lemma {:induction false} WireTakesWhatIsOffered(states: seq<State>, actions: seq<Action>, logs: seq<seq<Event>>, k: nat)
    requires CalmRun(states, actions, logs) && k <= |actions|
    ensures WireSends(Flat(logs[..k])) == OnWire(states, actions, k)
  {
    hide CalmRun, WireSends, Tells, Accepted;
    if k == 0 {
      NothingSent();
    } else {
      RunShape(states, actions, logs);
      WireTakesWhatIsOffered(states, actions, logs, k - 1);
      ActionTells(states, actions, logs, k - 1);
      assert logs[..k][..k - 1] == logs[..k - 1];
      WireSendsConcat(Flat(logs[..k - 1]), logs[k - 1]);
    }
  }

  lemma NothingSent()
    ensures WireSends([]) == []
  {
  }

  lemma RunShape(states: seq<State>, actions: seq<Action>, logs: seq<seq<Event>>)
    requires CalmRun(states, actions, logs)
    ensures |states| == |actions| + 1 == |logs| + 1
  {
  }

  /**
   In every calm run, call by call: what the main handlers that act reply is what is loaded; each visit shows a node as
   it is and lets it act exactly if the announcement is for it; and the MTI of each event's message tells the state the
   application gave for the event in that call.
   */
  lemma HandlersAnswer(states: seq<State>, actions: seq<Action>, logs: seq<seq<Event>>, k: nat)
    requires CalmRun(states, actions, logs) && k < |actions| && actions[k].Call?
    ensures LoadedReplies(logs[k]) == Answered(actions[k].input, logs[k])
    ensures forall e :: e in logs[k] ==> Truthful(states[k], actions[k].input, e)
  {
    hide CalmRun;
    RunShape(states, actions, logs);
    ActionTells(states, actions, logs, k);
  }
}
