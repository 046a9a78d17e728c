/**
 What the dispatcher takes from its surroundings and gives to them: the messages the receive queue hands over,
 the messages the wire accepts, and what the handlers answer. The log is tied to these, call by call and over runs.
 */
module DispatchCalls {
  import opened Words
  import opened NodeTable
  import opened Dispatch
  import opened DispatchRules
  import opened DispatchRuns
  import opened DispatchFilter

  // ---- What a call asks for, from the state alone ----

  /** Nothing is left to do but to ask the receive queue: no round, no message to send, no response waiting, nothing held. */
  predicate AsksQueue(s: State) {
    && (if s.active then !s.sibling.valid && !s.sibling.enumerate && s.sibling.node.None? else !s.main.valid)
    && s.queue.head == s.queue.tail && !s.main.enumerate && s.main.incoming.None?
  }

  /** What the receive queue hands over in a call. */
  function Handed(s: State, input: Input): seq<Msg> {
    if AsksQueue(s) then Listed(input.popped) else []
  }

  /** What is put to the wire in a call: a round sends the responses of siblings, and only without one the main slot. */
  function Offered(s: State): seq<Msg> {
    if s.active then (if s.sibling.valid then [s.sibling.outgoing] else [])
    else if s.main.valid then [s.main.outgoing] else []
  }

  function Accepted(s: State, input: Input): seq<Msg> {
    if input.accept then Offered(s) else []
  }

  predicate MainActs(e: Event) {
    (e.MainVisit? || e.MainReentry?) && e.handled
  }

  predicate SiblingActs(e: Event) {
    (e.Visit? || e.SiblingReentry?) && e.handled
  }

  // ---- One call ----

  /** The messages that are marked invalid, or those that are not. */
  function Marked(invalid: bool, msgs: seq<Msg>): seq<Msg> {
    if msgs == [] then []
    else Marked(invalid, msgs[..|msgs| - 1]) + if msgs[|msgs| - 1].invalid == invalid then [msgs[|msgs| - 1]] else []
  }

  lemma {:induction false} MarkedConcat(invalid: bool, a: seq<Msg>, b: seq<Msg>)
    ensures Marked(invalid, a + b) == Marked(invalid, a) + Marked(invalid, b)
  {
    if b == [] {
      assert a + b == a;
    } else {
      var s := a + b;
      assert s[..|s| - 1] == a + b[..|b| - 1];
      MarkedConcat(invalid, a, b[..|b| - 1]);
    }
  }

  lemma MarkedShort(invalid: bool, msgs: seq<Msg>)
    requires |msgs| <= 1
    ensures Marked(invalid, msgs) == if msgs != [] && msgs[0].invalid == invalid then msgs else []
  {
  }

  /** An entry shows the node as it is, lets it act exactly if the filter does, and keeps its wish to be re-entered. */
  predicate Truthful(input: Input, e: Event) {
    match e
    case Visit(k, m, seen, offered, handled, _) =>
      && k < |input.nodes| && seen == input.nodes[k] && (offered <==> seen.runState == RUNSTATE_RUN)
      && (m.mti < WORD ==> (handled <==> offered && ActsOn(seen, m)))
    case MainVisit(k, m, seen, offered, handled, _, more) =>
      && k < |input.nodes| && seen == input.nodes[k] && (offered <==> seen.runState == RUNSTATE_RUN)
      && (m.mti < WORD ==> (handled <==> offered && ActsOn(seen, m)))
      && more == (handled && input.handling.enumerate)
    case MainReentry(k, m, handled, _, more) =>
      && k < |input.nodes|
      && (m.mti < WORD ==> (handled <==> ActsOn(input.nodes[k], m)))
      && more == (handled ==> input.handling.enumerate)
    case _ => true
  }

  /** What the handlers that act in a stretch of a call's log answer. */
  function Answered(main: bool, input: Input, log: seq<Event>): seq<Msg> {
    if log == [] then []
    else
      var e := log[|log| - 1];
      Answered(main, input, log[..|log| - 1])
      + if main && MainActs(e) then Unmarked(input.handling.reply)
        else if !main && SiblingActs(e) then Listed(input.handling.reply)
        else []
  }

  lemma {:induction false} AnsweredConcat(main: bool, input: Input, a: seq<Event>, b: seq<Event>)
    ensures Answered(main, input, a + b) == Answered(main, input, a) + Answered(main, input, b)
  {
    if b == [] {
      assert a + b == a;
    } else {
      var s := a + b;
      assert s[..|s| - 1] == a + b[..|b| - 1];
      AnsweredConcat(main, input, a, b[..|b| - 1]);
    }
  }

  /** A reply, with no mark of a message coming back. */
  function Unmarked(reply: Option<Msg>): seq<Msg> {
    match reply
    case None => []
    case Some(m) => [Msg(m.mti, m.sourceAlias, m.sourceId, m.destAlias, m.destId, m.payload, false, m.invalid)]
  }

  /** What a call takes from the receive queue and what the wire takes from it. */
  ghost predicate Moves(s: State, input: Input, log: seq<Event>) {
    && Carrying(Pops, log) == Marked(false, Handed(s, input))
    && Carrying(Discards, log) == Marked(true, Handed(s, input))
    && Carrying(WireSends, log) == Accepted(s, input)
  }

  ghost predicate Answers(input: Input, log: seq<Event>) {
    && Carrying(MainLoads, log) == Answered(true, input, log)
    && Carrying(SiblingLoads, log) == Answered(false, input, log)
  }

  /** The log of a call says what the queue handed over, what the wire accepted and what the handlers answered. */
  ghost predicate Tells(s: State, input: Input, log: seq<Event>) {
    Moves(s, input, log) && Answers(input, log) && forall e :: e in log ==> Truthful(input, e)
  }

  lemma AnswersConcat(input: Input, a: seq<Event>, b: seq<Event>)
    requires Answers(input, a) && Answers(input, b)
    ensures Answers(input, a + b)
  {
    AnsweredConcat(true, input, a, b);
    AnsweredConcat(false, input, a, b);
    CarryingConcat(MainLoads, a, b);
    CarryingConcat(SiblingLoads, a, b);
  }

  /** Events that concern the wire or the queue only. */
  predicate Outside(e: Event) {
    e.MainSent? || e.SiblingSent? || e.QueueRound? || e.Finished? || e.Popped? || e.Discarded? || e.Freed?
  }

  lemma OneCarried(kind: Kind, main: bool, input: Input, e: Event)
    ensures Carrying(kind, [e]) == Carried(kind, e) && Carrying(kind, []) == []
    ensures Answered(main, input, [e]) == (if main && MainActs(e) then Unmarked(input.handling.reply)
                                           else if !main && SiblingActs(e) then Listed(input.handling.reply) else [])
    ensures Answered(main, input, []) == []
  {
    assert [e][..0] == [];
  }

  lemma OneOutside(input: Input, e: Event)
    requires Outside(e)
    ensures Answers(input, [e]) && Answers(input, [])
  {
    OneCarried(MainLoads, true, input, e);
    OneCarried(SiblingLoads, false, input, e);
  }

  predicate Entry(e: Event) {
    e.Visit? || e.SiblingReentry? || e.MainVisit? || e.MainReentry?
  }

  /** A handler's entry and what it loads. */
  lemma EntryAnswers(input: Input, entry: Event, main: bool)
    requires Entry(entry) && (main <==> entry.MainVisit? || entry.MainReentry?)
    ensures Answers(input, [entry] + LoadEvents(input, entry.handled, main))
  {
    EntryAnswer(if main then MainLoads else SiblingLoads, main, input, entry, main);
    EntryAnswer(if main then SiblingLoads else MainLoads, !main, input, entry, main);
  }

  lemma EntryAnswer(kind: Kind, which: bool, input: Input, entry: Event, main: bool)
    requires Entry(entry) && (main <==> entry.MainVisit? || entry.MainReentry?)
    requires kind == if which then MainLoads else SiblingLoads
    ensures Carrying(kind, [entry] + LoadEvents(input, entry.handled, main))
            == Answered(which, input, [entry] + LoadEvents(input, entry.handled, main))
  {
    var loads := LoadEvents(input, entry.handled, main);
    CarryingConcat(kind, [entry], loads);
    AnsweredConcat(which, input, [entry], loads);
    OneCarried(kind, which, input, entry);
    if loads != [] {
      assert loads == [loads[0]];
      OneCarried(kind, which, input, loads[0]);
    }
  }

  /** Neither the entry of a handler nor what it loads concerns the queue or the wire. */
  lemma EntryMovesNothing(kind: Kind, input: Input, entry: Event, main: bool)
    requires Entry(entry) && (kind == Pops || kind == Discards || kind == WireSends)
    ensures Carrying(kind, [entry] + LoadEvents(input, entry.handled, main)) == []
  {
    var loads := LoadEvents(input, entry.handled, main);
    CarryingConcat(kind, [entry], loads);
    OneCarried(kind, main, input, entry);
    if loads != [] {
      assert loads == [loads[0]];
      OneCarried(kind, main, input, loads[0]);
    }
  }

  // ---- Each branch of a call ----

  lemma Quiet(s: State, input: Input)
    requires Handed(s, input) == [] && Accepted(s, input) == []
    ensures Tells(s, input, [])
  {
  }

  /** An event that concerns neither queue nor wire nor handlers may stand before or after the others. */
  predicate Aside(e: Event) {
    e.Finished? || e.Freed? || e.QueueRound?
  }

  lemma AsideCarries(kind: Kind, input: Input, e: Event, log: seq<Event>)
    requires Aside(e) && kind != QueueRounds && kind != Frees
    ensures Carrying(kind, [e] + log) == Carrying(kind, log + [e]) == Carrying(kind, log)
  {
    hide Carrying;
    CarryingConcat(kind, [e], log);
    CarryingConcat(kind, log, [e]);
    OneCarried(kind, true, input, e);
  }

  lemma TellsAside(s: State, input: Input, e: Event, log: seq<Event>)
    requires Aside(e) && Tells(s, input, log)
    ensures Tells(s, input, [e] + log) && Tells(s, input, log + [e])
  {
    hide Handed, Accepted, Carrying, Answered, Marked;
    AsideCarries(Pops, input, e, log);
    AsideCarries(Discards, input, e, log);
    AsideCarries(WireSends, input, e, log);
    OneOutside(input, e);
    AnswersConcat(input, [e], log);
    AnswersConcat(input, log, [e]);
  }

  lemma SentTells(s: State, input: Input, sent: Event)
    requires sent.MainSent? || sent.SiblingSent?
    requires Handed(s, input) == [] && Accepted(s, input) == [sent.msg]
    ensures Tells(s, input, [sent])
  {
    hide Handed, Accepted, Carrying, Answered;
    OneCarried(Pops, true, input, sent);
    OneCarried(Discards, true, input, sent);
    OneCarried(WireSends, true, input, sent);
    OneOutside(input, sent);
  }

  /** A call that enters a handler. */
  lemma EntryTells(s: State, input: Input, entry: Event, main: bool)
    requires Entry(entry) && (main <==> entry.MainVisit? || entry.MainReentry?)
    requires Handed(s, input) == [] && Accepted(s, input) == [] && Truthful(input, entry)
    ensures Tells(s, input, [entry] + LoadEvents(input, entry.handled, main))
  {
    hide Handed, Accepted, Carrying, Answered;
    EntryMovesNothing(Pops, input, entry, main);
    EntryMovesNothing(Discards, input, entry, main);
    EntryMovesNothing(WireSends, input, entry, main);
    EntryAnswers(input, entry, main);
  }

  lemma SendMainTells(n: nat, s: State, input: Input)
    requires !s.active && s.main.valid
    ensures Tells(s, input, SendMain(n, s, input).events)
  {
    hide Tells;
    if !input.accept {
      Quiet(s, input);
    } else {
      SentTells(s, input, MainSent(s.main.outgoing));
      TellsAside(s, input, Finished, [MainSent(s.main.outgoing)]);
      assert [MainSent(s.main.outgoing)] + [Finished] == [MainSent(s.main.outgoing), Finished];
    }
  }

  lemma SendSiblingTells(s: State, input: Input)
    requires s.active && s.sibling.valid && s.queue.tail < |s.queue.slots|
    ensures Tells(s, input, SendSibling(s, input).events)
  {
    hide Tells;
    if input.accept { SentTells(s, input, SiblingSent(s.sibling.outgoing)); } else { Quiet(s, input); }
  }

  lemma ReenterSiblingTells(s: State, input: Input)
    requires s.active && !s.sibling.valid && s.sibling.enumerate
    ensures Tells(s, input, ReenterSibling(s, input).events)
  {
    hide Tells, DoesNodeProcess, ActsOn;
    var entry := ReenterSibling(s, input).events[0];
    EntryTells(s, input, entry, false);
  }

  predicate NodeIsThere(node: Option<nat>, input: Input) {
    node.Some? && node.value < |input.nodes|
  }

  lemma VisitSiblingTells(n: nat, s: State, input: Input)
    requires s.active && !s.sibling.valid && NodeIsThere(s.sibling.node, input) && SiblingIncoming(s).Some?
    ensures Tells(s, input, VisitSibling(n, s, input).events)
  {
    hide Tells, DoesNodeProcess, ActsOn, NextNode;
    var log := VisitSibling(n, s, input).events;
    var entry := log[0];
    if SiblingIncoming(s).value.mti < WORD { FilterIs(input.nodes[s.sibling.node.value], SiblingIncoming(s).value); }
    EntryTells(s, input, entry, false);
    var visit := [entry] + LoadEvents(input, entry.handled, false);
    TellsAside(s, input, Finished, visit);
    assert log == visit || log == visit + [Finished];
  }

  lemma ReenterMainTells(n: nat, s: State, input: Input)
    requires Shape(n, s, input) && !s.active && !s.main.valid && s.main.enumerate
    ensures Tells(s, input, ReenterMain(s, input).events)
  {
    hide Tells, DoesNodeProcess, ActsOn;
    var entry := ReenterMain(s, input).events[0];
    if s.main.incoming.value.mti < WORD { FilterIs(input.nodes[s.main.node.value], s.main.incoming.value); }
    EntryTells(s, input, entry, true);
  }

  /** What a move of the main context logs does not depend on how the message came to be held. */
  lemma MoveMainTells(s: State, input: Input, node: Option<nat>, at: State)
    requires s.main.incoming.Some? && (node.Some? ==> node.value < |input.nodes|) && !s.main.enumerate
    requires Handed(at, input) == [] && Accepted(at, input) == []
    ensures Tells(at, input, MoveMain(s, input, node).events)
  {
    hide Tells, DoesNodeProcess, ActsOn, Handed, Accepted;
    var m := s.main.incoming.value;
    if node.None? {
      Quiet(at, input);
      TellsAside(at, input, Freed(m), []);
      assert [] + [Freed(m)] == [Freed(m)];
    } else {
      var entry := MoveMain(s, input, node).events[0];
      if m.mti < WORD { FilterIs(input.nodes[node.value], m); }
      EntryTells(at, input, entry, true);
    }
  }

  lemma DiscardTells(s: State, input: Input, m: Msg)
    requires Handed(s, input) == [m] && Accepted(s, input) == [] && m.invalid
    ensures Tells(s, input, [Discarded(m)])
  {
    hide Handed, Accepted, Carrying, Answered;
    OneCarried(Pops, true, input, Discarded(m));
    OneCarried(Discards, true, input, Discarded(m));
    OneCarried(WireSends, true, input, Discarded(m));
    OneOutside(input, Discarded(m));
    MarkedShort(true, [m]);
    MarkedShort(false, [m]);
  }

  lemma PoppedCarries(kind: Kind, input: Input, m: Msg, log: seq<Event>)
    ensures Carrying(kind, [Popped(m)] + log) == (if kind == Pops then [m] else []) + Carrying(kind, log)
  {
    CarryingConcat(kind, [Popped(m)], log);
    OneCarried(kind, true, input, Popped(m));
  }

  /** A message taken from the queue comes before what it leads to. */
  lemma PoppedTells(s: State, held: State, input: Input, m: Msg, log: seq<Event>)
    requires Handed(s, input) == [m] && Accepted(s, input) == [] && !m.invalid
    requires Handed(held, input) == [] && Accepted(held, input) == [] && Tells(held, input, log)
    ensures Tells(s, input, [Popped(m)] + log)
  {
    hide Handed, Accepted, Carrying, Answered;
    PoppedCarries(Pops, input, m, log);
    PoppedCarries(Discards, input, m, log);
    PoppedCarries(WireSends, input, m, log);
    OneOutside(input, Popped(m));
    AnswersConcat(input, [Popped(m)], log);
    MarkedShort(true, [m]);
    MarkedShort(false, [m]);
    MarkedShort(true, []);
    MarkedShort(false, []);
  }

  lemma IncomingTells(n: nat, s: State, input: Input)
    requires Shape(n, s, input) && !s.active && !s.main.valid && s.queue.head == s.queue.tail
    ensures Tells(s, input, Incoming(n, s, input).events)
  {
    hide Tells, MoveMain, ReenterMain;
    if s.main.enumerate {
      ReenterMainTells(n, s, input);
    } else if s.main.node.Some? {
      MoveMainTells(s, input, NextNode(n, s.main.node.value), s);
    } else if input.popped.None? {
      Quiet(s, input);
    } else if input.popped.value.invalid {
      DiscardTells(s, input, input.popped.value);
    } else {
      var held := s.(main := s.main.(incoming := input.popped));
      MoveMainTells(held, input, FirstNode(n), held);
      PoppedTells(s, held, input, input.popped.value, MoveMain(held, input, FirstNode(n)).events);
    }
  }

  lemma IdleTells(n: nat, s: State, input: Input)
    requires Shape(n, s, input) && !s.active && !s.main.valid
    ensures Tells(s, input, Idle(n, s, input).events)
  {
    hide Tells, Incoming;
    if s.queue.head == s.queue.tail {
      IncomingTells(n, s, input);
    } else {
      var log := StartQueueRound(n, s).events;
      Quiet(s, input);
      TellsAside(s, input, log[0], []);
      assert [] + [log[0]] == log;
    }
  }

  /** Every call tells the truth, calm or not. */
  lemma CallTells(n: nat, s: State, input: Input)
    requires Shape(n, s, input)
    ensures Tells(s, input, Step(n, s, input).events)
  {
    hide Tells, Idle, SendMain, SendSibling, ReenterSibling, VisitSibling;
    if !s.active {
      if s.main.valid { SendMainTells(n, s, input); } else { IdleTells(n, s, input); }
    } else if s.sibling.valid {
      SendSiblingTells(s, input);
    } else if s.sibling.enumerate {
      ReenterSiblingTells(s, input);
    } else if s.sibling.node.Some? {
      VisitSiblingTells(n, s, input);
    } else {
      var done := FinishDeferred(s);
      var log := Idle(n, done, input).events;
      IdleTells(n, done, input);
      TellsAside(done, input, Finished, log);
      SameTells(s, done, input, [Finished] + log);
    }
  }

  lemma SameTells(s: State, t: State, input: Input, log: seq<Event>)
    requires Tells(t, input, log) && Handed(s, input) == Handed(t, input) && Accepted(s, input) == Accepted(t, input)
    ensures Tells(s, input, log)
  {
  }

  // ---- Over runs ----

  /** What the receive queue handed over in the first k calls. */
  function Taken(states: seq<State>, inputs: seq<Input>, k: nat): seq<Msg>
    requires k <= |inputs| && k <= |states|
  {
    if k == 0 then [] else Taken(states, inputs, k - 1) + Handed(states[k - 1], inputs[k - 1])
  }

  /** What the wire accepted in them. */
  function OnWire(states: seq<State>, inputs: seq<Input>, k: nat): seq<Msg>
    requires k <= |inputs| && k <= |states|
  {
    if k == 0 then [] else OnWire(states, inputs, k - 1) + Accepted(states[k - 1], inputs[k - 1])
  }

  lemma {:induction false} MovesOverRun(n: nat, states: seq<State>, inputs: seq<Input>, logs: seq<seq<Event>>, k: nat)
    requires Behaviour(n, states, inputs, logs) && k <= |inputs|
    ensures Carrying(Pops, Flat(logs[..k])) == Marked(false, Taken(states, inputs, k))
    ensures Carrying(Discards, Flat(logs[..k])) == Marked(true, Taken(states, inputs, k))
    ensures Carrying(WireSends, Flat(logs[..k])) == OnWire(states, inputs, k)
  {
    hide Step, Shape, Answers, Truthful, Carrying, Marked, Accepted, Handed;
    if k == 0 {
      MarkedShort(true, []);
      MarkedShort(false, []);
      forall kind { CarryingNothing(kind); }
    } else {
      MovesOverRun(n, states, inputs, logs, k - 1);
      CallTells(n, states[k - 1], inputs[k - 1]);
      assert logs[..k][..k - 1] == logs[..k - 1];
      assert Step(n, states[k - 1], inputs[k - 1]) == Result(states[k - 1 + 1], logs[k - 1]);
      forall kind { CarryingConcat(kind, Flat(logs[..k - 1]), logs[k - 1]); }
      MarkedConcat(true, Taken(states, inputs, k - 1), Handed(states[k - 1], inputs[k - 1]));
      MarkedConcat(false, Taken(states, inputs, k - 1), Handed(states[k - 1], inputs[k - 1]));
    }
  }

  lemma CarryingNothing(kind: Kind)
    ensures Carrying(kind, []) == []
  {
  }

  lemma {:induction false} MarkedPartition(msgs: seq<Msg>)
    ensures multiset(msgs) == multiset(Marked(true, msgs)) + multiset(Marked(false, msgs))
  {
    if msgs != [] {
      MarkedPartition(msgs[..|msgs| - 1]);
      assert msgs == msgs[..|msgs| - 1] + [msgs[|msgs| - 1]];
    }
  }

  /**
   In every calm run, of the messages the receive queue handed over: the valid ones are those freed and the one
   held, in order; the invalid ones are those discarded, in order. So every message taken is given back but the
   one held.
   */
  lemma TakenAreGivenBack(n: nat, depth: nat, blank: Msg, states: seq<State>, inputs: seq<Input>, logs: seq<seq<Event>>)
    requires CalmRun(n, depth, blank, states, inputs, logs)
    ensures var s, log, taken := states[|inputs|], Flat(logs), Taken(states, inputs, |inputs|);
            && Marked(false, taken) == Carrying(Pops, log) == Carrying(Frees, log) + Listed(s.main.incoming)
            && Marked(true, taken) == Carrying(Discards, log)
            && multiset(taken) == multiset(Carrying(Frees, log)) + multiset(Carrying(Discards, log))
                                  + multiset(Listed(s.main.incoming))
  {
    hide Step, Shape, Waiting, Rules, HeldRules, Carrying, Admitted, Flat, Succ, Marked;
    var k := |inputs|;
    MovesOverRun(n, states, inputs, logs, k);
    NothingLostOrRepeated(n, depth, blank, states, inputs, logs);
    MarkedPartition(Taken(states, inputs, k));
    assert logs[..k] == logs;
  }

  /** In every run what the wire accepts is what the calls it accepts in put to it, in order. */
  lemma WireTakesWhatIsOffered(n: nat, states: seq<State>, inputs: seq<Input>, logs: seq<seq<Event>>)
    requires Behaviour(n, states, inputs, logs)
    ensures Carrying(WireSends, Flat(logs)) == OnWire(states, inputs, |inputs|)
  {
    hide Step, Shape;
    MovesOverRun(n, states, inputs, logs, |inputs|);
    assert logs[..|inputs|] == logs;
  }

  /**
   In every run, call by call: a handler is entered for a node as it then is, lets it act exactly if the message is
   for it, and what is loaded is what the handlers that act reply.
   */
  lemma HandlersAnswer(n: nat, states: seq<State>, inputs: seq<Input>, logs: seq<seq<Event>>, i: nat)
    requires Behaviour(n, states, inputs, logs) && i < |inputs|
    ensures Carrying(MainLoads, logs[i]) == Answered(true, inputs[i], logs[i])
    ensures Carrying(SiblingLoads, logs[i]) == Answered(false, inputs[i], logs[i])
    ensures forall e :: e in logs[i] ==> Truthful(inputs[i], e)
  {
    hide Step, Shape, Moves, Truthful, Carrying, Answered;
    CallTells(n, states[i], inputs[i]);
    assert Step(n, states[i], inputs[i]) == Result(states[i + 1], logs[i]);
  }

  lemma {:induction false} RunIsTruthful(n: nat, states: seq<State>, inputs: seq<Input>, logs: seq<seq<Event>>, k: nat)
    requires Behaviour(n, states, inputs, logs) && k <= |inputs|
    ensures forall e :: e in Flat(logs[..k]) ==> exists i :: 0 <= i < k && Truthful(inputs[i], e)
  {
    hide Step, Shape, Truthful;
    if k > 0 {
      RunIsTruthful(n, states, inputs, logs, k - 1);
      HandlersAnswer(n, states, inputs, logs, k - 1);
      assert logs[..k][..k - 1] == logs[..k - 1];
    }
  }
}
