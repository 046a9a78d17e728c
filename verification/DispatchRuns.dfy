/** What the rules of the dispatcher mean for every run: who gets which message, when, and how often. */
module DispatchRuns {
  import opened Words
  import opened Dispatch
  import opened DispatchRules

  // ---- Runs ----

  function Flat(logs: seq<seq<Event>>): seq<Event> {
    if logs == [] then [] else Flat(logs[..|logs| - 1]) + logs[|logs| - 1]
  }

  /** Consecutive calls: states[i] is the state before call i, logs[i] what call i did. */
  ghost predicate Behaviour(n: nat, states: seq<State>, inputs: seq<Input>, logs: seq<seq<Event>>) {
    && |states| == |inputs| + 1 == |logs| + 1
    && forall i :: 0 <= i < |inputs| ==>
         Shape(n, states[i], inputs[i]) && Step(n, states[i], inputs[i]) == Result(states[i + 1], logs[i])
  }

  /** A run from power-up of calm calls. */
  ghost predicate CalmRun(n: nat, depth: nat, blank: Msg, states: seq<State>, inputs: seq<Input>, logs: seq<seq<Event>>) {
    && n < BYTE && 1 <= depth < BYTE && !blank.loopback
    && Behaviour(n, states, inputs, logs)
    && states[0] == InitialState(depth, blank)
    && forall i :: 0 <= i < |inputs| ==> Calm(states[i], inputs[i])
  }

  const START := Outgoing(None, None, None, [])

  /** Every run keeps the rules, and no call of it is ever refused for the state it finds. */
  lemma {:induction false} RulesOverRun(n: nat, depth: nat, blank: Msg,
                                        states: seq<State>, inputs: seq<Input>, logs: seq<seq<Event>>)
    requires CalmRun(n, depth, blank, states, inputs, logs)
    ensures var s := states[|inputs|];
            && Inv(n, s) && |s.queue.slots| == depth
            && Rules(n, depth - 1, START, Flat(logs)) == Standing(n, s)
            && HeldRules(n, Unheld, Flat(logs)) == Holding(n, s)
            && forall input: Input :: |input.nodes| == n ==> Shape(n, s, input)
    decreases |inputs|
  {
    hide Rules, HeldRules, Step, Calm, Keeps;
    var k := |inputs|;
    if k == 0 {
      InitiallyStanding(n, depth, blank);
    } else {
      var s := states[k - 1];
      RulesOverRun(n, depth, blank, states[..k], inputs[..k - 1], logs[..k - 1]);
      StepKeepsSlots(n, s, inputs[k - 1]);
      RulesConcat(n, depth - 1, START, Flat(logs[..k - 1]), logs[k - 1]);
      HeldConcat(n, Unheld, Flat(logs[..k - 1]), logs[k - 1]);
    }
  }

  lemma InitiallyStanding(n: nat, depth: nat, blank: Msg)
    requires n < BYTE && 1 <= depth < BYTE && !blank.loopback
    ensures var s := InitialState(depth, blank);
            Inv(n, s) && Standing(n, s) == START && Holding(n, s) == Unheld
            && Rules(n, depth - 1, START, []) == START && HeldRules(n, Unheld, []) == Unheld
  {
  }

  lemma StepKeepsSlots(n: nat, s: State, input: Input)
    requires Inv(n, s) && |input.nodes| == n && Calm(s, input)
    ensures Shape(n, s, input)
    ensures var r := Step(n, s, input);
            && Inv(n, r.state) && |r.state.queue.slots| == |s.queue.slots|
            && Rules(n, |s.queue.slots| - 1, Standing(n, s), r.events) == Standing(n, r.state)
            && HeldRules(n, Holding(n, s), r.events) == Holding(n, r.state)
  {
    hide Rules, HeldRules, Standing, Holding, Step, Calm;
    StepKeeps(n, s, input);
  }

  // ---- Segments of a log ----

  lemma {:induction false} BrokenStays(n: nat, cap: nat, log: seq<Event>)
    ensures Rules(n, cap, Broken, log).Broken?
  {
    if log != [] { BrokenStays(n, cap, log[..|log| - 1]); }
  }

  lemma {:induction false} MisheldStays(n: nat, log: seq<Event>)
    ensures HeldRules(n, Misheld, log).Misheld?
  {
    if log != [] { MisheldStays(n, log[..|log| - 1]); }
  }

  // ---- A round shows its message to every node ----

  /** The visits of a stretch of the log, in order. */
  function Visits(log: seq<Event>): seq<Event> {
    if log == [] then []
    else Visits(log[..|log| - 1]) + if log[|log| - 1].Visit? then [log[|log| - 1]] else []
  }

  /** Visit k shows m to node k: handled exactly if it is running and the filter lets it act, with its reply slot free. */
  predicate ShownInOrder(visits: seq<Event>, m: Msg) {
    forall k :: 0 <= k < |visits| ==>
      && visits[k].Visit? && visits[k].node == k && visits[k].msg == m
      && VisitInOrder(visits[k].seen, m, visits[k].offered, visits[k].handled, visits[k].slotFree)
  }

  lemma {:induction false} RoundProgress(n: nat, cap: nat, o: Outgoing, log: seq<Event>)
    requires o.Outgoing? && o.round.Some? && o.round.value.next == 0
    requires Finished !in log && !Rules(n, cap, o, log).Broken?
    ensures var r := Rules(n, cap, o, log).round;
            && r == Some(o.round.value.(next := |Visits(log)|))
            && ShownInOrder(Visits(log), o.round.value.msg)
  {
    if log != [] {
      var prefix := log[..|log| - 1];
      forall e | e in prefix ensures e in log {}
      RoundProgress(n, cap, o, prefix);
    }
  }

  /** Between the two ends of a round the message is shown to nodes 0 to n - 1, each once and in that order. */
  lemma RoundShowsAll(n: nat, cap: nat, log: seq<Event>, i: nat, j: nat)
    requires !Rules(n, cap, START, log).Broken?
    requires i < j < |log| && (log[i].MainSent? || log[i].QueueRound?) && log[j].Finished?
    requires Finished !in log[i + 1..j]
    ensures var visits := Visits(log[i + 1..j]);
            && |visits| == (if log[i].MainSent? && n <= 1 then 0 else n)
            && ShownInOrder(visits, if log[i].MainSent? then log[i].msg.(loopback := true) else log[i].msg)
  {
    hide Rule;
    var before := Rules(n, cap, START, log[..i]);
    var begun := Rules(n, cap, START, log[..i + 1]);
    var ending := Rules(n, cap, START, log[..j]);
    PrefixSound(n, cap, log, i);
    PrefixSound(n, cap, log, i + 1);
    PrefixSound(n, cap, log, j);
    PrefixSound(n, cap, log, j + 1);
    assert log[..i + 1] == log[..i] + [log[i]] && log[..j + 1] == log[..j] + [log[j]];
    assert log[..j] == log[..i + 1] + log[i + 1..j];
    RulesConcat(n, cap, START, log[..i], [log[i]]);
    RulesShort(n, cap, before, log[i], log[i]);
    RulesConcat(n, cap, START, log[..i + 1], log[i + 1..j]);
    RulesConcat(n, cap, START, log[..j], [log[j]]);
    RulesShort(n, cap, ending, log[j], log[j]);
    BeginsRound(n, cap, before, log[i]);
    RoundProgress(n, cap, begun, log[i + 1..j]);
    EndsRound(n, cap, ending);
  }

  lemma BeginsRound(n: nat, cap: nat, o: Outgoing, e: Event)
    requires (e.MainSent? || e.QueueRound?) && !Rule(n, cap, o, e).Broken?
    ensures Rule(n, cap, o, e).round
            == Some(if e.MainSent? then Round(true, e.msg.(loopback := true), 0) else Round(false, e.msg, 0))
  {
  }

  lemma EndsRound(n: nat, cap: nat, o: Outgoing)
    requires !Rule(n, cap, o, Finished).Broken?
    ensures !o.Broken? && o.round.Some? && o.round.value.next == (if o.round.value.fromMain && n <= 1 then 0 else n)
  {
  }

  lemma PrefixSound(n: nat, cap: nat, log: seq<Event>, i: nat)
    requires !Rules(n, cap, START, log).Broken? && i <= |log|
    ensures !Rules(n, cap, START, log[..i]).Broken?
  {
    hide Rules;
    assert log == log[..i] + log[i..];
    RulesConcat(n, cap, START, log[..i], log[i..]);
    if Rules(n, cap, START, log[..i]).Broken? { BrokenStays(n, cap, log[i..]); }
  }

  // ---- A message from the wire is shown to every node before it is freed ----

  function MainVisits(log: seq<Event>): seq<Event> {
    if log == [] then []
    else MainVisits(log[..|log| - 1]) + if log[|log| - 1].MainVisit? then [log[|log| - 1]] else []
  }

  /** Whether the node entered last asked to be entered again. */
  predicate Asked(log: seq<Event>) {
    log != [] &&
    match log[|log| - 1]
    case MainVisit(_, _, _, _, _, _, more) => more
    case MainReentry(_, _, _, _, more) => more
    case _ => Asked(log[..|log| - 1])
  }

  /** What may follow the given stretch of a held message's life. */
  predicate MayFollow(m: Msg, before: seq<Event>, e: Event) {
    match e
    case MainVisit(k, msg, seen, offered, handled, slotFree, _) =>
      k == |MainVisits(before)| && msg == m && !Asked(before) && VisitInOrder(seen, m, offered, handled, slotFree)
    case MainReentry(k, msg, _, slotFree, _) =>
      k + 1 == |MainVisits(before)| && msg == m && Asked(before) && slotFree
    case _ => true
  }

  predicate HeldInOrder(m: Msg, log: seq<Event>) {
    forall t :: 0 <= t < |log| ==> MayFollow(m, log[..t], log[t])
  }

  lemma {:induction false} HeldProgress(n: nat, m: Msg, log: seq<Event>)
    requires forall e :: e in log ==> !e.Freed?
    requires !HeldRules(n, Held(m, 0, false), log).Misheld?
    ensures HeldRules(n, Held(m, 0, false), log) == Held(m, |MainVisits(log)|, Asked(log))
    ensures HeldInOrder(m, log)
  {
    if log != [] {
      var prefix := log[..|log| - 1];
      HeldProgress(n, m, prefix);
      HeldStep(n, m, log);
      forall t | 0 <= t < |log| ensures MayFollow(m, log[..t], log[t]) {
        if t < |prefix| { assert prefix[..t] == log[..t] && MayFollow(m, prefix[..t], prefix[t]); }
      }
    }
  }

  lemma HeldStep(n: nat, m: Msg, log: seq<Event>)
    requires log != [] && !log[|log| - 1].Freed?
    requires HeldRules(n, Held(m, 0, false), log[..|log| - 1]) == Held(m, |MainVisits(log[..|log| - 1])|, Asked(log[..|log| - 1]))
    requires !HeldRules(n, Held(m, 0, false), log).Misheld?
    ensures HeldRules(n, Held(m, 0, false), log) == Held(m, |MainVisits(log)|, Asked(log))
    ensures MayFollow(m, log[..|log| - 1], log[|log| - 1])
  {
    hide DoesNodeProcess;
  }

  lemma HeldPrefixSound(n: nat, log: seq<Event>, i: nat)
    requires !HeldRules(n, Unheld, log).Misheld? && i <= |log|
    ensures !HeldRules(n, Unheld, log[..i]).Misheld?
  {
    hide HeldRules;
    assert log == log[..i] + log[i..];
    HeldConcat(n, Unheld, log[..i], log[i..]);
    if HeldRules(n, Unheld, log[..i]).Misheld? { MisheldStays(n, log[i..]); }
  }

  /**
   Between its pop and its release a message is shown to nodes 0 to n - 1 in order, each entered again
   for as long as it asks and before the next one; and it is the popped message that is released.
   */
  lemma HeldShowsAll(n: nat, log: seq<Event>, i: nat, j: nat)
    requires !HeldRules(n, Unheld, log).Misheld?
    requires i < j < |log| && log[i].Popped? && log[j].Freed?
    requires forall e :: e in log[i + 1..j] ==> !e.Freed?
    ensures log[j].msg == log[i].msg && !log[i].msg.invalid
    ensures |MainVisits(log[i + 1..j])| == n && !Asked(log[i + 1..j]) && HeldInOrder(log[i].msg, log[i + 1..j])
  {
    hide HeldInOrder, Asked, MainVisits, HeldRules, HeldRule;
    var m := log[i].msg;
    HeldPrefixSound(n, log, i + 1);
    HeldPrefixSound(n, log, j);
    HeldPrefixSound(n, log, j + 1);
    assert log[..i + 1] == log[..i] + [log[i]] && log[..j + 1] == log[..j] + [log[j]];
    assert log[..j] == log[..i + 1] + log[i + 1..j];
    HeldConcat(n, Unheld, log[..i], [log[i]]);
    HeldShort(n, HeldRules(n, Unheld, log[..i]), log[i], log[i]);
    HeldConcat(n, Unheld, log[..i + 1], log[i + 1..j]);
    HeldConcat(n, Unheld, log[..j], [log[j]]);
    HeldShort(n, HeldRules(n, Unheld, log[..j]), log[j], log[j]);
    BeginsHolding(n, HeldRules(n, Unheld, log[..i]), log[i]);
    HeldProgress(n, m, log[i + 1..j]);
    EndsHolding(n, HeldRules(n, Unheld, log[..j]), log[j]);
  }

  lemma BeginsHolding(n: nat, h: Held, e: Event)
    requires e.Popped? && !HeldRule(n, h, e).Misheld?
    ensures HeldRule(n, h, e) == Held(e.msg, 0, false) && !e.msg.invalid
  {
  }

  lemma EndsHolding(n: nat, h: Held, e: Event)
    requires e.Freed? && !HeldRule(n, h, e).Misheld?
    ensures h == Held(e.msg, n, false)
  {
  }

  // ---- Nothing is lost and nothing is repeated ----

  datatype Kind = MainLoads | MainSends | SiblingLoads | SiblingSends | WireSends | QueueRounds | Pops | Discards | Frees

  function Carried(kind: Kind, e: Event): seq<Msg> {
    match e
    case Loaded(m) => if kind == MainLoads then [m] else []
    case MainSent(m) => if kind == MainSends || kind == WireSends then [m] else []
    case SiblingLoaded(m) => if kind == SiblingLoads then [m] else []
    case SiblingSent(m) => if kind == SiblingSends || kind == WireSends then [m] else []
    case QueueRound(m) => if kind == QueueRounds then [m] else []
    case Popped(m) => if kind == Pops then [m] else []
    case Discarded(m) => if kind == Discards then [m] else []
    case Freed(m) => if kind == Frees then [m] else []
    case _ => []
  }

  /** The messages of one kind of event, in the order of the log. */
  function Carrying(kind: Kind, log: seq<Event>): seq<Msg> {
    if log == [] then [] else Carrying(kind, log[..|log| - 1]) + Carried(kind, log[|log| - 1])
  }

  lemma {:induction false} CarryingConcat(kind: Kind, a: seq<Event>, b: seq<Event>)
    ensures Carrying(kind, a + b) == Carrying(kind, a) + Carrying(kind, b)
  {
    hide Carried;
    if b == [] {
      assert a + b == a;
    } else {
      var s := a + b;
      assert s[..|s| - 1] == a + b[..|b| - 1];
      CarryingConcat(kind, a, b[..|b| - 1]);
    }
  }

  /** A message shown again to the nodes: the same, marked as coming back. */
  function ComingBack(m: Msg): Msg {
    Msg(m.mti, m.sourceAlias, m.sourceId, m.destAlias, m.destId, m.payload, true, false)
  }

  /** What a queue for cap messages admits of the responses sent: one that finds it full is dropped. */
  function Admitted(cap: nat, log: seq<Event>): seq<Msg> {
    if log == [] then []
    else
      var before := Admitted(cap, log[..|log| - 1]);
      var e := log[|log| - 1];
      if e.SiblingSent? && |before| - |Carrying(QueueRounds, log[..|log| - 1])| < cap then before + [ComingBack(e.msg)] else before
  }

  function Listed(m: Option<Msg>): seq<Msg> {
    match m
    case None => []
    case Some(v) => [v]
  }

  /** The main message that is loaded and not yet on the wire. */
  function Unsent(o: Outgoing): seq<Msg>
    requires !o.Broken?
  {
    if o.round.Some? && o.round.value.fromMain then [] else Listed(o.loaded)
  }

  ghost predicate MainBalanced(n: nat, cap: nat, log: seq<Event>) {
    var o := Rules(n, cap, START, log);
    && !o.Broken?
    && (o.round.Some? ==> (o.loaded.Some? <==> o.round.value.fromMain))
    && Carrying(MainLoads, log) == Carrying(MainSends, log) + Unsent(o)
  }

  ghost predicate SiblingBalanced(n: nat, cap: nat, log: seq<Event>) {
    var o := Rules(n, cap, START, log);
    && !o.Broken?
    && Carrying(SiblingLoads, log) == Carrying(SiblingSends, log) + Listed(o.response)
  }

  ghost predicate QueueBalanced(n: nat, cap: nat, log: seq<Event>) {
    var o := Rules(n, cap, START, log);
    && !o.Broken?
    && |o.pending| <= cap
    && Admitted(cap, log) == Carrying(QueueRounds, log) + o.pending
  }

  lemma MainBalanceStep(n: nat, cap: nat, log: seq<Event>)
    requires log != [] && MainBalanced(n, cap, log[..|log| - 1])
    requires !Rules(n, cap, START, log).Broken?
    ensures MainBalanced(n, cap, log)
  {
    hide VisitInOrder;
  }

  lemma SiblingBalanceStep(n: nat, cap: nat, log: seq<Event>)
    requires log != [] && SiblingBalanced(n, cap, log[..|log| - 1])
    requires !Rules(n, cap, START, log).Broken?
    ensures SiblingBalanced(n, cap, log)
  {
    hide VisitInOrder;
  }

  lemma QueueBalanceStep(n: nat, cap: nat, log: seq<Event>)
    requires log != [] && QueueBalanced(n, cap, log[..|log| - 1])
    requires !Rules(n, cap, START, log).Broken?
    ensures QueueBalanced(n, cap, log)
  {
    hide Rule;
    QueueRule(n, cap, Rules(n, cap, START, log[..|log| - 1]), log[|log| - 1]);
  }

  /** What an event may do to the waiting responses. */
  lemma QueueRule(n: nat, cap: nat, o: Outgoing, e: Event)
    requires !o.Broken? && !Rule(n, cap, o, e).Broken?
    ensures var p := Rule(n, cap, o, e).pending;
            if e.SiblingSent? then p == (if |o.pending| < cap then o.pending + [Copied(e.msg)] else o.pending)
            else if e.QueueRound? then o.pending == [e.msg] + p
            else p == o.pending
  {
    hide VisitInOrder;
  }

  /** Every reply is accepted by the wire once and in order; every admitted response gets its own round, oldest first. */
  lemma {:induction false} EachSentOnce(n: nat, cap: nat, log: seq<Event>)
    requires !Rules(n, cap, START, log).Broken?
    ensures MainBalanced(n, cap, log) && SiblingBalanced(n, cap, log) && QueueBalanced(n, cap, log)
  {
    if log != [] {
      hide MainBalanced, SiblingBalanced, QueueBalanced;
      EachSentOnce(n, cap, log[..|log| - 1]);
      MainBalanceStep(n, cap, log);
      SiblingBalanceStep(n, cap, log);
      QueueBalanceStep(n, cap, log);
    }
  }

  /** Every valid message popped is freed once and in order, but for the one being held. */
  lemma {:induction false} EachFreedOnce(n: nat, log: seq<Event>)
    requires !HeldRules(n, Unheld, log).Misheld?
    ensures var h := HeldRules(n, Unheld, log);
            Carrying(Pops, log) == Carrying(Frees, log) + if h.Held? then [h.msg] else []
  {
    hide VisitInOrder;
    if log != [] {
      EachFreedOnce(n, log[..|log| - 1]);
    }
  }

  // ---- Over whole runs ----

  /**
   In every calm run: once the wire accepts a message, and before the outgoing slot is given up, every
   node sees that message once, in index order; so does a queued response, whose slot no later push touches.
   */
  lemma SendsAreShownToAll(n: nat, depth: nat, blank: Msg, states: seq<State>, inputs: seq<Input>, logs: seq<seq<Event>>,
                           i: nat, j: nat)
    requires CalmRun(n, depth, blank, states, inputs, logs)
    requires i < j < |Flat(logs)| && (Flat(logs)[i].MainSent? || Flat(logs)[i].QueueRound?) && Flat(logs)[j].Finished?
    requires Finished !in Flat(logs)[i + 1..j]
    ensures var log := Flat(logs);
            var visits := Visits(log[i + 1..j]);
            && |visits| == (if log[i].MainSent? && n <= 1 then 0 else n)
            && ShownInOrder(visits, if log[i].MainSent? then log[i].msg.(loopback := true) else log[i].msg)
  {
    hide Inv, Waiting, Holding, Step, Visits, ShownInOrder, Rules, HeldRules;
    RulesOverRun(n, depth, blank, states, inputs, logs);
    RoundShowsAll(n, depth - 1, Flat(logs), i, j);
  }

  lemma HeldIsShownToAll(n: nat, depth: nat, blank: Msg, states: seq<State>, inputs: seq<Input>, logs: seq<seq<Event>>,
                         i: nat, j: nat)
    requires CalmRun(n, depth, blank, states, inputs, logs)
    requires i < j < |Flat(logs)| && Flat(logs)[i].Popped? && Flat(logs)[j].Freed?
    requires forall e :: e in Flat(logs)[i + 1..j] ==> !e.Freed?
    ensures var log := Flat(logs);
            && log[j].msg == log[i].msg && !log[i].msg.invalid
            && |MainVisits(log[i + 1..j])| == n && !Asked(log[i + 1..j]) && HeldInOrder(log[i].msg, log[i + 1..j])
  {
    hide Inv, Standing, Step, MainVisits, HeldInOrder, Asked, HeldRules, Rules;
    RulesOverRun(n, depth, blank, states, inputs, logs);
    HeldShowsAll(n, Flat(logs), i, j);
  }

  /**
   In every calm run: what the handlers load is what the wire accepts plus what is still in a slot, what
   the response queue admits is what gets a round plus what still waits, and what is popped is what is
   freed plus what is held.
   */
  lemma NothingLostOrRepeated(n: nat, depth: nat, blank: Msg, states: seq<State>, inputs: seq<Input>, logs: seq<seq<Event>>)
    requires CalmRun(n, depth, blank, states, inputs, logs)
    ensures var s := states[|inputs|];
            var log := Flat(logs);
            && s.queue.head < |s.queue.slots| && s.queue.tail < |s.queue.slots| == depth
            && Carrying(MainLoads, log) == Carrying(MainSends, log)
                 + (if s.main.valid && !(s.active && s.sibling.source.MainOutgoing?)
                    then [s.main.outgoing.(loopback := false)] else [])
            && Carrying(SiblingLoads, log) == Carrying(SiblingSends, log)
                 + (if s.sibling.valid then [s.sibling.outgoing] else [])
            && Admitted(depth - 1, log) == Carrying(QueueRounds, log) + Waiting(s.queue)
            && Carrying(Pops, log) == Carrying(Frees, log) + Listed(s.main.incoming)
  {
    hide Step, Waiting, Rules, HeldRules, Carrying, Admitted, Flat, Succ;
    RulesOverRun(n, depth, blank, states, inputs, logs);
    EachSentOnce(n, depth - 1, Flat(logs));
    EachFreedOnce(n, Flat(logs));
  }

  predicate EnteredFree(e: Event) {
    (e.Visit? || e.MainVisit? || e.MainReentry?) ==> e.slotFree
  }

  lemma {:induction false} SlotsFree(n: nat, cap: nat, log: seq<Event>)
    requires !Rules(n, cap, START, log).Broken? && !HeldRules(n, Unheld, log).Misheld?
    ensures forall e :: e in log ==> EnteredFree(e)
  {
    hide DoesNodeProcess;
    if log != [] {
      var prefix, last := log[..|log| - 1], log[|log| - 1];
      SlotsFree(n, cap, prefix);
      assert EnteredFree(last);
      forall e | e in log ensures EnteredFree(e) {
        assert e in prefix || e == last;
      }
    }
  }

  /** In every calm run handlers are entered only while the outgoing slot of their context is empty: no reply is overwritten. */
  lemma HandlersFindTheirSlotFree(n: nat, depth: nat, blank: Msg, states: seq<State>, inputs: seq<Input>, logs: seq<seq<Event>>)
    requires CalmRun(n, depth, blank, states, inputs, logs)
    ensures forall e :: e in Flat(logs) ==> EnteredFree(e)
  {
    hide Inv, Waiting, Step, Rules, HeldRules, Flat;
    RulesOverRun(n, depth, blank, states, inputs, logs);
    SlotsFree(n, depth - 1, Flat(logs));
  }

  lemma {:induction false} AdmittedAreCopies(cap: nat, log: seq<Event>)
    ensures forall m :: m in Admitted(cap, log) ==> m.loopback
  {
    if log != [] { AdmittedAreCopies(cap, log[..|log| - 1]); }
  }

  /** The message of a round is marked as loopback, so the node it came from does not act on it. */
  lemma RoundsAreLoopback(n: nat, cap: nat, log: seq<Event>, i: nat)
    requires !Rules(n, cap, START, log).Broken? && i < |log| && log[i].QueueRound?
    ensures log[i].msg.loopback
  {
    hide Rules, Admitted, MainBalanced, SiblingBalanced;
    var upTo := log[..i + 1];
    assert upTo[..i] == log[..i];
    PrefixSound(n, cap, log, i + 1);
    EachSentOnce(n, cap, upTo);
    AdmittedAreCopies(cap, upTo);
    var rounds := Carrying(QueueRounds, upTo);
    assert rounds == Carrying(QueueRounds, log[..i]) + [log[i].msg];
    assert rounds[|rounds| - 1] in Admitted(cap, upTo);
  }

  lemma SelfSkip(visits: seq<Event>, m: Msg, k: nat)
    requires ShownInOrder(visits, m) && m.loopback && k < |visits| && visits[k].seen.id == m.sourceId
    ensures !visits[k].handled
  {
  }

  /** In every calm run no node acts on what it sent itself, neither a main message nor a sibling's response. */
  lemma OriginatorIsSkipped(n: nat, depth: nat, blank: Msg, states: seq<State>, inputs: seq<Input>, logs: seq<seq<Event>>,
                            i: nat, j: nat, k: nat)
    requires CalmRun(n, depth, blank, states, inputs, logs)
    requires i < j < |Flat(logs)| && (Flat(logs)[i].MainSent? || Flat(logs)[i].QueueRound?) && Flat(logs)[j].Finished?
    requires Finished !in Flat(logs)[i + 1..j]
    requires k < |Visits(Flat(logs)[i + 1..j])|
    ensures var visits := Visits(Flat(logs)[i + 1..j]);
            visits[k].Visit? && (visits[k].seen.id == Flat(logs)[i].msg.sourceId ==> !visits[k].handled)
  {
    hide Inv, Waiting, Step, Rules, HeldRules, Visits, ShownInOrder, Flat;
    var log := Flat(logs);
    RulesOverRun(n, depth, blank, states, inputs, logs);
    RoundShowsAll(n, depth - 1, log, i, j);
    var m := if log[i].MainSent? then log[i].msg.(loopback := true) else log[i].msg;
    if log[i].QueueRound? { RoundsAreLoopback(n, depth - 1, log, i); }
    var visits := Visits(log[i + 1..j]);
    VisitAt(visits, m, k);
    if visits[k].seen.id == m.sourceId { SelfSkip(visits, m, k); }
  }

  lemma VisitAt(visits: seq<Event>, m: Msg, k: nat)
    requires ShownInOrder(visits, m) && k < |visits|
    ensures visits[k].Visit?
  {
  }

  // ---- Progress ----

  /** How many accepted sends and visits are left in a round. */
  function Rank(n: nat, s: State): nat
    requires s.sibling.node.Some? ==> s.sibling.node.value < n
  {
    2 * (if s.sibling.node.Some? then n - s.sibling.node.value else 0) + if s.sibling.valid then 1 else 0
  }

  lemma RankDrops(n: nat, s: State, input: Input)
    requires Inv(n, s) && s.active && |input.nodes| == n && Calm(s, input) && input.accept
    ensures Shape(n, s, input)
    ensures var r := Step(n, s, input);
            Finished in r.events || (Inv(n, r.state) && r.state.active && Rank(n, r.state) < Rank(n, s))
  {
    hide Succ, PushRing, DoesNodeProcess, Idle;
    StepKeepsSlots(n, s, input);
    if s.sibling.node.None? && !s.sibling.valid {
      assert Step(n, s, input).events[0] == Finished;
    } else if !s.sibling.valid && s.sibling.node.value + 1 == n && VisitSibling(n, s, input).state.sibling.node.None? {
      var r := VisitSibling(n, s, input);
      if !r.state.active { assert r.events[|r.events| - 1] == Finished; }
    }
  }

  /** While the wire accepts, a round with Rank calls left is over after one call more. */
  lemma {:induction false} RoundEnds(n: nat, states: seq<State>, inputs: seq<Input>, logs: seq<seq<Event>>)
    requires Behaviour(n, states, inputs, logs) && Inv(n, states[0]) && states[0].active
    requires forall i :: 0 <= i < |inputs| ==> Calm(states[i], inputs[i]) && inputs[i].accept
    requires |inputs| > Rank(n, states[0])
    ensures exists i :: 0 <= i <= Rank(n, states[0]) && Finished in logs[i]
    decreases |inputs|
  {
    hide Inv, Step, Calm, Rank;
    RankDrops(n, states[0], inputs[0]);
    if Finished !in logs[0] {
      RoundEnds(n, states[1..], inputs[1..], logs[1..]);
      var i :| 0 <= i <= Rank(n, states[1]) && Finished in logs[1..][i];
      assert Finished in logs[i + 1];
    }
  }
}
