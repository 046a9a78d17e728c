/** When a response to a main message is lost: the queue silently drops what finds it full. */
module DispatchQueue {
  import opened Words
  import opened Dispatch
  import opened DispatchRules
  import opened DispatchRuns

  // ---- One round ----

  /** Event i sends a main message and j ends its round. */
  predicate MainRound(log: seq<Event>, i: nat, j: nat) {
    i < j < |log| && log[i].MainSent? && log[j].Finished? && Finished !in log[i + 1..j]
  }

  function Copies(msgs: seq<Msg>): (r: seq<Msg>)
    ensures |r| == |msgs| && forall k :: 0 <= k < |r| ==> r[k] == ComingBack(msgs[k])
  {
    seq(|msgs|, k requires 0 <= k < |msgs| => ComingBack(msgs[k]))
  }

  /** The responses sent in the round. */
  function Responses(log: seq<Event>, i: nat, j: nat): seq<Msg>
    requires i < j <= |log|
  {
    Carrying(SiblingSends, log[i + 1..j])
  }

  /** The queue admits all of them. */
  predicate NoneLost(cap: nat, log: seq<Event>, i: nat, j: nat)
    requires i < j <= |log|
  {
    Admitted(cap, log[..j]) == Admitted(cap, log[..i + 1]) + Copies(Responses(log, i, j))
  }

  /** What a round has sent so far is queued as far as there is room, and what it loaded is sent but for one. */
  ghost predicate Filled(cap: nat, o: Outgoing, log: seq<Event>) {
    var sent := Carrying(SiblingSends, log);
    && o.Outgoing? && o.round.Some? && o.pending == Copies(sent[..Min(|sent|, cap)])
    && |Carrying(SiblingLoads, log)| == |sent| + |Listed(o.response)|
    && Carrying(QueueRounds, log) == []
  }

  lemma OneFills(n: nat, cap: nat, o: Outgoing, log: seq<Event>)
    requires log != [] && !log[|log| - 1].Finished? && Filled(cap, o, log[..|log| - 1])
    requires !Rule(n, cap, o, log[|log| - 1]).Broken?
    ensures Filled(cap, Rule(n, cap, o, log[|log| - 1]), log)
  {
    hide VisitInOrder, Copies, Rule;
    var before, e := Carrying(SiblingSends, log[..|log| - 1]), log[|log| - 1];
    InARound(n, cap, o, e);
    QueueRule(n, cap, o, e);
    if e.SiblingSent? {
      assert (before + [e.msg])[..Min(|before|, cap)] == before[..Min(|before|, cap)];
      CopiesOf(before[..Min(|before|, cap)], e.msg);
      if |before| < cap {
        assert (before + [e.msg])[..|before| + 1] == before[..|before|] + [e.msg];
      }
    }
  }

  /** Within a round no other round starts, and only the sends of a response empty its slot. */
  lemma InARound(n: nat, cap: nat, o: Outgoing, e: Event)
    requires o.Outgoing? && o.round.Some? && !e.Finished? && !Rule(n, cap, o, e).Broken?
    ensures var r := Rule(n, cap, o, e);
            && r.round.Some? && !e.QueueRound?
            && |Carried(SiblingLoads, e)| + |Listed(o.response)| == |Carried(SiblingSends, e)| + |Listed(r.response)|
  {
    hide VisitInOrder;
  }

  lemma CopiesOf(msgs: seq<Msg>, m: Msg)
    ensures Copies(msgs + [m]) == Copies(msgs) + [ComingBack(m)]
  {
  }

  /** From an empty queue, a round leaves the first responses it has room for. */
  lemma {:induction false} RoundFills(n: nat, cap: nat, o: Outgoing, log: seq<Event>)
    requires o.Outgoing? && o.round.Some? && o.response.None? && o.pending == []
    requires Finished !in log && !Rules(n, cap, o, log).Broken?
    ensures Filled(cap, Rules(n, cap, o, log), log)
  {
    if log != [] {
      hide Rule, Filled;
      var prefix := log[..|log| - 1];
      forall d | d in prefix ensures d in log {}
      RuleOfBroken(n, cap, log[|log| - 1]);
      RoundFills(n, cap, o, prefix);
      OneFills(n, cap, Rules(n, cap, o, prefix), log);
    }
  }

  lemma RuleOfBroken(n: nat, cap: nat, e: Event)
    ensures Rule(n, cap, Broken, e).Broken?
  {
  }

  /** In every calm run the responses of a main round are all admitted if and only if there are fewer of them than slots. */
  lemma LostExactly(n: nat, depth: nat, blank: Msg,
                    states: seq<State>, inputs: seq<Input>, logs: seq<seq<Event>>, i: nat, j: nat)
    requires CalmRun(n, depth, blank, states, inputs, logs) && MainRound(Flat(logs), i, j)
    ensures NoneLost(depth - 1, Flat(logs), i, j) <==> |Responses(Flat(logs), i, j)| < depth
  {
    hide Inv, Waiting, Step, Rules, HeldRules, Flat, Admitted, Carrying;
    var log, cap := Flat(logs), depth - 1;
    RulesOverRun(n, depth, blank, states, inputs, logs);
    var begun := Rules(n, cap, START, log[..i + 1]);
    RoundBegins(n, cap, log, i, j);
    RoundFills(n, cap, begun, log[i + 1..j]);
    PrefixSound(n, cap, log, i + 1);
    PrefixSound(n, cap, log, j);
    EachSentOnce(n, cap, log[..i + 1]);
    EachSentOnce(n, cap, log[..j]);
    assert log[..j] == log[..i + 1] + log[i + 1..j];
    CarryingConcat(QueueRounds, log[..i + 1], log[i + 1..j]);
    var sent, before := Responses(log, i, j), Admitted(cap, log[..i + 1]);
    assert Admitted(cap, log[..j]) == before + Copies(sent[..Min(|sent|, cap)]);
    if |sent| <= cap { assert sent[..|sent|] == sent; }
  }

  /** A main round starts with nothing waiting and nothing queued. */
  lemma RoundBegins(n: nat, cap: nat, log: seq<Event>, i: nat, j: nat)
    requires !Rules(n, cap, START, log).Broken? && MainRound(log, i, j)
    ensures var begun := Rules(n, cap, START, log[..i + 1]);
            && begun.Outgoing? && begun.round.Some? && begun.response.None? && begun.pending == []
            && Rules(n, cap, START, log[..j]) == Rules(n, cap, begun, log[i + 1..j])
            && !Rules(n, cap, START, log[..j]).Broken?
  {
    hide Rules;
    PrefixSound(n, cap, log, i + 1);
    PrefixSound(n, cap, log, j);
    assert log[..i + 1] == log[..i] + [log[i]] && log[..j] == log[..i + 1] + log[i + 1..j];
    RulesConcat(n, cap, START, log[..i], [log[i]]);
    RulesShort(n, cap, Rules(n, cap, START, log[..i]), log[i], log[i]);
    RulesConcat(n, cap, START, log[..i + 1], log[i + 1..j]);
  }

  // ---- How many responses a round can have ----

  /** Every response is loaded by the visit just before it. */
  predicate Answers(log: seq<Event>) {
    forall t :: 0 <= t < |log| && log[t].SiblingLoaded? ==> t > 0 && log[t - 1].Visit? && log[t - 1].handled
  }

  lemma StepAnswers(n: nat, s: State, input: Input)
    requires Inv(n, s) && |input.nodes| == n
    ensures Shape(n, s, input) && Answers(Step(n, s, input).events)
  {
    hide Succ, PushRing, DoesNodeProcess, Incoming, VisitSibling, Answers;
    if SiblingTurn(s) {
      VisitAnswers(n, s, input);
    } else if s.active && (s.sibling.valid || s.sibling.node.Some?) {
      AnswersShort(Step(n, s, input).events);
    } else if !s.active && s.main.valid {
      AnswersShort(Step(n, s, input).events);
    } else {
      var idle := if s.active then FinishDeferred(s) else s;
      AnswersShort([Finished]);
      if idle.queue.head != idle.queue.tail {
        AnswersShort(Idle(n, idle, input).events);
      } else {
        IncomingAnswers(n, idle, input);
      }
      AnswersConcat([Finished], Idle(n, idle, input).events);
    }
  }

  lemma AnswersShort(log: seq<Event>)
    requires forall e :: e in log ==> !e.SiblingLoaded?
    ensures Answers(log)
  {
    forall t | 0 <= t < |log| ensures log[t] in log {}
  }

  lemma VisitAnswers(n: nat, s: State, input: Input)
    requires s.sibling.node.Some? && s.sibling.node.value < |input.nodes| && SiblingIncoming(s).Some?
    ensures Answers(VisitSibling(n, s, input).events)
  {
    hide NodeHandles, ProcessSibling;
  }

  lemma IncomingAnswers(n: nat, s: State, input: Input)
    requires n == |input.nodes| && (s.main.node.Some? <==> s.main.incoming.Some?)
    requires s.main.enumerate ==> s.main.node.Some?
    ensures Answers(Incoming(n, s, input).events)
  {
    hide NodeHandles, ProcessMain, Answers;
    AnswersShort(Incoming(n, s, input).events);
  }

  lemma AnswersConcat(a: seq<Event>, b: seq<Event>)
    requires Answers(a) && Answers(b)
    ensures Answers(a + b)
  {
    var log := a + b;
    forall t | 0 <= t < |log| && log[t].SiblingLoaded?
      ensures t > 0 && log[t - 1].Visit? && log[t - 1].handled
    {
      if t < |a| {
        assert log[t] == a[t] && (t > 0 ==> log[t - 1] == a[t - 1]);
      } else {
        assert log[t] == b[t - |a|] && (t > |a| ==> log[t - 1] == b[t - |a| - 1]);
      }
    }
  }

  lemma {:induction false} RunAnswers(n: nat, depth: nat, blank: Msg,
                                      states: seq<State>, inputs: seq<Input>, logs: seq<seq<Event>>)
    requires CalmRun(n, depth, blank, states, inputs, logs)
    ensures Answers(Flat(logs))
    decreases |inputs|
  {
    hide Step, Calm, Inv, Rules, HeldRules, Standing, Holding, Answers;
    var k := |inputs|;
    if k == 0 {
      AnswersShort([]);
    } else {
      RunAnswers(n, depth, blank, states[..k], inputs[..k - 1], logs[..k - 1]);
      RulesOverRun(n, depth, blank, states[..k], inputs[..k - 1], logs[..k - 1]);
      StepAnswers(n, states[k - 1], inputs[k - 1]);
      assert Step(n, states[k - 1], inputs[k - 1]) == Result(states[k - 1 + 1], logs[k - 1]);
      AnswersConcat(Flat(logs[..k - 1]), logs[k - 1]);
    }
  }

  /** The visits in which handlers acted. */
  function Handled(visits: seq<Event>): nat {
    if visits == [] then 0
    else
      var e := visits[|visits| - 1];
      Handled(visits[..|visits| - 1]) + if e.Visit? && e.handled then 1 else 0
  }

  /** The last event is a visit in which a handler acted. */
  predicate Unanswered(log: seq<Event>) {
    log != [] && log[|log| - 1].Visit? && log[|log| - 1].handled
  }

  lemma {:induction false} OneAnswerEach(log: seq<Event>)
    requires Answers(log)
    ensures |Carrying(SiblingLoads, log)| + (if Unanswered(log) then 1 else 0) <= Handled(Visits(log))
  {
    if log != [] {
      var prefix, e := log[..|log| - 1], log[|log| - 1];
      forall t | 0 <= t < |prefix| && prefix[t].SiblingLoaded?
        ensures t > 0 && prefix[t - 1].Visit? && prefix[t - 1].handled
      {
        assert log[t] == prefix[t] && log[t - 1] == prefix[t - 1];
      }
      OneAnswerEach(prefix);
      if e.Visit? {
        var v := Visits(log);
        assert v[..|v| - 1] == Visits(prefix) && v[|v| - 1] == e;
      } else {
        assert Visits(log) == Visits(prefix);
        assert e.SiblingLoaded? ==> Unanswered(prefix);
      }
    }
  }

  /** One visit that is not handled leaves one less. */
  lemma {:induction false} HandledBound(visits: seq<Event>, k: nat)
    ensures Handled(visits) <= |visits|
    ensures k < |visits| && visits[k].Visit? && !visits[k].handled ==> Handled(visits) < |visits|
  {
    if visits != [] { HandledBound(visits[..|visits| - 1], k); }
  }

  /** The sender of the round's message is one of the nodes it is shown to. */
  predicate OwnMessage(log: seq<Event>, i: nat, j: nat)
    requires i < j < |log| && log[i].MainSent?
  {
    var visits := Visits(log[i + 1..j]);
    visits != [] ==> exists k :: 0 <= k < |visits| && visits[k].Visit? && visits[k].seen.id == log[i].msg.sourceId
  }

  /** A round of n nodes has at most n responses, fewer when one of the nodes sent the message; a single node sees none. */
  lemma FewResponses(n: nat, depth: nat, blank: Msg,
                     states: seq<State>, inputs: seq<Input>, logs: seq<seq<Event>>, i: nat, j: nat)
    requires CalmRun(n, depth, blank, states, inputs, logs) && MainRound(Flat(logs), i, j)
    ensures |Responses(Flat(logs), i, j)| <= if n <= 1 then 0 else n
    ensures n > 1 && OwnMessage(Flat(logs), i, j) ==> |Responses(Flat(logs), i, j)| < n
  {
    hide Inv, Waiting, Step, Rules, HeldRules, Flat, Carrying, ShownInOrder;
    var log := Flat(logs);
    var seg := log[i + 1..j];
    RulesOverRun(n, depth, blank, states, inputs, logs);
    RunAnswers(n, depth, blank, states, inputs, logs);
    RoundBegins(n, depth - 1, log, i, j);
    RoundFills(n, depth - 1, Rules(n, depth - 1, START, log[..i + 1]), seg);
    SegmentAnswers(log, i, j);
    OneAnswerEach(seg);
    SendsAreShownToAll(n, depth, blank, states, inputs, logs, i, j);
    HandledBound(Visits(seg), 0);
    if OwnMessage(log, i, j) && Visits(seg) != [] {
      var k :| 0 <= k < |Visits(seg)| && Visits(seg)[k].Visit? && Visits(seg)[k].seen.id == log[i].msg.sourceId;
      SelfSkip(Visits(seg), log[i].msg.(loopback := true), k);
      HandledBound(Visits(seg), k);
    }
  }

  lemma SegmentAnswers(log: seq<Event>, i: nat, j: nat)
    requires Answers(log) && MainRound(log, i, j)
    ensures Answers(log[i + 1..j])
  {
    var seg := log[i + 1..j];
    forall t | 0 <= t < |seg| && seg[t].SiblingLoaded?
      ensures t > 0 && seg[t - 1].Visit? && seg[t - 1].handled
    {
      assert log[i + 1 + t] == seg[t] && (t > 0 ==> log[i + t] == seg[t - 1]);
    }
  }

  // ---- The high-water mark ----

  predicate InRing(s: State) {
    s.queue.head < |s.queue.slots| && s.queue.tail < |s.queue.slots|
  }

  /** The most responses that have waited at once, over the first k calls. */
  ghost function Most(states: seq<State>, k: nat): nat
    requires k < |states| && forall i :: 0 <= i <= k ==> InRing(states[i])
  {
    assert InRing(states[k]);
    var now := |Waiting(states[k].queue)|;
    if k == 0 then now else var before := Most(states, k - 1); if now > before then now else before
  }

  lemma PushRaises(r: Ring, m: Msg)
    requires r.head < |r.slots| && r.tail < |r.slots| < BYTE && |Waiting(r)| <= r.highWater
    ensures var q := PushRing(r, m);
            && q.head == r.head && q.tail < |q.slots| == |r.slots|
            && q.highWater == if |Waiting(q)| > r.highWater then |Waiting(q)| else r.highWater
  {
    SuccIs(r, r.tail);
    var q := PushRing(r, m);
    var n := |r.slots|;
    if !Full(r) {
      if q.tail >= q.head { DivModUnique(q.tail + n - q.head, n, 1, q.tail - q.head); }
      else { DivModUnique(q.tail + n - q.head, n, 0, q.tail + n - q.head); }
    }
  }

  /** A call leaves the queue as it is, pushes one response or takes one out. */
  lemma CallQueue(n: nat, s: State, input: Input)
    requires Shape(n, s, input)
    ensures var q := Step(n, s, input).state.queue;
            || q == s.queue
            || q == PushRing(s.queue, s.sibling.outgoing)
            || (s.queue.head != s.queue.tail && q == s.queue.(head := Succ(s.queue, s.queue.head)))
  {
    hide Succ, PushRing, DoesNodeProcess;
  }

  lemma MarkStep(n: nat, s: State, input: Input)
    requires Shape(n, s, input) && |Waiting(s.queue)| <= s.queue.highWater
    ensures var q := Step(n, s, input).state.queue;
            && InRing(Step(n, s, input).state)
            && q.highWater == if |Waiting(q)| > s.queue.highWater then |Waiting(q)| else s.queue.highWater
  {
    hide Succ, PushRing, Step, Waiting;
    CallQueue(n, s, input);
    PushRaises(s.queue, s.sibling.outgoing);
    PopTakes(s.queue);
  }

  /** In every calm run the high-water mark is the most responses that have ever waited at once. */
  lemma {:induction false} HighWaterIsTheMost(n: nat, depth: nat, blank: Msg,
                                              states: seq<State>, inputs: seq<Input>, logs: seq<seq<Event>>, k: nat)
    requires CalmRun(n, depth, blank, states, inputs, logs) && k <= |inputs|
    ensures forall i :: 0 <= i <= k ==> InRing(states[i])
    ensures states[k].queue.highWater == Most(states, k)
  {
    hide Succ, PushRing, Step, Waiting, Calm;
    if k == 0 {
      PopTakes(states[0].queue);
    } else {
      HighWaterIsTheMost(n, depth, blank, states, inputs, logs, k - 1);
      MarkStep(n, states[k - 1], inputs[k - 1]);
      assert Step(n, states[k - 1], inputs[k - 1]) == Result(states[k - 1 + 1], logs[k - 1]);
    }
  }
}
