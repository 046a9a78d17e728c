/** Who acts on a message, over runs: an addressed one its addressee, any other every node but its sender. */
module DispatchDelivery {
  import opened Words
  import opened NodeTable
  import opened Dispatch
  import opened DispatchFilter
  import opened DispatchRules
  import opened DispatchRuns
  import opened DispatchCalls

  /** The nodes keep these identifiers and aliases; their run states may change from call to call. */
  ghost predicate Named(ids: seq<nat>, aliases: seq<nat>, inputs: seq<Input>) {
    && |ids| == |aliases|
    && forall i :: 0 <= i < |inputs| ==> forall k :: 0 <= k < |inputs[i].nodes| ==>
         k < |ids| && inputs[i].nodes[k].id == ids[k] && inputs[i].nodes[k].alias == aliases[k]
  }

  predicate Distinct(names: seq<nat>) {
    forall i, k :: 0 <= i < k < |names| ==> names[i] != names[k]
  }

  /** Node d, and none but d, is named by the message's destination. */
  predicate Addressee(ids: seq<nat>, aliases: seq<nat>, m: Msg, d: nat)
    requires |ids| == |aliases|
  {
    && d < |ids| && (aliases[d] == m.destAlias || ids[d] == m.destId)
    && forall k :: 0 <= k < |ids| && k != d ==> aliases[k] != m.destAlias && ids[k] != m.destId
  }

  /** With distinct names, a destination that gives the alias and the identifier of a node names no other. */
  lemma BothNames(ids: seq<nat>, aliases: seq<nat>, m: Msg, d: nat)
    requires |ids| == |aliases| && Distinct(ids) && Distinct(aliases)
    requires d < |ids| && aliases[d] == m.destAlias && ids[d] == m.destId
    ensures Addressee(ids, aliases, m, d)
  {
  }

  /** The node of an entry may act on its message. */
  predicate May(ids: seq<nat>, aliases: seq<nat>, k: nat, m: Msg)
    requires |ids| == |aliases| && m.mti < WORD
  {
    k < |ids| && MeantFor(aliases[k], ids[k], m) && !(m.loopback && ids[k] == m.sourceId)
  }

  /** Whether the node of an entry acts. */
  predicate Decided(ids: seq<nat>, aliases: seq<nat>, e: Event)
    requires |ids| == |aliases|
  {
    match e
    case Visit(k, m, seen, _, handled, _) =>
      k < |ids| && (m.mti < WORD ==> (handled <==> seen.runState == RUNSTATE_RUN && seen.initialized && May(ids, aliases, k, m)))
    case MainVisit(k, m, seen, _, handled, _, _) =>
      m.mti < WORD ==> (handled <==> seen.runState == RUNSTATE_RUN && seen.initialized && May(ids, aliases, k, m))
    case MainReentry(k, m, handled, _, _) => m.mti < WORD && handled ==> May(ids, aliases, k, m)
    case _ => true
  }

  lemma EntriesDecided(n: nat, states: seq<State>, inputs: seq<Input>, logs: seq<seq<Event>>,
                       ids: seq<nat>, aliases: seq<nat>)
    requires Behaviour(n, states, inputs, logs) && Named(ids, aliases, inputs)
    ensures forall e :: e in Flat(logs) ==> Decided(ids, aliases, e)
  {
    hide Step, Shape, HasDestination, Flat;
    RunIsTruthful(n, states, inputs, logs, |inputs|);
    assert logs[..|inputs|] == logs;
    forall e | e in Flat(logs) ensures Decided(ids, aliases, e) {
      var i :| 0 <= i < |inputs| && Truthful(inputs[i], e);
    }
  }

  // ---- A message from the wire ----

  lemma {:induction false} MainVisitsAreLogged(log: seq<Event>)
    ensures forall v :: v in MainVisits(log) ==> v in log && v.MainVisit?
  {
    if log != [] { MainVisitsAreLogged(log[..|log| - 1]); }
  }

  lemma {:induction false} VisitsAreLogged(log: seq<Event>)
    ensures forall v :: v in Visits(log) ==> v in log && v.Visit?
  {
    if log != [] { VisitsAreLogged(log[..|log| - 1]); }
  }

  /** The main visits of a held message, in order, are entries of nodes 0, 1, 2 and so on with that message. */
  lemma {:induction false} HeldVisits(m: Msg, log: seq<Event>)
    requires HeldInOrder(m, log)
    ensures forall k :: 0 <= k < |MainVisits(log)| ==>
              var v := MainVisits(log)[k]; v.MainVisit? && v.node == k && v.msg == m
  {
    if log != [] {
      var prefix, t := log[..|log| - 1], |log| - 1;
      forall u | 0 <= u < |prefix| ensures MayFollow(m, prefix[..u], prefix[u]) {
        assert prefix[..u] == log[..u] && MayFollow(m, log[..u], log[u]);
      }
      HeldVisits(m, prefix);
      assert MayFollow(m, log[..t], log[t]);
    }
  }

  /** Every main entry in the life of a held message carries that message. */
  lemma HeldEntries(m: Msg, log: seq<Event>, e: Event)
    requires HeldInOrder(m, log) && e in log && (e.MainVisit? || e.MainReentry?)
    ensures e.msg == m
  {
    var t :| 0 <= t < |log| && log[t] == e;
    assert MayFollow(m, log[..t], log[t]);
  }

  /**
   In every calm run, while a message from the wire is held: node k acts when the message is shown to it exactly if it is
   running and initialized, the message is meant for it, and it is not its own; and a re-entered node acts only if the
   message is meant for it.
   */
  lemma HeldIsActedOn(n: nat, depth: nat, blank: Msg, states: seq<State>, inputs: seq<Input>, logs: seq<seq<Event>>,
                      ids: seq<nat>, aliases: seq<nat>, i: nat, j: nat)
    requires CalmRun(n, depth, blank, states, inputs, logs) && Named(ids, aliases, inputs)
    requires i < j < |Flat(logs)| && Flat(logs)[i].Popped? && Flat(logs)[j].Freed?
    requires forall e :: e in Flat(logs)[i + 1..j] ==> !e.Freed?
    requires Flat(logs)[i].msg.mti < WORD
    ensures var m, life := Flat(logs)[i].msg, Flat(logs)[i + 1..j];
            && |MainVisits(life)| == n
            && (forall k :: 0 <= k < n ==>
                 var v := MainVisits(life)[k];
                 && v.MainVisit? && v.node == k
                 && (v.handled <==> v.seen.runState == RUNSTATE_RUN && v.seen.initialized && May(ids, aliases, k, m)))
            && forall e :: e in life && MainActs(e) ==> May(ids, aliases, e.node, m)
  {
    hide CalmRun, May, MainVisits, HeldInOrder, Flat, Asked;
    var m, life := Flat(logs)[i].msg, Flat(logs)[i + 1..j];
    RunBehaves(n, depth, blank, states, inputs, logs);
    EntriesDecided(n, states, inputs, logs, ids, aliases);
    HeldIsShownToAll(n, depth, blank, states, inputs, logs, i, j);
    HeldVisits(m, life);
    MainVisitsAreLogged(life);
    forall e | e in life ensures e in Flat(logs) && Decided(ids, aliases, e) {}
    forall e | e in life && MainActs(e) ensures May(ids, aliases, e.node, m) { HeldEntries(m, life, e); }
    forall k | 0 <= k < n
      ensures var v := MainVisits(life)[k];
              && v.MainVisit? && v.node == k
              && (v.handled <==> v.seen.runState == RUNSTATE_RUN && v.seen.initialized && May(ids, aliases, k, m))
    {
      assert MainVisits(life)[k] in MainVisits(life);
    }
  }

  lemma RunBehaves(n: nat, depth: nat, blank: Msg, states: seq<State>, inputs: seq<Input>, logs: seq<seq<Event>>)
    requires CalmRun(n, depth, blank, states, inputs, logs)
    ensures Behaviour(n, states, inputs, logs)
  {
  }

  /**
   An addressed message, MTI bit 3 set and not Verify Node ID Global, that comes from the wire is acted on by its
   addressee, if that is running and initialized, and by no other node.
   */
  lemma AddresseeActs(n: nat, depth: nat, blank: Msg, states: seq<State>, inputs: seq<Input>, logs: seq<seq<Event>>,
                      ids: seq<nat>, aliases: seq<nat>, i: nat, j: nat, d: nat)
    requires CalmRun(n, depth, blank, states, inputs, logs) && Named(ids, aliases, inputs)
    requires i < j < |Flat(logs)| && Flat(logs)[i].Popped? && Flat(logs)[j].Freed?
    requires forall e :: e in Flat(logs)[i + 1..j] ==> !e.Freed?
    requires var m := Flat(logs)[i].msg;
             && m.mti < WORD && HasDestination(m.mti) && m.mti != 0x0490 && !m.loopback
             && Addressee(ids, aliases, m, d) && d < n
    ensures var visits := MainVisits(Flat(logs)[i + 1..j]);
            && d < |visits| && visits[d].MainVisit? && visits[d].node == d
            && (visits[d].handled <==> visits[d].seen.runState == RUNSTATE_RUN && visits[d].seen.initialized)
    ensures forall e :: e in Flat(logs)[i + 1..j] && MainActs(e) ==> e.node == d
  {
    hide CalmRun, MainVisits, Flat, HasDestination;
    HeldIsActedOn(n, depth, blank, states, inputs, logs, ids, aliases, i, j);
    assert May(ids, aliases, d, Flat(logs)[i].msg);
  }

  /** Any other message from the wire is acted on by every node that is running and initialized when it is shown. */
  lemma AllAct(n: nat, depth: nat, blank: Msg, states: seq<State>, inputs: seq<Input>, logs: seq<seq<Event>>,
               ids: seq<nat>, aliases: seq<nat>, i: nat, j: nat)
    requires CalmRun(n, depth, blank, states, inputs, logs) && Named(ids, aliases, inputs) && |ids| >= n
    requires i < j < |Flat(logs)| && Flat(logs)[i].Popped? && Flat(logs)[j].Freed?
    requires forall e :: e in Flat(logs)[i + 1..j] ==> !e.Freed?
    requires var m := Flat(logs)[i].msg; m.mti < WORD && !(HasDestination(m.mti) && m.mti != 0x0490)
    ensures var m, visits := Flat(logs)[i].msg, MainVisits(Flat(logs)[i + 1..j]);
            && |visits| == n
            && forall k :: 0 <= k < n ==>
                 && visits[k].MainVisit? && visits[k].node == k
                 && (visits[k].handled <==>
                       visits[k].seen.runState == RUNSTATE_RUN && visits[k].seen.initialized
                       && !(m.loopback && ids[k] == m.sourceId))
  {
    hide CalmRun, MainVisits, Flat, HasDestination, Named;
    HeldIsActedOn(n, depth, blank, states, inputs, logs, ids, aliases, i, j);
  }

  // ---- A message of one of the nodes ----

  /** What a round shows: a copy of the message sent, marked as coming back. */
  lemma ShownIsLoopback(n: nat, depth: nat, blank: Msg, states: seq<State>, inputs: seq<Input>, logs: seq<seq<Event>>, i: nat)
    requires CalmRun(n, depth, blank, states, inputs, logs)
    requires i < |Flat(logs)| && Flat(logs)[i].QueueRound?
    ensures Flat(logs)[i].msg.loopback
  {
    hide Inv, Waiting, Step, Rules, HeldRules, Flat;
    RulesOverRun(n, depth, blank, states, inputs, logs);
    RoundsAreLoopback(n, depth - 1, Flat(logs), i);
  }

  lemma ShownAt(visits: seq<Event>, m: Msg, k: nat)
    requires ShownInOrder(visits, m) && k < |visits|
    ensures visits[k].Visit? && visits[k].node == k && visits[k].msg == m
  {
  }

  /**
   In every round of a calm run, of a main message or of a queued response, node k acts exactly if it is running and
   initialized, the message is meant for it, and it is not its sender.
   */
  lemma SentIsActedOn(n: nat, depth: nat, blank: Msg, states: seq<State>, inputs: seq<Input>, logs: seq<seq<Event>>,
                      ids: seq<nat>, aliases: seq<nat>, i: nat, j: nat, k: nat)
    requires CalmRun(n, depth, blank, states, inputs, logs) && Named(ids, aliases, inputs)
    requires i < j < |Flat(logs)| && (Flat(logs)[i].MainSent? || Flat(logs)[i].QueueRound?) && Flat(logs)[j].Finished?
    requires Finished !in Flat(logs)[i + 1..j]
    requires Flat(logs)[i].msg.mti < WORD && k < |Visits(Flat(logs)[i + 1..j])|
    ensures var m, v := Flat(logs)[i].msg, Visits(Flat(logs)[i + 1..j])[k];
            && v.Visit? && v.node == k && k < |ids|
            && (v.handled <==> v.seen.runState == RUNSTATE_RUN && v.seen.initialized
                               && MeantFor(aliases[k], ids[k], m) && ids[k] != m.sourceId)
  {
    hide CalmRun, Visits, Flat, ShownInOrder, HasDestination;
    var m, round := Flat(logs)[i].msg, Flat(logs)[i + 1..j];
    RunBehaves(n, depth, blank, states, inputs, logs);
    EntriesDecided(n, states, inputs, logs, ids, aliases);
    SendsAreShownToAll(n, depth, blank, states, inputs, logs, i, j);
    if Flat(logs)[i].QueueRound? { ShownIsLoopback(n, depth, blank, states, inputs, logs, i); }
    VisitsAreLogged(round);
    ShownAt(Visits(round), if Flat(logs)[i].MainSent? then m.(loopback := true) else m, k);
    var v := Visits(round)[k];
    assert v in Visits(round) && v in Flat(logs) && Decided(ids, aliases, v);
  }

  /** A message sent by a node to another is acted on by its addressee, if that is running and initialized, and by no other. */
  lemma SiblingAddresseeActs(n: nat, depth: nat, blank: Msg, states: seq<State>, inputs: seq<Input>, logs: seq<seq<Event>>,
                    ids: seq<nat>, aliases: seq<nat>, i: nat, j: nat, d: nat)
    requires CalmRun(n, depth, blank, states, inputs, logs) && Named(ids, aliases, inputs)
    requires i < j < |Flat(logs)| && (Flat(logs)[i].MainSent? || Flat(logs)[i].QueueRound?) && Flat(logs)[j].Finished?
    requires Finished !in Flat(logs)[i + 1..j]
    requires var m := Flat(logs)[i].msg;
             && m.mti < WORD && HasDestination(m.mti) && m.mti != 0x0490
             && Addressee(ids, aliases, m, d) && ids[d] != m.sourceId
    ensures var visits := Visits(Flat(logs)[i + 1..j]);
            forall k :: 0 <= k < |visits| ==>
              && visits[k].Visit? && visits[k].node == k
              && (visits[k].handled <==>
                    k == d && visits[k].seen.runState == RUNSTATE_RUN && visits[k].seen.initialized)
  {
    hide CalmRun, Visits, Flat, HasDestination, Named;
    var visits := Visits(Flat(logs)[i + 1..j]);
    forall k | 0 <= k < |visits|
      ensures && visits[k].Visit? && visits[k].node == k
              && (visits[k].handled <==>
                    k == d && visits[k].seen.runState == RUNSTATE_RUN && visits[k].seen.initialized)
    {
      SentIsActedOn(n, depth, blank, states, inputs, logs, ids, aliases, i, j, k);
    }
  }
}
