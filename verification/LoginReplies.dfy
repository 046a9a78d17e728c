/**
 The replies of siblings to announcements. They are sent in order; but a round ends without sending the reply
 of its last sibling, which waits for the next round, and for ever after the last.
 */
module LoginReplies {
  import opened Words
  import opened NodeTable
  import opened Login
  import opened LoginRules
  import opened LoginRuns

  function LoadedReplies(log: seq<Event>): seq<Msg> {
    if log == [] then []
    else
      var e := log[|log| - 1];
      LoadedReplies(log[..|log| - 1]) + if e.SiblingLoaded? then [e.msg] else []
  }

  function SentReplies(log: seq<Event>): seq<Msg> {
    if log == [] then []
    else
      var e := log[|log| - 1];
      SentReplies(log[..|log| - 1]) + if e.SiblingSent? then [e.msg] else []
  }

  /** The last node shown an announcement loaded a reply. */
  predicate LastVisitReplied(log: seq<Event>) {
    log != [] &&
    var e := log[|log| - 1];
    e.SiblingLoaded? || (!e.Visit? && LastVisitReplied(log[..|log| - 1]))
  }

  /** Where a reply may wait: outside rounds, and at the end of one, exactly if the last visit loaded it. */
  ghost predicate RepliesBalanced(n: nat, log: seq<Event>) {
    var o := Rules(n, START, log);
    && !o.Broken?
    && LoadedReplies(log) == SentReplies(log) + Listed(o.response)
    && (n <= 1 && o.round != Some(1) ==> o.response.None? && !LastVisitReplied(log))
    && (o.round.None? || o.round == Some(n) ==> (o.response.Some? <==> LastVisitReplied(log)))
  }

  lemma RepliesStep(n: nat, log: seq<Event>)
    requires log != [] && RepliesBalanced(n, log[..|log| - 1]) && !Rules(n, START, log).Broken?
    ensures RepliesBalanced(n, log)
  {
    hide DispatchRules.VisitInOrder;
  }

  lemma {:induction false} RepliesBalance(n: nat, log: seq<Event>)
    requires !Rules(n, START, log).Broken?
    ensures RepliesBalanced(n, log)
  {
    if log != [] {
      hide RepliesBalanced;
      RepliesBalance(n, log[..|log| - 1]);
      RepliesStep(n, log);
    }
  }

  /**
   Over every calm run the replies loaded are the replies the wire accepted and the one that waits, in order.
   Outside a round all of them have been sent if and only if the last visit of the last round loaded none.
   */
  lemma RepliesOverRun(states: seq<State>, actions: seq<Action>, logs: seq<seq<Event>>)
    requires CalmRun(states, actions, logs)
    ensures var s, log := states[|actions|], Flat(logs);
            && LoadedReplies(log) == SentReplies(log) + (if s.sibling.valid then [s.sibling.outgoing] else [])
            && (!s.active ==> (LoadedReplies(log) == SentReplies(log) <==> !LastVisitReplied(log)))
  {
    hide Rules, LoadedReplies, SentReplies, LastVisitReplied, Flat, Act, CalmAction, Announced, SameLists;
    hide AllNodes, Announcing, Enumerating;
    RulesOverRun(states, actions, logs);
    RepliesBalance(|states[0].nodes|, Flat(logs));
  }

  // ---- A waiting reply goes out in the next round ----

  /** In a round a waiting reply is sent by the first call in which the wire accepts, and nothing else happens before. */
  lemma WaitingReplyIsSent(states: seq<State>, actions: seq<Action>, logs: seq<seq<Event>>, m: nat)
    requires Behaviour(states, actions, logs) && states[0].active && states[0].sibling.valid
    requires m < |actions| && actions[m].Call? && actions[m].input.accept
    requires forall i :: 0 <= i < m && actions[i].Call? ==> !actions[i].input.accept
    ensures Flat(logs[..m]) == [] && states[m] == states[0].(nodes := states[m].nodes)
    ensures logs[m] == [SiblingSent(states[0].sibling.outgoing)] && !states[m + 1].sibling.valid
  {
    hide SendLogin, ReenterSibling, VisitSibling, Idle;
    RefusalsKeep(states, actions, logs, m);
    assert Act(states[m], actions[m]) == Result(states[m + 1], logs[m]);
  }

  lemma {:induction false} RefusalsKeep(states: seq<State>, actions: seq<Action>, logs: seq<seq<Event>>, m: nat)
    requires Behaviour(states, actions, logs) && states[0].active && states[0].sibling.valid && m <= |actions|
    requires forall i :: 0 <= i < m && actions[i].Call? ==> !actions[i].input.accept
    ensures Flat(logs[..m]) == [] && states[m] == states[0].(nodes := states[m].nodes)
  {
    hide SendLogin, ReenterSibling, VisitSibling, Idle;
    if m > 0 {
      RefusalsKeep(states, actions, logs, m - 1);
      assert logs[..m][..m - 1] == logs[..m - 1];
      assert Act(states[m - 1], actions[m - 1]) == Result(states[m], logs[m - 1]);
    }
  }

  lemma {:induction false} SentFirst(n: nat, o: Progress, m: Msg, log: seq<Event>)
    requires o.Progress? && o.round == Some(0) && o.response == Some(m)
    requires Finished !in log && !Rules(n, o, log).Broken?
    ensures var r := Rules(n, o, log);
            if SentReplies(log) == [] then r.response == Some(m) && Visits(log) == [] else SentReplies(log)[0] == m
  {
    if log != [] {
      var prefix := log[..|log| - 1];
      forall e | e in prefix ensures e in log {}
      SentFirst(n, o, m, prefix);
    }
  }

  lemma SameRest(a: seq<Msg>, b: seq<Msg>, c: seq<Msg>)
    requires a + b == a + c
    ensures b == c
  {
    assert (a + b)[|a|..] == b && (a + c)[|a|..] == c;
  }

  /** A reply can only wait where there are siblings. */
  lemma WaitingNeedsSiblings(n: nat, log: seq<Event>, o: Progress)
    requires RepliesBalanced(n, log) && o == Rules(n, START, log) && o.response.Some? && o.round.None?
    ensures n >= 2
  {
  }

  /** A reply that waits when a round starts is the first that is sent in it. */
  lemma WaitingReplyGoesFirst(n: nat, log: seq<Event>, i: nat, j: nat, m: Msg)
    requires !Rules(n, START, log).Broken?
    requires i < j < |log| && log[i].Sent? && log[j].Finished? && Finished !in log[i + 1..j]
    requires LoadedReplies(log[..i]) == SentReplies(log[..i]) + [m]
    ensures SentReplies(log[i + 1..j]) != [] && SentReplies(log[i + 1..j])[0] == m
  {
    hide Rule, LoadedReplies, LastVisitReplied, SentReplies;
    var before := Rules(n, START, log[..i]);
    PrefixSound(n, log, i);
    PrefixSound(n, log, i + 1);
    PrefixSound(n, log, j);
    RepliesBalance(n, log[..i]);
    SameRest(SentReplies(log[..i]), Listed(before.response), [m]);
    assert log[..i + 1] == log[..i] + [log[i]] && log[..j] == log[..i + 1] + log[i + 1..j];
    RulesConcat(n, START, log[..i], [log[i]]);
    RulesShort(n, before, log[i], log[i], log[i]);
    RulesConcat(n, START, log[..i + 1], log[i + 1..j]);
    BeginsRound(n, before, log[i]);
    SendKeepsResponse(n, before, log[i]);
    SentFirst(n, Rules(n, START, log[..i + 1]), m, log[i + 1..j]);
    RoundShowsAll(n, log, i, j);
    WaitingNeedsSiblings(n, log[..i], before);
  }

  lemma SendKeepsResponse(n: nat, o: Progress, e: Event)
    requires e.Sent? && !Rule(n, o, e).Broken?
    ensures Rule(n, o, e).response == o.response && o.round.None?
  {
  }

  /** In every calm run a reply left by one round is the first thing a sibling sends in the next. */
  lemma LeftReplyGoesNext(states: seq<State>, actions: seq<Action>, logs: seq<seq<Event>>, i: nat, j: nat, m: Msg)
    requires CalmRun(states, actions, logs)
    requires i < j < |Flat(logs)| && Flat(logs)[i].Sent? && Flat(logs)[j].Finished? && Finished !in Flat(logs)[i + 1..j]
    requires LoadedReplies(Flat(logs)[..i]) == SentReplies(Flat(logs)[..i]) + [m]
    ensures SentReplies(Flat(logs)[i + 1..j]) != [] && SentReplies(Flat(logs)[i + 1..j])[0] == m
  {
    hide Inv, Act, Rules, Announced, SameLists, LoadedReplies, SentReplies;
    RulesOverRun(states, actions, logs);
    WaitingReplyGoesFirst(|states[0].nodes|, Flat(logs), i, j, m);
  }

  // ---- The reply to the last announcement ----

  /** A round ends with the reply of its last sibling unsent. */
  lemma LastReplyIsLeft(s: State, input: Input, reply: Msg)
    requires Inv(s) && EntersSibling(s) && input.handling.reply == Some(reply)
    requires s.sibling.node.value + 1 == |s.nodes|
    ensures Shape(s)
    ensures var r := Step(s, input).state; !r.active && !r.valid && r.sibling.valid && r.sibling.outgoing == reply
  {
    hide Dispatch.DoesNodeProcess, AllNodes, Enumerating, Announcing;
  }

  /** Outside a round no call sends it. */
  lemma OnlyARoundSends(s: State, input: Input)
    requires Inv(s) && !s.active
    ensures Shape(s)
    ensures var r := Step(s, input);
            && r.state.sibling.valid == s.sibling.valid && r.state.sibling.outgoing == s.sibling.outgoing
            && forall e :: e in r.events ==> !e.SiblingSent?
  {
    hide AllNodes, Enumerating, Announcing, Handle;
  }

  /** Every node runs and no announcement is left. */
  ghost predicate AllRunning(s: State) {
    && Shape(s) && !s.active && !s.valid && !s.enumerate
    && forall k :: 0 <= k < |s.nodes| ==> s.nodes[k].node.runState == RUNSTATE_RUN
  }

  lemma QuietStep(s: State, a: Action)
    requires AllRunning(s)
    ensures var r := Act(s, a); AllRunning(r.state) && r.events == [] && r.state.sibling == s.sibling
  {
    if a.Call? && s.node.Some? { DivModUnique(s.node.value + 1, 256, 0, s.node.value + 1); }
  }

  lemma {:induction false} NothingAfterwards(states: seq<State>, actions: seq<Action>, logs: seq<seq<Event>>)
    requires Behaviour(states, actions, logs) && AllRunning(states[0])
    ensures AllRunning(states[|actions|]) && states[|actions|].sibling == states[0].sibling && Flat(logs) == []
    decreases |actions|
  {
    hide Act, AllRunning;
    if actions != [] {
      var m := |actions| - 1;
      NothingAfterwards(states[..m + 1], actions[..m], logs[..m]);
      QuietStep(states[m], actions[m]);
    }
  }

  /**
   When every node runs, all replies loaded are ever sent, under any continuation, if and only if the last
   visit of the last round loaded none.
   */
  lemma RepliesAfterLogin(states: seq<State>, actions: seq<Action>, logs: seq<seq<Event>>,
                          later: seq<State>, moreActions: seq<Action>, moreLogs: seq<seq<Event>>)
    requires CalmRun(states, actions, logs) && AllRunning(states[|actions|])
    requires Behaviour(later, moreActions, moreLogs) && later[0] == states[|actions|]
    ensures var log, all := Flat(logs), Flat(logs) + Flat(moreLogs);
            && LoadedReplies(all) == LoadedReplies(log)
            && (SentReplies(all) == LoadedReplies(all) <==> !LastVisitReplied(log))
  {
    hide LoadedReplies, SentReplies, LastVisitReplied, Flat, Act, CalmAction;
    RepliesOverRun(states, actions, logs);
    NothingAfterwards(later, moreActions, moreLogs);
    assert Flat(logs) + [] == Flat(logs);
  }
}
