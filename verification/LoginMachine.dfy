/** The login state machine in memory: every method performs its part of a step on the contexts and the node table. */
module LoginMachine {
  import opened Words
  import opened NodeTable
  import opened Login
  import Dispatch

  class LoginStatemachine {
    var node: Option<nat>
    var outgoing: Msg
    var valid: bool
    var enumerate: bool
    var sibling: Sibling
    var siblingDispatchActive: bool
    const nodes: Nodes
    const table: array<LoginNode>

    function Value(): State
      reads this, table
    {
      State(table[..], node, outgoing, valid, enumerate, sibling, siblingDispatchActive)
    }

    /** The contexts' node pointers are where their own enumeration keys stand. */
    ghost predicate Valid()
      reads this, nodes, nodes.enumIndex, nodes.inUse, nodes.ids
    {
      && nodes.Valid() && table.Length == nodes.count
      && (node.Some? ==> nodes.enumIndex[LOGIN_KEY] == node.value)
      && (sibling.node.Some? ==> nodes.enumIndex[LOGIN_SIBLING_KEY] == sibling.node.value)
    }

    constructor (nodes: Nodes, table: array<LoginNode>, blank: Msg)
      requires nodes.Valid() && table.Length == nodes.count
      ensures Valid() && this.nodes == nodes && this.table == table
      ensures Value() == State(table[..], None, blank, false, false, Sibling(None, false, false, blank, false), false)
    {
      this.nodes, this.table := nodes, table;
      node, outgoing, valid, enumerate := None, blank, false, false;
      sibling, siblingDispatchActive := Sibling(None, false, false, blank, false), false;
    }

    // ---- The handlers ----

    /** Header and payload; the flags of the buffer stay as they are. */
    method LoadMessage(from: Node, mti: nat, payload: seq<nat>)
      modifies this`outgoing
      ensures outgoing == Announce(from, mti, payload).(loopback := old(outgoing.loopback))
    {
      outgoing := Dispatch.Msg(mti, from.alias, from.id, 0, 0, payload, outgoing.loopback, false);
    }

    method LoadInitializationComplete(k: nat) returns (log: seq<Event>)
      requires k < table.Length
      modifies this`outgoing, this`valid, table
      ensures var r := Applied(old(Value()), k, Login.LoadInitializationComplete(old(table[k]), enumerate), true);
              Value() == r.state && log == r.events
    {
      var n := table[k];
      var mti := MTI_INITIALIZATION_COMPLETE;
      if n.simple {
        mti := MTI_INITIALIZATION_COMPLETE_SIMPLE;
      }
      LoadMessage(n.node, mti, [n.node.id]);
      table[k] := n.(node := n.node.(initialized := true), producers := n.producers.(at := Enumerator(true, 0, 0)),
                     consumers := n.consumers.(at := Enumerator(false, 0, 0)));
      valid := true;
      table[k] := RunState(table[k], LOAD_PRODUCER_EVENTS);
      log := [Loaded(k, outgoing.(loopback := false))];
    }

    method LoadProducerEvent(k: nat, mti: nat) returns (log: seq<Event>)
      requires k < table.Length
      modifies this`outgoing, this`valid, this`enumerate, table
      ensures var r := Applied(old(Value()), k, Login.LoadProducerEvent(old(table[k]), mti, old(enumerate)), true);
              Value() == r.state && log == r.events
    {
      var n := table[k];
      var p := n.producers;
      if |p.list| == 0 && |p.ranges| == 0 {
        table[k] := RunState(n.(producers := p.(at := p.at.(running := false))), LOAD_CONSUMER_EVENTS);
        valid := false;
        return [];
      }
      if p.at.rangeIndex < |p.ranges| {
        var r := p.ranges[p.at.rangeIndex];
        LoadMessage(n.node, MTI_PRODUCER_RANGE_IDENTIFIED, [r.start, r.count]);
        table[k] := n.(producers := p.(at := p.at.(rangeIndex := U8(p.at.rangeIndex + 1))));
        enumerate, valid := true, true;
        return [Loaded(k, outgoing.(loopback := false))];
      }
      if p.at.index < |p.list| {
        LoadMessage(n.node, mti, [p.list[p.at.index]]);
        table[k] := n.(producers := p.(at := p.at.(index := U8(p.at.index + 1))));
        enumerate, valid := true, true;
        return [Loaded(k, outgoing.(loopback := false))];
      }
      table[k] := n.(producers := p.(at := Enumerator(false, 0, 0)), consumers := n.consumers.(at := Enumerator(true, 0, 0)));
      enumerate, valid := false, false;
      table[k] := RunState(table[k], LOAD_CONSUMER_EVENTS);
      log := [];
    }

    method LoadConsumerEvent(k: nat, mti: nat) returns (log: seq<Event>)
      requires k < table.Length
      modifies this`outgoing, this`valid, this`enumerate, table
      ensures var r := Applied(old(Value()), k, Login.LoadConsumerEvent(old(table[k]), mti, old(enumerate)), true);
              Value() == r.state && log == r.events
    {
      var n := table[k];
      var c := n.consumers;
      if |c.list| == 0 && |c.ranges| == 0 {
        table[k] := RunState(n.(consumers := c.(at := c.at.(running := false))), LOGIN_COMPLETE);
        valid := false;
        return [];
      }
      if c.at.rangeIndex < |c.ranges| {
        var r := c.ranges[c.at.rangeIndex];
        LoadMessage(n.node, MTI_CONSUMER_RANGE_IDENTIFIED, [r.start, r.count]);
        table[k] := n.(consumers := c.(at := c.at.(rangeIndex := U8(c.at.rangeIndex + 1))));
        enumerate, valid := true, true;
        return [Loaded(k, outgoing.(loopback := false))];
      }
      if c.at.index < |c.list| {
        LoadMessage(n.node, mti, [c.list[c.at.index]]);
        table[k] := n.(consumers := c.(at := c.at.(index := U8(c.at.index + 1))));
        enumerate, valid := true, true;
        return [Loaded(k, outgoing.(loopback := false))];
      }
      table[k] := n.(producers := n.producers.(at := Enumerator(false, 0, 0)), consumers := c.(at := Enumerator(false, 0, 0)));
      enumerate, valid := false, false;
      table[k] := RunState(table[k], LOGIN_COMPLETE);
      log := [];
    }

    method Process(k: nat, input: Input) returns (log: seq<Event>)
      requires k < table.Length
      modifies this`outgoing, this`valid, this`enumerate, table
      ensures var r := Login.Process(old(Value()), k, input);
              Value() == r.state && log == r.events
    {
      hide Login.LoadInitializationComplete, Login.LoadProducerEvent, Login.LoadConsumerEvent;
      log := [];
      ghost var was := table[..];
      assert was[k := was[k]] == was;
      var state := table[k].node.runState;
      if state == LOAD_INITIALIZATION_COMPLETE {
        log := LoadInitializationComplete(k);
      } else if state == LOAD_CONSUMER_EVENTS {
        log := LoadConsumerEvent(k, ConsumerMti(input.status));
      } else if state == LOAD_PRODUCER_EVENTS {
        log := LoadProducerEvent(k, ProducerMti(input.status));
      } else if state == LOGIN_COMPLETE {
        if input.complete {
          table[k] := RunState(table[k], RUNSTATE_RUN);
          assert table[..] == was[k := RunState(was[k], RUNSTATE_RUN)];
        }
      }
    }

    // ---- Sending ----

    method HandleOutgoing(input: Input) returns (log: seq<Event>)
      requires Valid() && valid
      modifies this`outgoing, this`valid, this`sibling, this`siblingDispatchActive, nodes.enumIndex
      ensures Valid()
      ensures var r := SendLogin(old(Value()), input);
              Value() == r.state && log == r.events
    {
      log := [];
      if input.accept {
        log := [Sent(node, outgoing)];
        if nodes.count <= 1 {
          valid := false;
          log := log + [Finished];
        } else {
          sibling := sibling.(attached := true, enumerate := false);
          outgoing := outgoing.(loopback := true);
          var first := nodes.GetFirst(LOGIN_SIBLING_KEY);
          sibling := sibling.(node := first);
          siblingDispatchActive := true;
        }
      }
    }

    method SiblingHandleOutgoing(input: Input) returns (log: seq<Event>)
      requires sibling.valid
      modifies this`sibling
      ensures var r := SendSibling(old(Value()), input);
              Value() == r.state && log == r.events
      ensures sibling.node == old(sibling.node)
    {
      log := [];
      if input.accept {
        log := [SiblingSent(sibling.outgoing)];
        sibling := sibling.(valid := false);
      }
    }

    /** The main protocol handlers on the sibling context. */
    method ProcessSiblingContext(input: Input) returns (log: seq<Event>, handled: bool)
      modifies this`sibling
      ensures Value() == ProcessSibling(old(Value()), input)
      ensures handled == SiblingHandles(old(Value())) && log == LoadEvents(input, handled)
      ensures sibling.node == old(sibling.node) && sibling.attached == old(sibling.attached)
    {
      hide Dispatch.DoesNodeProcess;
      log := [];
      handled := SiblingHandles(Value());
      if handled {
        sibling := sibling.(enumerate := input.handling.enumerate);
        if input.handling.reply.Some? {
          sibling := sibling.(outgoing := input.handling.reply.value, valid := true);
          log := [SiblingLoaded(input.handling.reply.value)];
        }
      }
    }

    method Advance()
      requires Valid() && siblingDispatchActive && sibling.attached && sibling.node.Some?
      modifies this`sibling, this`siblingDispatchActive, nodes.enumIndex
      ensures Valid()
      ensures var next := NextNode(nodes.count, old(sibling.node.value));
              && siblingDispatchActive == next.Some?
              && sibling == old(sibling).(node := next, attached := next.Some?)
    {
      var next := nodes.GetNext(LOGIN_SIBLING_KEY);
      sibling := sibling.(node := next);
      if next.None? {
        siblingDispatchActive := false;
        sibling := sibling.(attached := false);
      }
    }

    /** Shows the announcement to the current sibling, advances, and ends the round after the last one. */
    method DispatchAndAdvance(input: Input) returns (log: seq<Event>)
      requires Valid() && siblingDispatchActive && sibling.attached
      requires sibling.node.Some? && sibling.node.value < table.Length
      modifies this`outgoing, this`valid, this`sibling, this`siblingDispatchActive, nodes.enumIndex
      ensures Valid()
      ensures var r := VisitSibling(old(Value()), input);
              Value() == r.state && log == r.events
    {
      hide Dispatch.DoesNodeProcess, SiblingHandles, ProcessSibling, NextNode;
      var k := sibling.node.value;
      var seen := table[k].node;
      var slotFree := !sibling.valid;
      var loads, handled := [], false;
      if seen.runState == RUNSTATE_RUN {
        loads, handled := ProcessSiblingContext(input);
      }
      log := [Visit(k, outgoing, seen, seen.runState == RUNSTATE_RUN, handled, slotFree)] + loads;
      Advance();
      if !siblingDispatchActive {
        outgoing := outgoing.(loopback := false);
        valid := false;
        log := log + [Finished];
      }
    }

    // ---- Enumerating the nodes ----

    method EnumerateNode(input: Input, first: bool) returns (log: seq<Event>)
      requires Valid() && nodes.count < BYTE && (first <==> node.None?)
      requires node.Some? ==> node.value < table.Length
      modifies this`node, this`outgoing, this`valid, this`enumerate, table, nodes.enumIndex
      ensures Valid()
      ensures var n := nodes.count;
              var r := MoveTo(old(Value()), input, if first then FirstNode(n) else NextNode(n, old(node.value)));
              Value() == r.state && log == r.events
    {
      hide Handle, Applied;
      var next;
      if first {
        next := nodes.GetFirst(LOGIN_KEY);
      } else {
        next := nodes.GetNext(LOGIN_KEY);
      }
      node := next;
      log := [];
      if node.None? {
        return;
      }
      if table[node.value].node.runState < RUNSTATE_RUN {
        log := Process(node.value, input);
      }
    }

    /** Priorities 3 to 5. */
    method HandleIdle(input: Input) returns (log: seq<Event>)
      requires Valid() && Shape(Value())
      modifies this`node, this`outgoing, this`valid, this`enumerate, table, nodes.enumIndex
      ensures Valid()
      ensures var r := Idle(old(Value()), input);
              Value() == r.state && log == r.events
    {
      hide MoveTo, Login.Process;
      if enumerate {
        log := Process(node.value, input);
        return;
      }
      log := EnumerateNode(input, node.None?);
    }

    method Run(input: Input) returns (log: seq<Event>)
      requires Valid() && Shape(Value())
      modifies this, table, nodes.enumIndex
      ensures Valid()
      ensures var r := Step(old(Value()), input);
              Value() == r.state && log == r.events
    {
      hide SendLogin, SendSibling, ProcessSibling, SiblingHandles, VisitSibling, Idle;
      if !siblingDispatchActive {
        if valid {
          log := HandleOutgoing(input);
          return;
        }
      }
      if siblingDispatchActive {
        if sibling.valid {
          log := SiblingHandleOutgoing(input);
          return;
        }
        if sibling.enumerate {
          var at := sibling.node;
          var loads, handled := ProcessSiblingContext(input);
          return [SiblingReentry(at, handled)] + loads;
        }
        if sibling.node.Some? {
          log := DispatchAndAdvance(input);
          return;
        }
        siblingDispatchActive := false;
      }
      log := HandleIdle(input);
    }
  }
}
