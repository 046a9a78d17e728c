/** What any sequence of events does to the lights, by the events' indices: what was set last, and how often toggled since. */
module LightEvents {
  import opened Lights

  /** The panel after a sequence of events. */
  function PressedAll(p: Panel, n: nat, events: seq<nat>): (q: Panel)
    requires p.Valid() && forall i :: 0 <= i < |events| ==> events[i] < EVENTS
    ensures q.Valid()
  {
    if events == [] then p else Pressed(PressedAll(p, n, events[..|events| - 1]), n, events[|events| - 1])
  }

  /** The events that concern one flag: those that set it, those that clear it and those that toggle it. */
  datatype Wiring = Wiring(sets: set<nat>, clears: set<nat>, toggles: set<nat>)

  /** The last event that sets or clears the flag, by position; -1 if none does. */
  function LastSetting(w: Wiring, events: seq<nat>): (i: int)
    ensures -1 <= i < |events|
  {
    if events == [] then -1
    else if events[|events| - 1] in w.sets + w.clears then |events| - 1
    else LastSetting(w, events[..|events| - 1])
  }

  /** How many events after position i toggle it. */
  function TogglesAfter(w: Wiring, events: seq<nat>, i: int): nat
    requires -1 <= i < |events|
    decreases |events|
  {
    if i == |events| - 1 then 0
    else TogglesAfter(w, events[..|events| - 1], i) + if events[|events| - 1] in w.toggles then 1 else 0
  }

  /** What the events leave of a flag. */
  function Left(w: Wiring, initial: bool, events: seq<nat>): bool {
    var i := LastSetting(w, events);
    var settled := if i < 0 then initial else events[i] in w.sets;
    if TogglesAfter(w, events, i) % 2 == 0 then settled else !settled
  }

  /** The flag after one event. */
  predicate Follows(w: Wiring, before: bool, event: nat, now: bool) {
    now == if event in w.sets then true else if event in w.clears then false
           else if event in w.toggles then !before else before
  }

  lemma LeftFollows(w: Wiring, initial: bool, events: seq<nat>)
    requires events != [] && w.sets !! w.clears && w.toggles !! w.sets + w.clears
    ensures Follows(w, Left(w, initial, events[..|events| - 1]), events[|events| - 1], Left(w, initial, events))
  {
    var front := events[..|events| - 1];
    var i := LastSetting(w, front);
    if i >= 0 { assert front[i] == events[i]; }
  }

  // ---- The wiring of the 42 events ----

  function GroupWiring(g: nat): Wiring {
    Wiring({2 + 2 * g}, {3 + 2 * g}, {})
  }

  /** Of string s when n are configured. */
  function OnWiring(s: nat, n: nat): Wiring {
    Wiring({14 + 7 * s, 20 + 7 * s} + (if s < n then {0, 1} else {}), {15 + 7 * s}, {16 + 7 * s})
  }

  function EffectsWiring(s: nat): Wiring {
    Wiring({17 + 7 * s}, {18 + 7 * s}, {19 + 7 * s})
  }

  function DimWiring(s: nat, n: nat): Wiring {
    Wiring(if s < n then {1} else {}, if s < n then {0} else {}, {20 + 7 * s})
  }

  lemma GroupFollows(p: Panel, n: nat, event: nat, g: nat)
    requires p.Valid() && event < EVENTS && g < MAX_GROUPS
    ensures Follows(GroupWiring(g), p.groups[g], event, Pressed(p, n, event).groups[g])
  {
    DecodeCases(event);
  }

  lemma StringFollows(p: Panel, n: nat, event: nat, s: nat)
    requires p.Valid() && event < EVENTS && s < MAX_STRINGS
    ensures Follows(OnWiring(s, n), p.on[s], event, Pressed(p, n, event).on[s])
    ensures Follows(EffectsWiring(s), p.effects[s], event, Pressed(p, n, event).effects[s])
    ensures Follows(DimWiring(s, n), p.dim[s], event, Pressed(p, n, event).dim[s])
  {
    DecodeCases(event);
  }

  /** After any events a group is on exactly if the last of its two events was the one that switches it on. */
  lemma {:induction false} GroupsOverRun(p: Panel, n: nat, events: seq<nat>, g: nat)
    requires p.Valid() && (forall i :: 0 <= i < |events| ==> events[i] < EVENTS) && g < MAX_GROUPS
    ensures PressedAll(p, n, events).groups[g] == Left(GroupWiring(g), p.groups[g], events)
  {
    hide Pressed, Left;
    if events == [] {
      LeftOfNothing(GroupWiring(g), p.groups[g]);
    } else {
      var front := events[..|events| - 1];
      GroupsOverRun(p, n, front, g);
      GroupFollows(PressedAll(p, n, front), n, events[|events| - 1], g);
      LeftFollows(GroupWiring(g), p.groups[g], events);
    }
  }

  lemma LeftOfNothing(w: Wiring, initial: bool)
    ensures Left(w, initial, []) == initial
  {
  }

  /**
   After any events: whether a string is on, runs effects and is dimmed is what the last event that sets or clears it
   said, toggled as often as events have toggled it since. Toggling the dimmer turns the string on, and so does every
   change of luminance.
   */
  lemma {:induction false} StringsOverRun(p: Panel, n: nat, events: seq<nat>, s: nat)
    requires p.Valid() && (forall i :: 0 <= i < |events| ==> events[i] < EVENTS) && s < MAX_STRINGS
    ensures var q := PressedAll(p, n, events);
            && q.on[s] == Left(OnWiring(s, n), p.on[s], events)
            && q.effects[s] == Left(EffectsWiring(s), p.effects[s], events)
            && q.dim[s] == Left(DimWiring(s, n), p.dim[s], events)
  {
    hide Pressed, Left;
    if events == [] {
      LeftOfNothing(OnWiring(s, n), p.on[s]);
      LeftOfNothing(EffectsWiring(s), p.effects[s]);
      LeftOfNothing(DimWiring(s, n), p.dim[s]);
    } else {
      var front := events[..|events| - 1];
      StringsOverRun(p, n, front, s);
      StringFollows(PressedAll(p, n, front), n, events[|events| - 1], s);
      LeftFollows(OnWiring(s, n), p.on[s], events);
      LeftFollows(EffectsWiring(s), p.effects[s], events);
      LeftFollows(DimWiring(s, n), p.dim[s], events);
    }
  }
}
