/** The effect cycle of a light string: blink and flicker counters per lead, and the colours shown. */
module Effects {
  import opened Words

  const MAX_LEADS: nat := 3

  datatype LeadConfig = LeadConfig(intensity: nat, cyclesOn: nat, cyclesOff: nat, startingCycle: nat, effect: nat, group: nat)

  /** Run-time state of a lead; count is a uint8_t. */
  datatype Lead = Lead(state: bool, count: nat)

  predicate Counts(effect: nat) {
    effect == 2 || effect == 3
  }

  /** When a counting lead's count is spent it changes state and takes the count of the new state. */
  function Turned(c: LeadConfig, lit: bool, lead: Lead, roll: nat): Lead {
    if lit && Counts(c.effect) && lead.count == 0 then
      Lead(!lead.state, U8(if c.effect == 3 then roll else if lead.state then c.cyclesOff else c.cyclesOn))
    else lead
  }

  /** One effect cycle of one lead; the count runs down in every cycle, wrapping as a byte. */
  function LeadCycle(c: LeadConfig, lit: bool, lead: Lead, roll: nat): Lead {
    var t := Turned(c, lit, lead, roll);
    t.(count := U8(t.count - 1))
  }

  /** The brightness a lead shows in a cycle. */
  function Shown(c: LeadConfig, lit: bool, lead: Lead, roll: nat): nat {
    if !lit || c.effect == 0 then 0
    else if Counts(c.effect) && !Turned(c, lit, lead, roll).state then 0
    else c.intensity
  }

  class LightString {
    const heads: nat
    const config: seq<seq<LeadConfig>>
    const leads: array2<Lead>
    const pixels: array2<nat>

    ghost predicate Valid() {
      && |config| == heads && leads.Length0 == pixels.Length0 == heads
      && leads.Length1 == pixels.Length1 == MAX_LEADS
      && leads as object != pixels as object
      && forall j :: 0 <= j < heads ==> |config[j]| == MAX_LEADS
    }

    /** Leads start in the state their configured starting cycle names, with nothing left to count. */
    constructor (config: seq<seq<LeadConfig>>)
      requires forall j :: 0 <= j < |config| ==> |config[j]| == MAX_LEADS
      ensures Valid() && this.config == config
      ensures forall j, k :: 0 <= j < heads && 0 <= k < MAX_LEADS ==>
                leads[j, k] == Lead(config[j][k].startingCycle != 0, 0)
    {
      this.config := config;
      heads := |config|;
      leads := new Lead[|config|, MAX_LEADS]((j, k) requires 0 <= j < |config| && 0 <= k < MAX_LEADS =>
        Lead(config[j][k].startingCycle != 0, 0));
      pixels := new nat[|config|, MAX_LEADS]((j, k) => 0);
    }

    /** One cycle of every lead: each moves by its own configuration, its own group and its own state. */
    method ProcessEffects(groupState: seq<bool>, roll: (nat, nat) -> nat)
      requires Valid()
      requires forall j, k :: 0 <= j < heads && 0 <= k < MAX_LEADS ==> config[j][k].group < |groupState|
      modifies leads, pixels
      ensures forall j, k :: 0 <= j < heads && 0 <= k < MAX_LEADS ==>
                var c := config[j][k];
                var lit := groupState[c.group];
                && leads[j, k] == LeadCycle(c, lit, old(leads[j, k]), roll(j, k))
                && pixels[j, k] == Shown(c, lit, old(leads[j, k]), roll(j, k))
    {
      for j := 0 to heads
        invariant forall h, k :: j <= h < heads && 0 <= k < MAX_LEADS ==> leads[h, k] == old(leads[h, k])
        invariant forall h, k :: 0 <= h < j && 0 <= k < MAX_LEADS ==>
                    var c := config[h][k];
                    var lit := groupState[c.group];
                    && leads[h, k] == LeadCycle(c, lit, old(leads[h, k]), roll(h, k))
                    && pixels[h, k] == Shown(c, lit, old(leads[h, k]), roll(h, k))
      {
        for k := 0 to MAX_LEADS
          invariant forall h, l :: 0 <= h < heads && 0 <= l < MAX_LEADS && (h > j || (h == j && l >= k)) ==>
                      leads[h, l] == old(leads[h, l])
          invariant forall h, l :: 0 <= h < heads && 0 <= l < MAX_LEADS && (h < j || (h == j && l < k)) ==>
                      var c := config[h][l];
                      var lit := groupState[c.group];
                      && leads[h, l] == LeadCycle(c, lit, old(leads[h, l]), roll(h, l))
                      && pixels[h, l] == Shown(c, lit, old(leads[h, l]), roll(h, l))
        {
          ProcessLead(j, k, groupState[config[j][k].group], roll(j, k));
        }
      }
    }

    /** The body of the inner loop. */
    method ProcessLead(j: nat, k: nat, lit: bool, roll: nat)
      requires Valid() && j < heads && k < MAX_LEADS
      modifies leads, pixels
      ensures leads[j, k] == LeadCycle(config[j][k], lit, old(leads[j, k]), roll)
      ensures pixels[j, k] == Shown(config[j][k], lit, old(leads[j, k]), roll)
      ensures forall h, l :: 0 <= h < heads && 0 <= l < MAX_LEADS && (h != j || l != k) ==>
                leads[h, l] == old(leads[h, l]) && pixels[h, l] == old(pixels[h, l])
    {
      var c := config[j][k];
      var colour := c.intensity;
      if lit {
        match c.effect {
          case 0 => colour := 0;
          case 1 =>
          case 2 =>
            if leads[j, k].count == 0 {
              if leads[j, k].state {
                leads[j, k] := Lead(false, U8(c.cyclesOff));
              } else {
                leads[j, k] := Lead(true, U8(c.cyclesOn));
              }
            }
            if !leads[j, k].state { colour := 0; }
          case 3 =>
            if leads[j, k].count == 0 {
              if leads[j, k].state {
                leads[j, k] := Lead(false, U8(roll));
              } else {
                leads[j, k] := Lead(true, U8(roll));
              }
            }
            if !leads[j, k].state { colour := 0; }
          case _ =>
        }
      } else {
        colour := 0;
      }
      leads[j, k] := leads[j, k].(count := U8(leads[j, k].count - 1));
      pixels[j, k] := colour;
    }
  }

  // ---- The blink in closed form ----

  /** n cycles of a blinking lead whose group is on. */
  function Cycles(c: LeadConfig, lead: Lead, n: nat): Lead {
    if n == 0 then lead else LeadCycle(c, true, Cycles(c, lead, n - 1), 0)
  }

  /** How long a configured number of cycles lasts: a byte of 0 runs through the wrap. */
  function Lasting(cycles: nat): nat {
    if cycles == 0 then 256 else cycles
  }

  function PhaseLength(c: LeadConfig, state: bool): nat {
    Lasting(if state then c.cyclesOn else c.cyclesOff)
  }

  /** State and remaining count at position p of the period that starts by leaving the given state. */
  function AtPosition(c: LeadConfig, state: bool, p: nat): Lead
    requires p < PhaseLength(c, true) + PhaseLength(c, false)
  {
    var first := PhaseLength(c, !state);
    if p < first then Lead(!state, first - 1 - p)
    else Lead(state, first + PhaseLength(c, state) - 1 - p)
  }

  function Period(c: LeadConfig): nat {
    PhaseLength(c, true) + PhaseLength(c, false)
  }

  lemma NextPosition(c: LeadConfig, state: bool, p: nat)
    requires c.effect == 2 && c.cyclesOn < BYTE && c.cyclesOff < BYTE && p < Period(c)
    ensures LeadCycle(c, true, AtPosition(c, state, p), 0) ==
            AtPosition(c, state, if p + 1 == Period(c) then 0 else p + 1)
  {
  }

  /**
   From a spent count a blinking lead is periodic: it first leaves its state for that state's
   opposite, stays there for the opposite's configured cycles, comes back for its own, and repeats.
   A configured 0 lasts 256 cycles.
   */
  lemma {:induction false} BlinkClosedForm(c: LeadConfig, state: bool, n: nat)
    requires c.effect == 2 && c.cyclesOn < BYTE && c.cyclesOff < BYTE && n >= 1
    ensures Cycles(c, Lead(state, 0), n) == AtPosition(c, state, (n - 1) % Period(c))
  {
    hide AtPosition, LeadCycle, Period;
    PositivePeriod(c);
    if n == 1 {
      FirstCycle(c, state);
      assert Cycles(c, Lead(state, 0), 0) == Lead(state, 0);
      DivModUnique(0, Period(c), 0, 0);
    } else {
      BlinkClosedForm(c, state, n - 1);
      var p := (n - 2) % Period(c);
      NextPosition(c, state, p);
      NextInPeriod(n - 2, Period(c));
    }
  }

  lemma PositivePeriod(c: LeadConfig)
    ensures Period(c) == PhaseLength(c, true) + PhaseLength(c, false) && Period(c) >= 2
  {
  }

  lemma FirstCycle(c: LeadConfig, state: bool)
    requires c.effect == 2 && c.cyclesOn < BYTE && c.cyclesOff < BYTE
    ensures LeadCycle(c, true, Lead(state, 0), 0) == AtPosition(c, state, 0)
  {
  }

  lemma NextInPeriod(x: nat, m: nat)
    requires m >= 2
    ensures (x + 1) % m == if x % m + 1 == m then 0 else x % m + 1
  {
    ModAdd(x, 1, m);
    var y := x % m + 1;
    if y == m { DivModUnique(y, m, 1, 0); } else { DivModUnique(y, m, 0, y); }
  }

  /** Until its count is spent a lead keeps its state. */
  lemma {:induction false} CountsDown(c: LeadConfig, lead: Lead, n: nat)
    requires c.effect == 2 && n <= lead.count < BYTE
    ensures Cycles(c, lead, n) == lead.(count := lead.count - n)
  {
    if n > 0 { CountsDown(c, lead, n - 1); }
  }

  lemma {:induction false} CyclesSplit(c: LeadConfig, lead: Lead, m: nat, n: nat)
    ensures Cycles(c, lead, m + n) == Cycles(c, Cycles(c, lead, m), n)
  {
    hide LeadCycle;
    if n > 0 { CyclesSplit(c, lead, m, n - 1); }
  }

  /** The closed form from any state: the rest of the current count, then the periodic blink. */
  lemma BlinkFromAnyState(c: LeadConfig, lead: Lead, n: nat)
    requires c.effect == 2 && c.cyclesOn < BYTE && c.cyclesOff < BYTE && lead.count < BYTE
    ensures Cycles(c, lead, n) ==
            if n <= lead.count then lead.(count := lead.count - n)
            else AtPosition(c, lead.state, (n - lead.count - 1) % Period(c))
  {
    if n <= lead.count {
      CountsDown(c, lead, n);
    } else {
      CountsDown(c, lead, lead.count);
      CyclesSplit(c, lead, lead.count, n - lead.count);
      BlinkClosedForm(c, lead.state, n - lead.count);
    }
  }

  // ---- Any lead, cycle by cycle ----

  /** n cycles of a lead; lit[i] is its group's flag and rolls[i] the random count of cycle i. */
  function RunCycles(c: LeadConfig, lead: Lead, lit: seq<bool>, rolls: seq<nat>, n: nat): Lead
    requires n <= |lit| == |rolls|
  {
    if n == 0 then lead else LeadCycle(c, lit[n - 1], RunCycles(c, lead, lit, rolls, n - 1), rolls[n - 1])
  }

  /** What the lead shows in cycle i. */
  function ShownIn(c: LeadConfig, lead: Lead, lit: seq<bool>, rolls: seq<nat>, i: nat): nat
    requires i < |lit| == |rolls|
  {
    Shown(c, lit[i], RunCycles(c, lead, lit, rolls, i), rolls[i])
  }

  /** How long the phase lasts that begins by leaving the given state: blinking as configured, flickering at random. */
  function PhaseOf(c: LeadConfig, state: bool, roll: nat): nat {
    if c.effect == 3 then (if U8(roll) == 0 then 256 else U8(roll))
    else if state then (if c.cyclesOff == 0 then 256 else c.cyclesOff)
    else if c.cyclesOn == 0 then 256 else c.cyclesOn
  }

  /**
   A blinking or flickering lead whose count is spent leaves its state, and stays for the whole phase in the other, dark
   or at its intensity, until its count is spent again; the random counts drawn meanwhile do not matter.
   */
  lemma {:induction false} PhaseHolds(c: LeadConfig, state: bool, lit: seq<bool>, rolls: seq<nat>, n: nat)
    requires (c.effect == 2 || c.effect == 3) && c.cyclesOn < BYTE && c.cyclesOff < BYTE
    requires |lit| == |rolls| && (forall i :: 0 <= i < |lit| ==> lit[i])
    requires 1 <= n <= |lit| && n <= PhaseOf(c, state, rolls[0])
    ensures RunCycles(c, Lead(state, 0), lit, rolls, n) == Lead(!state, PhaseOf(c, state, rolls[0]) - n)
    ensures ShownIn(c, Lead(state, 0), lit, rolls, n - 1) == if state then 0 else c.intensity
  {
    if n == 1 {
      assert RunCycles(c, Lead(state, 0), lit, rolls, 0) == Lead(state, 0);
    } else {
      PhaseHolds(c, state, lit, rolls, n - 1);
    }
  }

  /**
   Any lead while its group is off, and a lead that neither blinks nor flickers at any time: its state stays and its count
   runs down as a byte. With the group off, or no effect, it is dark; else it is at its intensity.
   */
  lemma {:induction false} SteadyLead(c: LeadConfig, lead: Lead, lit: seq<bool>, rolls: seq<nat>, n: nat)
    requires |lit| == |rolls| && n <= |lit| && lead.count < BYTE
    requires forall i :: 0 <= i < |lit| && lit[i] ==> c.effect != 2 && c.effect != 3
    ensures RunCycles(c, lead, lit, rolls, n) == Lead(lead.state, U8(lead.count - n))
    ensures n > 0 ==> ShownIn(c, lead, lit, rolls, n - 1) == if lit[n - 1] && c.effect != 0 then c.intensity else 0
  {
    if n == 0 {
      DivModUnique(lead.count, 256, 0, lead.count);
    } else {
      SteadyLead(c, lead, lit, rolls, n - 1);
      ModAdd(lead.count - (n - 1), -1, 256);
    }
  }
}
