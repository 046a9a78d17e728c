/** The filter in front of every handler, by what it lets through. */
module DispatchFilter {
  import opened Words
  import opened Dispatch

  /** Bit 3 of an MTI: the message carries a destination. */
  predicate HasDestination(mti: nat)
    requires mti < WORD
  {
    (mti as bv16) & 0x0008 != 0
  }

  lemma BitThree(x: bv16)
    ensures x & 0x0008 != 0 <==> x / 8 % 2 == 1
  {
  }

  lemma AddressedIsBitThree(mti: nat)
    requires mti < WORD
    ensures Addressed(mti) <==> HasDestination(mti)
  {
    BitThree(mti as bv16);
  }

  /** The message is meant for a node with this alias and identifier. */
  predicate MeantFor(alias: nat, id: nat, m: Msg)
    requires m.mti < WORD
  {
    HasDestination(m.mti) && m.mti != 0x0490 ==> alias == m.destAlias || id == m.destId
  }

  /** A node acts on a message: it is initialized, the message is meant for it, and it is not its own coming back. */
  predicate ActsOn(seen: Node, m: Msg)
    requires m.mti < WORD
  {
    seen.initialized && MeantFor(seen.alias, seen.id, m) && !(m.loopback && m.sourceId == seen.id)
  }

  lemma FilterIs(seen: Node, m: Msg)
    requires m.mti < WORD
    ensures DoesNodeProcess(seen, m) <==> ActsOn(seen, m)
  {
    hide HasDestination, Addressed;
    AddressedIsBitThree(m.mti);
  }
}
