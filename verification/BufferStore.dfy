/** The reference-counted message pool, in four segments by payload size. */
module BufferStore {
  import opened Words

  datatype PayloadType = Basic | Datagram | Snip | Stream | Worker

  /** A message structure of the pool; fields no buffer module reads are not here. */
  class Msg {
    var payloadType: PayloadType
    var inUse: bool
    var inprocess: bool
    var invalid: bool
    var referenceCount: nat
    var mti: nat
    var sourceAlias: nat
    var destAlias: nat
    var assemblyTicks: nat

    constructor (payloadType: PayloadType)
      ensures this.payloadType == payloadType && !inUse && !inprocess && !invalid && referenceCount == 0
    {
      this.payloadType := payloadType;
      inUse, inprocess, invalid, referenceCount := false, false, false, 0;
      mti, sourceAlias, destAlias, assemblyTicks := 0, 0, 0, 0;
    }

    /** Zeroes the message but keeps its payload buffer and payload type. */
    method Clear()
      modifies this
      ensures payloadType == old(payloadType)
      ensures !inUse && !inprocess && !invalid && referenceCount == 0
      ensures mti == 0 && sourceAlias == 0 && destAlias == 0 && assemblyTicks == 0
    {
      inUse, inprocess, invalid, referenceCount := false, false, false, 0;
      mti, sourceAlias, destAlias, assemblyTicks := 0, 0, 0, 0;
    }
  }

  // ---- The pool on values ----

  datatype Slot = Slot(inUse: bool, refs: nat)

  /** Depths of the four segments; each at least 1 and together at most 65535. */
  datatype Depths = Depths(basic: nat, datagram: nat, snip: nat, stream: nat)
  {
    predicate Valid() {
      basic >= 1 && datagram >= 1 && snip >= 1 && stream >= 1 && Total() < WORD
    }

    function Total(): nat { basic + datagram + snip + stream }

    function Start(t: PayloadType): nat {
      match t
      case Basic => 0
      case Datagram => basic
      case Snip => basic + datagram
      case Stream => basic + datagram + snip
      case Worker => 0
    }

    /** One past the segment's last slot; nothing is inUse for workers. */
    function End(t: PayloadType): nat {
      match t
      case Basic => basic
      case Datagram => basic + datagram
      case Snip => basic + datagram + snip
      case Stream => Total()
      case Worker => 0
    }

    function TypeOf(i: nat): PayloadType {
      if i < basic then Basic
      else if i < basic + datagram then Datagram
      else if i < basic + datagram + snip then Snip
      else Stream
    }
  }

  lemma SegmentsPartition(d: Depths, t: PayloadType, i: nat)
    requires i < d.Total()
    ensures d.Start(t) <= i < d.End(t) <==> d.TypeOf(i) == t
    ensures d.Start(t) <= d.End(t) <= d.Total()
  {
  }

  /** One uint16_t counter per segment. */
  datatype Tally = Tally(basic: nat, datagram: nat, snip: nat, stream: nat)
  {
    function Of(t: PayloadType): nat {
      match t
      case Basic => basic
      case Datagram => datagram
      case Snip => snip
      case Stream => stream
      case Worker => 0
    }

    function With(t: PayloadType, n: nat): Tally {
      match t
      case Basic => this.(basic := n)
      case Datagram => this.(datagram := n)
      case Snip => this.(snip := n)
      case Stream => this.(stream := n)
      case Worker => this
    }
  }

  datatype Pool = Pool(slots: seq<Slot>, counts: Tally, peaks: Tally)

  predicate WellShaped(d: Depths, p: Pool) {
    d.Valid() && |p.slots| == d.Total()
  }

  function FirstFree(slots: seq<Slot>, lo: nat, hi: nat): (r: Option<nat>)
    requires lo <= hi <= |slots|
    ensures r.Some? ==> lo <= r.value < hi && !slots[r.value].inUse
                        && forall i :: lo <= i < r.value ==> slots[i].inUse
    ensures r.None? ==> forall i :: lo <= i < hi ==> slots[i].inUse
    decreases hi - lo
  {
    if lo == hi then None
    else if !slots[lo].inUse then Some(lo)
    else FirstFree(slots, lo + 1, hi)
  }

  function Allocated(d: Depths, p: Pool, t: PayloadType): Option<nat>
    requires WellShaped(d, p)
  {
    FirstFree(p.slots, d.Start(t), d.End(t))
  }

  function Max(a: nat, b: nat): nat {
    if a < b then b else a
  }

  function Allocate(d: Depths, p: Pool, t: PayloadType): Pool
    requires WellShaped(d, p)
  {
    match Allocated(d, p, t)
    case None => p
    case Some(i) =>
      Pool(p.slots[i := Slot(true, 1)], CountUp(p.counts, t), PeakUp(p.counts, p.peaks, t))
  }

  function CountUp(counts: Tally, t: PayloadType): Tally {
    counts.With(t, U16(counts.Of(t) + 1))
  }

  function PeakUp(counts: Tally, peaks: Tally, t: PayloadType): Tally {
    peaks.With(t, Max(peaks.Of(t), U16(counts.Of(t) + 1)))
  }

  function CountDown(counts: Tally, t: PayloadType): Tally {
    counts.With(t, U16((counts.Of(t) as int) - 1))
  }

  /** Dropping one reference; the byte wraps, and reaching 0 gives the slot back. */
  function Free(d: Depths, p: Pool, i: nat): Pool
    requires WellShaped(d, p) && i < d.Total()
  {
    var refs := U8((p.slots[i].refs as int) - 1);
    if refs > 0 then p.(slots := p.slots[i := p.slots[i].(refs := refs)])
    else p.(slots := p.slots[i := Slot(false, 0)], counts := CountDown(p.counts, d.TypeOf(i)))
  }

  /** One reference dropped on each of the given slots, in that order. */
  function FreeAll(d: Depths, p: Pool, order: seq<nat>): (r: Pool)
    requires WellShaped(d, p) && forall k :: 0 <= k < |order| ==> order[k] < d.Total()
    ensures WellShaped(d, r)
  {
    if order == [] then p else Free(d, FreeAll(d, p, order[..|order| - 1]), order[|order| - 1])
  }

  function Reference(p: Pool, i: nat): Pool
    requires i < |p.slots|
  {
    p.(slots := p.slots[i := p.slots[i].(refs := U8(p.slots[i].refs + 1))])
  }

  function ClearPeaks(p: Pool): Pool {
    p.(peaks := Tally(0, 0, 0, 0))
  }

  twostate predicate OnlyReferencesChange(m: Msg)
    reads m
  {
    && m.payloadType == old(m.payloadType) && m.inprocess == old(m.inprocess) && m.invalid == old(m.invalid)
    && m.mti == old(m.mti) && m.sourceAlias == old(m.sourceAlias) && m.destAlias == old(m.destAlias)
    && m.assemblyTicks == old(m.assemblyTicks)
  }

  /** Nothing is left of the message that was in the buffer before. */
  predicate Blank(m: Msg)
    reads m
  {
    && !m.inprocess && !m.invalid
    && m.mti == 0 && m.sourceAlias == 0 && m.destAlias == 0 && m.assemblyTicks == 0
  }

  class Store {
    const depths: Depths
    const messages: array<Msg>
    var basicCount: nat
    var datagramCount: nat
    var snipCount: nat
    var streamCount: nat
    var basicPeak: nat
    var datagramPeak: nat
    var snipPeak: nat
    var streamPeak: nat

    ghost predicate Valid()
      reads messages, messages[..]
    {
      && depths.Valid() && messages.Length == depths.Total()
      && (forall i, j :: 0 <= i < j < messages.Length ==> messages[i] != messages[j])
      && forall i :: 0 <= i < messages.Length ==> messages[i].payloadType == depths.TypeOf(i)
    }

    ghost function Slots(): (s: seq<Slot>)
      reads messages, messages[..]
      ensures |s| == messages.Length
      ensures forall i :: 0 <= i < |s| ==> s[i] == Slot(messages[i].inUse, messages[i].referenceCount)
    {
      seq(messages.Length, i requires 0 <= i < messages.Length reads messages, messages[..] =>
        Slot(messages[i].inUse, messages[i].referenceCount))
    }

    function Counts(): Tally
      reads this
    {
      Tally(basicCount, datagramCount, snipCount, streamCount)
    }

    function Peaks(): Tally
      reads this
    {
      Tally(basicPeak, datagramPeak, snipPeak, streamPeak)
    }

    ghost function Value(): Pool
      reads this, messages, messages[..]
    {
      Pool(Slots(), Counts(), Peaks())
    }

    /** All slots free, payload types by segment, counters at zero. */
    constructor (depths: Depths)
      requires depths.Valid()
      ensures Valid() && this.depths == depths && fresh(messages) && fresh(set m | m in messages[..])
      ensures WellShaped(depths, Value())
      ensures forall i :: 0 <= i < messages.Length ==> Value().slots[i] == Slot(false, 0)
      ensures Value().counts == Value().peaks == Tally(0, 0, 0, 0)
    {
      this.depths := depths;
      basicCount, datagramCount, snipCount, streamCount := 0, 0, 0, 0;
      basicPeak, datagramPeak, snipPeak, streamPeak := 0, 0, 0, 0;
      var first := new Msg(Basic);
      var a := new Msg[depths.Total()](i => first);
      messages := a;
      new;
      for i := 0 to depths.Total()
        invariant fresh(a) && messages == a
        invariant forall j :: 0 <= j < i ==> fresh(a[j]) && a[j] != first
        invariant forall j, k :: 0 <= j < k < i ==> a[j] != a[k]
        invariant forall j :: 0 <= j < i ==>
                    a[j].payloadType == depths.TypeOf(j) && !a[j].inUse && a[j].referenceCount == 0
        invariant basicCount == datagramCount == snipCount == streamCount == 0
        invariant basicPeak == datagramPeak == snipPeak == streamPeak == 0
      {
        var m := new Msg(depths.TypeOf(i));
        a[i] := m;
      }
    }

    method UpdateTelemetry(t: PayloadType)
      modifies this
      ensures Counts() == CountUp(old(Counts()), t)
      ensures Peaks() == PeakUp(old(Counts()), old(Peaks()), t)
    {
      match t {
        case Basic =>
          basicCount := U16(basicCount + 1);
          if basicCount > basicPeak { basicPeak := basicCount; }
        case Datagram =>
          datagramCount := U16(datagramCount + 1);
          if datagramCount > datagramPeak { datagramPeak := datagramCount; }
        case Snip =>
          snipCount := U16(snipCount + 1);
          if snipCount > snipPeak { snipPeak := snipCount; }
        case Stream =>
          streamCount := U16(streamCount + 1);
          if streamCount > streamPeak { streamPeak := streamCount; }
        case Worker =>
      }
    }

    method CountDownFor(t: PayloadType)
      modifies this`basicCount, this`datagramCount, this`snipCount, this`streamCount
      ensures Counts() == CountDown(old(Counts()), t)
    {
      match t {
        case Basic => basicCount := U16((basicCount as int) - 1);
        case Datagram => datagramCount := U16((datagramCount as int) - 1);
        case Snip => snipCount := U16((snipCount as int) - 1);
        case Stream => streamCount := U16((streamCount as int) - 1);
        case Worker =>
      }
    }

    method SegmentBounds(t: PayloadType) returns (start: nat, end: nat)
      ensures start == depths.Start(t) && end == depths.End(t)
      ensures start <= end <= depths.Total()
    {
      match t {
        case Basic => start, end := 0, depths.basic;
        case Datagram => start, end := depths.basic, depths.basic + depths.datagram;
        case Snip =>
          start := depths.basic + depths.datagram;
          end := start + depths.snip;
        case Stream =>
          start := depths.basic + depths.datagram + depths.snip;
          end := start + depths.stream;
        case Worker => start, end := 0, 0;
      }
    }

    /** The first free slot of a segment. */
    method FindFree(start: nat, end: nat) returns (slot: Option<nat>)
      requires Valid() && start <= end <= depths.Total()
      ensures |Slots()| == messages.Length == depths.Total() && depths.Valid()
      ensures slot == FirstFree(Slots(), start, end)
    {
      ghost var v := Slots();
      for i := start to end
        invariant FirstFree(v, start, end) == FirstFree(v, i, end)
      {
        if !messages[i].inUse {
          return Some(i);
        }
      }
      return None;
    }

    /** A cleared message with its first reference. */
    method Take(i: nat)
      requires Valid() && i < messages.Length
      modifies messages[i]
      ensures Valid() && Slots() == old(Slots())[i := Slot(true, 1)]
      ensures Blank(messages[i]) && messages[i].payloadType == depths.TypeOf(i)
    {
      var m := messages[i];
      m.Clear();
      m.referenceCount := 1;
      m.inUse := true;
    }

    method AllocateBuffer(t: PayloadType) returns (msg: Msg?)
      requires Valid()
      modifies this, messages[..]
      ensures Valid()
      ensures Value() == Allocate(depths, old(Value()), t)
      ensures match Allocated(depths, old(Value()), t)
              case None => msg == null
              case Some(i) => i < messages.Length && msg == messages[i] && Blank(msg) && msg.payloadType == t
    {
      hide CountUp, PeakUp, Depths.Start, Depths.End, Depths.TypeOf, FirstFree, Store.Valid, Depths.Total;
      var start, end := SegmentBounds(t);
      var slot := FindFree(start, end);
      if slot.None? {
        return null;
      }
      var i := slot.value;
      SegmentsPartition(depths, t, i);
      Take(i);
      UpdateTelemetry(messages[i].payloadType);
      return messages[i];
    }

    /** One reference less; the message is free when none is left. */
    method DropReference(msg: Msg, ghost i: nat) returns (last: bool)
      requires Valid() && i < messages.Length && msg == messages[i]
      modifies msg
      ensures Valid() && OnlyReferencesChange(msg)
      ensures var refs := U8((old(Slots())[i].refs as int) - 1);
              && last == (refs == 0)
              && Slots() == old(Slots())[i := if last then Slot(false, 0) else old(Slots())[i].(refs := refs)]
    {
      msg.referenceCount := U8((msg.referenceCount as int) - 1);
      last := msg.referenceCount == 0;
      if last {
        msg.referenceCount := 0;
        msg.inUse := false;
      }
    }

    /** Gives back one reference of a pool message; NULL is ignored. */
    method FreeBuffer(msg: Msg?, ghost i: nat)
      requires Valid() && (msg != null ==> i < messages.Length && msg == messages[i])
      modifies this`basicCount, this`datagramCount, this`snipCount, this`streamCount
      modifies if msg == null then {} else {msg}
      ensures Valid()
      ensures Value() == if msg == null then old(Value()) else Free(depths, old(Value()), i)
      ensures msg != null ==> OnlyReferencesChange(msg)
    {
      hide CountDown, Depths.TypeOf;
      if msg == null {
        return;
      }
      var last := DropReference(msg, i);
      if last {
        CountDownFor(msg.payloadType);
      }
    }

    method IncReferenceCount(msg: Msg, ghost i: nat)
      requires Valid() && i < messages.Length && msg == messages[i]
      modifies msg
      ensures Valid() && Value() == Reference(old(Value()), i)
    {
      ghost var v := Value();
      msg.referenceCount := U8(msg.referenceCount + 1);
      assert Slots() == v.slots[i := v.slots[i].(refs := msg.referenceCount)];
    }

    method ClearMaxAllocated()
      modifies this`basicPeak, this`datagramPeak, this`snipPeak, this`streamPeak
      ensures Value() == ClearPeaks(old(Value()))
    {
      basicPeak, datagramPeak, snipPeak, streamPeak := 0, 0, 0, 0;
    }
  }
}
