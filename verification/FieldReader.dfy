/** Reading arbitrary byte ranges of the ACDI spaces: a flat image of fields, and the user space over configuration memory. */
module FieldReader {
  import opened Words

  /** A field of a flat image; data is its bytes. */
  datatype Field = Field(start: nat, data: seq<nat>)
  {
    function End(): nat { start + |data| }
  }

  /** Address one past the last field. */
  function End(fields: seq<Field>): nat {
    if fields == [] then 0 else fields[|fields| - 1].End()
  }

  /** Fields in ascending order without overlap, all below the 32-bit limit. */
  ghost predicate Sorted(fields: seq<Field>) {
    && (forall i, j :: 0 <= i < j < |fields| ==> fields[i].End() <= fields[j].start)
    && (forall i :: 0 <= i < |fields| ==> fields[i].End() < DWORD && |fields[i].data| < WORD)
  }

  /** The byte of the flat image at an address; what no field covers reads as zero. */
  function ImageAt(fields: seq<Field>, pos: nat): nat {
    if fields == [] then 0
    else
      var f := fields[|fields| - 1];
      if f.start <= pos < f.End() then f.data[pos - f.start] else ImageAt(fields[..|fields| - 1], pos)
  }

  /** Bytes of the image left from an address on. */
  function Left(end: nat, address: nat): nat {
    if address < end then end - address else 0
  }

  function Read(fields: seq<Field>, address: nat, count: nat): (r: seq<nat>)
    ensures |r| == Min(count, Left(End(fields), address))
    ensures forall i :: 0 <= i < |r| ==> r[i] == ImageAt(fields, address + i)
  {
    seq<nat>(Min(count, Left(End(fields), address)), i requires 0 <= i => ImageAt(fields, address + i))
  }

  /** Inside field i the image is the field's data. */
  lemma {:induction false} ImageInField(fields: seq<Field>, i: nat, pos: nat)
    requires Sorted(fields) && i < |fields| && fields[i].start <= pos < fields[i].End()
    ensures ImageAt(fields, pos) == fields[i].data[pos - fields[i].start]
  {
    if i < |fields| - 1 { ImageInField(fields[..|fields| - 1], i, pos); }
  }

  /** Between the end of the fields before i and field i the image is zero. */
  lemma {:induction false} ImageInGap(fields: seq<Field>, i: nat, pos: nat)
    requires Sorted(fields) && i < |fields| && End(fields[..i]) <= pos < fields[i].start
    ensures ImageAt(fields, pos) == 0
  {
    var n := |fields| - 1;
    if i < n {
      assert fields[..n][..i] == fields[..i];
      assert fields[i].End() <= fields[n].start;
      ImageInGap(fields[..n], i, pos);
    } else {
      assert fields[..n] == fields[..i];
      ImageBeyond(fields[..i], pos);
    }
  }

  lemma {:induction false} ImageBeyond(fields: seq<Field>, pos: nat)
    requires Sorted(fields) && End(fields) <= pos
    ensures ImageAt(fields, pos) == 0
  {
    if fields != [] {
      var n := |fields| - 1;
      if n > 0 { assert fields[n - 1].End() <= fields[n].start; }
      ImageBeyond(fields[..n], pos);
    }
  }

  /** Reading n + m bytes is reading n and then m from where that ended. */
  lemma ReadInTwoParts(fields: seq<Field>, address: nat, n: nat, m: nat)
    ensures Read(fields, address, n + m) == Read(fields, address, n) + Read(fields, address + n, m)
  {
  }

  /** The image is what a read of the whole of it returns, and each read is a slice of that. */
  lemma ReadIsSlice(fields: seq<Field>, address: nat, count: nat)
    requires address <= End(fields)
    ensures var whole := Read(fields, 0, End(fields));
            && |whole| == End(fields)
            && Read(fields, address, count) == whole[address..address + Min(count, |whole| - address)]
  {
  }

  /** Fills the buffer from the image; the rest of the buffer is left alone. */
  method ReadFieldArray(fields: seq<Field>, address: nat, count: nat, buffer: array<nat>) returns (filled: nat)
    requires Sorted(fields) && |fields| < WORD
    requires address < DWORD && count < WORD && count <= buffer.Length
    modifies buffer
    ensures filled <= count && buffer[..filled] == Read(fields, address, count)
    ensures buffer[filled..] == old(buffer[filled..])
  {
    filled := 0;
    var i := 0;
    while i < |fields| && filled < count
      invariant i <= |fields| && filled <= count
      invariant filled == Min(count, Left(End(fields[..i]), address))
      invariant forall j :: 0 <= j < filled ==> buffer[j] == ImageAt(fields, address + j)
      invariant forall j :: filled <= j < buffer.Length ==> buffer[j] == old(buffer[j])
    {
      assert fields[..i + 1][i] == fields[i];
      if i > 0 { assert fields[..i][i - 1] == fields[i - 1]; }
      filled := ReadField(fields, i, address, filled, count, buffer);
      i := i + 1;
    }
    EndsAscend(fields, i);
    assert fields[..|fields|] == fields;
    assert buffer[..filled] == Read(fields, address, count);
  }

  lemma {:induction false} EndsAscend(fields: seq<Field>, i: nat)
    requires Sorted(fields) && i <= |fields|
    ensures End(fields[..i]) <= End(fields)
  {
    if i == |fields| {
      assert fields[..i] == fields;
    } else if i > 0 {
      assert fields[i - 1].End() <= fields[|fields| - 1].start;
    }
  }

  /** memset to zero. */
  method Zeros(buffer: array<nat>, from: nat, n: nat)
    requires from + n <= buffer.Length
    modifies buffer
    ensures forall j :: 0 <= j < buffer.Length ==> buffer[j] == if from <= j < from + n then 0 else old(buffer[j])
  {
    for k := 0 to n
      invariant forall j :: 0 <= j < buffer.Length ==> buffer[j] == if from <= j < from + k then 0 else old(buffer[j])
    {
      buffer[from + k] := 0;
    }
  }

  /** memcpy from a field. */
  method Copy(buffer: array<nat>, from: nat, data: seq<nat>, offset: nat, n: nat)
    requires from + n <= buffer.Length && offset + n <= |data|
    modifies buffer
    ensures forall j :: 0 <= j < buffer.Length ==>
              buffer[j] == if from <= j < from + n then data[offset + (j - from)] else old(buffer[j])
  {
    for k := 0 to n
      invariant forall j :: 0 <= j < buffer.Length ==>
                  buffer[j] == if from <= j < from + k then data[offset + (j - from)] else old(buffer[j])
    {
      buffer[from + k] := data[offset + k];
    }
  }

  lemma SmallU32(x: nat)
    requires x < DWORD
    ensures U32(x) == x
  {
  }

  /** The loop body: the gap before field i as zeros, then the part of the field that is wanted. */
  method ReadField(fields: seq<Field>, i: nat, address: nat, start: nat, count: nat, buffer: array<nat>)
    returns (filled: nat)
    requires Sorted(fields) && i < |fields| && address < DWORD && start < count < WORD && count <= buffer.Length
    requires start == Min(count, Left(End(fields[..i]), address))
    requires forall j :: 0 <= j < start ==> buffer[j] == ImageAt(fields, address + j)
    modifies buffer
    ensures filled == Min(count, Left(fields[i].End(), address))
    ensures forall j :: 0 <= j < filled ==> buffer[j] == ImageAt(fields, address + j)
    ensures forall j :: filled <= j < buffer.Length ==> buffer[j] == old(buffer[j])
  {
    hide ImageAt, U32;
    filled := start;
    var f := fields[i];
    ghost var before := End(fields[..i]);
    assert before <= f.start by { if i > 0 { assert fields[i - 1].End() <= fields[i].start; } }
    SmallU32(f.End());
    SmallU32(address + filled);
    var fieldEnd := U32(f.start + |f.data|);
    if U32(address + filled) >= fieldEnd {
      return;
    }
    if U32(address + filled) < f.start {
      SmallU32(f.start - (address + filled));
      var gap := U32(f.start - U32(address + filled));
      if gap > count - filled {
        gap := count - filled;
      }
      Zeros(buffer, filled, gap);
      forall j | filled <= j < filled + gap
        ensures buffer[j] == ImageAt(fields, address + j)
      {
        ImageInGap(fields, i, address + j);
      }
      filled := filled + gap;
      if filled >= count {
        return;
      }
    }
    SmallU32(address + filled);
    var offset := U32(address + filled) - f.start;
    var avail := |f.data| - offset;
    var toCopy := if avail < count - filled then avail else count - filled;
    Copy(buffer, filled, f.data, offset, toCopy);
    forall j | filled <= j < filled + toCopy
      ensures buffer[j] == ImageAt(fields, address + j)
    {
      ImageInField(fields, i, address + j);
    }
    filled := filled + toCopy;
  }

  // ---- The ACDI user space: a version byte, then name and description from configuration memory ----

  const USER_VERSION_ADDRESS: nat := 0x00
  const USER_NAME_ADDRESS: nat := 0x01
  const USER_NAME_LEN: nat := 63
  const USER_DESCRIPTION_ADDRESS: nat := 0x40
  const USER_DESCRIPTION_LEN: nat := 64
  const CONFIG_NAME_OFFSET: nat := 0
  const CONFIG_DESCRIPTION_OFFSET: nat := 63
  const USER_SPACE_END: nat := 0x80

  /**
   The application's configuration memory: absent, or its bytes and how many bytes a read at an
   address delivers of the number asked for.
   */
  datatype ConfigMemory = Absent | Present(bytes: nat -> nat, delivers: (nat, nat) -> nat)

  /** The byte of the user space at an address below its end; low is the node's low address. */
  function UserImageAt(version: nat, memory: ConfigMemory, low: nat, pos: nat): nat {
    if pos == 0 then version
    else if memory.Absent? then 0
    else memory.bytes(U32(low + pos - 1))
  }

  /**
   The user space: the version, then 63 bytes of name from the start of configuration memory and 64 bytes of description
   after them; without configuration memory all zero.
   */
  lemma UserSpaceIs(version: nat, memory: ConfigMemory, low: nat, i: nat)
    ensures UserImageAt(version, memory, low, 0x00) == version
    ensures i < 63 ==>
              UserImageAt(version, memory, low, 0x01 + i) == if memory.Absent? then 0 else memory.bytes(U32(low + i))
    ensures i < 64 ==>
              UserImageAt(version, memory, low, 0x40 + i) == if memory.Absent? then 0 else memory.bytes(U32(low + 63 + i))
  {
  }

  /** A read never delivers more than asked. */
  ghost predicate Honest(memory: ConfigMemory) {
    memory.Present? ==> forall a, n :: memory.delivers(a, n) <= n
  }

  /** A read always delivers what was asked. */
  ghost predicate Complete(memory: ConfigMemory) {
    memory.Present? ==> forall a, n :: memory.delivers(a, n) == n
  }

  /** config_mem_read: delivered bytes land in the buffer. */
  method ConfigMemRead(memory: ConfigMemory, address: nat, count: nat, buffer: array<nat>, at: nat) returns (actual: nat)
    requires memory.Present? && Honest(memory) && at + count <= buffer.Length
    modifies buffer
    ensures actual == memory.delivers(address, count)
    ensures forall j :: 0 <= j < buffer.Length ==>
              buffer[j] == if at <= j < at + actual then memory.bytes(U32(address + (j - at))) else old(buffer[j])
  {
    actual := memory.delivers(address, count);
    for k := 0 to actual
      invariant forall j :: 0 <= j < buffer.Length ==>
                  buffer[j] == if at <= j < at + k then memory.bytes(U32(address + (j - at))) else old(buffer[j])
    {
      buffer[at + k] := memory.bytes(U32(address + k));
    }
  }

  /**
   Reads the user space from an address. Name and description lie side by side in configuration
   memory, so the space is one flat image; what is delivered is a prefix of the wanted slice, all
   of it unless configuration memory delivered short.
   */
  method ReadAcdiUser(version: nat, memory: ConfigMemory, low: nat, address: nat, count: nat, buffer: array<nat>)
    returns (filled: nat)
    requires Honest(memory) && address < DWORD && low < DWORD && count < WORD && count <= buffer.Length
    modifies buffer
    ensures filled <= Min(count, Left(USER_SPACE_END, address))
    ensures forall j :: 0 <= j < filled ==> buffer[j] == UserImageAt(version, memory, low, address + j)
    ensures Complete(memory) ==> filled == Min(count, Left(USER_SPACE_END, address))
  {
    filled := 0;
    while filled < count
      invariant filled <= Min(count, Left(USER_SPACE_END, address))
      invariant forall j :: 0 <= j < filled ==> buffer[j] == UserImageAt(version, memory, low, address + j)
      decreases count - filled
    {
      var pos := U32(address + filled);
      if pos == USER_VERSION_ADDRESS {
        buffer[filled] := version;
        filled := filled + 1;
      } else if USER_NAME_ADDRESS <= pos < USER_NAME_ADDRESS + USER_NAME_LEN {
        var more, done := ReadUserField(memory, low, pos - USER_NAME_ADDRESS, USER_NAME_LEN, CONFIG_NAME_OFFSET,
                                        count, buffer, filled);
        filled := filled + more;
        if done { break; }
      } else if USER_DESCRIPTION_ADDRESS <= pos < USER_DESCRIPTION_ADDRESS + USER_DESCRIPTION_LEN {
        var more, done := ReadUserField(memory, low, pos - USER_DESCRIPTION_ADDRESS, USER_DESCRIPTION_LEN,
                                        CONFIG_DESCRIPTION_OFFSET, count, buffer, filled);
        filled := filled + more;
        if done { break; }
      } else {
        break;
      }
    }
  }

  lemma U32Add(a: nat, k: nat)
    ensures U32(U32(a) + k) == U32(a + k)
  {
    ModAdd(a, k, 0x1_0000_0000);
  }

  /** One field's branch of the loop: a zero byte without memory, else one read of what is left of the field. */
  method ReadUserField(memory: ConfigMemory, low: nat, offset: nat, len: nat, configOffset: nat,
                       count: nat, buffer: array<nat>, filled: nat) returns (more: nat, done: bool)
    requires Honest(memory) && offset < len <= 64 && filled < count < WORD && count <= buffer.Length && low < DWORD
    requires configOffset <= 63
    modifies buffer
    ensures more <= Min(len - offset, count - filled)
    ensures forall j :: 0 <= j < filled ==> buffer[j] == old(buffer[j])
    ensures forall j :: filled <= j < filled + more ==>
              buffer[j] == if memory.Absent? then 0 else memory.bytes(U32(low + configOffset + offset + (j - filled)))
    ensures !done ==> more > 0
    ensures Complete(memory) ==> !done
  {
    hide U32;
    if memory.Absent? {
      buffer[filled] := 0;
      return 1, false;
    }
    var avail := len - offset;
    var toRead := if avail < count - filled then avail else count - filled;
    var configAddr := U32(configOffset + offset + low);
    more := ConfigMemRead(memory, configAddr, toRead, buffer, filled);
    forall j | filled <= j < filled + more
      ensures buffer[j] == memory.bytes(U32(low + configOffset + offset + (j - filled)))
    {
      U32Add(configOffset + offset + low, j - filled);
    }
    done := more < toRead;
  }
}
