/** The GridConnect parser, printer and decoder on the fixed buffers the firmware keeps. */
module GridConnectBuffers {
  import opened GridConnect

  const STATE_SYNC_START: nat := 0
  const STATE_SYNC_FIND_HEADER: nat := 2
  const STATE_SYNC_FIND_DATA: nat := 4

  /** The C string in a buffer: everything before the first NUL. */
  function CString(s: seq<char>): (t: string)
    ensures |t| <= |s| && t == s[..|t|] && NUL !in t
    ensures forall i :: 0 <= i < |t| ==> s[i] != NUL
    ensures |t| < |s| ==> s[|t|] == NUL
  {
    if s == [] || s[0] == NUL then "" else [s[0]] + CString(s[1..])
  }

  lemma {:induction false} CStringIs(s: seq<char>, n: nat)
    requires n < |s| && s[n] == NUL && NUL !in s[..n]
    ensures CString(s) == s[..n]
  {
    if n > 0 {
      assert s[0] == s[..n][0];
      assert s[1..][..n - 1] == s[..n][1..];
      CStringIs(s[1..], n - 1);
    }
  }

  lemma FrameHasNoNul(s: string)
    requires Frame(s)
    ensures NUL !in s
  {
    forall i | 0 <= i < |s|
      ensures s[i] != NUL
    {
      if 2 <= i < NORMAL_FLAG_POS { assert IsHex(s[2..NORMAL_FLAG_POS][i - 2]); }
      else if DATA_START_POS <= i < |s| - 1 { assert IsHex(s[DATA_START_POS..|s| - 1][i - DATA_START_POS]); }
    }
  }

  class StreamParser {
    var state: nat
    var index: nat
    const buffer: array<char>

    ghost function Held(): Parser
      requires buffer.Length == MAX_GRID_CONNECT_LEN && index <= buffer.Length
      reads this, buffer
    {
      if state == STATE_SYNC_FIND_HEADER then Header(buffer[..index])
      else if state == STATE_SYNC_FIND_DATA then Data(buffer[..index])
      else Idle
    }

    ghost predicate Valid()
      reads this, buffer
    {
      && buffer.Length == MAX_GRID_CONNECT_LEN && index <= buffer.Length
      && (state == STATE_SYNC_START || state == STATE_SYNC_FIND_HEADER || state == STATE_SYNC_FIND_DATA)
      && Held().Valid()
    }

    constructor ()
      ensures Valid() && Held() == Idle
    {
      state, index := STATE_SYNC_START, 0;
      buffer := new char[MAX_GRID_CONNECT_LEN](i => NUL);
    }

    /** Feeds one byte; when it completes a message, copies the message out as a C string. */
    method CopyOutWhenDone(nextByte: char, out: array<char>) returns (done: bool)
      requires Valid() && out != buffer && out.Length == MAX_GRID_CONNECT_LEN
      modifies this, buffer, out
      ensures Valid() && Held() == Feed(old(Held()), nextByte)
      ensures done <==> Emitted(old(Held()), nextByte) != []
      ensures done ==> Emitted(old(Held()), nextByte) == [CString(out[..])]
      ensures !done ==> out[..] == old(out[..])
    {
      FeedKeepsValid(Held(), nextByte);
      done := false;
      if state == STATE_SYNC_START {
        if nextByte == 'X' || nextByte == 'x' {
          index := 0;
          buffer[index] := ':';
          index := index + 1;
          buffer[index] := nextByte;
          index := index + 1;
          state := STATE_SYNC_FIND_HEADER;
          assert buffer[..index] == [':', nextByte];
        }
      } else if state == STATE_SYNC_FIND_HEADER {
        if index > NORMAL_FLAG_POS {
          state := STATE_SYNC_START;
        } else if nextByte == 'N' || nextByte == 'n' {
          if index == NORMAL_FLAG_POS {
            Append(nextByte);
            state := STATE_SYNC_FIND_DATA;
          } else {
            state := STATE_SYNC_START;
          }
        } else if !IsHex(nextByte) {
          state := STATE_SYNC_START;
        } else {
          Append(nextByte);
        }
      } else {
        if nextByte == ';' {
          if (index + 1) % 2 != 0 {
            state := STATE_SYNC_START;
          } else {
            done := true;
            Finish(out);
          }
        } else if !IsHex(nextByte) {
          state := STATE_SYNC_START;
        } else {
          Append(nextByte);
          if index > MAX_GRID_CONNECT_LEN - 1 {
            state := STATE_SYNC_START;
          }
        }
      }
    }

    method Append(b: char)
      requires index < buffer.Length
      modifies this`index, buffer
      ensures index == old(index) + 1 && buffer[..index] == old(buffer[..index]) + [b]
    {
      buffer[index] := b;
      index := index + 1;
    }

    /** The message is complete: terminate it, wait for the next one, hand the buffer over. */
    method Finish(out: array<char>)
      requires Valid() && state == STATE_SYNC_FIND_DATA && (index + 1) % 2 == 0
      requires out != buffer && out.Length == MAX_GRID_CONNECT_LEN
      modifies this`state, buffer, out
      ensures state == STATE_SYNC_START
      ensures CString(out[..]) == old(buffer[..index]) + ";"
    {
      ghost var message := buffer[..index] + ";";
      FeedKeepsValid(Held(), ';');
      FrameHasNoNul(message);
      buffer[index] := ';';
      buffer[index + 1] := NUL;
      state := STATE_SYNC_START;
      ghost var finished := buffer[..];
      assert finished[..index + 1] == message;
      for i := 0 to MAX_GRID_CONNECT_LEN
        invariant state == STATE_SYNC_START && buffer[..] == finished
        invariant forall j :: 0 <= j < i ==> out[j] == buffer[j]
      {
        out[i] := buffer[i];
      }
      assert out[..] == buffer[..];
      assert out[..][..index + 1] == message;
      CStringIs(out[..], index + 1);
    }
  }

  /** strcat. */
  method Concatenate(dest: array<char>, s: string)
    requires NUL !in s && |CString(dest[..])| + |s| < dest.Length
    modifies dest
    ensures CString(dest[..]) == old(CString(dest[..])) + s
  {
    ghost var t := CString(dest[..]);
    var n := 0;
    while dest[n] != NUL
      invariant n <= |t|
      decreases |t| - n
    {
      assert dest[n] == t[n];
      n := n + 1;
    }
    assert dest[..][n] == NUL;
    for i := 0 to |s|
      invariant dest[..n + i] == t + s[..i]
    {
      dest[n + i] := s[i];
    }
    dest[n + |s|] := NUL;
    assert dest[..n + |s|] == t + s;
    CStringIs(dest[..], n + |s|);
  }

  lemma HexHasNoNul(s: string)
    requires AllHex(s)
    ensures NUL !in s
  {
  }

  /** Prints a CAN message; with at most eight bytes the text and its NUL fill at most the buffer. */
  method FromCanMsg(out: array<char>, m: CanMsg)
    requires m.Valid() && out.Length == MAX_GRID_CONNECT_LEN
    modifies out
    ensures CString(out[..]) == Print(m)
  {
    hide Hex, PrintBytes, AllHex, CString;
    out[0] := NUL;
    CStringIs(out[..], 0);
    Concatenate(out, ":");
    Concatenate(out, "X");
    HexHasNoNul(Hex(m.identifier, 8));
    Concatenate(out, Hex(m.identifier, 8));
    Concatenate(out, "N");
    ghost var head := ":X" + Hex(m.identifier, 8) + "N";
    PrintNothing();
    for i := 0 to |m.payload|
      invariant CString(out[..]) == head + PrintBytes(m.payload[..i])
    {
      PrintOneMore(m.payload, i);
      HexHasNoNul(Hex(m.payload[i], 2));
      Concatenate(out, Hex(m.payload[i], 2));
    }
    assert m.payload[..|m.payload|] == m.payload;
    Concatenate(out, ";");
  }

  lemma PrintNothing()
    ensures PrintBytes([]) == ""
  {
  }

  lemma PrintOneMore(bytes: seq<nat>, i: nat)
    requires i < |bytes|
    ensures PrintBytes(bytes[..i + 1]) == PrintBytes(bytes[..i]) + Hex(bytes[i], 2)
    ensures |PrintBytes(bytes[..i])| == 2 * i
  {
    assert bytes[..i + 1][..i] == bytes[..i];
  }

  lemma BytesOneMore(s: string, i: nat)
    requires AllHex(s) && |s| % 2 == 0 && 2 * i + 2 <= |s|
    ensures Bytes(s[..2 * i + 2]) == Bytes(s[..2 * i]) + [Value(s[2 * i..2 * i + 2])]
  {
    var t := s[..2 * i + 2];
    assert t[..|t| - 2] == s[..2 * i] && t[|t| - 2..] == s[2 * i..2 * i + 2];
  }

  method Strlen(buffer: array<char>) returns (n: nat)
    requires NUL in buffer[..]
    ensures n == |CString(buffer[..])|
  {
    n := 0;
    ghost var t := CString(buffer[..]);
    while buffer[n] != NUL
      invariant n <= |t|
      decreases |t| - n
    {
      assert buffer[n] == t[n];
      n := n + 1;
    }
    assert buffer[..][n] == NUL;
  }

  /** Eight digits of the identifier, through a string buffer. */
  method DecodeIdentifier(buffer: array<char>) returns (identifier: nat)
    requires NORMAL_FLAG_POS <= buffer.Length && AllHex(buffer[2..NORMAL_FLAG_POS])
    ensures identifier == Value(buffer[2..NORMAL_FLAG_POS])
  {
    hide Value, IsHex;
    var identifierStr := [];
    for i := 2 to 10
      invariant identifierStr == buffer[2..i]
    {
      identifierStr := identifierStr + [buffer[i]];
    }
    identifier := Value(identifierStr);
  }

  /** The data characters, two to a byte. */
  method DecodeBytes(buffer: array<char>, dataCharCount: nat, payload: array<nat>)
    requires dataCharCount % 2 == 0 && DATA_START_POS + dataCharCount <= buffer.Length
    requires AllHex(buffer[DATA_START_POS..DATA_START_POS + dataCharCount])
    requires dataCharCount / 2 <= payload.Length
    modifies payload
    ensures payload[..dataCharCount / 2] == Bytes(buffer[DATA_START_POS..DATA_START_POS + dataCharCount])
  {
    hide Value, Bytes, IsHex;
    ghost var data := buffer[DATA_START_POS..DATA_START_POS + dataCharCount];
    var payloadIndex := 0;
    var charIndex := DATA_START_POS;
    NoBytes();
    while charIndex < dataCharCount + DATA_START_POS
      invariant charIndex == DATA_START_POS + 2 * payloadIndex
      invariant payloadIndex <= dataCharCount / 2
      invariant payload[..payloadIndex] == Bytes(data[..2 * payloadIndex])
    {
      var byteStr := [buffer[charIndex], buffer[charIndex + 1]];
      BytesOneMore(data, payloadIndex);
      assert byteStr == data[2 * payloadIndex..2 * payloadIndex + 2];
      payload[payloadIndex] := Value(byteStr);
      payloadIndex := payloadIndex + 1;
      charIndex := charIndex + 2;
    }
    assert data[..2 * payloadIndex] == data;
  }

  /** Decodes a message the parser produced; a text shorter than a header gives identifier 0 and no bytes. */
  method ToCanMsg(buffer: array<char>, payload: array<nat>) returns (identifier: nat, payloadCount: nat)
    requires NUL in buffer[..] && payload.Length == 8
    requires var t := CString(buffer[..]); |t| < HEADER_LEN || Frame(t)
    modifies payload
    ensures var t := CString(buffer[..]);
            if |t| < HEADER_LEN then identifier == 0 && payloadCount == 0 && payload[..] == old(payload[..])
            else payloadCount <= 8 && CanMsg(identifier, payload[..payloadCount]) == Decode(t)
  {
    hide Value, Bytes, IsHex, CString;
    ghost var t := CString(buffer[..]);
    var messageLength := Strlen(buffer);
    if messageLength < HEADER_LEN {
      return 0, 0;
    }
    assert buffer[2..NORMAL_FLAG_POS] == t[2..NORMAL_FLAG_POS];
    identifier := DecodeIdentifier(buffer);
    var dataCharCount := messageLength - HEADER_LEN;
    payloadCount := dataCharCount / 2;
    assert buffer[DATA_START_POS..DATA_START_POS + dataCharCount] == t[DATA_START_POS..|t| - 1];
    DecodeBytes(buffer, dataCharCount, payload);
  }

  lemma NoBytes()
    ensures Bytes("") == []
  {
  }
}
