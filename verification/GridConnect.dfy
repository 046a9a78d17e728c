/**
 GridConnect: the byte-at-a-time parser with its fixed buffer, the printer and the decoder.
 A byte is a character of code below 256.
 */
module GridConnect {
  import opened Words

  const MAX_GRID_CONNECT_LEN: nat := 29
  const HEADER_LEN: nat := 12
  const NORMAL_FLAG_POS: nat := 10
  const DATA_START_POS: nat := 11
  const NUL: char := '\0'

  // ---- Hexadecimal ----

  predicate IsHex(c: char) {
    '0' <= c <= '9' || 'A' <= c <= 'F' || 'a' <= c <= 'f'
  }

  predicate AllHex(s: string) {
    forall i :: 0 <= i < |s| ==> IsHex(s[i])
  }

  function DigitValue(c: char): (v: nat)
    requires IsHex(c)
    ensures v < 16
  {
    if c <= '9' then c as int - '0' as int
    else if c <= 'F' then c as int - 'A' as int + 10
    else c as int - 'a' as int + 10
  }

  function HexDigit(v: nat): (c: char)
    requires v < 16
    ensures IsHex(c) && DigitValue(c) == v
  {
    if v < 10 then ('0' as int + v) as char else ('A' as int + v - 10) as char
  }

  /** What strtoul makes of a string of hexadecimal digits. */
  function Value(s: string): nat
    requires AllHex(s)
  {
    if s == "" then 0 else Value(s[..|s| - 1]) * 16 + DigitValue(s[|s| - 1])
  }

  /** The upper-case digits of v, n of them. */
  function Hex(v: nat, n: nat): (s: string)
    ensures |s| == n && AllHex(s)
  {
    if n == 0 then "" else Hex(v / 16, n - 1) + [HexDigit(v % 16)]
  }

  function Pow16(n: nat): nat {
    if n == 0 then 1 else 16 * Pow16(n - 1)
  }

  function UpperChar(c: char): char {
    if 'a' <= c <= 'z' then (c as int - 'a' as int + 'A' as int) as char else c
  }

  function Upper(s: string): (u: string)
    ensures |u| == |s| && forall i :: 0 <= i < |s| ==> u[i] == UpperChar(s[i])
  {
    seq(|s|, i requires 0 <= i < |s| => UpperChar(s[i]))
  }

  lemma {:induction false} ValueOfHex(v: nat, n: nat)
    requires v < Pow16(n)
    ensures Value(Hex(v, n)) == v
  {
    if n > 0 {
      ValueOfHex(v / 16, n - 1);
      assert Hex(v, n)[..n - 1] == Hex(v / 16, n - 1);
    }
  }

  lemma {:induction false} HexOfValue(s: string)
    requires AllHex(s)
    ensures Value(s) < Pow16(|s|) && Hex(Value(s), |s|) == Upper(s)
  {
    if s != "" {
      var t := s[..|s| - 1];
      HexOfValue(t);
      assert Value(s) / 16 == Value(t) && Value(s) % 16 == DigitValue(s[|s| - 1]);
      assert HexDigit(DigitValue(s[|s| - 1])) == UpperChar(s[|s| - 1]);
      assert Upper(s) == Upper(t) + [UpperChar(s[|s| - 1])];
    }
  }

  // ---- Messages and their text ----

  datatype CanMsg = CanMsg(identifier: nat, payload: seq<nat>)
  {
    /** A CAN frame: a 32-bit identifier field and at most eight bytes. */
    predicate Valid() {
      && identifier < DWORD && |payload| <= 8
      && forall i :: 0 <= i < |payload| ==> payload[i] < BYTE
    }
  }

  function PrintBytes(bytes: seq<nat>): (s: string)
    ensures |s| == 2 * |bytes| && AllHex(s)
  {
    if bytes == [] then "" else PrintBytes(bytes[..|bytes| - 1]) + Hex(bytes[|bytes| - 1], 2)
  }

  function Print(m: CanMsg): string {
    ":X" + Hex(m.identifier, 8) + "N" + PrintBytes(m.payload) + ";"
  }

  /** A complete message: ':' [Xx] 8 hex digits [Nn] an even number of hex digits ';'. */
  predicate Frame(s: string) {
    && HEADER_LEN <= |s| < MAX_GRID_CONNECT_LEN && |s| % 2 == 0
    && s[0] == ':' && (s[1] == 'X' || s[1] == 'x')
    && AllHex(s[2..NORMAL_FLAG_POS])
    && (s[NORMAL_FLAG_POS] == 'N' || s[NORMAL_FLAG_POS] == 'n')
    && AllHex(s[DATA_START_POS..|s| - 1])
    && s[|s| - 1] == ';'
  }

  function Bytes(s: string): seq<nat>
    requires AllHex(s) && |s| % 2 == 0
  {
    if s == "" then [] else Bytes(s[..|s| - 2]) + [Value(s[|s| - 2..])]
  }

  /** The message a frame denotes. */
  function Decode(s: string): CanMsg
    requires Frame(s)
  {
    CanMsg(Value(s[2..NORMAL_FLAG_POS]), Bytes(s[DATA_START_POS..|s| - 1]))
  }

  lemma {:induction false} BytesOfPrint(bytes: seq<nat>)
    requires forall i :: 0 <= i < |bytes| ==> bytes[i] < BYTE
    ensures Bytes(PrintBytes(bytes)) == bytes
  {
    if bytes != [] {
      var front, last := bytes[..|bytes| - 1], bytes[|bytes| - 1];
      BytesOfPrint(front);
      var s := PrintBytes(bytes);
      assert s[..|s| - 2] == PrintBytes(front) && s[|s| - 2..] == Hex(last, 2);
      assert Pow16(2) == 256;
      ValueOfHex(last, 2);
    }
  }

  lemma {:induction false} PrintOfBytes(s: string)
    requires AllHex(s) && |s| % 2 == 0
    ensures |Bytes(s)| == |s| / 2 && PrintBytes(Bytes(s)) == Upper(s)
    ensures forall i :: 0 <= i < |Bytes(s)| ==> Bytes(s)[i] < BYTE
  {
    if s != "" {
      var front, last := s[..|s| - 2], s[|s| - 2..];
      PrintOfBytes(front);
      HexOfValue(last);
      assert Pow16(2) == 256;
      assert Bytes(s)[..|Bytes(s)| - 1] == Bytes(front);
      assert Upper(s) == Upper(front) + Upper(last);
    }
  }

  lemma PrintParts(m: CanMsg)
    requires m.Valid()
    ensures var s := Print(m);
            && |s| == HEADER_LEN + 2 * |m.payload| && Frame(s)
            && s[2..NORMAL_FLAG_POS] == Hex(m.identifier, 8)
            && s[DATA_START_POS..|s| - 1] == PrintBytes(m.payload)
  {
    hide Hex, PrintBytes;
  }

  /** Printing a message and decoding it gives the message back. */
  lemma PrintDecode(m: CanMsg)
    requires m.Valid()
    ensures Frame(Print(m)) && Decode(Print(m)) == m
  {
    hide Hex, PrintBytes, Print;
    PrintParts(m);
    assert Pow16(8) == DWORD by { Pow16Eight(); }
    ValueOfHex(m.identifier, 8);
    BytesOfPrint(m.payload);
  }

  lemma Pow16Eight()
    ensures Pow16(8) == DWORD
  {
    assert Pow16(4) == 0x1_0000;
  }

  lemma FrameParts(s: string)
    requires Frame(s)
    ensures s == ":" + [s[1]] + s[2..NORMAL_FLAG_POS] + [s[NORMAL_FLAG_POS]] + s[DATA_START_POS..|s| - 1] + ";"
  {
    hide AllHex;
  }

  lemma UpperFrame(x: char, id: string, n: char, data: string)
    requires (x == 'X' || x == 'x') && (n == 'N' || n == 'n')
    ensures Upper(":" + [x] + id + [n] + data + ";") == ":X" + Upper(id) + "N" + Upper(data) + ";"
  {
  }

  /** Decoding a frame and printing it gives the frame back in upper case. */
  lemma DecodePrint(s: string)
    requires Frame(s)
    ensures Decode(s).Valid() && Print(Decode(s)) == Upper(s)
  {
    hide Hex, PrintBytes, Value, Bytes, Upper, AllHex;
    var id, data := s[2..NORMAL_FLAG_POS], s[DATA_START_POS..|s| - 1];
    HexOfValue(id);
    PrintOfBytes(data);
    Pow16Eight();
    FrameParts(s);
    UpperFrame(s[1], id, s[NORMAL_FLAG_POS], data);
  }

  // ---- The parser on values ----

  /** Waiting for X; collecting the header after ':X'; collecting data. */
  datatype Parser = Idle | Header(received: string) | Data(received: string)
  {
    predicate Valid() {
      match this
      case Idle => true
      case Header(r) => 2 <= |r| <= DATA_START_POS && Started(r) && AllHex(r[2..])
      case Data(r) =>
        && DATA_START_POS <= |r| <= MAX_GRID_CONNECT_LEN - 1 && Started(r)
        && AllHex(r[2..NORMAL_FLAG_POS]) && (r[NORMAL_FLAG_POS] == 'N' || r[NORMAL_FLAG_POS] == 'n')
        && AllHex(r[DATA_START_POS..])
    }

    static predicate Started(r: string) {
      |r| >= 2 && r[0] == ':' && (r[1] == 'X' || r[1] == 'x')
    }
  }

  function Feed(p: Parser, b: char): Parser {
    match p
    case Idle => if b == 'X' || b == 'x' then Header([':', b]) else Idle
    case Header(r) =>
      if |r| > NORMAL_FLAG_POS then Idle
      else if b == 'N' || b == 'n' then if |r| == NORMAL_FLAG_POS then Data(r + [b]) else Idle
      else if IsHex(b) then Header(r + [b]) else Idle
    case Data(r) =>
      if b == ';' || !IsHex(b) || |r| + 1 > MAX_GRID_CONNECT_LEN - 1 then Idle else Data(r + [b])
  }

  /** The message completed by a byte, if any. */
  function Emitted(p: Parser, b: char): seq<string> {
    if p.Data? && b == ';' && (|p.received| + 1) % 2 == 0 then [p.received + ";"] else []
  }

  function FeedAll(p: Parser, input: string): Parser {
    if input == "" then p else Feed(FeedAll(p, input[..|input| - 1]), input[|input| - 1])
  }

  function Outputs(p: Parser, input: string): seq<string> {
    if input == "" then []
    else
      var front := input[..|input| - 1];
      Outputs(p, front) + Emitted(FeedAll(p, front), input[|input| - 1])
  }

  lemma {:induction false} FeedConcat(p: Parser, a: string, b: string)
    ensures FeedAll(p, a + b) == FeedAll(FeedAll(p, a), b)
    ensures Outputs(p, a + b) == Outputs(p, a) + Outputs(FeedAll(p, a), b)
  {
    hide Feed, Emitted;
    if b == "" {
      assert a + b == a;
    } else {
      var s := a + b;
      assert s[..|s| - 1] == a + b[..|b| - 1];
      FeedConcat(p, a, b[..|b| - 1]);
    }
  }

  lemma FeedOne(p: Parser, b: char)
    ensures FeedAll(p, [b]) == Feed(p, b) && Outputs(p, [b]) == Emitted(p, b)
  {
    assert [b][..0] == "";
  }

  lemma FeedKeepsValid(p: Parser, b: char)
    requires p.Valid()
    ensures Feed(p, b).Valid()
    ensures Emitted(p, b) != [] ==> |Emitted(p, b)| == 1 && Frame(Emitted(p, b)[0])
  {
    if p.Header? {
      assert (p.received + [b])[2..] == p.received[2..] + [b];
    } else if p.Data? {
      var r := p.received;
      var s := r + ";";
      assert s[2..NORMAL_FLAG_POS] == r[2..NORMAL_FLAG_POS];
      assert s[DATA_START_POS..|s| - 1] == r[DATA_START_POS..];
      assert (r + [b])[2..NORMAL_FLAG_POS] == r[2..NORMAL_FLAG_POS];
      assert (r + [b])[DATA_START_POS..] == r[DATA_START_POS..] + [b];
    }
  }

  lemma {:induction false} FeedAllKeepsValid(p: Parser, input: string)
    requires p.Valid()
    ensures FeedAll(p, input).Valid()
    ensures forall i :: 0 <= i < |Outputs(p, input)| ==> Frame(Outputs(p, input)[i])
  {
    hide Feed, Emitted, Parser.Valid, Frame;
    if input != "" {
      var front := input[..|input| - 1];
      FeedAllKeepsValid(p, front);
      FeedKeepsValid(FeedAll(p, front), input[|input| - 1]);
    }
  }

  /** What a collecting parser holds, after its ':', is the end of the input. */
  ghost predicate EndsWith(input: string, tail: string) {
    |tail| <= |input| && input[|input| - |tail|..] == tail
  }

  lemma OneMoreByte(front: string, p: Parser, b: char)
    requires p.Valid() && (!p.Idle? ==> |p.received| >= 2 && EndsWith(front, p.received[1..]))
    ensures var q := Feed(p, b); !q.Idle? ==> |q.received| >= 2 && EndsWith(front + [b], q.received[1..])
  {
    hide Parser.Valid, IsHex;
    var q := Feed(p, b);
    if !q.Idle? {
      if p.Idle? {
        assert q.received[1..] == [b];
      } else {
        assert q.received[1..] == p.received[1..] + [b];
      }
    }
  }

  lemma IdleIsValid()
    ensures Idle.Valid()
  {
  }

  lemma {:induction false} ReceivedIsInput(input: string)
    ensures var p := FeedAll(Idle, input);
            p.Valid() && (!p.Idle? ==> |p.received| >= 2 && EndsWith(input, p.received[1..]))
  {
    hide Parser.Valid, Outputs, Feed, EndsWith;
    IdleIsValid();
    FeedAllKeepsValid(Idle, input);
    if input != "" {
      var front, b := input[..|input| - 1], input[|input| - 1];
      assert input == front + [b];
      ReceivedIsInput(front);
      OneMoreByte(front, FeedAll(Idle, front), b);
    }
  }

  /** The parser accepts only complete frames, and only when the input ends in one (its ':' aside). */
  lemma {:induction false} AcceptsOnlyFrames(input: string, b: char)
    requires Emitted(FeedAll(Idle, input), b) != []
    ensures var out := Emitted(FeedAll(Idle, input), b);
            |out| == 1 && Frame(out[0]) && EndsWith(input + [b], out[0][1..])
  {
    var p := FeedAll(Idle, input);
    ReceivedIsInput(input);
    FeedKeepsValid(p, b);
    assert (p.received + ";")[1..] == p.received[1..] + ";";
  }

  // ---- Self-synchronisation ----

  lemma {:induction false} HexIntoHeader(r: string, h: string)
    requires AllHex(h) && |r| + |h| <= NORMAL_FLAG_POS
    ensures FeedAll(Header(r), h) == Header(r + h) && Outputs(Header(r), h) == []
  {
    if h == "" {
      assert r + h == r;
    } else {
      var front := h[..|h| - 1];
      HexIntoHeader(r, front);
      assert r + h == (r + front) + [h[|h| - 1]];
    }
  }

  lemma {:induction false} HexIntoData(r: string, h: string)
    requires AllHex(h) && |r| + |h| <= MAX_GRID_CONNECT_LEN - 1
    ensures FeedAll(Data(r), h) == Data(r + h) && Outputs(Data(r), h) == []
  {
    if h == "" {
      assert r + h == r;
    } else {
      var front := h[..|h| - 1];
      HexIntoData(r, front);
      assert r + h == (r + front) + [h[|h| - 1]];
    }
  }

  /** A waiting parser given the rest of a frame emits that frame at its last byte. */
  lemma {:induction false} FrameFromIdle(s: string)
    requires Frame(s)
    ensures FeedAll(Idle, s[1..]) == Idle && Outputs(Idle, s[1..]) == [s]
  {
    hide FeedAll, Outputs;
    var id, data := s[2..NORMAL_FLAG_POS], s[DATA_START_POS..|s| - 1];
    var x, n := [s[1]], [s[NORMAL_FLAG_POS]];
    var h := ":" + x;
    assert s[1..] == x + (id + (n + (data + ";")));
    assert [':', s[1]] == h;
    FeedOne(Idle, s[1]);
    FeedConcat(Idle, x, id + (n + (data + ";")));
    HexIntoHeader(h, id);
    FeedConcat(Header(h), id, n + (data + ";"));
    FeedOne(Header(h + id), s[NORMAL_FLAG_POS]);
    FeedConcat(Header(h + id), n, data + ";");
    HexIntoData(h + id + n, data);
    FeedConcat(Data(h + id + n), data, ";");
    FeedOne(Data(h + id + n + data), ';');
    assert s == h + id + n + data + ";";
  }

  /** A ':' brings the parser to waiting from any state. */
  lemma ColonSynchronises(p: Parser)
    ensures Feed(p, ':') == Idle && Emitted(p, ':') == []
  {
  }

  /** A complete frame is emitted from whatever state the parser is in, and nothing else is. */
  lemma FrameFromAnyState(p: Parser, s: string)
    requires Frame(s)
    ensures FeedAll(p, s) == Idle && Outputs(p, s) == [s]
  {
    assert s == ":" + s[1..];
    FeedConcat(p, ":", s[1..]);
    FeedOne(p, ':');
    ColonSynchronises(p);
    FrameFromIdle(s);
  }

  lemma {:induction false} NoXStaysIdle(s: string)
    requires forall i :: 0 <= i < |s| ==> s[i] != 'X' && s[i] != 'x'
    ensures FeedAll(Idle, s) == Idle && Outputs(Idle, s) == []
  {
    if s != "" { NoXStaysIdle(s[..|s| - 1]); }
  }

  /** Without its ':' a frame is emitted exactly when the parser was waiting; else it is lost. */
  lemma {:induction false} BareFrame(p: Parser, s: string)
    requires Frame(s)
    ensures Outputs(p, s[1..]) == if p.Idle? then [s] else []
  {
    hide FeedAll, Outputs;
    if p.Idle? {
      FrameFromIdle(s);
    } else {
      var rest := s[2..];
      assert s[1..] == [s[1]] + rest;
      FeedConcat(p, [s[1]], rest);
      FeedOne(p, s[1]);
      assert forall i :: 0 <= i < |rest| ==> rest[i] == s[i + 2];
      RestHasNoX(s);
      NoXStaysIdle(rest);
    }
  }

  lemma RestHasNoX(s: string)
    requires Frame(s)
    ensures forall i :: 2 <= i < |s| ==> s[i] != 'X' && s[i] != 'x'
  {
    var id, data := s[2..NORMAL_FLAG_POS], s[DATA_START_POS..|s| - 1];
    forall i | 2 <= i < |s|
      ensures s[i] != 'X' && s[i] != 'x'
    {
      if i < NORMAL_FLAG_POS { assert IsHex(id[i - 2]); }
      else if DATA_START_POS <= i < |s| - 1 { assert IsHex(data[i - DATA_START_POS]); }
    }
  }

  lemma {:induction false} NoiseEmitsNothing(p: Parser, noise: string)
    requires ';' !in noise
    ensures Outputs(p, noise) == []
  {
    if noise != "" { NoiseEmitsNothing(p, noise[..|noise| - 1]); }
  }

  /** Printed messages, each preceded by noise. */
  function Stream(noise: seq<string>, msgs: seq<CanMsg>): string
    requires |noise| == |msgs|
  {
    if msgs == [] then ""
    else
      var n := |msgs| - 1;
      Stream(noise[..n], msgs[..n]) + noise[n] + Print(msgs[n])
  }

  function Texts(msgs: seq<CanMsg>): seq<string> {
    seq(|msgs|, i requires 0 <= i < |msgs| => Print(msgs[i]))
  }

  /**
   From any state, a stream of printed messages with noise between them that has no ';' yields
   exactly those messages, in order; decoding what comes out gives the messages back.
   */
  lemma {:induction false} StreamRoundTrip(p: Parser, noise: seq<string>, msgs: seq<CanMsg>)
    requires |noise| == |msgs|
    requires forall i :: 0 <= i < |msgs| ==> msgs[i].Valid() && ';' !in noise[i]
    ensures Outputs(p, Stream(noise, msgs)) == Texts(msgs)
    ensures forall i :: 0 <= i < |msgs| ==> Frame(Texts(msgs)[i]) && Decode(Texts(msgs)[i]) == msgs[i]
  {
    hide Outputs, FeedAll, Print, Frame, Decode, CanMsg.Valid;
    forall i | 0 <= i < |msgs|
      ensures Frame(Print(msgs[i])) && Decode(Print(msgs[i])) == msgs[i]
    {
      PrintDecode(msgs[i]);
    }
    if msgs == [] {
      assert Outputs(p, "") == [] by { NoiseEmitsNothing(p, ""); }
    } else {
      var n := |msgs| - 1;
      var before := Stream(noise[..n], msgs[..n]);
      StreamRoundTrip(p, noise[..n], msgs[..n]);
      FeedConcat(p, before + noise[n], Print(msgs[n]));
      FeedConcat(p, before, noise[n]);
      NoiseEmitsNothing(FeedAll(p, before), noise[n]);
      FrameFromAnyState(FeedAll(p, before + noise[n]), Print(msgs[n]));
      assert Texts(msgs) == Texts(msgs[..n]) + [Print(msgs[n])];
    }
  }
}
