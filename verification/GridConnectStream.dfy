/** The text of a message, character by character, and what the parser makes of any input at all. */
module GridConnectStream {
  import opened Words
  import opened GridConnect

  // ---- The text of a message ----

  const DIGITS: string := "0123456789ABCDEF"

  /** Digit i of v, from the highest of n. */
  function PlaceDigit(v: nat, n: nat, i: nat): char
    requires i < n
  {
    PowerPositive(n - 1 - i);
    DIGITS[v / Pow16(n - 1 - i) % 16]
  }

  lemma {:induction false} PowerPositive(n: nat)
    ensures Pow16(n) > 0
  {
    if n > 0 { PowerPositive(n - 1); }
  }

  lemma {:induction false} HexAt(v: nat, n: nat, i: nat)
    requires i < n
    ensures Hex(v, n)[i] == PlaceDigit(v, n, i)
  {
    if i == n - 1 {
      assert v / 1 == v;
      DigitOf(v % 16);
    } else {
      HexAt(v / 16, n - 1, i);
      PowerPositive(n - 2 - i);
      DivTwice(v, 16, Pow16(n - 2 - i));
    }
  }

  lemma DigitOf(v: nat)
    requires v < 16
    ensures HexDigit(v) == DIGITS[v]
  {
  }

  lemma DivTwice(v: nat, a: nat, b: nat)
    requires a > 0 && b > 0
    ensures a * b > 0 && v / a / b == v / (a * b)
  {
    var x, y, z := v / a / b, v / a % b, v % a;
    Quotients(v, a);
    Quotients(v / a, b);
    Regroup(x, y, z, a, b);
    FromParts(v, a, b, x, y, z);
  }

  lemma Quotients(v: nat, a: nat)
    requires a > 0
    ensures v == v / a * a + v % a && v % a < a
  {
  }

  lemma FromParts(v: nat, a: nat, b: nat, x: nat, y: nat, z: nat)
    requires v == x * (a * b) + (a * y + z) && a * y + z < a * b
    ensures a * b > 0 && v / (a * b) == x
  {
    DivModUnique(v, a * b, x, a * y + z);
  }

  lemma Regroup(x: nat, y: nat, z: nat, a: nat, b: nat)
    requires y < b && z < a
    ensures (x * b + y) * a + z == x * (a * b) + (a * y + z)
    ensures a * y + z < a * b
  {
    MulMono(y + 1, b, a, a);
    assert a * (y + 1) == a * y + a;
    assert (x * b) * a == x * (a * b);
    assert (x * b + y) * a == (x * b) * a + y * a;
  }

  lemma {:induction false} BytesAt(bytes: seq<nat>, i: nat)
    requires i < |bytes| && forall k :: 0 <= k < |bytes| ==> bytes[k] < BYTE
    ensures PrintBytes(bytes)[2 * i..2 * i + 2] == [DIGITS[bytes[i] / 16], DIGITS[bytes[i] % 16]]
  {
    hide Hex;
    var n := |bytes| - 1;
    var front, last := PrintBytes(bytes[..n]), Hex(bytes[n], 2);
    assert PrintBytes(bytes) == front + last;
    if i < n {
      BytesAt(bytes[..n], i);
      assert (front + last)[2 * i..2 * i + 2] == front[2 * i..2 * i + 2];
    } else {
      ByteDigits(bytes[i]);
      assert (front + last)[2 * i..2 * i + 2] == last;
    }
  }

  lemma ByteDigits(v: nat)
    requires v < BYTE
    ensures Hex(v, 2) == [DIGITS[v / 16], DIGITS[v % 16]]
  {
    assert Hex(v, 2) == Hex(v / 16, 1) + [HexDigit(v % 16)];
    assert Hex(v / 16, 1) == Hex(v / 16 / 16, 0) + [HexDigit(v / 16 % 16)];
    DigitOf(v / 16);
    DigitOf(v % 16);
  }

  /**
   A message's text: ":X", the identifier's eight digits from the highest, "N", two digits for each byte in order, the high
   one first, and ";"; all digits in upper case.
   */
  lemma PrintText(m: CanMsg)
    requires m.Valid()
    ensures var s := Print(m);
            && |s| == 12 + 2 * |m.payload|
            && s[..2] == ":X" && s[10] == 'N' && s[|s| - 1] == ';'
            && (forall i :: 0 <= i < 8 ==> s[2..10][i] == PlaceDigit(m.identifier, 8, i))
            && forall i :: 0 <= i < |m.payload| ==>
                 s[11..|s| - 1][2 * i..2 * i + 2] == [DIGITS[m.payload[i] / 16], DIGITS[m.payload[i] % 16]]
  {
    hide Hex, PrintBytes, PlaceDigit;
    var s, id, data := Print(m), Hex(m.identifier, 8), PrintBytes(m.payload);
    assert s[2..10] == id && s[11..|s| - 1] == data;
    forall i | 0 <= i < 8 ensures id[i] == PlaceDigit(m.identifier, 8, i) { HexAt(m.identifier, 8, i); }
    forall i | 0 <= i < |m.payload|
      ensures data[2 * i..2 * i + 2] == [DIGITS[m.payload[i] / 16], DIGITS[m.payload[i] % 16]]
    {
      BytesAt(m.payload, i);
    }
  }

  // ---- What the parser makes of any input ----

  /** How many hexadecimal digits the input begins with. */
  function HexRun(s: string): (n: nat)
    ensures n <= |s| && AllHex(s[..n])
    ensures n < |s| ==> !IsHex(s[n])
  {
    if s == "" || !IsHex(s[0]) then 0
    else
      var n := 1 + HexRun(s[1..]);
      assert s[..n] == [s[0]] + s[1..][..n - 1];
      n
  }

  predicate IsX(c: char) {
    c == 'X' || c == 'x'
  }

  predicate IsN(c: char) {
    c == 'N' || c == 'n'
  }

  /**
   How much of an input that begins with an X belongs to one attempt at a message. An attempt ends with the first
   character that does not fit it, and that character is spent; a ninth digit spends one character more.
   */
  function Attempt(s: string): (n: nat)
    requires s != "" && IsX(s[0])
    ensures 1 <= n <= |s|
  {
    var h := HexRun(s[1..]);
    if h < 8 then Min(|s|, h + 2)
    else if h > 8 then Min(|s|, 11)
    else if |s| == 9 then 9
    else if !IsN(s[9]) then 10
    else
      var d := HexRun(s[10..]);
      if d > 17 then 28 else Min(|s|, d + 11)
  }

  /** The messages in an input, from a waiting parser: the attempts that are complete. */
  function Messages(input: string): seq<string> {
    if input == "" then []
    else if !IsX(input[0]) then Messages(input[1..])
    else
      var n := Attempt(input);
      var text := ":" + input[..n];
      (if Frame(text) then [text] else []) + Messages(input[n..])
  }

  lemma HeaderFed(x: char, h: string)
    requires IsX(x) && AllHex(h) && |h| <= 8
    ensures FeedAll(Idle, [x] + h) == Header(":" + [x] + h) && Outputs(Idle, [x] + h) == []
  {
    hide FeedAll, Outputs;
    FeedConcat(Idle, [x], h);
    FeedOne(Idle, x);
    assert [':', x] == ":" + [x];
    HexIntoHeader(":" + [x], h);
  }

  /** Some digits and one character more. */
  lemma OneMore(p: Parser, a: string, b: char)
    ensures FeedAll(p, a + [b]) == Feed(FeedAll(p, a), b) && Outputs(p, a + [b]) == Outputs(p, a) + Emitted(FeedAll(p, a), b)
  {
    assert (a + [b])[..|a|] == a;
  }

  /** An attempt that breaks off in its first digits. */
  lemma ShortHeader(s: string)
    requires s != "" && IsX(s[0]) && HexRun(s[1..]) < 8
    ensures Outputs(Idle, s[..Attempt(s)]) == [] && (Attempt(s) < |s| ==> FeedAll(Idle, s[..Attempt(s)]) == Idle)
    ensures !Frame(":" + s[..Attempt(s)])
  {
    hide FeedAll, Outputs;
    var h := HexRun(s[1..]);
    HeaderFed(s[0], s[1..][..h]);
    var head := [s[0]] + s[1..][..h];
    assert head == s[..h + 1];
    if h + 1 < |s| {
      OneMore(Idle, head, s[h + 1]);
      assert s[..h + 2] == head + [s[h + 1]];
      assert s[h + 1] == s[1..][h];
    } else {
      assert s[..Attempt(s)] == head;
    }
  }

  lemma {:induction false} HexIntoLong(r: string, h: string)
    requires AllHex(h) && |r| + |h| <= DATA_START_POS
    ensures FeedAll(Header(r), h) == Header(r + h) && Outputs(Header(r), h) == []
  {
    if h == "" {
      assert r + h == r;
    } else {
      var front := h[..|h| - 1];
      HexIntoLong(r, front);
      assert r + h == (r + front) + [h[|h| - 1]];
    }
  }

  /** An attempt with too many digits. */
  lemma LongHeader(s: string)
    requires s != "" && IsX(s[0]) && HexRun(s[1..]) > 8
    ensures Outputs(Idle, s[..Attempt(s)]) == [] && (Attempt(s) < |s| ==> FeedAll(Idle, s[..Attempt(s)]) == Idle)
    ensures !Frame(":" + s[..Attempt(s)])
  {
    hide FeedAll, Outputs;
    var h := s[1..10];
    assert h == s[1..][..HexRun(s[1..])][..9];
    FeedConcat(Idle, [s[0]], h);
    FeedOne(Idle, s[0]);
    assert [':', s[0]] == ":" + [s[0]];
    HexIntoLong(":" + [s[0]], h);
    assert [s[0]] + h == s[..10];
    if |s| > 10 {
      OneMore(Idle, s[..10], s[10]);
      assert s[..11] == s[..10] + [s[10]];
    }
    NinthDigit(s, Attempt(s));
  }

  lemma NinthDigit(s: string, n: nat)
    requires n <= |s| && |s| >= 10 && IsHex(s[9])
    ensures !Frame(":" + s[..n])
  {
    if n > 9 { assert (":" + s[..n])[10] == s[9]; }
  }

  /** An attempt with eight digits that breaks off before its data. */
  lemma NoFlag(s: string)
    requires s != "" && IsX(s[0]) && HexRun(s[1..]) == 8 && (|s| == 9 || !IsN(s[9]))
    ensures Outputs(Idle, s[..Attempt(s)]) == [] && (Attempt(s) < |s| ==> FeedAll(Idle, s[..Attempt(s)]) == Idle)
    ensures !Frame(":" + s[..Attempt(s)])
  {
    hide FeedAll, Outputs;
    HeaderFed(s[0], s[1..][..8]);
    assert [s[0]] + s[1..][..8] == s[..9];
    if |s| > 9 {
      OneMore(Idle, s[..9], s[9]);
      assert s[..10] == s[..9] + [s[9]];
      assert s[9] == s[1..][8];
    }
  }

  /** Eight digits and N bring the parser to the data. */
  lemma DataFed(s: string, d: string)
    requires |s| >= 10 && IsX(s[0]) && HexRun(s[1..]) == 8 && IsN(s[9]) && AllHex(d) && |d| <= 17
    ensures FeedAll(Idle, s[..10] + d) == Data(":" + s[..10] + d) && Outputs(Idle, s[..10] + d) == []
  {
    hide FeedAll, Outputs;
    HeaderFed(s[0], s[1..][..8]);
    assert [s[0]] + s[1..][..8] == s[..9];
    OneMore(Idle, s[..9], s[9]);
    assert s[..10] == s[..9] + [s[9]];
    assert ":" + [s[0]] + s[1..][..8] + [s[9]] == ":" + s[..10];
    FeedConcat(Idle, s[..10], d);
    HexIntoData(":" + s[..10], d);
  }

  /** An attempt that reaches its data: it is a message exactly if the text is a complete frame. */
  lemma WithData(s: string)
    requires |s| >= 10 && IsX(s[0]) && HexRun(s[1..]) == 8 && IsN(s[9])
    ensures var n := Attempt(s);
            && Outputs(Idle, s[..n]) == (if Frame(":" + s[..n]) then [":" + s[..n]] else [])
            && (n < |s| ==> FeedAll(Idle, s[..n]) == Idle)
  {
    hide FeedAll, Outputs, Frame, Emitted, Feed;
    var run, n := HexRun(s[10..]), Attempt(s);
    var d := s[10..][..if run > 17 then 17 else run];
    DataFed(s, d);
    var before := s[..10] + d;
    assert before == s[..|before|] && ":" + s[..10] + d == ":" + before;
    if |before| < |s| {
      var b := s[|before|];
      OneMore(Idle, before, b);
      assert s[..n] == before + [b] && b == s[10..][|d|];
      assert s[1..][..8] == before[1..9];
      Completed(before, d, b);
      assert ":" + s[..n] == ":" + before + [b];
    } else {
      assert s[..n] == before;
      NotYet(":" + s[..n], d);
    }
  }

  lemma NotYet(text: string, d: string)
    requires |text| == 11 + |d| && text[11..] == d && AllHex(d)
    ensures !Frame(text)
  {
    if d != "" { assert text[|text| - 1] == d[|d| - 1]; }
  }

  /**
   The character after the data completes a frame exactly if the parser hands one over, and ends the attempt if it is no
   digit or comes too late.
   */
  lemma Completed(before: string, d: string, b: char)
    requires |before| == 10 + |d| && before[10..] == d && AllHex(d) && |d| <= 17
    requires IsX(before[0]) && AllHex(before[1..9]) && IsN(before[9])
    ensures Emitted(Data(":" + before), b) == if Frame(":" + before + [b]) then [":" + before + [b]] else []
    ensures !IsHex(b) || |d| == 17 ==> Feed(Data(":" + before), b) == Idle
  {
    var text := ":" + before + [b];
    assert text[2..10] == before[1..9] && text[11..|text| - 1] == d;
    assert [b] == ";" <==> b == ';';
  }

  lemma AttemptFed(s: string)
    requires s != "" && IsX(s[0])
    ensures var n := Attempt(s);
            && Outputs(Idle, s[..n]) == (if Frame(":" + s[..n]) then [":" + s[..n]] else [])
            && (n < |s| ==> FeedAll(Idle, s[..n]) == Idle)
  {
    hide FeedAll, Outputs, Frame, Attempt;
    var h := HexRun(s[1..]);
    if h < 8 { ShortHeader(s); }
    else if h > 8 { LongHeader(s); }
    else if |s| == 9 || !IsN(s[9]) { NoFlag(s); }
    else { WithData(s); }
  }

  /** On any input whatever a waiting parser hands over exactly the messages in it, in order. */
  lemma {:induction false} ParserFindsMessages(input: string)
    ensures Outputs(Idle, input) == Messages(input)
    decreases |input|
  {
    hide FeedAll, Outputs, Frame, Attempt;
    if input == "" {
      NoiseEmitsNothing(Idle, "");
    } else if !IsX(input[0]) {
      var rest := input[1..];
      assert input == [input[0]] + rest;
      FeedConcat(Idle, [input[0]], rest);
      FeedOne(Idle, input[0]);
      ParserFindsMessages(rest);
    } else {
      var n := Attempt(input);
      assert input == input[..n] + input[n..];
      AttemptFed(input);
      FeedConcat(Idle, input[..n], input[n..]);
      if n < |input| {
        ParserFindsMessages(input[n..]);
      } else {
        assert input[n..] == "";
        NoiseEmitsNothing(FeedAll(Idle, input[..n]), "");
      }
    }
  }
}
