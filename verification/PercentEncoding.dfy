/** The percent encoding of gRPC status messages (errors/response.go), byte by byte. */
module PercentEncoding {
  newtype Byte = x: int | 0 <= x < 256

  const Percent: Byte := 0x25

  /** Bytes that stand for themselves. */
  predicate Literal(c: Byte) {
    0x20 <= c <= 0x7E && c != Percent
  }

  /** "0123456789ABCDEF" at position `n`. */
  function HexDigit(n: Byte): Byte
    requires n < 16
  {
    if n < 10 then 0x30 + n else 0x41 + (n - 10)
  }

  function EncodeByte(c: Byte): seq<Byte> {
    if Literal(c) then [c] else [Percent, HexDigit(c / 16), HexDigit(c % 16)]
  }

  function Encode(msg: seq<Byte>): seq<Byte> {
    if msg == [] then [] else EncodeByte(msg[0]) + Encode(msg[1..])
  }

  lemma {:induction false} EncodeLast(msg: seq<Byte>, c: Byte)
    ensures Encode(msg + [c]) == Encode(msg) + EncodeByte(c)
  {
    if msg == [] {
      assert [] + [c] == [c];
      assert Encode([c]) == EncodeByte(c) + Encode([]);
    } else {
      assert (msg + [c])[1..] == msg[1..] + [c];
      EncodeLast(msg[1..], c);
    }
  }

  /** The loop over the message, writing to a builder. */
  method GrpcPercentEncode(msg: seq<Byte>) returns (out: seq<Byte>)
    ensures out == Encode(msg)
  {
    out := [];
    for i := 0 to |msg|
      invariant out == Encode(msg[..i])
    {
      var c := msg[i];
      assert msg[..i + 1] == msg[..i] + [c];
      EncodeLast(msg[..i], c);
      if c >= 0x20 && c <= 0x7E && c != Percent {
        out := out + [c];
        continue;
      }
      out := out + [Percent];
      out := out + [HexDigit(c / 16)];
      out := out + [HexDigit(c % 16)];
    }
    assert msg[..|msg|] == msg;
  }

  /******* The receiver *******/

  /** Receivers take digits of either case. */
  function HexValue(d: Byte): int {
    if 0x30 <= d <= 0x39 then (d - 0x30) as int
    else if 0x41 <= d <= 0x46 then (d - 0x41) as int + 10
    else if 0x61 <= d <= 0x66 then (d - 0x61) as int + 10
    else -1
  }

  predicate Escape(s: seq<Byte>) {
    |s| >= 3 && s[0] == Percent && HexValue(s[1]) >= 0 && HexValue(s[2]) >= 0
  }

  /** A percent sign that begins no escape is taken as it is. */
  function Decode(s: seq<Byte>): seq<Byte> {
    if s == [] then []
    else if Escape(s) then [(HexValue(s[1]) * 16 + HexValue(s[2])) as Byte] + Decode(s[3..])
    else [s[0]] + Decode(s[1..])
  }

  /******* Round trip *******/

  lemma HexRoundTrip(n: Byte)
    requires n < 16
    ensures HexValue(HexDigit(n)) == n as int
  {
  }

  lemma ByteSplit(c: Byte)
    ensures c / 16 < 16 && c % 16 < 16 && (c / 16) as int * 16 + (c % 16) as int == c as int
  {
  }

  lemma DecodeByte(c: Byte, rest: seq<Byte>)
    ensures Decode(EncodeByte(c) + rest) == [c] + Decode(rest)
  {
    var s := EncodeByte(c) + rest;
    if Literal(c) {
      assert s[1..] == rest;
    } else {
      ByteSplit(c);
      HexRoundTrip(c / 16);
      HexRoundTrip(c % 16);
      assert s[3..] == rest;
    }
  }

  /** Decoding an encoded message gives the message, for every byte string. */
  lemma {:induction false} RoundTrip(msg: seq<Byte>)
    ensures Decode(Encode(msg)) == msg
  {
    if msg != [] {
      DecodeByte(msg[0], Encode(msg[1..]));
      RoundTrip(msg[1..]);
    }
  }

  lemma EncodeInjective(a: seq<Byte>, b: seq<Byte>)
    requires Encode(a) == Encode(b)
    ensures a == b
  {
    RoundTrip(a);
    RoundTrip(b);
  }

  /** The output is printable ASCII and at most three times as long. */
  lemma {:induction false} OutputIsPrintable(msg: seq<Byte>)
    ensures forall i :: 0 <= i < |Encode(msg)| ==> 0x20 <= Encode(msg)[i] <= 0x7E
    ensures |msg| <= |Encode(msg)| <= 3 * |msg|
  {
    if msg != [] { OutputIsPrintable(msg[1..]); }
  }

  /******* Exactly which strings are encodings *******/

  predicate UpperHex(d: Byte) {
    0x30 <= d <= 0x39 || 0x41 <= d <= 0x46
  }

  /** Literals, and escapes with upper-case digits for bytes that are no literals. */
  predicate WellFormed(s: seq<Byte>) {
    s == [] ||
    if s[0] == Percent
    then
      && |s| >= 3 && UpperHex(s[1]) && UpperHex(s[2])
      && !Literal((HexValue(s[1]) * 16 + HexValue(s[2])) as Byte)
      && WellFormed(s[3..])
    else Literal(s[0]) && WellFormed(s[1..])
  }

  lemma DigitRoundTrip(d: Byte)
    requires UpperHex(d)
    ensures 0 <= HexValue(d) < 16 && HexDigit(HexValue(d) as Byte) == d
  {
  }

  lemma EscapeRoundTrip(hi: Byte, lo: Byte)
    requires UpperHex(hi) && UpperHex(lo) && !Literal((HexValue(hi) * 16 + HexValue(lo)) as Byte)
    ensures EncodeByte((HexValue(hi) * 16 + HexValue(lo)) as Byte) == [Percent, hi, lo]
  {
    DigitRoundTrip(hi);
    DigitRoundTrip(lo);
    var c := (HexValue(hi) * 16 + HexValue(lo)) as Byte;
    assert (c / 16) as int == HexValue(hi) && (c % 16) as int == HexValue(lo);
  }

  lemma {:induction false} WellFormedIsEncoding(s: seq<Byte>)
    requires WellFormed(s)
    ensures Encode(Decode(s)) == s
  {
    if s != [] {
      if s[0] == Percent {
        DigitRoundTrip(s[1]);
        DigitRoundTrip(s[2]);
        WellFormedIsEncoding(s[3..]);
        EscapeRoundTrip(s[1], s[2]);
        var c := (HexValue(s[1]) * 16 + HexValue(s[2])) as Byte;
        assert ([c] + Decode(s[3..]))[1..] == Decode(s[3..]);
        assert s == [Percent, s[1], s[2]] + s[3..];
      } else {
        WellFormedIsEncoding(s[1..]);
        assert ([s[0]] + Decode(s[1..]))[1..] == Decode(s[1..]);
        assert s == [s[0]] + s[1..];
      }
    }
  }

  lemma HexDigitIsUpper(n: Byte)
    requires n < 16
    ensures UpperHex(HexDigit(n))
  {
  }

  lemma EncodeByteWellFormed(c: Byte, rest: seq<Byte>)
    requires WellFormed(rest)
    ensures WellFormed(EncodeByte(c) + rest)
  {
    var s := EncodeByte(c) + rest;
    if Literal(c) {
      assert s[1..] == rest;
    } else {
      ByteSplit(c);
      HexRoundTrip(c / 16);
      HexRoundTrip(c % 16);
      HexDigitIsUpper(c / 16);
      HexDigitIsUpper(c % 16);
      assert s[3..] == rest;
    }
  }

  lemma {:induction false} EncodingIsWellFormed(msg: seq<Byte>)
    ensures WellFormed(Encode(msg))
  {
    if msg != [] {
      EncodingIsWellFormed(msg[1..]);
      EncodeByteWellFormed(msg[0], Encode(msg[1..]));
    }
  }

  /** A string is the encoding of some message exactly when it is well formed; the message is then its decoding. */
  lemma EncodingIff(s: seq<Byte>)
    ensures WellFormed(s) <==> exists msg :: Encode(msg) == s
    ensures WellFormed(s) ==> Encode(Decode(s)) == s
  {
    if WellFormed(s) { WellFormedIsEncoding(s); }
    if msg :| Encode(msg) == s { EncodingIsWellFormed(msg); }
  }

  /** A printable byte that is not the percent sign encodes as itself, any other as a percent sign and two digits. */
  lemma EncodeByteIs(c: Byte)
    ensures
      if 0x20 <= c <= 0x7E && c != 0x25 then Encode([c]) == [c]
      else Encode([c]) == [0x25, Digits[(c / 16) as int], Digits[(c % 16) as int]]
  {
    assert [c][1..] == [];
    assert EncodeByte(c) + Encode([]) == EncodeByte(c);
    if !(0x20 <= c <= 0x7E && c != 0x25) {
      DigitIs(c / 16);
      DigitIs(c % 16);
    }
  }

  /** The bytes of "0123456789ABCDEF". */
  const Digits: seq<Byte> :=
    [0x30, 0x31, 0x32, 0x33, 0x34, 0x35, 0x36, 0x37, 0x38, 0x39, 0x41, 0x42, 0x43, 0x44, 0x45, 0x46]

  lemma DigitIs(n: Byte)
    requires n < 16
    ensures HexDigit(n) == Digits[n as int]
  {
  }

  predicate Plain(c: Byte) {
    0x20 <= c <= 0x7E && c != 0x25
  }

  /** Exactly the messages of printable bytes without percent sign are left alone. */
  lemma {:induction false} UnchangedIff(msg: seq<Byte>)
    ensures Encode(msg) == msg <==> forall i :: 0 <= i < |msg| ==> Plain(msg[i])
  {
    if msg != [] {
      var rest := msg[1..];
      UnchangedIff(rest);
      OutputIsPrintable(rest);
      assert msg == [msg[0]] + rest;
      if Literal(msg[0]) {
        assert Encode(msg) == [msg[0]] + Encode(rest);
        assert Encode(msg)[1..] == Encode(rest);
        assert forall i :: 0 <= i < |rest| ==> rest[i] == msg[i + 1];
      } else {
        assert |Encode(msg)| == 3 + |Encode(rest)| > |msg|;
      }
    }
  }
}
