/** UTF-8 (RFC 3629): the encoder, the decoder, and the proof that they are inverse. */
module Utf8 {
  import opened Wrappers
  import opened Bytes

  function EncodeChar(c: char): (r: seq<Byte>)
    ensures 1 <= |r| <= 4
  {
    var u := c as int;
    if u < 0x80 then [u]
    else if u < 0x800 then [0xC0 + u / 64, 0x80 + u % 64]
    else if u < 0x1_0000 then [0xE0 + u / 4096, 0x80 + u / 64 % 64, 0x80 + u % 64]
    else [0xF0 + u / 262144, 0x80 + u / 4096 % 64, 0x80 + u / 64 % 64, 0x80 + u % 64]
  }

  function Encode(s: string): seq<Byte> {
    if s == "" then [] else EncodeChar(s[0]) + Encode(s[1..])
  }

  predicate Continuation(b: Byte) { 0x80 <= b < 0xC0 }

  /** Number of bytes the lead byte announces; 0 for a byte that cannot lead. */
  function LeadLength(b: Byte): nat {
    if b < 0x80 then 1
    else if 0xC0 <= b < 0xE0 then 2
    else if 0xE0 <= b < 0xF0 then 3
    else if 0xF0 <= b < 0xF8 then 4
    else 0
  }

  function Scalar2(b0: int, b1: int): Option<int> {
    var u := (b0 - 0xC0) * 64 + (b1 - 0x80);
    if u < 0x80 then None else Some(u)
  }

  function Scalar3(b0: int, b1: int, b2: int): Option<int> {
    var u := (b0 - 0xE0) * 4096 + (b1 - 0x80) * 64 + (b2 - 0x80);
    if u < 0x800 || 0xD800 <= u < 0xE000 then None else Some(u)
  }

  function Scalar4(b0: int, b1: int, b2: int, b3: int): Option<int> {
    var u := (b0 - 0xF0) * 262144 + (b1 - 0x80) * 4096 + (b2 - 0x80) * 64 + (b3 - 0x80);
    if u < 0x1_0000 || 0x11_0000 <= u then None else Some(u)
  }

  /** The code point spelled by exactly these bytes, if they are its shortest form. */
  function CodePoint(bs: seq<Byte>): Option<int>
    requires 1 <= |bs| <= 4 && LeadLength(bs[0]) == |bs|
  {
    if |bs| == 1 then Some(bs[0])
    else if !Continuation(bs[1]) then None
    else if |bs| == 2 then Scalar2(bs[0], bs[1])
    else if !Continuation(bs[2]) then None
    else if |bs| == 3 then Scalar3(bs[0], bs[1], bs[2])
    else if !Continuation(bs[3]) then None
    else Scalar4(bs[0], bs[1], bs[2], bs[3])
  }

  /** The character whose encoding these bytes are. */
  function Scalar(bs: seq<Byte>): (r: Option<char>)
    requires bs != []
  {
    if LeadLength(bs[0]) != |bs| then None
    else
      match CodePoint(bs)
      case None => None
      case Some(u) => CodePointRange(bs); Some(u as char)
  }

  lemma CodePointRange(bs: seq<Byte>)
    requires 1 <= |bs| <= 4 && LeadLength(bs[0]) == |bs| && CodePoint(bs).Some?
    ensures 0 <= CodePoint(bs).value < 0xD800 || 0xE000 <= CodePoint(bs).value < 0x11_0000
  {
  }

  function Decode(bs: seq<Byte>): Option<string>
    decreases |bs|
  {
    if bs == [] then Some("")
    else
      var n := LeadLength(bs[0]);
      if n == 0 || |bs| < n || Scalar(bs[..n]).None? then None
      else
        match Decode(bs[n..])
        case None => None
        case Some(rest) => Some([Scalar(bs[..n]).value] + rest)
  }

  lemma Digits3(u: int)
    requires 0 <= u < 0x1_0000
    ensures u == u / 4096 * 4096 + u / 64 % 64 * 64 + u % 64
  {
    assert u / 64 / 64 == u / 4096;
  }

  lemma Digits4(u: int)
    requires 0 <= u < 0x11_0000
    ensures u == u / 262144 * 262144 + u / 4096 % 64 * 4096 + u / 64 % 64 * 64 + u % 64
  {
    assert u / 4096 / 64 == u / 262144;
    assert u / 64 / 64 == u / 4096;
  }

  lemma ScalarOfEncodeChar(c: char)
    ensures LeadLength(EncodeChar(c)[0]) == |EncodeChar(c)|
    ensures Scalar(EncodeChar(c)) == Some(c)
  {
    var u, bs := c as int, EncodeChar(c);
    if |bs| == 3 {
      Digits3(u);
    } else if |bs| == 4 {
      Digits4(u);
    }
    assert CodePoint(bs) == Some(u);
  }

  lemma SplitLow(q: int, r: int)
    requires 0 <= r < 64
    ensures (q * 64 + r) / 64 == q && (q * 64 + r) % 64 == r
  {
  }

  lemma ThreeDigits(a: nat, b: nat, c: nat)
    requires b < 64 && c < 64
    ensures var u := (a * 64 + b) * 64 + c; u / 4096 == a && u / 64 % 64 == b && u % 64 == c
  {
    var u := (a * 64 + b) * 64 + c;
    SplitLow(a * 64 + b, c);
    SplitLow(a, b);
    assert u / 4096 == u / 64 / 64;
  }

  lemma FourDigits(a: nat, b: nat, c: nat, d: nat)
    requires b < 64 && c < 64 && d < 64
    ensures var u := ((a * 64 + b) * 64 + c) * 64 + d; u / 262144 == a && u / 4096 % 64 == b && u / 64 % 64 == c && u % 64 == d
  {
    var u := ((a * 64 + b) * 64 + c) * 64 + d;
    SplitLow((a * 64 + b) * 64 + c, d);
    ThreeDigits(a, b, c);
    assert u / 4096 == u / 64 / 64 && u / 262144 == u / 64 / 4096;
  }

  lemma EncodeCharOfScalar(bs: seq<Byte>)
    requires bs != [] && Scalar(bs).Some?
    ensures EncodeChar(Scalar(bs).value) == bs
  {
    var c := Scalar(bs).value;
    var u := c as int;
    var lead: int := bs[0];
    if |bs| == 2 {
      SplitLow(lead - 0xC0, bs[1] - 0x80);
    } else if |bs| == 3 {
      assert u == ((lead - 0xE0) * 64 + (bs[1] - 0x80)) * 64 + (bs[2] - 0x80);
      ThreeDigits(lead - 0xE0, bs[1] - 0x80, bs[2] - 0x80);
    } else if |bs| == 4 {
      assert u == (((lead - 0xF0) * 64 + (bs[1] - 0x80)) * 64 + (bs[2] - 0x80)) * 64 + (bs[3] - 0x80);
      FourDigits(lead - 0xF0, bs[1] - 0x80, bs[2] - 0x80, bs[3] - 0x80);
    }
    assert EncodeChar(c) == bs;
  }

  lemma {:induction false} DecodeOfEncode(s: string)
    ensures Decode(Encode(s)) == Some(s)
  {
    if s != "" {
      var first := EncodeChar(s[0]);
      ScalarOfEncodeChar(s[0]);
      var bs := first + Encode(s[1..]);
      assert Encode(s) == bs && bs[0] == first[0];
      assert bs[..|first|] == first && bs[|first|..] == Encode(s[1..]);
      DecodeOfEncode(s[1..]);
      assert s == [s[0]] + s[1..];
    }
  }

  lemma EncodeCons(c: char, s: string)
    ensures Encode([c] + s) == EncodeChar(c) + Encode(s)
  {
    assert ([c] + s)[1..] == s;
  }

  /** The first character decodes from its encoding; so if the rest does, all does. */
  lemma DecodeStep(bs: seq<Byte>) returns (n: nat)
    requires bs != [] && Decode(bs).Some?
    ensures 1 <= n <= |bs| && Decode(bs[n..]).Some?
    ensures Encode(Decode(bs[n..]).value) == bs[n..] ==> Encode(Decode(bs).value) == bs
  {
    n := LeadLength(bs[0]);
    EncodeCharOfScalar(bs[..n]);
    EncodeCons(Scalar(bs[..n]).value, Decode(bs[n..]).value);
    assert bs == bs[..n] + bs[n..];
  }

  lemma {:induction false} EncodeOfDecode(bs: seq<Byte>)
    requires Decode(bs).Some?
    ensures Encode(Decode(bs).value) == bs
    decreases |bs|
  {
    if bs != [] {
      var n := DecodeStep(bs);
      EncodeOfDecode(bs[n..]);
    }
  }

  lemma EncodeIsInjective(s: string, t: string)
    requires Encode(s) == Encode(t)
    ensures s == t
  {
    DecodeOfEncode(s);
    DecodeOfEncode(t);
  }
}
