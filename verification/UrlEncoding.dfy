/** Query-parameter encoding, and the form decoder that undoes it. */
module UrlEncoding {
  import opened Bytes
  import Utf8

  /** The unreserved characters of RFC 3986, section 2.3. */
  predicate Unreserved(c: char) {
    'A' <= c <= 'Z' || 'a' <= c <= 'z' || '0' <= c <= '9' || c == '-' || c == '_' || c == '.' || c == '~'
  }

  function HexDigit(n: nat): char
    requires n < 16
  {
    if n < 10 then ('0' as int + n) as char else ('A' as int + n - 10) as char
  }

  /** `%` and two upper-case hex digits for every byte. */
  function PercentEncoded(bs: seq<Byte>): string {
    if bs == [] then ""
    else ['%', HexDigit(bs[0] / 16), HexDigit(bs[0] % 16)] + PercentEncoded(bs[1..])
  }

  function EncodedChar(c: char): string {
    if Unreserved(c) then [c] else if c == ' ' then "+" else PercentEncoded(Utf8.EncodeChar(c))
  }

  function UrlEncoded(s: string): string {
    if s == "" then "" else EncodedChar(s[0]) + UrlEncoded(s[1..])
  }

  /** The inner loop: pushes the bytes of one character. */
  method PushBytes(start: string, bytes: seq<Byte>) returns (result: string)
    ensures result == start + PercentEncoded(bytes)
  {
    result := start;
    assert bytes[0..] == bytes;
    for j := 0 to |bytes|
      invariant start + PercentEncoded(bytes) == result + PercentEncoded(bytes[j..])
    {
      assert bytes[j..][1..] == bytes[j + 1..];
      result := result + ['%', HexDigit(bytes[j] / 16), HexDigit(bytes[j] % 16)];
    }
  }

  lemma {:induction false} UrlEncodedSnoc(s: string, c: char)
    ensures UrlEncoded(s + [c]) == UrlEncoded(s) + EncodedChar(c)
  {
    if s == "" {
      assert UrlEncoded([c]) == EncodedChar(c) + UrlEncoded([c][1..]);
    } else {
      assert (s + [c])[1..] == s[1..] + [c];
      UrlEncodedSnoc(s[1..], c);
    }
  }

  method PushChar(start: string, c: char) returns (result: string)
    ensures result == start + EncodedChar(c)
  {
    if Unreserved(c) {
      result := start + [c];
    } else if c == ' ' {
      result := start + "+";
    } else {
      result := PushBytes(start, Utf8.EncodeChar(c));
    }
  }

  /** The loop that pushes the encoding of one character after the other. */
  method Urlencode(s: string) returns (result: string)
    ensures result == UrlEncoded(s)
  {
    result := "";
    for i := 0 to |s|
      invariant result == UrlEncoded(s[..i])
    {
      assert s[..i + 1] == s[..i] + [s[i]];
      UrlEncodedSnoc(s[..i], s[i]);
      result := PushChar(result, s[i]);
    }
    assert s[..|s|] == s;
  }

  function HexValue(c: char): int {
    if '0' <= c <= '9' then c as int - '0' as int
    else if 'A' <= c <= 'F' then c as int - 'A' as int + 10
    else if 'a' <= c <= 'f' then c as int - 'a' as int + 10
    else -1
  }

  /** The application/x-www-form-urlencoded value parser of the WHATWG URL Standard, section 5.1:
      '+' is a space, a percent sign with two hex digits is a byte, anything else stands for itself. */
  function FormDecoded(t: string): seq<Byte> {
    if t == "" then []
    else if t[0] == '+' then [0x20] + FormDecoded(t[1..])
    else if t[0] == '%' && |t| >= 3 && HexValue(t[1]) >= 0 && HexValue(t[2]) >= 0 then
      [HexValue(t[1]) * 16 + HexValue(t[2])] + FormDecoded(t[3..])
    else Utf8.EncodeChar(t[0]) + FormDecoded(t[1..])
  }

  lemma DecodeTriple(b: Byte, t: string, rest: string)
    requires t == ['%', HexDigit(b / 16), HexDigit(b % 16)] + rest
    ensures FormDecoded(t) == [b] + FormDecoded(rest)
  {
    assert t[3..] == rest;
    assert HexValue(t[1]) == b / 16 && HexValue(t[2]) == b % 16;
  }

  lemma PercentFirst(bs: seq<Byte>, rest: string)
    requires bs != []
    ensures PercentEncoded(bs) + rest == ['%', HexDigit(bs[0] / 16), HexDigit(bs[0] % 16)] + (PercentEncoded(bs[1..]) + rest)
  {
  }

  lemma {:induction false} DecodePercentTo(bs: seq<Byte>, rest: string, t: string)
    requires t == PercentEncoded(bs) + rest
    ensures FormDecoded(t) == bs + FormDecoded(rest)
    decreases |bs|
  {
    if bs == [] {
      assert t == rest;
    } else {
      var more := PercentEncoded(bs[1..]) + rest;
      PercentFirst(bs, rest);
      DecodeTriple(bs[0], t, more);
      DecodePercentTo(bs[1..], rest, more);
      ConsAssoc(bs, FormDecoded(rest));
    }
  }

  lemma ConsAssoc(bs: seq<Byte>, rest: seq<Byte>)
    requires bs != []
    ensures [bs[0]] + (bs[1..] + rest) == bs + rest
  {
  }

  lemma DecodePercent(bs: seq<Byte>, rest: string)
    ensures FormDecoded(PercentEncoded(bs) + rest) == bs + FormDecoded(rest)
  {
    DecodePercentTo(bs, rest, PercentEncoded(bs) + rest);
  }

  /** Decoding gives back the UTF-8 bytes of every string. */
  lemma {:induction false} FormDecodeUndoesUrlencode(s: string)
    ensures FormDecoded(UrlEncoded(s)) == Utf8.Encode(s)
  {
    if s != "" {
      var t := UrlEncoded(s);
      FormDecodeUndoesUrlencode(s[1..]);
      if Unreserved(s[0]) || s[0] == ' ' {
        assert t[1..] == UrlEncoded(s[1..]);
      } else {
        DecodePercent(Utf8.EncodeChar(s[0]), UrlEncoded(s[1..]));
      }
    }
  }

  lemma UrlEncodedIsInjective(s: string, t: string)
    requires UrlEncoded(s) == UrlEncoded(t)
    ensures s == t
  {
    FormDecodeUndoesUrlencode(s);
    FormDecodeUndoesUrlencode(t);
    Utf8.EncodeIsInjective(s, t);
  }

  predicate UpperHex(c: char) { '0' <= c <= '9' || 'A' <= c <= 'F' }

  /** Unreserved characters, '+', and percent signs each followed by two upper-case hex digits. */
  predicate QuerySafe(t: string) {
    t == ""
    || ((Unreserved(t[0]) || t[0] == '+') && QuerySafe(t[1..]))
    || (t[0] == '%' && |t| >= 3 && UpperHex(t[1]) && UpperHex(t[2]) && QuerySafe(t[3..]))
  }

  lemma SafeTriple(b: Byte, t: string, rest: string)
    requires t == ['%', HexDigit(b / 16), HexDigit(b % 16)] + rest && QuerySafe(rest)
    ensures QuerySafe(t)
  {
    assert t[3..] == rest;
  }

  lemma {:induction false} PercentIsSafe(bs: seq<Byte>, rest: string)
    requires QuerySafe(rest)
    ensures QuerySafe(PercentEncoded(bs) + rest)
  {
    if bs == [] {
      assert PercentEncoded(bs) + rest == rest;
    } else {
      PercentIsSafe(bs[1..], rest);
      PercentFirst(bs, rest);
      SafeTriple(bs[0], PercentEncoded(bs) + rest, PercentEncoded(bs[1..]) + rest);
    }
  }

  lemma {:induction false} UrlEncodedIsQuerySafe(s: string)
    ensures QuerySafe(UrlEncoded(s))
  {
    if s != "" {
      UrlEncodedIsQuerySafe(s[1..]);
      if Unreserved(s[0]) || s[0] == ' ' {
        assert UrlEncoded(s)[1..] == UrlEncoded(s[1..]);
      } else {
        PercentIsSafe(Utf8.EncodeChar(s[0]), UrlEncoded(s[1..]));
      }
    }
  }
}
