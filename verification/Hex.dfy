/** Hexadecimal text, as the API accepts and the store records it. */
module Hex {
  import opened Bytes

  function DigitValue(c: char): (r: Option<nat>)
    ensures r.Some? ==> r.value < 16
  {
    if '0' <= c <= '9' then Some(c as int - '0' as int)
    else if 'a' <= c <= 'f' then Some(c as int - 'a' as int + 10)
    else if 'A' <= c <= 'F' then Some(c as int - 'A' as int + 10)
    else None
  }

  function HexDigit(n: nat): char
    requires n < 16
  {
    if n < 10 then '0' + n as char else 'a' + (n - 10) as char
  }

  /** Digits are read in either case and written in lower case. */
  lemma {:induction false} DigitMeans(c: char, n: nat)
    requires n < 16
    ensures DigitValue(c) == Some(n) <==> c == "0123456789abcdef"[n] || c == "0123456789ABCDEF"[n]
    ensures HexDigit(n) == "0123456789abcdef"[n]
  {
  }

  predicate AllHex(s: string) {
    forall i :: 0 <= i < |s| ==> DigitValue(s[i]).Some?
  }

  /** Pairs of digits to bytes; odd lengths and other characters are refused. */
  function HexDecode(s: string): (r: Option<seq<Byte>>) {
    if s == "" then Some([])
    else if |s| == 1 then None
    else match (DigitValue(s[0]), DigitValue(s[1]), HexDecode(s[2..]))
      case (Some(hi), Some(lo), Some(rest)) => Some([hi * 16 + lo] + rest)
      case _ => None
  }

  function HexEncode(b: seq<Byte>): string {
    if b == [] then "" else [HexDigit(b[0] / 16), HexDigit(b[0] % 16)] + HexEncode(b[1..])
  }

  lemma {:induction false} HexRoundTrip(b: seq<Byte>)
    ensures HexDecode(HexEncode(b)) == Some(b)
  {
    if b != [] {
      HexRoundTrip(b[1..]);
      var s := HexEncode(b);
      assert s[2..] == HexEncode(b[1..]);
      assert b == [b[0]] + b[1..];
    }
  }

  /** The number a string of hexadecimal digits denotes, read left to right. */
  function HexNumber(s: string): nat
    requires AllHex(s)
  {
    if s == "" then 0 else HexNumber(s[..|s| - 1]) * 16 + DigitValue(s[|s| - 1]).value
  }

  lemma {:induction false} DecodeAccepts(s: string)
    ensures HexDecode(s).Some? <==> |s| % 2 == 0 && AllHex(s)
  {
    if |s| >= 2 {
      DecodeAccepts(s[2..]);
      assert forall i :: 2 <= i < |s| ==> s[i] == s[2..][i - 2];
    }
  }

  lemma {:induction false} DecodeSnoc(s: string, hi: char, lo: char)
    requires HexDecode(s).Some? && DigitValue(hi).Some? && DigitValue(lo).Some?
    ensures HexDecode(s + [hi, lo]) == Some(HexDecode(s).value + [DigitValue(hi).value * 16 + DigitValue(lo).value])
  {
    if s != "" {
      DecodeSnoc(s[2..], hi, lo);
      assert (s + [hi, lo])[2..] == s[2..] + [hi, lo];
      var first, rest := HexDecode(s).value[0], HexDecode(s[2..]).value;
      var pair := [DigitValue(hi).value * 16 + DigitValue(lo).value];
      assert [first] + (rest + pair) == [first] + rest + pair;
    } else {
      assert s + [hi, lo] == [hi, lo] && [hi, lo][2..] == "";
      var pair := [DigitValue(hi).value * 16 + DigitValue(lo).value];
      assert HexDecode([hi, lo]) == Some(pair + []);
      assert pair + [] == [] + pair;
    }
  }

  /** Decoding keeps the number. */
  lemma {:induction false} DecodeDenotes(s: string)
    requires |s| % 2 == 0 && AllHex(s)
    ensures HexDecode(s).Some? && FromBE(HexDecode(s).value) == HexNumber(s)
  {
    DecodeAccepts(s);
    if s != "" {
      var t := s[..|s| - 2];
      DecodeDenotes(t);
      DecodeSnoc(t, s[|s| - 2], s[|s| - 1]);
      assert s == t + [s[|s| - 2], s[|s| - 1]];
      var b := HexDecode(s).value;
      assert b[..|b| - 1] == HexDecode(t).value;
      assert s[..|s| - 1][..|s| - 2] == t;
    }
  }

  lemma {:induction false} PaddingKeepsNumber(s: string)
    requires AllHex(s)
    ensures AllHex("0" + s) && HexNumber("0" + s) == HexNumber(s)
  {
    var p := "0" + s;
    assert forall i :: 1 <= i < |p| ==> p[i] == s[i - 1];
    if s != "" {
      PaddingKeepsNumber(s[..|s| - 1]);
      assert p[..|p| - 1] == "0" + s[..|s| - 1];
    } else {
      assert p[..0] == "";
    }
  }
}
