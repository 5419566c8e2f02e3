/** Minimal scalars: from what API callers write to what goes into transactions. */
module Scalars {
  import opened Bytes
  import opened EthTx
  import opened Hex
  import opened Text

  //// Scalars

  /** The digits of an input: surrounding white space and one "0x" are ignored. */
  function Digits(input: string): string {
    var t := Trim(input);
    if "0x" <= t then t[2..] else t
  }

  function ParseHexBytes(input: string): Option<seq<Byte>> {
    var d := Digits(input);
    if d == "" then Some([]) else if |d| % 2 != 0 then HexDecode("0" + d) else HexDecode(d)
  }

  /** Drop leading zero bytes. */
  function TrimScalar(b: seq<Byte>): (t: seq<Byte>)
    ensures Minimal(t) && |t| <= |b|
    ensures FromBE(t) == FromBE(b)
    ensures b == seq(|b| - |t|, _ => 0) + t
  {
    if b != [] && b[0] == 0 then
      LeadingZero(b[1..]);
      assert b == [0] + b[1..];
      var t := TrimScalar(b[1..]);
      assert [0] + seq(|b| - 1 - |t|, _ => 0) == seq(|b| - |t|, _ => 0);
      t
    else b
  }

  function ParseScalarHex(input: string): Option<seq<Byte>> {
    match ParseHexBytes(input)
    case None => None
    case Some(b) => Some(TrimScalar(b))
  }

  /**
   * A scalar is accepted exactly when its digits are hexadecimal, and then the result is the
   * shortest byte string of the number they denote.
   */
  lemma {:induction false} ScalarDenotes(input: string)
    ensures ParseScalarHex(input).Some? <==> AllHex(Digits(input))
    ensures AllHex(Digits(input)) ==> ParseScalarHex(input) == Some(ToBE(HexNumber(Digits(input))))
  {
    var d := Digits(input);
    var padded := if |d| % 2 != 0 then "0" + d else d;
    assert ParseHexBytes(input) == HexDecode(padded);
    hide Digits, HexDecode, HexNumber, ParseHexBytes, FromBE, ToBE, DigitValue, TrimScalar;
    DecodeAccepts(padded);
    if AllHex(d) {
      PaddingKeepsNumber(d);
      DecodeDenotes(padded);
      MinimalIsUnique(TrimScalar(HexDecode(padded).value));
    } else if |d| % 2 != 0 {
      assert forall i :: 0 <= i < |d| ==> d[i] == padded[i + 1];
    }
  }

  /** The digits are what is left without the white space around them and one "0x" in front of them. */
  lemma {:induction false} DigitsMean(a: string, d: string, b: string)
    requires Blank(a) && Blank(b) && Tight(d)
    ensures Digits(a + ("0x" + d) + b) == d
    ensures !("0x" <= d) ==> Digits(a + d + b) == d
  {
    var s := "0x" + d;
    assert s[0] == '0' && s[|s| - 1] == if d == "" then 'x' else d[|d| - 1];
    TrimOf(a, s, b);
    TrimOf(a, d, b);
    assert s[2..] == d;
  }

  /** Two accepted inputs give the same scalar exactly when they denote the same number. */
  lemma {:induction false} ScalarsAgree(a: string, b: string)
    requires AllHex(Digits(a)) && AllHex(Digits(b))
    ensures ParseScalarHex(a) == ParseScalarHex(b) <==> HexNumber(Digits(a)) == HexNumber(Digits(b))
  {
    ScalarDenotes(a);
    ScalarDenotes(b);
    ToBEDenotes(HexNumber(Digits(a)));
    ToBEDenotes(HexNumber(Digits(b)));
  }

  //// Signatures

  /** The recoverable form: r and s in 32 bytes each, then the y-parity. */
  function FromRecoverable(sig: seq<Byte>): Result<TxSignature, Byte>
    requires |sig| == 65
  {
    if sig[64] > 1 then Err(sig[64])
    else Ok(TxSignature(sig[64], TrimScalar(sig[..32]), TrimScalar(sig[32..64])))
  }

  function LeftPad(b: seq<Byte>, n: nat): seq<Byte>
    requires |b| <= n
  {
    seq(n - |b|, _ => 0) + b
  }

  /** Nothing of an accepted signature is lost: padding r and s back restores its 65 bytes. */
  lemma {:induction false} SignatureRestored(sig: seq<Byte>)
    requires |sig| == 65
    ensures FromRecoverable(sig).Ok? <==> sig[64] <= 1
    ensures sig[64] <= 1 ==>
              var t := FromRecoverable(sig).value;
              && |t.r| <= 32 && |t.s| <= 32
              && LeftPad(t.r, 32) + LeftPad(t.s, 32) + [t.yParity] == sig
              && Minimal(t.r) && Minimal(t.s)
  {
    assert sig == sig[..32] + sig[32..64] + [sig[64]];
  }
}
