/** Bytes, big-endian numbers, lexicographic order, and the small vocabulary shared by the model. */
module Bytes {

  /** One octet. */
  type Byte = b: int | 0 <= b < 256

  datatype Option<+T> = None | Some(value: T)

  datatype Result<+T, +E> = Ok(value: T) | Err(error: E)

  ghost predicate Distinct<T>(s: seq<T>) { forall i, j :: 0 <= i < j < |s| ==> s[i] != s[j] }

  function Max(a: nat, b: nat): nat { if a < b then b else a }

  //// Big-endian naturals

  /** The number a big-endian byte string denotes. */
  function FromBE(s: seq<Byte>): nat {
    if s == [] then 0 else FromBE(s[..|s| - 1]) * 256 + s[|s| - 1]
  }

  /** The shortest big-endian byte string denoting `n`. */
  function ToBE(n: nat): (s: seq<Byte>) {
    if n == 0 then [] else ToBE(n / 256) + [n % 256]
  }

  ghost function Pow256(k: nat): nat {
    if k == 0 then 1 else 256 * Pow256(k - 1)
  }

  /** A byte string without leading zero octets. */
  predicate Minimal(s: seq<Byte>) {
    s == [] || s[0] != 0
  }

  lemma {:induction false} ToBEDenotes(n: nat)
    ensures FromBE(ToBE(n)) == n
    ensures Minimal(ToBE(n))
    ensures n > 0 ==> ToBE(n) != []
  {
    if n > 0 {
      ToBEDenotes(n / 256);
      var p := ToBE(n / 256);
      assert ToBE(n)[..|ToBE(n)| - 1] == p;
    }
  }

  lemma {:induction false} ToBELength(n: nat, k: nat)
    requires n < Pow256(k)
    ensures |ToBE(n)| <= k
  {
    if n > 0 {
      ToBELength(n / 256, k - 1);
    }
  }

  /** A minimal byte string is the one `ToBE` produces for the number it denotes. */
  lemma {:induction false} MinimalIsUnique(s: seq<Byte>)
    requires Minimal(s)
    ensures s == ToBE(FromBE(s))
  {
    if s != [] {
      var p := s[..|s| - 1];
      assert s == p + [s[|s| - 1]];
      assert Minimal(p);
      MinimalIsUnique(p);
      if p != [] {
        MinimalIsPositive(p);
      }
    }
  }

  lemma {:induction false} MinimalIsPositive(s: seq<Byte>)
    requires s != [] && s[0] != 0
    ensures FromBE(s) > 0
  {
    if |s| > 1 {
      MinimalIsPositive(s[..|s| - 1]);
    }
  }

  /** Leading zeros do not change the number. */
  lemma {:induction false} LeadingZero(s: seq<Byte>)
    ensures FromBE([0] + s) == FromBE(s)
  {
    if s != [] {
      LeadingZero(s[..|s| - 1]);
      assert ([0] + s)[..|s|] == [0] + s[..|s| - 1];
    } else {
      assert ([0] + s)[..0] == [];
    }
  }

  //// Lexicographic order of byte strings, as Rust compares slices and strings

  predicate LexLe(a: seq<Byte>, b: seq<Byte>) {
    if a == [] then true
    else if b == [] then false
    else if a[0] != b[0] then a[0] < b[0]
    else LexLe(a[1..], b[1..])
  }

  /** The first place where two strings differ decides, and a beginning comes before what it begins. */
  lemma {:induction false} LexMeans(p: seq<Byte>, x: Byte, s: seq<Byte>, y: Byte, t: seq<Byte>)
    ensures x != y ==> (LexLe(p + [x] + s, p + [y] + t) <==> x < y)
    ensures LexLe(p, p + s) && (LexLe(p + s, p) ==> s == [])
  {
    var a, b := p + [x] + s, p + [y] + t;
    if p != [] {
      LexMeans(p[1..], x, s, y, t);
      assert a[1..] == p[1..] + [x] + s && b[1..] == p[1..] + [y] + t && a[0] == b[0];
      assert (p + s)[1..] == p[1..] + s && (p + s)[0] == p[0];
    } else {
      assert a[0] == x && b[0] == y && p + s == s;
    }
  }

  lemma {:induction false} LexTotal(a: seq<Byte>, b: seq<Byte>)
    ensures LexLe(a, b) || LexLe(b, a)
  {
    if a != [] && b != [] && a[0] == b[0] {
      LexTotal(a[1..], b[1..]);
    }
  }

  lemma {:induction false} LexAntisymmetric(a: seq<Byte>, b: seq<Byte>)
    requires LexLe(a, b) && LexLe(b, a)
    ensures a == b
  {
    if a != [] && b != [] {
      LexAntisymmetric(a[1..], b[1..]);
      assert a == [a[0]] + a[1..] && b == [b[0]] + b[1..];
    }
  }

  lemma {:induction false} LexTransitive(a: seq<Byte>, b: seq<Byte>, c: seq<Byte>)
    requires LexLe(a, b) && LexLe(b, c)
    ensures LexLe(a, c)
  {
    if a != [] && b != [] && c != [] && a[0] == b[0] == c[0] {
      LexTransitive(a[1..], b[1..], c[1..]);
    }
  }
}
