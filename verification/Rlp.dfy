/**
 * Recursive Length Prefix as in Appendix B of the Ethereum Yellow Paper: item trees and their
 * encoding, and the slice decoder the transaction parser reads through.
 */
module Rlp {
  import opened Bytes

  datatype Item = Str(data: seq<Byte>) | List(items: seq<Item>)

  /** Lengths are machine words: every slice is shorter than this. */
  const USIZE: nat := 0x1_0000_0000_0000_0000

  //// Encoding

  function HeaderSize(n: nat): nat {
    if n <= 55 then 1 else 1 + |ToBE(n)|
  }

  /** The number of bytes an item encodes to. */
  function Size(x: Item): nat
    decreases x, 1
  {
    match x
    case Str(d) => if |d| == 1 && d[0] < 0x80 then 1 else HeaderSize(|d|) + |d|
    case List(xs) => HeaderSize(SizeAll(xs)) + SizeAll(xs)
  }

  function SizeAll(xs: seq<Item>): nat
    decreases xs, 0
  {
    if xs == [] then 0 else Size(xs[0]) + SizeAll(xs[1..])
  }

  lemma {:induction false} WordLength(n: nat)
    requires n < USIZE
    ensures |ToBE(n)| <= 8
  {
    assert Pow256(8) == USIZE;
    ToBELength(n, 8);
  }

  /** The header of a payload of `n` bytes; `base` is 0x80 for strings and 0xc0 for lists. */
  function Header(n: nat, base: Byte): (h: seq<Byte>)
    requires n < USIZE && base <= 0xc0
    ensures |h| == HeaderSize(n)
  {
    if n <= 55 then [base + n]
    else
      WordLength(n);
      [base + 55 + |ToBE(n)|] + ToBE(n)
  }

  function Encode(x: Item): (e: seq<Byte>)
    requires Size(x) < USIZE
    ensures |e| == Size(x)
    decreases x, 1
  {
    match x
    case Str(d) => if |d| == 1 && d[0] < 0x80 then d else Header(|d|, 0x80) + d
    case List(xs) => Header(SizeAll(xs), 0xc0) + EncodeAll(xs)
  }

  function EncodeAll(xs: seq<Item>): (e: seq<Byte>)
    requires SizeAll(xs) < USIZE
    ensures |e| == SizeAll(xs)
    decreases xs, 0
  {
    if xs == [] then [] else Encode(xs[0]) + EncodeAll(xs[1..])
  }

  lemma {:induction false} SizeAllConcat(xs: seq<Item>, ys: seq<Item>)
    ensures SizeAll(xs + ys) == SizeAll(xs) + SizeAll(ys)
  {
    if xs == [] {
      assert xs + ys == ys;
    } else {
      assert (xs + ys)[1..] == xs[1..] + ys;
      SizeAllConcat(xs[1..], ys);
    }
  }

  lemma {:induction false} EncodeAllConcat(xs: seq<Item>, ys: seq<Item>)
    requires SizeAll(xs + ys) < USIZE
    ensures SizeAll(xs) + SizeAll(ys) < USIZE
    ensures EncodeAll(xs + ys) == EncodeAll(xs) + EncodeAll(ys)
  {
    SizeAllConcat(xs, ys);
    if xs == [] {
      assert xs + ys == ys;
    } else {
      assert (xs + ys)[1..] == xs[1..] + ys;
      EncodeAllConcat(xs[1..], ys);
    }
  }

  lemma {:induction false} EncodeAllOne(x: Item)
    requires Size(x) < USIZE
    ensures SizeAll([x]) == Size(x)
    ensures EncodeAll([x]) == Encode(x)
  {
    assert SizeAll([x]) == Size(x) + SizeAll([x][1..]);
    assert [x][1..] == [];
  }

  //// Decoding

  datatype Info = Info(header: nat, value: nat)

  /** Header of a payload whose length is itself written in `k` bytes. */
  function LongInfo(b: seq<Byte>, k: nat): Option<Info> {
    if |b| < 2 || b[1] == 0 || |b| < 1 + k then None
    else
      var v := FromBE(b[1..1 + k]);
      if v <= 55 then None else Some(Info(1 + k, v))
  }

  /** What the first byte and the length octets say about the item `b` starts with. */
  function HeaderInfo(b: seq<Byte>): Option<Info> {
    if b == [] then None
    else if b[0] <= 0x7f then Some(Info(0, 1))
    else if b[0] <= 0xb7 then Some(Info(1, b[0] - 0x80))
    else if b[0] <= 0xbf then LongInfo(b, b[0] - 0xb7)
    else if b[0] <= 0xf7 then Some(Info(1, b[0] - 0xc0))
    else LongInfo(b, b[0] - 0xf7)
  }

  function PayloadInfo(b: seq<Byte>): (r: Option<Info>)
    ensures r.Some? ==> 1 <= r.value.header + r.value.value <= |b|
  {
    match HeaderInfo(b)
    case Some(i) => if 1 <= i.header + i.value <= |b| then Some(i) else None
    case None => None
  }

  predicate IsList(b: seq<Byte>) {
    b != [] && b[0] >= 0xc0
  }

  /** The item slices a list payload starts with; a malformed tail ends the enumeration. */
  function Elements(p: seq<Byte>): seq<seq<Byte>> {
    match PayloadInfo(p)
    case None => []
    case Some(i) => [p[..i.header + i.value]] + Elements(p[i.header + i.value..])
  }

  /** The items of a list view; trailing bytes after the list are ignored. */
  function ListItems(b: seq<Byte>): seq<seq<Byte>> {
    match PayloadInfo(b)
    case None => []
    case Some(i) => Elements(b[i.header..i.header + i.value])
  }

  /** The contents of a string item. */
  function StringData(b: seq<Byte>): Option<seq<Byte>> {
    if b == [] || IsList(b) then None
    else match PayloadInfo(b)
      case None => None
      case Some(i) =>
        var d := b[i.header..i.header + i.value];
        if i.header == 1 && |d| == 1 && d[0] < 0x80 then None else Some(d)
  }

  lemma {:induction false} LongInfoOf(n: nat, first: Byte, rest: seq<Byte>)
    requires 55 < n < USIZE
    ensures LongInfo([first] + ToBE(n) + rest, |ToBE(n)|) == Some(Info(1 + |ToBE(n)|, n))
  {
    ToBEDenotes(n);
    var len := ToBE(n);
    hide *;
    var b := [first] + len + rest;
    assert b[1..1 + |len|] == len;
    assert b[1] == len[0];
    LongInfoIs(b, len, n);
  }

  lemma {:induction false} LongInfoIs(b: seq<Byte>, len: seq<Byte>, n: nat)
    requires 55 < n && len != [] && Minimal(len) && FromBE(len) == n
    requires 1 + |len| <= |b| && b[1..1 + |len|] == len
    ensures LongInfo(b, |len|) == Some(Info(1 + |len|, n))
  {
    assert b[1] == b[1..1 + |len|][0];
  }

  lemma {:induction false} LongHeaderInfo(n: nat, base: Byte, rest: seq<Byte>)
    requires 55 < n < USIZE && base in {0x80, 0xc0}
    ensures HeaderInfo(Header(n, base) + rest) == Some(Info(HeaderSize(n), n))
  {
    WordLength(n);
    ToBEDenotes(n);
    hide ToBE, FromBE, LongInfo;
    var k := |ToBE(n)|;
    assert 1 <= k <= 8;
    LongInfoOf(n, base + 55 + k, rest);
  }

  /** A header in front of its payload is read back, whatever follows. */
  lemma {:induction false} HeaderPrefix(p: seq<Byte>, base: Byte, rest: seq<Byte>)
    requires |p| < USIZE && base in {0x80, 0xc0}
    ensures var b := Header(|p|, base) + p + rest;
            && PayloadInfo(b) == Some(Info(HeaderSize(|p|), |p|))
            && IsList(b) == (base == 0xc0)
            && b[HeaderSize(|p|)..HeaderSize(|p|) + |p|] == p
  {
    var b := Header(|p|, base) + p + rest;
    assert b == Header(|p|, base) + (p + rest);
    if |p| > 55 {
      WordLength(|p|);
      LongHeaderInfo(|p|, base, p + rest);
    }
    assert HeaderInfo(b) == Some(Info(HeaderSize(|p|), |p|));
  }

  /** What an item carries between its header and its end. */
  function Contents(x: Item): seq<Byte>
    requires Size(x) < USIZE
  {
    if x.Str? then x.data else EncodeAll(x.items)
  }

  /** The decoder's view of an encoded item followed by anything. */
  lemma {:induction false} ItemPrefix(x: Item, rest: seq<Byte>)
    requires Size(x) < USIZE
    ensures var b := Encode(x) + rest;
            var r := PayloadInfo(b);
            && r.Some?
            && r.value.header + r.value.value == Size(x)
            && IsList(b) == x.List?
            && b[r.value.header..Size(x)] == Contents(x)
  {
    if x.Str? && |x.data| == 1 && x.data[0] < 0x80 {
      assert (Encode(x) + rest)[0..1] == x.data;
    } else {
      HeaderPrefix(Contents(x), if x.Str? then 0x80 else 0xc0, rest);
    }
  }

  //// What the decoder accepts, on any bytes

  lemma {:induction false} LongInfoMeans(b: seq<Byte>, k: nat, base: Byte)
    requires base in {0x80, 0xc0} && 1 <= k <= 8 && b != [] && b[0] == base + 55 + k && LongInfo(b, k).Some?
    ensures var i := LongInfo(b, k).value;
            55 < i.value < USIZE && i.header == HeaderSize(i.value) && Header(i.value, base) <= b
  {
    var len := b[1..1 + k];
    assert len[0] == b[1] != 0;
    MinimalIsUnique(len);
    BEBound(len);
    PowersOf256(k);
    var v := FromBE(len);
    assert b[..1 + k] == [b[0]] + len;
  }

  lemma {:induction false} BEBound(s: seq<Byte>)
    ensures FromBE(s) < Pow256(|s|)
  {
    if s != [] { BEBound(s[..|s| - 1]); }
  }

  lemma {:induction false} PowersOf256(k: nat)
    requires k <= 8
    ensures Pow256(k) <= USIZE
  {
    assert Pow256(1) == 0x100 && Pow256(2) == 0x1_0000 && Pow256(3) == 0x100_0000 && Pow256(4) == 0x1_0000_0000;
    assert Pow256(5) == 0x100_0000_0000 && Pow256(6) == 0x1_0000_0000_0000;
    assert Pow256(7) == 0x100_0000_0000_0000 && Pow256(8) == 0x1_0000_0000_0000_0000;
  }

  predicate Headed(b: seq<Byte>, i: Info, base: Byte)
    requires base <= 0xc0
  {
    i.value < USIZE && i.header == HeaderSize(i.value) && Header(i.value, base) <= b && i.header + i.value <= |b|
  }

  lemma {:induction false} HeadedIsRead(b: seq<Byte>, i: Info, base: Byte)
    requires base in {0x80, 0xc0} && Headed(b, i, base)
    ensures PayloadInfo(b) == Some(i)
  {
    var h := Header(i.value, base);
    var p := b[|h|..|h| + i.value];
    hide Header, PayloadInfo;
    HeaderPrefix(p, base, b[|h| + i.value..]);
    assert b == h + p + b[|h| + i.value..];
  }

  /** Past single bytes, the decoder accepts exactly the header of Appendix B in front of its payload. */
  lemma {:induction false} InfoMeans(b: seq<Byte>, i: Info)
    requires b != [] && b[0] >= 0x80
    ensures PayloadInfo(b) == Some(i) <==> Headed(b, i, if b[0] >= 0xc0 then 0xc0 else 0x80)
  {
    var base := if b[0] >= 0xc0 then 0xc0 else 0x80;
    if PayloadInfo(b) == Some(i) {
      if b[0] >= base + 56 {
        LongInfoMeans(b, b[0] - base - 55, base);
        hide LongInfo, ToBE;
      }
    }
    if Headed(b, i, base) { HeadedIsRead(b, i, base); }
  }

  /** Read as a string, bytes give exactly the data whose encoding they start with. */
  lemma {:induction false} StringDataMeans(b: seq<Byte>, d: seq<Byte>)
    requires |b| < USIZE
    ensures StringData(b) == Some(d) <==> Size(Str(d)) < USIZE && Encode(Str(d)) <= b
  {
    if Size(Str(d)) < USIZE && Encode(Str(d)) <= b {
      StringIsRead(b, d);
    }
    if StringData(b) == Some(d) {
      if b[0] < 0x80 { assert d == [b[0]]; } else { LongStringMeans(b, d); }
    }
  }

  lemma {:induction false} StringIsRead(b: seq<Byte>, d: seq<Byte>)
    requires Size(Str(d)) < USIZE && Encode(Str(d)) <= b
    ensures StringData(b) == Some(d)
  {
    var e := Encode(Str(d));
    ItemPrefix(Str(d), b[|e|..]);
    assert e + b[|e|..] == b;
  }

  lemma {:induction false} LongStringMeans(b: seq<Byte>, d: seq<Byte>)
    requires |b| < USIZE && StringData(b) == Some(d) && b[0] >= 0x80
    ensures Size(Str(d)) < USIZE && Encode(Str(d)) <= b
  {
    var i := PayloadInfo(b).value;
    InfoMeans(b, i);
    hide PayloadInfo, Header;
    var h := Header(i.value, 0x80);
    assert b[..i.header + i.value] == h + d;
    assert !(|d| == 1 && d[0] < 0x80);
  }

  ghost function Joined(es: seq<seq<Byte>>): seq<Byte> { if es == [] then [] else es[0] + Joined(es[1..]) }

  /** The bytes are exactly one item. */
  predicate OneItem(e: seq<Byte>) {
    PayloadInfo(e).Some? && PayloadInfo(e).value.header + PayloadInfo(e).value.value == |e|
  }

  /** The elements of a payload are whole items side by side from its start, up to where no item starts. */
  lemma {:induction false} ElementsMeans(p: seq<Byte>)
    ensures Joined(Elements(p)) <= p && PayloadInfo(p[|Joined(Elements(p))|..]).None?
    ensures forall k :: 0 <= k < |Elements(p)| ==> OneItem(Elements(p)[k])
    decreases |p|
  {
    if PayloadInfo(p).Some? {
      var n := PayloadInfo(p).value.header + PayloadInfo(p).value.value;
      assert Elements(p) == [p[..n]] + Elements(p[n..]);
      FirstItem(p, n);
      hide Elements, PayloadInfo, OneItem, Joined;
      ElementsMeans(p[n..]);
      ItemInFront(p, n, Elements(p[n..]));
    } else {
      assert p[0..] == p;
    }
  }

  lemma {:induction false} ItemInFront(p: seq<Byte>, n: nat, es: seq<seq<Byte>>)
    requires n <= |p| && Joined(es) <= p[n..] && PayloadInfo(p[n..][|Joined(es)|..]).None?
    ensures Joined([p[..n]] + es) <= p && PayloadInfo(p[|Joined([p[..n]] + es)|..]).None?
  {
    hide PayloadInfo;
    var rest := Joined(es);
    assert ([p[..n]] + es)[1..] == es;
    assert Joined([p[..n]] + es) == p[..n] + rest;
    assert p[n..][|rest|..] == p[n + |rest|..];
  }

  lemma {:induction false} FirstItem(p: seq<Byte>, n: nat)
    requires PayloadInfo(p).Some? && n == PayloadInfo(p).value.header + PayloadInfo(p).value.value
    ensures OneItem(p[..n])
  {
    if p[0] >= 0x80 {
      var i := PayloadInfo(p).value;
      InfoMeans(p, i);
      InfoMeans(p[..n], i);
    }
  }

  lemma {:induction false} ElementsStep(e: seq<Byte>, rest: seq<Byte>)
    requires PayloadInfo(e + rest).Some?
    requires var i := PayloadInfo(e + rest).value; i.header + i.value == |e|
    ensures Elements(e + rest) == [e] + Elements(rest)
  {
    assert (e + rest)[..|e|] == e;
    assert (e + rest)[|e|..] == rest;
  }

  /** The encodings of the items, one by one. */
  function Slices(xs: seq<Item>): (s: seq<seq<Byte>>)
    requires SizeAll(xs) < USIZE
    ensures |s| == |xs|
    ensures forall i :: 0 <= i < |xs| ==> Size(xs[i]) < USIZE && s[i] == Encode(xs[i])
  {
    if xs == [] then [] else [Encode(xs[0])] + Slices(xs[1..])
  }

  /** Encoded items come apart again, one slice per item. */
  lemma {:induction false} ElementsOfEncoding(xs: seq<Item>)
    requires SizeAll(xs) < USIZE
    ensures Elements(EncodeAll(xs)) == Slices(xs)
  {
    if xs != [] {
      ItemPrefix(xs[0], EncodeAll(xs[1..]));
      ElementsOfEncoding(xs[1..]);
      ElementsStep(Encode(xs[0]), EncodeAll(xs[1..]));
    }
  }

  /** Reading an encoded list, whatever follows it, gives the encodings of its items. */
  lemma {:induction false} ReadList(xs: seq<Item>, rest: seq<Byte>)
    requires Size(List(xs)) < USIZE
    ensures IsList(Encode(List(xs)) + rest)
    ensures ListItems(Encode(List(xs)) + rest) == Slices(xs)
  {
    ItemPrefix(List(xs), rest);
    ElementsOfEncoding(xs);
  }

  lemma {:induction false} ReadString(d: seq<Byte>)
    requires Size(Str(d)) < USIZE
    ensures StringData(Encode(Str(d))) == Some(d)
    ensures !IsList(Encode(Str(d)))
  {
    ItemPrefix(Str(d), []);
    var e := Encode(Str(d));
    assert e + [] == e;
  }

  /** The encoding is prefix-free, hence injective, on items and on item sequences. */
  lemma {:induction false} PrefixFree(x: Item, y: Item, a: seq<Byte>, b: seq<Byte>)
    requires Size(x) < USIZE && Size(y) < USIZE
    requires Encode(x) + a == Encode(y) + b
    ensures x == y && a == b
    decreases x, 1
  {
    ItemPrefix(x, a);
    ItemPrefix(y, b);
    assert Encode(x) == (Encode(x) + a)[..Size(x)] == Encode(y);
    assert a == (Encode(x) + a)[Size(x)..] == b;
    if x.List? {
      InjectiveAll(x.items, y.items);
    }
  }

  lemma {:induction false} InjectiveAll(xs: seq<Item>, ys: seq<Item>)
    requires SizeAll(xs) < USIZE && SizeAll(ys) < USIZE
    requires EncodeAll(xs) == EncodeAll(ys)
    ensures xs == ys
    decreases xs, 0
  {
    if xs != [] && ys != [] {
      PrefixFree(xs[0], ys[0], EncodeAll(xs[1..]), EncodeAll(ys[1..]));
      InjectiveAll(xs[1..], ys[1..]);
      assert xs == [xs[0]] + xs[1..] && ys == [ys[0]] + ys[1..];
    } else if xs != [] {
      ItemPrefix(xs[0], EncodeAll(xs[1..]));
    } else if ys != [] {
      ItemPrefix(ys[0], EncodeAll(ys[1..]));
    }
  }
}
