/**
 * The streaming RLP builder: lists are announced by their item count and close by themselves when
 * the last item arrives, at which point their length header is patched into the buffer. The class
 * is related to the partially built item tree, so that what a caller streams can be read off as a
 * tree.
 */
module RlpStreams {
  import opened Bytes
  import opened Rlp

  /** An announced list that still waits for items. */
  datatype Frame = Frame(max: nat, items: seq<Item>)

  /** Items finished at top level, then the chain of open lists, innermost last. */
  datatype Partial = Partial(done: seq<Item>, open: seq<Frame>)

  predicate Waiting(p: Partial) {
    forall i :: 0 <= i < |p.open| ==> |p.open[i].items| < p.open[i].max
  }

  /** Add one complete item; full lists close and become an item of the enclosing list. */
  function Add(p: Partial, x: Item): (q: Partial)
    requires Waiting(p)
    ensures Waiting(q)
    decreases |p.open|
  {
    if p.open == [] then Partial(p.done + [x], [])
    else
      var outer := p.open[..|p.open| - 1];
      var f := p.open[|p.open| - 1];
      var items := f.items + [x];
      if |items| == f.max then Add(Partial(p.done, outer), List(items))
      else Partial(p.done, outer + [Frame(f.max, items)])
  }

  function Begin(p: Partial, n: nat): (q: Partial)
    requires Waiting(p)
    ensures Waiting(q)
  {
    if n == 0 then Add(p, List([])) else Partial(p.done, p.open + [Frame(n, [])])
  }

  function AddAll(p: Partial, xs: seq<Item>): (q: Partial)
    requires Waiting(p)
    ensures Waiting(q)
  {
    if xs == [] then p else Add(AddAll(p, xs[..|xs| - 1]), xs[|xs| - 1])
  }

  lemma {:induction false} AddAllStep(p: Partial, xs: seq<Item>, k: nat)
    requires Waiting(p) && k < |xs|
    ensures AddAll(p, xs[..k + 1]) == Add(AddAll(p, xs[..k]), xs[k])
  {
    assert xs[..k + 1][..k] == xs[..k];
  }

  lemma {:induction false} AddToLast(p: Partial, f: Frame, x: Item)
    requires Waiting(p) && |f.items| < f.max
    ensures var q := Partial(p.done, p.open + [f]);
            && Waiting(q)
            && Add(q, x) == if |f.items| + 1 == f.max then Add(p, List(f.items + [x]))
                            else Partial(p.done, p.open + [Frame(f.max, f.items + [x])])
  {
    var q := Partial(p.done, p.open + [f]);
    assert q.open[..|q.open| - 1] == p.open;
  }

  lemma {:induction false} FillOpenList(p: Partial, n: nat, xs: seq<Item>)
    requires Waiting(p) && |xs| < n
    ensures AddAll(Begin(p, n), xs) == Partial(p.done, p.open + [Frame(n, xs)])
  {
    if xs != [] {
      var ys := xs[..|xs| - 1];
      FillOpenList(p, n, ys);
      AddToLast(p, Frame(n, ys), xs[|xs| - 1]);
      assert ys + [xs[|xs| - 1]] == xs;
    }
  }

  /** A list announced with the right count closes exactly at its last item and counts as one item. */
  lemma {:induction false} ListCloses(p: Partial, xs: seq<Item>)
    requires Waiting(p)
    ensures AddAll(Begin(p, |xs|), xs) == Add(p, List(xs))
  {
    if xs != [] {
      var ys := xs[..|xs| - 1];
      FillOpenList(p, |xs|, ys);
      AddToLast(p, Frame(|xs|, ys), xs[|xs| - 1]);
      assert ys + [xs[|xs| - 1]] == xs;
    }
  }

  //// Sizes

  /** Everything streamed so far has a length that fits a machine word. */
  ghost predicate Fits(p: Partial) {
    && SizeAll(p.done) < USIZE
    && forall i :: 0 <= i < |p.open| ==> SizeAll(p.open[i].items) < USIZE
  }

  lemma {:induction false} SizeAllSnoc(xs: seq<Item>, x: Item)
    ensures SizeAll(xs + [x]) == SizeAll(xs) + Size(x)
  {
    SizeAllConcat(xs, [x]);
    assert [x][1..] == [];
    assert SizeAll([x]) == Size(x);
  }

  lemma {:induction false} FitsBeforeAdd(p: Partial, x: Item)
    requires Waiting(p) && Fits(Add(p, x))
    ensures Fits(p) && Size(x) < USIZE
    decreases |p.open|
  {
    if p.open == [] {
      SizeAllSnoc(p.done, x);
    } else {
      var outer := p.open[..|p.open| - 1];
      var f := p.open[|p.open| - 1];
      SizeAllSnoc(f.items, x);
      if |f.items| + 1 == f.max {
        FitsBeforeAdd(Partial(p.done, outer), List(f.items + [x]));
      } else {
        var q := Add(p, x);
        assert q.open[|outer|].items == f.items + [x];
        assert forall i :: 0 <= i < |outer| ==> q.open[i] == p.open[i];
      }
      assert forall i :: 0 <= i < |outer| ==> outer[i] == p.open[i];
    }
  }

  lemma {:induction false} FitsBeforeAll(p: Partial, xs: seq<Item>, k: nat)
    requires Waiting(p) && k <= |xs| && Fits(AddAll(p, xs))
    ensures Fits(AddAll(p, xs[..k]))
    decreases |xs|
  {
    if k == |xs| {
      assert xs[..k] == xs;
    } else {
      FitsBeforeAdd(AddAll(p, xs[..|xs| - 1]), xs[|xs| - 1]);
      FitsBeforeAll(p, xs[..|xs| - 1], k);
      assert xs[..|xs| - 1][..k] == xs[..k];
    }
  }

  //// The buffer a partial tree stands for

  /** Each open list is one reserved header byte followed by its items so far. */
  ghost function RenderOpen(open: seq<Frame>): seq<Byte>
    requires forall i :: 0 <= i < |open| ==> SizeAll(open[i].items) < USIZE
  {
    if open == [] then []
    else RenderOpen(open[..|open| - 1]) + [0] + EncodeAll(open[|open| - 1].items)
  }

  ghost function Render(p: Partial): seq<Byte>
    requires Fits(p)
  {
    EncodeAll(p.done) + RenderOpen(p.open)
  }

  /** Bookkeeping of an unfinished list: where its items start, how many arrived, how many to come. */
  datatype ListInfo = ListInfo(position: nat, current: nat, max: nat)

  ghost predicate Matches(p: Partial, infos: seq<ListInfo>)
    requires Fits(p)
    decreases |p.open|
  {
    if p.open == [] then infos == []
    else
      var back := |p.open| - 1;
      var outer := Partial(p.done, p.open[..back]);
      && |infos| == |p.open|
      && infos[back] == ListInfo(|Render(outer)| + 1, |p.open[back].items|, p.open[back].max)
      && Matches(outer, infos[..back])
  }

  /** A reserved byte sits before `pos`, and what follows can be measured. */
  predicate Patchable(buffer: seq<Byte>, pos: nat) { 0 < pos <= |buffer| && |buffer| - pos < USIZE }

  /** The buffer with the reserved byte replaced by the header of the list that starts at `pos`. */
  function Patched(buffer: seq<Byte>, pos: nat): seq<Byte>
    requires Patchable(buffer, pos)
  {
    buffer[..pos - 1] + Header(|buffer| - pos, 0xc0) + buffer[pos..]
  }

  /** The buffer and its bookkeeping stand for the partial tree. */
  ghost predicate Represents(buffer: seq<Byte>, infos: seq<ListInfo>, p: Partial) {
    Waiting(p) && Fits(p) && Matches(p, infos) && buffer == Render(p)
  }

  /** As `Represents`, with the bytes of a complete item appended but not yet accounted for. */
  ghost predicate Pending(buffer: seq<Byte>, infos: seq<ListInfo>, p: Partial, x: Item) {
    && Waiting(p) && Fits(p) && Matches(p, infos)
    && Fits(Add(p, x)) && Size(x) < USIZE
    && buffer == Render(p) + Encode(x)
  }

  class RlpStream {
    var buffer: seq<Byte>
    var unfinished: seq<ListInfo>
    ghost var tree: Partial

    ghost predicate Valid()
      reads this
    {
      Represents(buffer, unfinished, tree)
    }

    constructor ()
      ensures Valid() && tree == Partial([], [])
    {
      buffer, unfinished, tree := [], [], Partial([], []);
    }

    /** Announce a list of `n` items. */
    method BeginList(n: nat)
      requires Valid() && Fits(Begin(tree, n))
      modifies this
      ensures Valid() && tree == Begin(old(tree), n)
    {
      if n == 0 {
        assert SizeAll([]) == 0;
        buffer := buffer + [0xc0];
        NoteAppended(List([]));
      } else {
        ghost var p := tree;
        buffer := buffer + [0];
        MatchesInner(p, Frame(n, []), unfinished, ListInfo(|buffer|, 0, n));
        unfinished := unfinished + [ListInfo(|buffer|, 0, n)];
        tree := Partial(p.done, p.open + [Frame(n, [])]);
      }
    }

    /** Append a byte string. */
    method Append(data: seq<Byte>)
      requires Valid() && Fits(Add(tree, Str(data)))
      modifies this
      ensures Valid() && tree == Add(old(tree), Str(data))
    {
      FitsBeforeAdd(tree, Str(data));
      buffer := buffer + Encode(Str(data));
      NoteAppended(Str(data));
    }

    /** One item was appended: close every list that is now complete, innermost first. */
    method NoteAppended(ghost x: Item)
      requires Pending(buffer, unfinished, tree, x)
      modifies this
      ensures Valid() && tree == Add(old(tree), x)
      decreases |unfinished|
    {
      hide Pending, Represents, Add, Fits, Waiting, Matches, Render, Size, Encode, Header;
      PendingShape(buffer, unfinished, tree, x);
      if unfinished == [] {
        TopLevelStep(buffer, tree, x);
        tree := Partial(tree.done + [x], []);
      } else {
        var back := |unfinished| - 1;
        var info := unfinished[back];
        ghost var f := tree.open[back];
        if info.current + 1 == info.max {
          CloseStep(buffer, unfinished, tree, x);
          InsertListPayload(|buffer| - info.position, info.position);
          unfinished := unfinished[..back];
          tree := Partial(tree.done, tree.open[..back]);
          NoteAppended(List(f.items + [x]));
        } else {
          GrowStep(buffer, unfinished, tree, x);
          unfinished := unfinished[..back] + [info.(current := info.current + 1)];
          tree := Partial(tree.done, tree.open[..back] + [Frame(f.max, f.items + [x])]);
        }
      }
    }

    /** Turn the reserved byte before `pos` into the header of a list of `len` payload bytes. */
    method InsertListPayload(len: nat, pos: nat)
      requires Patchable(buffer, pos) && len == |buffer| - pos
      modifies this`buffer
      ensures buffer == Patched(old(buffer), pos)
    {
      if len <= 55 {
        buffer := buffer[..pos - 1] + [0xc0 + len] + buffer[pos..];
      } else {
        hide ToBE;
        var lenBytes := ToBE(len);
        WordLength(len);
        var head: seq<Byte> := [0xf7 + |lenBytes|] + lenBytes;
        assert head == Header(len, 0xc0);
        buffer := buffer[..pos - 1] + head + buffer[pos..];
      }
    }

    /** The finished encoding. */
    method Out() returns (out: seq<Byte>)
      requires Valid() && unfinished == []
      ensures out == EncodeAll(tree.done)
    {
      out := buffer;
    }
  }

  lemma {:induction false} SnocDone(done: seq<Item>, x: Item)
    requires SizeAll(done + [x]) < USIZE
    ensures SizeAll(done) < USIZE && Size(x) < USIZE
    ensures EncodeAll(done + [x]) == EncodeAll(done) + Encode(x)
  {
    SizeAllSnoc(done, x);
    EncodeAllConcat(done, [x]);
    EncodeAllOne(x);
  }

  lemma {:induction false} InnerFits(p: Partial, f: Frame, x: Item)
    requires Waiting(p) && |f.items| < f.max
    requires Fits(Partial(p.done, p.open + [f]))
    requires Waiting(Partial(p.done, p.open + [f])) && Fits(Add(Partial(p.done, p.open + [f]), x))
    ensures Fits(p)
    ensures SizeAll(f.items + [x]) < USIZE
    ensures |f.items| + 1 == f.max ==> Size(List(f.items + [x])) < USIZE
  {
    var q := Partial(p.done, p.open + [f]);
    AddToLast(p, f, x);
    assert forall i :: 0 <= i < |p.open| ==> q.open[i] == p.open[i];
    if |f.items| + 1 == f.max {
      FitsBeforeAdd(p, List(f.items + [x]));
    } else {
      assert Add(q, x).open[|p.open|].items == f.items + [x];
    }
  }

  /** The innermost open list with one more item: what the buffer then holds. */
  lemma {:induction false} GrowRender(p: Partial, f: Frame, x: Item)
    requires Fits(p) && SizeAll(f.items + [x]) < USIZE
    requires Fits(Partial(p.done, p.open + [f])) && Size(x) < USIZE
    ensures Render(Partial(p.done, p.open + [f])) + Encode(x) == Render(p) + [0] + EncodeAll(f.items + [x])
  {
    assert (p.open + [f])[..|p.open|] == p.open;
    SnocDone(f.items, x);
  }

  lemma {:induction false} PatchHeader(r: seq<Byte>, items: seq<Item>)
    requires Size(List(items)) < USIZE
    ensures var b := r + [0] + EncodeAll(items);
            Patchable(b, |r| + 1) && Patched(b, |r| + 1) == r + Encode(List(items))
  {
    var payload := EncodeAll(items);
    assert Encode(List(items)) == Header(|payload|, 0xc0) + payload;
    hide Encode, EncodeAll, Header;
    var b := r + [0] + payload;
    assert b[..|r|] == r && b[|r| + 1..] == payload;
  }

  lemma {:induction false} MatchesInner(p: Partial, f: Frame, infos: seq<ListInfo>, info: ListInfo)
    requires Fits(p) && SizeAll(f.items) < USIZE && Matches(p, infos)
    requires info == ListInfo(|Render(p)| + 1, |f.items|, f.max)
    ensures var q := Partial(p.done, p.open + [f]);
            && Fits(q) && Matches(q, infos + [info])
            && Render(q) == Render(p) + [0] + EncodeAll(f.items)
  {
    var q := Partial(p.done, p.open + [f]);
    assert q.open[..|p.open|] == p.open;
    assert (infos + [info])[..|p.open|] == infos;
  }

  lemma {:induction false} PendingShape(buffer: seq<Byte>, infos: seq<ListInfo>, p: Partial, x: Item)
    requires Pending(buffer, infos, p, x)
    ensures |p.open| == |infos| && Waiting(p)
  {
  }

  lemma {:induction false} TopLevelStep(buffer: seq<Byte>, p: Partial, x: Item)
    requires Pending(buffer, [], p, x)
    ensures Add(p, x) == Partial(p.done + [x], [])
    ensures Represents(buffer, [], Add(p, x))
  {
    hide Encode, EncodeAll, Size, SizeAll;
    SnocDone(p.done, x);
  }

  lemma {:induction false} CloseStep(buffer: seq<Byte>, infos: seq<ListInfo>, p: Partial, x: Item)
    requires Pending(buffer, infos, p, x) && infos != [] && |p.open| == |infos|
    requires infos[|infos| - 1].current + 1 == infos[|infos| - 1].max
    ensures var back := |infos| - 1;
            var outer := Partial(p.done, p.open[..back]);
            var list := List(p.open[back].items + [x]);
            && Patchable(buffer, infos[back].position)
            && Pending(Patched(buffer, infos[back].position), infos[..back], outer, list)
            && Waiting(outer) && Waiting(p) && Add(p, x) == Add(outer, list)
  {
    hide Encode, EncodeAll, Render, RenderOpen, Size, SizeAll, Add, Header;
    var back := |infos| - 1;
    var outer := Partial(p.done, p.open[..back]);
    var f := p.open[back];
    assert p == Partial(outer.done, outer.open + [f]);
    AddToLast(outer, f, x);
    InnerFits(outer, f, x);
    GrowRender(outer, f, x);
    PatchHeader(Render(outer), f.items + [x]);
  }

  lemma {:induction false} GrowStep(buffer: seq<Byte>, infos: seq<ListInfo>, p: Partial, x: Item)
    requires Pending(buffer, infos, p, x) && infos != []
    requires infos[|infos| - 1].current + 1 != infos[|infos| - 1].max
    ensures var back := |infos| - 1;
            var info := infos[back];
            var f := p.open[back];
            && Add(p, x) == Partial(p.done, p.open[..back] + [Frame(f.max, f.items + [x])])
            && Represents(buffer, infos[..back] + [info.(current := info.current + 1)], Add(p, x))
  {
    hide Encode, EncodeAll, Render, RenderOpen, Size, SizeAll, Add;
    var back := |infos| - 1;
    var outer := Partial(p.done, p.open[..back]);
    var f := p.open[back];
    assert p == Partial(outer.done, outer.open + [f]);
    AddToLast(outer, f, x);
    InnerFits(outer, f, x);
    GrowRender(outer, f, x);
    MatchesInner(outer, Frame(f.max, f.items + [x]), infos[..back],
                 infos[back].(current := infos[back].current + 1));
  }
}
