/** EIP-1559 transactions: the signing payload, the signed form and the parser of the former. */
module EthTx {
  import opened Bytes
  import opened Rlp
  import opened RlpStreams

  const EIP1559_TX_TYPE: Byte := 0x02

  type Address = a: seq<Byte> | |a| == 20 witness seq(20, _ => 0)
  type StorageKey = k: seq<Byte> | |k| == 32 witness seq(32, _ => 0)

  datatype AccessListEntry = AccessListEntry(address: Address, storageKeys: seq<StorageKey>)

  datatype UnsignedTx = UnsignedTx(
    chainId: seq<Byte>,
    nonce: seq<Byte>,
    maxPriorityFeePerGas: seq<Byte>,
    maxFeePerGas: seq<Byte>,
    gasLimit: seq<Byte>,
    to: Option<Address>,
    value: seq<Byte>,
    data: seq<Byte>,
    accessList: seq<AccessListEntry>)

  datatype TxSignature = TxSignature(yParity: Byte, r: seq<Byte>, s: seq<Byte>)

  datatype TxError =
    | EmptyPayload
    | WrongTypeByte
    | NotAList
    | WrongFieldCount(found: nat)
    | MalformedField
    | WrongWidth(expected: nat, found: nat)
    | MalformedAccessList

  //// The field tree a transaction stands for (EIP-1559, access lists as in EIP-2930)

  function KeyItems(keys: seq<StorageKey>): (xs: seq<Item>)
    ensures |xs| == |keys|
    ensures forall i :: 0 <= i < |keys| ==> xs[i] == Str(keys[i])
  {
    seq(|keys|, i requires 0 <= i < |keys| => Str(keys[i]))
  }

  function EntryItem(e: AccessListEntry): Item {
    List([Str(e.address), List(KeyItems(e.storageKeys))])
  }

  function EntryItems(es: seq<AccessListEntry>): (xs: seq<Item>)
    ensures |xs| == |es|
    ensures forall i :: 0 <= i < |es| ==> xs[i] == EntryItem(es[i])
  {
    seq(|es|, i requires 0 <= i < |es| => EntryItem(es[i]))
  }

  function LeadingItems(tx: UnsignedTx): (xs: seq<Item>)
    ensures |xs| == 8
  {
    [Str(tx.chainId), Str(tx.nonce), Str(tx.maxPriorityFeePerGas), Str(tx.maxFeePerGas), Str(tx.gasLimit),
     Str(if tx.to.Some? then tx.to.value else []), Str(tx.value), Str(tx.data)]
  }

  function BaseItems(tx: UnsignedTx): (xs: seq<Item>)
    ensures |xs| == 9
  {
    LeadingItems(tx) + [List(EntryItems(tx.accessList))]
  }

  function SignatureItems(sig: TxSignature): seq<Item> {
    [Str(if sig.yParity == 0 then [] else [sig.yParity]), Str(sig.r), Str(sig.s)]
  }

  function UnsignedTree(tx: UnsignedTx): Item { List(BaseItems(tx)) }

  function SignedTree(tx: UnsignedTx, sig: TxSignature): Item { List(BaseItems(tx) + SignatureItems(sig)) }

  //// Streaming printer

  /** Stream the nine fields. Counted lists close by themselves, so the caller sees nine more items. */
  method AppendBaseFields(tx: UnsignedTx, stream: RlpStream)
    requires stream.Valid() && Fits(AddAll(stream.tree, BaseItems(tx)))
    modifies stream
    ensures stream.Valid()
    ensures stream.tree == AddAll(old(stream.tree), BaseItems(tx))
  {
    ghost var p := stream.tree;
    ghost var all := BaseItems(tx);
    assert all[8] == List(EntryItems(tx.accessList)) && all[..9] == all;
    AppendLeadingFields(tx, all, stream);
    hide *;
    AddAllStep(p, all, 8);
    AppendAccessList(tx.accessList, stream);
  }

  lemma {:induction false} AddNone(p: Partial, xs: seq<Item>)
    requires Waiting(p)
    ensures AddAll(p, xs[..0]) == p
  {
  }

  method AppendAccessList(es: seq<AccessListEntry>, stream: RlpStream)
    requires stream.Valid() && Fits(Add(stream.tree, List(EntryItems(es))))
    modifies stream
    ensures stream.Valid() && stream.tree == Add(old(stream.tree), List(EntryItems(es)))
  {
    ghost var q := stream.tree;
    ghost var xs := EntryItems(es);
    hide Encode, Size, SizeAll, Fits, Add, Begin, AddAll, EntryItem;
    assert Waiting(q);
    ListCloses(q, xs);
    ghost var p := Begin(q, |xs|);
    AddNone(p, xs);
    hide *;
    FitsBeforeAll(p, xs, 0);
    stream.BeginList(|es|);
    AppendEntries(es, p, xs, stream);
  }

  /** Append the entries to the list that was opened for them. */
  method AppendEntries(es: seq<AccessListEntry>, ghost p: Partial, ghost xs: seq<Item>, stream: RlpStream)
    requires xs == EntryItems(es) && Waiting(p) && Fits(AddAll(p, xs))
    requires stream.Valid() && stream.tree == AddAll(p, xs[..0])
    modifies stream
    ensures stream.Valid() && stream.tree == AddAll(p, xs)
  {
    hide *;
    var i := 0;
    while i < |es|
      invariant 0 <= i <= |es|
      invariant stream.Valid()
      invariant stream.tree == AddAll(p, xs[..i])
    {
      FitsBeforeAll(p, xs, i + 1);
      AddAllStep(p, xs, i);
      AppendEntry(es[i], stream);
      i := i + 1;
    }
    assert xs[..i] == xs;
  }

  /** Stream the eight string fields, given as the first items of `xs`. */
  method AppendLeadingFields(tx: UnsignedTx, ghost xs: seq<Item>, stream: RlpStream)
    requires |xs| >= 8 && xs[0] == Str(tx.chainId) && xs[1] == Str(tx.nonce)
    requires xs[2] == Str(tx.maxPriorityFeePerGas) && xs[3] == Str(tx.maxFeePerGas) && xs[4] == Str(tx.gasLimit)
    requires xs[5] == Str(if tx.to.Some? then tx.to.value else [])
    requires xs[6] == Str(tx.value) && xs[7] == Str(tx.data)
    requires stream.Valid() && Fits(AddAll(stream.tree, xs))
    modifies stream
    ensures stream.Valid()
    ensures stream.tree == AddAll(old(stream.tree), xs[..8])
  {
    ghost var p := stream.tree;
    assert AddAll(p, xs[..0]) == p;
    hide *;
    AppendField(p, xs, 0, tx.chainId, stream);
    AppendField(p, xs, 1, tx.nonce, stream);
    AppendField(p, xs, 2, tx.maxPriorityFeePerGas, stream);
    AppendField(p, xs, 3, tx.maxFeePerGas, stream);
    AppendField(p, xs, 4, tx.gasLimit, stream);
    match tx.to {
      case Some(address) => AppendField(p, xs, 5, address, stream);
      case None => AppendField(p, xs, 5, [], stream);
    }
    AppendField(p, xs, 6, tx.value, stream);
    AppendField(p, xs, 7, tx.data, stream);
  }

  /** Append the `k`-th of the string items `xs`. */
  method AppendField(ghost p: Partial, ghost xs: seq<Item>, ghost k: nat, field: seq<Byte>, stream: RlpStream)
    requires Waiting(p) && Fits(AddAll(p, xs)) && k < |xs| && xs[k] == Str(field)
    requires stream.Valid() && stream.tree == AddAll(p, xs[..k])
    modifies stream
    ensures stream.Valid() && stream.tree == AddAll(p, xs[..k + 1])
  {
    AddAllStep(p, xs, k);
    FitsBeforeAll(p, xs, k + 1);
    stream.Append(field);
  }

  method AppendEntry(e: AccessListEntry, stream: RlpStream)
    requires stream.Valid() && Fits(Add(stream.tree, EntryItem(e)))
    modifies stream
    ensures stream.Valid() && stream.tree == Add(old(stream.tree), EntryItem(e))
  {
    ghost var q := stream.tree;
    ghost var keys := KeyItems(e.storageKeys);
    ghost var pair := [Str(e.address), List(keys)];
    assert Waiting(q) && EntryItem(e) == List(pair);
    ListCloses(q, pair);
    ghost var p := Begin(q, 2);
    assert AddAll(p, pair[..0]) == p;
    hide *;
    FitsBeforeAll(p, pair, 0);
    stream.BeginList(2);
    AppendField(p, pair, 0, e.address, stream);
    AddAllStep(p, pair, 1);
    assert pair[..2] == pair;
    AppendStorageKeys(e.storageKeys, stream);
  }

  method AppendStorageKeys(ks: seq<StorageKey>, stream: RlpStream)
    requires stream.Valid() && Fits(Add(stream.tree, List(KeyItems(ks))))
    modifies stream
    ensures stream.Valid() && stream.tree == Add(old(stream.tree), List(KeyItems(ks)))
  {
    ghost var q := stream.tree;
    ghost var xs := KeyItems(ks);
    assert Waiting(q);
    ListCloses(q, xs);
    ghost var p := Begin(q, |xs|);
    assert AddAll(p, xs[..0]) == p;
    hide *;
    FitsBeforeAll(p, xs, 0);
    stream.BeginList(|ks|);
    var j := 0;
    while j < |ks|
      invariant 0 <= j <= |ks|
      invariant stream.Valid()
      invariant stream.tree == AddAll(p, xs[..j])
    {
      AppendField(p, xs, j, ks[j], stream);
      j := j + 1;
    }
    assert xs[..j] == xs;
  }

  /** One closed top-level list is what an announced list of all its items leaves behind. */
  lemma {:induction false} OneTree(xs: seq<Item>)
    requires Size(List(xs)) < USIZE
    ensures AddAll(Begin(Partial([], []), |xs|), xs) == Partial([List(xs)], [])
    ensures Fits(Partial([List(xs)], [])) && EncodeAll([List(xs)]) == Encode(List(xs))
  {
    ListCloses(Partial([], []), xs);
    EncodeAllOne(List(xs));
    assert [] + [List(xs)] == [List(xs)];
  }

  /** The payload that is hashed and signed: the type byte of EIP-2718 and the recursive encoding. */
  method SigningPayload(tx: UnsignedTx) returns (out: seq<Byte>)
    requires Size(UnsignedTree(tx)) < USIZE
    ensures out == [EIP1559_TX_TYPE] + Encode(UnsignedTree(tx))
  {
    var xs := BaseItems(tx);
    OneTree(xs);
    var stream := new RlpStream();
    FitsBeforeAll(Begin(Partial([], []), 9), xs, 0);
    stream.BeginList(9);
    AppendBaseFields(tx, stream);
    var body := stream.Out();
    out := [EIP1559_TX_TYPE] + body;
  }

  method AppendSignature(sig: TxSignature, ghost p: Partial, ghost xs: seq<Item>, stream: RlpStream)
    requires |xs| == 12 && xs[10] == Str(sig.r) && xs[11] == Str(sig.s)
    requires xs[9] == Str(if sig.yParity == 0 then [] else [sig.yParity])
    requires Waiting(p) && Fits(AddAll(p, xs))
    requires stream.Valid() && stream.tree == AddAll(p, xs[..9])
    modifies stream
    ensures stream.Valid() && stream.tree == AddAll(p, xs)
  {
    hide *;
    var parity: seq<Byte> := if sig.yParity == 0 then [] else [sig.yParity];
    AppendField(p, xs, 9, parity, stream);
    AppendField(p, xs, 10, sig.r, stream);
    AppendField(p, xs, 11, sig.s, stream);
    assert xs[..12] == xs;
  }

  /** The transaction with its signature. */
  method Finalize(tx: UnsignedTx, sig: TxSignature) returns (out: seq<Byte>)
    requires Size(SignedTree(tx, sig)) < USIZE
    ensures out == [EIP1559_TX_TYPE] + Encode(SignedTree(tx, sig))
  {
    ghost var xs := BaseItems(tx) + SignatureItems(sig);
    OneTree(xs);
    ghost var p := Begin(Partial([], []), 12);
    FitsBeforeAll(p, xs, 0);
    FitsBeforeAll(p, xs, 9);
    assert xs[..9] == BaseItems(tx);
    assert xs[9] == SignatureItems(sig)[0] && xs[10] == SignatureItems(sig)[1] && xs[11] == SignatureItems(sig)[2];
    assert AddAll(p, []) == p;
    hide AddAll, Begin, BaseItems, Encode, EncodeAll, Size, SizeAll;
    var stream := new RlpStream();
    stream.BeginList(12);
    AppendBaseFields(tx, stream);
    AppendSignature(sig, p, xs, stream);
    var body := stream.Out();
    out := [EIP1559_TX_TYPE] + body;
  }

  //// Parser

  function FixedWidth(b: seq<Byte>, n: nat): Result<seq<Byte>, TxError> {
    if |b| == n then Ok(b) else Err(WrongWidth(n, |b|))
  }

  /** A byte-string item of exactly `n` bytes. */
  function FixedData(b: seq<Byte>, n: nat): Result<seq<Byte>, TxError> {
    match StringData(b)
    case None => Err(MalformedField)
    case Some(d) => FixedWidth(d, n)
  }

  function KeysOf(els: seq<seq<Byte>>): Result<seq<StorageKey>, TxError> {
    if els == [] then Ok([])
    else match FixedData(els[0], 32)
      case Err(e) => Err(e)
      case Ok(k) => match KeysOf(els[1..])
        case Err(e) => Err(e)
        case Ok(ks) => Ok([k] + ks)
  }

  function EntryOf(b: seq<Byte>): Result<AccessListEntry, TxError> {
    if !IsList(b) || |ListItems(b)| != 2 then Err(MalformedAccessList)
    else match FixedData(ListItems(b)[0], 20)
      case Err(e) => Err(e)
      case Ok(address) =>
        var keys := ListItems(b)[1];
        if !IsList(keys) then Err(MalformedAccessList)
        else match KeysOf(ListItems(keys))
          case Err(e) => Err(e)
          case Ok(ks) => Ok(AccessListEntry(address, ks))
  }

  function EntriesOf(els: seq<seq<Byte>>): Result<seq<AccessListEntry>, TxError> {
    if els == [] then Ok([])
    else match EntryOf(els[0])
      case Err(e) => Err(e)
      case Ok(x) => match EntriesOf(els[1..])
        case Err(e) => Err(e)
        case Ok(xs) => Ok([x] + xs)
  }

  /** An absent recipient is an empty string, a present one has twenty bytes. */
  function RecipientOf(b: seq<Byte>): Result<Option<Address>, TxError> {
    match StringData(b)
    case None => Err(MalformedField)
    case Some(bytes) =>
      if bytes == [] then Ok(None)
      else match FixedWidth(bytes, 20)
        case Err(e) => Err(e)
        case Ok(a) => Ok(Some(a))
  }

  predicate AllStrings(f: seq<seq<Byte>>, n: nat)
    requires n <= |f|
  {
    forall i :: 0 <= i < n ==> StringData(f[i]).Some?
  }

  function TxOfFields(f: seq<seq<Byte>>): Result<UnsignedTx, TxError>
    requires |f| == 9
  {
    match RecipientOf(f[5])
    case Err(e) => Err(e)
    case Ok(to) =>
      if !IsList(f[8]) then Err(MalformedAccessList)
      else match EntriesOf(ListItems(f[8]))
        case Err(e) => Err(e)
        case Ok(accessList) =>
          if !AllStrings(f, 8) then Err(MalformedField) else Ok(TxFromStrings(f, to, accessList))
  }

  function TxFromStrings(f: seq<seq<Byte>>, to: Option<Address>, accessList: seq<AccessListEntry>): UnsignedTx
    requires |f| == 9 && AllStrings(f, 8)
  {
    UnsignedTx(StringData(f[0]).value, StringData(f[1]).value, StringData(f[2]).value, StringData(f[3]).value,
               StringData(f[4]).value, to, StringData(f[6]).value, StringData(f[7]).value, accessList)
  }

  /** What the parser makes of a raw payload. */
  function TxOf(raw: seq<Byte>): Result<UnsignedTx, TxError> {
    if raw == [] then Err(EmptyPayload)
    else if raw[0] != EIP1559_TX_TYPE then Err(WrongTypeByte)
    else
      var body := raw[1..];
      if !IsList(body) then Err(NotAList)
      else
        var f := ListItems(body);
        if |f| != 9 then Err(WrongFieldCount(|f|)) else TxOfFields(f)
  }

  function Prepend<T, E>(xs: seq<T>, r: Result<seq<T>, E>): Result<seq<T>, E> {
    match r
    case Ok(ys) => Ok(xs + ys)
    case Err(e) => Err(e)
  }

  lemma {:induction false} PrependNothing<T, E>(r: Result<seq<T>, E>)
    ensures Prepend([], r) == r
  {
    if r.Ok? {
      assert [] + r.value == r.value;
    }
  }

  method ParseStorageKeys(b: seq<Byte>) returns (r: Result<seq<StorageKey>, TxError>)
    ensures r == KeysOf(ListItems(b))
  {
    var els := ListItems(b);
    var keys: seq<StorageKey> := [];
    var i := 0;
    assert els[0..] == els;
    PrependNothing(KeysOf(els));
    while i < |els|
      invariant 0 <= i <= |els|
      invariant KeysOf(els) == Prepend(keys, KeysOf(els[i..]))
    {
      var bytes := FixedData(els[i], 32);
      assert els[i..][1..] == els[i + 1..];
      if bytes.Err? { return Err(bytes.error); }
      assert forall ks: seq<StorageKey> :: keys + ([bytes.value] + ks) == keys + [bytes.value] + ks;
      keys := keys + [bytes.value];
      i := i + 1;
    }
    assert keys + [] == keys;
    r := Ok(keys);
  }

  method ParseEntry(b: seq<Byte>) returns (r: Result<AccessListEntry, TxError>)
    ensures r == EntryOf(b)
  {
    if !IsList(b) || |ListItems(b)| != 2 { return Err(MalformedAccessList); }
    var address := FixedData(ListItems(b)[0], 20);
    if address.Err? { return Err(address.error); }
    if !IsList(ListItems(b)[1]) { return Err(MalformedAccessList); }
    var keys := ParseStorageKeys(ListItems(b)[1]);
    if keys.Err? { return Err(keys.error); }
    r := Ok(AccessListEntry(address.value, keys.value));
  }

  lemma {:induction false} EntriesStep(done: seq<AccessListEntry>, els: seq<seq<Byte>>)
    requires els != []
    ensures Prepend(done, EntriesOf(els)) ==
            match EntryOf(els[0])
            case Err(e) => Err(e)
            case Ok(x) => Prepend(done + [x], EntriesOf(els[1..]))
  {
    var x, rest := EntryOf(els[0]), EntriesOf(els[1..]);
    if x.Ok? && rest.Ok? {
      assert done + ([x.value] + rest.value) == done + [x.value] + rest.value;
    }
  }

  lemma {:induction false} NoEntriesLeft(done: seq<AccessListEntry>, els: seq<seq<Byte>>)
    requires els == []
    ensures Prepend(done, EntriesOf(els)) == Ok(done)
  {
    assert done + [] == done;
  }

  method ParseAccessList(b: seq<Byte>) returns (r: Result<seq<AccessListEntry>, TxError>)
    ensures r == if IsList(b) then EntriesOf(ListItems(b)) else Err(MalformedAccessList)
  {
    if !IsList(b) { return Err(MalformedAccessList); }
    var els := ListItems(b);
    var result: seq<AccessListEntry> := [];
    var i := 0;
    assert els[0..] == els;
    PrependNothing(EntriesOf(els));
    hide EntriesOf, EntryOf, ListItems, Prepend;
    while i < |els|
      invariant 0 <= i <= |els|
      invariant EntriesOf(els) == Prepend(result, EntriesOf(els[i..]))
    {
      EntriesStep(result, els[i..]);
      assert els[i..][1..] == els[i + 1..];
      var entry := ParseEntry(els[i]);
      if entry.Err? { return Err(entry.error); }
      result := result + [entry.value];
      i := i + 1;
    }
    NoEntriesLeft(result, els[i..]);
    r := Ok(result);
  }

  //// Parsing what was printed

  lemma {:induction false} SlicesStep(xs: seq<Item>)
    requires xs != [] && SizeAll(xs) < USIZE
    ensures Size(xs[0]) < USIZE && SizeAll(xs[1..]) < USIZE
    ensures Slices(xs)[0] == Encode(xs[0]) && Slices(xs)[1..] == Slices(xs[1..])
  {
  }

  lemma {:induction false} KeysRoundTrip(keys: seq<StorageKey>)
    requires SizeAll(KeyItems(keys)) < USIZE
    ensures KeysOf(Slices(KeyItems(keys))) == Ok(keys)
  {
    if keys != [] {
      var xs := KeyItems(keys);
      assert xs[1..] == KeyItems(keys[1..]);
      hide Encode, Slices;
      KeysRoundTrip(keys[1..]);
      ReadString(keys[0]);
      SlicesStep(xs);
      assert keys == [keys[0]] + keys[1..];
    }
  }

  lemma {:induction false} EntryRoundTrip(e: AccessListEntry)
    requires Size(EntryItem(e)) < USIZE
    ensures EntryOf(Encode(EntryItem(e))) == Ok(e)
  {
    var keys := KeyItems(e.storageKeys);
    var pair := [Str(e.address), List(keys)];
    var b := Encode(EntryItem(e));
    assert b + [] == b;
    ReadList(pair, []);
    assert ListItems(b)[0] == Encode(pair[0]) && ListItems(b)[1] == Encode(pair[1]);
    ReadString(e.address);
    assert Encode(List(keys)) + [] == Encode(List(keys));
    ReadList(keys, []);
    KeysRoundTrip(e.storageKeys);
  }

  lemma {:induction false} EntriesRoundTrip(es: seq<AccessListEntry>)
    requires SizeAll(EntryItems(es)) < USIZE
    ensures EntriesOf(Slices(EntryItems(es))) == Ok(es)
  {
    if es == [] {
    } else {
      var xs := EntryItems(es);
      assert xs[1..] == EntryItems(es[1..]);
      hide *;
      SlicesStep(xs);
      EntryRoundTrip(es[0]);
      EntriesRoundTrip(es[1..]);
      EntriesCons(Slices(xs), es);
    }
  }

  lemma {:induction false} EntriesCons(els: seq<seq<Byte>>, es: seq<AccessListEntry>)
    requires els != [] && es != [] && EntryOf(els[0]) == Ok(es[0]) && EntriesOf(els[1..]) == Ok(es[1..])
    ensures EntriesOf(els) == Ok(es)
  {
    assert es == [es[0]] + es[1..];
  }

  lemma {:induction false} FieldRoundTrip(xs: seq<Item>, i: nat, d: seq<Byte>)
    requires SizeAll(xs) < USIZE && i < |xs| && xs[i] == Str(d)
    ensures StringData(Slices(xs)[i]) == Some(d)
  {
    assert Slices(xs)[i] == Encode(xs[i]);
    ReadString(d);
  }

  lemma {:induction false} AccessListRoundTrip(es: seq<AccessListEntry>, x: Item, b: seq<Byte>)
    requires x == List(EntryItems(es)) && Size(x) < USIZE && b == Encode(x)
    ensures IsList(b) && EntriesOf(ListItems(b)) == Ok(es)
  {
    assert b + [] == b;
    ReadList(EntryItems(es), []);
    EntriesRoundTrip(es);
  }

  /** parse(print(tx)) = tx, for every transaction and whatever bytes follow the printed form. */
  lemma {:induction false} SigningPayloadRoundTrip(tx: UnsignedTx, rest: seq<Byte>)
    requires Size(UnsignedTree(tx)) < USIZE
    ensures TxOf([EIP1559_TX_TYPE] + Encode(UnsignedTree(tx)) + rest) == Ok(tx)
  {
    hide Encode, Size, SizeAll, BaseItems, ListItems, Slices, TxOf, TxOfFields;
    var xs := BaseItems(tx);
    ItemsRoundTrip(tx);
    ReadList(xs, rest);
    var body := Encode(List(xs)) + rest;
    ReadTyped(body);
    assert [EIP1559_TX_TYPE] + Encode(UnsignedTree(tx)) + rest == [EIP1559_TX_TYPE] + body;
  }

  lemma {:induction false} ItemsRoundTrip(tx: UnsignedTx)
    requires Size(List(BaseItems(tx))) < USIZE
    ensures SizeAll(BaseItems(tx)) < USIZE && TxOfFields(Slices(BaseItems(tx))) == Ok(tx)
  {
    hide Slices, TxOfFields, SizeAll, EntryItems;
    FieldsRoundTrip(tx, BaseItems(tx));
  }

  lemma {:induction false} ReadTyped(body: seq<Byte>)
    requires IsList(body)
    ensures var f := ListItems(body);
            TxOf([EIP1559_TX_TYPE] + body) == if |f| != 9 then Err(WrongFieldCount(|f|)) else TxOfFields(f)
  {
    hide IsList, ListItems, TxOfFields;
    assert ([EIP1559_TX_TYPE] + body)[1..] == body;
  }

  lemma {:induction false} FieldsRoundTrip(tx: UnsignedTx, xs: seq<Item>)
    requires |xs| == 9 && xs[0] == Str(tx.chainId) && xs[1] == Str(tx.nonce)
    requires xs[2] == Str(tx.maxPriorityFeePerGas) && xs[3] == Str(tx.maxFeePerGas) && xs[4] == Str(tx.gasLimit)
    requires xs[5] == Str(if tx.to.Some? then tx.to.value else [])
    requires xs[6] == Str(tx.value) && xs[7] == Str(tx.data) && xs[8] == List(EntryItems(tx.accessList))
    requires SizeAll(xs) < USIZE
    ensures TxOfFields(Slices(xs)) == Ok(tx)
  {
    AccessListRoundTrip(tx.accessList, xs[8], Slices(xs)[8]);
    hide *;
    FieldRoundTrip(xs, 0, tx.chainId);
    FieldRoundTrip(xs, 1, tx.nonce);
    FieldRoundTrip(xs, 2, tx.maxPriorityFeePerGas);
    FieldRoundTrip(xs, 3, tx.maxFeePerGas);
    FieldRoundTrip(xs, 4, tx.gasLimit);
    FieldRoundTrip(xs, 5, if tx.to.Some? then tx.to.value else []);
    FieldRoundTrip(xs, 6, tx.value);
    FieldRoundTrip(xs, 7, tx.data);
    FieldsAssemble(Slices(xs), tx);
  }

  /** Nine fields that read as the transaction's are the transaction. */
  lemma {:induction false} FieldsAssemble(f: seq<seq<Byte>>, tx: UnsignedTx)
    requires |f| == 9
    requires StringData(f[0]) == Some(tx.chainId) && StringData(f[1]) == Some(tx.nonce)
    requires StringData(f[2]) == Some(tx.maxPriorityFeePerGas) && StringData(f[3]) == Some(tx.maxFeePerGas)
    requires StringData(f[4]) == Some(tx.gasLimit)
    requires StringData(f[5]) == Some(if tx.to.Some? then tx.to.value else [])
    requires StringData(f[6]) == Some(tx.value) && StringData(f[7]) == Some(tx.data)
    requires IsList(f[8]) && EntriesOf(ListItems(f[8])) == Ok(tx.accessList)
    ensures TxOfFields(f) == Ok(tx)
  {
    hide StringData, EntriesOf, ListItems, IsList;
    assert AllStrings(f, 8);
    assert RecipientOf(f[5]) == Ok(tx.to);
  }

  //// What any payload is read as

  /** An element of an access list: an address and a list of storage keys. */
  ghost predicate EntryReadsAs(b: seq<Byte>, e: AccessListEntry) {
    && IsList(b) && |ListItems(b)| == 2
    && StringData(ListItems(b)[0]) == Some(e.address)
    && IsList(ListItems(b)[1]) && KeysReadAs(ListItems(ListItems(b)[1]), e.storageKeys)
  }

  ghost predicate KeysReadAs(els: seq<seq<Byte>>, keys: seq<StorageKey>) {
    |els| == |keys| && forall i :: 0 <= i < |keys| ==> StringData(els[i]) == Some(keys[i])
  }

  ghost predicate EntriesReadAs(els: seq<seq<Byte>>, es: seq<AccessListEntry>) {
    |els| == |es| && forall i :: 0 <= i < |es| ==> EntryReadsAs(els[i], es[i])
  }

  /** Nine items: eight strings, of which the sixth is the recipient or empty, and the access list. */
  ghost predicate FieldsReadAs(f: seq<seq<Byte>>, tx: UnsignedTx) {
    && |f| == 9
    && StringData(f[0]) == Some(tx.chainId) && StringData(f[1]) == Some(tx.nonce)
    && StringData(f[2]) == Some(tx.maxPriorityFeePerGas) && StringData(f[3]) == Some(tx.maxFeePerGas)
    && StringData(f[4]) == Some(tx.gasLimit)
    && StringData(f[5]) == Some(if tx.to.Some? then tx.to.value else [])
    && StringData(f[6]) == Some(tx.value) && StringData(f[7]) == Some(tx.data)
    && IsList(f[8]) && EntriesReadAs(ListItems(f[8]), tx.accessList)
  }

  ghost predicate ReadsAs(raw: seq<Byte>, tx: UnsignedTx) {
    raw != [] && raw[0] == 0x02 && IsList(raw[1..]) && FieldsReadAs(ListItems(raw[1..]), tx)
  }

  lemma {:induction false} KeysOfMeans(els: seq<seq<Byte>>, keys: seq<StorageKey>)
    ensures KeysOf(els) == Ok(keys) <==> KeysReadAs(els, keys)
  {
    hide StringData;
    if els != [] {
      if keys != [] {
        KeysOfMeans(els[1..], keys[1..]);
        assert keys == [keys[0]] + keys[1..];
        assert KeysReadAs(els, keys) <==> StringData(els[0]) == Some(keys[0]) && KeysReadAs(els[1..], keys[1..]) by {
          assert forall i :: 1 <= i < |els| ==> els[i] == els[1..][i - 1];
          assert forall i :: 1 <= i < |keys| ==> keys[i] == keys[1..][i - 1];
        }
      }
    }
  }

  lemma {:induction false} EntryOfMeans(b: seq<Byte>, e: AccessListEntry)
    ensures EntryOf(b) == Ok(e) <==> EntryReadsAs(b, e)
  {
    hide StringData, ListItems, IsList, KeysOf, KeysReadAs;
    if IsList(b) && |ListItems(b)| == 2 {
      var els := ListItems(ListItems(b)[1]);
      KeysOfMeans(els, e.storageKeys);
      if EntryOf(b) == Ok(e) { KeysOfMeans(els, KeysOf(els).value); }
    }
  }

  lemma {:induction false} EntriesOfMeans(els: seq<seq<Byte>>, es: seq<AccessListEntry>)
    ensures EntriesOf(els) == Ok(es) <==> EntriesReadAs(els, es)
  {
    hide EntryOf, EntryReadsAs;
    if els != [] && es != [] {
      EntriesOfMeans(els[1..], es[1..]);
      EntryOfMeans(els[0], es[0]);
      assert es == [es[0]] + es[1..];
      assert EntriesReadAs(els, es) <==> EntryReadsAs(els[0], es[0]) && EntriesReadAs(els[1..], es[1..]) by {
        assert forall i :: 1 <= i < |els| ==> els[i] == els[1..][i - 1];
        assert forall i :: 1 <= i < |es| ==> es[i] == es[1..][i - 1];
      }
    }
  }

  lemma {:induction false} TxOfFieldsMeans(f: seq<seq<Byte>>, tx: UnsignedTx)
    requires |f| == 9
    ensures TxOfFields(f) == Ok(tx) <==> FieldsReadAs(f, tx)
  {
    hide StringData, ListItems, IsList, EntriesOf, EntriesReadAs;
    EntriesOfMeans(ListItems(f[8]), tx.accessList);
    if FieldsReadAs(f, tx) { FieldsAssemble(f, tx); }
  }

  /**
   * On every input the parser accepts exactly the transaction whose fields the nine items spell, and
   * a recipient that is neither empty nor twenty bytes is an error.
   */
  lemma {:induction false} TxOfMeans(raw: seq<Byte>)
    ensures forall tx :: TxOf(raw) == Ok(tx) <==> ReadsAs(raw, tx)
    ensures raw == [] <==> TxOf(raw) == Err(EmptyPayload)
    ensures raw != [] && raw[0] != 0x02 <==> TxOf(raw) == Err(WrongTypeByte)
    ensures raw != [] && raw[0] == 0x02 ==>
              var body := raw[1..];
              var f := ListItems(body);
              && (!IsList(body) <==> TxOf(raw) == Err(NotAList))
              && (IsList(body) && |f| != 9 ==> TxOf(raw) == Err(WrongFieldCount(|f|)))
              && (IsList(body) && |f| == 9 && StringData(f[5]).None? ==> TxOf(raw) == Err(MalformedField))
              && (IsList(body) && |f| == 9 && StringData(f[5]).Some? && |StringData(f[5]).value| !in {0, 20} ==>
                    TxOf(raw) == Err(WrongWidth(20, |StringData(f[5]).value|)))
  {
    hide StringData, ListItems, IsList, TxOfFields, FieldsReadAs;
    if raw != [] {
      var f := ListItems(raw[1..]);
      if |f| == 9 {
        forall tx
          ensures TxOfFields(f) == Ok(tx) <==> FieldsReadAs(f, tx)
        {
          TxOfFieldsMeans(f, tx);
        }
        FieldErrors(f);
      } else {
        WrongCount(f);
      }
    }
  }

  lemma {:induction false} WrongCount(f: seq<seq<Byte>>)
    requires |f| != 9
    ensures forall tx :: !FieldsReadAs(f, tx)
  {
  }

  /** Which errors nine items can give, and that the recipient is looked at first. */
  lemma {:induction false} FieldErrors(f: seq<seq<Byte>>)
    requires |f| == 9
    ensures TxOfFields(f).Err? ==>
              var e := TxOfFields(f).error; e.MalformedField? || e.WrongWidth? || e.MalformedAccessList?
    ensures StringData(f[5]).None? ==> TxOfFields(f) == Err(MalformedField)
    ensures StringData(f[5]).Some? && |StringData(f[5]).value| !in {0, 20} ==>
              TxOfFields(f) == Err(WrongWidth(20, |StringData(f[5]).value|))
  {
    hide StringData, ListItems, IsList;
    EntriesErrors(ListItems(f[8]));
  }

  lemma {:induction false} EntriesErrors(els: seq<seq<Byte>>)
    ensures EntriesOf(els).Err? ==>
              exists k :: 0 <= k < |els| && EntryOf(els[k]) == Err(EntriesOf(els).error)
                          && forall i :: 0 <= i < k ==> EntryOf(els[i]).Ok?
    ensures EntriesOf(els).Err? ==>
              var e := EntriesOf(els).error; e.MalformedField? || e.WrongWidth? || e.MalformedAccessList?
  {
    if els != [] && EntriesOf(els).Err? {
      hide EntryOf;
      if EntryOf(els[0]).Ok? {
        EntriesErrors(els[1..]);
        var k :| 0 <= k < |els| - 1 && EntryOf(els[1..][k]) == Err(EntriesOf(els[1..]).error)
                 && forall i :: 0 <= i < k ==> EntryOf(els[1..][i]).Ok?;
        assert els[k + 1] == els[1..][k];
        assert forall i :: 1 <= i < k + 1 ==> els[i] == els[1..][i - 1];
      } else {
        EntryErrors(els[0]);
      }
    }
  }

  /** The faults of an entry, in the order in which they are found. */
  lemma {:induction false} EntryErrors(b: seq<Byte>)
    ensures EntryOf(b).Err? ==>
              var e := EntryOf(b).error; e.MalformedField? || e.WrongWidth? || e.MalformedAccessList?
    ensures !IsList(b) || |ListItems(b)| != 2 ==> EntryOf(b) == Err(MalformedAccessList)
    ensures IsList(b) && |ListItems(b)| == 2 ==>
              var address := StringData(ListItems(b)[0]);
              && (address.None? ==> EntryOf(b) == Err(MalformedField))
              && (address.Some? && |address.value| != 20 ==> EntryOf(b) == Err(WrongWidth(20, |address.value|)))
              && (address.Some? && |address.value| == 20 && !IsList(ListItems(b)[1]) ==>
                    EntryOf(b) == Err(MalformedAccessList))
  {
    hide StringData, ListItems, IsList;
    if IsList(b) && |ListItems(b)| == 2 { KeysErrors(ListItems(ListItems(b)[1])); }
  }

  lemma {:induction false} KeysErrors(els: seq<seq<Byte>>)
    ensures KeysOf(els).Err? ==>
              exists k :: 0 <= k < |els|
                          && (forall i :: 0 <= i < k ==> StringData(els[i]).Some? && |StringData(els[i]).value| == 32)
                          && KeysOf(els).error == if StringData(els[k]).None? then MalformedField
                                                  else WrongWidth(32, |StringData(els[k]).value|)
  {
    hide StringData;
    if KeysOf(els).Err? && FixedData(els[0], 32).Ok? {
      KeysErrors(els[1..]);
      var k :| 0 <= k < |els| - 1
               && (forall i :: 0 <= i < k ==> StringData(els[1..][i]).Some? && |StringData(els[1..][i]).value| == 32)
               && KeysOf(els[1..]).error == if StringData(els[1..][k]).None? then MalformedField
                                            else WrongWidth(32, |StringData(els[1..][k]).value|);
      assert els[k + 1] == els[1..][k];
      assert forall i :: 1 <= i < k + 1 ==> els[i] == els[1..][i - 1];
    }
  }

  /** Parsing from the printed bytes themselves. */
  method FromRawPayload(raw: seq<Byte>) returns (r: Result<UnsignedTx, TxError>)
    ensures r == TxOf(raw)
    ensures forall tx :: r == Ok(tx) <==> ReadsAs(raw, tx)
    ensures forall tx :: Size(UnsignedTree(tx)) < USIZE && [EIP1559_TX_TYPE] + Encode(UnsignedTree(tx)) <= raw ==>
              r == Ok(tx)
  {
    forall tx | Size(UnsignedTree(tx)) < USIZE && [EIP1559_TX_TYPE] + Encode(UnsignedTree(tx)) <= raw
      ensures TxOf(raw) == Ok(tx)
    {
      var printed := [EIP1559_TX_TYPE] + Encode(UnsignedTree(tx));
      SigningPayloadRoundTrip(tx, raw[|printed|..]);
      assert printed + raw[|printed|..] == raw;
    }
    TxOfMeans(raw);
    hide ReadsAs, Encode, Size;
    if raw == [] { return Err(EmptyPayload); }
    if raw[0] != EIP1559_TX_TYPE { return Err(WrongTypeByte); }
    var body := raw[1..];
    if !IsList(body) { return Err(NotAList); }
    var f := ListItems(body);
    if |f| != 9 { return Err(WrongFieldCount(|f|)); }
    var to := RecipientOf(f[5]);
    if to.Err? { return Err(to.error); }
    var accessList := ParseAccessList(f[8]);
    if accessList.Err? { return Err(accessList.error); }
    if !AllStrings(f, 8) { return Err(MalformedField); }
    r := Ok(TxFromStrings(f, to.value, accessList.value));
  }

  //// Injectivity and the signed form

  lemma {:induction false} UnsignedInjective(t: UnsignedTx, u: UnsignedTx)
    requires Size(UnsignedTree(t)) < USIZE && Size(UnsignedTree(u)) < USIZE
    requires Encode(UnsignedTree(t)) == Encode(UnsignedTree(u))
    ensures t == u
  {
    SigningPayloadRoundTrip(t, []);
    SigningPayloadRoundTrip(u, []);
  }

  /** Signed transactions are injective in the transaction and in the signature together. */
  lemma {:induction false} SignedInjective(t: UnsignedTx, u: UnsignedTx, a: TxSignature, b: TxSignature)
    requires Size(SignedTree(t, a)) < USIZE && Size(SignedTree(u, b)) < USIZE
    requires Encode(SignedTree(t, a)) == Encode(SignedTree(u, b))
    ensures t == u && a == b
  {
    PrefixFree(SignedTree(t, a), SignedTree(u, b), [], []);
    var xs, ys := BaseItems(t) + SignatureItems(a), BaseItems(u) + SignatureItems(b);
    assert xs == ys;
    assert BaseItems(t) == xs[..9] && BaseItems(u) == ys[..9];
    assert SignatureItems(a) == xs[9..] && SignatureItems(b) == ys[9..];
    TreeInjective(t, u);
    assert SignatureItems(a)[0] == SignatureItems(b)[0];
    assert SignatureItems(a)[1] == SignatureItems(b)[1];
    assert SignatureItems(a)[2] == SignatureItems(b)[2];
  }

  lemma {:induction false} TreeInjective(t: UnsignedTx, u: UnsignedTx)
    requires BaseItems(t) == BaseItems(u)
    ensures t == u
  {
    var xs, ys := BaseItems(t), BaseItems(u);
    assert LeadingItems(t) == xs[..8] == ys[..8] == LeadingItems(u);
    assert forall i :: 0 <= i < 8 ==> LeadingItems(t)[i] == LeadingItems(u)[i];
    assert LeadingItems(t)[0] == LeadingItems(u)[0] && LeadingItems(t)[1] == LeadingItems(u)[1];
    assert LeadingItems(t)[2] == LeadingItems(u)[2] && LeadingItems(t)[3] == LeadingItems(u)[3];
    assert LeadingItems(t)[4] == LeadingItems(u)[4] && LeadingItems(t)[5] == LeadingItems(u)[5];
    assert LeadingItems(t)[6] == LeadingItems(u)[6] && LeadingItems(t)[7] == LeadingItems(u)[7];
    assert xs[8] == List(EntryItems(t.accessList)) && ys[8] == List(EntryItems(u.accessList));
    forall i | 0 <= i < |t.accessList|
      ensures t.accessList[i] == u.accessList[i]
    {
      EntryItemInjective(t.accessList[i], u.accessList[i]);
    }
  }

  lemma {:induction false} EntryItemInjective(a: AccessListEntry, b: AccessListEntry)
    requires EntryItem(a) == EntryItem(b)
    ensures a == b
  {
    assert EntryItem(a).items[0] == EntryItem(b).items[0];
    assert EntryItem(a).items[1] == EntryItem(b).items[1];
    var xs, ys := KeyItems(a.storageKeys), KeyItems(b.storageKeys);
    assert xs == ys;
    assert forall i :: 0 <= i < |xs| ==> xs[i] == ys[i];
  }

  /** The signed body is the unsigned body followed by the three signature items. */
  lemma {:induction false} SignedBodyExtendsUnsigned(tx: UnsignedTx, sig: TxSignature)
    requires Size(SignedTree(tx, sig)) < USIZE
    ensures SizeAll(BaseItems(tx)) + SizeAll(SignatureItems(sig)) < USIZE
    ensures Contents(SignedTree(tx, sig)) == EncodeAll(BaseItems(tx)) + EncodeAll(SignatureItems(sig))
    ensures |Elements(Contents(SignedTree(tx, sig)))| == 12
  {
    EncodeAllConcat(BaseItems(tx), SignatureItems(sig));
    ElementsOfEncoding(BaseItems(tx) + SignatureItems(sig));
  }

  /** A finalized transaction is never mistaken for a signing payload. */
  lemma {:induction false} FinalizedIsNotUnsigned(tx: UnsignedTx, sig: TxSignature, rest: seq<Byte>)
    requires Size(SignedTree(tx, sig)) < USIZE
    ensures TxOf([EIP1559_TX_TYPE] + Encode(SignedTree(tx, sig)) + rest) == Err(WrongFieldCount(12))
  {
    var xs := BaseItems(tx) + SignatureItems(sig);
    assert |xs| == 12 && SignedTree(tx, sig) == List(xs);
    hide *;
    ReadList(xs, rest);
    var body := Encode(List(xs)) + rest;
    ReadTyped(body);
    assert [EIP1559_TX_TYPE] + Encode(SignedTree(tx, sig)) + rest == [EIP1559_TX_TYPE] + body;
  }
}
