/** Host-side vsock ports derived from an enclave's CID, and the allocator of managed CIDs. */
module RuntimeVsock {
  import opened Bytes

  const U32_LIMIT: nat := 0x1_0000_0000
  const MANAGED_CID_START: nat := 16
  const MANAGED_CID_END: nat := 4096
  const PORT_BASE: nat := 20_000
  const PORT_STRIDE: nat := 128
  const EGRESS_OFFSET: nat := 0
  const CLOCK_SYNC_OFFSET: nat := 1
  const HOSTFS_OFFSET: nat := 16
  const HOSTFS_CAPACITY: nat := PORT_STRIDE - HOSTFS_OFFSET

  datatype HostPorts = HostPorts(cid: nat, egress: nat, clockSync: nat, hostfsBase: nat)

  datatype Service = Egress | ClockSync | Mount(index: nat)

  function CheckedAdd(a: nat, b: nat): (r: Option<nat>)
    ensures r.Some? <==> a + b <= 0xffff_ffff
    ensures r.Some? ==> r.value == a + b
  {
    if a + b < U32_LIMIT then Some(a + b) else None
  }

  function CheckedMul(a: nat, b: nat): (r: Option<nat>)
    ensures r.Some? <==> a * b <= 0xffff_ffff
    ensures r.Some? ==> r.value == a * b
  {
    if a * b < U32_LIMIT then Some(a * b) else None
  }

  function BlockBase(cid: nat): Option<nat> {
    match CheckedMul(cid, PORT_STRIDE)
    case None => None
    case Some(offset) => CheckedAdd(PORT_BASE, offset)
  }

  /** The ports of an enclave; reserved CIDs and overflowing blocks are refused. */
  function ForCid(cid: nat): (r: Option<HostPorts>)
    ensures r.Some? ==> r.value.cid == cid
  {
    if cid < 4 then None
    else match BlockBase(cid)
      case None => None
      case Some(base) =>
        match (CheckedAdd(base, EGRESS_OFFSET), CheckedAdd(base, CLOCK_SYNC_OFFSET), CheckedAdd(base, HOSTFS_OFFSET))
        case (Some(e), Some(c), Some(h)) => Some(HostPorts(cid, e, c, h))
        case _ => None
  }

  function MountPort(p: HostPorts, index: nat): Option<nat> {
    if index >= U32_LIMIT || index >= HOSTFS_CAPACITY then None else CheckedAdd(p.hostfsBase, index)
  }

  function PortOf(p: HostPorts, s: Service): Option<nat> {
    match s
    case Egress => Some(p.egress)
    case ClockSync => Some(p.clockSync)
    case Mount(i) => MountPort(p, i)
  }

  /** The block a CID owns. */
  predicate InBlock(port: nat, cid: nat) {
    PORT_BASE + cid * PORT_STRIDE <= port < PORT_BASE + (cid + 1) * PORT_STRIDE
  }

  /** Every port derived for a CID lies in the CID's own block. */
  lemma {:induction false} PortsStayInBlock(cid: nat, s: Service)
    requires ForCid(cid).Some? && PortOf(ForCid(cid).value, s).Some?
    ensures InBlock(PortOf(ForCid(cid).value, s).value, cid)
  {
  }

  /** Two services get the same port only if they are the same service of the same enclave. */
  lemma {:induction false} PortsDistinct(c: nat, d: nat, s: Service, t: Service)
    requires ForCid(c).Some? && ForCid(d).Some?
    requires PortOf(ForCid(c).value, s).Some? && PortOf(ForCid(d).value, t).Some?
    requires PortOf(ForCid(c).value, s) == PortOf(ForCid(d).value, t)
    ensures c == d && s == t
  {
    PortsStayInBlock(c, s);
    PortsStayInBlock(d, t);
  }

  /** Exactly the CIDs from 4 up to the last one whose mount base still fits 32 bits are accepted. */
  lemma {:induction false} AcceptedCids(cid: nat)
    ensures ForCid(cid).Some? <==> 4 <= cid <= 33_554_275
    ensures ForCid(cid).Some? ==>
              var base := 20_000 + 128 * cid;
              ForCid(cid).value == HostPorts(cid, base, base + 1, base + 16)
    ensures ForCid(cid).Some? ==>
              var base, ports := 20_000 + 128 * cid, ForCid(cid).value;
              && PortOf(ports, Egress) == Some(base) && PortOf(ports, ClockSync) == Some(base + 1)
              && forall i: nat :: PortOf(ports, Mount(i)) ==
                   if i < 112 && base + 16 + i <= 0xffff_ffff then Some(base + 16 + i) else None
    ensures 16 <= cid <= 4096 ==>
              ForCid(cid).Some? && forall i :: 0 <= i < HOSTFS_CAPACITY ==> PortOf(ForCid(cid).value, Mount(i)).Some?
  {
  }

  /** The blocks of two enclaves have no port in common. */
  lemma {:induction false} BlocksApart(port: nat, c: nat, d: nat)
    requires InBlock(port, c) && InBlock(port, d)
    ensures c == d
  {
  }

  /** The least managed CID that is not in use. */
  method AllocateManagedCid(used: set<nat>) returns (r: Option<nat>)
    ensures r.Some? ==> 16 <= r.value <= 4096 && r.value !in used
    ensures r.Some? ==> forall c :: 16 <= c < r.value ==> c in used
    ensures r.None? ==> forall c :: 16 <= c <= 4096 ==> c in used
  {
    for cid := MANAGED_CID_START to MANAGED_CID_END + 1
      invariant forall c :: MANAGED_CID_START <= c < cid ==> c in used
    {
      if cid !in used { return Some(cid); }
    }
    r := None;
  }
}
