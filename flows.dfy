/** Packets and the per-flow counters of src/netmonitor/back/window.py
    (the `flows` default-dictionary and `_process_single_packet`). */
module Flows {
  import opened Wrappers
  import opened Stats

  type Addr = string

  /** scapy's TCP `flags` field: nine bits, F S R P A U E C N from the lowest bit up. */
  type TcpFlags = bv9

  /** The fields of an IPv4 (`src`, `dst`, `proto`) or IPv6 (`src`, `dst`, `nh`) header the flow key uses. */
  datatype IpHeader = IpHeader(src: Addr, dst: Addr, proto: nat)
  datatype TcpHeader = TcpHeader(sport: nat, dport: nat, flags: TcpFlags)
  datatype UdpHeader = UdpHeader(sport: nat, dport: nat)

  /** A captured packet: the layers it carries and its length `len(pkt)`. */
  datatype Packet = Packet(
    ip: Option<IpHeader>,
    ip6: Option<IpHeader>,
    tcp: Option<TcpHeader>,
    udp: Option<UdpHeader>,
    icmp: bool,
    length: nat)

  /** (source, destination, protocol); one direction of one flow in one window. */
  datatype FlowKey = FlowKey(src: Addr, dst: Addr, proto: nat)

  /** The flow key of a packet: from its IPv4 header if it has one, else from its IPv6 header. */
  function KeyOf(p: Packet): Option<FlowKey> {
    if p.ip.Some? then Some(FlowKey(p.ip.value.src, p.ip.value.dst, p.ip.value.proto))
    else if p.ip6.Some? then Some(FlowKey(p.ip6.value.src, p.ip6.value.dst, p.ip6.value.proto))
    else None
  }

  const SYN: TcpFlags := 0x02
  const FIN: TcpFlags := 0x01
  const RST: TcpFlags := 0x04
  const ACK: TcpFlags := 0x10
  const PSH: TcpFlags := 0x08
  const URG: TcpFlags := 0x20

  predicate HasBit(flags: TcpFlags, bit: TcpFlags) {
    flags & bit != 0
  }

  /** The three flag combinations the source counts as a Christmas-tree scan. */
  predicate IsXmas(flags: TcpFlags) {
    flags == 0x29 || flags == 0x3F || flags == 0x3B
  }

  /** The `tcp_flags` counters of one flow. */
  datatype FlagCounts = FlagCounts(
    syn: nat, fin: nat, rst: nat, ack: nat, psh: nat, urg: nat, xmas: nat, nullScan: nat)

  const NoFlags := FlagCounts(0, 0, 0, 0, 0, 0, 0, 0)

  function Inc(n: nat, b: bool): nat {
    if b then n + 1 else n
  }

  /** The flag counters after one more TCP segment with `flags`. */
  function CountFlags(c: FlagCounts, flags: TcpFlags): FlagCounts {
    FlagCounts(
      Inc(c.syn, HasBit(flags, SYN)), Inc(c.fin, HasBit(flags, FIN)),
      Inc(c.rst, HasBit(flags, RST)), Inc(c.ack, HasBit(flags, ACK)),
      Inc(c.psh, HasBit(flags, PSH)), Inc(c.urg, HasBit(flags, URG)),
      Inc(c.xmas, IsXmas(flags)), Inc(c.nullScan, flags == 0))
  }

  /** Each counter grows by one exactly when its flag bit is set; `xmas` exactly for the three
      Christmas-tree combinations and `null` exactly for an empty flag field. */
  lemma CountFlagsDecodes(c: FlagCounts, flags: TcpFlags)
    ensures CountFlags(c, flags).syn == c.syn + 1 <==> flags & 0x02 != 0
    ensures CountFlags(c, flags).fin == c.fin + 1 <==> flags & 0x01 != 0
    ensures CountFlags(c, flags).rst == c.rst + 1 <==> flags & 0x04 != 0
    ensures CountFlags(c, flags).ack == c.ack + 1 <==> flags & 0x10 != 0
    ensures CountFlags(c, flags).psh == c.psh + 1 <==> flags & 0x08 != 0
    ensures CountFlags(c, flags).urg == c.urg + 1 <==> flags & 0x20 != 0
    ensures CountFlags(c, flags).xmas == c.xmas + 1 <==> flags in {0x29, 0x3F, 0x3B}
    ensures CountFlags(c, flags).nullScan == c.nullScan + 1 <==> flags == 0
  {
  }

  /** No segment is both a Christmas-tree and a null scan; a Christmas-tree segment also counts
      as FIN, PSH and URG, and a null segment counts under no flag. */
  lemma XmasAndNullScans(c: FlagCounts, flags: TcpFlags)
    ensures CountFlags(c, flags).xmas + CountFlags(c, flags).nullScan <= c.xmas + c.nullScan + 1
    ensures IsXmas(flags) ==> HasBit(flags, FIN) && HasBit(flags, PSH) && HasBit(flags, URG)
    ensures flags == 0 ==> CountFlags(c, flags) == c.(nullScan := c.nullScan + 1)
  {
  }

  /** One flow's counters (the value type of `self.flows`). */
  datatype FlowStats = FlowStats(
    pktCount: nat,
    byteCount: nat,
    dstPorts: map<nat, nat>,
    srcPorts: map<nat, nat>,
    flags: FlagCounts,
    sizes: seq<nat>,
    startTs: Option<real>,
    endTs: Option<real>,
    tcpPkts: nat,
    udpPkts: nat,
    icmpPkts: nat)

  /** What the default-dictionary creates for a key it has not seen. */
  const NewFlow := FlowStats(0, 0, map[], map[], NoFlags, [], None, None, 0, 0, 0)

  /** `histogram[k] += 1` on a default-dictionary of ints. */
  function Bump(m: map<nat, nat>, k: nat): map<nat, nat> {
    m[k := (if k in m then m[k] else 0) + 1]
  }

  /** The flow's counters after packet `p`, seen at time `now`, is added to it. */
  function CountPacket(f: FlowStats, p: Packet, now: real): FlowStats {
    var g := f.(
      startTs := if f.startTs.None? then Some(now) else f.startTs,
      endTs := Some(now),
      pktCount := f.pktCount + 1,
      byteCount := f.byteCount + p.length,
      sizes := f.sizes + [p.length]);
    if p.tcp.Some? then
      g.(tcpPkts := g.tcpPkts + 1,
         dstPorts := Bump(g.dstPorts, p.tcp.value.dport),
         srcPorts := Bump(g.srcPorts, p.tcp.value.sport),
         flags := CountFlags(g.flags, p.tcp.value.flags))
    else if p.udp.Some? then
      g.(udpPkts := g.udpPkts + 1,
         dstPorts := Bump(g.dstPorts, p.udp.value.dport),
         srcPorts := Bump(g.srcPorts, p.udp.value.sport))
    else if p.icmp then
      g.(icmpPkts := g.icmpPkts + 1)
    else g
  }

  /** Every flag counter is bounded by the TCP segments seen, and no segment is both
      Christmas-tree and null. */
  ghost predicate FlagsBounded(c: FlagCounts, tcp: nat) {
    c.syn <= tcp && c.fin <= tcp && c.rst <= tcp && c.ack <= tcp && c.psh <= tcp && c.urg <= tcp
    && c.xmas + c.nullScan <= tcp
  }

  ghost predicate PositiveCounts(m: map<nat, nat>) {
    forall k :: k in m ==> m[k] > 0
  }

  /** The invariant of one flow's counters. */
  ghost predicate FlowInv(f: FlowStats) {
    && f.pktCount == |f.sizes|
    && f.byteCount == Sum(f.sizes)
    && f.tcpPkts + f.udpPkts + f.icmpPkts <= f.pktCount
    && FlagsBounded(f.flags, f.tcpPkts)
    && (f.dstPorts == map[] <==> f.tcpPkts + f.udpPkts == 0)
    && (f.srcPorts == map[] <==> f.tcpPkts + f.udpPkts == 0)
    && PositiveCounts(f.dstPorts) && PositiveCounts(f.srcPorts)
    && CountTotal(f.dstPorts) == (f.tcpPkts + f.udpPkts) as real
    && CountTotal(f.srcPorts) == (f.tcpPkts + f.udpPkts) as real
    && (f.startTs.Some? <==> f.pktCount > 0)
    && (f.endTs.Some? <==> f.pktCount > 0)
  }

  lemma BumpPositive(m: map<nat, nat>, k: nat)
    requires PositiveCounts(m)
    ensures PositiveCounts(Bump(m, k)) && Bump(m, k) != map[] && k in Bump(m, k)
  {
    var b := Bump(m, k);
    assert k in b;
    forall j | j in b
      ensures b[j] > 0
    {
      if j != k {
        assert b[j] == m[j];
      }
    }
  }

  /** Counting one more port adds one to the histogram's total. */
  lemma BumpTotal(m: map<nat, nat>, k: nat)
    ensures CountTotal(Bump(m, k)) == CountTotal(m) + 1.0
  {
    var b := Bump(m, k);
    forall j | j in b
      ensures b[j] == Get(m, j) + Get(map[k := 1], j)
    {
    }
    CountTotalMerge(m, map[k := 1], b);
    CountTotalSingle(k);
  }

  lemma CountFlagsBounded(c: FlagCounts, tcp: nat, flags: TcpFlags)
    requires FlagsBounded(c, tcp)
    ensures FlagsBounded(CountFlags(c, flags), tcp + 1)
  {
    assert !(IsXmas(flags) && flags == 0);
  }

  /** Counting a packet keeps the invariant: one more size, its bytes, at most one protocol counter. */
  lemma CountPacketKeepsInv(f: FlowStats, p: Packet, now: real)
    requires FlowInv(f)
    ensures FlowInv(CountPacket(f, p, now))
    ensures CountPacket(f, p, now).pktCount > 0
  {
    assert (f.sizes + [p.length])[..|f.sizes|] == f.sizes;
    assert Sum(f.sizes + [p.length]) == Sum(f.sizes) + p.length;
    if p.tcp.Some? {
      BumpPositive(f.dstPorts, p.tcp.value.dport);
      BumpPositive(f.srcPorts, p.tcp.value.sport);
      BumpTotal(f.dstPorts, p.tcp.value.dport);
      BumpTotal(f.srcPorts, p.tcp.value.sport);
      CountFlagsBounded(f.flags, f.tcpPkts, p.tcp.value.flags);
    } else if p.udp.Some? {
      BumpPositive(f.dstPorts, p.udp.value.dport);
      BumpPositive(f.srcPorts, p.udp.value.sport);
      BumpTotal(f.dstPorts, p.udp.value.dport);
      BumpTotal(f.srcPorts, p.udp.value.sport);
      assert FlagsBounded(f.flags, f.tcpPkts);
    }
  }

  /** The TCP, UDP and ICMP branches are exclusive, and only TCP or UDP touch the port histograms. */
  lemma CountPacketBranches(f: FlowStats, p: Packet, now: real)
    ensures var g := CountPacket(f, p, now);
      && g.pktCount == f.pktCount + 1
      && g.sizes == f.sizes + [p.length]
      && g.tcpPkts + g.udpPkts + g.icmpPkts <= f.tcpPkts + f.udpPkts + f.icmpPkts + 1
      && (g.tcpPkts == f.tcpPkts + 1 <==> p.tcp.Some?)
      && (g.udpPkts == f.udpPkts + 1 <==> p.tcp.None? && p.udp.Some?)
      && (g.icmpPkts == f.icmpPkts + 1 <==> p.tcp.None? && p.udp.None? && p.icmp)
      && (p.tcp.None? && p.udp.None? ==> g.dstPorts == f.dstPorts && g.srcPorts == f.srcPorts)
      && (p.tcp.None? ==> g.flags == f.flags)
  {
  }

  /** The flows of a window: `stats` is the dictionary and `keys` its insertion order,
      which is the order `self.flows.values()` visits them in. */
  datatype FlowTable = FlowTable(keys: seq<FlowKey>, stats: map<FlowKey, FlowStats>)

  const EmptyTable := FlowTable([], map[])

  ghost predicate TableValid(t: FlowTable) {
    && (forall i, j :: 0 <= i < j < |t.keys| ==> t.keys[i] != t.keys[j])
    && (forall k :: k in t.stats <==> k in t.keys)
    && AllFlowsValid(t.stats)
  }

  ghost predicate AllFlowsValid(m: map<FlowKey, FlowStats>) {
    forall k :: k in m ==> FlowInv(m[k]) && m[k].pktCount > 0
  }

  lemma UpdateKeepsFlowsValid(m: map<FlowKey, FlowStats>, k: FlowKey, f: FlowStats)
    requires AllFlowsValid(m)
    requires FlowInv(f) && f.pktCount > 0
    ensures AllFlowsValid(m[k := f])
  {
  }

  /** `self.flows[key]` on the default-dictionary: the stored flow, or a new one. */
  function FlowOf(t: FlowTable, k: FlowKey): FlowStats {
    if k in t.stats then t.stats[k] else NewFlow
  }

  /** Writing flow `f` back under key `k`; a new key goes to the end of the insertion order. */
  function Store(t: FlowTable, k: FlowKey, f: FlowStats): FlowTable {
    if k in t.stats then FlowTable(t.keys, t.stats[k := f])
    else FlowTable(t.keys + [k], t.stats[k := f])
  }

  /** The flow table after `_process_single_packet(p)` at time `now`. */
  function Ingest(t: FlowTable, p: Packet, now: real): FlowTable {
    match KeyOf(p)
    case None => t
    case Some(k) => Store(t, k, CountPacket(FlowOf(t, k), p, now))
  }

  /** Ingesting a packet with neither IPv4 nor IPv6 leaves the table as it is; otherwise only
      the packet's own flow changes, and that flow is appended to the order if it is new. */
  lemma IngestChangesOneFlow(t: FlowTable, p: Packet, now: real)
    ensures KeyOf(p).None? ==> Ingest(t, p, now) == t
    ensures KeyOf(p).Some? ==>
      var k := KeyOf(p).value;
      && Ingest(t, p, now).stats.Keys == t.stats.Keys + {k}
      && Ingest(t, p, now).stats[k] == CountPacket(if k in t.stats then t.stats[k] else NewFlow, p, now)
      && (forall k' :: k' in t.stats && k' != k ==> Ingest(t, p, now).stats[k'] == t.stats[k'])
      && Ingest(t, p, now).keys == (if k in t.stats then t.keys else t.keys + [k])
  {
  }

  lemma AppendKeepsDistinct(keys: seq<FlowKey>, k: FlowKey)
    requires forall i, j :: 0 <= i < j < |keys| ==> keys[i] != keys[j]
    requires k !in keys
    ensures forall i, j :: 0 <= i < j < |keys + [k]| ==> (keys + [k])[i] != (keys + [k])[j]
  {
  }

  /** A flow the default-dictionary has just created satisfies the invariant. */
  lemma NewFlowValid()
    ensures FlowInv(NewFlow)
  {
    var empty: map<nat, nat> := map[];
    assert empty.Keys == {};
    assert CountTotal(empty) == 0.0;
  }

  /** Storing a valid, non-empty flow keeps the table valid. */
  lemma StoreKeepsValid(t: FlowTable, k: FlowKey, f: FlowStats)
    requires TableValid(t)
    requires FlowInv(f) && f.pktCount > 0
    ensures TableValid(Store(t, k, f))
  {
    UpdateKeepsFlowsValid(t.stats, k, f);
    if k !in t.stats {
      AppendKeepsDistinct(t.keys, k);
    }
  }

  lemma IngestShape(t: FlowTable, p: Packet, now: real, k: FlowKey)
    requires KeyOf(p) == Some(k)
    ensures Ingest(t, p, now) ==
      if k in t.stats then FlowTable(t.keys, t.stats[k := CountPacket(t.stats[k], p, now)])
      else FlowTable(t.keys + [k], t.stats[k := CountPacket(NewFlow, p, now)])
  {
  }

  /** The flow `self.flows[key]` hands out, stored or new, satisfies the invariant. */
  lemma FlowOfValid(t: FlowTable, k: FlowKey)
    requires TableValid(t)
    ensures FlowInv(FlowOf(t, k))
  {
    if k !in t.stats {
      NewFlowValid();
    }
  }

  /** Ingesting keeps the table valid. */
  lemma IngestKeepsValid(t: FlowTable, p: Packet, now: real)
    requires TableValid(t)
    ensures TableValid(Ingest(t, p, now))
  {
    match KeyOf(p)
    case None =>
    case Some(k) =>
      var f := FlowOf(t, k);
      FlowOfValid(t, k);
      CountPacketKeepsInv(f, p, now);
      StoreKeepsValid(t, k, CountPacket(f, p, now));
  }
}
