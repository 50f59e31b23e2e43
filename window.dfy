/** The flow window of src/netmonitor/back/window.py: packets are grouped into flows for
    `window_duration` seconds, then `_finish_window` reduces the flows to the enabled features. */
module FlowWindow {
  import opened Wrappers
  import opened Stats
  import opened Features
  import opened Flows

  /** The running totals `_finish_window` keeps while it walks the flows. */
  datatype Totals = Totals(
    packets: nat,
    bytes: nat,
    dstPorts: map<nat, nat>,
    srcPorts: map<nat, nat>,
    flags: FlagCounts,
    sizes: seq<nat>,
    tcp: nat,
    udp: nat,
    icmp: nat)

  const NoTotals := Totals(0, 0, map[], map[], NoFlags, [], 0, 0, 0)

  /** The histogram `acc` after `for p, c in m.items(): acc[p] += c`. */
  function MergeCounts(acc: map<nat, nat>, m: map<nat, nat>): map<nat, nat> {
    map k | k in acc.Keys + m.Keys :: Get(acc, k) + Get(m, k)
  }

  /** Merging histograms keeps every port of both, with positive counts, and the merged
      total is the sum of the two totals: no count is lost or counted twice. */
  lemma MergeCountsTotal(acc: map<nat, nat>, m: map<nat, nat>)
    requires PositiveCounts(acc) && PositiveCounts(m)
    ensures MergeCounts(acc, m).Keys == acc.Keys + m.Keys
    ensures PositiveCounts(MergeCounts(acc, m))
    ensures CountTotal(MergeCounts(acc, m)) == CountTotal(acc) + CountTotal(m)
  {
    CountTotalMerge(acc, m, MergeCounts(acc, m));
  }

  /** The entries of `m` whose keys are in `s`. */
  function Restrict(m: map<nat, nat>, s: set<nat>): map<nat, nat> {
    map k | k in m.Keys * s :: m[k]
  }

  /** Adding the entry of one more port of `m` to the merge. */
  lemma MergeStep(acc: map<nat, nat>, m: map<nat, nat>, done: set<nat>, p: nat)
    requires p in m && p !in done
    ensures var before := MergeCounts(acc, Restrict(m, done));
      MergeCounts(acc, Restrict(m, done + {p})) == before[p := Get(before, p) + m[p]]
  {
    var before := MergeCounts(acc, Restrict(m, done));
    var after := MergeCounts(acc, Restrict(m, done + {p}));
    assert after.Keys == before.Keys + {p};
    forall k | k in after
      ensures after[k] == before[p := Get(before, p) + m[p]][k]
    {
    }
  }

  /** The inner loops of `_finish_window` that add one flow's port histogram into the window's. */
  method MergePorts(acc: map<nat, nat>, m: map<nat, nat>) returns (r: map<nat, nat>)
    ensures r == MergeCounts(acc, m)
  {
    r := acc;
    var todo := m.Keys;
    ghost var done: set<nat> := {};
    assert Restrict(m, {}) == map[];
    assert MergeCounts(acc, map[]) == acc;
    while todo != {}
      invariant todo !! done && todo + done == m.Keys
      invariant r == MergeCounts(acc, Restrict(m, done))
      decreases todo
    {
      var p :| p in todo;
      MergeStep(acc, m, done, p);
      r := r[p := Get(r, p) + m[p]];
      todo := todo - {p};
      done := done + {p};
    }
    assert Restrict(m, done) == m;
  }

  function AddFlags(a: FlagCounts, b: FlagCounts): FlagCounts {
    FlagCounts(a.syn + b.syn, a.fin + b.fin, a.rst + b.rst, a.ack + b.ack,
               a.psh + b.psh, a.urg + b.urg, a.xmas + b.xmas, a.nullScan + b.nullScan)
  }

  /** The totals after one more flow (one iteration of the loop over `self.flows.values()`). */
  function Accumulate(t: Totals, f: FlowStats): Totals {
    Totals(
      t.packets + f.pktCount,
      t.bytes + f.byteCount,
      MergeCounts(t.dstPorts, f.dstPorts),
      MergeCounts(t.srcPorts, f.srcPorts),
      AddFlags(t.flags, f.flags),
      t.sizes + f.sizes,
      t.tcp + f.tcpPkts,
      t.udp + f.udpPkts,
      t.icmp + f.icmpPkts)
  }

  /** The totals after the loop has visited `fs` in order. */
  function Aggregate(fs: seq<FlowStats>): Totals {
    if fs == [] then NoTotals else Accumulate(Aggregate(fs[..|fs| - 1]), fs[|fs| - 1])
  }

  lemma AggregateSnoc(fs: seq<FlowStats>, f: FlowStats)
    ensures Aggregate(fs + [f]) == Accumulate(Aggregate(fs), f)
  {
    assert (fs + [f])[..|fs|] == fs;
  }

  /** The flows of the table in the order the dictionary yields them. */
  function FlowsInOrder(t: FlowTable): seq<FlowStats> {
    seq(|t.keys|, i requires 0 <= i < |t.keys| =>
      if t.keys[i] in t.stats then t.stats[t.keys[i]] else NewFlow)
  }

  /** What the totals of valid flows satisfy: the packet count is the number of sizes, the
      byte count their sum, each protocol and flag counter is bounded as in a single flow, and
      each port histogram holds positive counts adding up to the TCP and UDP packets. */
  ghost predicate TotalsInv(t: Totals) {
    && t.packets == |t.sizes|
    && t.bytes == Sum(t.sizes)
    && t.tcp + t.udp + t.icmp <= t.packets
    && FlagsBounded(t.flags, t.tcp)
    && PositiveCounts(t.dstPorts) && PositiveCounts(t.srcPorts)
    && CountTotal(t.dstPorts) == (t.tcp + t.udp) as real
    && CountTotal(t.srcPorts) == (t.tcp + t.udp) as real
  }

  lemma AccumulateKeepsInv(t: Totals, f: FlowStats)
    requires TotalsInv(t) && FlowInv(f)
    ensures TotalsInv(Accumulate(t, f))
  {
    SumConcat(t.sizes, f.sizes);
    MergeCountsTotal(t.dstPorts, f.dstPorts);
    MergeCountsTotal(t.srcPorts, f.srcPorts);
  }

  /** Aggregating flows that each keep the flow invariant gives totals that keep the totals
      invariant; with at least one non-empty flow there is at least one packet. */
  lemma AggregateInv(fs: seq<FlowStats>)
    requires forall i :: 0 <= i < |fs| ==> FlowInv(fs[i])
    ensures TotalsInv(Aggregate(fs))
    ensures (exists i :: 0 <= i < |fs| && fs[i].pktCount > 0) ==> Aggregate(fs).packets > 0
  {
    AggregateKeepsInv(fs);
    if exists i :: 0 <= i < |fs| && fs[i].pktCount > 0 {
      var i :| 0 <= i < |fs| && fs[i].pktCount > 0;
      AggregatePacketsBelow(fs, i);
    }
  }

  lemma {:induction false} AggregateKeepsInv(fs: seq<FlowStats>)
    requires forall i :: 0 <= i < |fs| ==> FlowInv(fs[i])
    ensures TotalsInv(Aggregate(fs))
  {
    if fs != [] {
      var init := fs[..|fs| - 1];
      AggregateKeepsInv(init);
      AccumulateKeepsInv(Aggregate(init), fs[|fs| - 1]);
    }
  }

  /** The packet total counts at least the packets of every flow aggregated. */
  lemma {:induction false} AggregatePacketsBelow(fs: seq<FlowStats>, i: nat)
    requires i < |fs|
    ensures Aggregate(fs).packets >= fs[i].pktCount
  {
    var init := fs[..|fs| - 1];
    if i < |fs| - 1 {
      AggregatePacketsBelow(init, i);
    }
  }

  /** The sizes of all packets of `fs`, flow after flow (`all_sizes`), defined from the front. */
  function PacketSizes(fs: seq<FlowStats>): seq<nat> {
    if fs == [] then [] else fs[0].sizes + PacketSizes(fs[1..])
  }

  /** The ports seen as destination (or source) in any of the flows. */
  function PortsSeen(fs: seq<FlowStats>, dst: bool): set<nat> {
    if fs == [] then {} else (if dst then fs[0].dstPorts.Keys else fs[0].srcPorts.Keys) + PortsSeen(fs[1..], dst)
  }

  lemma {:induction false} PacketSizesSnoc(fs: seq<FlowStats>, f: FlowStats)
    ensures PacketSizes(fs + [f]) == PacketSizes(fs) + f.sizes
    ensures PortsSeen(fs + [f], true) == PortsSeen(fs, true) + f.dstPorts.Keys
    ensures PortsSeen(fs + [f], false) == PortsSeen(fs, false) + f.srcPorts.Keys
  {
    if fs != [] {
      assert (fs + [f])[1..] == fs[1..] + [f];
      PacketSizesSnoc(fs[1..], f);
    }
  }

  /** The aggregated sizes are the sizes of every flow in order, and the aggregated
      histograms hold exactly the ports seen in any flow. */
  lemma {:induction false} AggregateContents(fs: seq<FlowStats>)
    ensures Aggregate(fs).sizes == PacketSizes(fs)
    ensures Aggregate(fs).dstPorts.Keys == PortsSeen(fs, true)
    ensures Aggregate(fs).srcPorts.Keys == PortsSeen(fs, false)
  {
    if fs != [] {
      var init := fs[..|fs| - 1];
      AggregateContents(init);
      PacketSizesSnoc(init, fs[|fs| - 1]);
      assert init + [fs[|fs| - 1]] == fs;
    }
  }

  /** The floating-point library functions the features use; their values are not modelled. */
  datatype Numerics = Numerics(log2: real -> real, sqrt: real -> real)

  /** `p * log2(p)`, one term of the entropy sum. */
  function PLogP(p: real, log2: real -> real): real {
    p * log2(p)
  }

  /** The entropy terms of the ports in `s`, each count taken as a share of `total`. */
  ghost function EntropyTerms(counts: map<nat, nat>, total: real, log2: real -> real, s: set<nat>): real
    requires total != 0.0
  {
    SetSum(s, k => PLogP(Get(counts, k) as real / total, log2))
  }

  /** The Shannon entropy of a port histogram (the module-level `entropy`): zero for an empty
      histogram or one whose counts total zero, otherwise minus the sum of `p log2 p`. */
  ghost function Entropy(counts: map<nat, nat>, log2: real -> real): real {
    if counts == map[] then 0.0
    else
      var total := CountTotal(counts);
      if total == 0.0 then 0.0 else 0.0 - EntropyTerms(counts, total, log2, counts.Keys)
  }

  /** `sum(values.values())`. */
  method TotalCount(counts: map<nat, nat>) returns (total: nat)
    ensures total as real == CountTotal(counts)
  {
    total := 0;
    var todo := counts.Keys;
    while todo != {}
      invariant todo <= counts.Keys
      invariant total as real == CountSum(counts, counts.Keys - todo)
      decreases todo
    {
      var k :| k in todo;
      SetSumAdd(counts.Keys - todo, k, j => Get(counts, j) as real);
      assert counts.Keys - (todo - {k}) == (counts.Keys - todo) + {k};
      total := total + counts[k];
      todo := todo - {k};
    }
    assert counts.Keys - todo == counts.Keys;
  }

  lemma EntropyStep(counts: map<nat, nat>, total: real, log2: real -> real, done: set<nat>, k: nat)
    requires total != 0.0 && k in counts && k !in done
    ensures EntropyTerms(counts, total, log2, done + {k})
      == EntropyTerms(counts, total, log2, done) + PLogP(counts[k] as real / total, log2)
  {
    SetSumAdd(done, k, j => PLogP(Get(counts, j) as real / total, log2));
  }

  /** The loop of `entropy` that subtracts `p * log2(p)` for every count. */
  method SubtractTerms(counts: map<nat, nat>, total: nat, log2: real -> real) returns (e: real)
    requires total > 0
    ensures e == 0.0 - EntropyTerms(counts, total as real, log2, counts.Keys)
  {
    e := 0.0;
    var todo := counts.Keys;
    while todo != {}
      invariant todo <= counts.Keys
      invariant e == 0.0 - EntropyTerms(counts, total as real, log2, counts.Keys - todo)
      decreases todo
    {
      var k :| k in todo;
      var p := counts[k] as real / total as real;
      EntropyStep(counts, total as real, log2, counts.Keys - todo, k);
      assert counts.Keys - (todo - {k}) == (counts.Keys - todo) + {k};
      e := e - p * log2(p);
      todo := todo - {k};
    }
    assert counts.Keys - todo == counts.Keys;
  }

  /** `entropy(values)`. */
  method ComputeEntropy(counts: map<nat, nat>, log2: real -> real) returns (e: real)
    ensures e == Entropy(counts, log2)
  {
    if |counts| == 0 {
      return 0.0;
    }
    var total := TotalCount(counts);
    if total == 0 {
      return 0.0;
    }
    e := SubtractTerms(counts, total, log2);
  }

  /** Each count is at most the total of the histogram. */
  lemma CountAtMostTotal(m: map<nat, nat>, k: nat)
    requires k in m
    ensures m[k] as real <= CountTotal(m)
  {
    var g := j => Get(m, j) as real;
    SetSumRemove(m.Keys, k, g);
    SetSumNonNegative(m.Keys - {k}, g);
  }

  /** With a `log2` that is not positive on (0, 1], as the real one is, the entropy of a
      histogram of positive counts is never negative. */
  lemma EntropyNonNegative(counts: map<nat, nat>, log2: real -> real)
    requires forall p: real :: 0.0 < p <= 1.0 ==> log2(p) <= 0.0
    requires PositiveCounts(counts)
    ensures Entropy(counts, log2) >= 0.0
  {
    if counts != map[] {
      CountTotalPositive(counts);
      var total := CountTotal(counts);
      forall k | k in counts.Keys
        ensures PLogP(Get(counts, k) as real / total, log2) <= 0.0
      {
        CountAtMostTotal(counts, k);
        var p := counts[k] as real / total;
        assert 0.0 < p <= 1.0;
        assert log2(p) <= 0.0;
        NonPositiveProduct(p, log2(p));
      }
      SetSumNonNegative(counts.Keys, k => 0.0 - PLogP(Get(counts, k) as real / total, log2));
      SetSumLinear(counts.Keys, k => PLogP(Get(counts, k) as real / total, log2),
        k => 0.0 - PLogP(Get(counts, k) as real / total, log2), k => 0.0);
      SetSumZero(counts.Keys);
    }
  }

  lemma NonPositiveProduct(p: real, l: real)
    requires p > 0.0 && l <= 0.0
    ensures p * l <= 0.0
  {
  }

  lemma {:induction false} SetSumZero(s: set<nat>)
    ensures SetSum(s, k => 0.0) == 0.0
    decreases s
  {
    if s != {} {
      SetSumZero(s - {Pick(s)});
    }
  }

  /** All traffic on one port: with `log2(1) = 0` the entropy is zero. */
  lemma EntropyOfOnePort(counts: map<nat, nat>, log2: real -> real)
    requires log2(1.0) == 0.0
    requires |counts| == 1 && PositiveCounts(counts)
    ensures Entropy(counts, log2) == 0.0
  {
    var k :| k in counts;
    assert |counts.Keys - {k}| == 0;
    assert counts.Keys == {k};
    var g := j => Get(counts, j) as real;
    SetSumRemove(counts.Keys, k, g);
    assert counts.Keys - {k} == {};
    var total := CountTotal(counts);
    assert total == counts[k] as real;
    SetSumRemove(counts.Keys, k, j => PLogP(Get(counts, j) as real / total, log2));
    DivSelf(total);
  }

  lemma DivSelf(x: real)
    requires x != 0.0
    ensures x / x == 1.0
  {
  }

  /** What the feature formulas read: the flow count, the totals, the window length, and the
      three values computed by library code. */
  datatype Summary = Summary(
    flowCount: nat,
    totals: Totals,
    duration: real,
    entropyDst: real,
    entropySrc: real,
    stdev: real)

  /** `n / total_pkts`, where `total_pkts` is the packet count, or 1 when there are none. */
  function PerPacket(n: nat, packets: nat): real {
    n as real / (if packets > 0 then packets else 1) as real
  }

  /** `n / total_flows if total_flows else 0`. */
  function PerFlow(n: nat, flows: nat): real {
    if flows > 0 then n as real / flows as real else 0.0
  }

  /** The only features that divide by the window length. */
  predicate IsRate(f: Feature) {
    f == PktRate || f == ByteRate
  }

  /** The value `_finish_window` stores under feature `f`. */
  function FeatureValue(f: Feature, s: Summary): real
    requires IsRate(f) ==> s.duration != 0.0
  {
    var t := s.totals;
    match f
    case FlowCount => s.flowCount as real
    case TotalPackets => t.packets as real
    case TotalBytes => t.bytes as real
    case AvgBytesPerFlow => PerFlow(t.bytes, s.flowCount)
    case PktRate => t.packets as real / s.duration
    case ByteRate => t.bytes as real / s.duration
    case SynCount => t.flags.syn as real
    case FinCount => t.flags.fin as real
    case RstCount => t.flags.rst as real
    case AckCount => t.flags.ack as real
    case PshCount => t.flags.psh as real
    case UrgCount => t.flags.urg as real
    case SynRatio => PerPacket(t.flags.syn, t.packets)
    case FinRatio => PerPacket(t.flags.fin, t.packets)
    case XmasTotal => t.flags.xmas as real
    case NullScanTotal => t.flags.nullScan as real
    case UniqueDstPorts => |t.dstPorts| as real
    case UniqueSrcPorts => |t.srcPorts| as real
    case PortEntropyDst => s.entropyDst
    case PortEntropySrc => s.entropySrc
    case AvgPktSize => if t.sizes != [] then Mean(t.sizes) else 0.0
    case MinPktSize => if t.sizes != [] then Min(t.sizes) as real else 0.0
    case MaxPktSize => if t.sizes != [] then Max(t.sizes) as real else 0.0
    case StdPktSize => if t.sizes != [] then s.stdev else 0.0
    case AvgPacketsPerFlow => PerFlow(t.packets, s.flowCount)
    case AvgBytesPerPacket => PerPacket(t.bytes, t.packets)
    case ProtoTcpRatio => PerPacket(t.tcp, t.packets)
    case ProtoUdpRatio => PerPacket(t.udp, t.packets)
    case ProtoIcmpRatio => PerPacket(t.icmp, t.packets)
  }

  /** Python raises `ZeroDivisionError` for a packet or byte rate over a zero-length window. */
  datatype WindowError = ZeroDivision

  ghost function SummaryOf(t: FlowTable, duration: real, num: Numerics): Summary {
    var totals := Aggregate(FlowsInOrder(t));
    Summary(|t.keys|, totals, duration,
      Entropy(totals.dstPorts, num.log2), Entropy(totals.srcPorts, num.log2),
      if totals.sizes != [] then num.sqrt(PVariance(totals.sizes)) else 0.0)
  }

  /** The outcome of `_finish_window` on a flow table: no features for a window without flows,
      the division error when a rate is asked of a zero-length window, otherwise the value of
      every enabled feature. */
  ghost function WindowFeatures(t: FlowTable, enabled: set<Feature>, duration: real, num: Numerics)
    : Result<map<Feature, real>, WindowError>
  {
    if |t.keys| == 0 then Ok(map[])
    else if duration == 0.0 && (PktRate in enabled || ByteRate in enabled) then Err(ZeroDivision)
    else
      var s := SummaryOf(t, duration, num);
      Ok(map f | f in enabled :: FeatureValue(f, s))
  }

  /** The flows of a valid table, in order, each keep the flow invariant and are non-empty. */
  lemma FlowsInOrderValid(t: FlowTable)
    requires TableValid(t)
    ensures forall i :: 0 <= i < |FlowsInOrder(t)| ==>
      FlowInv(FlowsInOrder(t)[i]) && FlowsInOrder(t)[i].pktCount > 0
  {
  }

  /** `_finish_window` fails exactly when the window has flows, its length is zero and a rate is
      enabled; otherwise it returns nothing for a window without flows and exactly the enabled
      features for one with flows. */
  lemma WindowFeaturesOutcome(t: FlowTable, enabled: set<Feature>, duration: real, num: Numerics)
    ensures WindowFeatures(t, enabled, duration, num).Err? <==>
      |t.keys| > 0 && duration == 0.0 && (PktRate in enabled || ByteRate in enabled)
    ensures WindowFeatures(t, enabled, duration, num).Ok? ==>
      WindowFeatures(t, enabled, duration, num).value.Keys == (if |t.keys| == 0 then {} else enabled)
  {
  }

  lemma PerPacketAtMostOne(n: nat, packets: nat)
    requires 0 < packets && n <= packets
    ensures 0.0 <= PerPacket(n, packets) <= 1.0
  {
    DivBounds(n as real, packets as real, 0.0, 1.0);
  }

  lemma PerPacketSum(a: nat, b: nat, c: nat, packets: nat)
    requires 0 < packets && a + b + c <= packets
    ensures PerPacket(a, packets) + PerPacket(b, packets) + PerPacket(c, packets) <= 1.0
  {
    var p := packets as real;
    assert PerPacket(a, packets) + PerPacket(b, packets) + PerPacket(c, packets) == (a + b + c) as real / p;
    DivBounds((a + b + c) as real, p, 0.0, 1.0);
  }

  /** The totals of a valid table with flows keep the totals invariant and count at least
      one packet. */
  lemma TableTotals(t: FlowTable)
    requires TableValid(t) && |t.keys| > 0
    ensures TotalsInv(Aggregate(FlowsInOrder(t)))
    ensures Aggregate(FlowsInOrder(t)).packets > 0
  {
    var fs := FlowsInOrder(t);
    FlowsInOrderValid(t);
    assert fs[0].pktCount > 0;
    AggregateInv(fs);
  }

  /** Every feature the window reports is its formula applied to the window's summary. */
  lemma WindowValue(t: FlowTable, enabled: set<Feature>, duration: real, num: Numerics, f: Feature)
    requires WindowFeatures(t, enabled, duration, num).Ok? && |t.keys| > 0
    requires f in WindowFeatures(t, enabled, duration, num).value
    ensures !IsRate(f) || duration != 0.0
    ensures WindowFeatures(t, enabled, duration, num).value[f] == FeatureValue(f, SummaryOf(t, duration, num))
  {
  }

  /** Totals that keep their invariant and count at least one packet give ratio features in
      [0, 1] and protocol ratios that add up to at most 1. */
  lemma SummaryRatios(s: Summary)
    requires TotalsInv(s.totals) && s.totals.packets > 0
    ensures 0.0 <= FeatureValue(SynRatio, s) <= 1.0
    ensures 0.0 <= FeatureValue(FinRatio, s) <= 1.0
    ensures 0.0 <= FeatureValue(ProtoTcpRatio, s) <= 1.0
    ensures 0.0 <= FeatureValue(ProtoUdpRatio, s) <= 1.0
    ensures 0.0 <= FeatureValue(ProtoIcmpRatio, s) <= 1.0
    ensures FeatureValue(ProtoTcpRatio, s) + FeatureValue(ProtoUdpRatio, s) + FeatureValue(ProtoIcmpRatio, s) <= 1.0
  {
    var a := s.totals;
    PerPacketAtMostOne(a.flags.syn, a.packets);
    PerPacketAtMostOne(a.flags.fin, a.packets);
    PerPacketAtMostOne(a.tcp, a.packets);
    PerPacketAtMostOne(a.udp, a.packets);
    PerPacketAtMostOne(a.icmp, a.packets);
    PerPacketSum(a.tcp, a.udp, a.icmp, a.packets);
  }

  /** Totals with at least one packet size give min <= mean <= max packet sizes. */
  lemma SummarySizes(s: Summary)
    requires s.totals.sizes != []
    ensures FeatureValue(MinPktSize, s) <= FeatureValue(AvgPktSize, s) <= FeatureValue(MaxPktSize, s)
  {
    MeanBetweenMinMax(s.totals.sizes);
  }

  lemma SummaryCounts(s: Summary, fs: seq<FlowStats>)
    requires s.totals == Aggregate(fs)
    requires forall i :: 0 <= i < |fs| ==> FlowInv(fs[i])
    ensures FeatureValue(TotalPackets, s) == |PacketSizes(fs)| as real
    ensures FeatureValue(TotalBytes, s) == Sum(PacketSizes(fs)) as real
  {
    AggregateInv(fs);
    AggregateContents(fs);
  }

  lemma SummaryPorts(s: Summary, fs: seq<FlowStats>)
    requires s.totals == Aggregate(fs)
    ensures FeatureValue(UniqueDstPorts, s) == |PortsSeen(fs, true)| as real
    ensures FeatureValue(UniqueSrcPorts, s) == |PortsSeen(fs, false)| as real
  {
    UniquePortsValues(s);
    AggregatePortCounts(fs);
  }

  lemma UniquePortsValues(s: Summary)
    ensures FeatureValue(UniqueDstPorts, s) == |s.totals.dstPorts| as real
    ensures FeatureValue(UniqueSrcPorts, s) == |s.totals.srcPorts| as real
  {
  }

  lemma AggregatePortCounts(fs: seq<FlowStats>)
    ensures |Aggregate(fs).dstPorts| == |PortsSeen(fs, true)|
    ensures |Aggregate(fs).srcPorts| == |PortsSeen(fs, false)|
  {
    AggregateContents(fs);
  }

  /** On a valid table with flows, the counting features count what they name: the flows and
      the packets and bytes of all flows. */
  lemma WindowCounts(t: FlowTable, enabled: set<Feature>, duration: real, num: Numerics)
    requires TableValid(t)
    requires WindowFeatures(t, enabled, duration, num).Ok? && |t.keys| > 0
    ensures var m := WindowFeatures(t, enabled, duration, num).value;
      var fs := FlowsInOrder(t);
      && (FlowCount in m ==> m[FlowCount] == |t.keys| as real)
      && (TotalPackets in m ==> m[TotalPackets] == |PacketSizes(fs)| as real)
      && (TotalBytes in m ==> m[TotalBytes] == Sum(PacketSizes(fs)) as real)
  {
    var m := WindowFeatures(t, enabled, duration, num).value;
    FlowsInOrderValid(t);
    SummaryCounts(SummaryOf(t, duration, num), FlowsInOrder(t));
    if FlowCount in m { WindowValue(t, enabled, duration, num, FlowCount); }
    if TotalPackets in m { WindowValue(t, enabled, duration, num, TotalPackets); }
    if TotalBytes in m { WindowValue(t, enabled, duration, num, TotalBytes); }
  }

  /** The unique-port features count the distinct ports seen in any flow of the window. */
  lemma WindowPorts(t: FlowTable, enabled: set<Feature>, duration: real, num: Numerics)
    requires WindowFeatures(t, enabled, duration, num).Ok? && |t.keys| > 0
    ensures var m := WindowFeatures(t, enabled, duration, num).value;
      var fs := FlowsInOrder(t);
      && (UniqueDstPorts in m ==> m[UniqueDstPorts] == |PortsSeen(fs, true)| as real)
      && (UniqueSrcPorts in m ==> m[UniqueSrcPorts] == |PortsSeen(fs, false)| as real)
  {
    var m := WindowFeatures(t, enabled, duration, num).value;
    SummaryPorts(SummaryOf(t, duration, num), FlowsInOrder(t));
    if UniqueDstPorts in m { WindowValue(t, enabled, duration, num, UniqueDstPorts); }
    if UniqueSrcPorts in m { WindowValue(t, enabled, duration, num, UniqueSrcPorts); }
  }

  /** On a valid table with flows, every ratio feature lies in [0, 1], the three protocol
      ratios add up to at most 1, and the smallest packet is at most the mean, which is at
      most the largest. */
  lemma WindowRatios(t: FlowTable, enabled: set<Feature>, duration: real, num: Numerics)
    requires TableValid(t)
    requires WindowFeatures(t, enabled, duration, num).Ok? && |t.keys| > 0
    ensures var m := WindowFeatures(t, enabled, duration, num).value;
      && (SynRatio in m ==> 0.0 <= m[SynRatio] <= 1.0)
      && (FinRatio in m ==> 0.0 <= m[FinRatio] <= 1.0)
      && (ProtoTcpRatio in m ==> 0.0 <= m[ProtoTcpRatio] <= 1.0)
      && (ProtoUdpRatio in m ==> 0.0 <= m[ProtoUdpRatio] <= 1.0)
      && (ProtoIcmpRatio in m ==> 0.0 <= m[ProtoIcmpRatio] <= 1.0)
      && (ProtoTcpRatio in m && ProtoUdpRatio in m && ProtoIcmpRatio in m ==>
            m[ProtoTcpRatio] + m[ProtoUdpRatio] + m[ProtoIcmpRatio] <= 1.0)
      && (MinPktSize in m && AvgPktSize in m ==> m[MinPktSize] <= m[AvgPktSize])
      && (AvgPktSize in m && MaxPktSize in m ==> m[AvgPktSize] <= m[MaxPktSize])
  {
    var m := WindowFeatures(t, enabled, duration, num).value;
    TableTotals(t);
    SummaryRatios(SummaryOf(t, duration, num));
    SummarySizes(SummaryOf(t, duration, num));
    forall f | f in m
      ensures m[f] == FeatureValue(f, SummaryOf(t, duration, num))
    {
      WindowValue(t, enabled, duration, num, f);
    }
  }
  /** With a `log2` that is not positive on (0, 1], both port entropies are non-negative. */
  lemma WindowEntropies(t: FlowTable, enabled: set<Feature>, duration: real, num: Numerics)
    requires TableValid(t)
    requires forall p: real :: 0.0 < p <= 1.0 ==> num.log2(p) <= 0.0
    requires WindowFeatures(t, enabled, duration, num).Ok? && |t.keys| > 0
    ensures var m := WindowFeatures(t, enabled, duration, num).value;
      && (PortEntropyDst in m ==> m[PortEntropyDst] >= 0.0)
      && (PortEntropySrc in m ==> m[PortEntropySrc] >= 0.0)
  {
    var m := WindowFeatures(t, enabled, duration, num).value;
    var s := SummaryOf(t, duration, num);
    TableTotals(t);
    EntropyNonNegative(s.totals.dstPorts, num.log2);
    EntropyNonNegative(s.totals.srcPorts, num.log2);
    EntropyValues(s);
    if PortEntropyDst in m { WindowValue(t, enabled, duration, num, PortEntropyDst); }
    if PortEntropySrc in m { WindowValue(t, enabled, duration, num, PortEntropySrc); }
  }

  lemma EntropyValues(s: Summary)
    ensures FeatureValue(PortEntropyDst, s) == s.entropyDst
    ensures FeatureValue(PortEntropySrc, s) == s.entropySrc
  {
  }

  /** The packet count (or byte count) of a flow. */
  function FlowMeasure(f: FlowStats, bytes: bool): nat {
    if bytes then f.byteCount else f.pktCount
  }

  /** The packet (or byte) counts of the flows, added up. */
  function MeasureSum(fs: seq<FlowStats>, bytes: bool): nat {
    if fs == [] then 0 else MeasureSum(fs[..|fs| - 1], bytes) + FlowMeasure(fs[|fs| - 1], bytes)
  }

  /** `total_packets` and `total_bytes` are the sums of the flows' own counters. */
  lemma {:induction false} AggregateMeasure(fs: seq<FlowStats>)
    ensures Aggregate(fs).packets == MeasureSum(fs, false)
    ensures Aggregate(fs).bytes == MeasureSum(fs, true)
  {
    if fs != [] {
      AggregateMeasure(fs[..|fs| - 1]);
    }
  }

  lemma {:induction false} MeasureSumUpdate(fs: seq<FlowStats>, i: nat, g: FlowStats, bytes: bool)
    requires i < |fs|
    ensures MeasureSum(fs[i := g], bytes) == MeasureSum(fs, bytes) - FlowMeasure(fs[i], bytes) + FlowMeasure(g, bytes)
  {
    var n := |fs|;
    if i < n - 1 {
      assert fs[i := g][..n - 1] == fs[..n - 1][i := g];
      MeasureSumUpdate(fs[..n - 1], i, g, bytes);
    } else {
      assert fs[i := g][..n - 1] == fs[..n - 1];
    }
  }

  lemma MeasureSumSnoc(fs: seq<FlowStats>, g: FlowStats, bytes: bool)
    ensures MeasureSum(fs + [g], bytes) == MeasureSum(fs, bytes) + FlowMeasure(g, bytes)
  {
    assert (fs + [g])[..|fs|] == fs;
  }

  /** The position of `k` in the insertion order. */
  function KeyIndex(keys: seq<FlowKey>, k: FlowKey): (i: nat)
    requires k in keys
    ensures i < |keys| && keys[i] == k
  {
    if keys[0] == k then 0 else 1 + KeyIndex(keys[1..], k)
  }

  /** Ingesting a packet of a known flow replaces that flow in place; a packet of a new flow
      appends the new flow at the end of the order. */
  lemma FlowsInOrderIngest(t: FlowTable, p: Packet, now: real, k: FlowKey)
    requires TableValid(t) && KeyOf(p) == Some(k)
    ensures k in t.stats ==>
      FlowsInOrder(Ingest(t, p, now)) == FlowsInOrder(t)[KeyIndex(t.keys, k) := CountPacket(t.stats[k], p, now)]
    ensures k !in t.stats ==>
      FlowsInOrder(Ingest(t, p, now)) == FlowsInOrder(t) + [CountPacket(NewFlow, p, now)]
  {
    var g := CountPacket(FlowOf(t, k), p, now);
    assert Ingest(t, p, now) == Store(t, k, g);
    if k in t.stats {
      FlowsInOrderReplace(t, k, g);
    } else {
      FlowsInOrderAppend(t, k, g);
    }
  }

  /** Storing under a known key replaces that flow at its place in the order. */
  lemma FlowsInOrderReplace(t: FlowTable, k: FlowKey, g: FlowStats)
    requires TableValid(t) && k in t.stats
    ensures FlowsInOrder(Store(t, k, g)) == FlowsInOrder(t)[KeyIndex(t.keys, k) := g]
  {
    var i := KeyIndex(t.keys, k);
    var a := FlowsInOrder(Store(t, k, g));
    var b := FlowsInOrder(t)[i := g];
    assert |a| == |b|;
    forall j | 0 <= j < |a|
      ensures a[j] == b[j]
    {
      if j != i {
        assert t.keys[j] != k;
      }
    }
  }

  /** Storing under a new key appends the flow to the order. */
  lemma FlowsInOrderAppend(t: FlowTable, k: FlowKey, g: FlowStats)
    requires TableValid(t) && k !in t.stats
    ensures FlowsInOrder(Store(t, k, g)) == FlowsInOrder(t) + [g]
  {
    var a := FlowsInOrder(Store(t, k, g));
    var b := FlowsInOrder(t) + [g];
    assert |a| == |b|;
    forall j | 0 <= j < |a|
      ensures a[j] == b[j]
    {
      if j < |t.keys| {
        assert t.keys[j] != k;
      }
    }
  }

  /** What one packet adds to a flow's packet (or byte) count. */
  function PacketMeasure(p: Packet, bytes: bool): nat {
    if KeyOf(p).None? then 0 else if bytes then p.length else 1
  }

  lemma CountPacketMeasure(f: FlowStats, p: Packet, now: real, bytes: bool)
    requires KeyOf(p).Some?
    ensures FlowMeasure(CountPacket(f, p, now), bytes) == FlowMeasure(f, bytes) + PacketMeasure(p, bytes)
  {
  }

  /** Ingesting a packet adds one packet and its length to the table's totals if it has an IP
      header, and nothing otherwise. */
  lemma IngestMeasure(t: FlowTable, p: Packet, now: real, bytes: bool)
    requires TableValid(t)
    ensures MeasureSum(FlowsInOrder(Ingest(t, p, now)), bytes)
      == MeasureSum(FlowsInOrder(t), bytes) + PacketMeasure(p, bytes)
  {
    if KeyOf(p).Some? {
      var k := KeyOf(p).value;
      FlowsInOrderIngest(t, p, now, k);
      if k in t.stats {
        var i := KeyIndex(t.keys, k);
        var f := t.stats[k];
        assert FlowsInOrder(t)[i] == f;
        CountPacketMeasure(f, p, now, bytes);
        MeasureSumUpdate(FlowsInOrder(t), i, CountPacket(f, p, now), bytes);
      } else {
        CountPacketMeasure(NewFlow, p, now, bytes);
        MeasureSumSnoc(FlowsInOrder(t), CountPacket(NewFlow, p, now), bytes);
      }
    }
  }

  /** The flow table built from packets `ps` arriving at times `ts`, starting from `t`. */
  ghost function IngestAll(t: FlowTable, ps: seq<Packet>, ts: seq<real>): FlowTable
    requires |ps| == |ts|
  {
    if ps == [] then t
    else Ingest(IngestAll(t, ps[..|ps| - 1], ts[..|ts| - 1]), ps[|ps| - 1], ts[|ts| - 1])
  }

  lemma IngestAllSnoc(ps: seq<Packet>, ts: seq<real>, p: Packet, now: real)
    requires |ps| == |ts|
    ensures IngestAll(EmptyTable, ps + [p], ts + [now]) == Ingest(IngestAll(EmptyTable, ps, ts), p, now)
  {
    assert (ps + [p])[..|ps|] == ps;
    assert (ts + [now])[..|ts|] == ts;
  }

  /** The packet (or byte) count of the packets of `ps` that have an IP header. */
  function PacketsMeasure(ps: seq<Packet>, bytes: bool): nat {
    if ps == [] then 0 else PacketsMeasure(ps[..|ps| - 1], bytes) + PacketMeasure(ps[|ps| - 1], bytes)
  }

  /** A flow table built from a window's packets is valid. */
  lemma {:induction false} IngestAllValid(ps: seq<Packet>, ts: seq<real>)
    requires |ps| == |ts|
    ensures TableValid(IngestAll(EmptyTable, ps, ts))
  {
    if ps != [] {
      var n := |ps|;
      IngestAllValid(ps[..n - 1], ts[..n - 1]);
      IngestKeepsValid(IngestAll(EmptyTable, ps[..n - 1], ts[..n - 1]), ps[n - 1], ts[n - 1]);
    }
  }

  lemma {:induction false} IngestAllMeasure(ps: seq<Packet>, ts: seq<real>, bytes: bool)
    requires |ps| == |ts|
    ensures MeasureSum(FlowsInOrder(IngestAll(EmptyTable, ps, ts)), bytes) == PacketsMeasure(ps, bytes)
  {
    if ps != [] {
      var n := |ps|;
      IngestAllMeasure(ps[..n - 1], ts[..n - 1], bytes);
      IngestAllValid(ps[..n - 1], ts[..n - 1]);
      IngestMeasure(IngestAll(EmptyTable, ps[..n - 1], ts[..n - 1]), ps[n - 1], ts[n - 1], bytes);
    }
  }

  /** The packet and byte totals of a flow table built from a window's packets are those of the
      packets of the window that have an IPv4 or IPv6 header. */
  lemma IngestAllTotals(ps: seq<Packet>, ts: seq<real>)
    requires |ps| == |ts|
    ensures Aggregate(FlowsInOrder(IngestAll(EmptyTable, ps, ts))).packets == PacketsMeasure(ps, false)
    ensures Aggregate(FlowsInOrder(IngestAll(EmptyTable, ps, ts))).bytes == PacketsMeasure(ps, true)
  {
    AggregateMeasure(FlowsInOrder(IngestAll(EmptyTable, ps, ts)));
    IngestAllMeasure(ps, ts, false);
    IngestAllMeasure(ps, ts, true);
  }

  /** The `total_packets` and `total_bytes` of a closed window count exactly the packets of
      that window with an IPv4 or IPv6 header and their lengths; packets without one are
      buffered (and saved with an anomaly) but never counted. */
  lemma WindowTotalsOfPackets(ps: seq<Packet>, ts: seq<real>, enabled: set<Feature>, duration: real, num: Numerics)
    requires |ps| == |ts|
    requires WindowFeatures(IngestAll(EmptyTable, ps, ts), enabled, duration, num).Ok?
    ensures var m := WindowFeatures(IngestAll(EmptyTable, ps, ts), enabled, duration, num).value;
      && (TotalPackets in m ==> m[TotalPackets] == PacketsMeasure(ps, false) as real)
      && (TotalBytes in m ==> m[TotalBytes] == PacketsMeasure(ps, true) as real)
  {
    var t := IngestAll(EmptyTable, ps, ts);
    var m := WindowFeatures(t, enabled, duration, num).value;
    IngestAllTotals(ps, ts);
    if TotalPackets in m { WindowValue(t, enabled, duration, num, TotalPackets); }
    if TotalBytes in m { WindowValue(t, enabled, duration, num, TotalBytes); }
  }

  /** What `add_packet` returns: nothing while the window is open, the closed window's features
      and packets when it closes, or the exception `_finish_window` raised. */
  datatype AddOutcome =
    | Pending
    | Closed(features: map<Feature, real>, raw: seq<Packet>)
    | Raised(error: WindowError)

  /** What `add_packet` returns for a packet arriving at `now` in a window opened at `start`
      that holds `flows` and `raw`. */
  ghost function AddOutcomeOf(flows: FlowTable, raw: seq<Packet>, start: real, duration: real,
                              enabled: set<Feature>, now: real, num: Numerics): AddOutcome
  {
    if now - start < duration then Pending
    else match WindowFeatures(flows, enabled, duration, num)
      case Err(e) => Raised(e)
      case Ok(m) => Closed(m, raw)
  }

  /** The `Window` class. Its `flows` dictionary is kept as a `FlowTable` value; the ghost
      `arrivals` records when each buffered packet arrived, so that the flows can be stated as
      a function of the buffered packets. */
  class Window {
    var windowDuration: real
    const enabled: set<Feature>
    var windowStart: real
    var rawPacketsBuffer: seq<Packet>
    var flows: FlowTable
    ghost var arrivals: seq<real>

    /** The flows are exactly those of the packets buffered since the window opened. */
    ghost predicate Valid()
      reads this
    {
      && |arrivals| == |rawPacketsBuffer|
      && flows == IngestAll(EmptyTable, rawPacketsBuffer, arrivals)
      && TableValid(flows)
    }

    /** `Window(window_duration, enabled_features)`, created at time `now`. */
    constructor (duration: real, features: seq<Feature>, now: real)
      ensures Valid()
      ensures windowDuration == duration && enabled == set f | f in features
      ensures windowStart == now && rawPacketsBuffer == [] && flows == EmptyTable
    {
      windowDuration := duration;
      enabled := set f | f in features;
      windowStart := now;
      rawPacketsBuffer := [];
      flows := EmptyTable;
      arrivals := [];
    }

    /** The two assignments `turn_on` makes to the window before capture starts. */
    method Restart(duration: real, now: real)
      requires Valid()
      modifies this`windowDuration, this`windowStart
      ensures Valid()
      ensures windowDuration == duration && windowStart == now
    {
      windowDuration := duration;
      windowStart := now;
    }

    /** `add_packet`: a packet arriving `window_duration` or more after the window opened closes
        the window (its features and packets are returned) and opens a new one holding only this
        packet; an earlier packet is added to the open window. */
    method AddPacket(pkt: Packet, now: real, num: Numerics) returns (r: AddOutcome)
      requires Valid()
      modifies this`windowStart, this`rawPacketsBuffer, this`flows, this`arrivals
      ensures Valid()
      ensures r == AddOutcomeOf(old(flows), old(rawPacketsBuffer), old(windowStart), windowDuration, enabled, now, num)
      ensures now - old(windowStart) < windowDuration ==>
        && r == Pending
        && windowStart == old(windowStart)
        && rawPacketsBuffer == old(rawPacketsBuffer) + [pkt]
        && flows == Ingest(old(flows), pkt, now)
      ensures now - old(windowStart) >= windowDuration ==>
        match WindowFeatures(old(flows), enabled, windowDuration, num)
        case Err(e) =>
          && r == Raised(e)
          && windowStart == old(windowStart)
          && rawPacketsBuffer == old(rawPacketsBuffer)
          && flows == old(flows)
        case Ok(m) =>
          && r == Closed(m, old(rawPacketsBuffer))
          && windowStart == now
          && rawPacketsBuffer == [pkt]
          && flows == Ingest(EmptyTable, pkt, now)
    {
      if now - windowStart >= windowDuration {
        var features := FinishWindow(num);
        if features.Err? {
          return Raised(features.error);
        }
        windowStart := now;
        var raw := rawPacketsBuffer;
        rawPacketsBuffer := [];
        flows := EmptyTable;
        arrivals := [];
        ProcessSinglePacket(pkt, now);
        return Closed(features.value, raw);
      }
      ProcessSinglePacket(pkt, now);
      return Pending;
    }

    /** `_process_single_packet`: buffer the packet, then count it in its flow if it has an
        IPv4 or IPv6 header. */
    method ProcessSinglePacket(pkt: Packet, now: real)
      requires Valid()
      modifies this`rawPacketsBuffer, this`flows, this`arrivals
      ensures Valid()
      ensures rawPacketsBuffer == old(rawPacketsBuffer) + [pkt]
      ensures flows == Ingest(old(flows), pkt, now)
    {
      IngestAllSnoc(rawPacketsBuffer, arrivals, pkt, now);
      rawPacketsBuffer := rawPacketsBuffer + [pkt];
      arrivals := arrivals + [now];
      var key: FlowKey;
      if pkt.ip.Some? {
        key := FlowKey(pkt.ip.value.src, pkt.ip.value.dst, pkt.ip.value.proto);
      } else if pkt.ip6.Some? {
        key := FlowKey(pkt.ip6.value.src, pkt.ip6.value.dst, pkt.ip6.value.proto);
      } else {
        return;
      }
      IngestKeepsValid(flows, pkt, now);
      IngestShape(flows, pkt, now, key);
      var keys := flows.keys;
      var f := NewFlow;
      if key in flows.stats {
        f := flows.stats[key];
      } else {
        keys := keys + [key];
      }
      f := CountInFlow(f, pkt, now);
      flows := FlowTable(keys, flows.stats[key := f]);
    }

    /** `_finish_window`: the loop over the flows, then the enabled feature formulas. */
    method FinishWindow(num: Numerics) returns (r: Result<map<Feature, real>, WindowError>)
      requires Valid()
      ensures r == WindowFeatures(flows, enabled, windowDuration, num)
    {
      if |flows.keys| == 0 {
        return Ok(map[]);
      }
      var totals := AggregateFlows(flows);
      var entropyDst := ComputeEntropy(totals.dstPorts, num.log2);
      var entropySrc := ComputeEntropy(totals.srcPorts, num.log2);
      var stdev := if totals.sizes != [] then num.sqrt(PVariance(totals.sizes)) else 0.0;
      if windowDuration == 0.0 && (PktRate in enabled || ByteRate in enabled) {
        return Err(ZeroDivision);
      }
      var s := Summary(|flows.keys|, totals, windowDuration, entropyDst, entropySrc, stdev);
      assert s == SummaryOf(flows, windowDuration, num);
      var feat := EnabledFeatures(enabled, s);
      return Ok(feat);
    }
  }

  /** The updates `_process_single_packet` makes to the flow's dictionary entry. */
  method CountInFlow(f0: FlowStats, pkt: Packet, now: real) returns (f: FlowStats)
    ensures f == CountPacket(f0, pkt, now)
  {
    f := f0;
    if f.startTs.None? {
      f := f.(startTs := Some(now));
    }
    f := f.(endTs := Some(now));
    f := f.(pktCount := f.pktCount + 1, byteCount := f.byteCount + pkt.length, sizes := f.sizes + [pkt.length]);
    if pkt.tcp.Some? {
      var h := pkt.tcp.value;
      f := f.(tcpPkts := f.tcpPkts + 1, dstPorts := Bump(f.dstPorts, h.dport), srcPorts := Bump(f.srcPorts, h.sport));
      f := f.(flags := CountFlags(f.flags, h.flags));
    } else if pkt.udp.Some? {
      var h := pkt.udp.value;
      f := f.(udpPkts := f.udpPkts + 1, dstPorts := Bump(f.dstPorts, h.dport), srcPorts := Bump(f.srcPorts, h.sport));
    } else if pkt.icmp {
      f := f.(icmpPkts := f.icmpPkts + 1);
    }
  }

  /** One iteration of the loop of `_finish_window`: the totals gain one flow's counters. */
  method AccumulateFlow(totals: Totals, f: FlowStats) returns (r: Totals)
    ensures r == Accumulate(totals, f)
  {
    var dst := MergePorts(totals.dstPorts, f.dstPorts);
    var src := MergePorts(totals.srcPorts, f.srcPorts);
    r := Totals(
      totals.packets + f.pktCount, totals.bytes + f.byteCount, dst, src,
      AddFlags(totals.flags, f.flags), totals.sizes + f.sizes,
      totals.tcp + f.tcpPkts, totals.udp + f.udpPkts, totals.icmp + f.icmpPkts);
  }

  /** The loop of `_finish_window` over `self.flows.values()`. */
  method AggregateFlows(t: FlowTable) returns (totals: Totals)
    requires forall i :: 0 <= i < |t.keys| ==> t.keys[i] in t.stats
    ensures totals == Aggregate(FlowsInOrder(t))
  {
    ghost var fs := FlowsInOrder(t);
    totals := NoTotals;
    var i := 0;
    while i < |t.keys|
      invariant 0 <= i <= |t.keys| == |fs|
      invariant totals == Aggregate(fs[..i])
    {
      var f := t.stats[t.keys[i]];
      assert fs[i] == f;
      AggregateSnoc(fs[..i], f);
      assert fs[..i + 1] == fs[..i] + [f];
      totals := AccumulateFlow(totals, f);
      i := i + 1;
    }
    assert fs[..i] == fs;
  }

  /** The chain of `if "<name>" in self.enabled: feat["<name>"] = ...` statements, taken in
      `FEATURE_LIST` order. */
  method EnabledFeatures(enabled: set<Feature>, s: Summary) returns (feat: map<Feature, real>)
    requires s.duration == 0.0 ==> PktRate !in enabled && ByteRate !in enabled
    ensures feat == map f | f in enabled :: FeatureValue(f, s)
  {
    feat := EnabledIn(FeatureList, enabled, s);
    EveryFeatureListed();
    assert (map f | f in enabled && f in FeatureList :: FeatureValue(f, s))
        == (map f | f in enabled :: FeatureValue(f, s));
  }

  /** The loop over the feature list: each enabled feature of `list` gets its value. */
  method EnabledIn(list: seq<Feature>, enabled: set<Feature>, s: Summary) returns (feat: map<Feature, real>)
    requires s.duration == 0.0 ==> PktRate !in enabled && ByteRate !in enabled
    ensures feat == map f | f in enabled && f in list :: FeatureValue(f, s)
  {
    feat := map[];
    for j := 0 to |list|
      invariant feat == map f | f in enabled && f in list[..j] :: FeatureValue(f, s)
    {
      var f := list[j];
      if f in enabled {
        feat := feat[f := FeatureValue(f, s)];
      }
      assert list[..j + 1] == list[..j] + [f];
    }
    assert list[..|list|] == list;
  }
}
