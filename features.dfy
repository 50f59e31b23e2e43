/** The catalogue of per-window features (`FEATURE_LIST` in src/netmonitor/back/window.py).
    The source keys features by name; the model uses a closed enumeration and keeps the
    names only to relate the two. */
module Features {
  import opened Wrappers

  datatype Feature =
    | FlowCount | TotalPackets | TotalBytes | AvgBytesPerFlow | PktRate | ByteRate
    | SynCount | FinCount | RstCount | AckCount | PshCount | UrgCount
    | SynRatio | FinRatio | XmasTotal | NullScanTotal
    | UniqueDstPorts | UniqueSrcPorts | PortEntropyDst | PortEntropySrc
    | AvgPktSize | MinPktSize | MaxPktSize | StdPktSize
    | AvgPacketsPerFlow | AvgBytesPerPacket | ProtoTcpRatio | ProtoUdpRatio | ProtoIcmpRatio

  /** `FEATURE_LIST`, in the source's order (which is also the order of the feature check-boxes). */
  const FeatureList: seq<Feature> := [
    FlowCount, TotalPackets, TotalBytes, AvgBytesPerFlow, PktRate, ByteRate,
    SynCount, FinCount, RstCount, AckCount, PshCount, UrgCount,
    SynRatio, FinRatio, XmasTotal, NullScanTotal,
    UniqueDstPorts, UniqueSrcPorts, PortEntropyDst, PortEntropySrc,
    AvgPktSize, MinPktSize, MaxPktSize, StdPktSize,
    AvgPacketsPerFlow, AvgBytesPerPacket, ProtoTcpRatio, ProtoUdpRatio, ProtoIcmpRatio
  ]

  /** The string key the source uses for each feature. */
  function Name(f: Feature): string {
    match f
    case FlowCount => "flow_count"
    case TotalPackets => "total_packets"
    case TotalBytes => "total_bytes"
    case AvgBytesPerFlow => "avg_bytes_per_flow"
    case PktRate => "pkt_rate"
    case ByteRate => "byte_rate"
    case SynCount => "syn_count"
    case FinCount => "fin_count"
    case RstCount => "rst_count"
    case AckCount => "ack_count"
    case PshCount => "psh_count"
    case UrgCount => "urg_count"
    case SynRatio => "syn_ratio"
    case FinRatio => "fin_ratio"
    case XmasTotal => "xmas_total"
    case NullScanTotal => "null_scan_total"
    case UniqueDstPorts => "unique_dst_ports"
    case UniqueSrcPorts => "unique_src_ports"
    case PortEntropyDst => "port_entropy_dst"
    case PortEntropySrc => "port_entropy_src"
    case AvgPktSize => "avg_pkt_size"
    case MinPktSize => "min_pkt_size"
    case MaxPktSize => "max_pkt_size"
    case StdPktSize => "std_pkt_size"
    case AvgPacketsPerFlow => "avg_packets_per_flow"
    case AvgBytesPerPacket => "avg_bytes_per_packet"
    case ProtoTcpRatio => "proto_tcp_ratio"
    case ProtoUdpRatio => "proto_udp_ratio"
    case ProtoIcmpRatio => "proto_icmp_ratio"
  }

  /** Position of each feature in `FeatureList`. */
  function Index(f: Feature): nat {
    match f
    case FlowCount => 0
    case TotalPackets => 1
    case TotalBytes => 2
    case AvgBytesPerFlow => 3
    case PktRate => 4
    case ByteRate => 5
    case SynCount => 6
    case FinCount => 7
    case RstCount => 8
    case AckCount => 9
    case PshCount => 10
    case UrgCount => 11
    case SynRatio => 12
    case FinRatio => 13
    case XmasTotal => 14
    case NullScanTotal => 15
    case UniqueDstPorts => 16
    case UniqueSrcPorts => 17
    case PortEntropyDst => 18
    case PortEntropySrc => 19
    case AvgPktSize => 20
    case MinPktSize => 21
    case MaxPktSize => 22
    case StdPktSize => 23
    case AvgPacketsPerFlow => 24
    case AvgBytesPerPacket => 25
    case ProtoTcpRatio => 26
    case ProtoUdpRatio => 27
    case ProtoIcmpRatio => 28
  }

  /** The feature a string key denotes, if any. */
  function Lookup(s: string): Option<Feature> {
    match s
    case "flow_count" => Some(FlowCount)
    case "total_packets" => Some(TotalPackets)
    case "total_bytes" => Some(TotalBytes)
    case "avg_bytes_per_flow" => Some(AvgBytesPerFlow)
    case "pkt_rate" => Some(PktRate)
    case "byte_rate" => Some(ByteRate)
    case "syn_count" => Some(SynCount)
    case "fin_count" => Some(FinCount)
    case "rst_count" => Some(RstCount)
    case "ack_count" => Some(AckCount)
    case "psh_count" => Some(PshCount)
    case "urg_count" => Some(UrgCount)
    case "syn_ratio" => Some(SynRatio)
    case "fin_ratio" => Some(FinRatio)
    case "xmas_total" => Some(XmasTotal)
    case "null_scan_total" => Some(NullScanTotal)
    case "unique_dst_ports" => Some(UniqueDstPorts)
    case "unique_src_ports" => Some(UniqueSrcPorts)
    case "port_entropy_dst" => Some(PortEntropyDst)
    case "port_entropy_src" => Some(PortEntropySrc)
    case "avg_pkt_size" => Some(AvgPktSize)
    case "min_pkt_size" => Some(MinPktSize)
    case "max_pkt_size" => Some(MaxPktSize)
    case "std_pkt_size" => Some(StdPktSize)
    case "avg_packets_per_flow" => Some(AvgPacketsPerFlow)
    case "avg_bytes_per_packet" => Some(AvgBytesPerPacket)
    case "proto_tcp_ratio" => Some(ProtoTcpRatio)
    case "proto_udp_ratio" => Some(ProtoUdpRatio)
    case "proto_icmp_ratio" => Some(ProtoIcmpRatio)
    case _ => None
  }

  /** Every feature is listed, at the position `Index` gives. */
  lemma FeatureListIsComplete()
    ensures |FeatureList| == 29
    ensures forall f: Feature :: Index(f) < |FeatureList| && FeatureList[Index(f)] == f
  {
    forall f: Feature
      ensures Index(f) < |FeatureList| && FeatureList[Index(f)] == f
    {
      match f
      case _ =>
    }
  }

  /** Every feature is in the list. */
  lemma EveryFeatureListed()
    ensures forall f: Feature :: f in FeatureList
  {
    FeatureListIsComplete();
    forall f: Feature
      ensures f in FeatureList
    {
      assert FeatureList[Index(f)] == f;
    }
  }

  /** Keys and features correspond one to one: looking up a feature's key gives the feature back. */
  lemma LookupName(f: Feature)
    ensures Lookup(Name(f)) == Some(f)
  {
    match f
    case FlowCount =>
    case TotalPackets =>
    case TotalBytes =>
    case AvgBytesPerFlow =>
    case PktRate =>
    case ByteRate =>
    case SynCount =>
    case FinCount =>
    case RstCount =>
    case AckCount =>
    case PshCount =>
    case UrgCount =>
    case SynRatio =>
    case FinRatio =>
    case XmasTotal =>
    case NullScanTotal =>
    case UniqueDstPorts =>
    case UniqueSrcPorts =>
    case PortEntropyDst =>
    case PortEntropySrc =>
    case AvgPktSize =>
    case MinPktSize =>
    case MaxPktSize =>
    case StdPktSize =>
    case AvgPacketsPerFlow =>
    case AvgBytesPerPacket =>
    case ProtoTcpRatio =>
    case ProtoUdpRatio =>
    case ProtoIcmpRatio =>
  }

  lemma NameInjective(f: Feature, g: Feature)
    requires Name(f) == Name(g)
    ensures f == g
  {
    LookupName(f);
    LookupName(g);
  }

  /** `set(FEATURE_LIST)`. */
  function AllFeatures(): set<Feature> {
    set f: Feature | f in FeatureList
  }
}
