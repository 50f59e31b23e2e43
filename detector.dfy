/** The sequential behaviour of `DetectorProfileHST` (src/streamml/back/detector_profile_HST.py):
    its configuration defaults, the on/off flag, the bounded packet queue, one iteration of the
    processing loop (window, sample, score, score history, anomaly trigger), and the state kept
    across a save and restore. */
module Detector {
  import opened Wrappers
  import opened Features
  import opened Flows
  import opened FlowWindow
  import opened Text

  /** The `params` dictionary of a profile's input data. Each entry is present or absent, with
      the type the detector form gives it. */
  datatype Params = Params(
    trees: Option<int>,
    height: Option<int>,
    window: Option<int>,
    seed: Option<int>,
    threshold: Option<real>,
    windowDuration: Option<real>,
    bpfFilter: Option<string>,
    interface: Option<string>,
    queueSize: Option<int>)

  const NoParams := Params(None, None, None, None, None, None, None, None, None)

  /** `input_data`: the selected features and the parameters. */
  datatype ProfileInput = ProfileInput(features: seq<Feature>, params: Params)

  /** The constructor arguments of the HalfSpaceTrees model. */
  datatype HstConfig = HstConfig(nTrees: int, height: int, windowSize: int, seed: int)

  /** The attributes `__init__` derives from `params`. */
  datatype DetectorConfig = DetectorConfig(
    hst: HstConfig,
    threshold: real,
    windowDuration: real,
    bpfFilter: string,
    interface: Option<string>,
    queueSize: int)

  const DefaultTrees := 10
  const DefaultHeight := 8
  const DefaultWindow := 250
  const DefaultSeed := 42
  const DefaultThreshold := 0.7
  const DefaultWindowDuration := 10.0
  const DefaultQueueSize := 10000

  /** Each attribute is the parameter if present and the default otherwise. */
  function ConfigOf(p: Params): DetectorConfig {
    DetectorConfig(
      HstConfig(p.trees.GetOr(DefaultTrees), p.height.GetOr(DefaultHeight),
                p.window.GetOr(DefaultWindow), p.seed.GetOr(DefaultSeed)),
      p.threshold.GetOr(DefaultThreshold),
      p.windowDuration.GetOr(DefaultWindowDuration),
      p.bpfFilter.GetOr(""),
      p.interface,
      p.queueSize.GetOr(DefaultQueueSize))
  }

  /** A profile created without parameters gets the documented defaults: 10 trees of height 8,
      a 250-sample model window, seed 42, threshold 0.7, 10-second windows, no filter, the
      default interface and a queue of 10000 packets. */
  lemma DefaultConfig()
    ensures ConfigOf(NoParams) == DetectorConfig(HstConfig(10, 8, 250, 42), 0.7, 10.0, "", None, 10000)
  {
  }

  /** A present parameter always wins over the default, and the parameters are independent. */
  lemma ConfigFollowsParams(p: Params, q: Params)
    ensures p.threshold.Some? ==> ConfigOf(p).threshold == p.threshold.value
    ensures p.windowDuration.Some? ==> ConfigOf(p).windowDuration == p.windowDuration.value
    ensures p.queueSize.Some? ==> ConfigOf(p).queueSize == p.queueSize.value
    ensures p.threshold == q.threshold ==> ConfigOf(p).threshold == ConfigOf(q).threshold
    ensures p.queueSize == q.queueSize ==> ConfigOf(p).queueSize == ConfigOf(q).queueSize
  {
  }

  /** A model sample: one value per selected feature. */
  type Sample = map<Feature, real>

  /** HalfSpaceTrees' `score_one`, as a function of the model's configuration, the samples it
      has learned so far, and the sample to score. */
  type Scorer = (HstConfig, seq<Sample>, Sample) -> real

  /** The sample built from a window's features: every selected feature, with the computed value
      when there is one and 0.0 otherwise. */
  function SampleOf(selected: seq<Feature>, computed: map<Feature, real>): Sample {
    map f | f in selected :: if f in computed then computed[f] else 0.0
  }

  /** The sample has exactly the selected features as keys; a value comes from the window only
      for a feature that is both selected and computed, and is 0.0 for every other one. */
  lemma SampleKeysAndDefaults(selected: seq<Feature>, computed: map<Feature, real>)
    ensures SampleOf(selected, computed).Keys == set f | f in selected
    ensures forall f :: f in selected && f in computed ==> SampleOf(selected, computed)[f] == computed[f]
    ensures forall f :: f in selected && f !in computed ==> SampleOf(selected, computed)[f] == 0.0
  {
  }

  /** The score history shown in the plot: at most 30 entries. */
  const PlotLimit := 30

  /** `plot_data.append(score)`, then `pop(0)` when it has grown past 30. */
  function PushScore(plot: seq<real>, score: real): seq<real> {
    var p := plot + [score];
    if |p| > PlotLimit then p[1..] else p
  }

  /** The last `n` elements of `s` (all of them when there are fewer). */
  function LastN(s: seq<real>, n: nat): seq<real> {
    if |s| <= n then s else s[|s| - n..]
  }

  /** The history after a sequence of scores pushed one by one. */
  function PushAll(plot: seq<real>, scores: seq<real>): seq<real> {
    if scores == [] then plot else PushScore(PushAll(plot, scores[..|scores| - 1]), scores[|scores| - 1])
  }

  /** Pushing a score onto a history of at most 30 keeps at most 30, ends with the new score, and
      keeps the most recent scores in order. */
  lemma PushScoreKeepsLast(plot: seq<real>, score: real)
    requires |plot| <= PlotLimit
    ensures PushScore(plot, score) == LastN(plot + [score], PlotLimit)
    ensures |PushScore(plot, score)| <= PlotLimit
    ensures PushScore(plot, score)[|PushScore(plot, score)| - 1] == score
  {
  }

  /** Starting from an empty history, the history is always the last (at most) 30 of all the
      scores pushed, in the order they were pushed. */
  lemma {:induction false} PushAllIsLast30(scores: seq<real>)
    ensures PushAll([], scores) == LastN(scores, PlotLimit)
  {
    if scores != [] {
      var init := scores[..|scores| - 1];
      var s := scores[|scores| - 1];
      PushAllIsLast30(init);
      PushScoreKeepsLast(LastN(init, PlotLimit), s);
      assert init + [s] == scores;
      if |init| > PlotLimit {
        assert LastN(init, PlotLimit) + [s] == scores[|init| - PlotLimit..];
      }
    }
  }

  /** One record of the anomaly log: the TinyDB document `_handle_anomaly` inserts. */
  datatype AnomalyRecord = AnomalyRecord(
    ts: real,
    timestamp: string,
    profile: string,
    score: real,
    pcap: string,
    pktRate: real,
    protoInfo: string)

  /** What `_handle_anomaly` takes from its surroundings: the data directory (`XDG_DATA_HOME` or
      its default), the `strftime` timestamp, the directories that already exist, and whether
      `os.makedirs` succeeds. */
  datatype AnomalyEnv = AnomalyEnv(dataHome: string, stamp: string, dirs: set<string>, makedirsOk: bool)

  /** What `_handle_anomaly` does once `os.makedirs` has succeeded: whether the window's packets
      end up in the pcap file, whether a notification is sent, and the record it logs. */
  datatype AnomalyResponse = AnomalyResponse(pcapSaved: bool, notify: bool, record: AnomalyRecord)

  /** `PCAP_PATH`. */
  function PcapPath(dataHome: string): string {
    dataHome + "/netmonitor/detector/profiles_pcaps"
  }

  /** The profile's pcap directory, `f"{PCAP_PATH}/{profile_name}"`. */
  function PcapDir(dataHome: string, name: string): string {
    PcapPath(dataHome) + "/" + name
  }

  /** `filename`: the pcap file of an anomaly. */
  function PcapFile(env: AnomalyEnv, name: string): string {
    PcapDir(env.dataHome, name) + "/" + ("anom_" + env.stamp + ".pcap")
  }

  /** The directory `os.makedirs` creates before the pcap is written, as written: the dirname of
      the profile's pcap directory, which is `PCAP_PATH` itself. */
  function PcapDirCreatedAsWritten(dataHome: string, name: string): string {
    Dirname(PcapDir(dataHome, name))
  }

  /** `wrpcap` succeeds iff there are packets and the file's directory exists once `os.makedirs`
      has created `created`; a failure is caught and printed. */
  predicate PcapWritten(env: AnomalyEnv, name: string, raw: seq<Packet>, created: string) {
    raw != [] && Dirname(PcapFile(env, name)) in env.dirs + {created}
  }

  /** As written, the pcap file's directory is never the one created: a profile whose pcap
      directory does not already exist never gets a pcap saved. */
  lemma PcapNeverSavedAsWritten(env: AnomalyEnv, name: string, raw: seq<Packet>)
    requires name != [] && '/' !in name && '/' !in env.stamp
    requires PcapDir(env.dataHome, name) !in env.dirs
    ensures PcapDirCreatedAsWritten(env.dataHome, name) == PcapPath(env.dataHome)
    ensures Dirname(PcapFile(env, name)) == PcapDir(env.dataHome, name)
    ensures !PcapWritten(env, name, raw, PcapDirCreatedAsWritten(env.dataHome, name))
  {
    DirnameOfChild(PcapPath(env.dataHome), name);
    DirnameOfChild(PcapDir(env.dataHome, name), "anom_" + env.stamp + ".pcap");
    assert PcapPath(env.dataHome) != PcapDir(env.dataHome, name);
  }

  /** With the profile's own pcap directory created, the pcap is saved iff the window had
      packets. */
  lemma PcapSavedWithProfileDir(env: AnomalyEnv, name: string, raw: seq<Packet>)
    requires name != [] && '/' !in name && '/' !in env.stamp
    ensures PcapWritten(env, name, raw, PcapDir(env.dataHome, name)) <==> raw != []
  {
    DirnameOfChild(PcapDir(env.dataHome, name), "anom_" + env.stamp + ".pcap");
  }

  /** `features.get(key, 0)`. */
  function GetOrZero(sample: Sample, f: Feature): real {
    if f in sample then sample[f] else 0.0
  }

  /** The `proto_info` text: both protocol ratios with two decimals. */
  function ProtoInfo(sample: Sample): string {
    "TCP:" + Fixed2(GetOrZero(sample, ProtoTcpRatio)) + " UDP:" + Fixed2(GetOrZero(sample, ProtoUdpRatio))
  }

  /** `_handle_anomaly` at time `now`, with the profile's own pcap directory created (see
      `PcapNeverSavedAsWritten` for the code as written). */
  function AnomalyResponseOf(name: string, notifyEnabled: bool, score: real, sample: Sample,
                             raw: seq<Packet>, now: real, env: AnomalyEnv): AnomalyResponse
  {
    AnomalyResponse(
      PcapWritten(env, name, raw, PcapDir(env.dataHome, name)),
      notifyEnabled,
      AnomalyRecord(now, env.stamp, name, score, PcapFile(env, name), GetOrZero(sample, PktRate),
        ProtoInfo(sample)))
  }

  /** The pcap is saved only for a window with packets and the notification is sent only when
      enabled; the record carries the time, the timestamp, the profile, the score, the pcap file
      named after the timestamp, the window's `pkt_rate` when that feature is selected and
      computed (0 when it is not selected), and both protocol ratios to within 0.005 (0 for one
      not selected). */
  lemma AnomalyResponseFacts(name: string, notifyEnabled: bool, score: real, selected: seq<Feature>,
                             computed: map<Feature, real>, raw: seq<Packet>, now: real, env: AnomalyEnv)
    requires name != [] && '/' !in name && '/' !in env.stamp
    ensures var r := AnomalyResponseOf(name, notifyEnabled, score, SampleOf(selected, computed), raw, now, env);
      && (r.pcapSaved <==> |raw| > 0)
      && (r.notify <==> notifyEnabled)
      && r.record.ts == now && r.record.timestamp == env.stamp
      && r.record.profile == name && r.record.score == score
      && Dirname(r.record.pcap) == PcapDir(env.dataHome, name)
      && (PktRate in selected && PktRate in computed ==> r.record.pktRate == computed[PktRate])
      && (PktRate !in selected || PktRate !in computed ==> r.record.pktRate == 0.0)
      && r.record.protoInfo == "TCP:" + Fixed2(Ratio(selected, computed, ProtoTcpRatio))
                               + " UDP:" + Fixed2(Ratio(selected, computed, ProtoUdpRatio))
  {
    PcapSavedWithProfileDir(env, name, raw);
    DirnameOfChild(PcapDir(env.dataHome, name), "anom_" + env.stamp + ".pcap");
  }

  /** The value a protocol ratio has in the sample: the computed one for a selected feature,
      otherwise 0. */
  function Ratio(selected: seq<Feature>, computed: map<Feature, real>, f: Feature): real {
    if f in selected && f in computed then computed[f] else 0.0
  }

  /** `if self.db: self.db.insert(...)` as written. A TinyDB object is false while it holds no
      document, so a record is only added to a log that already has one. */
  function AppendLogAsWritten(log: seq<AnomalyRecord>, rec: AnomalyRecord): seq<AnomalyRecord> {
    if |log| > 0 then log + [rec] else log
  }

  function AppendAllAsWritten(log: seq<AnomalyRecord>, recs: seq<AnomalyRecord>): seq<AnomalyRecord> {
    if recs == [] then log else AppendLogAsWritten(AppendAllAsWritten(log, recs[..|recs| - 1]), recs[|recs| - 1])
  }

  /** As written, a profile whose log starts empty never logs any anomaly, however many occur. */
  lemma {:induction false} EmptyLogStaysEmpty(recs: seq<AnomalyRecord>)
    ensures AppendAllAsWritten([], recs) == []
  {
    if recs != [] {
      EmptyLogStaysEmpty(recs[..|recs| - 1]);
    }
  }

  /** The intended behaviour: every anomaly is appended to the log. */
  function AppendLog(log: seq<AnomalyRecord>, rec: AnomalyRecord): seq<AnomalyRecord> {
    log + [rec]
  }

  function AppendAll(log: seq<AnomalyRecord>, recs: seq<AnomalyRecord>): seq<AnomalyRecord> {
    if recs == [] then log else AppendLog(AppendAll(log, recs[..|recs| - 1]), recs[|recs| - 1])
  }

  /** With the corrected append, the log is the initial log followed by every anomaly in order. */
  lemma {:induction false} AppendAllKeepsEveryRecord(log: seq<AnomalyRecord>, recs: seq<AnomalyRecord>)
    ensures AppendAll(log, recs) == log + recs
  {
    if recs != [] {
      AppendAllKeepsEveryRecord(log, recs[..|recs| - 1]);
      assert recs[..|recs| - 1] + [recs[|recs| - 1]] == recs;
    }
  }

  /** `queue.Queue(maxsize)` is full when `maxsize` is positive and reached; a non-positive
      `maxsize` makes it unbounded. */
  predicate QueueFull(queue: seq<Packet>, capacity: int) {
    capacity > 0 && |queue| >= capacity
  }

  /** The queue and the `packets_read` counter after `_add_to_queue` is called for every packet
      of `pkts` in turn, with nothing taken off the queue meanwhile. */
  function OfferAll(queue: seq<Packet>, read: nat, capacity: int, pkts: seq<Packet>): (seq<Packet>, nat) {
    if pkts == [] then (queue, read)
    else
      var (q, n) := OfferAll(queue, read, capacity, pkts[..|pkts| - 1]);
      if QueueFull(q, capacity) then (q, n) else (q + [pkts[|pkts| - 1]], n + 1)
  }

  /** Offered to an empty queue of capacity K, K + M packets leave exactly the first K queued and
      `packets_read` grown by exactly K; the other M are dropped. An unbounded queue takes all. */
  lemma OfferAllFillsToCapacity(read: nat, capacity: int, pkts: seq<Packet>)
    ensures capacity > 0 ==>
      var k := if |pkts| < capacity then |pkts| else capacity;
      OfferAll([], read, capacity, pkts) == (pkts[..k], read + k)
    ensures capacity <= 0 ==> OfferAll([], read, capacity, pkts) == (pkts, read + |pkts|)
  {
    if capacity > 0 {
      OfferAllBounded(read, capacity, pkts);
    } else {
      OfferAllUnbounded(read, capacity, pkts);
    }
  }

  lemma {:induction false} OfferAllBounded(read: nat, capacity: int, pkts: seq<Packet>)
    requires capacity > 0
    ensures var k := if |pkts| < capacity then |pkts| else capacity;
      OfferAll([], read, capacity, pkts) == (pkts[..k], read + k)
  {
    if pkts != [] {
      var init := pkts[..|pkts| - 1];
      var last := pkts[|pkts| - 1];
      OfferAllBounded(read, capacity, init);
      var k := if |init| < capacity then |init| else capacity;
      assert OfferAll([], read, capacity, pkts) ==
        if QueueFull(init[..k], capacity) then (init[..k], read + k)
        else (init[..k] + [last], read + k + 1);
      if |init| < capacity {
        assert init[..k] + [last] == pkts[..|pkts|];
      } else {
        assert init[..capacity] == pkts[..capacity];
      }
    }
  }

  lemma {:induction false} OfferAllUnbounded(read: nat, capacity: int, pkts: seq<Packet>)
    requires capacity <= 0
    ensures OfferAll([], read, capacity, pkts) == (pkts, read + |pkts|)
  {
    if pkts != [] {
      var init := pkts[..|pkts| - 1];
      OfferAllUnbounded(read, capacity, init);
      assert init + [pkts[|pkts| - 1]] == pkts;
    }
  }

  /** How `turn_on` ends: normally, with `os.makedirs` raising before the window is touched, or
      with the capture failing to start after the sniffer object exists. */
  datatype StartOutcome = Started | DirectoryError | CaptureError

  /** What one iteration of `_process_thread` did. */
  datatype Step =
    | Stopped                          // the loop condition `is_active` is false
    | Idle                             // `queue.get` timed out
    | Buffered                         // the packet went into the open window
    | WindowClosedEmpty                // a window closed with no flows; nothing is scored
    | Scored(score: real, anomaly: Option<AnomalyResponse>)
    | Crashed(error: WindowError)      // `add_packet` raised; the thread ends
    | HandlerFailed(score: real)       // `os.makedirs` in `_handle_anomaly` raised; the thread ends

  /** The detector profile. The HalfSpaceTrees model is represented by the samples it has
      learned; the TinyDB log by its list of records; the sniffer by whether one was created and
      whether it is running; the processor thread by whether it is alive. */
  class DetectorProfile {
    const profileName: string
    var features: seq<Feature>
    var params: Params
    var config: DetectorConfig
    var isActive: bool
    var notifyEnabled: bool
    var queue: seq<Packet>
    var window: Window
    var learned: seq<Sample>
    var packetsRead: nat
    var windowsAnalyzed: nat
    var plotData: seq<real>
    var log: seq<AnomalyRecord>
    var hasSniffer: bool
    var snifferRunning: bool
    var processing: bool

    ghost predicate Valid()
      reads this, window
    {
      && window.Valid()
      && (forall f :: f in window.enabled <==> f in features)
      && |plotData| <= PlotLimit
      && (config.queueSize > 0 ==> |queue| <= config.queueSize)
      && (snifferRunning ==> hasSniffer)
    }

    /** `DetectorProfileHST(profile_name, input_data)` at time `now`; `storedLog` is what the
        profile's log file already holds. */
    constructor (name: string, input: ProfileInput, storedLog: seq<AnomalyRecord>, now: real)
      ensures Valid() && fresh(window)
      ensures profileName == name && features == input.features && params == input.params
      ensures config == ConfigOf(input.params)
      ensures !isActive && !notifyEnabled && !hasSniffer && !snifferRunning && !processing
      ensures queue == [] && learned == [] && packetsRead == 0 && windowsAnalyzed == 0
      ensures plotData == [] && log == storedLog
      ensures window.windowDuration == config.windowDuration && window.windowStart == now
      ensures window.rawPacketsBuffer == [] && window.flows == EmptyTable
    {
      profileName := name;
      features := input.features;
      params := input.params;
      config := ConfigOf(input.params);
      isActive := false;
      notifyEnabled := false;
      queue := [];
      log := storedLog;
      learned := [];
      window := new Window(ConfigOf(input.params).windowDuration, input.features, now);
      packetsRead := 0;
      windowsAnalyzed := 0;
      plotData := [];
      hasSniffer := false;
      snifferRunning := false;
      processing := false;
    }

    /** `turn_on` at time `now`. Already active: nothing happens. Otherwise `is_active` is set
        first, so it stays set whichever step then fails; the window takes the profile's
        duration and restarts at `now`; the sniffer is created, and only when it starts is the
        processor thread started. Returns whether an exception escaped. */
    method TurnOn(now: real, outcome: StartOutcome) returns (raised: bool)
      requires Valid()
      modifies this`isActive, this`hasSniffer, this`snifferRunning, this`processing
      modifies window`windowDuration, window`windowStart
      ensures Valid()
      ensures old(isActive) ==> !raised && unchanged(this) && unchanged(window)
      ensures !old(isActive) ==>
        && isActive
        && (raised <==> outcome != Started)
        && (outcome == DirectoryError ==>
              unchanged(window) && hasSniffer == old(hasSniffer) && snifferRunning == old(snifferRunning))
        && (outcome != DirectoryError ==>
              hasSniffer && window.windowDuration == config.windowDuration && window.windowStart == now)
        && (outcome == CaptureError ==> !snifferRunning)
        && (outcome == Started ==> snifferRunning && processing)
        && (outcome != Started ==> processing == old(processing))
    {
      if isActive {
        return false;
      }
      isActive := true;
      if outcome == DirectoryError {
        return true;
      }
      window.Restart(config.windowDuration, now);
      hasSniffer := true;
      if outcome == CaptureError {
        snifferRunning := false;
        return true;
      }
      snifferRunning := true;
      processing := true;
      raised := false;
    }

    /** `turn_off`: always clears `is_active`, then stops the sniffer. It raises when no sniffer
        was ever created (the attribute is missing) and when the sniffer is not running (a
        stopped `AsyncSniffer` refuses a second `stop`). */
    method TurnOff() returns (raised: bool)
      requires Valid()
      modifies this`isActive, this`snifferRunning
      ensures Valid()
      ensures !isActive && !snifferRunning
      ensures raised <==> !old(snifferRunning)
      ensures !hasSniffer ==> raised
    {
      isActive := false;
      raised := !snifferRunning;
      snifferRunning := false;
    }

    /** `_add_to_queue`: never blocks; a packet offered to a full queue is dropped and not
        counted. */
    method AddToQueue(pkt: Packet) returns (queued: bool)
      requires Valid()
      modifies this`queue, this`packetsRead
      ensures Valid()
      ensures queued <==> !QueueFull(old(queue), config.queueSize)
      ensures queued ==> queue == old(queue) + [pkt] && packetsRead == old(packetsRead) + 1
      ensures !queued ==> queue == old(queue) && packetsRead == old(packetsRead)
      ensures (queue, packetsRead) == OfferAll(old(queue), old(packetsRead), config.queueSize, [pkt])
    {
      if QueueFull(queue, config.queueSize) {
        return false;
      }
      queue := queue + [pkt];
      packetsRead := packetsRead + 1;
      return true;
    }

    /** The sample built from the window's features (`sample = {...}` and the loop over
        `features.items()`). */
    method BuildSample(computed: map<Feature, real>) returns (sample: Sample)
      ensures sample == SampleOf(features, computed)
    {
      sample := map f | f in features :: 0.0;
      var todo := computed.Keys;
      while todo != {}
        invariant todo <= computed.Keys
        invariant sample == map f | f in features :: if f in computed && f !in todo then computed[f] else 0.0
        decreases todo
      {
        var k :| k in todo;
        if k in sample {
          sample := sample[k := computed[k]];
        }
        todo := todo - {k};
      }
    }

    /** One iteration of `_process_thread` at time `now`, while the thread is alive: stop when
        the profile is off, otherwise take a packet, feed it to the window, and when a window
        with features closes, score its sample with the model as it was, learn the sample,
        record the score, and handle an anomaly when the score is strictly above the threshold.
        An exception from the window or from `_handle_anomaly` ends the thread. */
    method ProcessStep(now: real, num: Numerics, scorer: Scorer, env: AnomalyEnv) returns (r: Step)
      requires Valid() && processing
      modifies this`queue, this`windowsAnalyzed, this`learned, this`plotData, this`log, this`processing
      modifies window`windowStart, window`rawPacketsBuffer, window`flows, window`arrivals
      ensures Valid()
      ensures !old(isActive) ==>
        && r == Stopped && !processing && unchanged(window)
        && queue == old(queue) && windowsAnalyzed == old(windowsAnalyzed) && learned == old(learned)
        && plotData == old(plotData) && log == old(log)
      ensures old(isActive) && old(queue) == [] ==> r == Idle && unchanged(this) && unchanged(window)
      ensures old(isActive) && old(queue) != [] ==>
        && queue == old(queue)[1..]
        && var out := AddOutcomeOf(old(window.flows), old(window.rawPacketsBuffer), old(window.windowStart),
                                   window.windowDuration, window.enabled, now, num);
        match out
        case Pending =>
          r == Buffered && windowsAnalyzed == old(windowsAnalyzed) && learned == old(learned)
          && plotData == old(plotData) && log == old(log) && processing
        case Raised(e) =>
          r == Crashed(e) && windowsAnalyzed == old(windowsAnalyzed) && learned == old(learned)
          && plotData == old(plotData) && log == old(log) && !processing
        case Closed(m, raw) =>
          && windowsAnalyzed == old(windowsAnalyzed) + 1
          && (m == map[] ==> r == WindowClosedEmpty && learned == old(learned)
                             && plotData == old(plotData) && log == old(log) && processing)
          && (m != map[] ==>
                var sample := SampleOf(features, m);
                var score := scorer(config.hst, old(learned), sample);
                var response := AnomalyResponseOf(profileName, notifyEnabled, score, sample, raw, now, env);
                && learned == old(learned) + [sample]
                && plotData == PushScore(old(plotData), score)
                && (score > config.threshold && env.makedirsOk ==>
                      r == Scored(score, Some(response)) && log == AppendLog(old(log), response.record) && processing)
                && (score > config.threshold && !env.makedirsOk ==>
                      r == HandlerFailed(score) && log == old(log) && !processing)
                && (score <= config.threshold ==> r == Scored(score, None) && log == old(log) && processing))
      ensures old(isActive) && old(queue) != [] ==>
        var pkt := old(queue)[0];
        match AddOutcomeOf(old(window.flows), old(window.rawPacketsBuffer), old(window.windowStart),
                           window.windowDuration, window.enabled, now, num)
        case Pending =>
          && window.windowStart == old(window.windowStart)
          && window.rawPacketsBuffer == old(window.rawPacketsBuffer) + [pkt]
          && window.flows == Ingest(old(window.flows), pkt, now)
        case Raised(_) =>
          && window.windowStart == old(window.windowStart)
          && window.rawPacketsBuffer == old(window.rawPacketsBuffer)
          && window.flows == old(window.flows)
        case Closed(_, _) =>
          && window.windowStart == now
          && window.rawPacketsBuffer == [pkt]
          && window.flows == Ingest(EmptyTable, pkt, now)
    {
      if !isActive {
        processing := false;
        return Stopped;
      }
      if queue == [] {
        return Idle;
      }
      var pkt := queue[0];
      queue := queue[1..];
      var result := window.AddPacket(pkt, now, num);
      r := HandleOutcome(result, now, scorer, env);
    }

    /** What `_process_thread` does with the outcome of `add_packet`: nothing more while the
        window is open, end the thread on an exception, and otherwise count the closed window
        and score its sample when it has features. */
    method HandleOutcome(result: AddOutcome, now: real, scorer: Scorer, env: AnomalyEnv) returns (r: Step)
      requires Valid()
      modifies this`windowsAnalyzed, this`learned, this`plotData, this`log, this`processing
      ensures Valid()
      ensures match result
        case Pending =>
          r == Buffered && windowsAnalyzed == old(windowsAnalyzed) && learned == old(learned)
          && plotData == old(plotData) && log == old(log) && processing == old(processing)
        case Raised(e) =>
          r == Crashed(e) && windowsAnalyzed == old(windowsAnalyzed) && learned == old(learned)
          && plotData == old(plotData) && log == old(log) && !processing
        case Closed(m, raw) =>
          && windowsAnalyzed == old(windowsAnalyzed) + 1
          && (m == map[] ==> r == WindowClosedEmpty && learned == old(learned)
                             && plotData == old(plotData) && log == old(log) && processing == old(processing))
          && (m != map[] ==>
                var sample := SampleOf(features, m);
                var score := scorer(config.hst, old(learned), sample);
                var response := AnomalyResponseOf(profileName, notifyEnabled, score, sample, raw, now, env);
                && learned == old(learned) + [sample]
                && plotData == PushScore(old(plotData), score)
                && (score > config.threshold && env.makedirsOk ==>
                      && r == Scored(score, Some(response)) && log == AppendLog(old(log), response.record)
                      && processing == old(processing))
                && (score > config.threshold && !env.makedirsOk ==>
                      r == HandlerFailed(score) && log == old(log) && !processing)
                && (score <= config.threshold ==>
                      r == Scored(score, None) && log == old(log) && processing == old(processing)))
    {
      match result
      case Pending =>
        return Buffered;
      case Raised(e) =>
        processing := false;
        return Crashed(e);
      case Closed(computed, raw) =>
        windowsAnalyzed := windowsAnalyzed + 1;
        if |computed| == 0 {
          return WindowClosedEmpty;
        }
        r := ScoreWindow(computed, raw, now, scorer, env);
    }

    /** The part of `_process_thread` after a window closed with features: score the sample with
        the model as it was, learn it, push the score onto the history, and handle an anomaly
        when the score is strictly above the threshold. `os.makedirs` comes first in
        `_handle_anomaly`; when it raises, nothing is sent or logged and the thread ends. */
    method ScoreWindow(computed: map<Feature, real>, raw: seq<Packet>, now: real, scorer: Scorer,
                       env: AnomalyEnv) returns (r: Step)
      requires Valid()
      modifies this`learned, this`plotData, this`log, this`processing
      ensures Valid()
      ensures var sample := SampleOf(features, computed);
        var score := scorer(config.hst, old(learned), sample);
        var response := AnomalyResponseOf(profileName, notifyEnabled, score, sample, raw, now, env);
        && learned == old(learned) + [sample]
        && plotData == PushScore(old(plotData), score)
        && (score > config.threshold && env.makedirsOk ==>
              r == Scored(score, Some(response)) && log == AppendLog(old(log), response.record)
              && processing == old(processing))
        && (score > config.threshold && !env.makedirsOk ==>
              r == HandlerFailed(score) && log == old(log) && !processing)
        && (score <= config.threshold ==>
              r == Scored(score, None) && log == old(log) && processing == old(processing))
    {
      var sample := BuildSample(computed);
      var score := scorer(config.hst, learned, sample);
      learned := learned + [sample];
      RecordScore(score);
      if score <= config.threshold {
        return Scored(score, None);
      }
      r := HandleAnomaly(score, sample, raw, now, env);
    }

    /** `plot_data.append(score)`, dropping the oldest score beyond 30. */
    method RecordScore(score: real)
      requires Valid()
      modifies this`plotData
      ensures Valid() && plotData == PushScore(old(plotData), score)
    {
      plotData := plotData + [score];
      if |plotData| > PlotLimit {
        plotData := plotData[1..];
      }
    }

    /** `_handle_anomaly`: `os.makedirs` first; when it raises, nothing is sent or logged and the
        thread ends; otherwise the record is logged. */
    method HandleAnomaly(score: real, sample: Sample, raw: seq<Packet>, now: real, env: AnomalyEnv)
      returns (r: Step)
      requires Valid()
      modifies this`log, this`processing
      ensures Valid()
      ensures var response := AnomalyResponseOf(profileName, notifyEnabled, score, sample, raw, now, env);
        && (env.makedirsOk ==>
              r == Scored(score, Some(response)) && log == AppendLog(old(log), response.record)
              && processing == old(processing))
        && (!env.makedirsOk ==> r == HandlerFailed(score) && log == old(log) && !processing)
    {
      if !env.makedirsOk {
        processing := false;
        return HandlerFailed(score);
      }
      var response := AnomalyResponseOf(profileName, notifyEnabled, score, sample, raw, now, env);
      log := AppendLog(log, response.record);
      return Scored(score, Some(response));
    }

    /** `setattr(profile, "notify_enabled", on)`. */
    method SetNotifyEnabled(on: bool)
      requires Valid()
      modifies this`notifyEnabled
      ensures Valid() && notifyEnabled == on
    {
      notifyEnabled := on;
    }

    /** `setattr(profile, "threshold", t)`: only the threshold of the configuration changes. */
    method SetThreshold(t: real)
      requires Valid()
      modifies this`config
      ensures Valid() && config == old(config).(threshold := t)
    {
      config := config.(threshold := t);
    }

    /** `get_logs`: the records of the log (an empty log gives the empty list either way). */
    method GetLogs() returns (records: seq<AnomalyRecord>)
      ensures records == log
    {
      if |log| > 0 {
        return log;
      }
      return [];
    }

    /** Saving and loading the profile (`__getstate__` then `__setstate__`) at time `now`:
        the configuration, features, notification flag, score history and log survive; the
        profile comes back inactive with an empty queue, zeroed counters, an untrained model and
        a new window that starts at `now`. */
    method Restore(now: real)
      requires Valid()
      modifies this
      ensures Valid() && fresh(window)
      ensures features == old(features) && params == old(params) && config == old(config)
      ensures notifyEnabled == old(notifyEnabled) && plotData == old(plotData) && log == old(log)
      ensures !isActive && !hasSniffer && !snifferRunning && !processing
      ensures queue == [] && learned == [] && packetsRead == 0 && windowsAnalyzed == 0
      ensures window.windowDuration == config.windowDuration && window.windowStart == now
      ensures window.rawPacketsBuffer == [] && window.flows == EmptyTable
    {
      ClearRuntime();
      window := new Window(config.windowDuration, features, now);
    }

    /** The runtime state `__setstate__` starts afresh, apart from the window. */
    method ClearRuntime()
      requires Valid()
      modifies this`queue, this`learned, this`packetsRead, this`windowsAnalyzed, this`isActive
      modifies this`hasSniffer, this`snifferRunning, this`processing
      ensures Valid()
      ensures !isActive && !hasSniffer && !snifferRunning && !processing
      ensures queue == [] && learned == [] && packetsRead == 0 && windowsAnalyzed == 0
    {
      ClearCounters();
      isActive, hasSniffer, snifferRunning, processing := false, false, false, false;
    }

    /** A new queue, an untrained model and zeroed counters. */
    method ClearCounters()
      requires Valid()
      modifies this`queue, this`learned, this`packetsRead, this`windowsAnalyzed
      ensures Valid()
      ensures queue == [] && learned == [] && packetsRead == 0 && windowsAnalyzed == 0
    {
      queue, learned, packetsRead, windowsAnalyzed := [], [], 0, 0;
    }
  }

  /** The attribute names `__getstate__` removes before the profile is pickled, as written. */
  const RemovedAsWritten: set<string> := {"sniffer_thread", "processor_thread", "queue", "db", "window"}

  /** The attributes that live only while the profile runs. */
  const RuntimeAttributes: set<string> := {"sniffer", "processor_thread", "queue", "db", "window"}

  /** The attributes `__init__` and `_init_runtime_objects` give every profile. */
  const InitAttributes: set<string> := {
    "profile_name", "features", "params", "n_trees", "height", "window_size", "seed", "threshold",
    "window_duration", "bpf_filter", "interface", "queue_size", "logs_path", "is_active",
    "notify_enabled", "queue", "db", "model", "window", "processor_thread", "packets_read",
    "windows_analyzed", "plot_data"}

  /** The profile's `__dict__` keys: `turn_on` adds `sniffer` once it gets that far, and nothing
      removes it again. */
  function Attributes(p: DetectorProfile): set<string>
    reads p
  {
    if p.hasSniffer then InitAttributes + {"sniffer"} else InitAttributes
  }

  /** The attributes `__getstate__` keeps, as written. */
  function PersistedAsWritten(attrs: set<string>): set<string> {
    attrs - RemovedAsWritten
  }

  /** As written, a profile that has been turned on (and so has a `sniffer` attribute) keeps its
      sniffer handle in the saved state: the list names `sniffer_thread`, which no code sets. */
  lemma SnifferIsPersisted(p: DetectorProfile)
    requires p.hasSniffer
    ensures "sniffer" in PersistedAsWritten(Attributes(p))
    ensures !(PersistedAsWritten(Attributes(p)) !! RuntimeAttributes)
  {
    assert "sniffer" in Attributes(p);
  }

  /** The intended state: every runtime attribute removed. */
  function Persisted(attrs: set<string>): set<string> {
    attrs - RuntimeAttributes
  }

  /** The corrected state drops every runtime handle and keeps every other attribute, whether or
      not the profile was ever turned on. */
  lemma PersistedDropsRuntime(p: DetectorProfile)
    ensures Persisted(Attributes(p)) !! RuntimeAttributes
    ensures Persisted(Attributes(p)) == InitAttributes - RuntimeAttributes
    ensures forall a :: a in Attributes(p) && a !in RuntimeAttributes ==> a in Persisted(Attributes(p))
  {
  }
}
