# streamml / netmonitor core in Dafny

This project models the core of the netmonitor network-monitoring tool:

- **Flow-window aggregator** (`window.py`). It collects captured packets into per-flow counters over a fixed time window. When the window closes, it turns the counters into a dictionary of up to 29 named features.
- **Streaming anomaly detector** (`DetectorProfileHST`). It queues captured packets, feeds them to a window, scores each closed window with a Half-Space-Trees model and logs anomalous windows.
- **Nmap scanner profile** (`ScannerProfile`). It runs a scan, stores the result and builds the notification text.
- **Two profile managers.** Each keeps an ordered list of named profiles and handles the file it is saved to.
- **Scanner tab form.** It validates the nmap input and builds the nmap command.
- **Detector tab form.** It turns the form into a profile input (`get_inputs`).

Modules, one per source component:

| module | file | models |
|---|---|---|
| `Wrappers` | wrappers.dfy | `Option` / `Result` |
| `Text` | text.dfy | Python `str.strip`, `str.split()`, `str.split(sep)`, `' '.join`, `lower`, `in` on strings, `str(int)` |
| `Stats` | stats.dfy | `min`, `max`, `mean`, `pstdev` (as population variance), sums over count maps |
| `Features` | features.dfy | `FEATURE_LIST` as a datatype with its names and list positions |
| `Flows` | flows.dfy | one packet's effect on its flow (`_process_single_packet`) and the ordered flow table |
| `FlowWindow` | window.dfy | the `Window` class, `_finish_window`, `entropy` |
| `Detector` | detector.dfy | `DetectorProfileHST` as a class, with the processing loop body as one step |
| `Registry` | registry.dfy | the profile-name regular expression and the list operations both managers share |
| `DetectorManager` | detector_manager.dfy | `DetectorProfilesManager` |
| `Scanner` | scanner_profile.dfy | `ScannerProfile` |
| `ScannerManager` | scanner_manager.dfy | `ScannerProfilesManager` |
| `ScannerForm` | scanner_tab.dfy | `validate_inputs`, `dry_run_nmap_command`, `get_nmap_input` |
| `DetectorForm` | detector_tab.dfy | `get_inputs` |

Imperative code stays imperative, and each method is proved equal to a specification function whose properties are proved as lemmas:

- `Window`, `DetectorProfile`, `ScannerProfile` and both managers are classes whose methods change their fields.
- The loops of `_finish_window`, `entropy` and the notification summary are `while` loops with invariants.
- `get_inputs`, `validate_inputs` and `get_nmap_input` are methods that assign step by step.

Python details the model keeps:

- **Flow table.** It is an insertion-ordered table, like a Python dict, so `_finish_window` aggregates flows in insertion order.
- **TCP flags.** They are a 9-bit vector, the width of scapy's TCP flag field. The xmas-scan values are `0x29`, `0x3F` and `0x3B`; a null scan is flags `== 0`.
- **Packet queue.** `queue.Queue(maxsize)` is full only when `maxsize > 0` and the queue holds `maxsize` items. A size of 0 or less means unbounded.
- **Profile-name check.** `re.match(r"^[a-zA-Z0-9_-]+$", name)` also accepts a name that ends in one newline, because `$` matches before a final `"\n"`. The model keeps this (`Registry.TrailingNewlinePasses`).
- **Rollback.** `list.remove` deletes the first equal element. In the add-profile rollback this is the profile just appended.
- **Truthiness.**
  - An empty TinyDB is falsy. `GetLogs` keeps this, and so does the as-written half of the first finding; the profile class logs with the intended insert (see Left out).
  - An empty Select value or `None` counts as "no interface".
  - An empty string or empty list counts as absent.
- **Port range parse.** Any failure of `low, high = map(int, s.split("-"))` is one `ValueError`, whether a part is not a number or there are not exactly two parts.
- **Integers.** Python integers are unbounded, so the model needs no wrap-around.

Behaviour of the code that a reader might not expect, which the model keeps:

- `packets_read` counts only packets actually put in the queue. No counter of dropped packets exists.
- `turn_on` sets `is_active` before the capture starts. If starting fails, the profile stays marked active.
- `turn_on` does not clear the window's buffer, its flows or the queue.
- `turn_off` on a detector profile raises when `self.sniffer` does not exist (never turned on) and when the sniffer is not running (already stopped, or it failed to start), since a stopped `AsyncSniffer` refuses `stop`. By then it has already cleared `is_active`.
- When the sniffer fails to start, or `os.makedirs` fails in `turn_on`, no processor thread is started although the profile is marked active; an exception from `add_packet` or from `os.makedirs` in `_handle_anomaly` ends the processor thread while `is_active` stays set (`DetectorProfile.processing`).
- A scanner profile's `is_active` is saved with the profile. The scheduler jobs are not recreated on load.
- Deleting a scanner profile does not remove its scheduler job.
- For the same form, the two `get_nmap_input` outputs place `-e <iface>` differently:
  - the dictionary form puts it after the selected options;
  - the list form puts it before them.

  `ScannerForm.FormCommandsAgree` proves that both commands hold the same words.

## Model

| member | source | states |
|---|---|---|
| Features.FeatureListIsComplete | src/netmonitor/back/window.py:201-235 | the feature list has 29 entries and every feature sits at its own index |
| Features.EveryFeatureListed | src/netmonitor/back/window.py:201-235 | every feature the window can compute appears in the list |
| Features.LookupName | src/netmonitor/back/window.py:201-235 | looking up a feature's name string gives that feature back (name round trip) |
| Features.NameInjective | src/netmonitor/back/window.py:201-235 | two features with the same name are the same feature |
| Flows.CountFlagsDecodes | src/netmonitor/back/window.py:90-101 | each TCP flag counter rises by one exactly when its bit (F=0x01, S=0x02, R=0x04, P=0x08, A=0x10, U=0x20) is set; xmas exactly for flags 0x29/0x3F/0x3B; null scan exactly for flags 0 |
| Flows.XmasAndNullScans | src/netmonitor/back/window.py:98-101 | a packet counts as at most one of xmas and null scan; every xmas value carries FIN, PSH and URG; flags 0 change only the null-scan counter |
| Flows.BumpPositive | src/netmonitor/back/window.py:88-89 | counting a port keeps every port count positive and records the port |
| Flows.BumpTotal | src/netmonitor/back/window.py:88-89 | counting a port raises the histogram total by exactly one |
| Flows.CountFlagsBounded | src/netmonitor/back/window.py:90-101 | no flag counter can exceed the number of TCP packets of the flow |
| Flows.CountPacketKeepsInv | src/netmonitor/back/window.py:73-111 | one packet keeps the flow invariant (counts = sizes, protocol counts and port-histogram totals within the packet count, flag counters bounded) and leaves the flow non-empty |
| Flows.CountPacketBranches | src/netmonitor/back/window.py:78-111 | one packet adds one packet and its size; it counts as TCP iff it has a TCP layer, UDP iff UDP and not TCP, ICMP iff only ICMP; ports and flags change only on the matching layers |
| Flows.IngestChangesOneFlow | src/netmonitor/back/window.py:56-81 | a packet without an IPv4 or IPv6 layer leaves the flows unchanged; otherwise only the flow of its (source, destination, protocol) key changes (created at the end of the order if new), every other flow is kept |
| Flows.IngestKeepsValid | src/netmonitor/back/window.py:56-111 | adding a packet keeps the flow table consistent (distinct ordered keys, every flow valid and non-empty) |
| FlowWindow.MergeCountsTotal | src/netmonitor/back/window.py:138-141 | merging per-flow port counts into the window counts covers both key sets, keeps counts positive and adds the totals |
| FlowWindow.MergePorts | src/netmonitor/back/window.py:138-141 | the merge loop computes the pointwise sum of the two port histograms |
| FlowWindow.AccumulateKeepsInv | src/netmonitor/back/window.py:134-149 | adding one valid flow keeps the window totals consistent (flag and protocol counts within the packet total, sizes matching the packet count) |
| FlowWindow.AggregateInv | src/netmonitor/back/window.py:134-149 | aggregating valid flows gives consistent totals, with a positive packet total when some flow has packets |
| FlowWindow.AggregateContents | src/netmonitor/back/window.py:134-149 | the window's size list is the flows' size lists concatenated in order, and its port sets are the union of the flows' ports |
| FlowWindow.TotalCount | src/netmonitor/back/window.py:239-241 | the loop computes the sum of the histogram counts |
| FlowWindow.SubtractTerms | src/netmonitor/back/window.py:242-250 | the loop computes minus the sum of p*log2(p) over every port |
| FlowWindow.ComputeEntropy | src/netmonitor/back/window.py:238-251 | `entropy` returns the Shannon entropy of the port histogram, and 0 for an empty histogram |
| FlowWindow.EntropyNonNegative | src/netmonitor/back/window.py:238-251 | for a log2 that is non-positive on (0,1], the entropy of a histogram with positive counts is non-negative |
| FlowWindow.EntropyOfOnePort | src/netmonitor/back/window.py:238-251 | a window that saw only one port has entropy 0 |
| FlowWindow.WindowFeaturesOutcome | src/netmonitor/back/window.py:113-198 | closing a window fails (ZeroDivisionError) exactly when there are flows, a zero window length and a rate feature enabled; otherwise the result is empty for no flows and has exactly the enabled features as keys |
| FlowWindow.PerPacketAtMostOne | src/netmonitor/back/window.py:152 | a count not above the packet total, divided by it, lies in [0, 1] |
| FlowWindow.PerPacketSum | src/netmonitor/back/window.py:194-196 | three disjoint per-packet shares sum to at most 1 |
| FlowWindow.WindowValue | src/netmonitor/back/window.py:154-198 | every feature in a closed window's result equals that feature's formula on the window summary, and a rate feature implies a non-zero window length |
| FlowWindow.SummaryRatios | src/netmonitor/back/window.py:170-171 | the SYN/FIN ratios and the three protocol ratios lie in [0, 1], and the protocol ratios sum to at most 1 |
| FlowWindow.SummarySizes | src/netmonitor/back/window.py:180-184 | min packet size <= average packet size <= max packet size |
| FlowWindow.SummaryCounts | src/netmonitor/back/window.py:156-158 | total_packets is the number of packet sizes recorded and total_bytes their sum |
| FlowWindow.SummaryPorts | src/netmonitor/back/window.py:175-176 | unique_dst_ports/unique_src_ports are the number of distinct ports seen across all flows |
| FlowWindow.WindowCounts | src/netmonitor/back/window.py:156-158 | in a closed window, flow_count is the number of flows and total_packets/total_bytes count the recorded packets and bytes |
| FlowWindow.WindowPorts | src/netmonitor/back/window.py:175-176 | in a closed window the unique-port features count the distinct ports of all flows |
| FlowWindow.WindowRatios | src/netmonitor/back/window.py:170-196 | in a closed window every ratio feature lies in [0, 1], the protocol ratios sum to at most 1, and min <= avg <= max packet size |
| FlowWindow.WindowEntropies | src/netmonitor/back/window.py:177-178 | in a closed window both port entropies are non-negative |
| FlowWindow.IngestAllTotals | src/netmonitor/back/window.py:55-111 | after a sequence of packets, the flows' packet and byte totals equal the number and total length of the IP packets among them |
| FlowWindow.WindowTotalsOfPackets | src/netmonitor/back/window.py:134-158 | total_packets and total_bytes of a closed window count exactly the IP packets that arrived in it |
| FlowWindow.Window.constructor | src/netmonitor/back/window.py:9-33 | a new window has the given duration and enabled-feature set, starts now, with an empty buffer and no flows |
| FlowWindow.Window.Restart | src/streamml/back/detector_profile_HST.py:97-98 | resetting the duration and start time keeps the window consistent |
| FlowWindow.Window.AddPacket | src/netmonitor/back/window.py:35-53 | before the window length has elapsed the packet is buffered and counted and nothing is returned; after it, the old window's features and raw packets are returned and a new window starts now holding only this packet; a ZeroDivisionError leaves the window unchanged |
| FlowWindow.Window.ProcessSinglePacket | src/netmonitor/back/window.py:55-111 | the packet is appended to the raw buffer and counted into its flow |
| FlowWindow.Window.FinishWindow | src/netmonitor/back/window.py:113-198 | returns the window's feature map as specified by the closed-window lemmas |
| FlowWindow.CountInFlow | src/netmonitor/back/window.py:78-111 | the counting steps compute the specified per-flow update |
| FlowWindow.AggregateFlows | src/netmonitor/back/window.py:134-149 | the loop over flows computes the aggregate of the flows in insertion order |
| FlowWindow.EnabledFeatures | src/netmonitor/back/window.py:154-196 | the result has exactly the enabled features as keys, each with its formula's value |
| Stats.Min | src/netmonitor/back/window.py:182 | `min` returns an element that is <= every element |
| Stats.Max | src/netmonitor/back/window.py:183 | `max` returns an element that is >= every element |
| Stats.MeanBetweenMinMax | src/netmonitor/back/window.py:181-183 | the mean of a non-empty list lies between its minimum and maximum |
| Stats.PVariance | src/netmonitor/back/window.py:184 | the population variance is non-negative |
| Detector.DefaultConfig | src/streamml/back/detector_profile_HST.py:30-38 | with no parameters a profile uses 10 trees, height 8, window 250, seed 42, threshold 0.7, 10 s windows, empty BPF filter, no interface, queue size 10000 |
| Detector.ConfigFollowsParams | src/streamml/back/detector_profile_HST.py:30-38 | a given threshold, window duration or queue size is used as given, and the setting depends only on its own parameter |
| Detector.SampleKeysAndDefaults | src/streamml/back/detector_profile_HST.py:145-148 | the model sample has exactly the profile's features as keys, with the computed value where there is one and 0.0 elsewhere |
| Detector.PushScoreKeepsLast | src/streamml/back/detector_profile_HST.py:153-155 | appending a score keeps the last 30 scores, ending with the new one |
| Detector.PushAllIsLast30 | src/streamml/back/detector_profile_HST.py:153-155 | after any sequence of scores the plot data are exactly the last 30 of them |
| Detector.AnomalyResponseFacts | src/streamml/back/detector_profile_HST.py:160-187 | the pcap is saved iff the window had packets and a notification is sent iff notifications are on; the record holds the time, the `strftime` timestamp, the profile, the score, the pcap file (inside the profile's pcap directory), pkt_rate (0 when absent), and `proto_info` as `TCP:<r> UDP:<r>` with each ratio written to two decimals (0 when absent) |
| Detector.PcapNeverSavedAsWritten | src/streamml/back/detector_profile_HST.py:163-170 | as written, `os.makedirs` creates `PCAP_PATH` (the dirname of the profile's pcap directory), not the profile's directory the file goes into, so without that directory already present no pcap is ever saved |
| Detector.PcapSavedWithProfileDir | src/streamml/back/detector_profile_HST.py:163-170 | with the profile's pcap directory created, the pcap is saved iff the window had packets |
| Detector.EmptyLogStaysEmpty | src/streamml/back/detector_profile_HST.py:176-187 | as written, an anomaly log that starts empty stays empty whatever anomalies occur |
| Detector.AppendAllKeepsEveryRecord | src/streamml/back/detector_profile_HST.py:176-187 | with the intended insert, the log is the old log followed by every anomaly record in order |
| Detector.OfferAllFillsToCapacity | src/streamml/back/detector_profile_HST.py:119-125 | starting from an empty queue, a bounded queue keeps the first `capacity` packets and counts only those; an unbounded queue keeps and counts all |
| Detector.SnifferIsPersisted | src/streamml/back/detector_profile_HST.py:75-81 | as written, a profile whose `turn_on` got as far as creating the sniffer keeps the `sniffer` handle in its saved state, a runtime object |
| Detector.PersistedDropsRuntime | src/streamml/back/detector_profile_HST.py:75-81 | with `sniffer` in the removal list, a profile's saved state holds no runtime object and is the same whether or not it was ever turned on |
| Detector.DetectorProfile.constructor | src/streamml/back/detector_profile_HST.py:22-72 | a new profile takes its configuration from the parameters, is inactive with an empty queue, zero counters, empty plot data, and a fresh window of the configured duration |
| Detector.DetectorProfile.TurnOn | src/streamml/back/detector_profile_HST.py:91-110 | an active profile is left alone; otherwise it becomes active even when starting fails; once capture is reached the window is reset to the configured duration and now and the sniffer exists; the sniffer runs and the processor thread starts only when the capture starts |
| Detector.DetectorProfile.TurnOff | src/streamml/back/detector_profile_HST.py:112-117 | the profile becomes inactive and its sniffer stopped; the call raises exactly when the sniffer was not running, which includes never having been created |
| Detector.DetectorProfile.AddToQueue | src/streamml/back/detector_profile_HST.py:119-125 | the packet is queued and counted iff the queue is not full; a full queue drops it silently |
| Detector.DetectorProfile.BuildSample | src/streamml/back/detector_profile_HST.py:145-148 | the loop builds the specified sample |
| Detector.DetectorProfile.ProcessStep | src/streamml/back/detector_profile_HST.py:127-158 | one iteration of a live processor thread: the thread ends when inactive; nothing happens when the queue is empty; otherwise the head packet goes to the window, which afterwards holds it in its buffer and flows while open, is restarted at `now` holding only that packet when it closed, and is unchanged when closing raised; an exception from the window ends the thread; a closed window increments windows_analyzed; a non-empty result is scored, learned, plotted and, above the threshold, handled as an anomaly |
| Detector.DetectorProfile.ScoreWindow | src/streamml/back/detector_profile_HST.py:145-158 | the sample is scored against what was learned so far and then learned; the score is plotted; the window is an anomaly iff the score exceeds the threshold, and then the record is logged or, when `os.makedirs` fails, the thread ends with nothing logged |
| Detector.DetectorProfile.HandleOutcome | src/streamml/back/detector_profile_HST.py:134-143 | an open window changes nothing, an exception from `add_packet` ends the thread, and a closed window is counted and, when it has features, scored |
| Detector.DetectorProfile.HandleAnomaly | src/streamml/back/detector_profile_HST.py:160-187 | `os.makedirs` failing ends the thread with nothing logged; otherwise the anomaly's record is appended to the log |
| Detector.DetectorProfile.GetLogs | src/streamml/back/detector_profile_HST.py:198-201 | returns every stored anomaly record |
| Detector.DetectorProfile.Restore | src/streamml/back/detector_profile_HST.py:83-86 | unpickling keeps the configuration, notifications, plot data and log, rebuilds queue, model and window, zeroes the counters, and leaves the profile inactive with no sniffer and no processor thread |
| Registry.NamePatternShape | src/streamml/back/detector_profiles_manager.py:9 | an accepted name is non-empty and made of letters, digits, `_` and `-`, except for at most one final newline |
| Registry.TrailingNewlinePasses | src/streamml/back/detector_profiles_manager.py:79-80 | `"lab\n"` is accepted while `"lab\nx"` and `"\n"` are rejected |
| Registry.CheckNewNameAccepts | src/streamml/back/detector_profiles_manager.py:76-83 | a new name is accepted iff it is non-blank, matches the pattern and is not taken; blank is reported first; accepting keeps names unique |
| Registry.FindFirst | src/streamml/back/detector_profiles_manager.py:110-111 | returns the first profile with the name, or none when no profile has it |
| Registry.WithoutNameFacts | src/streamml/back/detector_profiles_manager.py:96-101 | the filtered list holds exactly the profiles with another name; its length is unchanged iff no profile had the name |
| Registry.WithoutNameKeepsOrder | src/streamml/back/detector_profiles_manager.py:98 | filtering keeps the remaining profiles in their order |
| Registry.RemoveAppended | src/streamml/back/detector_profiles_manager.py:88-90 | removing a just-appended new profile restores the old list |
| Registry.NamesOf | src/streamml/back/detector_profiles_manager.py:82 | the names of the profiles, one per profile in list order |
| DetectorManager.DetectorProfilesManager.constructor | src/streamml/back/detector_profiles_manager.py:12-20 | a new manager has no profiles |
| DetectorManager.DetectorProfilesManager.LoadProfiles | src/streamml/back/detector_profiles_manager.py:58-72 | a missing file is created (success iff saving works); an unreadable file fails and keeps the profiles; a readable one replaces them |
| DetectorManager.DetectorProfilesManager.AddProfile | src/streamml/back/detector_profiles_manager.py:75-93 | blank, malformed or taken names are refused with the matching failure; a failed save rolls back; otherwise a fresh profile with that name and input is appended; names stay unique |
| DetectorManager.DetectorProfilesManager.DeleteProfile | src/streamml/back/detector_profiles_manager.py:96-107 | every profile with the name is removed and no other; NotFound iff none had it; success iff found and saved, and SaveFailed when found but not saved |
| DetectorManager.DetectorProfilesManager.GetProfile | src/streamml/back/detector_profiles_manager.py:110-111 | returns the first profile with the name, or none iff the name is unknown |
| DetectorManager.DetectorProfilesManager.UpdateProfile | src/streamml/back/detector_profiles_manager.py:114-123 | an unknown name fails and changes nothing; otherwise the result reports the save, and of that profile only `notify_enabled` or the configuration's threshold changes (only those two fields may be written) |
| DetectorManager.DetectorProfilesManager.TurnOnProfile | src/streamml/back/detector_profiles_manager.py:126-134 | an unknown name fails and changes nothing; an already-active profile is left exactly as it was (the early return of `turn_on`); otherwise the profile is active afterwards, the call succeeds iff capture started, and the `turn_on` clauses are passed on: the window restarts with the configured duration once `os.makedirs` succeeded, a sniffer then exists and is running iff capture started, and the processor thread is started when capture started (its flag is otherwise left as it was); only the run flags and the window's duration and start may change, so configuration, log, queue and buffered packets stay as they were; other profiles are untouched |
| DetectorManager.DetectorProfilesManager.TurnOffProfile | src/streamml/back/detector_profiles_manager.py:137-145 | an unknown name fails and changes nothing; otherwise the profile is inactive, its sniffer is stopped, and the call succeeds iff the sniffer was running; only `is_active` and the sniffer state may change; other profiles are untouched |
| DetectorManager.SaveFailsAfterTurnOnAsWritten | src/streamml/back/detector_profiles_manager.py:44-55 | as written, once a profile in the list has a sniffer, pickling the list meets a runtime object, so every later save fails and `add_profile` always rolls back |
| DetectorManager.SaveSucceedsIffWritable | src/streamml/back/detector_profiles_manager.py:44-55 | with the intended removal list, a save succeeds exactly when the file can be written, whichever profiles were turned on |
| DetectorManager.DetectorProfilesManager.GetProfileLogs | src/streamml/back/detector_profiles_manager.py:148-153 | none iff the name is unknown, else that profile's log |
| ScannerManager.JobIdInjective | src/netmonitor/back/scanner_profiles_manager.py:133 | distinct profile names get distinct scheduler job ids |
| ScannerManager.ScannerProfilesManager.constructor | src/netmonitor/back/scanner_profiles_manager.py:14-22 | a new manager has no profiles and uses the given scheduler |
| ScannerManager.ScannerProfilesManager.LoadProfiles | src/netmonitor/back/scanner_profiles_manager.py:51-65 | a missing file is created (success iff saving works); an unreadable file fails; a readable one replaces the profiles |
| ScannerManager.ScannerProfilesManager.AddProfile | src/netmonitor/back/scanner_profiles_manager.py:68-86 | blank, malformed or taken names are refused; a failed save rolls back; otherwise an inactive fresh profile is appended; names stay unique and every active profile keeps a job |
| ScannerManager.ScannerProfilesManager.DeleteProfile | src/netmonitor/back/scanner_profiles_manager.py:88-99 | every profile with the name is removed and no other; NotFound iff none had it; success iff found and saved, and SaveFailed when found but not saved; its scheduler job is left in place |
| ScannerManager.ScannerProfilesManager.GetProfile | src/netmonitor/back/scanner_profiles_manager.py:101-102 | returns the first profile with the name, or none iff the name is unknown |
| ScannerManager.ScannerProfilesManager.UpdateProfile | src/netmonitor/back/scanner_profiles_manager.py:104-113 | an unknown name fails and changes nothing; otherwise the result reports the save, and of that profile only the named field among `nmap_input`, `cve`, `notify_enabled` and `notify_only_cve` changes (only those fields may be written; the handles, schedule, logs and `is_active` stay) |
| ScannerManager.ScannerProfilesManager.TurnOnProfile | src/netmonitor/back/scanner_profiles_manager.py:127-143 | with a valid cron schedule the job `profile_<name>` is registered and the profile becomes active; without one the call fails and nothing changes; only `is_active` of a profile may change, and every active profile keeps a job |
| ScannerManager.ScannerProfilesManager.TurnOffProfile | src/netmonitor/back/scanner_profiles_manager.py:145-154 | removing an unknown job fails and changes nothing; otherwise the job is removed and the first profile of that name, if any, becomes inactive; only `is_active` of a profile may change, and with unique names every active profile keeps a job |
| ScannerManager.ScannerProfilesManager.SetValidatedScheduler | src/netmonitor/back/scanner_profiles_manager.py:156-170 | an unknown name or an invalid cron string fails and changes nothing; a valid one is stored and the result reports the save; only the profile's `scheduler` may change, and every active profile keeps a job |
| ScannerManager.ScannerProfilesManager.GetProfileLogs | src/netmonitor/back/scanner_profiles_manager.py:172-177 | none iff the name is unknown, else all stored results of that profile, whose TinyDB handle now exists; only that handle may change, the other profiles are untouched, and every active profile keeps a job iff it did before |
| Scanner.ScanRequestFacts | src/netmonitor/back/scanner_profile.py:55-66 | scans the stored targets; the vulners script is appended to the arguments iff CVE checking is on; ports are passed only when non-empty |
| Scanner.PortLabelInjective | src/netmonitor/back/scanner_profile.py:93 | different ports give different `port/proto` labels |
| Scanner.OpenPortsExact | src/netmonitor/back/scanner_profile.py:92-99 | a port is listed iff some entry for it has state `open` |
| Scanner.HostsSummarySnoc | src/netmonitor/back/scanner_profile.py:89-102 | the summary grows host by host in order |
| Scanner.SummaryEmptyIffNoHosts | src/netmonitor/back/scanner_profile.py:88-102 | the summary is empty iff no host was scanned, and otherwise starts with the first host's line |
| Scanner.FoundIssuesIgnoresCase | src/netmonitor/back/scanner_profile.py:82-83 | "CVE", "cve" or "Vulnerab" anywhere in the result counts as an issue |
| Scanner.NotificationSentIff | src/netmonitor/back/scanner_profile.py:106-120 | a message is sent iff not CVE-only or issues were found |
| Scanner.TruncateBounds | src/netmonitor/back/scanner_profile.py:120-122 | messages up to 1900 characters are unchanged; longer ones keep their first 1900 characters plus the 5-character marker |
| Scanner.NotificationStartsWithHeader | src/netmonitor/back/scanner_profile.py:85-122 | every sent message starts with the report header naming the profile and targets |
| Scanner.BuildSummary | src/netmonitor/back/scanner_profile.py:86-102 | the loop builds the specified summary |
| Scanner.AppendHost | src/netmonitor/back/scanner_profile.py:90-102 | one host appends its line block |
| Scanner.ScannerProfile.constructor | src/netmonitor/back/scanner_profile.py:13-26 | a new profile is inactive with empty input, no schedule, CVE and notifications off, and no scanner or database handle |
| Scanner.ScannerProfile.Nmap | src/netmonitor/back/scanner_profile.py:28-32 | the scanner handle is created once and then reused |
| Scanner.ScannerProfile.TinyDb | src/netmonitor/back/scanner_profile.py:34-38 | the database handle is created once and then reused |
| Scanner.ScannerProfile.Scan | src/netmonitor/back/scanner_profile.py:55-79 | runs the specified request, stamps and stores the result at the end of the log, and builds the notification only when notifications are on |
| Scanner.ScannerProfile.HandleNotification | src/netmonitor/back/scanner_profile.py:81-123 | builds the specified notification |
| Scanner.ScannerProfile.GetLogs | src/netmonitor/back/scanner_profile.py:137-138 | returns every stored result |
| Scanner.ScannerProfile.Restore | src/netmonitor/back/scanner_profile.py:40-49 | unpickling drops both runtime handles |
| DetectorForm.GetSetParam | src/netmonitor/front/detector_tab.py:106-117 | setting one parameter changes that parameter only |
| DetectorForm.ParamFromText | src/netmonitor/front/detector_tab.py:106-119 | a parsed value has the key's type, and a failure carries the message `Param '<key>' must be a number.` |
| DetectorForm.ParamFromTextCases | src/netmonitor/front/detector_tab.py:106-119 | a blank input gives the form default; otherwise the step fails iff int() (integer keys) or float() (threshold, window duration) rejects the stripped text |
| DetectorForm.StepOfFormFits | src/netmonitor/front/detector_tab.py:113-117 | every parsed parameter has the type of its key |
| DetectorForm.SelectedInFacts | src/netmonitor/front/detector_tab.py:70 | the selected features are exactly those that are checked, in list order |
| DetectorForm.SelectedFeatures | src/netmonitor/front/detector_tab.py:70-73 | the features are exactly the checked ones in feature-list order, empty iff none is checked |
| DetectorForm.InputsErrors | src/netmonitor/front/detector_tab.py:70-83 | no checked feature fails with "Select at least one feature."; otherwise a missing interface fails with "Interface selection error." |
| DetectorForm.ParamsFromSets | src/netmonitor/front/detector_tab.py:100-119 | a successful loop sets exactly the visited parameters, leaves the rest, interface and BPF filter alone |
| DetectorForm.ParamsFromError | src/netmonitor/front/detector_tab.py:100-119 | the loop fails iff some input fails, and then with the first failing input's message |
| DetectorForm.ParamInputsDistinct | src/netmonitor/front/detector_tab.py:39-45 | the form has each of the seven parameter inputs exactly once |
| DetectorForm.InputsOfPassed | src/netmonitor/front/detector_tab.py:77-124 | once the checks pass, the result is the parameter loop's outcome with the selected features |
| DetectorForm.ParamsFromFailsIff | src/netmonitor/front/detector_tab.py:100-119 | over all parameter inputs, the loop fails iff some input fails to parse |
| DetectorForm.InputsParamErrorIff | src/netmonitor/front/detector_tab.py:100-119 | after the checks, `get_inputs` fails iff some parameter input fails |
| DetectorForm.InputsParamErrorFirst | src/netmonitor/front/detector_tab.py:100-119 | the failure names the first non-blank parameter, in form order, that does not parse |
| DetectorForm.InputsParamValues | src/netmonitor/front/detector_tab.py:77-124 | a successful result carries the selected features, the interface, the stripped BPF filter iff it is non-blank, and every parameter as parsed |
| DetectorForm.FormDefaultsAreDetectorDefaults | src/netmonitor/front/detector_tab.py:89-98 | the form defaults produce the same detector configuration as no parameters at all |
| DetectorForm.BlankFormGivesDetectorDefaults | src/netmonitor/front/detector_tab.py:69-124 | a form with all parameter inputs blank succeeds and configures the detector exactly as the detector's own defaults |
| DetectorForm.GetInputs | src/netmonitor/front/detector_tab.py:69-124 | the method computes the specified profile input or error |
| ScannerForm.ValidateInputs | src/netmonitor/front/scanner_tab.py:100-143 | the method returns the specified error list |
| ScannerForm.CheckPorts | src/netmonitor/front/scanner_tab.py:121-138 | the method returns the specified port errors |
| ScannerForm.ValidationStopsEarly | src/netmonitor/front/scanner_tab.py:103-119 | a missing `-sV` with CVE on, blank targets, or an invalid network (when no user command) each return that single error |
| ScannerForm.ValidationPassesIff | src/netmonitor/front/scanner_tab.py:100-143 | the input is valid iff the CVE, target, network, port and dry-run checks all pass |
| ScannerForm.ValidationErrorsBound | src/netmonitor/front/scanner_tab.py:121-143 | at most three errors are reported, at most two of them about ports |
| ScannerForm.RangeErrorsFacts | src/netmonitor/front/scanner_tab.py:123-131 | an unparsable range gives only the "must be numbers" error; otherwise out-of-bounds is reported iff a bound is outside 1-65535 and reversed iff low > high |
| ScannerForm.ExtraDashIsNotARange | src/netmonitor/front/scanner_tab.py:125 | a range string that does not split into exactly two parts is reported as not numbers |
| ScannerForm.SinglePortFacts | src/netmonitor/front/scanner_tab.py:132-138 | a single port passes iff it parses and lies in 1-65535, and is reported as not a number iff it does not parse |
| ScannerForm.DryRunFacts | src/netmonitor/front/scanner_tab.py:145-155 | the dry run fails iff targets are missing or the arguments do not split; its message has the verification prefix; its command starts with `nmap` and ends with the targets |
| ScannerForm.FieldsOf | src/netmonitor/front/scanner_tab.py:158-163 | the text inputs are stripped (empty iff blank); interface and options are taken as they are |
| ScannerForm.GetNmapInput | src/netmonitor/front/scanner_tab.py:157-217 | the method computes the specified dictionary or argument list |
| ScannerForm.BuildNmapInput | src/netmonitor/front/scanner_tab.py:165-217 | the branches build the specified result from the stripped fields |
| ScannerForm.DropLeadingFacts | src/netmonitor/front/scanner_tab.py:169-170 | at most a leading `sudo` and then `nmap` are dropped, and nothing else |
| ScannerForm.ManualDictFacts | src/netmonitor/front/scanner_tab.py:166-181 | a user command that is empty after dropping gives `{}`; otherwise the last word is the target and the arguments split back into the other words |
| ScannerForm.FormDictFacts | src/netmonitor/front/scanner_tab.py:183-199 | the form dictionary has the targets, ports iff a low port is given (`low-high` or `low`), and arguments iff options or an interface are given, splitting back into options then `-e iface` |
| ScannerForm.FormListFacts | src/netmonitor/front/scanner_tab.py:204-217 | the form list is `nmap`, then `-e iface` if any, the options, `-p ports` if any, and the targets last |
| ScannerForm.FormCommandsAgree | src/netmonitor/front/scanner_tab.py:145-217 | the dry-run command of the form dictionary succeeds and holds the same words as the form list, only with the interface placed after the options |
| ScannerForm.ManualFormsAgree | src/netmonitor/front/scanner_tab.py:166-202 | for a user command, both forms fail together, and the dictionary is derived from the list form's words |
| ScannerForm.FormPortsValidation | src/netmonitor/front/scanner_tab.py:121-138 | ports built from the form pass validation iff they parse, lie in 1-65535 and (for a range) are in order |
| ScannerForm.RangeBothErrors | src/netmonitor/front/scanner_tab.py:126-129 | `70000-80` reports both the out-of-range and the reversed-range errors |
| Text.StripEmptyIffBlank | src/netmonitor/front/scanner_tab.py:109-110 | a stripped string is empty iff it is all whitespace |
| Text.TrimLeftFacts | src/netmonitor/front/scanner_tab.py:158 | stripping on the left removes only a run of leading whitespace and keeps the rest as a suffix |
| Text.TrimRightFacts | src/netmonitor/front/scanner_tab.py:158 | stripping on the right removes only a run of trailing whitespace, keeps the rest as a prefix and leaves no whitespace at its end |
| Text.WordsAreWords | src/netmonitor/front/scanner_tab.py:105 | every word of `str.split()` is non-empty and holds no whitespace |
| Text.SplitPartsFree | src/netmonitor/front/scanner_tab.py:125 | no part of `str.split(sep)` contains the separator |
| Text.WordsOfJoin | src/netmonitor/front/scanner_tab.py:105 | splitting a space-joined list of words gives the words back |
| Text.JoinOfSplit | src/netmonitor/front/scanner_tab.py:125 | joining the parts of a split with the separator gives the original string |
| Text.RoundHalfEvenClose | src/streamml/back/detector_profile_HST.py:185 | rounding to an integer, ties to even, moves a value by at most one half |
| Text.FixedDigitsReadBack | src/streamml/back/detector_profile_HST.py:185 | a number of hundredths is written as digits, a point and two digits that read back as that number |
| Text.Fixed2ReadsBack | src/streamml/back/detector_profile_HST.py:185 | `f"{x:.2f}"` of a non-negative value is digits, a point and two digits whose value is within 0.005 of x |
| Text.DirnameOfChild | src/streamml/back/detector_profile_HST.py:163 | `os.path.dirname` of `dir/leaf` is `dir`, for a leaf without `/` |
| Text.ContainsLower | src/netmonitor/back/scanner_profile.py:82-83 | a substring stays a substring after lower-casing both |
| Text.NatToStringRoundTrip | src/netmonitor/back/scanner_profile.py:93 | the decimal rendering of a port reads back as that port |

## Left out

- Threads and concurrency are not modelled. This covers the sniffer callback, the processing thread, `time.sleep` and the scheduler's own thread. The processing loop is modelled as one step (`ProcessStep`), which may run while the processor thread is alive (`processing`); a second thread left over from an earlier `turn_on` is not modelled.
- Clocks are parameters: `time.time()` and `datetime.now()` / `strftime` come in as `now` and `stamp`. The two readings of `time.time()` in one anomaly are taken as the same instant.
- The Half-Space-Trees model is a `scorer` parameter. It is a function of the model configuration, the samples learned so far and the new sample.
- `math.log2` and `math.sqrt` are parameters (`Numerics`). Floating point is modelled as exact real arithmetic.
- `int()`, `float()`, `ipaddress.ip_network` and `shlex.split` are parameters. Only their success or failure and their value matter here.
- Packet capture (scapy) and the packet layers are a datatype. The flow key comes from the IPv4 header, or else from the IPv6 header (next-header field as protocol). Packets with neither header are not counted in any flow but still go into the raw buffer.
- Files, pickle, TinyDB and pcap writing are left out:
  - The outcome of saving or loading is a parameter (`saveOk`, `StoredFile`).
  - The profile logs are sequences held by the profile.
  - The `os.makedirs` failures of `turn_on` and `_handle_anomaly` are folded into the `StartOutcome` of turning a detector on and into `AnomalyEnv.makedirsOk` for an anomaly.
- DetectorManager.DetectorProfilesManager.AddProfile and ScannerManager.ScannerProfilesManager.AddProfile do not model a failing `os.makedirs` in the profile constructors (src/streamml/back/detector_profile_HST.py:40, src/netmonitor/back/scanner_profile.py:26). `add_profile` calls them with no `try` (src/streamml/back/detector_profiles_manager.py:84, src/netmonitor/back/scanner_profiles_manager.py:78), so that error escapes as an exception with the list unchanged. The model's `AddProfile` always returns `Success` or a `Fail`.
  - Whether a pickle save succeeds is the `saveOk` parameter; `DetectorManager.SaveSucceedsAsWritten` and `SaveSucceeds` state what it depends on.
- Running nmap is left out. The analysed result and its text rendering (`str(results)`) are parameters of `Scan`.
- APScheduler jobs are a set of job ids. Cron parsing is a `cronValid` parameter.
- Notification sending (a Discord webhook) is left out:
  - The scanner's `Scan` and `HandleNotification` return the message text that would be sent.
  - The detector's `AnomalyResponse` carries only the `notify` flag. The text of the message (detector_profile_HST.py:172-174: the profile name, the score to four decimals and the pcap file name) is not modelled.
- `ScannerProfilesManager.run_profile_once` is not modelled. It only calls `scan` and catches its exceptions, and running nmap is outside the model.
- Textual widgets are not modelled. The forms' widget values are a `FormValues` datatype, and an unset Select is modelled as an empty interface. `update_selected_view`, the button handlers and message callbacks are UI plumbing and are left out.
- `to_dict`, `__repr__`, `get_runtime_stats` and `clear_logs` are not modelled. They have no behaviour beyond reading fields.
- Both managers' `update_profile` set any attribute by name (`setattr`). The model allows only these fields:
  - detector: `notify_enabled` and `threshold` (the detector UI itself sets `notify_enabled` directly on the profile and then saves);
  - scanner: `nmap_input`, `cve`, `notify_enabled` and `notify_only_cve`.
- Scanner.BuildSummary: the `except` path that appends "(Error building summary: …)" is not modelled. The result datatype always has the shape the loop reads.
- ScannerForm.FormCommandsAgree assumes that `shlex.split` gives back the words of the space-joined arguments. This holds for words without quotes or spaces, and shlex itself is not modelled.
- Unicode case folding is not modelled. `lower()` folds ASCII letters only.
- Unicode whitespace is not modelled: `strip()` and `split()` treat only the ASCII whitespace characters (space, `\t`, `\n`, `\r`, `\v`, `\f` and `\x1c`-`\x1f`) as whitespace, not `\x85`, `\xa0`, `\u1680`, `\u2000`-`\u200a`, `\u2028`, `\u2029`, `\u202f`, `\u205f` or `\u3000`.
- ScoreWindow, HandleAnomaly, HandleOutcome and ProcessStep log every anomaly with the intended insert (`AppendLog`), not with `if self.db:` as written, which never inserts into an empty log (see Findings, `Detector.EmptyLogStaysEmpty`).
- ScoreWindow, HandleAnomaly, HandleOutcome and ProcessStep create the profile's own pcap directory (see Findings, `Detector.PcapNeverSavedAsWritten`); other `wrpcap` failures are caught in the code and not modelled.
- AnomalyResponseFacts: the two `time.time()` readings and the `strftime` text are parameters (`now`, `AnomalyEnv.stamp`); `:.2f` is modelled on exact reals with ties to even, not on the binary value of a float.
- Restore models the intended `__getstate__`, which drops `sniffer`; as written a profile that was turned on cannot be saved at all (see Findings).
- DetectorProfile: the sniffer's own failures after it has started (in its capture thread) are not modelled; a sniffer counts as running from a successful `start()` until `stop()`.

## Findings

| source | as written | input that shows it | evidently intended | confidence | as-written member | corrected member |
|---|---|---|---|---|---|---|
| src/streamml/back/detector_profile_HST.py:176 | `if self.db:` guards the insert of an anomaly record. A TinyDB with no documents has length 0 and is falsy, so a profile whose log is empty never inserts anything. | a new profile (empty log) whose first window scores above the threshold: no record is written, and the log stays empty for ever | insert the record whenever a database exists (`if self.db is not None:`) | high, not executed | Detector.EmptyLogStaysEmpty | Detector.AppendAllKeepsEveryRecord |
| src/streamml/back/detector_profile_HST.py:77 | `__getstate__` removes `sniffer_thread`, but `turn_on` stores the capture handle in `sniffer` (line 100). | turn a profile on, then add another profile: the saved state still holds the started `AsyncSniffer` (a thread and callbacks), which pickle refuses, so this and every later save fails and `add_profile` rolls back | remove `sniffer` together with the other runtime attributes | medium, not executed | DetectorManager.SaveFailsAfterTurnOnAsWritten | DetectorManager.SaveSucceedsIffWritable |
| src/streamml/back/detector_profile_HST.py:163 | `os.makedirs(os.path.dirname(f"{PCAP_PATH}/{self.profile_name}"))` creates `PCAP_PATH`, while the file is written into `PCAP_PATH/<profile>`, which nothing creates; `wrpcap`'s failure is caught and printed. | any anomaly of a profile whose pcap directory does not exist yet: no pcap is saved, yet the record and the notification name the file | create the profile's own directory (`os.makedirs(f"{PCAP_PATH}/{self.profile_name}")`) | high, not executed | Detector.PcapNeverSavedAsWritten | Detector.PcapSavedWithProfileDir |
