/** `ScannerProfile` (src/netmonitor/back/scanner_profile.py): one saved nmap scan. The model
    keeps what `scan` hands to nmap, the record it logs, the notification it sends, and the two
    lazily created handles. Running nmap is replaced by its analysed result, passed in. */
module Scanner {
  import opened Wrappers
  import opened Text

  /** The `nmap_input` dictionary: each of its three keys present or absent. */
  datatype NmapInput = NmapInput(targets: Option<string>, arguments: Option<string>, ports: Option<string>)

  const EmptyInput := NmapInput(None, None, None)

  /** The arguments of `PortScanner.scan`: the hosts, the ports when they are passed at all, and
      the argument string. */
  datatype ScanRequest = ScanRequest(hosts: string, ports: Option<string>, arguments: string)

  const VulnersScript := " --script=vulners "

  /** What `scan` passes to nmap for a given `nmap_input` and `cve` flag. */
  function ScanRequestOf(input: NmapInput, cve: bool): ScanRequest {
    var arguments := input.arguments.GetOr("");
    var ports := input.ports.GetOr("");
    ScanRequest(input.targets.GetOr(""), if ports == "" then None else Some(ports),
                if cve then arguments + VulnersScript else arguments)
  }

  /** The vulners script is added exactly when `cve` is set, after the stored arguments, which are
      otherwise passed unchanged; ports are passed only when given and non-empty. */
  lemma ScanRequestFacts(input: NmapInput, cve: bool)
    ensures var req := ScanRequestOf(input, cve);
      && (cve ==> req.arguments == input.arguments.GetOr("") + VulnersScript)
      && (!cve ==> req.arguments == input.arguments.GetOr(""))
      && (cve <==> |req.arguments| >= |VulnersScript|
                   && req.arguments[|req.arguments| - |VulnersScript|..] == VulnersScript
                   && req.arguments[..|req.arguments| - |VulnersScript|] == input.arguments.GetOr(""))
      && (req.ports.None? <==> input.ports.None? || input.ports == Some(""))
      && (req.ports.Some? ==> req.ports == input.ports)
      && req.hosts == input.targets.GetOr("")
  {
    var req := ScanRequestOf(input, cve);
    var a := input.arguments.GetOr("");
    if cve {
      assert (a + VulnersScript)[|a|..] == VulnersScript;
      assert (a + VulnersScript)[..|a|] == a;
    } else if |a| >= |VulnersScript| && a[|a| - |VulnersScript|..] == VulnersScript {
      assert |a[..|a| - |VulnersScript|]| < |a|;
    }
  }

  /** One port of a host in the analysed result, with its `state` when it has one. */
  datatype PortInfo = PortInfo(port: nat, state: Option<string>)

  /** One `osmatch` entry, with its `name` when it has one. */
  datatype OsMatch = OsMatch(name: Option<string>)

  /** One host of `results['scan']`, with its `tcp`, `udp` and `osmatch` entries when present. */
  datatype HostResult = HostResult(host: string, tcp: Option<seq<PortInfo>>, udp: Option<seq<PortInfo>>,
                                   osmatch: Option<seq<OsMatch>>)

  /** The analysed scan: its `scan` entry when present, and the `_timestamp` that `scan` adds. */
  datatype ScanResults = ScanResults(hosts: Option<seq<HostResult>>, timestamp: Option<string>)

  /** `f"{p}/tcp"`. */
  function PortLabel(port: nat, proto: string): string {
    NatToString(port) + "/" + proto
  }

  /** Different port numbers get different labels. */
  lemma PortLabelInjective(m: nat, n: nat, proto: string)
    requires PortLabel(m, proto) == PortLabel(n, proto)
    ensures m == n
  {
    var a := NatToString(m);
    var b := NatToString(n);
    var tail := "/" + proto;
    assert PortLabel(m, proto) == a + tail && PortLabel(n, proto) == b + tail;
    assert a == (a + tail)[..|a|];
    assert b == (b + tail)[..|b|];
    NatToStringInjective(m, n);
  }

  /** The labels of the open ports, in the order nmap listed them. */
  function OpenPorts(infos: seq<PortInfo>, proto: string): seq<string> {
    if infos == [] then []
    else
      var rest := OpenPorts(infos[1..], proto);
      if infos[0].state == Some("open") then [PortLabel(infos[0].port, proto)] + rest else rest
  }

  /** A port is listed exactly when it is open: a label appears iff some entry with that port
      number has state "open". */
  lemma {:induction false} OpenPortsExact(infos: seq<PortInfo>, proto: string, port: nat)
    ensures PortLabel(port, proto) in OpenPorts(infos, proto) <==>
      exists i :: 0 <= i < |infos| && infos[i].port == port && infos[i].state == Some("open")
  {
    if infos != [] {
      OpenPortsExact(infos[1..], proto, port);
      if infos[0].state == Some("open") && PortLabel(infos[0].port, proto) == PortLabel(port, proto) {
        PortLabelInjective(infos[0].port, port, proto);
      }
      if exists i :: 0 <= i < |infos| && infos[i].port == port && infos[i].state == Some("open") {
        var i :| 0 <= i < |infos| && infos[i].port == port && infos[i].state == Some("open");
        if i > 0 {
          assert infos[1..][i - 1] == infos[i];
        }
      }
    }
  }

  function TcpLine(h: HostResult): string {
    match h.tcp
    case None => ""
    case Some(ps) =>
      var open := OpenPorts(ps, "tcp");
      if open == [] then "" else "\n   Open ports: " + Join(open, ", ")
  }

  function UdpLine(h: HostResult): string {
    match h.udp
    case None => ""
    case Some(ps) =>
      var open := OpenPorts(ps, "udp");
      if open == [] then "" else "\n   Open ports (UDP): " + Join(open, ", ")
  }

  function OsLine(h: HostResult): string {
    match h.osmatch
    case Some(ms) => if ms == [] then "" else "\n   OS detected: " + ms[0].name.GetOr("Unknown")
    case None => ""
  }

  /** The lines the summary gives one host. */
  function HostSummary(h: HostResult): string {
    "\n *" + h.host + "*" + TcpLine(h) + UdpLine(h) + OsLine(h)
  }

  /** The summary of all hosts, in the order of the result. */
  function HostsSummary(hs: seq<HostResult>): string {
    if hs == [] then "" else HostsSummary(hs[..|hs| - 1]) + HostSummary(hs[|hs| - 1])
  }

  lemma HostsSummarySnoc(hs: seq<HostResult>, i: nat)
    requires i < |hs|
    ensures HostsSummary(hs[..i + 1]) == HostsSummary(hs[..i]) + HostSummary(hs[i])
  {
    assert hs[..i + 1][..i] == hs[..i];
  }

  function SummaryOf(results: ScanResults): string {
    match results.hosts
    case None => ""
    case Some(hs) => HostsSummary(hs)
  }

  /** The summary is empty exactly when the result lists no host; every listed host contributes
      its own block, which starts with the host's name. */
  lemma {:induction false} SummaryEmptyIffNoHosts(hs: seq<HostResult>)
    ensures HostsSummary(hs) == "" <==> hs == []
    ensures hs != [] ==> StartsWith(HostsSummary(hs), "\n *" + hs[0].host + "*")
  {
    if hs != [] {
      var init := hs[..|hs| - 1];
      SummaryEmptyIffNoHosts(init);
      var prefix := "\n *" + hs[0].host + "*";
      if init == [] {
        assert hs[0] == hs[|hs| - 1];
        assert HostSummary(hs[0])[..|prefix|] == prefix;
      } else {
        assert init[0] == hs[0];
        assert HostsSummary(hs)[..|prefix|] == HostsSummary(init)[..|prefix|];
      }
    }
  }

  /** Whether the result text mentions a vulnerability: "cve" or "vulnerab", in any case. */
  predicate FoundIssues(text: string) {
    Contains(Lower(text), "cve") || Contains(Lower(text), "vulnerab")
  }

  /** The test ignores case: "CVE" or "Vulnerable" in the text is found. */
  lemma FoundIssuesIgnoresCase(text: string)
    ensures Contains(text, "CVE") ==> FoundIssues(text)
    ensures Contains(text, "cve") ==> FoundIssues(text)
    ensures Contains(text, "Vulnerab") ==> FoundIssues(text)
  {
    if Contains(text, "CVE") {
      ContainsLower(text, "CVE");
      assert Lower("CVE") == "cve";
    }
    if Contains(text, "cve") {
      ContainsLower(text, "cve");
      assert Lower("cve") == "cve";
    }
    if Contains(text, "Vulnerab") {
      ContainsLower(text, "Vulnerab");
      assert Lower("Vulnerab") == "vulnerab";
    }
  }

  function Header(name: string, targets: string): string {
    "*Scanner report: " + name + "*\nTargets: `" + targets + "`"
  }

  /** The message before truncation, or nothing when none is sent. */
  function MessageOf(name: string, targets: string, text: string, summary: string, onlyCve: bool): Option<string> {
    var header := Header(name, targets);
    if onlyCve then
      if FoundIssues(text) then Some(header + "\nCVE detected!" + "\n---" + summary) else None
    else
      Some(header + "\nScan completed."
           + (if FoundIssues(text) then "\nPotential vulnerabilities detected." else "")
           + (if summary != "" then "\n---" + summary else ""))
  }

  const MessageLimit := 1900
  const Ellipsis := "\n...."

  /** The cut applied to a message longer than 1900 characters. */
  function Truncate(msg: string): string {
    if |msg| > MessageLimit then msg[..MessageLimit] + Ellipsis else msg
  }

  /** The message sent for one scan, or nothing. */
  function NotificationOf(name: string, targets: string, text: string, summary: string, onlyCve: bool): Option<string> {
    match MessageOf(name, targets, text, summary, onlyCve)
    case None => None
    case Some(m) => Some(Truncate(m))
  }

  /** With "only CVE" set a message goes out exactly when an issue is found; without it, always. */
  lemma NotificationSentIff(name: string, targets: string, text: string, summary: string, onlyCve: bool)
    ensures NotificationOf(name, targets, text, summary, onlyCve).Some? <==> !onlyCve || FoundIssues(text)
  {
  }

  /** The sent message is at most 1905 characters; a message of at most 1900 is sent unchanged,
      and a longer one keeps its first 1900 characters. */
  lemma TruncateBounds(msg: string)
    ensures |Truncate(msg)| <= MessageLimit + |Ellipsis|
    ensures |msg| <= MessageLimit ==> Truncate(msg) == msg
    ensures |msg| > MessageLimit ==> StartsWith(Truncate(msg), msg[..MessageLimit]) && |Truncate(msg)| == 1905
  {
  }

  /** Every message starts with the header naming the profile and the targets, and keeps it
      through the cut as long as the header itself fits in 1900 characters. */
  lemma NotificationStartsWithHeader(name: string, targets: string, text: string, summary: string, onlyCve: bool)
    requires |Header(name, targets)| <= MessageLimit
    ensures NotificationOf(name, targets, text, summary, onlyCve).Some? ==>
      StartsWith(NotificationOf(name, targets, text, summary, onlyCve).value, Header(name, targets))
  {
    var h := Header(name, targets);
    var m := MessageOf(name, targets, text, summary, onlyCve);
    if m.Some? {
      var rest := m.value[|h|..];
      assert m.value[..|h|] == h;
      if |m.value| > MessageLimit {
        assert Truncate(m.value)[..|h|] == m.value[..|h|];
      }
    }
  }

  /** nmap's `PortScanner` and the TinyDB log: only their identity matters here. */
  class PortScanner {
    constructor () { }
  }

  class LogDb {
    constructor () { }
  }

  class ScannerProfile {
    const profileName: string
    var nmapInput: NmapInput
    var scheduler: Option<string>
    var cve: bool
    var isActive: bool
    var notifyEnabled: bool
    var notifyOnlyCve: bool
    var nm: Option<PortScanner>
    var db: Option<LogDb>
    /** The records in the profile's log file. */
    var logs: seq<ScanResults>

    /** `ScannerProfile(profile_name)`, whose log file already holds `storedLogs`. */
    constructor (name: string, storedLogs: seq<ScanResults>)
      ensures profileName == name && nmapInput == EmptyInput && scheduler.None? && !cve
      ensures !isActive && !notifyEnabled && !notifyOnlyCve && nm.None? && db.None?
      ensures logs == storedLogs
    {
      profileName := name;
      nmapInput := EmptyInput;
      scheduler := None;
      cve := false;
      isActive := false;
      notifyEnabled := false;
      notifyOnlyCve := false;
      nm := None;
      db := None;
      logs := storedLogs;
    }

    /** The `nmap` property: the scanner is created on first use and the same one returned after. */
    method Nmap() returns (h: PortScanner)
      modifies this`nm
      ensures old(nm).Some? ==> h == old(nm).value && nm == old(nm)
      ensures old(nm).None? ==> fresh(h) && nm == Some(h)
    {
      if nm.None? {
        var created := new PortScanner();
        nm := Some(created);
      }
      h := nm.value;
    }

    /** The `tinydb` property: the same create-once behaviour. */
    method TinyDb() returns (h: LogDb)
      modifies this`db
      ensures old(db).Some? ==> h == old(db).value && db == old(db)
      ensures old(db).None? ==> fresh(h) && db == Some(h)
    {
      if db.None? {
        var created := new LogDb();
        db := Some(created);
      }
      h := db.value;
    }

    /** `scan()`, where nmap's analysed output is `analysed`, `stamp` the current time as text,
        and `render` Python's `str` of a result. Returns what nmap was asked, the stored result,
        and the notification sent, if any. The stored `nmap_input` is left as it was. */
    method Scan(analysed: ScanResults, stamp: string, render: ScanResults -> string)
      returns (req: ScanRequest, results: ScanResults, note: Option<string>)
      modifies this`nm, this`db, this`logs
      ensures req == ScanRequestOf(nmapInput, cve)
      ensures results == analysed.(timestamp := Some(stamp))
      ensures logs == old(logs) + [results]
      ensures notifyEnabled ==>
        note == NotificationOf(profileName, nmapInput.targets.GetOr(""), render(results), SummaryOf(results), notifyOnlyCve)
      ensures !notifyEnabled ==> note.None?
      ensures nm.Some? && db.Some?
    {
      var targets := nmapInput.targets.GetOr("");
      var arguments := nmapInput.arguments.GetOr("");
      var ports := nmapInput.ports.GetOr("");
      if cve {
        arguments := arguments + VulnersScript;
      }
      var scanner := Nmap();
      if ports == "" {
        req := ScanRequest(targets, None, arguments);
      } else {
        req := ScanRequest(targets, Some(ports), arguments);
      }
      results := analysed.(timestamp := Some(stamp));
      var store := TinyDb();
      logs := logs + [results];
      note := None;
      if notifyEnabled {
        note := HandleNotification(results, targets, render);
      }
    }

    /** `_handle_notification(results, targets)`: the message that is sent, if any. */
    method HandleNotification(results: ScanResults, targets: string, render: ScanResults -> string)
      returns (note: Option<string>)
      ensures note == NotificationOf(profileName, targets, render(results), SummaryOf(results), notifyOnlyCve)
    {
      var found := FoundIssues(render(results));
      var msg := Header(profileName, targets);
      var summary := BuildSummary(results);
      var shouldSend := false;
      if notifyOnlyCve {
        if found {
          shouldSend := true;
          msg := msg + "\nCVE detected!";
          msg := msg + "\n---" + summary;
          assert msg == Header(profileName, targets) + "\nCVE detected!" + "\n---" + summary;
        }
      } else {
        shouldSend := true;
        msg := msg + "\nScan completed.";
        ghost var completed := msg;
        if found {
          msg := msg + "\nPotential vulnerabilities detected.";
        } else {
          assert msg == completed + "";
        }
        ghost var before := msg;
        assert before == completed + (if found then "\nPotential vulnerabilities detected." else "");
        if summary != "" {
          msg := msg + "\n---" + summary;
          assert msg == before + ("\n---" + summary);
        } else {
          assert msg == before + "";
        }
      }
      if !shouldSend {
        return None;
      }
      assert Some(msg) == MessageOf(profileName, targets, render(results), summary, notifyOnlyCve);
      if |msg| > MessageLimit {
        msg := msg[..MessageLimit] + Ellipsis;
      }
      return Some(msg);
    }

    /** `get_logs()`: the stored records, opening the log on first use. */
    method GetLogs() returns (records: seq<ScanResults>)
      modifies this`db
      ensures records == logs && db.Some?
    {
      var store := TinyDb();
      records := logs;
    }

    /** `__getstate__` followed by `__setstate__`: both handles are dropped, and everything else
        is kept. */
    method Restore()
      modifies this`nm, this`db
      ensures nm.None? && db.None?
    {
      nm := None;
      db := None;
    }
  }

  /** The summary loop of `_handle_notification`: one block per host, in order. */
  method BuildSummary(results: ScanResults) returns (summary: string)
    ensures summary == SummaryOf(results)
  {
    summary := "";
    if results.hosts.None? {
      return;
    }
    var hs := results.hosts.value;
    var i := 0;
    while i < |hs|
      invariant 0 <= i <= |hs|
      invariant summary == HostsSummary(hs[..i])
    {
      summary := AppendHost(summary, hs[i]);
      HostsSummarySnoc(hs, i);
      i := i + 1;
    }
    assert hs[..|hs|] == hs;
  }

  /** The body of the summary loop for one host: its name, then its open TCP ports, its open UDP
      ports and its detected system, each line only when there is something to say. */
  method AppendHost(summary0: string, h: HostResult) returns (summary: string)
    ensures summary == summary0 + HostSummary(h)
  {
    summary := summary0 + "\n *" + h.host + "*";
    assert summary == summary0 + ("\n *" + h.host + "*");
    summary := summary + TcpLine(h);
    assert summary == summary0 + ("\n *" + h.host + "*" + TcpLine(h));
    summary := summary + UdpLine(h);
    assert summary == summary0 + ("\n *" + h.host + "*" + TcpLine(h) + UdpLine(h));
    summary := summary + OsLine(h);
  }
}
