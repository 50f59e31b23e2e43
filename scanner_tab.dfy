/** `ScannerTab` (src/netmonitor/front/scanner_tab.py): checking an nmap request before it is
    run, and assembling it from the form, as a dictionary or as a command line. The widget values
    are parameters, and `int(...)`, `ipaddress.ip_network(...)` and `shlex.split(...)` are
    partial functions passed in. */
module ScannerForm {
  import opened Wrappers
  import opened Text

  /** The keys of an nmap request dictionary. */
  datatype Key = TargetsKey | ArgumentsKey | PortsKey

  function KeyName(k: Key): string {
    match k
    case TargetsKey => "targets"
    case ArgumentsKey => "arguments"
    case PortsKey => "ports"
  }

  /** An nmap request as a dictionary from those keys to strings. */
  type NmapDict = map<Key, string>

  /** `d.get(key, default)`. */
  function Get(d: NmapDict, key: Key, default: string): string {
    if key in d then d[key] else default
  }

  /** The library calls the tab relies on: `int(s)` (None where it raises `ValueError`),
      whether `ipaddress.ip_network(s, strict=False)` accepts `s`, and `shlex.split(s)` with the
      message of the `ValueError` it raises on unbalanced quotes. */
  datatype Parsers = Parsers(
    parseInt: string -> Option<int>,
    isNetwork: string -> bool,
    shlexSplit: string -> Result<seq<string>, string>)

  /** The errors `validate_inputs` reports; `Message` gives the text shown. */
  datatype ValidationError =
    | CveRequired
    | TargetsEmpty
    | InvalidNetwork(targets: string)
    | RangeOutOfBounds
    | RangeReversed
    | RangeNotNumbers
    | PortOutOfBounds
    | PortNotNumber
    | DryRunFailed(error: string)

  /** "Błąd weryfikacji komendy: " ("command check error"). */
  const DryRunPrefix: string := "B\U{0142}\U{0105}d weryfikacji komendy: "

  function Message(e: ValidationError): string {
    match e
    case CveRequired => "To check for CVE's, '-sV' option is required"
    case TargetsEmpty => "IP field cannot be empty"
    case InvalidNetwork(targets) => "Invalid IP address/CIDR: " + targets
    case RangeOutOfBounds => "Ports must be in range 1-65535"
    case RangeReversed => "Start port cannot be greater than end port"
    case RangeNotNumbers => "Ports (range) must be numbers"
    case PortOutOfBounds => "Port must be in range 1-65535"
    case PortNotNumber => "Port must be a number"
    case DryRunFailed(error) => DryRunPrefix + error
  }

  /** `str(KeyError('targets'))`: the key's name in quotes. */
  function MissingKeyMessage(k: Key): string {
    "'" + KeyName(k) + "'"
  }

  predicate InPortRange(n: int) {
    1 <= n <= 65535
  }

  // ---------------------------------------------------------------- validate_inputs

  /** With the CVE box ticked, `-sV` must be one of the whitespace-separated arguments. */
  predicate CveArgumentsOk(d: NmapDict, cveChecked: bool) {
    cveChecked ==> "-sV" in Words(Get(d, ArgumentsKey, ""))
  }

  /** `low, high = map(int, port_str.split("-"))`: both ends when there are exactly two parts
      and both parse. Python evaluates the `int` of any extra part too, but every way this
      fails is a `ValueError`, so only success matters. */
  function ParseRange(portStr: string, ps: Parsers): Option<(int, int)> {
    var parts := Split(portStr, '-');
    if |parts| == 2 && ps.parseInt(parts[0]).Some? && ps.parseInt(parts[1]).Some? then
      Some((ps.parseInt(parts[0]).value, ps.parseInt(parts[1]).value))
    else None
  }

  /** The errors of a port range: the bounds check and the order check are independent. */
  function RangeErrors(portStr: string, ps: Parsers): seq<ValidationError> {
    match ParseRange(portStr, ps)
    case None => [RangeNotNumbers]
    case Some((low, high)) =>
      (if InPortRange(low) && InPortRange(high) then [] else [RangeOutOfBounds])
      + (if low > high then [RangeReversed] else [])
  }

  function SinglePortErrors(portStr: string, ps: Parsers): seq<ValidationError> {
    match ps.parseInt(portStr)
    case None => [PortNotNumber]
    case Some(port) => if InPortRange(port) then [] else [PortOutOfBounds]
  }

  /** The errors of the "ports" entry, if there is one: a range when it holds a dash. */
  function PortErrors(d: NmapDict, ps: Parsers): seq<ValidationError> {
    if PortsKey !in d then []
    else if '-' in d[PortsKey] then RangeErrors(d[PortsKey], ps)
    else SinglePortErrors(d[PortsKey], ps)
  }

  /** The command `dry_run_nmap_command` builds, or the message of the exception building it
      raises: `shlex.split` on the arguments first, then the missing "targets" key. */
  function DryRunCommand(d: NmapDict, ps: Parsers): Result<seq<string>, string> {
    var args := if ArgumentsKey in d then ps.shlexSplit(d[ArgumentsKey]) else Ok([]);
    match args
    case Err(e) => Err(e)
    case Ok(tokens) =>
      var ports := if PortsKey in d then ["-p", d[PortsKey]] else [];
      if TargetsKey in d then Ok(["nmap"] + tokens + ports + [d[TargetsKey]])
      else Err(MissingKeyMessage(TargetsKey))
  }

  /** `dry_run_nmap_command`: None, or the exception's message, shown with a prefix. */
  function DryRunError(d: NmapDict, ps: Parsers): Option<ValidationError> {
    match DryRunCommand(d, ps)
    case Ok(_) => None
    case Err(e) => Some(DryRunFailed(e))
  }

  /** The errors collected once the first three checks pass: the port errors, then the dry run's. */
  function LateErrors(d: NmapDict, ps: Parsers): seq<ValidationError> {
    PortErrors(d, ps) + match DryRunError(d, ps) case Some(e) => [e] case None => []
  }

  /** `validate_inputs`: the CVE, target and network checks each stop at their own error; the
      port errors and the dry-run error are collected. `userCommandText` is the manual-command
      input as typed. */
  function ValidationErrors(d: NmapDict, cveChecked: bool, userCommandText: string, ps: Parsers): seq<ValidationError> {
    if !CveArgumentsOk(d, cveChecked) then [CveRequired]
    else TargetErrors(d, userCommandText, ps)
  }

  /** The errors once the CVE check passes: the targets must be filled in and, without a manual
      command, name a network. */
  function TargetErrors(d: NmapDict, userCommandText: string, ps: Parsers): seq<ValidationError> {
    var targets := Strip(Get(d, TargetsKey, ""));
    if targets == "" then [TargetsEmpty]
    else if Strip(userCommandText) == "" && !ps.isNetwork(targets) then [InvalidNetwork(targets)]
    else LateErrors(d, ps)
  }

  /** `validate_inputs` as the tab runs it: appending to `errors`, with early returns. */
  method ValidateInputs(d: NmapDict, cveChecked: bool, userCommandText: string, ps: Parsers)
    returns (errors: seq<ValidationError>)
    ensures errors == ValidationErrors(d, cveChecked, userCommandText, ps)
  {
    if cveChecked {
      var args := Get(d, ArgumentsKey, "");
      if "-sV" !in Words(args) {
        return [CveRequired];
      }
    }
    errors := CheckTargets(d, userCommandText, ps);
  }

  /** The checks of `validate_inputs` past the CVE one. */
  method CheckTargets(d: NmapDict, userCommandText: string, ps: Parsers) returns (errors: seq<ValidationError>)
    ensures errors == TargetErrors(d, userCommandText, ps)
  {
    errors := [];
    var targets := Strip(Get(d, TargetsKey, ""));
    if targets == "" {
      errors := errors + [TargetsEmpty];
      return;
    }
    if Strip(userCommandText) == "" {
      if !ps.isNetwork(targets) {
        errors := errors + [InvalidNetwork(targets)];
        return;
      }
    }
    var portErrors := CheckPorts(d, ps);
    errors := errors + portErrors;
    var dryRunErr := DryRunError(d, ps);
    if dryRunErr.Some? {
      errors := errors + [dryRunErr.value];
    }
    assert errors == LateErrors(d, ps);
  }

  /** The port checks of `validate_inputs`, appending to `errors`. */
  method CheckPorts(d: NmapDict, ps: Parsers) returns (errors: seq<ValidationError>)
    ensures errors == PortErrors(d, ps)
  {
    errors := [];
    if PortsKey in d {
      var portStr := d[PortsKey];
      if '-' in portStr {
        var parts := Split(portStr, '-');
        if |parts| == 2 && ps.parseInt(parts[0]).Some? && ps.parseInt(parts[1]).Some? {
          var low := ps.parseInt(parts[0]).value;
          var high := ps.parseInt(parts[1]).value;
          if !(InPortRange(low) && InPortRange(high)) {
            errors := errors + [RangeOutOfBounds];
          }
          if low > high {
            errors := errors + [RangeReversed];
          }
        } else {
          errors := errors + [RangeNotNumbers];
        }
      } else {
        var port := ps.parseInt(portStr);
        if port.None? {
          errors := errors + [PortNotNumber];
        } else if !InPortRange(port.value) {
          errors := errors + [PortOutOfBounds];
        }
      }
    }
  }

  /** The first three checks stop at their own single error. */
  lemma ValidationStopsEarly(d: NmapDict, cveChecked: bool, userCommandText: string, ps: Parsers)
    ensures !CveArgumentsOk(d, cveChecked) ==>
      ValidationErrors(d, cveChecked, userCommandText, ps) == [CveRequired]
    ensures CveArgumentsOk(d, cveChecked) && IsBlank(Get(d, TargetsKey, "")) ==>
      ValidationErrors(d, cveChecked, userCommandText, ps) == [TargetsEmpty]
    ensures
      && CveArgumentsOk(d, cveChecked) && !IsBlank(Get(d, TargetsKey, ""))
      && IsBlank(userCommandText) && !ps.isNetwork(Strip(Get(d, TargetsKey, "")))
      ==> ValidationErrors(d, cveChecked, userCommandText, ps)
          == [InvalidNetwork(Strip(Get(d, TargetsKey, "")))]
  {
    StripEmptyIffBlank(Get(d, TargetsKey, ""));
    StripEmptyIffBlank(userCommandText);
  }

  /** A request passes exactly when every check does; a manual command skips the network
      check. */
  lemma ValidationPassesIff(d: NmapDict, cveChecked: bool, userCommandText: string, ps: Parsers)
    ensures ValidationErrors(d, cveChecked, userCommandText, ps) == [] <==>
      && CveArgumentsOk(d, cveChecked)
      && !IsBlank(Get(d, TargetsKey, ""))
      && (IsBlank(userCommandText) ==> ps.isNetwork(Strip(Get(d, TargetsKey, ""))))
      && PortErrors(d, ps) == []
      && DryRunCommand(d, ps).Ok?
  {
    StripEmptyIffBlank(Get(d, TargetsKey, ""));
    StripEmptyIffBlank(userCommandText);
  }

  /** At most two port errors and the dry-run error are reported together, and the dry-run
      error is among them exactly when the earlier checks passed and the dry run failed. */
  lemma ValidationErrorsBound(d: NmapDict, cveChecked: bool, userCommandText: string, ps: Parsers)
    ensures |ValidationErrors(d, cveChecked, userCommandText, ps)| <= 3
    ensures |PortErrors(d, ps)| <= 2
  {
    PortErrorsBound(d, ps);
    assert |LateErrors(d, ps)| <= 3;
  }

  lemma PortErrorsBound(d: NmapDict, ps: Parsers)
    ensures |PortErrors(d, ps)| <= 2
  {
  }

  /** A range reports "must be numbers" alone exactly when it does not parse; otherwise the
      bounds error appears exactly when an end is outside 1..65535 and the order error exactly
      when the start is above the end, so both can appear. */
  lemma RangeErrorsFacts(portStr: string, ps: Parsers)
    ensures ParseRange(portStr, ps).None? <==> RangeErrors(portStr, ps) == [RangeNotNumbers]
    ensures ParseRange(portStr, ps).Some? ==>
      var (low, high) := ParseRange(portStr, ps).value;
      && (RangeOutOfBounds in RangeErrors(portStr, ps) <==> !(InPortRange(low) && InPortRange(high)))
      && (RangeReversed in RangeErrors(portStr, ps) <==> low > high)
      && RangeNotNumbers !in RangeErrors(portStr, ps)
  {
    if ParseRange(portStr, ps).Some? {
      assert RangeNotNumbers !in RangeErrors(portStr, ps);
      assert RangeNotNumbers in [RangeNotNumbers];
    }
  }

  /** A dash-separated string with other than two parts, such as "1-2-3", never parses as a
      range. */
  lemma ExtraDashIsNotARange(portStr: string, ps: Parsers)
    requires |Split(portStr, '-')| != 2
    ensures RangeErrors(portStr, ps) == [RangeNotNumbers]
  {
  }

  /** A single port passes exactly when it parses to a number in 1..65535. */
  lemma SinglePortFacts(portStr: string, ps: Parsers)
    ensures SinglePortErrors(portStr, ps) == [] <==>
      ps.parseInt(portStr).Some? && InPortRange(ps.parseInt(portStr).value)
    ensures ps.parseInt(portStr).None? <==> SinglePortErrors(portStr, ps) == [PortNotNumber]
  {
  }

  /** The dry run fails exactly when `shlex.split` rejects the arguments or there are no
      targets, and its message carries the prefix. */
  lemma DryRunFacts(d: NmapDict, ps: Parsers)
    ensures DryRunError(d, ps).None? <==>
      TargetsKey in d && (ArgumentsKey in d ==> ps.shlexSplit(d[ArgumentsKey]).Ok?)
    ensures DryRunError(d, ps).Some? ==> StartsWith(Message(DryRunError(d, ps).value), DryRunPrefix)
    ensures DryRunCommand(d, ps).Ok? ==>
      var cmd := DryRunCommand(d, ps).value;
      |cmd| >= 2 && cmd[0] == "nmap" && cmd[|cmd| - 1] == d[TargetsKey]
  {
    if DryRunError(d, ps).Some? {
      var e := DryRunCommand(d, ps).error;
      assert Message(DryRunFailed(e))[..|DryRunPrefix|] == DryRunPrefix;
    }
  }

  // ---------------------------------------------------------------- get_nmap_input

  /** The form's widget values as typed: the manual command, the two port inputs, the chosen
      interface ("" when there is none), the targets and the ticked options in order. */
  datatype FormValues = FormValues(
    userCommand: string,
    lowPort: string,
    highPort: string,
    interface: string,
    targets: string,
    options: seq<string>)

  /** The values `get_nmap_input` works with: the four text inputs stripped. */
  function FieldsOf(form: FormValues): (f: FormValues)
    ensures f.interface == form.interface && f.options == form.options
    ensures f.userCommand == "" <==> IsBlank(form.userCommand)
    ensures f.lowPort == "" <==> IsBlank(form.lowPort)
    ensures f.highPort == "" <==> IsBlank(form.highPort)
    ensures f.targets == "" <==> IsBlank(form.targets)
  {
    StripEmptyIffBlank(form.userCommand);
    StripEmptyIffBlank(form.lowPort);
    StripEmptyIffBlank(form.highPort);
    StripEmptyIffBlank(form.targets);
    form.(userCommand := Strip(form.userCommand), lowPort := Strip(form.lowPort),
          highPort := Strip(form.highPort), targets := Strip(form.targets))
  }

  /** `get_nmap_input` returns a dictionary or an argument list. */
  datatype NmapInput = AsDict(dict: NmapDict) | AsList(args: seq<string>)

  /** "low-high", or "low" when the high end is blank. */
  function PortSpec(low: string, high: string): string {
    if high != "" then low + "-" + high else low
  }

  function InterfaceTokens(iface: string): seq<string> {
    if iface != "" then ["-e", iface] else []
  }

  function PortTokens(low: string, high: string): seq<string> {
    if low != "" then ["-p", PortSpec(low, high)] else []
  }

  /** The argument tokens of the form dictionary: the options, then the interface. */
  function ArgTokens(f: FormValues): seq<string> {
    f.options + InterfaceTokens(f.interface)
  }

  /** A leading "sudo" is dropped, then a leading "nmap". */
  function DropLeading(parts: seq<string>): seq<string> {
    var afterSudo := if parts != [] && parts[0] == "sudo" then parts[1..] else parts;
    if afterSudo != [] && afterSudo[0] == "nmap" then afterSudo[1..] else afterSudo
  }

  /** The dictionary of a manual command: the last token is the target, the others, joined by
      single spaces, the arguments. */
  function ManualDict(parts: seq<string>): NmapDict {
    var rest := DropLeading(parts);
    if rest == [] then map[]
    else map[TargetsKey := rest[|rest| - 1], ArgumentsKey := Join(rest[..|rest| - 1], " ")]
  }

  /** The dictionary of the (stripped) form fields. Every value is a string, so the final
      comprehension that drops `None` values keeps every entry. */
  function FormDict(f: FormValues): NmapDict {
    var d := map[TargetsKey := f.targets];
    var d := if f.lowPort != "" then d[PortsKey := PortSpec(f.lowPort, f.highPort)] else d;
    if ArgTokens(f) != [] then d[ArgumentsKey := Join(ArgTokens(f), " ")] else d
  }

  /** The command line of the (stripped) form fields. */
  function FormList(f: FormValues): seq<string> {
    ["nmap"] + InterfaceTokens(f.interface) + f.options + PortTokens(f.lowPort, f.highPort) + [f.targets]
  }

  /** `get_nmap_input(return_dict)` on the stripped fields, or the message of the `ValueError`
      that `shlex.split` raises on the manual command. */
  function InputOfFields(f: FormValues, ps: Parsers, returnDict: bool): Result<NmapInput, string> {
    if f.userCommand != "" then
      match ps.shlexSplit(f.userCommand)
      case Err(e) => Err(e)
      case Ok(parts) => if returnDict then Ok(AsDict(ManualDict(parts))) else Ok(AsList(parts))
    else if returnDict then Ok(AsDict(FormDict(f)))
    else Ok(AsList(FormList(f)))
  }

  function NmapInputOf(form: FormValues, ps: Parsers, returnDict: bool): Result<NmapInput, string> {
    InputOfFields(FieldsOf(form), ps, returnDict)
  }

  /** `get_nmap_input` as the tab runs it: strip the text inputs, then build the request. */
  method GetNmapInput(form: FormValues, ps: Parsers, returnDict: bool) returns (r: Result<NmapInput, string>)
    ensures r == NmapInputOf(form, ps, returnDict)
  {
    var fields := form.(userCommand := Strip(form.userCommand), lowPort := Strip(form.lowPort),
                        highPort := Strip(form.highPort), targets := Strip(form.targets));
    r := BuildNmapInput(fields, ps, returnDict);
  }

  /** The body of `get_nmap_input` past the reads: popping the leading tokens, filling the
      dictionary key by key, extending the argument list piece by piece. */
  method BuildNmapInput(f: FormValues, ps: Parsers, returnDict: bool) returns (r: Result<NmapInput, string>)
    ensures r == InputOfFields(f, ps, returnDict)
  {
    if returnDict {
      if f.userCommand != "" {
        var split := ps.shlexSplit(f.userCommand);
        if split.Err? {
          return Err(split.error);
        }
        var parts := split.value;
        if parts != [] && parts[0] == "sudo" {
          parts := parts[1..];
        }
        if parts != [] && parts[0] == "nmap" {
          parts := parts[1..];
        }
        if parts == [] {
          return Ok(AsDict(map[]));
        }
        var target := parts[|parts| - 1];
        var args := parts[..|parts| - 1];
        return Ok(AsDict(map[TargetsKey := target, ArgumentsKey := Join(args, " ")]));
      } else {
        var nmapDict := map[TargetsKey := f.targets];
        if f.lowPort != "" {
          if f.highPort != "" {
            nmapDict := nmapDict[PortsKey := f.lowPort + "-" + f.highPort];
          } else {
            nmapDict := nmapDict[PortsKey := f.lowPort];
          }
        }
        assert nmapDict == if f.lowPort != "" then map[TargetsKey := f.targets][PortsKey := PortSpec(f.lowPort, f.highPort)]
                           else map[TargetsKey := f.targets];
        var args: seq<string> := [];
        if f.options != [] {
          args := args + f.options;
        }
        if f.interface != "" {
          args := args + ["-e", f.interface];
        }
        assert args == ArgTokens(f);
        if args != [] {
          nmapDict := nmapDict[ArgumentsKey := Join(args, " ")];
        }
        return Ok(AsDict(nmapDict));
      }
    }
    if f.userCommand != "" {
      var split := ps.shlexSplit(f.userCommand);
      if split.Err? {
        return Err(split.error);
      }
      return Ok(AsList(split.value));
    }
    var parts := ["nmap"];
    if f.interface != "" {
      parts := parts + ["-e", f.interface];
    }
    assert parts == ["nmap"] + InterfaceTokens(f.interface);
    if f.options != [] {
      parts := parts + f.options;
    }
    assert parts == ["nmap"] + InterfaceTokens(f.interface) + f.options;
    if f.lowPort != "" {
      if f.highPort != "" {
        parts := parts + ["-p", f.lowPort + "-" + f.highPort];
      } else {
        parts := parts + ["-p", f.lowPort];
      }
    }
    assert parts == ["nmap"] + InterfaceTokens(f.interface) + f.options + PortTokens(f.lowPort, f.highPort);
    parts := parts + [f.targets];
    return Ok(AsList(parts));
  }

  /** Only a leading "sudo" and then a leading "nmap" are dropped, and nothing else changes. */
  lemma DropLeadingFacts(parts: seq<string>)
    ensures var rest := DropLeading(parts);
      && |parts| - 2 <= |rest| <= |parts|
      && rest == parts[|parts| - |rest|..]
      && (|rest| == |parts| - 2 ==> parts[0] == "sudo" && parts[1] == "nmap")
      && (|rest| == |parts| - 1 ==> parts[0] == "sudo" || parts[0] == "nmap")
    ensures parts == [] || (parts[0] != "sudo" && parts[0] != "nmap") ==> DropLeading(parts) == parts
    ensures forall rest :: DropLeading(["sudo", "nmap"] + rest) == rest
  {
    forall rest
      ensures DropLeading(["sudo", "nmap"] + rest) == rest
    {
      assert (["sudo", "nmap"] + rest)[1..] == ["nmap"] + rest;
      assert (["nmap"] + rest)[1..] == rest;
    }
  }

  /** A manual command: nothing left after "sudo nmap" gives the empty dictionary; otherwise the
      target is the last token and the arguments split back into the tokens before it when
      none of them holds whitespace. */
  lemma ManualDictFacts(parts: seq<string>)
    ensures DropLeading(parts) == [] <==> ManualDict(parts) == map[]
    ensures var rest := DropLeading(parts);
      rest != [] ==>
        && ManualDict(parts).Keys == {TargetsKey, ArgumentsKey}
        && ManualDict(parts)[TargetsKey] == rest[|rest| - 1]
        && ((forall i :: 0 <= i < |rest| - 1 ==> rest[i] != [] && NoSpace(rest[i])) ==>
              Words(ManualDict(parts)[ArgumentsKey]) == rest[..|rest| - 1])
  {
    var rest := DropLeading(parts);
    if rest != [] {
      var args := rest[..|rest| - 1];
      var m := ManualDict(parts);
      assert m == map[TargetsKey := rest[|rest| - 1], ArgumentsKey := Join(args, " ")];
      assert TargetsKey in m;
      if forall i :: 0 <= i < |rest| - 1 ==> rest[i] != [] && NoSpace(rest[i]) {
        forall i | 0 <= i < |args|
          ensures args[i] != [] && NoSpace(args[i])
        {
          assert args[i] == rest[i];
        }
        WordsOfJoin(args);
      }
    }
  }

  /** The form dictionary: the targets; "ports" exactly when the low port is filled in, as
      "low-high" or "low"; "arguments" exactly when there are options or an interface, splitting
      back into the options followed by "-e" and the interface. */
  lemma FormDictFacts(f: FormValues)
    ensures FormDict(f)[TargetsKey] == f.targets
    ensures PortsKey in FormDict(f) <==> f.lowPort != ""
    ensures PortsKey in FormDict(f) ==> FormDict(f)[PortsKey] == PortSpec(f.lowPort, f.highPort)
    ensures ArgumentsKey in FormDict(f) <==> f.options != [] || f.interface != ""
    ensures (forall i :: 0 <= i < |ArgTokens(f)| ==> ArgTokens(f)[i] != [] && NoSpace(ArgTokens(f)[i])) ==>
      Words(Get(FormDict(f), ArgumentsKey, "")) == f.options + InterfaceTokens(f.interface)
  {
    FormDictEntries(f);
    if forall i :: 0 <= i < |ArgTokens(f)| ==> ArgTokens(f)[i] != [] && NoSpace(ArgTokens(f)[i]) {
      WordsOfJoin(ArgTokens(f));
    }
  }

  /** The entries of the form dictionary, key by key. */
  lemma FormDictEntries(f: FormValues)
    ensures TargetsKey in FormDict(f) && FormDict(f)[TargetsKey] == f.targets
    ensures PortsKey in FormDict(f) <==> f.lowPort != ""
    ensures PortsKey in FormDict(f) ==> FormDict(f)[PortsKey] == PortSpec(f.lowPort, f.highPort)
    ensures ArgumentsKey in FormDict(f) <==> ArgTokens(f) != []
    ensures ArgumentsKey in FormDict(f) ==> FormDict(f)[ArgumentsKey] == Join(ArgTokens(f), " ")
    ensures ArgTokens(f) != [] <==> f.options != [] || f.interface != ""
  {
  }

  /** The form command line starts with "nmap", puts "-e" and the interface right after it,
      then the options, then "-p" and the ports, and ends with the targets. */
  lemma FormListFacts(f: FormValues)
    ensures var l := FormList(f);
      var k := 1 + |InterfaceTokens(f.interface)|;
      var m := k + |f.options|;
      && |l| == m + |PortTokens(f.lowPort, f.highPort)| + 1
      && l[0] == "nmap"
      && l[|l| - 1] == f.targets
      && (f.interface != "" ==> l[1] == "-e" && l[2] == f.interface)
      && l[k..m] == f.options
      && (f.lowPort != "" ==> l[m] == "-p" && l[m + 1] == PortSpec(f.lowPort, f.highPort))
  {
  }

  /** Without a manual command, the dictionary's dry-run command and the list form hold the
      same tokens, only with the interface after the options instead of before them, provided
      `shlex.split` gives the space-joined argument tokens back. */
  lemma FormCommandsAgree(f: FormValues, ps: Parsers)
    requires ArgTokens(f) != [] ==> ps.shlexSplit(Join(ArgTokens(f), " ")) == Ok(ArgTokens(f))
    ensures DryRunCommand(FormDict(f), ps).Ok?
    ensures DryRunCommand(FormDict(f), ps).value
            == ["nmap"] + ArgTokens(f) + PortTokens(f.lowPort, f.highPort) + [f.targets]
    ensures multiset(DryRunCommand(FormDict(f), ps).value) == multiset(FormList(f))
  {
    var iface := InterfaceTokens(f.interface);
    FormDictEntries(f);
    var d := FormDict(f);
    var tokens := ArgTokens(f);
    assert (if ArgumentsKey in d then ps.shlexSplit(d[ArgumentsKey]) else Ok([])) == Ok(tokens);
    var ports := if PortsKey in d then ["-p", d[PortsKey]] else [];
    assert ports == PortTokens(f.lowPort, f.highPort);
    assert DryRunCommand(d, ps) == Ok(["nmap"] + tokens + ports + [d[TargetsKey]]);
    SwapMiddle(["nmap"], f.options, iface, ports, [f.targets]);
  }

  /** Swapping two middle blocks keeps the same elements. */
  lemma SwapMiddle<T>(a: seq<T>, b: seq<T>, c: seq<T>, p: seq<T>, t: seq<T>)
    ensures multiset(a + (b + c) + p + t) == multiset(a + c + b + p + t)
  {
    calc {
      multiset(a + (b + c) + p + t);
      multiset(a) + (multiset(b) + multiset(c)) + multiset(p) + multiset(t);
      multiset(a) + multiset(c) + multiset(b) + multiset(p) + multiset(t);
      multiset(a + c + b + p + t);
    }
  }

  /** With a manual command, the list form is the `shlex.split` tokens themselves and the
      dictionary is built from the same tokens; either form fails alike when they cannot be
      split. */
  lemma ManualFormsAgree(f: FormValues, ps: Parsers)
    requires f.userCommand != ""
    ensures InputOfFields(f, ps, true).Err? <==> InputOfFields(f, ps, false).Err?
    ensures InputOfFields(f, ps, false).Ok? ==>
      && InputOfFields(f, ps, false).value.AsList?
      && InputOfFields(f, ps, true).value == AsDict(ManualDict(InputOfFields(f, ps, false).value.args))
  {
  }

  /** Validating the form dictionary: a "low-high" pair of dash-free ports is a range that passes
      exactly when both ends parse, are in 1..65535 and are in order; a lone low port passes
      exactly when it parses to a port in 1..65535. */
  lemma FormPortsValidation(f: FormValues, ps: Parsers)
    requires f.lowPort != "" && '-' !in f.lowPort && '-' !in f.highPort
    ensures var low := ps.parseInt(f.lowPort);
      var high := ps.parseInt(f.highPort);
      f.highPort != "" ==>
        (PortErrors(FormDict(f), ps) == [] <==>
           low.Some? && high.Some? && InPortRange(low.value) && InPortRange(high.value)
           && low.value <= high.value)
    ensures var low := ps.parseInt(f.lowPort);
      f.highPort == "" ==> (PortErrors(FormDict(f), ps) == [] <==> low.Some? && InPortRange(low.value))
  {
    FormDictFacts(f);
    if f.highPort != "" {
      SplitOfPair(f.lowPort, f.highPort, '-');
      assert '-' in f.lowPort + "-" + f.highPort by {
        assert (f.lowPort + "-" + f.highPort)[|f.lowPort|] == '-';
      }
    }
  }

  /** "70000-80" gets both range errors. */
  lemma RangeBothErrors(ps: Parsers)
    requires ps.parseInt("70000") == Some(70000) && ps.parseInt("80") == Some(80)
    ensures RangeErrors("70000-80", ps) == [RangeOutOfBounds, RangeReversed]
  {
    SplitOfPair("70000", "80", '-');
    assert "70000" + "-" + "80" == "70000-80";
  }

  /** `IndexOf` looks past a prefix free of the character. */
  lemma {:induction false} IndexOfAfter(a: string, rest: string, c: char)
    requires c !in a
    ensures IndexOf(a + rest, c) == |a| + IndexOf(rest, c)
  {
    if a != [] {
      assert (a + rest)[1..] == a[1..] + rest;
      IndexOfAfter(a[1..], rest, c);
    } else {
      assert a + rest == rest;
    }
  }

  /** Splitting `a + sep + b` at `sep` gives `a` and `b` when neither holds `sep`. */
  lemma SplitOfPair(a: string, b: string, sep: char)
    requires sep !in a && sep !in b
    ensures Split(a + [sep] + b, sep) == [a, b]
  {
    var s := a + ([sep] + b);
    assert a + [sep] + b == s;
    IndexOfAfter(a, [sep] + b, sep);
    assert IndexOf(s, sep) == |a|;
    assert s[..|a|] == a && s[|a| + 1..] == b;
    SplitOfFree(b, sep);
  }

  /** A string free of the separator splits to itself. */
  lemma SplitOfFree(b: string, sep: char)
    requires sep !in b
    ensures Split(b, sep) == [b]
  {
  }
}
