/** `DetectorTab.get_inputs` (src/netmonitor/front/detector_tab.py): the input data of a new
    detector profile, read from the form. The widget values are parameters, and Python's
    `int(...)` and `float(...)` are partial parsers passed in. */
module DetectorForm {
  import opened Wrappers
  import opened Text
  import opened Features
  import Registry
  import opened Detector

  /** The numeric parameter inputs, in the order the form lays them out. */
  datatype ParamKey = Trees | Height | WindowSize | Seed | WindowDuration | Threshold | QueueSize

  const ParamInputs: seq<ParamKey> := [Trees, Height, WindowSize, Seed, WindowDuration, Threshold, QueueSize]

  /** The key of each input, as it appears in `params` and in the error message. */
  function KeyName(k: ParamKey): string {
    match k
    case Trees => "trees"
    case Height => "height"
    case WindowSize => "window"
    case Seed => "seed"
    case WindowDuration => "window_duration"
    case Threshold => "threshold"
    case QueueSize => "queue_size"
  }

  predicate IsIntKey(k: ParamKey) {
    k != WindowDuration && k != Threshold
  }

  /** A parsed parameter: `int` for the counts and the seed, `float` for the other two. */
  datatype ParamValue = IntValue(i: int) | RealValue(r: real)

  /** The form's own table of defaults. */
  function FormDefault(k: ParamKey): ParamValue {
    match k
    case Trees => IntValue(10)
    case Height => IntValue(8)
    case WindowSize => IntValue(250)
    case Seed => IntValue(42)
    case WindowDuration => RealValue(10.0)
    case Threshold => RealValue(0.7)
    case QueueSize => IntValue(10000)
  }

  /** A value of the type the key is parsed to. */
  predicate Fits(k: ParamKey, v: ParamValue) {
    IsIntKey(k) <==> v.IntValue?
  }

  /** `params[key] = value` for a numeric key. */
  function SetParam(p: Params, k: ParamKey, v: ParamValue): Params
    requires Fits(k, v)
  {
    match k
    case Trees => p.(trees := Some(v.i))
    case Height => p.(height := Some(v.i))
    case WindowSize => p.(window := Some(v.i))
    case Seed => p.(seed := Some(v.i))
    case WindowDuration => p.(windowDuration := Some(v.r))
    case Threshold => p.(threshold := Some(v.r))
    case QueueSize => p.(queueSize := Some(v.i))
  }

  /** `params.get(key)` for a numeric key. */
  function GetParam(p: Params, k: ParamKey): Option<ParamValue> {
    match k
    case Trees => if p.trees.Some? then Some(IntValue(p.trees.value)) else None
    case Height => if p.height.Some? then Some(IntValue(p.height.value)) else None
    case WindowSize => if p.window.Some? then Some(IntValue(p.window.value)) else None
    case Seed => if p.seed.Some? then Some(IntValue(p.seed.value)) else None
    case WindowDuration => if p.windowDuration.Some? then Some(RealValue(p.windowDuration.value)) else None
    case Threshold => if p.threshold.Some? then Some(RealValue(p.threshold.value)) else None
    case QueueSize => if p.queueSize.Some? then Some(IntValue(p.queueSize.value)) else None
  }

  /** Setting a key is read back by that key and by no other; the interface and filter stay. */
  lemma GetSetParam(p: Params, k: ParamKey, v: ParamValue, k': ParamKey)
    requires Fits(k, v)
    ensures GetParam(SetParam(p, k, v), k') == if k' == k then Some(v) else GetParam(p, k')
    ensures SetParam(p, k, v).interface == p.interface && SetParam(p, k, v).bpfFilter == p.bpfFilter
  {
  }

  /** Python's `int(s)` and `float(s)`: the value, or nothing where they raise `ValueError`. */
  datatype Parsers = Parsers(parseInt: string -> Option<int>, parseFloat: string -> Option<real>)

  /** What the form holds: the ticked feature checkboxes, the selected interface (nothing when the
      selection cannot be read), the BPF filter text and the text of each parameter input. */
  datatype FormValues = FormValues(
    checked: set<Feature>,
    interface: Option<string>,
    bpfFilter: string,
    paramText: ParamKey -> string)

  /** The value one parameter input gives: its default when blank, otherwise the parsed text,
      or the error naming the key. */
  function ParamFromText(k: ParamKey, text: string, ps: Parsers): (r: Result<ParamValue, string>)
    ensures r.Ok? ==> Fits(k, r.value)
    ensures r.Err? ==> r.error == "Param '" + KeyName(k) + "' must be a number."
  {
    var s := Strip(text);
    if s == "" then Ok(FormDefault(k))
    else if IsIntKey(k) then
      match ps.parseInt(s)
      case Some(i) => Ok(IntValue(i))
      case None => Err("Param '" + KeyName(k) + "' must be a number.")
    else
      match ps.parseFloat(s)
      case Some(r) => Ok(RealValue(r))
      case None => Err("Param '" + KeyName(k) + "' must be a number.")
  }

  /** A blank input gives the default; a non-blank one fails exactly when its parser does. */
  lemma ParamFromTextCases(k: ParamKey, text: string, ps: Parsers)
    ensures IsBlank(text) ==> ParamFromText(k, text, ps) == Ok(FormDefault(k))
    ensures !IsBlank(text) && IsIntKey(k) ==>
      (ParamFromText(k, text, ps).Err? <==> ps.parseInt(Strip(text)).None?)
    ensures !IsBlank(text) && !IsIntKey(k) ==>
      (ParamFromText(k, text, ps).Err? <==> ps.parseFloat(Strip(text)).None?)
  {
    StripEmptyIffBlank(text);
  }

  /** The step for each input of this form. */
  function InputStep(form: FormValues, ps: Parsers): ParamKey -> Result<ParamValue, string> {
    k => ParamFromText(k, form.paramText(k), ps)
  }

  predicate StepFits(step: ParamKey -> Result<ParamValue, string>) {
    forall k :: step(k).Ok? ==> Fits(k, step(k).value)
  }

  lemma StepOfFormFits(form: FormValues, ps: Parsers)
    ensures StepFits(InputStep(form, ps))
  {
    forall k | InputStep(form, ps)(k).Ok?
      ensures Fits(k, InputStep(form, ps)(k).value)
    {
      assert InputStep(form, ps)(k) == ParamFromText(k, form.paramText(k), ps);
    }
  }

  /** The parameters after the inputs of `keys`, taken in order; the first failing one stops it. */
  function ParamsFrom(keys: seq<ParamKey>, p: Params, step: ParamKey -> Result<ParamValue, string>): Result<Params, string>
    requires StepFits(step)
  {
    if keys == [] then Ok(p)
    else
      match step(keys[0])
      case Err(e) => Err(e)
      case Ok(v) => ParamsFrom(keys[1..], SetParam(p, keys[0], v), step)
  }

  /** The checked features in `FEATURE_LIST` order. */
  function SelectedIn(fs: seq<Feature>, checked: set<Feature>): seq<Feature> {
    if fs == [] then []
    else if fs[0] in checked then [fs[0]] + SelectedIn(fs[1..], checked)
    else SelectedIn(fs[1..], checked)
  }

  function Selected(checked: set<Feature>): seq<Feature> {
    SelectedIn(FeatureList, checked)
  }

  /** `params` before the numeric inputs: the interface, and the stripped filter when not blank. */
  function BaseParams(form: FormValues): Params {
    var bpf := Strip(form.bpfFilter);
    NoParams.(interface := form.interface, bpfFilter := if bpf != "" then Some(bpf) else None)
  }

  /** `get_inputs()`: the profile input, or the message of the `ValueError` it raises. */
  function InputsOf(form: FormValues, ps: Parsers): Result<ProfileInput, string> {
    var features := Selected(form.checked);
    if features == [] then Err("Select at least one feature.")
    else if form.interface.None? || form.interface == Some("") then Err("Interface selection error.")
    else
      StepOfFormFits(form, ps);
      match ParamsFrom(ParamInputs, BaseParams(form), InputStep(form, ps))
      case Err(e) => Err(e)
      case Ok(p) => Ok(ProfileInput(features, p))
  }

  /** The features are exactly the checked ones, each in the order of the feature list. */
  lemma {:induction false} SelectedInFacts(fs: seq<Feature>, checked: set<Feature>)
    ensures forall f :: f in SelectedIn(fs, checked) <==> f in fs && f in checked
    ensures Registry.SubsequenceOf(SelectedIn(fs, checked), fs)
  {
    if fs != [] {
      SelectedInFacts(fs[1..], checked);
      var s := SelectedIn(fs, checked);
      if fs[0] in checked {
        assert s[0] == fs[0] && s[1..] == SelectedIn(fs[1..], checked);
      }
      assert fs == [fs[0]] + fs[1..];
    }
  }

  /** Filtering a list that holds every feature keeps exactly the checked ones. */
  lemma SelectedInAll(fs: seq<Feature>, checked: set<Feature>)
    requires forall f: Feature :: f in fs
    requires forall f :: f in SelectedIn(fs, checked) <==> f in fs && f in checked
    ensures forall f :: f in SelectedIn(fs, checked) <==> f in checked
    ensures SelectedIn(fs, checked) == [] <==> checked == {}
  {
    var s := SelectedIn(fs, checked);
    if checked != {} {
      var f :| f in checked;
      assert f in s;
    }
    if s != [] {
      assert s[0] in s;
    }
  }

  lemma SelectedFeatures(checked: set<Feature>)
    ensures forall f :: f in Selected(checked) <==> f in checked
    ensures Registry.SubsequenceOf(Selected(checked), FeatureList)
    ensures Selected(checked) == [] <==> checked == {}
  {
    SelectedInFacts(FeatureList, checked);
    EveryFeatureListed();
    SelectedInAll(FeatureList, checked);
  }

  /** The two checks that come before the parameters: no feature ticked, then no usable interface. */
  lemma InputsErrors(form: FormValues, ps: Parsers)
    ensures form.checked == {} ==> InputsOf(form, ps) == Err("Select at least one feature.")
    ensures form.checked != {} && (form.interface.None? || form.interface == Some("")) ==>
      InputsOf(form, ps) == Err("Interface selection error.")
  {
    SelectedFeatures(form.checked);
  }

  predicate DistinctKeys(keys: seq<ParamKey>) {
    forall i, j :: 0 <= i < j < |keys| ==> keys[i] != keys[j]
  }

  /** A successful pass sets every key it visits to that key's step value, leaves every other key,
      the interface and the filter as they were. */
  lemma {:induction false} ParamsFromSets(keys: seq<ParamKey>, p: Params, step: ParamKey -> Result<ParamValue, string>)
    requires StepFits(step) && DistinctKeys(keys)
    requires ParamsFrom(keys, p, step).Ok?
    ensures forall k :: k in keys ==> step(k).Ok?
    ensures forall k :: GetParam(ParamsFrom(keys, p, step).value, k)
                        == if k in keys then Some(step(k).value) else GetParam(p, k)
    ensures ParamsFrom(keys, p, step).value.interface == p.interface
    ensures ParamsFrom(keys, p, step).value.bpfFilter == p.bpfFilter
  {
    if keys != [] {
      var k0 := keys[0];
      var p' := SetParam(p, k0, step(k0).value);
      assert DistinctKeys(keys[1..]) by {
        forall i, j | 0 <= i < j < |keys[1..]|
          ensures keys[1..][i] != keys[1..][j]
        {
          assert keys[1..][i] == keys[i + 1] && keys[1..][j] == keys[j + 1];
        }
      }
      assert k0 !in keys[1..];
      ParamsFromSets(keys[1..], p', step);
      forall k
        ensures GetParam(p', k) == if k == k0 then Some(step(k0).value) else GetParam(p, k)
      {
        GetSetParam(p, k0, step(k0).value, k);
      }
      GetSetParam(p, k0, step(k0).value, k0);
      assert keys == [k0] + keys[1..];
    }
  }

  /** A pass fails exactly when one of its keys' steps fails, and then with the first such key's
      error. */
  lemma {:induction false} ParamsFromError(keys: seq<ParamKey>, p: Params, step: ParamKey -> Result<ParamValue, string>)
    requires StepFits(step)
    ensures ParamsFrom(keys, p, step).Err? <==> exists i :: 0 <= i < |keys| && step(keys[i]).Err?
    ensures ParamsFrom(keys, p, step).Err? ==>
      exists i :: 0 <= i < |keys| && step(keys[i]).Err?
        && (forall j :: 0 <= j < i ==> step(keys[j]).Ok?)
        && ParamsFrom(keys, p, step).error == step(keys[i]).error
  {
    if keys != [] && step(keys[0]).Ok? {
      var rest := keys[1..];
      ParamsFromError(rest, SetParam(p, keys[0], step(keys[0]).value), step);
      if exists i :: 0 <= i < |keys| && step(keys[i]).Err? {
        var i :| 0 <= i < |keys| && step(keys[i]).Err?;
        assert i > 0 && rest[i - 1] == keys[i];
      }
      if ParamsFrom(keys, p, step).Err? {
        var i :| 0 <= i < |rest| && step(rest[i]).Err?
          && (forall j :: 0 <= j < i ==> step(rest[j]).Ok?)
          && ParamsFrom(rest, SetParam(p, keys[0], step(keys[0]).value), step).error == step(rest[i]).error;
        forall j | 0 <= j < i + 1
          ensures step(keys[j]).Ok?
        {
          if j > 0 {
            assert keys[j] == rest[j - 1];
          }
        }
        assert keys[i + 1] == rest[i];
      }
    }
  }

  lemma ParamInputsDistinct()
    ensures DistinctKeys(ParamInputs)
    ensures forall k :: k in ParamInputs
  {
    forall k: ParamKey
      ensures k in ParamInputs
    {
      match k
      case Trees => assert ParamInputs[0] == k;
      case Height => assert ParamInputs[1] == k;
      case WindowSize => assert ParamInputs[2] == k;
      case Seed => assert ParamInputs[3] == k;
      case WindowDuration => assert ParamInputs[4] == k;
      case Threshold => assert ParamInputs[5] == k;
      case QueueSize => assert ParamInputs[6] == k;
    }
  }

  /** Past the feature and interface checks, the result is the pass over the parameter inputs. */
  lemma InputsOfPassed(form: FormValues, ps: Parsers)
    requires form.checked != {}
    requires form.interface.Some? && form.interface != Some("")
    ensures StepFits(InputStep(form, ps))
    ensures InputsOf(form, ps) ==
      match ParamsFrom(ParamInputs, BaseParams(form), InputStep(form, ps))
      case Err(e) => Err(e)
      case Ok(p) => Ok(ProfileInput(Selected(form.checked), p))
  {
    SelectedFeatures(form.checked);
    StepOfFormFits(form, ps);
  }

  /** Over a list that holds every key, a pass fails exactly when some key's step fails. */
  lemma ParamsFromFailsIff(keys: seq<ParamKey>, p: Params, step: ParamKey -> Result<ParamValue, string>)
    requires StepFits(step)
    requires forall k :: k in keys
    ensures ParamsFrom(keys, p, step).Err? <==> exists k :: step(k).Err?
  {
    ParamsFromError(keys, p, step);
    if exists k :: step(k).Err? {
      var k :| step(k).Err?;
      assert k in keys;
      var i :| 0 <= i < |keys| && keys[i] == k;
    }
  }

  /** When the form passes the feature and interface checks, `get_inputs` fails exactly when some
      parameter input fails to give a value. */
  lemma InputsParamErrorIff(form: FormValues, ps: Parsers)
    requires form.checked != {}
    requires form.interface.Some? && form.interface != Some("")
    ensures InputsOf(form, ps).Err? <==> exists k :: InputStep(form, ps)(k).Err?
  {
    InputsOfPassed(form, ps);
    ParamInputsDistinct();
    ParamsFromFailsIff(ParamInputs, BaseParams(form), InputStep(form, ps));
  }

  /** ... and then the message names the first such input in form order, which is a non-blank
      input that does not parse. */
  lemma InputsParamErrorFirst(form: FormValues, ps: Parsers)
    requires form.checked != {}
    requires form.interface.Some? && form.interface != Some("")
    requires InputsOf(form, ps).Err?
    ensures exists i ::
      && 0 <= i < |ParamInputs| && !IsBlank(form.paramText(ParamInputs[i]))
      && (forall j :: 0 <= j < i ==> InputStep(form, ps)(ParamInputs[j]).Ok?)
      && InputsOf(form, ps).error == "Param '" + KeyName(ParamInputs[i]) + "' must be a number."
  {
    InputsOfPassed(form, ps);
    var step := InputStep(form, ps);
    var pass := ParamsFrom(ParamInputs, BaseParams(form), step);
    ParamsFromError(ParamInputs, BaseParams(form), step);
    var i :| 0 <= i < |ParamInputs| && step(ParamInputs[i]).Err?
      && (forall j :: 0 <= j < i ==> step(ParamInputs[j]).Ok?)
      && pass.error == step(ParamInputs[i]).error;
    var k := ParamInputs[i];
    assert step(k) == ParamFromText(k, form.paramText(k), ps);
    ParamFromTextCases(k, form.paramText(k), ps);
  }

  /** A successful `get_inputs` holds the checked features, the interface, the filter exactly when
      its input is not blank, and every parameter at its parsed value or default. */
  lemma InputsParamValues(form: FormValues, ps: Parsers)
    requires InputsOf(form, ps).Ok?
    ensures form.checked != {} && form.interface.Some? && form.interface != Some("")
    ensures StepFits(InputStep(form, ps))
    ensures var input := InputsOf(form, ps).value;
      && input.features == Selected(form.checked)
      && input.params.interface == form.interface
      && (input.params.bpfFilter.Some? <==> !IsBlank(form.bpfFilter))
      && (input.params.bpfFilter.Some? ==> input.params.bpfFilter.value == Strip(form.bpfFilter))
      && forall k :: InputStep(form, ps)(k).Ok? && GetParam(input.params, k) == Some(InputStep(form, ps)(k).value)
  {
    SelectedFeatures(form.checked);
    InputsOfPassed(form, ps);
    ParamInputsDistinct();
    StripEmptyIffBlank(form.bpfFilter);
    ParamsFromSets(ParamInputs, BaseParams(form), InputStep(form, ps));
  }

  /** Parameters holding the form's default for every numeric key configure a detector exactly
      as no parameters do, so the form's table and the profile's defaults agree. */
  lemma FormDefaultsAreDetectorDefaults(p: Params)
    requires forall k :: GetParam(p, k) == Some(FormDefault(k))
    ensures ConfigOf(p) == ConfigOf(NoParams).(interface := p.interface, bpfFilter := p.bpfFilter.GetOr(""))
  {
    assert GetParam(p, Trees) == Some(IntValue(10));
    assert GetParam(p, Height) == Some(IntValue(8));
    assert GetParam(p, WindowSize) == Some(IntValue(250));
    assert GetParam(p, Seed) == Some(IntValue(42));
    assert GetParam(p, WindowDuration) == Some(RealValue(10.0));
    assert GetParam(p, Threshold) == Some(RealValue(0.7));
    assert GetParam(p, QueueSize) == Some(IntValue(10000));
  }

  /** A form whose parameter inputs are all blank gives a profile with exactly the detector's own
      defaults; the interface and filter are the ones chosen. */
  lemma BlankFormGivesDetectorDefaults(form: FormValues, ps: Parsers)
    requires form.checked != {}
    requires form.interface.Some? && form.interface != Some("")
    requires forall k :: IsBlank(form.paramText(k))
    ensures InputsOf(form, ps).Ok?
    ensures ConfigOf(InputsOf(form, ps).value.params)
            == ConfigOf(NoParams).(interface := form.interface, bpfFilter := Strip(form.bpfFilter))
  {
    forall k
      ensures InputStep(form, ps)(k) == Ok(FormDefault(k))
    {
      assert InputStep(form, ps)(k) == ParamFromText(k, form.paramText(k), ps);
      ParamFromTextCases(k, form.paramText(k), ps);
    }
    InputsParamErrorIff(form, ps);
    InputsParamValues(form, ps);
    StripEmptyIffBlank(form.bpfFilter);
    FormDefaultsAreDetectorDefaults(InputsOf(form, ps).value.params);
  }

  /** `get_inputs()` as the form runs it: the features, the interface and filter, then one pass
      over the parameter inputs in form order. */
  method GetInputs(form: FormValues, ps: Parsers) returns (r: Result<ProfileInput, string>)
    ensures r == InputsOf(form, ps)
  {
    var features := Selected(form.checked);
    if features == [] {
      return Err("Select at least one feature.");
    }
    if form.interface.None? || form.interface == Some("") {
      return Err("Interface selection error.");
    }
    var params := NoParams.(interface := form.interface);
    var bpf := Strip(form.bpfFilter);
    if bpf != "" {
      params := params.(bpfFilter := Some(bpf));
    }
    assert params == BaseParams(form);
    var pass := ReadParams(form, ps, params);
    if pass.Err? {
      return Err(pass.error);
    }
    return Ok(ProfileInput(features, pass.value));
  }

  /** The loop of `get_inputs()` over the parameter inputs, in form order, stopping at the first
      input that gives no value. */
  method ReadParams(form: FormValues, ps: Parsers, base: Params) returns (r: Result<Params, string>)
    ensures StepFits(InputStep(form, ps))
    ensures r == ParamsFrom(ParamInputs, base, InputStep(form, ps))
  {
    StepOfFormFits(form, ps);
    var params := base;
    var i := 0;
    while i < |ParamInputs|
      invariant 0 <= i <= |ParamInputs|
      invariant ParamsFrom(ParamInputs, base, InputStep(form, ps)) == ParamsFrom(ParamInputs[i..], params, InputStep(form, ps))
    {
      var key := ParamInputs[i];
      var value := ParamFromText(key, form.paramText(key), ps);
      assert value == InputStep(form, ps)(key);
      assert ParamInputs[i..][0] == key && ParamInputs[i..][1..] == ParamInputs[i + 1..];
      if value.Err? {
        return Err(value.error);
      }
      params := SetParam(params, key, value.value);
      i := i + 1;
    }
    return Ok(params);
  }
}
