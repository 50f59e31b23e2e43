/** `DetectorProfilesManager` (src/streamml/back/detector_profiles_manager.py): the list of
    detector profiles, with adding under the name rule and rollback on a failed save, deleting
    every profile of a name, lookup, field updates, switching a profile on and off, and reading
    its log. Saving and loading the pickle file are inputs: whether the save succeeds, and what
    the file held. */
module DetectorManager {
  import opened Wrappers
  import opened Registry
  import opened Features
  import opened FlowWindow
  import opened Detector

  /** What `load_profiles` finds: no file, a file it cannot unpickle, or the profiles in it
      (already passed through `__setstate__`). */
  datatype StoredFile = Missing | Unreadable | Loaded(stored: seq<DetectorProfile>)

  /** The attribute assignments `update_profile` is used for. */
  datatype ProfileUpdate = SetNotifyEnabled(on: bool) | SetThreshold(threshold: real)

  function NameOf(p: DetectorProfile): string {
    p.profileName
  }

  /** The windows of a list of profiles. */
  function Windows(ps: seq<DetectorProfile>): set<Window>
    reads set p | p in ps
  {
    set p | p in ps :: p.window
  }

  /** Profiles can be driven one at a time: each is valid, and no two share a window. */
  ghost predicate ProfilesValid(ps: seq<DetectorProfile>)
    reads (set p | p in ps), Windows(ps)
  {
    && (forall p :: p in ps ==> p.Valid())
    && (forall p, q :: p in ps && q in ps && p != q ==> p.window != q.window)
  }

  lemma NamesAppend(ps: seq<DetectorProfile>, p: DetectorProfile)
    ensures NamesOf(ps + [p], NameOf) == NamesOf(ps, NameOf) + [p.profileName]
  {
  }

  /** A valid profile with a window of its own can join a list of profiles. */
  lemma ProfilesValidAppend(ps: seq<DetectorProfile>, p: DetectorProfile)
    requires ProfilesValid(ps) && p.Valid()
    requires p !in ps && forall q :: q in ps ==> q.window != p.window
    ensures ProfilesValid(ps + [p])
  {
  }

  /** As written, whether `pickle.dump` of the list succeeds when the file can be written: no
      profile's saved state may hold a runtime object (a started `AsyncSniffer` holds a thread
      and callbacks, which pickle refuses). */
  predicate SaveSucceedsAsWritten(ps: seq<DetectorProfile>, writable: bool)
    reads set p | p in ps
  {
    writable && forall p :: p in ps ==> PersistedAsWritten(Attributes(p)) !! RuntimeAttributes
  }

  /** The same with the intended removal list. */
  predicate SaveSucceeds(ps: seq<DetectorProfile>, writable: bool)
    reads set p | p in ps
  {
    writable && forall p :: p in ps ==> Persisted(Attributes(p)) !! RuntimeAttributes
  }

  /** As written, once any profile has been turned on far enough to create its sniffer, every
      later save of a list that holds it fails, whatever is added; so `add_profile` then always
      takes its rollback path. */
  lemma SaveFailsAfterTurnOnAsWritten(ps: seq<DetectorProfile>, p: DetectorProfile,
                                      added: seq<DetectorProfile>, writable: bool)
    requires p in ps && p.hasSniffer
    ensures !SaveSucceedsAsWritten(ps + added, writable)
  {
    SnifferIsPersisted(p);
    assert p in ps + added;
  }

  /** With the intended removal list, a save succeeds exactly when the file can be written,
      whichever profiles were turned on. */
  lemma SaveSucceedsIffWritable(ps: seq<DetectorProfile>, writable: bool)
    ensures SaveSucceeds(ps, writable) == writable
  {
    forall p | p in ps
      ensures Persisted(Attributes(p)) !! RuntimeAttributes
    {
      PersistedDropsRuntime(p);
    }
  }

  class DetectorProfilesManager {
    var profiles: seq<DetectorProfile>

    ghost predicate Valid()
      reads this, (set p | p in profiles), Windows(profiles)
    {
      ProfilesValid(profiles)
    }

    /** A manager with no profiles yet; `__init__` then calls `load_profiles`. */
    constructor ()
      ensures Valid() && profiles == []
    {
      profiles := [];
    }

    /** `load_profiles`: a missing file is created by a save (the list stays empty either way); an
        unreadable file is reported; otherwise the list becomes the stored profiles. */
    method LoadProfiles(file: StoredFile, saveOk: bool) returns (r: Reply)
      requires Valid()
      requires file.Loaded? ==> ProfilesValid(file.stored)
      modifies this
      ensures Valid()
      ensures file.Missing? ==> profiles == old(profiles) && (r == Success <==> saveOk)
      ensures file.Missing? && !saveOk ==> r == Fail(SaveFailed)
      ensures file.Unreadable? ==> profiles == old(profiles) && r == Fail(LoadFailed)
      ensures file.Loaded? ==> profiles == file.stored && r == Success
    {
      match file
      case Missing =>
        r := if saveOk then Success else Fail(SaveFailed);
      case Unreadable =>
        r := Fail(LoadFailed);
      case Loaded(stored) =>
        profiles := stored;
        r := Success;
    }

    /** `add_profile(name, input)` at time `now`, where `storedLog` is what the profile's log file
        holds and `saveOk` whether pickling the list succeeds. A refused name changes nothing; a
        failed save removes the new profile again, leaving exactly the old list; otherwise the
        new profile is appended at the end. */
    method AddProfile(name: string, input: ProfileInput, storedLog: seq<AnomalyRecord>, now: real,
                      saveOk: bool) returns (r: Reply)
      requires Valid()
      modifies this
      ensures Valid()
      ensures var check := CheckNewName(NamesOf(old(profiles), NameOf), name);
        && (check.Some? ==> r == Fail(NameFailure(check.value)) && profiles == old(profiles))
        && (check.None? && !saveOk ==> r == Fail(SaveFailed) && profiles == old(profiles))
        && (check.None? && saveOk ==>
              && r == Success
              && |profiles| == |old(profiles)| + 1
              && profiles[..|old(profiles)|] == old(profiles)
              && fresh(profiles[|old(profiles)|])
              && profiles[|old(profiles)|].profileName == name
              && profiles[|old(profiles)|].features == input.features
              && profiles[|old(profiles)|].config == ConfigOf(input.params))
      ensures Unique(NamesOf(old(profiles), NameOf)) ==> Unique(NamesOf(profiles, NameOf))
    {
      var check := CheckNewName(NamesOf(profiles, NameOf), name);
      if check.Some? {
        return Fail(NameFailure(check.value));
      }
      var p := new DetectorProfile(name, input, storedLog, now);
      var before := profiles;
      r := AppendProfile(p, saveOk);
      if saveOk {
        assert profiles[..|before|] == before;
      }
    }

    /** The part of `add_profile` after the name checks: append the new profile, save, and on a
        failed save remove it again. */
    method AppendProfile(p: DetectorProfile, saveOk: bool) returns (r: Reply)
      requires Valid() && p.Valid()
      requires p !in profiles && forall q :: q in profiles ==> q.window != p.window
      requires CheckNewName(NamesOf(profiles, NameOf), p.profileName).None?
      modifies this`profiles
      ensures Valid()
      ensures !saveOk ==> r == Fail(SaveFailed) && profiles == old(profiles)
      ensures saveOk ==> r == Success && profiles == old(profiles) + [p]
      ensures Unique(NamesOf(old(profiles), NameOf)) ==> Unique(NamesOf(profiles, NameOf))
    {
      var before := profiles;
      assert ProfilesValid(before);
      ProfilesValidAppend(before, p);
      profiles := profiles + [p];
      if !saveOk {
        RemoveAppended(before, p);
        profiles := RemoveFirst(profiles, p);
        return Fail(SaveFailed);
      }
      CheckNewNameAccepts(NamesOf(before, NameOf), p.profileName);
      NamesAppend(before, p);
      return Success;
    }

    /** `delete_profile(name)`: every profile with that name goes, the others stay in order. When
        none had the name the result is a failure with the list unchanged; a failed save is
        reported but the profiles stay deleted. */
    method DeleteProfile(name: string, saveOk: bool) returns (r: Reply)
      requires Valid()
      modifies this
      ensures Valid()
      ensures profiles == WithoutName(old(profiles), NameOf, name)
      ensures forall p :: p in profiles <==> p in old(profiles) && p.profileName != name
      ensures r == Fail(NotFound) <==> FindFirst(old(profiles), NameOf, name).None?
      ensures r == Fail(NotFound) ==> profiles == old(profiles)
      ensures r == Success <==> FindFirst(old(profiles), NameOf, name).Some? && saveOk
      ensures FindFirst(old(profiles), NameOf, name).Some? && !saveOk ==> r == Fail(SaveFailed)
    {
      WithoutNameFacts(profiles, NameOf, name);
      var before := |profiles|;
      profiles := WithoutName(profiles, NameOf, name);
      if |profiles| == before {
        return Fail(NotFound);
      }
      if !saveOk {
        return Fail(SaveFailed);
      }
      return Success;
    }

    /** `get_profile(name)`: the first profile with that name, or nothing. */
    function GetProfile(name: string): (r: Option<DetectorProfile>)
      reads this
      ensures r.Some? <==> name in NamesOf(profiles, NameOf)
      ensures r.Some? ==> r.value in profiles && r.value.profileName == name
      ensures r.Some? ==> exists i :: 0 <= i < |profiles| && profiles[i] == r.value
                                    && forall j :: 0 <= j < i ==> profiles[j].profileName != name
    {
      match FindFirst(profiles, NameOf, name)
      case None => None
      case Some(i) => Some(profiles[i])
    }

    /** `update_profile(name, field, value)`: only the first profile with that name changes, and
        only in the one attribute; the list itself is untouched. */
    method UpdateProfile(name: string, u: ProfileUpdate, saveOk: bool) returns (r: Reply)
      requires Valid()
      modifies (set p | p in profiles)`notifyEnabled, (set p | p in profiles)`config
      ensures Valid() && profiles == old(profiles)
      ensures old(GetProfile(name)).None? ==> r == Fail(NotFound)
      ensures old(GetProfile(name)).None? ==> forall q :: q in profiles ==> unchanged(q)
      ensures old(GetProfile(name)).Some? ==>
        var p := old(GetProfile(name)).value;
        && (r == Success <==> saveOk) && (!saveOk ==> r == Fail(SaveFailed))
        && (forall q :: q in profiles && q != p ==> unchanged(q))
        && p.features == old(p.features) && p.isActive == old(p.isActive) && p.log == old(p.log)
        && p.queue == old(p.queue) && p.window == old(p.window) && p.plotData == old(p.plotData)
        && match u
           case SetNotifyEnabled(on) => p.notifyEnabled == on && p.config == old(p.config)
           case SetThreshold(t) =>
             p.config == old(p.config).(threshold := t) && p.notifyEnabled == old(p.notifyEnabled)
    {
      var found := GetProfile(name);
      if found.None? {
        return Fail(NotFound);
      }
      var p := found.value;
      match u {
        case SetNotifyEnabled(on) =>
          p.SetNotifyEnabled(on);
        case SetThreshold(t) =>
          p.SetThreshold(t);
      }
      r := if saveOk then Success else Fail(SaveFailed);
    }

    /** `turn_on_profile(name)`: fails for an unknown name and when the profile's `turn_on`
        raises; the profile is switched on in every case where it is found. */
    method TurnOnProfile(name: string, now: real, outcome: StartOutcome) returns (r: Reply)
      requires Valid()
      modifies (set p | p in profiles)`isActive, (set p | p in profiles)`hasSniffer
      modifies (set p | p in profiles)`snifferRunning, (set p | p in profiles)`processing
      modifies Windows(profiles)`windowDuration, Windows(profiles)`windowStart
      ensures Valid() && profiles == old(profiles)
      ensures old(GetProfile(name)).None? ==> r == Fail(NotFound)
      ensures old(GetProfile(name)).None? ==>
        forall q :: q in profiles ==> unchanged(q) && unchanged(q.window)
      ensures old(GetProfile(name)).Some? ==>
        var p := old(GetProfile(name)).value;
        && p.isActive
        && (r == Success <==> old(p.isActive) || outcome == Started)
        && (r != Success ==> r == Fail(Threw))
        && (old(p.isActive) ==> unchanged(p) && unchanged(p.window))
        && (!old(p.isActive) && outcome == DirectoryError ==>
              && unchanged(p.window) && p.hasSniffer == old(p.hasSniffer)
              && p.snifferRunning == old(p.snifferRunning))
        && (!old(p.isActive) && outcome != DirectoryError ==>
              && p.hasSniffer && p.window.windowDuration == p.config.windowDuration
              && p.window.windowStart == now)
        && (!old(p.isActive) && outcome == CaptureError ==> !p.snifferRunning)
        && (!old(p.isActive) && outcome == Started ==> p.snifferRunning && p.processing)
        && (outcome != Started ==> p.processing == old(p.processing))
        && (forall q :: q in profiles && q != p ==> unchanged(q) && unchanged(q.window))
    {
      var found := GetProfile(name);
      if found.None? {
        return Fail(NotFound);
      }
      var p := found.value;
      var raised := p.TurnOn(now, outcome);
      r := if raised then Fail(Threw) else Success;
    }

    /** `turn_off_profile(name)`: fails for an unknown name and when `turn_off` raises because the
        profile's sniffer is missing or not running; a found profile ends up switched off either
        way. */
    method TurnOffProfile(name: string) returns (r: Reply)
      requires Valid()
      modifies (set p | p in profiles)`isActive, (set p | p in profiles)`snifferRunning
      ensures Valid() && profiles == old(profiles)
      ensures old(GetProfile(name)).None? ==> r == Fail(NotFound)
      ensures old(GetProfile(name)).None? ==> forall q :: q in profiles ==> unchanged(q)
      ensures old(GetProfile(name)).Some? ==>
        var p := old(GetProfile(name)).value;
        && !p.isActive
        && (r == Success <==> old(p.snifferRunning))
        && (r != Success ==> r == Fail(Threw))
        && (forall q :: q in profiles && q != p ==> unchanged(q))
    {
      var found := GetProfile(name);
      if found.None? {
        return Fail(NotFound);
      }
      var p := found.value;
      var raised := p.TurnOff();
      r := if raised then Fail(Threw) else Success;
    }

    /** `get_profile_logs(name)`: nothing for an unknown name, otherwise that profile's log. */
    method GetProfileLogs(name: string) returns (logs: Option<seq<AnomalyRecord>>)
      ensures logs.None? <==> name !in NamesOf(profiles, NameOf)
      ensures logs.Some? ==> logs.value == GetProfile(name).value.log
    {
      var found := GetProfile(name);
      if found.None? {
        return None;
      }
      var records := found.value.GetLogs();
      logs := Some(records);
    }
  }
}
