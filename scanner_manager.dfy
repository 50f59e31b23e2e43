/** `ScannerProfilesManager` (src/netmonitor/back/scanner_profiles_manager.py): the list of scanner
    profiles and the scheduler jobs that run them. Saving is an input (whether it succeeds), the
    scheduler is the set of job ids it holds, and `CronTrigger.from_crontab` is a validity
    predicate on cron strings. */
module ScannerManager {
  import opened Wrappers
  import opened Registry
  import opened Scanner

  /** What `load_profiles` finds. */
  datatype StoredFile = Missing | Unreadable | Loaded(stored: seq<ScannerProfile>)

  /** The attribute assignments `update_profile` is used for. */
  datatype ProfileUpdate =
    | SetNmapInput(input: NmapInput)
    | SetCve(on: bool)
    | SetNotifyEnabled(on: bool)
    | SetNotifyOnlyCve(on: bool)

  function NameOf(p: ScannerProfile): string {
    p.profileName
  }

  /** `f"profile_{name}"`, the id of a profile's scheduler job. */
  function JobId(name: string): string {
    "profile_" + name
  }

  lemma JobIdInjective(a: string, b: string)
    requires JobId(a) == JobId(b)
    ensures a == b
  {
    assert a == JobId(a)[8..] && b == JobId(b)[8..];
  }

  class ScannerProfilesManager {
    var profiles: seq<ScannerProfile>
    /** The ids of the jobs in the scheduler. */
    var jobs: set<string>

    /** Every active profile has its job in the scheduler. */
    ghost predicate ActiveHaveJobs()
      reads this, set p | p in profiles
    {
      forall p :: p in profiles && p.isActive ==> JobId(p.profileName) in jobs
    }

    /** A manager with no profiles yet, over a scheduler holding `jobs`; `__init__` then calls
        `load_profiles`. */
    constructor (jobs: set<string>)
      ensures profiles == [] && this.jobs == jobs
    {
      profiles := [];
      this.jobs := jobs;
    }

    /** `load_profiles`: a missing file is created by a save; an unreadable file is reported;
        otherwise the list becomes the stored profiles, whose `is_active` flags come back as
        saved while the scheduler's jobs are not restored. */
    method LoadProfiles(file: StoredFile, saveOk: bool) returns (r: Reply)
      modifies this`profiles
      ensures file.Missing? ==> profiles == old(profiles) && (r == Success <==> saveOk)
      ensures file.Missing? && !saveOk ==> r == Fail(SaveFailed)
      ensures file.Unreadable? ==> profiles == old(profiles) && r == Fail(LoadFailed)
      ensures file.Loaded? ==> profiles == file.stored && r == Success
    {
      match file
      case Missing =>
        r := if saveOk then Success else Fail(SaveFailed);
      case Unreadable =>
        r := Fail(LoadFailed);
      case Loaded(stored) =>
        profiles := stored;
        r := Success;
    }

    /** `add_profile(name)`: a refused name changes nothing; a failed save removes the new profile
        again, leaving exactly the old list; otherwise the new profile is appended at the end. */
    method AddProfile(name: string, storedLogs: seq<ScanResults>, saveOk: bool) returns (r: Reply)
      modifies this`profiles
      ensures var check := CheckNewName(NamesOf(old(profiles), NameOf), name);
        && (check.Some? ==> r == Fail(NameFailure(check.value)) && profiles == old(profiles))
        && (check.None? && !saveOk ==> r == Fail(SaveFailed) && profiles == old(profiles))
        && (check.None? && saveOk ==>
              && r == Success
              && |profiles| == |old(profiles)| + 1
              && profiles[..|old(profiles)|] == old(profiles)
              && fresh(profiles[|old(profiles)|])
              && profiles[|old(profiles)|].profileName == name
              && !profiles[|old(profiles)|].isActive)
      ensures Unique(NamesOf(old(profiles), NameOf)) ==> Unique(NamesOf(profiles, NameOf))
      ensures old(ActiveHaveJobs()) ==> ActiveHaveJobs()
    {
      var check := CheckNewName(NamesOf(profiles, NameOf), name);
      if check.Some? {
        return Fail(NameFailure(check.value));
      }
      var p := new ScannerProfile(name, storedLogs);
      var before := profiles;
      profiles := profiles + [p];
      if !saveOk {
        RemoveAppended(before, p);
        profiles := RemoveFirst(profiles, p);
        return Fail(SaveFailed);
      }
      assert profiles[..|before|] == before;
      CheckNewNameAccepts(NamesOf(before, NameOf), name);
      assert NamesOf(profiles, NameOf) == NamesOf(before, NameOf) + [name];
      return Success;
    }

    /** `delete_profile(name)`: every profile with that name goes, the others stay in order; the
        scheduler's jobs are left as they are. No match: failure with the list unchanged; a
        failed save is reported but the profiles stay deleted. */
    method DeleteProfile(name: string, saveOk: bool) returns (r: Reply)
      modifies this`profiles
      ensures profiles == WithoutName(old(profiles), NameOf, name)
      ensures forall p :: p in profiles <==> p in old(profiles) && p.profileName != name
      ensures r == Fail(NotFound) <==> FindFirst(old(profiles), NameOf, name).None?
      ensures r == Fail(NotFound) ==> profiles == old(profiles)
      ensures r == Success <==> FindFirst(old(profiles), NameOf, name).Some? && saveOk
      ensures FindFirst(old(profiles), NameOf, name).Some? && !saveOk ==> r == Fail(SaveFailed)
      ensures old(ActiveHaveJobs()) ==> ActiveHaveJobs()
    {
      WithoutNameFacts(profiles, NameOf, name);
      var before := |profiles|;
      profiles := WithoutName(profiles, NameOf, name);
      if |profiles| == before {
        return Fail(NotFound);
      }
      if !saveOk {
        return Fail(SaveFailed);
      }
      return Success;
    }

    /** `get_profile(name)`: the first profile with that name, or nothing. */
    function GetProfile(name: string): (r: Option<ScannerProfile>)
      reads this
      ensures r.Some? <==> name in NamesOf(profiles, NameOf)
      ensures r.Some? ==> r.value in profiles && r.value.profileName == name
      ensures r.Some? ==> exists i :: 0 <= i < |profiles| && profiles[i] == r.value
                                    && forall j :: 0 <= j < i ==> profiles[j].profileName != name
    {
      match FindFirst(profiles, NameOf, name)
      case None => None
      case Some(i) => Some(profiles[i])
    }

    /** `update_profile(name, field, value)`: only the first profile with that name changes, and
        only in the one attribute. */
    method UpdateProfile(name: string, u: ProfileUpdate, saveOk: bool) returns (r: Reply)
      modifies (set p | p in profiles)`nmapInput, (set p | p in profiles)`cve
      modifies (set p | p in profiles)`notifyEnabled, (set p | p in profiles)`notifyOnlyCve
      ensures old(GetProfile(name)).None? ==> r == Fail(NotFound)
      ensures old(GetProfile(name)).None? ==> forall q :: q in profiles ==> unchanged(q)
      ensures old(GetProfile(name)).Some? ==>
        var p := old(GetProfile(name)).value;
        && (r == Success <==> saveOk) && (!saveOk ==> r == Fail(SaveFailed))
        && (forall q :: q in profiles && q != p ==> unchanged(q))
        && p.isActive == old(p.isActive) && p.scheduler == old(p.scheduler) && p.logs == old(p.logs)
        && p.nmapInput == (if u.SetNmapInput? then u.input else old(p.nmapInput))
        && p.cve == (if u.SetCve? then u.on else old(p.cve))
        && p.notifyEnabled == (if u.SetNotifyEnabled? then u.on else old(p.notifyEnabled))
        && p.notifyOnlyCve == (if u.SetNotifyOnlyCve? then u.on else old(p.notifyOnlyCve))
      ensures old(ActiveHaveJobs()) ==> ActiveHaveJobs()
    {
      var found := GetProfile(name);
      if found.None? {
        return Fail(NotFound);
      }
      var p := found.value;
      match u {
        case SetNmapInput(input) => p.nmapInput := input;
        case SetCve(on) => p.cve := on;
        case SetNotifyEnabled(on) => p.notifyEnabled := on;
        case SetNotifyOnlyCve(on) => p.notifyOnlyCve := on;
      }
      r := if saveOk then Success else Fail(SaveFailed);
    }

    /** `turn_on_profile(name)`: for a found profile whose cron string is valid, its job is added
        (replacing one of the same id) and only then is it marked active; otherwise nothing
        changes. */
    method TurnOnProfile(name: string, cronValid: string -> bool) returns (r: Reply)
      modifies this`jobs, (set p | p in profiles)`isActive
      ensures profiles == old(profiles)
      ensures old(GetProfile(name)).None? ==>
        r == Fail(NotFound) && jobs == old(jobs) && forall q :: q in profiles ==> unchanged(q)
      ensures old(GetProfile(name)).Some? ==>
        var p := old(GetProfile(name)).value;
        var valid := p.scheduler.Some? && cronValid(p.scheduler.value);
        && (valid ==> r == Success && jobs == old(jobs) + {JobId(name)} && p.isActive)
        && (!valid ==> r == Fail(Threw) && jobs == old(jobs) && p.isActive == old(p.isActive))
        && (forall q :: q in profiles && q != p ==> unchanged(q))
        && p.scheduler == old(p.scheduler) && p.nmapInput == old(p.nmapInput)
      ensures old(ActiveHaveJobs()) ==> ActiveHaveJobs()
    {
      var found := GetProfile(name);
      if found.None? {
        return Fail(NotFound);
      }
      var p := found.value;
      if p.scheduler.None? || !cronValid(p.scheduler.value) {
        return Fail(Threw);
      }
      jobs := jobs + {JobId(p.profileName)};
      p.isActive := true;
      r := Success;
    }

    /** `turn_off_profile(name)`: removing a job that the scheduler does not hold raises, and then
        nothing changes; otherwise the job goes and the first profile with that name, if any, is
        marked inactive. */
    method TurnOffProfile(name: string) returns (r: Reply)
      modifies this`jobs, (set p | p in profiles)`isActive
      ensures profiles == old(profiles)
      ensures JobId(name) !in old(jobs) ==>
        r == Fail(Threw) && jobs == old(jobs) && forall q :: q in profiles ==> unchanged(q)
      ensures JobId(name) in old(jobs) ==>
        && r == Success && jobs == old(jobs) - {JobId(name)}
        && (old(GetProfile(name)).Some? ==> !old(GetProfile(name)).value.isActive)
        && (forall q :: q in profiles && Some(q) != old(GetProfile(name)) ==> unchanged(q))
      ensures old(ActiveHaveJobs() && Unique(NamesOf(profiles, NameOf))) ==> ActiveHaveJobs()
    {
      var id := JobId(name);
      if id !in jobs {
        return Fail(Threw);
      }
      jobs := jobs - {id};
      var found := GetProfile(name);
      if found.Some? {
        found.value.isActive := false;
      }
      r := Success;
      if old(ActiveHaveJobs() && Unique(NamesOf(profiles, NameOf))) {
        forall q | q in profiles && q.isActive
          ensures JobId(q.profileName) in jobs
        {
          if JobId(q.profileName) == id {
            JobIdInjective(q.profileName, name);
          }
        }
      }
    }

    /** `set_validated_scheduler(name, cron)`: fails for an unknown profile and, leaving the
        profile's cron string as it was, for an invalid one; a valid one is stored before the
        save, and stays stored when the save fails. */
    method SetValidatedScheduler(name: string, cron: string, cronValid: string -> bool, saveOk: bool)
      returns (r: Reply)
      modifies (set p | p in profiles)`scheduler
      ensures old(GetProfile(name)).None? ==> r == Fail(NotFound)
      ensures old(GetProfile(name)).None? ==> forall q :: q in profiles ==> unchanged(q)
      ensures old(GetProfile(name)).Some? ==>
        var p := old(GetProfile(name)).value;
        && (forall q :: q in profiles && q != p ==> unchanged(q))
        && (!cronValid(cron) ==> r == Fail(InvalidCron) && unchanged(p))
        && (cronValid(cron) ==>
              p.scheduler == Some(cron) && p.isActive == old(p.isActive)
              && (r == Success <==> saveOk) && (!saveOk ==> r == Fail(SaveFailed)))
      ensures old(ActiveHaveJobs()) ==> ActiveHaveJobs()
    {
      var found := GetProfile(name);
      if found.None? {
        return Fail(NotFound);
      }
      var p := found.value;
      if !cronValid(cron) {
        return Fail(InvalidCron);
      }
      p.scheduler := Some(cron);
      r := if saveOk then Success else Fail(SaveFailed);
    }

    /** `get_profile_logs(name)`: nothing for an unknown name, otherwise that profile's records. */
    method GetProfileLogs(name: string) returns (logs: Option<seq<ScanResults>>)
      modifies (set p | p in profiles)`db
      ensures logs.None? <==> name !in NamesOf(profiles, NameOf)
      ensures logs.Some? ==> logs.value == GetProfile(name).value.logs
      ensures logs.Some? ==> GetProfile(name).value.db.Some?
      ensures forall q :: q in profiles && Some(q) != old(GetProfile(name)) ==> unchanged(q)
      ensures ActiveHaveJobs() == old(ActiveHaveJobs())
    {
      var found := GetProfile(name);
      if found.None? {
        return None;
      }
      var records := found.value.GetLogs();
      logs := Some(records);
    }
  }
}
