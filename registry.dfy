/** What the two profile managers (src/streamml/back/detector_profiles_manager.py and
    src/netmonitor/back/scanner_profiles_manager.py) share: the profile-name rule, the lookup by
    name, the delete-by-name filter and `list.remove`. The profiles themselves are objects;
    these functions see them through a naming function. */
module Registry {
  import opened Wrappers

  /** A character of `[a-zA-Z0-9_-]`. */
  predicate NameChar(c: char) {
    ('a' <= c <= 'z') || ('A' <= c <= 'Z') || ('0' <= c <= '9') || c == '_' || c == '-'
  }

  predicate AllNameChars(s: string) {
    forall i :: 0 <= i < |s| ==> NameChar(s[i])
  }

  /** `re.match(r"^[a-zA-Z0-9_-]+$", s)`: one or more name characters, then the end of the
      string, where Python's `$` also matches just before a final newline. */
  predicate MatchesNamePattern(s: string) {
    (|s| > 0 && AllNameChars(s))
    || (|s| > 1 && s[|s| - 1] == '\n' && AllNameChars(s[..|s| - 1]))
  }

  /** The pattern accepts a name exactly when the name, minus at most one final newline, is a
      non-empty run of name characters; so a name never holds a newline anywhere else. */
  lemma NamePatternShape(s: string)
    ensures MatchesNamePattern(s) ==> s != [] && NameChar(s[0])
    ensures MatchesNamePattern(s) ==> forall i :: 0 <= i < |s| - 1 ==> NameChar(s[i])
    ensures MatchesNamePattern(s) && '\n' in s ==> s[|s| - 1] == '\n' && '\n' !in s[..|s| - 1]
    ensures MatchesNamePattern(s + "\n") <==> MatchesNamePattern(s) && s[|s| - 1] != '\n'
  {
    if MatchesNamePattern(s) && '\n' in s {
      var i :| 0 <= i < |s| && s[i] == '\n';
      assert !NameChar(s[i]);
    }
    var t := s + "\n";
    assert t[..|t| - 1] == s;
    if MatchesNamePattern(s) {
      if AllNameChars(s) {
      } else {
        assert s[|s| - 1] == '\n';
        assert !NameChar(s[|s| - 1]);
      }
    }
    if MatchesNamePattern(t) {
      assert !NameChar(t[|t| - 1]);
      assert AllNameChars(s);
    }
  }

  /** The final-newline case: "lab\n" passes the check, while "lab\nx" and "\n" do not. */
  lemma TrailingNewlinePasses()
    ensures MatchesNamePattern("lab\n")
    ensures !MatchesNamePattern("lab\nx")
    ensures !MatchesNamePattern("\n")
  {
    assert "lab\n"[..3] == "lab";
    assert !NameChar("lab\nx"[3]);
    assert !NameChar("\n"[0]);
  }

  /** Why `add_profile` refuses a name. */
  datatype NameError = Blank | BadCharacters | Duplicate

  /** The three checks of `add_profile`, in their order: not empty, matches the pattern, not
      already used. */
  function CheckNewName(names: seq<string>, name: string): Option<NameError> {
    if name == "" then Some(Blank)
    else if !MatchesNamePattern(name) then Some(BadCharacters)
    else if name in names then Some(Duplicate)
    else None
  }

  /** A name is accepted exactly when it is non-empty, matches the pattern, and is not among the
      names in use; an accepted name keeps the names unique. */
  lemma CheckNewNameAccepts(names: seq<string>, name: string)
    ensures CheckNewName(names, name).None? <==>
      name != "" && MatchesNamePattern(name) && name !in names
    ensures CheckNewName(names, name) == Some(Blank) <==> name == ""
    ensures CheckNewName(names, name).None? && Unique(names) ==> Unique(names + [name])
  {
    if CheckNewName(names, name).None? && Unique(names) {
      var s := names + [name];
      forall i, j | 0 <= i < j < |s|
        ensures s[i] != s[j]
      {
        if j == |s| - 1 {
          assert s[i] == names[i];
        }
      }
    }
  }

  predicate Unique(names: seq<string>) {
    forall i, j :: 0 <= i < j < |names| ==> names[i] != names[j]
  }

  /** Why an operation reported failure (`_fail`). */
  datatype Failure = BlankName | BadName | NameTaken | SaveFailed | LoadFailed | NotFound | InvalidCron | Threw

  /** The boolean the manager's operations return, with the reason when it is false. */
  datatype Reply = Success | Fail(reason: Failure)

  function NameFailure(e: NameError): Failure {
    match e
    case Blank => BlankName
    case BadCharacters => BadName
    case Duplicate => NameTaken
  }

  /** The names of a list of profiles, in list order. */
  function NamesOf<T>(ps: seq<T>, nameOf: T -> string): (r: seq<string>)
    ensures |r| == |ps| && forall i :: 0 <= i < |ps| ==> r[i] == nameOf(ps[i])
  {
    seq(|ps|, i requires 0 <= i < |ps| => nameOf(ps[i]))
  }

  /** `next((p for p in profiles if p.profile_name == name), None)`: the index of the first
      profile with that name. */
  function FindFirst<T>(ps: seq<T>, nameOf: T -> string, name: string): (r: Option<nat>)
    ensures r.Some? ==> r.value < |ps| && nameOf(ps[r.value]) == name
    ensures r.Some? ==> forall i :: 0 <= i < r.value ==> nameOf(ps[i]) != name
    ensures r.None? ==> forall i :: 0 <= i < |ps| ==> nameOf(ps[i]) != name
  {
    if ps == [] then None
    else if nameOf(ps[0]) == name then Some(0)
    else match FindFirst(ps[1..], nameOf, name)
      case None => None
      case Some(i) => Some(i + 1)
  }

  /** `[p for p in profiles if p.profile_name != name]`. */
  function WithoutName<T>(ps: seq<T>, nameOf: T -> string, name: string): seq<T> {
    if ps == [] then []
    else if nameOf(ps[0]) == name then WithoutName(ps[1..], nameOf, name)
    else [ps[0]] + WithoutName(ps[1..], nameOf, name)
  }

  /** The filter keeps exactly the profiles with another name, in their order: none left carries
      the name, the length drops by the number removed, and the list is unchanged exactly when
      no profile had the name. */
  lemma {:induction false} WithoutNameFacts<T>(ps: seq<T>, nameOf: T -> string, name: string)
    ensures forall q :: q in WithoutName(ps, nameOf, name) <==> q in ps && nameOf(q) != name
    ensures |WithoutName(ps, nameOf, name)| <= |ps|
    ensures |WithoutName(ps, nameOf, name)| == |ps| <==> FindFirst(ps, nameOf, name).None?
    ensures FindFirst(ps, nameOf, name).None? ==> WithoutName(ps, nameOf, name) == ps
  {
    if ps != [] {
      WithoutNameFacts(ps[1..], nameOf, name);
      assert ps == [ps[0]] + ps[1..];
    }
  }

  /** The filter keeps the survivors' relative order: it is a subsequence of the input. */
  predicate SubsequenceOf<T(==)>(s: seq<T>, t: seq<T>) {
    s == [] || (t != [] && ((s[0] == t[0] && SubsequenceOf(s[1..], t[1..])) || SubsequenceOf(s, t[1..])))
  }

  lemma {:induction false} WithoutNameKeepsOrder<T>(ps: seq<T>, nameOf: T -> string, name: string)
    ensures SubsequenceOf(WithoutName(ps, nameOf, name), ps)
  {
    if ps != [] {
      WithoutNameKeepsOrder(ps[1..], nameOf, name);
      var w := WithoutName(ps, nameOf, name);
      if nameOf(ps[0]) != name {
        assert w[0] == ps[0] && w[1..] == WithoutName(ps[1..], nameOf, name);
      }
    }
  }

  /** `list.remove(x)`: drops the first element equal to `x` (the source only calls it with an
      element that is present). */
  function RemoveFirst<T(==)>(s: seq<T>, x: T): seq<T> {
    if s == [] then []
    else if s[0] == x then s[1..]
    else [s[0]] + RemoveFirst(s[1..], x)
  }

  /** Removing an element that was just appended, and was not in the list before, gives the list
      back exactly: this is the rollback of a failed save in `add_profile`. */
  lemma {:induction false} RemoveAppended<T>(s: seq<T>, x: T)
    requires x !in s
    ensures RemoveFirst(s + [x], x) == s
  {
    if s != [] {
      assert (s + [x])[1..] == s[1..] + [x];
      RemoveAppended(s[1..], x);
    }
  }
}
