/** The project registry: what makes it valid, how it is normalized, and how a new project gets its ID. */
module Registry {
  import opened Collections
  import opened Text

  datatype Project = Project(
    id: string, name: string, uproject: string,
    engineRoot: string, clangdPath: string, database: string, cacheDir: string)

  datatype RegistryError = UnsupportedVersion | BadPath | MissingId | DuplicateId | DuplicatePath

  const CURRENT_VERSION := 1

  // ----- normalizing -----

  /** How the file system resolves a path is a parameter; an empty path stays empty. */
  function NormalizePath(resolve: string -> Option<string>, path: string): Option<string> {
    if path == "" then Some("") else resolve(path)
  }

  function Normalize(resolve: string -> Option<string>, p: Project): Option<Project> {
    var uproject := NormalizePath(resolve, p.uproject);
    var engineRoot := NormalizePath(resolve, p.engineRoot);
    var clangdPath := NormalizePath(resolve, p.clangdPath);
    var database := NormalizePath(resolve, p.database);
    var cacheDir := NormalizePath(resolve, p.cacheDir);
    if uproject.None? || engineRoot.None? || clangdPath.None? || database.None? || cacheDir.None? then None
    else Some(Project(p.id, p.name, uproject.value, engineRoot.value, clangdPath.value, database.value, cacheDir.value))
  }

  /** The outcome for a registry's first projects: the error of the first that has one. */
  function FirstError(resolve: string -> Option<string>, projects: seq<Project>): Option<RegistryError> {
    if projects == [] then None
    else
      var n := |projects| - 1;
      var before := FirstError(resolve, projects[..n]);
      if before.Some? then before else ErrorOf(resolve, projects[..n], projects[n])
  }

  /** The error of one project after others that have none. */
  function ErrorOf(resolve: string -> Option<string>, before: seq<Project>, p: Project): Option<RegistryError> {
    var normal := Normalize(resolve, p);
    if normal.None? then Some(BadPath)
    else if p.id == "" then Some(MissingId)
    else if Fold(p.id) in IdKeys(before) then Some(DuplicateId)
    else if Some(Fold(normal.value.uproject)) in PathKeys(resolve, before) then Some(DuplicatePath)
    else None
  }

  function IdKeys(projects: seq<Project>): set<string> {
    set i | 0 <= i < |projects| :: Fold(projects[i].id)
  }

  function PathKeys(resolve: string -> Option<string>, projects: seq<Project>): set<Option<string>> {
    set i | 0 <= i < |projects| :: NormalKey(resolve, projects[i])
  }

  lemma KeysOneMore(resolve: string -> Option<string>, projects: seq<Project>, i: nat)
    requires i < |projects|
    ensures IdKeys(projects[..i + 1]) == IdKeys(projects[..i]) + {Fold(projects[i].id)}
    ensures PathKeys(resolve, projects[..i + 1]) == PathKeys(resolve, projects[..i]) + {NormalKey(resolve, projects[i])}
  {
    var before, after := projects[..i], projects[..i + 1];
    assert forall j :: 0 <= j < i ==> after[j] == before[j] == projects[j];
    assert after[i] == projects[i];
  }

  /** What the paths of projects are compared by. */
  function NormalKey(resolve: string -> Option<string>, p: Project): Option<string> {
    var path := NormalizePath(resolve, p.uproject);
    if path.None? then None else Some(Fold(path.value))
  }

  /** All IDs are present and differ, all paths resolve and differ, in both cases whatever the letters' case. */
  ghost predicate Valid(resolve: string -> Option<string>, projects: seq<Project>) {
    && (forall i :: 0 <= i < |projects| ==> Normalize(resolve, projects[i]).Some? && projects[i].id != "")
    && (forall i, j :: 0 <= i < j < |projects| ==> Fold(projects[i].id) != Fold(projects[j].id))
    && (forall i, j :: 0 <= i < j < |projects| ==> NormalKey(resolve, projects[i]) != NormalKey(resolve, projects[j]))
  }

  lemma ValidOneMore(resolve: string -> Option<string>, before: seq<Project>, p: Project)
    ensures Valid(resolve, before + [p]) <==> Valid(resolve, before) && ErrorOf(resolve, before, p).None?
  {
    var all := before + [p];
    var n := |before|;
    assert all[n] == p;
    assert forall i :: 0 <= i < n ==> all[i] == before[i];
    if Valid(resolve, all) {
      assert forall i :: 0 <= i < n ==> Fold(all[i].id) != Fold(all[n].id);
      assert forall i :: 0 <= i < n ==> NormalKey(resolve, all[i]) != NormalKey(resolve, all[n]);
    }
  }

  lemma {:induction false} NoErrorMeansValid(resolve: string -> Option<string>, projects: seq<Project>)
    ensures FirstError(resolve, projects).None? <==> Valid(resolve, projects)
  {
    if projects != [] {
      var before, last := projects[..|projects| - 1], projects[|projects| - 1];
      assert projects == before + [last];
      NoErrorMeansValid(resolve, before);
      ValidOneMore(resolve, before, last);
    }
  }

  /** Normalizes one project in place, path by path, unless one of its paths does not resolve. */
  method NormalizePaths(projects: array<Project>, i: nat, resolve: string -> Option<string>) returns (ok: bool)
    requires i < projects.Length
    modifies projects
    ensures ok <==> Normalize(resolve, old(projects[i])).Some?
    ensures ok ==> Some(projects[i]) == Normalize(resolve, old(projects[i]))
    ensures projects[i].id == old(projects[i].id) && projects[i].name == old(projects[i].name)
    ensures forall j :: 0 <= j < projects.Length && j != i ==> projects[j] == old(projects[j])
  {
    var uproject := NormalizePath(resolve, projects[i].uproject);
    if uproject.None? { return false; }
    projects[i] := projects[i].(uproject := uproject.value);
    var engineRoot := NormalizePath(resolve, projects[i].engineRoot);
    if engineRoot.None? { return false; }
    projects[i] := projects[i].(engineRoot := engineRoot.value);
    var clangdPath := NormalizePath(resolve, projects[i].clangdPath);
    if clangdPath.None? { return false; }
    projects[i] := projects[i].(clangdPath := clangdPath.value);
    var database := NormalizePath(resolve, projects[i].database);
    if database.None? { return false; }
    projects[i] := projects[i].(database := database.value);
    var cacheDir := NormalizePath(resolve, projects[i].cacheDir);
    if cacheDir.None? { return false; }
    projects[i] := projects[i].(cacheDir := cacheDir.value);
    ok := true;
  }

  /** Normalizes and checks a registry's projects in place. */
  method NormalizeAndValidate(version: int, projects: array<Project>, resolve: string -> Option<string>)
      returns (error: Option<RegistryError>)
    modifies projects
    ensures error == if version != CURRENT_VERSION then Some(UnsupportedVersion)
                     else FirstError(resolve, old(projects[..]))
    ensures error.None? ==> forall i :: 0 <= i < projects.Length ==>
      Some(projects[i]) == Normalize(resolve, old(projects[i]))
    ensures forall i :: 0 <= i < projects.Length ==>
      projects[i].id == old(projects[i].id) && projects[i].name == old(projects[i].name)
  {
    if version != CURRENT_VERSION {
      return Some(UnsupportedVersion);
    }
    var ids: set<string> := {};
    var paths: set<Option<string>> := {};
    ghost var was := projects[..];
    error := None;
    var i := 0;
    while i < projects.Length && error.None?
      invariant 0 <= i <= projects.Length
      invariant if error.None? then FirstError(resolve, was[..i]).None? else FirstError(resolve, was) == error
      invariant error.None? ==> ids == IdKeys(was[..i]) && paths == PathKeys(resolve, was[..i])
      invariant error.None? ==> forall j :: 0 <= j < i ==> Some(projects[j]) == Normalize(resolve, was[j])
      invariant error.None? ==> forall j :: i <= j < projects.Length ==> projects[j] == was[j]
      invariant forall j :: 0 <= j < projects.Length ==> projects[j].id == was[j].id && projects[j].name == was[j].name
      decreases projects.Length - i, error.None?
    {
      PrefixError(resolve, was, i);
      KeysOneMore(resolve, was, i);
      var ok := NormalizePaths(projects, i, resolve);
      var comparisonId, comparisonPath := Fold(projects[i].id), Some(Fold(projects[i].uproject));
      if !ok {
        error := Some(BadPath);
      } else if projects[i].id == "" {
        error := Some(MissingId);
      } else if comparisonId in ids {
        error := Some(DuplicateId);
      } else if comparisonPath in paths {
        error := Some(DuplicatePath);
      } else {
        ids := ids + {comparisonId};
        paths := paths + {comparisonPath};
        i := i + 1;
      }
    }
    assert was[..projects.Length] == was;
  }

  /** An error in a prefix is the error of the whole. */
  lemma {:induction false} PrefixErrorStays(resolve: string -> Option<string>, projects: seq<Project>, n: nat)
    requires n <= |projects| && FirstError(resolve, projects[..n]).Some?
    ensures FirstError(resolve, projects) == FirstError(resolve, projects[..n])
    decreases |projects|
  {
    if n < |projects| {
      var most := projects[..|projects| - 1];
      assert most[..n] == projects[..n];
      PrefixErrorStays(resolve, most, n);
    } else {
      assert projects[..n] == projects;
    }
  }

  lemma PrefixError(resolve: string -> Option<string>, projects: seq<Project>, i: nat)
    requires i < |projects| && FirstError(resolve, projects[..i]).None?
    ensures var error := ErrorOf(resolve, projects[..i], projects[i]);
      && FirstError(resolve, projects[..i + 1]) == error
      && (error.Some? ==> FirstError(resolve, projects) == error)
  {
    assert projects[..i + 1][..i] == projects[..i];
    if ErrorOf(resolve, projects[..i], projects[i]).Some? { PrefixErrorStays(resolve, projects, i + 1); }
  }

  /** Resolving what has been resolved changes nothing. */
  ghost predicate Settled(resolve: string -> Option<string>) {
    forall path, resolved :: resolve(path) == Some(resolved) ==> NormalizePath(resolve, resolved) == Some(resolved)
  }

  lemma NormalizeIsIdempotent(resolve: string -> Option<string>, p: Project)
    requires Settled(resolve) && Normalize(resolve, p).Some?
    ensures Normalize(resolve, Normalize(resolve, p).value) == Normalize(resolve, p)
  {
  }

  /** A registry that was accepted is accepted again, unchanged. */
  lemma AcceptedStaysAccepted(resolve: string -> Option<string>, projects: seq<Project>, normal: seq<Project>)
    requires Settled(resolve) && Valid(resolve, projects) && |normal| == |projects|
    requires forall i :: 0 <= i < |projects| ==> Normalize(resolve, projects[i]) == Some(normal[i])
    ensures Valid(resolve, normal) && forall i :: 0 <= i < |normal| ==> Normalize(resolve, normal[i]) == Some(normal[i])
  {
    forall i | 0 <= i < |normal|
      ensures Normalize(resolve, normal[i]) == Some(normal[i])
        && NormalKey(resolve, normal[i]) == NormalKey(resolve, projects[i])
    {
      NormalizeIsIdempotent(resolve, projects[i]);
    }
  }

  // ----- what normalizing and refusing come to -----

  predicate Resolves(resolve: string -> Option<string>, path: string, resolved: string) {
    if path == "" then resolved == "" else resolve(path) == Some(resolved)
  }

  /** A project is normalized to the one with each of its paths resolved, and all else as it was. */
  lemma NormalizesEachPath(resolve: string -> Option<string>, p: Project, normal: Project)
    ensures Normalize(resolve, p) == Some(normal) <==>
      && normal.id == p.id && normal.name == p.name
      && Resolves(resolve, p.uproject, normal.uproject) && Resolves(resolve, p.engineRoot, normal.engineRoot)
      && Resolves(resolve, p.clangdPath, normal.clangdPath) && Resolves(resolve, p.database, normal.database)
      && Resolves(resolve, p.cacheDir, normal.cacheDir)
  {
  }

  predicate SameId(a: Project, b: Project) {
    Fold(a.id) == Fold(b.id)
  }

  predicate SamePath(resolve: string -> Option<string>, a: Project, b: Project) {
    var first, second := NormalizePath(resolve, a.uproject), NormalizePath(resolve, b.uproject);
    first.Some? && second.Some? && Fold(first.value) == Fold(second.value)
  }

  /** What is wrong with a project after these others, in the order in which it is looked for. */
  ghost predicate IsWrong(resolve: string -> Option<string>, before: seq<Project>, p: Project, error: RegistryError) {
    var resolves := Normalize(resolve, p).Some?;
    var sameId := exists i :: 0 <= i < |before| && SameId(before[i], p);
    var samePath := exists i :: 0 <= i < |before| && SamePath(resolve, before[i], p);
    match error
    case BadPath => !resolves
    case MissingId => resolves && p.id == ""
    case DuplicateId => resolves && p.id != "" && sameId
    case DuplicatePath => resolves && p.id != "" && !sameId && samePath
    case UnsupportedVersion => false
  }

  /** The error reported is what is wrong with the first project with which anything is. */
  lemma ErrorsSayWhatIsWrong(resolve: string -> Option<string>, projects: seq<Project>, error: RegistryError)
    ensures FirstError(resolve, projects) == Some(error) <==>
      exists i :: 0 <= i < |projects| && WrongAt(resolve, projects, i, error)
  {
    if FirstError(resolve, projects) == Some(error) { var i := SomethingIsWrong(resolve, projects, error); }
    if i :| 0 <= i < |projects| && WrongAt(resolve, projects, i, error) {
      NoErrorMeansValid(resolve, projects[..i]);
      ErrorOfSays(resolve, projects[..i], projects[i], error);
      PrefixError(resolve, projects, i);
    }
  }

  lemma {:induction false} SomethingIsWrong(resolve: string -> Option<string>, projects: seq<Project>,
                                            error: RegistryError) returns (i: nat)
    requires FirstError(resolve, projects) == Some(error)
    ensures i < |projects| && WrongAt(resolve, projects, i, error)
    decreases |projects|
  {
    var before, n := projects[..|projects| - 1], |projects| - 1;
    if FirstError(resolve, before).Some? {
      i := SomethingIsWrong(resolve, before, error);
      assert before[..i] == projects[..i];
    } else {
      i := n;
      NoErrorMeansValid(resolve, before);
      ErrorOfSays(resolve, before, projects[n], error);
    }
  }

  ghost predicate WrongAt(resolve: string -> Option<string>, projects: seq<Project>, i: nat, error: RegistryError)
    requires i < |projects|
  {
    Valid(resolve, projects[..i]) && IsWrong(resolve, projects[..i], projects[i], error)
  }

  lemma ErrorOfSays(resolve: string -> Option<string>, before: seq<Project>, p: Project, error: RegistryError)
    ensures ErrorOf(resolve, before, p) == Some(error) <==> IsWrong(resolve, before, p, error)
  {
    assert Fold(p.id) in IdKeys(before) <==> exists i :: 0 <= i < |before| && SameId(before[i], p);
    if Normalize(resolve, p).Some? {
      assert NormalKey(resolve, p) in PathKeys(resolve, before)
        <==> exists i :: 0 <= i < |before| && SamePath(resolve, before[i], p);
    }
  }

  // ----- IDs for new projects -----

  function Dashed(name: string): (s: string)
    ensures |s| == |name|
  {
    seq(|name|, i requires 0 <= i < |name| => if name[i] == ' ' then '-' else name[i])
  }

  function BaseId(name: string): (base: string)
    ensures base != "" && Fold(base) == base
  {
    var base := Fold(Dashed(Trim(name)));
    if base == "" then "project" else base
  }

  /** The base is the name in small letters, with dashes for blanks, and a word of its own for no name. */
  lemma BasesAreReadable(name: string)
    ensures var base, trimmed := BaseId(name), Trim(name);
      if trimmed == "" then base == "project"
      else |base| == |trimmed| && forall i :: 0 <= i < |base| ==>
        base[i] == if trimmed[i] == ' ' then '-'
                   else if 'A' <= trimmed[i] <= 'Z' then (trimmed[i] as int + 32) as char
                   else trimmed[i]
    ensures ' ' !in BaseId(name)
  {
  }

  /** The first numbered candidate has the number two. */
  lemma CandidatesAreNumbered()
    ensures CandidateId("game", 0) == "game" && CandidateId("game", 1) == "game-2"
    ensures CandidateId("game", 9) == "game-10"
  {
    assert Dec(2) == "2";
    assert Dec(10) == Dec(1) + "0" == "10";
  }

  /** The IDs tried, in order: the base, then the base numbered from two. */
  function CandidateId(base: string, k: nat): string {
    if k == 0 then base else base + "-" + Dec(k + 1)
  }

  predicate Taken(projects: seq<Project>, id: string) {
    exists i :: 0 <= i < |projects| && Fold(projects[i].id) == Fold(id)
  }

  lemma DigitsFold(s: string)
    requires AllDigits(s)
    ensures Fold(s) == s
  {
  }

  /** No two candidates are alike, even up to case. */
  lemma CandidatesDiffer(base: string, j: nat, k: nat)
    requires j != k
    ensures Fold(CandidateId(base, j)) != Fold(CandidateId(base, k))
  {
    if j > 0 && k > 0 {
      FoldAppend(base + "-", Dec(j + 1));
      FoldAppend(base + "-", Dec(k + 1));
      DigitsFold(Dec(j + 1));
      DigitsFold(Dec(k + 1));
      if Fold(CandidateId(base, j)) == Fold(CandidateId(base, k)) {
        var n := |base| + 1;
        assert Fold(CandidateId(base, j))[n..] == Dec(j + 1);
        assert Fold(CandidateId(base, k))[n..] == Dec(k + 1);
        DecIsInjective(j + 1, k + 1);
      }
    } else {
      assert |CandidateId(base, j)| != |CandidateId(base, k)|;
    }
  }

  lemma {:induction false} Pigeonhole(n: nat, owner: seq<nat>)
    requires forall k :: 0 <= k < |owner| ==> owner[k] < n
    requires forall j, k :: 0 <= j < k < |owner| ==> owner[j] != owner[k]
    ensures |owner| <= n
  {
    if owner != [] {
      var last := |owner| - 1;
      var others := seq(last, k requires 0 <= k < last => if owner[k] == n - 1 then owner[last] else owner[k]);
      Pigeonhole(n - 1, others);
    }
  }

  /** As many candidates cannot all be taken as there are projects, and one more. */
  lemma SomeCandidateIsFree(projects: seq<Project>, base: string, owner: seq<nat>)
    requires forall k :: 0 <= k < |owner| ==>
      owner[k] < |projects| && Fold(projects[owner[k]].id) == Fold(CandidateId(base, k))
    ensures |owner| <= |projects|
  {
    forall j, k | 0 <= j < k < |owner| ensures owner[j] != owner[k] { CandidatesDiffer(base, j, k); }
    Pigeonhole(|projects|, owner);
  }

  /** The first candidate that no project has, found within one more than there are projects. */
  method StableId(name: string, projects: seq<Project>) returns (id: string)
    ensures id != "" && !Taken(projects, id)
    ensures exists k :: 0 <= k <= |projects| && id == CandidateId(BaseId(name), k)
                        && forall j :: 0 <= j < k ==> Taken(projects, CandidateId(BaseId(name), j))
  {
    var base := BaseId(name);
    id := base;
    ghost var owner: seq<nat> := [];
    var n := 2;
    while true
      invariant n == |owner| + 2 && id == CandidateId(base, |owner|) && |owner| <= |projects|
      invariant forall k :: 0 <= k < |owner| ==>
        owner[k] < |projects| && Fold(projects[owner[k]].id) == Fold(CandidateId(base, k))
      decreases |projects| + 2 - n
    {
      var found := false;
      var i := 0;
      while i < |projects|
        invariant 0 <= i <= |projects| && !found
        invariant forall j :: 0 <= j < i ==> Fold(projects[j].id) != Fold(id)
      {
        if Fold(projects[i].id) == Fold(id) {
          found := true;
          break;
        }
        i := i + 1;
      }
      if !found {
        assert forall k :: 0 <= k < |owner| ==> Taken(projects, CandidateId(base, k));
        return;
      }
      owner := owner + [i];
      SomeCandidateIsFree(projects, base, owner);
      id := base + "-" + Dec(n);
      n := n + 1;
    }
  }

  /** Under an ID that is free, only the paths of the new project can be refused. */
  lemma FreeIdIsNoError(resolve: string -> Option<string>, projects: seq<Project>, p: Project)
    requires Valid(resolve, projects) && p.id != "" && !Taken(projects, p.id)
    ensures FirstError(resolve, projects + [p])
         == if Normalize(resolve, p).None? then Some(BadPath)
            else if NormalKey(resolve, p) in PathKeys(resolve, projects) then Some(DuplicatePath)
            else None
    ensures FirstError(resolve, projects + [p]).None? ==> Valid(resolve, projects + [p])
  {
    var all := projects + [p];
    assert all[..|projects|] == projects;
    NoErrorMeansValid(resolve, projects);
    NoErrorMeansValid(resolve, all);
  }

  /** Adds a project under a fresh ID; the registry stays valid, and is untouched by a failure. */
  method Add(projects: seq<Project>, p: Project, resolve: string -> Option<string>)
      returns (added: seq<Project>, error: Option<RegistryError>)
    requires Settled(resolve) && Valid(resolve, projects) && IsNormal(resolve, projects, projects)
    ensures error.None? ==> Valid(resolve, added) && IsNormal(resolve, added, added)
    ensures error.None? ==> |added| == |projects| + 1 && added[..|projects|] == projects
    ensures error.None? ==> var last := added[|projects|];
      !Taken(projects, last.id) && Normalize(resolve, p.(id := last.id)) == Some(last)
    ensures error.Some? ==> added == projects
    ensures error == Some(BadPath) <==> Normalize(resolve, p).None?
    ensures error == Some(DuplicatePath) <==>
      Normalize(resolve, p).Some? && NormalKey(resolve, p) in PathKeys(resolve, projects)
    ensures error.Some? ==> error.value in {BadPath, DuplicatePath}
  {
    var id := StableId(p.name, projects);
    var last := p.(id := id);
    var all := projects + [last];
    var a := new Project[|all|](i requires 0 <= i < |all| => all[i]);
    assert a[..] == all;
    error := NormalizeAndValidate(CURRENT_VERSION, a, resolve);
    FreeIdIsNoError(resolve, projects, last);
    SameOutcome(resolve, p, id);
    added := projects;
    if error.None? {
      added := a[..];
      AddedIsNormal(resolve, projects, last, added);
    }
  }

  /** Whether a registry's projects are as normalizing leaves them. */
  ghost predicate IsNormal(resolve: string -> Option<string>, projects: seq<Project>, normal: seq<Project>) {
    |normal| == |projects| && forall i :: 0 <= i < |projects| ==> Normalize(resolve, projects[i]) == Some(normal[i])
  }

  lemma AddedIsNormal(resolve: string -> Option<string>, projects: seq<Project>, last: Project, added: seq<Project>)
    requires Settled(resolve) && IsNormal(resolve, projects, projects) && Valid(resolve, projects + [last])
    requires IsNormal(resolve, projects + [last], added)
    ensures Valid(resolve, added) && IsNormal(resolve, added, added)
    ensures added[..|projects|] == projects && Normalize(resolve, last) == Some(added[|projects|])
  {
    var all := projects + [last];
    assert forall i :: 0 <= i < |projects| ==> all[i] == projects[i];
    assert all[|projects|] == last;
    AcceptedStaysAccepted(resolve, all, added);
  }

  /** The ID has no part in normalizing. */
  lemma SameOutcome(resolve: string -> Option<string>, p: Project, id: string)
    ensures Normalize(resolve, p.(id := id)).Some? <==> Normalize(resolve, p).Some?
    ensures NormalKey(resolve, p.(id := id)) == NormalKey(resolve, p)
  {
  }
}
