/** Docker preflight: it rewrites a spawn request to canonical host paths and accepts or
    refuses it. `canon` is the file system's partial canonicalisation at that moment. */
module Preflight {
  import opened Strings
  import opened Paths
  import opened Lifecycles
  import opened MountPlan

  datatype MountSpec = MountSpec(source: string, target: string, readOnly: bool)

  datatype Request = Request(cwd: string, mounts: seq<MountSpec>, env: seq<LaunchEnv>)

  datatype PathValueShape = Single | ColonList

  /** Catalogued environment keys and how their values hold paths. */
  type Catalog = map<string, PathValueShape>

  type Canon = string -> Option<string>

  datatype Refusal =
    | CwdUnresolved | SourceUnresolved | DuplicateTarget | EnvNotAbsolute | EnvUncovered | Planning(error: PlanError)

  // ---------- Rewriting ----------

  function JoinPath(base: string, relative: string): string {
    if base != "" && base[|base| - 1] == SLASH then base + relative else base + "/" + relative
  }

  function CanonSource(canon: Canon, cwd: string, source: string): Option<string> {
    canon(if source != "" && source[0] == SLASH then source else JoinPath(cwd, source))
  }

  /** `DockerMount::new`. */
  function ToDockerMount(m: MountSpec): Result<DockerMount, PlanError> {
    match Normalize(m.target)
    case None => Err(BadTarget)
    case Some(target) => Ok(DockerMount(m.source, target))
  }

  /** One mount canonicalised and normalised, or why not. */
  function PrepareMount(canon: Canon, cwd: string, m: MountSpec): Result<(MountSpec, DockerMount), Refusal> {
    match CanonSource(canon, cwd, m.source)
    case None => Err(SourceUnresolved)
    case Some(source) =>
      match ToDockerMount(m.(source := source))
      case Err(e) => Err(Planning(e))
      case Ok(docker) => Ok((m.(source := source), docker))
  }

  function PrepareMounts(canon: Canon, cwd: string, mounts: seq<MountSpec>)
    : (r: Result<(seq<MountSpec>, seq<DockerMount>), Refusal>)
    ensures r.Ok? ==> |r.value.0| == |r.value.1| == |mounts|
  {
    if mounts == [] then Ok(([], []))
    else
      match PrepareMounts(canon, cwd, mounts[..|mounts| - 1])
      case Err(e) => Err(e)
      case Ok(front) =>
        match PrepareMount(canon, cwd, mounts[|mounts| - 1])
        case Err(e) => Err(e)
        case Ok(last) => Ok((front.0 + [last.0], front.1 + [last.1]))
  }

  // ---------- Environment values ----------

  function PathValues(shape: PathValueShape, value: string): seq<string> {
    match shape
    case Single => [value]
    case ColonList => if value == "" then [value] else Split(value, ':')
  }

  predicate Catalogued(catalog: Catalog, e: LaunchEnv) { "CLAUDE_" <= e.key && e.key in catalog }

  predicate UnderSomeTarget(mounts: seq<DockerMount>, path: string) {
    exists k :: 0 <= k < |mounts| && ContainerCovers(mounts[k].target, path)
  }

  predicate ValueCovered(mounts: seq<DockerMount>, value: string) {
    Normalize(value).Some? && UnderSomeTarget(mounts, Normalize(value).value)
  }

  predicate EntryCovered(catalog: Catalog, mounts: seq<DockerMount>, e: LaunchEnv) {
    Catalogued(catalog, e) ==>
      forall i :: 0 <= i < |PathValues(catalog[e.key], e.value)| ==>
        ValueCovered(mounts, PathValues(catalog[e.key], e.value)[i])
  }

  predicate EnvCovered(catalog: Catalog, mounts: seq<DockerMount>, env: seq<LaunchEnv>) {
    forall i :: 0 <= i < |env| ==> EntryCovered(catalog, mounts, env[i])
  }

  // ---------- The whole check ----------

  /** What acceptance means: the rewritten mounts, distinct targets, a plan, covered paths. */
  predicate Accepts(
    canon: Canon, catalog: Catalog, r: Request, cwd: string, mounts: seq<MountSpec>, docker: seq<DockerMount>)
  {
    && canon(r.cwd) == Some(cwd)
    && PrepareMounts(canon, cwd, r.mounts) == Ok((mounts, docker))
    && DistinctTargets(docker)
    && Plan(cwd, docker).Ok?
    && EnvCovered(catalog, docker, r.env)
  }

  class SpawnRequestCell {
    var cwd: string
    var mounts: seq<MountSpec>
    var env: seq<LaunchEnv>

    constructor (r: Request)
      ensures Value() == r
    {
      this.cwd := r.cwd;
      this.mounts := r.mounts;
      this.env := r.env;
    }

    function Value(): Request
      reads this
    {
      Request(cwd, mounts, env)
    }

    /** `validate_docker_mounts`: accepts exactly the requests described by `Accepts`, and
        leaves an accepted request rewritten in place. */
    method ValidateDockerMounts(canon: Canon, catalog: Catalog)
      returns (refusal: Option<Refusal>, ghost docker: seq<DockerMount>)
      modifies this
      ensures refusal.None? ==>
                Accepts(canon, catalog, old(Value()), cwd, mounts, docker) && env == old(env)
      ensures refusal.Some? ==>
                forall c, ms, ds :: !Accepts(canon, catalog, old(Value()), c, ms, ds)
    {
      docker := [];
      var canonical := canon(cwd);
      if canonical.None? {
        return Some(CwdUnresolved), docker;
      }
      cwd := canonical.value;
      var prepared := CanonicalizeRequestMounts(canon);
      if prepared.Err? {
        return Some(prepared.error), docker;
      }
      docker := prepared.value;
      var distinct := RejectDuplicateMountTargets(prepared.value);
      if !distinct {
        return Some(DuplicateTarget), docker;
      }
      var plan := ValidateCwdMountPlan(cwd, prepared.value);
      if plan.Err? {
        return Some(Planning(plan.error)), docker;
      }
      var failed := RejectUncoveredPathEnvs(catalog, env, prepared.value);
      return failed, docker;
    }

    /** Rewrites the sources one after the other, stopping at the first refusal. */
    method CanonicalizeRequestMounts(canon: Canon) returns (r: Result<seq<DockerMount>, Refusal>)
      modifies this`mounts
      ensures match PrepareMounts(canon, cwd, old(mounts))
              case Ok(prepared) => r == Ok(prepared.1) && mounts == prepared.0
              case Err(e) => r == Err(e)
    {
      var docker: seq<DockerMount> := [];
      ghost var before := mounts;
      var i := 0;
      while i < |mounts|
        invariant 0 <= i <= |mounts| == |before|
        invariant mounts[i..] == before[i..]
        invariant PrepareMounts(canon, cwd, before[..i]) == Ok((mounts[..i], docker))
      {
        assert mounts[i] == mounts[i..][0] == before[i];
        PrepareNext(canon, cwd, before, i);
        var source := CanonSource(canon, cwd, mounts[i].source);
        if source.None? {
          return Err(SourceUnresolved);
        }
        var rewritten := mounts[i].(source := source.value);
        var one := ToDockerMount(rewritten);
        if one.Err? {
          return Err(Planning(one.error));
        }
        ghost var done := mounts[..i];
        mounts := mounts[i := rewritten];
        assert mounts[..i + 1] == done + [rewritten];
        docker := docker + [one.value];
        i := i + 1;
      }
      assert before[..i] == before && mounts[..i] == mounts;
      return Ok(docker);
    }
  }

  lemma {:induction false} PrepareErrSticks(canon: Canon, cwd: string, mounts: seq<MountSpec>, n: nat)
    requires n <= |mounts|
    ensures PrepareMounts(canon, cwd, mounts[..n]).Err? ==>
              PrepareMounts(canon, cwd, mounts) == PrepareMounts(canon, cwd, mounts[..n])
    decreases |mounts| - n
  {
    if n == |mounts| {
      assert mounts[..n] == mounts;
    } else {
      assert mounts[..n + 1][..n] == mounts[..n];
      PrepareErrSticks(canon, cwd, mounts, n + 1);
    }
  }

  /** One more mount either extends the prepared prefix or decides the whole result. */
  lemma PrepareNext(canon: Canon, cwd: string, mounts: seq<MountSpec>, i: nat)
    requires i < |mounts| && PrepareMounts(canon, cwd, mounts[..i]).Ok?
    ensures match PrepareMount(canon, cwd, mounts[i])
            case Err(e) => PrepareMounts(canon, cwd, mounts) == Err(e)
            case Ok(last) =>
              var front := PrepareMounts(canon, cwd, mounts[..i]).value;
              PrepareMounts(canon, cwd, mounts[..i + 1]) == Ok((front.0 + [last.0], front.1 + [last.1]))
  {
    assert mounts[..i + 1][..i] == mounts[..i];
    PrepareErrSticks(canon, cwd, mounts, i + 1);
  }

  predicate Declared(mounts: seq<DockerMount>, n: nat, target: string)
    requires n <= |mounts|
  {
    exists k :: 0 <= k < n && mounts[k].target == target
  }

  predicate DeclaredTwice(mounts: seq<DockerMount>, n: nat, target: string)
    requires n <= |mounts|
  {
    exists k :: 0 <= k < n && mounts[k].target == target && Declared(mounts, k, target)
  }

  lemma DeclaredStep(mounts: seq<DockerMount>, n: nat, target: string)
    requires n < |mounts|
    ensures Declared(mounts, n + 1, target) <==> Declared(mounts, n, target) || mounts[n].target == target
    ensures DeclaredTwice(mounts, n + 1, target) <==>
              DeclaredTwice(mounts, n, target) || (mounts[n].target == target && Declared(mounts, n, target))
  {
  }

  lemma DistinctIffNoneTwice(mounts: seq<DockerMount>)
    ensures DistinctTargets(mounts) <==> forall t :: !DeclaredTwice(mounts, |mounts|, t)
  {
    forall i, j | 0 <= i < j < |mounts| && mounts[i].target == mounts[j].target
      ensures DeclaredTwice(mounts, |mounts|, mounts[j].target)
    {
      assert Declared(mounts, j, mounts[j].target);
    }
  }

  /** The count map holds every declared target, with more than one for a repeated one. */
  ghost predicate Counts(counts: map<string, nat>, mounts: seq<DockerMount>, n: nat)
    requires n <= |mounts|
  {
    forall t ::
      && (t in counts <==> Declared(mounts, n, t))
      && (t in counts ==> counts[t] >= 1)
      && (DeclaredTwice(mounts, n, t) <==> t in counts && counts[t] > 1)
  }

  /** `reject_duplicate_mount_targets`, by counting. */
  method RejectDuplicateMountTargets(mounts: seq<DockerMount>) returns (ok: bool)
    ensures ok <==> DistinctTargets(mounts)
  {
    DistinctIffNoneTwice(mounts);
    var counts: map<string, nat> := map[];
    for i := 0 to |mounts|
      invariant Counts(counts, mounts, i)
    {
      var target := mounts[i].target;
      forall t
        ensures Declared(mounts, i + 1, t) <==> Declared(mounts, i, t) || target == t
        ensures DeclaredTwice(mounts, i + 1, t) <==>
                  DeclaredTwice(mounts, i, t) || (target == t && Declared(mounts, i, t))
      {
        DeclaredStep(mounts, i, t);
      }
      counts := counts[target := 1 + (if target in counts then counts[target] else 0)];
    }
    var left := counts.Keys;
    while left != {}
      invariant left <= counts.Keys
      invariant forall t :: t in counts.Keys - left ==> counts[t] <= 1
      decreases left
    {
      var target :| target in left;
      if counts[target] > 1 {
        return false;
      }
      left := left - {target};
    }
    return true;
  }

  method RejectUncoveredValues(mounts: seq<DockerMount>, values: seq<string>) returns (refusal: Option<Refusal>)
    ensures refusal.None? <==> forall k :: 0 <= k < |values| ==> ValueCovered(mounts, values[k])
  {
    for v := 0 to |values|
      invariant forall k :: 0 <= k < v ==> ValueCovered(mounts, values[k])
    {
      var normalized := NormalizeContainerPath(values[v]);
      if normalized.None? {
        return Some(EnvNotAbsolute);
      }
      if !UnderSomeTarget(mounts, normalized.value) {
        return Some(EnvUncovered);
      }
    }
    return None;
  }

  /** `reject_uncovered_path_envs`. */
  method RejectUncoveredPathEnvs(catalog: Catalog, env: seq<LaunchEnv>, mounts: seq<DockerMount>)
    returns (refusal: Option<Refusal>)
    ensures refusal.None? <==> EnvCovered(catalog, mounts, env)
  {
    for i := 0 to |env|
      invariant forall k :: 0 <= k < i ==> EntryCovered(catalog, mounts, env[k])
    {
      if Catalogued(catalog, env[i]) {
        refusal := RejectUncoveredValues(mounts, PathValues(catalog[env[i].key], env[i].value));
        if refusal.Some? {
          return refusal;
        }
      }
    }
    return None;
  }

  // ---------- Replanning from the rewritten request ----------

  function ToDockerMounts(mounts: seq<MountSpec>): Result<seq<DockerMount>, PlanError> {
    if mounts == [] then Ok([])
    else
      match ToDockerMounts(mounts[..|mounts| - 1])
      case Err(e) => Err(e)
      case Ok(front) =>
        match ToDockerMount(mounts[|mounts| - 1])
        case Err(e) => Err(e)
        case Ok(last) => Ok(front + [last])
  }

  /** `plan_cwd_mount`, as argv construction calls it. */
  function PlanCwdMount(cwd: string, mounts: seq<MountSpec>): Result<CwdMountPlan, PlanError> {
    match ToDockerMounts(mounts)
    case Err(e) => Err(e)
    case Ok(docker) => Plan(cwd, docker)
  }

  lemma {:induction false} PreparedReplans(canon: Canon, cwd: string, mounts: seq<MountSpec>)
    requires PrepareMounts(canon, cwd, mounts).Ok?
    ensures ToDockerMounts(PrepareMounts(canon, cwd, mounts).value.0) == Ok(PrepareMounts(canon, cwd, mounts).value.1)
  {
    if mounts != [] {
      var front := mounts[..|mounts| - 1];
      PreparedReplans(canon, cwd, front);
      var prepared := PrepareMounts(canon, cwd, mounts).value.0;
      assert prepared[..|prepared| - 1] == PrepareMounts(canon, cwd, front).value.0;
    }
  }

  /** What the file system is assumed to answer with. */
  ghost predicate CanonicalAnswers(canon: Canon) {
    forall p :: canon(p).Some? ==> Canonical(canon(p).value)
  }

  lemma {:induction false} PreparedShape(canon: Canon, cwd: string, mounts: seq<MountSpec>)
    requires CanonicalAnswers(canon) && PrepareMounts(canon, cwd, mounts).Ok?
    ensures var docker := PrepareMounts(canon, cwd, mounts).value.1;
            NormalTargets(docker) && forall k :: 0 <= k < |docker| ==> HostComponents(docker[k].source) != []
  {
    if mounts != [] {
      var front, last := mounts[..|mounts| - 1], mounts[|mounts| - 1];
      PreparedShape(canon, cwd, front);
      NormalizeIdempotent(last.target);
      HostOfCanonical(CanonSource(canon, cwd, last.source).value);
    }
  }

  // ---------- What acceptance says of sources and values ----------

  lemma AfterRoot(relative: string)
    ensures HostComponents([SLASH] + relative) == HostComponents([SLASH]) + InnerComponents(Split(relative, SLASH))
  {
    SplitHead("", SLASH, relative);
    SplitHead("", SLASH, "");
    assert "" + [SLASH] + relative == [SLASH] + relative && "" + [SLASH] + "" == [SLASH];
    assert ([""] + Split(relative, SLASH))[1..] == Split(relative, SLASH);
    assert ["", ""][1..] == [""] && [""][1..] == [];
  }

  lemma AfterSlash(front: string, relative: string)
    requires front != ""
    ensures HostComponents(front + [SLASH] + relative)
         == HostComponents(front + [SLASH]) + InnerComponents(Split(relative, SLASH))
  {
    HostJoin(front, relative);
    HostJoin(front, "");
    InnerOfOne("");
    assert front + [SLASH] + "" == front + [SLASH];
    assert HostComponents(front) + [] == HostComponents(front);
  }

  /** A relative path is taken from the base, `..` and all, as the file system would. */
  lemma JoinPathComponents(base: string, relative: string)
    requires base != ""
    ensures HostComponents(JoinPath(base, relative))
         == HostComponents(base) + InnerComponents(Split(relative, SLASH))
  {
    var n := |base| - 1;
    if base[n] != SLASH {
      HostJoin(base, relative);
      assert base + "/" + relative == base + [SLASH] + relative;
    } else if n == 0 {
      assert base == [SLASH];
      AfterRoot(relative);
    } else {
      AfterSlash(base[..n], relative);
      assert base[..n] + [SLASH] == base;
    }
  }

  /** The mount as accepted: target and mode as given, the source what the file system
      answers for the path given, taken from the working directory if it is relative. */
  ghost predicate ResolvedMount(canon: Canon, cwd: string, given: MountSpec, accepted: MountSpec) {
    && accepted.target == given.target && accepted.readOnly == given.readOnly
    && exists path :: canon(path) == Some(accepted.source)
         && if given.source != "" && given.source[0] == SLASH then path == given.source
            else HostComponents(path) == HostComponents(cwd) + InnerComponents(Split(given.source, SLASH))
  }

  lemma ResolvedOne(canon: Canon, cwd: string, m: MountSpec)
    requires cwd != "" && PrepareMount(canon, cwd, m).Ok?
    ensures ResolvedMount(canon, cwd, m, PrepareMount(canon, cwd, m).value.0)
  {
    JoinPathComponents(cwd, m.source);
    var path := if m.source != "" && m.source[0] == SLASH then m.source else JoinPath(cwd, m.source);
    assert canon(path) == Some(PrepareMount(canon, cwd, m).value.0.source);
  }

  lemma {:induction false} PreparedResolved(canon: Canon, cwd: string, mounts: seq<MountSpec>, k: nat)
    requires cwd != "" && PrepareMounts(canon, cwd, mounts).Ok? && k < |mounts|
    ensures ResolvedMount(canon, cwd, mounts[k], PrepareMounts(canon, cwd, mounts).value.0[k])
  {
    var n := |mounts| - 1;
    if k < n {
      PreparedResolved(canon, cwd, mounts[..n], k);
    } else {
      ResolvedOne(canon, cwd, mounts[n]);
    }
  }

  lemma PreparedOneIff(canon: Canon, cwd: string, m: MountSpec)
    ensures PrepareMount(canon, cwd, m).Ok?
       <==> CanonSource(canon, cwd, m.source).Some? && m.target != "" && m.target[0] == '/'
  {
  }

  /** Mounts are prepared exactly when the file system answers for every source and every
      target is absolute. */
  lemma {:induction false} PreparedIff(canon: Canon, cwd: string, mounts: seq<MountSpec>)
    ensures PrepareMounts(canon, cwd, mounts).Ok?
       <==> forall k :: 0 <= k < |mounts| ==>
              && CanonSource(canon, cwd, mounts[k].source).Some?
              && mounts[k].target != "" && mounts[k].target[0] == '/'
  {
    if mounts != [] {
      var n := |mounts| - 1;
      PreparedIff(canon, cwd, mounts[..n]);
      PreparedOneIff(canon, cwd, mounts[n]);
      assert forall k :: 0 <= k < n ==> mounts[..n][k] == mounts[k];
    }
  }

  /** SOURCES. Every mount of an accepted request is the one given, its source replaced by
      the file system's answer for the path meant. */
  lemma AcceptedMountsResolved(
    canon: Canon, catalog: Catalog, r: Request, cwd: string, mounts: seq<MountSpec>, docker: seq<DockerMount>)
    requires CanonicalAnswers(canon) && Accepts(canon, catalog, r, cwd, mounts, docker)
    ensures |mounts| == |r.mounts| && canon(r.cwd) == Some(cwd)
    ensures forall k :: 0 <= k < |mounts| ==> ResolvedMount(canon, cwd, r.mounts[k], mounts[k])
  {
    assert Canonical(cwd);
    forall k | 0 <= k < |mounts|
      ensures ResolvedMount(canon, cwd, r.mounts[k], mounts[k])
    {
      PreparedResolved(canon, cwd, r.mounts, k);
    }
  }

  /** A path a catalogued value holds: the whole value, or one colon-separated part of it. */
  predicate HoldsPath(shape: PathValueShape, value: string, path: string) {
    if shape.Single? then path == value else path in Split(value, ':')
  }

  lemma ValuesAreHeld(shape: PathValueShape, value: string, path: string)
    ensures path in PathValues(shape, value) <==> HoldsPath(shape, value, path)
    ensures shape.ColonList? ==> Join(PathValues(shape, value), ':') == value
  {
    JoinSplit(value, ':');
  }

  lemma CoveredValueIff(docker: seq<DockerMount>, value: string)
    requires NormalTargets(docker)
    ensures ValueCovered(docker, value)
       <==> value != "" && value[0] == SLASH
            && exists k :: 0 <= k < |docker| && PartsOf(docker[k].target) <= PartsOf(value)
  {
    if value != "" && value[0] == SLASH {
      NormalizeIdempotent(value);
      forall k | 0 <= k < |docker|
        ensures ContainerCovers(docker[k].target, Normalize(value).value)
           <==> PartsOf(docker[k].target) <= PartsOf(value)
      {
        PartsOfClean(docker[k].target);
        PartsOfClean(value);
        CoversIffPrefix(PartsOf(docker[k].target), PartsOf(value));
      }
    }
  }

  lemma EntryCoveredIff(catalog: Catalog, docker: seq<DockerMount>, e: LaunchEnv)
    requires NormalTargets(docker)
    ensures EntryCovered(catalog, docker, e)
       <==> ("CLAUDE_" <= e.key && e.key in catalog ==>
               forall path :: HoldsPath(catalog[e.key], e.value, path) ==> CoveredPath(docker, path))
  {
    if "CLAUDE_" <= e.key && e.key in catalog {
      var shape := catalog[e.key];
      forall path
        ensures path in PathValues(shape, e.value) <==> HoldsPath(shape, e.value, path)
        ensures ValueCovered(docker, path) <==> CoveredPath(docker, path)
      {
        ValuesAreHeld(shape, e.value, path);
        CoveredValueIff(docker, path);
      }
      assert forall k :: 0 <= k < |PathValues(shape, e.value)| ==>
               PathValues(shape, e.value)[k] in PathValues(shape, e.value);
    }
  }

  /** An absolute path at or below some declared target. */
  predicate CoveredPath(docker: seq<DockerMount>, path: string) {
    path != "" && path[0] == SLASH && exists k :: 0 <= k < |docker| && PartsOf(docker[k].target) <= PartsOf(path)
  }

  /** ENVIRONMENT. The environment is covered exactly when every path held by a catalogued
      entry, whose key starts with CLAUDE_, is absolute and lies at or below a target. */
  lemma EnvCoveredIff(catalog: Catalog, docker: seq<DockerMount>, env: seq<LaunchEnv>)
    requires NormalTargets(docker)
    ensures EnvCovered(catalog, docker, env)
       <==> forall i :: 0 <= i < |env| ==>
              ("CLAUDE_" <= env[i].key && env[i].key in catalog ==>
                 forall path :: HoldsPath(catalog[env[i].key], env[i].value, path) ==> CoveredPath(docker, path))
  {
    forall i | 0 <= i < |env|
      ensures EntryCovered(catalog, docker, env[i])
         <==> ("CLAUDE_" <= env[i].key && env[i].key in catalog ==>
                 forall path :: HoldsPath(catalog[env[i].key], env[i].value, path) ==> CoveredPath(docker, path))
    {
      EntryCoveredIff(catalog, docker, env[i]);
    }
  }

  /** REPLAN. Once preflight accepts, building the argv from the rewritten request cannot
      fail in planning and uses the very plan preflight validated; targets are pairwise
      distinct and every catalogued path value lies under one of them. */
  lemma AcceptedRequestReplans(
    canon: Canon, catalog: Catalog, r: Request, cwd: string, mounts: seq<MountSpec>, docker: seq<DockerMount>)
    requires Accepts(canon, catalog, r, cwd, mounts, docker)
    ensures PlanCwdMount(cwd, mounts) == Plan(cwd, docker) && PlanCwdMount(cwd, mounts).Ok?
    ensures forall i, j :: 0 <= i < j < |mounts| ==> Normalize(mounts[i].target) != Normalize(mounts[j].target)
    ensures forall i :: 0 <= i < |r.env| && Catalogued(catalog, r.env[i]) ==>
              forall k :: 0 <= k < |PathValues(catalog[r.env[i].key], r.env[i].value)| ==>
                ValueCovered(docker, PathValues(catalog[r.env[i].key], r.env[i].value)[k])
  {
    PreparedReplans(canon, cwd, r.mounts);
    PreparedTargets(canon, cwd, r.mounts);
    assert forall i :: 0 <= i < |r.env| ==> EntryCovered(catalog, docker, r.env[i]);
  }

  lemma {:induction false} PreparedTargets(canon: Canon, cwd: string, mounts: seq<MountSpec>)
    requires PrepareMounts(canon, cwd, mounts).Ok?
    ensures var (specs, docker) := PrepareMounts(canon, cwd, mounts).value;
            forall k :: 0 <= k < |specs| ==>
              Normalize(specs[k].target) == Some(docker[k].target) && specs[k].source == docker[k].source
  {
    if mounts != [] {
      PreparedTargets(canon, cwd, mounts[..|mounts| - 1]);
    }
  }

  /** END TO END. For every accepted request, the container resolves the planned workdir to
      the host working directory exactly when no declared target shadows the mount selected
      for it; with the automatic mount it always does. Some mount always resolves it. */
  lemma AcceptedRequestKeepsCwdIff(
    canon: Canon, catalog: Catalog, r: Request, cwd: string, mounts: seq<MountSpec>, docker: seq<DockerMount>, k: nat)
    requires CanonicalAnswers(canon) && Accepts(canon, catalog, r, cwd, mounts, docker)
    ensures PlanCwdMount(cwd, mounts) == Plan(cwd, docker) && Plan(cwd, docker).Ok?
    ensures var plan := Plan(cwd, docker).value;
            && (exists deepest: nat :: Deepest(Effective(cwd, plan, docker), plan.workdir, deepest))
            && (Deepest(Effective(cwd, plan, docker), plan.workdir, k) ==>
                  (ThroughMount(Effective(cwd, plan, docker)[k], plan.workdir) == Some(HostComponents(cwd))
                   <==> Unshadowed(cwd, docker)))
            && (plan.autoMountCwd ==> Unshadowed(cwd, docker))
  {
    AcceptedRequestReplans(canon, catalog, r, cwd, mounts, docker);
    PreparedShape(canon, cwd, r.mounts);
    var plan := Plan(cwd, docker).value;
    var deepest := PlanHasDeepest(cwd, docker);
    SelectCovers(cwd, docker);
    if Deepest(Effective(cwd, plan, docker), plan.workdir, k) {
      PlanResolvesIff(cwd, docker, k);
    }
  }

  /** A file system in which every canonical path is its own answer. */
  function Itself(path: string): Option<string> { if Canonical(path) then Some(path) else None }

  lemma PreparedTwo(canon: Canon, cwd: string, m: MountSpec, n: MountSpec)
    requires PrepareMount(canon, cwd, m).Ok? && PrepareMount(canon, cwd, n).Ok?
    ensures var p, q := PrepareMount(canon, cwd, m).value, PrepareMount(canon, cwd, n).value;
            PrepareMounts(canon, cwd, [m, n]) == Ok(([p.0, q.0], [p.1, q.1]))
  {
    assert [m, n][..1] == [m] && [m][..0] == [];
    var p, q := PrepareMount(canon, cwd, m).value, PrepareMount(canon, cwd, n).value;
    assert [p.0] + [q.0] == [p.0, q.0] && [p.1] + [q.1] == [p.1, q.1];
    assert [] + [p.0] == [p.0] && [] + [p.1] == [p.1];
    assert PrepareMounts(canon, cwd, [m]) == Ok(([p.0], [p.1]));
  }

  lemma PreparedAsItself(cwd: string, source: string, target: string)
    requires Canonical(source) && Canonical(target)
    ensures PrepareMount(Itself, cwd, MountSpec(source, target, false))
         == Ok((MountSpec(source, target, false), DockerMount(source, target)))
  {
  }

  /** Shadowed requests are accepted: `/w` at `/x` and `/o` at `/x/a`, from `/w/a`. */
  lemma ShadowedRequestAccepted(w: string, a: string, o: string, x: string)
    requires CleanPart(w) && CleanPart(a) && CleanPart(o) && CleanPart(x) && o != w
    ensures CanonicalAnswers(Itself)
    ensures var cwd, docker := RenderPath([w, a]), Shadowing(w, a, o, x);
            var mounts := [MountSpec(docker[0].source, docker[0].target, false),
                           MountSpec(docker[1].source, docker[1].target, false)];
            && Accepts(Itself, map[], Request(cwd, mounts, []), cwd, mounts, docker)
            && !Unshadowed(cwd, docker)
  {
    var cwd, docker := RenderPath([w, a]), Shadowing(w, a, o, x);
    ShadowedPlan(w, a, o, x);
    OfRendered([w, a]);
    OfRendered([w]);
    OfRendered([o]);
    OfRendered([x]);
    OfRendered([x, a]);
    PreparedAsItself(cwd, docker[0].source, docker[0].target);
    PreparedAsItself(cwd, docker[1].source, docker[1].target);
    PreparedTwo(Itself, cwd, MountSpec(docker[0].source, docker[0].target, false),
                MountSpec(docker[1].source, docker[1].target, false));
    assert Effective(cwd, Plan(cwd, docker).value, docker) == docker;
    PlanResolvesIff(cwd, docker, 1);
  }
}
