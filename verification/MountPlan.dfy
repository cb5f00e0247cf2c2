/** Where the container starts: selecting the mount that carries the host working
    directory and mapping that directory into the container. */
module MountPlan {
  import opened Strings
  import opened Paths

  /** Declared mount: host source as given, container target already normalised. */
  datatype DockerMount = DockerMount(source: string, target: string)

  datatype CwdMountPlan = CwdMountPlan(autoMountCwd: bool, workdir: string)

  datatype PlanError = BadTarget | SourceBelowCwd | AmbiguousCover | RelativeCwd | TargetOverlap

  predicate Covers(m: DockerMount, cwd: string) { HostCovers(m.source, cwd) }

  function Precedence(m: DockerMount): nat { |HostComponents(m.source)| }

  // ---------- Cover selection ----------

  function Consider(cwd: string, best: Option<DockerMount>, m: DockerMount): Result<Option<DockerMount>, PlanError> {
    if !Covers(m, cwd) then Ok(best)
    else if best.None? || Precedence(m) > Precedence(best.value) then Ok(Some(m))
    else if Precedence(m) == Precedence(best.value) then Err(AmbiguousCover)
    else Ok(best)
  }

  function Select(cwd: string, mounts: seq<DockerMount>): Result<Option<DockerMount>, PlanError> {
    if mounts == [] then Ok(None)
    else
      match Select(cwd, mounts[..|mounts| - 1])
      case Err(e) => Err(e)
      case Ok(best) => Consider(cwd, best, mounts[|mounts| - 1])
  }

  /** `select_cwd_cover`: a scan with a running best and its length. */
  method SelectCwdCover(cwd: string, mounts: seq<DockerMount>) returns (r: Result<Option<DockerMount>, PlanError>)
    ensures r == Select(cwd, mounts)
  {
    var selected: Option<DockerMount> := None;
    var selectedLen := 0;
    for i := 0 to |mounts|
      invariant Select(cwd, mounts[..i]) == Ok(selected)
      invariant selectedLen == if selected.Some? then Precedence(selected.value) else 0
    {
      var mount := mounts[i];
      assert mounts[..i + 1][..i] == mounts[..i];
      SelectErrSticks(cwd, mounts, i + 1);
      if !HostCovers(mount.source, cwd) {
        continue;
      }
      var length := |HostComponents(mount.source)|;
      if length > selectedLen {
        selected := Some(mount);
        selectedLen := length;
        continue;
      }
      if length == selectedLen {
        if selected.None? {
          selected := Some(mount);
          selectedLen := length;
          continue;
        }
        return Err(AmbiguousCover);
      }
    }
    assert mounts[..|mounts|] == mounts;
    return Ok(selected);
  }

  lemma {:induction false} SelectErrSticks(cwd: string, mounts: seq<DockerMount>, n: nat)
    requires n <= |mounts|
    ensures Select(cwd, mounts[..n]).Err? ==> Select(cwd, mounts) == Select(cwd, mounts[..n])
    decreases |mounts| - n
  {
    if n == |mounts| {
      assert mounts[..n] == mounts;
    } else {
      assert mounts[..n + 1][..n] == mounts[..n];
      SelectErrSticks(cwd, mounts, n + 1);
    }
  }

  lemma ErrSpreads(cwd: string, mounts: seq<DockerMount>, j: nat)
    requires j < |mounts| && Select(cwd, mounts[..j] + [mounts[j]]).Err?
    ensures Select(cwd, mounts).Err?
  {
    assert mounts[..j + 1] == mounts[..j] + [mounts[j]];
    SelectErrSticks(cwd, mounts, j + 1);
  }

  /** Two covers of equal length with no longer cover before the second. */
  predicate Clash(cwd: string, mounts: seq<DockerMount>, i: nat, j: nat) {
    && i < j < |mounts|
    && Covers(mounts[i], cwd) && Covers(mounts[j], cwd)
    && Precedence(mounts[i]) == Precedence(mounts[j])
    && forall k :: 0 <= k < j && Covers(mounts[k], cwd) ==> Precedence(mounts[k]) <= Precedence(mounts[j])
  }

  /** The one mount at `i` covers, and every other cover is strictly shorter. */
  predicate UniqueLongest(cwd: string, mounts: seq<DockerMount>, i: nat) {
    && i < |mounts| && Covers(mounts[i], cwd)
    && forall k :: 0 <= k < |mounts| && k != i && Covers(mounts[k], cwd) ==>
         Precedence(mounts[k]) < Precedence(mounts[i])
  }

  predicate NoCover(cwd: string, mounts: seq<DockerMount>) {
    forall k :: 0 <= k < |mounts| ==> !Covers(mounts[k], cwd)
  }

  /** What a scan that succeeded knows about the mounts it has seen. */
  predicate Scanned(cwd: string, mounts: seq<DockerMount>, best: Option<DockerMount>, at: nat) {
    if best.None? then NoCover(cwd, mounts)
    else UniqueLongest(cwd, mounts, at) && mounts[at] == best.value
  }

  lemma ScanOneMore(cwd: string, front: seq<DockerMount>, best: Option<DockerMount>, m: DockerMount, at: nat)
    requires Scanned(cwd, front, best, at) && Consider(cwd, best, m).Ok?
    ensures Scanned(cwd, front + [m], Consider(cwd, best, m).value,
                    if Covers(m, cwd) && (best.None? || Precedence(m) > Precedence(best.value)) then |front| else at)
  {
    var mounts := front + [m];
    assert forall k :: 0 <= k < |front| ==> mounts[k] == front[k];
    assert mounts[|front|] == m;
  }

  lemma {:induction false} SelectFinds(cwd: string, mounts: seq<DockerMount>) returns (at: nat)
    requires Select(cwd, mounts).Ok?
    ensures Scanned(cwd, mounts, Select(cwd, mounts).value, at)
  {
    at := 0;
    if mounts != [] {
      var front, m := mounts[..|mounts| - 1], mounts[|mounts| - 1];
      at := SelectFinds(cwd, front);
      var best := Select(cwd, front).value;
      ScanOneMore(cwd, front, best, m, at);
      assert mounts == front + [m];
      if Covers(m, cwd) && (best.None? || Precedence(m) > Precedence(best.value)) {
        at := |front|;
      }
    }
  }

  lemma {:induction false} SelectClashes(cwd: string, mounts: seq<DockerMount>) returns (i: nat, j: nat)
    requires Select(cwd, mounts).Err?
    ensures Clash(cwd, mounts, i, j)
  {
    var n := |mounts| - 1;
    var front := mounts[..n];
    assert forall k :: 0 <= k < n ==> mounts[k] == front[k];
    if Select(cwd, front).Err? {
      i, j := SelectClashes(cwd, front);
    } else {
      i := SelectFinds(cwd, front);
      j := n;
    }
  }

  lemma ClashInFront(cwd: string, mounts: seq<DockerMount>, i: nat, j: nat)
    requires Clash(cwd, mounts, i, j)
    ensures Clash(cwd, mounts[..j] + [mounts[j]], i, j)
  {
    var prefix := mounts[..j] + [mounts[j]];
    assert forall k :: 0 <= k <= j ==> prefix[k] == mounts[k];
  }

  lemma SelectStep(cwd: string, front: seq<DockerMount>, m: DockerMount)
    requires Select(cwd, front).Ok?
    ensures Select(cwd, front + [m]) == Consider(cwd, Select(cwd, front).value, m)
  {
    assert (front + [m])[..|front|] == front;
  }

  lemma ClashAtEnd(cwd: string, front: seq<DockerMount>, m: DockerMount, i: nat)
    requires Select(cwd, front).Ok? && Clash(cwd, front + [m], i, |front|)
    ensures Consider(cwd, Select(cwd, front).value, m) == Err(AmbiguousCover)
  {
    var at := SelectFinds(cwd, front);
    var mounts := front + [m];
    assert mounts[|front|] == m && mounts[i] == front[i];
    forall k | 0 <= k < |front| && Covers(front[k], cwd)
      ensures Precedence(front[k]) <= Precedence(m)
    {
      assert mounts[k] == front[k];
    }
    SecondOfClash(cwd, front, Select(cwd, front).value, m, i, at);
  }

  lemma ClashStops(cwd: string, front: seq<DockerMount>, m: DockerMount, i: nat)
    requires Clash(cwd, front + [m], i, |front|)
    ensures Select(cwd, front + [m]).Err?
  {
    if Select(cwd, front).Ok? {
      ClashAtEnd(cwd, front, m, i);
      SelectStep(cwd, front, m);
    } else {
      assert (front + [m])[..|front|] == front;
      SelectErrSticks(cwd, front + [m], |front|);
    }
  }

  /** The scan stops at the second mount of a clash. */
  lemma ClashFails(cwd: string, mounts: seq<DockerMount>, i: nat, j: nat)
    requires Clash(cwd, mounts, i, j)
    ensures Select(cwd, mounts).Err?
  {
    ClashInFront(cwd, mounts, i, j);
    ClashStops(cwd, mounts[..j], mounts[j], i);
    ErrSpreads(cwd, mounts, j);
  }

  /** The second mount of a clash ties with the best of the mounts before it. */
  lemma SecondOfClash(
    cwd: string, front: seq<DockerMount>, best: Option<DockerMount>, m: DockerMount, i: nat, at: nat)
    requires Scanned(cwd, front, best, at)
    requires i < |front| && Covers(front[i], cwd) && Covers(m, cwd) && Precedence(front[i]) == Precedence(m)
    requires forall k :: 0 <= k < |front| && Covers(front[k], cwd) ==> Precedence(front[k]) <= Precedence(m)
    ensures Consider(cwd, best, m) == Err(AmbiguousCover)
  {
  }

  /** Selection fails exactly on a clash; otherwise it returns the unique longest cover,
      or nothing exactly when nothing covers. */
  lemma SelectionExact(cwd: string, mounts: seq<DockerMount>)
    ensures Select(cwd, mounts).Err? <==> exists i: nat, j: nat :: Clash(cwd, mounts, i, j)
    ensures Select(cwd, mounts) == Ok(None) <==> NoCover(cwd, mounts)
    ensures forall m :: Select(cwd, mounts) == Ok(Some(m)) ==>
              exists i: nat :: UniqueLongest(cwd, mounts, i) && mounts[i] == m
  {
    if i: nat, j: nat :| Clash(cwd, mounts, i, j) {
      ClashFails(cwd, mounts, i, j);
    }
    if Select(cwd, mounts).Err? {
      var i, j := SelectClashes(cwd, mounts);
    } else {
      var at := SelectFinds(cwd, mounts);
    }
  }

  // ---------- The plan ----------

  function AppendParts(path: string, names: seq<Component>): string
    decreases names
  {
    if names == [] then path
    else AppendParts(if names[0].Normal? then PushPart(path, names[0].name) else path, names[1..])
  }

  /** `push_container_component`. */
  function PushPart(path: string, part: string): string {
    if path == "/" then path + part else path + "/" + part
  }

  function Relative(cover: DockerMount, cwd: string): seq<Component>
    requires Covers(cover, cwd)
  {
    HostComponents(cwd)[|HostComponents(cover.source)|..]
  }

  /** `remap_cwd_workdir`. */
  method RemapCwdWorkdir(cover: DockerMount, cwd: string) returns (workdir: string)
    requires Covers(cover, cwd)
    ensures workdir == AppendParts(cover.target, Relative(cover, cwd))
  {
    var relative := Relative(cover, cwd);
    workdir := cover.target;
    for i := 0 to |relative|
      invariant AppendParts(workdir, relative[i..]) == AppendParts(cover.target, relative)
    {
      assert relative[i..][1..] == relative[i + 1..];
      if relative[i].Normal? {
        var name := relative[i].name;
        if workdir == "/" {
          workdir := workdir + name;
        } else {
          workdir := workdir + "/" + name;
        }
      }
    }
  }

  predicate SourceStrictlyBelow(cwd: string, m: DockerMount) {
    HostCovers(cwd, m.source) && HostComponents(m.source) != HostComponents(cwd)
  }

  predicate TargetsOverlap(left: string, right: string) {
    ContainerCovers(left, right) || ContainerCovers(right, left)
  }

  /** `validate_cwd_mount_plan`. */
  function Plan(cwd: string, mounts: seq<DockerMount>): Result<CwdMountPlan, PlanError> {
    if exists k :: 0 <= k < |mounts| && SourceStrictlyBelow(cwd, mounts[k]) then Err(SourceBelowCwd)
    else
      match Select(cwd, mounts)
      case Err(e) => Err(e)
      case Ok(cover) =>
        match Normalize(cwd)
        case None => Err(RelativeCwd)
        case Some(cwdTarget) =>
          if cover.Some? && Covers(cover.value, cwd) then
            Ok(CwdMountPlan(false, AppendParts(cover.value.target, Relative(cover.value, cwd))))
          else if exists k :: 0 <= k < |mounts| && TargetsOverlap(cwdTarget, mounts[k].target) then Err(TargetOverlap)
          else Ok(CwdMountPlan(true, cwdTarget))
  }

  method RejectSourceDescendants(cwd: string, mounts: seq<DockerMount>) returns (ok: bool)
    ensures ok <==> forall k :: 0 <= k < |mounts| ==> !SourceStrictlyBelow(cwd, mounts[k])
  {
    for i := 0 to |mounts|
      invariant forall k :: 0 <= k < i ==> !SourceStrictlyBelow(cwd, mounts[k])
    {
      if SourceStrictlyBelow(cwd, mounts[i]) {
        return false;
      }
    }
    return true;
  }

  method RejectTargetOverlaps(cwdTarget: string, mounts: seq<DockerMount>) returns (ok: bool)
    ensures ok <==> forall k :: 0 <= k < |mounts| ==> !TargetsOverlap(cwdTarget, mounts[k].target)
  {
    for i := 0 to |mounts|
      invariant forall k :: 0 <= k < i ==> !TargetsOverlap(cwdTarget, mounts[k].target)
    {
      if TargetsOverlap(cwdTarget, mounts[i].target) {
        return false;
      }
    }
    return true;
  }

  method ValidateCwdMountPlan(cwd: string, mounts: seq<DockerMount>) returns (r: Result<CwdMountPlan, PlanError>)
    ensures r == Plan(cwd, mounts)
  {
    var sourcesOk := RejectSourceDescendants(cwd, mounts);
    if !sourcesOk {
      return Err(SourceBelowCwd);
    }
    var selected := SelectCwdCover(cwd, mounts);
    if selected.Err? {
      return Err(selected.error);
    }
    var cwdTarget := NormalizeContainerPath(cwd);
    if cwdTarget.None? {
      return Err(RelativeCwd);
    }
    if selected.value.Some? {
      SelectCovers(cwd, mounts);
      var workdir := RemapCwdWorkdir(selected.value.value, cwd);
      return Ok(CwdMountPlan(false, workdir));
    }
    var targetsOk := RejectTargetOverlaps(cwdTarget.value, mounts);
    return if targetsOk then Ok(CwdMountPlan(true, cwdTarget.value)) else Err(TargetOverlap);
  }

  lemma SelectCovers(cwd: string, mounts: seq<DockerMount>)
    ensures Select(cwd, mounts).Ok? && Select(cwd, mounts).value.Some? ==> Covers(Select(cwd, mounts).value.value, cwd)
  {
    if Select(cwd, mounts).Ok? { var at := SelectFinds(cwd, mounts); }
  }

  // ---------- Order independence ----------

  lemma MemberIndex(ms: seq<DockerMount>, ms': seq<DockerMount>, i: nat) returns (j: nat)
    requires multiset(ms) == multiset(ms') && i < |ms|
    ensures j < |ms'| && ms'[j] == ms[i]
  {
    assert ms[i] in multiset(ms');
    j :| j < |ms'| && ms'[j] == ms[i];
  }

  /** Two orders of the same mounts whose selections both succeed select the same mount. */
  lemma SelectionAgrees(cwd: string, ms: seq<DockerMount>, ms': seq<DockerMount>)
    requires multiset(ms) == multiset(ms')
    requires Select(cwd, ms).Ok? && Select(cwd, ms').Ok?
    ensures Select(cwd, ms) == Select(cwd, ms')
  {
    var a := SelectFinds(cwd, ms);
    var b := SelectFinds(cwd, ms');
    if Select(cwd, ms).value.Some? {
      var a' := MemberIndex(ms, ms', a);
      assert Covers(ms'[a'], cwd);
      assert a' != b ==> Precedence(ms[a]) < Precedence(ms'[b]);
    }
    if Select(cwd, ms').value.Some? {
      var b' := MemberIndex(ms', ms, b);
      assert Covers(ms[b'], cwd);
      assert b' != a ==> Precedence(ms'[b]) < Precedence(ms[a]);
    }
  }

  /** Whether a plan is found may depend on the order of the mounts; which plan may not. */
  lemma PlanOrderIndependent(cwd: string, ms: seq<DockerMount>, ms': seq<DockerMount>)
    requires multiset(ms) == multiset(ms')
    requires Plan(cwd, ms).Ok? && Plan(cwd, ms').Ok?
    ensures Plan(cwd, ms) == Plan(cwd, ms')
  {
    SelectionAgrees(cwd, ms, ms');
  }

  // ---------- The working directory is preserved ----------

  /** Every target is a normalised container path. */
  predicate NormalTargets(mounts: seq<DockerMount>) {
    forall k :: 0 <= k < |mounts| ==> Normalize(mounts[k].target) == Some(mounts[k].target)
  }

  predicate DistinctTargets(mounts: seq<DockerMount>) {
    forall i, j :: 0 <= i < j < |mounts| ==> mounts[i].target != mounts[j].target
  }

  /** The host path a container path denotes when it is reached through `m`. */
  function ThroughMount(m: DockerMount, path: string): Option<seq<Component>> {
    if PartsOf(m.target) <= PartsOf(path)
    then Some(HostComponents(m.source) + Normals(PartsOf(path)[|PartsOf(m.target)|..]))
    else None
  }

  /** How the container resolves a path: the deepest target above it wins. */
  predicate Deepest(mounts: seq<DockerMount>, path: string, k: nat) {
    && k < |mounts| && ContainerCovers(mounts[k].target, path)
    && forall i :: 0 <= i < |mounts| && ContainerCovers(mounts[i].target, path) ==>
         |PartsOf(mounts[i].target)| <= |PartsOf(mounts[k].target)|
  }

  lemma AppendOne(path: string, names: seq<string>)
    requires names != []
    ensures AppendParts(path, Normals(names)) == AppendParts(PushPart(path, names[0]), Normals(names[1..]))
  {
    assert Normals(names)[1..] == Normals(names[1..]);
  }

  lemma {:induction false} AppendRendered(target: seq<string>, names: seq<string>)
    requires Clean(target) && Clean(names)
    ensures AppendParts(RenderPath(target), Normals(names)) == RenderPath(target + names)
    decreases names
  {
    if names == [] {
      assert target + names == target;
    } else {
      var longer := target + [names[0]];
      assert CleanPart(names[0]);
      AppendOne(RenderPath(target), names);
      RenderPush(target, names[0]);
      AppendRendered(longer, names[1..]);
      assert longer + names[1..] == target + names;
    }
  }

  lemma RenderPush(target: seq<string>, name: string)
    requires Clean(target)
    ensures PushPart(RenderPath(target), name) == RenderPath(target + [name])
  {
    if target == [] {
      assert [] + [name] == [name];
    } else {
      RenderIsText(target);
      RenderIsText(target + [name]);
      TextConcat(target, [name]);
      assert Text([name]) == [SLASH] + name;
      assert CleanPart(target[0]);
      assert |Text(target)| >= 2;
    }
  }

  /** A cover of a canonical directory leaves a suffix of its names. */
  lemma RelativeNames(cover: DockerMount, cwd: string) returns (names: seq<string>)
    requires Canonical(cwd) && Covers(cover, cwd)
    ensures Clean(names) && HostComponents(cwd) == HostComponents(cover.source) + Relative(cover, cwd)
    ensures HostComponents(cover.source) != [] ==> Relative(cover, cwd) == Normals(names)
  {
    HostOfCanonical(cwd);
    PartsOfClean(cwd);
    var n := |HostComponents(cover.source)|;
    names := [];
    if n > 0 {
      names := PartsOf(cwd)[n - 1..];
      DropRoot(PartsOf(cwd), n);
    }
  }

  lemma DropRoot(names: seq<string>, n: nat)
    requires 0 < n <= |names| + 1
    ensures ([RootDir] + Normals(names))[n..] == Normals(names[n - 1..])
  {
  }

  /** The planned workdir lies below the cover's target, at the depth of the remainder. */
  lemma WorkdirBelowTarget(cwd: string, cover: DockerMount)
    requires Canonical(cwd) && Covers(cover, cwd) && HostComponents(cover.source) != []
    requires Normalize(cover.target) == Some(cover.target)
    ensures var workdir := AppendParts(cover.target, Relative(cover, cwd));
            && ThroughMount(cover, workdir) == Some(HostComponents(cwd))
            && Normalize(workdir) == Some(workdir)
            && ContainerCovers(cover.target, workdir)
  {
    var names := RelativeNames(cover, cwd);
    var target := PartsOf(cover.target);
    PartsOfClean(cover.target);
    AppendRendered(target, names);
    PartsOfRender(target + names);
    assert (target + names)[|target|..] == names;
    CoversOfPrefix(target, target + names);
  }

  /** Read back through the selected mount, the planned workdir is the host directory;
      the one exception is an empty source, which is a prefix of every path. */
  lemma WorkdirMapsBackIff(cwd: string, cover: DockerMount)
    requires Canonical(cwd) && Covers(cover, cwd)
    requires Normalize(cover.target) == Some(cover.target)
    ensures ThroughMount(cover, AppendParts(cover.target, Relative(cover, cwd))) == Some(HostComponents(cwd))
       <==> HostComponents(cover.source) != []
  {
    HostOfCanonical(cwd);
    if HostComponents(cover.source) != [] {
      WorkdirBelowTarget(cwd, cover);
    }
  }

  /** AUTO MOUNT. Without a cover the directory is mounted at its own path, and no
      declared target lies above, at, or below it. */
  lemma AutoMountIsAlone(cwd: string, mounts: seq<DockerMount>, k: nat)
    requires Canonical(cwd) && NormalTargets(mounts)
    requires Plan(cwd, mounts).Ok? && Plan(cwd, mounts).value.autoMountCwd
    requires k < |mounts|
    ensures Plan(cwd, mounts).value.workdir == cwd
    ensures !(PartsOf(mounts[k].target) <= PartsOf(cwd)) && !(PartsOf(cwd) <= PartsOf(mounts[k].target))
    ensures !Covers(mounts[k], cwd) && !SourceStrictlyBelow(cwd, mounts[k])
  {
    PartsOfClean(cwd);
    PartsOfClean(mounts[k].target);
    CoversIffPrefix(PartsOf(cwd), PartsOf(mounts[k].target));
    CoversIffPrefix(PartsOf(mounts[k].target), PartsOf(cwd));
    SelectionExact(cwd, mounts);
    SelectCovers(cwd, mounts);
  }

  /** COVER. The selected mount is the unique longest cover and, its source not being
      empty, carries the workdir back to the host directory. */
  lemma CoverPreservesWorkdir(cwd: string, mounts: seq<DockerMount>) returns (at: nat)
    requires Canonical(cwd) && NormalTargets(mounts)
    requires Plan(cwd, mounts).Ok? && !Plan(cwd, mounts).value.autoMountCwd
    ensures UniqueLongest(cwd, mounts, at) && Select(cwd, mounts) == Ok(Some(mounts[at]))
    ensures ThroughMount(mounts[at], Plan(cwd, mounts).value.workdir) == Some(HostComponents(cwd))
       <==> HostComponents(mounts[at].source) != []
  {
    at := SelectFinds(cwd, mounts);
    WorkdirMapsBackIff(cwd, mounts[at]);
  }

  function Names(parts: seq<Component>): seq<string> {
    if parts == [] then []
    else (if parts[0].Normal? then [parts[0].name] else []) + Names(parts[1..])
  }

  /** The target lies strictly below the cover's target and at or above the place where the
      remaining names of the directory lead. */
  predicate Shadows(m: DockerMount, cover: DockerMount, cwd: string)
    requires Covers(cover, cwd)
  {
    PartsOf(cover.target) < PartsOf(m.target) <= PartsOf(cover.target) + Names(Relative(cover, cwd))
  }

  /** No declared target shadows the selected mount, if one is selected. */
  predicate Unshadowed(cwd: string, mounts: seq<DockerMount>) {
    match Select(cwd, mounts)
    case Ok(Some(cover)) =>
      Covers(cover, cwd) ==> forall k :: 0 <= k < |mounts| ==> !Shadows(mounts[k], cover, cwd)
    case _ => true
  }

  lemma {:induction false} NamesOfNormals(names: seq<string>)
    ensures Names(Normals(names)) == names
  {
    if names != [] {
      NamesOfNormals(names[1..]);
      assert Normals(names)[1..] == Normals(names[1..]);
      assert [names[0]] + names[1..] == names;
    }
  }

  lemma WorkdirParts(cwd: string, cover: DockerMount)
    requires Canonical(cwd) && Covers(cover, cwd) && HostComponents(cover.source) != []
    requires Normalize(cover.target) == Some(cover.target)
    ensures PartsOf(AppendParts(cover.target, Relative(cover, cwd)))
         == PartsOf(cover.target) + Names(Relative(cover, cwd))
  {
    var names := RelativeNames(cover, cwd);
    var target := PartsOf(cover.target);
    NamesOfNormals(names);
    PartsOfClean(cover.target);
    AppendRendered(target, names);
    PartsOfRender(target + names);
  }

  /** On normalised targets, shadowing is covering the workdir from deeper than the cover. */
  lemma ShadowsIffDeeper(cwd: string, cover: DockerMount, m: DockerMount)
    requires Canonical(cwd) && Covers(cover, cwd) && HostComponents(cover.source) != []
    requires Normalize(cover.target) == Some(cover.target) && Normalize(m.target) == Some(m.target)
    ensures Shadows(m, cover, cwd)
       <==> ContainerCovers(m.target, AppendParts(cover.target, Relative(cover, cwd)))
            && |PartsOf(m.target)| > |PartsOf(cover.target)|
  {
    var workdir := AppendParts(cover.target, Relative(cover, cwd));
    WorkdirParts(cwd, cover);
    WorkdirBelowTarget(cwd, cover);
    PartsOfClean(m.target);
    PartsOfClean(workdir);
    CoversIffPrefix(PartsOf(m.target), PartsOf(workdir));
  }

  lemma TargetIsPrefix(target: string, workdir: string)
    requires Normalize(target) == Some(target) && Normalize(workdir) == Some(workdir)
    requires ContainerCovers(target, workdir)
    ensures PartsOf(target) <= PartsOf(workdir)
  {
    PartsOfClean(target);
    PartsOfClean(workdir);
    CoversIffPrefix(PartsOf(target), PartsOf(workdir));
  }

  /** A path that reaches the directory through a deeper target would need a longer cover. */
  lemma DeeperTargetMissesCwd(cwd: string, workdir: string, cover: DockerMount, m: DockerMount)
    requires ThroughMount(cover, workdir) == Some(HostComponents(cwd))
    requires ThroughMount(m, workdir) == Some(HostComponents(cwd))
    requires |PartsOf(m.target)| > |PartsOf(cover.target)|
    ensures Covers(m, cwd) && Precedence(m) > Precedence(cover)
  {
  }

  /** RESOLUTION. With pairwise distinct targets, resolving the planned workdir by the
      deepest target gives the host directory exactly when no declared target shadows the
      selected mount. The plan itself does not check this. */
  lemma ResolutionPreservesIff(cwd: string, mounts: seq<DockerMount>, at: nat, k: nat)
    requires Canonical(cwd) && NormalTargets(mounts) && DistinctTargets(mounts)
    requires Plan(cwd, mounts).Ok? && !Plan(cwd, mounts).value.autoMountCwd
    requires at < |mounts| && Select(cwd, mounts) == Ok(Some(mounts[at]))
    requires HostComponents(mounts[at].source) != []
    requires Deepest(mounts, Plan(cwd, mounts).value.workdir, k)
    ensures ThroughMount(mounts[k], Plan(cwd, mounts).value.workdir) == Some(HostComponents(cwd))
       <==> Unshadowed(cwd, mounts)
  {
    var workdir := Plan(cwd, mounts).value.workdir;
    var cover := mounts[at];
    SelectCovers(cwd, mounts);
    WorkdirBelowTarget(cwd, cover);
    forall i | 0 <= i < |mounts|
      ensures Shadows(mounts[i], cover, cwd)
         <==> ContainerCovers(mounts[i].target, workdir) && |PartsOf(mounts[i].target)| > |PartsOf(cover.target)|
    {
      ShadowsIffDeeper(cwd, cover, mounts[i]);
    }
    if |PartsOf(mounts[k].target)| > |PartsOf(cover.target)| {
      assert Shadows(mounts[k], cover, cwd);
      DeeperSelects(cwd, mounts, at, k, workdir);
    } else {
      DeepestIsCover(mounts, at, k, workdir);
    }
  }

  lemma DeepestIsCover(mounts: seq<DockerMount>, at: nat, k: nat, workdir: string)
    requires NormalTargets(mounts) && DistinctTargets(mounts) && Normalize(workdir) == Some(workdir)
    requires at < |mounts| && ContainerCovers(mounts[at].target, workdir) && Deepest(mounts, workdir, k)
    requires |PartsOf(mounts[k].target)| <= |PartsOf(mounts[at].target)|
    ensures k == at
  {
    TargetIsPrefix(mounts[k].target, workdir);
    TargetIsPrefix(mounts[at].target, workdir);
    assert PartsOf(mounts[k].target) == PartsOf(mounts[at].target);
    assert mounts[k].target == mounts[at].target;
  }

  lemma DeeperSelects(cwd: string, mounts: seq<DockerMount>, at: nat, k: nat, workdir: string)
    requires at < |mounts| && k < |mounts| && Select(cwd, mounts) == Ok(Some(mounts[at]))
    requires ThroughMount(mounts[at], workdir) == Some(HostComponents(cwd))
    requires |PartsOf(mounts[k].target)| > |PartsOf(mounts[at].target)|
    ensures ThroughMount(mounts[k], workdir) != Some(HostComponents(cwd))
  {
    var i := SelectFinds(cwd, mounts);
    if ThroughMount(mounts[k], workdir) == Some(HostComponents(cwd)) {
      DeeperTargetMissesCwd(cwd, workdir, mounts[at], mounts[k]);
    }
  }

  /** The mounts of the container: the automatic one first, when there is one. */
  function Effective(cwd: string, plan: CwdMountPlan, mounts: seq<DockerMount>): seq<DockerMount> {
    if plan.autoMountCwd then [DockerMount(cwd, cwd)] + mounts else mounts
  }

  /** The automatic mount is the only one that covers its own path. */
  lemma AutoMountResolves(cwd: string, mounts: seq<DockerMount>, k: nat)
    requires Canonical(cwd) && NormalTargets(mounts)
    requires Plan(cwd, mounts).Ok? && Plan(cwd, mounts).value.autoMountCwd
    requires Deepest([DockerMount(cwd, cwd)] + mounts, Plan(cwd, mounts).value.workdir, k)
    ensures k == 0
    ensures ThroughMount(DockerMount(cwd, cwd), Plan(cwd, mounts).value.workdir) == Some(HostComponents(cwd))
  {
    forall i: nat | i < |mounts|
      ensures !ContainerCovers(mounts[i].target, cwd)
    {
      AutoMountIsAlone(cwd, mounts, i);
      PartsOfClean(cwd);
      PartsOfClean(mounts[i].target);
      CoversIffPrefix(PartsOf(mounts[i].target), PartsOf(cwd));
    }
    assert Plan(cwd, mounts).value.workdir == cwd by { SelectCovers(cwd, mounts); }
    assert forall i :: 0 < i <= |mounts| ==> ([DockerMount(cwd, cwd)] + mounts)[i] == mounts[i - 1];
    assert Normals([]) == [] && PartsOf(cwd)[|PartsOf(cwd)|..] == [];
    assert HostComponents(cwd) + [] == HostComponents(cwd);
  }

  predicate SourcesNamed(mounts: seq<DockerMount>) {
    forall k :: 0 <= k < |mounts| ==> HostComponents(mounts[k].source) != []
  }

  /** Whichever way the plan is made, the container resolves its workdir to the host
      directory exactly when no declared target shadows the selected mount. */
  lemma PlanResolvesIff(cwd: string, mounts: seq<DockerMount>, k: nat)
    requires Canonical(cwd) && NormalTargets(mounts) && DistinctTargets(mounts) && SourcesNamed(mounts)
    requires Plan(cwd, mounts).Ok?
    requires Deepest(Effective(cwd, Plan(cwd, mounts).value, mounts), Plan(cwd, mounts).value.workdir, k)
    ensures ThroughMount(Effective(cwd, Plan(cwd, mounts).value, mounts)[k], Plan(cwd, mounts).value.workdir)
            == Some(HostComponents(cwd))
       <==> Unshadowed(cwd, mounts)
  {
    var plan := Plan(cwd, mounts).value;
    SelectCovers(cwd, mounts);
    if plan.autoMountCwd {
      AutoMountResolves(cwd, mounts, k);
    } else {
      var at := SelectFinds(cwd, mounts);
      ResolutionPreservesIff(cwd, mounts, at, k);
    }
  }

  /** The depth at which a mount covers the path, if it does. */
  function Depth(m: DockerMount, path: string): int {
    if ContainerCovers(m.target, path) then |PartsOf(m.target)| else -1
  }

  lemma {:induction false} DeepestAt(depths: seq<int>) returns (k: nat)
    requires depths != []
    ensures k < |depths| && forall i :: 0 <= i < |depths| ==> depths[i] <= depths[k]
  {
    var n := |depths| - 1;
    k := n;
    if n > 0 {
      var f := DeepestAt(depths[..n]);
      assert forall i :: 0 <= i < n ==> depths[..n][i] == depths[i];
      if depths[n] < depths[f] {
        k := f;
      }
    }
  }

  lemma DeepestExists(mounts: seq<DockerMount>, path: string, at: nat) returns (k: nat)
    requires at < |mounts| && ContainerCovers(mounts[at].target, path)
    ensures Deepest(mounts, path, k)
  {
    var depths := seq(|mounts|, i requires 0 <= i < |mounts| => Depth(mounts[i], path));
    k := DeepestAt(depths);
    assert depths[at] <= depths[k];
    assert forall i :: 0 <= i < |mounts| ==> depths[i] == Depth(mounts[i], path);
  }

  /** Some mount of every plan resolves its workdir. */
  lemma PlanHasDeepest(cwd: string, mounts: seq<DockerMount>) returns (k: nat)
    requires Canonical(cwd) && NormalTargets(mounts) && SourcesNamed(mounts) && Plan(cwd, mounts).Ok?
    ensures Deepest(Effective(cwd, Plan(cwd, mounts).value, mounts), Plan(cwd, mounts).value.workdir, k)
  {
    var plan := Plan(cwd, mounts).value;
    var at := 0;
    SelectCovers(cwd, mounts);
    if !plan.autoMountCwd {
      at := SelectFinds(cwd, mounts);
      WorkdirBelowTarget(cwd, mounts[at]);
    }
    k := DeepestExists(Effective(cwd, plan, mounts), plan.workdir, at);
  }

  lemma PlanOkIff(cwd: string, mounts: seq<DockerMount>)
    requires Canonical(cwd)
    ensures Plan(cwd, mounts).Ok?
       <==> && (forall k :: 0 <= k < |mounts| ==> !SourceStrictlyBelow(cwd, mounts[k]))
            && Select(cwd, mounts).Ok?
            && (Select(cwd, mounts).value.Some?
                || forall k :: 0 <= k < |mounts| ==> !TargetsOverlap(cwd, mounts[k].target))
    ensures Plan(cwd, mounts).Ok? ==>
              (Plan(cwd, mounts).value.autoMountCwd <==> Select(cwd, mounts).value.None?)
  {
    SelectCovers(cwd, mounts);
  }

  /** ACCEPTED. A plan is made exactly when no source lies strictly below the directory, no
      two covers clash, and either something covers the directory or no target is above, at
      or below it; and the directory is mounted by itself exactly when nothing covers it. */
  lemma PlanMadeIff(cwd: string, mounts: seq<DockerMount>)
    requires Canonical(cwd) && NormalTargets(mounts)
    ensures Plan(cwd, mounts).Ok?
       <==> && (forall k :: 0 <= k < |mounts| ==> !(HostComponents(cwd) < HostComponents(mounts[k].source)))
            && (forall i: nat, j: nat :: !Clash(cwd, mounts, i, j))
            && ((exists k :: 0 <= k < |mounts| && HostComponents(mounts[k].source) <= HostComponents(cwd))
                || (forall k :: 0 <= k < |mounts| ==>
                      !(PartsOf(mounts[k].target) <= PartsOf(cwd)) && !(PartsOf(cwd) <= PartsOf(mounts[k].target))))
    ensures Plan(cwd, mounts).Ok? ==>
              (Plan(cwd, mounts).value.autoMountCwd
               <==> forall k :: 0 <= k < |mounts| ==> !(HostComponents(mounts[k].source) <= HostComponents(cwd)))
  {
    SelectionExact(cwd, mounts);
    PlanOkIff(cwd, mounts);
    forall k | 0 <= k < |mounts|
      ensures SourceStrictlyBelow(cwd, mounts[k]) <==> HostComponents(cwd) < HostComponents(mounts[k].source)
      ensures Covers(mounts[k], cwd) <==> HostComponents(mounts[k].source) <= HostComponents(cwd)
      ensures TargetsOverlap(cwd, mounts[k].target)
         <==> PartsOf(mounts[k].target) <= PartsOf(cwd) || PartsOf(cwd) <= PartsOf(mounts[k].target)
    {
      OverlapIff(cwd, mounts[k].target);
    }
  }

  lemma OverlapIff(left: string, right: string)
    requires Canonical(left) && Canonical(right)
    ensures TargetsOverlap(left, right) <==> PartsOf(right) <= PartsOf(left) || PartsOf(left) <= PartsOf(right)
  {
    PartsOfClean(left);
    PartsOfClean(right);
    CoversIffPrefix(PartsOf(left), PartsOf(right));
    CoversIffPrefix(PartsOf(right), PartsOf(left));
  }

  lemma OfRendered(parts: seq<string>)
    requires Clean(parts)
    ensures Canonical(RenderPath(parts)) && PartsOf(RenderPath(parts)) == parts
    ensures HostComponents(RenderPath(parts)) == [RootDir] + Normals(parts)
  {
    PartsOfRender(parts);
    HostOfCanonical(RenderPath(parts));
  }

  lemma SelectFirstOfTwo(cwd: string, m: DockerMount, other: DockerMount)
    requires Covers(m, cwd) && !Covers(other, cwd)
    ensures Select(cwd, [m, other]) == Ok(Some(m))
  {
    assert [m, other][..1] == [m] && [m][..0] == [];
    assert Select(cwd, [m]) == Ok(Some(m));
  }

  lemma PlanOfCover(cwd: string, m: DockerMount, other: DockerMount)
    requires Canonical(cwd) && Covers(m, cwd) && !Covers(other, cwd)
    requires !SourceStrictlyBelow(cwd, m) && !SourceStrictlyBelow(cwd, other)
    ensures Plan(cwd, [m, other]) == Ok(CwdMountPlan(false, AppendParts(m.target, Relative(m, cwd))))
  {
    SelectFirstOfTwo(cwd, m, other);
  }

  function Shadowing(w: string, a: string, o: string, x: string): seq<DockerMount> {
    [DockerMount(RenderPath([w]), RenderPath([x])), DockerMount(RenderPath([o]), RenderPath([x, a]))]
  }

  lemma ShadowingPlans(w: string, a: string, o: string, x: string)
    requires CleanPart(w) && CleanPart(a) && CleanPart(o) && CleanPart(x) && o != w
    ensures Plan(RenderPath([w, a]), Shadowing(w, a, o, x)) == Ok(CwdMountPlan(false, RenderPath([x, a])))
  {
    var cwd := RenderPath([w, a]);
    var m, other := Shadowing(w, a, o, x)[0], Shadowing(w, a, o, x)[1];
    OfRendered([w, a]);
    OfRendered([w]);
    OfRendered([o]);
    assert HostComponents(other.source)[1] == Normal(o) && HostComponents(cwd)[1] == Normal(w);
    PlanOfCover(cwd, m, other);
    assert Relative(m, cwd) == Normals([a]);
    AppendRendered([x], [a]);
    assert [x] + [a] == [x, a];
  }

  /** Shadowing happens: `/w` at `/x` and `/o` at `/x/a` are planned for `/w/a`, and the
      container resolves the planned `/x/a` to `/o`. */
  lemma ShadowedPlan(w: string, a: string, o: string, x: string)
    requires CleanPart(w) && CleanPart(a) && CleanPart(o) && CleanPart(x) && o != w
    ensures var mounts, workdir := Shadowing(w, a, o, x), RenderPath([x, a]);
            && Plan(RenderPath([w, a]), mounts) == Ok(CwdMountPlan(false, workdir))
            && NormalTargets(mounts) && DistinctTargets(mounts) && Deepest(mounts, workdir, 1)
            && ThroughMount(mounts[1], workdir) == Some(HostComponents(RenderPath([o])))
            && HostComponents(RenderPath([o])) != HostComponents(RenderPath([w, a]))
  {
    ShadowingPlans(w, a, o, x);
    OfRendered([w, a]);
    OfRendered([x, a]);
    OfRendered([x]);
    OfRendered([o]);
    assert |PartsOf(RenderPath([x]))| == 1;
    assert Normals([]) == [] && HostComponents(RenderPath([o])) + [] == HostComponents(RenderPath([o]));
  }

  /** Three mounts of two sources, the second twice. */
  function Rivals(w: string, a: string, x: string, y: string, z: string): seq<DockerMount> {
    [DockerMount(RenderPath([w, a]), RenderPath([z])),
     DockerMount(RenderPath([w]), RenderPath([x])), DockerMount(RenderPath([w]), RenderPath([y]))]
  }

  lemma SelectOfRivals(cwd: string, short: DockerMount, other: DockerMount, long: DockerMount)
    requires Covers(short, cwd) && Covers(other, cwd) && Covers(long, cwd)
    requires Precedence(short) == Precedence(other) < Precedence(long)
    ensures Select(cwd, [short, other, long]) == Err(AmbiguousCover)
    ensures Select(cwd, [long, short, other]) == Ok(Some(long))
  {
    assert [] + [short] == [short] && [] + [long] == [long];
    SelectStep(cwd, [], short);
    SelectStep(cwd, [short], other);
    assert [short] + [other] == [short, other];
    assert [short, other, long][..2] == [short, other];
    SelectStep(cwd, [], long);
    SelectStep(cwd, [long], short);
    assert [long] + [short] == [long, short];
    SelectStep(cwd, [long, short], other);
    assert [long, short] + [other] == [long, short, other];
  }

  lemma PlanOfRivals(cwd: string, short: DockerMount, other: DockerMount, long: DockerMount)
    requires Canonical(cwd) && Covers(short, cwd) && Covers(other, cwd) && Covers(long, cwd)
    requires Precedence(short) == Precedence(other) < Precedence(long)
    requires !SourceStrictlyBelow(cwd, short) && !SourceStrictlyBelow(cwd, other) && !SourceStrictlyBelow(cwd, long)
    ensures Plan(cwd, [short, other, long]) == Err(AmbiguousCover)
    ensures Plan(cwd, [long, short, other])
         == Ok(CwdMountPlan(false, AppendParts(long.target, Relative(long, cwd))))
  {
    SelectOfRivals(cwd, short, other, long);
  }

  /** The order does decide success: `/w` mounted twice before `/w/a` is refused, the same
      mounts with `/w/a` first are planned. */
  lemma OrderDecidesSuccess(w: string, a: string, x: string, y: string, z: string)
    requires CleanPart(w) && CleanPart(a) && CleanPart(x) && CleanPart(y) && CleanPart(z)
    ensures var cwd, r := RenderPath([w, a]), Rivals(w, a, x, y, z);
            && Plan(cwd, [r[1], r[2], r[0]]) == Err(AmbiguousCover)
            && Plan(cwd, [r[0], r[1], r[2]]) == Ok(CwdMountPlan(false, RenderPath([z])))
  {
    var cwd, r := RenderPath([w, a]), Rivals(w, a, x, y, z);
    OfRendered([w, a]);
    OfRendered([w]);
    PlanOfRivals(cwd, r[1], r[2], r[0]);
    assert Relative(r[0], cwd) == [];
  }
}
