/** The `docker run` command line, and a reader of it by flag arity. */
module DockerArgv {
  import opened Strings
  import opened Paths
  import opened Lifecycles
  import opened MountPlan
  import opened Preflight

  const COMMA: char := ','

  /** Everything argv construction is given besides the launch itself. */
  datatype Settings = Settings(
    session: string,            // printed session id
    profile: Option<string>,
    image: string,
    mounts: seq<MountSpec>,
    tmux: bool,
    docker: string)             // path of the docker command

  // ---------- Construction ----------

  function BindFields(m: MountSpec): seq<string> {
    ["type=bind", "source=" + m.source, "target=" + m.target] + (if m.readOnly then ["readonly"] else [])
  }

  function BindArg(m: MountSpec): string { Join(BindFields(m), COMMA) }

  function AutoBindFields(cwd: string): seq<string> { ["type=bind", "src=" + cwd, "dst=" + cwd] }

  function AutoBindArg(cwd: string): string { Join(AutoBindFields(cwd), COMMA) }

  function EnvArg(e: LaunchEnv): string { e.key + ['='] + e.value }

  function ContainerName(session: string): string { "rtm-" + session }

  function SessionLabel(session: string): string { "io.helioy.runtime-matters.session=" + session }

  /** `container_command`: the file name of an absolute host launcher. */
  function ContainerCommand(command: string): string {
    var parts := HostComponents(command);
    if command != "" && command[0] == SLASH && parts != [] && parts[|parts| - 1].Normal?
    then parts[|parts| - 1].name
    else command
  }

  /** Flags as units: alone, or with the one argument that follows. */
  datatype Item = Switch(flag: string) | Valued(flag: string, arg: string)

  function Unit(x: Item): seq<string> { if x.Switch? then [x.flag] else [x.flag, x.arg] }

  function Write(items: seq<Item>): seq<string> {
    if items == [] then [] else Unit(items[0]) + Write(items[1..])
  }

  function MountItems(mounts: seq<MountSpec>): seq<Item> {
    if mounts == [] then [] else [Valued("--mount", BindArg(mounts[0]))] + MountItems(mounts[1..])
  }

  function EnvItems(env: seq<LaunchEnv>): seq<Item> {
    if env == [] then [] else [Valued("--env", EnvArg(env[0]))] + EnvItems(env[1..])
  }

  function InitItems(s: Settings): seq<Item> { if s.profile == Some("own-init") then [] else [Switch("--init")] }

  function TtyItems(s: Settings): seq<Item> {
    if s.tmux then [Switch("-i"), Switch("-t"), Switch("--sig-proxy=false")] else []
  }

  function WorkdirItems(plan: CwdMountPlan): seq<Item> { [Valued("--workdir", plan.workdir)] }

  function AutoItems(launch: LaunchSpec, plan: CwdMountPlan): seq<Item> {
    if plan.autoMountCwd then [Valued("--mount", AutoBindArg(launch.cwd))] else []
  }

  function HeadItems(s: Settings): seq<Item> {
    [Switch("--rm"), Valued("--name", ContainerName(s.session)), Valued("--label", SessionLabel(s.session))]
  }

  // The flags in the order they are pushed, each function adding what precedes the last.

  function FromInit(s: Settings, launch: LaunchSpec): seq<Item> { InitItems(s) + EnvItems(launch.env) }

  function FromTty(s: Settings, launch: LaunchSpec): seq<Item> { TtyItems(s) + FromInit(s, launch) }

  function FromWorkdir(s: Settings, launch: LaunchSpec, plan: CwdMountPlan): seq<Item> {
    WorkdirItems(plan) + FromTty(s, launch)
  }

  function FromMounts(s: Settings, launch: LaunchSpec, plan: CwdMountPlan): seq<Item> {
    MountItems(s.mounts) + FromWorkdir(s, launch, plan)
  }

  function FromAuto(s: Settings, launch: LaunchSpec, plan: CwdMountPlan): seq<Item> {
    AutoItems(launch, plan) + FromMounts(s, launch, plan)
  }

  function RunItems(s: Settings, launch: LaunchSpec, plan: CwdMountPlan): seq<Item> {
    HeadItems(s) + FromAuto(s, launch, plan)
  }

  function Command(launch: LaunchSpec): seq<string>
    requires launch.argv != []
  {
    [ContainerCommand(launch.argv[0])] + launch.argv[1..]
  }

  function RunArgv(s: Settings, launch: LaunchSpec, plan: CwdMountPlan): seq<string>
    requires launch.argv != []
  {
    [s.docker, "run"] + (Write(RunItems(s, launch, plan)) + ([s.image] + Command(launch)))
  }

  lemma WriteCons(x: Item, rest: seq<Item>)
    ensures Write([x] + rest) == Unit(x) + Write(rest)
  {
    assert ([x] + rest)[1..] == rest;
  }

  lemma {:induction false} WriteConcat(a: seq<Item>, b: seq<Item>)
    ensures Write(a + b) == Write(a) + Write(b)
  {
    if a == [] {
      assert a + b == b;
    } else {
      assert a + b == [a[0]] + (a[1..] + b);
      WriteCons(a[0], a[1..] + b);
      WriteConcat(a[1..], b);
    }
  }

  /** Pushing one group leaves the rest to be written. */
  lemma WriteGroup(done: seq<string>, group: seq<Item>, rest: seq<Item>)
    ensures done + Write(group + rest) == (done + Write(group)) + Write(rest)
  {
    WriteConcat(group, rest);
  }

  lemma WriteOne(x: Item)
    ensures Write([x]) == Unit(x)
  {
    assert [x][1..] == [];
    assert Unit(x) + [] == Unit(x);
  }

  lemma WriteThree(x: Item, y: Item, z: Item)
    ensures Write([x, y, z]) == Unit(x) + (Unit(y) + Unit(z))
  {
    assert [x, y, z][1..] == [y, z] && [y, z][1..] == [z];
    WriteOne(z);
  }

  /** `bind_mount_arg`. */
  method BindMountArg(m: MountSpec) returns (arg: string)
    ensures arg == BindArg(m)
  {
    assert BindFields(m)[..3] == ["type=bind", "source=" + m.source, "target=" + m.target];
    assert !m.readOnly ==> BindFields(m) == BindFields(m)[..3];
    arg := "type=bind,source=" + m.source + ",target=" + m.target;
    JoinThree("type=bind", "source=" + m.source, "target=" + m.target);
    assert arg == "type=bind" + [COMMA] + ("source=" + m.source) + [COMMA] + ("target=" + m.target);
    if m.readOnly {
      arg := arg + ",readonly";
      JoinFour("type=bind", "source=" + m.source, "target=" + m.target, "readonly");
      assert ",readonly" == [COMMA] + "readonly";
    }
  }

  lemma JoinThree(a: string, b: string, c: string)
    ensures Join([a, b, c], COMMA) == a + [COMMA] + b + [COMMA] + c
  {
    assert [a, b, c][1..] == [b, c] && [b, c][1..] == [c];
    assert Join([b, c], COMMA) == b + [COMMA] + c;
    assert a + [COMMA] + (b + [COMMA] + c) == a + [COMMA] + b + [COMMA] + c;
  }

  lemma JoinFour(a: string, b: string, c: string, d: string)
    ensures Join([a, b, c] + [d], COMMA) == a + [COMMA] + b + [COMMA] + c + ([COMMA] + d)
  {
    assert [a, b, c] + [d] == [a, b, c, d] && [a, b, c, d][1..] == [b, c, d];
    JoinThree(b, c, d);
    assert a + [COMMA] + (b + [COMMA] + c + [COMMA] + d) == a + [COMMA] + b + [COMMA] + c + ([COMMA] + d);
  }

  /** `append_mount_args`. */
  method AppendMountArgs(argv: seq<string>, mounts: seq<MountSpec>) returns (r: seq<string>)
    ensures r == argv + Write(MountItems(mounts))
  {
    r := argv;
    for i := 0 to |mounts|
      invariant r + Write(MountItems(mounts[i..])) == argv + Write(MountItems(mounts))
    {
      assert mounts[i..][1..] == mounts[i + 1..];
      WriteGroup(r, [Valued("--mount", BindArg(mounts[i]))], MountItems(mounts[i + 1..]));
      WriteOne(Valued("--mount", BindArg(mounts[i])));
      var arg := BindMountArg(mounts[i]);
      r := r + ["--mount", arg];
    }
  }

  /** `append_env_args`. */
  method AppendEnvArgs(argv: seq<string>, env: seq<LaunchEnv>) returns (r: seq<string>)
    ensures r == argv + Write(EnvItems(env))
  {
    r := argv;
    for i := 0 to |env|
      invariant r + Write(EnvItems(env[i..])) == argv + Write(EnvItems(env))
    {
      assert env[i..][1..] == env[i + 1..];
      WriteGroup(r, [Valued("--env", EnvArg(env[i]))], EnvItems(env[i + 1..]));
      WriteOne(Valued("--env", EnvArg(env[i])));
      r := r + ["--env", env[i].key + ['='] + env[i].value];
    }
  }

  /** `docker_run_base_argv`, up to the terminal flags. */
  method BaseFlags(s: Settings, launch: LaunchSpec, plan: CwdMountPlan) returns (flags: seq<string>)
    ensures flags + Write(FromTty(s, launch)) == Write(RunItems(s, launch, plan))
  {
    flags := ["--rm", "--name", ContainerName(s.session), "--label", SessionLabel(s.session)];
    WriteThree(Switch("--rm"), Valued("--name", ContainerName(s.session)), Valued("--label", SessionLabel(s.session)));
    assert flags == Write(HeadItems(s));
    WriteConcat(HeadItems(s), FromAuto(s, launch, plan));
    assert flags + Write(FromAuto(s, launch, plan)) == Write(RunItems(s, launch, plan));
    flags := AppendAuto(flags, launch, plan, FromMounts(s, launch, plan));
    WriteGroup(flags, MountItems(s.mounts), FromWorkdir(s, launch, plan));
    flags := AppendMountArgs(flags, s.mounts);
    assert flags + Write(FromWorkdir(s, launch, plan)) == Write(RunItems(s, launch, plan));
    WriteGroup(flags, WorkdirItems(plan), FromTty(s, launch));
    WriteOne(Valued("--workdir", plan.workdir));
    flags := flags + ["--workdir", plan.workdir];
  }

  method AppendAuto(flags: seq<string>, launch: LaunchSpec, plan: CwdMountPlan, ghost rest: seq<Item>)
    returns (r: seq<string>)
    ensures r + Write(rest) == flags + Write(AutoItems(launch, plan) + rest)
  {
    r := flags;
    WriteGroup(flags, AutoItems(launch, plan), rest);
    if plan.autoMountCwd {
      WriteOne(Valued("--mount", AutoBindArg(launch.cwd)));
      r := r + ["--mount", AutoBindArg(launch.cwd)];
    } else {
      assert flags + Write([]) == flags;
    }
  }

  /** The terminal flags and `--init`. */
  method AppendModeFlags(s: Settings, flags: seq<string>, ghost rest: seq<Item>) returns (r: seq<string>)
    ensures r + Write(rest) == flags + Write(TtyItems(s) + (InitItems(s) + rest))
  {
    r := flags;
    WriteGroup(r, TtyItems(s), InitItems(s) + rest);
    assert r + [] == r;
    if s.tmux {
      WriteThree(Switch("-i"), Switch("-t"), Switch("--sig-proxy=false"));
      r := r + ["-i", "-t", "--sig-proxy=false"];
    }
    WriteGroup(r, InitItems(s), rest);
    assert r + [] == r;
    if s.profile != Some("own-init") {
      WriteOne(Switch("--init"));
      r := r + ["--init"];
    }
  }

  /** `docker_run_launch`: refuses an empty command and an unplannable mount set. */
  method DockerRunLaunch(s: Settings, launch: LaunchSpec) returns (argv: Option<seq<string>>)
    ensures argv.Some? <==> launch.argv != [] && PlanCwdMount(launch.cwd, s.mounts).Ok?
    ensures argv.Some? ==> argv.value == RunArgv(s, launch, PlanCwdMount(launch.cwd, s.mounts).value)
  {
    if launch.argv == [] {
      return None;
    }
    var planned := PlanCwdMount(launch.cwd, s.mounts);
    if planned.Err? {
      return None;
    }
    var flags := BaseFlags(s, launch, planned.value);
    flags := AppendModeFlags(s, flags, EnvItems(launch.env));
    flags := AppendEnvArgs(flags, launch.env);
    return Some([s.docker, "run"] + (flags + ([s.image] + Command(launch))));
  }

  // ---------- Reading by flag arity ----------

  predicate TakesArgument(flag: string) {
    flag == "--name" || flag == "--label" || flag == "--mount" || flag == "--workdir" || flag == "--env"
  }

  predicate IsFlag(token: string) { token != "" && token[0] == '-' }

  /** Flags up to the first token that is none, and what remains from there on. */
  function ReadItems(tokens: seq<string>): (seq<Item>, seq<string>) {
    if tokens == [] || !IsFlag(tokens[0]) then ([], tokens)
    else if TakesArgument(tokens[0]) then
      if |tokens| == 1 then ([], tokens)
      else
        var (items, rest) := ReadItems(tokens[2..]);
        ([Valued(tokens[0], tokens[1])] + items, rest)
    else
      var (items, rest) := ReadItems(tokens[1..]);
      ([Switch(tokens[0])] + items, rest)
  }

  predicate FlaggedRight(x: Item) { IsFlag(x.flag) && (x.Valued? <==> TakesArgument(x.flag)) }

  predicate WellFlagged(items: seq<Item>) { forall i :: 0 <= i < |items| ==> FlaggedRight(items[i]) }

  lemma {:induction false} ReadWritten(items: seq<Item>, tail: seq<string>)
    requires WellFlagged(items) && tail != [] && !IsFlag(tail[0])
    ensures ReadItems(Write(items) + tail) == (items, tail)
  {
    var tokens := Write(items) + tail;
    if items == [] {
      assert tokens == tail;
    } else {
      ReadWritten(items[1..], tail);
      assert FlaggedRight(items[0]);
      assert tokens == Unit(items[0]) + (Write(items[1..]) + tail);
      assert tokens[|Unit(items[0])|..] == Write(items[1..]) + tail;
      assert [items[0]] + items[1..] == items;
    }
  }

  /** What remains never starts with a flag, unless that flag lacks its argument. */
  lemma {:induction false} RemainderStart(tokens: seq<string>)
    ensures var rest := ReadItems(tokens).1;
            rest != [] && IsFlag(rest[0]) ==> |rest| == 1
  {
    if tokens != [] && IsFlag(tokens[0]) {
      if !TakesArgument(tokens[0]) {
        RemainderStart(tokens[1..]);
      } else if |tokens| > 1 {
        RemainderStart(tokens[2..]);
      }
    }
  }

  function Args(items: seq<Item>, flag: string): seq<string> {
    if items == [] then []
    else if items[0].Valued? && items[0].flag == flag then [items[0].arg] + Args(items[1..], flag)
    else Args(items[1..], flag)
  }

  lemma {:induction false} ArgsConcat(a: seq<Item>, b: seq<Item>, flag: string)
    ensures Args(a + b, flag) == Args(a, flag) + Args(b, flag)
  {
    if a == [] {
      assert a + b == b;
    } else {
      ArgsConcat(a[1..], b, flag);
      assert (a + b)[1..] == a[1..] + b && (a + b)[0] == a[0];
    }
  }

  function ArgsOfMounts(mounts: seq<MountSpec>): seq<string> {
    if mounts == [] then [] else [BindArg(mounts[0])] + ArgsOfMounts(mounts[1..])
  }

  function ArgsOfEnv(env: seq<LaunchEnv>): seq<string> {
    if env == [] then [] else [EnvArg(env[0])] + ArgsOfEnv(env[1..])
  }

  lemma {:induction false} ArgsMountItems(mounts: seq<MountSpec>, flag: string)
    ensures Args(MountItems(mounts), flag) == if flag == "--mount" then ArgsOfMounts(mounts) else []
  {
    if mounts != [] {
      ArgsMountItems(mounts[1..], flag);
      assert MountItems(mounts)[1..] == MountItems(mounts[1..]);
    }
  }

  lemma {:induction false} ArgsEnvItems(env: seq<LaunchEnv>, flag: string)
    ensures Args(EnvItems(env), flag) == if flag == "--env" then ArgsOfEnv(env) else []
  {
    if env != [] {
      ArgsEnvItems(env[1..], flag);
      assert EnvItems(env)[1..] == EnvItems(env[1..]);
    }
  }

  lemma {:induction false} ArgsSwitches(items: seq<Item>, flag: string)
    requires forall i :: 0 <= i < |items| ==> items[i].Switch?
    ensures Args(items, flag) == []
  {
    if items != [] { ArgsSwitches(items[1..], flag); }
  }

  lemma ArgsOne(x: Item, flag: string)
    ensures Args([x], flag) == if x.Valued? && x.flag == flag then [x.arg] else []
  {
    assert [x][1..] == [];
  }

  lemma ArgsFromTty(s: Settings, launch: LaunchSpec, flag: string)
    ensures Args(FromTty(s, launch), flag) == if flag == "--env" then ArgsOfEnv(launch.env) else []
  {
    ArgsConcat(TtyItems(s), FromInit(s, launch), flag);
    ArgsConcat(InitItems(s), EnvItems(launch.env), flag);
    ArgsSwitches(TtyItems(s), flag);
    ArgsSwitches(InitItems(s), flag);
    ArgsEnvItems(launch.env, flag);
  }

  lemma ArgsFromWorkdir(s: Settings, launch: LaunchSpec, plan: CwdMountPlan, flag: string)
    ensures Args(FromWorkdir(s, launch, plan), flag)
         == if flag == "--workdir" then [plan.workdir] else if flag == "--env" then ArgsOfEnv(launch.env) else []
  {
    ArgsConcat(WorkdirItems(plan), FromTty(s, launch), flag);
    ArgsOne(Valued("--workdir", plan.workdir), flag);
    ArgsFromTty(s, launch, flag);
  }

  /** The mount arguments: the automatic one first, when there is one. */
  function MountArgs(s: Settings, launch: LaunchSpec, plan: CwdMountPlan): seq<string> {
    if plan.autoMountCwd then [AutoBindArg(launch.cwd)] + ArgsOfMounts(s.mounts) else ArgsOfMounts(s.mounts)
  }

  lemma ArgsFromAuto(s: Settings, launch: LaunchSpec, plan: CwdMountPlan, flag: string)
    ensures Args(FromAuto(s, launch, plan), flag)
         == if flag == "--mount" then MountArgs(s, launch, plan)
            else if flag == "--workdir" then [plan.workdir]
            else if flag == "--env" then ArgsOfEnv(launch.env)
            else []
  {
    ArgsConcat(AutoItems(launch, plan), FromMounts(s, launch, plan), flag);
    ArgsConcat(MountItems(s.mounts), FromWorkdir(s, launch, plan), flag);
    ArgsOne(Valued("--mount", AutoBindArg(launch.cwd)), flag);
    ArgsMountItems(s.mounts, flag);
    ArgsFromWorkdir(s, launch, plan, flag);
    assert ArgsOfMounts(s.mounts) + [] == ArgsOfMounts(s.mounts);
  }

  /** The arguments of each flag of the whole command, in order. */
  lemma ArgsOfRun(s: Settings, launch: LaunchSpec, plan: CwdMountPlan, flag: string)
    ensures Args(RunItems(s, launch, plan), flag)
         == if flag == "--name" then [ContainerName(s.session)]
            else if flag == "--label" then [SessionLabel(s.session)]
            else if flag == "--mount" then MountArgs(s, launch, plan)
            else if flag == "--workdir" then [plan.workdir]
            else if flag == "--env" then ArgsOfEnv(launch.env)
            else []
  {
    var a, b := Switch("--rm"), Valued("--name", ContainerName(s.session));
    var c := Valued("--label", SessionLabel(s.session));
    ArgsConcat(HeadItems(s), FromAuto(s, launch, plan), flag);
    ArgsFromAuto(s, launch, plan, flag);
    assert [a, b, c][1..] == [b, c] && [b, c][1..] == [c];
    ArgsOne(c, flag);
  }

  function Switches(items: seq<Item>): seq<string> {
    if items == [] then []
    else (if items[0].Switch? then [items[0].flag] else []) + Switches(items[1..])
  }

  lemma {:induction false} SwitchesConcat(a: seq<Item>, b: seq<Item>)
    ensures Switches(a + b) == Switches(a) + Switches(b)
  {
    if a == [] {
      assert a + b == b;
    } else {
      SwitchesConcat(a[1..], b);
      assert (a + b)[1..] == a[1..] + b && (a + b)[0] == a[0];
    }
  }

  lemma {:induction false} NoSwitches(items: seq<Item>)
    requires forall i :: 0 <= i < |items| ==> items[i].Valued?
    ensures Switches(items) == []
  {
    if items != [] { NoSwitches(items[1..]); }
  }

  lemma {:induction false} MountItemsValued(mounts: seq<MountSpec>)
    ensures forall i :: 0 <= i < |MountItems(mounts)| ==> MountItems(mounts)[i].Valued?
  {
    if mounts != [] { MountItemsValued(mounts[1..]); }
  }

  lemma {:induction false} EnvItemsValued(env: seq<LaunchEnv>)
    ensures forall i :: 0 <= i < |EnvItems(env)| ==> EnvItems(env)[i].Valued?
  {
    if env != [] { EnvItemsValued(env[1..]); }
  }

  lemma SwitchesOfThree(x: Item, y: Item, z: Item)
    ensures Switches([x, y, z]) == Switches([x]) + Switches([y]) + Switches([z])
    ensures Switches([x]) == if x.Switch? then [x.flag] else []
  {
    assert [x, y, z][1..] == [y, z] && [y, z][1..] == [z] && [z][1..] == [] && [y][1..] == [] && [x][1..] == [];
  }

  lemma TtySwitches(s: Settings)
    ensures Switches(TtyItems(s)) == if s.tmux then ["-i", "-t", "--sig-proxy=false"] else []
  {
    var x, y, z := Switch("-i"), Switch("-t"), Switch("--sig-proxy=false");
    SwitchesOfThree(x, y, z);
    SwitchesOfThree(y, z, x);
    SwitchesOfThree(z, x, y);
  }

  lemma HeadSwitches(s: Settings)
    ensures Switches(HeadItems(s)) == ["--rm"]
  {
    var x, y := Switch("--rm"), Valued("--name", ContainerName(s.session));
    var z := Valued("--label", SessionLabel(s.session));
    SwitchesOfThree(x, y, z);
    SwitchesOfThree(y, z, x);
    SwitchesOfThree(z, x, y);
  }

  lemma InitSwitches(s: Settings, launch: LaunchSpec)
    ensures Switches(FromInit(s, launch)) == if s.profile == Some("own-init") then [] else ["--init"]
  {
    SwitchesConcat(InitItems(s), EnvItems(launch.env));
    EnvItemsValued(launch.env);
    NoSwitches(EnvItems(launch.env));
    assert s.profile != Some("own-init") ==> InitItems(s)[1..] == [];
  }

  lemma SwitchesFromWorkdir(s: Settings, launch: LaunchSpec, plan: CwdMountPlan)
    ensures Switches(FromWorkdir(s, launch, plan)) == Switches(TtyItems(s)) + Switches(FromInit(s, launch))
  {
    SwitchesConcat(WorkdirItems(plan), FromTty(s, launch));
    NoSwitches(WorkdirItems(plan));
    SwitchesConcat(TtyItems(s), FromInit(s, launch));
  }

  lemma SwitchesFromAuto(s: Settings, launch: LaunchSpec, plan: CwdMountPlan)
    ensures Switches(FromAuto(s, launch, plan)) == Switches(FromWorkdir(s, launch, plan))
  {
    SwitchesConcat(AutoItems(launch, plan), FromMounts(s, launch, plan));
    NoSwitches(AutoItems(launch, plan));
    SwitchesConcat(MountItems(s.mounts), FromWorkdir(s, launch, plan));
    MountItemsValued(s.mounts);
    NoSwitches(MountItems(s.mounts));
  }

  /** The flags without argument of the whole command. */
  lemma SwitchesOfRun(s: Settings, launch: LaunchSpec, plan: CwdMountPlan)
    ensures Switches(RunItems(s, launch, plan)) == ExpectedSwitches(s)
  {
    SwitchesConcat(HeadItems(s), FromAuto(s, launch, plan));
    HeadSwitches(s);
    SwitchesFromAuto(s, launch, plan);
    SwitchesFromWorkdir(s, launch, plan);
    TtySwitches(s);
    InitSwitches(s, launch);
  }

  lemma WellFlaggedConcat(a: seq<Item>, b: seq<Item>)
    requires WellFlagged(a) && WellFlagged(b)
    ensures WellFlagged(a + b)
  {
  }

  lemma {:induction false} MountItemsFlagged(mounts: seq<MountSpec>)
    ensures WellFlagged(MountItems(mounts))
  {
    if mounts != [] { MountItemsFlagged(mounts[1..]); }
  }

  lemma {:induction false} EnvItemsFlagged(env: seq<LaunchEnv>)
    ensures WellFlagged(EnvItems(env))
  {
    if env != [] { EnvItemsFlagged(env[1..]); }
  }

  lemma RunItemsWellFlagged(s: Settings, launch: LaunchSpec, plan: CwdMountPlan)
    ensures WellFlagged(RunItems(s, launch, plan))
  {
    EnvItemsFlagged(launch.env);
    WellFlaggedConcat(InitItems(s), EnvItems(launch.env));
    WellFlaggedConcat(TtyItems(s), FromInit(s, launch));
    WellFlaggedConcat(WorkdirItems(plan), FromTty(s, launch));
    MountItemsFlagged(s.mounts);
    WellFlaggedConcat(MountItems(s.mounts), FromWorkdir(s, launch, plan));
    WellFlaggedConcat(AutoItems(launch, plan), FromMounts(s, launch, plan));
    WellFlaggedConcat(HeadItems(s), FromAuto(s, launch, plan));
  }

  // ---------- Bind arguments ----------

  datatype Bind = Bind(source: string, target: string, readOnly: bool)

  function DropPrefix(s: string, prefix: string): Option<string> {
    if prefix <= s then Some(s[|prefix|..]) else None
  }

  function DropEither(s: string, long: string, short: string): Option<string> {
    if DropPrefix(s, long).Some? then DropPrefix(s, long) else DropPrefix(s, short)
  }

  /** The fields of a `--mount` argument. */
  function BindOfFields(fields: seq<string>): Option<Bind> {
    if (|fields| != 3 && |fields| != 4) || fields[0] != "type=bind" then None
    else if |fields| == 4 && fields[3] != "readonly" then None
    else
      var source := DropEither(fields[1], "source=", "src=");
      var target := DropEither(fields[2], "target=", "dst=");
      if source.None? || target.None? then None else Some(Bind(source.value, target.value, |fields| == 4))
  }

  function ReadBind(arg: string): Option<Bind> { BindOfFields(Split(arg, COMMA)) }

  predicate CommaFree(m: MountSpec) { COMMA !in m.source && COMMA !in m.target }

  lemma ReadBindCommaFree(arg: string)
    ensures ReadBind(arg).Some? ==> COMMA !in ReadBind(arg).value.source && COMMA !in ReadBind(arg).value.target
  {
    var fields := Split(arg, COMMA);
    if ReadBind(arg).Some? {
      assert fields[1] in fields && fields[2] in fields;
    }
  }

  lemma DropOwnPrefix(prefix: string, value: string)
    ensures DropPrefix(prefix + value, prefix) == Some(value)
  {
    assert (prefix + value)[|prefix|..] == value;
  }

  /** A mount survives its own printing exactly when neither path holds a comma. */
  lemma BindReadsBackIff(m: MountSpec)
    ensures ReadBind(BindArg(m)) == Some(Bind(m.source, m.target, m.readOnly)) <==> CommaFree(m)
  {
    ReadBindCommaFree(BindArg(m));
    if CommaFree(m) {
      assert COMMA !in "source=" && COMMA !in "target=" && COMMA !in "type=bind" && COMMA !in "readonly";
      assert Free(BindFields(m), COMMA);
      SplitJoin(BindFields(m), COMMA);
      DropOwnPrefix("source=", m.source);
      DropOwnPrefix("target=", m.target);
    }
  }

  lemma AutoBindReadsBackIff(cwd: string)
    ensures ReadBind(AutoBindArg(cwd)) == Some(Bind(cwd, cwd, false)) <==> COMMA !in cwd
  {
    ReadBindCommaFree(AutoBindArg(cwd));
    if COMMA !in cwd {
      assert COMMA !in "src=" && COMMA !in "dst=" && COMMA !in "type=bind";
      SplitJoin(AutoBindFields(cwd), COMMA);
      DropOwnPrefix("src=", cwd);
      DropOwnPrefix("dst=", cwd);
      assert ("src=" + cwd)[1] == 'r' && "source="[1] == 'o';
      assert ("dst=" + cwd)[0] == 'd' && "target="[0] == 't';
    }
  }

  /** Reads every argument, or fails. */
  function ReadAll<T>(args: seq<string>, read: string -> Option<T>): Option<seq<T>> {
    if args == [] then Some([])
    else
      match read(args[0])
      case None => None
      case Some(first) =>
        match ReadAll(args[1..], read)
        case None => None
        case Some(rest) => Some([first] + rest)
  }

  function BindsOf(mounts: seq<MountSpec>): (r: seq<Bind>)
    ensures |r| == |mounts|
    ensures forall i :: 0 <= i < |mounts| ==> r[i] == Bind(mounts[i].source, mounts[i].target, mounts[i].readOnly)
  {
    if mounts == [] then []
    else [Bind(mounts[0].source, mounts[0].target, mounts[0].readOnly)] + BindsOf(mounts[1..])
  }

  predicate AllCommaFree(mounts: seq<MountSpec>) { forall i :: 0 <= i < |mounts| ==> CommaFree(mounts[i]) }

  lemma ConsInjective<T>(x: T, xs: seq<T>, y: T, ys: seq<T>)
    ensures [x] + xs == [y] + ys <==> x == y && xs == ys
  {
    assert ([x] + xs)[1..] == xs && ([y] + ys)[1..] == ys;
    assert ([x] + xs)[0] == x && ([y] + ys)[0] == y;
  }

  /** Reading a list goes wrong exactly where its head or its tail does. */
  lemma ReadAllCons<T>(arg: string, args: seq<string>, read: string -> Option<T>, want: T, wants: seq<T>)
    ensures ReadAll([arg] + args, read) == Some([want] + wants)
       <==> read(arg) == Some(want) && ReadAll(args, read) == Some(wants)
  {
    assert ([arg] + args)[1..] == args;
    if read(arg).Some? && ReadAll(args, read).Some? {
      ConsInjective(read(arg).value, ReadAll(args, read).value, want, wants);
    }
  }

  lemma {:induction false} BindsReadBackIff(mounts: seq<MountSpec>)
    ensures ReadAll(ArgsOfMounts(mounts), ReadBind) == Some(BindsOf(mounts)) <==> AllCommaFree(mounts)
  {
    if mounts != [] {
      var m := mounts[0];
      BindReadsBackIff(m);
      BindsReadBackIff(mounts[1..]);
      ReadAllCons(BindArg(m), ArgsOfMounts(mounts[1..]), ReadBind,
                  Bind(m.source, m.target, m.readOnly), BindsOf(mounts[1..]));
      assert AllCommaFree(mounts) <==> CommaFree(m) && AllCommaFree(mounts[1..]);
    }
  }

  /** An environment argument is cut at its first `=`. */
  function ReadEnv(arg: string): Option<LaunchEnv> {
    match FirstIndex(arg, '=')
    case None => None
    case Some(i) => Some(LaunchEnv(arg[..i], arg[i + 1..]))
  }

  /** An environment entry survives printing exactly when its key holds no `=`. */
  lemma EnvReadsBackIff(e: LaunchEnv)
    ensures ReadEnv(EnvArg(e)) == Some(e) <==> '=' !in e.key
  {
    assert EnvArg(e)[|e.key|] == '=';
    if '=' !in e.key {
      FirstIndexAt(e.key, '=', e.value);
      assert EnvArg(e)[..|e.key|] == e.key && EnvArg(e)[|e.key| + 1..] == e.value;
    }
  }

  predicate PlainKeys(env: seq<LaunchEnv>) { forall i :: 0 <= i < |env| ==> '=' !in env[i].key }

  lemma {:induction false} EnvsReadBackIff(env: seq<LaunchEnv>)
    ensures ReadAll(ArgsOfEnv(env), ReadEnv) == Some(env) <==> PlainKeys(env)
  {
    if env != [] {
      EnvReadsBackIff(env[0]);
      EnvsReadBackIff(env[1..]);
      ReadAllCons(EnvArg(env[0]), ArgsOfEnv(env[1..]), ReadEnv, env[0], env[1..]);
      assert [env[0]] + env[1..] == env;
      assert PlainKeys(env) <==> '=' !in env[0].key && PlainKeys(env[1..]);
    }
  }

  // ---------- Reading the whole command ----------

  datatype View = View(
    docker: string, switches: seq<string>, names: seq<string>, labels: seq<string>, binds: seq<Bind>,
    workdirs: seq<string>, env: seq<LaunchEnv>, image: string, command: seq<string>)

  function ViewOf(docker: string, items: seq<Item>, rest: seq<string>): Option<View> {
    var binds, env := ReadAll(Args(items, "--mount"), ReadBind), ReadAll(Args(items, "--env"), ReadEnv);
    if rest == [] || binds.None? || env.None? then None
    else Some(View(docker, Switches(items), Args(items, "--name"), Args(items, "--label"), binds.value,
                   Args(items, "--workdir"), env.value, rest[0], rest[1..]))
  }

  function ReadRun(argv: seq<string>): Option<View> {
    if |argv| < 2 || argv[1] != "run" then None
    else
      var (items, rest) := ReadItems(argv[2..]);
      ViewOf(argv[0], items, rest)
  }

  function ExpectedBinds(s: Settings, launch: LaunchSpec, plan: CwdMountPlan): seq<Bind> {
    if plan.autoMountCwd then [Bind(launch.cwd, launch.cwd, false)] + BindsOf(s.mounts) else BindsOf(s.mounts)
  }

  function Expected(s: Settings, launch: LaunchSpec, plan: CwdMountPlan): View
    requires launch.argv != []
  {
    View(s.docker, ExpectedSwitches(s), ["rtm-" + s.session], ["io.helioy.runtime-matters.session=" + s.session],
         ExpectedBinds(s, launch, plan), [plan.workdir], launch.env, s.image, Command(launch))
  }

  /** Removed when it ends; attached to the pane for tmux; an init process unless the image
      brings its own. */
  function ExpectedSwitches(s: Settings): seq<string> {
    ["--rm"] + (if s.tmux then ["-i", "-t", "--sig-proxy=false"] else [])
    + (if s.profile == Some("own-init") then [] else ["--init"])
  }

  predicate PrintablePaths(s: Settings, launch: LaunchSpec, plan: CwdMountPlan) {
    AllCommaFree(s.mounts) && (plan.autoMountCwd ==> COMMA !in launch.cwd)
  }

  /** What the command line can carry: comma-free paths and keys without `=`. */
  predicate Printable(s: Settings, launch: LaunchSpec, plan: CwdMountPlan) {
    PrintablePaths(s, launch, plan) && PlainKeys(launch.env)
  }

  lemma MountArgsReadBackIff(s: Settings, launch: LaunchSpec, plan: CwdMountPlan)
    ensures ReadAll(MountArgs(s, launch, plan), ReadBind) == Some(ExpectedBinds(s, launch, plan))
       <==> PrintablePaths(s, launch, plan)
  {
    BindsReadBackIff(s.mounts);
    if plan.autoMountCwd {
      AutoBindReadsBackIff(launch.cwd);
      ReadAllCons(AutoBindArg(launch.cwd), ArgsOfMounts(s.mounts), ReadBind,
                  Bind(launch.cwd, launch.cwd, false), BindsOf(s.mounts));
    }
  }

  lemma ViewReadsBackIff(s: Settings, launch: LaunchSpec, plan: CwdMountPlan)
    requires launch.argv != []
    ensures ViewOf(s.docker, RunItems(s, launch, plan), [s.image] + Command(launch)) == Some(Expected(s, launch, plan))
       <==> Printable(s, launch, plan)
  {
    MountArgsReadBackIff(s, launch, plan);
    EnvsReadBackIff(launch.env);
    SwitchesOfRun(s, launch, plan);
    ArgsOfRun(s, launch, plan, "--mount");
    ArgsOfRun(s, launch, plan, "--name");
    ArgsOfRun(s, launch, plan, "--label");
    ArgsOfRun(s, launch, plan, "--workdir");
    ArgsOfRun(s, launch, plan, "--env");
    assert ([s.image] + Command(launch))[1..] == Command(launch);
  }

  lemma ArgvStart(s: Settings, launch: LaunchSpec, plan: CwdMountPlan)
    requires launch.argv != []
    ensures var argv := RunArgv(s, launch, plan);
            |argv| >= 2 && argv[0] == s.docker && argv[1] == "run"
            && argv[2..] == Write(RunItems(s, launch, plan)) + ([s.image] + Command(launch))
  {
  }

  /** An image that looks like a flag is never read as the image. */
  lemma DashImageLost(s: Settings, launch: LaunchSpec, plan: CwdMountPlan)
    requires launch.argv != [] && IsFlag(s.image)
    ensures ReadRun(RunArgv(s, launch, plan)) != Some(Expected(s, launch, plan))
  {
    ArgvStart(s, launch, plan);
    var argv := RunArgv(s, launch, plan);
    RemainderStart(argv[2..]);
    var rest := ReadItems(argv[2..]).1;
    assert Command(launch) != [];
    assert |rest| == 1 ==> rest[1..] == [];
  }

  /** ROUND TRIP. Reading the built argv by flag arity recovers the mounts with their
      read-only bits, the environment entries, the planned workdir, the image as first
      non-flag token and the command with its arguments, exactly when the paths hold no
      comma, the keys no `=`, and the image does not start with a dash. */
  lemma ArgvReadsBackIff(s: Settings, launch: LaunchSpec, plan: CwdMountPlan)
    requires launch.argv != []
    ensures ReadRun(RunArgv(s, launch, plan)) == Some(Expected(s, launch, plan))
       <==> Printable(s, launch, plan) && !IsFlag(s.image)
  {
    if IsFlag(s.image) {
      DashImageLost(s, launch, plan);
    } else {
      var tail := [s.image] + Command(launch);
      assert tail[0] == s.image;
      ArgvStart(s, launch, plan);
      RunItemsWellFlagged(s, launch, plan);
      ReadWritten(RunItems(s, launch, plan), tail);
      ViewReadsBackIff(s, launch, plan);
    }
  }

  lemma BareName(dir: string, name: string)
    requires CleanPart(name) && (dir == "" || dir[0] == SLASH)
    ensures ContainerCommand(dir + [SLASH] + name) == name
  {
    var command := dir + [SLASH] + name;
    assert command[0] == SLASH;
    if dir == "" {
      assert command == [SLASH] + name;
      HostComponentsOf("/", name);
    } else {
      HostComponentsOf(dir, name);
    }
  }

  /** COMMAND. After the image the container is told to start the bare name of an absolute
      launcher, whatever its directory, or the launcher as it is when it is not absolute,
      with the launch's own arguments. */
  lemma CommandIsBareName(s: Settings, launch: LaunchSpec, plan: CwdMountPlan, dir: string, name: string)
    requires launch.argv != []
    ensures var argv, n := RunArgv(s, launch, plan), |launch.argv|;
            && |argv| > n && argv[|argv| - n - 1] == s.image && argv[|argv| - n + 1..] == launch.argv[1..]
            && (launch.argv[0] == "" || launch.argv[0][0] != SLASH ==> argv[|argv| - n] == launch.argv[0])
            && (launch.argv[0] == dir + [SLASH] + name && CleanPart(name) && (dir == "" || dir[0] == SLASH) ==>
                  argv[|argv| - n] == name)
  {
    ArgvStart(s, launch, plan);
    var argv, n := RunArgv(s, launch, plan), |launch.argv|;
    var flags := Write(RunItems(s, launch, plan));
    assert argv == [s.docker, "run"] + flags + [s.image] + Command(launch);
    assert argv[|argv| - n..] == Command(launch);
    if launch.argv[0] == dir + [SLASH] + name && CleanPart(name) && (dir == "" || dir[0] == SLASH) {
      BareName(dir, name);
    }
  }

  /** The same of the command read back. */
  lemma ViewedCommand(s: Settings, launch: LaunchSpec, plan: CwdMountPlan, dir: string, name: string)
    requires launch.argv != [] && Printable(s, launch, plan) && !IsFlag(s.image)
    ensures var view := ReadRun(RunArgv(s, launch, plan));
            && view.Some? && view.value.image == s.image
            && |view.value.command| == |launch.argv| && view.value.command[1..] == launch.argv[1..]
            && (launch.argv[0] == "" || launch.argv[0][0] != SLASH ==> view.value.command[0] == launch.argv[0])
            && (launch.argv[0] == dir + [SLASH] + name && CleanPart(name) && (dir == "" || dir[0] == SLASH) ==>
                  view.value.command[0] == name)
  {
    ArgvReadsBackIff(s, launch, plan);
    if launch.argv[0] == dir + [SLASH] + name && CleanPart(name) && (dir == "" || dir[0] == SLASH) {
      BareName(dir, name);
    }
  }

  /** What the container makes of a bind: its target with `.`, `..` and empty parts gone. */
  function MountOfBind(b: Bind): DockerMount {
    DockerMount(b.source, match Normalize(b.target) case Some(target) => target case None => b.target)
  }

  function MountsOfBinds(binds: seq<Bind>): (r: seq<DockerMount>)
    ensures |r| == |binds| && forall i :: 0 <= i < |binds| ==> r[i] == MountOfBind(binds[i])
  {
    seq(|binds|, i requires 0 <= i < |binds| => MountOfBind(binds[i]))
  }

  lemma {:induction false} BindsArePrepared(specs: seq<MountSpec>, docker: seq<DockerMount>)
    requires |specs| == |docker|
    requires forall k :: 0 <= k < |specs| ==>
               Normalize(specs[k].target) == Some(docker[k].target) && specs[k].source == docker[k].source
    ensures MountsOfBinds(BindsOf(specs)) == docker
  {
    var binds := BindsOf(specs);
    forall i | 0 <= i < |docker|
      ensures MountsOfBinds(binds)[i] == docker[i]
    {
      assert binds[i] == Bind(specs[i].source, specs[i].target, specs[i].readOnly);
    }
  }

  lemma MountsOfCons(b: Bind, binds: seq<Bind>)
    ensures MountsOfBinds([b] + binds) == [MountOfBind(b)] + MountsOfBinds(binds)
  {
  }

  /** The binds of the command are the mounts the plan was made for. */
  lemma BindsAreEffective(s: Settings, launch: LaunchSpec, plan: CwdMountPlan, docker: seq<DockerMount>)
    requires Canonical(launch.cwd) && |s.mounts| == |docker|
    requires forall k :: 0 <= k < |docker| ==>
               Normalize(s.mounts[k].target) == Some(docker[k].target) && s.mounts[k].source == docker[k].source
    ensures MountsOfBinds(ExpectedBinds(s, launch, plan)) == Effective(launch.cwd, plan, docker)
  {
    BindsArePrepared(s.mounts, docker);
    MountsOfCons(Bind(launch.cwd, launch.cwd, false), BindsOf(s.mounts));
  }

  /** END TO END. The command of an accepted request with printable parts reads back, and
      the container it describes resolves its workdir, by the deepest of the binds read, to
      the host working directory exactly when no declared target shadows the mount selected
      for that directory. */
  lemma AcceptedLaunchStartsInCwdIff(
    canon: Canon, catalog: Catalog, r: Request, s: Settings, launch: LaunchSpec, docker: seq<DockerMount>, k: nat)
    requires CanonicalAnswers(canon) && Accepts(canon, catalog, r, launch.cwd, s.mounts, docker)
    requires launch.argv != [] && !IsFlag(s.image)
    requires AllCommaFree(s.mounts) && COMMA !in launch.cwd && PlainKeys(launch.env)
    ensures PlanCwdMount(launch.cwd, s.mounts).Ok?
    ensures var plan := PlanCwdMount(launch.cwd, s.mounts).value;
            var view := Expected(s, launch, plan);
            var mounts := MountsOfBinds(view.binds);
            && ReadRun(RunArgv(s, launch, plan)) == Some(view) && view.workdirs == [plan.workdir]
            && (exists deepest: nat :: Deepest(mounts, plan.workdir, deepest))
            && (Deepest(mounts, plan.workdir, k) ==>
                  (ThroughMount(mounts[k], plan.workdir) == Some(HostComponents(launch.cwd))
                   <==> Unshadowed(launch.cwd, docker)))
            && (plan.autoMountCwd ==> Unshadowed(launch.cwd, docker))
  {
    AcceptedRequestKeepsCwdIff(canon, catalog, r, launch.cwd, s.mounts, docker, k);
    ArgvReadsBackIff(s, launch, PlanCwdMount(launch.cwd, s.mounts).value);
    assert Canonical(launch.cwd);
    PreparedTargets(canon, launch.cwd, r.mounts);
    BindsAreEffective(s, launch, PlanCwdMount(launch.cwd, s.mounts).value, docker);
  }
}
