/** The lifecycle row, its in-place transitions and the events derived from it. */
module Lifecycles {
  import opened Strings

  type SessionId = nat

  datatype DateTime = DateTime(seconds: int, nanos: nat)

  datatype RuntimeKind = Claude | Codex | Other(name: string)

  datatype IsolationPolicy = Host | Docker(profile: Option<string>)

  datatype TmuxAddress = TmuxAddress(session: string, window: nat, pane: nat)

  datatype RuntimeExit = RuntimeExit(code: Option<int>, signal: Option<int>)

  datatype LostEvidence = ShimDiedBeforeReport | PidNotAlive | PidReuseDetected

  datatype LifecycleState = Forking | Running | Exited(exit: RuntimeExit) | Lost(evidence: LostEvidence)

  datatype TerminationEvidence = ShimExit | ProcessExit | LostBy(lost: LostEvidence)

  datatype LogAvailability = Headless(stdoutPath: string, stderrPath: string) | TmuxPaneSnapshot | Unavailable

  datatype ShimReady = ShimReady(
    sessionId: SessionId, shimPid: nat, runtimePid: nat, startTime: DateTime, tmuxPane: Option<TmuxAddress>)

  datatype LaunchEnv = LaunchEnv(key: string, value: string)

  datatype LaunchSpec = LaunchSpec(argv: seq<string>, env: seq<LaunchEnv>, cwd: string)

  /** What the coordinators read of a spawn request. */
  datatype SpawnRequest = SpawnRequest(
    sessionId: SessionId, runtime: RuntimeKind, isolation: IsolationPolicy, tmux: Option<TmuxAddress>)

  datatype RuntimeEvent =
    | RunningEvent(sessionId: SessionId, runtimePid: nat, startTime: DateTime)
    | Terminated(sessionId: SessionId, exitCode: Option<int>, signal: Option<int>, evidence: TerminationEvidence)
    | LostEvent(sessionId: SessionId, lost: LostEvidence)
  {
    predicate Terminal() { Terminated? || LostEvent? }
  }

  datatype Lifecycle = Lifecycle(
    sessionId: SessionId,
    runtime: RuntimeKind,
    isolation: IsolationPolicy,
    state: LifecycleState,
    shimPid: Option<nat>,
    runtimePid: Option<nat>,
    startTime: Option<DateTime>,
    tmuxPane: Option<TmuxAddress>,
    logAvailability: Option<LogAvailability>)
  {
    predicate Terminal() { state.Exited? || state.Lost? }

    /** What a Running row must carry for the sweep and the Running event. */
    predicate Identified() { shimPid.Some? && runtimePid.Some? && startTime.Some? }
  }

  function NewForking(id: SessionId, runtime: RuntimeKind): Lifecycle {
    Lifecycle(id, runtime, Host, Forking, None, None, None, None, None)
  }

  /** The row after `mark_running`, and whether the call reported a change. */
  function AfterReady(l: Lifecycle, ready: ShimReady): (r: (Lifecycle, bool))
    ensures r.1 <==> l.state.Forking?
    ensures r.1 ==> r.0.state.Running? && r.0.Identified()
    ensures r.1 ==> r.0.shimPid == Some(ready.shimPid) && r.0.runtimePid == Some(ready.runtimePid)
                    && r.0.startTime == Some(ready.startTime) && r.0.tmuxPane == ready.tmuxPane
    ensures r.0.sessionId == l.sessionId && r.0.runtime == l.runtime && r.0.isolation == l.isolation
    ensures !r.1 ==> r.0 == l
  {
    if l.state != Forking then (l, false)
    else (l.(state := Running, shimPid := Some(ready.shimPid), runtimePid := Some(ready.runtimePid),
             startTime := Some(ready.startTime), tmuxPane := ready.tmuxPane), true)
  }

  /** `mark_exited` overwrites the exit of a row that already exited, yet reports no change. */
  function AfterExit(l: Lifecycle, exit: RuntimeExit): (r: (Lifecycle, bool))
    ensures r.1 <==> !l.Terminal()
    ensures r.0.state == if l.state.Lost? then l.state else Exited(exit)
    ensures r.0.(state := l.state) == l
  {
    match l.state
    case Forking => (l.(state := Exited(exit)), true)
    case Running => (l.(state := Exited(exit)), true)
    case Exited(existing) => (if existing != exit then l.(state := Exited(exit)) else l, false)
    case Lost(_) => (l, false)
  }

  function AfterLoss(l: Lifecycle, evidence: LostEvidence): (r: (Lifecycle, bool))
    ensures r.1 <==> !l.Terminal()
    ensures r.0.state == if l.Terminal() then l.state else Lost(evidence)
    ensures r.0.(state := l.state) == l
  {
    if l.Terminal() then (l, false) else (l.(state := Lost(evidence)), true)
  }

  datatype Mark = ReadyMark(ready: ShimReady) | ExitMark(exit: RuntimeExit) | LossMark(evidence: LostEvidence)

  function Marked(l: Lifecycle, m: Mark): (Lifecycle, bool) {
    match m
    case ReadyMark(ready) => AfterReady(l, ready)
    case ExitMark(exit) => AfterExit(l, exit)
    case LossMark(evidence) => AfterLoss(l, evidence)
  }

  function AfterMarks(l: Lifecycle, marks: seq<Mark>): Lifecycle {
    if marks == [] then l else Marked(AfterMarks(l, marks[..|marks| - 1]), marks[|marks| - 1]).0
  }

  /** How many of the marks reported a change, among ready marks or among the others. */
  function Reports(l: Lifecycle, marks: seq<Mark>, ready: bool): nat {
    if marks == [] then 0
    else
      var front, m := marks[..|marks| - 1], marks[|marks| - 1];
      Reports(l, front, ready)
      + (if m.ReadyMark? == ready && Marked(AfterMarks(l, front), m).1 then 1 else 0)
  }

  /** Over any marks, at most one ready report and exactly one end is reported as a change
      if the row ends; an ended row stays ended, and a lost one stays as it is. */
  lemma {:induction false} EndReportedOnce(l: Lifecycle, marks: seq<Mark>)
    ensures Reports(l, marks, false) == if !l.Terminal() && AfterMarks(l, marks).Terminal() then 1 else 0
    ensures Reports(l, marks, true) == if l.state.Forking? && HasRun(l, marks) then 1 else 0
    ensures l.Terminal() ==> AfterMarks(l, marks).Terminal()
    ensures l.state.Lost? ==> AfterMarks(l, marks) == l
  {
    if marks != [] {
      EndReportedOnce(l, marks[..|marks| - 1]);
    }
  }

  /** Some prefix of the marks leaves the row Running. */
  predicate HasRun(l: Lifecycle, marks: seq<Mark>) {
    AfterMarks(l, marks).state.Running? || (marks != [] && HasRun(l, marks[..|marks| - 1]))
  }

  /** The in-memory copy a handler reads from the store and marks. */
  class LifecycleCell {
    var row: Lifecycle

    constructor (row: Lifecycle)
      ensures this.row == row
    {
      this.row := row;
    }

    method MarkRunning(ready: ShimReady) returns (changed: bool)
      modifies this
      ensures (row, changed) == AfterReady(old(row), ready)
    {
      if row.state != Forking {
        return false;
      }
      row := row.(state := Running);
      row := row.(shimPid := Some(ready.shimPid));
      row := row.(runtimePid := Some(ready.runtimePid));
      row := row.(startTime := Some(ready.startTime));
      row := row.(tmuxPane := ready.tmuxPane);
      return true;
    }

    method MarkExited(exit: RuntimeExit) returns (changed: bool)
      modifies this
      ensures (row, changed) == AfterExit(old(row), exit)
    {
      match row.state {
        case Forking =>
          row := row.(state := Exited(exit));
          return true;
        case Running =>
          row := row.(state := Exited(exit));
          return true;
        case Exited(existing) =>
          if existing != exit {
            row := row.(state := Exited(exit));
          }
          return false;
        case Lost(_) =>
          return false;
      }
    }

    method MarkLost(evidence: LostEvidence) returns (changed: bool)
      modifies this
      ensures (row, changed) == AfterLoss(old(row), evidence)
    {
      if row.state.Exited? || row.state.Lost? {
        return false;
      }
      row := row.(state := Lost(evidence));
      return true;
    }
  }

  /** `running_event`: fails when the row lacks a pid or a start time. */
  function RunningEventOf(l: Lifecycle): Option<RuntimeEvent> {
    if l.runtimePid.Some? && l.startTime.Some?
    then Some(RunningEvent(l.sessionId, l.runtimePid.value, l.startTime.value))
    else None
  }

  /** The terminal event `finish_terminal` builds from the row copy and the evidence. */
  function TerminalEventOf(l: Lifecycle, evidence: TerminationEvidence): (e: RuntimeEvent)
    ensures e.Terminal() && e.sessionId == l.sessionId
  {
    match evidence
    case LostBy(lost) => LostEvent(l.sessionId, lost)
    case _ =>
      var exit := if l.state.Exited? then l.state.exit else RuntimeExit(None, None);
      Terminated(l.sessionId, exit.code, exit.signal, evidence)
  }
}
