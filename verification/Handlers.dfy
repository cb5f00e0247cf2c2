/** The coordinators' handlers, each run to its end or stopped at an I/O step, as
    functions of the daemon's state. */
module Handlers {
  import opened Strings
  import opened Lifecycles

  /** Rows and log outlive the process; the other fields do not. */
  datatype Daemon = Daemon(
    rows: map<SessionId, Lifecycle>,
    log: seq<RuntimeEvent>,
    terminated: set<SessionId>,
    watchers: set<SessionId>,
    launches: map<SessionId, LaunchSpec>,
    senders: set<SessionId>)

  /** Where a handler ends: an I/O error and a dying process both stop it early. */
  datatype Stop = Completes | BeforeUpdate | AfterUpdate | BeforeAppend

  datatype Failure =
    | SessionExists | SessionNotFound | RuntimeMismatch | NotWaiting | AlreadyTerminal
    | NoPendingLaunch | AlreadyPending | TargetRefused | MissingShimPid | Interrupted

  datatype Reply =
    | Ack | Emitted(event: RuntimeEvent) | Silent | Handed(launch: LaunchSpec) | Failed(failure: Failure)

  // ---------- The lifecycle table ----------

  /** The table keeps every column but `log_availability`. */
  function Stored(l: Lifecycle): Lifecycle { l.(logAvailability := None) }

  function InsertForking(rows: map<SessionId, Lifecycle>, l: Lifecycle): (map<SessionId, Lifecycle>, bool) {
    if !l.state.Forking? || l.sessionId in rows then (rows, false)
    else (rows[l.sessionId := Stored(l)], true)
  }

  function UpdateRow(rows: map<SessionId, Lifecycle>, l: Lifecycle): (map<SessionId, Lifecycle>, bool) {
    if l.sessionId !in rows then (rows, false) else (rows[l.sessionId := Stored(l)], true)
  }

  datatype TableOp = InsertOp(row: Lifecycle) | UpdateOp(row: Lifecycle) | DeleteOp(key: SessionId)

  /** The table after a list of operations, refused ones included. */
  function Table(ops: seq<TableOp>): map<SessionId, Lifecycle> {
    if ops == [] then map[]
    else
      var rows := Table(ops[..|ops| - 1]);
      match ops[|ops| - 1]
      case InsertOp(l) => InsertForking(rows, l).0
      case UpdateOp(l) => UpdateRow(rows, l).0
      case DeleteOp(id) => rows - {id}
  }

  function KeyOf(op: TableOp): SessionId { if op.DeleteOp? then op.key else op.row.sessionId }

  /** What one session's own operations make of its row. */
  function Cell(ops: seq<TableOp>, id: SessionId): Option<Lifecycle> {
    if ops == [] then None
    else
      var before, op := Cell(ops[..|ops| - 1], id), ops[|ops| - 1];
      if KeyOf(op) != id then before
      else match op
        case InsertOp(l) => if before.None? && l.state.Forking? then Some(Stored(l)) else before
        case UpdateOp(l) => if before.Some? then Some(Stored(l)) else None
        case DeleteOp(_) => None
  }

  /** Rows are independent: whatever the other sessions' operations, a session has at most
      one row, kept under its own id, and it is what the session's own operations made. */
  lemma {:induction false} RowIsOwnHistory(ops: seq<TableOp>, id: SessionId)
    ensures Cell(ops, id) == if id in Table(ops) then Some(Table(ops)[id]) else None
    ensures id in Table(ops) ==> Table(ops)[id].sessionId == id
  {
    if ops != [] {
      RowIsOwnHistory(ops[..|ops| - 1], id);
    }
  }

  // ---------- spawn.rs ----------

  function BeginSpawn(d: Daemon, req: SpawnRequest, launch: LaunchSpec, targetValid: bool): (Daemon, Reply) {
    if req.sessionId in d.rows then (d, Failed(SessionExists))
    else if !targetValid then (d, Failed(TargetRefused))
    else
      var row := NewForking(req.sessionId, req.runtime).(isolation := req.isolation);
      var launches := d.launches[req.sessionId := launch];
      var begun := d.(rows := InsertForking(d.rows, row).0, launches := launches);
      if req.sessionId in d.senders then (CancelSpawn(begun, req.sessionId), Failed(AlreadyPending))
      else (begun.(senders := d.senders + {req.sessionId}), Ack)
  }

  function CancelSpawn(d: Daemon, id: SessionId): Daemon {
    d.(launches := d.launches - {id}, senders := d.senders - {id}, rows := d.rows - {id})
  }

  function TakeLaunch(d: Daemon, id: SessionId): (Daemon, Reply) {
    if id !in d.launches then (d, Failed(NoPendingLaunch))
    else (d.(launches := d.launches - {id}), Handed(d.launches[id]))
  }

  /** Store the running row, start the exit watcher, append the Running event. */
  function PublishRunning(d: Daemon, l: Lifecycle, stop: Stop): (Daemon, Reply) {
    if stop == BeforeUpdate || l.sessionId !in d.rows then (d, Failed(Interrupted))
    else
      var stored := d.(rows := UpdateRow(d.rows, l).0);
      var event := RunningEventOf(l);
      if stop == AfterUpdate || event.None? then (stored, Failed(Interrupted))
      else
        var watched := stored.(watchers := d.watchers + {l.sessionId});
        if stop == BeforeAppend then (watched, Failed(Interrupted))
        else (watched.(log := d.log + [event.value]), Emitted(event.value))
  }

  function RecordRunning(d: Daemon, req: SpawnRequest, ready: ShimReady, stop: Stop): (Daemon, Reply) {
    if req.sessionId !in d.rows then (d, Failed(SessionNotFound))
    else if d.rows[req.sessionId].runtime != req.runtime then (d, Failed(RuntimeMismatch))
    else
      var (l, changed) := AfterReady(d.rows[req.sessionId], ready);
      if !changed then (d, Failed(NotWaiting))
      else PublishRunning(d, l.(tmuxPane := req.tmux), stop)
  }

  function RecordReconnected(d: Daemon, ready: ShimReady, stop: Stop): (Daemon, Reply) {
    if ready.sessionId !in d.rows then (d, Failed(SessionNotFound))
    else
      var row := d.rows[ready.sessionId];
      match row.state
      case Forking => PublishRunning(d, AfterReady(row, ready).0, stop)
      case Running => if stop == Completes then (d.(watchers := d.watchers + {row.sessionId}), Silent)
                      else (d, Failed(Interrupted))
      case _ => (d, Failed(AlreadyTerminal))
  }

  function CompleteShimReady(d: Daemon, ready: ShimReady, stop: Stop): (Daemon, Reply) {
    if ready.sessionId in d.senders then (d.(senders := d.senders - {ready.sessionId}), Ack)
    else RecordReconnected(d, ready, stop)
  }

  // ---------- termination.rs ----------

  /** Store the terminal row, drop the watcher, insert into the set, append the event. */
  function FinishTerminal(d: Daemon, l: Lifecycle, evidence: TerminationEvidence, stop: Stop): (Daemon, Reply) {
    if stop == BeforeUpdate || l.sessionId !in d.rows then (d, Failed(Interrupted))
    else
      var stored := d.(rows := UpdateRow(d.rows, l).0);
      if stop == AfterUpdate then (stored, Failed(Interrupted))
      else
        var unwatched := stored.(watchers := d.watchers - {l.sessionId});
        if l.sessionId in d.terminated then (unwatched, Silent)
        else
          var marked := unwatched.(terminated := d.terminated + {l.sessionId});
          if stop == BeforeAppend then (marked, Failed(Interrupted))
          else
            var event := TerminalEventOf(l, evidence);
            (marked.(log := d.log + [event]), Emitted(event))
  }

  function RecordExited(
    d: Daemon, id: SessionId, exit: RuntimeExit, evidence: TerminationEvidence, stop: Stop): (Daemon, Reply)
  {
    if id !in d.rows then (d, Failed(SessionNotFound))
    else
      var (l, changed) := AfterExit(d.rows[id], exit);
      if !changed then (d, Silent) else FinishTerminal(d, l, evidence, stop)
  }

  function RecordLost(d: Daemon, id: SessionId, lost: LostEvidence, stop: Stop): (Daemon, Reply) {
    if id !in d.rows then (d, Failed(SessionNotFound))
    else
      var (l, changed) := AfterLoss(d.rows[id], lost);
      if !changed then (d, Silent) else FinishTerminal(d, l, LostBy(lost), stop)
  }

  /** `record_watcher_exit`: the exit watcher of a process fired; whether the shim still
      lives tells an exit from a loss. */
  function RecordWatcherExit(d: Daemon, id: SessionId, shimAlive: bool, stop: Stop): (Daemon, Reply) {
    if id in d.rows && d.rows[id].Terminal() then (d, Silent)
    else if id !in d.rows || d.rows[id].shimPid.None? then (d, Failed(MissingShimPid))
    else if shimAlive then RecordExited(d, id, RuntimeExit(None, None), ProcessExit, stop)
    else RecordLost(d, id, ShimDiedBeforeReport, stop)
  }

  /** The next daemon life: rows and log as they are, everything else empty. */
  function Restart(d: Daemon): Daemon { Daemon(d.rows, d.log, {}, {}, map[], {}) }

  // ---------- Runs ----------

  datatype Action =
    | Begin(req: SpawnRequest, launch: LaunchSpec, targetValid: bool)
    | Cancel(id: SessionId)
    | Take(id: SessionId)
    | ShimReadyRpc(ready: ShimReady, stop: Stop)
    | Running(req: SpawnRequest, ready: ShimReady, stop: Stop)
    | Exited(id: SessionId, exit: RuntimeExit, evidence: TerminationEvidence, stop: Stop)
    | Lost(id: SessionId, lost: LostEvidence, stop: Stop)
    | WatcherFired(id: SessionId, shimAlive: bool, stop: Stop)
    | Die

  /** `spoiled` collects the sessions cancelled although their shim had already reported;
      a backend that failed starts no shim, so the daemon never does this itself. */
  datatype Run = Run(d: Daemon, spoiled: set<SessionId>)

  const START := Run(Daemon(map[], [], {}, {}, map[], {}), {})

  function ApplyTo(d: Daemon, a: Action): Daemon {
    match a
    case Begin(req, launch, targetValid) => BeginSpawn(d, req, launch, targetValid).0
    case Cancel(id) => CancelSpawn(d, id)
    case Take(id) => TakeLaunch(d, id).0
    case ShimReadyRpc(ready, stop) => CompleteShimReady(d, ready, stop).0
    case Running(req, ready, stop) => RecordRunning(d, req, ready, stop).0
    case Exited(id, exit, evidence, stop) => RecordExited(d, id, exit, evidence, stop).0
    case Lost(id, lost, stop) => RecordLost(d, id, lost, stop).0
    case WatcherFired(id, shimAlive, stop) => RecordWatcherExit(d, id, shimAlive, stop).0
    case Die => Restart(d)
  }

  function Apply(r: Run, a: Action): Run {
    Run(ApplyTo(r.d, a),
        if a.Cancel? && a.id in r.d.rows && !r.d.rows[a.id].state.Forking? then r.spoiled + {a.id}
        else r.spoiled)
  }

  function Exec(acts: seq<Action>): Run {
    if acts == [] then START else Apply(Exec(acts[..|acts| - 1]), acts[|acts| - 1])
  }

  /** One session's events, in log order. */
  function EventsFor(log: seq<RuntimeEvent>, id: SessionId): seq<RuntimeEvent> {
    if log == [] then []
    else
      var last := log[|log| - 1];
      EventsFor(log[..|log| - 1], id) + (if last.sessionId == id then [last] else [])
  }

  /** At most one Running event, then at most one terminal event. */
  predicate WellShaped(events: seq<RuntimeEvent>) {
    || events == []
    || (|events| == 1 && (events[0].RunningEvent? || events[0].Terminal()))
    || (|events| == 2 && events[0].RunningEvent? && events[1].Terminal())
  }

  predicate OnlyRunning(events: seq<RuntimeEvent>) {
    events == [] || (|events| == 1 && events[0].RunningEvent?)
  }

  predicate SessionOk(d: Daemon, id: SessionId) {
    if id !in d.rows || d.rows[id].state.Forking? then EventsFor(d.log, id) == [] && id !in d.terminated
    else if d.rows[id].state.Running? then
      OnlyRunning(EventsFor(d.log, id)) && id !in d.terminated && d.rows[id].Identified()
    else WellShaped(EventsFor(d.log, id))
  }

  predicate RowKeyed(d: Daemon, id: SessionId) { id in d.rows ==> d.rows[id].sessionId == id }

  lemma EventsForPush(log: seq<RuntimeEvent>, e: RuntimeEvent, id: SessionId)
    ensures EventsFor(log + [e], id) == EventsFor(log, id) + (if e.sessionId == id then [e] else [])
  {
    assert (log + [e])[..|log|] == log;
  }

  lemma ShapePush(events: seq<RuntimeEvent>, last: RuntimeEvent)
    requires OnlyRunning(events) && last.Terminal()
    ensures WellShaped(events) && WellShaped(events + [last])
  {
  }

  lemma SessionUntouched(d: Daemon, d': Daemon, id: SessionId)
    requires SessionOk(d, id)
    requires id in d'.rows <==> id in d.rows
    requires id in d.rows ==> d'.rows[id] == d.rows[id]
    requires EventsFor(d'.log, id) == EventsFor(d.log, id)
    requires id in d'.terminated <==> id in d.terminated
    ensures SessionOk(d', id)
  {
  }

  lemma PublishKeeps(d: Daemon, l: Lifecycle, stop: Stop, id: SessionId)
    requires SessionOk(d, id) && RowKeyed(d, id)
    requires l.state.Running? && l.Identified()
    requires l.sessionId in d.rows && d.rows[l.sessionId].state.Forking?
    ensures SessionOk(PublishRunning(d, l, stop).0, id)
  {
    var d' := PublishRunning(d, l, stop).0;
    EventsForPush(d.log, RunningEventOf(l).value, id);
    if id != l.sessionId {
      SessionUntouched(d, d', id);
    }
  }

  lemma FinishOwn(d: Daemon, l: Lifecycle, evidence: TerminationEvidence, stop: Stop)
    requires SessionOk(d, l.sessionId) && l.Terminal()
    requires l.sessionId in d.rows && !d.rows[l.sessionId].Terminal()
    ensures SessionOk(FinishTerminal(d, l, evidence, stop).0, l.sessionId)
  {
    var id, event := l.sessionId, TerminalEventOf(l, evidence);
    EventsForPush(d.log, event, id);
    assert OnlyRunning(EventsFor(d.log, id));
    ShapePush(EventsFor(d.log, id), event);
  }

  /** Finishing one session leaves another one's row, set entry and events alone. */
  lemma FinishElsewhere(d: Daemon, l: Lifecycle, evidence: TerminationEvidence, stop: Stop, id: SessionId)
    requires id != l.sessionId
    ensures var d' := FinishTerminal(d, l, evidence, stop).0;
            && (id in d'.rows <==> id in d.rows) && (id in d.rows ==> d'.rows[id] == d.rows[id])
            && (id in d'.terminated <==> id in d.terminated)
            && (d'.log == d.log || d'.log == d.log + [TerminalEventOf(l, evidence)])
  {
  }

  lemma FinishOther(d: Daemon, l: Lifecycle, evidence: TerminationEvidence, stop: Stop, id: SessionId)
    requires SessionOk(d, id) && id != l.sessionId
    ensures SessionOk(FinishTerminal(d, l, evidence, stop).0, id)
  {
    FinishElsewhere(d, l, evidence, stop, id);
    var d' := FinishTerminal(d, l, evidence, stop).0;
    EventsForPush(d.log, TerminalEventOf(l, evidence), id);
    assert EventsFor(d'.log, id) == EventsFor(d.log, id);
    SessionUntouched(d, d', id);
  }

  lemma FinishKeeps(d: Daemon, l: Lifecycle, evidence: TerminationEvidence, stop: Stop, id: SessionId)
    requires SessionOk(d, id) && l.Terminal()
    requires l.sessionId in d.rows && !d.rows[l.sessionId].Terminal()
    ensures SessionOk(FinishTerminal(d, l, evidence, stop).0, id)
  {
    if id == l.sessionId {
      FinishOwn(d, l, evidence, stop);
    } else {
      FinishOther(d, l, evidence, stop, id);
    }
  }

  ghost predicate AllKeyed(d: Daemon) { forall id :: RowKeyed(d, id) }

  lemma ApplyKeepsKeyed(d: Daemon, a: Action)
    requires AllKeyed(d)
    ensures AllKeyed(ApplyTo(d, a))
  {
    forall id
      ensures RowKeyed(ApplyTo(d, a), id)
    {
      assert RowKeyed(d, id);
    }
  }

  lemma RecorderKeeps(d: Daemon, a: Action, id: SessionId)
    requires SessionOk(d, id) && AllKeyed(d)
    requires a.ShimReadyRpc? || a.Running? || a.Exited? || a.Lost?
    ensures SessionOk(ApplyTo(d, a), id)
  {
    assert RowKeyed(d, id);
    match a
    case ShimReadyRpc(ready, stop) =>
      assert RowKeyed(d, ready.sessionId);
      if ready.sessionId in d.rows && d.rows[ready.sessionId].state.Forking? {
        PublishKeeps(d, AfterReady(d.rows[ready.sessionId], ready).0, stop, id);
      }
    case Running(req, ready, stop) =>
      assert RowKeyed(d, req.sessionId);
      if req.sessionId in d.rows && d.rows[req.sessionId].state.Forking? {
        PublishKeeps(d, AfterReady(d.rows[req.sessionId], ready).0.(tmuxPane := req.tmux), stop, id);
      }
    case Exited(i, exit, evidence, stop) =>
      assert RowKeyed(d, i);
      if i in d.rows && !d.rows[i].Terminal() { FinishKeeps(d, AfterExit(d.rows[i], exit).0, evidence, stop, id); }
    case Lost(i, lost, stop) =>
      assert RowKeyed(d, i);
      if i in d.rows && !d.rows[i].Terminal() { FinishKeeps(d, AfterLoss(d.rows[i], lost).0, LostBy(lost), stop, id); }
  }

  /** A fired watcher does nothing, or what one of the two recorders does. */
  function WatcherRecorder(a: Action): Action
    requires a.WatcherFired?
  {
    if a.shimAlive then Action.Exited(a.id, RuntimeExit(None, None), ProcessExit, a.stop)
    else Action.Lost(a.id, ShimDiedBeforeReport, a.stop)
  }

  lemma WatcherIsRecorder(d: Daemon, a: Action)
    requires a.WatcherFired?
    ensures ApplyTo(d, a) == d || ApplyTo(d, a) == ApplyTo(d, WatcherRecorder(a))
  {
  }

  lemma ApplyKeepsSession(d: Daemon, a: Action, id: SessionId)
    requires SessionOk(d, id) && AllKeyed(d)
    requires a == Cancel(id) ==> id !in d.rows || d.rows[id].state.Forking?
    ensures SessionOk(ApplyTo(d, a), id)
  {
    match a
    case ShimReadyRpc(_, _) => RecorderKeeps(d, a, id);
    case Running(_, _, _) => RecorderKeeps(d, a, id);
    case Exited(_, _, _, _) => RecorderKeeps(d, a, id);
    case Lost(_, _, _) => RecorderKeeps(d, a, id);
    case WatcherFired(_, _, _) =>
      WatcherIsRecorder(d, a);
      RecorderKeeps(d, WatcherRecorder(a), id);
    case _ =>
  }

  lemma {:induction false} ExecKeepsSessions(acts: seq<Action>, id: SessionId)
    requires id !in Exec(acts).spoiled
    ensures SessionOk(Exec(acts).d, id)
  {
    if acts != [] {
      ExecKeepsSessions(acts[..|acts| - 1], id);
      ExecKeepsKeyed(acts[..|acts| - 1]);
      ApplyKeepsSession(Exec(acts[..|acts| - 1]).d, acts[|acts| - 1], id);
    }
  }

  lemma {:induction false} ExecKeepsKeyed(acts: seq<Action>)
    ensures AllKeyed(Exec(acts).d)
  {
    if acts != [] {
      ExecKeepsKeyed(acts[..|acts| - 1]);
      ApplyKeepsKeyed(Exec(acts[..|acts| - 1]).d, acts[|acts| - 1]);
    }
  }

  /** EVENT ORDER. Over any handlers, any early stops and any restarts, an uncancelled
      session's events are at most one Running followed by at most one terminal event. */
  lemma EventsAreWellShaped(acts: seq<Action>, id: SessionId)
    requires id !in Exec(acts).spoiled
    ensures WellShaped(EventsFor(Exec(acts).d.log, id))
  {
    ExecKeepsSessions(acts, id);
  }

  predicate RowFrozen(d: Daemon, d': Daemon, id: SessionId) {
    id in d.rows && d.rows[id].Terminal() ==> id in d'.rows && d'.rows[id] == d.rows[id]
  }

  lemma SpawnRowsFrozen(d: Daemon, a: Action, id: SessionId)
    requires AllKeyed(d) && (a.Begin? || a.Take? || a.ShimReadyRpc? || a.Running?)
    ensures RowFrozen(d, ApplyTo(d, a), id)
  {
    assert RowKeyed(d, id);
    if a.ShimReadyRpc? { assert RowKeyed(d, a.ready.sessionId); }
    if a.Running? { assert RowKeyed(d, a.req.sessionId); }
  }

  lemma TerminalRowsFrozenIn(d: Daemon, a: Action, id: SessionId)
    requires AllKeyed(d) && a != Cancel(id)
    ensures RowFrozen(d, ApplyTo(d, a), id)
  {
    assert RowKeyed(d, id);
    match a
    case Exited(i, _, _, _) => assert RowKeyed(d, i);
    case Lost(i, _, _) => assert RowKeyed(d, i);
    case WatcherFired(i, _, _) => assert RowKeyed(d, i);
    case Cancel(i) =>
    case Die =>
    case _ => SpawnRowsFrozen(d, a, id);
  }

  /** FROZEN. Run one at a time, handlers never rewrite a terminal row, even though a
      different exit overwrites the copy `record_exited` holds in memory. */
  lemma TerminalRowsFrozen(acts: seq<Action>, a: Action, id: SessionId)
    requires id in Exec(acts).d.rows && Exec(acts).d.rows[id].Terminal() && a != Cancel(id)
    ensures id in ApplyTo(Exec(acts).d, a).rows
    ensures ApplyTo(Exec(acts).d, a).rows[id] == Exec(acts).d.rows[id]
    ensures a.Exited? && a.id == id && Exec(acts).d.rows[id].state.Exited? ==>
              AfterExit(Exec(acts).d.rows[id], a.exit).0.state == LifecycleState.Exited(a.exit)
  {
    ExecKeepsKeyed(acts);
    TerminalRowsFrozenIn(Exec(acts).d, a, id);
  }

  /** A completed recorder that makes a row terminal always publishes: the set cannot
      hold a session whose row is still live. */
  lemma LiveRowExitIsPublished(acts: seq<Action>, id: SessionId, exit: RuntimeExit, evidence: TerminationEvidence)
    requires id !in Exec(acts).spoiled
    requires id in Exec(acts).d.rows && !Exec(acts).d.rows[id].Terminal()
    ensures var d := Exec(acts).d;
            var (d', reply) := RecordExited(d, id, exit, evidence, Completes);
            && reply == Emitted(match evidence
                                case LostBy(lost) => LostEvent(id, lost)
                                case _ => Terminated(id, exit.code, exit.signal, evidence))
            && d'.log == d.log + [reply.event] && d'.rows[id].state == LifecycleState.Exited(exit)
            && id in d'.terminated && id !in d'.watchers
  {
    ExecKeepsSessions(acts, id);
    ExecKeepsKeyed(acts);
    assert RowKeyed(Exec(acts).d, id);
  }

  /** A watcher that fires for an uncancelled Running session always publishes its
      terminal event, and names a loss exactly when the shim is gone too. */
  lemma WatcherExitIsPublished(acts: seq<Action>, id: SessionId, shimAlive: bool)
    requires id !in Exec(acts).spoiled
    requires id in Exec(acts).d.rows && Exec(acts).d.rows[id].state.Running?
    ensures var d := Exec(acts).d;
            var (d', reply) := RecordWatcherExit(d, id, shimAlive, Completes);
            && reply == Emitted(if shimAlive then Terminated(id, None, None, ProcessExit)
                                else LostEvent(id, ShimDiedBeforeReport))
            && d'.log == d.log + [reply.event] && d'.rows[id].Terminal() && id !in d'.watchers
  {
    ExecKeepsSessions(acts, id);
    ExecKeepsKeyed(acts);
    assert RowKeyed(Exec(acts).d, id);
  }

  predicate IdentifiedOk(d: Daemon, id: SessionId) {
    id in d.rows && d.rows[id].state.Running? ==> d.rows[id].Identified()
  }

  /** Every Running row names its processes, cancelled or not, so "missing runtime pid"
      cannot be reported. */
  lemma {:induction false} RunningRowsIdentified(acts: seq<Action>, id: SessionId)
    ensures IdentifiedOk(Exec(acts).d, id)
  {
    if acts != [] {
      RunningRowsIdentified(acts[..|acts| - 1], id);
      IdentifiedKept(Exec(acts[..|acts| - 1]).d, acts[|acts| - 1], id);
    }
  }

  lemma IdentifiedKept(d: Daemon, a: Action, id: SessionId)
    requires IdentifiedOk(d, id)
    ensures IdentifiedOk(ApplyTo(d, a), id)
  {
  }

  /** A live row's terminal event is still to come. */
  lemma LiveRowNotTerminated(acts: seq<Action>, id: SessionId)
    requires id !in Exec(acts).spoiled
    requires id in Exec(acts).d.rows && !Exec(acts).d.rows[id].Terminal()
    ensures id !in Exec(acts).d.terminated && OnlyRunning(EventsFor(Exec(acts).d.log, id))
  {
    ExecKeepsSessions(acts, id);
  }

  // ---------- Which terminal rows have their event ----------

  predicate RowEnded(d: Daemon, id: SessionId) { id in d.rows && d.rows[id].Terminal() }

  /** The log holds a terminal event of the session. */
  predicate EndLogged(d: Daemon, id: SessionId) {
    exists i :: 0 <= i < |d.log| && d.log[i].Terminal() && d.log[i].sessionId == id
  }

  function StopOf(a: Action): Option<Stop> {
    match a
    case Exited(_, _, _, stop) => Some(stop)
    case Lost(_, _, stop) => Some(stop)
    case WatcherFired(_, _, stop) => Some(stop)
    case _ => None
  }

  /** Where the handler that made the session's row terminal ended. */
  function EndedBy(acts: seq<Action>, id: SessionId): Option<Stop> {
    if acts == [] || !RowEnded(Exec(acts).d, id) then None
    else if RowEnded(Exec(acts[..|acts| - 1]).d, id) then EndedBy(acts[..|acts| - 1], id)
    else StopOf(acts[|acts| - 1])
  }

  lemma LogPush(d: Daemon, d': Daemon, e: RuntimeEvent, id: SessionId)
    requires d'.log == d.log + [e]
    ensures EndLogged(d', id) <==> EndLogged(d, id) || (e.Terminal() && e.sessionId == id)
  {
    if EndLogged(d, id) {
      var i :| 0 <= i < |d.log| && d.log[i].Terminal() && d.log[i].sessionId == id;
      assert d'.log[i] == d.log[i];
    }
    if e.Terminal() && e.sessionId == id {
      assert d'.log[|d.log|] == e;
    }
  }

  lemma {:induction false} LoggedIsListed(log: seq<RuntimeEvent>, id: SessionId, i: nat)
    requires i < |log| && log[i].sessionId == id
    ensures log[i] in EventsFor(log, id)
  {
    if i < |log| - 1 {
      LoggedIsListed(log[..|log| - 1], id, i);
    }
  }

  /** A live or absent row has no terminal event. */
  lemma LiveNotLogged(d: Daemon, id: SessionId)
    requires SessionOk(d, id) && !RowEnded(d, id)
    ensures !EndLogged(d, id)
  {
    if EndLogged(d, id) {
      var i :| 0 <= i < |d.log| && d.log[i].Terminal() && d.log[i].sessionId == id;
      LoggedIsListed(d.log, id, i);
    }
  }

  lemma FinishLogs(d: Daemon, l: Lifecycle, evidence: TerminationEvidence, stop: Stop, id: SessionId)
    requires l.sessionId in d.rows && (l.sessionId == id ==> id !in d.terminated && !EndLogged(d, id))
    ensures EndLogged(FinishTerminal(d, l, evidence, stop).0, id)
       <==> EndLogged(d, id) || (l.sessionId == id && stop == Completes)
  {
    LogPush(d, d.(log := d.log + [TerminalEventOf(l, evidence)]), TerminalEventOf(l, evidence), id);
  }

  lemma PublishLogs(d: Daemon, l: Lifecycle, stop: Stop, id: SessionId)
    ensures EndLogged(PublishRunning(d, l, stop).0, id) <==> EndLogged(d, id)
  {
    if RunningEventOf(l).Some? {
      LogPush(d, d.(log := d.log + [RunningEventOf(l).value]), RunningEventOf(l).value, id);
    }
  }

  /** What a recorder of a terminal event adds for the session. */
  lemma RecorderLogs(d: Daemon, a: Action, id: SessionId)
    requires AllKeyed(d) && (a.Exited? || a.Lost?)
    requires id in d.rows && !d.rows[id].Terminal() ==> id !in d.terminated && !EndLogged(d, id)
    ensures var d' := ApplyTo(d, a);
            EndLogged(d', id)
            <==> EndLogged(d, id) || (!RowEnded(d, id) && RowEnded(d', id) && StopOf(a) == Some(Completes))
  {
    match a
    case Exited(i, exit, evidence, stop) =>
      assert RowKeyed(d, i);
      if i in d.rows && !d.rows[i].Terminal() { FinishLogs(d, AfterExit(d.rows[i], exit).0, evidence, stop, id); }
    case Lost(i, lost, stop) =>
      assert RowKeyed(d, i);
      if i in d.rows && !d.rows[i].Terminal() { FinishLogs(d, AfterLoss(d.rows[i], lost).0, LostBy(lost), stop, id); }
  }

  lemma ReadyLogs(d: Daemon, a: Action, id: SessionId)
    requires a.ShimReadyRpc? || a.Running?
    ensures EndLogged(ApplyTo(d, a), id) <==> EndLogged(d, id)
  {
    match a
    case ShimReadyRpc(ready, stop) =>
      if ready.sessionId in d.rows { PublishLogs(d, AfterReady(d.rows[ready.sessionId], ready).0, stop, id); }
    case Running(req, ready, stop) =>
      if req.sessionId in d.rows {
        PublishLogs(d, AfterReady(d.rows[req.sessionId], ready).0.(tmuxPane := req.tmux), stop, id);
      }
  }

  lemma ActionLogs(d: Daemon, a: Action, id: SessionId)
    requires AllKeyed(d)
    requires id in d.rows && !d.rows[id].Terminal() ==> id !in d.terminated && !EndLogged(d, id)
    ensures var d' := ApplyTo(d, a);
            EndLogged(d', id)
            <==> EndLogged(d, id) || (!RowEnded(d, id) && RowEnded(d', id) && StopOf(a) == Some(Completes))
  {
    match a
    case Exited(_, _, _, _) => RecorderLogs(d, a, id);
    case Lost(_, _, _) => RecorderLogs(d, a, id);
    case WatcherFired(_, _, _) =>
      WatcherIsRecorder(d, a);
      RecorderLogs(d, WatcherRecorder(a), id);
    case ShimReadyRpc(_, _) => ReadyLogs(d, a, id);
    case Running(_, _, _) => ReadyLogs(d, a, id);
    case _ =>
  }

  /** EVENT OF AN ENDED ROW. A terminal row of an uncancelled session has its terminal
      event in the log exactly when the handler that made it terminal ran to its end: one
      stopped between update and append loses the event for good. */
  lemma {:induction false} EndedRowIsLoggedIff(acts: seq<Action>, id: SessionId)
    requires id !in Exec(acts).spoiled && RowEnded(Exec(acts).d, id)
    ensures EndLogged(Exec(acts).d, id) <==> EndedBy(acts, id) == Some(Completes)
  {
    var front, a := acts[..|acts| - 1], acts[|acts| - 1];
    var d := Exec(front).d;
    ExecKeepsKeyed(front);
    ExecKeepsSessions(front, id);
    if RowEnded(d, id) {
      EndedRowIsLoggedIff(front, id);
    } else {
      LiveNotLogged(d, id);
    }
    ActionLogs(d, a, id);
  }

  // ---------- What a ready report does ----------

  /** The row a ready report leaves. */
  predicate PublishedRow(before: Lifecycle, after: Lifecycle, ready: ShimReady, pane: Option<TmuxAddress>) {
    && after.state == LifecycleState.Running
    && after.shimPid == Some(ready.shimPid) && after.runtimePid == Some(ready.runtimePid)
    && after.startTime == Some(ready.startTime) && after.tmuxPane == pane
    && after.sessionId == before.sessionId && after.runtime == before.runtime && after.isolation == before.isolation
  }

  /** How far a stopped handler got: past the row, past the watcher, past the log. */
  predicate PastUpdate(stop: Stop) { stop != BeforeUpdate }

  predicate PastWatcher(stop: Stop) { stop == BeforeAppend || stop == Completes }

  /** One session's row replaced, its exit watched, its Running event appended, in this
      order up to the stop; nothing else changes. */
  predicate PublishedIn(
    d: Daemon, d': Daemon, id: SessionId, ready: ShimReady, pane: Option<TmuxAddress>, stop: Stop)
  {
    && id in d.rows && id in d'.rows
    && (if PastUpdate(stop) then PublishedRow(d.rows[id], d'.rows[id], ready, pane) else d'.rows[id] == d.rows[id])
    && d'.rows == d.rows[id := d'.rows[id]]
    && d'.watchers == (if PastWatcher(stop) then d.watchers + {id} else d.watchers)
    && d'.log == (if stop == Completes then d.log + [RunningEvent(id, ready.runtimePid, ready.startTime)] else d.log)
    && d'.terminated == d.terminated && d'.launches == d.launches && d'.senders == d.senders
  }

  function PublishReply(id: SessionId, ready: ShimReady, stop: Stop): Reply {
    if stop == Completes then Emitted(RunningEvent(id, ready.runtimePid, ready.startTime)) else Failed(Interrupted)
  }

  /** SPAWN REPORT. From every reachable state the report of a waiting spawn turns the
      Forking row of the right runtime Running with the report's processes and the requested
      pane, watches it and logs it, as far as it gets; on any other row it fails and changes
      nothing. */
  lemma SpawnReportPublishes(acts: seq<Action>, req: SpawnRequest, ready: ShimReady, stop: Stop)
    ensures var d, id := Exec(acts).d, req.sessionId;
            var (d', reply) := RecordRunning(d, req, ready, stop);
            if id in d.rows && d.rows[id].runtime == req.runtime && d.rows[id].state.Forking? then
              reply == PublishReply(id, ready, stop) && PublishedIn(d, d', id, ready, req.tmux, stop)
            else
              && d' == d && reply.Failed?
              && (reply.failure == SessionNotFound <==> id !in d.rows)
              && (reply.failure == RuntimeMismatch <==> id in d.rows && d.rows[id].runtime != req.runtime)
  {
    ExecKeepsKeyed(acts);
    assert RowKeyed(Exec(acts).d, req.sessionId);
  }

  /** RECONNECT. A reconnect publishes a Forking row likewise, only watches a Running one, and
      fails on any other, changing nothing. */
  lemma ReconnectPublishes(acts: seq<Action>, ready: ShimReady, stop: Stop)
    ensures var d, id := Exec(acts).d, ready.sessionId;
            var (d', reply) := RecordReconnected(d, ready, stop);
            if id in d.rows && d.rows[id].state.Forking? then
              reply == PublishReply(id, ready, stop) && PublishedIn(d, d', id, ready, ready.tmuxPane, stop)
            else if id in d.rows && d.rows[id].state.Running? then
              if stop == Completes then reply == Silent && d' == d.(watchers := d.watchers + {id})
              else reply == Failed(Interrupted) && d' == d
            else
              && d' == d && reply.Failed?
              && (reply.failure == SessionNotFound <==> id !in d.rows)
  {
    ExecKeepsKeyed(acts);
    assert RowKeyed(Exec(acts).d, ready.sessionId);
  }

  /** END. From every reachable state an exit or loss of a live, uncancelled session stores
      its end, drops its watcher, enters the set and logs its event, in this order up to the
      stop; nothing else changes. */
  lemma LiveRowEnds(acts: seq<Action>, a: Action, id: SessionId)
    requires id !in Exec(acts).spoiled && (a.Exited? || a.Lost?) && a.id == id
    requires id in Exec(acts).d.rows && !Exec(acts).d.rows[id].Terminal()
    ensures var d, d' := Exec(acts).d, ApplyTo(Exec(acts).d, a);
            var end := if a.Exited? then LifecycleState.Exited(a.exit) else LifecycleState.Lost(a.lost);
            var event := if a.Lost? then LostEvent(id, a.lost)
                         else if a.evidence.LostBy? then LostEvent(id, a.evidence.lost)
                         else Terminated(id, a.exit.code, a.exit.signal, a.evidence);
            && d'.rows == (if PastUpdate(a.stop) then d.rows[id := d.rows[id].(state := end, logAvailability := None)]
                           else d.rows)
            && d'.watchers == (if PastWatcher(a.stop) then d.watchers - {id} else d.watchers)
            && d'.terminated == (if PastWatcher(a.stop) then d.terminated + {id} else d.terminated)
            && d'.log == (if a.stop == Completes then d.log + [event] else d.log)
            && d'.launches == d.launches && d'.senders == d.senders
  {
    ExecKeepsSessions(acts, id);
    ExecKeepsKeyed(acts);
    assert RowKeyed(Exec(acts).d, id);
  }

  /** The session is Running at the end of every prefix of the continuation. */
  predicate RunsThrough(acts: seq<Action>, more: seq<Action>, id: SessionId) {
    && id in Exec(acts + more).d.rows && Exec(acts + more).d.rows[id].state.Running?
    && (more == [] || RunsThrough(acts, more[..|more| - 1], id))
  }

  lemma WatchStays(d: Daemon, a: Action, id: SessionId)
    requires AllKeyed(d) && id in d.watchers && !a.Die?
    requires id in ApplyTo(d, a).rows && ApplyTo(d, a).rows[id].state.Running?
    ensures id in ApplyTo(d, a).watchers
  {
    assert RowKeyed(d, id);
    match a
    case Exited(i, _, _, _) => assert RowKeyed(d, i);
    case Lost(i, _, _) => assert RowKeyed(d, i);
    case WatcherFired(i, _, _) => assert RowKeyed(d, i);
    case _ =>
  }

  /** WATCHED. A session that is watched, as every completed ready report leaves it, stays
      watched while it is Running and the daemon does not restart, whatever handlers run. */
  lemma {:induction false} WatchedWhileRunning(acts: seq<Action>, more: seq<Action>, id: SessionId)
    requires id in Exec(acts).d.watchers && RunsThrough(acts, more, id) && Die !in more
    ensures id in Exec(acts + more).d.watchers
  {
    if more == [] {
      assert acts + more == acts;
    } else {
      var front, a := more[..|more| - 1], more[|more| - 1];
      assert (acts + more)[..|acts + more| - 1] == acts + front;
      WatchedWhileRunning(acts, front, id);
      ExecKeepsKeyed(acts + front);
      WatchStays(Exec(acts + front).d, a, id);
    }
  }

  // ---------- What a spawn leaves pending ----------

  predicate PendingHasRow(d: Daemon, id: SessionId) { id in d.launches || id in d.senders ==> id in d.rows }

  lemma PendingKept(d: Daemon, a: Action, id: SessionId)
    requires PendingHasRow(d, id)
    ensures PendingHasRow(ApplyTo(d, a), id)
  {
  }

  lemma {:induction false} ExecKeepsPending(acts: seq<Action>, id: SessionId)
    ensures PendingHasRow(Exec(acts).d, id)
  {
    if acts != [] {
      ExecKeepsPending(acts[..|acts| - 1], id);
      PendingKept(Exec(acts[..|acts| - 1]).d, acts[|acts| - 1], id);
    }
  }

  /** SPAWN. From every reachable state a spawn of a present session or of a refused target
      fails and changes nothing; any other one is begun, with a Forking row of its runtime
      and isolation, its launch spec and its ready sender stored, and nothing else touched. */
  lemma SpawnBegins(acts: seq<Action>, req: SpawnRequest, launch: LaunchSpec, targetValid: bool)
    ensures var d, id := Exec(acts).d, req.sessionId;
            var (d', reply) := BeginSpawn(d, req, launch, targetValid);
            if id in d.rows then d' == d && reply == Failed(SessionExists)
            else if !targetValid then d' == d && reply == Failed(TargetRefused)
            else
              && reply == Ack && id !in d.launches && id !in d.senders
              && d' == d.(rows := d.rows[id := Lifecycle(id, req.runtime, req.isolation, LifecycleState.Forking,
                                                         None, None, None, None, None)],
                          launches := d.launches[id := launch], senders := d.senders + {id})
  {
    ExecKeepsPending(acts, req.sessionId);
  }

  /** UNDO AND HAND OUT. After a spawn has begun, a cancel restores the state before it; the
      launch spec is handed to the first shim that asks and to no second one; and the first
      ready report goes to the waiting spawn, leaving rows, log and watchers alone. */
  lemma SpawnIsUndoneAndHandedOnce(acts: seq<Action>, req: SpawnRequest, launch: LaunchSpec, ready: ShimReady)
    requires req.sessionId !in Exec(acts).d.rows && ready.sessionId == req.sessionId
    ensures var d, id := Exec(acts).d, req.sessionId;
            var begun := BeginSpawn(d, req, launch, true).0;
            var (taken, handed) := TakeLaunch(begun, id);
            && CancelSpawn(begun, id) == d
            && handed == Handed(launch) && taken == begun.(launches := d.launches)
            && TakeLaunch(taken, id) == (taken, Failed(NoPendingLaunch))
            && CompleteShimReady(begun, ready, Completes) == (begun.(senders := d.senders), Ack)
            && CompleteShimReady(begun.(senders := d.senders), ready, Completes)
               == RecordReconnected(begun.(senders := d.senders), ready, Completes)
  {
    var d, id := Exec(acts).d, req.sessionId;
    SpawnBegins(acts, req, launch, true);
    assert d.launches[id := launch] - {id} == d.launches;
    assert d.senders + {id} - {id} == d.senders;
    var row := BeginSpawn(d, req, launch, true).0.rows[id];
    assert d.rows[id := row] - {id} == d.rows;
  }

  /** A cancel removes row, launch and sender of its session and leaves the others'. */
  lemma CancelRemoves(d: Daemon, id: SessionId, other: SessionId)
    ensures var d' := CancelSpawn(d, id);
            && id !in d'.rows && id !in d'.launches && id !in d'.senders
            && (other != id ==>
                  && (other in d'.rows <==> other in d.rows) && (other in d.rows ==> d'.rows[other] == d.rows[other])
                  && (other in d'.launches <==> other in d.launches)
                  && (other in d.launches ==> d'.launches[other] == d.launches[other])
                  && (other in d'.senders <==> other in d.senders))
            && d'.log == d.log && d'.watchers == d.watchers && d'.terminated == d.terminated
  {
  }

  /** NOTHING TO END. A recorder of an absent session fails, one of an ended session is
      silent, and neither changes anything. */
  lemma NothingToEnd(
    d: Daemon, id: SessionId, exit: RuntimeExit, lost: LostEvidence, evidence: TerminationEvidence, shimAlive: bool,
    stop: Stop)
    ensures id !in d.rows ==>
              && RecordExited(d, id, exit, evidence, stop) == (d, Failed(SessionNotFound))
              && RecordLost(d, id, lost, stop) == (d, Failed(SessionNotFound))
    ensures id !in d.rows || (!d.rows[id].Terminal() && d.rows[id].shimPid.None?) ==>
              RecordWatcherExit(d, id, shimAlive, stop) == (d, Failed(MissingShimPid))
    ensures id in d.rows && d.rows[id].Terminal() ==>
              && RecordExited(d, id, exit, evidence, stop) == (d, Silent)
              && RecordLost(d, id, lost, stop) == (d, Silent)
              && RecordWatcherExit(d, id, shimAlive, stop) == (d, Silent)
  {
  }

  /** A new life has the rows and the log, and nothing pending, watched or ended. */
  lemma RestartForgets(d: Daemon)
    ensures Restart(d).rows == d.rows && Restart(d).log == d.log
    ensures Restart(d).terminated == {} && Restart(d).watchers == {} && Restart(d).launches == map[]
            && Restart(d).senders == {}
  {
  }
}
