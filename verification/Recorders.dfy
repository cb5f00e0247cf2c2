/** Exit, loss and ready recorders, interleaved at their awaits: the row read, the row
    write, the set insert and the append are separate steps, and the daemon may restart
    between any two of them. */
module Recorders {
  import opened Strings
  import opened Lifecycles

  type TaskId = nat

  datatype Job =
    | RecordExit(id: SessionId, exit: RuntimeExit, evidence: TerminationEvidence)
    | RecordLoss(id: SessionId, lost: LostEvidence)
    | RecordReady(id: SessionId, ready: ShimReady)                       // a reconnecting shim
    | RecordSpawn(id: SessionId, req: SpawnRequest, ready: ShimReady)    // the waiting spawn
  {
    predicate Ready() { RecordReady? || RecordSpawn? }
  }

  /** `seen` is the row a task read, `copy` its marked in-memory copy. */
  datatype Task =
    | Fresh(job: Job)
    | Got(job: Job, seen: Lifecycle, copy: Lifecycle)
    | Updated(job: Job, copy: Lifecycle)
    | Won(job: Job, copy: Lifecycle)   // inserted into terminated_events, event not yet appended
    | Done

  datatype World = World(
    rows: map<SessionId, Lifecycle>,
    terminated: set<SessionId>,
    log: seq<RuntimeEvent>,        // appended in this life
    tasks: map<TaskId, Task>,
    failed: set<SessionId>,        // sessions whose terminal append returned an error
    past: seq<RuntimeEvent>)       // appended in earlier lives

  datatype Action =
    | Submit(t: TaskId, job: Job)
    | Get(t: TaskId)
    | Update(t: TaskId)
    | Insert(t: TaskId)
    | Append(t: TaskId, ok: bool)
    | InsertRow(row: Lifecycle)
    | DeleteRow(id: SessionId)
    | Restart

  /** A life starts with whatever rows earlier lives left. */
  function Start(rows: map<SessionId, Lifecycle>): World { World(rows, {}, [], map[], {}, []) }

  function MarkFor(job: Job, row: Lifecycle): (Lifecycle, bool) {
    match job
    case RecordExit(_, exit, _) => AfterExit(row, exit)
    case RecordLoss(_, lost) => AfterLoss(row, lost)
    case RecordReady(_, ready) => AfterReady(row, ready)
    case RecordSpawn(_, req, ready) =>
      if row.runtime != req.runtime then (row, false)
      else
        var (l, changed) := AfterReady(row, ready);
        (if changed then l.(tmuxPane := req.tmux) else l, changed)
  }

  function EvidenceOf(job: Job): TerminationEvidence
    requires !job.Ready()
  {
    if job.RecordExit? then job.evidence else LostBy(job.lost)
  }

  function Apply(s: World, a: Action): World {
    match a
    case Submit(t, job) =>
      if t in s.tasks then s else s.(tasks := s.tasks[t := Fresh(job)])
    case Get(t) =>
      if t !in s.tasks || !s.tasks[t].Fresh? then s
      else
        var job := s.tasks[t].job;
        if job.id !in s.rows then s.(tasks := s.tasks[t := Done])
        else
          var seen := s.rows[job.id];
          var (copy, changed) := MarkFor(job, seen);
          s.(tasks := s.tasks[t := if changed then Got(job, seen, copy) else Done])
    case Update(t) =>
      if t !in s.tasks || !s.tasks[t].Got? then s
      else
        var Got(job, _, copy) := s.tasks[t];
        if job.id !in s.rows then s.(tasks := s.tasks[t := Done])
        else s.(rows := s.rows[job.id := copy], tasks := s.tasks[t := Updated(job, copy)])
    case Insert(t) =>
      if t !in s.tasks || !s.tasks[t].Updated? || s.tasks[t].job.Ready() then s
      else
        var Updated(job, copy) := s.tasks[t];
        if job.id in s.terminated then s.(tasks := s.tasks[t := Done])
        else s.(terminated := s.terminated + {job.id}, tasks := s.tasks[t := Won(job, copy)])
    case Append(t, ok) =>
      if t !in s.tasks then s
      else
        (match s.tasks[t]
         case Updated(job, copy) =>
           if !job.Ready() then s
           else
             var event := RunningEventOf(copy);
             s.(tasks := s.tasks[t := Done],
                log := if ok && event.Some? then s.log + [event.value] else s.log)
         case Won(job, copy) =>
           if job.Ready() then s
           else s.(tasks := s.tasks[t := Done],
                   log := if ok then s.log + [TerminalEventOf(copy, EvidenceOf(job))] else s.log,
                   failed := if ok then s.failed else s.failed + {job.id})
         case _ => s)
    case InsertRow(row) =>
      if row.sessionId in s.rows || !row.state.Forking? then s else s.(rows := s.rows[row.sessionId := row])
    case DeleteRow(id) => s.(rows := s.rows - {id})
    case Restart => World(s.rows, {}, [], map[], {}, s.past + s.log)
  }

  function Exec(rows: map<SessionId, Lifecycle>, acts: seq<Action>): World {
    if acts == [] then Start(rows)
    else Apply(Exec(rows, acts[..|acts| - 1]), acts[|acts| - 1])
  }

  lemma ExecPush(rows: map<SessionId, Lifecycle>, acts: seq<Action>, a: Action)
    ensures Exec(rows, acts + [a]) == Apply(Exec(rows, acts), a)
  {
    assert (acts + [a])[..|acts|] == acts;
  }

  ghost predicate Keyed(rows: map<SessionId, Lifecycle>) {
    forall id :: id in rows ==> rows[id].sessionId == id
  }

  /** A ready copy names its processes, any other copy is terminal. */
  predicate CopyOk(job: Job, copy: Lifecycle) {
    copy.sessionId == job.id && (if job.Ready() then copy.state.Running? && copy.Identified() else copy.Terminal())
  }

  predicate TaskKeyed(t: Task) {
    match t
    case Got(job, seen, copy) => CopyOk(job, copy) && !seen.Terminal() && copy == MarkFor(job, seen).0
    case Updated(job, copy) => CopyOk(job, copy)
    case Won(job, copy) => CopyOk(job, copy) && !job.Ready()
    case _ => true
  }

  ghost predicate KeyInv(s: World) {
    Keyed(s.rows) && forall t :: t in s.tasks ==> TaskKeyed(s.tasks[t])
  }

  lemma {:induction false} ExecKeepsKeys(rows: map<SessionId, Lifecycle>, acts: seq<Action>)
    requires Keyed(rows)
    ensures KeyInv(Exec(rows, acts))
  {
    if acts != [] {
      ExecKeepsKeys(rows, acts[..|acts| - 1]);
      ApplyKeepsKeys(Exec(rows, acts[..|acts| - 1]), acts[|acts| - 1]);
    }
  }

  lemma ApplyKeepsKeys(s: World, a: Action)
    requires KeyInv(s)
    ensures KeyInv(Apply(s, a))
  {
  }

  // ---------- The whole log ----------

  /** Every event appended so far, in this life and before. */
  function Whole(s: World): seq<RuntimeEvent> { s.past + s.log }

  /** The event an action appends, if any. */
  function NewEvent(s: World, a: Action): Option<RuntimeEvent> {
    if !a.Append? || !a.ok || a.t !in s.tasks then None
    else
      match s.tasks[a.t]
      case Updated(job, copy) => if job.Ready() then RunningEventOf(copy) else None
      case Won(job, copy) => if job.Ready() then None else Some(TerminalEventOf(copy, EvidenceOf(job)))
      case _ => None
  }

  lemma WholeStep(s: World, a: Action)
    ensures Whole(Apply(s, a)) == Whole(s) + (if NewEvent(s, a).Some? then [NewEvent(s, a).value] else [])
  {
    if NewEvent(s, a).Some? {
      assert s.past + (s.log + [NewEvent(s, a).value]) == s.past + s.log + [NewEvent(s, a).value];
    } else if a.Restart? {
      assert s.past + s.log + [] == s.past + s.log;
    }
  }

  // ---------- Cancelled sessions ----------

  /** A recorder past its row write, that may still log. */
  predicate LateWriter(s: World, t: TaskId, id: SessionId) {
    t in s.tasks && (s.tasks[t].Updated? || s.tasks[t].Won?) && s.tasks[t].job.id == id
  }

  ghost predicate NoLateWriter(s: World, id: SessionId) { forall t :: !LateWriter(s, t, id) }

  lemma GoneStep(s: World, a: Action, id: SessionId)
    requires KeyInv(s) && id !in s.rows && (a.InsertRow? ==> a.row.sessionId != id)
    ensures id !in Apply(s, a).rows
    ensures NoLateWriter(s, id) ==>
              NoLateWriter(Apply(s, a), id) && (NewEvent(s, a).Some? ==> NewEvent(s, a).value.sessionId != id)
  {
    if NoLateWriter(s, id) {
      forall t
        ensures !LateWriter(Apply(s, a), t, id)
      {
        assert !LateWriter(s, t, id);
      }
      assert a.Append? ==> !LateWriter(s, a.t, id);
    }
  }

  /** No recorder brings a deleted row back, wherever it stands; and if none is past its row
      write when the row goes, the session is never heard of again until it is inserted. */
  lemma {:induction false} DeletedStaysDeleted(
    rows: map<SessionId, Lifecycle>, acts: seq<Action>, more: seq<Action>, id: SessionId)
    requires Keyed(rows) && id !in Exec(rows, acts).rows
    requires forall row :: InsertRow(row) in more ==> row.sessionId != id
    ensures var s, s' := Exec(rows, acts), Exec(rows, acts + more);
            && id !in s'.rows
            && (NoLateWriter(s, id) ==>
                  && NoLateWriter(s', id) && |Whole(s)| <= |Whole(s')|
                  && forall i :: |Whole(s)| <= i < |Whole(s')| ==> Whole(s')[i].sessionId != id)
  {
    if more == [] {
      assert acts + more == acts;
    } else {
      var front, a := more[..|more| - 1], more[|more| - 1];
      assert a in more;
      DeletedStaysDeleted(rows, acts, front, id);
      assert acts + more == acts + front + [a];
      ExecPush(rows, acts + front, a);
      ExecKeepsKeys(rows, acts + front);
      GoneStep(Exec(rows, acts + front), a, id);
      WholeStep(Exec(rows, acts + front), a);
    }
  }

  // ---------- At most one terminal event ----------

  predicate Winner(s: World, t: TaskId, id: SessionId) {
    t in s.tasks && s.tasks[t].Won? && s.tasks[t].job.id == id
  }

  predicate TerminalAt(log: seq<RuntimeEvent>, i: nat, id: SessionId) {
    i < |log| && log[i].Terminal() && log[i].sessionId == id
  }

  /** For one session: who may still append its terminal event, and where it is. */
  ghost predicate OneTerminal(s: World, id: SessionId) {
    && (forall t, u :: Winner(s, t, id) && Winner(s, u, id) ==> t == u)
    && (forall i: nat, j: nat :: TerminalAt(s.log, i, id) && TerminalAt(s.log, j, id) ==> i == j)
    && (forall t, i: nat :: Winner(s, t, id) ==> !TerminalAt(s.log, i, id))
    && (forall t :: Winner(s, t, id) ==> id !in s.failed)
    && (forall i: nat :: TerminalAt(s.log, i, id) ==> id !in s.failed)
    && (id in s.terminated <==>
          (exists t :: Winner(s, t, id)) || (exists i: nat :: TerminalAt(s.log, i, id)) || id in s.failed)
  }

  /** The step changed neither the winners nor the log nor the sets for `id`. */
  ghost predicate SameFor(s: World, s': World, id: SessionId) {
    && (forall t :: Winner(s, t, id) <==> Winner(s', t, id))
    && (forall i: nat :: TerminalAt(s.log, i, id) <==> TerminalAt(s'.log, i, id))
    && (id in s.terminated <==> id in s'.terminated)
    && (id in s.failed <==> id in s'.failed)
  }

  lemma SameKeeps(s: World, s': World, id: SessionId)
    requires OneTerminal(s, id) && SameFor(s, s', id)
    ensures OneTerminal(s', id)
  {
    if id in s'.terminated && id !in s'.failed {
      if t :| Winner(s, t, id) {
        assert Winner(s', t, id);
      } else {
        var i: nat :| TerminalAt(s.log, i, id);
        assert TerminalAt(s'.log, i, id);
      }
    }
  }

  lemma InsertKeeps(s: World, t: TaskId, id: SessionId)
    requires KeyInv(s) && OneTerminal(s, id)
    ensures OneTerminal(Apply(s, Insert(t)), id)
  {
    var s' := Apply(s, Insert(t));
    if Winner(s', t, id) && !Winner(s, t, id) {
      assert forall u :: u != t ==> (Winner(s', u, id) <==> Winner(s, u, id));
    } else {
      SameKeeps(s, s', id);
    }
  }

  lemma AppendKeeps(s: World, t: TaskId, ok: bool, id: SessionId)
    requires KeyInv(s) && OneTerminal(s, id)
    ensures OneTerminal(Apply(s, Append(t, ok)), id)
  {
    var s' := Apply(s, Append(t, ok));
    assert forall i: nat :: i < |s.log| ==> (TerminalAt(s.log, i, id) <==> TerminalAt(s'.log, i, id));
    if Winner(s, t, id) {
      assert forall u :: Winner(s', u, id) ==> Winner(s, u, id) && u != t;
      if ok { assert TerminalAt(s'.log, |s.log|, id); }
    } else {
      SameKeeps(s, s', id);
    }
  }

  lemma ApplyKeepsOne(s: World, a: Action, id: SessionId)
    requires KeyInv(s) && OneTerminal(s, id)
    ensures OneTerminal(Apply(s, a), id)
  {
    match a
    case Insert(t) => InsertKeeps(s, t, id);
    case Append(t, ok) => AppendKeeps(s, t, ok, id);
    case Restart =>
    case _ => SameKeeps(s, Apply(s, a), id);
  }

  lemma {:induction false} ExecKeepsOne(rows: map<SessionId, Lifecycle>, acts: seq<Action>, id: SessionId)
    requires Keyed(rows)
    ensures OneTerminal(Exec(rows, acts), id)
  {
    if acts != [] {
      ExecKeepsKeys(rows, acts[..|acts| - 1]);
      ExecKeepsOne(rows, acts[..|acts| - 1], id);
      ApplyKeepsOne(Exec(rows, acts[..|acts| - 1]), acts[|acts| - 1], id);
    }
  }

  /** AT MOST ONE. However the recorders interleave, and however many read the same
      Running row, one session gets at most one terminal event in a daemon life. */
  lemma AtMostOneTerminalEvent(rows: map<SessionId, Lifecycle>, acts: seq<Action>, i: nat, j: nat)
    requires Keyed(rows)
    requires i < |Exec(rows, acts).log| && j < |Exec(rows, acts).log|
    requires Exec(rows, acts).log[i].Terminal() && Exec(rows, acts).log[j].Terminal()
    requires Exec(rows, acts).log[i].sessionId == Exec(rows, acts).log[j].sessionId
    ensures i == j
  {
    var s := Exec(rows, acts);
    var id := s.log[i].sessionId;
    ExecKeepsOne(rows, acts, id);
    assert TerminalAt(s.log, i, id) && TerminalAt(s.log, j, id);
  }

  /** EXACTLY ONE. Once a session entered the set, no recorder is between insert and
      append and none failed there, its terminal event is in the log. */
  lemma SettledSessionHasItsEvent(rows: map<SessionId, Lifecycle>, acts: seq<Action>, id: SessionId)
    requires Keyed(rows)
    requires id in Exec(rows, acts).terminated && id !in Exec(rows, acts).failed
    requires forall t :: t in Exec(rows, acts).tasks ==> !Exec(rows, acts).tasks[t].Won?
    ensures exists i: nat :: i < |Exec(rows, acts).log|
              && Exec(rows, acts).log[i].Terminal() && Exec(rows, acts).log[i].sessionId == id
  {
    ExecKeepsOne(rows, acts, id);
    var s := Exec(rows, acts);
    assert forall t :: !Winner(s, t, id);
    var i: nat :| TerminalAt(s.log, i, id);
  }

  // ---------- When terminal rows are frozen ----------

  /** The task stands between its read of the row and its write. */
  predicate Writing(s: World, t: TaskId, id: SessionId) {
    t in s.tasks && s.tasks[t].Got? && s.tasks[t].job.id == id
  }

  /** The task stands between its read of the row and its append. */
  predicate Busy(s: World, t: TaskId, id: SessionId) {
    t in s.tasks && (s.tasks[t].Got? || s.tasks[t].Updated? || s.tasks[t].Won?) && s.tasks[t].job.id == id
  }

  ghost predicate OneWriter(s: World, id: SessionId) {
    forall t, u :: Writing(s, t, id) && Writing(s, u, id) ==> t == u
  }

  /** At every point of the run at most one task of the session stands between its read
      and its write. */
  ghost predicate WritesApart(rows: map<SessionId, Lifecycle>, acts: seq<Action>, id: SessionId) {
    OneWriter(Exec(rows, acts), id) && (acts == [] || WritesApart(rows, acts[..|acts| - 1], id))
  }

  predicate LiveIfStored(s: World, id: SessionId) { id in s.rows ==> !s.rows[id].Terminal() }

  ghost predicate WriterSeesLive(s: World, id: SessionId) {
    forall t :: Writing(s, t, id) ==> LiveIfStored(s, id)
  }

  lemma LastWriter(s: World, a: Action, id: SessionId, t: TaskId)
    requires OneWriter(s, id)
    ensures a.Update? && Writing(s, a.t, id) ==> !Writing(Apply(s, a), t, id)
  {
    assert Writing(s, t, id) && a.Update? && Writing(s, a.t, id) ==> t == a.t;
  }

  lemma ApplyKeepsLive(s: World, a: Action, id: SessionId)
    requires KeyInv(s) && OneWriter(s, id) && WriterSeesLive(s, id)
    requires OneWriter(Apply(s, a), id)
    ensures WriterSeesLive(Apply(s, a), id)
  {
    var s' := Apply(s, a);
    forall t | Writing(s', t, id)
      ensures LiveIfStored(s', id)
    {
      assert Writing(s, t, id) || a == Get(t);
      LastWriter(s, a, id, t);
    }
  }

  lemma {:induction false} ExecKeepsLive(rows: map<SessionId, Lifecycle>, acts: seq<Action>, id: SessionId)
    requires Keyed(rows) && WritesApart(rows, acts, id)
    ensures WriterSeesLive(Exec(rows, acts), id)
  {
    if acts != [] {
      var front := acts[..|acts| - 1];
      ExecKeepsKeys(rows, front);
      ExecKeepsLive(rows, front, id);
      ApplyKeepsLive(Exec(rows, front), acts[|acts| - 1], id);
    }
  }

  /** FROZEN WHEN APART. In every run in which at most one task of a session stands
      between its read and its write, no step rewrites that session's terminal row. */
  lemma ApartWritesFreeze(rows: map<SessionId, Lifecycle>, acts: seq<Action>, a: Action, id: SessionId)
    requires Keyed(rows) && WritesApart(rows, acts, id)
    requires id in Exec(rows, acts).rows && Exec(rows, acts).rows[id].Terminal()
    ensures var s' := Apply(Exec(rows, acts), a);
            id in s'.rows ==> s'.rows[id] == Exec(rows, acts).rows[id]
  {
    ExecKeepsLive(rows, acts, id);
    assert a.Update? ==> !Writing(Exec(rows, acts), a.t, id);
  }

  /** No task holds a copy of the row that differs from the row. */
  ghost predicate NoStaleCopy(s: World, id: SessionId) {
    id in s.rows && forall t :: Writing(s, t, id) ==> s.tasks[t].copy == s.rows[id]
  }

  lemma SafeStep(s: World, a: Action, id: SessionId)
    requires NoStaleCopy(s, id) && s.rows[id].Terminal() && a != DeleteRow(id)
    ensures NoStaleCopy(Apply(s, a), id) && Apply(s, a).rows[id] == s.rows[id]
  {
    var s' := Apply(s, a);
    assert a.Update? && Writing(s, a.t, id) ==> s.tasks[a.t].copy == s.rows[id];
    forall t | Writing(s', t, id)
      ensures Writing(s, t, id) && s'.tasks[t] == s.tasks[t]
    {
    }
  }

  lemma {:induction false} SafeFor(
    rows: map<SessionId, Lifecycle>, acts: seq<Action>, more: seq<Action>, id: SessionId)
    requires NoStaleCopy(Exec(rows, acts), id) && Exec(rows, acts).rows[id].Terminal()
    requires DeleteRow(id) !in more
    ensures NoStaleCopy(Exec(rows, acts + more), id)
    ensures Exec(rows, acts + more).rows[id] == Exec(rows, acts).rows[id]
  {
    if more == [] {
      assert acts + more == acts;
    } else {
      var front, a := more[..|more| - 1], more[|more| - 1];
      SafeFor(rows, acts, front, id);
      ExecPush(rows, acts + front, a);
      assert acts + more == acts + front + [a];
      SafeStep(Exec(rows, acts + front), a, id);
    }
  }

  /** A stored terminal row outlives every continuation of the run that does not cancel
      the session exactly when no task still holds a differing copy of it: the recorders
      to wait for are those that read the row before it became terminal. */
  lemma TerminalRowSafeIff(rows: map<SessionId, Lifecycle>, acts: seq<Action>, id: SessionId)
    requires id in Exec(rows, acts).rows && Exec(rows, acts).rows[id].Terminal()
    ensures (forall more: seq<Action> :: DeleteRow(id) !in more ==>
               id in Exec(rows, acts + more).rows && Exec(rows, acts + more).rows[id] == Exec(rows, acts).rows[id])
       <==> NoStaleCopy(Exec(rows, acts), id)
  {
    var s := Exec(rows, acts);
    if NoStaleCopy(s, id) {
      forall more: seq<Action> | DeleteRow(id) !in more
        ensures id in Exec(rows, acts + more).rows && Exec(rows, acts + more).rows[id] == s.rows[id]
      {
        SafeFor(rows, acts, more, id);
      }
    } else {
      var t :| Writing(s, t, id) && s.tasks[t].copy != s.rows[id];
      ExecPush(rows, acts, Update(t));
      assert DeleteRow(id) !in [Update(t)];
    }
  }

  /** Both recorders have read the Forking row and neither has written. */
  function BothRead(id: SessionId, job0: Job, job1: Job): seq<Action> {
    [Submit(0, job0)] + [Get(0)] + [Submit(1, job1)] + [Get(1)]
  }

  lemma BothReadState(id: SessionId, ready: ShimReady, exit: RuntimeExit)
    ensures
      var row := NewForking(id, Claude);
      var job0, job1 := RecordReady(id, ready), RecordExit(id, exit, ShimExit);
      Exec(map[id := row], BothRead(id, job0, job1))
      == World(map[id := row], {}, [],
               map[0 := Got(job0, row, AfterReady(row, ready).0), 1 := Got(job1, row, AfterExit(row, exit).0)], {}, [])
  {
    var row := NewForking(id, Claude);
    var rows := map[id := row];
    var late := AfterReady(row, ready).0;
    var gone := AfterExit(row, exit).0;
    var job0, job1 := RecordReady(id, ready), RecordExit(id, exit, ShimExit);
    var a1 := [Submit(0, job0)];
    var a2 := a1 + [Get(0)];
    var a3 := a2 + [Submit(1, job1)];
    ExecPush(rows, [], Submit(0, job0));
    assert [] + a1 == a1;
    assert Exec(rows, a1) == World(rows, {}, [], map[0 := Fresh(job0)], {}, []);
    ExecPush(rows, a1, Get(0));
    assert Exec(rows, a2) == World(rows, {}, [], map[0 := Got(job0, row, late)], {}, []);
    ExecPush(rows, a2, Submit(1, job1));
    assert Exec(rows, a3) == World(rows, {}, [], map[0 := Got(job0, row, late), 1 := Fresh(job1)], {}, []);
    ExecPush(rows, a3, Get(1));
    assert Exec(rows, a3 + [Get(1)]).tasks == map[0 := Got(job0, row, late), 1 := Got(job1, row, gone)];
  }

  /** Rows, set, log and tasks while recorder 1 goes from its write to its append. */
  lemma ExitSteps(row: Lifecycle, late: Task, job: Job, gone: Lifecycle)
    requires row.sessionId == job.id && job.RecordExit?
    ensures
      var s := World(map[job.id := row], {}, [], map[0 := late, 1 := Got(job, row, gone)], {}, []);
      Apply(Apply(Apply(s, Update(1)), Insert(1)), Append(1, true))
      == World(map[job.id := gone], {job.id}, [TerminalEventOf(gone, job.evidence)], map[0 := late, 1 := Done], {}, [])
  {
    var s := World(map[job.id := row], {}, [], map[0 := late, 1 := Got(job, row, gone)], {}, []);
    var s1 := Apply(s, Update(1));
    assert s1 == World(map[job.id := gone], {}, [], map[0 := late, 1 := Updated(job, gone)], {}, []);
    var s2 := Apply(s1, Insert(1));
    assert s2 == World(map[job.id := gone], {job.id}, [], map[0 := late, 1 := Won(job, gone)], {}, []);
  }

  lemma ExecFour(rows: map<SessionId, Lifecycle>, acts: seq<Action>, a: Action, b: Action, c: Action, d: Action)
    ensures Exec(rows, acts + [a] + [b] + [c] + [d]) == Apply(Apply(Apply(Apply(Exec(rows, acts), a), b), c), d)
  {
    ExecPush(rows, acts, a);
    ExecPush(rows, acts + [a], b);
    ExecPush(rows, acts + [a] + [b], c);
    ExecPush(rows, acts + [a] + [b] + [c], d);
  }

  /** Such a run exists: a ready report read early is written late, and a session whose
      Terminated event is already in the log ends with a Running row. */
  lemma LateReadyOverwritesTerminal(id: SessionId, ready: ShimReady, exit: RuntimeExit)
    ensures
      var rows := map[id := NewForking(id, Claude)];
      var job0, job1 := RecordReady(id, ready), RecordExit(id, exit, ShimExit);
      var s := Exec(rows, BothRead(id, job0, job1) + [Update(1)] + [Insert(1)] + [Append(1, true)] + [Update(0)]);
      && s.log == [Terminated(id, exit.code, exit.signal, ShimExit)]
      && id in s.rows && s.rows[id].state == LifecycleState.Running && id in s.terminated
  {
    var rows := map[id := NewForking(id, Claude)];
    var job0, job1 := RecordReady(id, ready), RecordExit(id, exit, ShimExit);
    var a4 := BothRead(id, job0, job1);
    BothReadState(id, ready, exit);
    var row := rows[id];
    ExecFour(rows, a4, Update(1), Insert(1), Append(1, true), Update(0));
    ExitSteps(row, Got(job0, row, AfterReady(row, ready).0), job1, AfterExit(row, exit).0);
  }
}
