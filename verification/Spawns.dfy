/** Concurrent spawns, shim RPCs and cancels, one step per await point. A launch spec
    is named by the spawn that made it. */
module Spawns {
  import opened Lifecycles

  type SpawnTask = nat

  datatype Pc =
    | Begun          // about to read the row
    | Checked        // no row was there; about to validate the target
    | Validated      // about to insert the Forking row
    | Inserted       // about to store the launch spec
    | LaunchStored   // about to store the ready sender
    | Armed          // about to start the backend
    | Waiting        // waits for ShimReady, then records or times out
    | Settled        // returned to the client; nothing was undone
    | CancelLaunch | CancelReady | CancelRow
    | Cancelled
    | Refused        // returned an error before the insert

  datatype Task = Task(id: SessionId, pc: Pc)

  datatype World = World(
    rows: set<SessionId>,                        // keys of the lifecycle table
    launches: map<SessionId, SpawnTask>,         // pending_launches
    senders: map<SessionId, SpawnTask>,          // pending_ready
    tasks: map<SpawnTask, Task>,
    handed: seq<SpawnTask>,                      // launch specs given to shims, in order
    alreadyPending: bool)                        // the "already has a pending shim" error was raised

  datatype Action =
    | Begin(t: SpawnTask, id: SessionId)
    | Check(t: SpawnTask)
    | Validate(t: SpawnTask, ok: bool)
    | Insert(t: SpawnTask)
    | StoreLaunch(t: SpawnTask)
    | StoreSender(t: SpawnTask)
    | Backend(t: SpawnTask, ok: bool)
    | Settle(t: SpawnTask)
    | Cancel(t: SpawnTask, ok: bool)
    | TakeLaunch(id: SessionId)
    | ShimReadyRpc(id: SessionId)

  function Start(rows: set<SessionId>): World { World(rows, map[], map[], map[], [], false) }

  predicate At(s: World, t: SpawnTask, pc: Pc) { t in s.tasks && s.tasks[t].pc == pc }

  function Moved(s: World, t: SpawnTask, pc: Pc): map<SpawnTask, Task>
    requires t in s.tasks
  {
    s.tasks[t := s.tasks[t].(pc := pc)]
  }

  function Apply(s: World, a: Action): World {
    match a
    case Begin(t, id) =>
      if t in s.tasks then s else s.(tasks := s.tasks[t := Task(id, Begun)])
    case Check(t) =>
      if !At(s, t, Begun) then s
      else s.(tasks := Moved(s, t, if s.tasks[t].id in s.rows then Refused else Checked))
    case Validate(t, ok) =>
      if !At(s, t, Checked) then s else s.(tasks := Moved(s, t, if ok then Validated else Refused))
    case Insert(t) =>
      if !At(s, t, Validated) then s
      else if s.tasks[t].id in s.rows then s.(tasks := Moved(s, t, Refused))
      else s.(rows := s.rows + {s.tasks[t].id}, tasks := Moved(s, t, Inserted))
    case StoreLaunch(t) =>
      if !At(s, t, Inserted) then s
      else s.(launches := s.launches[s.tasks[t].id := t], tasks := Moved(s, t, LaunchStored))
    case StoreSender(t) =>
      if !At(s, t, LaunchStored) then s
      else
        var previous := s.tasks[t].id in s.senders;
        s.(senders := s.senders[s.tasks[t].id := t],
           tasks := Moved(s, t, if previous then CancelLaunch else Armed),
           alreadyPending := s.alreadyPending || previous)
    case Backend(t, ok) =>
      if !At(s, t, Armed) then s else s.(tasks := Moved(s, t, if ok then Waiting else CancelLaunch))
    case Settle(t) =>
      if !At(s, t, Waiting) then s else s.(tasks := Moved(s, t, Settled))
    case Cancel(t, ok) =>
      if At(s, t, CancelLaunch) then
        s.(launches := s.launches - {s.tasks[t].id}, tasks := Moved(s, t, CancelReady))
      else if At(s, t, CancelReady) then
        s.(senders := s.senders - {s.tasks[t].id}, tasks := Moved(s, t, CancelRow))
      else if At(s, t, CancelRow) then
        s.(rows := if ok then s.rows - {s.tasks[t].id} else s.rows, tasks := Moved(s, t, Cancelled))
      else s
    case TakeLaunch(id) =>
      if id !in s.launches then s
      else s.(launches := s.launches - {id}, handed := s.handed + [s.launches[id]])
    case ShimReadyRpc(id) =>
      // a session without a sender goes to record_reconnected_ready, which only updates a row
      s.(senders := s.senders - {id})
  }

  function Exec(rows: set<SessionId>, acts: seq<Action>): World {
    if acts == [] then Start(rows)
    else Apply(Exec(rows, acts[..|acts| - 1]), acts[|acts| - 1])
  }

  /** The spawn passed the insert and has not deleted its row. */
  predicate Holds(pc: Pc) {
    || pc.Inserted? || pc.LaunchStored? || pc.Armed? || pc.Waiting? || pc.Settled?
    || pc.CancelLaunch? || pc.CancelReady? || pc.CancelRow?
  }

  predicate LaunchOwner(pc: Pc) { pc.LaunchStored? || pc.Armed? || pc.Waiting? || pc.Settled? || pc.CancelLaunch? }

  predicate SenderOwner(pc: Pc) { pc.Armed? || pc.Waiting? || pc.Settled? || pc.CancelLaunch? || pc.CancelReady? }

  predicate Unstored(pc: Pc) { pc.Begun? || pc.Checked? || pc.Validated? || pc.Inserted? || pc.Refused? }

  predicate HolderFor(s: World, t: SpawnTask, id: SessionId) {
    t in s.tasks && s.tasks[t].id == id && Holds(s.tasks[t].pc)
  }

  ghost predicate HolderOk(s: World, id: SessionId) {
    && (forall t :: HolderFor(s, t, id) ==> id in s.rows)
    && (forall t, u :: HolderFor(s, t, id) && HolderFor(s, u, id) ==> t == u)
  }

  predicate LaunchOk(s: World, id: SessionId) {
    id in s.launches ==>
      var t := s.launches[id];
      HolderFor(s, t, id) && LaunchOwner(s.tasks[t].pc) && t !in s.handed
  }

  predicate SenderOk(s: World, id: SessionId) {
    id in s.senders ==>
      var t := s.senders[id];
      HolderFor(s, t, id) && SenderOwner(s.tasks[t].pc)
  }

  predicate HandedOk(s: World, t: SpawnTask) {
    t in s.handed ==> t in s.tasks && !Unstored(s.tasks[t].pc)
  }

  ghost predicate Inv(s: World) {
    && (forall id :: HolderOk(s, id) && LaunchOk(s, id) && SenderOk(s, id))
    && (forall t :: HandedOk(s, t))
    && (forall i, j :: 0 <= i < j < |s.handed| ==> s.handed[i] != s.handed[j])
    && !s.alreadyPending
  }

  /** A new holder can only come from its own insert into a free id. */
  lemma HolderOrigin(s: World, a: Action, t: SpawnTask, id: SessionId)
    ensures HolderFor(Apply(s, a), t, id) ==>
              HolderFor(s, t, id) || (a == Insert(t) && id !in s.rows && id in Apply(s, a).rows)
  {
  }

  lemma HolderKept(s: World, a: Action, id: SessionId)
    requires HolderOk(s, id)
    ensures HolderOk(Apply(s, a), id)
  {
    var s' := Apply(s, a);
    assert a.Cancel? && At(s, a.t, CancelRow) ==> HolderFor(s, a.t, s.tasks[a.t].id);
    forall t | HolderFor(s', t, id)
      ensures HolderFor(s, t, id) || (a == Insert(t) && id !in s.rows && id in s'.rows)
      ensures id in s'.rows
    {
      HolderOrigin(s, a, t, id);
    }
  }

  lemma LaunchKept(s: World, a: Action, id: SessionId)
    requires HolderOk(s, id) && LaunchOk(s, id)
    requires forall t :: HandedOk(s, t)
    requires forall other :: LaunchOk(s, other)
    ensures LaunchOk(Apply(s, a), id)
  {
    var s' := Apply(s, a);
    if a.StoreLaunch? && At(s, a.t, Inserted) {
      assert HandedOk(s, a.t);
    } else if a.TakeLaunch? && a.id in s.launches && id in s.launches && a.id != id {
      assert LaunchOk(s, a.id);
    } else if a.Cancel? && At(s, a.t, CancelLaunch) {
      assert HolderFor(s, a.t, s.tasks[a.t].id);
    }
  }

  lemma SenderKept(s: World, a: Action, id: SessionId)
    requires HolderOk(s, id) && SenderOk(s, id)
    ensures SenderOk(Apply(s, a), id)
    ensures a.StoreSender? && At(s, a.t, LaunchStored) && s.tasks[a.t].id == id ==> id !in s.senders
  {
    if a.StoreSender? && At(s, a.t, LaunchStored) {
      assert HolderFor(s, a.t, s.tasks[a.t].id);
    }
  }

  lemma HandedKept(s: World, a: Action)
    requires Inv(s)
    ensures forall t :: HandedOk(Apply(s, a), t)
    ensures var handed := Apply(s, a).handed; forall i, j :: 0 <= i < j < |handed| ==> handed[i] != handed[j]
  {
    var s' := Apply(s, a);
    if a.TakeLaunch? && a.id in s.launches {
      assert LaunchOk(s, a.id);
      assert s'.handed == s.handed + [s.launches[a.id]];
    } else {
      assert s'.handed == s.handed;
    }
    forall t
      ensures HandedOk(s', t)
    {
      assert HandedOk(s, t);
    }
  }

  lemma ApplyKeeps(s: World, a: Action)
    requires Inv(s)
    ensures Inv(Apply(s, a))
  {
    forall id
      ensures HolderOk(Apply(s, a), id) && LaunchOk(Apply(s, a), id) && SenderOk(Apply(s, a), id)
    {
      assert HolderOk(s, id) && LaunchOk(s, id) && SenderOk(s, id);
      HolderKept(s, a, id);
      LaunchKept(s, a, id);
      SenderKept(s, a, id);
    }
    HandedKept(s, a);
    if a.StoreSender? && At(s, a.t, LaunchStored) {
      assert HolderOk(s, s.tasks[a.t].id) && SenderOk(s, s.tasks[a.t].id);
      SenderKept(s, a, s.tasks[a.t].id);
    }
  }

  lemma {:induction false} ExecKeeps(rows: set<SessionId>, acts: seq<Action>)
    ensures Inv(Exec(rows, acts))
  {
    if acts != [] {
      ExecKeeps(rows, acts[..|acts| - 1]);
      ApplyKeeps(Exec(rows, acts[..|acts| - 1]), acts[|acts| - 1]);
    }
  }

  /** In every interleaving, each pending launch and each pending sender has its row, and
      belongs to the one spawn of that id which passed the insert. */
  lemma PendingHasRow(rows: set<SessionId>, acts: seq<Action>, id: SessionId)
    requires id in Exec(rows, acts).launches || id in Exec(rows, acts).senders
    ensures var s := Exec(rows, acts);
            && id in s.rows
            && (id in s.launches ==> HolderFor(s, s.launches[id], id))
            && (id in s.senders ==> HolderFor(s, s.senders[id], id))
            && (id in s.launches && id in s.senders ==> s.launches[id] == s.senders[id])
  {
    ExecKeeps(rows, acts);
    var s := Exec(rows, acts);
    assert HolderOk(s, id) && LaunchOk(s, id) && SenderOk(s, id);
  }

  /** At most one spawn per id is past the insert and not cancelled. */
  lemma OneSpawnPerId(rows: set<SessionId>, acts: seq<Action>, t: SpawnTask, u: SpawnTask, id: SessionId)
    requires HolderFor(Exec(rows, acts), t, id) && HolderFor(Exec(rows, acts), u, id)
    ensures t == u && id in Exec(rows, acts).rows
  {
    ExecKeeps(rows, acts);
    assert HolderOk(Exec(rows, acts), id);
  }

  /** No launch spec reaches two shims. */
  lemma LaunchHandedOnce(rows: set<SessionId>, acts: seq<Action>, i: nat, j: nat)
    requires i < |Exec(rows, acts).handed| && j < |Exec(rows, acts).handed|
    requires Exec(rows, acts).handed[i] == Exec(rows, acts).handed[j]
    ensures i == j
  {
    ExecKeeps(rows, acts);
  }

  /** The "already has a pending shim" error cannot be reached: no sender is ever there when
      a spawn stores its own. */
  lemma NeverAlreadyPending(rows: set<SessionId>, acts: seq<Action>)
    ensures !Exec(rows, acts).alreadyPending
    ensures var s := Exec(rows, acts);
            forall t :: At(s, t, LaunchStored) ==> s.tasks[t].id !in s.senders
  {
    ExecKeeps(rows, acts);
    var s := Exec(rows, acts);
    forall t | At(s, t, LaunchStored)
      ensures s.tasks[t].id !in s.senders
    {
      assert HolderOk(s, s.tasks[t].id) && SenderOk(s, s.tasks[t].id);
      SenderKept(s, StoreSender(t), s.tasks[t].id);
    }
  }

  // ---------- One spawn on its own ----------

  /** The world with one spawn's task, and its row, launch spec and sender as far as stored. */
  function With(s: World, t: SpawnTask, id: SessionId, pc: Pc, row: bool, launch: bool, sender: bool): World {
    s.(rows := if row then s.rows + {id} else s.rows,
       launches := if launch then s.launches[id := t] else s.launches,
       senders := if sender then s.senders[id := t] else s.senders,
       tasks := s.tasks[t := Task(id, pc)])
  }

  lemma TaskMoves(s: World, t: SpawnTask, id: SessionId, pc: Pc, next: Pc)
    ensures s.tasks[t := Task(id, pc)][t := Task(id, next)] == s.tasks[t := Task(id, next)]
  {
  }

  predicate Free(s: World, id: SessionId) { id !in s.rows && id !in s.launches && id !in s.senders }

  lemma UpToInsert(s: World, t: SpawnTask, id: SessionId)
    requires t !in s.tasks && Free(s, id)
    ensures Apply(s, Begin(t, id)) == With(s, t, id, Begun, false, false, false)
    ensures Apply(With(s, t, id, Begun, false, false, false), Check(t)) == With(s, t, id, Checked, false, false, false)
    ensures Apply(With(s, t, id, Checked, false, false, false), Validate(t, true))
         == With(s, t, id, Validated, false, false, false)
    ensures Apply(With(s, t, id, Validated, false, false, false), Insert(t))
         == With(s, t, id, Inserted, true, false, false)
  {
    TaskMoves(s, t, id, Begun, Checked);
    TaskMoves(s, t, id, Checked, Validated);
    TaskMoves(s, t, id, Validated, Inserted);
  }

  lemma UpToWaiting(s: World, t: SpawnTask, id: SessionId, ok: bool)
    requires Free(s, id)
    ensures Apply(With(s, t, id, Inserted, true, false, false), StoreLaunch(t))
         == With(s, t, id, LaunchStored, true, true, false)
    ensures Apply(With(s, t, id, LaunchStored, true, true, false), StoreSender(t))
         == With(s, t, id, Armed, true, true, true)
    ensures Apply(With(s, t, id, Armed, true, true, true), Backend(t, ok))
         == With(s, t, id, if ok then Waiting else CancelLaunch, true, true, true)
  {
    TaskMoves(s, t, id, Inserted, LaunchStored);
    TaskMoves(s, t, id, LaunchStored, Armed);
    TaskMoves(s, t, id, Armed, if ok then Waiting else CancelLaunch);
  }

  lemma CancelLaunchStep(s: World, t: SpawnTask, id: SessionId)
    requires Free(s, id)
    ensures Apply(With(s, t, id, CancelLaunch, true, true, true), Cancel(t, true))
         == With(s, t, id, CancelReady, true, false, true)
  {
    TaskMoves(s, t, id, CancelLaunch, CancelReady);
    assert s.launches[id := t] - {id} == s.launches;
  }

  lemma CancelReadyStep(s: World, t: SpawnTask, id: SessionId)
    requires Free(s, id)
    ensures Apply(With(s, t, id, CancelReady, true, false, true), Cancel(t, true))
         == With(s, t, id, CancelRow, true, false, false)
  {
    TaskMoves(s, t, id, CancelReady, CancelRow);
    assert s.senders[id := t] - {id} == s.senders;
  }

  lemma CancelRowStep(s: World, t: SpawnTask, id: SessionId)
    requires Free(s, id)
    ensures Apply(With(s, t, id, CancelRow, true, false, false), Cancel(t, true))
         == With(s, t, id, Cancelled, false, false, false)
  {
    TaskMoves(s, t, id, CancelRow, Cancelled);
    assert s.rows + {id} - {id} == s.rows;
  }

  lemma ExecPush(rows: set<SessionId>, acts: seq<Action>, a: Action)
    ensures Exec(rows, acts + [a]) == Apply(Exec(rows, acts), a)
  {
    assert (acts + [a])[..|acts|] == acts;
  }

  lemma ExecMore(rows: set<SessionId>, acts: seq<Action>, more: seq<Action>, a: Action)
    ensures Exec(rows, acts + (more + [a])) == Apply(Exec(rows, acts + more), a)
  {
    ExecPush(rows, acts + more, a);
    assert acts + (more + [a]) == acts + more + [a];
  }

  function InsertActs(t: SpawnTask, id: SessionId): seq<Action> {
    [Begin(t, id)] + [Check(t)] + [Validate(t, true)] + [Insert(t)]
  }

  /** A spawn of a free id up to its backend's answer. */
  function SpawnActs(t: SpawnTask, id: SessionId, ok: bool): seq<Action> {
    InsertActs(t, id) + [StoreLaunch(t)] + [StoreSender(t)] + [Backend(t, ok)]
  }

  lemma InsertRuns(rows: set<SessionId>, acts: seq<Action>, t: SpawnTask, id: SessionId)
    requires t !in Exec(rows, acts).tasks && Free(Exec(rows, acts), id)
    ensures Exec(rows, acts + InsertActs(t, id)) == With(Exec(rows, acts), t, id, Inserted, true, false, false)
  {
    var l := [Begin(t, id)];
    UpToInsert(Exec(rows, acts), t, id);
    ExecPush(rows, acts, Begin(t, id));
    ExecMore(rows, acts, l, Check(t));
    ExecMore(rows, acts, l + [Check(t)], Validate(t, true));
    ExecMore(rows, acts, l + [Check(t)] + [Validate(t, true)], Insert(t));
  }

  lemma SpawnRuns(rows: set<SessionId>, acts: seq<Action>, t: SpawnTask, id: SessionId, ok: bool)
    requires t !in Exec(rows, acts).tasks && Free(Exec(rows, acts), id)
    ensures Exec(rows, acts + SpawnActs(t, id, ok))
         == With(Exec(rows, acts), t, id, if ok then Waiting else CancelLaunch, true, true, true)
  {
    var l := InsertActs(t, id);
    InsertRuns(rows, acts, t, id);
    UpToWaiting(Exec(rows, acts), t, id, ok);
    ExecMore(rows, acts, l, StoreLaunch(t));
    ExecMore(rows, acts, l + [StoreLaunch(t)], StoreSender(t));
    ExecMore(rows, acts, l + [StoreLaunch(t)] + [StoreSender(t)], Backend(t, ok));
  }

  lemma FreeIsFree(rows: set<SessionId>, acts: seq<Action>, id: SessionId)
    requires id !in Exec(rows, acts).rows
    ensures Free(Exec(rows, acts), id)
  {
    ExecKeeps(rows, acts);
    assert HolderOk(Exec(rows, acts), id) && LaunchOk(Exec(rows, acts), id) && SenderOk(Exec(rows, acts), id);
  }

  /** ALONE. From any point of any interleaving a new spawn of a free id, its backend
      succeeding, ends up waiting with row, launch spec and sender stored. */
  lemma SpawnAloneWaits(rows: set<SessionId>, acts: seq<Action>, t: SpawnTask, id: SessionId)
    requires t !in Exec(rows, acts).tasks && id !in Exec(rows, acts).rows
    ensures var s, r := Exec(rows, acts), Exec(rows, acts + SpawnActs(t, id, true));
            && At(r, t, Waiting) && r.rows == s.rows + {id}
            && r.launches == s.launches[id := t] && r.senders == s.senders[id := t] && r.handed == s.handed
  {
    FreeIsFree(rows, acts, id);
    SpawnRuns(rows, acts, t, id, true);
  }

  /** UNDONE. If its backend fails, the cancel leaves rows, launch specs and senders as they
      were before the spawn. */
  lemma SpawnAloneUndone(rows: set<SessionId>, acts: seq<Action>, t: SpawnTask, id: SessionId)
    requires t !in Exec(rows, acts).tasks && id !in Exec(rows, acts).rows
    ensures Exec(rows, acts + SpawnActs(t, id, false) + [Cancel(t, true)] + [Cancel(t, true)] + [Cancel(t, true)])
         == Exec(rows, acts).(tasks := Exec(rows, acts).tasks[t := Task(id, Cancelled)])
  {
    FreeIsFree(rows, acts, id);
    SpawnRuns(rows, acts, t, id, false);
    CancelLaunchStep(Exec(rows, acts), t, id);
    CancelReadyStep(Exec(rows, acts), t, id);
    CancelRowStep(Exec(rows, acts), t, id);
    var a, c := acts + SpawnActs(t, id, false), Cancel(t, true);
    ExecPush(rows, a, c);
    ExecPush(rows, a + [c], c);
    ExecPush(rows, a + [c] + [c], c);
  }

  /** HANDED AND TAKEN. A shim that asks is handed the stored spec, which is then gone; a
      ready report takes the stored sender. */
  lemma PendingIsTaken(s: World, id: SessionId)
    ensures var r := Apply(s, TakeLaunch(id));
            && id !in r.launches && r.rows == s.rows && r.senders == s.senders
            && r.handed == (if id in s.launches then s.handed + [s.launches[id]] else s.handed)
    ensures var r := Apply(s, ShimReadyRpc(id));
            id !in r.senders && r.rows == s.rows && r.launches == s.launches && r.handed == s.handed
  {
  }

  /** A refused target ends the spawn; a cancel whose delete fails leaves the row. */
  lemma FailuresLeave(s: World, t: SpawnTask)
    ensures At(s, t, Checked) ==>
              Apply(s, Validate(t, false)) == s.(tasks := s.tasks[t := Task(s.tasks[t].id, Refused)])
    ensures At(s, t, CancelRow) ==>
              Apply(s, Cancel(t, false)) == s.(tasks := s.tasks[t := Task(s.tasks[t].id, Cancelled)])
    ensures At(s, t, Waiting) ==> Apply(s, Settle(t)) == s.(tasks := s.tasks[t := Task(s.tasks[t].id, Settled)])
  {
  }

  /** REFUSED. A spawn that finds a row, at its check or at its insert, is refused and leaves
      everything else alone. */
  lemma SecondSpawnRefused(s: World, t: SpawnTask)
    requires (At(s, t, Begun) || At(s, t, Validated)) && s.tasks[t].id in s.rows
    ensures var a := if At(s, t, Begun) then Check(t) else Insert(t);
            Apply(s, a) == s.(tasks := s.tasks[t := Task(s.tasks[t].id, Refused)])
  {
  }
}
