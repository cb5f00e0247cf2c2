/** What may still be logged of a session: the order of its events, and when its last one
    has been logged, over all interleavings and restarts. */
module EventOrder {
  import opened Strings
  import opened Lifecycles
  import opened Recorders

  // ---------- Order under a discipline ----------

  /** The session's recorders do not overlap, and it is cancelled at most while Forking. */
  ghost predicate Orderly(rows: map<SessionId, Lifecycle>, acts: seq<Action>, id: SessionId) {
    && (forall t, u :: Busy(Exec(rows, acts), t, id) && Busy(Exec(rows, acts), u, id) ==> t == u)
    && (acts == [] ||
        var front := acts[..|acts| - 1];
        && Orderly(rows, front, id)
        && (acts[|acts| - 1] == DeleteRow(id) ==> CancelsForking(Exec(rows, front), id)))
  }

  predicate CancelsForking(s: World, id: SessionId) { id in s.rows ==> s.rows[id].state.Forking? }

  predicate TerminalStored(s: World, id: SessionId) { id in s.rows && s.rows[id].Terminal() }

  /** What a busy task knows of the row, when no other is busy. */
  predicate BusyOk(s: World, t: TaskId, id: SessionId) {
    Busy(s, t, id) ==>
      match s.tasks[t]
      case Got(_, _, _) => LiveIfStored(s, id)
      case Updated(job, copy) =>
        if job.Ready() then id in s.rows && s.rows[id].state.Running? else TerminalStored(s, id)
      case _ => TerminalStored(s, id)
  }

  ghost predicate OrderInv(s: World, id: SessionId) {
    && (forall t :: BusyOk(s, t, id))
    && (forall i: nat :: TerminalAt(Whole(s), i, id) ==> TerminalStored(s, id))
    && (forall i: nat, j: nat :: i < j && TerminalAt(Whole(s), i, id) ==> !RunningAt(Whole(s), j, id))
  }

  predicate RunningAt(log: seq<RuntimeEvent>, i: nat, id: SessionId) {
    i < |log| && log[i].RunningEvent? && log[i].sessionId == id
  }

  /** An action of one task leaves the others as they are. */
  lemma OthersStay(s: World, a: Action, t: TaskId)
    requires !a.Restart? && t in s.tasks && !((a.Get? || a.Update? || a.Insert? || a.Append?) && a.t == t)
    ensures t in Apply(s, a).tasks && Apply(s, a).tasks[t] == s.tasks[t]
  {
  }

  /** A task that was busy before an action of another one. */
  lemma OtherBusy(s: World, a: Action, id: SessionId, t: TaskId)
    requires KeyInv(s) && OrderInv(s, id) && Busy(s, t, id)
    requires forall x, y :: Busy(s, x, id) && Busy(s, y, id) ==> x == y
    requires a == DeleteRow(id) ==> CancelsForking(s, id)
    requires (a.Get? || a.Update? || a.Insert? || a.Append?) ==> a.t != t
    ensures BusyOk(Apply(s, a), t, id)
  {
    if !a.Restart? { OthersStay(s, a, t); }
    assert BusyOk(s, t, id);
    assert a.Update? ==> !Busy(s, a.t, id);
  }

  /** A task's own action. */
  lemma OwnBusy(s: World, a: Action, id: SessionId, t: TaskId)
    requires KeyInv(s) && OrderInv(s, id)
    requires a == Get(t) || a == Update(t) || a == Insert(t) || a == Append(t, true) || a == Append(t, false)
    ensures BusyOk(Apply(s, a), t, id)
  {
    assert BusyOk(s, t, id);
    if t in s.tasks { assert TaskKeyed(s.tasks[t]); }
  }

  lemma BusyStays(s: World, a: Action, id: SessionId, t: TaskId)
    requires KeyInv(s) && OrderInv(s, id)
    requires forall x, y :: Busy(s, x, id) && Busy(s, y, id) ==> x == y
    requires a == DeleteRow(id) ==> CancelsForking(s, id)
    ensures BusyOk(Apply(s, a), t, id)
  {
    if (a.Get? || a.Update? || a.Insert? || a.Append?) && a.t == t {
      OwnBusy(s, a, id, t);
    } else if Busy(s, t, id) {
      OtherBusy(s, a, id, t);
    }
  }

  lemma RowStaysTerminal(s: World, a: Action, id: SessionId)
    requires KeyInv(s) && OrderInv(s, id) && TerminalStored(s, id)
    requires a == DeleteRow(id) ==> CancelsForking(s, id)
    ensures TerminalStored(Apply(s, a), id)
  {
    if a.Update? { assert BusyOk(s, a.t, id); }
  }

  lemma TerminalsStored(s: World, a: Action, id: SessionId, i: nat)
    requires KeyInv(s) && OrderInv(s, id)
    requires a == DeleteRow(id) ==> CancelsForking(s, id)
    requires TerminalAt(Whole(Apply(s, a)), i, id)
    ensures TerminalStored(Apply(s, a), id)
  {
    WholeStep(s, a);
    if i < |Whole(s)| {
      assert TerminalAt(Whole(s), i, id);
      RowStaysTerminal(s, a, id);
    } else {
      assert TaskKeyed(s.tasks[a.t]) && BusyOk(s, a.t, id);
    }
  }

  lemma RunningComesFirst(s: World, a: Action, id: SessionId, i: nat, j: nat)
    requires KeyInv(s) && OrderInv(s, id)
    requires i < j && TerminalAt(Whole(Apply(s, a)), i, id)
    ensures !RunningAt(Whole(Apply(s, a)), j, id)
  {
    var log := Whole(Apply(s, a));
    WholeStep(s, a);
    if j < |Whole(s)| {
      assert TerminalAt(Whole(s), i, id) && !RunningAt(Whole(s), j, id);
    } else if j < |log| {
      assert TerminalAt(Whole(s), i, id);
      assert TaskKeyed(s.tasks[a.t]) && BusyOk(s, a.t, id);
    }
  }

  lemma ApplyKeepsOrder(s: World, a: Action, id: SessionId)
    requires KeyInv(s) && OrderInv(s, id)
    requires forall t, u :: Busy(s, t, id) && Busy(s, u, id) ==> t == u
    requires a == DeleteRow(id) ==> CancelsForking(s, id)
    ensures OrderInv(Apply(s, a), id)
  {
    forall t
      ensures BusyOk(Apply(s, a), t, id)
    {
      BusyStays(s, a, id, t);
    }
    forall i: nat | TerminalAt(Whole(Apply(s, a)), i, id)
      ensures TerminalStored(Apply(s, a), id)
    {
      TerminalsStored(s, a, id, i);
    }
    forall i: nat, j: nat | i < j && TerminalAt(Whole(Apply(s, a)), i, id)
      ensures !RunningAt(Whole(Apply(s, a)), j, id)
    {
      RunningComesFirst(s, a, id, i, j);
    }
  }

  lemma {:induction false} ExecKeepsOrder(rows: map<SessionId, Lifecycle>, acts: seq<Action>, id: SessionId)
    requires Keyed(rows) && Orderly(rows, acts, id)
    ensures OrderInv(Exec(rows, acts), id)
  {
    if acts != [] {
      var front := acts[..|acts| - 1];
      ExecKeepsKeys(rows, front);
      ExecKeepsOrder(rows, front, id);
      ApplyKeepsOrder(Exec(rows, front), acts[|acts| - 1], id);
    }
  }

  /** ORDER, ARRANGED. In every run in which a session's recorders do not overlap, from
      read to append, and which cancels it at most while Forking, no Running event of the
      session follows a terminal one, over all lives, and its row is terminal once one is
      logged. */
  lemma OrderlyEvents(rows: map<SessionId, Lifecycle>, acts: seq<Action>, id: SessionId, i: nat)
    requires Keyed(rows) && Orderly(rows, acts, id)
    requires i < |Whole(Exec(rows, acts))|
    requires Whole(Exec(rows, acts))[i].Terminal() && Whole(Exec(rows, acts))[i].sessionId == id
    ensures var s := Exec(rows, acts);
            && id in s.rows && s.rows[id].Terminal()
            && forall j :: i < j < |Whole(s)| && Whole(s)[j].sessionId == id ==> !Whole(s)[j].RunningEvent?
  {
    ExecKeepsOrder(rows, acts, id);
    var s := Exec(rows, acts);
    assert TerminalAt(Whole(s), i, id);
    forall j: nat | i < j < |Whole(s)| && Whole(s)[j].sessionId == id
      ensures !Whole(s)[j].RunningEvent?
    {
      assert !RunningAt(Whole(s), j, id);
    }
  }

  // ---------- Why apart writes are not enough ----------

  /** One session, two tasks. */
  function Two(row: Lifecycle, terminated: set<SessionId>, log: seq<RuntimeEvent>, t0: Task, t1: Task): World {
    World(map[row.sessionId := row], terminated, log, map[0 := t0, 1 := t1], {}, [])
  }

  lemma TwoTasks(t0: Task, t1: Task, t: Task)
    ensures map[0 := t0, 1 := t1][0 := t] == map[0 := t, 1 := t1]
    ensures map[0 := t0, 1 := t1][1 := t] == map[0 := t0, 1 := t]
  {
  }

  lemma ApartPush(rows: map<SessionId, Lifecycle>, acts: seq<Action>, a: Action, id: SessionId, w: World)
    requires WritesApart(rows, acts, id) && Apply(Exec(rows, acts), a) == w && OneWriter(w, id)
    ensures WritesApart(rows, acts + [a], id) && Exec(rows, acts + [a]) == w
  {
    ExecPush(rows, acts, a);
    assert (acts + [a])[..|acts|] == acts;
  }

  /** Both reports submitted; the ready report read and written. */
  function ReadyWritten(job0: Job, job1: Job): seq<Action> {
    [Submit(0, job0)] + [Submit(1, job1)] + [Get(0)] + [Update(0)]
  }

  lemma BothSubmitted(row: Lifecycle, job0: Job, job1: Job)
    ensures var rows, acts := map[row.sessionId := row], [Submit(0, job0)] + [Submit(1, job1)];
            && WritesApart(rows, acts, row.sessionId)
            && Exec(rows, acts) == Two(row, {}, [], Fresh(job0), Fresh(job1))
  {
    var id, rows := row.sessionId, map[row.sessionId := row];
    var a1 := [Submit(0, job0)];
    assert [] + a1 == a1;
    ApartPush(rows, [], Submit(0, job0), id, World(rows, {}, [], map[0 := Fresh(job0)], {}, []));
    assert map[0 := Fresh(job0)][1 := Fresh(job1)] == map[0 := Fresh(job0), 1 := Fresh(job1)];
    ApartPush(rows, a1, Submit(1, job1), id, Two(row, {}, [], Fresh(job0), Fresh(job1)));
  }

  lemma ReadyPasses(rows: map<SessionId, Lifecycle>, acts: seq<Action>, row: Lifecycle, job: Job, t1: Task)
    requires row == NewForking(job.id, Claude) && job.RecordReady? && t1.Fresh?
    requires WritesApart(rows, acts, job.id) && Exec(rows, acts) == Two(row, {}, [], Fresh(job), t1)
    ensures var more, late := acts + [Get(0)] + [Update(0)], MarkFor(job, row).0;
            WritesApart(rows, more, job.id) && Exec(rows, more) == Two(late, {}, [], Updated(job, late), t1)
  {
    var id, late := job.id, MarkFor(job, row).0;
    TwoTasks(Fresh(job), t1, Got(job, row, late));
    ApartPush(rows, acts, Get(0), id, Two(row, {}, [], Got(job, row, late), t1));
    TwoTasks(Got(job, row, late), t1, Updated(job, late));
    ApartPush(rows, acts + [Get(0)], Update(0), id, Two(late, {}, [], Updated(job, late), t1));
  }

  lemma ReadyWrittenState(row: Lifecycle, job0: Job, job1: Job)
    requires row == NewForking(job1.id, Claude) && job0.id == job1.id && job0.RecordReady?
    ensures var rows, acts := map[job1.id := row], ReadyWritten(job0, job1);
            && WritesApart(rows, acts, job1.id)
            && Exec(rows, acts) == Two(MarkFor(job0, row).0, {}, [], Updated(job0, MarkFor(job0, row).0), Fresh(job1))
  {
    BothSubmitted(row, job0, job1);
    ReadyPasses(map[job1.id := row], [Submit(0, job0)] + [Submit(1, job1)], row, job0, Fresh(job1));
  }

  lemma ExitWrites(rows: map<SessionId, Lifecycle>, acts: seq<Action>, late: Lifecycle, t0: Task, job: Job)
    requires late.state.Running? && late.sessionId == job.id && job.RecordExit? && t0.Updated?
    requires WritesApart(rows, acts, job.id) && Exec(rows, acts) == Two(late, {}, [], t0, Fresh(job))
    ensures var gone, more := MarkFor(job, late).0, acts + [Get(1)] + [Update(1)];
            WritesApart(rows, more, job.id) && Exec(rows, more) == Two(gone, {}, [], t0, Updated(job, gone))
  {
    var id, gone := job.id, MarkFor(job, late).0;
    TwoTasks(t0, Fresh(job), Got(job, late, gone));
    ApartPush(rows, acts, Get(1), id, Two(late, {}, [], t0, Got(job, late, gone)));
    TwoTasks(t0, Got(job, late, gone), Updated(job, gone));
    ApartPush(rows, acts + [Get(1)], Update(1), id, Two(gone, {}, [], t0, Updated(job, gone)));
  }

  lemma ExitAppends(rows: map<SessionId, Lifecycle>, acts: seq<Action>, gone: Lifecycle, t0: Task, job: Job)
    requires gone.sessionId == job.id && job.RecordExit? && t0.Updated?
    requires WritesApart(rows, acts, job.id) && Exec(rows, acts) == Two(gone, {}, [], t0, Updated(job, gone))
    ensures var more := acts + [Insert(1)] + [Append(1, true)];
            && WritesApart(rows, more, job.id)
            && Exec(rows, more) == Two(gone, {job.id}, [TerminalEventOf(gone, job.evidence)], t0, Done)
  {
    var id := job.id;
    TwoTasks(t0, Updated(job, gone), Won(job, gone));
    ApartPush(rows, acts, Insert(1), id, Two(gone, {id}, [], t0, Won(job, gone)));
    TwoTasks(t0, Won(job, gone), Done);
    ApartPush(rows, acts + [Insert(1)], Append(1, true), id,
              Two(gone, {id}, [TerminalEventOf(gone, job.evidence)], t0, Done));
  }

  lemma ReadyAppendsLast(
    rows: map<SessionId, Lifecycle>, acts: seq<Action>, gone: Lifecycle, log: seq<RuntimeEvent>,
    job: Job, late: Lifecycle)
    requires job.RecordReady? && RunningEventOf(late).Some?
    requires WritesApart(rows, acts, gone.sessionId)
    requires Exec(rows, acts) == Two(gone, {gone.sessionId}, log, Updated(job, late), Done)
    ensures WritesApart(rows, acts + [Append(0, true)], gone.sessionId)
    ensures Exec(rows, acts + [Append(0, true)]).log == log + [RunningEventOf(late).value]
  {
    var id := gone.sessionId;
    TwoTasks(Updated(job, late), Done, Done);
    ApartPush(rows, acts, Append(0, true), id, Two(gone, {id}, log + [RunningEventOf(late).value], Done, Done));
  }

  /** Keeping the writes apart is not enough for the order: a ready report that has
      written its row may append after the exit that overtook it. */
  lemma LateAppendReordersEvents(id: SessionId, ready: ShimReady, exit: RuntimeExit)
    ensures var rows := map[id := NewForking(id, Claude)];
            var acts := ReadyWritten(RecordReady(id, ready), RecordExit(id, exit, ShimExit))
                        + [Get(1)] + [Update(1)] + [Insert(1)] + [Append(1, true)] + [Append(0, true)];
            && WritesApart(rows, acts, id)
            && Exec(rows, acts).log == [Terminated(id, exit.code, exit.signal, ShimExit),
                                        RunningEvent(id, ready.runtimePid, ready.startTime)]
  {
    var row := NewForking(id, Claude);
    var job0, job1 := RecordReady(id, ready), RecordExit(id, exit, ShimExit);
    var late := AfterReady(row, ready).0;
    var gone := AfterExit(late, exit).0;
    var acts, t0 := ReadyWritten(job0, job1), Updated(job0, late);
    ReadyWrittenState(row, job0, job1);
    ExitWrites(map[id := row], acts, late, t0, job1);
    ExitAppends(map[id := row], acts + [Get(1)] + [Update(1)], gone, t0, job1);
    ReadyAppendsLast(map[id := row], acts + [Get(1)] + [Update(1)] + [Insert(1)] + [Append(1, true)],
                     gone, [TerminalEventOf(gone, ShimExit)], job0, late);
  }

  // ---------- What may still be logged ----------

  /** The state after further actions. */
  function Steps(s: World, more: seq<Action>): World
    decreases |more|
  {
    if more == [] then s else Steps(Apply(s, more[0]), more[1..])
  }

  lemma {:induction false} ExecThen(rows: map<SessionId, Lifecycle>, acts: seq<Action>, more: seq<Action>)
    ensures Exec(rows, acts + more) == Steps(Exec(rows, acts), more)
    decreases |more|
  {
    if more == [] {
      assert acts + more == acts;
    } else {
      ExecPush(rows, acts, more[0]);
      ExecThen(rows, acts + [more[0]], more[1..]);
      assert acts + more == acts + [more[0]] + more[1..];
    }
  }

  lemma {:induction false} WholeGrows(s: World, more: seq<Action>)
    ensures Whole(s) <= Whole(Steps(s, more))
    decreases |more|
  {
    if more != [] {
      WholeStep(s, more[0]);
      WholeGrows(Apply(s, more[0]), more[1..]);
    }
  }

  /** A Running event of the session, or a terminal one. */
  predicate EventOf(e: RuntimeEvent, id: SessionId, terminal: bool) {
    e.sessionId == id && (if terminal then e.Terminal() else e.RunningEvent?)
  }

  ghost predicate NoneFrom(log: seq<RuntimeEvent>, from: nat, id: SessionId, terminal: bool) {
    forall j :: from <= j < |log| ==> !EventOf(log[j], id, terminal)
  }

  /** No continuation without a cancel logs another such event. */
  ghost predicate NoneEver(s: World, id: SessionId, terminal: bool) {
    forall more: seq<Action> :: DeleteRow(id) !in more ==> NoneFrom(Whole(Steps(s, more)), |Whole(s)|, id, terminal)
  }

  /** Some continuation does. */
  ghost predicate Reachable(s: World, id: SessionId, terminal: bool) {
    exists more: seq<Action> ::
      DeleteRow(id) !in more && !NoneFrom(Whole(Steps(s, more)), |Whole(s)|, id, terminal)
  }

  lemma OneStep(s: World, a: Action)
    ensures Steps(s, [a]) == Apply(s, a)
  {
    assert [a][1..] == [];
  }

  lemma ReachNow(s: World, a: Action, id: SessionId, terminal: bool)
    requires a != DeleteRow(id) && NewEvent(s, a).Some? && EventOf(NewEvent(s, a).value, id, terminal)
    ensures Reachable(s, id, terminal)
  {
    WholeStep(s, a);
    OneStep(s, a);
    assert EventOf(Whole(Steps(s, [a]))[|Whole(s)|], id, terminal);
    assert DeleteRow(id) !in [a];
  }

  lemma ReachAfter(s: World, a: Action, id: SessionId, terminal: bool)
    requires a != DeleteRow(id) && Reachable(Apply(s, a), id, terminal)
    ensures Reachable(s, id, terminal)
  {
    var s1 := Apply(s, a);
    var more: seq<Action> :|
      DeleteRow(id) !in more && !NoneFrom(Whole(Steps(s1, more)), |Whole(s1)|, id, terminal);
    var all := [a] + more;
    assert all[0] == a && all[1..] == more;
    assert Steps(s, all) == Steps(s1, more);
    WholeStep(s, a);
    assert DeleteRow(id) !in all;
    var j :| |Whole(s1)| <= j < |Whole(Steps(s1, more))| && EventOf(Whole(Steps(s1, more))[j], id, terminal);
    assert EventOf(Whole(Steps(s, all))[j], id, terminal);
  }

  // ---------- Running events ----------

  /** A ready recorder stands between its read and its append. */
  predicate ReadyPending(s: World, t: TaskId, id: SessionId) {
    t in s.tasks && (s.tasks[t].Got? || s.tasks[t].Updated?) && s.tasks[t].job.Ready() && s.tasks[t].job.id == id
  }

  ghost predicate NoReadyPending(s: World, id: SessionId) { forall t :: !ReadyPending(s, t, id) }

  lemma EndedStep(s: World, a: Action, id: SessionId)
    requires KeyInv(s) && TerminalStored(s, id) && NoReadyPending(s, id) && a != DeleteRow(id)
    ensures TerminalStored(Apply(s, a), id)
    ensures NewEvent(s, a).Some? ==> !EventOf(NewEvent(s, a).value, id, false)
  {
    assert a.Update? && a.t in s.tasks ==> TaskKeyed(s.tasks[a.t]) && !ReadyPending(s, a.t, id);
    assert a.Append? && a.t in s.tasks ==> TaskKeyed(s.tasks[a.t]) && !ReadyPending(s, a.t, id);
  }

  lemma NoReadyStep(s: World, a: Action, id: SessionId, t: TaskId)
    requires TerminalStored(s, id) && !ReadyPending(s, t, id)
    ensures !ReadyPending(Apply(s, a), t, id)
  {
  }

  lemma {:induction false} EndedFor(s: World, more: seq<Action>, id: SessionId)
    requires KeyInv(s) && TerminalStored(s, id) && NoReadyPending(s, id) && DeleteRow(id) !in more
    ensures NoneFrom(Whole(Steps(s, more)), |Whole(s)|, id, false)
    decreases |more|
  {
    if more != [] {
      var s1 := Apply(s, more[0]);
      EndedStep(s, more[0], id);
      forall t
        ensures !ReadyPending(s1, t, id)
      {
        NoReadyStep(s, more[0], id, t);
      }
      ApplyKeepsKeys(s, more[0]);
      EndedFor(s1, more[1..], id);
      WholeStep(s, more[0]);
      WholeGrows(s1, more[1..]);
    }
  }

  lemma PendingReaches(s: World, t: TaskId, id: SessionId)
    requires KeyInv(s) && id in s.rows && ReadyPending(s, t, id)
    ensures Reachable(s, id, false)
  {
    var s1 := Apply(s, Update(t));
    assert TaskKeyed(s.tasks[t]);
    ReachNow(s1, Append(t, true), id, false);
    ReachAfter(s, Update(t), id, false);
  }

  /** RUNNING AFTER THE END. Once a session's row is terminal, no continuation without a
      cancel logs a Running event of it, over restarts too, exactly when no ready recorder
      of the session stands between its read and its append. */
  lemma RunningOverIff(rows: map<SessionId, Lifecycle>, acts: seq<Action>, id: SessionId)
    requires Keyed(rows) && TerminalStored(Exec(rows, acts), id)
    ensures (forall more: seq<Action> :: DeleteRow(id) !in more ==>
               NoneFrom(Whole(Exec(rows, acts + more)), |Whole(Exec(rows, acts))|, id, false))
       <==> NoReadyPending(Exec(rows, acts), id)
  {
    var s := Exec(rows, acts);
    ExecKeepsKeys(rows, acts);
    NoneEverOfExec(rows, acts, id, false);
    if NoReadyPending(s, id) {
      forall more: seq<Action> | DeleteRow(id) !in more
        ensures NoneFrom(Whole(Steps(s, more)), |Whole(s)|, id, false)
      {
        EndedFor(s, more, id);
      }
    } else {
      var t :| ReadyPending(s, t, id);
      PendingReaches(s, t, id);
    }
  }

  lemma NoneEverOfExec(rows: map<SessionId, Lifecycle>, acts: seq<Action>, id: SessionId, terminal: bool)
    ensures (forall more: seq<Action> :: DeleteRow(id) !in more ==>
               NoneFrom(Whole(Exec(rows, acts + more)), |Whole(Exec(rows, acts))|, id, terminal))
       <==> NoneEver(Exec(rows, acts), id, terminal)
  {
    forall more: seq<Action>
      ensures Exec(rows, acts + more) == Steps(Exec(rows, acts), more)
    {
      ExecThen(rows, acts, more);
    }
  }

  // ---------- Terminal events ----------

  /** The task cannot log a terminal event any more. */
  predicate Harmless(s: World, t: TaskId, id: SessionId) {
    t in s.tasks ==>
      match s.tasks[t]
      case Got(job, _, _) => job.id == id ==> !job.Ready() && id in s.terminated
      case Updated(job, _) => job.id == id ==> job.Ready() || id in s.terminated
      case Won(job, _) => job.id != id
      case _ => true
  }

  /** The row is terminal, no recorder can bring it back to life, and none that is under
      way gets past the set. */
  ghost predicate Closed(s: World, id: SessionId) {
    TerminalStored(s, id) && forall t :: Harmless(s, t, id)
  }

  lemma ClosedStep(s: World, a: Action, id: SessionId)
    requires KeyInv(s) && Closed(s, id) && a != DeleteRow(id)
    ensures TerminalStored(Apply(s, a), id)
    ensures NewEvent(s, a).Some? ==> !EventOf(NewEvent(s, a).value, id, true)
  {
    assert a.Update? && a.t in s.tasks ==> TaskKeyed(s.tasks[a.t]) && Harmless(s, a.t, id);
    assert a.Append? && a.t in s.tasks ==> TaskKeyed(s.tasks[a.t]) && Harmless(s, a.t, id);
  }

  lemma HarmlessStep(s: World, a: Action, id: SessionId, t: TaskId)
    requires TerminalStored(s, id) && Harmless(s, t, id)
    ensures Harmless(Apply(s, a), t, id)
  {
  }

  lemma {:induction false} ClosedFor(s: World, more: seq<Action>, id: SessionId)
    requires KeyInv(s) && Closed(s, id) && DeleteRow(id) !in more
    ensures NoneFrom(Whole(Steps(s, more)), |Whole(s)|, id, true)
    decreases |more|
  {
    if more != [] {
      var s1 := Apply(s, more[0]);
      ClosedStep(s, more[0], id);
      forall t
        ensures Harmless(s1, t, id)
      {
        HarmlessStep(s, more[0], id, t);
      }
      ApplyKeepsKeys(s, more[0]);
      ClosedFor(s1, more[1..], id);
      WholeStep(s, more[0]);
      WholeGrows(s1, more[1..]);
    }
  }

  /** A recorder past its read, outside the set, reaches the log. */
  lemma RecorderReaches(s: World, t: TaskId, id: SessionId)
    requires KeyInv(s) && t in s.tasks && id in s.rows
    requires match s.tasks[t]
             case Got(job, _, _) => job.id == id && !job.Ready() && id !in s.terminated
             case Updated(job, _) => job.id == id && !job.Ready() && id !in s.terminated
             case Won(job, _) => job.id == id
             case _ => false
    ensures Reachable(s, id, true)
  {
    assert TaskKeyed(s.tasks[t]);
    var s1 := Apply(s, Update(t));
    var s2 := Apply(s1, Insert(t));
    ReachNow(s2, Append(t, true), id, true);
    ReachAfter(s1, Insert(t), id, true);
    ReachAfter(s, Update(t), id, true);
  }

  /** A live row is reported lost in the next life. */
  lemma LiveReaches(s: World, id: SessionId)
    requires KeyInv(s) && id in s.rows && !s.rows[id].Terminal()
    ensures Reachable(s, id, true)
  {
    var job := RecordLoss(id, PidNotAlive);
    var s1 := Apply(s, Restart);
    var s2 := Apply(s1, Submit(0, job));
    var s3 := Apply(s2, Get(0));
    ApplyKeepsKeys(s, Restart);
    ApplyKeepsKeys(s1, Submit(0, job));
    ApplyKeepsKeys(s2, Get(0));
    RecorderReaches(s3, 0, id);
    ReachAfter(s2, Get(0), id, true);
    ReachAfter(s1, Submit(0, job), id, true);
    ReachAfter(s, Restart, id, true);
  }

  lemma AbsentReaches(s: World, id: SessionId)
    requires KeyInv(s) && id !in s.rows
    ensures Reachable(s, id, true)
  {
    ApplyKeepsKeys(s, InsertRow(NewForking(id, Claude)));
    LiveReaches(Apply(s, InsertRow(NewForking(id, Claude))), id);
    ReachAfter(s, InsertRow(NewForking(id, Claude)), id, true);
  }

  /** A ready recorder past its read brings the row back to life. */
  lemma StaleReadyReaches(s: World, t: TaskId, id: SessionId)
    requires KeyInv(s) && id in s.rows && t in s.tasks && s.tasks[t].Got?
    requires s.tasks[t].job.Ready() && s.tasks[t].job.id == id
    ensures Reachable(s, id, true)
  {
    assert TaskKeyed(s.tasks[t]);
    ApplyKeepsKeys(s, Update(t));
    LiveReaches(Apply(s, Update(t)), id);
    ReachAfter(s, Update(t), id, true);
  }

  lemma OpenReaches(s: World, id: SessionId)
    requires KeyInv(s) && !Closed(s, id)
    ensures Reachable(s, id, true)
  {
    if id !in s.rows {
      AbsentReaches(s, id);
    } else if !s.rows[id].Terminal() {
      LiveReaches(s, id);
    } else {
      var t :| !Harmless(s, t, id);
      if s.tasks[t].Got? && s.tasks[t].job.Ready() {
        StaleReadyReaches(s, t, id);
      } else {
        RecorderReaches(s, t, id);
      }
    }
  }

  /** THE LAST TERMINAL EVENT. No continuation without a cancel logs another terminal event
      of a session, over any number of restarts, exactly when the session is closed: its row
      is terminal, no ready recorder is about to overwrite it, and every exit or loss
      recorder under way will be turned away by the set. */
  lemma TerminalOverIff(rows: map<SessionId, Lifecycle>, acts: seq<Action>, id: SessionId)
    requires Keyed(rows)
    ensures (forall more: seq<Action> :: DeleteRow(id) !in more ==>
               NoneFrom(Whole(Exec(rows, acts + more)), |Whole(Exec(rows, acts))|, id, true))
       <==> Closed(Exec(rows, acts), id)
  {
    var s := Exec(rows, acts);
    ExecKeepsKeys(rows, acts);
    NoneEverOfExec(rows, acts, id, true);
    if Closed(s, id) {
      forall more: seq<Action> | DeleteRow(id) !in more
        ensures NoneFrom(Whole(Steps(s, more)), |Whole(s)|, id, true)
      {
        ClosedFor(s, more, id);
      }
    } else {
      OpenReaches(s, id);
    }
  }

  lemma SecondEnd(rows: map<SessionId, Lifecycle>, acts: seq<Action>, id: SessionId, i: nat)
    requires Keyed(rows) && DeleteRow(id) !in acts
    requires id in Exec(rows, acts).rows && !Exec(rows, acts).rows[id].Terminal()
    requires i < |Whole(Exec(rows, acts))| && EventOf(Whole(Exec(rows, acts))[i], id, true)
    ensures exists more: seq<Action>, j: nat ::
              && DeleteRow(id) !in more && i < j < |Whole(Exec(rows, more))|
              && EventOf(Whole(Exec(rows, more))[i], id, true) && EventOf(Whole(Exec(rows, more))[j], id, true)
  {
    var s := Exec(rows, acts);
    ExecKeepsKeys(rows, acts);
    LiveReaches(s, id);
    var more: seq<Action> :| DeleteRow(id) !in more && !NoneFrom(Whole(Steps(s, more)), |Whole(s)|, id, true);
    var j: nat :| |Whole(s)| <= j < |Whole(Steps(s, more))| && EventOf(Whole(Steps(s, more))[j], id, true);
    ExecThen(rows, acts, more);
    WholeGrows(s, more);
    assert DeleteRow(id) !in acts + more;
    assert EventOf(Whole(Exec(rows, acts + more))[i], id, true);
  }

  /** Such a second terminal event happens: after a late ready report overwrote the row of
      an ended session, a restart and a loss log another one. */
  lemma TwoTerminalEvents(id: SessionId, ready: ShimReady, exit: RuntimeExit)
    ensures var rows := map[id := NewForking(id, Claude)];
            exists acts: seq<Action>, i: nat, j: nat ::
              && DeleteRow(id) !in acts && i < j < |Whole(Exec(rows, acts))|
              && EventOf(Whole(Exec(rows, acts))[i], id, true) && EventOf(Whole(Exec(rows, acts))[j], id, true)
  {
    var rows := map[id := NewForking(id, Claude)];
    var acts := BothRead(id, RecordReady(id, ready), RecordExit(id, exit, ShimExit))
                + [Update(1)] + [Insert(1)] + [Append(1, true)] + [Update(0)];
    LateReadyOverwritesTerminal(id, ready, exit);
    var log := Whole(Exec(rows, acts));
    var i := |Exec(rows, acts).past|;
    assert log[i] == Terminated(id, exit.code, exit.signal, ShimExit);
    SecondEnd(rows, acts, id, i);
  }

  // ---------- Apart writes end a session once ----------

  /** A recorder that wrote a terminal row finds it terminal. */
  predicate EndTask(s: World, t: TaskId, id: SessionId) {
    t in s.tasks ==>
      match s.tasks[t]
      case Updated(job, _) => job.id == id && !job.Ready() ==> TerminalStored(s, id)
      case Won(job, _) => job.id == id ==> TerminalStored(s, id)
      case _ => true
  }

  ghost predicate EndInv(s: World, id: SessionId) {
    && (forall t :: EndTask(s, t, id))
    && (forall i: nat :: TerminalAt(Whole(s), i, id) ==> Closed(s, id))
    && (forall i: nat, j: nat :: TerminalAt(Whole(s), i, id) && TerminalAt(Whole(s), j, id) ==> i == j)
  }

  lemma EndTaskStep(s: World, a: Action, id: SessionId, t: TaskId)
    requires KeyInv(s) && WriterSeesLive(s, id) && EndTask(s, t, id) && a != DeleteRow(id)
    ensures EndTask(Apply(s, a), t, id)
  {
    assert a.Update? && a.t in s.tasks ==> TaskKeyed(s.tasks[a.t]);
    assert a.Update? && Writing(s, a.t, id) ==> LiveIfStored(s, id);
  }

  /** The one terminal event closes its session. */
  lemma EndCloses(s: World, t: TaskId, id: SessionId, u: TaskId)
    requires KeyInv(s) && OneTerminal(s, id) && WriterSeesLive(s, id)
    requires Winner(s, t, id) && TerminalStored(s, id)
    ensures Harmless(Apply(s, Append(t, true)), u, id)
  {
    assert id in s.terminated;
    assert Winner(s, u, id) ==> u == t;
    assert !Writing(s, u, id);
    assert TaskKeyed(s.tasks[t]);
  }

  lemma EndStep(s: World, a: Action, id: SessionId)
    requires KeyInv(s) && OneTerminal(s, id) && WriterSeesLive(s, id) && EndInv(s, id) && a != DeleteRow(id)
    ensures forall i: nat :: TerminalAt(Whole(Apply(s, a)), i, id) ==> Closed(Apply(s, a), id)
    ensures forall i: nat, j: nat ::
              TerminalAt(Whole(Apply(s, a)), i, id) && TerminalAt(Whole(Apply(s, a)), j, id) ==> i == j
  {
    var s' := Apply(s, a);
    WholeStep(s, a);
    assert forall i: nat :: i < |Whole(s)| ==> (TerminalAt(Whole(s), i, id) <==> TerminalAt(Whole(s'), i, id));
    if i: nat :| TerminalAt(Whole(s), i, id) {
      ClosedStep(s, a, id);
      forall t
        ensures Harmless(s', t, id)
      {
        HarmlessStep(s, a, id, t);
      }
    } else if TerminalAt(Whole(s'), |Whole(s)|, id) {
      assert TaskKeyed(s.tasks[a.t]) && EndTask(s, a.t, id);
      assert Winner(s, a.t, id);
      forall t
        ensures Harmless(s', t, id)
      {
        EndCloses(s, a.t, id, t);
      }
    }
  }

  lemma {:induction false} ExecKeepsEnd(rows: map<SessionId, Lifecycle>, acts: seq<Action>, id: SessionId)
    requires Keyed(rows) && WritesApart(rows, acts, id) && DeleteRow(id) !in acts
    ensures EndInv(Exec(rows, acts), id)
  {
    if acts != [] {
      var front, a := acts[..|acts| - 1], acts[|acts| - 1];
      ExecKeepsKeys(rows, front);
      ExecKeepsOne(rows, front, id);
      ExecKeepsLive(rows, front, id);
      ExecKeepsEnd(rows, front, id);
      EndStep(Exec(rows, front), a, id);
      forall t
        ensures EndTask(Exec(rows, acts), t, id)
      {
        EndTaskStep(Exec(rows, front), a, id, t);
      }
    }
  }

  /** ONCE OVER ALL LIVES. In every run that keeps a session's writes apart and does not
      cancel it, at most one terminal event of it is logged, whatever the restarts, and
      once one is, the session is closed. */
  lemma ApartEndsOnce(rows: map<SessionId, Lifecycle>, acts: seq<Action>, id: SessionId, i: nat, j: nat)
    requires Keyed(rows) && WritesApart(rows, acts, id) && DeleteRow(id) !in acts
    requires i < |Whole(Exec(rows, acts))| && EventOf(Whole(Exec(rows, acts))[i], id, true)
    requires j < |Whole(Exec(rows, acts))| && EventOf(Whole(Exec(rows, acts))[j], id, true)
    ensures i == j && Closed(Exec(rows, acts), id)
  {
    ExecKeepsEnd(rows, acts, id);
    assert TerminalAt(Whole(Exec(rows, acts)), i, id) && TerminalAt(Whole(Exec(rows, acts)), j, id);
  }
}
