/** The reconciliation sweep, its evidence of loss, and the deadline it runs on. */
module Reconcile {
  import opened Strings
  import opened Lifecycles
  import opened Handlers
  import opened Server
  import StartTime

  // ---------- Evidence of loss ----------

  datatype StartProbe = Known(time: DateTime) | Gone | Unsupported | ProbeFailed

  /** What the system answers about one pid, in the order it is asked. */
  datatype Probe = Probe(alive: bool, start: StartProbe, stillAlive: bool)

  datatype Liveness = Alive | Dead(evidence: LostEvidence) | Unknown

  /** `host_lost_evidence`. */
  function HostLiveness(l: Lifecycle, p: Probe): Liveness {
    if l.runtimePid.None? then Unknown
    else if !p.alive then Dead(PidNotAlive)
    else if l.startTime.None? then Alive
    else
      match p.start
      case Known(current) => if current != l.startTime.value then Dead(PidReuseDetected) else Alive
      case Gone => Dead(PidNotAlive)
      case Unsupported => if p.stillAlive then Alive else Dead(PidNotAlive)
      case ProbeFailed => if p.stillAlive then Unknown else Dead(PidNotAlive)
  }

  /** `ReconcileLiveness`: the container's state decides for Docker, the process for host. */
  function RuntimeLiveness(l: Lifecycle, host: Lifecycle -> Probe, container: Lifecycle -> Option<bool>): Liveness {
    match l.isolation
    case Host => HostLiveness(l, host(l))
    case Docker(_) =>
      match container(l)
      case None => Unknown
      case Some(running) => if running then Alive else Dead(PidNotAlive)
  }

  /** PID REUSE. For a living pid whose stored and current start times come from the tick
      conversion of one boot, reuse is reported exactly when the ticks differ. */
  lemma ReuseDetectedIffTicksDiffer(
    l: Lifecycle, p: Probe, boot: int, hz: int, valid: int -> bool, stored: nat, current: nat)
    requires 0 < hz <= StartTime.NANOS && l.runtimePid.Some? && p.alive
    requires StartTime.FromTicks(boot, stored, hz, valid).Converted?
    requires StartTime.FromTicks(boot, current, hz, valid).Converted?
    requires l.startTime == Some(StartTime.FromTicks(boot, stored, hz, valid).time)
    requires p.start == Known(StartTime.FromTicks(boot, current, hz, valid).time)
    ensures HostLiveness(l, p) == Dead(PidReuseDetected) <==> stored != current
    ensures HostLiveness(l, p) == Alive <==> stored == current
  {
    StartTime.ConversionInjective(boot, stored, current, hz, valid);
  }

  // ---------- The sweep ----------

  datatype Swept = Swept(d: Daemon, events: seq<RuntimeEvent>, completed: bool)

  /** One running row; `watch` says whether a new exit watcher can be started. */
  function SweepRow(d: Daemon, l: Lifecycle, live: Liveness, watch: bool): (Daemon, Reply) {
    match live
    case Unknown => (d, Failed(Interrupted))
    case Dead(evidence) => RecordLost(d, l.sessionId, evidence, Completes)
    case Alive =>
      if l.runtimePid.None? || (l.sessionId !in d.watchers && !watch) then (d, Failed(Interrupted))
      else (d.(watchers := d.watchers + {l.sessionId}), Silent)
  }

  /** `reconcile_once` over the rows read at its start. */
  function Sweep(
    d: Daemon, rows: seq<Lifecycle>, live: Lifecycle -> Liveness, watch: SessionId -> bool): Swept
  {
    if rows == [] then Swept(d, [], true)
    else
      var front := Sweep(d, rows[..|rows| - 1], live, watch);
      var l := rows[|rows| - 1];
      if !front.completed then front else SweepNext(front, l, live(l), watch(l.sessionId))
  }

  /** The sweep after one more row. */
  function SweepNext(s: Swept, l: Lifecycle, live: Liveness, watch: bool): Swept {
    var (after, reply) := SweepRow(s.d, l, live, watch);
    if reply.Failed? then Swept(after, s.events, false)
    else Swept(after, s.events + (if reply.Emitted? then [reply.event] else []), true)
  }

  lemma {:induction false} SweepStops(
    d: Daemon, rows: seq<Lifecycle>, live: Lifecycle -> Liveness, watch: SessionId -> bool, n: nat)
    requires n <= |rows|
    ensures !Sweep(d, rows[..n], live, watch).completed ==>
              Sweep(d, rows, live, watch) == Sweep(d, rows[..n], live, watch)
    decreases |rows| - n
  {
    if n == |rows| {
      assert rows[..n] == rows;
    } else {
      assert rows[..n + 1][..n] == rows[..n];
      SweepStops(d, rows, live, watch, n + 1);
    }
  }

  /** One more row either extends the sweep so far or ends the whole sweep. */
  lemma SweepMore(d: Daemon, rows: seq<Lifecycle>, live: Lifecycle -> Liveness, watch: SessionId -> bool, i: nat)
    requires i < |rows| && Sweep(d, rows[..i], live, watch).completed
    ensures var next := SweepNext(Sweep(d, rows[..i], live, watch), rows[i], live(rows[i]), watch(rows[i].sessionId));
            && Sweep(d, rows[..i + 1], live, watch) == next
            && (!next.completed ==> Sweep(d, rows, live, watch) == next)
  {
    assert rows[..i + 1][..i] == rows[..i];
    SweepStops(d, rows, live, watch, i + 1);
  }

  function RowsAt(rows: map<SessionId, Lifecycle>, ids: seq<SessionId>): (r: seq<Lifecycle>)
    requires forall id :: id in ids ==> id in rows
    ensures |r| == |ids| && forall i :: 0 <= i < |ids| ==> r[i] == rows[ids[i]]
  {
    seq(|ids|, i requires 0 <= i < |ids| => rows[ids[i]])
  }

  /** The rows a sweep works through: every Running row once. */
  ghost predicate Enumerates(rows: map<SessionId, Lifecycle>, ids: seq<SessionId>) {
    && (forall id :: id in ids <==> id in rows && rows[id].state.Running?)
    && forall i, j :: 0 <= i < j < |ids| ==> ids[i] != ids[j]
  }

  /** The loop body of `reconcile_once`. */
  method ReconcileRow(server: ServerState, l: Lifecycle, live: Liveness, watch: bool) returns (reply: Reply)
    modifies server, server.store
    ensures (server.State(), reply) == SweepRow(old(server.State()), l, live, watch)
  {
    match live {
      case Unknown =>
        return Failed(Interrupted);
      case Dead(evidence) =>
        reply := server.RecordLost(l.sessionId, evidence, Completes);
      case Alive =>
        if l.runtimePid.None? || (l.sessionId !in server.watchers && !watch) {
          return Failed(Interrupted);
        }
        server.watchers := server.watchers + {l.sessionId};
        return Silent;
    }
  }

  method ReconcileOnce(server: ServerState, live: Lifecycle -> Liveness, watch: SessionId -> bool)
    returns (completed: bool, events: seq<RuntimeEvent>, ghost ids: seq<SessionId>)
    modifies server, server.store
    ensures Enumerates(old(server.store.rows), ids)
    ensures Swept(server.State(), events, completed)
         == Sweep(old(server.State()), RowsAt(old(server.store.rows), ids), live, watch)
  {
    var found := server.store.Running();
    ids := found;
    var rows := RowsAt(server.store.rows, found);
    ghost var before := server.State();
    events := [];
    for i := 0 to |rows|
      invariant Swept(server.State(), events, true) == Sweep(before, rows[..i], live, watch)
    {
      SweepMore(before, rows, live, watch, i);
      var reply := ReconcileRow(server, rows[i], live(rows[i]), watch(rows[i].sessionId));
      if reply.Failed? {
        return false, events, ids;
      }
      if reply.Emitted? {
        events := events + [reply.event];
      }
    }
    assert rows[..|rows|] == rows;
    completed := true;
  }

  /** What every reachable daemon guarantees about its Running rows. */
  predicate RunningReady(d: Daemon, id: SessionId) {
    && RowKeyed(d, id)
    && (id in d.rows && d.rows[id].state.Running? ==> d.rows[id].Identified() && id !in d.terminated)
  }

  ghost predicate SweepReady(d: Daemon) { forall id :: RunningReady(d, id) }

  lemma ReachableIsSweepReady(acts: seq<Action>)
    requires forall id :: id in Exec(acts).d.rows && Exec(acts).d.rows[id].state.Running? ==> id !in Exec(acts).spoiled
    ensures SweepReady(Exec(acts).d)
  {
    ExecKeepsKeyed(acts);
    forall id
      ensures RunningReady(Exec(acts).d, id)
    {
      assert RowKeyed(Exec(acts).d, id);
      RunningRowsIdentified(acts, id);
      if id in Exec(acts).d.rows && Exec(acts).d.rows[id].state.Running? {
        LiveRowNotTerminated(acts, id);
      }
    }
  }

  // ---------- What a completed sweep does ----------

  /** The row after a sweep that visited the sessions in `seen`. */
  function SweptRow(d: Daemon, id: SessionId, seen: bool, live: Lifecycle -> Liveness): Lifecycle
    requires id in d.rows
  {
    var l := d.rows[id];
    if seen && l.state.Running? && live(l).Dead? then Stored(l.(state := LifecycleState.Lost(live(l).evidence))) else l
  }

  function LostEvents(d: Daemon, ids: seq<SessionId>, live: Lifecycle -> Liveness): seq<RuntimeEvent>
    requires forall id :: id in ids ==> id in d.rows
  {
    if ids == [] then []
    else
      var id := ids[|ids| - 1];
      LostEvents(d, ids[..|ids| - 1], live)
      + (if live(d.rows[id]).Dead? then [LostEvent(id, live(d.rows[id]).evidence)] else [])
  }

  /** Rows, log and set after the sessions in `ids` have been visited. */
  ghost predicate SweptTo(d: Daemon, s: Swept, ids: seq<SessionId>, live: Lifecycle -> Liveness)
    requires forall id :: id in ids ==> id in d.rows
  {
    && (forall id :: id in s.d.rows <==> id in d.rows)
    && (forall id :: id in d.rows ==> s.d.rows[id] == SweptRow(d, id, id in ids, live))
    && (forall id :: id in s.d.terminated ==> id in d.terminated || (id in ids && live(d.rows[id]).Dead?))
    && s.events == LostEvents(d, ids, live)
    && s.d.log == d.log + s.events
  }

  predicate CanWatch(d: Daemon, id: SessionId, watch: SessionId -> bool) { id in d.watchers || watch(id) }

  /** No visited row stops the sweep. */
  ghost predicate NothingStops(d: Daemon, ids: seq<SessionId>, live: Lifecycle -> Liveness, watch: SessionId -> bool)
    requires forall id :: id in ids ==> id in d.rows
  {
    forall id :: id in ids ==>
      live(d.rows[id]) != Unknown && (live(d.rows[id]).Alive? ==> CanWatch(d, id, watch))
  }

  ghost predicate Fresh(d: Daemon, ids: seq<SessionId>) {
    && (forall id :: id in ids ==> id in d.rows && d.rows[id].state.Running?)
    && forall i, j :: 0 <= i < j < |ids| ==> ids[i] != ids[j]
  }

  lemma FreshFront(d: Daemon, ids: seq<SessionId>)
    requires Fresh(d, ids) && ids != []
    ensures Fresh(d, ids[..|ids| - 1]) && ids[|ids| - 1] !in ids[..|ids| - 1]
    ensures forall id :: id in ids <==> id in ids[..|ids| - 1] || id == ids[|ids| - 1]
  {
    assert ids == ids[..|ids| - 1] + [ids[|ids| - 1]];
  }

  /** Visiting one more session from a state that has not touched it. */
  lemma VisitOne(d: Daemon, s: Swept, l: Lifecycle, live: Liveness, watch: bool)
    requires RunningReady(d, l.sessionId) && l.sessionId in d.rows && d.rows[l.sessionId] == l && l.state.Running?
    requires l.sessionId in s.d.rows && s.d.rows[l.sessionId] == l && l.sessionId !in s.d.terminated
    requires l.sessionId in d.watchers ==> l.sessionId in s.d.watchers
    ensures var (after, reply) := SweepRow(s.d, l, live, watch);
            match live
            case Unknown => reply.Failed?
            case Alive => (l.sessionId in s.d.watchers || watch <==> !reply.Failed?)
                          && (!reply.Failed? ==>
                                reply == Silent && after == s.d.(watchers := s.d.watchers + {l.sessionId}))
            case Dead(evidence) =>
              && reply == Emitted(LostEvent(l.sessionId, evidence))
              && after.rows == s.d.rows[l.sessionId := Stored(l.(state := LifecycleState.Lost(evidence)))]
              && after.log == s.d.log + [reply.event]
              && after.terminated == s.d.terminated + {l.sessionId}
              && after.watchers == s.d.watchers - {l.sessionId}
  {
  }

  lemma SweepLast(d: Daemon, ids: seq<SessionId>, live: Lifecycle -> Liveness, watch: SessionId -> bool)
    requires Fresh(d, ids) && ids != []
    ensures var front := Sweep(d, RowsAt(d.rows, ids[..|ids| - 1]), live, watch);
            var l := d.rows[ids[|ids| - 1]];
            Sweep(d, RowsAt(d.rows, ids), live, watch)
            == if !front.completed then front else SweepNext(front, l, live(l), watch(l.sessionId))
  {
    var rows := RowsAt(d.rows, ids);
    assert rows[..|rows| - 1] == RowsAt(d.rows, ids[..|ids| - 1]);
  }

  /** Sessions not yet visited keep their watcher or its absence; a visited living one has one. */
  ghost predicate WatchersFrom(d: Daemon, s: Swept, ids: seq<SessionId>, live: Lifecycle -> Liveness)
    requires forall id :: id in ids ==> id in d.rows
  {
    && (forall id :: id !in ids ==> (id in s.d.watchers <==> id in d.watchers))
    && (forall id :: id in ids && live(d.rows[id]).Alive? ==> id in s.d.watchers)
  }

  /** Where a sweep over `ids` ends, and whether it gets there. */
  ghost predicate Reaches(
    d: Daemon, s: Swept, ids: seq<SessionId>, live: Lifecycle -> Liveness, watch: SessionId -> bool)
    requires forall id :: id in ids ==> id in d.rows
  {
    && (s.completed <==> NothingStops(d, ids, live, watch))
    && (s.completed ==> SweptTo(d, s, ids, live) && WatchersFrom(d, s, ids, live))
  }

  lemma {:induction false} SweepReaches(
    d: Daemon, ids: seq<SessionId>, live: Lifecycle -> Liveness, watch: SessionId -> bool)
    requires SweepReady(d) && Fresh(d, ids)
    ensures Reaches(d, Sweep(d, RowsAt(d.rows, ids), live, watch), ids, live, watch)
  {
    if ids != [] {
      var front, id := ids[..|ids| - 1], ids[|ids| - 1];
      assert ids == front + [id];
      FreshFront(d, ids);
      SweepReaches(d, front, live, watch);
      SweepLast(d, ids, live, watch);
      var s := Sweep(d, RowsAt(d.rows, front), live, watch);
      assert RunningReady(d, id);
      if s.completed {
        VisitReaches(d, s, front, id, live, watch);
      }
    }
  }

  /** The state after one more visit, from the state after the earlier ones. */
  lemma VisitReaches(
    d: Daemon, s: Swept, front: seq<SessionId>, id: SessionId, live: Lifecycle -> Liveness, watch: SessionId -> bool)
    requires SweepReady(d) && Fresh(d, front + [id])
    requires forall x :: x in front ==> x in d.rows
    requires s.completed && Reaches(d, s, front, live, watch)
    ensures Reaches(d, SweepNext(s, d.rows[id], live(d.rows[id]), watch(id)), front + [id], live, watch)
  {
    var ids := front + [id];
    FreshFront(d, ids);
    assert ids[..|ids| - 1] == front && ids[|ids| - 1] == id;
    assert RunningReady(d, id);
    VisitOne(d, s, d.rows[id], live(d.rows[id]), watch(id));
    var next := SweepNext(s, d.rows[id], live(d.rows[id]), watch(id));
    if next.completed {
      if live(d.rows[id]).Dead? {
        VisitDead(d, s, next, front, id, live);
      } else {
        VisitAlive(d, s, next, front, id, live);
      }
    }
  }

  lemma VisitAlive(
    d: Daemon, s: Swept, next: Swept, front: seq<SessionId>, id: SessionId, live: Lifecycle -> Liveness)
    requires Fresh(d, front + [id]) && id !in front
    requires forall x :: x in front ==> x in d.rows
    requires SweptTo(d, s, front, live) && WatchersFrom(d, s, front, live)
    requires live(d.rows[id]).Alive? && next == s.(d := s.d.(watchers := s.d.watchers + {id}))
    ensures SweptTo(d, next, front + [id], live) && WatchersFrom(d, next, front + [id], live)
  {
    var ids := front + [id];
    assert ids[..|ids| - 1] == front && ids[|ids| - 1] == id;
    assert s.events + [] == s.events;
  }

  lemma VisitDead(
    d: Daemon, s: Swept, next: Swept, front: seq<SessionId>, id: SessionId, live: Lifecycle -> Liveness)
    requires Fresh(d, front + [id]) && id !in front
    requires forall x :: x in front ==> x in d.rows
    requires SweptTo(d, s, front, live) && WatchersFrom(d, s, front, live)
    requires live(d.rows[id]).Dead?
    requires var event := LostEvent(id, live(d.rows[id]).evidence);
             next.events == s.events + [event] && next.d.log == s.d.log + [event]
    requires next.d.rows == s.d.rows[id := SweptRow(d, id, true, live)]
    requires next.d.terminated == s.d.terminated + {id} && next.d.watchers == s.d.watchers - {id}
    ensures SweptTo(d, next, front + [id], live) && WatchersFrom(d, next, front + [id], live)
  {
    var ids := front + [id];
    assert ids[..|ids| - 1] == front && ids[|ids| - 1] == id;
    forall x | x in d.rows
      ensures next.d.rows[x] == SweptRow(d, x, x in ids, live)
    {
      assert x in ids <==> x in front || x == id;
    }
  }

  /** STOPPED. A sweep that does not complete has done exactly the rows before the one that
      stopped it, and that row only stopped it. */
  lemma {:induction false} StoppedSweep(
    d: Daemon, ids: seq<SessionId>, live: Lifecycle -> Liveness, watch: SessionId -> bool) returns (n: nat)
    requires SweepReady(d) && Fresh(d, ids) && !Sweep(d, RowsAt(d.rows, ids), live, watch).completed
    ensures n < |ids| && Fresh(d, ids[..n])
    ensures var s, done := Sweep(d, RowsAt(d.rows, ids), live, watch), Sweep(d, RowsAt(d.rows, ids[..n]), live, watch);
            && done.completed && s.d == done.d && SweptTo(d, done, ids[..n], live)
            && (live(d.rows[ids[n]]) == Unknown
                || (live(d.rows[ids[n]]).Alive? && ids[n] !in d.watchers && !watch(ids[n])))
  {
    var front, id := ids[..|ids| - 1], ids[|ids| - 1];
    assert ids == front + [id];
    FreshFront(d, ids);
    SweepLast(d, ids, live, watch);
    SweepReaches(d, front, live, watch);
    var s := Sweep(d, RowsAt(d.rows, front), live, watch);
    if s.completed {
      n := |ids| - 1;
      assert RunningReady(d, id);
      VisitOne(d, s, d.rows[id], live(d.rows[id]), watch(id));
    } else {
      n := StoppedSweep(d, front, live, watch);
      assert front[..n] == ids[..n] && front[n] == ids[n];
    }
  }

  /** SWEEP. A sweep completes exactly when no Running row's liveness is unknown and every
      living one has or gets a watcher; it then marks exactly the dead Running rows Lost,
      with one Lost event each, leaves every other row alone, and has every living Running
      session watched. */
  lemma SweepIsExact(d: Daemon, ids: seq<SessionId>, live: Lifecycle -> Liveness, watch: SessionId -> bool)
    requires SweepReady(d) && Enumerates(d.rows, ids)
    ensures var s := Sweep(d, RowsAt(d.rows, ids), live, watch);
            && (s.completed <==> NothingStops(d, ids, live, watch))
            && (s.completed ==>
                 && (forall id :: id in s.d.rows <==> id in d.rows)
                 && (forall id :: id in d.rows ==> s.d.rows[id] == SweptRow(d, id, true, live))
                 && s.events == LostEvents(d, ids, live) && s.d.log == d.log + s.events
                 && (forall id :: id in ids && live(d.rows[id]).Alive? ==> id in s.d.watchers))
  {
    SweepReaches(d, ids, live, watch);
  }

  /** PID REUSE, END TO END. A completed sweep turns a Running host session whose pid is
      alive into a loss by reuse exactly when the start ticks differ, and otherwise leaves
      its row alone. */
  lemma SweepDetectsReuse(
    d: Daemon, ids: seq<SessionId>, host: Lifecycle -> Probe, container: Lifecycle -> Option<bool>,
    watch: SessionId -> bool, id: SessionId, boot: int, hz: int, valid: int -> bool, stored: nat, current: nat)
    requires SweepReady(d) && Enumerates(d.rows, ids)
    requires id in d.rows && d.rows[id].state.Running? && d.rows[id].isolation.Host? && host(d.rows[id]).alive
    requires 0 < hz <= StartTime.NANOS
    requires StartTime.FromTicks(boot, stored, hz, valid).Converted?
    requires StartTime.FromTicks(boot, current, hz, valid).Converted?
    requires d.rows[id].startTime == Some(StartTime.FromTicks(boot, stored, hz, valid).time)
    requires host(d.rows[id]).start == Known(StartTime.FromTicks(boot, current, hz, valid).time)
    requires Sweep(d, RowsAt(d.rows, ids), l => RuntimeLiveness(l, host, container), watch).completed
    ensures var s := Sweep(d, RowsAt(d.rows, ids), l => RuntimeLiveness(l, host, container), watch);
            id in s.d.rows && s.d.rows[id]
            == if stored == current then d.rows[id]
               else Stored(d.rows[id].(state := LifecycleState.Lost(PidReuseDetected)))
  {
    assert RunningReady(d, id);
    ReuseDetectedIffTicksDiffer(d.rows[id], host(d.rows[id]), boot, hz, valid, stored, current);
    SweepIsExact(d, ids, l => RuntimeLiveness(l, host, container), watch);
  }

  /** One Lost event for a dead Running session, none for any other. */
  lemma {:induction false} OneEventPerLoss(d: Daemon, ids: seq<SessionId>, live: Lifecycle -> Liveness, id: SessionId)
    requires Fresh(d, ids)
    ensures EventsFor(LostEvents(d, ids, live), id)
         == if id in ids && live(d.rows[id]).Dead? then [LostEvent(id, live(d.rows[id]).evidence)] else []
  {
    if ids != [] {
      var front, last := ids[..|ids| - 1], ids[|ids| - 1];
      FreshFront(d, ids);
      OneEventPerLoss(d, front, live, id);
      if live(d.rows[last]).Dead? {
        EventsForPush(LostEvents(d, front, live), LostEvent(last, live(d.rows[last]).evidence), id);
      } else {
        assert LostEvents(d, front, live) + [] == LostEvents(d, front, live);
      }
    }
  }

  /** The session is stored lost with this evidence, and has one Lost event of the sweep. */
  predicate LostBySweep(d: Daemon, s: Swept, id: SessionId, evidence: LostEvidence)
    requires id in d.rows
  {
    && id in s.d.rows
    && s.d.rows[id] == d.rows[id].(state := LifecycleState.Lost(evidence), logAvailability := None)
    && EventsFor(s.events, id) == [LostEvent(id, evidence)]
  }

  /** The session's row is as it was, and the sweep logs nothing of it. */
  predicate LeftBySweep(d: Daemon, s: Swept, id: SessionId)
    requires id in d.rows
  {
    id in s.d.rows && s.d.rows[id] == d.rows[id] && EventsFor(s.events, id) == []
  }

  function SweepAll(
    d: Daemon, ids: seq<SessionId>, host: Lifecycle -> Probe, container: Lifecycle -> Option<bool>,
    watch: SessionId -> bool): Swept
    requires forall id :: id in ids ==> id in d.rows
  {
    Sweep(d, RowsAt(d.rows, ids), l => RuntimeLiveness(l, host, container), watch)
  }

  lemma SweepEvents(
    d: Daemon, ids: seq<SessionId>, live: Lifecycle -> Liveness, watch: SessionId -> bool, id: SessionId)
    requires SweepReady(d) && Enumerates(d.rows, ids) && id in d.rows
    requires Sweep(d, RowsAt(d.rows, ids), live, watch).completed
    ensures var s := Sweep(d, RowsAt(d.rows, ids), live, watch);
            && (d.rows[id].state.Running? ==> live(d.rows[id]) != Unknown)
            && (if d.rows[id].state.Running? && live(d.rows[id]).Dead?
                then LostBySweep(d, s, id, live(d.rows[id]).evidence) else LeftBySweep(d, s, id))
  {
    SweepIsExact(d, ids, live, watch);
    OneEventPerLoss(d, ids, live, id);
  }

  /** HOST ROWS. A completed sweep declares a Running host session lost exactly when its pid
      does not answer, is gone or answers no more on the second look, or when its start time
      is another one; then with that evidence and one event. */
  lemma SweepJudgesHost(
    d: Daemon, ids: seq<SessionId>, host: Lifecycle -> Probe, container: Lifecycle -> Option<bool>,
    watch: SessionId -> bool, id: SessionId)
    requires SweepReady(d) && Enumerates(d.rows, ids) && SweepAll(d, ids, host, container, watch).completed
    requires id in d.rows && d.rows[id].state.Running? && d.rows[id].isolation.Host?
    ensures var s, p := SweepAll(d, ids, host, container, watch), host(d.rows[id]);
            && d.rows[id].startTime.Some?
            && (!p.alive ==> LostBySweep(d, s, id, PidNotAlive))
            && (p.alive && p.start.Gone? ==> LostBySweep(d, s, id, PidNotAlive))
            && (p.alive && (p.start.Unsupported? || p.start.ProbeFailed?) && !p.stillAlive ==>
                  LostBySweep(d, s, id, PidNotAlive))
            && (p.alive && p.start.Unsupported? && p.stillAlive ==> LeftBySweep(d, s, id))
            && (p.alive && p.start.ProbeFailed? ==> !p.stillAlive)
            && (p.alive && p.start.Known? && p.start.time != d.rows[id].startTime.value ==>
                  LostBySweep(d, s, id, PidReuseDetected))
            && (p.alive && p.start.Known? && p.start.time == d.rows[id].startTime.value ==> LeftBySweep(d, s, id))
  {
    assert RunningReady(d, id);
    SweepEvents(d, ids, l => RuntimeLiveness(l, host, container), watch, id);
  }

  /** DOCKER AND OTHER ROWS. A Running Docker session is lost exactly when its container is
      known not to run, whatever its pid; a row that is not Running is left alone. */
  lemma SweepJudgesOthers(
    d: Daemon, ids: seq<SessionId>, host: Lifecycle -> Probe, container: Lifecycle -> Option<bool>,
    watch: SessionId -> bool, id: SessionId)
    requires SweepReady(d) && Enumerates(d.rows, ids) && SweepAll(d, ids, host, container, watch).completed
    requires id in d.rows && !(d.rows[id].state.Running? && d.rows[id].isolation.Host?)
    ensures var s := SweepAll(d, ids, host, container, watch);
            if d.rows[id].state.Running? then
              && container(d.rows[id]).Some?
              && if container(d.rows[id]) == Some(false) then LostBySweep(d, s, id, PidNotAlive)
                 else LeftBySweep(d, s, id)
            else LeftBySweep(d, s, id)
  {
    SweepEvents(d, ids, l => RuntimeLiveness(l, host, container), watch, id);
  }

  /** A liveness question without an answer: a living pid whose start time could not be
      read, or a container that could not be inspected. */
  predicate Unanswered(l: Lifecycle, p: Probe, running: Option<bool>) {
    if l.isolation.Host? then p.alive && p.start.ProbeFailed? && p.stillAlive else running.None?
  }

  /** Only an unanswered question or a watcher that cannot start stops a sweep. */
  lemma SweepCompletesIff(
    d: Daemon, ids: seq<SessionId>, host: Lifecycle -> Probe, container: Lifecycle -> Option<bool>)
    requires SweepReady(d) && Enumerates(d.rows, ids)
    ensures SweepAll(d, ids, host, container, _ => true).completed
       <==> forall id :: id in ids ==> !Unanswered(d.rows[id], host(d.rows[id]), container(d.rows[id]))
  {
    var live := l => RuntimeLiveness(l, host, container);
    SweepIsExact(d, ids, live, _ => true);
    forall id | id in ids
      ensures live(d.rows[id]) == Unknown <==> Unanswered(d.rows[id], host(d.rows[id]), container(d.rows[id]))
    {
      assert RunningReady(d, id);
    }
  }

  lemma {:induction false} NoneDeadNoEvents(d: Daemon, ids: seq<SessionId>, live: Lifecycle -> Liveness)
    requires Fresh(d, ids)
    requires forall id :: id in ids ==> !live(d.rows[id]).Dead?
    ensures LostEvents(d, ids, live) == []
  {
    if ids != [] {
      FreshFront(d, ids);
      NoneDeadNoEvents(d, ids[..|ids| - 1], live);
    }
  }

  lemma SweptIsReady(d: Daemon, s: Swept, ids: seq<SessionId>, live: Lifecycle -> Liveness)
    requires SweepReady(d) && Enumerates(d.rows, ids) && SweptTo(d, s, ids, live)
    ensures SweepReady(s.d)
    ensures forall id :: id in s.d.rows && s.d.rows[id].state.Running? ==>
              id in ids && s.d.rows[id] == d.rows[id] && !live(s.d.rows[id]).Dead?
  {
    forall id
      ensures RunningReady(s.d, id)
    {
      assert RunningReady(d, id);
    }
  }

  /** A sweep that finds every Running session alive and watched completes in silence. */
  lemma QuietSweep(d: Daemon, ids: seq<SessionId>, live: Lifecycle -> Liveness, watch: SessionId -> bool)
    requires SweepReady(d) && Enumerates(d.rows, ids)
    requires forall id :: id in ids ==> live(d.rows[id]).Alive? && id in d.watchers
    ensures var s := Sweep(d, RowsAt(d.rows, ids), live, watch);
            s.completed && s.events == [] && s.d.rows == d.rows && s.d.log == d.log
  {
    SweepReaches(d, ids, live, watch);
    NoneDeadNoEvents(d, ids, live);
    var s := Sweep(d, RowsAt(d.rows, ids), live, watch);
    assert forall id :: id in d.rows ==> s.d.rows[id] == d.rows[id];
    assert s.d.rows == d.rows;
  }

  /** IDEMPOTENT. Under the same liveness answers a second sweep always completes, emits
      nothing and changes no row, in whatever order the rows come and even if no further
      exit watcher could be started. */
  lemma SecondSweepIsQuiet(
    d: Daemon, ids: seq<SessionId>, again: seq<SessionId>, live: Lifecycle -> Liveness,
    watch: SessionId -> bool, watchAgain: SessionId -> bool)
    requires SweepReady(d) && Enumerates(d.rows, ids)
    requires Sweep(d, RowsAt(d.rows, ids), live, watch).completed
    requires Enumerates(Sweep(d, RowsAt(d.rows, ids), live, watch).d.rows, again)
    ensures var first := Sweep(d, RowsAt(d.rows, ids), live, watch);
            var second := Sweep(first.d, RowsAt(first.d.rows, again), live, watchAgain);
            second.completed && second.events == [] && second.d.rows == first.d.rows && second.d.log == first.d.log
  {
    SweepReaches(d, ids, live, watch);
    var first := Sweep(d, RowsAt(d.rows, ids), live, watch);
    SweptIsReady(d, first, ids, live);
    forall id | id in again
      ensures live(first.d.rows[id]).Alive? && id in first.d.watchers
    {
      assert id in ids && first.d.rows[id] == d.rows[id];
    }
    QuietSweep(first.d, again, live, watchAgain);
  }

  // ---------- Deadlines ----------

  /** The `n`-th value `advance_deadline` tries. */
  function Grid(deadline: int, interval: nat, n: nat): int { deadline + n * interval }

  /** The loop ends exactly when the interval is positive or the deadline already lies
      ahead: a zero interval with a passed deadline spins forever. */
  lemma AdvanceTerminatesIff(deadline: int, interval: nat, now: int)
    ensures (exists n: nat :: n >= 1 && Grid(deadline, interval, n) > now) <==> interval > 0 || deadline > now
  {
    if deadline > now {
      assert Grid(deadline, interval, 1) > now;
    } else if interval > 0 {
      var n := now - deadline + 1;
      assert n * interval >= n * 1;
      assert Grid(deadline, interval, n) > now;
    } else {
      assert forall n: nat :: Grid(deadline, 0, n) == deadline;
    }
  }

  /** `advance_deadline`: the least later point of the deadline's grid after `now`. */
  method AdvanceDeadline(deadline: int, interval: nat, now: int) returns (r: int, ghost n: nat)
    requires interval > 0 || deadline > now
    ensures n >= 1 && r == Grid(deadline, interval, n) > now
    ensures forall k: nat :: 1 <= k < n ==> Grid(deadline, interval, k) <= now
    ensures deadline <= now ==> r <= now + interval
  {
    r := deadline + interval;
    n := 1;
    while r <= now
      invariant n >= 1 && r == Grid(deadline, interval, n)
      invariant forall k: nat :: 1 <= k < n ==> Grid(deadline, interval, k) <= now
      invariant deadline <= now ==> r <= now + interval
      decreases now - r
    {
      assert (n + 1) * interval == n * interval + interval;
      r := r + interval;
      n := n + 1;
    }
  }

  /** One wake-up of the periodic task: the monotonic and the wall clock. */
  datatype Tick = Tick(now: int, wall: int)

  /** One turn of the loop: the next deadline, and whether the turn sweeps. */
  datatype Turn = Turn(deadline: int, sweeps: bool)

  /** What one turn does, given the deadline and the wall clock the turn before left. */
  ghost predicate TurnOk(before: int, lastWall: int, t: Tick, turn: Turn, interval: nat, gap: int) {
    && t.now < turn.deadline <= t.now + interval
    && (turn.sweeps <==> t.now >= before || t.wall - lastWall > gap)
    && (!turn.sweeps ==> turn.deadline == before)
    && (turn.sweeps && t.now < before ==> turn.deadline == t.now + interval)
    && (t.now >= before ==> exists n: nat ::
          && n >= 1 && turn.deadline == Grid(before, interval, n)
          && forall k: nat :: 1 <= k < n ==> Grid(before, interval, k) <= t.now)
  }

  function DeadlineBefore(start: int, interval: nat, turns: seq<Turn>, i: nat): int
    requires i <= |turns|
  {
    if i == 0 then start + interval else turns[i - 1].deadline
  }

  function WallBefore(startWall: int, ticks: seq<Tick>, i: nat): int
    requires i <= |ticks|
  {
    if i == 0 then startWall else ticks[i - 1].wall
  }

  function NowBefore(start: int, ticks: seq<Tick>, i: nat): int
    requires i <= |ticks|
  {
    if i == 0 then start else ticks[i - 1].now
  }

  predicate ClockRunsOn(start: int, ticks: seq<Tick>) {
    forall i: nat :: i < |ticks| ==> NowBefore(start, ticks, i) <= ticks[i].now
  }

  method TakeTurn(before: int, lastWall: int, t: Tick, interval: nat, gap: int) returns (turn: Turn)
    requires interval > 0 && before <= t.now + interval
    ensures TurnOk(before, lastWall, t, turn, interval, gap)
  {
    if t.now >= before {
      var next, n := AdvanceDeadline(before, interval, t.now);
      return Turn(next, true);
    }
    if t.wall - lastWall > gap {
      return Turn(t.now + interval, true);
    }
    return Turn(before, false);
  }

  /** Turn `i` of a run, judged against the turn before it. */
  ghost predicate TurnAt(
    start: int, startWall: int, ticks: seq<Tick>, turns: seq<Turn>, interval: nat, gap: int, i: nat)
  {
    i < |turns| <= |ticks| ==>
      TurnOk(DeadlineBefore(start, interval, turns, i), WallBefore(startWall, ticks, i),
             ticks[i], turns[i], interval, gap)
  }

  lemma TurnStays(
    start: int, startWall: int, ticks: seq<Tick>, turns: seq<Turn>, turn: Turn, interval: nat, gap: int, i: nat)
    requires i < |turns| < |ticks|
    requires TurnAt(start, startWall, ticks, turns, interval, gap, i)
    ensures TurnAt(start, startWall, ticks, turns + [turn], interval, gap, i)
  {
    assert (turns + [turn])[i] == turns[i];
    assert DeadlineBefore(start, interval, turns + [turn], i) == DeadlineBefore(start, interval, turns, i);
  }

  /** The periodic loop over the clock readings of its turns: after every turn the next
      deadline lies within one interval ahead of the reading; a turn sweeps exactly when
      its deadline has come or the machine slept through the gap threshold; and a passed
      deadline moves to the least later point of its own grid. */
  method RunPeriodic(start: int, startWall: int, ticks: seq<Tick>, interval: nat, gap: int)
    returns (turns: seq<Turn>)
    requires interval > 0 && ClockRunsOn(start, ticks)
    ensures |turns| == |ticks|
    ensures forall i: nat :: i < |ticks| ==> TurnAt(start, startWall, ticks, turns, interval, gap, i)
  {
    turns := [];
    for i := 0 to |ticks|
      invariant |turns| == i
      invariant DeadlineBefore(start, interval, turns, i) <= NowBefore(start, ticks, i) + interval
      invariant forall k: nat :: k < i ==> TurnAt(start, startWall, ticks, turns, interval, gap, k)
    {
      var before := DeadlineBefore(start, interval, turns, i);
      assert NowBefore(start, ticks, i) <= ticks[i].now;
      var turn := TakeTurn(before, WallBefore(startWall, ticks, i), ticks[i], interval, gap);
      forall k: nat | k < i
        ensures TurnAt(start, startWall, ticks, turns + [turn], interval, gap, k)
      {
        TurnStays(start, startWall, ticks, turns, turn, interval, gap, k);
      }
      assert DeadlineBefore(start, interval, turns + [turn], i) == before;
      turns := turns + [turn];
      assert turns[i] == turn;
      assert TurnAt(start, startWall, ticks, turns, interval, gap, i);
    }
  }
}
