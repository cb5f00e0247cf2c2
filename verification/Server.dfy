/** The daemon's mutable objects: the lifecycle table and the server state over it. */
module Server {
  import opened Strings
  import opened Lifecycles
  import opened Handlers

  class LifecycleStore {
    var rows: map<SessionId, Lifecycle>

    constructor (rows: map<SessionId, Lifecycle>)
      ensures this.rows == rows
    {
      this.rows := rows;
    }

    /** The primary key refuses a second row for the same session. */
    method InsertForking(l: Lifecycle) returns (ok: bool)
      modifies this
      ensures (rows, ok) == Handlers.InsertForking(old(rows), l)
    {
      if l.state != Forking || l.sessionId in rows {
        return false;
      }
      rows := rows[l.sessionId := Stored(l)];
      return true;
    }

    /** An update never creates a row. */
    method UpdateLifecycle(l: Lifecycle) returns (ok: bool)
      modifies this
      ensures (rows, ok) == UpdateRow(old(rows), l)
    {
      if l.sessionId !in rows {
        return false;
      }
      rows := rows[l.sessionId := Stored(l)];
      return true;
    }

    method Delete(id: SessionId)
      modifies this
      ensures rows == old(rows) - {id}
    {
      rows := rows - {id};
    }

    method Get(id: SessionId) returns (l: Option<Lifecycle>)
      ensures l == if id in rows then Some(rows[id]) else None
    {
      if id in rows {
        return Some(rows[id]);
      }
      return None;
    }

    /** Every Running row once, in an order the model leaves open. */
    method Running() returns (found: seq<SessionId>)
      ensures forall id :: id in found <==> id in rows && rows[id].state.Running?
      ensures forall i, j :: 0 <= i < j < |found| ==> found[i] != found[j]
    {
      found := [];
      var left := rows.Keys;
      while left != {}
        invariant left <= rows.Keys
        invariant forall id :: id in found <==> id in rows.Keys - left && rows[id].state.Running?
        invariant forall i, j :: 0 <= i < j < |found| ==> found[i] != found[j]
        decreases left
      {
        var id :| id in left;
        if rows[id].state.Running? {
          found := found + [id];
        }
        left := left - {id};
      }
    }
  }

  class ServerState {
    const store: LifecycleStore
    var log: seq<RuntimeEvent>
    var terminated: set<SessionId>
    var watchers: set<SessionId>
    var launches: map<SessionId, LaunchSpec>
    var senders: set<SessionId>

    ghost function State(): Daemon
      reads this, store
    {
      Daemon(store.rows, log, terminated, watchers, launches, senders)
    }

    /** A new daemon life over what the previous one stored. */
    constructor (store: LifecycleStore, log: seq<RuntimeEvent>)
      ensures this.store == store
      ensures State() == Daemon(store.rows, log, {}, {}, map[], {})
    {
      this.store := store;
      this.log := log;
      this.terminated := {};
      this.watchers := {};
      this.launches := map[];
      this.senders := {};
    }

    method BeginSpawn(req: SpawnRequest, launch: LaunchSpec, targetValid: bool) returns (reply: Reply)
      modifies this, store
      ensures (State(), reply) == Handlers.BeginSpawn(old(State()), req, launch, targetValid)
    {
      var present := store.Get(req.sessionId);
      if present.Some? {
        return Failed(SessionExists);
      }
      if !targetValid {
        return Failed(TargetRefused);
      }
      var cell := new LifecycleCell(NewForking(req.sessionId, req.runtime));
      cell.row := cell.row.(isolation := req.isolation);
      var inserted := store.InsertForking(cell.row);
      launches := launches[req.sessionId := launch];
      var previous := req.sessionId in senders;
      senders := senders + {req.sessionId};
      if previous {
        assert senders == old(senders);
        CancelSpawn(req.sessionId);
        return Failed(AlreadyPending);
      }
      return Ack;
    }

    method CancelSpawn(id: SessionId)
      modifies this, store
      ensures State() == Handlers.CancelSpawn(old(State()), id)
    {
      launches := launches - {id};
      senders := senders - {id};
      store.Delete(id);
    }

    method TakeLaunchSpec(id: SessionId) returns (reply: Reply)
      modifies this`launches
      ensures (State(), reply) == TakeLaunch(old(State()), id)
    {
      if id !in launches {
        return Failed(NoPendingLaunch);
      }
      reply := Handed(launches[id]);
      launches := launches - {id};
    }

    method CompleteShimReady(ready: ShimReady, stop: Stop) returns (reply: Reply)
      modifies this, store
      ensures (State(), reply) == Handlers.CompleteShimReady(old(State()), ready, stop)
    {
      if ready.sessionId in senders {
        senders := senders - {ready.sessionId};
        return Ack;
      }
      reply := RecordReconnectedReady(ready, stop);
    }

    method RecordReconnectedReady(ready: ShimReady, stop: Stop) returns (reply: Reply)
      modifies this, store
      ensures (State(), reply) == RecordReconnected(old(State()), ready, stop)
    {
      var read := store.Get(ready.sessionId);
      if read.None? {
        return Failed(SessionNotFound);
      }
      var cell := new LifecycleCell(read.value);
      match cell.row.state {
        case Forking =>
          var changed := cell.MarkRunning(ready);
          reply := Publish(cell.row, stop);
        case Running =>
          if stop != Completes {
            return Failed(Interrupted);
          }
          watchers := watchers + {cell.row.sessionId};
          return Silent;
        case _ =>
          return Failed(AlreadyTerminal);
      }
    }

    method RecordRunning(req: SpawnRequest, ready: ShimReady, stop: Stop) returns (reply: Reply)
      modifies this, store
      ensures (State(), reply) == Handlers.RecordRunning(old(State()), req, ready, stop)
    {
      var read := store.Get(req.sessionId);
      if read.None? {
        return Failed(SessionNotFound);
      }
      var cell := new LifecycleCell(read.value);
      if cell.row.runtime != req.runtime {
        return Failed(RuntimeMismatch);
      }
      var changed := cell.MarkRunning(ready);
      if !changed {
        return Failed(NotWaiting);
      }
      cell.row := cell.row.(tmuxPane := req.tmux);
      reply := Publish(cell.row, stop);
    }

    method Publish(l: Lifecycle, stop: Stop) returns (reply: Reply)
      modifies this, store
      ensures (State(), reply) == PublishRunning(old(State()), l, stop)
    {
      if stop == BeforeUpdate {
        return Failed(Interrupted);
      }
      var ok := store.UpdateLifecycle(l);
      var event := RunningEventOf(l);
      if !ok || event.None? || stop == AfterUpdate {
        return Failed(Interrupted);
      }
      watchers := watchers + {l.sessionId};
      if stop == BeforeAppend {
        return Failed(Interrupted);
      }
      log := log + [event.value];
      return Emitted(event.value);
    }

    method RecordExited(id: SessionId, exit: RuntimeExit, evidence: TerminationEvidence, stop: Stop)
      returns (reply: Reply)
      modifies this, store
      ensures (State(), reply) == Handlers.RecordExited(old(State()), id, exit, evidence, stop)
    {
      var read := store.Get(id);
      if read.None? {
        return Failed(SessionNotFound);
      }
      var cell := new LifecycleCell(read.value);
      var changed := cell.MarkExited(exit);
      if !changed {
        return Silent;
      }
      reply := FinishTerminal(cell.row, evidence, stop);
    }

    method RecordLost(id: SessionId, lost: LostEvidence, stop: Stop) returns (reply: Reply)
      modifies this, store
      ensures (State(), reply) == Handlers.RecordLost(old(State()), id, lost, stop)
    {
      var read := store.Get(id);
      if read.None? {
        return Failed(SessionNotFound);
      }
      var cell := new LifecycleCell(read.value);
      var changed := cell.MarkLost(lost);
      if !changed {
        return Silent;
      }
      reply := FinishTerminal(cell.row, LostBy(lost), stop);
    }

    /** What `start_exit_watcher` runs once the process is gone. */
    method RecordWatcherExit(id: SessionId, shimAlive: bool, stop: Stop) returns (reply: Reply)
      modifies this, store
      ensures (State(), reply) == Handlers.RecordWatcherExit(old(State()), id, shimAlive, stop)
    {
      var read := store.Get(id);
      if read.Some? && read.value.Terminal() {
        return Silent;
      }
      if read.None? || read.value.shimPid.None? {
        return Failed(MissingShimPid);
      }
      if shimAlive {
        reply := RecordExited(id, RuntimeExit(None, None), ProcessExit, stop);
      } else {
        reply := RecordLost(id, ShimDiedBeforeReport, stop);
      }
    }

    method FinishTerminal(l: Lifecycle, evidence: TerminationEvidence, stop: Stop) returns (reply: Reply)
      modifies this, store
      ensures (State(), reply) == Handlers.FinishTerminal(old(State()), l, evidence, stop)
    {
      if stop == BeforeUpdate {
        return Failed(Interrupted);
      }
      var ok := store.UpdateLifecycle(l);
      if !ok || stop == AfterUpdate {
        return Failed(Interrupted);
      }
      watchers := watchers - {l.sessionId};
      if l.sessionId in terminated {
        return Silent;
      }
      terminated := terminated + {l.sessionId};
      if stop == BeforeAppend {
        return Failed(Interrupted);
      }
      var event := TerminalEventOf(l, evidence);
      log := log + [event];
      return Emitted(event);
    }
  }
}
