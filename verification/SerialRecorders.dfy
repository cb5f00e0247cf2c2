/** The recorders of `Recorders`, taken one after the other, are the handlers of `Handlers`. */
module SerialRecorders {
  import opened Lifecycles
  import H = Handlers
  import R = Recorders

  /** One recorder from its submission to where it stops; the set insert belongs to the
      terminal recorders only. */
  function SerialActs(t: R.TaskId, job: R.Job, stop: H.Stop): seq<R.Action> {
    var read := [R.Submit(t, job)] + [R.Get(t)];
    match stop
    case BeforeUpdate => read
    case AfterUpdate => read + [R.Update(t)]
    case BeforeAppend => read + [R.Update(t)] + [R.Insert(t)]
    case Completes => read + [R.Update(t)] + [R.Insert(t)] + [R.Append(t, true)]
  }

  /** The handler a recorder task is part of. */
  function Handle(d: H.Daemon, job: R.Job, stop: H.Stop): (H.Daemon, H.Reply) {
    match job
    case RecordExit(id, exit, evidence) => H.RecordExited(d, id, exit, evidence, stop)
    case RecordLoss(id, lost) => H.RecordLost(d, id, lost, stop)
    case RecordReady(_, ready) => H.RecordReconnected(d, ready, stop)
    case RecordSpawn(_, req, ready) => H.RecordRunning(d, req, ready, stop)
  }

  /** What the two models share: stored rows, terminated set, the log of all lives. */
  predicate Same(s: R.World, d: H.Daemon) {
    s.rows == d.rows && s.terminated == d.terminated && R.Whole(s) == d.log
  }

  /** A stored row carries no log availability and its own key. */
  predicate StoredRow(rows: map<SessionId, Lifecycle>, id: SessionId) {
    id in rows ==> rows[id].sessionId == id && rows[id] == H.Stored(rows[id])
  }

  predicate JobOk(job: R.Job) {
    && (job.RecordReady? ==> job.ready.sessionId == job.id)
    && (job.RecordSpawn? ==> job.req.sessionId == job.id)
  }

  /** The task's effect in each of its stages, as one state. */
  function After(s: R.World, t: R.TaskId, job: R.Job, stop: H.Stop): R.World {
    var s1 := R.Apply(R.Apply(s, R.Submit(t, job)), R.Get(t));
    var s2 := R.Apply(s1, R.Update(t));
    var s3 := R.Apply(s2, R.Insert(t));
    match stop
    case BeforeUpdate => s1
    case AfterUpdate => s2
    case BeforeAppend => s3
    case Completes => R.Apply(s3, R.Append(t, true))
  }

  lemma ExecMore(rows: map<SessionId, Lifecycle>, acts: seq<R.Action>, more: seq<R.Action>, a: R.Action)
    ensures R.Exec(rows, acts + (more + [a])) == R.Apply(R.Exec(rows, acts + more), a)
  {
    R.ExecPush(rows, acts + more, a);
    assert acts + (more + [a]) == acts + more + [a];
  }

  lemma ExecSerial(rows: map<SessionId, Lifecycle>, acts: seq<R.Action>, t: R.TaskId, job: R.Job, stop: H.Stop)
    ensures R.Exec(rows, acts + SerialActs(t, job, stop)) == After(R.Exec(rows, acts), t, job, stop)
  {
    var l1 := [R.Submit(t, job)];
    var l2 := l1 + [R.Get(t)];
    var l3 := l2 + [R.Update(t)];
    var l4 := l3 + [R.Insert(t)];
    R.ExecPush(rows, acts, R.Submit(t, job));
    ExecMore(rows, acts, l1, R.Get(t));
    ExecMore(rows, acts, l2, R.Update(t));
    ExecMore(rows, acts, l3, R.Insert(t));
    ExecMore(rows, acts, l4, R.Append(t, true));
  }

  lemma ReadStage(s: R.World, t: R.TaskId, job: R.Job)
    requires t !in s.tasks
    ensures var s1 := After(s, t, job, H.BeforeUpdate);
            && s1.rows == s.rows && s1.terminated == s.terminated && R.Whole(s1) == R.Whole(s) && t in s1.tasks
            && s1.tasks[t] == if job.id in s.rows && R.MarkFor(job, s.rows[job.id]).1
                              then R.Got(job, s.rows[job.id], R.MarkFor(job, s.rows[job.id]).0) else R.Done
  {
  }

  lemma DoneStays(s: R.World, t: R.TaskId)
    requires t in s.tasks && s.tasks[t].Done?
    ensures R.Apply(s, R.Update(t)) == R.Apply(s, R.Insert(t)) == R.Apply(s, R.Append(t, true)) == s
  {
  }

  lemma WriteStage(s1: R.World, t: R.TaskId, job: R.Job, copy: Lifecycle)
    requires t in s1.tasks && s1.tasks[t].Got? && s1.tasks[t].job == job && s1.tasks[t].copy == copy
    requires job.id in s1.rows
    ensures var s2 := R.Apply(s1, R.Update(t));
            && s2.rows == s1.rows[job.id := copy] && s2.terminated == s1.terminated && R.Whole(s2) == R.Whole(s1)
            && t in s2.tasks && s2.tasks[t] == R.Updated(job, copy)
  {
  }

  /** From the written row on, a terminal recorder is the rest of `finish_terminal`. */
  lemma FinishStages(s2: R.World, d: H.Daemon, t: R.TaskId, job: R.Job, copy: Lifecycle, stop: H.Stop)
    requires t in s2.tasks && s2.tasks[t] == R.Updated(job, copy) && !job.Ready() && copy.sessionId == job.id
    requires job.id in d.rows && H.Stored(copy) == copy && s2.rows == d.rows[job.id := copy]
    requires s2.terminated == d.terminated && R.Whole(s2) == d.log && stop != H.BeforeUpdate
    ensures var s3 := R.Apply(s2, R.Insert(t));
            var after := match stop
                         case AfterUpdate => s2
                         case BeforeAppend => s3
                         case _ => R.Apply(s3, R.Append(t, true));
            Same(after, H.FinishTerminal(d, copy, R.EvidenceOf(job), stop).0)
  {
    var s3 := R.Apply(s2, R.Insert(t));
    R.WholeStep(s2, R.Insert(t));
    R.WholeStep(s3, R.Append(t, true));
    if job.id in d.terminated {
      DoneStays(s3, t);
    }
  }

  lemma TerminalStages(s: R.World, d: H.Daemon, t: R.TaskId, job: R.Job, stop: H.Stop)
    requires Same(s, d) && t !in s.tasks && StoredRow(s.rows, job.id) && !job.Ready()
    ensures Same(After(s, t, job, stop), Handle(d, job, stop).0)
  {
    ReadStage(s, t, job);
    var s1 := After(s, t, job, H.BeforeUpdate);
    if s1.tasks[t].Done? {
      DoneStays(s1, t);
    } else {
      var copy := s1.tasks[t].copy;
      assert H.Stored(copy) == copy && copy.sessionId == job.id;
      assert Handle(d, job, stop) == H.FinishTerminal(d, copy, R.EvidenceOf(job), stop);
      if stop != H.BeforeUpdate {
        WriteStage(s1, t, job, copy);
        FinishStages(R.Apply(s1, R.Update(t)), d, t, job, copy, stop);
      }
    }
  }

  /** From the written row on, a ready recorder is the rest of publishing it. */
  lemma PublishStages(s2: R.World, d: H.Daemon, t: R.TaskId, job: R.Job, copy: Lifecycle, stop: H.Stop)
    requires t in s2.tasks && s2.tasks[t] == R.Updated(job, copy) && job.Ready() && copy.sessionId == job.id
    requires job.id in d.rows && H.Stored(copy) == copy && s2.rows == d.rows[job.id := copy]
    requires s2.terminated == d.terminated && R.Whole(s2) == d.log && stop != H.BeforeUpdate
    ensures var s3 := R.Apply(s2, R.Insert(t));
            var after := match stop
                         case AfterUpdate => s2
                         case BeforeAppend => s3
                         case _ => R.Apply(s3, R.Append(t, true));
            Same(after, H.PublishRunning(d, copy, stop).0)
  {
    R.WholeStep(s2, R.Append(t, true));
  }

  lemma ReadyStages(s: R.World, d: H.Daemon, t: R.TaskId, job: R.Job, stop: H.Stop)
    requires Same(s, d) && t !in s.tasks && StoredRow(s.rows, job.id) && job.Ready() && JobOk(job)
    ensures Same(After(s, t, job, stop), Handle(d, job, stop).0)
  {
    ReadStage(s, t, job);
    var s1 := After(s, t, job, H.BeforeUpdate);
    if s1.tasks[t].Done? {
      DoneStays(s1, t);
    } else {
      var copy := s1.tasks[t].copy;
      assert H.Stored(copy) == copy && copy.sessionId == job.id;
      assert Handle(d, job, stop) == H.PublishRunning(d, copy, stop);
      if stop != H.BeforeUpdate {
        WriteStage(s1, t, job, copy);
        PublishStages(R.Apply(s1, R.Update(t)), d, t, job, copy, stop);
      }
    }
  }

  /** SERIAL. From any point of any interleaving, a new recorder run on its own, to its
      end or to a stop, does to rows, set and log what the handler does. */
  lemma SerialIsHandler(
    rows: map<SessionId, Lifecycle>, acts: seq<R.Action>, d: H.Daemon, t: R.TaskId, job: R.Job, stop: H.Stop)
    requires Same(R.Exec(rows, acts), d) && t !in R.Exec(rows, acts).tasks
    requires StoredRow(d.rows, job.id) && JobOk(job)
    ensures Same(R.Exec(rows, acts + SerialActs(t, job, stop)), Handle(d, job, stop).0)
  {
    ExecSerial(rows, acts, t, job, stop);
    if job.Ready() {
      ReadyStages(R.Exec(rows, acts), d, t, job, stop);
    } else {
      TerminalStages(R.Exec(rows, acts), d, t, job, stop);
    }
  }

  /** And a restart of the one is a restart of the other. */
  lemma RestartIsRestart(s: R.World, d: H.Daemon)
    requires Same(s, d)
    ensures Same(R.Apply(s, R.Restart), H.Restart(d))
  {
    R.WholeStep(s, R.Restart);
  }
}
