/** What the invariants of the lifecycle mean for an operator and for a client. */
module LifecycleTheorems {
  import opened Options
  import opened ConnectionRows
  import opened Lifecycle
  import opened LifecycleInvariant
  import opened LifecycleEngines

  /** The job that takes a connection out of a transitional state. */
  function Awaited(c: Connection): Kind
    requires Underway(c)
  {
    if c.archived then Revoke else if c.status.Provisioning? then Activate else Rotate
  }

  /** No connection gets stuck: in every reachable state, after any failures and stops, a connection
      on its way somewhere has exactly one open job, of the kind and generation that take it there. */
  lemma NothingStuck(start: State, steps: seq<Step>, id: Id)
    requires Initial(start) && Run(start, steps).Some?
    requires id in Run(start, steps).value.rows.connections
    requires Underway(Run(start, steps).value.rows.connections[id])
    ensures var r := Run(start, steps).value.rows;
      exists j :: 0 <= j < |r.jobs| && r.jobs[j].connection == id && r.jobs[j].Open()
        && r.jobs[j].kind == Awaited(r.connections[id]) && r.jobs[j].generation == r.connections[id].generation
        && forall k | 0 <= k < |r.jobs| && r.jobs[k].connection == id && r.jobs[k].Open() :: k == j
  {
    RunGood(start, steps);
    var r := Run(start, steps).value.rows;
    assert HasOpen(r.jobs, id);
    var j :| 0 <= j < |r.jobs| && r.jobs[j].connection == id && r.jobs[j].Open();
    assert GoodJob(r, j) && GoodConnection(r, id);
  }

  /** An archived connection never comes back, and generations only grow. */
  ghost predicate Onward(r: Rows, r': Rows) {
    forall id | id in r.connections ::
      && id in r'.connections
      && r.connections[id].generation <= r'.connections[id].generation
      && (r.connections[id].archived ==> r'.connections[id].archived)
  }

  lemma OnwardRequest(r: Rows, id: Id)
    ensures Create(r, id).Some? ==> Onward(r, Create(r, id).value)
    ensures PrepareRotation(r, id).Some? ==> Onward(r, PrepareRotation(r, id).value)
    ensures PrepareSuspend(r, id).Some? ==> Onward(r, PrepareSuspend(r, id).value)
    ensures PrepareResume(r, id).Some? ==> Onward(r, PrepareResume(r, id).value)
    ensures PrepareArchive(r, id).Some? ==> Onward(r, PrepareArchive(r, id).value)
  {
  }

  lemma OnwardComplete(r: Rows, job: Job)
    ensures Complete(r, job).Some? ==> Onward(r, Complete(r, job).value)
  {
  }

  lemma OnwardTail(s: State)
    requires Subject(s).Some?
    ensures Onward(s.rows, Tail(s))
  {
    OnwardComplete(s.rows, s.rows.jobs[s.queue[0].job]);
  }

  lemma OnwardStep(s: State, step: Step)
    requires Apply(s, step).Some?
    ensures Onward(s.rows, Apply(s, step).value.rows)
  {
    match step
    case RequestCreate(id) => OnwardRequest(s.rows, id);
    case RequestRotate(id) => OnwardRequest(s.rows, id);
    case RequestSuspend(id) => OnwardRequest(s.rows, id);
    case RequestResume(id) => OnwardRequest(s.rows, id);
    case RequestArchive(id) => OnwardRequest(s.rows, id);
    case Finish => OnwardTail(s);
    case FinishThenStop => OnwardComplete(s.rows, s.rows.jobs[s.queue[0].job]);
    case _ => SameConnections(s, step);
  }

  lemma SameConnections(s: State, step: Step)
    requires Apply(s, step).Some?
    requires step.RequestRetry? || step.ClaimJob? || step.RequestReconcile? || step.Start? || step.CallSucceeds?
             || step.CallFails? || step.Stop?
    ensures Apply(s, step).value.rows.connections == s.rows.connections
  {
    match step
    case Start(hot) => assert Started(s, hot).value.rows.connections == s.rows.connections;
    case _ =>
  }

  lemma {:induction false} OnwardRun(start: State, steps: seq<Step>, n: nat)
    requires Initial(start) && Run(start, steps).Some? && n <= |steps|
    ensures Run(start, steps[..n]).Some?
    ensures Onward(Run(start, steps[..n]).value.rows, Run(start, steps).value.rows)
    decreases |steps|
  {
    if n < |steps| {
      var before := steps[..|steps| - 1];
      assert before[..n] == steps[..n];
      OnwardRun(start, before, n);
      OnwardStep(Run(start, before).value, steps[|steps| - 1]);
    } else {
      assert steps[..n] == steps;
    }
  }

  lemma LiveGenerations(r: Rows, id: Id, generation: nat)
    requires id in r.connections && GoodConnection(r, id)
    ensures LiveAt(r, id, generation) ==>
      var c := r.connections[id];
      if InUse(r, id, c.generation) then generation == c.generation else generation + 1 == c.generation
    ensures Granted(r, id).Some? ==> InUse(r, id, r.connections[id].generation)
  {
    var g := r.connections[id].generation;
    if LiveAt(r, id, generation) {
      assert 1 <= generation <= g;
      if InUse(r, id, g) {
        assert generation == g;
      } else if Reissuing(r, id, g) {
        assert generation == g - 1;
      }
    }
  }

  lemma NoStrangers(r: Rows, id: Id, generation: nat)
    requires GoodRows(r) && LiveAt(r, id, generation)
    ensures id in r.connections
  {
    assert (id, generation) in r.credentials;
  }

  /** In every reachable state exactly the current password of every usable connection is accepted,
      and no connection has two live generations. */
  lemma OnlyCurrentPasswords(start: State, steps: seq<Step>, id: Id, generation: nat, other: nat)
    requires Initial(start) && Run(start, steps).Some?
    ensures var r := Run(start, steps).value.rows;
      && (Accepted(r, id, generation) <==> Granted(r, id) == Some(generation))
      && (LiveAt(r, id, generation) && LiveAt(r, id, other) ==> other == generation)
  {
    RunGood(start, steps);
    var r := Run(start, steps).value.rows;
    if LiveAt(r, id, generation) {
      NoStrangers(r, id, generation);
    }
    if id in r.connections {
      assert GoodConnection(r, id);
      LiveGenerations(r, id, generation);
      LiveGenerations(r, id, other);
    }
  }

  /** In every reachable state a snapshot for the engines can be rendered: every connection it holds,
      other than the one the job is about, has credentials that are not revoked. */
  lemma SnapshotsRender(start: State, steps: seq<Step>, subject: Option<Id>, generation: Option<nat>, id: Id)
    requires Initial(start) && Run(start, steps).Some?
    ensures var r := Run(start, steps).value.rows; var load := Snapshot(r, subject, generation);
      id in load && subject != Some(id) ==> Usable(r, id, load[id])
  {
    RunGood(start, steps);
    var r := Run(start, steps).value.rows;
    if Granted(r, id).Some? {
      assert GoodConnection(r, id);
    }
  }

  /** A link belongs to one generation of one connection, and opens it when the stored token is of
      that generation and the connection is usable. */
  ghost predicate Opens(r: Rows, id: Id, generation: nat) {
    Granted(r, id).Some? && r.connections[id].link == Some(generation)
  }

  lemma OnlyCurrentLinks(start: State, steps: seq<Step>, id: Id, generation: nat)
    requires Initial(start) && Run(start, steps).Some?
    ensures var r := Run(start, steps).value.rows;
      Opens(r, id, generation) <==> Granted(r, id) == Some(generation)
  {
    RunGood(start, steps);
    var r := Run(start, steps).value.rows;
    if id in r.connections {
      assert GoodConnection(r, id);
    }
  }

  // ---------------------------------------------------------------- a job that runs again

  /** The effect of the job on the rows is there already. */
  ghost predicate EffectThere(r: Rows, job: Job) {
    && job.connection in r.connections
    && var c := r.connections[job.connection];
       match job.kind
       case Suspend => !c.archived
       case Resume => !c.archived && !c.suspended
       case Revoke => c.status.Archived? && forall g: nat | (job.connection, g) in r.credentials ::
         r.credentials[(job.connection, g)].Revoked?
       case _ => c.status.Active? && forall g: nat | (job.connection, g) in r.credentials ::
         if g == job.generation then !r.credentials[(job.connection, g)].Pending?
         else !r.credentials[(job.connection, g)].Live?
  }

  lemma EffectStays(r: Rows, job: Job)
    requires EffectThere(r, job)
    ensures Complete(r, job) == Some(r)
  {
    var r' := Complete(r, job).value;
    assert r'.connections == r.connections;
    assert r'.credentials == r.credentials by {
      forall k | k in r.credentials ensures r'.credentials[k] == r.credentials[k] {
        assert k == (k.0, k.1);
      }
    }
  }

  lemma EffectMade(r: Rows, job: Job)
    requires Complete(r, job).Some?
    ensures EffectThere(Complete(r, job).value, job)
  {
  }

  /** While the job is open, its effect is there and the only tasks of its connection are its own. */
  ghost predicate Repeatable(s: State, j: nat) {
    && j < |s.rows.jobs|
    && (s.rows.jobs[j].Open() ==>
          && EffectThere(s.rows, s.rows.jobs[j])
          && forall i | 0 <= i < |s.queue| && s.queue[i].Sync? && s.queue[i].job < |s.rows.jobs| ::
               s.rows.jobs[s.queue[i].job].connection == s.rows.jobs[j].connection ==> s.queue[i].job == j)
  }

  lemma EffectElsewhere(r: Rows, r': Rows, id: Id, job: Job)
    requires EffectThere(r, job) && OnlyConnection(r, r', id) && id != job.connection
    ensures EffectThere(r', job)
  {
  }

  /** A request that replaces the open job of its connection. */
  lemma RepeatableRequest(s: State, r': Rows, id: Id, job: Job, j: nat)
    requires Good(s) && Repeatable(s, j) && OnlyConnection(s.rows, r', id)
    requires r'.jobs == CancelOpen(s.rows.jobs, id) + [job]
    ensures Repeatable(s.(rows := r'), j)
  {
    QueuedKnown(s);
    if r'.jobs[j].Open() {
      EffectElsewhere(s.rows, r', id, s.rows.jobs[j]);
    }
  }

  lemma QueuedKnown(s: State)
    requires Good(s)
    ensures forall i | 0 <= i < |s.queue| && s.queue[i].Sync? :: s.queue[i].job < |s.rows.jobs|
  {
    forall i | 0 <= i < |s.queue| && s.queue[i].Sync? ensures s.queue[i].job < |s.rows.jobs| {
      assert GoodTask(s.rows, s.queue, i);
    }
  }

  /** Jobs change their status, but none is opened again. */
  lemma RepeatableStatus(s: State, s': State, j: nat)
    requires OneOpen(s.rows.jobs) && Repeatable(s, j) && |s'.rows.jobs| == |s.rows.jobs|
    requires forall i | 0 <= i < |s.queue| && s.queue[i].Sync? :: s.queue[i].job < |s.rows.jobs|
    requires s'.rows.connections == s.rows.connections && s'.rows.credentials == s.rows.credentials
    requires forall k | 0 <= k < |s.rows.jobs| ::
      && s'.rows.jobs[k].connection == s.rows.jobs[k].connection && s'.rows.jobs[k].kind == s.rows.jobs[k].kind
      && s'.rows.jobs[k].generation == s.rows.jobs[k].generation
      && (s'.rows.jobs[k].Open() ==> s.rows.jobs[k].Open())
    requires forall i | 0 <= i < |s'.queue| && s'.queue[i].Sync? ::
      s'.queue[i] in s.queue || (s'.queue[i].job < |s.rows.jobs| && s.rows.jobs[s'.queue[i].job].Open())
    ensures Repeatable(s', j)
  {
    forall i | 0 <= i < |s'.queue| && s'.queue[i].Sync? && s'.queue[i].job < |s'.rows.jobs| && s'.rows.jobs[j].Open()
               && s'.rows.jobs[s'.queue[i].job].connection == s'.rows.jobs[j].connection
      ensures s'.queue[i].job == j {
      if s'.queue[i] in s.queue {
        var k :| 0 <= k < |s.queue| && s.queue[k] == s'.queue[i];
      }
    }
  }

  /** The effect of the head's job keeps that of the job: it is the same, or about another connection. */
  lemma RepeatableEffect(s: State, j: nat)
    requires Good(s) && Repeatable(s, j) && Subject(s).Some?
    requires Complete(s.rows, s.rows.jobs[s.queue[0].job]).Some?
    ensures var r1 := Complete(s.rows, s.rows.jobs[s.queue[0].job]).value;
      r1.jobs == s.rows.jobs && Repeatable(s.(rows := r1), j)
  {
    var r, h := s.rows, s.queue[0].job;
    HeadCompletes(s);
    CompletedConnection(r, h);
    if r.jobs[j].Open() {
      if h == j {
        EffectStays(r, r.jobs[j]);
      } else {
        assert s.queue[0].Sync?;
        EffectElsewhere(r, Complete(r, r.jobs[h]).value, r.jobs[h].connection, r.jobs[j]);
      }
    }
  }

  lemma RepeatableFinish(s: State, j: nat)
    requires Good(s) && Repeatable(s, j) && Subject(s).Some?
    ensures Repeatable(Release(s, Tail(s)), j)
  {
    var r, h := s.rows, s.queue[0].job;
    QueuedKnown(s);
    if Complete(r, r.jobs[h]).Some? {
      RepeatableEffect(s, j);
      RepeatableStatus(s.(rows := Complete(r, r.jobs[h]).value), Release(s, Tail(s)), j);
    } else {
      RepeatableStatus(s, Release(s, Tail(s)), j);
    }
  }

  lemma RepeatableStop(s: State, j: nat)
    requires Good(s) && Repeatable(s, j) && Subject(s).Some?
    ensures var r := Complete(s.rows, s.rows.jobs[s.queue[0].job]);
      Repeatable(Restart(s, if r.Some? then r.value else s.rows), j)
  {
    var r := Complete(s.rows, s.rows.jobs[s.queue[0].job]);
    QueuedKnown(s);
    if r.Some? {
      RepeatableEffect(s, j);
      RepeatableStatus(s.(rows := r.value), Restart(s, r.value), j);
    } else {
      RepeatableStatus(s, Restart(s, s.rows), j);
    }
  }

  lemma RepeatableStep(s: State, step: Step, j: nat)
    requires Good(s) && Repeatable(s, j) && Apply(s, step).Some?
    ensures Repeatable(Apply(s, step).value, j)
  {
    match step
    case RequestCreate(id) =>
      NothingToCancel(s.rows.jobs, id);
      RepeatableRequest(s, Create(s.rows, id).value, id, NewJob(id, 1, Activate), j);
    case RequestRotate(id) =>
      RotationRequest(s.rows, id, NewJob(id, s.rows.connections[id].generation + 1, Rotate));
      RepeatableRequest(s, PrepareRotation(s.rows, id).value, id,
                        NewJob(id, s.rows.connections[id].generation + 1, Rotate), j);
    case RequestSuspend(id) =>
      if Suspended(s.rows, id) == PrepareSuspend(s.rows, id) {
        RepeatableRequest(s, PrepareSuspend(s.rows, id).value, id,
                          NewJob(id, s.rows.connections[id].generation, Suspend), j);
      }
    case RequestResume(id) =>
      if Resumed(s.rows, id) != Some(s.rows) {
        RepeatableRequest(s, PrepareResume(s.rows, id).value, id,
                          NewJob(id, s.rows.connections[id].generation, Resume), j);
      }
    case RequestArchive(id) =>
      RepeatableRequest(s, PrepareArchive(s.rows, id).value, id,
                        NewJob(id, s.rows.connections[id].generation, Revoke), j);
    case Finish => RepeatableFinish(s, j);
    case FinishThenStop => RepeatableStop(s, j);
    case _ => RepeatableCall(s, step, j);
  }

  lemma RepeatableCall(s: State, step: Step, j: nat)
    requires Good(s) && Repeatable(s, j) && Apply(s, step).Some?
    requires step.RequestRetry? || step.ClaimJob? || step.RequestReconcile? || step.Start? || step.CallSucceeds?
             || step.CallFails? || step.Stop?
    ensures Repeatable(Apply(s, step).value, j)
  {
    match step
    case Start(hot) => RepeatableStart(s, hot, j);
    case CallSucceeds(after) => RepeatableAnswer(s, step, j);
    case CallFails(after) => RepeatableAnswer(s, step, j);
    case _ => RepeatableQueue(s, step, j);
  }

  lemma RepeatableStart(s: State, hot: bool, j: nat)
    requires Good(s) && Repeatable(s, j) && Started(s, hot).Some?
    ensures Repeatable(Started(s, hot).value, j)
  {
    QueuedKnown(s);
    RepeatableStatus(s, Started(s, hot).value, j);
  }

  lemma RepeatableAnswer(s: State, step: Step, j: nat)
    requires Good(s) && Repeatable(s, j) && Apply(s, step).Some? && (step.CallSucceeds? || step.CallFails?)
    ensures Repeatable(Apply(s, step).value, j)
  {
    QueuedKnown(s);
    RepeatableStatus(s, Apply(s, step).value, j);
  }

  lemma RepeatableQueue(s: State, step: Step, j: nat)
    requires Good(s) && Repeatable(s, j) && Apply(s, step).Some?
    requires step.RequestRetry? || step.ClaimJob? || step.RequestReconcile? || step.Stop?
    ensures Repeatable(Apply(s, step).value, j)
  {
    QueuedKnown(s);
    if step.RequestRetry? {
      RepeatableRetry(s, step.id, j);
    } else if step.ClaimJob? {
      RepeatableClaim(s, OpenJob(s.rows.jobs, step.id).value, j);
    } else {
      RepeatableStatus(s, Apply(s, step).value, j);
    }
  }

  lemma RepeatableRetry(s: State, id: Id, j: nat)
    requires Good(s) && Repeatable(s, j) && Retried(s.rows, id).Some?
    ensures Repeatable(s.(rows := Retried(s.rows, id).value), j)
  {
    QueuedKnown(s);
    RepeatableStatus(s, s.(rows := Retried(s.rows, id).value), j);
  }

  lemma RepeatableClaim(s: State, k: nat, j: nat)
    requires Good(s) && Repeatable(s, j) && k < |s.rows.jobs| && s.rows.jobs[k].Open()
    ensures Repeatable(s.(rows := Claim(s.rows, k), queue := s.queue + [Sync(k)]), j)
  {
    QueuedKnown(s);
    RepeatableStatus(s, s.(rows := Claim(s.rows, k), queue := s.queue + [Sync(k)]), j);
  }

  lemma {:induction false} RepeatableRun(s: State, steps: seq<Step>, j: nat)
    requires Good(s) && Repeatable(s, j) && Run(s, steps).Some?
    ensures Good(Run(s, steps).value) && Repeatable(Run(s, steps).value, j)
    decreases |steps|
  {
    if steps != [] {
      var before := steps[..|steps| - 1];
      RepeatableRun(s, before, j);
      KeepGood(Run(s, before).value, steps[|steps| - 1]);
      RepeatableStep(Run(s, before).value, steps[|steps| - 1], j);
    }
  }

  lemma RepeatableThere(s: State)
    requires Good(s) && Apply(s, FinishThenStop).Some? && Complete(s.rows, s.rows.jobs[s.queue[0].job]).Some?
    ensures Repeatable(Apply(s, FinishThenStop).value, s.queue[0].job)
  {
    var j := s.queue[0].job;
    EffectMade(s.rows, s.rows.jobs[j]);
    HeadCompletes(s);
    CompletedConnection(s.rows, j);
  }

  /** The process stops after the effect of a job was committed and before the job was closed: from
      then on, whatever happens, while the job is open its effect changes nothing in the rows. */
  lemma RepeatChangesNothing(s: State, steps: seq<Step>)
    requires Good(s) && Apply(s, FinishThenStop).Some? && Complete(s.rows, s.rows.jobs[s.queue[0].job]).Some?
    requires Run(Apply(s, FinishThenStop).value, steps).Some?
    ensures var j := s.queue[0].job; var r := Run(Apply(s, FinishThenStop).value, steps).value.rows; (
      j < |r.jobs| && (r.jobs[j].Open() ==> Complete(r, r.jobs[j]) == Some(r)))
  {
    var j := s.queue[0].job;
    var s1 := Apply(s, FinishThenStop).value;
    KeepGood(s, FinishThenStop);
    RepeatableThere(s);
    RepeatableRun(s1, steps, j);
    var r := Run(s1, steps).value.rows;
    if r.jobs[j].Open() {
      EffectStays(r, r.jobs[j]);
    }
  }
}
