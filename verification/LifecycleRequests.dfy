/** When each request is accepted and everything it changes, in every state a run reaches, told of the
    rows themselves. */
module LifecycleRequests {
  import opened Options
  import opened ConnectionRows
  import opened Lifecycle
  import opened LifecycleInvariant

  ghost predicate Reached(s: State) {
    exists start, steps :: Initial(start) && Run(start, steps) == Some(s)
  }

  /** The job is pending, running or failed, and of the connection. */
  predicate Awaits(job: Job, id: Id) {
    job.connection == id && (job.status.Waiting? || job.status.Running? || job.status.Failed?)
  }

  /** Stored and not archived. */
  predicate Stored(s: State, id: Id) {
    id in s.rows.connections && !s.rows.connections[id].archived
  }

  /** The connection's open job is a resume. */
  ghost predicate Resuming(s: State, id: Id) {
    exists j :: 0 <= j < |s.rows.jobs| && Awaits(s.rows.jobs[j], id) && s.rows.jobs[j].kind.Resume?
  }

  /** The jobs of a connection that were open are cancelled and one is added; no other changes. */
  ghost predicate Requeued(jobs: seq<Job>, jobs': seq<Job>, id: Id, generation: nat, kind: Kind) {
    && |jobs'| == |jobs| + 1 && jobs'[|jobs|] == Job(id, generation, kind, Waiting, 0)
    && forall j | 0 <= j < |jobs| ::
         jobs'[j] == if Awaits(jobs[j], id) then jobs[j].(status := Cancelled) else jobs[j]
  }

  lemma ReachedGood(s: State)
    requires Reached(s)
    ensures Good(s)
  {
    var start, steps :| Initial(start) && Run(start, steps) == Some(s);
    RunGood(start, steps);
  }

  lemma Opened(jobs: seq<Job>, id: Id)
    ensures HasOpen(jobs, id) <==> exists j :: 0 <= j < |jobs| && Awaits(jobs[j], id)
  {
    if HasOpen(jobs, id) {
      var j :| 0 <= j < |jobs| && jobs[j].connection == id && jobs[j].Open();
      assert Awaits(jobs[j], id);
    }
    if j :| 0 <= j < |jobs| && Awaits(jobs[j], id) {
      assert jobs[j].Open();
    }
  }

  /** The open job of a connection is its only one. */
  lemma OneAwaits(s: State, id: Id, j: nat)
    requires Good(s) && j < |s.rows.jobs| && Awaits(s.rows.jobs[j], id)
    ensures OpenJob(s.rows.jobs, id) == Some(j)
  {
    Opened(s.rows.jobs, id);
    assert s.rows.jobs[j].Open();
  }

  lemma ResumeOpen(s: State, id: Id)
    requires Good(s)
    ensures Resuming(s, id) <==>
            OpenJob(s.rows.jobs, id).Some? && s.rows.jobs[OpenJob(s.rows.jobs, id).value].kind.Resume?
  {
    var job := OpenJob(s.rows.jobs, id);
    if job.Some? { assert Awaits(s.rows.jobs[job.value], id); }
    if j :| 0 <= j < |s.rows.jobs| && Awaits(s.rows.jobs[j], id) && s.rows.jobs[j].kind.Resume? { OneAwaits(s, id, j); }
  }

  /** A connection can be created under every id that is not taken. */
  lemma CreateTaken(s: State, id: Id)
    requires Reached(s)
    ensures Apply(s, RequestCreate(id)).Some? <==> id !in s.rows.connections
    ensures id !in s.rows.connections ==>
      var s' := Apply(s, RequestCreate(id)).value; (
      && s' == s.(rows := s'.rows)
      && s'.rows.connections == s.rows.connections[id := Connection(Provisioning, 1, false, false, Some(1))]
      && s'.rows.credentials == s.rows.credentials[(id, 1) := Pending]
      && Requeued(s.rows.jobs, s'.rows.jobs, id, 1, Activate))
  {
    ReachedGood(s);
    forall j | 0 <= j < |s.rows.jobs| ensures s.rows.jobs[j].connection in s.rows.connections {
      assert GoodJob(s.rows, j);
    }
  }

  /** The connection is rotating to its next generation, whose credentials are pending. */
  ghost predicate Rotates(r: Rows, r': Rows, id: Id)
    requires id in r.connections
  {
    var next := r.connections[id].generation + 1;
    && r'.connections == r.connections[id := Connection(Rotating, next, false, false, Some(next))]
    && r'.credentials == r.credentials[(id, next) := Pending]
    && Requeued(r.jobs, r'.jobs, id, next, Rotate)
  }

  lemma RotatedRows(r: Rows, id: Id)
    requires id in r.connections && GoodConnection(r, id)
    ensures PrepareRotation(r, id).Some? <==>
            && !r.connections[id].archived && r.connections[id].status.Active? && !r.connections[id].suspended
            && forall j | 0 <= j < |r.jobs| :: !Awaits(r.jobs[j], id)
    ensures PrepareRotation(r, id).Some? ==> Rotates(r, PrepareRotation(r, id).value, id)
  {
    Opened(r.jobs, id);
  }

  /** New credentials are issued exactly to a connection in use that has no open job. */
  lemma RotateTaken(s: State, id: Id)
    requires Reached(s)
    ensures Apply(s, RequestRotate(id)).Some? <==>
            && Stored(s, id) && s.rows.connections[id].status.Active? && !s.rows.connections[id].suspended
            && forall j | 0 <= j < |s.rows.jobs| :: !Awaits(s.rows.jobs[j], id)
    ensures Apply(s, RequestRotate(id)).Some? ==>
      var s' := Apply(s, RequestRotate(id)).value; s' == s.(rows := s'.rows) && Rotates(s.rows, s'.rows, id)
  {
    ReachedGood(s);
    assert Apply(s, RequestRotate(id)) == WithRows(s, PrepareRotation(s.rows, id));
    if id in s.rows.connections { RotatedRows(s.rows, id); }
  }

  /** An active connection can be suspended, which changes nothing if it is already and is not being
      resumed. */
  lemma SuspendTaken(s: State, id: Id)
    requires Reached(s)
    ensures Apply(s, RequestSuspend(id)).Some? <==> Stored(s, id) && s.rows.connections[id].status.Active?
    ensures Apply(s, RequestSuspend(id)).Some? ==>
      var s' := Apply(s, RequestSuspend(id)).value; var c := s.rows.connections[id];
      if c.suspended && !Resuming(s, id) then s' == s
      else
        && s' == s.(rows := s'.rows) && s'.rows.credentials == s.rows.credentials
        && s'.rows.connections == s.rows.connections[id := Connection(Active, c.generation, true, false, c.link)]
        && Requeued(s.rows.jobs, s'.rows.jobs, id, c.generation, Kind.Suspend)
  {
    ReachedGood(s);
    ResumeOpen(s, id);
  }

  /** An active connection can be resumed, which changes nothing unless it is suspended and is not being
      resumed; it stays suspended until the job is done. */
  lemma ResumeTaken(s: State, id: Id)
    requires Reached(s)
    ensures Apply(s, RequestResume(id)).Some? <==> Stored(s, id) && s.rows.connections[id].status.Active?
    ensures Apply(s, RequestResume(id)).Some? ==>
      var s' := Apply(s, RequestResume(id)).value; var c := s.rows.connections[id];
      if !c.suspended || Resuming(s, id) then s' == s
      else
        && s' == s.(rows := s'.rows) && s'.rows.credentials == s.rows.credentials
        && s'.rows.connections == s.rows.connections
        && Requeued(s.rows.jobs, s'.rows.jobs, id, c.generation, Kind.Resume)
  {
    ReachedGood(s);
    ResumeOpen(s, id);
  }

  /** Every connection that is not archived can be archived, whatever is under way. It loses its link at
      once, and what was under way is cancelled for the revocation of its generation. */
  lemma ArchiveTaken(s: State, id: Id)
    requires Reached(s)
    ensures Apply(s, RequestArchive(id)).Some? <==> Stored(s, id)
    ensures Stored(s, id) ==>
      var s' := Apply(s, RequestArchive(id)).value; var c := s.rows.connections[id]; (
      && s' == s.(rows := s'.rows) && s'.rows.credentials == s.rows.credentials
      && s'.rows.connections == s.rows.connections[id := Connection(Archiving, c.generation, c.suspended, true, None)]
      && Requeued(s.rows.jobs, s'.rows.jobs, id, c.generation, Revoke))
  {
    ReachedGood(s);
  }

  lemma FailedIsOpen(s: State, id: Id)
    requires Good(s)
    ensures forall j | 0 <= j < |s.rows.jobs| && s.rows.jobs[j].connection == id && s.rows.jobs[j].status.Failed? ::
      OpenJob(s.rows.jobs, id) == Some(j)
    ensures OpenJob(s.rows.jobs, id).None? && id in s.rows.connections ==>
      s.rows.connections[id].status.Active? || s.rows.connections[id].status.Archived?
  {
    forall j | 0 <= j < |s.rows.jobs| && s.rows.jobs[j].connection == id && s.rows.jobs[j].status.Failed?
      ensures OpenJob(s.rows.jobs, id) == Some(j) {
      OneAwaits(s, id, j);
    }
    if id in s.rows.connections { assert GoodConnection(s.rows, id); }
  }

  /** Every stored connection can be retried; that makes its failed job pending again, and changes
      nothing else. */
  lemma RetryTaken(s: State, id: Id)
    requires Reached(s)
    ensures Apply(s, RequestRetry(id)).Some? <==> id in s.rows.connections
    ensures id in s.rows.connections ==>
      var s' := Apply(s, RequestRetry(id)).value; (
      && s' == s.(rows := s.rows.(jobs := s'.rows.jobs)) && |s'.rows.jobs| == |s.rows.jobs|
      && forall j | 0 <= j < |s.rows.jobs| ::
           var job := s.rows.jobs[j];
           s'.rows.jobs[j] == if job.connection == id && job.status.Failed? then job.(status := Waiting) else job)
  {
    ReachedGood(s);
    FailedIsOpen(s, id);
    var job := OpenJob(s.rows.jobs, id);
    if id in s.rows.connections && job.Some? && s.rows.jobs[job.value].status.Failed? {
      assert Apply(s, RequestRetry(id)).value ==
             s.(rows := s.rows.(jobs := s.rows.jobs[job.value := s.rows.jobs[job.value].(status := Waiting)]));
    }
  }

  /** A job is claimed exactly when the connection has one pending or failed, which is then running, is
      counted as tried once more, and waits for the lock behind everything else. */
  lemma ClaimTaken(s: State, id: Id, j: nat)
    requires Reached(s) && j < |s.rows.jobs| && Awaits(s.rows.jobs[j], id)
    ensures Apply(s, ClaimJob(id)).Some? <==> !s.rows.jobs[j].status.Running?
    ensures Apply(s, ClaimJob(id)).Some? ==>
      var job := s.rows.jobs[j];
      Apply(s, ClaimJob(id)).value ==
      s.(rows := s.rows.(jobs := s.rows.jobs[j := Job(id, job.generation, job.kind, Running, job.attempts + 1)]),
         queue := s.queue + [Sync(j)])
  {
    ReachedGood(s);
    OneAwaits(s, id, j);
    ClaimedJob(s.rows, j);
  }

  lemma ClaimedJob(r: Rows, j: nat)
    requires j < |r.jobs|
    ensures var job := r.jobs[j];
      Claim(r, j) == r.(jobs := r.jobs[j := Job(job.connection, job.generation, job.kind, Running, job.attempts + 1)])
  {
  }

  lemma NothingToClaim(s: State, id: Id)
    requires Reached(s) && forall j | 0 <= j < |s.rows.jobs| :: !Awaits(s.rows.jobs[j], id)
    ensures Apply(s, ClaimJob(id)).None?
  {
    Opened(s.rows.jobs, id);
  }

  /** Every engine there is can be reconciled, which waits for the lock behind everything else. */
  lemma ReconcileTaken(s: State, engine: Engine)
    ensures Apply(s, RequestReconcile(engine)) ==
            if engine in s.loaded then Some(s.(queue := s.queue + [Reconcile(engine)])) else None
  {
  }
}
