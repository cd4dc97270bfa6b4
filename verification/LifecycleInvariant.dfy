/** What every step keeps, whatever requests, failures and stops happen: the rows stay consistent,
    and every task waiting for the lock still has a reason to run. */
module LifecycleInvariant {
  import opened Options
  import opened ConnectionRows
  import opened Lifecycle

  // ---------------------------------------------------------------- rows

  ghost predicate AllRevoked(r: Rows, id: Id, before: nat) {
    forall g | 1 <= g < before :: (id, g) in r.credentials && r.credentials[(id, g)].Revoked?
  }

  ghost predicate IsState(r: Rows, id: Id, g: nat, state: CredentialState) {
    (id, g) in r.credentials && r.credentials[(id, g)] == state
  }

  /** Never activated: one pending generation. */
  ghost predicate Unused(r: Rows, id: Id, g: nat) {
    g == 1 && IsState(r, id, 1, Pending)
  }

  /** In use: the current generation is live and every older one revoked. */
  ghost predicate InUse(r: Rows, id: Id, g: nat) {
    IsState(r, id, g, Live) && AllRevoked(r, id, g)
  }

  /** Being reissued: the current generation is pending, the one before it live. */
  ghost predicate Reissuing(r: Rows, id: Id, g: nat) {
    && g >= 2 && IsState(r, id, g, Pending) && IsState(r, id, g - 1, Live)
    && AllRevoked(r, id, g - 1)
  }

  ghost predicate GoodConnection(r: Rows, id: Id)
    requires id in r.connections
  {
    var c := r.connections[id];
    var g := c.generation;
    && g >= 1
    && (forall k: nat :: (id, k) in r.credentials <==> 1 <= k <= g)
    && c.link == (if c.archived then None else Some(g))
    && match c.status
       case Provisioning => Unused(r, id, g) && !c.suspended && !c.archived
       case Active => InUse(r, id, g)
       case Rotating => Reissuing(r, id, g) && !c.suspended && !c.archived
       case Archiving => c.archived && (Unused(r, id, g) || InUse(r, id, g) || Reissuing(r, id, g))
       case Archived => c.archived && AllRevoked(r, id, g + 1)
  }

  /** The states of a connection in which a job of each kind may still be open. */
  predicate Fits(c: Connection, kind: Kind) {
    match kind
    case Activate => (c.status.Provisioning? || c.status.Active?) && !c.archived && !c.suspended && c.generation == 1
    case Rotate => (c.status.Rotating? || c.status.Active?) && !c.archived && !c.suspended
    case Revoke => c.archived
    case _ => c.status.Active? && !c.archived
  }

  ghost predicate GoodJob(r: Rows, j: nat)
    requires j < |r.jobs|
  {
    var job := r.jobs[j];
    && job.connection in r.connections
    && (job.Open() ==>
          && job.generation == r.connections[job.connection].generation
          && Fits(r.connections[job.connection], job.kind))
  }

  ghost predicate OneOpen(jobs: seq<Job>) {
    forall i, j | 0 <= i < j < |jobs| && jobs[i].Open() && jobs[j].Open() :: jobs[i].connection != jobs[j].connection
  }

  /** A connection that is on its way somewhere has a job that will take it there. */
  ghost predicate Underway(c: Connection) {
    c.status.Provisioning? || c.status.Rotating? || (c.archived && !c.status.Archived?)
  }

  ghost predicate GoodRows(r: Rows) {
    && (forall id | id in r.connections :: GoodConnection(r, id))
    && (forall k | k in r.credentials :: k.0 in r.connections)
    && (forall j | 0 <= j < |r.jobs| :: GoodJob(r, j))
    && OneOpen(r.jobs)
    && (forall id | id in r.connections && Underway(r.connections[id]) :: HasOpen(r.jobs, id))
  }

  // ---------------------------------------------------------------- the queue

  ghost predicate Queued(queue: seq<Task>, j: nat) {
    exists i :: 0 <= i < |queue| && queue[i] == Sync(j)
  }

  /** A queued job was claimed; if it was cancelled since, it was not a revoke, its connection is not
      archived for good and has another open job, and the task of that job, if claimed, comes later. */
  ghost predicate GoodTask(r: Rows, queue: seq<Task>, i: nat)
    requires i < |queue|
  {
    queue[i].Sync? ==>
      var j := queue[i].job;
      && j < |r.jobs|
      && r.jobs[j].attempts >= 1
      && (r.jobs[j].status.Running? || r.jobs[j].status.Cancelled?)
      && r.jobs[j].connection in r.connections
      && r.jobs[j].generation == r.connections[r.jobs[j].connection].generation
      && (r.jobs[j].status.Cancelled? ==>
            && HasOpen(r.jobs, r.jobs[j].connection)
            && !r.connections[r.jobs[j].connection].status.Archived?
            && !r.jobs[j].kind.Revoke?)
      && (forall k | 0 <= k <= i && queue[k].Sync? && queue[k].job < |r.jobs| ::
            r.jobs[j].status.Cancelled? && r.jobs[queue[k].job].status.Running? ==>
            r.jobs[queue[k].job].connection != r.jobs[j].connection)
  }

  ghost predicate GoodQueue(r: Rows, queue: seq<Task>) {
    && (forall i | 0 <= i < |queue| :: GoodTask(r, queue, i))
    && (forall i, k | 0 <= i < k < |queue| && queue[i].Sync? :: queue[i] != queue[k])
    && (forall j | 0 <= j < |r.jobs| && r.jobs[j].status.Running? :: Queued(queue, j))
  }

  ghost predicate Good(s: State) {
    && GoodRows(s.rows)
    && GoodQueue(s.rows, s.queue)
    && (s.queue == [] ==> s.progress.NotStarted?)
  }

  // ---------------------------------------------------------------- requests keep it

  /** A change to one connection, with its old jobs closed and one job added. */
  lemma OpenAfter(jobs: seq<Job>, id: Id, job: Job)
    requires job.Open() && job.connection == id
    ensures var js := CancelOpen(jobs, id) + [job];
      && (forall d :: HasOpen(js, d) <==> d == id || HasOpen(jobs, d))
      && (OneOpen(jobs) ==> OneOpen(js))
  {
    var js := CancelOpen(jobs, id) + [job];
    assert js[|jobs|] == job;
    forall d ensures HasOpen(js, d) <==> d == id || HasOpen(jobs, d) {
      if d != id && HasOpen(jobs, d) {
        var j :| 0 <= j < |jobs| && jobs[j].connection == d && jobs[j].Open();
        assert js[j] == jobs[j];
      }
    }
  }

  /** Rows that change one connection keep the others good. */
  lemma SameCredentials(r: Rows, r': Rows, d: Id)
    requires d in r.connections && d in r'.connections && r'.connections[d] == r.connections[d]
    requires GoodConnection(r, d)
    requires forall k: nat :: (d, k) in r'.credentials <==> (d, k) in r.credentials
    requires forall k: nat | (d, k) in r.credentials :: r'.credentials[(d, k)] == r.credentials[(d, k)]
    ensures GoodConnection(r', d)
  {
  }

  /** Only the rows of one connection differ. */
  ghost predicate OnlyConnection(r: Rows, r': Rows, id: Id) {
    && (forall d | d != id :: d in r'.connections <==> d in r.connections)
    && (forall d | d in r.connections && d != id :: r'.connections[d] == r.connections[d])
    && (forall k: (Id, nat) | k.0 != id :: k in r'.credentials <==> k in r.credentials)
    && (forall k | k in r.credentials && k.0 != id :: r'.credentials[k] == r.credentials[k])
  }

  /** A request that replaces the open job of one connection keeps the rows good, if that connection
      and its new job are. */
  lemma KeepRequest(r: Rows, r': Rows, id: Id, job: Job)
    requires GoodRows(r) && OnlyConnection(r, r', id) && id in r'.connections
    requires r'.jobs == CancelOpen(r.jobs, id) + [job]
    requires job.Open() && job.connection == id
    requires GoodConnection(r', id)
    requires job.generation == r'.connections[id].generation && Fits(r'.connections[id], job.kind)
    ensures GoodRows(r')
  {
    OpenAfter(r.jobs, id, job);
    forall d | d in r'.connections ensures GoodConnection(r', d) {
      if d != id { SameCredentials(r, r', d); }
    }
    forall j | 0 <= j < |r'.jobs| ensures GoodJob(r', j) {
      if j < |r.jobs| { assert GoodJob(r, j); }
    }
    forall k | k in r'.credentials ensures k.0 in r'.connections {
      if k.0 != id { assert k in r.credentials; }
    }
  }

  lemma NothingToCancel(jobs: seq<Job>, id: Id)
    requires !HasOpen(jobs, id)
    ensures CancelOpen(jobs, id) == jobs
  {
  }

  lemma KeepCreate(r: Rows, id: Id)
    requires GoodRows(r) && Create(r, id).Some?
    ensures GoodRows(Create(r, id).value)
  {
    NothingToCancel(r.jobs, id);
    KeepRequest(r, Create(r, id).value, id, NewJob(id, 1, Activate));
  }

  lemma KeepRotation(r: Rows, id: Id)
    requires GoodRows(r) && PrepareRotation(r, id).Some?
    ensures GoodRows(PrepareRotation(r, id).value)
  {
    NothingToCancel(r.jobs, id);
    RotatedGood(r, id);
    KeepRequest(r, PrepareRotation(r, id).value, id, NewJob(id, r.connections[id].generation + 1, Rotate));
  }

  lemma RotatedGood(r: Rows, id: Id)
    requires GoodRows(r) && PrepareRotation(r, id).Some?
    ensures GoodConnection(PrepareRotation(r, id).value, id)
  {
    var r' := PrepareRotation(r, id).value;
    var g := r.connections[id].generation;
    assert GoodConnection(r, id);
    assert Reissuing(r', id, g + 1) by {
      assert forall k | 1 <= k < g :: (id, k) in r.credentials && r'.credentials[(id, k)] == r.credentials[(id, k)];
    }
  }

  lemma KeepSuspend(r: Rows, id: Id)
    requires GoodRows(r) && PrepareSuspend(r, id).Some?
    ensures GoodRows(PrepareSuspend(r, id).value)
  {
    assert GoodConnection(r, id);
    KeepRequest(r, PrepareSuspend(r, id).value, id, NewJob(id, r.connections[id].generation, Suspend));
  }

  lemma KeepResume(r: Rows, id: Id)
    requires GoodRows(r) && PrepareResume(r, id).Some?
    ensures GoodRows(PrepareResume(r, id).value)
  {
    if r.connections[id].suspended {
      assert GoodConnection(r, id);
      KeepRequest(r, PrepareResume(r, id).value, id, NewJob(id, r.connections[id].generation, Resume));
    }
  }

  lemma KeepArchive(r: Rows, id: Id)
    requires GoodRows(r) && PrepareArchive(r, id).Some?
    ensures GoodRows(PrepareArchive(r, id).value)
  {
    assert GoodConnection(r, id);
    KeepRequest(r, PrepareArchive(r, id).value, id, NewJob(id, r.connections[id].generation, Revoke));
  }

  /** A status change between open states keeps the rows good. */
  lemma KeepStatus(r: Rows, r': Rows)
    requires GoodRows(r)
    requires r'.connections == r.connections && r'.credentials == r.credentials && |r'.jobs| == |r.jobs|
    requires forall j | 0 <= j < |r.jobs| ::
      && r'.jobs[j].connection == r.jobs[j].connection && r'.jobs[j].generation == r.jobs[j].generation
      && r'.jobs[j].kind == r.jobs[j].kind && (r'.jobs[j].Open() <==> r.jobs[j].Open())
    ensures GoodRows(r')
    ensures forall d :: HasOpen(r'.jobs, d) <==> HasOpen(r.jobs, d)
  {
    forall d ensures HasOpen(r'.jobs, d) <==> HasOpen(r.jobs, d) {
      if HasOpen(r.jobs, d) {
        var j :| 0 <= j < |r.jobs| && r.jobs[j].connection == d && r.jobs[j].Open();
        assert r'.jobs[j].Open();
      }
    }
    forall d | d in r'.connections ensures GoodConnection(r', d) {
      SameCredentials(r, r', d);
    }
    forall j | 0 <= j < |r'.jobs| ensures GoodJob(r', j) {
      assert GoodJob(r, j);
    }
  }

  // ---------------------------------------------------------------- completions keep it

  /** The job is running, or was cancelled while another job of its connection is open. */
  ghost predicate MayComplete(r: Rows, j: nat) {
    && j < |r.jobs|
    && (r.jobs[j].status.Running? || (r.jobs[j].status.Cancelled? && HasOpen(r.jobs, r.jobs[j].connection)))
    && r.jobs[j].connection in r.connections
    && r.jobs[j].generation == r.connections[r.jobs[j].connection].generation
  }

  lemma ActivatedInUse(r: Rows, id: Id, g: nat)
    requires id in r.connections && GoodConnection(r, id) && g == r.connections[id].generation
    requires !r.connections[id].status.Archived?
    ensures InUse(CompleteActivation(r, id, g).value, id, g)
  {
  }

  /** A change to one connection alone keeps the rows good, if that connection stays good and its
      open jobs still fit it. */
  lemma KeepChange(r: Rows, r': Rows, id: Id)
    requires GoodRows(r) && OnlyConnection(r, r', id) && r'.jobs == r.jobs
    requires id in r.connections && id in r'.connections && GoodConnection(r', id)
    requires r'.connections[id].generation == r.connections[id].generation
    requires forall i | 0 <= i < |r.jobs| && r.jobs[i].connection == id && r.jobs[i].Open() ::
      Fits(r'.connections[id], r.jobs[i].kind)
    requires Underway(r'.connections[id]) ==> HasOpen(r.jobs, id)
    ensures GoodRows(r')
  {
    forall d | d in r'.connections ensures GoodConnection(r', d) {
      if d != id { SameCredentials(r, r', d); }
    }
    forall i | 0 <= i < |r'.jobs| ensures GoodJob(r', i) {
      assert GoodJob(r, i);
    }
  }

  ghost predicate Completes(r: Rows, j: nat) {
    && GoodRows(r) && MayComplete(r, j) && Complete(r, r.jobs[j]).Some?
    && (r.jobs[j].kind.Activate? || r.jobs[j].kind.Rotate? ==> !r.connections[r.jobs[j].connection].status.Archived?)
    && (r.jobs[j].kind.Revoke? ==> r.jobs[j].status.Running?)
  }

  lemma CompletedConnection(r: Rows, j: nat)
    requires Completes(r, j)
    ensures var id := r.jobs[j].connection; var r' := Complete(r, r.jobs[j]).value;
      && OnlyConnection(r, r', id) && r'.jobs == r.jobs
      && r'.connections.Keys == r.connections.Keys
      && r'.connections[id].generation == r.connections[id].generation
      && r'.connections[id].archived == r.connections[id].archived
  {
  }

  lemma CompletedGood(r: Rows, j: nat)
    requires Completes(r, j)
    ensures GoodConnection(Complete(r, r.jobs[j]).value, r.jobs[j].connection)
  {
    var id := r.jobs[j].connection;
    assert GoodJob(r, j) && GoodConnection(r, id);
    match r.jobs[j].kind
    case Revoke =>
    case Suspend =>
    case Resume => assert GoodConnection(CompleteResume(r, id).value, id);
    case _ => ActivatedInUse(r, id, r.jobs[j].generation);
  }

  lemma CompletedFits(r: Rows, j: nat, i: nat)
    requires Completes(r, j)
    requires i < |r.jobs| && r.jobs[i].connection == r.jobs[j].connection && r.jobs[i].Open()
    ensures Fits(Complete(r, r.jobs[j]).value.connections[r.jobs[j].connection], r.jobs[i].kind)
    ensures r.jobs[j].status.Running? ==> i == j
  {
    assert GoodJob(r, i) && GoodJob(r, j);
    if r.jobs[j].status.Running? {
      assert r.jobs[j].Open();
    }
  }

  /** The effect of a job on the rows keeps them good, even if the job was cancelled meanwhile, and
      leaves a connection whose job was still running with nothing more to do. */
  lemma KeepComplete(r: Rows, j: nat)
    requires Completes(r, j)
    ensures GoodRows(Complete(r, r.jobs[j]).value)
    ensures r.jobs[j].status.Running? ==>
            !Underway(Complete(r, r.jobs[j]).value.connections[r.jobs[j].connection])
  {
    var id := r.jobs[j].connection;
    var r' := Complete(r, r.jobs[j]).value;
    CompletedConnection(r, j);
    CompletedGood(r, j);
    forall i | 0 <= i < |r.jobs| && r.jobs[i].connection == id && r.jobs[i].Open()
      ensures Fits(r'.connections[id], r.jobs[i].kind) {
      CompletedFits(r, j, i);
    }
    if r.jobs[j].status.Running? {
      assert GoodJob(r, j) && r.jobs[j].Open();
    }
    KeepChange(r, r', id);
  }

  lemma HasOpenAfterClose(jobs: seq<Job>, j: nat, status: JobStatus, d: Id)
    requires j < |jobs| && OneOpen(jobs) && jobs[j].Open()
    requires !jobs[j].(status := status).Open()
    ensures HasOpen(jobs[j := jobs[j].(status := status)], d) <==> HasOpen(jobs, d) && d != jobs[j].connection
  {
    var js := jobs[j := jobs[j].(status := status)];
    if HasOpen(jobs, d) && d != jobs[j].connection {
      var i :| 0 <= i < |jobs| && jobs[i].connection == d && jobs[i].Open();
      assert js[i] == jobs[i];
    }
    forall i | 0 <= i < |js| && js[i].connection == jobs[j].connection ensures !js[i].Open() {
      if i != j {
        assert js[i] == jobs[i];
      }
    }
  }

  /** Closing the open job of a connection that has nothing more to do keeps the rows good. */
  lemma KeepClose(r: Rows, j: nat, status: JobStatus)
    requires GoodRows(r) && j < |r.jobs| && r.jobs[j].Open() && !r.jobs[j].(status := status).Open()
    requires r.jobs[j].connection in r.connections && !Underway(r.connections[r.jobs[j].connection])
    ensures GoodRows(SetStatus(r, j, status))
  {
    var r' := SetStatus(r, j, status);
    forall d ensures HasOpen(r'.jobs, d) <==> HasOpen(r.jobs, d) && d != r.jobs[j].connection {
      HasOpenAfterClose(r.jobs, j, status, d);
    }
    forall d | d in r'.connections ensures GoodConnection(r', d) {
      SameCredentials(r, r', d);
    }
    forall i | 0 <= i < |r'.jobs| ensures GoodJob(r', i) {
      assert GoodJob(r, i);
    }
  }

  // ---------------------------------------------------------------- the queue is kept

  lemma NoTasks(r: Rows, queue: seq<Task>, id: Id, i: nat)
    requires GoodQueue(r, queue) && !HasOpen(r.jobs, id)
    requires i < |queue| && queue[i].Sync? && queue[i].job < |r.jobs|
    ensures r.jobs[queue[i].job].connection != id
  {
    assert GoodTask(r, queue, i);
  }

  lemma TaskRequest(r: Rows, r': Rows, queue: seq<Task>, id: Id, job: Job, i: nat)
    requires GoodQueue(r, queue) && OnlyConnection(r, r', id) && id in r'.connections && i < |queue|
    requires r'.jobs == CancelOpen(r.jobs, id) + [job] && job.status.Waiting? && job.connection == id
    requires id in r.connections && r'.connections[id].generation != r.connections[id].generation
             ==> !HasOpen(r.jobs, id)
    requires !r'.connections[id].status.Archived? && (id in r.connections ==> !r.connections[id].archived)
    requires forall j | 0 <= j < |r.jobs| :: GoodJob(r, j)
    requires forall d :: HasOpen(r'.jobs, d) <==> d == id || HasOpen(r.jobs, d)
    ensures GoodTask(r', queue, i)
  {
    assert GoodTask(r, queue, i);
    if queue[i].Sync? {
      assert GoodJob(r, queue[i].job);
      if !HasOpen(r.jobs, id) {
        NoTasks(r, queue, id, i);
      }
    }
  }

  lemma QueueRequest(r: Rows, r': Rows, queue: seq<Task>, id: Id, job: Job)
    requires GoodRows(r) && GoodQueue(r, queue) && OnlyConnection(r, r', id) && id in r'.connections
    requires r'.jobs == CancelOpen(r.jobs, id) + [job] && job.status.Waiting? && job.connection == id
    requires id in r.connections && r'.connections[id].generation != r.connections[id].generation
             ==> !HasOpen(r.jobs, id)
    requires !r'.connections[id].status.Archived? && (id in r.connections ==> !r.connections[id].archived)
    ensures GoodQueue(r', queue)
  {
    OpenAfter(r.jobs, id, job);
    forall i | 0 <= i < |queue| ensures GoodTask(r', queue, i) {
      TaskRequest(r, r', queue, id, job, i);
    }
    forall j | 0 <= j < |r'.jobs| && r'.jobs[j].status.Running? ensures Queued(queue, j) {
      assert r.jobs[j].status.Running?;
    }
  }

  lemma TaskClaim(r: Rows, queue: seq<Task>, j: nat, i: nat)
    requires GoodQueue(r, queue) && i <= |queue|
    requires j < |r.jobs| && r.jobs[j].Open() && !r.jobs[j].status.Running? && GoodJob(r, j)
    requires forall d :: HasOpen(Claim(r, j).jobs, d) <==> HasOpen(r.jobs, d)
    requires forall k | 0 <= k < |queue| :: queue[k] != Sync(j)
    ensures GoodTask(Claim(r, j), queue + [Sync(j)], i)
  {
    if i < |queue| { assert GoodTask(r, queue, i); }
  }

  lemma QueueClaim(r: Rows, queue: seq<Task>, j: nat)
    requires GoodRows(r) && GoodQueue(r, queue)
    requires j < |r.jobs| && r.jobs[j].Open() && !r.jobs[j].status.Running?
    ensures GoodRows(Claim(r, j)) && GoodQueue(Claim(r, j), queue + [Sync(j)])
  {
    var r', queue' := Claim(r, j), queue + [Sync(j)];
    KeepStatus(r, r');
    assert GoodJob(r, j);
    forall i | 0 <= i < |queue| ensures queue[i] != Sync(j) {
      assert GoodTask(r, queue, i);
    }
    forall i | 0 <= i < |queue'| ensures GoodTask(r', queue', i) {
      TaskClaim(r, queue, j, i);
    }
    forall k | 0 <= k < |r'.jobs| && r'.jobs[k].status.Running? ensures Queued(queue', k) {
      if k == j {
        assert queue'[|queue|] == Sync(j);
      } else {
        var i :| 0 <= i < |queue| && queue[i] == Sync(k);
        assert queue'[i] == Sync(k);
      }
    }
  }

  lemma QueueReconcile(r: Rows, queue: seq<Task>, engine: Engine)
    requires GoodQueue(r, queue)
    ensures GoodQueue(r, queue + [Reconcile(engine)])
  {
    var queue' := queue + [Reconcile(engine)];
    forall i | 0 <= i < |queue'| ensures GoodTask(r, queue', i) {
      if i < |queue| { assert GoodTask(r, queue, i); }
    }
    forall j | 0 <= j < |r.jobs| && r.jobs[j].status.Running? ensures Queued(queue', j) {
      var i :| 0 <= i < |queue| && queue[i] == Sync(j);
      assert queue'[i] == Sync(j);
    }
  }

  /** The head of the queue leaves, its job closed, failed, or cancelled already. */
  lemma QueueRelease(r: Rows, r': Rows, queue: seq<Task>)
    requires GoodRows(r) && GoodQueue(r, queue) && queue != []
    requires |r'.jobs| == |r.jobs| && r'.connections.Keys == r.connections.Keys
    requires forall d | d in r.connections :: r'.connections[d].generation == r.connections[d].generation
    requires forall d | d in r.connections && r'.connections[d].status.Archived? ::
      || r.connections[d].status.Archived?
      || (queue[0].Sync? && queue[0].job < |r.jobs|
          && r.jobs[queue[0].job].status.Running? && r.jobs[queue[0].job].connection == d)
    requires forall j | 0 <= j < |r.jobs| && queue[0] != Sync(j) :: r'.jobs[j] == r.jobs[j]
    requires forall j | 0 <= j < |r.jobs| && queue[0] == Sync(j) ::
      && !r'.jobs[j].status.Running?
      && (r.jobs[j].status.Cancelled? ==> r'.jobs[j] == r.jobs[j])
    ensures GoodQueue(r', queue[1..])
  {
    var rest := queue[1..];
    assert GoodTask(r, queue, 0);
    forall i | 0 <= i < |rest| ensures GoodTask(r', rest, i) {
      assert GoodTask(r, queue, i + 1) && rest[i] == queue[i + 1];
      if rest[i].Sync? && r.jobs[rest[i].job].status.Cancelled? {
        var c := r.jobs[rest[i].job].connection;
        var k :| 0 <= k < |r.jobs| && r.jobs[k].connection == c && r.jobs[k].Open();
        assert queue[0].Sync? && r.jobs[queue[0].job].Open() ==> r.jobs[queue[0].job].status.Running?;
        assert queue[0] != Sync(k);
        assert r'.jobs[k].Open();
      }
    }
    forall j | 0 <= j < |r'.jobs| && r'.jobs[j].status.Running? ensures Queued(rest, j) {
      var i :| 0 <= i < |queue| && queue[i] == Sync(j);
      assert rest[i - 1] == Sync(j);
    }
  }

  // ---------------------------------------------------------------- every step keeps it

  lemma HeadCompletes(s: State)
    requires Good(s) && Subject(s).Some? && Complete(s.rows, s.rows.jobs[s.queue[0].job]).Some?
    ensures Completes(s.rows, s.queue[0].job)
  {
    var j := s.queue[0].job;
    assert GoodTask(s.rows, s.queue, 0) && GoodJob(s.rows, j);
    assert GoodConnection(s.rows, s.rows.jobs[j].connection);
  }

  lemma KeepSettle(r: Rows, j: nat, status: JobStatus)
    requires GoodRows(r) && j < |r.jobs| && status in {Failed, Completed}
    requires status.Completed? && r.jobs[j].status.Running? ==>
             r.jobs[j].connection in r.connections && !Underway(r.connections[r.jobs[j].connection])
    ensures GoodRows(Settle(r, j, status))
  {
    if r.jobs[j].status.Running? {
      if status.Completed? {
        KeepClose(r, j, status);
      } else {
        KeepStatus(r, SetStatus(r, j, status));
      }
    }
  }

  lemma KeepTail(s: State)
    requires Good(s) && Subject(s).Some?
    ensures Good(Release(s, Tail(s)))
  {
    var r, j := s.rows, s.queue[0].job;
    assert GoodTask(r, s.queue, 0);
    if Complete(r, r.jobs[j]).Some? {
      KeepCompletedTail(s);
    } else {
      KeepSettle(r, j, Failed);
      QueueRelease(r, Tail(s), s.queue);
    }
  }

  lemma KeepCompletedTail(s: State)
    requires Good(s) && Subject(s).Some? && Complete(s.rows, s.rows.jobs[s.queue[0].job]).Some?
    ensures Good(Release(s, Tail(s)))
  {
    var r, j := s.rows, s.queue[0].job;
    var r' := Complete(r, r.jobs[j]).value;
    HeadCompletes(s);
    KeepComplete(r, j);
    assert r'.jobs == r.jobs by { CompletedConnection(r, j); }
    KeepSettle(r', j, Completed);
    TailQueueKept(s, r');
  }

  lemma TailQueueKept(s: State, r': Rows)
    requires Good(s) && Subject(s).Some? && Completes(s.rows, s.queue[0].job)
    requires Complete(s.rows, s.rows.jobs[s.queue[0].job]) == Some(r')
    ensures |r'.jobs| == |s.rows.jobs| && GoodQueue(Settle(r', s.queue[0].job, Completed), s.queue[1..])
  {
    var r, j := s.rows, s.queue[0].job;
    CompletedConnection(r, j);
    CompletedArchives(r, j);
    assert GoodTask(r, s.queue, 0);
    QueueRelease(r, Settle(r', j, Completed), s.queue);
  }

  lemma CompletedArchives(r: Rows, j: nat)
    requires Completes(r, j)
    ensures var r' := Complete(r, r.jobs[j]).value;
      forall d | d in r.connections && r'.connections[d].status.Archived? ::
        r.connections[d].status.Archived? || (r.jobs[j].status.Running? && r.jobs[j].connection == d)
  {
  }

  lemma KeepAbandoned(s: State)
    requires Good(s) && s.queue != []
    ensures Good(Abandoned(s))
  {
    assert GoodTask(s.rows, s.queue, 0);
    if Subject(s).Some? {
      KeepSettle(s.rows, s.queue[0].job, Failed);
    }
    QueueRelease(s.rows, Abandoned(s).rows, s.queue);
  }

  lemma KeepRestart(s: State, r: Rows)
    requires GoodRows(r)
    ensures Good(Restart(s, r))
  {
    KeepStatus(r, RecoverInterrupted(r));
  }

  lemma KeepAdvanced(s: State)
    requires Good(s) && s.queue != [] && Current(s).Some?
    ensures Good(Advanced(s))
  {
    if s.progress.FirstCall? && Subject(s).None? {
      assert GoodTask(s.rows, s.queue, 0);
      QueueRelease(s.rows, s.rows, s.queue);
    }
  }

  lemma KeepStoppedTail(s: State)
    requires Good(s) && Subject(s).Some?
    ensures var r := Complete(s.rows, s.rows.jobs[s.queue[0].job]);
      Good(Restart(s, if r.Some? then r.value else s.rows))
  {
    if Complete(s.rows, s.rows.jobs[s.queue[0].job]).Some? {
      HeadCompletes(s);
      KeepComplete(s.rows, s.queue[0].job);
      KeepRestart(s, Complete(s.rows, s.rows.jobs[s.queue[0].job]).value);
    } else {
      KeepRestart(s, s.rows);
    }
  }

  /** The invariant of the rows and the queue holds after every step. */
  lemma KeepGood(s: State, step: Step)
    requires Good(s) && Apply(s, step).Some?
    ensures Good(Apply(s, step).value)
  {
    match step
    case RequestCreate(id) => CreateGood(s, id);
    case RequestRotate(id) => RotateGood(s, id);
    case RequestSuspend(id) => SuspendGood(s, id);
    case RequestResume(id) => ResumeGood(s, id);
    case RequestArchive(id) => ArchiveGood(s, id);
    case RequestRetry(id) => RetryGood(s, id);
    case ClaimJob(id) => QueueClaim(s.rows, s.queue, OpenJob(s.rows.jobs, id).value);
    case RequestReconcile(engine) => QueueReconcile(s.rows, s.queue, engine);
    case Start(hot) => StartGood(s, hot);
    case CallSucceeds(after) => KeepAdvanced(s.(loaded := s.loaded[Current(s).value.engine := after]));
    case CallFails(after) => KeepAbandoned(s.(loaded := s.loaded[Current(s).value.engine := after]));
    case Finish => KeepTail(s);
    case FinishThenStop => KeepStoppedTail(s);
    case Stop => KeepRestart(s, s.rows);
  }

  lemma CreateGood(s: State, id: Id)
    requires Good(s) && Create(s.rows, id).Some?
    ensures Good(s.(rows := Create(s.rows, id).value))
  {
    KeepCreate(s.rows, id);
    NothingToCancel(s.rows.jobs, id);
    QueueRequest(s.rows, Create(s.rows, id).value, s.queue, id, NewJob(id, 1, Activate));
  }

  lemma RotationRequest(r: Rows, id: Id, job: Job)
    requires PrepareRotation(r, id).Some? && job == NewJob(id, r.connections[id].generation + 1, Rotate)
    ensures var r' := PrepareRotation(r, id).value;
      && OnlyConnection(r, r', id) && id in r'.connections && r'.jobs == CancelOpen(r.jobs, id) + [job]
      && id in r.connections && !r.connections[id].archived && !HasOpen(r.jobs, id)
      && r'.connections[id].status.Rotating? && !r'.connections[id].archived
  {
    NothingToCancel(r.jobs, id);
  }

  lemma RotateGood(s: State, id: Id)
    requires Good(s) && PrepareRotation(s.rows, id).Some?
    ensures Good(s.(rows := PrepareRotation(s.rows, id).value))
  {
    KeepRotation(s.rows, id);
    RotationRequest(s.rows, id, NewJob(id, s.rows.connections[id].generation + 1, Rotate));
    QueueRequest(s.rows, PrepareRotation(s.rows, id).value, s.queue, id,
                 NewJob(id, s.rows.connections[id].generation + 1, Rotate));
  }

  lemma SuspendGood(s: State, id: Id)
    requires Good(s) && Suspended(s.rows, id).Some?
    ensures Good(s.(rows := Suspended(s.rows, id).value))
  {
    if Suspended(s.rows, id) == PrepareSuspend(s.rows, id) {
      KeepSuspend(s.rows, id);
      QueueRequest(s.rows, PrepareSuspend(s.rows, id).value, s.queue, id,
                   NewJob(id, s.rows.connections[id].generation, Suspend));
    }
  }

  lemma ResumeGood(s: State, id: Id)
    requires Good(s) && Resumed(s.rows, id).Some?
    ensures Good(s.(rows := Resumed(s.rows, id).value))
  {
    if Resumed(s.rows, id) != Some(s.rows) {
      KeepResume(s.rows, id);
      QueueRequest(s.rows, PrepareResume(s.rows, id).value, s.queue, id,
                   NewJob(id, s.rows.connections[id].generation, Resume));
    }
  }

  lemma ArchiveGood(s: State, id: Id)
    requires Good(s) && PrepareArchive(s.rows, id).Some?
    ensures Good(s.(rows := PrepareArchive(s.rows, id).value))
  {
    KeepArchive(s.rows, id);
    QueueRequest(s.rows, PrepareArchive(s.rows, id).value, s.queue, id,
                 NewJob(id, s.rows.connections[id].generation, Revoke));
  }

  lemma RetryGood(s: State, id: Id)
    requires Good(s) && Retried(s.rows, id).Some?
    ensures Good(s.(rows := Retried(s.rows, id).value))
  {
    var r, r' := s.rows, Retried(s.rows, id).value;
    if r' != r {
      KeepStatus(r, r');
      forall i | 0 <= i < |s.queue| ensures GoodTask(r', s.queue, i) {
        assert GoodTask(r, s.queue, i);
      }
    }
  }

  lemma StartGood(s: State, hot: bool)
    requires Good(s) && Started(s, hot).Some?
    ensures Good(Started(s, hot).value)
  {
    if s.queue[0].Sync? {
      var j := s.queue[0].job;
      if Begin(s, j, hot, LiveGeneration(s.rows, s.rows.jobs[j].connection)).None? {
        KeepAbandoned(s);
      }
    }
  }

  /** Every state a run reaches is good. */
  lemma {:induction false} RunGood(s: State, steps: seq<Step>)
    requires Initial(s) && Run(s, steps).Some?
    ensures Good(Run(s, steps).value)
    decreases |steps|
  {
    if steps != [] {
      RunGood(s, steps[..|steps| - 1]);
      KeepGood(Run(s, steps[..|steps| - 1]).value, steps[|steps| - 1]);
    }
  }
}
