/** What the engines hold over a run: for every connection with nothing left to do, exactly what the
    rows grant. */
module LifecycleEngines {
  import opened Options
  import opened ConnectionRows
  import opened Lifecycle
  import opened LifecycleInvariant

  /** No engine may hold the connection: it is archived with no live credential left. */
  ghost predicate Absent(r: Rows, id: Id) {
    id in r.connections && r.connections[id].archived && !HasLive(r, id)
  }

  /** The load is right for every connection whose jobs are all done, and leaves out the absent. */
  ghost predicate Fair(r: Rows, load: Load, id: Id) {
    && (!HasOpen(r.jobs, id) ==> Part(load, id) == Granted(r, id))
    && (Absent(r, id) ==> Part(load, id).None?)
  }

  ghost predicate FairLoad(r: Rows, load: Load) {
    forall id :: Fair(r, load, id)
  }

  /** A task of the connection is queued or running, and its job wants the connection loaded. */
  ghost predicate LoadQueued(s: State, id: Id) {
    exists i :: 0 <= i < |s.queue| && TaskOf(s, i, id) && Goal(s.rows.jobs[s.queue[i].job]).Some?
  }

  ghost predicate ResumeQueued(s: State, id: Id) {
    exists i :: 0 <= i < |s.queue| && TaskOf(s, i, id) && s.rows.jobs[s.queue[i].job].kind.Resume?
  }

  predicate TaskOf(s: State, i: nat, id: Id)
    requires i < |s.queue|
  {
    s.queue[i].Sync? && s.queue[i].job < |s.rows.jobs| && s.rows.jobs[s.queue[i].job].connection == id
  }

  /** Requests the engines' agreement depends on: no suspend while a resume of that connection is
      queued or running, and no archive of a connection that was never activated while an engine
      holds it all the same, or a task that would load it is queued or running. */
  ghost predicate Safe(s: State, step: Step) {
    && (step.RequestSuspend? ==> !ResumeQueued(s, step.id))
    && (step.RequestArchive? && step.id in s.rows.connections && s.rows.connections[step.id].status.Provisioning? ==>
          !LoadQueued(s, step.id) && forall e | e in s.loaded :: step.id !in s.loaded[e])
  }

  /** An open suspend means the connection is suspended and no resume is queued before it. */
  ghost predicate SuspendHolds(s: State) {
    forall j | 0 <= j < |s.rows.jobs| && s.rows.jobs[j].Open() && s.rows.jobs[j].kind.Suspend? ::
      && s.rows.jobs[j].connection in s.rows.connections
      && s.rows.connections[s.rows.jobs[j].connection].suspended
      && !ResumeQueued(s, s.rows.jobs[j].connection)
  }

  /** A queued task of an absent connection wants it left out. */
  ghost predicate AbsentTasks(s: State) {
    forall i | 0 <= i < |s.queue| && s.queue[i].Sync? && s.queue[i].job < |s.rows.jobs| ::
      Absent(s.rows, s.rows.jobs[s.queue[i].job].connection) ==> Goal(s.rows.jobs[s.queue[i].job]).None?
  }

  ghost function HeadGoal(s: State): Option<nat>
    requires Subject(s).Some?
  {
    Goal(s.rows.jobs[s.queue[0].job])
  }

  /** The load holds no connection that was never activated, other than the one a job is about. */
  ghost predicate SparesUnused(r: Rows, load: Load, subject: Option<Id>) {
    forall d | d in r.connections && r.connections[d].status.Provisioning? && subject != Some(d) :: d !in load
  }

  /** A call under way asks for a fair load that has the job's connection as the job wants it. */
  ghost predicate GoodPush(s: State, push: Push) {
    && push.engine in s.loaded
    && FairLoad(s.rows, push.target) && SparesUnused(s.rows, push.target, Subject(s))
    && (Subject(s).Some? ==> Part(push.target, Subject(s).value) == HeadGoal(s))
    && match push.mode
       case Whole => true
       case HotAdd(id, g) => Subject(s) == Some(id) && HeadGoal(s) == Some(g)
       case HotRemove(id, _) => Subject(s) == Some(id) && HeadGoal(s) == None
  }

  /** The engines called so far hold the job's connection as the job wants it. */
  ghost predicate GoodProgress(s: State) {
    match s.progress
    case NotStarted => true
    case FirstCall(push) => GoodPush(s, push) && (Subject(s).Some? ==> push.engine == XRAY)
    case OptionalCalls(todo) =>
      && Subject(s).Some?
      && |todo| <= |s.optional|
      && (forall i | 0 <= i < |todo| ::
            GoodPush(s, todo[i]) && todo[i].mode.Whole? && todo[i].engine == s.optional[|s.optional| - |todo| + i])
      && (forall e | e in s.loaded && e !in s.optional[|s.optional| - |todo|..] ::
            Part(s.loaded[e], Subject(s).value) == HeadGoal(s))
  }

  ghost predicate Engines(s: State) {
    && XRAY in s.loaded
    && (forall i | 0 <= i < |s.optional| :: s.optional[i] in s.loaded && s.optional[i] != XRAY)
    && (forall e | e in s.loaded && e != XRAY :: e in s.optional)
    && (forall i, k | 0 <= i < k < |s.optional| :: s.optional[i] != s.optional[k])
    && (forall i | 0 <= i < |s.queue| && s.queue[i].Reconcile? :: s.queue[i].engine in s.loaded)
  }

  ghost predicate Agreeing(s: State) {
    && Good(s) && Engines(s)
    && (forall e | e in s.loaded :: FairLoad(s.rows, s.loaded[e]))
    && SuspendHolds(s) && AbsentTasks(s) && GoodProgress(s)
  }

  // ---------------------------------------------------------------- changes of rows that keep loads fair

  /** Nobody loses their open job or gains a grant, and nobody becomes absent who was not. */
  ghost predicate Gentle(r: Rows, r': Rows) {
    && (forall id :: !HasOpen(r'.jobs, id) ==> !HasOpen(r.jobs, id) && Granted(r', id) == Granted(r, id))
    && (forall id :: Absent(r', id) ==> Absent(r, id) || (!HasOpen(r.jobs, id) && Granted(r, id).None?))
  }

  lemma GentleFair(r: Rows, r': Rows, load: Load)
    requires Gentle(r, r') && FairLoad(r, load)
    ensures FairLoad(r', load)
  {
    forall id ensures Fair(r', load, id) {
      assert Fair(r, load, id);
    }
  }

  /** Jobs keep what they are about; only their status and attempts change. */
  ghost predicate SameJobs(r: Rows, r': Rows) {
    && |r.jobs| <= |r'.jobs|
    && forall j | 0 <= j < |r.jobs| ::
         && r'.jobs[j].connection == r.jobs[j].connection
         && r'.jobs[j].generation == r.jobs[j].generation
         && r'.jobs[j].kind == r.jobs[j].kind
  }

  /** No connection becomes unused again. */
  ghost predicate NeverUnused(r: Rows, r': Rows) {
    forall d | d in r'.connections && r'.connections[d].status.Provisioning? && d in r.connections ::
      r.connections[d].status.Provisioning?
  }

  lemma KeepSpares(r: Rows, r': Rows, load: Load, subject: Option<Id>)
    requires GoodRows(r) && NeverUnused(r, r') && FairLoad(r, load) && SparesUnused(r, load, subject)
    ensures SparesUnused(r', load, subject)
  {
    forall d | d in r'.connections && r'.connections[d].status.Provisioning? && subject != Some(d)
      ensures d !in load {
      if d !in r.connections {
        assert !HasOpen(r.jobs, d) by {
          forall j | 0 <= j < |r.jobs| ensures r.jobs[j].connection != d {
            assert GoodJob(r, j);
          }
        }
        assert Fair(r, load, d);
      }
    }
  }

  /** A request: rows change gently, under the same queue and the same call in progress. */
  lemma KeepRequested(s: State, r': Rows)
    requires Agreeing(s) && Good(s.(rows := r')) && Gentle(s.rows, r') && SameJobs(s.rows, r')
    requires NeverUnused(s.rows, r')
    requires SuspendHolds(s.(rows := r'))
    ensures Agreeing(s.(rows := r'))
  {
    var s' := s.(rows := r');
    forall e | e in s'.loaded ensures FairLoad(r', s'.loaded[e]) {
      GentleFair(s.rows, r', s.loaded[e]);
    }
    if s.queue != [] {
      assert GoodTask(s.rows, s.queue, 0);
    }
    assert Subject(s') == Subject(s);
    KeepProgress(s, r');
    forall i | 0 <= i < |s.queue| && s.queue[i].Sync? && s.queue[i].job < |r'.jobs|
      ensures Absent(r', r'.jobs[s.queue[i].job].connection) ==> Goal(r'.jobs[s.queue[i].job]).None? {
      assert GoodTask(s.rows, s.queue, i);
      var c := s.rows.jobs[s.queue[i].job].connection;
      if Absent(r', c) && !Absent(s.rows, c) {
        NoTasks(s.rows, s.queue, c, i);
      }
    }
  }

  lemma KeepProgress(s: State, r': Rows)
    requires Agreeing(s) && Gentle(s.rows, r') && SameJobs(s.rows, r') && NeverUnused(s.rows, r')
    requires s.queue != [] && s.queue[0].Sync? ==> s.queue[0].job < |s.rows.jobs|
    ensures GoodProgress(s.(rows := r'))
  {
    var s' := s.(rows := r');
    match s.progress
    case NotStarted =>
    case FirstCall(push) =>
      GentleFair(s.rows, r', push.target);
      KeepSpares(s.rows, r', push.target, Subject(s));
    case OptionalCalls(todo) =>
      forall i | 0 <= i < |todo| ensures GoodPush(s', todo[i]) {
        assert GoodPush(s, todo[i]);
        GentleFair(s.rows, r', todo[i].target);
        KeepSpares(s.rows, r', todo[i].target, Subject(s));
      }
  }

  lemma LiveElsewhere(r: Rows, r': Rows, id: Id, d: Id)
    requires OnlyConnection(r, r', id) && d != id
    ensures HasLive(r', d) <==> HasLive(r, d)
  {
    if HasLive(r, d) {
      var g :| LiveAt(r, d, g);
      assert LiveAt(r', d, g);
    }
    if HasLive(r', d) {
      var g :| LiveAt(r', d, g);
      assert LiveAt(r, d, g);
    }
  }

  /** Replacing the open job of one connection is gentle, if that connection is not made absent. */
  lemma GentleRequest(r: Rows, r': Rows, id: Id, job: Job)
    requires GoodRows(r) && OnlyConnection(r, r', id) && id in r'.connections
    requires r'.jobs == CancelOpen(r.jobs, id) + [job] && job.Open() && job.connection == id
    requires Absent(r', id) ==> Absent(r, id) || id !in r.connections
    ensures Gentle(r, r') && SameJobs(r, r')
  {
    OpenAfter(r.jobs, id, job);
    forall d | Absent(r', d) ensures Absent(r, d) || (!HasOpen(r.jobs, d) && Granted(r, d).None?) {
      if d != id {
        LiveElsewhere(r, r', id, d);
        forall j | 0 <= j < |r.jobs| && r.jobs[j].connection == d ensures r'.jobs[j] == r.jobs[j] {
        }
      } else if d !in r.connections {
        forall j | 0 <= j < |r.jobs| ensures r.jobs[j].connection != id {
          assert GoodJob(r, j);
        }
      }
    }
  }

  /** A change of status between open states is gentle. */
  lemma GentleStatus(r: Rows, r': Rows)
    requires GoodRows(r) && SameJobs(r, r') && |r.jobs| == |r'.jobs|
    requires r'.connections == r.connections && r'.credentials == r.credentials
    requires forall j | 0 <= j < |r.jobs| :: r'.jobs[j].Open() <==> r.jobs[j].Open()
    ensures Gentle(r, r')
  {
    KeepStatus(r, r');
    forall d | Absent(r', d) ensures Absent(r, d) {
      if HasLive(r, d) {
        var g :| LiveAt(r, d, g);
        assert LiveAt(r', d, g);
      }
    }
  }

  lemma LiveWhenInUse(r: Rows, id: Id)
    requires id in r.connections && GoodConnection(r, id)
    requires r.connections[id].status.Active? || r.connections[id].status.Rotating?
    ensures HasLive(r, id)
  {
    var g := r.connections[id].generation;
    assert LiveAt(r, id, g) || LiveAt(r, id, g - 1);
  }

  lemma HoldsAfterRequest(s: State, r': Rows, id: Id, job: Job)
    requires Good(s) && SuspendHolds(s) && OnlyConnection(s.rows, r', id)
    requires r'.jobs == CancelOpen(s.rows.jobs, id) + [job] && job.connection == id && !job.kind.Suspend?
    ensures SuspendHolds(s.(rows := r'))
  {
    assert SameJobs(s.rows, r');
    QueuedJobsSame(s, r');
  }

  lemma AgreeCreate(s: State, id: Id)
    requires Agreeing(s) && Create(s.rows, id).Some?
    ensures Agreeing(s.(rows := Create(s.rows, id).value))
  {
    var r' := Create(s.rows, id).value;
    CreateGood(s, id);
    NothingToCancel(s.rows.jobs, id);
    GentleRequest(s.rows, r', id, NewJob(id, 1, Activate));
    HoldsAfterRequest(s, r', id, NewJob(id, 1, Activate));
    KeepRequested(s, r');
  }

  lemma AgreeRotate(s: State, id: Id)
    requires Agreeing(s) && PrepareRotation(s.rows, id).Some?
    ensures Agreeing(s.(rows := PrepareRotation(s.rows, id).value))
  {
    var r' := PrepareRotation(s.rows, id).value;
    RotateGood(s, id);
    var job := NewJob(id, s.rows.connections[id].generation + 1, Rotate);
    RotationRequest(s.rows, id, job);
    GentleRequest(s.rows, r', id, job);
    HoldsAfterRequest(s, r', id, job);
    KeepRequested(s, r');
  }

  lemma AgreeSuspend(s: State, id: Id)
    requires Agreeing(s) && Suspended(s.rows, id).Some? && Safe(s, RequestSuspend(id))
    ensures Agreeing(s.(rows := Suspended(s.rows, id).value))
  {
    var r' := Suspended(s.rows, id).value;
    SuspendGood(s, id);
    if Suspended(s.rows, id) == PrepareSuspend(s.rows, id) {
      GentleRequest(s.rows, r', id, NewJob(id, s.rows.connections[id].generation, Suspend));
      HoldsAfterSuspend(s, r', id);
      KeepRequested(s, r');
    }
  }

  lemma HoldsAfterSuspend(s: State, r': Rows, id: Id)
    requires Good(s) && SuspendHolds(s) && PrepareSuspend(s.rows, id) == Some(r') && Safe(s, RequestSuspend(id))
    ensures SuspendHolds(s.(rows := r'))
  {
    assert SameJobs(s.rows, r');
    QueuedJobsSame(s, r');
  }

  lemma QueuedJobsSame(s: State, r': Rows)
    requires Good(s) && SameJobs(s.rows, r')
    ensures forall i | 0 <= i < |s.queue| && s.queue[i].Sync? ::
      && s.queue[i].job < |s.rows.jobs|
      && r'.jobs[s.queue[i].job].connection == s.rows.jobs[s.queue[i].job].connection
      && r'.jobs[s.queue[i].job].kind == s.rows.jobs[s.queue[i].job].kind
  {
    forall i | 0 <= i < |s.queue| && s.queue[i].Sync? ensures s.queue[i].job < |s.rows.jobs| {
      assert GoodTask(s.rows, s.queue, i);
    }
  }

  lemma AgreeResume(s: State, id: Id)
    requires Agreeing(s) && Resumed(s.rows, id).Some?
    ensures Agreeing(s.(rows := Resumed(s.rows, id).value))
  {
    var r' := Resumed(s.rows, id).value;
    ResumeGood(s, id);
    if Resumed(s.rows, id) != Some(s.rows) {
      var job := NewJob(id, s.rows.connections[id].generation, Resume);
      GentleRequest(s.rows, r', id, job);
      HoldsAfterRequest(s, r', id, job);
      KeepRequested(s, r');
    }
  }

  lemma AgreeArchive(s: State, id: Id)
    requires Agreeing(s) && PrepareArchive(s.rows, id).Some? && Safe(s, RequestArchive(id))
    ensures Agreeing(s.(rows := PrepareArchive(s.rows, id).value))
  {
    var r, r' := s.rows, PrepareArchive(s.rows, id).value;
    ArchiveGood(s, id);
    HoldsAfterRequest(s, r', id, NewJob(id, r.connections[id].generation, Revoke));
    if r.connections[id].status.Provisioning? {
      AgreeArchiveUnused(s, id);
    } else {
      assert GoodConnection(r, id);
      if Absent(r', id) {
        LiveWhenInUse(r, id);
        var g :| LiveAt(r, id, g);
        assert LiveAt(r', id, g);
      }
      GentleRequest(r, r', id, NewJob(id, r.connections[id].generation, Revoke));
      KeepRequested(s, r');
    }
  }

  /** The rows after the archive of a connection that was never activated are fair to a load without it. */
  lemma UnusedFair(r: Rows, r': Rows, id: Id, load: Load)
    requires GoodRows(r) && PrepareArchive(r, id) == Some(r') && FairLoad(r, load) && id !in load
    ensures FairLoad(r', load)
  {
    OpenAfter(r.jobs, id, NewJob(id, r.connections[id].generation, Revoke));
    forall d ensures Fair(r', load, d) {
      assert Fair(r, load, d);
      if d != id {
        LiveElsewhere(r, r', id, d);
      }
    }
  }

  lemma UnusedPush(s: State, r': Rows, id: Id, push: Push)
    requires Good(s) && PrepareArchive(s.rows, id) == Some(r') && s.rows.connections[id].status.Provisioning?
    requires !LoadQueued(s, id) && GoodPush(s, push)
    ensures GoodPush(s.(rows := r'), push)
  {
    if Subject(s) == Some(id) {
      assert TaskOf(s, 0, id);
    }
    if s.queue != [] {
      assert GoodTask(s.rows, s.queue, 0);
    }
    UnusedFair(s.rows, r', id, push.target);
  }

  lemma UnusedProgress(s: State, r': Rows, id: Id)
    requires Agreeing(s) && PrepareArchive(s.rows, id) == Some(r') && s.rows.connections[id].status.Provisioning?
    requires !LoadQueued(s, id)
    ensures GoodProgress(s.(rows := r'))
  {
    var s' := s.(rows := r');
    if s.queue != [] {
      assert GoodTask(s.rows, s.queue, 0);
    }
    assert Subject(s') == Subject(s);
    match s.progress
    case NotStarted =>
    case FirstCall(push) => UnusedPush(s, r', id, push);
    case OptionalCalls(todo) =>
      forall i | 0 <= i < |todo| ensures GoodPush(s', todo[i]) {
        UnusedPush(s, r', id, todo[i]);
      }
  }

  /** An archive of a connection that was never activated, that no engine holds, and that no task
      would load. */
  lemma AgreeArchiveUnused(s: State, id: Id)
    requires Agreeing(s) && PrepareArchive(s.rows, id).Some? && Safe(s, RequestArchive(id))
    requires s.rows.connections[id].status.Provisioning?
    requires var s' := s.(rows := PrepareArchive(s.rows, id).value); Good(s') && SuspendHolds(s')
    ensures Agreeing(s.(rows := PrepareArchive(s.rows, id).value))
  {
    var r, r' := s.rows, PrepareArchive(s.rows, id).value;
    var s' := s.(rows := r');
    forall e | e in s'.loaded ensures FairLoad(r', s'.loaded[e]) {
      UnusedFair(r, r', id, s.loaded[e]);
    }
    UnusedProgress(s, r', id);
    QueuedJobsSame(s, r');
    forall i | 0 <= i < |s.queue| && s.queue[i].Sync? && s.queue[i].job < |r'.jobs|
      ensures Absent(r', r'.jobs[s.queue[i].job].connection) ==> Goal(r'.jobs[s.queue[i].job]).None? {
      var c := r.jobs[s.queue[i].job].connection;
      if c == id {
        assert TaskOf(s, i, id);
      } else {
        LiveElsewhere(r, r', id, c);
      }
    }
  }

  lemma AgreeRetry(s: State, id: Id)
    requires Agreeing(s) && Retried(s.rows, id).Some?
    ensures Agreeing(s.(rows := Retried(s.rows, id).value))
  {
    var r' := Retried(s.rows, id).value;
    if r' != s.rows {
      RetryGood(s, id);
      AgreePending(s, OpenJob(s.rows.jobs, id).value);
    }
  }

  lemma AgreePending(s: State, j: nat)
    requires Agreeing(s) && j < |s.rows.jobs| && s.rows.jobs[j].status.Failed?
    requires Good(s.(rows := SetStatus(s.rows, j, Waiting)))
    ensures Agreeing(s.(rows := SetStatus(s.rows, j, Waiting)))
  {
    var r' := SetStatus(s.rows, j, Waiting);
    GentleStatus(s.rows, r');
    QueuedJobsSame(s, r');
    KeepRequested(s, r');
  }

  // ---------------------------------------------------------------- the queue grows and shrinks

  lemma AgreeClaim(s: State, j: nat)
    requires Agreeing(s) && j < |s.rows.jobs| && s.rows.jobs[j].Open() && !s.rows.jobs[j].status.Running?
    ensures Agreeing(s.(rows := Claim(s.rows, j), queue := s.queue + [Sync(j)]))
  {
    var r' := Claim(s.rows, j);
    var s' := s.(rows := r', queue := s.queue + [Sync(j)]);
    QueueClaim(s.rows, s.queue, j);
    GentleStatus(s.rows, r');
    forall e | e in s'.loaded ensures FairLoad(r', s'.loaded[e]) {
      GentleFair(s.rows, r', s.loaded[e]);
    }
    ClaimTasks(s, j);
    assert GoodProgress(s') by {
      if s.queue != [] {
        assert GoodTask(s.rows, s.queue, 0);
        KeepProgress(s, r');
        ProgressAppend(s.(rows := r'), Sync(j));
      }
    }
  }

  /** The call in progress does not depend on what waits behind it. */
  lemma ProgressAppend(s: State, task: Task)
    requires GoodProgress(s) && s.queue != []
    ensures GoodProgress(s.(queue := s.queue + [task]))
  {
    var s' := s.(queue := s.queue + [task]);
    assert s'.queue[0] == s.queue[0];
    if s.progress.OptionalCalls? {
      forall i | 0 <= i < |s.progress.todo| ensures GoodPush(s', s.progress.todo[i]) {
        assert GoodPush(s, s.progress.todo[i]);
      }
    }
  }

  lemma ClaimTasks(s: State, j: nat)
    requires Agreeing(s) && j < |s.rows.jobs| && s.rows.jobs[j].Open() && !s.rows.jobs[j].status.Running?
    ensures var s' := s.(rows := Claim(s.rows, j), queue := s.queue + [Sync(j)]);
      SuspendHolds(s') && AbsentTasks(s')
  {
    var r' := Claim(s.rows, j);
    var s' := s.(rows := r', queue := s.queue + [Sync(j)]);
    QueuedJobsSame(s, r');
    GentleStatus(s.rows, r');
    assert GoodJob(s.rows, j);
    forall i | 0 <= i < |s'.queue| && s'.queue[i].Sync? && s'.queue[i].job < |r'.jobs|
      ensures Absent(r', r'.jobs[s'.queue[i].job].connection) ==> Goal(r'.jobs[s'.queue[i].job]).None? {
      if i < |s.queue| {
        assert s'.queue[i] == s.queue[i];
        var c := s.rows.jobs[s.queue[i].job].connection;
        if Absent(r', c) && !Absent(s.rows, c) {
          NoTasks(s.rows, s.queue, c, i);
        }
      } else {
        assert GoodJob(s.rows, j);
      }
    }
    forall k | 0 <= k < |r'.jobs| && r'.jobs[k].Open() && r'.jobs[k].kind.Suspend?
      ensures forall i | 0 <= i < |s'.queue| && s'.queue[i].Sync? && s'.queue[i].job < |r'.jobs| ::
        r'.jobs[s'.queue[i].job].connection == r'.jobs[k].connection ==> !r'.jobs[s'.queue[i].job].kind.Resume? {
      assert s.rows.jobs[k].Open();
      forall i | 0 <= i < |s'.queue| && s'.queue[i].Sync? && s'.queue[i].job < |r'.jobs| &&
                 r'.jobs[s'.queue[i].job].connection == r'.jobs[k].connection
        ensures !r'.jobs[s'.queue[i].job].kind.Resume? {
        if i < |s.queue| {
          assert s'.queue[i] == s.queue[i];
        } else if j != k {
          assert false;
        }
      }
    }
  }

  lemma AgreeReconcile(s: State, engine: Engine)
    requires Agreeing(s) && engine in s.loaded
    ensures Agreeing(s.(queue := s.queue + [Reconcile(engine)]))
  {
    QueueReconcile(s.rows, s.queue, engine);
    if s.queue != [] {
      ProgressAppend(s, Reconcile(engine));
    }
  }

  /** The lock passes on: all that is left to show is that the loads are fair to the rows. */
  lemma KeepReleased(s: State, r': Rows)
    requires s.queue != [] && Engines(s) && Good(Release(s, r'))
    requires forall e | e in s.loaded :: FairLoad(r', s.loaded[e])
    requires SuspendHolds(s.(rows := r')) && AbsentTasks(s.(rows := r'))
    ensures Agreeing(Release(s, r'))
  {
    var s' := Release(s, r');
    forall i | 0 <= i < |s'.queue| ensures s'.queue[i] == s.queue[i + 1] {
    }
  }

  /** A restart: the same, with no queue at all. */
  lemma KeepRestarted(s: State, r: Rows)
    requires Engines(s) && GoodRows(r)
    requires forall e | e in s.loaded :: FairLoad(r, s.loaded[e])
    requires SuspendHolds(s.(rows := r, queue := []))
    ensures Agreeing(Restart(s, r))
  {
    KeepRestart(s, r);
    var r' := RecoverInterrupted(r);
    GentleStatus(r, r');
    forall e | e in s.loaded ensures FairLoad(r', s.loaded[e]) {
      GentleFair(r, r', s.loaded[e]);
    }
  }

  // ---------------------------------------------------------------- engine calls

  lemma SnapshotPart(r: Rows, subject: Option<Id>, generation: Option<nat>, id: Id)
    ensures Part(Snapshot(r, subject, generation), id) == Chosen(r, subject, generation, id)
  {
  }

  lemma HeadIsOpen(s: State)
    requires Good(s) && Subject(s).Some?
    ensures HasOpen(s.rows.jobs, Subject(s).value)
    ensures Subject(s).value in s.rows.connections
    ensures s.rows.jobs[s.queue[0].job].kind.Revoke? ==> s.rows.connections[Subject(s).value].archived
  {
    var j := s.queue[0].job;
    assert GoodTask(s.rows, s.queue, 0) && GoodJob(s.rows, j);
    if s.rows.jobs[j].status.Running? {
      assert s.rows.jobs[j].Open();
    }
  }

  /** A snapshot taken by the task holding the lock is fair. */
  lemma SnapshotFair(s: State)
    requires Agreeing(s) && s.queue != []
    ensures Subject(s).Some? ==> FairLoad(s.rows, Snapshot(s.rows, Subject(s), HeadGoal(s)))
    ensures Subject(s).None? ==> FairLoad(s.rows, Snapshot(s.rows, None, None))
  {
    var goal := if Subject(s).Some? then HeadGoal(s) else None;
    var load := Snapshot(s.rows, Subject(s), goal);
    if Subject(s).Some? {
      HeadIsOpen(s);
      assert Absent(s.rows, Subject(s).value) ==> Goal(s.rows.jobs[s.queue[0].job]).None?;
    }
    forall id ensures Fair(s.rows, load, id) {
      SnapshotPart(s.rows, Subject(s), goal, id);
    }
  }

  lemma AgreeStart(s: State, hot: bool)
    requires Agreeing(s) && Started(s, hot).Some?
    ensures Agreeing(Started(s, hot).value)
  {
    match s.queue[0]
    case Reconcile(engine) => SnapshotFair(s);
    case Sync(j) =>
      StartGood(s, hot);
      var first := Begin(s, j, hot, LiveGeneration(s.rows, s.rows.jobs[j].connection));
      if first.None? {
        AgreeAbandoned(s);
      } else {
        StartProgress(s, hot, first.value);
      }
  }

  lemma StartProgress(s: State, hot: bool, first: Progress)
    requires Agreeing(s) && Subject(s).Some?
    requires Begin(s, s.queue[0].job, hot, LiveGeneration(s.rows, Subject(s).value)) == Some(first)
    ensures GoodProgress(s.(progress := first))
  {
    var id := Subject(s).value;
    HeadIsOpen(s);
    if first.FirstCall? {
      SnapshotFair(s);
      SnapshotSpares(s);
      SnapshotPart(s.rows, Some(id), HeadGoal(s), id);
      assert first.push.target == Snapshot(s.rows, Some(id), HeadGoal(s));
    } else {
      NothingToRevoke(s);
    }
  }

  lemma SnapshotSpares(s: State)
    requires Subject(s).Some?
    ensures SparesUnused(s.rows, Snapshot(s.rows, Subject(s), HeadGoal(s)), Subject(s))
  {
  }

  /** A revoke that makes no call finds its connection in no engine. */
  lemma NothingToRevoke(s: State)
    requires Agreeing(s) && Subject(s).Some? && s.rows.jobs[s.queue[0].job].kind.Revoke?
    requires !HasLive(s.rows, Subject(s).value)
    ensures forall e | e in s.loaded :: Part(s.loaded[e], Subject(s).value).None?
  {
    HeadIsOpen(s);
    forall e | e in s.loaded ensures Part(s.loaded[e], Subject(s).value).None? {
      assert Fair(s.rows, s.loaded[e], Subject(s).value);
    }
  }

  lemma AgreeAbandoned(s: State)
    requires Agreeing(s.(progress := NotStarted)) && Good(s) && s.queue != []
    ensures Agreeing(Abandoned(s))
  {
    KeepAbandoned(s);
    var r' := Abandoned(s).rows;
    GentleStatus(s.rows, r');
    forall e | e in s.loaded ensures FairLoad(r', s.loaded[e]) {
      GentleFair(s.rows, r', s.loaded[e]);
    }
    QueuedJobsSame(s, r');
    AbsentKept(s, r');
    KeepReleased(s, r');
  }

  lemma AbsentKept(s: State, r': Rows)
    requires Good(s) && AbsentTasks(s) && Gentle(s.rows, r') && SameJobs(s.rows, r')
    ensures AbsentTasks(s.(rows := r'))
  {
    QueuedJobsSame(s, r');
    forall i | 0 <= i < |s.queue| && s.queue[i].Sync? && s.queue[i].job < |r'.jobs|
      ensures Absent(r', r'.jobs[s.queue[i].job].connection) ==> Goal(r'.jobs[s.queue[i].job]).None? {
      var c := s.rows.jobs[s.queue[i].job].connection;
      if Absent(r', c) && !Absent(s.rows, c) {
        NoTasks(s.rows, s.queue, c, i);
      }
    }
  }

  lemma LandedFair(s: State, push: Push, before: Load, after: Load)
    requires Agreeing(s) && GoodPush(s, push) && FairLoad(s.rows, before) && Landed(push, before, after)
    requires s.queue != []
    ensures FairLoad(s.rows, after)
    ensures Subject(s).Some? ==> Part(after, Subject(s).value) == HeadGoal(s)
  {
    if Subject(s).Some? {
      HeadIsOpen(s);
      assert Absent(s.rows, Subject(s).value) ==> Goal(s.rows.jobs[s.queue[0].job]).None?;
    }
    forall id ensures Fair(s.rows, after, id) {
      assert Fair(s.rows, before, id) && Fair(s.rows, push.target, id);
    }
  }

  lemma BotchedFair(s: State, push: Push, before: Load, after: Load)
    requires Agreeing(s) && GoodPush(s, push) && FairLoad(s.rows, before)
    requires Botched(push, Subject(s), before, after) && s.queue != []
    ensures FairLoad(s.rows, after)
  {
    if Subject(s).Some? {
      HeadIsOpen(s);
    }
    forall id ensures Fair(s.rows, after, id) {
      assert Fair(s.rows, before, id) && Fair(s.rows, push.target, id);
    }
  }

  lemma CurrentGood(s: State)
    requires Agreeing(s) && Current(s).Some?
    ensures GoodPush(s, Current(s).value) && s.queue != []
  {
  }

  lemma AgreeFails(s: State, after: Load)
    requires Agreeing(s) && Apply(s, CallFails(after)).Some?
    ensures Agreeing(Apply(s, CallFails(after)).value)
  {
    var push := Current(s).value;
    CurrentGood(s);
    BotchedFair(s, push, s.loaded[push.engine], after);
    AgreeAbandoned(s.(loaded := s.loaded[push.engine := after]));
  }

  lemma AgreeSucceeds(s: State, after: Load)
    requires Agreeing(s) && Apply(s, CallSucceeds(after)).Some?
    ensures Agreeing(Apply(s, CallSucceeds(after)).value)
  {
    var push := Current(s).value;
    CurrentGood(s);
    LandedFair(s, push, s.loaded[push.engine], after);
    AgreeAdvanced(s, push, after);
  }

  lemma AgreeAdvanced(s: State, push: Push, after: Load)
    requires Agreeing(s) && s.queue != [] && Current(s) == Some(push) && push.engine in s.loaded
    requires FairLoad(s.rows, after) && (Subject(s).Some? ==> Part(after, Subject(s).value) == HeadGoal(s))
    ensures Agreeing(Advanced(s.(loaded := s.loaded[push.engine := after])))
  {
    var s1 := s.(loaded := s.loaded[push.engine := after]);
    KeepAdvanced(s1);
    if Subject(s).None? {
      KeepReleased(s1, s1.rows);
    } else {
      if s.progress.FirstCall? {
        FirstDone(s, s1);
      } else {
        OptionalDone(s, s1);
      }
      KeepLoaded(s, s1.loaded, Advanced(s1).progress);
    }
  }

  /** A load and the progress change, and nothing else. */
  lemma KeepLoaded(s: State, loaded: map<Engine, Load>, progress: Progress)
    requires Agreeing(s) && s.queue != [] && loaded.Keys == s.loaded.Keys
    requires forall e | e in loaded :: FairLoad(s.rows, loaded[e])
    requires GoodProgress(s.(loaded := loaded, progress := progress))
    ensures Agreeing(s.(loaded := loaded, progress := progress))
  {
  }

  lemma FirstDone(s: State, s1: State)
    requires Agreeing(s) && s.progress.FirstCall? && Subject(s).Some? && s.queue != []
    requires XRAY in s1.loaded && s1 == s.(loaded := s.loaded[XRAY := s1.loaded[XRAY]])
    requires Part(s1.loaded[XRAY], Subject(s).value) == HeadGoal(s)
    ensures GoodProgress(Advanced(s1))
  {
    var s' := Advanced(s1);
    var id := Subject(s).value;
    SnapshotFair(s);
    SnapshotPart(s.rows, Some(id), HeadGoal(s), id);
    assert s'.optional[0..] == s'.optional;
    forall i | 0 <= i < |s'.progress.todo| ensures GoodPush(s', s'.progress.todo[i]) {
      FirstPush(s, s', i);
    }
  }

  lemma FirstPush(s: State, s': State, i: nat)
    requires Engines(s) && Subject(s).Some? && i < |s.optional| && s'.progress.OptionalCalls?
    requires s'.rows == s.rows && s'.queue == s.queue && s'.loaded.Keys == s.loaded.Keys
    requires s'.progress.todo == OptionalPushes(s, Subject(s), HeadGoal(s))
    requires FairLoad(s.rows, Snapshot(s.rows, Subject(s), HeadGoal(s)))
    ensures i < |s'.progress.todo| && GoodPush(s', s'.progress.todo[i])
  {
    SnapshotPart(s.rows, Subject(s), HeadGoal(s), Subject(s).value);
  }

  lemma SamePush(s: State, s': State, push: Push)
    requires GoodPush(s, push)
    requires s'.rows == s.rows && s'.queue == s.queue && s'.loaded.Keys == s.loaded.Keys
    ensures GoodPush(s', push)
  {
  }

  lemma OptionalDone(s: State, s1: State)
    requires GoodProgress(s) && s.progress.OptionalCalls? && s.progress.todo != [] && s.queue != []
    requires var e := s.progress.todo[0].engine;
      && e in s1.loaded && s1 == s.(loaded := s.loaded[e := s1.loaded[e]])
      && Part(s1.loaded[e], Subject(s).value) == HeadGoal(s)
    ensures GoodProgress(Advanced(s1))
  {
    var s' := Advanced(s1);
    var todo, k := s.progress.todo, |s.optional| - |s.progress.todo|;
    forall i | 0 <= i < |s'.progress.todo| ensures GoodPush(s', s'.progress.todo[i]) {
      assert s'.progress.todo[i] == todo[i + 1];
      SamePush(s, s', todo[i + 1]);
    }
    DoneEngines(s, s1, k);
  }

  lemma DoneEngines(s: State, s1: State, k: nat)
    requires GoodProgress(s) && s.progress.OptionalCalls? && Subject(s).Some? && k < |s.optional|
    requires k == |s.optional| - |s.progress.todo|
    requires var e := s.optional[k];
      e in s1.loaded && s1.loaded == s.loaded[e := s1.loaded[e]] && Part(s1.loaded[e], Subject(s).value) == HeadGoal(s)
    ensures forall e | e in s1.loaded && e !in s.optional[k + 1..] ::
      Part(s1.loaded[e], Subject(s).value) == HeadGoal(s)
  {
    forall e | e in s1.loaded && e !in s.optional[k + 1..]
      ensures Part(s1.loaded[e], Subject(s).value) == HeadGoal(s) {
      OtherEngine(s.optional, k, e);
    }
  }

  lemma OtherEngine(engines: seq<Engine>, k: nat, e: Engine)
    requires k < |engines| && e !in engines[k + 1..]
    ensures e == engines[k] || e !in engines[k..]
  {
    assert engines[k..] == [engines[k]] + engines[k + 1..];
  }

  // ---------------------------------------------------------------- the tail of a job

  /** All engines have been called, and hold the connection as its job wants it. */
  lemma AllCalled(s: State)
    requires Agreeing(s) && s.progress == OptionalCalls([]) && Subject(s).Some?
    ensures forall e | e in s.loaded :: Part(s.loaded[e], Subject(s).value) == HeadGoal(s)
  {
    assert s.optional[|s.optional|..] == [];
  }

  lemma OtherAbsent(r: Rows, r': Rows, id: Id, d: Id)
    requires OnlyConnection(r, r', id) && d != id
    requires |r'.jobs| == |r.jobs| && SameJobs(r, r')
    ensures Absent(r', d) <==> Absent(r, d)
    ensures Granted(r', d) == Granted(r, d)
  {
    LiveElsewhere(r, r', id, d);
  }

  /** After its job, a connection is granted exactly what the job asked the engines for. */
  lemma GrantedAsAsked(s: State)
    requires Agreeing(s) && Subject(s).Some? && s.rows.jobs[s.queue[0].job].status.Running?
    requires Complete(s.rows, s.rows.jobs[s.queue[0].job]).Some?
    ensures Granted(Complete(s.rows, s.rows.jobs[s.queue[0].job]).value, Subject(s).value) == HeadGoal(s)
  {
    var j := s.queue[0].job;
    assert GoodTask(s.rows, s.queue, 0) && GoodJob(s.rows, j);
    assert s.rows.jobs[j].Open();
  }

  /** Only a revoke can leave its connection absent. */
  lemma AbsentAfterRevoke(s: State)
    requires Agreeing(s) && Subject(s).Some? && Complete(s.rows, s.rows.jobs[s.queue[0].job]).Some?
    requires Absent(Complete(s.rows, s.rows.jobs[s.queue[0].job]).value, Subject(s).value)
    ensures s.rows.jobs[s.queue[0].job].kind.Revoke?
  {
    var r, j := s.rows, s.queue[0].job;
    var r' := Complete(r, r.jobs[j]).value;
    HeadCompletes(s);
    CompletedGood(r, j);
    CompletedConnection(r, j);
    assert GoodTask(r, s.queue, 0) && GoodJob(r, j);
    if !r.jobs[j].kind.Revoke? {
      var id := r.jobs[j].connection;
      if r'.connections[id].status.Active? {
        LiveWhenInUse(r', id);
      }
      assert false;
    }
  }

  /** The rows after the job's effect, with the job closed or, after a stop, still open. */
  ghost predicate AfterTail(s: State, r': Rows) {
    && Subject(s).Some? && Complete(s.rows, s.rows.jobs[s.queue[0].job]).Some?
    && var r1 := Complete(s.rows, s.rows.jobs[s.queue[0].job]).value;
       |r1.jobs| == |s.rows.jobs| && (r' == r1 || r' == Settle(r1, s.queue[0].job, Completed))
  }

  lemma TailFacts(s: State, r': Rows)
    requires Agreeing(s) && AfterTail(s, r')
    ensures OnlyConnection(s.rows, r', Subject(s).value) && SameJobs(s.rows, r') && |r'.jobs| == |s.rows.jobs|
    ensures forall j | 0 <= j < |s.rows.jobs| && r'.jobs[j].Open() :: s.rows.jobs[j].Open()
  {
    HeadCompletes(s);
    CompletedConnection(s.rows, s.queue[0].job);
    var r1 := Complete(s.rows, s.rows.jobs[s.queue[0].job]).value;
    SettledFacts(s.rows, r1, r', s.queue[0].job, Subject(s).value);
  }

  lemma SettledFacts(r: Rows, r1: Rows, r': Rows, j: nat, id: Id)
    requires OnlyConnection(r, r1, id) && r1.jobs == r.jobs && j < |r.jobs|
    requires r' == r1 || r' == Settle(r1, j, Completed)
    ensures OnlyConnection(r, r', id) && SameJobs(r, r') && |r'.jobs| == |r.jobs|
    ensures forall k | 0 <= k < |r.jobs| && r'.jobs[k].Open() :: r.jobs[k].Open()
  {
  }

  lemma TailAbsent(s: State, r': Rows)
    requires Agreeing(s) && AfterTail(s, r') && Absent(r', Subject(s).value)
    ensures s.rows.jobs[s.queue[0].job].kind.Revoke?
  {
    SameAbsent(Complete(s.rows, s.rows.jobs[s.queue[0].job]).value, r', Subject(s).value);
    AbsentAfterRevoke(s);
  }

  lemma TailFairSelf(s: State, load: Load, r': Rows)
    requires Agreeing(s) && AfterTail(s, r') && Part(load, Subject(s).value) == HeadGoal(s)
    ensures Fair(r', load, Subject(s).value)
  {
    var r1 := Complete(s.rows, s.rows.jobs[s.queue[0].job]).value;
    HeadIsOpen(s);
    HeadCompletes(s);
    CompletedConnection(s.rows, s.queue[0].job);
    TailOpen(s.rows, r1, r', s.queue[0].job, Subject(s).value);
    if Absent(r', Subject(s).value) {
      TailAbsent(s, r');
    }
    if s.rows.jobs[s.queue[0].job].status.Running? {
      GrantedAsAsked(s);
    }
  }

  /** The effect of the job keeps every load fair that holds the connection as the job wants. */
  lemma TailFair(s: State, load: Load, r': Rows)
    requires Agreeing(s) && AfterTail(s, r')
    requires FairLoad(s.rows, load) && Part(load, Subject(s).value) == HeadGoal(s)
    ensures FairLoad(r', load)
  {
    var r1 := Complete(s.rows, s.rows.jobs[s.queue[0].job]).value;
    TailFacts(s, r');
    HeadCompletes(s);
    CompletedConnection(s.rows, s.queue[0].job);
    TailFairSelf(s, load, r');
    forall d ensures Fair(r', load, d) {
      assert Fair(s.rows, load, d);
      TailOpen(s.rows, r1, r', s.queue[0].job, d);
      if d != Subject(s).value {
        OtherAbsent(s.rows, r', Subject(s).value, d);
      }
    }
  }

  lemma SameAbsent(r: Rows, r': Rows, id: Id)
    requires r'.connections == r.connections && r'.credentials == r.credentials
    requires |r'.jobs| == |r.jobs| && SameJobs(r, r')
    ensures Absent(r', id) <==> Absent(r, id)
  {
    assert HasLive(r', id) <==> HasLive(r, id) by {
      if HasLive(r, id) {
        var g :| LiveAt(r, id, g);
        assert LiveAt(r', id, g);
      }
      if HasLive(r', id) {
        var g :| LiveAt(r', id, g);
        assert LiveAt(r, id, g);
      }
    }
  }

  lemma TailOpen(r: Rows, r1: Rows, r': Rows, j: nat, d: Id)
    requires GoodRows(r) && j < |r.jobs| && r1.jobs == r.jobs && (r' == r1 || r' == Settle(r1, j, Completed))
    ensures HasOpen(r'.jobs, d) <==>
            HasOpen(r.jobs, d) && (r' == r1 || !r.jobs[j].status.Running? || d != r.jobs[j].connection)
  {
    if r' != r1 && r.jobs[j].status.Running? {
      HasOpenAfterClose(r.jobs, j, Completed, d);
    }
  }

  lemma TailTask(s: State, r': Rows, i: nat)
    requires Agreeing(s) && AfterTail(s, r') && i < |s.queue| && s.queue[i].Sync? && s.queue[i].job < |s.rows.jobs|
    requires Absent(r', s.rows.jobs[s.queue[i].job].connection)
    ensures Goal(s.rows.jobs[s.queue[i].job]).None?
  {
    var r, j, id := s.rows, s.queue[0].job, Subject(s).value;
    var d := r.jobs[s.queue[i].job].connection;
    TailFacts(s, r');
    if d != id {
      OtherAbsent(r, r', id, d);
    } else {
      TailAbsent(s, r');
      assert GoodTask(r, s.queue, 0) && GoodTask(r, s.queue, i) && GoodJob(r, j);
      assert r.jobs[j].Open();
      assert i == 0;
    }
  }

  lemma TailSuspend(s: State, r': Rows)
    requires Agreeing(s) && AfterTail(s, r')
    ensures SuspendHolds(s.(rows := r'))
  {
    var r, j, id := s.rows, s.queue[0].job, Subject(s).value;
    TailFacts(s, r');
    QueuedJobsSame(s, r');
    forall k | 0 <= k < |r'.jobs| && r'.jobs[k].Open() && r'.jobs[k].kind.Suspend?
      ensures r'.jobs[k].connection in r'.connections && r'.connections[r'.jobs[k].connection].suspended {
      assert r.jobs[k].Open();
      if r'.jobs[k].connection == id {
        assert s.queue[0].Sync?;
        assert !r.jobs[j].kind.Resume?;
      }
    }
  }

  /** The effect of the job keeps the promises about the queue. */
  lemma TailQueue(s: State, r': Rows)
    requires Agreeing(s) && AfterTail(s, r')
    ensures SuspendHolds(s.(rows := r')) && AbsentTasks(s.(rows := r'))
  {
    TailSuspend(s, r');
    TailFacts(s, r');
    forall i | 0 <= i < |s.queue| && s.queue[i].Sync? && s.queue[i].job < |r'.jobs|
      ensures Absent(r', r'.jobs[s.queue[i].job].connection) ==> Goal(r'.jobs[s.queue[i].job]).None? {
      if Absent(r', r'.jobs[s.queue[i].job].connection) {
        TailTask(s, r', i);
      }
    }
  }

  lemma AgreeFinish(s: State)
    requires Agreeing(s) && Apply(s, Finish).Some?
    ensures Agreeing(Release(s, Tail(s)))
  {
    var r, j := s.rows, s.queue[0].job;
    KeepTail(s);
    assert GoodTask(r, s.queue, 0) && GoodJob(r, j);
    if Complete(r, r.jobs[j]).Some? {
      AllCalled(s);
      forall e | e in s.loaded ensures FairLoad(Tail(s), s.loaded[e]) {
        TailFair(s, s.loaded[e], Tail(s));
      }
      TailQueue(s, Tail(s));
    } else {
      assert Tail(s) == r;
    }
    KeepReleased(s, Tail(s));
  }

  lemma AgreeFinishThenStop(s: State)
    requires Agreeing(s) && Apply(s, FinishThenStop).Some?
    ensures Agreeing(Apply(s, FinishThenStop).value)
  {
    var r, j := s.rows, s.queue[0].job;
    if Complete(r, r.jobs[j]).Some? {
      var r1 := Complete(r, r.jobs[j]).value;
      AllCalled(s);
      forall e | e in s.loaded ensures FairLoad(r1, s.loaded[e]) {
        TailFair(s, s.loaded[e], r1);
      }
      TailQueue(s, r1);
      HeadCompletes(s);
      KeepComplete(r, j);
      KeepRestarted(s, r1);
    } else {
      KeepRestarted(s, r);
    }
  }

  // ---------------------------------------------------------------- every safe run

  /** Every safe step keeps the engines in agreement with the rows. */
  lemma KeepAgreeing(s: State, step: Step)
    requires Agreeing(s) && Safe(s, step) && Apply(s, step).Some?
    ensures Agreeing(Apply(s, step).value)
  {
    match step
    case ClaimJob(id) => AgreeClaim(s, OpenJob(s.rows.jobs, id).value);
    case RequestReconcile(engine) => AgreeReconcile(s, engine);
    case Start(hot) => AgreeStart(s, hot);
    case CallSucceeds(after) => AgreeSucceeds(s, after);
    case CallFails(after) => AgreeFails(s, after);
    case Finish => AgreeFinish(s);
    case FinishThenStop => AgreeFinishThenStop(s);
    case Stop => KeepRestarted(s, s.rows);
    case _ => KeepAfterRequest(s, step);
  }

  lemma KeepAfterRequest(s: State, step: Step)
    requires Agreeing(s) && Safe(s, step) && Apply(s, step).Some?
    requires step.RequestCreate? || step.RequestRotate? || step.RequestSuspend? || step.RequestResume?
             || step.RequestArchive? || step.RequestRetry?
    ensures Agreeing(Apply(s, step).value)
  {
    match step
    case RequestCreate(id) => AgreeCreate(s, id);
    case RequestRotate(id) => AgreeRotate(s, id);
    case RequestSuspend(id) => AgreeSuspend(s, id);
    case RequestResume(id) => AgreeResume(s, id);
    case RequestArchive(id) => AgreeArchive(s, id);
    case RequestRetry(id) => AgreeRetry(s, id);
  }

  ghost predicate SafeRun(s: State, steps: seq<Step>)
    decreases |steps|
  {
    && Run(s, steps).Some?
    && (steps != [] ==>
          && SafeRun(s, steps[..|steps| - 1])
          && Safe(Run(s, steps[..|steps| - 1]).value, steps[|steps| - 1]))
  }

  lemma InitialAgrees(s: State)
    requires Initial(s)
    ensures Agreeing(s)
  {
  }

  lemma {:induction false} RunAgrees(s: State, steps: seq<Step>)
    requires (Initial(s) || Agreeing(s)) && SafeRun(s, steps)
    ensures Agreeing(Run(s, steps).value)
    decreases |steps|
  {
    if steps == [] {
      if Initial(s) { InitialAgrees(s); }
    } else {
      RunAgrees(s, steps[..|steps| - 1]);
      KeepAgreeing(Run(s, steps[..|steps| - 1]).value, steps[|steps| - 1]);
    }
  }

  ghost predicate Quiet(s: State) {
    s.queue == [] && forall j | 0 <= j < |s.rows.jobs| :: !s.rows.jobs[j].Open()
  }

  /** Over every safe interleaving of requests, failures, retries and stops: once nothing is queued
      and no job is open, each engine holds exactly the connections in use, each at its current
      generation. */
  lemma QuietEngines(s: State, steps: seq<Step>, engine: Engine, id: Id)
    requires Initial(s) && SafeRun(s, steps) && Quiet(Run(s, steps).value)
    requires engine in Run(s, steps).value.loaded
    ensures var end := Run(s, steps).value; Part(end.loaded[engine], id) == Granted(end.rows, id)
  {
    RunAgrees(s, steps);
    var end := Run(s, steps).value;
    assert Fair(end.rows, end.loaded[engine], id);
  }
}
