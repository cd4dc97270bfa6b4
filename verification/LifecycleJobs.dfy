/** What a job does once it has the lock, in every state a run reaches: the first call it makes, and
    everything that is changed when it ends, fails or is interrupted. */
module LifecycleJobs {
  import opened Options
  import opened ConnectionRows
  import opened Lifecycle
  import opened LifecycleInvariant
  import opened LifecycleRequests

  /** The job has the lock, at some point of its calls. */
  ghost predicate Holds(s: State, j: nat) {
    Reached(s) && s.queue != [] && s.queue[0] == Sync(j)
  }

  lemma HeadGood(s: State, j: nat)
    requires Holds(s, j)
    ensures Good(s) && j < |s.rows.jobs| && (s.rows.jobs[j].status.Running? || s.rows.jobs[j].status.Cancelled?)
    ensures var job := s.rows.jobs[j]; (
      && job.connection in s.rows.connections && GoodConnection(s.rows, job.connection)
      && job.generation == s.rows.connections[job.connection].generation
      && (job.status.Running? ==> Fits(s.rows.connections[job.connection], job.kind))
      && (job.status.Cancelled? ==> !s.rows.connections[job.connection].status.Archived? && !job.kind.Revoke?))
  {
    ReachedGood(s);
    assert GoodTask(s.rows, s.queue, 0) && GoodJob(s.rows, j);
  }

  lemma HeadKnown(s: State, j: nat)
    requires Holds(s, j)
    ensures j < |s.rows.jobs| && s.rows.jobs[j].connection in s.rows.connections
    ensures Subject(s) == Some(s.rows.jobs[j].connection)
  {
    HeadGood(s, j);
  }

  // ---------------------------------------------------------------- the first call

  /** The target is everyone in use, with the job's connection as wanted: at a generation, or left out. */
  ghost predicate Targets(r: Rows, target: Load, id: Id, wanted: Option<nat>) {
    forall d ::
      && (d in target <==> if d == id then wanted.Some? else
            && d in r.connections && r.connections[d].status.Active?
            && !r.connections[d].suspended && !r.connections[d].archived)
      && (d in target ==> target[d] == if d == id then wanted.value else r.connections[d].generation)
  }

  lemma SnapshotTargets(r: Rows, id: Id, wanted: Option<nat>)
    ensures Targets(r, Snapshot(r, Some(id), wanted), id, wanted)
  {
  }

  lemma HeadUsable(s: State, j: nat)
    requires Holds(s, j)
    ensures j < |s.rows.jobs|
    ensures !s.rows.jobs[j].kind.Revoke? ==> Usable(s.rows, s.rows.jobs[j].connection, s.rows.jobs[j].generation)
  {
    HeadGood(s, j);
  }

  /** A job that gets the lock never fails before its first call. It calls Xray to load everyone in
      use, its connection added or left out; where the engine takes single users, it adds or removes
      the one, except that new credentials are always loaded as a whole. The revocation of a connection
      that has no live credential calls no engine at all. */
  lemma JobStarts(s: State, j: nat, hot: bool)
    requires Holds(s, j) && s.progress.NotStarted?
    ensures j < |s.rows.jobs| && Apply(s, Start(hot)).Some?
    ensures var s' := Apply(s, Start(hot)).value; var job := s.rows.jobs[j]; var id := job.connection; (
      && s' == s.(progress := s'.progress)
      && if job.kind.Revoke? && !HasLive(s.rows, id) then s'.progress == OptionalCalls([]) else
         && s'.progress.FirstCall? && s'.progress.push.engine == XRAY
         && var push := s'.progress.push;
            match job.kind
            case Revoke =>
              && Targets(s.rows, push.target, id, None)
              && (if hot then push.mode.HotRemove? && push.mode.id == id && LiveAt(s.rows, id, push.mode.generation)
                  else push.mode.Whole?)
            case Suspend =>
              Targets(s.rows, push.target, id, None) && push.mode == if hot then HotRemove(id, job.generation) else Whole
            case Rotate =>
              Targets(s.rows, push.target, id, Some(job.generation)) && push.mode.Whole?
            case _ =>
              && Targets(s.rows, push.target, id, Some(job.generation))
              && push.mode == if hot then HotAdd(id, job.generation) else Whole)
  {
    HeadKnown(s, j);
    HeadUsable(s, j);
    var job := s.rows.jobs[j];
    SnapshotTargets(s.rows, job.connection, Goal(job));
    assert Apply(s, Start(hot)) == Started(s, hot);
  }

  /** A reconciliation calls its engine to load everyone in use. */
  lemma ReconcileStarts(s: State, engine: Engine, hot: bool)
    requires s.queue != [] && s.queue[0] == Reconcile(engine) && s.progress.NotStarted?
    ensures Apply(s, Start(hot)).Some?
    ensures var s' := Apply(s, Start(hot)).value; (
      && s' == s.(progress := s'.progress) && s'.progress.FirstCall?
      && s'.progress.push.engine == engine && s'.progress.push.mode.Whole?
      && forall d ::
           && (d in s'.progress.push.target <==>
                 && d in s.rows.connections && s.rows.connections[d].status.Active?
                 && !s.rows.connections[d].suspended && !s.rows.connections[d].archived)
           && (d in s'.progress.push.target ==> s'.progress.push.target[d] == s.rows.connections[d].generation))
  {
  }

  // ---------------------------------------------------------------- the calls

  /** The call that is under way. */
  predicate Calls(s: State, push: Push) {
    && s.queue != [] && push.engine in s.loaded
    && (s.progress == FirstCall(push) || (s.progress.OptionalCalls? && s.progress.todo != [] && s.progress.todo[0] == push))
  }

  /** A call that succeeds leaves the engine with the target, or with its one user added to what it held,
      or with its one user removed if it held that one at the generation. */
  lemma CallLands(s: State, push: Push, after: Load)
    requires Calls(s, push)
    ensures var before := s.loaded[push.engine];
      Apply(s, CallSucceeds(after)).Some? <==>
      || after == push.target
      || (push.mode.HotAdd? && after == before[push.mode.id := push.mode.generation])
      || (push.mode.HotRemove? && push.mode.id in before && before[push.mode.id] == push.mode.generation
          && after == before - {push.mode.id})
    ensures Apply(s, CallSucceeds(after)).Some? ==>
      var s' := Apply(s, CallSucceeds(after)).value;
      s'.rows == s.rows && s'.loaded == s.loaded[push.engine := after]
  {
  }

  /** Both hold the connection at the same generation, or neither does. */
  predicate SameAt(a: Load, b: Load, d: Id) {
    (d in a <==> d in b) && (d in a ==> a[d] == b[d])
  }

  /** A call that fails leaves everyone as before or as wanted, and its own connection that way or gone. */
  lemma CallBotches(s: State, push: Push, after: Load)
    requires Calls(s, push)
    ensures var before := s.loaded[push.engine];
      Apply(s, CallFails(after)).Some? <==>
      forall d ::
        SameAt(after, before, d) || SameAt(after, push.target, d) || (d !in after && Subject(s) == Some(d))
    ensures Apply(s, CallFails(after)).Some? ==> Apply(s, CallFails(after)).value.loaded == s.loaded[push.engine := after]
  {
    var before := s.loaded[push.engine];
    forall d
      ensures Part(after, d) == Part(before, d) <==> SameAt(after, before, d)
      ensures Part(after, d) == Part(push.target, d) <==> SameAt(after, push.target, d) {
    }
  }

  /** Once Xray has taken a job, each optional engine is called in turn to load the same as a whole. */
  lemma CallsFollow(s: State, j: nat, push: Push, after: Load)
    requires Holds(s, j) && s.progress == FirstCall(push) && push.engine in s.loaded && Apply(s, CallSucceeds(after)).Some?
    ensures j < |s.rows.jobs|
    ensures var s' := Apply(s, CallSucceeds(after)).value; var job := s.rows.jobs[j]; (
      && s'.queue == s.queue && s'.progress.OptionalCalls? && |s'.progress.todo| == |s.optional|
      && forall i | 0 <= i < |s.optional| ::
           var call := s'.progress.todo[i];
           && call.engine == s.optional[i] && call.mode.Whole?
           && Targets(s.rows, call.target, job.connection,
                      if job.kind.Suspend? || job.kind.Revoke? then None else Some(job.generation)))
  {
    HeadKnown(s, j);
    SnapshotTargets(s.rows, s.rows.jobs[j].connection, Goal(s.rows.jobs[j]));
    assert Apply(s, CallSucceeds(after)) == Some(Advanced(s.(loaded := s.loaded[push.engine := after])));
  }

  /** Each call that succeeds is done with, and after the call of a reconciliation the lock passes on. */
  lemma CallDone(s: State, push: Push, after: Load)
    requires Calls(s, push) && Apply(s, CallSucceeds(after)).Some?
    ensures var s' := Apply(s, CallSucceeds(after)).value; (
      && (s.progress.OptionalCalls? ==> s'.queue == s.queue && s'.progress == OptionalCalls(s.progress.todo[1..]))
      && (s.progress.FirstCall? && s.queue[0].Reconcile? ==> s'.queue == s.queue[1..] && s'.progress.NotStarted?))
  {
  }

  // ---------------------------------------------------------------- the end of a job

  /** What the job does to the rows of connections and credentials: an activation or rotation makes the
      generation the only live one, a resume lifts the suspension unless the connection was archived
      meanwhile, a revocation leaves no credential, and a suspension changes nothing any more. */
  ghost predicate Effected(r: Rows, r': Rows, job: Job)
    requires job.connection in r.connections
  {
    var id, c := job.connection, r.connections[job.connection];
    && r'.credentials.Keys == r.credentials.Keys
    && (forall k | k in r.credentials && k.0 != id :: r'.credentials[k] == r.credentials[k])
    && match job.kind
       case Suspend => r'.connections == r.connections && r'.credentials == r.credentials
       case Resume =>
         && r'.credentials == r.credentials
         && r'.connections == if c.archived then r.connections
                              else r.connections[id := Connection(c.status, c.generation, false, false, c.link)]
       case Revoke =>
         && r'.connections == r.connections[id := Connection(Archived, c.generation, c.suspended, c.archived, c.link)]
         && forall g: nat | (id, g) in r.credentials :: r'.credentials[(id, g)].Revoked?
       case _ =>
         && r'.connections == r.connections[id := Connection(Active, c.generation, c.suspended, c.archived, c.link)]
         && forall g: nat | (id, g) in r.credentials ::
              r'.credentials[(id, g)] == if g == c.generation then Live else Revoked
  }

  lemma Activated(r: Rows, id: Id)
    requires id in r.connections && GoodConnection(r, id) && !r.connections[id].status.Archived?
    ensures var g := r.connections[id].generation; var after := ActivateCredentials(r.credentials, id, g);
      forall k: nat | (id, k) in r.credentials :: after[(id, k)] == if k == g then Live else Revoked
  {
    var g := r.connections[id].generation;
    forall k: nat | (id, k) in r.credentials && k != g ensures !r.credentials[(id, k)].Pending? {
      assert 1 <= k <= g;
    }
  }

  lemma JobEffect(s: State, j: nat)
    requires Holds(s, j)
    ensures j < |s.rows.jobs| && s.rows.jobs[j].connection in s.rows.connections
    ensures var done := Complete(s.rows, s.rows.jobs[j]); var r' := if done.Some? then done.value else s.rows; (
      Effected(s.rows, r', s.rows.jobs[j]) && r'.jobs == s.rows.jobs)
    ensures s.rows.jobs[j].status.Running? ==> Complete(s.rows, s.rows.jobs[j]).Some?
  {
    HeadGood(s, j);
    var job := s.rows.jobs[j];
    if job.kind.Activate? || job.kind.Rotate? {
      Activated(s.rows, job.connection);
    }
  }

  /** A job whose calls are through takes its effect, even if it was cancelled meanwhile; it is closed
      if it is running still, and the lock passes on. */
  lemma JobEnds(s: State, j: nat)
    requires Holds(s, j) && s.progress == OptionalCalls([])
    ensures j < |s.rows.jobs| && s.rows.jobs[j].connection in s.rows.connections && Apply(s, Finish).Some?
    ensures var s' := Apply(s, Finish).value; var job := s.rows.jobs[j]; (
      && s' == s.(rows := s'.rows, queue := s.queue[1..], progress := NotStarted)
      && Effected(s.rows, s'.rows, job)
      && s'.rows.jobs == if job.status.Running? then s.rows.jobs[j := job.(status := Completed)] else s.rows.jobs)
  {
    HeadKnown(s, j);
    JobEffect(s, j);
    assert Apply(s, Finish) == Some(Release(s, Tail(s)));
  }

  ghost predicate Failing(jobs: seq<Job>, jobs': seq<Job>) {
    && |jobs'| == |jobs|
    && forall k | 0 <= k < |jobs| :: jobs'[k] == if jobs[k].status.Running? then jobs[k].(status := Failed) else jobs[k]
  }

  /** If the process stops right after the effect, the rows have it all the same; every running job is
      failed, and nothing waits any more. */
  lemma JobCutOff(s: State, j: nat)
    requires Holds(s, j) && s.progress == OptionalCalls([])
    ensures j < |s.rows.jobs| && s.rows.jobs[j].connection in s.rows.connections && Apply(s, FinishThenStop).Some?
    ensures var s' := Apply(s, FinishThenStop).value; (
      && s' == s.(rows := s'.rows, queue := [], progress := NotStarted)
      && Effected(s.rows, s'.rows, s.rows.jobs[j]) && Failing(s.rows.jobs, s'.rows.jobs))
  {
    HeadKnown(s, j);
    JobEffect(s, j);
    var r := Complete(s.rows, s.rows.jobs[j]);
    assert Apply(s, FinishThenStop) == Some(Restart(s, if r.Some? then r.value else s.rows));
  }

  /** A failed call fails the job if it is running still, and nothing else of the rows changes. */
  lemma JobFails(s: State, j: nat, after: Load)
    requires Holds(s, j) && Apply(s, CallFails(after)).Some?
    ensures j < |s.rows.jobs|
    ensures var s' := Apply(s, CallFails(after)).value; var job := s.rows.jobs[j]; (
      && s'.queue == s.queue[1..] && s'.progress.NotStarted?
      && s'.rows == s.rows.(jobs := if job.status.Running? then s.rows.jobs[j := job.(status := Failed)] else s.rows.jobs))
  {
    HeadKnown(s, j);
    var push := Current(s).value;
    assert Apply(s, CallFails(after)) == Some(Abandoned(s.(loaded := s.loaded[push.engine := after])));
  }

  /** Stopping loses what waits for the lock and fails every running job; engines and the other rows
      stay. */
  lemma ProcessStops(s: State)
    ensures Apply(s, Stop).Some?
    ensures var s' := Apply(s, Stop).value; (
      && s' == s.(rows := s.rows.(jobs := s'.rows.jobs), queue := [], progress := NotStarted)
      && Failing(s.rows.jobs, s'.rows.jobs))
  {
  }
}
