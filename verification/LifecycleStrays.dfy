/** The two requests after which engines and rows may part for good: a suspend while a resume of the
    connection is queued, and an archive of a connection that was never activated but that an engine
    holds or may still come to hold. Each parts them in some run exactly when it is not safe. */
module LifecycleStrays {
  import opened Options
  import opened ConnectionRows
  import opened Lifecycle
  import opened LifecycleInvariant
  import opened LifecycleEngines

  /** A safe run leads from one state to the other. */
  ghost predicate Later(s: State, end: State) {
    exists steps :: SafeRun(s, steps) && Run(s, steps) == Some(end)
  }

  /** The connection has no open job and no task. */
  ghost predicate Idle(s: State, id: Id) {
    !HasOpen(s.rows.jobs, id) && forall i | 0 <= i < |s.queue| :: !TaskOf(s, i, id)
  }

  /** Some safe run ends with nothing left to do for the connection, and an engine that does not hold
      it as the rows grant it. */
  ghost predicate Strays(s: State, id: Id) {
    exists end, engine :: Later(s, end) && Idle(end, id) && engine in end.loaded
                          && Part(end.loaded[engine], id) != Granted(end.rows, id)
  }

  lemma NeverStrays(s: State, id: Id)
    requires Agreeing(s)
    ensures !Strays(s, id)
  {
    forall end, engine | Later(s, end) && Idle(end, id) && engine in end.loaded
      ensures Part(end.loaded[engine], id) == Granted(end.rows, id) {
      var steps :| SafeRun(s, steps) && Run(s, steps) == Some(end);
      RunAgrees(s, steps);
      assert Fair(end.rows, end.loaded[engine], id);
    }
  }

  lemma LaterSelf(s: State)
    ensures Later(s, s)
  {
    assert SafeRun(s, []) && Run(s, []) == Some(s);
  }

  lemma LaterOn(o: State, s: State, step: Step, s': State)
    requires Later(o, s) && Safe(s, step) && Apply(s, step) == Some(s')
    ensures Later(o, s')
  {
    var steps :| SafeRun(o, steps) && Run(o, steps) == Some(s);
    var more := steps + [step];
    assert more[..|more| - 1] == steps;
    assert SafeRun(o, more) && Run(o, more) == Some(s');
  }

  // ---------------------------------------------------------------- one task after another

  /** The calls under way, if any, are to engines there are. */
  ghost predicate Callable(s: State) {
    match s.progress
    case NotStarted => true
    case FirstCall(push) => push.engine in s.loaded
    case OptionalCalls(todo) => Subject(s).Some? && forall i | 0 <= i < |todo| :: todo[i].engine in s.loaded
  }

  ghost predicate Ready(s: State) {
    Good(s) && Engines(s) && Callable(s)
  }

  lemma AgreeingReady(s: State, r': Rows)
    requires Agreeing(s) && Good(s.(rows := r')) && |s.rows.jobs| <= |r'.jobs|
    ensures Ready(s.(rows := r'))
  {
  }

  /** Engines stay when the queue only loses its head, or is lost. */
  lemma EnginesStay(s: State, s': State)
    requires Engines(s) && s'.loaded.Keys == s.loaded.Keys && s'.optional == s.optional
    requires s'.queue == s.queue || s'.queue == [] || (s.queue != [] && s'.queue == s.queue[1..])
    ensures Engines(s')
  {
    forall i | 0 <= i < |s'.queue| ensures s'.queue[i] in s.queue {
    }
  }

  lemma StepOn(o: State, s: State, step: Step, s': State)
    requires Later(o, s) && Ready(s) && Safe(s, step) && Apply(s, step) == Some(s') && Callable(s')
    requires s'.loaded.Keys == s.loaded.Keys && s'.optional == s.optional
    requires s'.queue == s.queue || s'.queue == [] || (s.queue != [] && s'.queue == s.queue[1..])
    ensures Later(o, s') && Ready(s')
  {
    KeepGood(s, step);
    EnginesStay(s, s');
    LaterOn(o, s, step, s');
  }

  lemma FailStep(s: State)
    requires s.queue != [] && Current(s).Some? && Current(s).value.engine in s.loaded
    ensures Apply(s, CallFails(s.loaded[Current(s).value.engine])) == Some(Abandoned(s))
  {
    var e := Current(s).value.engine;
    assert s.loaded[e := s.loaded[e]] == s.loaded;
  }

  lemma HeadFails(o: State, s: State) returns (s': State)
    requires Later(o, s) && Ready(s) && s.queue != [] && Current(s).Some?
    ensures Later(o, s') && Ready(s') && s' == Abandoned(s)
  {
    s' := Abandoned(s);
    FailStep(s);
    StepOn(o, s, CallFails(s.loaded[Current(s).value.engine]), s');
  }

  lemma FinishStep(s: State)
    requires s.progress == OptionalCalls([]) && Subject(s).Some?
    ensures Apply(s, Finish) == Some(Release(s, Tail(s)))
  {
  }

  lemma HeadFinishes(o: State, s: State) returns (s': State)
    requires Later(o, s) && Ready(s) && s.queue != [] && s.progress == OptionalCalls([])
    ensures Later(o, s') && Ready(s') && s' == Release(s, Tail(s))
  {
    s' := Release(s, Tail(s));
    FinishStep(s);
    StepOn(o, s, Finish, s');
  }

  lemma StartShape(s: State)
    requires Ready(s) && s.queue != [] && s.progress.NotStarted?
    ensures Started(s, false).Some? && Callable(Started(s, false).value)
    ensures var s' := Started(s, false).value; s' == Abandoned(s) || s' == s.(progress := s'.progress)
    ensures var s' := Started(s, false).value;
      s'.progress.OptionalCalls? ==> s'.progress.todo == [] && Subject(s).Some? && s.rows.jobs[s.queue[0].job].kind.Revoke?
  {
    assert GoodTask(s.rows, s.queue, 0);
  }

  /** The head starts; the connection's own engine call comes first unless there is none to make. */
  lemma HeadStarts(o: State, s: State) returns (s': State)
    requires Later(o, s) && Ready(s) && s.queue != [] && s.progress.NotStarted?
    ensures Later(o, s') && Ready(s') && Started(s, false) == Some(s')
  {
    StartShape(s);
    s' := Started(s, false).value;
    StepOn(o, s, Start(false), s');
  }

  /** The rows after a task has left the queue without any engine changing: its job has failed, or it
      had no more calls to make. */
  ghost predicate LeftRows(s: State, r': Rows)
    requires s.queue != []
  {
    || r' == Abandoned(s).rows
    || (Subject(s).Some? && r' == Tail(s)
        && (s.progress == OptionalCalls([]) || s.rows.jobs[s.queue[0].job].kind.Revoke?))
  }

  lemma HeadLeaves(o: State, s: State) returns (s': State)
    requires Later(o, s) && Ready(s) && s.queue != []
    ensures Later(o, s') && Ready(s') && s' == Release(s, s'.rows) && LeftRows(s, s'.rows)
  {
    if Current(s).Some? {
      s' := HeadFails(o, s);
    } else if s.progress.NotStarted? {
      StartShape(s);
      var s1 := HeadStarts(o, s);
      if s1.progress.NotStarted? {
        s' := s1;
      } else if Current(s1).Some? {
        s' := HeadFails(o, s1);
      } else {
        s' := HeadFinishes(o, s1);
      }
    } else {
      s' := HeadFinishes(o, s);
    }
  }

  // ---------------------------------------------------------------- the calls of one job

  /** A call changes the load of its engine, and the progress. */
  lemma CallStep(s: State, push: Push)
    requires s.queue != [] && Current(s) == Some(push) && push.engine in s.loaded
    ensures Apply(s, CallSucceeds(push.target)) ==
            Some(Advanced(s.(loaded := s.loaded[push.engine := push.target])))
  {
  }

  lemma CallGoes(o: State, s: State, push: Push) returns (s': State)
    requires Later(o, s) && Ready(s) && Current(s) == Some(push) && Subject(s).Some?
    ensures Later(o, s') && Ready(s')
    ensures s' == s.(loaded := s.loaded[push.engine := push.target], progress := s'.progress)
    ensures s'.progress.OptionalCalls?
    ensures if s.progress.FirstCall? then |s'.progress.todo| == |s.optional| else s'.progress.todo == s.progress.todo[1..]
    ensures s.progress.FirstCall? ==>
      forall i | 0 <= i < |s'.progress.todo| :: s'.progress.todo[i].engine == s.optional[i]
  {
    CallStep(s, push);
    s' := Advanced(s.(loaded := s.loaded[push.engine := push.target]));
    StepOn(o, s, CallSucceeds(push.target), s');
  }

  /** All remaining optional calls succeed. */
  lemma RestSucceeds(o: State, s: State) returns (s': State)
    requires Later(o, s) && Ready(s) && s.progress.OptionalCalls?
    ensures Later(o, s') && Ready(s') && s' == s.(loaded := s'.loaded, progress := OptionalCalls([]))
    ensures (forall i | 0 <= i < |s.progress.todo| :: s.progress.todo[i].engine != XRAY) ==>
            XRAY in s'.loaded && s'.loaded[XRAY] == s.loaded[XRAY]
    decreases |s.progress.todo|
  {
    if s.progress.todo == [] {
      s' := s;
    } else {
      var s1 := CallGoes(o, s, s.progress.todo[0]);
      s' := RestSucceeds(o, s1);
    }
  }

  /** The job at the head has a first call to make, or is already making its calls. */
  ghost predicate Runnable(s: State)
    requires Subject(s).Some?
  {
    s.progress.NotStarted? ==>
      var job := s.rows.jobs[s.queue[0].job];
      job.kind.Suspend? || (!job.kind.Revoke? && Usable(s.rows, job.connection, job.generation))
  }

  lemma StartsCalling(s: State)
    requires Ready(s) && Subject(s).Some? && s.progress.NotStarted? && Runnable(s)
    ensures Started(s, false).Some?
    ensures var s' := Started(s, false).value;
      && s' == s.(progress := s'.progress) && s'.progress.FirstCall? && s'.progress.push.engine == XRAY
      && Part(s'.progress.push.target, Subject(s).value) == HeadGoal(s)
  {
    SnapshotPart(s.rows, Subject(s), HeadGoal(s), Subject(s).value);
  }

  /** All calls of the head's job succeed; a job that starts with them leaves XRAY as it wants it. */
  lemma HeadSucceeds(o: State, s: State) returns (s': State)
    requires Later(o, s) && Ready(s) && Subject(s).Some? && Runnable(s)
    ensures Later(o, s') && Ready(s') && s' == s.(loaded := s'.loaded, progress := OptionalCalls([]))
    ensures s.progress.NotStarted? ==> XRAY in s'.loaded && Part(s'.loaded[XRAY], Subject(s).value) == HeadGoal(s)
  {
    var s1 := s;
    if s.progress.NotStarted? {
      StartsCalling(s);
      s1 := HeadStarts(o, s);
    }
    if s1.progress.FirstCall? {
      s1 := CallGoes(o, s1, s1.progress.push);
    }
    s' := RestSucceeds(o, s1);
  }

  // ---------------------------------------------------------------- a suspend during a resume

  /** The connection is active, and its open job is a suspend that no one has claimed. */
  ghost predicate Suspending(r: Rows, id: Id, k: nat) {
    && id in r.connections && r.connections[id].status.Active? && !r.connections[id].archived
    && k < |r.jobs| && r.jobs[k].connection == id && r.jobs[k].kind.Suspend? && r.jobs[k].status.Waiting?
  }

  /** While the open job of a connection waits, every queued task of it was cancelled. */
  lemma OthersCancelled(s: State, id: Id, k: nat, i: nat)
    requires Good(s) && k < |s.rows.jobs| && s.rows.jobs[k].connection == id && s.rows.jobs[k].status.Waiting?
    requires i < |s.queue| && TaskOf(s, i, id)
    ensures s.rows.jobs[s.queue[i].job].status.Cancelled? && !s.rows.jobs[s.queue[i].job].kind.Revoke?
    ensures id in s.rows.connections && s.rows.jobs[s.queue[i].job].generation == s.rows.connections[id].generation
  {
    assert GoodTask(s.rows, s.queue, i);
    assert s.rows.jobs[k].Open();
  }

  /** A task that leaves changes the rows of its own connection only. */
  lemma LeftOnly(s: State, r': Rows, id: Id)
    requires Good(s) && s.queue != [] && LeftRows(s, r')
    ensures SameJobs(s.rows, r')
    ensures forall k | 0 <= k < |s.rows.jobs| && s.rows.jobs[k].status.Waiting? :: r'.jobs[k] == s.rows.jobs[k]
    ensures Subject(s) != Some(id) ==>
      if Subject(s).Some? then OnlyConnection(s.rows, r', Subject(s).value)
      else r'.connections == s.rows.connections && r'.credentials == s.rows.credentials
  {
    var r := s.rows;
    assert GoodTask(r, s.queue, 0);
    if Subject(s).Some? && Complete(r, r.jobs[s.queue[0].job]).Some? {
      HeadCompletes(s);
      CompletedConnection(r, s.queue[0].job);
    }
  }

  lemma SuspendingLeft(s: State, r': Rows, id: Id, k: nat)
    requires Good(s) && s.queue != [] && Suspending(s.rows, id, k) && LeftRows(s, r')
    ensures Suspending(r', id, k) && SameJobs(s.rows, r')
    ensures r'.connections[id].suspended ==> s.rows.connections[id].suspended
  {
    LeftOnly(s, r', id);
    if Subject(s) == Some(id) {
      OthersCancelled(s, id, k, 0);
    }
  }

  /** The first tasks leave one after another; none of them suspends a connection. */
  lemma {:induction false} SuspendWaits(o: State, s: State, id: Id, k: nat, n: nat) returns (s': State)
    requires Later(o, s) && Ready(s) && Suspending(s.rows, id, k) && n <= |s.queue|
    ensures Later(o, s') && Ready(s') && Suspending(s'.rows, id, k) && SameJobs(s.rows, s'.rows)
    ensures s'.queue == s.queue[n..]
    ensures s'.rows.connections[id].suspended ==> s.rows.connections[id].suspended
    decreases n
  {
    if n == 0 {
      s' := s;
    } else {
      var s1 := HeadLeaves(o, s);
      SuspendingLeft(s, s1.rows, id, k);
      s' := SuspendWaits(o, s1, id, k, n - 1);
    }
  }

  lemma ActiveUsable(r: Rows, id: Id)
    requires id in r.connections && GoodConnection(r, id) && r.connections[id].status.Active?
    ensures Usable(r, id, r.connections[id].generation)
  {
  }

  /** The resume runs to its end, cancelled as it is, and lifts the suspension. */
  lemma ResumeLifts(o: State, s: State, id: Id, k: nat) returns (s': State)
    requires Later(o, s) && Ready(s) && Suspending(s.rows, id, k)
    requires s.queue != [] && TaskOf(s, 0, id) && s.rows.jobs[s.queue[0].job].kind.Resume?
    ensures Later(o, s') && Ready(s') && Suspending(s'.rows, id, k) && !s'.rows.connections[id].suspended
  {
    OthersCancelled(s, id, k, 0);
    ActiveUsable(s.rows, id);
    var s1 := HeadSucceeds(o, s);
    s' := HeadFinishes(o, s1);
  }

  lemma OnlyOpen(jobs: seq<Job>, j: nat)
    requires OneOpen(jobs) && j < |jobs| && jobs[j].Open()
    ensures OpenJob(jobs, jobs[j].connection) == Some(j)
  {
    assert HasOpen(jobs, jobs[j].connection);
    var k := OpenJob(jobs, jobs[j].connection).value;
    assert k == j;
  }

  /** The waiting job of a connection is claimed with nothing before it. */
  lemma WaitingClaimed(o: State, s: State, id: Id, k: nat) returns (s': State)
    requires Later(o, s) && Ready(s) && s.queue == []
    requires k < |s.rows.jobs| && s.rows.jobs[k].connection == id && s.rows.jobs[k].status.Waiting?
    ensures Later(o, s') && Ready(s') && s' == s.(rows := Claim(s.rows, k), queue := [Sync(k)])
    ensures s'.progress.NotStarted? && Subject(s') == Some(id)
  {
    OnlyOpen(s.rows.jobs, k);
    assert s.queue + [Sync(k)] == [Sync(k)];
    s' := s.(rows := Claim(s.rows, k), queue := [Sync(k)]);
    assert Apply(s, ClaimJob(id)) == Some(s');
    KeepGood(s, ClaimJob(id));
    LaterOn(o, s, ClaimJob(id), s');
  }

  /** Closing the running job of a connection leaves it idle. */
  lemma ClosedIdle(s: State, r': Rows, id: Id, k: nat)
    requires OneOpen(s.rows.jobs) && k < |s.rows.jobs| && s.queue == [Sync(k)] && s.rows.jobs[k].connection == id
    requires s.rows.jobs[k].status.Running? && r'.jobs == s.rows.jobs[k := s.rows.jobs[k].(status := Completed)]
    ensures Idle(Release(s, r'), id)
  {
    HasOpenAfterClose(s.rows.jobs, k, Completed, id);
  }

  /** The suspend does its work on the engines, but the connection is not suspended any more. */
  lemma SuspendUndone(o: State, s: State, id: Id, k: nat)
    requires Later(o, s) && Ready(s) && Suspending(s.rows, id, k) && s.queue == []
    requires !s.rows.connections[id].suspended
    ensures Strays(o, id)
  {
    var s1 := WaitingClaimed(o, s, id, k);
    var s2 := HeadSucceeds(o, s1);
    var end := HeadFinishes(o, s2);
    ClosedIdle(s2, end.rows, id, k);
    assert XRAY in end.loaded && Part(end.loaded[XRAY], id).None? && Granted(end.rows, id).Some?;
  }

  /** After a suspend with a resume queued, the connection can end up granted and in no engine. */
  lemma SuspendStrays(s: State, id: Id, k: nat, i: nat)
    requires Ready(s) && Suspending(s.rows, id, k)
    requires i < |s.queue| && TaskOf(s, i, id) && s.rows.jobs[s.queue[i].job].kind.Resume?
    ensures Strays(s, id)
  {
    LaterSelf(s);
    var s1 := SuspendWaits(s, s, id, k, i);
    var s2 := ResumeLifts(s, s1, id, k);
    var s3 := SuspendWaits(s, s2, id, k, |s2.queue|);
    SuspendUndone(s, s3, id, k);
  }

  /** A connection with a resume queued or running is suspended only to be resumed, so a suspend
      replaces its open job. */
  lemma QueuedResume(s: State, id: Id, i: nat)
    requires Agreeing(s) && Suspended(s.rows, id).Some? && i < |s.queue| && TaskOf(s, i, id)
    requires s.rows.jobs[s.queue[i].job].kind.Resume?
    ensures Suspended(s.rows, id) == PrepareSuspend(s.rows, id)
  {
    var r, j := s.rows, s.queue[i].job;
    assert GoodTask(r, s.queue, i);
    assert HasOpen(r.jobs, id) by {
      if r.jobs[j].status.Running? { assert r.jobs[j].Open(); }
    }
    var k := OpenJob(r.jobs, id).value;
    assert GoodJob(r, k);
    assert !r.jobs[k].kind.Suspend?;
  }

  /** A suspend can part engines and rows if and only if a resume of the connection is queued or running. */
  lemma SuspendExact(s: State, id: Id)
    requires Agreeing(s) && Suspended(s.rows, id).Some?
    ensures Strays(s.(rows := Suspended(s.rows, id).value), id) <==> !Safe(s, RequestSuspend(id))
  {
    var s' := s.(rows := Suspended(s.rows, id).value);
    if Safe(s, RequestSuspend(id)) {
      AgreeSuspend(s, id);
      NeverStrays(s', id);
    } else {
      var i :| 0 <= i < |s.queue| && TaskOf(s, i, id) && s.rows.jobs[s.queue[i].job].kind.Resume?;
      QueuedResume(s, id, i);
      SuspendGood(s, id);
      AgreeingReady(s, s'.rows);
      SuspendStrays(s', id, |s.rows.jobs|, i);
    }
  }

  // ---------------------------------------------------------------- an archive of a connection never activated

  /** The connection is archived with nothing live, and its open job is a revoke that no one has claimed. */
  ghost predicate Withdrawing(r: Rows, id: Id, k: nat) {
    && Absent(r, id) && r.connections[id].status.Archiving?
    && k < |r.jobs| && r.jobs[k].connection == id && r.jobs[k].kind.Revoke? && r.jobs[k].status.Waiting?
  }

  lemma StopKeeps(r: Rows, id: Id, k: nat)
    requires Withdrawing(r, id, k)
    ensures Withdrawing(RecoverInterrupted(r), id, k)
  {
    var r' := RecoverInterrupted(r);
    if HasLive(r', id) {
      var g :| LiveAt(r', id, g);
      assert LiveAt(r, id, g);
    }
  }

  /** The revoke of a connection with nothing live makes no engine call. */
  lemma RevokeStarts(o: State, s: State, id: Id, k: nat) returns (s': State)
    requires Later(o, s) && Ready(s) && s.queue == [Sync(k)] && s.progress.NotStarted? && k < |s.rows.jobs|
    requires s.rows.jobs[k].connection == id && s.rows.jobs[k].kind.Revoke? && !HasLive(s.rows, id)
    ensures Later(o, s') && Ready(s') && s' == s.(progress := OptionalCalls([]))
  {
    s' := HeadStarts(o, s);
  }

  /** The revoke, claimed with nothing before it, closes and leaves every engine as it was. */
  lemma RevokeEnds(o: State, s: State, id: Id, k: nat) returns (s': State)
    requires Later(o, s) && Ready(s) && Withdrawing(s.rows, id, k) && s.queue == []
    ensures Later(o, s') && Idle(s', id) && s'.loaded == s.loaded
    ensures id in s'.rows.connections && s'.rows.connections[id].status.Archived?
  {
    var s1 := WaitingClaimed(o, s, id, k);
    assert !HasLive(s1.rows, id) by {
      if g :| LiveAt(s1.rows, id, g) {
        assert LiveAt(s.rows, id, g);
      }
    }
    var s2 := RevokeStarts(o, s1, id, k);
    s' := HeadFinishes(o, s2);
    ClosedIdle(s2, s'.rows, id, k);
  }

  lemma Stopped(o: State, s: State) returns (s': State)
    requires Later(o, s) && Ready(s)
    ensures Later(o, s') && Ready(s') && s' == Restart(s, s.rows)
  {
    s' := Restart(s, s.rows);
    StepOn(o, s, Stop, s');
  }

  /** The process stops, and the revoke then leaves the connection in the engine that holds it. */
  lemma HeldStrays(o: State, s: State, id: Id, k: nat, engine: Engine)
    requires Later(o, s) && Ready(s) && Withdrawing(s.rows, id, k)
    requires engine in s.loaded && id in s.loaded[engine]
    ensures Strays(o, id)
  {
    var s1 := Stopped(o, s);
    StopKeeps(s.rows, id, k);
    var end := RevokeEnds(o, s1, id, k);
    assert Part(end.loaded[engine], id).Some?;
  }

  /** The head, if it wants the connection loaded, is about to call for it, or has done so. */
  ghost predicate HeadLoads(s: State, id: Id) {
    s.queue != [] && TaskOf(s, 0, id) && HeadGoal(s).Some? ==>
      match s.progress
      case NotStarted => true
      case FirstCall(push) => id in push.target
      case OptionalCalls(_) => XRAY in s.loaded && id in s.loaded[XRAY]
  }

  lemma WithdrawnUsable(r: Rows, id: Id)
    requires Absent(r, id) && r.connections[id].status.Archiving? && GoodConnection(r, id)
    ensures Usable(r, id, r.connections[id].generation)
  {
    var g := r.connections[id].generation;
    assert !LiveAt(r, id, g) && (g > 1 ==> !LiveAt(r, id, g - 1));
  }

  /** A call fails, but not before the engine took all it was sent. */
  lemma FailsLoaded(o: State, s: State) returns (s': State)
    requires Later(o, s) && Ready(s) && s.queue != [] && s.progress.FirstCall?
    ensures Later(o, s') && Ready(s')
    ensures s' == Release(s, Abandoned(s).rows).(loaded := s.loaded[s.progress.push.engine := s.progress.push.target])
  {
    var push := s.progress.push;
    s' := Abandoned(s.(loaded := s.loaded[push.engine := push.target]));
    assert Apply(s, CallFails(push.target)) == Some(s');
    StepOn(o, s, CallFails(push.target), s');
  }

  lemma LoadsThenFails(o: State, s: State, id: Id, k: nat)
    requires Later(o, s) && Ready(s) && Withdrawing(s.rows, id, k)
    requires s.queue != [] && TaskOf(s, 0, id) && s.progress.FirstCall? && id in s.progress.push.target
    ensures Strays(o, id)
  {
    var s' := FailsLoaded(o, s);
    OthersCancelled(s, id, k, 0);
    HeldStrays(o, s', id, k, s.progress.push.engine);
  }

  /** While the connection is withdrawn, a task of it that does not want it loaded changes nothing. */
  lemma WithdrawingLeft(s: State, r': Rows, id: Id, k: nat)
    requires Good(s) && s.queue != [] && Withdrawing(s.rows, id, k) && LeftRows(s, r')
    requires TaskOf(s, 0, id) ==> HeadGoal(s).None?
    ensures Withdrawing(r', id, k) && SameJobs(s.rows, r')
  {
    LeftOnly(s, r', id);
    if Subject(s) == Some(id) {
      OthersCancelled(s, id, k, 0);
    } else if Subject(s).Some? {
      LiveElsewhere(s.rows, r', Subject(s).value, id);
    }
  }

  lemma LoadStillQueued(s: State, s': State, id: Id)
    requires LoadQueued(s, id) && s.queue != [] && s'.queue == s.queue[1..] && SameJobs(s.rows, s'.rows)
    requires TaskOf(s, 0, id) ==> HeadGoal(s).None?
    ensures LoadQueued(s', id)
  {
    var i :| 0 <= i < |s.queue| && TaskOf(s, i, id) && Goal(s.rows.jobs[s.queue[i].job]).Some?;
    assert TaskOf(s', i - 1, id);
  }

  /** With a task queued that wants the connection loaded, the connection can end up archived and
      loaded: that task comes to the head, and its call fails after the engine took the connection. */
  lemma {:induction false} QueuedStrays(o: State, s: State, id: Id, k: nat)
    requires Later(o, s) && Ready(s) && Withdrawing(s.rows, id, k) && LoadQueued(s, id) && HeadLoads(s, id)
    ensures Strays(o, id)
    decreases |s.queue|
  {
    if TaskOf(s, 0, id) && HeadGoal(s).Some? {
      HeadStrays(o, s, id, k);
    } else {
      var s1 := HeadLeaves(o, s);
      WithdrawingLeft(s, s1.rows, id, k);
      LoadStillQueued(s, s1, id);
      QueuedStrays(o, s1, id, k);
    }
  }

  lemma HeadStrays(o: State, s: State, id: Id, k: nat)
    requires Later(o, s) && Ready(s) && Withdrawing(s.rows, id, k) && HeadLoads(s, id)
    requires s.queue != [] && TaskOf(s, 0, id) && HeadGoal(s).Some?
    ensures Strays(o, id)
  {
    match s.progress
    case NotStarted =>
      OthersCancelled(s, id, k, 0);
      WithdrawnUsable(s.rows, id);
      StartsCalling(s);
      var s1 := HeadStarts(o, s);
      LoadsThenFails(o, s1, id, k);
    case FirstCall(push) => LoadsThenFails(o, s, id, k);
    case OptionalCalls(_) => HeldStrays(o, s, id, k, XRAY);
  }

  lemma NothingLive(r: Rows, r': Rows, id: Id)
    requires GoodRows(r) && id in r.connections && r.connections[id].status.Provisioning?
    requires PrepareArchive(r, id) == Some(r')
    ensures Withdrawing(r', id, |r.jobs|)
  {
    assert GoodConnection(r, id);
    assert forall g :: !LiveAt(r', id, g);
  }

  /** The engines called so far hold what the head's job wants them to. */
  lemma CalledLoads(s: State, r': Rows, id: Id)
    requires Agreeing(s) && SameJobs(s.rows, r')
    ensures HeadLoads(s.(rows := r'), id)
  {
    if s.queue != [] && s.queue[0].Sync? {
      assert GoodTask(s.rows, s.queue, 0);
    }
    if s.progress.OptionalCalls? {
      assert XRAY !in s.optional[|s.optional| - |s.progress.todo|..];
    }
  }

  lemma ArchiveStrays(s: State, s': State, id: Id)
    requires Agreeing(s) && Ready(s') && Withdrawing(s'.rows, id, |s.rows.jobs|)
    requires s' == s.(rows := s'.rows) && SameJobs(s.rows, s'.rows)
    requires LoadQueued(s, id) || exists e :: e in s.loaded && id in s.loaded[e]
    ensures Strays(s', id)
  {
    LaterSelf(s');
    if e :| e in s.loaded && id in s.loaded[e] {
      HeldStrays(s', s', id, |s.rows.jobs|, e);
    } else {
      var i :| 0 <= i < |s.queue| && TaskOf(s, i, id) && Goal(s.rows.jobs[s.queue[i].job]).Some?;
      assert TaskOf(s', i, id);
      CalledLoads(s, s'.rows, id);
      QueuedStrays(s', s', id, |s.rows.jobs|);
    }
  }

  /** An archive can part engines and rows if and only if the connection was never activated, and an
      engine holds it or a task that wants it loaded is queued or running. */
  lemma ArchiveExact(s: State, id: Id)
    requires Agreeing(s) && PrepareArchive(s.rows, id).Some?
    ensures Strays(s.(rows := PrepareArchive(s.rows, id).value), id) <==> !Safe(s, RequestArchive(id))
  {
    var s' := s.(rows := PrepareArchive(s.rows, id).value);
    if Safe(s, RequestArchive(id)) {
      AgreeArchive(s, id);
      NeverStrays(s', id);
    } else {
      ArchiveGood(s, id);
      AgreeingReady(s, s'.rows);
      NothingLive(s.rows, s'.rows, id);
      ArchiveStrays(s, s', id);
    }
  }

  // ---------------------------------------------------------------- the unsafe requests do arrive

  /** The connection was issued once, and its last job waits. */
  ghost predicate Waits(r: Rows, id: Id, kind: Kind, status: Status, suspended: bool) {
    && id in r.connections && r.connections[id] == Connection(status, 1, suspended, false, Some(1))
    && r.jobs != [] && r.jobs[|r.jobs| - 1] == NewJob(id, 1, kind)
  }

  lemma Created(s: State, id: Id) returns (s': State)
    requires Initial(s)
    ensures Later(s, s') && Ready(s') && s'.queue == [] && Waits(s'.rows, id, Activate, Provisioning, false)
  {
    LaterSelf(s);
    s' := s.(rows := Create(s.rows, id).value);
    StepOn(s, s, RequestCreate(id), s');
  }

  lemma ClaimRunnable(r: Rows, k: nat, s: State)
    requires k < |r.jobs| && s.rows == Claim(r, k) && s.queue == [Sync(k)]
    requires r.jobs[k].kind.Suspend? || (!r.jobs[k].kind.Revoke? && Usable(r, r.jobs[k].connection, r.jobs[k].generation))
    ensures Subject(s).Some? && Runnable(s)
  {
  }

  /** The waiting job is claimed, and all its calls succeed. */
  lemma JobCalls(o: State, s: State, id: Id, k: nat) returns (s': State)
    requires Later(o, s) && Ready(s) && s.queue == []
    requires k < |s.rows.jobs| && s.rows.jobs[k].connection == id && s.rows.jobs[k].status.Waiting?
    requires var job := s.rows.jobs[k]; job.kind.Suspend? || (!job.kind.Revoke? && Usable(s.rows, id, job.generation))
    ensures Later(o, s') && Ready(s') && s'.queue == [Sync(k)] && s'.progress == OptionalCalls([])
    ensures s'.rows == Claim(s.rows, k)
  {
    var s1 := WaitingClaimed(o, s, id, k);
    ClaimRunnable(s.rows, k, s1);
    s' := HeadSucceeds(o, s1);
  }

  /** The rows after the tail of a job that was claimed and not cancelled. */
  lemma DoneRows(r: Rows, r1: Rows, s: State, id: Id, k: nat)
    requires k < |r.jobs| && r1 == Claim(r, k) && s.rows == r1 && s.queue == [Sync(k)] && OneOpen(r1.jobs)
    requires r.jobs[k].connection == id && !r.jobs[k].kind.Revoke? && Complete(r, r.jobs[k]).Some?
    ensures Subject(s).Some? && Tail(s).connections == Complete(r, r.jobs[k]).value.connections
    ensures !HasOpen(Tail(s).jobs, id)
  {
    HasOpenAfterClose(r1.jobs, k, Completed, id);
  }

  /** The waiting job can run to its end, and leaves the connection so. */
  ghost predicate Doable(r: Rows, id: Id, k: nat, c: Connection) {
    && k < |r.jobs| && r.jobs[k].connection == id && r.jobs[k].status.Waiting?
    && (r.jobs[k].kind.Suspend? || (!r.jobs[k].kind.Revoke? && Usable(r, id, r.jobs[k].generation)))
    && Complete(r, r.jobs[k]).Some? && id in Complete(r, r.jobs[k]).value.connections
    && Complete(r, r.jobs[k]).value.connections[id] == c
  }

  lemma JobDone(o: State, s: State, id: Id, k: nat, c: Connection) returns (s': State)
    requires Later(o, s) && Ready(s) && s.queue == [] && Doable(s.rows, id, k, c)
    ensures Later(o, s') && Ready(s') && s'.queue == [] && !HasOpen(s'.rows.jobs, id)
    ensures id in s'.rows.connections && s'.rows.connections[id] == c
  {
    var s1 := JobCalls(o, s, id, k);
    DoneRows(s.rows, s1.rows, s1, id, k);
    s' := HeadFinishes(o, s1);
  }

  /** A first activation, or a suspend, that waits can run to its end. */
  lemma WaitsDoable(r: Rows, id: Id, kind: Kind, status: Status, suspended: bool) returns (k: nat)
    requires GoodRows(r) && Waits(r, id, kind, status, suspended)
    requires (kind.Activate? && status.Provisioning?) || (kind.Suspend? && status.Active?)
    ensures Doable(r, id, k, Connection(Active, 1, suspended, false, Some(1)))
  {
    k := |r.jobs| - 1;
    assert GoodConnection(r, id);
  }

  lemma Activated(s: State, id: Id) returns (s': State)
    requires Initial(s)
    ensures Later(s, s') && Ready(s') && s'.queue == []
    ensures id in s'.rows.connections && s'.rows.connections[id] == Connection(Active, 1, false, false, Some(1))
  {
    var s1 := Created(s, id);
    var k := WaitsDoable(s1.rows, id, Activate, Provisioning, false);
    s' := JobDone(s, s1, id, k, Connection(Active, 1, false, false, Some(1)));
  }

  lemma SuspendAsked(o: State, s: State, id: Id) returns (s': State)
    requires Later(o, s) && Ready(s) && s.queue == []
    requires id in s.rows.connections && s.rows.connections[id] == Connection(Active, 1, false, false, Some(1))
    ensures Later(o, s') && Ready(s') && s'.queue == [] && Waits(s'.rows, id, Suspend, Active, true)
  {
    s' := s.(rows := PrepareSuspend(s.rows, id).value);
    StepOn(o, s, RequestSuspend(id), s');
  }

  lemma SuspendWaiting(s: State, id: Id) returns (s': State)
    requires Initial(s)
    ensures Later(s, s') && Ready(s') && s'.queue == [] && Waits(s'.rows, id, Suspend, Active, true)
  {
    var s1 := Activated(s, id);
    s' := SuspendAsked(s, s1, id);
  }

  lemma Rested(s: State, id: Id) returns (s': State)
    requires Initial(s)
    ensures Later(s, s') && Ready(s') && s'.queue == [] && !HasOpen(s'.rows.jobs, id)
    ensures id in s'.rows.connections && s'.rows.connections[id] == Connection(Active, 1, true, false, Some(1))
  {
    var s1 := SuspendWaiting(s, id);
    var k := WaitsDoable(s1.rows, id, Suspend, Active, true);
    s' := JobDone(s, s1, id, k, Connection(Active, 1, true, false, Some(1)));
  }

  lemma ResumeAsked(o: State, s: State, id: Id) returns (s': State)
    requires Later(o, s) && Ready(s) && s.queue == []
    requires id in s.rows.connections && s.rows.connections[id] == Connection(Active, 1, true, false, Some(1))
    requires !HasOpen(s.rows.jobs, id)
    ensures Later(o, s') && Ready(s') && s'.queue == [] && Waits(s'.rows, id, Resume, Active, true)
  {
    s' := s.(rows := PrepareResume(s.rows, id).value);
    StepOn(o, s, RequestResume(id), s');
  }

  lemma AskedBack(s: State, id: Id) returns (s': State)
    requires Initial(s)
    ensures Later(s, s') && Ready(s') && s'.queue == [] && Waits(s'.rows, id, Resume, Active, true)
  {
    var s1 := Rested(s, id);
    s' := ResumeAsked(s, s1, id);
  }

  /** The job of the connection that waits is claimed. */
  lemma JobClaimed(o: State, s: State, id: Id, kind: Kind, status: Status, suspended: bool) returns (s': State)
    requires Initial(o) && Later(o, s) && Ready(s) && s.queue == [] && Waits(s.rows, id, kind, status, suspended)
    requires Goal(NewJob(id, 1, kind)).Some?
    ensures Later(o, s') && Agreeing(s') && LoadQueued(s', id) && (kind.Resume? ==> ResumeQueued(s', id))
    ensures s'.rows.connections == s.rows.connections
  {
    s' := WaitingClaimed(o, s, id, |s.rows.jobs| - 1);
    assert TaskOf(s', 0, id);
    LaterAgrees(o, s');
  }

  ghost predicate Reaches(s: State, s': State, step: Step) {
    Later(s, s') && Agreeing(s') && Apply(s', step).Some? && !Safe(s', step)
  }

  /** Safe runs from a fresh installation lead to states in which a suspend, or an archive, is not safe. */
  lemma UnsafeReached(s: State, id: Id)
    requires Initial(s)
    ensures exists s' :: Reaches(s, s', RequestSuspend(id))
    ensures exists s' :: Reaches(s, s', RequestArchive(id))
  {
    var s1 := SuspendReached(s, id);
    var s2 := ArchiveReached(s, id);
  }

  lemma SuspendUnsafe(s: State, id: Id)
    requires Present(s.rows, id) && s.rows.connections[id].status.Active? && ResumeQueued(s, id)
    ensures Apply(s, RequestSuspend(id)).Some? && !Safe(s, RequestSuspend(id))
  {
  }

  lemma SuspendReached(s: State, id: Id) returns (s': State)
    requires Initial(s)
    ensures Reaches(s, s', RequestSuspend(id))
  {
    var s1 := AskedBack(s, id);
    s' := JobClaimed(s, s1, id, Resume, Active, true);
    SuspendUnsafe(s', id);
  }

  lemma ArchiveUnsafe(s: State, id: Id)
    requires Present(s.rows, id) && s.rows.connections[id].status.Provisioning? && LoadQueued(s, id)
    ensures Apply(s, RequestArchive(id)).Some? && !Safe(s, RequestArchive(id))
  {
  }

  lemma ArchiveReached(s: State, id: Id) returns (s': State)
    requires Initial(s)
    ensures Reaches(s, s', RequestArchive(id))
  {
    var s1 := Created(s, id);
    s' := JobClaimed(s, s1, id, Activate, Provisioning, false);
    ArchiveUnsafe(s', id);
  }

  lemma LaterAgrees(s: State, s': State)
    requires Initial(s) && Later(s, s')
    ensures Agreeing(s')
  {
    var steps :| SafeRun(s, steps) && Run(s, steps) == Some(s');
    RunAgrees(s, steps);
  }
}
