/** The connection lifecycle as a machine of atomic steps: requests change rows at any time, jobs
    queue for one lock, the holder of the lock drives the engines one call at a time, any call may
    fail, and the process may stop at any point. */
module Lifecycle {
  import opened Options
  import opened ConnectionRows

  type Engine = nat
  const XRAY: Engine := 0

  /** The users an engine has loaded, each at one generation. */
  type Load = map<Id, nat>

  function Part(load: Load, id: Id): Option<nat> {
    if id in load then Some(load[id]) else None
  }

  /** A task waiting for the lock: a claimed job, or the reconciliation of one engine. */
  datatype Task = Sync(job: nat) | Reconcile(engine: Engine)

  /** How an engine call changes the engine: by loading a whole snapshot, or by adding or removing
      one user in place, with the snapshot as the fallback the agent restarts from. */
  datatype Mode = Whole | HotAdd(id: Id, generation: nat) | HotRemove(id: Id, generation: nat)
  datatype Push = Push(engine: Engine, mode: Mode, target: Load)

  /** Where the task holding the lock stands. */
  datatype Progress = NotStarted | FirstCall(push: Push) | OptionalCalls(todo: seq<Push>)

  datatype State = State(
    rows: Rows,
    loaded: map<Engine, Load>,
    optional: seq<Engine>,
    queue: seq<Task>,
    progress: Progress)

  // ---------------------------------------------------------------- what an engine call loads

  /** Everyone the rows grant, with one connection added at a generation or left out. */
  function Snapshot(r: Rows, subject: Option<Id>, generation: Option<nat>): Load {
    map id | id in r.connections.Keys + (if subject.Some? then {subject.value} else {}) &&
             Chosen(r, subject, generation, id).Some? ::
      Chosen(r, subject, generation, id).value
  }

  function Chosen(r: Rows, subject: Option<Id>, generation: Option<nat>, id: Id): Option<nat> {
    if subject == Some(id) then generation else Granted(r, id)
  }

  /** What a job wants its connection loaded at. */
  function Goal(job: Job): Option<nat> {
    match job.kind
    case Suspend => None
    case Revoke => None
    case _ => Some(job.generation)
  }

  function OptionalPushes(s: State, subject: Option<Id>, generation: Option<nat>): seq<Push> {
    seq(|s.optional|, i requires 0 <= i < |s.optional| =>
      Push(s.optional[i], Whole, Snapshot(s.rows, subject, generation)))
  }

  /** The first engine call of a job; `None` when the program throws before making it. The revoke
      of a connection without a live credential makes no call at all. */
  function Begin(s: State, j: nat, hot: bool, live: Option<nat>): Option<Progress>
    requires j < |s.rows.jobs|
  {
    var job := s.rows.jobs[j];
    var id := job.connection;
    var whole := Snapshot(s.rows, Some(id), Goal(job));
    match job.kind
    case Rotate =>
      if Usable(s.rows, id, job.generation) then Some(FirstCall(Push(XRAY, Whole, whole))) else None
    case Revoke =>
      if live.None? then Some(OptionalCalls([]))
      else Some(FirstCall(Push(XRAY, if hot then HotRemove(id, live.value) else Whole, whole)))
    case Suspend =>
      if !hot then Some(FirstCall(Push(XRAY, Whole, whole)))
      else if Usable(s.rows, id, job.generation)
      then Some(FirstCall(Push(XRAY, HotRemove(id, job.generation), whole))) else None
    case _ =>
      if !Usable(s.rows, id, job.generation) then None
      else Some(FirstCall(Push(XRAY, if hot then HotAdd(id, job.generation) else Whole, whole)))
  }

  /** What an engine may hold after a call that succeeded. */
  predicate Landed(push: Push, before: Load, after: Load) {
    || after == push.target
    || (push.mode.HotAdd? && after == before[push.mode.id := push.mode.generation])
    || (push.mode.HotRemove? && Part(before, push.mode.id) == Some(push.mode.generation)
        && after == before - {push.mode.id})
  }

  /** What it may hold after a call that failed: everyone is as before or as wanted, and the
      connection the call was about may also be gone. */
  ghost predicate Botched(push: Push, subject: Option<Id>, before: Load, after: Load) {
    forall id :: || Part(after, id) == Part(before, id)
                 || Part(after, id) == Part(push.target, id)
                 || (subject == Some(id) && Part(after, id).None?)
  }

  // ---------------------------------------------------------------- steps

  datatype Step =
    | RequestCreate(id: Id)
    | RequestRotate(id: Id)
    | RequestSuspend(id: Id)
    | RequestResume(id: Id)
    | RequestArchive(id: Id)
    | RequestRetry(id: Id)
    | ClaimJob(id: Id)
    | RequestReconcile(engine: Engine)
    | Start(hot: bool)
    | CallSucceeds(after: Load)
    | CallFails(after: Load)
    | Finish
    | FinishThenStop
    | Stop

  function Suspended(r: Rows, id: Id): Option<Rows> {
    if !Present(r, id) || !r.connections[id].status.Active? then None
    else
      var job := OpenJob(r.jobs, id);
      if !r.connections[id].suspended || (job.Some? && r.jobs[job.value].kind.Resume?) then PrepareSuspend(r, id)
      else Some(r)
  }

  function Resumed(r: Rows, id: Id): Option<Rows> {
    if !Present(r, id) || !r.connections[id].status.Active? then None
    else if !r.connections[id].suspended then Some(r)
    else
      var job := OpenJob(r.jobs, id);
      if job.Some? && r.jobs[job.value].kind.Resume? then Some(r) else PrepareResume(r, id)
  }

  /** Without an open job there is nothing to retry, which is an error unless the connection is at rest. */
  function Retried(r: Rows, id: Id): Option<Rows> {
    var job := OpenJob(r.jobs, id);
    if id !in r.connections then None
    else if job.None? then
      if r.connections[id].status.Active? || r.connections[id].status.Archived? then Some(r) else None
    else if r.jobs[job.value].status.Failed? then Some(SetStatus(r, job.value, Waiting))
    else Some(r)
  }

  function WithRows(s: State, r: Option<Rows>): Option<State> {
    if r.Some? then Some(s.(rows := r.value)) else None
  }

  /** The lock passes to the next task. */
  function Release(s: State, r: Rows): State
    requires s.queue != []
  {
    s.(rows := r, queue := s.queue[1..], progress := NotStarted)
  }

  /** The process stops and starts again: queued tasks are gone, running jobs are queued for retry. */
  function Restart(s: State, r: Rows): State {
    s.(rows := RecoverInterrupted(r), queue := [], progress := NotStarted)
  }

  function Subject(s: State): Option<Id> {
    if s.queue != [] && s.queue[0].Sync? && s.queue[0].job < |s.rows.jobs|
    then Some(s.rows.jobs[s.queue[0].job].connection) else None
  }

  /** The call that is under way. */
  function Current(s: State): Option<Push> {
    match s.progress
    case NotStarted => None
    case FirstCall(push) => Some(push)
    case OptionalCalls(todo) => if todo == [] then None else Some(todo[0])
  }

  /** The rows after the tail of the job holding the lock. A tail that throws, because the connection
      was archived meanwhile, leaves the rows alone but for the job. */
  function Tail(s: State): Rows
    requires Subject(s).Some?
  {
    var j := s.queue[0].job;
    match Complete(s.rows, s.rows.jobs[j])
    case None => Settle(s.rows, j, Failed)
    case Some(r) => Settle(r, j, Completed)
  }

  ghost function Apply(s: State, step: Step): Option<State> {
    match step
    case RequestCreate(id) => WithRows(s, Create(s.rows, id))
    case RequestRotate(id) => WithRows(s, PrepareRotation(s.rows, id))
    case RequestSuspend(id) => WithRows(s, Suspended(s.rows, id))
    case RequestResume(id) => WithRows(s, Resumed(s.rows, id))
    case RequestArchive(id) => WithRows(s, PrepareArchive(s.rows, id))
    case RequestRetry(id) => WithRows(s, Retried(s.rows, id))
    case ClaimJob(id) =>
      var job := OpenJob(s.rows.jobs, id);
      if job.None? || s.rows.jobs[job.value].status.Running? then None
      else Some(s.(rows := Claim(s.rows, job.value), queue := s.queue + [Sync(job.value)]))
    case RequestReconcile(engine) =>
      if engine !in s.loaded then None else Some(s.(queue := s.queue + [Reconcile(engine)]))
    case Start(hot) => Started(s, hot)
    case CallSucceeds(after) =>
      if Current(s).None? || s.queue == [] || Current(s).value.engine !in s.loaded then None
      else
        var push := Current(s).value;
        if !Landed(push, s.loaded[push.engine], after) then None
        else Some(Advanced(s.(loaded := s.loaded[push.engine := after])))
    case CallFails(after) =>
      if Current(s).None? || s.queue == [] || Current(s).value.engine !in s.loaded then None
      else
        var push := Current(s).value;
        if !Botched(push, Subject(s), s.loaded[push.engine], after) then None
        else Some(Abandoned(s.(loaded := s.loaded[push.engine := after])))
    case Finish =>
      if s.progress != OptionalCalls([]) || Subject(s).None? then None
      else Some(Release(s, Tail(s)))
    case FinishThenStop =>
      if s.progress != OptionalCalls([]) || Subject(s).None? then None
      else
        var r := Complete(s.rows, s.rows.jobs[s.queue[0].job]);
        Some(Restart(s, if r.Some? then r.value else s.rows))
    case Stop => Some(Restart(s, s.rows))
  }

  ghost function Started(s: State, hot: bool): Option<State> {
    if !s.progress.NotStarted? || s.queue == [] then None
    else
      match s.queue[0]
      case Reconcile(engine) =>
        Some(s.(progress := FirstCall(Push(engine, Whole, Snapshot(s.rows, None, None)))))
      case Sync(j) =>
        if j >= |s.rows.jobs| then None
        else
          var first := Begin(s, j, hot, LiveGeneration(s.rows, s.rows.jobs[j].connection));
          if first.Some? then Some(s.(progress := first.value)) else Some(Abandoned(s))
  }

  /** The generation of a live credential, if there is one. */
  ghost function LiveGeneration(r: Rows, id: Id): (g: Option<nat>)
    ensures g.Some? <==> HasLive(r, id)
    ensures g.Some? ==> LiveAt(r, id, g.value)
  {
    if HasLive(r, id) then
      var g :| LiveAt(r, id, g);
      Some(g)
    else None
  }

  /** A call has succeeded: after the first, the snapshot for the optional engines is taken; a
      reconciliation is then done. */
  function Advanced(s: State): State
    requires s.queue != [] && Current(s).Some?
  {
    match s.progress
    case FirstCall(_) =>
      if Subject(s).None? then Release(s, s.rows)
      else
        var job := s.rows.jobs[s.queue[0].job];
        s.(progress := OptionalCalls(OptionalPushes(s, Some(job.connection), Goal(job))))
    case OptionalCalls(todo) => s.(progress := OptionalCalls(todo[1..]))
    case NotStarted => s
  }

  /** A call has failed, or could not be made. */
  function Abandoned(s: State): State
    requires s.queue != []
  {
    Release(s, if Subject(s).Some? then Settle(s.rows, s.queue[0].job, Failed) else s.rows)
  }

  ghost function Run(s: State, steps: seq<Step>): Option<State>
    decreases |steps|
  {
    if steps == [] then Some(s)
    else
      var before := Run(s, steps[..|steps| - 1]);
      if before.None? then None else Apply(before.value, steps[|steps| - 1])
  }

  /** A fresh installation. */
  ghost predicate Initial(s: State) {
    && s.rows == Rows(map[], map[], [])
    && XRAY in s.loaded
    && (forall e | e in s.loaded :: s.loaded[e] == map[])
    && (forall i | 0 <= i < |s.optional| :: s.optional[i] in s.loaded && s.optional[i] != XRAY)
    && (forall e | e in s.loaded && e != XRAY :: e in s.optional)
    && (forall i, k | 0 <= i < k < |s.optional| :: s.optional[i] != s.optional[k])
    && s.queue == [] && s.progress == NotStarted
  }
}
