/** The rows behind a connection: the connection itself, its credentials by generation, and its
    synchronisation jobs, with every transition as a function of the rows. A transition that the
    program refuses, or that the database rejects and rolls back, is `None`. */
module ConnectionRows {
  import opened Options

  type Id = string

  datatype Status = Provisioning | Active | Rotating | Archiving | Archived

  /** `link` is the generation whose subscription token is stored. */
  datatype Connection = Connection(status: Status, generation: nat, suspended: bool, archived: bool, link: Option<nat>)

  datatype CredentialState = Pending | Live | Revoked

  datatype Kind = Activate | Rotate | Revoke | Suspend | Resume
  datatype JobStatus = Waiting | Running | Failed | Completed | Cancelled

  datatype Job = Job(connection: Id, generation: nat, kind: Kind, status: JobStatus, attempts: nat) {
    predicate Open() {
      status.Waiting? || status.Running? || status.Failed?
    }
  }

  /** Jobs are listed in the order they were created; a job is named by its position. */
  datatype Rows = Rows(
    connections: map<Id, Connection>,
    credentials: map<(Id, nat), CredentialState>,
    jobs: seq<Job>)

  predicate HasOpen(jobs: seq<Job>, id: Id) {
    exists j :: 0 <= j < |jobs| && jobs[j].connection == id && jobs[j].Open()
  }

  /** The newest open job of a connection. */
  function OpenJob(jobs: seq<Job>, id: Id): (r: Option<nat>)
    ensures r.Some? ==> r.value < |jobs| && jobs[r.value].connection == id && jobs[r.value].Open()
    ensures r.Some? <==> HasOpen(jobs, id)
  {
    if jobs == [] then None
    else
      var last := |jobs| - 1;
      if jobs[last].connection == id && jobs[last].Open() then Some(last)
      else
        assert HasOpen(jobs[..last], id) <==> HasOpen(jobs, id) by {
          if HasOpen(jobs, id) {
            var j :| 0 <= j < |jobs| && jobs[j].connection == id && jobs[j].Open();
            assert jobs[..last][j] == jobs[j];
          }
        }
        OpenJob(jobs[..last], id)
  }

  function CancelOpen(jobs: seq<Job>, id: Id): (r: seq<Job>)
    ensures |r| == |jobs|
    ensures forall j | 0 <= j < |jobs| ::
      r[j] == if jobs[j].connection == id && jobs[j].Open() then jobs[j].(status := Cancelled) else jobs[j]
  {
    seq(|jobs|, j requires 0 <= j < |jobs| =>
      if jobs[j].connection == id && jobs[j].Open() then jobs[j].(status := Cancelled) else jobs[j])
  }

  function NewJob(id: Id, generation: nat, kind: Kind): Job {
    Job(id, generation, kind, Waiting, 0)
  }

  /** A connection that is not archived. */
  predicate Present(r: Rows, id: Id) {
    id in r.connections && !r.connections[id].archived
  }

  // ---------------------------------------------------------------- requests

  function Create(r: Rows, id: Id): Option<Rows> {
    if id in r.connections || (id, 1) in r.credentials || HasOpen(r.jobs, id) then None
    else Some(Rows(
      r.connections[id := Connection(Provisioning, 1, false, false, Some(1))],
      r.credentials[(id, 1) := Pending],
      r.jobs + [NewJob(id, 1, Activate)]))
  }

  function PrepareRotation(r: Rows, id: Id): Option<Rows> {
    if !Present(r, id) || !r.connections[id].status.Active? || r.connections[id].suspended then None
    else
      var next := r.connections[id].generation + 1;
      if (id, next) in r.credentials || HasOpen(r.jobs, id) then None
      else Some(Rows(
        r.connections[id := r.connections[id].(status := Rotating, generation := next, link := Some(next))],
        r.credentials[(id, next) := Pending],
        r.jobs + [NewJob(id, next, Rotate)]))
  }

  function PrepareSuspend(r: Rows, id: Id): Option<Rows> {
    if !Present(r, id) || !r.connections[id].status.Active? then None
    else Some(Rows(
      r.connections[id := r.connections[id].(suspended := true)],
      r.credentials,
      CancelOpen(r.jobs, id) + [NewJob(id, r.connections[id].generation, Suspend)]))
  }

  /** Nothing to do for a connection that is not suspended. */
  function PrepareResume(r: Rows, id: Id): Option<Rows> {
    if !Present(r, id) || !r.connections[id].status.Active? then None
    else if !r.connections[id].suspended then Some(r)
    else Some(r.(jobs := CancelOpen(r.jobs, id) + [NewJob(id, r.connections[id].generation, Resume)]))
  }

  function PrepareArchive(r: Rows, id: Id): Option<Rows> {
    if !Present(r, id) then None
    else Some(Rows(
      r.connections[id := r.connections[id].(status := Archiving, archived := true, link := None)],
      r.credentials,
      CancelOpen(r.jobs, id) + [NewJob(id, r.connections[id].generation, Revoke)]))
  }

  // ---------------------------------------------------------------- completions

  function ActivateCredentials(c: map<(Id, nat), CredentialState>, id: Id, generation: nat): map<(Id, nat), CredentialState> {
    map k | k in c ::
      if k.0 == id && k.1 != generation && c[k].Live? then Revoked
      else if k.0 == id && k.1 == generation && c[k].Pending? then Live
      else c[k]
  }

  function RevokeCredentials(c: map<(Id, nat), CredentialState>, id: Id): map<(Id, nat), CredentialState> {
    map k | k in c :: if k.0 == id then Revoked else c[k]
  }

  function CompleteActivation(r: Rows, id: Id, generation: nat): Option<Rows> {
    if id !in r.connections then None
    else Some(r.(
      connections := r.connections[id := r.connections[id].(status := Active)],
      credentials := ActivateCredentials(r.credentials, id, generation)))
  }

  /** Only the journal learns of it. */
  function CompleteSuspend(r: Rows, id: Id): Option<Rows> {
    if Present(r, id) then Some(r) else None
  }

  function CompleteResume(r: Rows, id: Id): Option<Rows> {
    if Present(r, id) then Some(r.(connections := r.connections[id := r.connections[id].(suspended := false)]))
    else None
  }

  function CompleteArchive(r: Rows, id: Id): Option<Rows> {
    if id !in r.connections then None
    else Some(r.(
      connections := r.connections[id := r.connections[id].(status := Archived)],
      credentials := RevokeCredentials(r.credentials, id)))
  }

  /** What a job does to the rows once the engines have answered. */
  function Complete(r: Rows, job: Job): Option<Rows> {
    match job.kind
    case Revoke => CompleteArchive(r, job.connection)
    case Suspend => CompleteSuspend(r, job.connection)
    case Resume => CompleteResume(r, job.connection)
    case _ => CompleteActivation(r, job.connection, job.generation)
  }

  // ---------------------------------------------------------------- job status

  function SetStatus(r: Rows, j: nat, status: JobStatus): Rows
    requires j < |r.jobs|
  {
    r.(jobs := r.jobs[j := r.jobs[j].(status := status)])
  }

  /** Status changes of the tail apply only to a job that is still running. */
  function Settle(r: Rows, j: nat, status: JobStatus): Rows
    requires j < |r.jobs|
  {
    if r.jobs[j].status.Running? then SetStatus(r, j, status) else r
  }

  function Claim(r: Rows, j: nat): Rows
    requires j < |r.jobs|
  {
    r.(jobs := r.jobs[j := r.jobs[j].(status := Running, attempts := r.jobs[j].attempts + 1)])
  }

  /** After a restart every job that was running is queued for another try. */
  function RecoverInterrupted(r: Rows): Rows {
    r.(jobs := seq(|r.jobs|, j requires 0 <= j < |r.jobs| =>
      if r.jobs[j].status.Running? then r.jobs[j].(status := Failed) else r.jobs[j]))
  }

  // ---------------------------------------------------------------- what the rows grant

  /** The generation a connection may be used with now, if any. */
  function Granted(r: Rows, id: Id): Option<nat> {
    if id in r.connections && r.connections[id].status.Active?
       && !r.connections[id].suspended && !r.connections[id].archived
    then Some(r.connections[id].generation) else None
  }

  /** The password of a generation is accepted when its credential is live and the connection is
      active, not suspended and not archived. */
  predicate Accepted(r: Rows, id: Id, generation: nat) {
    && (id, generation) in r.credentials && r.credentials[(id, generation)].Live?
    && Granted(r, id).Some?
  }

  predicate Usable(r: Rows, id: Id, generation: nat) {
    (id, generation) in r.credentials && !r.credentials[(id, generation)].Revoked?
  }

  /** The generation of the connection's live credential, if any. */
  ghost predicate LiveAt(r: Rows, id: Id, generation: nat) {
    (id, generation) in r.credentials && r.credentials[(id, generation)].Live?
  }

  ghost predicate HasLive(r: Rows, id: Id) {
    exists g :: LiveAt(r, id, g)
  }
}
