/** The tables of the connection service, changed statement by statement inside transactions, each
    proved to do what its transition of the rows says and nothing when it fails. */
module ConnectionStore {
  import opened Options
  import opened ConnectionRows
  import opened Lifecycle

  /** A transaction commits its transition, or rolls back and reports the failure. */
  predicate Outcome(before: Rows, wanted: Option<Rows>, after: Rows, ok: bool) {
    ok == wanted.Some? && after == (if wanted.Some? then wanted.value else before)
  }

  class Store {
    var connections: map<Id, Connection>
    var credentials: map<(Id, nat), CredentialState>
    var jobs: seq<Job>

    function Table(): Rows
      reads this
    {
      Rows(connections, credentials, jobs)
    }

    constructor ()
      ensures Table() == Rows(map[], map[], [])
    {
      connections, credentials, jobs := map[], map[], [];
    }

    // -------------------------------------------------------------- statements

    method Rollback(saved: Rows)
      modifies this
      ensures Table() == saved
    {
      connections, credentials, jobs := saved.connections, saved.credentials, saved.jobs;
    }

    method InsertConnection(id: Id) returns (ok: bool)
      modifies `connections
      ensures ok == (id !in old(connections))
      ensures connections == if ok then old(connections)[id := Connection(Provisioning, 1, false, false, Some(1))]
                             else old(connections)
    {
      ok := id !in connections;
      if ok { connections := connections[id := Connection(Provisioning, 1, false, false, Some(1))]; }
    }

    /** The credentials of a generation are unique. */
    method Issue(id: Id, generation: nat) returns (ok: bool)
      modifies `credentials
      ensures ok == ((id, generation) !in old(credentials))
      ensures credentials == if ok then old(credentials)[(id, generation) := Pending] else old(credentials)
    {
      ok := (id, generation) !in credentials;
      if ok { credentials := credentials[(id, generation) := Pending]; }
    }

    /** The newest open job, looked for from the newest job back. */
    method FindOpen(id: Id) returns (found: Option<nat>)
      ensures found == OpenJob(jobs, id)
    {
      var n: nat := |jobs|;
      assert jobs[..n] == jobs;
      while n > 0
        invariant n <= |jobs|
        invariant OpenJob(jobs, id) == OpenJob(jobs[..n], id)
      {
        if jobs[n - 1].connection == id && jobs[n - 1].Open() {
          return Some(n - 1);
        }
        assert jobs[..n][..n - 1] == jobs[..n - 1];
        n := n - 1;
      }
      assert jobs[..n] == [];
      found := None;
    }

    /** A connection has at most one open job. */
    method CreateJob(id: Id, generation: nat, kind: Kind) returns (ok: bool)
      modifies `jobs
      ensures ok == !HasOpen(old(jobs), id)
      ensures jobs == if ok then old(jobs) + [NewJob(id, generation, kind)] else old(jobs)
    {
      var open := FindOpen(id);
      ok := open.None?;
      if ok { jobs := jobs + [NewJob(id, generation, kind)]; }
    }

    method CancelOpenJobs(id: Id)
      modifies `jobs
      ensures jobs == CancelOpen(old(jobs), id)
    {
      var n := 0;
      while n < |jobs|
        invariant n <= |jobs| == |old(jobs)|
        invariant jobs[..n] == CancelOpen(old(jobs), id)[..n]
        invariant jobs[n..] == old(jobs)[n..]
      {
        assert jobs[n] == jobs[n..][0] == old(jobs)[n];
        if jobs[n].connection == id && jobs[n].Open() {
          jobs := jobs[n := jobs[n].(status := Cancelled)];
        }
        n := n + 1;
      }
    }

    // -------------------------------------------------------------- requests

    method Create(id: Id) returns (ok: bool)
      modifies this
      ensures Outcome(old(Table()), ConnectionRows.Create(old(Table()), id), Table(), ok)
    {
      var saved := Table();
      ok := InsertConnection(id);
      if ok { ok := Issue(id, 1); }
      if ok { ok := CreateJob(id, 1, Activate); }
      if !ok { Rollback(saved); }
    }

    method PrepareRotation(id: Id) returns (ok: bool)
      modifies this
      ensures Outcome(old(Table()), ConnectionRows.PrepareRotation(old(Table()), id), Table(), ok)
    {
      if id !in connections || connections[id].archived { return false; }
      if !connections[id].status.Active? || connections[id].suspended { return false; }
      var saved := Table();
      var next := connections[id].generation + 1;
      connections := connections[id := connections[id].(status := Rotating, generation := next, link := Some(next))];
      ok := Issue(id, next);
      if ok { ok := CreateJob(id, next, Rotate); }
      if !ok { Rollback(saved); }
    }

    method PrepareSuspend(id: Id) returns (ok: bool)
      modifies this
      ensures Outcome(old(Table()), ConnectionRows.PrepareSuspend(old(Table()), id), Table(), ok)
    {
      if id !in connections || connections[id].archived || !connections[id].status.Active? { return false; }
      CancelOpenJobs(id);
      connections := connections[id := connections[id].(suspended := true)];
      ok := CreateJob(id, connections[id].generation, Kind.Suspend);
    }

    method PrepareResume(id: Id) returns (ok: bool)
      modifies this
      ensures Outcome(old(Table()), ConnectionRows.PrepareResume(old(Table()), id), Table(), ok)
    {
      if id !in connections || connections[id].archived || !connections[id].status.Active? { return false; }
      if !connections[id].suspended { return true; }
      CancelOpenJobs(id);
      ok := CreateJob(id, connections[id].generation, Kind.Resume);
    }

    method PrepareArchive(id: Id) returns (ok: bool)
      modifies this
      ensures Outcome(old(Table()), ConnectionRows.PrepareArchive(old(Table()), id), Table(), ok)
    {
      if id !in connections || connections[id].archived { return false; }
      CancelOpenJobs(id);
      connections := connections[id := connections[id].(status := Archiving, archived := true, link := None)];
      ok := CreateJob(id, connections[id].generation, Revoke);
    }

    method Suspend(id: Id) returns (ok: bool)
      modifies this
      ensures Outcome(old(Table()), Suspended(old(Table()), id), Table(), ok)
    {
      if id !in connections || connections[id].archived || !connections[id].status.Active? { return false; }
      var job := FindOpen(id);
      ok := true;
      if !connections[id].suspended || (job.Some? && jobs[job.value].kind.Resume?) {
        ok := PrepareSuspend(id);
      }
    }

    method Resume(id: Id) returns (ok: bool)
      modifies this
      ensures Outcome(old(Table()), Resumed(old(Table()), id), Table(), ok)
    {
      if id !in connections || connections[id].archived || !connections[id].status.Active? { return false; }
      if !connections[id].suspended { return true; }
      var job := FindOpen(id);
      ok := true;
      if job.None? || !jobs[job.value].kind.Resume? {
        ok := PrepareResume(id);
      }
    }

    method Retry(id: Id) returns (ok: bool)
      modifies `jobs
      ensures Outcome(old(Table()), Retried(old(Table()), id), Table(), ok)
    {
      if id !in connections { return false; }
      var job := FindOpen(id);
      if job.None? { return connections[id].status.Active? || connections[id].status.Archived?; }
      if jobs[job.value].status.Failed? { jobs := jobs[job.value := jobs[job.value].(status := Waiting)]; }
      ok := true;
    }

    // -------------------------------------------------------------- jobs

    /** Claims the open job of a connection, unless someone already has. */
    method ClaimOpen(id: Id) returns (claimed: Option<nat>)
      modifies `jobs
      ensures claimed.Some? ==> OpenJob(old(jobs), id) == claimed && !old(jobs)[claimed.value].status.Running?
      ensures claimed.None? ==> OpenJob(old(jobs), id).None? || old(jobs)[OpenJob(old(jobs), id).value].status.Running?
      ensures Table() == if claimed.Some? then Claim(old(Table()), claimed.value) else old(Table())
    {
      var job := FindOpen(id);
      if job.None? || jobs[job.value].status.Running? { return None; }
      var j := job.value;
      jobs := jobs[j := jobs[j].(status := Running, attempts := jobs[j].attempts + 1)];
      claimed := job;
    }

    method UpdateRunning(j: nat, status: JobStatus)
      requires j < |jobs|
      modifies `jobs
      ensures Table() == Settle(old(Table()), j, status)
    {
      if jobs[j].status.Running? { jobs := jobs[j := jobs[j].(status := status)]; }
    }

    method RecoverInterrupted()
      modifies `jobs
      ensures Table() == ConnectionRows.RecoverInterrupted(old(Table()))
    {
      var n := 0;
      while n < |jobs|
        invariant n <= |jobs| == |old(jobs)|
        invariant jobs[..n] == ConnectionRows.RecoverInterrupted(old(Table())).jobs[..n]
        invariant jobs[n..] == old(jobs)[n..]
      {
        assert jobs[n] == jobs[n..][0] == old(jobs)[n];
        if jobs[n].status.Running? {
          jobs := jobs[n := jobs[n].(status := Failed)];
        }
        n := n + 1;
      }
    }

    /** The credentials of the other generations are revoked first, then the pending one goes live. */
    method ActivateOnly(id: Id, generation: nat)
      modifies `credentials
      ensures credentials == ActivateCredentials(old(credentials), id, generation)
    {
      credentials := map k | k in credentials ::
        if k.0 == id && k.1 != generation && credentials[k].Live? then Revoked else credentials[k];
      if (id, generation) in credentials && credentials[(id, generation)].Pending? {
        credentials := credentials[(id, generation) := Live];
      }
    }

    method RevokeAll(id: Id)
      modifies `credentials
      ensures credentials == RevokeCredentials(old(credentials), id)
    {
      var todo := credentials.Keys;
      while todo != {}
        invariant credentials.Keys == old(credentials).Keys && todo <= credentials.Keys
        invariant forall k | k in todo :: credentials[k] == old(credentials)[k]
        invariant forall k | k in credentials && k !in todo ::
          credentials[k] == RevokeCredentials(old(credentials), id)[k]
      {
        var k :| k in todo;
        if k.0 == id { credentials := credentials[k := Revoked]; }
        todo := todo - {k};
      }
    }

    /** The effect of a job on the tables; false when the connection is gone. */
    method CompleteJob(job: Job) returns (ok: bool)
      modifies this
      ensures Outcome(old(Table()), Complete(old(Table()), job), Table(), ok)
    {
      var id := job.connection;
      match job.kind
      case Revoke =>
        if id !in connections { return false; }
        RevokeAll(id);
        connections := connections[id := connections[id].(status := Archived)];
        return true;
      case Suspend =>
        return id in connections && !connections[id].archived;
      case Resume =>
        if id !in connections || connections[id].archived { return false; }
        connections := connections[id := connections[id].(suspended := false)];
        return true;
      case _ =>
        if id !in connections { return false; }
        ActivateOnly(id, job.generation);
        connections := connections[id := connections[id].(status := Active)];
        return true;
    }

    /** What the holder of the lock does once its engine calls are through. */
    method Finish(j: nat)
      requires j < |jobs|
      modifies this
      ensures Table() ==
              match Complete(old(Table()), old(jobs)[j])
              case None => Settle(old(Table()), j, Failed)
              case Some(r) => Settle(r, j, Completed)
    {
      var ok := CompleteJob(jobs[j]);
      UpdateRunning(j, if ok then Completed else Failed);
    }

    // -------------------------------------------------------------- queries

    /** The users an engine is to load: everyone granted, with one connection added at a generation
        or left out. It fails when a user has no credentials. */
    method ActiveCredentials(subject: Option<Id>, generation: Option<nat>) returns (selected: Option<seq<(Id, nat)>>)
      requires generation.Some? ==> subject.Some?
      ensures var wanted := Snapshot(Table(), subject, generation);
        && (selected.Some? <==> forall id | id in wanted :: Usable(Table(), id, wanted[id]))
        && (selected.Some? ==> Lists(selected.value, wanted))
    {
      var wanted := Snapshot(Table(), subject, generation);
      var rows: seq<(Id, nat)> := [];
      var todo: set<Id> := connections.Keys;
      ghost var seen: set<Id> := {};
      while todo != {}
        invariant todo <= connections.Keys && seen == connections.Keys - todo
        invariant forall p | p in rows :: p.0 in seen && subject != Some(p.0) && Granted(Table(), p.0) == Some(p.1)
        invariant forall id | id in seen && subject != Some(id) && Granted(Table(), id).Some? ::
          (id, Granted(Table(), id).value) in rows
        invariant forall i, k | 0 <= i < k < |rows| :: rows[i].0 != rows[k].0
        invariant forall p | p in rows :: Usable(Table(), p.0, p.1)
      {
        var id :| id in todo;
        todo, seen := todo - {id}, seen + {id};
        var g := Granted(Table(), id);
        if g.Some? && subject != Some(id) {
          if !Usable(Table(), id, g.value) {
            assert wanted[id] == g.value;
            return None;
          }
          rows := rows + [(id, g.value)];
        }
      }
      if subject.Some? && generation.Some? {
        if !Usable(Table(), subject.value, generation.value) {
          assert wanted[subject.value] == generation.value;
          return None;
        }
        rows := rows + [(subject.value, generation.value)];
      }
      selected := Some(rows);
    }

    /** The connection a password belongs to, if it is accepted. */
    method Authenticate(passwords: map<(Id, nat), string>, auth: string) returns (owner: Option<Id>)
      requires passwords.Keys == credentials.Keys
      ensures owner.None? <==> forall k | k in credentials && Accepted(Table(), k.0, k.1) :: passwords[k] != auth
      ensures owner.Some? ==> exists g ::
        ((owner.value, g) in credentials && Accepted(Table(), owner.value, g) && passwords[(owner.value, g)] == auth)
    {
      var todo := credentials.Keys;
      while todo != {}
        invariant todo <= credentials.Keys
        invariant forall k | k in credentials && k !in todo && Accepted(Table(), k.0, k.1) :: passwords[k] != auth
      {
        var k :| k in todo;
        todo := todo - {k};
        if Accepted(Table(), k.0, k.1) && passwords[k] == auth {
          assert k == (k.0, k.1);
          return Some(k.0);
        }
      }
      owner := None;
    }
  }

  /** The pairs are the entries of the load, each once. */
  ghost predicate Lists(pairs: seq<(Id, nat)>, load: Load) {
    && (forall id, g :: (id, g) in pairs <==> id in load && load[id] == g)
    && (forall i, k | 0 <= i < k < |pairs| :: pairs[i].0 != pairs[k].0)
  }
}
