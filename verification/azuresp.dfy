/** Creating the Azure service principal: five steps against the directory, undone by deleting
    the application when a later one fails. */
module ServicePrincipal {
  import Backoff

  /** A call works, or it fails without effect, or it reports failure although it took effect. */
  datatype Fault = Works | FailsClean | FailsDirty

  /** The directory and the role assignments beside it. */
  datatype Directory = Directory(
    applications: set<string>,
    secrets: set<string>,
    principals: map<string, string>,
    assignments: set<string>
  )

  /** What the cloud does in one run: the outcome of every call and the names it hands out. */
  datatype Script = Script(
    create: Fault,
    addPassword: Fault,
    createPrincipal: Fault,
    resolves: bool,
    assignment: Backoff.World,
    assignmentSticks: bool,
    delete: Fault,
    objectId: string,
    appId: string,
    secret: string,
    principalId: string
  )

  /** The names handed out are new. */
  ghost predicate FreshNames(d: Directory, script: Script)
  {
    && script.objectId !in d.applications && script.objectId !in d.secrets
    && script.principalId !in d.principals && script.principalId !in d.assignments
    && forall p :: p in d.principals ==> d.principals[p] != script.objectId
  }

  datatype Outcome =
    | Created(appId: string, secret: string)
    | CreateFailed
    | RolledBack(objectId: string)
    | RollbackFailed(objectId: string, appId: string)

  class Cloud {
    var directory: Directory

    constructor (directory: Directory)
      ensures this.directory == directory
    {
      this.directory := directory;
    }

    /** Deleting an application takes its secrets and its principals with it; a role assignment
        made to such a principal is not part of the directory and stays. */
    method DeleteApplication(objectId: string, fault: Fault) returns (ok: bool)
      modifies this
      ensures ok == fault.Works?
      ensures directory == if fault.FailsClean? then old(directory) else Deleted(old(directory), objectId)
    {
      if !fault.FailsClean? {
        directory := Deleted(directory, objectId);
      }
      ok := fault.Works?;
    }
  }

  function Deleted(d: Directory, objectId: string): Directory
  {
    Directory(
      d.applications - {objectId},
      d.secrets - {objectId},
      map p | p in d.principals && d.principals[p] != objectId :: d.principals[p],
      d.assignments)
  }

  /** Undo after a failed step, and say which names are left to delete by hand if that fails. */
  method Rollback(cloud: Cloud, script: Script) returns (outcome: Outcome)
    modifies cloud
    ensures cloud.directory
         == if script.delete.FailsClean? then old(cloud.directory) else Deleted(old(cloud.directory), script.objectId)
    ensures outcome == if script.delete.Works? then RolledBack(script.objectId)
                       else RollbackFailed(script.objectId, script.appId)
  {
    var ok := cloud.DeleteApplication(script.objectId, script.delete);
    if !ok {
      return RollbackFailed(script.objectId, script.appId);
    }
    return RolledBack(script.objectId);
  }

  /** The directory with everything the run sets out to create. */
  function Provisioned(d: Directory, script: Script): Directory
  {
    Directory(d.applications + {script.objectId}, d.secrets + {script.objectId},
              d.principals[script.principalId := script.objectId], d.assignments + {script.principalId})
  }

  /** The steps before the role assignment all work. */
  predicate ReachesAssignment(script: Script)
  {
    script.create.Works? && script.addPassword.Works? && script.createPrincipal.Works? && script.resolves
  }

  /** Attempt `n` is answered with the assignment, after only missing principals, in time and not
      cancelled. */
  ghost predicate AssignedAt(w: Backoff.World, n: nat)
  {
    && w.answer(n) == Backoff.Assigned
    && forall k :: 0 <= k < n ==> KeepsWaiting(w, k)
  }

  predicate KeepsWaiting(w: Backoff.World, k: nat)
  {
    && w.answer(k) == Backoff.PrincipalNotFound && !w.cancelled(k)
    && Backoff.ClockAt(k, Backoff.RETRY_INITIAL, Backoff.RETRY_MAX, w) <= Backoff.RETRY_BUDGET
  }

  /** Whether the loop of the role assignment ends with attempt `k`. */
  predicate EndsAt(w: Backoff.World, k: nat)
  {
    Backoff.Ends(k, Backoff.RETRY_INITIAL, Backoff.RETRY_MAX, Backoff.RETRY_BUDGET, w)
  }

  lemma EndsUnlessWaiting(w: Backoff.World, k: nat)
    ensures EndsAt(w, k) <==> !KeepsWaiting(w, k)
  {
  }

  /** The loop ends at one attempt, so an assignment is made there or nowhere. */
  lemma LastAttemptDecides(w: Backoff.World, last: nat)
    requires EndsAt(w, last) && forall k :: 0 <= k < last ==> !EndsAt(w, k)
    ensures (exists n: nat :: AssignedAt(w, n)) <==> w.answer(last) == Backoff.Assigned
  {
    forall k: nat ensures EndsAt(w, k) <==> !KeepsWaiting(w, k) {
      EndsUnlessWaiting(w, k);
    }
    hide KeepsWaiting, EndsAt;
    if w.answer(last) == Backoff.Assigned {
      assert AssignedAt(w, last);
    }
    if exists n: nat :: AssignedAt(w, n) {
      var n: nat :| AssignedAt(w, n);
      EndsWithAssignment(w, n);
      assert n >= last && n <= last;
    }
  }

  lemma EndsWithAssignment(w: Backoff.World, n: nat)
    requires w.answer(n) == Backoff.Assigned
    ensures !KeepsWaiting(w, n)
  {
  }

  /** When a failed run leaves no trace: the creation itself failed without effect, or the
      rollback took effect and no role assignment was made behind a reported failure. */
  predicate LeavesNoTrace(script: Script)
  {
    || script.create.FailsClean?
    || (script.create.Works? && !script.delete.FailsClean? && !(ReachesAssignment(script) && script.assignmentSticks))
  }

  method CreateAzureServicePrincipal(cloud: Cloud, script: Script) returns (outcome: Outcome)
    requires FreshNames(cloud.directory, script)
    modifies cloud
    ensures outcome.Created? ==>
              outcome == Created(script.appId, script.secret)
              && cloud.directory == Provisioned(old(cloud.directory), script)
    // Success means that every step worked and that the cloud made the assignment.
    ensures outcome.Created? <==>
              && script.create == Works && script.addPassword == Works && script.createPrincipal == Works
              && script.resolves && exists n: nat :: AssignedAt(script.assignment, n)
    ensures !outcome.Created? ==> (cloud.directory == old(cloud.directory) <==> LeavesNoTrace(script))
    ensures outcome.CreateFailed? <==> !script.create.Works?
    ensures outcome.RolledBack? || outcome.RollbackFailed? ==> (outcome.RollbackFailed? <==> !script.delete.Works?)
    ensures outcome.RollbackFailed? ==> outcome == RollbackFailed(script.objectId, script.appId)
    ensures outcome.RolledBack? ==> outcome == RolledBack(script.objectId)
  {
    ghost var before := cloud.directory;
    if !script.create.FailsClean? {
      cloud.directory := cloud.directory.(applications := cloud.directory.applications + {script.objectId});
    }
    if !script.create.Works? {
      assert script.objectId in cloud.directory.applications <==> script.create.FailsDirty?;
      return CreateFailed;
    }

    if !script.addPassword.FailsClean? {
      cloud.directory := cloud.directory.(secrets := cloud.directory.secrets + {script.objectId});
    }
    if !script.addPassword.Works? {
      outcome := Rollback(cloud, script);
      UndoneIff(before, cloud.directory, script);
      return;
    }

    if !script.createPrincipal.FailsClean? {
      cloud.directory :=
        cloud.directory.(principals := cloud.directory.principals[script.principalId := script.objectId]);
    }
    if !script.createPrincipal.Works? {
      outcome := Rollback(cloud, script);
      UndoneIff(before, cloud.directory, script);
      return;
    }

    if !script.resolves {
      outcome := Rollback(cloud, script);
      UndoneIff(before, cloud.directory, script);
      return;
    }

    var verdict, calls := Backoff.AssignRole(
      Backoff.RETRY_INITIAL, Backoff.RETRY_MAX, Backoff.RETRY_BUDGET, script.assignment);
    assert forall k :: 0 <= k < calls - 1 ==> !EndsAt(script.assignment, k);
    LastAttemptDecides(script.assignment, calls - 1);
    if script.assignment.answer(calls - 1).Assigned? || script.assignmentSticks {
      cloud.directory := cloud.directory.(assignments := cloud.directory.assignments + {script.principalId});
    }
    if !verdict.Succeeded? {
      outcome := Rollback(cloud, script);
      UndoneIff(before, cloud.directory, script);
      return;
    }
    return Created(script.appId, script.secret);
  }

  /** What stands when the rollback starts: the directory of before, plus some of the pieces
      of this run, the application among them. */
  ghost predicate Partial(before: Directory, now: Directory, script: Script)
  {
    && now.applications == before.applications + {script.objectId}
    && before.secrets <= now.secrets <= before.secrets + {script.objectId}
    && (|| now.principals == before.principals
        || now.principals == before.principals[script.principalId := script.objectId])
    && before.assignments <= now.assignments <= before.assignments + {script.principalId}
  }

  lemma DeletionRestores(before: Directory, now: Directory, script: Script)
    requires FreshNames(before, script) && Partial(before, now, script)
    ensures now != before
    ensures Deleted(now, script.objectId) == before <==> now.assignments == before.assignments
  {
    assert script.objectId in now.applications;
    var after := Deleted(now, script.objectId);
    assert after.applications == before.applications;
    assert after.secrets == before.secrets;
    assert after.principals == before.principals;
  }

  /** Success means the whole chain exists; a directory that already differs cannot be the one
      from before. */
  lemma UndoneIff(before: Directory, after: Directory, script: Script)
    requires FreshNames(before, script)
    requires exists now :: Partial(before, now, script)
               && (now.assignments != before.assignments <==> ReachesAssignment(script) && script.assignmentSticks)
               && after == if script.delete.FailsClean? then now else Deleted(now, script.objectId)
    ensures script.create.Works? ==> (after == before <==> LeavesNoTrace(script))
  {
    var now :| Partial(before, now, script)
               && (now.assignments != before.assignments <==> ReachesAssignment(script) && script.assignmentSticks)
               && after == if script.delete.FailsClean? then now else Deleted(now, script.objectId);
    DeletionRestores(before, now, script);
  }

  /** Every failure pattern in one statement, for a cloud whose failing calls have no effect:
      the directory is as before unless the compensating delete failed too, and then the error
      names both identifiers. */
  method CreateOnAtomicCloud(cloud: Cloud, script: Script) returns (outcome: Outcome)
    requires FreshNames(cloud.directory, script)
    requires !script.create.FailsDirty? && !script.assignmentSticks && !script.delete.FailsDirty?
    modifies cloud
    ensures if outcome.Created? then cloud.directory == Provisioned(old(cloud.directory), script)
            else if outcome.RollbackFailed? then outcome == RollbackFailed(script.objectId, script.appId)
                                                 && cloud.directory != old(cloud.directory)
            else cloud.directory == old(cloud.directory)
  {
    outcome := CreateAzureServicePrincipal(cloud, script);
  }
}
