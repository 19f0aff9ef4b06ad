/** Job records and their two secondary indexes, by state and by user. */
module JobIndexes {
  import opened Wrappers
  import opened RedisSets

  datatype JobState = PENDING | ONGOING | COMPLETED | FAILED

  // creator is clientUUID, assignee is user_principal_id ("" while unassigned).
  datatype Job = Job(creator: string, assignee: string, state: JobState, assignedAt: int, reward: real)

  datatype Updates = Updates(
    state: Option<JobState>, assignee: Option<string>, assignedAt: Option<int>, reward: Option<real>)

  // `displaced` and `anonymous` are history: (job, user) pairs in which the user lost the
  // job to another assignee, and jobs created with an empty creator.
  datatype Store = Store(
    jobs: map<string, Job>, byState: map<JobState, set<string>>, byUser: map<string, set<string>>,
    seen: set<string>, displaced: set<(string, string)>, anonymous: set<string>)

  const EMPTY := Store(map[], map[], map[], {}, {}, {})

  datatype Op =
    | Create(id: string, job: Job)
    | Update(id: string, updates: Updates)
    | Delete(id: string)
    | Cleanup(cutoff: int, ids: seq<string>)

  // ---------------------------------------------------------------- steps

  function StepCreate(s: Store, id: string, job: Job): Store {
    var byCreator := SAdd(s.byUser, job.creator, id);
    Store(s.jobs[id := job],
          SAdd(s.byState, job.state, id),
          if job.assignee != "" then SAdd(byCreator, job.assignee, id) else byCreator,
          s.seen + {id},
          s.displaced,
          if job.creator == "" then s.anonymous + {id} else s.anonymous)
  }

  function Merge(job: Job, u: Updates): Job {
    Job(job.creator, u.assignee.GetOr(job.assignee), u.state.GetOr(job.state), u.assignedAt.GetOr(job.assignedAt),
        u.reward.GetOr(job.reward))
  }

  // updates.user_principal_id is truthy and differs.
  predicate Reassigns(job: Job, u: Updates) {
    u.assignee.Some? && u.assignee.value != "" && u.assignee.value != job.assignee
  }

  function StepUpdate(s: Store, id: string, u: Updates): Store {
    if id !in s.jobs then s
    else
      var was := s.jobs[id];
      var byState :=
        if u.state.Some? && u.state.value != was.state
        then SAdd(SRem(s.byState, was.state, id), u.state.value, id) else s.byState;
      var released := if was.assignee != "" then SRem(s.byUser, was.assignee, id) else s.byUser;
      s.(jobs := s.jobs[id := Merge(was, u)],
         byState := byState,
         byUser := if Reassigns(was, u) then SAdd(released, u.assignee.value, id) else s.byUser,
         displaced := if Reassigns(was, u) && was.assignee != "" then s.displaced + {(id, was.assignee)} else s.displaced)
  }

  function StepDelete(s: Store, id: string): Store {
    if id !in s.jobs then s
    else
      var job := s.jobs[id];
      var byUser := if job.creator != "" then SRem(s.byUser, job.creator, id) else s.byUser;
      s.(jobs := s.jobs - {id},
         byState := SRem(s.byState, job.state, id),
         byUser := if job.assignee != "" then SRem(byUser, job.assignee, id) else byUser)
  }

  function DeleteEach(s: Store, ids: seq<string>): Store
    decreases |ids|
  {
    if ids == [] then s else DeleteEach(StepDelete(s, ids[0]), ids[1..])
  }

  predicate Expired(job: Job, cutoff: int) {
    job.assignedAt != 0 && job.assignedAt < cutoff
  }

  function Apply(s: Store, op: Op): Store {
    match op
    case Create(id, job) => StepCreate(s, id, job)
    case Update(id, u) => StepUpdate(s, id, u)
    case Delete(id) => StepDelete(s, id)
    case Cleanup(cutoff, ids) => DeleteEach(s, ids)
  }

  // ---------------------------------------------------------------- the invariant

  ghost predicate StateIndexOk(s: Store) {
    forall id, st :: id in Members(s.byState, st) <==> id in s.jobs && s.jobs[id].state == st
  }

  // Who is indexed for a job: its assignee, and its creator unless displaced from it.
  ghost predicate Belongs(s: Store, id: string, user: string) {
    id in s.jobs &&
      ((user != "" && s.jobs[id].assignee == user) || (s.jobs[id].creator == user && (id, user) !in s.displaced))
  }

  ghost predicate UserIndexOk(s: Store) {
    && (forall id, u :: u != "" ==> (id in Members(s.byUser, u) <==> Belongs(s, id, u)))
    && Members(s.byUser, "") == s.anonymous
  }

  ghost predicate HistoryOk(s: Store) {
    && (forall id :: id in s.jobs ==> id in s.seen && (s.jobs[id].creator == "" <==> id in s.anonymous))
    && s.anonymous <= s.seen
    && (forall id, u :: (id, u) in s.displaced ==> id in s.seen && u != "")
  }

  ghost predicate Inv(s: Store) {
    StateIndexOk(s) && UserIndexOk(s) && HistoryOk(s)
  }

  // Blanking the assignee of a job leaves its old index entry behind, except where that
  // entry is also the creator's.
  ghost predicate LeavesStaleEntry(s: Store, id: string, u: Updates) {
    && id in s.jobs && u.assignee == Some("") && s.jobs[id].assignee != ""
    && !(s.jobs[id].creator == s.jobs[id].assignee && (id, s.jobs[id].assignee) !in s.displaced)
  }

  // Ids are fresh, a clean-up has found what the scan finds, and no update leaves a stale
  // entry.
  ghost predicate Admissible(s: Store, op: Op) {
    match op
    case Create(id, job) => id !in s.seen
    case Update(id, u) => !LeavesStaleEntry(s, id, u)
    case Delete(id) => true
    case Cleanup(cutoff, ids) => forall id :: id in ids <==> id in s.jobs && Expired(s.jobs[id], cutoff)
  }

  // ---------------------------------------------------------------- preservation

  lemma CreateKeepsStateIndex(s: Store, id: string, job: Job)
    requires StateIndexOk(s) && id !in s.jobs
    ensures StateIndexOk(StepCreate(s, id, job))
  {
    var s' := StepCreate(s, id, job);
    forall i, st ensures i in Members(s'.byState, st) <==> i in s'.jobs && s'.jobs[i].state == st {
      assert i in Members(s.byState, st) <==> i in s.jobs && s.jobs[i].state == st;
    }
  }

  lemma CreateKeepsUserIndex(s: Store, id: string, job: Job)
    requires UserIndexOk(s) && HistoryOk(s) && id !in s.seen
    ensures UserIndexOk(StepCreate(s, id, job))
  {
    var s' := StepCreate(s, id, job);
    forall i, u | u != "" ensures i in Members(s'.byUser, u) <==> Belongs(s', i, u) {
      assert i in Members(s.byUser, u) <==> Belongs(s, i, u);
    }
  }

  lemma CreateKeepsInv(s: Store, id: string, job: Job)
    requires Inv(s) && id !in s.seen
    ensures Inv(StepCreate(s, id, job))
  {
    CreateKeepsStateIndex(s, id, job);
    CreateKeepsUserIndex(s, id, job);
  }

  lemma StaleEntryBreaksIndex(s: Store, id: string, u: Updates)
    requires Inv(s) && LeavesStaleEntry(s, id, u)
    ensures !UserIndexOk(StepUpdate(s, id, u))
  {
    var was := s.jobs[id];
    assert Belongs(s, id, was.assignee);
    assert id in Members(s.byUser, was.assignee);
    assert !Belongs(StepUpdate(s, id, u), id, was.assignee);
  }

  lemma UpdateKeepsStateIndex(s: Store, id: string, u: Updates)
    requires StateIndexOk(s)
    ensures StateIndexOk(StepUpdate(s, id, u))
  {
    var s' := StepUpdate(s, id, u);
    forall i, st ensures i in Members(s'.byState, st) <==> i in s'.jobs && s'.jobs[i].state == st {
      assert i in Members(s.byState, st) <==> i in s.jobs && s.jobs[i].state == st;
    }
  }

  lemma UpdateKeepsUserIndex(s: Store, id: string, u: Updates)
    requires Inv(s) && !LeavesStaleEntry(s, id, u)
    ensures UserIndexOk(StepUpdate(s, id, u))
  {
    var s' := StepUpdate(s, id, u);
    if id in s.jobs {
      forall i, v | v != "" ensures i in Members(s'.byUser, v) <==> Belongs(s', i, v) {
        assert i in Members(s.byUser, v) <==> Belongs(s, i, v);
      }
    }
  }

  // An update keeps the indexes exact if and only if it leaves no stale entry.
  lemma UpdateKeepsInvExactly(s: Store, id: string, u: Updates)
    requires Inv(s)
    ensures Inv(StepUpdate(s, id, u)) <==> !LeavesStaleEntry(s, id, u)
  {
    if LeavesStaleEntry(s, id, u) {
      StaleEntryBreaksIndex(s, id, u);
    } else {
      UpdateKeepsStateIndex(s, id, u);
      UpdateKeepsUserIndex(s, id, u);
    }
  }

  lemma DeleteKeepsInv(s: Store, id: string)
    requires Inv(s)
    ensures Inv(StepDelete(s, id))
  {
    var s' := StepDelete(s, id);
    if id in s.jobs {
      forall i, u | u != "" ensures i in Members(s'.byUser, u) <==> Belongs(s', i, u) {
        assert i in Members(s.byUser, u) <==> Belongs(s, i, u);
      }
      forall i, st ensures i in Members(s'.byState, st) <==> i in s'.jobs && s'.jobs[i].state == st {
        assert i in Members(s.byState, st) <==> i in s.jobs && s.jobs[i].state == st;
      }
    }
  }

  lemma {:induction false} DeleteEachLaw(s: Store, ids: seq<string>)
    requires Inv(s)
    ensures Inv(DeleteEach(s, ids))
    ensures DeleteEach(s, ids).jobs == s.jobs - (set id | id in ids)
    decreases |ids|
  {
    if ids != [] {
      DeleteKeepsInv(s, ids[0]);
      DeleteEachLaw(StepDelete(s, ids[0]), ids[1..]);
      assert (set id | id in ids) == {ids[0]} + (set id | id in ids[1..]);
    }
  }

  // A clean-up deletes exactly the jobs with a nonzero assignedAt below the cutoff.
  lemma CleanupIsExact(s: Store, cutoff: int, ids: seq<string>)
    requires Inv(s) && Admissible(s, Cleanup(cutoff, ids))
    ensures DeleteEach(s, ids).jobs ==
            map id | id in s.jobs && !(s.jobs[id].assignedAt != 0 && s.jobs[id].assignedAt < cutoff) :: s.jobs[id]
  {
    DeleteEachLaw(s, ids);
  }

  lemma ApplyKeepsInv(s: Store, op: Op)
    requires Inv(s) && Admissible(s, op)
    ensures Inv(Apply(s, op))
  {
    match op
    case Create(id, job) => CreateKeepsInv(s, id, job);
    case Update(id, u) => UpdateKeepsInvExactly(s, id, u);
    case Delete(id) => DeleteKeepsInv(s, id);
    case Cleanup(cutoff, ids) => DeleteEachLaw(s, ids);
  }

  function Run(s: Store, ops: seq<Op>): Store
    decreases |ops|
  {
    if ops == [] then s else Run(Apply(s, ops[0]), ops[1..])
  }

  // A run is its operations one after the other.
  lemma {:induction false} RunSnoc(s: Store, ops: seq<Op>, op: Op)
    ensures Run(s, []) == s
    ensures Run(s, ops + [op]) == Apply(Run(s, ops), op)
    decreases |ops|
  {
    if ops == [] {
      assert [op][1..] == [];
    } else {
      assert (ops + [op])[0] == ops[0] && (ops + [op])[1..] == ops[1..] + [op];
      RunSnoc(Apply(s, ops[0]), ops[1..], op);
    }
  }

  ghost predicate AllAdmissible(s: Store, ops: seq<Op>)
    decreases |ops|
  {
    ops != [] ==> Admissible(s, ops[0]) && AllAdmissible(Apply(s, ops[0]), ops[1..])
  }

  lemma {:induction false} RunKeepsInv(s: Store, ops: seq<Op>)
    requires Inv(s) && AllAdmissible(s, ops)
    ensures Inv(Run(s, ops))
    decreases |ops|
  {
    if ops != [] {
      ApplyKeepsInv(s, ops[0]);
      RunKeepsInv(Apply(s, ops[0]), ops[1..]);
    }
  }

  // The indexes after any run.
  lemma EveryRun(ops: seq<Op>)
    requires AllAdmissible(EMPTY, ops)
    ensures var s := Run(EMPTY, ops);
            // the state index is a full scan by state
            && (forall id, st :: id in Members(s.byState, st) <==> id in s.jobs && s.jobs[id].state == st)
            // an entry names the creator or the assignee of a job that exists
            && (forall id, u :: u != "" && id in Members(s.byUser, u) ==>
                  id in s.jobs && (s.jobs[id].creator == u || s.jobs[id].assignee == u))
            // assignees are indexed, and creators unless displaced as assignee
            && (forall id :: id in s.jobs && s.jobs[id].assignee != "" ==> id in Members(s.byUser, s.jobs[id].assignee))
            && (forall id :: id in s.jobs && (id, s.jobs[id].creator) !in s.displaced ==>
                  id in Members(s.byUser, s.jobs[id].creator))
            // a deleted job is still named exactly if it was created without a creator
            && (forall id :: id !in s.jobs ==>
                  ((exists u :: id in Members(s.byUser, u)) <==> id in s.anonymous))
  {
    RunKeepsInv(EMPTY, ops);
    var s := Run(EMPTY, ops);
    forall id, u | u != "" ensures id in Members(s.byUser, u) <==> Belongs(s, id, u) {
    }
    forall id | id in s.anonymous ensures id in Members(s.byUser, "") {
    }
  }

  // A job created without a creator is still listed after its deletion.
  lemma AnonymousJobStaysListed(id: string, job: Job)
    requires job.creator == ""
    ensures var s := StepDelete(StepCreate(EMPTY, id, job), id);
            id !in s.jobs && id in Members(s.byUser, "")
  {
    var created := StepCreate(EMPTY, id, job);
    assert id in Members(created.byUser, "");
    assert created.jobs[id] == job;
  }

  // A job whose assignee is blanked is still listed for that assignee, even once deleted.
  lemma BlankedAssigneeStaysListed(id: string, creator: string, user: string, now: int)
    requires user != "" && creator != user
    ensures var job := Job(creator, user, ONGOING, now, 0.0);
            var blanked := StepUpdate(StepCreate(EMPTY, id, job), id, Updates(None, Some(""), None, None));
            && LeavesStaleEntry(StepCreate(EMPTY, id, job), id, Updates(None, Some(""), None, None))
            && id in Members(blanked.byUser, user)
            && id !in StepDelete(blanked, id).jobs && id in Members(StepDelete(blanked, id).byUser, user)
  {
    var created := StepCreate(EMPTY, id, Job(creator, user, ONGOING, now, 0.0));
    assert id in Members(created.byUser, user);
  }

  // ---------------------------------------------------------------- the database object

  class JobDatabase {
    var jobs: map<string, Job>
    var jobsByState: map<JobState, set<string>>
    var jobsByUser: map<string, set<string>>
    ghost var seen: set<string>
    ghost var displaced: set<(string, string)>
    ghost var anonymous: set<string>

    ghost function View(): Store
      reads this
    {
      Store(jobs, jobsByState, jobsByUser, seen, displaced, anonymous)
    }

    constructor ()
      ensures View() == EMPTY
    {
      jobs, jobsByState, jobsByUser := map[], map[], map[];
      seen, displaced, anonymous := {}, {}, {};
    }

    method CreateJob(id: string, creator: string, assignee: string, state: JobState, now: int, reward: real)
      modifies this
      ensures View() == Apply(old(View()), Create(id, Job(creator, assignee, state, now, reward)))
      ensures jobs == old(jobs)[id := Job(creator, assignee, state, now, reward)]
      ensures id in Members(jobsByState, state) && id in Members(jobsByUser, creator)
    {
      jobs := jobs[id := Job(creator, assignee, state, now, reward)];
      jobsByState := SAdd(jobsByState, state, id);
      jobsByUser := SAdd(jobsByUser, creator, id);
      if assignee != "" {
        jobsByUser := SAdd(jobsByUser, assignee, id);
      }
      seen := seen + {id};
      if creator == "" {
        anonymous := anonymous + {id};
      }
    }

    method UpdateJob(id: string, u: Updates) returns (found: bool)
      modifies this
      ensures found <==> id in old(jobs)
      ensures View() == Apply(old(View()), Update(id, u)) == StepUpdate(old(View()), id, u)
      ensures !found ==> View() == old(View())
      // what the update names wins, and the rest stays
      ensures found ==>
                && id in jobs && jobs == old(jobs)[id := jobs[id]]
                && var was, job := old(jobs)[id], jobs[id];
                && job.creator == was.creator
                && job.assignee == (if u.assignee.Some? then u.assignee.value else was.assignee)
                && job.state == (if u.state.Some? then u.state.value else was.state)
                && job.assignedAt == (if u.assignedAt.Some? then u.assignedAt.value else was.assignedAt)
                && job.reward == (if u.reward.Some? then u.reward.value else was.reward)
    {
      if id !in jobs {
        return false;
      }
      var was := jobs[id];
      jobs := jobs[id := Merge(was, u)];
      if u.state.Some? && u.state.value != was.state {
        jobsByState := SRem(jobsByState, was.state, id);
        jobsByState := SAdd(jobsByState, u.state.value, id);
      }
      if u.assignee.Some? && u.assignee.value != "" && u.assignee.value != was.assignee {
        if was.assignee != "" {
          jobsByUser := SRem(jobsByUser, was.assignee, id);
          displaced := displaced + {(id, was.assignee)};
        }
        jobsByUser := SAdd(jobsByUser, u.assignee.value, id);
      }
      return true;
    }

    method DeleteJob(id: string)
      modifies this
      ensures View() == Apply(old(View()), Delete(id)) == StepDelete(old(View()), id)
      ensures jobs == old(jobs) - {id}
    {
      if id in jobs {
        var job := jobs[id];
        jobs := jobs - {id};
        jobsByState := SRem(jobsByState, job.state, id);
        if job.creator != "" {
          jobsByUser := SRem(jobsByUser, job.creator, id);
        }
        if job.assignee != "" {
          jobsByUser := SRem(jobsByUser, job.assignee, id);
        }
      }
    }

    // getJobsByState: by the index, with ids whose record is gone left out.
    method GetJobsByState(state: JobState) returns (found: set<string>)
      ensures StateIndexOk(View()) ==> found == set id | id in jobs && jobs[id].state == state
    {
      found := set id | id in Members(jobsByState, state) && id in jobs;
    }

    method GetJobsCreatedBefore(timestamp: int) returns (found: seq<string>)
      ensures Admissible(View(), Cleanup(timestamp, found))
      ensures |found| == |set id | id in jobs && Expired(jobs[id], timestamp)|
    {
      found := [];
      ghost var mine: set<string> := {};
      var todo := jobs.Keys;
      while todo != {}
        invariant todo <= jobs.Keys
        invariant forall id :: id in mine <==> id in jobs && id !in todo && Expired(jobs[id], timestamp)
        invariant |found| == |mine| && forall id :: id in found <==> id in mine
        decreases todo
      {
        var id :| id in todo;
        todo := todo - {id};
        if Expired(jobs[id], timestamp) {
          found := found + [id];
          mine := mine + {id};
        }
      }
      assert mine == set id | id in jobs && Expired(jobs[id], timestamp);
    }

    // In batches of ten.
    method CleanupOldJobs(cutoff: int) returns (deletedCount: nat, ghost ids: seq<string>)
      requires Inv(View())
      modifies this
      ensures Inv(View())
      ensures Admissible(old(View()), Cleanup(cutoff, ids)) && View() == Apply(old(View()), Cleanup(cutoff, ids))
      ensures jobs == map id | id in old(jobs) && !Expired(old(jobs)[id], cutoff) :: old(jobs)[id]
      ensures deletedCount == |set id | id in old(jobs) && Expired(old(jobs)[id], cutoff)|
    {
      var jobsToDelete := GetJobsCreatedBefore(cutoff);
      ids := jobsToDelete;
      CleanupIsExact(View(), cutoff, jobsToDelete);
      DeleteEachLaw(View(), jobsToDelete);
      var batchSize := 10;
      deletedCount := 0;
      var i := 0;
      assert jobsToDelete[0..] == jobsToDelete;
      while i < |jobsToDelete|
        invariant 0 <= i <= |jobsToDelete| && deletedCount == i
        invariant DeleteEach(View(), jobsToDelete[i..]) == old(DeleteEach(View(), jobsToDelete))
      {
        var end := if i + batchSize < |jobsToDelete| then i + batchSize else |jobsToDelete|;
        while i < end
          invariant i <= end <= |jobsToDelete| && deletedCount == i
          invariant DeleteEach(View(), jobsToDelete[i..]) == old(DeleteEach(View(), jobsToDelete))
        {
          assert jobsToDelete[i..][1..] == jobsToDelete[i + 1..];
          DeleteJob(jobsToDelete[i]);
          deletedCount := deletedCount + 1;
          i := i + 1;
        }
      }
    }
  }
}
