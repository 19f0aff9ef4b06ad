/** One pass of the job timeout monitor over all clients. */
module TimeoutSweep {
  import opened Wrappers
  import opened JobIndexes
  import opened JobLists
  import A = Assignment

  const TIMEOUT_MS: int := 60 * 60 * 1000

  datatype JobRecord = JobRecord(state: JobState, assignedAt: int, completeAt: int, reward: real)

  // ---------------------------------------------------------------- specification

  predicate TimedOut(job: JobRecord, now: int) {
    job.state == ONGOING && now - job.assignedAt > TIMEOUT_MS
  }

  // A job a client may keep in its list: it exists and is pending, or ongoing in time.
  predicate Kept(jobs: map<string, JobRecord>, now: int, j: string) {
    j in jobs && (jobs[j].state == PENDING || (jobs[j].state == ONGOING && now - jobs[j].assignedAt <= TIMEOUT_MS))
  }

  function Filter(list: seq<string>, jobs: map<string, JobRecord>, now: int): seq<string> {
    if list == [] then []
    else if Kept(jobs, now, list[0]) then [list[0]] + Filter(list[1..], jobs, now)
    else Filter(list[1..], jobs, now)
  }

  ghost predicate ListedBy(clients: A.Clients, us: set<string>, j: string) {
    exists u :: u in us && u in clients && j in clients[u].activeJobs
  }

  function MarkFailed(job: JobRecord, now: int): JobRecord {
    JobRecord(FAILED, job.assignedAt, now, 0.0)
  }

  // The job records after the clients in `us` have been swept.
  ghost function SweptJobs(clients: A.Clients, jobs: map<string, JobRecord>, now: int, us: set<string>)
    : map<string, JobRecord>
  {
    map j | j in jobs ::
      if ListedBy(clients, us, j) && TimedOut(jobs[j], now) then MarkFailed(jobs[j], now) else jobs[j]
  }

  function SweptClient(c: A.Client, jobs: map<string, JobRecord>, now: int): A.Client {
    c.(activeJobs := Filter(c.activeJobs, jobs, now))
  }

  ghost function SweptClients(clients: A.Clients, jobs: map<string, JobRecord>, now: int): A.Clients {
    map u | u in clients :: SweptClient(clients[u], jobs, now)
  }

  // The filtered list keeps order and multiplicity, and loses nothing it may keep.
  lemma {:induction false} FilterSplits(a: seq<string>, b: seq<string>, jobs: map<string, JobRecord>, now: int)
    ensures Filter(a + b, jobs, now) == Filter(a, jobs, now) + Filter(b, jobs, now)
    ensures forall j :: j in Filter(a, jobs, now) <==> j in a && Kept(jobs, now, j)
  {
    if a == [] {
      assert a + b == b;
    } else {
      assert (a + b)[1..] == a[1..] + b;
      FilterSplits(a[1..], b, jobs, now);
    }
  }

  lemma FilterOne(j: string, jobs: map<string, JobRecord>, now: int)
    ensures Filter([j], jobs, now) == if Kept(jobs, now, j) then [j] else []
  {
    assert [j][1..] == [];
  }

  ghost predicate Listed(clients: A.Clients, j: string) {
    exists u :: u in clients && j in clients[u].activeJobs
  }

  // An ongoing job that was assigned more than an hour ago and that some client lists fails,
  // and no other job changes.
  ghost predicate ExpiredJobsFail(clients: A.Clients, jobs: map<string, JobRecord>, jobs': map<string, JobRecord>, now: int) {
    && jobs'.Keys == jobs.Keys
    && forall j :: j in jobs ==>
         jobs'[j] == if Listed(clients, j) && jobs[j].state == ONGOING && now - jobs[j].assignedAt > 3600000
                     then JobRecord(FAILED, jobs[j].assignedAt, now, 0.0) else jobs[j]
  }

  // Lists keep exactly what is pending, or ongoing for no more than an hour.
  ghost predicate ListsKeepLiveJobs(clients: A.Clients, jobs: map<string, JobRecord>, clients': A.Clients, now: int) {
    && clients'.Keys == clients.Keys
    && forall u, j :: u in clients ==>
         (j in clients'[u].activeJobs <==>
            && j in clients[u].activeJobs && j in jobs
            && (jobs[j].state == PENDING || (jobs[j].state == ONGOING && now - jobs[j].assignedAt <= 3600000)))
  }

  lemma SweptJobsFail(clients: A.Clients, jobs: map<string, JobRecord>, now: int)
    ensures ExpiredJobsFail(clients, jobs, SweptJobs(clients, jobs, now, clients.Keys), now)
  {
    var jobs' := SweptJobs(clients, jobs, now, clients.Keys);
    assert jobs'.Keys == jobs.Keys;
    forall j | j in jobs ensures ListedBy(clients, clients.Keys, j) <==> Listed(clients, j) {
    }
  }

  lemma SweptListsLive(clients: A.Clients, jobs: map<string, JobRecord>, now: int)
    ensures ListsKeepLiveJobs(clients, jobs, SweptClients(clients, jobs, now), now)
  {
    var clients' := SweptClients(clients, jobs, now);
    assert clients'.Keys == clients.Keys;
    forall u, j | u in clients
      ensures j in clients'[u].activeJobs <==>
              && j in clients[u].activeJobs && j in jobs
              && (jobs[j].state == PENDING || (jobs[j].state == ONGOING && now - jobs[j].assignedAt <= 3600000))
    {
      FilterSplits(clients[u].activeJobs, [], jobs, now);
      assert clients'[u].activeJobs == Filter(clients[u].activeJobs, jobs, now);
    }
  }

  // A second sweep at the same time finds nothing to do.
  lemma SweepIsIdempotent(clients: A.Clients, jobs: map<string, JobRecord>, now: int)
    ensures var clients' := SweptClients(clients, jobs, now);
            var jobs' := SweptJobs(clients, jobs, now, clients.Keys);
            && SweptClients(clients', jobs', now) == clients'
            && SweptJobs(clients', jobs', now, clients.Keys) == jobs'
  {
    var clients' := SweptClients(clients, jobs, now);
    var jobs' := SweptJobs(clients, jobs, now, clients.Keys);
    assert forall j :: Kept(jobs', now, j) <==> Kept(jobs, now, j);
    forall u | u in clients ensures SweptClient(clients'[u], jobs', now) == clients'[u] {
      FilterTwice(clients[u].activeJobs, jobs, jobs', now);
    }
    forall j | j in jobs' && TimedOut(jobs'[j], now) ensures !ListedBy(clients', clients.Keys, j) {
      if ListedBy(clients', clients.Keys, j) {
        var u :| u in clients && j in clients'[u].activeJobs;
        FilterSplits(clients[u].activeJobs, [], jobs, now);
      }
    }
  }

  lemma {:induction false} FilterTwice(list: seq<string>, jobs: map<string, JobRecord>, jobs': map<string, JobRecord>, now: int)
    requires forall j :: Kept(jobs', now, j) <==> Kept(jobs, now, j)
    ensures Filter(Filter(list, jobs, now), jobs', now) == Filter(list, jobs, now)
  {
    if list != [] {
      FilterTwice(list[1..], jobs, jobs', now);
      if Kept(jobs, now, list[0]) {
        assert Filter(list, jobs, now)[1..] == Filter(list[1..], jobs, now);
      }
    }
  }

  lemma {:induction false} WithoutIsFilter(list: seq<string>, gone: set<string>, jobs: map<string, JobRecord>, now: int)
    requires forall j :: j in list ==> (j in gone <==> !Kept(jobs, now, j))
    ensures Without(list, gone) == Filter(list, jobs, now)
  {
    if list != [] {
      WithoutIsFilter(list[1..], gone, jobs, now);
    }
  }

  // ---------------------------------------------------------------- what one pass really does

  // markJobAsFailed looks the client up by its id; it finds u when u is the first with it.
  predicate Found(clients: A.Clients, all: seq<string>, u: string)
    requires u in clients
  {
    A.FindById(clients, all, clients[u].clientId) == Some(u)
  }

  // An expired job that only this pass, and no client swept before, has failed.
  ghost predicate FailedJustNow(clients: A.Clients, jobs: map<string, JobRecord>, now: int, done: set<string>, j: string) {
    j in jobs && TimedOut(jobs[j], now) && !ListedBy(clients, done, j)
  }

  // What u's list loses when the clients in `done` were swept before: everything that it
  // may not keep, except that a client which is not found by its id keeps what has only
  // just failed.
  ghost function Gone(clients: A.Clients, jobs: map<string, JobRecord>, now: int, done: set<string>, all: seq<string>, u: string)
    : set<string>
    requires u in clients
  {
    set j | j in clients[u].activeJobs && !Kept(jobs, now, j)
            && (Found(clients, all, u) || !FailedJustNow(clients, jobs, now, done, j))
  }

  ghost function After(clients: A.Clients, jobs: map<string, JobRecord>, now: int, done: set<string>, all: seq<string>, u: string)
    : A.Client
    requires u in clients
  {
    clients[u].(activeJobs := Without(clients[u].activeJobs, Gone(clients, jobs, now, done, all, u)))
  }

  // A client's list meets the specification exactly when the client is found by its id or
  // lists no job that has only just failed.
  lemma AfterIsSweptExactly(clients: A.Clients, jobs: map<string, JobRecord>, now: int, done: set<string>,
                            all: seq<string>, u: string)
    requires u in clients
    ensures After(clients, jobs, now, done, all, u) == SweptClient(clients[u], jobs, now) <==>
            Found(clients, all, u) || forall j :: j in clients[u].activeJobs ==> !FailedJustNow(clients, jobs, now, done, j)
  {
    var list, gone := clients[u].activeJobs, Gone(clients, jobs, now, done, all, u);
    FilterSplits(list, [], jobs, now);
    if forall j :: j in list ==> (j in gone <==> !Kept(jobs, now, j)) {
      WithoutIsFilter(list, gone, jobs, now);
    } else {
      var j :| j in list && j !in gone && !Kept(jobs, now, j);
      assert j in Without(list, gone) && j !in Filter(list, jobs, now);
    }
  }

  // With unique ids every client is found.
  lemma UniqueIsFound(clients: A.Clients, all: seq<string>, u: string)
    requires A.UniqueIds(clients) && A.Enumerates(clients, all) && u in clients
    ensures Found(clients, all, u)
  {
    A.FoundById(clients, all, u);
  }

  // Ids and keys decide the look-up.
  ghost predicate SameIds(clients: A.Clients, clients': A.Clients) {
    clients.Keys == clients'.Keys && forall u :: u in clients ==> clients[u].clientId == clients'[u].clientId
  }

  lemma {:induction false} FindByIdStable(clients: A.Clients, clients': A.Clients, all: seq<string>, clientId: string)
    requires SameIds(clients, clients')
    ensures A.FindById(clients, all, clientId) == A.FindById(clients', all, clientId)
  {
    if all != [] {
      FindByIdStable(clients, clients', all[1..], clientId);
    }
  }

  // A list that has lost some of the ids in `failed`, and nothing else.
  ghost predicate Thinned(list: seq<string>, live: seq<string>, failed: set<string>) {
    exists gone: set<string> :: gone <= failed && live == Without(list, gone)
  }

  lemma ThinnedMore(list: seq<string>, live: seq<string>, failed: set<string>, more: set<string>, failed': set<string>)
    requires Thinned(list, live, failed) && failed <= failed' && more <= failed'
    ensures Thinned(list, Without(live, more), failed') && Thinned(list, live, failed')
  {
    var gone :| gone <= failed && live == Without(list, gone);
    WithoutTwice(list, gone, more);
    assert gone + more <= failed';
  }

  ghost function Failures(clients: A.Clients, jobs: map<string, JobRecord>, now: int, done: set<string>): set<string> {
    set j | j in jobs && TimedOut(jobs[j], now) && ListedBy(clients, done, j)
  }

  // The clients in the middle of a pass: swept ones are as they will stay, and the others
  // may have lost jobs that have failed since.
  ghost predicate Midway(clients: A.Clients, jobs: map<string, JobRecord>, now: int, all: seq<string>, i: nat, live: A.Clients)
    requires i <= |all| && forall u :: u in all ==> u in clients
  {
    && live.Keys == clients.Keys
    && (forall u :: u in clients ==> live[u] == clients[u].(activeJobs := live[u].activeJobs))
    && (forall k :: 0 <= k < i ==> all[k] in live && live[all[k]] == After(clients, jobs, now, Elements(all[..k]), all, all[k]))
    && (forall k :: i <= k < |all| ==>
          all[k] in live && Thinned(clients[all[k]].activeJobs, live[all[k]].activeJobs,
                                    Failures(clients, jobs, now, Elements(all[..i]))))
  }

  // ---------------------------------------------------------------- the monitor

  ghost predicate Classified(list: seq<string>, jobs: map<string, JobRecord>, now: int,
                             toFail: seq<string>, toCleanup: seq<string>)
  {
    && (forall j :: j in toFail <==> j in list && j in jobs && TimedOut(jobs[j], now))
    && (forall j :: j in toCleanup <==>
          j in list && (j !in jobs || jobs[j].state == COMPLETED || jobs[j].state == FAILED))
  }

  class JobTimeoutMonitor {
    var clients: A.Clients
    var jobs: map<string, JobRecord>

    constructor (clients: A.Clients, jobs: map<string, JobRecord>)
      ensures this.clients == clients && this.jobs == jobs
    {
      this.clients, this.jobs := clients, jobs;
    }

    // markJobAsFailed: the client is looked up again by its client id.
    method MarkJobAsFailed(jobId: string, clientId: string, all: seq<string>, now: int) returns (ok: bool)
      modifies this
      ensures ok <==> A.FindById(old(clients), all, clientId).Some?
      ensures jobs == if ok && jobId in old(jobs) then old(jobs)[jobId := MarkFailed(old(jobs)[jobId], now)] else old(jobs)
      ensures clients == TakeOff(old(clients), all, clientId, {jobId})
      ensures ok && jobId in old(jobs) ==>
                jobs == old(jobs)[jobId := JobRecord(FAILED, old(jobs)[jobId].assignedAt, now, 0.0)]
      ensures !(ok && jobId in old(jobs)) ==> jobs == old(jobs)
    {
      var i := 0;
      assert all[0..] == all;
      while i < |all| && !(all[i] in clients && clients[all[i]].clientId == clientId)
        invariant 0 <= i <= |all|
        invariant A.FindById(clients, all[i..], clientId) == A.FindById(clients, all, clientId)
      {
        assert all[i..][1..] == all[i + 1..];
        i := i + 1;
      }
      if i == |all| {
        return false;
      }
      if jobId in jobs {
        jobs := jobs[jobId := MarkFailed(jobs[jobId], now)];
      }
      var client := clients[all[i]];
      clients := clients[all[i] := client.(activeJobs := Without(client.activeJobs, {jobId}))];
      return true;
    }

    // Sorts a client's jobs into those to fail, those to take off the list, and the rest.
    method Classify(list: seq<string>, now: int) returns (toFail: seq<string>, toCleanup: seq<string>)
      ensures Classified(list, jobs, now, toFail, toCleanup)
    {
      toFail, toCleanup := [], [];
      for i := 0 to |list|
        invariant forall j :: j in toFail <==> j in list[..i] && j in jobs && TimedOut(jobs[j], now)
        invariant forall j :: j in toCleanup <==>
                    j in list[..i] && (j !in jobs || jobs[j].state == COMPLETED || jobs[j].state == FAILED)
      {
        var jobId := list[i];
        if jobId !in jobs || jobs[jobId].state == COMPLETED || jobs[jobId].state == FAILED {
          toCleanup := toCleanup + [jobId];
        } else if jobs[jobId].state == ONGOING && now - jobs[jobId].assignedAt > TIMEOUT_MS {
          toFail := toFail + [jobId];
        }
      }
      assert list[..|list|] == list;
    }

    // Does nothing at all when no client has the id.
    method FailEach(toFail: seq<string>, clientId: string, all: seq<string>, now: int)
      modifies this
      ensures jobs == if A.FindById(old(clients), all, clientId) == None then old(jobs)
                      else FailAll(old(jobs), Elements(toFail), now)
      ensures clients == TakeOff(old(clients), all, clientId, Elements(toFail))
      ensures jobs.Keys == old(jobs).Keys
      ensures forall j :: j in old(jobs) ==>
                jobs[j] == if j in toFail && A.FindById(old(clients), all, clientId).Some?
                           then JobRecord(FAILED, old(jobs)[j].assignedAt, now, 0.0) else old(jobs)[j]
    {
      assert Elements(toFail[..0]) == {};
      TakeOffNothing(clients, all, clientId);
      for k := 0 to |toFail|
        invariant jobs == if A.FindById(old(clients), all, clientId) == None then old(jobs)
                          else FailAll(old(jobs), Elements(toFail[..k]), now)
        invariant clients == TakeOff(old(clients), all, clientId, Elements(toFail[..k]))
      {
        TakeOffTwice(old(clients), all, clientId, Elements(toFail[..k]), {toFail[k]});
        assert Elements(toFail[..k + 1]) == Elements(toFail[..k]) + {toFail[k]};
        var _ := MarkJobAsFailed(toFail[k], clientId, all, now);
      }
      assert toFail[..|toFail|] == toFail;
    }

    // One client of the snapshot: first its dead entries go, then its expired jobs fail.
    method SweepClient(u: string, client: A.Client, all: seq<string>, now: int)
      returns (ghost toFail: seq<string>, ghost toCleanup: seq<string>)
      requires u in clients
      modifies this
      ensures Classified(client.activeJobs, old(jobs), now, toFail, toCleanup)
      ensures clients == Swept(old(clients), all, u, client, toFail, toCleanup)
      ensures jobs == if A.FindById(old(clients), all, client.clientId) == None then old(jobs)
                      else FailAll(old(jobs), Elements(toFail), now)
    {
      var jobsToMarkAsFailed, jobsToCleanup := Classify(client.activeJobs, now);
      toFail, toCleanup := jobsToMarkAsFailed, jobsToCleanup;
      if jobsToCleanup != [] {
        clients := clients[u := clients[u].(activeJobs := Without(client.activeJobs, Elements(jobsToCleanup)))];
      }
      FindByIdStable(old(clients), clients, all, client.clientId);
      FailEach(jobsToMarkAsFailed, client.clientId, all, now);
    }

    // The clients are read once, before the first is swept; KEYS lists each of them once.
    // No client id needs to be unique: the job records always come out as specified, and a
    // client's list does exactly where AfterIsSweptExactly says.
    method CheckForTimedOutJobs(all: seq<string>, now: int)
      requires A.Enumerates(clients, all)
      requires forall i, k :: 0 <= i < k < |all| ==> all[i] != all[k]
      modifies this
      ensures jobs == SweptJobs(old(clients), old(jobs), now, old(clients).Keys)
      ensures clients.Keys == old(clients).Keys
      ensures forall i :: 0 <= i < |all| ==>
                clients[all[i]] == After(old(clients), old(jobs), now, Elements(all[..i]), all, all[i])
      ensures A.UniqueIds(old(clients)) ==> clients == SweptClients(old(clients), old(jobs), now)
      ensures ExpiredJobsFail(old(clients), old(jobs), jobs, now)
      ensures A.UniqueIds(old(clients)) ==> ListsKeepLiveJobs(old(clients), old(jobs), clients, now)
    {
      var snapshot := clients;
      ghost var jobs0 := jobs;
      assert Elements(all[..0]) == {};
      NothingSwept(snapshot, jobs0, now, all);
      for i := 0 to |all|
        invariant Midway(snapshot, jobs0, now, all, i, clients)
        invariant jobs == SweptJobs(snapshot, jobs0, now, Elements(all[..i]))
      {
        SweepNext(snapshot, all, i, now, jobs0);
      }
      assert Elements(all[..|all|]) == snapshot.Keys;
      SweptJobsFail(snapshot, jobs0, now);
      SweptListsLive(snapshot, jobs0, now);
      if A.UniqueIds(snapshot) {
        EverybodyIsSwept(snapshot, jobs0, now, all, clients);
      }
    }

    // One turn of that loop.
    method SweepNext(snapshot: A.Clients, all: seq<string>, i: nat, now: int, ghost jobs0: map<string, JobRecord>)
      requires i < |all| && A.Enumerates(snapshot, all) && Distinct(all)
      requires Midway(snapshot, jobs0, now, all, i, clients)
      requires jobs == SweptJobs(snapshot, jobs0, now, Elements(all[..i]))
      modifies this
      ensures Midway(snapshot, jobs0, now, all, i + 1, clients)
      ensures jobs == SweptJobs(snapshot, jobs0, now, Elements(all[..i + 1]))
    {
      var u := all[i];
      assert Elements(all[..i + 1]) == Elements(all[..i]) + {u};
      if snapshot[u].activeJobs == [] {
        NothingToSweep(snapshot, jobs0, now, all, i, clients);
      } else {
        ghost var before := clients;
        var toFail, toCleanup := SweepClient(u, snapshot[u], all, now);
        OneSweptJobs(snapshot, jobs0, now, Elements(all[..i]), u, toFail, toCleanup);
        HasId(snapshot, before, all, u);
        OneMoreSwept(snapshot, jobs0, now, all, i, before, toFail, toCleanup);
      }
    }
  }

  function FailAll(jobs: map<string, JobRecord>, ids: set<string>, now: int): map<string, JobRecord> {
    map j | j in jobs :: if j in ids then MarkFailed(jobs[j], now) else jobs[j]
  }

  // Ids taken off the list of the client that the look-up finds.
  function TakeOff(clients: A.Clients, all: seq<string>, clientId: string, gone: set<string>): A.Clients {
    match A.FindById(clients, all, clientId)
    case None => clients
    case Some(v) => clients[v := clients[v].(activeJobs := Without(clients[v].activeJobs, gone))]
  }

  lemma TakeOffNothing(clients: A.Clients, all: seq<string>, clientId: string)
    ensures TakeOff(clients, all, clientId, {}) == clients
  {
    var v := A.FindById(clients, all, clientId);
    if v.Some? {
      WithoutNothing(clients[v.value].activeJobs, {});
    }
  }

  lemma TakeOffTwice(clients: A.Clients, all: seq<string>, clientId: string, a: set<string>, b: set<string>)
    ensures TakeOff(TakeOff(clients, all, clientId, a), all, clientId, b) == TakeOff(clients, all, clientId, a + b)
    ensures A.FindById(TakeOff(clients, all, clientId, a), all, clientId) == A.FindById(clients, all, clientId)
  {
    FindByIdStable(clients, TakeOff(clients, all, clientId, a), all, clientId);
    var v := A.FindById(clients, all, clientId);
    if v.Some? {
      WithoutTwice(clients[v.value].activeJobs, a, b);
    }
  }

  // The effect of sweeping one client on the live records.
  function Swept(live: A.Clients, all: seq<string>, u: string, client: A.Client, toFail: seq<string>,
                 toCleanup: seq<string>): A.Clients
    requires u in live
  {
    TakeOff(CleanedUp(live, u, client.activeJobs, toCleanup), all, client.clientId, Elements(toFail))
  }

  function CleanedUp(live: A.Clients, u: string, list: seq<string>, toCleanup: seq<string>): A.Clients
    requires u in live
  {
    if toCleanup != [] then live[u := live[u].(activeJobs := Without(list, Elements(toCleanup)))] else live
  }

  // ---------------------------------------------------------------- one more client

  lemma NothingSwept(clients: A.Clients, jobs: map<string, JobRecord>, now: int, all: seq<string>)
    requires A.Enumerates(clients, all)
    ensures Midway(clients, jobs, now, all, 0, clients)
  {
    var none := Failures(clients, jobs, now, Elements(all[..0]));
    forall k | 0 <= k < |all| ensures Thinned(clients[all[k]].activeJobs, clients[all[k]].activeJobs, none) {
      WithoutNothing(clients[all[k]].activeJobs, {});
      var gone: set<string> := {};
      assert gone <= none && clients[all[k]].activeJobs == Without(clients[all[k]].activeJobs, gone);
    }
  }

  lemma HasId(clients: A.Clients, live: A.Clients, all: seq<string>, u: string)
    requires SameIds(clients, live) && u in clients && u in all
    ensures A.FindById(live, all, clients[u].clientId) == A.FindById(clients, all, clients[u].clientId)
    ensures A.FindById(live, all, clients[u].clientId).Some?
  {
    FindByIdStable(clients, live, all, clients[u].clientId);
  }

  lemma OneSweptJobs(clients: A.Clients, jobs: map<string, JobRecord>, now: int, done: set<string>, u: string,
                     toFail: seq<string>, toCleanup: seq<string>)
    requires u in clients
    requires Classified(clients[u].activeJobs, SweptJobs(clients, jobs, now, done), now, toFail, toCleanup)
    ensures SweptJobs(clients, jobs, now, done + {u}) == FailAll(SweptJobs(clients, jobs, now, done), Elements(toFail), now)
  {
    forall j | j in jobs
      ensures ListedBy(clients, done + {u}, j) <==> ListedBy(clients, done, j) || j in clients[u].activeJobs
    {
    }
  }

  // After the clean-up the list is the snapshot's without its dead entries, whether or not
  // there was anything to write.
  lemma CleanedUpList(clients: A.Clients, jobs: map<string, JobRecord>, now: int, done: set<string>, u: string,
                      live: A.Clients, toFail: seq<string>, toCleanup: seq<string>)
    requires u in clients && u in live
    requires Classified(clients[u].activeJobs, SweptJobs(clients, jobs, now, done), now, toFail, toCleanup)
    requires Thinned(clients[u].activeJobs, live[u].activeJobs, Failures(clients, jobs, now, done))
    ensures var list := clients[u].activeJobs;
            CleanedUp(live, u, list, toCleanup)[u].activeJobs == Without(list, Elements(toCleanup))
  {
    var list := clients[u].activeJobs;
    if toCleanup == [] {
      var gone :| gone <= Failures(clients, jobs, now, done) && live[u].activeJobs == Without(list, gone);
      forall j | j in list ensures j !in gone {
        assert j !in toCleanup;
      }
      WithoutNothing(list, gone);
      WithoutNothing(list, Elements(toCleanup));
    }
  }

  // Taking off dead entries first and failed ones second is what After says.
  lemma RemainderIsAfter(clients: A.Clients, jobs: map<string, JobRecord>, now: int, done: set<string>, all: seq<string>,
                         u: string, toFail: seq<string>, toCleanup: seq<string>)
    requires u in clients
    requires Classified(clients[u].activeJobs, SweptJobs(clients, jobs, now, done), now, toFail, toCleanup)
    ensures var list := clients[u].activeJobs;
            After(clients, jobs, now, done, all, u).activeJobs ==
            if Found(clients, all, u) then Without(Without(list, Elements(toCleanup)), Elements(toFail))
            else Without(list, Elements(toCleanup))
  {
    var list, gone := clients[u].activeJobs, Gone(clients, jobs, now, done, all, u);
    if Found(clients, all, u) {
      WithoutTwice(list, Elements(toCleanup), Elements(toFail));
      WithoutSame(list, gone, Elements(toCleanup) + Elements(toFail));
    } else {
      WithoutSame(list, gone, Elements(toCleanup));
    }
  }

  // A client that was swept and is found by its id has nothing left that could still fail.
  lemma SweptLosesNothing(clients: A.Clients, jobs: map<string, JobRecord>, now: int, done: set<string>, all: seq<string>,
                          v: string, failed: set<string>)
    requires v in clients && Found(clients, all, v)
    requires forall j :: j in failed ==> !Kept(jobs, now, j)
    ensures var list := After(clients, jobs, now, done, all, v).activeJobs; Without(list, failed) == list
  {
    WithoutNothing(After(clients, jobs, now, done, all, v).activeJobs, failed);
  }

  ghost predicate Distinct(all: seq<string>) {
    forall i, k :: 0 <= i < k < |all| ==> all[i] != all[k]
  }

  lemma FailuresGrow(clients: A.Clients, jobs: map<string, JobRecord>, now: int, done: set<string>, u: string,
                     toFail: seq<string>, toCleanup: seq<string>)
    requires u in clients
    requires Classified(clients[u].activeJobs, SweptJobs(clients, jobs, now, done), now, toFail, toCleanup)
    ensures Failures(clients, jobs, now, done) <= Failures(clients, jobs, now, done + {u})
    ensures Elements(toFail) <= Failures(clients, jobs, now, done + {u})
  {
  }

  // What the sweep of all[i] makes of its own record, of one swept before, and of one
  // still to come.
  lemma SweptItself(clients: A.Clients, jobs: map<string, JobRecord>, now: int, all: seq<string>, i: nat, live: A.Clients,
                    toFail: seq<string>, toCleanup: seq<string>)
    requires i < |all| && A.Enumerates(clients, all) && Distinct(all)
    requires Midway(clients, jobs, now, all, i, live)
    requires Classified(clients[all[i]].activeJobs, SweptJobs(clients, jobs, now, Elements(all[..i])), now, toFail, toCleanup)
    ensures var live' := Swept(live, all, all[i], clients[all[i]], toFail, toCleanup);
            all[i] in live' && live'[all[i]] == After(clients, jobs, now, Elements(all[..i]), all, all[i])
  {
    var u, done := all[i], Elements(all[..i]);
    HasId(clients, CleanedUp(live, u, clients[u].activeJobs, toCleanup), all, u);
    CleanedUpList(clients, jobs, now, done, u, live, toFail, toCleanup);
    RemainderIsAfter(clients, jobs, now, done, all, u, toFail, toCleanup);
  }

  lemma SweptBefore(clients: A.Clients, jobs: map<string, JobRecord>, now: int, all: seq<string>, i: nat, live: A.Clients,
                    toFail: seq<string>, toCleanup: seq<string>, k: nat)
    requires i < |all| && A.Enumerates(clients, all) && Distinct(all)
    requires Midway(clients, jobs, now, all, i, live)
    requires Classified(clients[all[i]].activeJobs, SweptJobs(clients, jobs, now, Elements(all[..i])), now, toFail, toCleanup)
    requires k < i
    ensures var live' := Swept(live, all, all[i], clients[all[i]], toFail, toCleanup);
            all[k] in live' && live'[all[k]] == After(clients, jobs, now, Elements(all[..k]), all, all[k])
  {
    var u := all[i];
    HasId(clients, CleanedUp(live, u, clients[u].activeJobs, toCleanup), all, u);
    if A.FindById(clients, all, clients[u].clientId) == Some(all[k]) {
      SweptLosesNothing(clients, jobs, now, Elements(all[..k]), all, all[k], Elements(toFail));
    }
  }

  lemma SweptOther(live: A.Clients, all: seq<string>, u: string, client: A.Client, toFail: seq<string>,
                   toCleanup: seq<string>, w: string)
    requires u in live && w in live && w != u
    ensures var live' := Swept(live, all, u, client, toFail, toCleanup);
            && w in live'
            && live'[w] == live[w].(activeJobs := live'[w].activeJobs)
            && (live'[w].activeJobs == live[w].activeJobs
                || live'[w].activeJobs == Without(live[w].activeJobs, Elements(toFail)))
  {
  }

  lemma SweptLater(clients: A.Clients, jobs: map<string, JobRecord>, now: int, all: seq<string>, i: nat, live: A.Clients,
                   toFail: seq<string>, toCleanup: seq<string>, k: nat)
    requires i < |all| && A.Enumerates(clients, all) && Distinct(all)
    requires Midway(clients, jobs, now, all, i, live)
    requires Classified(clients[all[i]].activeJobs, SweptJobs(clients, jobs, now, Elements(all[..i])), now, toFail, toCleanup)
    requires i < k < |all|
    ensures var live' := Swept(live, all, all[i], clients[all[i]], toFail, toCleanup);
            && all[k] in live'
            && live'[all[k]] == clients[all[k]].(activeJobs := live'[all[k]].activeJobs)
            && Thinned(clients[all[k]].activeJobs, live'[all[k]].activeJobs,
                       Failures(clients, jobs, now, Elements(all[..i]) + {all[i]}))
  {
    var u, done := all[i], Elements(all[..i]);
    FailuresGrow(clients, jobs, now, done, u, toFail, toCleanup);
    SweptOther(live, all, u, clients[u], toFail, toCleanup, all[k]);
    ThinnedMore(clients[all[k]].activeJobs, live[all[k]].activeJobs, Failures(clients, jobs, now, done),
                Elements(toFail), Failures(clients, jobs, now, done + {u}));
  }

  lemma OneMoreSwept(clients: A.Clients, jobs: map<string, JobRecord>, now: int, all: seq<string>, i: nat, live: A.Clients,
                     toFail: seq<string>, toCleanup: seq<string>)
    requires i < |all| && A.Enumerates(clients, all) && Distinct(all)
    requires Midway(clients, jobs, now, all, i, live)
    requires Classified(clients[all[i]].activeJobs, SweptJobs(clients, jobs, now, Elements(all[..i])), now, toFail, toCleanup)
    ensures Midway(clients, jobs, now, all, i + 1, Swept(live, all, all[i], clients[all[i]], toFail, toCleanup))
  {
    var live' := Swept(live, all, all[i], clients[all[i]], toFail, toCleanup);
    assert Elements(all[..i + 1]) == Elements(all[..i]) + {all[i]};
    forall k: nat | k < |all|
      ensures all[k] in live' && live'[all[k]] == clients[all[k]].(activeJobs := live'[all[k]].activeJobs)
      ensures k <= i ==> live'[all[k]] == After(clients, jobs, now, Elements(all[..k]), all, all[k])
      ensures i < k ==> Thinned(clients[all[k]].activeJobs, live'[all[k]].activeJobs,
                                Failures(clients, jobs, now, Elements(all[..i + 1])))
    {
      if k == i {
        SweptItself(clients, jobs, now, all, i, live, toFail, toCleanup);
      } else if k < i {
        SweptBefore(clients, jobs, now, all, i, live, toFail, toCleanup, k);
      } else {
        SweptLater(clients, jobs, now, all, i, live, toFail, toCleanup, k);
      }
    }
    HasId(clients, CleanedUp(live, all[i], clients[all[i]].activeJobs, toCleanup), all, all[i]);
    assert live'.Keys == clients.Keys;
    forall u | u in clients ensures live'[u] == clients[u].(activeJobs := live'[u].activeJobs) {
      assert u in all;
      var k :| 0 <= k < |all| && all[k] == u;
    }
  }

  lemma NothingListed(clients: A.Clients, jobs: map<string, JobRecord>, now: int, done: set<string>, u: string)
    requires u in clients && clients[u].activeJobs == []
    ensures Failures(clients, jobs, now, done + {u}) == Failures(clients, jobs, now, done)
    ensures SweptJobs(clients, jobs, now, done + {u}) == SweptJobs(clients, jobs, now, done)
  {
    forall j ensures ListedBy(clients, done + {u}, j) <==> ListedBy(clients, done, j) {
    }
  }

  // A client with an empty list is skipped.
  lemma NothingToSweep(clients: A.Clients, jobs: map<string, JobRecord>, now: int, all: seq<string>, i: nat, live: A.Clients)
    requires i < |all| && A.Enumerates(clients, all) && Distinct(all)
    requires Midway(clients, jobs, now, all, i, live) && clients[all[i]].activeJobs == []
    ensures Midway(clients, jobs, now, all, i + 1, live)
    ensures SweptJobs(clients, jobs, now, Elements(all[..i]) + {all[i]}) == SweptJobs(clients, jobs, now, Elements(all[..i]))
  {
    var u, done := all[i], Elements(all[..i]);
    assert Elements(all[..i + 1]) == done + {u};
    NothingListed(clients, jobs, now, done, u);
    var gone :| gone <= Failures(clients, jobs, now, done) && live[u].activeJobs == Without(clients[u].activeJobs, gone);
    assert live[u].activeJobs == [] == After(clients, jobs, now, done, all, u).activeJobs;
  }

  lemma EverybodyIsSwept(clients: A.Clients, jobs: map<string, JobRecord>, now: int, all: seq<string>, live: A.Clients)
    requires A.Enumerates(clients, all) && A.UniqueIds(clients)
    requires live.Keys == clients.Keys
    requires forall i :: 0 <= i < |all| ==>
               all[i] in live && live[all[i]] == After(clients, jobs, now, Elements(all[..i]), all, all[i])
    ensures live == SweptClients(clients, jobs, now)
  {
    forall u | u in clients ensures live[u] == SweptClient(clients[u], jobs, now) {
      assert u in all;
      var i :| 0 <= i < |all| && all[i] == u;
      UniqueIsFound(clients, all, u);
      AfterIsSweptExactly(clients, jobs, now, Elements(all[..i]), all, u);
    }
  }
}
