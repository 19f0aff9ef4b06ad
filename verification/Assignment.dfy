/** Choosing a client for a job by spare capacity and speed, and assigning it. */
module Assignment {
  import opened Wrappers
  import opened JobLists
  import J = JobIndexes

  const DEFAULT_CAPACITY: int := 3
  const MAX_CAPACITY: int := 10

  // maxConcurrentJobs is 0 when the field is missing.
  datatype Client = Client(
    clientId: string, active: bool, wsDisconnect: int, maxConcurrentJobs: int,
    downloadSpeed: real, activeJobs: seq<string>)

  function Capacity(c: Client): int {
    if c.maxConcurrentJobs == 0 then DEFAULT_CAPACITY else c.maxConcurrentJobs
  }

  function Spare(c: Client): int { Capacity(c) - |c.activeJobs| }

  predicate Reachable(c: Client) { c.active && c.wsDisconnect == 0 }

  predicate Eligible(c: Client) { Reachable(c) && |c.activeJobs| < Capacity(c) }

  type Clients = map<string, Client>

  // The comparator of the sort: more spare capacity first, then more speed.
  predicate Before(a: Client, b: Client) {
    if Spare(a) != Spare(b) then Spare(a) > Spare(b) else a.downloadSpeed > b.downloadSpeed
  }

  // ---------------------------------------------------------------- the stable sort

  function Insert(clients: Clients, u: string, sorted: seq<string>): (r: seq<string>)
    requires u in clients && forall v :: v in sorted ==> v in clients
    ensures forall v :: v in r <==> v == u || v in sorted
    ensures |r| == |sorted| + 1
  {
    if sorted == [] || !Before(clients[sorted[0]], clients[u]) then [u] + sorted
    else [sorted[0]] + Insert(clients, u, sorted[1..])
  }

  // Array.prototype.sort with that comparator.
  function Sort(clients: Clients, us: seq<string>): (r: seq<string>)
    requires forall v :: v in us ==> v in clients
    ensures forall v :: v in r ==> v in us
    ensures |r| == |us|
  {
    if us == [] then []
    else
      var rest := Sort(clients, us[1..]);
      Insert(clients, us[0], rest)
  }

  lemma {:induction false} InsertKeepsElements(clients: Clients, u: string, sorted: seq<string>)
    requires u in clients && forall v :: v in sorted ==> v in clients
    ensures multiset(Insert(clients, u, sorted)) == multiset(sorted) + multiset{u}
  {
    if sorted != [] && Before(clients[sorted[0]], clients[u]) {
      InsertKeepsElements(clients, u, sorted[1..]);
      assert sorted == [sorted[0]] + sorted[1..];
    }
  }

  ghost predicate Sorted(clients: Clients, us: seq<string>)
    requires forall v :: v in us ==> v in clients
  {
    forall i, j :: 0 <= i < j < |us| ==> !Before(clients[us[j]], clients[us[i]])
  }

  lemma {:induction false} InsertKeepsSorted(clients: Clients, u: string, sorted: seq<string>)
    requires u in clients && forall v :: v in sorted ==> v in clients
    requires Sorted(clients, sorted)
    ensures Sorted(clients, Insert(clients, u, sorted))
  {
    if sorted != [] && Before(clients[sorted[0]], clients[u]) {
      var rest := sorted[1..];
      assert forall i :: 0 <= i < |rest| ==> rest[i] == sorted[i + 1];
      InsertKeepsSorted(clients, u, rest);
      var r := Insert(clients, u, rest);
      forall i, j | 0 <= i < j < |r| + 1
        ensures !Before(clients[([sorted[0]] + r)[j]], clients[([sorted[0]] + r)[i]])
      {
        if i == 0 {
          var v := r[j - 1];
          assert v == u || v in rest;
          if v in rest {
            var k :| 0 <= k < |rest| && rest[k] == v;
            assert sorted[k + 1] == v;
          }
        }
      }
    }
  }

  // The result is sorted and a rearrangement of the input.
  lemma {:induction false} SortIsSorted(clients: Clients, us: seq<string>)
    requires forall v :: v in us ==> v in clients
    ensures Sorted(clients, Sort(clients, us))
    ensures multiset(Sort(clients, us)) == multiset(us)
  {
    if us != [] {
      SortIsSorted(clients, us[1..]);
      InsertKeepsElements(clients, us[0], Sort(clients, us[1..]));
      InsertKeepsSorted(clients, us[0], Sort(clients, us[1..]));
      assert us == [us[0]] + us[1..];
    }
  }

  // ---------------------------------------------------------------- choosing

  function Available(clients: Clients, listed: seq<string>): (r: seq<string>)
    ensures forall u :: u in r <==> u in listed && u in clients && Eligible(clients[u])
  {
    if listed == [] then []
    else
      var rest := Available(clients, listed[1..]);
      if listed[0] in clients && Eligible(clients[listed[0]]) then [listed[0]] + rest else rest
  }

  // `listed` is what the status index returned for ACTIVE, in its order.
  function Choose(clients: Clients, listed: seq<string>): Option<string> {
    var available := Available(clients, listed);
    if available == [] then None else Some(Sort(clients, available)[0])
  }

  // The first of the best in a list.
  ghost predicate FirstBest(clients: Clients, us: seq<string>, u: string)
    requires forall v :: v in us ==> v in clients
  {
    exists k :: 0 <= k < |us| && us[k] == u && u in clients && BestFrom(clients, us, u, k)
  }

  ghost predicate BestFrom(clients: Clients, us: seq<string>, u: string, k: int)
    requires u in clients && forall v :: v in us ==> v in clients
  {
    && (forall j :: 0 <= j < |us| ==> !Before(clients[us[j]], clients[u]))
    && (forall j :: 0 <= j < k < |us| ==> Before(clients[u], clients[us[j]]))
  }

  // The sort is stable: among equals the first one listed comes first.
  lemma {:induction false} SortPutsFirstBestFirst(clients: Clients, us: seq<string>)
    requires us != [] && forall v :: v in us ==> v in clients
    ensures Sort(clients, us) != [] && FirstBest(clients, us, Sort(clients, us)[0])
  {
    var rest := us[1..];
    assert forall j :: 0 < j < |us| ==> us[j] == rest[j - 1];
    if rest == [] {
      assert Sort(clients, rest) == [];
      assert us[0] == Sort(clients, us)[0] && BestFrom(clients, us, us[0], 0);
    } else {
      SortPutsFirstBestFirst(clients, rest);
      var u := Sort(clients, rest)[0];
      var k :| 0 <= k < |rest| && rest[k] == u && BestFrom(clients, rest, u, k);
      if Before(clients[u], clients[us[0]]) {
        assert us[k + 1] == u && BestFrom(clients, us, u, k + 1);
      } else {
        forall j | 0 <= j < |us| ensures !Before(clients[us[j]], clients[us[0]]) {
          assert j > 0 ==> us[j] == rest[j - 1];
        }
        assert BestFrom(clients, us, us[0], 0);
      }
    }
  }

  // A client takes jobs while it is active and connected and has fewer than its capacity,
  // which is three if none is stored. One is chosen exactly when one that is listed takes
  // jobs. No other such client has more room, or as much room and more speed, and of equals
  // the first one listed is chosen.
  lemma ChosenIsBest(clients: Clients, listed: seq<string>)
    ensures forall u :: u in clients ==>
              var c := clients[u];
              var capacity := if c.maxConcurrentJobs == 0 then 3 else c.maxConcurrentJobs;
              && (Eligible(c) <==> c.active && c.wsDisconnect == 0 && |c.activeJobs| < capacity)
              && Spare(c) == capacity - |c.activeJobs|
    ensures Choose(clients, listed).Some? <==> exists u :: u in listed && u in clients && Eligible(clients[u])
    ensures Choose(clients, listed).Some? ==>
              var chosen := Choose(clients, listed).value;
              && chosen in listed && chosen in clients && Eligible(clients[chosen])
              && (forall u :: u in listed && u in clients && Eligible(clients[u]) ==>
                    && Spare(clients[u]) <= Spare(clients[chosen])
                    && (Spare(clients[u]) == Spare(clients[chosen]) ==>
                          clients[u].downloadSpeed <= clients[chosen].downloadSpeed))
              && FirstBest(clients, Available(clients, listed), chosen)
  {
    var available := Available(clients, listed);
    if available != [] {
      SortPutsFirstBestFirst(clients, available);
      assert available[0] in available;
      forall u | u in available ensures !Before(clients[u], clients[Sort(clients, available)[0]]) {
        var k :| 0 <= k < |available| && available[k] == u;
      }
    } else {
      assert forall u :: u !in available;
    }
  }

  // ---------------------------------------------------------------- assigning

  // The first client in the enumeration with that id.
  function FindById(clients: Clients, all: seq<string>, clientId: string): (r: Option<string>)
    ensures r.Some? ==> r.value in all && r.value in clients && clients[r.value].clientId == clientId
    ensures r == None ==> forall u :: u in all && u in clients ==> clients[u].clientId != clientId
  {
    if all == [] then None
    else if all[0] in clients && clients[all[0]].clientId == clientId then Some(all[0])
    else FindById(clients, all[1..], clientId)
  }

  datatype AssignResult = Assigned | ClientNotFound | AtCapacity

  function AssignOutcome(clients: Clients, all: seq<string>, clientId: string): AssignResult {
    match FindById(clients, all, clientId)
    case None => ClientNotFound
    case Some(u) => if Spare(clients[u]) <= 0 then AtCapacity else Assigned
  }

  function Assign(clients: Clients, all: seq<string>, jobId: string, clientId: string): Clients {
    match FindById(clients, all, clientId)
    case None => clients
    case Some(u) =>
      if Spare(clients[u]) <= 0 then clients
      else clients[u := clients[u].(activeJobs := clients[u].activeJobs + [jobId])]
  }

  function FindOptimal(clients: Clients, listed: seq<string>, all: seq<string>, jobId: string): Clients {
    match Choose(clients, listed)
    case None => clients
    case Some(u) => Assign(clients, all, jobId, clients[u].clientId)
  }

  ghost predicate UniqueIds(clients: Clients) {
    forall u, v :: u in clients && v in clients && clients[u].clientId == clients[v].clientId ==> u == v
  }

  ghost predicate Enumerates(clients: Clients, all: seq<string>) {
    forall u :: u in all <==> u in clients
  }

  lemma {:induction false} FoundById(clients: Clients, all: seq<string>, u: string)
    requires UniqueIds(clients) && u in all && u in clients
    ensures FindById(clients, all, clients[u].clientId) == Some(u)
  {
    if !(all[0] in clients && clients[all[0]].clientId == clients[u].clientId) {
      FoundById(clients, all[1..], u);
    }
  }

  // Client u's first place in the enumeration, and nobody with its id ahead of it.
  ghost predicate FirstWithItsId(clients: Clients, all: seq<string>, u: string)
    requires u in clients
  {
    exists k :: FirstAt(clients, all, u, k)
  }

  ghost predicate FirstAt(clients: Clients, all: seq<string>, u: string, k: int)
    requires u in clients
  {
    && 0 <= k < |all| && all[k] == u
    && forall j :: 0 <= j < k ==> all[j] !in clients || clients[all[j]].clientId != clients[u].clientId
  }

  // The look-up by id finds a client exactly when it is the first with its id.
  lemma {:induction false} FoundExactlyIfFirst(clients: Clients, all: seq<string>, u: string)
    requires u in clients
    ensures FindById(clients, all, clients[u].clientId) == Some(u) <==> FirstWithItsId(clients, all, u)
  {
    if all != [] {
      var rest := all[1..];
      FoundExactlyIfFirst(clients, rest, u);
      if all[0] in clients && clients[all[0]].clientId == clients[u].clientId {
        if all[0] == u {
          assert FirstAt(clients, all, u, 0);
        } else {
          assert forall k :: 0 < k < |all| ==> !FirstAt(clients, all, u, k);
        }
      } else {
        forall k | FirstAt(clients, rest, u, k) ensures FirstAt(clients, all, u, k + 1) {
          forall j | 0 <= j < k + 1 ensures all[j] !in clients || clients[all[j]].clientId != clients[u].clientId {
            assert 0 < j ==> all[j] == rest[j - 1];
          }
        }
        forall k | FirstAt(clients, all, u, k) ensures FirstAt(clients, rest, u, k - 1) {
          assert all[k] == u;
          forall j | 0 <= j < k - 1 ensures rest[j] !in clients || clients[rest[j]].clientId != clients[u].clientId {
            assert rest[j] == all[j + 1];
          }
        }
      }
    }
  }

  // Whoever is chosen, exactly when no client ahead of it in the enumeration shares its id
  // does it get the job; otherwise its own list stays as it is.
  lemma ChosenGetsTheJobExactly(clients: Clients, listed: seq<string>, all: seq<string>, jobId: string)
    requires Choose(clients, listed).Some?
    ensures var u := Choose(clients, listed).value;
            && u in clients
            && var given := clients[u := clients[u].(activeJobs := clients[u].activeJobs + [jobId])];
            && (FindOptimal(clients, listed, all, jobId) == given <==> FirstWithItsId(clients, all, u))
            && (!FirstWithItsId(clients, all, u) ==> FindOptimal(clients, listed, all, jobId)[u] == clients[u])
  {
    ChosenIsBest(clients, listed);
    var u := Choose(clients, listed).value;
    FoundExactlyIfFirst(clients, all, u);
    var given := clients[u := clients[u].(activeJobs := clients[u].activeJobs + [jobId])];
    assert |given[u].activeJobs| == |clients[u].activeJobs| + 1;
    if !FirstWithItsId(clients, all, u) {
      assert FindOptimal(clients, listed, all, jobId)[u] == clients[u];
    }
  }

  // With unique ids the chosen client gets the job, appended to its list, and nobody else
  // changes.
  lemma OptimalGetsTheJob(clients: Clients, listed: seq<string>, all: seq<string>, jobId: string)
    requires UniqueIds(clients) && Enumerates(clients, all) && Choose(clients, listed).Some?
    ensures var u := Choose(clients, listed).value;
            && u in clients
            && FindOptimal(clients, listed, all, jobId) ==
                 clients[u := clients[u].(activeJobs := clients[u].activeJobs + [jobId])]
  {
    ChosenIsBest(clients, listed);
    FoundById(clients, all, Choose(clients, listed).value);
  }

  // Two clients under one id: the job can go to the worse one.
  lemma SharedIdMisassigns()
    ensures var full := Client("7", true, 0, 1, 1.0, []);
            var roomy := Client("7", true, 0, 5, 1.0, []);
            var clients: Clients := map["a" := full, "b" := roomy];
            && Choose(clients, ["a", "b"]) == Some("b")
            && FindOptimal(clients, ["a", "b"], ["a", "b"], "j") ==
                 clients["a" := full.(activeJobs := ["j"])]
  {
    var full := Client("7", true, 0, 1, 1.0, []);
    var roomy := Client("7", true, 0, 5, 1.0, []);
    var clients: Clients := map["a" := full, "b" := roomy];
    assert Available(clients, ["b"]) == ["b"] by {
      assert ["b"][1..] == [];
    }
    assert Available(clients, ["a", "b"]) == ["a", "b"] by {
      assert ["a", "b"][1..] == ["b"];
    }
    assert Sort(clients, ["b"]) == ["b"] by {
      assert ["b"][1..] == [];
    }
    assert Sort(clients, ["a", "b"]) == ["b", "a"] by {
      assert ["a", "b"][1..] == ["b"];
      assert Before(roomy, full);
      assert ["b"][1..] == [];
      assert Insert(clients, "a", []) == ["a"];
    }
    assert Choose(clients, ["a", "b"]) == Some("b");
    assert FindById(clients, ["a", "b"], "7") == Some("a");
    assert [] + ["j"] == ["j"];
  }

  // ---------------------------------------------------------------- balance

  // No two clients of a group differ by more than d in spare capacity.
  ghost predicate Spread(clients: Clients, group: set<string>, d: int)
    requires forall u :: u in group ==> u in clients
  {
    forall u, v :: u in group && v in group ==> Spare(clients[u]) - Spare(clients[v]) <= d
  }

  function AssignMany(clients: Clients, jobs: seq<(string, seq<string>, seq<string>)>): Clients
    decreases |jobs|
  {
    if jobs == [] then clients
    else AssignMany(FindOptimal(clients, jobs[0].1, jobs[0].2, jobs[0].0), jobs[1..])
  }

  // Assigning many jobs is finding the optimal client for each in turn.
  lemma {:induction false} AssignManySnoc(clients: Clients, jobs: seq<(string, seq<string>, seq<string>)>,
                                          last: (string, seq<string>, seq<string>))
    ensures AssignMany(clients, []) == clients
    ensures AssignMany(clients, jobs + [last]) == FindOptimal(AssignMany(clients, jobs), last.1, last.2, last.0)
    decreases |jobs|
  {
    if jobs == [] {
      assert [last][1..] == [];
    } else {
      assert (jobs + [last])[0] == jobs[0] && (jobs + [last])[1..] == jobs[1..] + [last];
      AssignManySnoc(FindOptimal(clients, jobs[0].1, jobs[0].2, jobs[0].0), jobs[1..], last);
    }
  }

  // Every listing names the active clients, and every enumeration all of them.
  ghost predicate Faithful(clients: Clients, jobs: seq<(string, seq<string>, seq<string>)>) {
    forall k :: 0 <= k < |jobs| ==>
      && Enumerates(clients, jobs[k].2)
      && forall u :: u in clients && clients[u].active ==> u in jobs[k].1
  }

  // The group may be any reachable clients, those already full included.
  lemma {:induction false} AssignmentsBalance(clients: Clients, jobs: seq<(string, seq<string>, seq<string>)>,
                                              group: set<string>, d: int)
    requires UniqueIds(clients) && Faithful(clients, jobs) && 1 <= d
    requires forall u :: u in group ==> u in clients && Reachable(clients[u])
    requires Spread(clients, group, d)
    ensures forall u :: u in group ==> u in AssignMany(clients, jobs)
    ensures Spread(AssignMany(clients, jobs), group, d)
    decreases |jobs|
  {
    if jobs != [] {
      var (jobId, listed, all) := jobs[0];
      var clients' := FindOptimal(clients, listed, all, jobId);
      ChosenIsBest(clients, listed);
      if Choose(clients, listed).Some? {
        OptimalGetsTheJob(clients, listed, all, jobId);
        var x := Choose(clients, listed).value;
        forall v | v in group ensures Spare(clients[v]) <= Spare(clients[x]) {
          assert v in listed;
        }
      }
      assert UniqueIds(clients');
      assert Faithful(clients', jobs[1..]);
      AssignmentsBalance(clients', jobs[1..], group, d);
    }
  }

  // ---------------------------------------------------------------- at most ten

  datatype Op =
    | Join(u: string, clientId: string)
    | Optimal(jobId: string, listed: seq<string>, all: seq<string>)
    | AssignTo(jobId: string, clientId: string, all: seq<string>)
    | SetCapacity(u: string, n: int)
    | Finish(u: string, jobId: string)
    | Report(u: string, clientId: string, active: bool, wsDisconnect: int, speed: real)

  function Apply(clients: Clients, op: Op): Clients {
    match op
    case Join(u, clientId) =>
      if u in clients then clients else clients[u := Client(clientId, false, 0, MAX_CAPACITY, 0.0, [])]
    case Optimal(jobId, listed, all) => FindOptimal(clients, listed, all, jobId)
    case AssignTo(jobId, clientId, all) => Assign(clients, all, jobId, clientId)
    case SetCapacity(u, n) =>
      if n < 1 || n > MAX_CAPACITY || u !in clients then clients
      else clients[u := clients[u].(maxConcurrentJobs := n)]
    case Finish(u, jobId) =>
      if u !in clients then clients
      else clients[u := clients[u].(activeJobs := Without(clients[u].activeJobs, {jobId}))]
    case Report(u, clientId, active, wsDisconnect, speed) =>
      if u !in clients then clients
      else clients[u := clients[u].(clientId := clientId, active := active, wsDisconnect := wsDisconnect,
                                    downloadSpeed := speed)]
  }

  ghost predicate AtMostTen(clients: Clients) {
    forall u :: u in clients ==>
      && 0 <= clients[u].maxConcurrentJobs <= MAX_CAPACITY
      && |clients[u].activeJobs| <= MAX_CAPACITY
  }

  function Run(clients: Clients, ops: seq<Op>): Clients
    decreases |ops|
  {
    if ops == [] then clients else Run(Apply(clients, ops[0]), ops[1..])
  }

  // A run is its operations one after the other.
  lemma {:induction false} RunSnoc(clients: Clients, ops: seq<Op>, op: Op)
    ensures Run(clients, []) == clients
    ensures Run(clients, ops + [op]) == Apply(Run(clients, ops), op)
    decreases |ops|
  {
    if ops == [] {
      assert [op][1..] == [];
    } else {
      assert (ops + [op])[0] == ops[0] && (ops + [op])[1..] == ops[1..] + [op];
      RunSnoc(Apply(clients, ops[0]), ops[1..], op);
    }
  }

  // A new client is inactive and has ten places and no jobs; a finished job leaves the list
  // and nothing else does; a report changes neither the places nor the list.
  lemma RecordsFollow(clients: Clients, u: string, clientId: string, jobId: string, active: bool, wsDisconnect: int,
                      speed: real)
    ensures u !in clients ==>
              Apply(clients, Join(u, clientId)) == clients[u := Client(clientId, false, 0, 10, 0.0, [])]
    ensures u in clients ==> Apply(clients, Join(u, clientId)) == clients
    ensures var done := Apply(clients, Finish(u, jobId));
            u in clients ==>
              && u in done && done == clients[u := clients[u].(activeJobs := done[u].activeJobs)]
              && forall j :: j in done[u].activeJobs <==> j in clients[u].activeJobs && j != jobId
    ensures u in clients ==>
              Apply(clients, Report(u, clientId, active, wsDisconnect, speed)) ==
              clients[u := Client(clientId, active, wsDisconnect, clients[u].maxConcurrentJobs, speed, clients[u].activeJobs)]
  {
  }

  lemma ApplyKeepsTen(clients: Clients, op: Op)
    requires AtMostTen(clients)
    ensures AtMostTen(Apply(clients, op))
  {
  }

  // Whatever happens, capacity changes and shared ids included.
  lemma {:induction false} NeverMoreThanTen(clients: Clients, ops: seq<Op>)
    requires AtMostTen(clients)
    ensures AtMostTen(Run(clients, ops))
    decreases |ops|
  {
    if ops != [] {
      ApplyKeepsTen(clients, ops[0]);
      NeverMoreThanTen(Apply(clients, ops[0]), ops[1..]);
    }
  }

  // ---------------------------------------------------------------- the service object

  class NodeService {
    var clients: Clients
    var jobs: map<string, J.Job>

    constructor ()
      ensures clients == map[] && jobs == map[]
    {
      clients, jobs := map[], map[];
    }

    method AssignJobToClient(jobId: string, clientId: string, all: seq<string>, now: int) returns (r: AssignResult)
      modifies this
      ensures r == AssignOutcome(old(clients), all, clientId)
      ensures clients == Apply(old(clients), AssignTo(jobId, clientId, all))
      // a client that is full by its capacity, or by three if it has none, is not given the job
      ensures var u := FindById(old(clients), all, clientId);
              && (r == ClientNotFound <==> u == None)
              && (u.Some? ==>
                    var c := old(clients)[u.value];
                    && (r == AtCapacity <==> |c.activeJobs| >= if c.maxConcurrentJobs == 0 then 3 else c.maxConcurrentJobs)
                    && (r == Assigned ==> clients == old(clients)[u.value := c.(activeJobs := c.activeJobs + [jobId])]))
              && (r != Assigned ==> clients == old(clients))
      ensures r == Assigned && jobId in old(jobs) ==>
                var u := FindById(old(clients), all, clientId).value;
                jobs == old(jobs)[jobId := J.Job(old(jobs)[jobId].creator, u, J.ONGOING, now, old(jobs)[jobId].reward)]
      ensures r != Assigned || jobId !in old(jobs) ==> jobs == old(jobs)
    {
      var i := 0;
      assert all[0..] == all;
      while i < |all| && !(all[i] in clients && clients[all[i]].clientId == clientId)
        invariant 0 <= i <= |all|
        invariant FindById(clients, all[i..], clientId) == FindById(clients, all, clientId)
      {
        assert all[i..][1..] == all[i + 1..];
        i := i + 1;
      }
      if i == |all| {
        return ClientNotFound;
      }
      var u := all[i];
      var client := clients[u];
      if |client.activeJobs| >= Capacity(client) {
        return AtCapacity;
      }
      if jobId in jobs {
        jobs := jobs[jobId := J.Merge(jobs[jobId], J.Updates(Some(J.ONGOING), Some(u), Some(now), None))];
      }
      clients := clients[u := client.(activeJobs := client.activeJobs + [jobId])];
      return Assigned;
    }

    // The result names the chosen client whether or not the assignment then went through.
    method FindOptimalNode(jobId: string, listed: seq<string>, all: seq<string>, now: int) returns (r: Option<string>)
      modifies this
      ensures r == if jobId in old(jobs) then Choose(old(clients), listed) else None
      ensures r == None ==> clients == old(clients) && jobs == old(jobs)
      ensures r.Some? ==>
                && r.value in old(clients)
                && old(clients)[r.value].active && old(clients)[r.value].wsDisconnect == 0
                && clients == Apply(old(clients), Optimal(jobId, listed, all))
                && (AssignOutcome(old(clients), all, old(clients)[r.value].clientId) == Assigned ==>
                      var u := FindById(old(clients), all, old(clients)[r.value].clientId).value;
                      jobs == old(jobs)[jobId := J.Job(old(jobs)[jobId].creator, u, J.ONGOING, now, old(jobs)[jobId].reward)])
                && (AssignOutcome(old(clients), all, old(clients)[r.value].clientId) != Assigned ==>
                      jobs == old(jobs))
    {
      if jobId !in jobs {
        return None;
      }
      var available := Available(clients, listed);
      if available == [] {
        return None;
      }
      ChosenIsBest(clients, listed);
      available := Sort(clients, available);
      var optimal := available[0];
      var _ := AssignJobToClient(jobId, clients[optimal].clientId, all, now);
      return Some(optimal);
    }

    method UpdateClientCapacity(u: string, n: int) returns (ok: bool)
      modifies this`clients
      ensures ok <==> 1 <= n <= 10 && u in old(clients)
      ensures ok ==> clients == old(clients)[u := old(clients)[u].(maxConcurrentJobs := n)]
      ensures !ok ==> clients == old(clients)
      ensures clients == Apply(old(clients), SetCapacity(u, n))
    {
      if n < 1 || n > MAX_CAPACITY || u !in clients {
        return false;
      }
      clients := clients[u := clients[u].(maxConcurrentJobs := n)];
      return true;
    }
  }
}
