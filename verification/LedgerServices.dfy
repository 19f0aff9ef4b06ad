/** The methods that write and reconcile balances, on the stored records. */
module LedgerServices {
  import opened Wrappers
  import opened RedisSets
  import opened Sums
  import opened Points
  import opened ReferralConfig
  import opened RewardLedger
  import opened RewardLaws
  import opened JobLists
  import A = Assignment
  import J = JobIndexes
  import C = ReferralCap

  function Amounts(grants: seq<Grant>): real {
    if grants == [] then 0.0 else Amounts(grants[..|grants| - 1]) + grants[|grants| - 1].amount
  }

  lemma {:induction false} NoChainNoGrants(tiers: seq<TierConfig>, referee: string, points: real, jobId: string, now: int)
    ensures TaskGrants(tiers, [], referee, points, jobId, now) == []
  {
    if tiers != [] {
      NoChainNoGrants(tiers[..|tiers| - 1], referee, points, jobId, now);
    }
  }

  lemma NextTier(tiers: seq<TierConfig>, i: nat, chain: seq<string>, referee: string, points: real, jobId: string, now: int)
    requires i < |tiers|
    ensures var before := TaskGrants(tiers[..i], chain, referee, points, jobId, now);
            TaskGrants(tiers[..i + 1], chain, referee, points, jobId, now) ==
            match C.ReferrerAt(chain, tiers[i].level)
            case None => before
            case Some(r) =>
              before + [Grant(TaskId(r, referee, tiers[i].level, jobId, now), Share(points, tiers[i].percentage), C.DISTRIBUTED)]
  {
    assert tiers[..i + 1][..i] == tiers[..i];
  }

  lemma OneMoreGrant(s: State, grants: seq<Grant>, g: Grant)
    ensures GrantAll(s, grants + [g]) == GrantOne(GrantAll(s, grants), g)
    ensures Amounts(grants + [g]) == Amounts(grants) + g.amount
  {
    assert (grants + [g])[..|grants|] == grants;
  }

  class Ledger {
    const db: J.JobDatabase
    // A client's record, in two parts: its balance, and its client id and active jobs.
    var balances: map<string, real>
    var clients: A.Clients
    var txs: map<string, Tx>
    var rewards: map<RewardId, Reward>
    var rewardsBy: map<string, set<RewardId>>
    var chains: map<string, seq<string>>
    var caps: map<C.Key, C.Cap>

    ghost predicate Valid()
      reads this
    {
      clients.Keys == balances.Keys
    }

    ghost function View(): State
      reads this, db
    {
      State(balances, db.View(), txs, rewards, rewardsBy, chains, caps)
    }

    constructor ()
      ensures Valid() && View() == EMPTY && fresh(db)
    {
      db := new J.JobDatabase();
      balances, clients, txs, rewards, rewardsBy, chains, caps := map[], map[], map[], map[], map[], map[], map[];
    }

    // getClient, then updateClient with the sum.
    method UpdateUserBalance(u: string, amount: real)
      modifies this`balances
      ensures balances.Keys == old(balances).Keys
      ensures balances == if u in old(balances) then old(balances)[u := old(balances)[u] + amount] else old(balances)
    {
      if u in balances {
        balances := balances[u := balances[u] + amount];
      }
    }

    method DistributeTaskReward(referrer: string, referee: string, points: real, jobId: string, tier: int,
                                percentage: real, now: int)
      returns (amount: real)
      modifies this`rewards, this`rewardsBy, this`balances
      ensures balances.Keys == old(balances).Keys
      ensures amount == Share(points, percentage)
      ensures View() == GrantOne(old(View()), Grant(TaskId(referrer, referee, tier, jobId, now), amount, C.DISTRIBUTED))
    {
      amount := Share(points, percentage);
      var id := TaskId(referrer, referee, tier, jobId, now);
      rewards := rewards[id := Reward(referrer, amount, C.DISTRIBUTED)];
      rewardsBy := SAdd(rewardsBy, referrer, id);
      UpdateUserBalance(referrer, amount);
    }

    method CalculateTaskReward(referee: string, points: real, jobId: string, now: int, config: RewardConfig)
      returns (total: real)
      modifies this`rewards, this`rewardsBy, this`balances
      ensures balances.Keys == old(balances).Keys
      ensures var grants := TaskGrants(EnabledTiers(config), Chain(old(View()), referee), referee, points, jobId, now);
              View() == GrantAll(old(View()), grants) && total == Amounts(grants)
      ensures referee !in chains || !config.enabled ==> total == 0.0 && View() == old(View())
    {
      total := 0.0;
      var tiers := EnabledTiers(config);
      if referee !in chains {
        NoChainNoGrants(tiers, referee, points, jobId, now);
        return;
      }
      var chain := chains[referee];
      for i := 0 to |tiers|
        invariant View() == GrantAll(old(View()), TaskGrants(tiers[..i], chain, referee, points, jobId, now))
        invariant balances.Keys == old(balances).Keys
        invariant total == Amounts(TaskGrants(tiers[..i], chain, referee, points, jobId, now))
      {
        NextTier(tiers, i, chain, referee, points, jobId, now);
        var referrer := C.ReferrerAt(chain, tiers[i].level);
        if referrer.Some? {
          ghost var before := TaskGrants(tiers[..i], chain, referee, points, jobId, now);
          var amount := DistributeTaskReward(referrer.value, referee, points, jobId, tiers[i].level,
                                             tiers[i].percentage, now);
          OneMoreGrant(old(View()), before,
                       Grant(TaskId(referrer.value, referee, tiers[i].level, jobId, now), amount, C.DISTRIBUTED));
          total := total + amount;
        }
      }
      assert tiers[..|tiers|] == tiers;
    }

    // The client is the first in the enumeration with that id.
    method UpdateJobCompleted(jobId: string, clientId: string, all: seq<string>, now: int, config: RewardConfig)
      returns (r: Result<real, string>)
      requires Valid()
      modifies this, db
      ensures Valid()
      ensures match A.FindById(old(clients), all, clientId)
              case None => r == Failure("Client not found") && View() == old(View()) && clients == old(clients)
              case Some(u) =>
                && View() == Apply(old(View()), CompleteJob(jobId, u, now, config))
                && if jobId !in old(db.jobs) then
                     r == Failure("Job not found") && View() == old(View()) && clients == old(clients)
                   else
                     && r == Success(0.012 * (now - old(db.jobs)[jobId].assignedAt) as real / 1000.0)
                     && CompletionPays(old(View()), View(), jobId, u, now, config)
                     && clients == old(clients)[u := old(clients)[u].(activeJobs := Without(old(clients)[u].activeJobs, {jobId}))]
    {
      var i := 0;
      assert all[0..] == all;
      while i < |all| && !(all[i] in clients && clients[all[i]].clientId == clientId)
        invariant 0 <= i <= |all|
        invariant A.FindById(clients, all[i..], clientId) == A.FindById(clients, all, clientId)
      {
        assert all[i..][1..] == all[i + 1..];
        i := i + 1;
      }
      if i == |all| {
        return Failure("Client not found");
      }
      r := RecordCompletion(jobId, all[i], now, config);
    }

    // The rest, for the client that was found.
    method RecordCompletion(jobId: string, u: string, now: int, config: RewardConfig) returns (r: Result<real, string>)
      requires Valid() && u in clients
      modifies this, db
      ensures Valid()
      ensures View() == Apply(old(View()), CompleteJob(jobId, u, now, config))
      ensures jobId !in old(db.jobs) ==> r == Failure("Job not found") && View() == old(View()) && clients == old(clients)
      ensures jobId in old(db.jobs) ==>
                && r == Success(0.012 * (now - old(db.jobs)[jobId].assignedAt) as real / 1000.0)
                && CompletionPays(old(View()), View(), jobId, u, now, config)
                && clients == old(clients)[u := old(clients)[u].(activeJobs := Without(old(clients)[u].activeJobs, {jobId}))]
    {
      if jobId !in db.jobs {
        return Failure("Job not found");
      }
      CompletePays(View(), jobId, u, now, config);
      var rewardPoints := RecordWorkAndReferrals(jobId, u, now, config);
      return Success(rewardPoints);
    }

    // First the work, then the rewards of the referrers.
    method RecordWorkAndReferrals(jobId: string, u: string, now: int, config: RewardConfig) returns (rewardPoints: real)
      requires Valid() && u in clients && jobId in db.jobs
      modifies this, db
      ensures Valid() && View() == Apply(old(View()), CompleteJob(jobId, u, now, config))
      ensures rewardPoints == 0.012 * (now - old(db.jobs)[jobId].assignedAt) as real / 1000.0
      ensures clients == old(clients)[u := old(clients)[u].(activeJobs := Without(old(clients)[u].activeJobs, {jobId}))]
    {
      rewardPoints := JobReward(db.jobs[jobId].assignedAt, now);
      RecordWork(jobId, u, rewardPoints);
      var _ := CalculateTaskReward(u, rewardPoints, jobId, now, config);
    }

    // The job record, the client's list and its balance.
    method RecordWork(jobId: string, u: string, rewardPoints: real)
      requires Valid() && u in clients
      modifies this`clients, this`balances, db
      ensures Valid() && View() == PayWork(old(View()), jobId, u, rewardPoints)
      ensures clients == old(clients)[u := old(clients)[u].(activeJobs := Without(old(clients)[u].activeJobs, {jobId}))]
    {
      var _ := db.UpdateJob(jobId, J.Updates(Some(J.COMPLETED), Some(u), None, Some(rewardPoints)));
      clients := clients[u := clients[u].(activeJobs := Without(clients[u].activeJobs, {jobId}))];
      UpdateUserBalance(u, rewardPoints);
    }

    // The transaction is stored as pending, sent, and stored again with its outcome.
    method PayUptimeReward(txId: string, u: string, amount: real, sent: bool)
      modifies this`txs, this`balances
      ensures View() == Apply(old(View()), PayUptime(txId, u, amount, sent))
    {
      txs := txs[txId := Tx(u, amount, false)];
      if sent {
        txs := txs[txId := Tx(u, amount, true)];
        UpdateUserBalance(u, amount);
      }
      assert txs == old(txs)[txId := Tx(u, amount, sent)];
    }

    // ---------------------------------------------------------------- reconciliation

    method JobRewards(u: string) returns (sum: real)
      ensures sum == MapSum(IndexedJobs(db.View(), u))
    {
      sum := 0.0;
      ghost var all := IndexedJobs(db.View(), u);
      var todo := Members(db.jobsByUser, u);
      assert all - todo == map[];
      while todo != {}
        invariant sum == MapSum(all - todo)
        invariant todo <= Members(db.jobsByUser, u)
        decreases todo
      {
        var id :| id in todo;
        SumTakes(all, todo, id);
        todo := todo - {id};
        if id in db.jobs && db.jobs[id].state == J.COMPLETED {
          sum := sum + db.jobs[id].reward;
        }
      }
      assert all - todo == all;
    }

    method UptimeRewards(u: string) returns (sum: real)
      ensures sum == MapSum(OwnTxs(txs, u))
    {
      sum := 0.0;
      ghost var all := OwnTxs(txs, u);
      var todo := txs.Keys;
      assert all - todo == map[];
      while todo != {}
        invariant sum == MapSum(all - todo)
        invariant todo <= txs.Keys
        decreases todo
      {
        var txId :| txId in todo;
        SumTakes(all, todo, txId);
        todo := todo - {txId};
        if txs[txId].user == u && txs[txId].confirmed {
          sum := sum + txs[txId].amount;
        }
      }
      assert all - todo == all;
    }

    method ReferralRewards(u: string) returns (sum: real)
      ensures sum == MapSum(IndexedRewards(View(), u))
    {
      sum := 0.0;
      ghost var all := IndexedRewards(View(), u);
      var todo := Members(rewardsBy, u);
      assert all - todo == map[];
      while todo != {}
        invariant sum == MapSum(all - todo)
        invariant todo <= Members(rewardsBy, u)
        decreases todo
      {
        var id :| id in todo;
        SumTakes(all, todo, id);
        todo := todo - {id};
        if id in rewards && rewards[id].status == C.DISTRIBUTED {
          sum := sum + rewards[id].amount;
        }
      }
      assert all - todo == all;
    }

    method CalculateExpectedBalance(u: string) returns (total: real)
      ensures total == Expected(View(), u)
    {
      var jobRewards := JobRewards(u);
      var uptimeRewards := UptimeRewards(u);
      var referralRewards := ReferralRewards(u);
      return jobRewards + uptimeRewards + referralRewards;
    }

    // None when the client is unknown or the difference is insignificant.
    method CheckUserDiscrepancy(u: string, truth: Option<real>) returns (missing: Option<real>)
      ensures u !in balances ==> missing == None
      ensures u in balances ==>
                var short := (if truth.Some? then truth.value else Expected(View(), u)) - balances[u];
                missing == if -0.01 < short < 0.01 then None else Some(short)
    {
      if u !in balances {
        return None;
      }
      var expectedBalance := CalculateExpectedBalance(u);
      if truth.Some? {
        expectedBalance := truth.value;
      }
      var missingBalance := expectedBalance - balances[u];
      return if -0.01 < missingBalance < 0.01 then None else Some(missingBalance);
    }

    // One client of the loop, with compensation applied and no blockchain to ask.
    method CompensateClient(u: string)
      modifies this`balances
      ensures View() == Repair(old(View()), u, None)
    {
      var missing := CheckUserDiscrepancy(u, None);
      if missing.Some? && missing.value > 0.01 {
        UpdateUserBalance(u, missing.value);
      }
    }

    method CompensateClients(users: seq<string>)
      modifies this`balances
      ensures View() == RepairEach(old(View()), users)
    {
      for i := 0 to |users|
        invariant View() == RepairEach(old(View()), users[..i])
      {
        assert users[..i + 1][..i] == users[..i];
        CompensateClient(users[i]);
      }
      assert users[..|users|] == users;
    }
  }
}
