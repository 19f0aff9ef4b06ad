/** What the rewarding operations of the ledger pay, operation by operation: every reward that
  is recorded, every balance that rises, and that nothing else changes.
 */
module RewardLaws {
  import opened Wrappers
  import opened RedisSets
  import opened Points
  import opened ReferralConfig
  import opened RewardLedger
  import J = JobIndexes
  import C = ReferralCap

  // r is the referrer for that tier.
  predicate Sits(chain: seq<string>, level: int, r: string) {
    1 <= level <= |chain| && chain[level - 1] == r && r != ""
  }

  // r's share of the points, over all enabled tiers at which it sits.
  function SharesOf(tiers: seq<TierConfig>, chain: seq<string>, points: real, r: string): real {
    if tiers == [] then 0.0
    else
      var t := tiers[|tiers| - 1];
      SharesOf(tiers[..|tiers| - 1], chain, points, r)
      + (if t.enabled && Sits(chain, t.level, r) then Share(points, t.percentage) else 0.0)
  }

  // The reward is recorded, indexed and distributed; `exact` says that no other tier shares
  // its id.
  ghost predicate TierPaid(s: State, rid: RewardId, r: string, share: real, exact: bool) {
    && rid in s.rewards && rid in Members(s.rewardsBy, r)
    && s.rewards[rid].referrer == r && s.rewards[rid].status == C.DISTRIBUTED
    && (exact ==> Rounded(s.rewards[rid].amount, share))
  }

  // Every enabled tier with a referrer has its reward, and no other reward is new.
  ghost predicate RewardsOf(s: State, s': State, id: string, u: string, points: real, now: int, config: RewardConfig,
                            chain: seq<string>, tiers: seq<TierConfig>)
  {
    && (forall t, r :: t in tiers && t.enabled && Sits(chain, t.level, r) ==>
          TierPaid(s', TaskId(r, u, t.level, id, now), r, points * t.percentage / 100.0, Ordered(config.tiers)))
    && (forall rid :: rid in s.rewards ==> rid in s'.rewards)
    && (forall rid :: rid in s'.rewards ==>
          || (rid in s.rewards && s'.rewards[rid] == s.rewards[rid])
          || exists t, r :: t in tiers && t.enabled && Sits(chain, t.level, r) && rid == TaskId(r, u, t.level, id, now))
  }

  // A completed job: its worker is recorded and receives 0.012 points per second, every
  // enabled tier with a referrer adds a reward of its share, and nothing else is paid.
  ghost predicate CompletionPays(s: State, s': State, id: string, u: string, now: int, config: RewardConfig)
    requires id in s.store.jobs
  {
    var points := 0.012 * (now - s.store.jobs[id].assignedAt) as real / 1000.0;
    var chain := if u in s.chains then s.chains[u] else [];
    var tiers := if config.enabled then config.tiers else [];
    && s'.store.jobs == s.store.jobs[id := s.store.jobs[id].(state := J.COMPLETED, assignee := u, reward := points)]
    && RewardsOf(s, s', id, u, points, now, config, chain, tiers)
    && s'.balances.Keys == s.balances.Keys
    && (forall r :: r in s.balances ==>
          s'.balances[r] == s.balances[r] + (if r == u then points else 0.0) + SharesOf(tiers, chain, points, r))
    && s'.txs == s.txs && s'.chains == s.chains && s'.caps == s.caps
  }

  // ---------------------------------------------------------------- lists of grants

  function CreditTo(grants: seq<Grant>, r: string): real {
    if grants == [] then 0.0
    else CreditTo(grants[..|grants| - 1], r)
         + (if grants[|grants| - 1].id.referrer == r then Credited(grants[|grants| - 1]) else 0.0)
  }

  ghost predicate DistinctIds(grants: seq<Grant>) {
    forall i, j :: 0 <= i < j < |grants| ==> grants[i].id != grants[j].id
  }

  lemma {:induction false} GrantsCredit(s: State, grants: seq<Grant>, r: string)
    requires r in s.balances
    ensures r in GrantAll(s, grants).balances
    ensures GrantAll(s, grants).balances[r] == s.balances[r] + CreditTo(grants, r)
  {
    if grants != [] {
      GrantsCredit(s, grants[..|grants| - 1], r);
    }
  }

  lemma {:induction false} GrantsLeaveOthers(s: State, grants: seq<Grant>, rid: RewardId)
    requires forall i :: 0 <= i < |grants| ==> grants[i].id != rid
    ensures rid in GrantAll(s, grants).rewards <==> rid in s.rewards
    ensures rid in s.rewards ==> GrantAll(s, grants).rewards[rid] == s.rewards[rid]
  {
    if grants != [] {
      GrantsLeaveOthers(s, grants[..|grants| - 1], rid);
    }
  }

  // Each grant is recorded and indexed; a later one with the same id may replace it.
  lemma {:induction false} GrantIsRecorded(s: State, grants: seq<Grant>, k: nat, status: C.RewardStatus)
    requires k < |grants| && forall i :: 0 <= i < |grants| ==> grants[i].status == status
    ensures var s', g := GrantAll(s, grants), grants[k];
            && g.id in s'.rewards && g.id in Members(s'.rewardsBy, g.id.referrer)
            && s'.rewards[g.id].referrer == g.id.referrer && s'.rewards[g.id].status == status
            && (DistinctIds(grants) ==> s'.rewards[g.id].amount == g.amount)
  {
    if k < |grants| - 1 {
      GrantIsRecorded(s, grants[..|grants| - 1], k, status);
    }
  }

  // ---------------------------------------------------------------- the grants of one completed job

  lemma {:induction false} EnabledSnoc(tiers: seq<TierConfig>, t: TierConfig)
    ensures Enabled(tiers + [t]) == Enabled(tiers) + (if t.enabled then [t] else [])
  {
    if tiers == [] {
      assert [t][1..] == [];
    } else {
      assert (tiers + [t])[1..] == tiers[1..] + [t];
      EnabledSnoc(tiers[1..], t);
    }
  }

  lemma CreditSnoc(grants: seq<Grant>, g: Grant, r: string)
    ensures CreditTo(grants + [g], r) == CreditTo(grants, r) + (if g.id.referrer == r then Credited(g) else 0.0)
  {
    assert (grants + [g])[..|grants|] == grants;
  }

  lemma OneMoreTier(tiers: seq<TierConfig>, t: TierConfig, chain: seq<string>, referee: string, points: real,
                    jobId: string, now: int, r: string)
    ensures CreditTo(TaskGrants(tiers + [t], chain, referee, points, jobId, now), r) ==
            CreditTo(TaskGrants(tiers, chain, referee, points, jobId, now), r)
            + (if Sits(chain, t.level, r) then Share(points, t.percentage) else 0.0)
  {
    var before := TaskGrants(tiers, chain, referee, points, jobId, now);
    assert (tiers + [t])[..|tiers|] == tiers;
    match C.ReferrerAt(chain, t.level)
    case None =>
    case Some(q) =>
      CreditSnoc(before, Grant(TaskId(q, referee, t.level, jobId, now), Share(points, t.percentage), C.DISTRIBUTED), r);
  }

  lemma {:induction false} CreditIsShares(tiers: seq<TierConfig>, chain: seq<string>, referee: string, points: real,
                                          jobId: string, now: int, r: string)
    ensures CreditTo(TaskGrants(Enabled(tiers), chain, referee, points, jobId, now), r) ==
            SharesOf(tiers, chain, points, r)
  {
    if tiers != [] {
      var init, t := tiers[..|tiers| - 1], tiers[|tiers| - 1];
      assert tiers == init + [t];
      EnabledSnoc(init, t);
      CreditIsShares(init, chain, referee, points, jobId, now, r);
      if t.enabled {
        OneMoreTier(Enabled(init), t, chain, referee, points, jobId, now, r);
      } else {
        assert Enabled(init) + [] == Enabled(init);
      }
    }
  }

  lemma TaskGrantsAre(tiers: seq<TierConfig>, chain: seq<string>, referee: string, points: real,
                                         jobId: string, now: int)
    ensures var grants := TaskGrants(tiers, chain, referee, points, jobId, now);
            forall i :: 0 <= i < |grants| ==> grants[i].status == C.DISTRIBUTED && grants[i].id.TaskId?
  {
    var grants := TaskGrants(tiers, chain, referee, points, jobId, now);
    forall i | 0 <= i < |grants| ensures grants[i].status == C.DISTRIBUTED && grants[i].id.TaskId? {
      TaskGrantsExactly(tiers, chain, referee, points, jobId, now, grants[i]);
      assert grants[i] in grants;
    }
  }

  // The tier's grant, somewhere in the list.
  lemma TierIsGranted(tiers: seq<TierConfig>, chain: seq<string>, referee: string, points: real, jobId: string, now: int,
                      t: TierConfig, r: string) returns (k: nat)
    requires t in tiers && Sits(chain, t.level, r)
    ensures var grants := TaskGrants(tiers, chain, referee, points, jobId, now);
            && k < |grants|
            && grants[k] == Grant(TaskId(r, referee, t.level, jobId, now), Share(points, t.percentage), C.DISTRIBUTED)
  {
    var g := Grant(TaskId(r, referee, t.level, jobId, now), Share(points, t.percentage), C.DISTRIBUTED);
    TaskGrantsExactly(tiers, chain, referee, points, jobId, now, g);
    var grants := TaskGrants(tiers, chain, referee, points, jobId, now);
    assert g in grants;
    k :| 0 <= k < |grants| && grants[k] == g;
  }

  lemma GrantIsATier(tiers: seq<TierConfig>, chain: seq<string>, referee: string, points: real, jobId: string, now: int,
                     rid: RewardId)
    requires Among(TaskGrants(tiers, chain, referee, points, jobId, now), rid)
    ensures exists t, r :: t in tiers && Sits(chain, t.level, r) && rid == TaskId(r, referee, t.level, jobId, now)
  {
    var grants := TaskGrants(tiers, chain, referee, points, jobId, now);
    var i :| 0 <= i < |grants| && grants[i].id == rid;
    TaskGrantsExactly(tiers, chain, referee, points, jobId, now, grants[i]);
    assert grants[i] in grants;
    var k :| 0 <= k < |tiers| &&
             var t := tiers[k];
             && 1 <= t.level <= |chain| && chain[t.level - 1] != ""
             && grants[i] == Grant(TaskId(chain[t.level - 1], referee, t.level, jobId, now), Share(points, t.percentage),
                                   C.DISTRIBUTED);
    assert tiers[k] in tiers && Sits(chain, tiers[k].level, chain[tiers[k].level - 1]);
  }

  lemma OrderedGrantsAreDistinct(config: RewardConfig, chain: seq<string>, referee: string, points: real, jobId: string,
                                 now: int)
    requires Ordered(config.tiers)
    ensures DistinctIds(TaskGrants(EnabledTiers(config), chain, referee, points, jobId, now))
  {
    EnabledIsOrdered(config.tiers);
    var tiers := EnabledTiers(config);
    TaskGrantsAreOnePayment(tiers, chain, referee, points, jobId, now, LevelAbove(tiers));
  }

  // One grant of a list of distributed ones.
  lemma GrantIsPaid(s: State, grants: seq<Grant>, k: nat, x: real, exact: bool)
    requires k < |grants| && Rounded(grants[k].amount, x) && (exact ==> DistinctIds(grants))
    requires forall i :: 0 <= i < |grants| ==> grants[i].status == C.DISTRIBUTED
    ensures TierPaid(GrantAll(s, grants), grants[k].id, grants[k].id.referrer, x, exact)
  {
    GrantIsRecorded(s, grants, k, C.DISTRIBUTED);
  }

  // What one tier of a completed job leaves in the ledger.
  lemma TierIsPaid(s: State, config: RewardConfig, chain: seq<string>, referee: string, points: real, jobId: string,
                   now: int, t: TierConfig, r: string)
    requires t in EnabledTiers(config) && Sits(chain, t.level, r)
    ensures var s' := GrantAll(s, TaskGrants(EnabledTiers(config), chain, referee, points, jobId, now));
            TierPaid(s', TaskId(r, referee, t.level, jobId, now), r, points * t.percentage / 100.0, Ordered(config.tiers))
  {
    var tiers := EnabledTiers(config);
    TaskGrantsAre(tiers, chain, referee, points, jobId, now);
    var k := TierIsGranted(tiers, chain, referee, points, jobId, now, t, r);
    ShareIsRounded(points, t.percentage);
    if Ordered(config.tiers) {
      OrderedGrantsAreDistinct(config, chain, referee, points, jobId, now);
    }
    GrantIsPaid(s, TaskGrants(tiers, chain, referee, points, jobId, now), k, points * t.percentage / 100.0,
                Ordered(config.tiers));
  }

  // The rewards of a list that come from the tiers of one completed job.
  lemma OnlyTiersArePaid(s: State, config: RewardConfig, chain: seq<string>, u: string, points: real, id: string, now: int,
                         rid: RewardId)
    requires rid in GrantAll(s, TaskGrants(EnabledTiers(config), chain, u, points, id, now)).rewards
    ensures var s' := GrantAll(s, TaskGrants(EnabledTiers(config), chain, u, points, id, now));
            || (rid in s.rewards && s'.rewards[rid] == s.rewards[rid])
            || exists t, r :: t in EnabledTiers(config) && Sits(chain, t.level, r) && rid == TaskId(r, u, t.level, id, now)
  {
    var grants := TaskGrants(EnabledTiers(config), chain, u, points, id, now);
    if Among(grants, rid) {
      GrantIsATier(EnabledTiers(config), chain, u, points, id, now, rid);
    } else {
      GrantsLeaveOthers(s, grants, rid);
    }
  }

  lemma CompletePaysRewards(s: State, worked: State, id: string, u: string, points: real, now: int, config: RewardConfig)
    requires worked.rewards == s.rewards
    ensures var chain := Chain(s, u);
            var tiers := if config.enabled then config.tiers else [];
            var s' := GrantAll(worked, TaskGrants(EnabledTiers(config), chain, u, points, id, now));
            RewardsOf(s, s', id, u, points, now, config, chain, tiers)
  {
    var chain := Chain(s, u);
    var tiers := if config.enabled then config.tiers else [];
    var grants := TaskGrants(EnabledTiers(config), chain, u, points, id, now);
    var s' := GrantAll(worked, grants);
    GrantsFrame(worked, grants);
    forall t, r | t in tiers && t.enabled && Sits(chain, t.level, r)
      ensures TierPaid(s', TaskId(r, u, t.level, id, now), r, points * t.percentage / 100.0, Ordered(config.tiers))
    {
      TierIsPaid(worked, config, chain, u, points, id, now, t, r);
    }
    forall rid | rid in s'.rewards
      ensures (rid in s.rewards && s'.rewards[rid] == s.rewards[rid]) ||
              exists t, r :: t in tiers && t.enabled && Sits(chain, t.level, r) && rid == TaskId(r, u, t.level, id, now)
    {
      OnlyTiersArePaid(worked, config, chain, u, points, id, now, rid);
    }
  }

  lemma CompletePaysBalances(s: State, worked: State, id: string, u: string, points: real, now: int, config: RewardConfig,
                             r: string)
    requires r in s.balances && r in worked.balances
    requires worked.balances[r] == s.balances[r] + (if r == u then points else 0.0)
    ensures var chain := Chain(s, u);
            var tiers := if config.enabled then config.tiers else [];
            var s' := GrantAll(worked, TaskGrants(EnabledTiers(config), chain, u, points, id, now));
            && r in s'.balances
            && s'.balances[r] == s.balances[r] + (if r == u then points else 0.0) + SharesOf(tiers, chain, points, r)
  {
    var chain := Chain(s, u);
    GrantsCredit(worked, TaskGrants(EnabledTiers(config), chain, u, points, id, now), r);
    CreditIsShares(if config.enabled then config.tiers else [], chain, u, points, id, now, r);
  }

  lemma CompletePays(s: State, id: string, u: string, now: int, config: RewardConfig)
    requires u in s.balances && id in s.store.jobs
    ensures CompletionPays(s, Apply(s, CompleteJob(id, u, now, config)), id, u, now, config)
  {
    var points := JobReward(s.store.jobs[id].assignedAt, now);
    var worked := PayWork(s, id, u, points);
    GrantsFrame(worked, TaskGrants(EnabledTiers(config), Chain(s, u), u, points, id, now));
    CompletePaysRewards(s, worked, id, u, points, now, config);
    forall r | r in s.balances
      ensures var tiers := if config.enabled then config.tiers else [];
              var s' := GrantAll(worked, TaskGrants(EnabledTiers(config), Chain(s, u), u, points, id, now));
              && r in s'.balances
              && s'.balances[r] == s.balances[r] + (if r == u then points else 0.0) + SharesOf(tiers, Chain(s, u), points, r)
    {
      CompletePaysBalances(s, worked, id, u, points, now, config, r);
    }
  }

  // ---------------------------------------------------------------- referral rewards for uptime

  // What a list of uptime rewards brings to one referrer.
  function DistributedTo(rewards: seq<C.Reward>, r: string): real {
    if rewards == [] then 0.0
    else
      var last := rewards[|rewards| - 1];
      DistributedTo(rewards[..|rewards| - 1], r)
      + (if last.key.referrer == r && last.status == C.DISTRIBUTED then last.amount else 0.0)
  }

  // An uptime payment to a referee: the capped rewards for its stored chain are recorded and
  // indexed, those that are distributed are paid to their referrers, and nothing else is.
  ghost predicate ReferralPays(s: State, s': State, op: C.Op, now: int) {
    var chain := if op.referee in s.chains then Some(s.chains[op.referee]) else None;
    var capped := C.Apply(C.State(s.caps, []), op.(chain := chain));
    && s'.caps == capped.caps
    && (forall w :: w in capped.rewards ==>
          var rid := UptimeId(w.key.referrer, op.referee, w.tier, now);
          && rid in s'.rewards && s'.rewards[rid] == Reward(w.key.referrer, w.amount, w.status)
          && rid in Members(s'.rewardsBy, w.key.referrer))
    && (forall rid :: rid in s.rewards ==> rid in s'.rewards)
    && (forall rid :: rid in s'.rewards ==>
          || (rid in s.rewards && s'.rewards[rid] == s.rewards[rid])
          || exists w :: w in capped.rewards && rid == UptimeId(w.key.referrer, op.referee, w.tier, now))
    && s'.balances.Keys == s.balances.Keys
    && (forall r :: r in s.balances ==> s'.balances[r] == s.balances[r] + DistributedTo(capped.rewards, r))
    && s'.store == s.store && s'.txs == s.txs && s'.chains == s.chains
  }

  lemma {:induction false} DistinctGrantIsRecorded(s: State, grants: seq<Grant>, k: nat)
    requires k < |grants| && DistinctIds(grants)
    ensures var s', g := GrantAll(s, grants), grants[k];
            && g.id in s'.rewards && s'.rewards[g.id] == Reward(g.id.referrer, g.amount, g.status)
            && g.id in Members(s'.rewardsBy, g.id.referrer)
  {
    if k < |grants| - 1 {
      DistinctGrantIsRecorded(s, grants[..|grants| - 1], k);
    }
  }

  lemma {:induction false} CreditIsDistributed(rewards: seq<C.Reward>, now: int, r: string)
    requires forall i :: 0 <= i < |rewards| ==> 0.0 <= rewards[i].amount
    ensures CreditTo(UptimeGrants(rewards, now), r) == DistributedTo(rewards, r)
  {
    if rewards != [] {
      var init := rewards[..|rewards| - 1];
      CreditIsDistributed(init, now, r);
      assert UptimeGrants(rewards, now)[..|init|] == UptimeGrants(init, now);
    }
  }

  // One payment of capped rewards: for one referee, in strictly rising tiers, nothing negative.
  lemma CappedRewardsAre(s: State, op: C.Op) returns (above: int)
    requires C.Admissible(op) && Ordered(op.config.tiers)
    ensures C.OnePayment(PaidUptime(s, op).rewards, Chain(s, op.referee), op.referee, above)
  {
    EnabledIsOrdered(op.config.tiers);
    var tiers := EnabledTiers(op.config);
    above := LevelAbove(tiers);
    C.DistributeTiersIsOnePayment(s.caps, tiers, Chain(s, op.referee), op.referee, op.points, op.month,
                                  DefaultCap(op.config), above);
  }

  lemma UptimeRewardsAreRecorded(s: State, rewards: seq<C.Reward>, referee: string, now: int, chain: seq<string>, above: int)
    requires C.OnePayment(rewards, chain, referee, above)
    ensures var s' := GrantAll(s, UptimeGrants(rewards, now));
            && (forall w :: w in rewards ==>
                  var rid := UptimeId(w.key.referrer, referee, w.tier, now);
                  && rid in s'.rewards && s'.rewards[rid] == Reward(w.key.referrer, w.amount, w.status)
                  && rid in Members(s'.rewardsBy, w.key.referrer))
            && (forall rid :: rid in s'.rewards ==>
                  || (rid in s.rewards && s'.rewards[rid] == s.rewards[rid])
                  || exists w :: w in rewards && rid == UptimeId(w.key.referrer, referee, w.tier, now))
  {
    var grants := UptimeGrants(rewards, now);
    var s' := GrantAll(s, grants);
    forall w | w in rewards
      ensures var rid := UptimeId(w.key.referrer, referee, w.tier, now);
              && rid in s'.rewards && s'.rewards[rid] == Reward(w.key.referrer, w.amount, w.status)
              && rid in Members(s'.rewardsBy, w.key.referrer)
    {
      var k :| 0 <= k < |rewards| && rewards[k] == w;
      DistinctGrantIsRecorded(s, grants, k);
    }
    forall rid | rid in s'.rewards
      ensures (rid in s.rewards && s'.rewards[rid] == s.rewards[rid]) ||
              exists w :: w in rewards && rid == UptimeId(w.key.referrer, referee, w.tier, now)
    {
      if i :| 0 <= i < |grants| && grants[i].id == rid {
        assert rewards[i] in rewards;
      } else {
        GrantsLeaveOthers(s, grants, rid);
      }
    }
  }

  lemma PayReferralPays(s: State, op: C.Op, now: int)
    requires C.Admissible(op) && Ordered(op.config.tiers)
    ensures ReferralPays(s, Apply(s, PayReferralUptime(op, now)), op, now)
  {
    var above := CappedRewardsAre(s, op);
    var capped := PaidUptime(s, op);
    var mid := s.(caps := capped.caps);
    UptimeRewardsAreRecorded(mid, capped.rewards, op.referee, now, Chain(s, op.referee), above);
    var grants := UptimeGrants(capped.rewards, now);
    GrantsFrame(mid, grants);
    forall r | r in s.balances
      ensures var s' := GrantAll(mid, grants);
              r in s'.balances && s'.balances[r] == s.balances[r] + DistributedTo(capped.rewards, r)
    {
      GrantsCredit(mid, grants, r);
      CreditIsDistributed(capped.rewards, now, r);
    }
  }

  // ---------------------------------------------------------------- single payments

  // An installation reward: 500 points to the parent, recorded, indexed and paid.
  lemma PayInstallationPays(s: State, referee: string, now: int)
    ensures var s' := Apply(s, PayInstallation(referee, now));
            if referee in s.chains && s.chains[referee] != [] then
              var parent := s.chains[referee][0];
              var rid := InstallId(parent, referee, now);
              && s'.rewards == s.rewards[rid := Reward(parent, 500.0, C.DISTRIBUTED)]
              && rid in Members(s'.rewardsBy, parent)
              && s'.balances.Keys == s.balances.Keys
              && (forall r :: r in s.balances ==> s'.balances[r] == s.balances[r] + if r == parent then 500.0 else 0.0)
              && s'.store == s.store && s'.txs == s.txs && s'.chains == s.chains && s'.caps == s.caps
            else s' == s
  {
  }

  // An uptime payment is recorded with its outcome, and paid exactly if it is confirmed.
  lemma PayUptimePays(s: State, txId: string, u: string, amount: real, confirmed: bool)
    ensures var s' := Apply(s, PayUptime(txId, u, amount, confirmed));
            && s'.txs == s.txs[txId := Tx(u, amount, confirmed)]
            && s'.balances.Keys == s.balances.Keys
            && (forall r :: r in s.balances ==> s'.balances[r] == s.balances[r] + if r == u && confirmed then amount else 0.0)
            && s'.store == s.store && s'.rewards == s.rewards && s'.chains == s.chains && s'.caps == s.caps
  {
  }

  // ---------------------------------------------------------------- everything else

  // A login opens an empty balance for a new client, and touches no balance there is.
  lemma LoginPaysNothing(s: State, u: string)
    ensures var s' := Apply(s, Login(u));
            && s'.balances.Keys == s.balances.Keys + {u}
            && s' == s.(balances := s'.balances)
            && forall r :: r in s'.balances ==> s'.balances[r] == if r in s.balances then s.balances[r] else 0.0
  {
  }

  // A referral stores the chain of a user that has none.
  lemma ReferralPaysNothing(s: State, u: string, chain: seq<string>)
    ensures var s' := Apply(s, Refer(u, chain));
            && s'.chains.Keys == s.chains.Keys + {u}
            && s' == s.(chains := s'.chains)
            && forall v :: v in s'.chains ==> s'.chains[v] == if v in s.chains then s.chains[v] else chain
  {
  }

  // A job goes from pending to its assignee; neither moves a balance.
  lemma StartingPaysNothing(s: State, id: string, u: string, now: int)
    ensures var s' := Apply(s, AddJob(id, u, now));
            s' == s.(store := s'.store) && s'.store.jobs == s.store.jobs[id := J.Job(u, "", J.PENDING, now, 0.0)]
    ensures var s' := Apply(s, AssignJob(id, u, now));
            && s' == s.(store := s'.store)
            && s'.store.jobs == if u in s.balances && id in s.store.jobs
                                then s.store.jobs[id := s.store.jobs[id].(assignee := u, state := J.ONGOING, assignedAt := now)]
                                else s.store.jobs
  {
  }

  // A failed job is worth nothing and a deleted one is gone; neither moves a balance.
  lemma FailingPaysNothing(s: State, id: string)
    ensures var s' := Apply(s, FailJob(id));
            && s' == s.(store := s'.store)
            && s'.store.jobs == if id in s.store.jobs
                                then s.store.jobs[id := s.store.jobs[id].(state := J.FAILED, reward := 0.0)] else s.store.jobs
    ensures var s' := Apply(s, DeleteJob(id));
            s' == s.(store := s'.store) && s'.store.jobs == s.store.jobs - {id}
  {
  }
}
