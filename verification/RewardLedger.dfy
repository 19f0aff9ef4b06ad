/** Stored balances against the ledger that the reconciliation script recomputes.

  Every service method is one step. Amounts are reals.
 */
module RewardLedger {
  import opened Wrappers
  import opened RedisSets
  import opened Sums
  import opened Points
  import opened ReferralConfig
  import J = JobIndexes
  import C = ReferralCap

  const INSTALLATION_REWARD: real := 500.0

  // The parts that the reward ids of the source are made of.
  datatype RewardId =
    | TaskId(referrer: string, referee: string, tier: int, jobId: string, now: int)
    | UptimeId(referrer: string, referee: string, tier: int, now: int)
    | InstallId(referrer: string, referee: string, now: int)

  datatype Reward = Reward(referrer: string, amount: real, status: C.RewardStatus)

  datatype Tx = Tx(user: string, amount: real, confirmed: bool)

  // `balances` has the clients for keys; `chains` are the stored referrer chains.
  datatype State = State(
    balances: map<string, real>, store: J.Store, txs: map<string, Tx>,
    rewards: map<RewardId, Reward>, rewardsBy: map<string, set<RewardId>>,
    chains: map<string, seq<string>>, caps: map<C.Key, C.Cap>)

  const EMPTY := State(map[], J.EMPTY, map[], map[], map[], map[], map[])

  // ---------------------------------------------------------------- granting rewards

  datatype Grant = Grant(id: RewardId, amount: real, status: C.RewardStatus)

  // Task and installation rewards are always added to the balance, uptime rewards only
  // when distributed and positive.
  function Credited(g: Grant): real {
    if g.id.UptimeId? && !(g.status == C.DISTRIBUTED && g.amount > 0.0) then 0.0 else g.amount
  }

  function GrantOne(s: State, g: Grant): State {
    s.(rewards := s.rewards[g.id := Reward(g.id.referrer, g.amount, g.status)],
       rewardsBy := SAdd(s.rewardsBy, g.id.referrer, g.id),
       balances := if g.id.referrer in s.balances
                   then s.balances[g.id.referrer := s.balances[g.id.referrer] + Credited(g)] else s.balances)
  }

  function GrantAll(s: State, grants: seq<Grant>): State {
    if grants == [] then s else GrantOne(GrantAll(s, grants[..|grants| - 1]), grants[|grants| - 1])
  }

  // The rewards of calculateTaskReward, tier by tier.
  function TaskGrants(tiers: seq<TierConfig>, chain: seq<string>, referee: string, points: real, jobId: string, now: int)
    : seq<Grant>
  {
    if tiers == [] then []
    else
      var t := tiers[|tiers| - 1];
      var before := TaskGrants(tiers[..|tiers| - 1], chain, referee, points, jobId, now);
      match C.ReferrerAt(chain, t.level)
      case None => before
      case Some(r) => before + [Grant(TaskId(r, referee, t.level, jobId, now), Share(points, t.percentage), C.DISTRIBUTED)]
  }

  function UptimeGrants(rewards: seq<C.Reward>, now: int): seq<Grant> {
    seq(|rewards|, i requires 0 <= i < |rewards| =>
      Grant(UptimeId(rewards[i].key.referrer, rewards[i].referee, rewards[i].tier, now), rewards[i].amount, rewards[i].status))
  }

  // ---------------------------------------------------------------- steps

  function JobReward(assignedAt: int, now: int): real { 0.012 * ((now - assignedAt) as real / 1000.0) }

  function Chain(s: State, referee: string): seq<string> {
    if referee in s.chains then s.chains[referee] else []
  }

  // The record and the worker's own balance.
  function PayWork(s: State, id: string, u: string, reward: real): State
    requires u in s.balances
  {
    s.(store := J.StepUpdate(s.store, id, J.Updates(Some(J.COMPLETED), Some(u), None, Some(reward))),
       balances := s.balances[u := s.balances[u] + reward])
  }

  function Complete(s: State, id: string, u: string, now: int, config: RewardConfig): State {
    if u !in s.balances || id !in s.store.jobs then s
    else
      var reward := JobReward(s.store.jobs[id].assignedAt, now);
      GrantAll(PayWork(s, id, u, reward), TaskGrants(EnabledTiers(config), Chain(s, u), u, reward, id, now))
  }

  function PayTx(s: State, txId: string, u: string, amount: real, confirmed: bool): State {
    s.(txs := s.txs[txId := Tx(u, amount, confirmed)],
       balances := if confirmed && u in s.balances then s.balances[u := s.balances[u] + amount] else s.balances)
  }

  // Each enabled tier with a referrer in the chain grants its share, and nothing else is
  // granted.
  lemma {:induction false} TaskGrantsExactly(tiers: seq<TierConfig>, chain: seq<string>, referee: string, points: real,
                                             jobId: string, now: int, g: Grant)
    ensures g in TaskGrants(tiers, chain, referee, points, jobId, now) <==>
            exists i :: 0 <= i < |tiers| &&
              var t := tiers[i];
              && 1 <= t.level <= |chain| && chain[t.level - 1] != ""
              && g == Grant(TaskId(chain[t.level - 1], referee, t.level, jobId, now), Share(points, t.percentage), C.DISTRIBUTED)
  {
    if tiers != [] {
      var init := tiers[..|tiers| - 1];
      TaskGrantsExactly(init, chain, referee, points, jobId, now, g);
      assert forall i :: 0 <= i < |init| ==> init[i] == tiers[i];
    }
  }

  // What calculateUptimeReward distributes for the stored chain.
  function PaidUptime(s: State, uptime: C.Op): C.State {
    C.Apply(C.State(s.caps, []), uptime.(chain := if uptime.referee in s.chains then Some(s.chains[uptime.referee]) else None))
  }

  function PayReferral(s: State, op: C.Op, now: int): State {
    var cs := PaidUptime(s, op);
    GrantAll(s.(caps := cs.caps), UptimeGrants(cs.rewards, now))
  }

  function PayInstall(s: State, referee: string, now: int): State {
    if referee !in s.chains || s.chains[referee] == [] then s
    else GrantOne(s, Grant(InstallId(s.chains[referee][0], referee, now), INSTALLATION_REWARD, C.DISTRIBUTED))
  }

  datatype Op =
    | Login(u: string)
    | Refer(u: string, chain: seq<string>)
    | AddJob(id: string, creator: string, now: int)
    | AssignJob(id: string, u: string, now: int)
    | CompleteJob(id: string, u: string, now: int, config: RewardConfig)
    | FailJob(id: string)
    | DeleteJob(id: string)
    | PayUptime(txId: string, u: string, amount: real, confirmed: bool)
    | PayReferralUptime(uptime: C.Op, now: int)
    | PayInstallation(referee: string, now: int)

  function Apply(s: State, op: Op): State {
    match op
    case Login(u) => if u in s.balances then s else s.(balances := s.balances[u := 0.0])
    case Refer(u, chain) => if u in s.chains then s else s.(chains := s.chains[u := chain])
    case AddJob(id, creator, now) => s.(store := J.StepCreate(s.store, id, J.Job(creator, "", J.PENDING, now, 0.0)))
    case AssignJob(id, u, now) =>
      if u in s.balances
      then s.(store := J.StepUpdate(s.store, id, J.Updates(Some(J.ONGOING), Some(u), Some(now), None))) else s
    case CompleteJob(id, u, now, config) => Complete(s, id, u, now, config)
    case FailJob(id) => s.(store := J.StepUpdate(s.store, id, J.Updates(Some(J.FAILED), None, None, Some(0.0))))
    case DeleteJob(id) => s.(store := J.StepDelete(s.store, id))
    case PayUptime(txId, u, amount, confirmed) => PayTx(s, txId, u, amount, confirmed)
    case PayReferralUptime(uptime, now) => PayReferral(s, uptime, now)
    case PayInstallation(referee, now) => PayInstall(s, referee, now)
  }

  // ---------------------------------------------------------------- what a user is due

  function Worked(job: J.Job, u: string): real {
    if job.state == J.COMPLETED && job.assignee == u then job.reward else 0.0
  }

  ghost function OwnJobs(jobs: map<string, J.Job>, u: string): map<string, real> {
    map id | id in jobs :: Worked(jobs[id], u)
  }

  ghost function OwnTxs(txs: map<string, Tx>, u: string): map<string, real> {
    map t | t in txs :: if txs[t].user == u && txs[t].confirmed then txs[t].amount else 0.0
  }

  function Received(r: Reward, u: string): real {
    if r.referrer == u && r.status == C.DISTRIBUTED then r.amount else 0.0
  }

  ghost function OwnRewards(rewards: map<RewardId, Reward>, u: string): map<RewardId, real> {
    map r | r in rewards :: Received(rewards[r], u)
  }

  ghost function Due(s: State, u: string): real {
    MapSum(OwnJobs(s.store.jobs, u)) + MapSum(OwnTxs(s.txs, u)) + MapSum(OwnRewards(s.rewards, u))
  }

  function Balance(s: State, u: string): real {
    if u in s.balances then s.balances[u] else 0.0
  }

  ghost function Gap(s: State, u: string): real { Balance(s, u) - Due(s, u) }

  // ---------------------------------------------------------------- how steps move the gap

  lemma JobChanges(jobs: map<string, J.Job>, id: string, job: J.Job, u: string)
    ensures MapSum(OwnJobs(jobs[id := job], u)) ==
            MapSum(OwnJobs(jobs, u)) - (if id in jobs then Worked(jobs[id], u) else 0.0) + Worked(job, u)
  {
    assert OwnJobs(jobs[id := job], u) == OwnJobs(jobs, u)[id := Worked(job, u)];
    SumUpdate(OwnJobs(jobs, u), id, Worked(job, u));
  }

  lemma JobGoes(jobs: map<string, J.Job>, id: string, u: string)
    ensures MapSum(OwnJobs(jobs - {id}, u)) == MapSum(OwnJobs(jobs, u)) - (if id in jobs then Worked(jobs[id], u) else 0.0)
  {
    assert OwnJobs(jobs - {id}, u) == OwnJobs(jobs, u) - {id};
    SumRemove(OwnJobs(jobs, u), id);
  }

  lemma TxArrives(txs: map<string, Tx>, txId: string, tx: Tx, u: string)
    requires txId !in txs
    ensures MapSum(OwnTxs(txs[txId := tx], u)) ==
            MapSum(OwnTxs(txs, u)) + (if tx.user == u && tx.confirmed then tx.amount else 0.0)
  {
    var amount := if tx.user == u && tx.confirmed then tx.amount else 0.0;
    assert OwnTxs(txs[txId := tx], u) == OwnTxs(txs, u)[txId := amount];
    SumUpdate(OwnTxs(txs, u), txId, amount);
  }

  lemma RewardArrives(rewards: map<RewardId, Reward>, id: RewardId, r: Reward, u: string)
    requires id !in rewards
    ensures MapSum(OwnRewards(rewards[id := r], u)) == MapSum(OwnRewards(rewards, u)) + Received(r, u)
  {
    assert OwnRewards(rewards[id := r], u) == OwnRewards(rewards, u)[id := Received(r, u)];
    SumUpdate(OwnRewards(rewards, u), id, Received(r, u));
  }

  // What is recorded for a grant is what is credited for it.
  ghost predicate Honest(g: Grant) {
    Credited(g) == if g.status == C.DISTRIBUTED then g.amount else 0.0
  }

  // Ids that are free and distinct, for clients only.
  ghost predicate Grantable(rewards: map<RewardId, Reward>, clients: set<string>, grants: seq<Grant>) {
    && (forall i :: 0 <= i < |grants| ==>
          Honest(grants[i]) && grants[i].id !in rewards && grants[i].id.referrer in clients)
    && (forall i, j :: 0 <= i < j < |grants| ==> grants[i].id != grants[j].id)
  }

  ghost predicate Among(grants: seq<Grant>, id: RewardId) {
    exists i :: 0 <= i < |grants| && grants[i].id == id
  }

  lemma {:induction false} GrantsFrame(s: State, grants: seq<Grant>)
    ensures var s' := GrantAll(s, grants);
            && s'.balances.Keys == s.balances.Keys
            && s'.store == s.store && s'.txs == s.txs && s'.chains == s.chains && s'.caps == s.caps
            && forall id :: id in s'.rewards <==> id in s.rewards || Among(grants, id)
  {
    if grants != [] {
      var init, g := grants[..|grants| - 1], grants[|grants| - 1];
      GrantsFrame(s, init);
      forall id ensures Among(grants, id) <==> Among(init, id) || id == g.id {
        if id == g.id {
          assert grants[|grants| - 1].id == id;
        }
        if Among(init, id) {
          var i :| 0 <= i < |init| && init[i].id == id;
          assert grants[i].id == id;
        }
      }
    }
  }

  lemma GrantKeepsGap(s: State, g: Grant, u: string)
    requires Honest(g) && g.id !in s.rewards && g.id.referrer in s.balances
    ensures Gap(GrantOne(s, g), u) == Gap(s, u)
  {
    RewardArrives(s.rewards, g.id, Reward(g.id.referrer, g.amount, g.status), u);
  }

  lemma {:induction false} GrantsKeepGap(s: State, grants: seq<Grant>, u: string)
    requires Grantable(s.rewards, s.balances.Keys, grants)
    ensures Gap(GrantAll(s, grants), u) == Gap(s, u)
  {
    if grants != [] {
      var init, g := grants[..|grants| - 1], grants[|grants| - 1];
      GrantsKeepGap(s, init, u);
      GrantsFrame(s, init);
      GrantKeepsGap(GrantAll(s, init), g, u);
    }
  }

  // ---------------------------------------------------------------- what one payment grants

  // Distinct tiers make distinct ids.
  ghost predicate OnePayment(grants: seq<Grant>, chain: seq<string>, above: int) {
    && (forall i :: 0 <= i < |grants| ==>
          Honest(grants[i]) && !grants[i].id.InstallId? && grants[i].id.referrer in chain && grants[i].id.tier < above)
    && (forall i, j :: 0 <= i < j < |grants| ==> grants[i].id.tier < grants[j].id.tier)
  }

  lemma {:induction false} TaskGrantsAreOnePayment(tiers: seq<TierConfig>, chain: seq<string>, referee: string, points: real,
                                                   jobId: string, now: int, above: int)
    requires Ordered(tiers) && forall i :: 0 <= i < |tiers| ==> tiers[i].level < above
    ensures var grants := TaskGrants(tiers, chain, referee, points, jobId, now);
            && OnePayment(grants, chain, above)
            && forall i :: 0 <= i < |grants| ==> grants[i].id.TaskId? && grants[i].id.jobId == jobId
  {
    if tiers != [] {
      TaskGrantsAreOnePayment(tiers[..|tiers| - 1], chain, referee, points, jobId, now, tiers[|tiers| - 1].level);
    }
  }

  ghost function LevelAbove(tiers: seq<TierConfig>): (above: int)
    requires Ordered(tiers)
    ensures forall i :: 0 <= i < |tiers| ==> tiers[i].level < above
  {
    if tiers == [] then 0 else tiers[|tiers| - 1].level + 1
  }

  lemma UptimeGrantsAreOnePayment(s: State, uptime: C.Op, now: int)
    requires C.Admissible(uptime) && Ordered(uptime.config.tiers)
    ensures exists above :: OnePayment(UptimeGrants(PaidUptime(s, uptime).rewards, now), Chain(s, uptime.referee), above)
    ensures var grants := UptimeGrants(PaidUptime(s, uptime).rewards, now);
            forall i :: 0 <= i < |grants| ==>
              grants[i].id.UptimeId? && grants[i].id.referee == uptime.referee && grants[i].id.now == now
  {
    EnabledIsOrdered(uptime.config.tiers);
    var tiers := EnabledTiers(uptime.config);
    var above := LevelAbove(tiers);
    C.DistributeTiersIsOnePayment(s.caps, tiers, Chain(s, uptime.referee), uptime.referee, uptime.points, uptime.month,
                                  DefaultCap(uptime.config), above);
    assert OnePayment(UptimeGrants(PaidUptime(s, uptime).rewards, now), Chain(s, uptime.referee), above);
  }

  // ---------------------------------------------------------------- one step

  ghost predicate Ready(s: State, op: Op) {
    match op
    case CompleteJob(id, u, now, config) =>
      u in s.balances && id in s.store.jobs ==>
        Grantable(s.rewards, s.balances.Keys,
                  TaskGrants(EnabledTiers(config), Chain(s, u), u, JobReward(s.store.jobs[id].assignedAt, now), id, now))
    case PayUptime(txId, u, amount, confirmed) => txId !in s.txs && u in s.balances
    case PayReferralUptime(uptime, now) =>
      Grantable(s.rewards, s.balances.Keys, UptimeGrants(PaidUptime(s, uptime).rewards, now))
    case PayInstallation(referee, now) =>
      Chain(s, referee) != [] ==>
        Chain(s, referee)[0] in s.balances && InstallId(Chain(s, referee)[0], referee, now) !in s.rewards
    case _ => true
  }

  // The job that a step overwrites or removes.
  function Touched(s: State, op: Op): Option<string> {
    match op
    case AddJob(id, _, _) => Some(id)
    case AssignJob(id, u, _) => if u in s.balances then Some(id) else None
    case CompleteJob(id, u, _, _) => if u in s.balances then Some(id) else None
    case FailJob(id) => Some(id)
    case DeleteJob(id) => Some(id)
    case _ => None
  }

  // What the ledger forgets that u has been paid for.
  function Undone(s: State, op: Op, u: string): real {
    match Touched(s, op)
    case Some(id) => if id in s.store.jobs then Worked(s.store.jobs[id], u) else 0.0
    case None => 0.0
  }

  lemma UpdateMovesGap(s: State, id: string, updates: J.Updates, u: string)
    requires id in s.store.jobs
    ensures Gap(s.(store := J.StepUpdate(s.store, id, updates)), u) ==
            Gap(s, u) + Worked(s.store.jobs[id], u) - Worked(J.Merge(s.store.jobs[id], updates), u)
  {
    JobChanges(s.store.jobs, id, J.Merge(s.store.jobs[id], updates), u);
  }

  // The worker is recorded and paid in one step.
  lemma WorkMovesGap(s: State, id: string, w: string, reward: real, u: string)
    requires w in s.balances && id in s.store.jobs
    ensures Gap(PayWork(s, id, w, reward), u) == Gap(s, u) + Worked(s.store.jobs[id], u)
  {
    UpdateMovesGap(s, id, J.Updates(Some(J.COMPLETED), Some(w), None, Some(reward)), u);
  }

  lemma CompletingMovesGap(s: State, id: string, w: string, now: int, config: RewardConfig, u: string)
    requires w in s.balances && id in s.store.jobs
    requires Ready(s, CompleteJob(id, w, now, config))
    ensures Gap(Complete(s, id, w, now, config), u) == Gap(s, u) + Worked(s.store.jobs[id], u)
  {
    var reward := JobReward(s.store.jobs[id].assignedAt, now);
    WorkMovesGap(s, id, w, reward, u);
    var paid := PayWork(s, id, w, reward);
    assert paid.balances.Keys == s.balances.Keys;
    GrantsKeepGap(paid, TaskGrants(EnabledTiers(config), Chain(s, w), w, reward, id, now), u);
  }

  lemma PayingMovesNoGap(s: State, txId: string, w: string, amount: real, confirmed: bool, u: string)
    requires txId !in s.txs && w in s.balances
    ensures Gap(PayTx(s, txId, w, amount, confirmed), u) == Gap(s, u)
  {
    TxArrives(s.txs, txId, Tx(w, amount, confirmed), u);
  }

  lemma RewardingMovesNoGap(s: State, op: Op, u: string)
    requires op.PayReferralUptime? || op.PayInstallation?
    requires Ready(s, op)
    ensures Gap(Apply(s, op), u) == Gap(s, u)
  {
    if op.PayReferralUptime? {
      var cs := PaidUptime(s, op.uptime);
      GrantsKeepGap(s.(caps := cs.caps), UptimeGrants(cs.rewards, op.now), u);
    } else if Chain(s, op.referee) != [] {
      GrantKeepsGap(s, Grant(InstallId(Chain(s, op.referee)[0], op.referee, op.now), INSTALLATION_REWARD, C.DISTRIBUTED), u);
    }
  }

  lemma AddingMovesGap(s: State, id: string, job: J.Job, u: string)
    requires job.state != J.COMPLETED
    ensures Gap(s.(store := J.StepCreate(s.store, id, job)), u) ==
            Gap(s, u) + (if id in s.store.jobs then Worked(s.store.jobs[id], u) else 0.0)
  {
    JobChanges(s.store.jobs, id, job, u);
  }

  lemma DeletingMovesGap(s: State, id: string, u: string)
    ensures Gap(s.(store := J.StepDelete(s.store, id)), u) ==
            Gap(s, u) + (if id in s.store.jobs then Worked(s.store.jobs[id], u) else 0.0)
  {
    JobGoes(s.store.jobs, id, u);
  }

  lemma JobStepMovesGap(s: State, op: Op, u: string)
    requires op.AddJob? || op.AssignJob? || op.FailJob? || op.DeleteJob?
    ensures Gap(Apply(s, op), u) == Gap(s, u) + Undone(s, op, u)
  {
    var jobs := s.store.jobs;
    match op
    case AddJob(id, creator, now) => AddingMovesGap(s, id, J.Job(creator, "", J.PENDING, now, 0.0), u);
    case AssignJob(id, w, now) =>
      if id in jobs {
        UpdateMovesGap(s, id, J.Updates(Some(J.ONGOING), Some(w), Some(now), None), u);
      }
    case FailJob(id) =>
      if id in jobs {
        UpdateMovesGap(s, id, J.Updates(Some(J.FAILED), None, None, Some(0.0)), u);
      }
    case DeleteJob(id) => DeletingMovesGap(s, id, u);
  }

  // Any step at all, in any state: with free ids and payees that are clients, a step moves
  // the difference between the balance and the ledger by the reward of the completed job
  // that it overwrites or removes, and by nothing else.
  lemma StepMovesGap(s: State, op: Op, u: string)
    requires Ready(s, op)
    ensures Gap(Apply(s, op), u) == Gap(s, u) + Undone(s, op, u)
  {
    match op
    case CompleteJob(id, w, now, config) =>
      if w in s.balances && id in s.store.jobs {
        CompletingMovesGap(s, id, w, now, config, u);
      }
    case PayUptime(txId, w, amount, confirmed) => PayingMovesNoGap(s, txId, w, amount, confirmed, u);
    case PayReferralUptime(_, _) => RewardingMovesNoGap(s, op, u);
    case PayInstallation(_, _) => RewardingMovesNoGap(s, op, u);
    case Login(_) =>
    case Refer(_, _) =>
    case _ => JobStepMovesGap(s, op, u);
  }

  // ---------------------------------------------------------------- whole runs

  ghost predicate ChainsOk(chains: map<string, seq<string>>, clients: set<string>) {
    forall u, r :: u in chains && r in chains[u] ==> r in clients
  }

  // A task reward names a job that has been completed.
  ghost predicate TasksDone(rewards: map<RewardId, Reward>, jobs: map<string, J.Job>) {
    forall id :: id in rewards && id.TaskId? ==> id.jobId in jobs && jobs[id.jobId].state == J.COMPLETED
  }

  ghost predicate RewardsIndexed(rewards: map<RewardId, Reward>, rewardsBy: map<string, set<RewardId>>) {
    && (forall id, u :: id in Members(rewardsBy, u) <==> id in rewards && id.referrer == u)
    && (forall id :: id in rewards ==> rewards[id].referrer == id.referrer)
  }

  ghost predicate Structure(s: State) {
    && "" !in s.balances
    && ChainsOk(s.chains, s.balances.Keys)
    && J.Inv(s.store)
    && TasksDone(s.rewards, s.store.jobs)
    && RewardsIndexed(s.rewards, s.rewardsBy)
  }

  ghost predicate Inv(s: State) {
    Structure(s) && forall u :: Gap(s, u) == 0.0
  }

  // Ids are fresh, payees are clients, and a job is left alone once it is completed.
  ghost predicate Admissible(s: State, op: Op) {
    match op
    case Login(u) => u != ""
    case Refer(u, chain) => forall r :: r in chain ==> r in s.balances
    case AddJob(id, creator, now) => id !in s.store.seen
    case AssignJob(id, u, now) => Unfinished(s.store.jobs, id)
    case CompleteJob(id, u, now, config) => Unfinished(s.store.jobs, id) && Ordered(config.tiers)
    case FailJob(id) => Unfinished(s.store.jobs, id)
    case DeleteJob(id) => Unfinished(s.store.jobs, id)
    case PayUptime(txId, u, amount, confirmed) => txId !in s.txs && u in s.balances
    case PayReferralUptime(uptime, now) =>
      && C.Admissible(uptime) && Ordered(uptime.config.tiers)
      && forall id :: id in s.rewards && id.UptimeId? && id.referee == uptime.referee ==> id.now != now
    case PayInstallation(referee, now) =>
      forall id :: id in s.rewards && id.InstallId? && id.referee == referee ==> id.now != now
  }

  predicate Unfinished(jobs: map<string, J.Job>, id: string) {
    id in jobs ==> jobs[id].state != J.COMPLETED
  }

  lemma AdmissibleIsReady(s: State, op: Op)
    requires Inv(s) && Admissible(s, op)
    ensures Ready(s, op) && forall u :: Undone(s, op, u) == 0.0
  {
    match op
    case CompleteJob(id, u, now, config) =>
      if u in s.balances && id in s.store.jobs {
        var tiers := EnabledTiers(config);
        EnabledIsOrdered(config.tiers);
        TaskGrantsAreOnePayment(tiers, Chain(s, u), u, JobReward(s.store.jobs[id].assignedAt, now), id, now,
                                LevelAbove(tiers));
      }
    case PayReferralUptime(uptime, now) => UptimeGrantsAreOnePayment(s, uptime, now);
    case _ =>
  }

  lemma GrantKeepsIndex(s: State, g: Grant)
    requires RewardsIndexed(s.rewards, s.rewardsBy)
    ensures var s' := GrantOne(s, g); RewardsIndexed(s'.rewards, s'.rewardsBy)
  {
    var s' := GrantOne(s, g);
    forall id, u ensures id in Members(s'.rewardsBy, u) <==> id in s'.rewards && id.referrer == u {
      assert id in Members(s.rewardsBy, u) <==> id in s.rewards && id.referrer == u;
    }
  }

  lemma {:induction false} GrantsKeepIndex(s: State, grants: seq<Grant>)
    requires RewardsIndexed(s.rewards, s.rewardsBy)
    ensures var s' := GrantAll(s, grants); RewardsIndexed(s'.rewards, s'.rewardsBy)
  {
    if grants != [] {
      GrantsKeepIndex(s, grants[..|grants| - 1]);
      GrantKeepsIndex(GrantAll(s, grants[..|grants| - 1]), grants[|grants| - 1]);
    }
  }

  // Granting keeps the structural part of the invariant.
  lemma GrantsKeepStructure(s: State, grants: seq<Grant>)
    requires RewardsIndexed(s.rewards, s.rewardsBy) && TasksDone(s.rewards, s.store.jobs)
    requires forall i :: 0 <= i < |grants| && grants[i].id.TaskId? ==>
               grants[i].id.jobId in s.store.jobs && s.store.jobs[grants[i].id.jobId].state == J.COMPLETED
    ensures var s' := GrantAll(s, grants);
            && RewardsIndexed(s'.rewards, s'.rewardsBy) && TasksDone(s'.rewards, s'.store.jobs)
            && s'.store == s.store && s'.chains == s.chains && s'.balances.Keys == s.balances.Keys
  {
    GrantsKeepIndex(s, grants);
    GrantsFrame(s, grants);
  }

  lemma WorkKeepsStructure(s: State, id: string, u: string, reward: real)
    requires Structure(s) && Unfinished(s.store.jobs, id) && u in s.balances && id in s.store.jobs
    ensures Structure(PayWork(s, id, u, reward))
    ensures PayWork(s, id, u, reward).store.jobs[id].state == J.COMPLETED
  {
    J.UpdateKeepsInvExactly(s.store, id, J.Updates(Some(J.COMPLETED), Some(u), None, Some(reward)));
    assert PayWork(s, id, u, reward).balances.Keys == s.balances.Keys;
  }

  lemma CompletingKeepsStructure(s: State, id: string, u: string, now: int, config: RewardConfig)
    requires Structure(s) && Unfinished(s.store.jobs, id) && Ordered(config.tiers)
    ensures Structure(Complete(s, id, u, now, config))
  {
    if u in s.balances && id in s.store.jobs {
      var reward := JobReward(s.store.jobs[id].assignedAt, now);
      WorkKeepsStructure(s, id, u, reward);
      EnabledIsOrdered(config.tiers);
      var tiers := EnabledTiers(config);
      TaskGrantsAreOnePayment(tiers, Chain(s, u), u, reward, id, now, LevelAbove(tiers));
      GrantsKeepStructure(PayWork(s, id, u, reward), TaskGrants(tiers, Chain(s, u), u, reward, id, now));
    }
  }

  lemma JobStepKeepsStructure(s: State, op: Op)
    requires op.AddJob? || op.AssignJob? || op.FailJob? || op.DeleteJob?
    requires Structure(s) && Admissible(s, op)
    ensures Structure(Apply(s, op))
  {
    match op
    case AddJob(id, creator, now) => J.CreateKeepsInv(s.store, id, J.Job(creator, "", J.PENDING, now, 0.0));
    case AssignJob(id, u, now) =>
      if u in s.balances {
        J.UpdateKeepsInvExactly(s.store, id, J.Updates(Some(J.ONGOING), Some(u), Some(now), None));
      }
    case FailJob(id) => J.UpdateKeepsInvExactly(s.store, id, J.Updates(Some(J.FAILED), None, None, Some(0.0)));
    case DeleteJob(id) => J.DeleteKeepsInv(s.store, id);
  }

  lemma PayingKeepsStructure(s: State, op: Op)
    requires op.Login? || op.Refer? || op.PayUptime? || op.PayReferralUptime? || op.PayInstallation?
    requires Structure(s) && Admissible(s, op)
    ensures Structure(Apply(s, op))
  {
    match op
    case PayReferralUptime(uptime, now) =>
      UptimeGrantsAreOnePayment(s, uptime, now);
      var cs := PaidUptime(s, uptime);
      GrantsKeepStructure(s.(caps := cs.caps), UptimeGrants(cs.rewards, now));
    case PayInstallation(referee, now) =>
      if Chain(s, referee) != [] {
        GrantKeepsIndex(s, Grant(InstallId(Chain(s, referee)[0], referee, now), INSTALLATION_REWARD, C.DISTRIBUTED));
      }
    case _ =>
  }

  lemma ApplyKeepsInv(s: State, op: Op)
    requires Inv(s) && Admissible(s, op)
    ensures Inv(Apply(s, op))
  {
    AdmissibleIsReady(s, op);
    forall u ensures Gap(Apply(s, op), u) == 0.0 {
      StepMovesGap(s, op, u);
    }
    match op
    case AddJob(_, _, _) => JobStepKeepsStructure(s, op);
    case AssignJob(_, _, _) => JobStepKeepsStructure(s, op);
    case FailJob(_) => JobStepKeepsStructure(s, op);
    case DeleteJob(_) => JobStepKeepsStructure(s, op);
    case CompleteJob(id, u, now, config) => CompletingKeepsStructure(s, id, u, now, config);
    case _ => PayingKeepsStructure(s, op);
  }

  function Run(s: State, ops: seq<Op>): State
    decreases |ops|
  {
    if ops == [] then s else Run(Apply(s, ops[0]), ops[1..])
  }

  // A run is its operations one after the other.
  lemma {:induction false} RunSnoc(s: State, ops: seq<Op>, op: Op)
    ensures Run(s, []) == s
    ensures Run(s, ops + [op]) == Apply(Run(s, ops), op)
    decreases |ops|
  {
    if ops == [] {
      assert [op][1..] == [];
    } else {
      assert (ops + [op])[0] == ops[0] && (ops + [op])[1..] == ops[1..] + [op];
      RunSnoc(Apply(s, ops[0]), ops[1..], op);
    }
  }

  ghost predicate AllAdmissible(s: State, ops: seq<Op>)
    decreases |ops|
  {
    ops != [] ==> Admissible(s, ops[0]) && AllAdmissible(Apply(s, ops[0]), ops[1..])
  }

  lemma {:induction false} RunKeepsInv(s: State, ops: seq<Op>)
    requires Inv(s) && AllAdmissible(s, ops)
    ensures Inv(Run(s, ops))
    decreases |ops|
  {
    if ops != [] {
      ApplyKeepsInv(s, ops[0]);
      RunKeepsInv(Apply(s, ops[0]), ops[1..]);
    }
  }

  // ---------------------------------------------------------------- what the script recomputes

  // The completed jobs that the user index returns for u.
  ghost function IndexedJobs(store: J.Store, u: string): map<string, real> {
    map id | id in Members(store.byUser, u) && id in store.jobs && store.jobs[id].state == J.COMPLETED
      :: store.jobs[id].reward
  }

  ghost function IndexedRewards(s: State, u: string): map<RewardId, real> {
    map r | r in Members(s.rewardsBy, u) && r in s.rewards && s.rewards[r].status == C.DISTRIBUTED :: s.rewards[r].amount
  }

  ghost function Expected(s: State, u: string): real {
    MapSum(IndexedJobs(s.store, u)) + MapSum(OwnTxs(s.txs, u)) + MapSum(IndexedRewards(s, u))
  }

  // Among them, work that somebody else did: u created those jobs.
  ghost function ForeignJobs(store: J.Store, u: string): map<string, real> {
    map id | id in IndexedJobs(store, u) && store.jobs[id].assignee != u :: store.jobs[id].reward
  }

  lemma IndexedJobsSplit(store: J.Store, u: string)
    requires J.Inv(store) && u != ""
    ensures MapSum(IndexedJobs(store, u)) == MapSum(OwnJobs(store.jobs, u)) + MapSum(ForeignJobs(store, u))
  {
    var indexed := IndexedJobs(store, u);
    var own := map id | id in indexed :: Worked(store.jobs[id], u);
    var foreign := map id | id in indexed :: if store.jobs[id].assignee != u then store.jobs[id].reward else 0.0;
    forall id | id in store.jobs && Worked(store.jobs[id], u) != 0.0 ensures id in indexed {
      assert J.Belongs(store, id, u);
    }
    SumSameSupport(OwnJobs(store.jobs, u), own);
    SumSameSupport(ForeignJobs(store, u), foreign);
    SumOfSums(indexed, own, foreign);
  }

  lemma IndexedRewardsAreOwn(s: State, u: string)
    requires RewardsIndexed(s.rewards, s.rewardsBy)
    ensures MapSum(IndexedRewards(s, u)) == MapSum(OwnRewards(s.rewards, u))
  {
    SumSameSupport(IndexedRewards(s, u), OwnRewards(s.rewards, u));
  }

  ghost function Full(s: State, u: string): real { Due(s, u) + MapSum(ForeignJobs(s.store, u)) }

  lemma ExpectedIsFull(s: State, u: string)
    requires J.Inv(s.store) && RewardsIndexed(s.rewards, s.rewardsBy) && u != ""
    ensures Expected(s, u) == Full(s, u)
  {
    IndexedJobsSplit(s.store, u);
    IndexedRewardsAreOwn(s, u);
  }

  lemma EmptyIsOk()
    ensures Inv(EMPTY)
  {
    forall u ensures Gap(EMPTY, u) == 0.0 {
      assert OwnJobs(EMPTY.store.jobs, u) == map[];
      assert OwnTxs(EMPTY.txs, u) == map[];
      assert OwnRewards(EMPTY.rewards, u) == map[];
    }
  }

  // Conservation over whole runs: every client's balance is its completed work, its
  // confirmed uptime payments and its distributed referral rewards. What the
  // reconciliation script expects exceeds it by the completed jobs that the client created
  // for others, and by nothing else.
  lemma EveryRunBalances(ops: seq<Op>, u: string)
    requires AllAdmissible(EMPTY, ops) && u != ""
    ensures var s := Run(EMPTY, ops);
            && Balance(s, u) == Due(s, u)
            && Expected(s, u) == Balance(s, u) + MapSum(ForeignJobs(s.store, u))
            && ((forall id :: id in s.store.jobs ==> s.store.jobs[id].creator != u) ==> Expected(s, u) == Balance(s, u))
  {
    EmptyIsOk();
    RunKeepsInv(EMPTY, ops);
    var s := Run(EMPTY, ops);
    assert Gap(s, u) == 0.0;
    ExpectedIsFull(s, u);
    if forall id :: id in s.store.jobs ==> s.store.jobs[id].creator != u {
      forall id | id in IndexedJobs(s.store, u) ensures s.store.jobs[id].assignee == u {
        assert J.Belongs(s.store, id, u);
      }
      assert ForeignJobs(s.store, u) == map[];
    }
  }

  // ---------------------------------------------------------------- the reconciliation script

  // For one client; `truth` is the balance on the blockchain, when that is consulted.
  function Shortfall(balance: real, expected: real, truth: Option<real>): real { truth.GetOr(expected) - balance }

  ghost function Repair(s: State, u: string, truth: Option<real>): State {
    if u !in s.balances then s
    else
      var missing := Shortfall(s.balances[u], Expected(s, u), truth);
      if missing > 0.01 then s.(balances := s.balances[u := s.balances[u] + missing]) else s
  }

  ghost function RepairEach(s: State, users: seq<string>): State {
    if users == [] then s else Repair(RepairEach(s, users[..|users| - 1]), users[|users| - 1], None)
  }

  lemma RepairOne(s: State, balances: map<string, real>, u: string)
    requires J.Inv(s.store) && RewardsIndexed(s.rewards, s.rewardsBy) && u != "" && u in balances
    ensures var short := Full(s, u) - balances[u] > 0.01;
            Repair(s.(balances := balances), u, None) ==
            s.(balances := if short then balances[u := Full(s, u)] else balances)
  {
    ExpectedIsFull(s, u);
    var mid := s.(balances := balances);
    assert IndexedRewards(mid, u) == IndexedRewards(s, u);
    assert Expected(mid, u) == Expected(s, u);
  }

  // In any state with sound indexes, whatever its balances: a client that is short is
  // raised to what it is due plus the work that others did for it, and any other balance
  // stays. Listing a client twice changes nothing.
  lemma {:induction false} RepairLaw(s: State, users: seq<string>)
    requires J.Inv(s.store) && RewardsIndexed(s.rewards, s.rewardsBy) && "" !in s.balances
    ensures var s' := RepairEach(s, users);
            && s' == s.(balances := s'.balances) && s'.balances.Keys == s.balances.Keys
            && forall u :: u in s.balances ==>
                 s'.balances[u] ==
                 if u in users && Full(s, u) - s.balances[u] > 0.01 then Full(s, u) else s.balances[u]
  {
    if users != [] {
      var init, last := users[..|users| - 1], users[|users| - 1];
      RepairLaw(s, init);
      assert users == init + [last];
      if last in s.balances {
        RepairOne(s, RepairEach(s, init).balances, last);
      }
    }
  }

  // On a ledger that no update has escaped from, the script pays out exactly the work that
  // clients had others do for them.
  lemma ScriptPaysForeignWork(ops: seq<Op>, users: seq<string>, u: string)
    requires AllAdmissible(EMPTY, ops) && u in Run(EMPTY, ops).balances && u in users
    ensures var s := Run(EMPTY, ops);
            var foreign := MapSum(ForeignJobs(s.store, u));
            Balance(RepairEach(s, users), u) == Balance(s, u) + if foreign > 0.01 then foreign else 0.0
  {
    EmptyIsOk();
    RunKeepsInv(EMPTY, ops);
    var s := Run(EMPTY, ops);
    assert Gap(s, u) == 0.0;
    RepairLaw(s, users);
  }
}
