/** Uptime referral rewards and the monthly cap of each referrer. */
module ReferralCap {
  import opened Wrappers
  import opened Points
  import opened ReferralConfig

  datatype Key = Key(referrer: string, month: string)

  // uptime_rewards_earned, uptime_rewards_cap, cap_reached and the two tier totals.
  datatype Cap = Cap(earned: real, limit: real, reached: bool, l1: real, l2: real)

  datatype RewardStatus = DISTRIBUTED | CAPPED

  datatype Reward = Reward(key: Key, referee: string, tier: int, amount: real, status: RewardStatus)

  datatype State = State(caps: map<Key, Cap>, rewards: seq<Reward>)

  const EMPTY := State(map[], [])

  // ---------------------------------------------------------------- steps

  // checkMonthlyCap and the capping in distributeUptimeReward.
  function Decide(caps: map<Key, Cap>, key: Key, share: real, defaultCap: real): (real, RewardStatus) {
    if key !in caps then (if share > defaultCap then defaultCap else share, DISTRIBUTED)
    else if caps[key].reached then (0.0, CAPPED)
    else
      var left := caps[key].limit - caps[key].earned;
      var remaining := if left < 0.0 then 0.0 else left;
      (if share > remaining then remaining else share, DISTRIBUTED)
  }

  // updateMonthlyCap. A new record books a tier above 2 under neither total; an existing
  // one books every tier but the first under L2.
  function UpdateCap(caps: map<Key, Cap>, key: Key, amount: real, tier: int, defaultCap: real): Cap {
    var cap :=
      if key !in caps then
        Cap(amount, defaultCap, false, if tier == 1 then amount else 0.0, if tier == 2 then amount else 0.0)
      else
        var c := caps[key];
        c.(earned := c.earned + amount,
           l1 := if tier == 1 then c.l1 + amount else c.l1,
           l2 := if tier == 1 then c.l2 else c.l2 + amount);
    if cap.earned >= cap.limit && !cap.reached then cap.(reached := true) else cap
  }

  function Distribute(s: State, key: Key, referee: string, points: real, tier: int, percentage: real,
                      defaultCap: real): State {
    var (amount, status) := Decide(s.caps, key, Share(points, percentage), defaultCap);
    State(if status == DISTRIBUTED && amount > 0.0
          then s.caps[key := UpdateCap(s.caps, key, amount, tier, defaultCap)] else s.caps,
          s.rewards + [Reward(key, referee, tier, amount, status)])
  }

  // relationship.referrer_chain[tier_level - 1], when there is one.
  function ReferrerAt(chain: seq<string>, level: int): Option<string> {
    if 1 <= level <= |chain| && chain[level - 1] != "" then Some(chain[level - 1]) else None
  }

  function DistributeTiers(s: State, tiers: seq<TierConfig>, chain: seq<string>, referee: string, points: real,
                           month: string, defaultCap: real): State {
    if tiers == [] then s
    else
      var t := tiers[|tiers| - 1];
      var before := DistributeTiers(s, tiers[..|tiers| - 1], chain, referee, points, month, defaultCap);
      match ReferrerAt(chain, t.level)
      case None => before
      case Some(r) => Distribute(before, Key(r, month), referee, points, t.level, t.percentage, defaultCap)
  }

  datatype Op = Uptime(referee: string, points: real, weeklyMinutes: real, requiredHours: nat,
                       chain: Option<seq<string>>, config: RewardConfig, month: string)

  // calculateUptimeReward.
  function Apply(s: State, op: Op): State {
    var required := (if op.requiredHours == 0 then 100 else op.requiredHours) * 60;
    if op.weeklyMinutes < required as real || op.chain == None then s
    else DistributeTiers(s, EnabledTiers(op.config), op.chain.value, op.referee, op.points, op.month, DefaultCap(op.config))
  }

  function Run(s: State, ops: seq<Op>): State
    decreases |ops|
  {
    if ops == [] then s else Run(Apply(s, ops[0]), ops[1..])
  }

  // Nobody earns negative points, and the configuration is sane.
  ghost predicate Admissible(op: Op) { 0.0 <= op.points && Sane(op.config) }

  // ---------------------------------------------------------------- what the rewards add up to

  predicate Counts(r: Reward, key: Key) { r.key == key && r.status == DISTRIBUTED }

  function Distributed(rewards: seq<Reward>, key: Key): real {
    if rewards == [] then 0.0
    else Distributed(rewards[..|rewards| - 1], key)
         + (if Counts(rewards[|rewards| - 1], key) then rewards[|rewards| - 1].amount else 0.0)
  }

  function DistributedAtL1(rewards: seq<Reward>, key: Key): real {
    if rewards == [] then 0.0
    else DistributedAtL1(rewards[..|rewards| - 1], key)
         + (if Counts(rewards[|rewards| - 1], key) && rewards[|rewards| - 1].tier == 1
            then rewards[|rewards| - 1].amount else 0.0)
  }

  // The first reward that was worth something.
  function First(rewards: seq<Reward>, key: Key): Option<Reward> {
    if rewards == [] then None
    else
      var f := First(rewards[..|rewards| - 1], key);
      if f.Some? then f
      else if Counts(rewards[|rewards| - 1], key) && rewards[|rewards| - 1].amount > 0.0
           then Some(rewards[|rewards| - 1]) else None
  }

  // What neither tier total shows.
  function Unbooked(rewards: seq<Reward>, key: Key): real {
    var f := First(rewards, key);
    if f.Some? && f.value.tier != 1 && f.value.tier != 2 then f.value.amount else 0.0
  }

  ghost predicate CapOk(caps: map<Key, Cap>, rewards: seq<Reward>, key: Key) {
    && (key in caps <==> First(rewards, key).Some?)
    && (First(rewards, key).Some? ==> First(rewards, key).value.amount > 0.0)
    && (key !in caps ==> Distributed(rewards, key) == 0.0 && DistributedAtL1(rewards, key) == 0.0)
    && (key in caps ==>
          var c := caps[key];
          && c.earned == Distributed(rewards, key)
          && 0.0 < c.earned <= c.limit
          && (c.reached <==> c.earned >= c.limit)
          && c.l1 == DistributedAtL1(rewards, key)
          && c.l1 + c.l2 + Unbooked(rewards, key) == c.earned)
  }

  ghost predicate Inv(s: State) {
    forall key :: CapOk(s.caps, s.rewards, key)
  }

  // ---------------------------------------------------------------- preservation

  lemma DistributeKeepsKey(s: State, key: Key, referee: string, points: real, tier: int, percentage: real,
                           defaultCap: real)
    requires CapOk(s.caps, s.rewards, key)
    requires 0.0 <= Share(points, percentage) && 0.0 < defaultCap
    ensures var s' := Distribute(s, key, referee, points, tier, percentage, defaultCap);
            CapOk(s'.caps, s'.rewards, key)
  {
    var s' := Distribute(s, key, referee, points, tier, percentage, defaultCap);
    assert s'.rewards[..|s.rewards|] == s.rewards;
  }

  lemma OtherKeysStay(s: State, key: Key, referee: string, points: real, tier: int, percentage: real,
                      defaultCap: real, other: Key)
    requires CapOk(s.caps, s.rewards, other) && other != key
    ensures var s' := Distribute(s, key, referee, points, tier, percentage, defaultCap);
            CapOk(s'.caps, s'.rewards, other)
  {
    var s' := Distribute(s, key, referee, points, tier, percentage, defaultCap);
    assert s'.rewards[..|s.rewards|] == s.rewards;
  }

  lemma {:induction false} DistributeTiersKeepsInv(s: State, tiers: seq<TierConfig>, chain: seq<string>, referee: string,
                                                   points: real, month: string, defaultCap: real)
    requires Inv(s) && 0.0 <= points && 0.0 < defaultCap
    requires forall t :: t in tiers ==> 0.0 <= t.percentage
    ensures Inv(DistributeTiers(s, tiers, chain, referee, points, month, defaultCap))
  {
    if tiers != [] {
      var init, t := tiers[..|tiers| - 1], tiers[|tiers| - 1];
      DistributeTiersKeepsInv(s, init, chain, referee, points, month, defaultCap);
      var before := DistributeTiers(s, init, chain, referee, points, month, defaultCap);
      var r := ReferrerAt(chain, t.level);
      if r.Some? {
        ShareNonNegative(points, t.percentage);
        var after := Distribute(before, Key(r.value, month), referee, points, t.level, t.percentage, defaultCap);
        forall key ensures CapOk(after.caps, after.rewards, key) {
          assert CapOk(before.caps, before.rewards, key);
          if key == Key(r.value, month) {
            DistributeKeepsKey(before, key, referee, points, t.level, t.percentage, defaultCap);
          } else {
            OtherKeysStay(before, Key(r.value, month), referee, points, t.level, t.percentage, defaultCap, key);
          }
        }
      }
    }
  }

  lemma {:induction false} RunKeepsInv(s: State, ops: seq<Op>)
    requires Inv(s) && forall op :: op in ops ==> Admissible(op)
    ensures Inv(Run(s, ops))
    decreases |ops|
  {
    if ops != [] {
      var op := ops[0];
      assert op in ops;
      if op.chain.Some? {
        DistributeTiersKeepsInv(s, EnabledTiers(op.config), op.chain.value, op.referee, op.points, op.month,
                                DefaultCap(op.config));
      }
      RunKeepsInv(Apply(s, op), ops[1..]);
    }
  }

  // The cap over whole runs, whatever tiers, referees and configurations follow each
  // other: what a referrer has earned in a month is the sum of the rewards distributed to
  // it, never more than the cap, and flagged exactly when it reaches the cap. The two tier
  // totals account for all of it if and only if the first reward of the month came from
  // tier 1 or 2.
  lemma EveryRunRespectsTheCap(ops: seq<Op>, key: Key)
    requires forall op :: op in ops ==> Admissible(op)
    ensures var s := Run(EMPTY, ops);
            if key in s.caps then
              var c := s.caps[key];
              && c.earned == Distributed(s.rewards, key)
              && c.earned <= c.limit
              && (c.reached <==> c.earned >= c.limit)
              && c.l1 == DistributedAtL1(s.rewards, key)
              && First(s.rewards, key).Some?
              && (c.earned == c.l1 + c.l2 <==> First(s.rewards, key).value.tier in {1, 2})
            else Distributed(s.rewards, key) == 0.0
  {
    assert Inv(EMPTY);
    RunKeepsInv(EMPTY, ops);
    assert CapOk(Run(EMPTY, ops).caps, Run(EMPTY, ops).rewards, key);
  }

  // A month that starts at tier 3: earned, but in neither total.
  lemma ThirdTierFirstIsUnbooked(key: Key, referee: string)
    ensures var s := Distribute(EMPTY, key, referee, 100.0, 3, 5.0, 10000.0);
            key in s.caps && s.caps[key] == Cap(5.0, 10000.0, false, 0.0, 0.0)
  {
    assert Share(100.0, 5.0) == 5.0;
  }

  // ---------------------------------------------------------------- exactly how much is paid

  // One referrer's share of one payment, before any cap.
  datatype Ask = Ask(key: Key, referee: string, points: real, tier: int, percentage: real) {
    function Amount(): real { Share(points, percentage) }
  }

  function TierAsks(tiers: seq<TierConfig>, chain: seq<string>, referee: string, points: real, month: string): seq<Ask> {
    if tiers == [] then []
    else
      var t := tiers[|tiers| - 1];
      var before := TierAsks(tiers[..|tiers| - 1], chain, referee, points, month);
      match ReferrerAt(chain, t.level)
      case None => before
      case Some(r) => before + [Ask(Key(r, month), referee, points, t.level, t.percentage)]
  }

  function AsksOf(op: Op): seq<Ask> {
    var required := (if op.requiredHours == 0 then 100 else op.requiredHours) * 60;
    if op.weeklyMinutes < required as real || op.chain == None then []
    else TierAsks(EnabledTiers(op.config), op.chain.value, op.referee, op.points, op.month)
  }

  // What one referrer would get in one month if there were no cap.
  function Uncapped(asks: seq<Ask>, key: Key): real {
    if asks == [] then 0.0
    else Uncapped(asks[..|asks| - 1], key)
         + (if asks[|asks| - 1].key == key then asks[|asks| - 1].Amount() else 0.0)
  }

  function UncappedOver(ops: seq<Op>, key: Key): real
    decreases |ops|
  {
    if ops == [] then 0.0 else Uncapped(AsksOf(ops[0]), key) + UncappedOver(ops[1..], key)
  }

  function Min(a: real, b: real): real { if a < b then a else b }

  // The cap of the first tier if it has one that is not zero, and 10000 otherwise.
  function ConfiguredCap(tiers: seq<TierConfig>): real {
    if tiers != [] && tiers[0].cap.GetOr(0.0) != 0.0 then tiers[0].cap.value else 10000.0
  }

  // The cap that applies to the month: the one configured when the first positive share is
  // asked for. Later changes of the configuration do not reach the stored record.
  function CapInForce(ops: seq<Op>, key: Key): Option<real>
    decreases |ops|
  {
    if ops == [] then None
    else if Uncapped(AsksOf(ops[0]), key) > 0.0 then
      Some(ConfiguredCap(ops[0].config.tiers))
    else CapInForce(ops[1..], key)
  }

  // The amount due so far has been paid up to the cap of the record.
  ghost predicate PaidUp(caps: map<Key, Cap>, rewards: seq<Reward>, key: Key, due: real) {
    && 0.0 <= due
    && (key !in caps ==> due == 0.0 && Distributed(rewards, key) == 0.0)
    && (key in caps ==>
          && 0.0 < due && 0.0 < caps[key].limit
          && caps[key].earned == Distributed(rewards, key) == Min(due, caps[key].limit)
          && (caps[key].reached <==> caps[key].earned >= caps[key].limit))
  }

  // A record keeps the limit that it was created with.
  ghost predicate LimitSet(caps: map<Key, Cap>, caps': map<Key, Cap>, key: Key, cap: real) {
    && (key in caps ==> key in caps' && caps'[key].limit == caps[key].limit)
    && (key !in caps && key in caps' ==> caps'[key].limit == cap)
  }

  // From `due` to `more` besides, under a configured cap.
  ghost predicate PaysUp(s: State, s': State, key: Key, due: real, more: real, cap: real) {
    PaidUp(s'.caps, s'.rewards, key, due + more) && LimitSet(s.caps, s'.caps, key, cap) && 0.0 <= more
  }

  lemma PaysUpTwice(s: State, mid: State, s': State, key: Key, due: real, more: real, yetMore: real, cap: real)
    requires PaysUp(s, mid, key, due, more, cap) && PaysUp(mid, s', key, due + more, yetMore, cap)
    ensures PaysUp(s, s', key, due, more + yetMore, cap)
  {
  }

  lemma AskIsPaidUp(s: State, a: Ask, key: Key, due: real, cap: real)
    requires PaidUp(s.caps, s.rewards, key, due) && 0.0 <= a.Amount() && 0.0 < cap
    ensures PaysUp(s, Distribute(s, a.key, a.referee, a.points, a.tier, a.percentage, cap), key, due,
                   if a.key == key then a.Amount() else 0.0, cap)
  {
    var s' := Distribute(s, a.key, a.referee, a.points, a.tier, a.percentage, cap);
    assert s'.rewards[..|s.rewards|] == s.rewards;
  }

  lemma UncappedSnoc(asks: seq<Ask>, a: Ask, key: Key)
    ensures Uncapped(asks + [a], key) == Uncapped(asks, key) + (if a.key == key then a.Amount() else 0.0)
  {
    assert (asks + [a])[..|asks|] == asks;
  }

  lemma OneMoreAsk(s: State, mid: State, asks: seq<Ask>, ask: Ask, key: Key, due: real, cap: real)
    requires PaysUp(s, mid, key, due, Uncapped(asks, key), cap)
    requires 0.0 <= ask.points && 0.0 <= ask.percentage && 0.0 < cap
    ensures PaysUp(s, Distribute(mid, ask.key, ask.referee, ask.points, ask.tier, ask.percentage, cap), key, due,
                   Uncapped(asks + [ask], key), cap)
  {
    ShareNonNegative(ask.points, ask.percentage);
    UncappedSnoc(asks, ask, key);
    AskIsPaidUp(mid, ask, key, due + Uncapped(asks, key), cap);
    PaysUpTwice(s, mid, Distribute(mid, ask.key, ask.referee, ask.points, ask.tier, ask.percentage, cap), key, due,
                Uncapped(asks, key), if ask.key == key then ask.Amount() else 0.0, cap);
  }

  lemma {:induction false} TiersArePaidUp(s: State, tiers: seq<TierConfig>, chain: seq<string>, referee: string,
                                          points: real, month: string, key: Key, due: real, cap: real)
    requires PaidUp(s.caps, s.rewards, key, due) && 0.0 <= points && 0.0 < cap
    requires forall t :: t in tiers ==> 0.0 <= t.percentage
    ensures PaysUp(s, DistributeTiers(s, tiers, chain, referee, points, month, cap), key, due,
                   Uncapped(TierAsks(tiers, chain, referee, points, month), key), cap)
  {
    if tiers != [] {
      var init, t := tiers[..|tiers| - 1], tiers[|tiers| - 1];
      TiersArePaidUp(s, init, chain, referee, points, month, key, due, cap);
      var r := ReferrerAt(chain, t.level);
      if r.Some? {
        var mid := DistributeTiers(s, init, chain, referee, points, month, cap);
        var asks := TierAsks(init, chain, referee, points, month);
        var ask := Ask(Key(r.value, month), referee, points, t.level, t.percentage);
        OneMoreAsk(s, mid, asks, ask, key, due, cap);
      }
    }
  }

  lemma ApplyIsPaidUp(s: State, op: Op, key: Key, due: real)
    requires PaidUp(s.caps, s.rewards, key, due) && Admissible(op)
    ensures PaysUp(s, Apply(s, op), key, due, Uncapped(AsksOf(op), key), ConfiguredCap(op.config.tiers))
  {
    if op.chain.Some? {
      TiersArePaidUp(s, EnabledTiers(op.config), op.chain.value, op.referee, op.points, op.month, key, due,
                     DefaultCap(op.config));
    }
  }

  lemma {:induction false} RunIsPaidUp(s: State, ops: seq<Op>, key: Key, due: real)
    requires PaidUp(s.caps, s.rewards, key, due)
    requires forall op :: op in ops ==> Admissible(op)
    ensures var s' := Run(s, ops);
            && PaidUp(s'.caps, s'.rewards, key, due + UncappedOver(ops, key))
            && (key in s.caps ==> key in s'.caps && s'.caps[key].limit == s.caps[key].limit)
            && (key !in s.caps ==>
                  && (key in s'.caps <==> CapInForce(ops, key).Some?)
                  && (key in s'.caps ==> CapInForce(ops, key) == Some(s'.caps[key].limit)))
    decreases |ops|
  {
    if ops != [] {
      assert ops[0] in ops;
      ApplyIsPaidUp(s, ops[0], key, due);
      RunIsPaidUp(Apply(s, ops[0]), ops[1..], key, due + Uncapped(AsksOf(ops[0]), key));
    }
  }

  // A referrer receives in a month exactly what it would get without a cap, or the cap in
  // force if that is less, however the shares are spread over tiers, referees and payments
  // and however the configuration changes meanwhile.
  lemma EveryRunPaysUpToTheCap(ops: seq<Op>, key: Key)
    requires forall op :: op in ops ==> Admissible(op)
    ensures Distributed(Run(EMPTY, ops).rewards, key) ==
            match CapInForce(ops, key)
            case None => 0.0
            case Some(cap) => Min(UncappedOver(ops, key), cap)
    ensures CapInForce(ops, key) == None <==> UncappedOver(ops, key) == 0.0
  {
    RunIsPaidUp(EMPTY, ops, key, 0.0);
  }

  // The reward records that a payment adds: one for each tier with a referrer in its place.
  ghost predicate AnswersTier(w: Reward, t: TierConfig, chain: seq<string>, referee: string, month: string) {
    && 1 <= t.level <= |chain| && chain[t.level - 1] != ""
    && w.key == Key(chain[t.level - 1], month) && w.referee == referee && w.tier == t.level
  }

  ghost predicate TierHasReward(t: TierConfig, added: seq<Reward>, chain: seq<string>, referee: string, month: string) {
    exists w :: w in added && AnswersTier(w, t, chain, referee, month)
  }

  ghost predicate RewardHasTier(w: Reward, tiers: seq<TierConfig>, chain: seq<string>, referee: string, month: string) {
    exists t :: t in tiers && AnswersTier(w, t, chain, referee, month)
  }

  ghost predicate TiersAnswered(added: seq<Reward>, tiers: seq<TierConfig>, chain: seq<string>, referee: string,
                                month: string) {
    && (forall t :: t in tiers && 1 <= t.level <= |chain| && chain[t.level - 1] != "" ==>
          TierHasReward(t, added, chain, referee, month))
    && (forall w :: w in added ==> RewardHasTier(w, tiers, chain, referee, month))
  }

  lemma MoreRewards(t: TierConfig, added: seq<Reward>, w: Reward, chain: seq<string>, referee: string, month: string)
    requires TierHasReward(t, added, chain, referee, month)
    ensures TierHasReward(t, added + [w], chain, referee, month)
  {
    var v :| v in added && AnswersTier(v, t, chain, referee, month);
    assert v in added + [w];
  }

  lemma MoreTiers(w: Reward, tiers: seq<TierConfig>, t: TierConfig, chain: seq<string>, referee: string, month: string)
    requires RewardHasTier(w, tiers, chain, referee, month)
    ensures RewardHasTier(w, tiers + [t], chain, referee, month)
  {
    var x :| x in tiers && AnswersTier(w, x, chain, referee, month);
    assert x in tiers + [t];
  }

  lemma OneMoreAnswer(added: seq<Reward>, w: Reward, init: seq<TierConfig>, t: TierConfig, chain: seq<string>,
                      referee: string, month: string)
    requires TiersAnswered(added, init, chain, referee, month) && AnswersTier(w, t, chain, referee, month)
    ensures TiersAnswered(added + [w], init + [t], chain, referee, month)
  {
    assert w in added + [w] && t in init + [t];
    forall x | x in init + [t] && 1 <= x.level <= |chain| && chain[x.level - 1] != ""
      ensures TierHasReward(x, added + [w], chain, referee, month)
    {
      if x in init {
        MoreRewards(x, added, w, chain, referee, month);
      }
    }
    forall v | v in added + [w] ensures RewardHasTier(v, init + [t], chain, referee, month) {
      if v in added {
        MoreTiers(v, init, t, chain, referee, month);
      }
    }
  }

  lemma NoMoreAnswer(added: seq<Reward>, init: seq<TierConfig>, t: TierConfig, chain: seq<string>, referee: string,
                     month: string)
    requires TiersAnswered(added, init, chain, referee, month)
    requires !(1 <= t.level <= |chain| && chain[t.level - 1] != "")
    ensures TiersAnswered(added, init + [t], chain, referee, month)
  {
    forall v | v in added ensures RewardHasTier(v, init + [t], chain, referee, month) {
      MoreTiers(v, init, t, chain, referee, month);
    }
  }

  lemma {:induction false} TiersAreAnswered(s: State, tiers: seq<TierConfig>, chain: seq<string>, referee: string,
                                            points: real, month: string, defaultCap: real) returns (added: seq<Reward>)
    ensures DistributeTiers(s, tiers, chain, referee, points, month, defaultCap).rewards == s.rewards + added
    ensures TiersAnswered(added, tiers, chain, referee, month)
  {
    if tiers == [] {
      added := [];
    } else {
      var init, t := tiers[..|tiers| - 1], tiers[|tiers| - 1];
      assert tiers == init + [t];
      var before := TiersAreAnswered(s, init, chain, referee, points, month, defaultCap);
      var mid := DistributeTiers(s, init, chain, referee, points, month, defaultCap);
      match ReferrerAt(chain, t.level)
      case None =>
        NoMoreAnswer(before, init, t, chain, referee, month);
        added := before;
      case Some(r) =>
        var after := Distribute(mid, Key(r, month), referee, points, t.level, t.percentage, defaultCap);
        var w := after.rewards[|mid.rewards|];
        OneMoreAnswer(before, w, init, t, chain, referee, month);
        added := before + [w];
    }
  }

  // Nothing is paid below the weekly hours required, 100 if none are configured, or without a
  // chain. Otherwise every enabled tier with a referrer gets its reward record, and no other
  // is added.
  ghost predicate AnsweredExactly(before: seq<Reward>, after: seq<Reward>, op: Op) {
    if op.weeklyMinutes < 60.0 * (if op.requiredHours == 0 then 100 else op.requiredHours) as real || op.chain == None
    then after == before
    else before <= after && TiersAnswered(after[|before|..], EnabledTiers(op.config), op.chain.value, op.referee, op.month)
  }

  lemma UptimeIsAnsweredExactly(s: State, op: Op)
    ensures AnsweredExactly(s.rewards, Apply(s, op).rewards, op)
  {
    if op.chain.Some? {
      var added := TiersAreAnswered(s, EnabledTiers(op.config), op.chain.value, op.referee, op.points, op.month,
                                    DefaultCap(op.config));
      assert (s.rewards + added)[|s.rewards|..] == added;
    }
  }

  // One payment: all of it for the same referee, to members of the chain, in strictly
  // rising tiers, and nothing negative.
  ghost predicate OnePayment(rewards: seq<Reward>, chain: seq<string>, referee: string, above: int) {
    && (forall i :: 0 <= i < |rewards| ==>
          var r := rewards[i];
          r.referee == referee && r.key.referrer in chain && r.tier < above && 0.0 <= r.amount
          && (r.status == CAPPED ==> r.amount == 0.0))
    && (forall i, j :: 0 <= i < j < |rewards| ==> rewards[i].tier < rewards[j].tier)
  }

  lemma {:induction false} DistributeTiersIsOnePayment(caps: map<Key, Cap>, tiers: seq<TierConfig>, chain: seq<string>,
                                                       referee: string, points: real, month: string, defaultCap: real,
                                                       above: int)
    requires Ordered(tiers) && forall i :: 0 <= i < |tiers| ==> tiers[i].level < above && 0.0 <= tiers[i].percentage
    requires 0.0 <= points && 0.0 < defaultCap
    ensures OnePayment(DistributeTiers(State(caps, []), tiers, chain, referee, points, month, defaultCap).rewards,
                       chain, referee, above)
  {
    if tiers != [] {
      var init, t := tiers[..|tiers| - 1], tiers[|tiers| - 1];
      DistributeTiersIsOnePayment(caps, init, chain, referee, points, month, defaultCap, t.level);
      ShareNonNegative(points, t.percentage);
    }
  }

  // ---------------------------------------------------------------- the service methods

  class UptimeRewards {
    var caps: map<Key, Cap>
    var rewards: seq<Reward>

    ghost function View(): State
      reads this
    {
      State(caps, rewards)
    }

    constructor ()
      ensures View() == EMPTY
    {
      caps, rewards := map[], [];
    }

    method UpdateMonthlyCap(key: Key, amount: real, tier: int, defaultCap: real)
      modifies this`caps
      ensures caps == old(caps)[key := UpdateCap(old(caps), key, amount, tier, defaultCap)]
    {
      var cap: Cap;
      if key !in caps {
        cap := Cap(amount, defaultCap, false, if tier == 1 then amount else 0.0, if tier == 2 then amount else 0.0);
      } else {
        cap := caps[key];
        cap := cap.(earned := cap.earned + amount);
        if tier == 1 {
          cap := cap.(l1 := cap.l1 + amount);
        } else {
          cap := cap.(l2 := cap.l2 + amount);
        }
      }
      if cap.earned >= cap.limit && !cap.reached {
        cap := cap.(reached := true);
      }
      caps := caps[key := cap];
    }

    method DistributeUptimeReward(key: Key, referee: string, points: real, tier: int, percentage: real, defaultCap: real)
      returns (amount: real)
      modifies this
      ensures View() == Distribute(old(View()), key, referee, points, tier, percentage, defaultCap)
      ensures amount == rewards[|rewards| - 1].amount
    {
      amount := Share(points, percentage);
      var status := DISTRIBUTED;
      if key in caps && caps[key].reached {
        status, amount := CAPPED, 0.0;
      } else {
        var remaining := if key in caps then caps[key].limit - caps[key].earned else defaultCap;
        if key in caps && remaining < 0.0 {
          remaining := 0.0;
        }
        if amount > remaining {
          amount := remaining;
        }
      }
      rewards := rewards + [Reward(key, referee, tier, amount, status)];
      if status == DISTRIBUTED && amount > 0.0 {
        UpdateMonthlyCap(key, amount, tier, defaultCap);
      }
    }

    method CalculateUptimeReward(op: Op) returns (total: real)
      modifies this
      ensures View() == Apply(old(View()), op)
      ensures AnsweredExactly(old(rewards), rewards, op)
      ensures total == Total(rewards) - Total(old(rewards))
    {
      total := 0.0;
      UptimeIsAnsweredExactly(View(), op);
      var required := (if op.requiredHours == 0 then 100 else op.requiredHours) * 60;
      if op.weeklyMinutes < required as real || op.chain == None {
        return;
      }
      var tiers := EnabledTiers(op.config);
      for i := 0 to |tiers|
        invariant View() == DistributeTiers(old(View()), tiers[..i], op.chain.value, op.referee, op.points, op.month,
                                            DefaultCap(op.config))
        invariant total == Total(rewards) - Total(old(rewards))
      {
        assert tiers[..i + 1][..i] == tiers[..i];
        var referrer := ReferrerAt(op.chain.value, tiers[i].level);
        if referrer.Some? {
          ghost var before := rewards;
          var amount := DistributeUptimeReward(Key(referrer.value, op.month), op.referee, op.points, tiers[i].level,
                                               tiers[i].percentage, DefaultCap(op.config));
          assert rewards[..|before|] == before;
          total := total + amount;
        }
      }
      assert tiers[..|tiers|] == tiers;
    }
  }

  function Total(rewards: seq<Reward>): real {
    if rewards == [] then 0.0 else Total(rewards[..|rewards| - 1]) + rewards[|rewards| - 1].amount
  }
}
