/** Sessions, daily uptime records and their incremental payment.

  Times are milliseconds since the epoch, minutes and points are reals. Every service
  method is one step.
 */
module UptimePayout {
  import opened Sums

  const BASE_REWARD_RATE: real := 0.5
  const MAX_BONUS_RATE: real := 0.2
  const DAY_MS: int := 86400000

  datatype Session = Session(start: int, lastActivity: int)

  datatype Interval = Interval(user: string, start: int, end: int)

  datatype Key = Key(date: int, user: string)

  datatype Daily = Daily(total: real, processed: real, sessions: nat, tier: int,
                         base: real, bonus: real, reward: real, isProcessed: bool)

  datatype TxStatus = CONFIRMED | REFUSED

  datatype Tx = Tx(key: Key, base: real, bonus: real, amount: real, status: TxStatus)

  // `earnings` is the uptimeReward field of the clients that exist.
  datatype State = State(now: int, active: map<string, Session>, finished: seq<Interval>,
                         daily: map<Key, Daily>, txs: seq<Tx>, earnings: map<string, real>)

  // ---------------------------------------------------------------- tiers

  datatype Tier = Tier(tier: int, minSpeed: real, maxPing: real, bonusRate: real)

  const TIERS: seq<Tier> := [
    Tier(1, 50.0, 50.0, 0.20), Tier(2, 20.0, 100.0, 0.10), Tier(3, 5.0, 150.0, 0.05), Tier(4, 0.0, 999.0, 0.0)]

  function FirstMatch(tiers: seq<Tier>, speed: real, ping: real): int {
    if tiers == [] then 4
    else if speed >= tiers[0].minSpeed && ping <= tiers[0].maxPing then tiers[0].tier
    else FirstMatch(tiers[1..], speed, ping)
  }

  function DetermineTier(speed: real, ping: real): int { FirstMatch(TIERS, speed, ping) }

  function BonusRate(tier: int): (r: real)
    ensures 0.0 <= r <= MAX_BONUS_RATE
  {
    if tier == 1 then 0.20 else if tier == 2 then 0.10 else if tier == 3 then 0.05 else 0.0
  }

  // The tiers as thresholds, and the bonus of each.
  lemma TierThresholds(speed: real, ping: real)
    ensures var t := DetermineTier(speed, ping);
            && (t == 1 <==> 50.0 <= speed && ping <= 50.0)
            && (t <= 2 <==> (20.0 <= speed && ping <= 100.0))
            && (t <= 3 <==> (5.0 <= speed && ping <= 150.0))
            && 1 <= t <= 4
    ensures forall t :: t in TIERS ==> BonusRate(t.tier) == t.bonusRate
    ensures BonusRate(1) == 0.20 && BonusRate(2) == 0.10 && BonusRate(3) == 0.05 && BonusRate(4) == 0.0
  {
    var t1 := TIERS[1..];
    var t2 := t1[1..];
    var t3 := t2[1..];
    assert t1[0] == TIERS[1] && t2[0] == TIERS[2] && t3 == [TIERS[3]] && t3[1..] == [];
    assert FirstMatch(t3, speed, ping) == 4;
    assert FirstMatch(t2, speed, ping) == if 5.0 <= speed && ping <= 150.0 then 3 else 4;
    assert FirstMatch(t1, speed, ping) == if 20.0 <= speed && ping <= 100.0 then 2 else FirstMatch(t2, speed, ping);
  }

  // ---------------------------------------------------------------- steps

  function Minutes(ms: int): real { ms as real / 60000.0 }

  function Connect(s: State, user: string): State {
    s.(active := s.active[user := Session(s.now, s.now)])
  }

  function Activity(s: State, user: string): State {
    if user in s.active then s.(active := s.active[user := s.active[user].(lastActivity := s.now)]) else s
  }

  // The day's record with one more finished session in it; speed and ping are the averages
  // the tracker has computed.
  function WithSession(daily: map<Key, Daily>, key: Key, minutes: real, speed: real, ping: real): Daily {
    if key in daily then
      daily[key].(total := daily[key].total + minutes, sessions := daily[key].sessions + 1,
                  tier := DetermineTier(speed, ping), isProcessed := false)
    else Daily(minutes, 0.0, 1, DetermineTier(speed, ping), 0.0, 0.0, 0.0, false)
  }

  function Disconnect(s: State, user: string, speed: real, ping: real): State {
    if user !in s.active then s
    else
      var key := Key(s.now / DAY_MS, user);
      s.(active := s.active - {user},
         finished := s.finished + [Interval(user, s.active[user].start, s.now)],
         daily := s.daily[key := WithSession(s.daily, key, Minutes(s.now - s.active[user].start), speed, ping)])
  }

  // getUnprocessedDailyRecords
  predicate Due(r: Daily) { !r.isProcessed && r.total - r.processed > 0.0 }

  function Base(r: Daily): real { (r.total - r.processed) * BASE_REWARD_RATE }

  // base * BonusRate(tier), tier by tier.
  function AtTier(base: real, tier: int): real {
    if tier == 1 then base * 0.20 else if tier == 2 then base * 0.10 else if tier == 3 then base * 0.05 else 0.0
  }

  lemma AtTierIsProduct(base: real, tier: int)
    ensures AtTier(base, tier) == base * BonusRate(tier)
  {
    var rate := BonusRate(tier);
    if rate == 0.20 {
      assert base * rate == base * 0.20;
    } else if rate == 0.10 {
      assert base * rate == base * 0.10;
    } else if rate == 0.05 {
      assert base * rate == base * 0.05;
    } else {
      assert rate == 0.0;
    }
  }

  function Bonus(r: Daily): real { AtTier(Base(r), r.tier) }

  // calculateRewards: negative totals count as nothing.
  function Reward(r: Daily): real {
    if Base(r) + Bonus(r) < 0.0 then 0.0 else Base(r) + Bonus(r)
  }

  function Settled(r: Daily): Daily {
    r.(processed := r.total, base := r.base + Base(r), bonus := r.bonus + Bonus(r), reward := r.reward + Reward(r),
       isProcessed := true)
  }

  // processUserReward for a record that is due.
  function Pay(s: State, key: Key, confirmed: bool): State {
    if key !in s.daily || !Due(s.daily[key]) then s
    else
      var r := s.daily[key];
      var tx := Tx(key, Base(r), Bonus(r), Reward(r), if confirmed then CONFIRMED else REFUSED);
      if !confirmed then s.(txs := s.txs + [tx])
      else s.(txs := s.txs + [tx],
              daily := s.daily[key := Settled(r)],
              earnings := if key.user in s.earnings then s.earnings[key.user := s.earnings[key.user] + Reward(r)]
                          else s.earnings)
  }

  datatype Op =
    | Tick(ms: nat)
    | OpConnect(user: string)
    | OpActivity(user: string)
    | OpDisconnect(user: string, speed: real, ping: real)
    | OpPay(key: Key, confirmed: bool)
    | Register(user: string)

  function Apply(s: State, op: Op): State {
    match op
    case Tick(ms) => s.(now := s.now + ms)
    case OpConnect(user) => Connect(s, user)
    case OpActivity(user) => Activity(s, user)
    case OpDisconnect(user, speed, ping) => Disconnect(s, user, speed, ping)
    case OpPay(key, confirmed) => Pay(s, key, confirmed)
    case Register(user) => if user in s.earnings then s else s.(earnings := s.earnings[user := 0.0])
  }

  function Run(s: State, ops: seq<Op>): State
    decreases |ops|
  {
    if ops == [] then s else Run(Apply(s, ops[0]), ops[1..])
  }

  // A run is its operations one after the other.
  lemma {:induction false} RunSnoc(s: State, ops: seq<Op>, op: Op)
    ensures Run(s, []) == s
    ensures Run(s, ops + [op]) == Apply(Run(s, ops), op)
    decreases |ops|
  {
    if ops == [] {
      assert [op][1..] == [];
    } else {
      assert (ops + [op])[0] == ops[0] && (ops + [op])[1..] == ops[1..] + [op];
      RunSnoc(Apply(s, ops[0]), ops[1..], op);
    }
  }

  function StartAt(t0: int): State { State(t0, map[], [], map[], [], map[]) }

  // ---------------------------------------------------------------- measures

  ghost function TotalsOf(daily: map<Key, Daily>, user: string): map<Key, real> {
    map k | k in daily && k.user == user :: daily[k].total
  }

  ghost function RewardsOf(daily: map<Key, Daily>, user: string): map<Key, real> {
    map k | k in daily && k.user == user :: daily[k].reward
  }

  ghost function SessionTime(finished: seq<Interval>, user: string): int {
    if finished == [] then 0
    else
      var last := finished[|finished| - 1];
      SessionTime(finished[..|finished| - 1], user) + (if last.user == user then last.end - last.start else 0)
  }

  // What the confirmed transactions of one record sum to.
  ghost function Confirmed(txs: seq<Tx>, key: Key): real {
    if txs == [] then 0.0
    else
      var last := txs[|txs| - 1];
      Confirmed(txs[..|txs| - 1], key) + (if last.key == key && last.status == CONFIRMED then last.amount else 0.0)
  }

  ghost function PaidTo(txs: seq<Tx>, user: string): real {
    if txs == [] then 0.0
    else
      var last := txs[|txs| - 1];
      PaidTo(txs[..|txs| - 1], user) + (if last.key.user == user && last.status == CONFIRMED then last.amount else 0.0)
  }

  // ---------------------------------------------------------------- one record

  // Money paid so far matches the minutes processed so far.
  ghost predicate RecordOk(r: Daily) {
    && 0.0 <= r.processed <= r.total
    && (r.isProcessed ==> r.processed == r.total)
    && r.base == r.processed * BASE_REWARD_RATE
    && 0.0 <= r.bonus <= r.base * MAX_BONUS_RATE
    && r.reward == r.base + r.bonus
  }

  lemma SettlingKeepsRecord(r: Daily)
    requires RecordOk(r)
    ensures RecordOk(Settled(r)) && Settled(r).processed == Settled(r).total == r.total
    ensures 0.0 <= Reward(r) && Reward(r) == Base(r) + Bonus(r)
  {
  }

  datatype Event = SessionEnds(minutes: real, speed: real, ping: real) | Pass(confirmed: bool)

  // A record's life: sessions are added to it, and passes try to pay what is due.
  function Next(r: Daily, event: Event): Daily {
    match event
    case SessionEnds(minutes, speed, ping) =>
      r.(total := r.total + minutes, sessions := r.sessions + 1, tier := DetermineTier(speed, ping), isProcessed := false)
    case Pass(confirmed) => if Due(r) && confirmed then Settled(r) else r
  }

  function After(r: Daily, events: seq<Event>): Daily {
    if events == [] then r else Next(After(r, events[..|events| - 1]), events[|events| - 1])
  }

  function MinutesIn(events: seq<Event>): real {
    if events == [] then 0.0
    else MinutesIn(events[..|events| - 1])
         + (if events[|events| - 1].SessionEnds? then events[|events| - 1].minutes else 0.0)
  }

  ghost predicate Sensible(events: seq<Event>) {
    forall i :: 0 <= i < |events| && events[i].SessionEnds? ==> 0.0 <= events[i].minutes
  }

  lemma {:induction false} AfterKeepsRecord(r: Daily, events: seq<Event>)
    requires RecordOk(r) && Sensible(events)
    ensures RecordOk(After(r, events))
    ensures After(r, events).total == r.total + MinutesIn(events)
  {
    if events != [] {
      AfterKeepsRecord(r, events[..|events| - 1]);
      var before := After(r, events[..|events| - 1]);
      SettlingKeepsRecord(before);
    }
  }

  // Incremental payment refines one payment at the end: any schedule of passes, failed
  // ones included, that ends in a confirmed pass has paid exactly the base of a single
  // confirmed pass over the same sessions.
  lemma {:induction false} AnyScheduleSameBase(r: Daily, events: seq<Event>, oneShot: seq<Event>)
    requires RecordOk(r) && Sensible(events) && Sensible(oneShot)
    requires MinutesIn(oneShot) == MinutesIn(events)
    ensures var paid := After(r, events + [Pass(true)]);
            var paidAtOnce := After(r, oneShot + [Pass(true)]);
            && paid.base == paidAtOnce.base == (r.total + MinutesIn(events)) * BASE_REWARD_RATE
            && paid.base <= paid.reward <= paid.base * 1.2
  {
    assert (events + [Pass(true)])[..|events|] == events;
    assert (oneShot + [Pass(true)])[..|oneShot|] == oneShot;
    AfterKeepsRecord(r, events);
    AfterKeepsRecord(r, oneShot);
    SettlingKeepsRecord(After(r, events));
    SettlingKeepsRecord(After(r, oneShot));
  }

  // ---------------------------------------------------------------- all records, all runs

  ghost predicate RecordPaid(daily: map<Key, Daily>, txs: seq<Tx>, k: Key) {
    if k in daily then RecordOk(daily[k]) && daily[k].reward == Confirmed(txs, k) else Confirmed(txs, k) == 0.0
  }

  ghost predicate LedgerOk(s: State) {
    forall k :: RecordPaid(s.daily, s.txs, k)
  }

  // Sessions of one user, finished ones in order and then the active one, do not overlap.
  ghost predicate ClockOk(s: State, t0: int) {
    && t0 <= s.now
    && (forall u :: u in s.active ==> t0 <= s.active[u].start <= s.now)
    && (forall i :: 0 <= i < |s.finished| ==>
          var f := s.finished[i];
          t0 <= f.start <= f.end <= (if f.user in s.active then s.active[f.user].start else s.now))
    && (forall i, j :: 0 <= i < j < |s.finished| && s.finished[i].user == s.finished[j].user ==>
          s.finished[i].end <= s.finished[j].start)
  }

  ghost predicate SumsOk(s: State, u: string) {
    && MapSum(TotalsOf(s.daily, u)) == Minutes(SessionTime(s.finished, u))
    && MapSum(RewardsOf(s.daily, u)) == PaidTo(s.txs, u)
    && (u in s.earnings ==> s.earnings[u] <= PaidTo(s.txs, u))
    && 0.0 <= PaidTo(s.txs, u)
  }

  ghost predicate Inv(s: State, t0: int) {
    LedgerOk(s) && ClockOk(s, t0) && forall u :: SumsOk(s, u)
  }

  lemma TotalsUpdate(daily: map<Key, Daily>, key: Key, r: Daily, u: string)
    ensures MapSum(TotalsOf(daily[key := r], u)) == MapSum(TotalsOf(daily, u))
              + (if key.user == u then r.total - (if key in daily then daily[key].total else 0.0) else 0.0)
    ensures MapSum(RewardsOf(daily[key := r], u)) == MapSum(RewardsOf(daily, u))
              + (if key.user == u then r.reward - (if key in daily then daily[key].reward else 0.0) else 0.0)
  {
    if key.user == u {
      assert TotalsOf(daily[key := r], u) == TotalsOf(daily, u)[key := r.total];
      SumUpdate(TotalsOf(daily, u), key, r.total);
      assert RewardsOf(daily[key := r], u) == RewardsOf(daily, u)[key := r.reward];
      SumUpdate(RewardsOf(daily, u), key, r.reward);
    } else {
      assert TotalsOf(daily[key := r], u) == TotalsOf(daily, u);
      assert RewardsOf(daily[key := r], u) == RewardsOf(daily, u);
    }
  }

  lemma DisconnectKeepsInv(s: State, t0: int, user: string, speed: real, ping: real)
    requires Inv(s, t0)
    ensures Inv(Disconnect(s, user, speed, ping), t0)
  {
    if user in s.active {
      var s' := Disconnect(s, user, speed, ping);
      var key := Key(s.now / DAY_MS, user);
      assert s'.finished[..|s.finished|] == s.finished;
      forall k ensures RecordPaid(s'.daily, s'.txs, k) {
        assert RecordPaid(s.daily, s.txs, k);
      }
      forall u ensures SumsOk(s', u) {
        assert SumsOk(s, u);
        TotalsUpdate(s.daily, key, s'.daily[key], u);
      }
    }
  }

  lemma OneMoreTx(txs: seq<Tx>, tx: Tx, k: Key)
    ensures Confirmed(txs + [tx], k) ==
            Confirmed(txs, k) + (if tx.key == k && tx.status == CONFIRMED then tx.amount else 0.0)
  {
    assert (txs + [tx])[..|txs|] == txs;
  }

  lemma OneMorePaid(txs: seq<Tx>, tx: Tx, u: string)
    ensures PaidTo(txs + [tx], u) ==
            PaidTo(txs, u) + (if tx.key.user == u && tx.status == CONFIRMED then tx.amount else 0.0)
  {
    assert (txs + [tx])[..|txs|] == txs;
  }

  // The effect of one transaction on the records, whatever its amount.
  lemma TxKeepsLedger(s: State, key: Key, tx: Tx, r: Daily)
    requires LedgerOk(s) && key in s.daily && tx.key == key && RecordOk(r)
    requires r.reward == s.daily[key].reward + (if tx.status == CONFIRMED then tx.amount else 0.0)
    ensures LedgerOk(s.(txs := s.txs + [tx], daily := s.daily[key := r]))
  {
    var s' := s.(txs := s.txs + [tx], daily := s.daily[key := r]);
    forall k ensures RecordPaid(s'.daily, s'.txs, k) {
      assert RecordPaid(s.daily, s.txs, k);
      OneMoreTx(s.txs, tx, k);
    }
  }

  lemma PayKeepsLedger(s: State, key: Key, confirmed: bool)
    requires LedgerOk(s) && key in s.daily && Due(s.daily[key])
    ensures LedgerOk(Pay(s, key, confirmed))
  {
    var r := s.daily[key];
    assert RecordPaid(s.daily, s.txs, key);
    var tx := Tx(key, Base(r), Bonus(r), Reward(r), if confirmed then CONFIRMED else REFUSED);
    SettlingKeepsRecord(r);
    TxKeepsLedger(s, key, tx, if confirmed then Settled(r) else r);
    assert s.daily[key := r] == s.daily;
  }

  lemma TxKeepsSums(s: State, key: Key, tx: Tx, r: Daily, earnings: map<string, real>, u: string)
    requires SumsOk(s, u) && key in s.daily && tx.key == key && 0.0 <= tx.amount
    requires r.total == s.daily[key].total
    requires r.reward == s.daily[key].reward + (if tx.status == CONFIRMED then tx.amount else 0.0)
    requires earnings == if tx.status == CONFIRMED && key.user in s.earnings
                         then s.earnings[key.user := s.earnings[key.user] + tx.amount] else s.earnings
    ensures SumsOk(s.(txs := s.txs + [tx], daily := s.daily[key := r], earnings := earnings), u)
  {
    OneMorePaid(s.txs, tx, u);
    TotalsUpdate(s.daily, key, r, u);
  }

  lemma PayKeepsSums(s: State, key: Key, confirmed: bool, u: string)
    requires LedgerOk(s) && SumsOk(s, u) && key in s.daily && Due(s.daily[key])
    ensures SumsOk(Pay(s, key, confirmed), u)
  {
    var r := s.daily[key];
    assert RecordPaid(s.daily, s.txs, key);
    var tx := Tx(key, Base(r), Bonus(r), Reward(r), if confirmed then CONFIRMED else REFUSED);
    SettlingKeepsRecord(r);
    TxKeepsSums(s, key, tx, if confirmed then Settled(r) else r, Pay(s, key, confirmed).earnings, u);
    assert s.daily[key := r] == s.daily;
  }

  lemma PayKeepsInv(s: State, t0: int, key: Key, confirmed: bool)
    requires Inv(s, t0)
    ensures Inv(Pay(s, key, confirmed), t0)
  {
    if key in s.daily && Due(s.daily[key]) {
      PayKeepsLedger(s, key, confirmed);
      forall u ensures SumsOk(Pay(s, key, confirmed), u) {
        PayKeepsSums(s, key, confirmed, u);
      }
    }
  }

  lemma ApplyKeepsInv(s: State, t0: int, op: Op)
    requires Inv(s, t0)
    ensures Inv(Apply(s, op), t0)
  {
    match op
    case OpDisconnect(user, speed, ping) => DisconnectKeepsInv(s, t0, user, speed, ping);
    case OpPay(key, confirmed) => PayKeepsInv(s, t0, key, confirmed);
    case Tick(ms) =>
      forall u ensures SumsOk(Apply(s, op), u) { assert SumsOk(s, u); }
    case OpConnect(user) =>
      forall u ensures SumsOk(Apply(s, op), u) { assert SumsOk(s, u); }
    case OpActivity(user) =>
      forall u ensures SumsOk(Apply(s, op), u) { assert SumsOk(s, u); }
    case Register(user) =>
      forall u ensures SumsOk(Apply(s, op), u) { assert SumsOk(s, u); }
  }

  lemma {:induction false} RunKeepsInv(s: State, t0: int, ops: seq<Op>)
    requires Inv(s, t0)
    ensures Inv(Run(s, ops), t0)
    decreases |ops|
  {
    if ops != [] {
      ApplyKeepsInv(s, t0, ops[0]);
      RunKeepsInv(Apply(s, ops[0]), t0, ops[1..]);
    }
  }

  // Disjoint intervals inside [t0, end] cannot add up to more than end - t0.
  lemma {:induction false} DisjointTimeFits(finished: seq<Interval>, u: string, t0: int, end: int)
    requires t0 <= end
    requires forall i :: 0 <= i < |finished| && finished[i].user == u ==>
               t0 <= finished[i].start <= finished[i].end <= end
    requires forall i, j :: 0 <= i < j < |finished| && finished[i].user == finished[j].user ==>
               finished[i].end <= finished[j].start
    ensures SessionTime(finished, u) <= end - t0
  {
    if finished != [] {
      var last := finished[|finished| - 1];
      DisjointTimeFits(finished[..|finished| - 1], u, t0, if last.user == u then last.start else end);
    }
  }

  lemma StartInv(t0: int)
    ensures Inv(StartAt(t0), t0)
  {
    forall u ensures SumsOk(StartAt(t0), u) {
      assert TotalsOf(map[], u) == map[] && RewardsOf(map[], u) == map[];
    }
  }

  ghost function Scaled(m: map<Key, real>): map<Key, real> {
    map k | k in m :: 0.6 * m[k]
  }

  lemma {:induction false} ScaledSum(m: map<Key, real>)
    ensures MapSum(Scaled(m)) == 0.6 * MapSum(m)
    decreases |m|
  {
    if m == map[] {
      assert Scaled(m) == map[];
    } else {
      var k :| k in m;
      RemoveShrinks(m, k);
      ScaledSum(m - {k});
      assert Scaled(m - {k}) == Scaled(m) - {k};
      SumSplit(m, k);
      SumSplit(Scaled(m), k);
    }
  }

  // The rewards of a user's records are at most 0.6 points per minute recorded.
  lemma RewardsFitMinutes(s: State, u: string)
    requires LedgerOk(s)
    ensures MapSum(RewardsOf(s.daily, u)) <= 0.6 * MapSum(TotalsOf(s.daily, u))
  {
    forall k | k in s.daily && k.user == u
      ensures RewardsOf(s.daily, u)[k] <= Scaled(TotalsOf(s.daily, u))[k]
    {
      assert RecordPaid(s.daily, s.txs, k);
    }
    SumMonotonic(RewardsOf(s.daily, u), Scaled(TotalsOf(s.daily, u)));
    ScaledSum(TotalsOf(s.daily, u));
  }

  // Over every run: a user's sessions lie inside the elapsed time, one after the other, the
  // one under way last; the daily minutes, of 60000 ms each, are those of the finished ones,
  // at most the time elapsed less the session under way, and at most 0.5 * 1.2 points are
  // paid per elapsed minute.
  lemma PayoutNeverOutrunsClock(t0: int, ops: seq<Op>, u: string)
    ensures var s := Run(StartAt(t0), ops);
            && t0 <= s.now
            && (forall i :: 0 <= i < |s.finished| ==> t0 <= s.finished[i].start <= s.finished[i].end <= s.now)
            && (forall i, j :: 0 <= i < j < |s.finished| && s.finished[i].user == s.finished[j].user ==>
                  s.finished[i].end <= s.finished[j].start)
            && (forall i :: 0 <= i < |s.finished| && s.finished[i].user in s.active ==>
                  s.finished[i].end <= s.active[s.finished[i].user].start <= s.now)
            && 60000.0 * MapSum(TotalsOf(s.daily, u)) == SessionTime(s.finished, u) as real
            && SessionTime(s.finished, u) + (if u in s.active then s.now - s.active[u].start else 0) <= s.now - t0
            && 60000.0 * PaidTo(s.txs, u) <= 0.6 * (s.now - t0) as real
            && (u in s.earnings ==> s.earnings[u] <= PaidTo(s.txs, u))
  {
    StartInv(t0);
    RunKeepsInv(StartAt(t0), t0, ops);
    var s := Run(StartAt(t0), ops);
    assert ClockOk(s, t0) && SumsOk(s, u);
    DisjointTimeFits(s.finished, u, t0, if u in s.active then s.active[u].start else s.now);
    RewardsFitMinutes(s, u);
  }

  lemma StepEarns(s: State, op: Op, u: string)
    requires u in s.earnings
    ensures var s' := Apply(s, op);
            u in s'.earnings && s'.earnings[u] - s.earnings[u] == PaidTo(s'.txs, u) - PaidTo(s.txs, u)
  {
    match op
    case OpPay(key, confirmed) =>
      if key in s.daily && Due(s.daily[key]) {
        var r := s.daily[key];
        OneMorePaid(s.txs, Tx(key, Base(r), Bonus(r), Reward(r), if confirmed then CONFIRMED else REFUSED), u);
      }
    case _ =>
  }

  // From its registration on, a client's earnings are exactly its confirmed transactions.
  lemma EarningsAreConfirmed(s: State, ops: seq<Op>, u: string)
    requires u !in s.earnings
    ensures var s' := Run(Apply(s, Register(u)), ops);
            u in s'.earnings && s'.earnings[u] == PaidTo(s'.txs, u) - PaidTo(s.txs, u)
  {
    EarningsMove(Apply(s, Register(u)), ops, u);
  }

  lemma {:induction false} EarningsMove(s: State, ops: seq<Op>, u: string)
    requires u in s.earnings
    ensures var s' := Run(s, ops);
            u in s'.earnings && s'.earnings[u] - s.earnings[u] == PaidTo(s'.txs, u) - PaidTo(s.txs, u)
    decreases |ops|
  {
    if ops != [] {
      StepEarns(s, ops[0], u);
      EarningsMove(Apply(s, ops[0]), ops[1..], u);
    }
  }

  // In every run each record has been paid for exactly the minutes marked as processed.
  lemma EveryRecordIsPaidForItsMinutes(t0: int, ops: seq<Op>, k: Key)
    ensures var s := Run(StartAt(t0), ops);
            if k in s.daily then
              var r := s.daily[k];
              && 0.0 <= r.processed <= r.total
              && (r.isProcessed ==> r.processed == r.total)
              && r.base == 0.5 * r.processed
              && r.reward == r.base + r.bonus == Confirmed(s.txs, k)
            else Confirmed(s.txs, k) == 0.0
  {
    StartInv(t0);
    RunKeepsInv(StartAt(t0), t0, ops);
    var s := Run(StartAt(t0), ops);
    assert RecordPaid(s.daily, s.txs, k);
  }

  // ---------------------------------------------------------------- a distribution pass

  function PayEach(s: State, keys: seq<Key>, confirmed: map<Key, bool>): State {
    if keys == [] then s
    else
      var last := keys[|keys| - 1];
      Pay(PayEach(s, keys[..|keys| - 1], confirmed), last, last in confirmed && confirmed[last])
  }

  // A pass in which every transaction is confirmed leaves nothing due; one in which a
  // record's transaction fails leaves that record as it was.
  lemma {:induction false} PassSettles(s: State, keys: seq<Key>, confirmed: map<Key, bool>)
    requires forall k :: k in s.daily ==> RecordOk(s.daily[k])
    requires forall k :: k in keys ==> k in s.daily
    ensures var s' := PayEach(s, keys, confirmed);
            && s'.daily.Keys == s.daily.Keys
            && (forall k :: k in s.daily ==> RecordOk(s'.daily[k]))
            && (forall k :: k in s.daily ==>
                  s'.daily[k] == if k in keys && Due(s.daily[k]) && k in confirmed && confirmed[k]
                                 then Settled(s.daily[k]) else s.daily[k])
  {
    if keys != [] {
      var init, last := keys[..|keys| - 1], keys[|keys| - 1];
      PassSettles(s, init, confirmed);
      assert forall k :: k in keys <==> k in init || k == last;
      SettlingKeepsRecord(PayEach(s, init, confirmed).daily[last]);
      SettlingKeepsRecord(s.daily[last]);
    }
  }

  predicate AllConfirmed(keys: seq<Key>, confirmed: map<Key, bool>) {
    forall k :: k in keys ==> k in confirmed && confirmed[k]
  }

  lemma OneMoreConfirmed(keys: seq<Key>, i: nat, confirmed: map<Key, bool>)
    requires i < |keys|
    ensures AllConfirmed(keys[..i + 1], confirmed) <==>
            AllConfirmed(keys[..i], confirmed) && keys[i] in confirmed && confirmed[keys[i]]
  {
    assert keys[..i + 1] == keys[..i] + [keys[i]];
  }

  lemma NothingStaysDue(s: State, keys: seq<Key>, confirmed: map<Key, bool>)
    requires forall k :: k in s.daily ==> RecordOk(s.daily[k])
    requires forall k :: k in keys <==> k in s.daily && Due(s.daily[k])
    ensures AllConfirmed(keys, confirmed) ==>
              forall k :: k in PayEach(s, keys, confirmed).daily ==> !Due(PayEach(s, keys, confirmed).daily[k])
  {
    PassSettles(s, keys, confirmed);
  }

  // Paying one record does not touch another.
  lemma StillDue(s: State, keys: seq<Key>, i: nat, confirmed: map<Key, bool>)
    requires forall k :: k in s.daily ==> RecordOk(s.daily[k])
    requires forall k :: k in keys ==> k in s.daily && Due(s.daily[k])
    requires forall a, b :: 0 <= a < b < |keys| ==> keys[a] != keys[b]
    requires i < |keys|
    ensures var s' := PayEach(s, keys[..i], confirmed); keys[i] in s'.daily && Due(s'.daily[keys[i]])
  {
    PassSettles(s, keys[..i], confirmed);
    assert keys[i] !in keys[..i] && keys[i] in keys;
  }

  datatype PassStatus = SKIPPED | COMPLETED | FAILED

  // The tracker and the distribution service over one store.
  class UptimeService {
    var activeSessions: map<string, Session>
    var finished: seq<Interval>
    var dailyRecords: map<Key, Daily>
    var transactions: seq<Tx>
    var uptimeReward: map<string, real>

    ghost function View(now: int): State
      reads this
    {
      State(now, activeSessions, finished, dailyRecords, transactions, uptimeReward)
    }

    constructor ()
      ensures forall now :: View(now) == StartAt(now)
    {
      activeSessions, finished, dailyRecords, transactions, uptimeReward := map[], [], map[], [], map[];
    }

    method InitializeUptimeTracking(user: string, now: int)
      modifies this`activeSessions
      ensures View(now) == Apply(old(View(now)), OpConnect(user))
      ensures activeSessions == old(activeSessions)[user := Session(now, now)]
    {
      activeSessions := activeSessions[user := Session(now, now)];
    }

    method UpdateClientActivity(user: string, now: int)
      modifies this`activeSessions
      ensures View(now) == Apply(old(View(now)), OpActivity(user))
      ensures activeSessions.Keys == old(activeSessions).Keys
      ensures forall u :: u in activeSessions ==>
                activeSessions[u] == if u == user then old(activeSessions)[u].(lastActivity := now) else old(activeSessions)[u]
    {
      if user in activeSessions {
        activeSessions := activeSessions[user := activeSessions[user].(lastActivity := now)];
      }
    }

    method FinalizeUptimeSession(user: string, speed: real, ping: real, now: int)
      modifies this
      ensures View(now) == Apply(old(View(now)), OpDisconnect(user, speed, ping))
      // the day's record has the session's time more, 60000 ms to the minute
      ensures user !in old(activeSessions) ==> View(now) == old(View(now))
      ensures user in old(activeSessions) ==>
                var start := old(activeSessions)[user].start;
                var key := Key(now / 86400000, user);
                && user !in activeSessions
                && finished == old(finished) + [Interval(user, start, now)]
                && key in dailyRecords && dailyRecords == old(dailyRecords)[key := dailyRecords[key]]
                && var before := if key in old(dailyRecords) then old(dailyRecords)[key].total else 0.0;
                && 60000.0 * (dailyRecords[key].total - before)
                   == (now - start) as real
                && !dailyRecords[key].isProcessed
                && dailyRecords[key].tier == DetermineTier(speed, ping)
    {
      if user !in activeSessions {
        return;
      }
      var session := activeSessions[user];
      finished := finished + [Interval(user, session.start, now)];
      activeSessions := activeSessions - {user};
      UpdateDailyUptimeRecord(user, Minutes(now - session.start), speed, ping, now);
    }

    method UpdateDailyUptimeRecord(user: string, minutes: real, speed: real, ping: real, now: int)
      modifies this`dailyRecords
      ensures var key := Key(now / DAY_MS, user);
              dailyRecords == old(dailyRecords)[key := WithSession(old(dailyRecords), key, minutes, speed, ping)]
      // the minutes are added, the tier is that of this session, and the payments made stay
      ensures var key := Key(now / 86400000, user);
              && key in dailyRecords
              && var was := if key in old(dailyRecords) then old(dailyRecords)[key] else Daily(0.0, 0.0, 0, 4, 0.0, 0.0, 0.0, false);
              dailyRecords[key] == was.(total := was.total + minutes, sessions := was.sessions + 1,
                                        tier := DetermineTier(speed, ping), isProcessed := false)
    {
      var key := Key(now / DAY_MS, user);
      var record: Daily;
      if key in dailyRecords {
        record := dailyRecords[key];
        record := record.(total := record.total + minutes, sessions := record.sessions + 1, isProcessed := false);
        record := record.(tier := DetermineTier(speed, ping));
      } else {
        record := Daily(minutes, 0.0, 1, DetermineTier(speed, ping), 0.0, 0.0, 0.0, false);
      }
      dailyRecords := dailyRecords[key := record];
    }

    method GetUnprocessedDailyRecords() returns (keys: seq<Key>)
      ensures forall k :: k in keys <==> k in dailyRecords && Due(dailyRecords[k])
      ensures forall i, j :: 0 <= i < j < |keys| ==> keys[i] != keys[j]
    {
      keys := [];
      var todo := dailyRecords.Keys;
      while todo != {}
        invariant todo <= dailyRecords.Keys
        invariant forall k :: k in keys <==> k in dailyRecords && k !in todo && Due(dailyRecords[k])
        invariant forall i, j :: 0 <= i < j < |keys| ==> keys[i] != keys[j]
        decreases todo
      {
        var k :| k in todo;
        todo := todo - {k};
        if Due(dailyRecords[k]) {
          keys := keys + [k];
        }
      }
    }

    method ProcessUserReward(key: Key, confirmed: bool, ghost now: int) returns (paid: real)
      requires key in dailyRecords && Due(dailyRecords[key])
      modifies this`dailyRecords, this`transactions, this`uptimeReward
      ensures View(now) == Apply(old(View(now)), OpPay(key, confirmed)) == Pay(old(View(now)), key, confirmed)
      ensures paid == if confirmed then Reward(old(dailyRecords)[key]) else 0.0
      // half a point per minute not yet processed, and the bonus of the record's tier
      ensures var r := old(dailyRecords)[key];
              var base := 0.5 * (r.total - r.processed);
              var bonus := AtTier(base, r.tier);
              && transactions == old(transactions) + [Tx(key, base, bonus, base + bonus, if confirmed then CONFIRMED else REFUSED)]
              && (confirmed ==>
                    && paid == base + bonus
                    && dailyRecords == old(dailyRecords)[key :=
                         r.(processed := r.total, base := r.base + base, bonus := r.bonus + bonus,
                            reward := r.reward + base + bonus, isProcessed := true)]
                    && uptimeReward == if key.user in old(uptimeReward)
                                       then old(uptimeReward)[key.user := old(uptimeReward)[key.user] + base + bonus]
                                       else old(uptimeReward))
              && (!confirmed ==> paid == 0.0 && dailyRecords == old(dailyRecords) && uptimeReward == old(uptimeReward))
    {
      var record := dailyRecords[key];
      var unprocessed := record.total - record.processed;
      var baseReward := unprocessed * BASE_REWARD_RATE;
      var bonusReward := baseReward * BonusRate(record.tier);
      AtTierIsProduct(baseReward, record.tier);
      assert 0.0 <= bonusReward;
      var totalReward := baseReward + bonusReward;
      if totalReward < 0.0 {
        totalReward := 0.0;
      }
      transactions := transactions + [Tx(key, baseReward, bonusReward, totalReward, if confirmed then CONFIRMED else REFUSED)];
      if !confirmed {
        return 0.0;
      }
      if key.user in uptimeReward {
        uptimeReward := uptimeReward[key.user := uptimeReward[key.user] + totalReward];
      }
      record := record.(processed := record.total, base := record.base + baseReward,
                        bonus := record.bonus + bonusReward, reward := record.reward + totalReward, isProcessed := true);
      dailyRecords := dailyRecords[key := record];
      return totalReward;
    }

    method ProcessAll(due: seq<Key>, confirmed: map<Key, bool>, ghost now: int) returns (failures: nat)
      requires forall k :: k in dailyRecords ==> RecordOk(dailyRecords[k])
      requires forall k :: k in due ==> k in dailyRecords && Due(dailyRecords[k])
      requires forall i, j :: 0 <= i < j < |due| ==> due[i] != due[j]
      modifies this`dailyRecords, this`transactions, this`uptimeReward
      ensures View(now) == PayEach(old(View(now)), due, confirmed)
      ensures failures == 0 <==> AllConfirmed(due, confirmed)
    {
      ghost var start := View(now);
      failures := 0;
      for i := 0 to |due|
        invariant View(now) == PayEach(start, due[..i], confirmed)
        invariant failures == 0 <==> AllConfirmed(due[..i], confirmed)
      {
        StillDue(start, due, i, confirmed);
        assert due[..i + 1][..i] == due[..i];
        var ok := due[i] in confirmed && confirmed[due[i]];
        var paid := ProcessUserReward(due[i], ok, now);
        OneMoreConfirmed(due, i, confirmed);
        if !ok {
          failures := failures + 1;
        }
      }
      assert due[..|due|] == due;
    }

    method RunRewardDistribution(confirmed: map<Key, bool>, ghost now: int)
      returns (status: PassStatus, ghost keys: seq<Key>)
      requires forall k :: k in dailyRecords ==> RecordOk(dailyRecords[k])
      modifies this`dailyRecords, this`transactions, this`uptimeReward
      ensures forall k :: k in keys <==> k in old(dailyRecords) && Due(old(dailyRecords)[k])
      ensures View(now) == PayEach(old(View(now)), keys, confirmed)
      ensures status == SKIPPED <==> keys == []
      ensures status == FAILED <==> !AllConfirmed(keys, confirmed)
      ensures status != FAILED ==> forall k :: k in dailyRecords ==> !Due(dailyRecords[k])
    {
      var due := GetUnprocessedDailyRecords();
      keys := due;
      NothingStaysDue(View(now), due, confirmed);
      if due == [] {
        return SKIPPED, keys;
      }
      var failures := ProcessAll(due, confirmed, now);
      status := if failures > 0 then FAILED else COMPLETED;
    }
  }
}
