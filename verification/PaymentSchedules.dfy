/** How a record's pay depends on when the distribution passes happen. */
module PaymentSchedules {
  import opened UptimePayout

  // The same sessions with no pass in between.
  function OnlySessions(events: seq<Event>): seq<Event> {
    if events == [] then []
    else
      var before := OnlySessions(events[..|events| - 1]);
      if events[|events| - 1].SessionEnds? then before + [events[|events| - 1]] else before
  }

  // What a confirmed pass pays too much, seen from the tier that applies in the end.
  function Excess(paying: Daily, tier: int): real { AtTier(Base(paying), paying.tier) - AtTier(Base(paying), tier) }

  lemma ExcessIsBaseTimesDifference(paying: Daily, tier: int)
    ensures Excess(paying, tier) == Base(paying) * (BonusRate(paying.tier) - BonusRate(tier))
  {
    AtTierIsProduct(Base(paying), paying.tier);
    AtTierIsProduct(Base(paying), tier);
    Distributes(Base(paying), BonusRate(paying.tier), BonusRate(tier));
  }

  lemma Distributes(a: real, b: real, c: real)
    ensures a * (b - c) == a * b - a * c
  {
  }

  // The sum over the confirmed passes of the base paid times (the rate then - the rate in
  // the end).
  function Drift(r: Daily, events: seq<Event>, tier: int): real {
    if events == [] then 0.0
    else
      var init := events[..|events| - 1];
      Drift(r, init, tier) + (if events[|events| - 1] == Pass(true) then Excess(After(r, init), tier) else 0.0)
  }

  lemma {:induction false} OnlySessionsKeep(r: Daily, events: seq<Event>)
    requires Sensible(events)
    ensures Sensible(OnlySessions(events)) && MinutesIn(OnlySessions(events)) == MinutesIn(events)
    ensures After(r, OnlySessions(events)).tier == After(r, events).tier
    ensures After(r, OnlySessions(events)).base == r.base && After(r, OnlySessions(events)).bonus == r.bonus
  {
    if events != [] {
      var init, last := events[..|events| - 1], events[|events| - 1];
      OnlySessionsKeep(r, init);
      if last.SessionEnds? {
        assert (OnlySessions(init) + [last])[..|OnlySessions(init)|] == OnlySessions(init);
      }
    }
  }

  lemma {:induction false} NoPassNoDrift(r: Daily, events: seq<Event>, tier: int)
    requires forall i :: 0 <= i < |events| ==> events[i].SessionEnds?
    ensures Drift(r, events, tier) == 0.0
  {
    if events != [] {
      NoPassNoDrift(r, events[..|events| - 1], tier);
    }
  }

  lemma {:induction false} OnlySessionsAreSessions(events: seq<Event>)
    ensures forall i :: 0 <= i < |OnlySessions(events)| ==> OnlySessions(events)[i].SessionEnds?
  {
    if events != [] {
      OnlySessionsAreSessions(events[..|events| - 1]);
    }
  }

  // Nothing is due exactly when there is nothing to pay.
  lemma DueHasBase(r: Daily)
    requires RecordOk(r)
    ensures 0.0 <= Base(r) && (Due(r) <==> 0.0 < Base(r))
    ensures !Due(r) ==> Base(r) == 0.0 && Bonus(r) == 0.0
  {
  }

  // The bonus after any events is what the base paid so far earns at a tier of one's
  // choice, plus the drift against that tier.
  lemma {:induction false} BonusAndDrift(r: Daily, events: seq<Event>, tier: int)
    requires RecordOk(r) && Sensible(events)
    ensures After(r, events).bonus == r.bonus + AtTier(After(r, events).base - r.base, tier) + Drift(r, events, tier)
  {
    if events != [] {
      var init := events[..|events| - 1];
      BonusAndDrift(r, init, tier);
      AfterKeepsRecord(r, init);
      DueHasBase(After(r, init));
    }
  }

  lemma LastPassHasNoExcess(r: Daily, events: seq<Event>)
    ensures var tier := After(r, events).tier; Drift(r, events + [Pass(true)], tier) == Drift(r, events, tier)
  {
    assert (events + [Pass(true)])[..|events|] == events;
  }

  // A record paid in full: the base of all its minutes, the bonus of that base at the tier
  // of the end, and the drift.
  ghost predicate PaidWithDrift(paid: Daily, r: Daily, minutes: real, tier: int, drift: real) {
    && paid.base == (r.total + minutes) * 0.5
    && paid.bonus == r.bonus + AtTier(paid.base - r.base, tier) + drift
    && paid.reward == paid.base + paid.bonus
  }

  lemma PaidInTheEnd(r: Daily, events: seq<Event>)
    requires RecordOk(r) && Sensible(events)
    ensures var tier := After(r, events).tier;
            PaidWithDrift(After(r, events + [Pass(true)]), r, MinutesIn(events), tier, Drift(r, events, tier))
  {
    AnyScheduleSameBase(r, events, events);
    LastPassHasNoExcess(r, events);
    assert Sensible(events + [Pass(true)]);
    BonusAndDrift(r, events + [Pass(true)], After(r, events).tier);
    AfterKeepsRecord(r, events + [Pass(true)]);
  }

  lemma PaidAtOnce(r: Daily, events: seq<Event>)
    requires RecordOk(r) && Sensible(events)
    ensures PaidWithDrift(After(r, OnlySessions(events) + [Pass(true)]), r, MinutesIn(events), After(r, events).tier, 0.0)
  {
    OnlySessionsKeep(r, events);
    OnlySessionsAreSessions(events);
    NoPassNoDrift(r, OnlySessions(events), After(r, events).tier);
    PaidInTheEnd(r, OnlySessions(events));
  }

  // Two ways of paying the same minutes.
  ghost predicate DifferBy(paid: Daily, once: Daily, drift: real) {
    paid.base == once.base && paid.bonus == once.bonus + drift && paid.reward == once.reward + drift
  }

  lemma DriftIsDifference(paid: Daily, once: Daily, r: Daily, minutes: real, tier: int, drift: real)
    requires PaidWithDrift(paid, r, minutes, tier, drift) && PaidWithDrift(once, r, minutes, tier, 0.0)
    ensures DifferBy(paid, once, drift)
  {
  }

  // Any schedule of passes that ends in a confirmed one pays the base of a single final
  // pass over the same sessions, and its bonus and total differ from that pass's by the
  // drift; so the two pay the same if and only if the drift is zero.
  lemma ScheduleDiffersByDrift(r: Daily, events: seq<Event>)
    requires RecordOk(r) && Sensible(events)
    ensures DifferBy(After(r, events + [Pass(true)]), After(r, OnlySessions(events) + [Pass(true)]),
                     Drift(r, events, After(r, events).tier))
  {
    PaidInTheEnd(r, events);
    PaidAtOnce(r, events);
    DriftIsDifference(After(r, events + [Pass(true)]), After(r, OnlySessions(events) + [Pass(true)]), r,
                      MinutesIn(events), After(r, events).tier, Drift(r, events, After(r, events).tier));
  }

  lemma ExcessIsZeroExactly(paying: Daily, tier: int)
    requires 0.0 < Base(paying)
    ensures Excess(paying, tier) == 0.0 <==> BonusRate(paying.tier) == BonusRate(tier)
  {
  }

  lemma EarlyPassDrift(r: Daily, e: Event, tier: int)
    requires e.SessionEnds?
    ensures Drift(r, [Pass(true), e], tier) == Excess(r, tier)
    ensures OnlySessions([Pass(true), e]) == [e]
    ensures After(r, [Pass(true), e]).tier == DetermineTier(e.speed, e.ping)
  {
    var pass: seq<Event> := [Pass(true)];
    assert [Pass(true), e][..1] == pass && pass[..0] == [];
    assert After(r, []) == r && OnlySessions(pass) == [] && [] + [e] == [e];
    assert Drift(r, pass, tier) == Excess(r, tier);
  }

  // One pass before the day's last session: the bonus is the same exactly when that session
  // leaves the bonus rate as it was.
  lemma EarlyPassSameBonusExactly(r: Daily, minutes: real, speed: real, ping: real)
    requires RecordOk(r) && Due(r) && 0.0 <= minutes
    ensures var e := SessionEnds(minutes, speed, ping);
            After(r, [Pass(true), e] + [Pass(true)]).bonus == After(r, [e] + [Pass(true)]).bonus <==>
            BonusRate(r.tier) == BonusRate(DetermineTier(speed, ping))
  {
    var e := SessionEnds(minutes, speed, ping);
    EarlyPassDrift(r, e, DetermineTier(speed, ping));
    ScheduleDiffersByDrift(r, [Pass(true), e]);
    DueHasBase(r);
    ExcessIsZeroExactly(r, DetermineTier(speed, ping));
  }

  // The record starts at the rate of a tier and every session keeps it.
  ghost predicate RateStays(r: Daily, events: seq<Event>, tier: int) {
    && BonusRate(r.tier) == BonusRate(tier)
    && forall i :: 0 <= i < |events| && events[i].SessionEnds? ==>
         BonusRate(DetermineTier(events[i].speed, events[i].ping)) == BonusRate(tier)
  }

  lemma {:induction false} RateStaysNoDrift(r: Daily, events: seq<Event>, tier: int)
    requires RateStays(r, events, tier)
    ensures BonusRate(After(r, events).tier) == BonusRate(tier) && Drift(r, events, tier) == 0.0
  {
    if events != [] {
      RateStaysNoDrift(r, events[..|events| - 1], tier);
    }
  }

  // While the rate stays, every schedule pays that rate on the base it has paid ...
  lemma SteadyRateBonus(r: Daily, events: seq<Event>, tier: int)
    requires RecordOk(r) && Sensible(events) && RateStays(r, events, tier)
    ensures After(r, events).bonus == r.bonus + (After(r, events).base - r.base) * BonusRate(tier)
  {
    RateStaysNoDrift(r, events, tier);
    BonusAndDrift(r, events, tier);
    AtTierIsProduct(After(r, events).base - r.base, tier);
  }

  // ... and the total does not depend on when the passes happen.
  lemma SteadyRateAnySchedule(r: Daily, events: seq<Event>, tier: int)
    requires RecordOk(r) && Sensible(events) && RateStays(r, events, tier)
    ensures DifferBy(After(r, events + [Pass(true)]), After(r, OnlySessions(events) + [Pass(true)]), 0.0)
  {
    RateStaysNoDrift(r, events, tier);
    RateStaysNoDrift(r, events, After(r, events).tier);
    ScheduleDiffersByDrift(r, events);
  }

  // A concrete pair of schedules: ten fast minutes and ten slow ones, paid in between or
  // not.
  lemma BonusDependsOnSchedule()
    ensures var r := NEW_RECORD;
            var fast, slow := SessionEnds(10.0, 60.0, 20.0), SessionEnds(10.0, 1.0, 500.0);
            && Next(Next(Next(Next(r, fast), Pass(true)), slow), Pass(true)).bonus == 1.0
            && Next(Next(Next(Next(r, fast), Pass(false)), slow), Pass(true)).bonus == 0.0
  {
    var r := NEW_RECORD;
    var fast, slow := SessionEnds(10.0, 60.0, 20.0), SessionEnds(10.0, 1.0, 500.0);
    TierThresholds(60.0, 20.0);
    TierThresholds(1.0, 500.0);
    assert Next(r, fast) == Daily(10.0, 0.0, 1, 1, 0.0, 0.0, 0.0, false);
    var paid := Daily(10.0, 10.0, 1, 1, 5.0, 1.0, 6.0, true);
    assert Next(Next(r, fast), Pass(true)) == paid;
    assert Next(paid, slow) == Daily(20.0, 10.0, 2, 4, 5.0, 1.0, 6.0, false);
    assert Next(Next(r, fast), slow) == Daily(20.0, 0.0, 2, 4, 0.0, 0.0, 0.0, false);
  }

  // ---------------------------------------------------------------- the records of a run

  // A record that does not exist yet is one with nothing in it.
  const NEW_RECORD := Daily(0.0, 0.0, 0, 4, 0.0, 0.0, 0.0, false)

  function RecordOf(s: State, k: Key): Daily {
    if k in s.daily then s.daily[k] else NEW_RECORD
  }

  // What one operation is to the record of one day.
  function EventsIn(s: State, op: Op, k: Key): seq<Event> {
    match op
    case OpDisconnect(user, speed, ping) =>
      if user in s.active && Key(s.now / DAY_MS, user) == k
      then [SessionEnds(Minutes(s.now - s.active[user].start), speed, ping)] else []
    case OpPay(key, confirmed) => if key == k then [Pass(confirmed)] else []
    case _ => []
  }

  function EventsOf(s: State, ops: seq<Op>, k: Key): seq<Event>
    decreases |ops|
  {
    if ops == [] then [] else EventsIn(s, ops[0], k) + EventsOf(Apply(s, ops[0]), ops[1..], k)
  }

  lemma {:induction false} AfterAppend(r: Daily, a: seq<Event>, b: seq<Event>)
    ensures After(r, a + b) == After(After(r, a), b)
  {
    if b == [] {
      assert a + b == a;
    } else {
      assert (a + b)[..|a + b| - 1] == a + b[..|b| - 1];
      AfterAppend(r, a, b[..|b| - 1]);
    }
  }

  lemma OpIsEvents(s: State, op: Op, k: Key)
    ensures RecordOf(Apply(s, op), k) == After(RecordOf(s, k), EventsIn(s, op, k))
  {
    var events := EventsIn(s, op, k);
    if events != [] {
      assert events[..0] == [] && After(RecordOf(s, k), []) == RecordOf(s, k);
    }
  }

  // A run treats each record as its own sequence of sessions and passes does.
  lemma {:induction false} RunIsEvents(s: State, ops: seq<Op>, k: Key)
    ensures RecordOf(Run(s, ops), k) == After(RecordOf(s, k), EventsOf(s, ops, k))
    decreases |ops|
  {
    if ops != [] {
      OpIsEvents(s, ops[0], k);
      RunIsEvents(Apply(s, ops[0]), ops[1..], k);
      AfterAppend(RecordOf(s, k), EventsIn(s, ops[0], k), EventsOf(Apply(s, ops[0]), ops[1..], k));
    }
  }

  lemma {:induction false} EventsAreSensible(s: State, t0: int, ops: seq<Op>, k: Key)
    requires Inv(s, t0)
    ensures Sensible(EventsOf(s, ops, k))
    decreases |ops|
  {
    if ops != [] {
      ApplyKeepsInv(s, t0, ops[0]);
      EventsAreSensible(Apply(s, ops[0]), t0, ops[1..], k);
    }
  }

  lemma LastPass(s: State, k: Key, events: seq<Event>)
    requires RecordOf(s, k) == After(NEW_RECORD, events)
    ensures RecordOf(Pay(s, k, true), k) == After(NEW_RECORD, events + [Pass(true)])
    ensures RecordOf(Pay(s, k, true), k).tier == After(NEW_RECORD, events).tier
  {
    OpIsEvents(s, OpPay(k, true), k);
    AfterAppend(NEW_RECORD, events, [Pass(true)]);
  }

  // In every run: when a record is paid in the end, it has received the base of all its
  // minutes, as in a single payment, and the bonus of that payment plus the drift of its
  // own schedule.
  lemma EveryRunDiffersByDrift(t0: int, ops: seq<Op>, k: Key)
    ensures var events := EventsOf(StartAt(t0), ops, k);
            var paid := RecordOf(Pay(Run(StartAt(t0), ops), k, true), k);
            && paid.base == MinutesIn(events) * 0.5
            && DifferBy(paid, After(NEW_RECORD, OnlySessions(events) + [Pass(true)]), Drift(NEW_RECORD, events, paid.tier))
  {
    var events := EventsOf(StartAt(t0), ops, k);
    StartInv(t0);
    EventsAreSensible(StartAt(t0), t0, ops, k);
    RunIsEvents(StartAt(t0), ops, k);
    LastPass(Run(StartAt(t0), ops), k, events);
    PaidInTheEnd(NEW_RECORD, events);
    ScheduleDiffersByDrift(NEW_RECORD, events);
  }
}
