/** The tier configuration of one reward type. */
module ReferralConfig {
  import opened Wrappers

  const FALLBACK_CAP: real := 10000.0

  datatype TierConfig = TierConfig(level: int, percentage: real, cap: Option<real>, enabled: bool)

  datatype RewardConfig = RewardConfig(enabled: bool, tiers: seq<TierConfig>)

  const DEFAULT_UPTIME := RewardConfig(true, [
    TierConfig(1, 2.0, Some(10000.0), true), TierConfig(2, 1.0, Some(10000.0), true)])
  const DEFAULT_TASK := RewardConfig(true, [TierConfig(1, 5.0, None, true), TierConfig(2, 2.0, None, true)])

  // tier_configs[0]?.monthly_cap_amount || 10000
  function DefaultCap(c: RewardConfig): real {
    if c.tiers != [] && c.tiers[0].cap.Some? && c.tiers[0].cap.value != 0.0 then c.tiers[0].cap.value else FALLBACK_CAP
  }

  function Enabled(tiers: seq<TierConfig>): (r: seq<TierConfig>)
    ensures forall t :: t in r <==> t in tiers && t.enabled
  {
    if tiers == [] then []
    else if tiers[0].enabled then [tiers[0]] + Enabled(tiers[1..])
    else Enabled(tiers[1..])
  }

  function EnabledTiers(c: RewardConfig): seq<TierConfig> {
    if c.enabled then Enabled(c.tiers) else []
  }

  // Levels strictly increase: sorted, and no level twice.
  ghost predicate Ordered(tiers: seq<TierConfig>) {
    forall i, j :: 0 <= i < j < |tiers| ==> tiers[i].level < tiers[j].level
  }

  // A head below everything may be put in front.
  lemma HeadKeepsOrder(head: TierConfig, rest: seq<TierConfig>)
    requires Ordered(rest) && forall x :: x in rest ==> head.level < x.level
    ensures Ordered([head] + rest)
  {
    forall j | 0 <= j < |rest| ensures head.level < rest[j].level {
      assert rest[j] in rest;
    }
  }

  lemma TailIsOrdered(tiers: seq<TierConfig>)
    requires tiers != [] && Ordered(tiers)
    ensures Ordered(tiers[1..]) && forall x :: x in tiers[1..] ==> tiers[0].level < x.level
  {
    var rest := tiers[1..];
    assert forall i :: 0 <= i < |rest| ==> rest[i] == tiers[i + 1];
    forall x | x in rest ensures tiers[0].level < x.level {
      var k :| 0 <= k < |rest| && rest[k] == x;
    }
  }

  // Leaving out disabled tiers keeps the order.
  lemma {:induction false} EnabledIsOrdered(tiers: seq<TierConfig>)
    requires Ordered(tiers)
    ensures Ordered(Enabled(tiers))
  {
    if tiers != [] {
      TailIsOrdered(tiers);
      EnabledIsOrdered(tiers[1..]);
      HeadKeepsOrder(tiers[0], Enabled(tiers[1..]));
    }
  }

  // The cap of the first tier is the one that applies to all; no percentage is negative.
  ghost predicate Sane(c: RewardConfig) {
    && 0.0 < DefaultCap(c)
    && forall t :: t in c.tiers ==> 0.0 <= t.percentage
  }

  // Both defaults pay every tier, in order.
  lemma DefaultsAreSane()
    ensures Ordered(DEFAULT_UPTIME.tiers) && Sane(DEFAULT_UPTIME) && EnabledTiers(DEFAULT_UPTIME) == DEFAULT_UPTIME.tiers
    ensures Ordered(DEFAULT_TASK.tiers) && Sane(DEFAULT_TASK) && EnabledTiers(DEFAULT_TASK) == DEFAULT_TASK.tiers
    ensures DefaultCap(DEFAULT_UPTIME) == FALLBACK_CAP
    ensures forall t :: t in DEFAULT_UPTIME.tiers <==>
              t == TierConfig(1, 2.0, Some(10000.0), true) || t == TierConfig(2, 1.0, Some(10000.0), true)
    ensures forall t :: t in DEFAULT_TASK.tiers <==> t == TierConfig(1, 5.0, None, true) || t == TierConfig(2, 2.0, None, true)
  {
    AllEnabled(DEFAULT_UPTIME.tiers);
    AllEnabled(DEFAULT_TASK.tiers);
  }

  lemma {:induction false} AllEnabled(tiers: seq<TierConfig>)
    requires forall t :: t in tiers ==> t.enabled
    ensures Enabled(tiers) == tiers
  {
    if tiers != [] {
      AllEnabled(tiers[1..]);
    }
  }

  function Replace(tiers: seq<TierConfig>, t: TierConfig): seq<TierConfig> {
    if tiers == [] then []
    else if tiers[0].level == t.level then [t] + tiers[1..]
    else [tiers[0]] + Replace(tiers[1..], t)
  }

  function InsertSorted(tiers: seq<TierConfig>, t: TierConfig): seq<TierConfig> {
    if tiers == [] || t.level < tiers[0].level then [t] + tiers
    else [tiers[0]] + InsertSorted(tiers[1..], t)
  }

  // Replace the tier of that level, or push and sort.
  function WithTier(tiers: seq<TierConfig>, t: TierConfig): seq<TierConfig> {
    if exists i :: 0 <= i < |tiers| && tiers[i].level == t.level then Replace(tiers, t) else InsertSorted(tiers, t)
  }

  function WithoutTier(tiers: seq<TierConfig>, level: int): seq<TierConfig> {
    if tiers == [] then []
    else if tiers[0].level == level then WithoutTier(tiers[1..], level)
    else [tiers[0]] + WithoutTier(tiers[1..], level)
  }

  lemma {:induction false} ReplaceIsUpdate(tiers: seq<TierConfig>, t: TierConfig, k: nat)
    requires k < |tiers| && tiers[k].level == t.level
    requires forall i :: 0 <= i < k ==> tiers[i].level != t.level
    ensures Replace(tiers, t) == tiers[k := t]
  {
    if 0 < k {
      ReplaceIsUpdate(tiers[1..], t, k - 1);
    }
  }

  lemma {:induction false} InsertLaw(tiers: seq<TierConfig>, t: TierConfig)
    requires Ordered(tiers) && forall i :: 0 <= i < |tiers| ==> tiers[i].level != t.level
    ensures Ordered(InsertSorted(tiers, t))
    ensures forall x :: x in InsertSorted(tiers, t) <==> x == t || x in tiers
  {
    if tiers != [] {
      TailIsOrdered(tiers);
      if tiers[0].level < t.level {
        var rest := tiers[1..];
        assert forall i :: 0 <= i < |rest| ==> rest[i] == tiers[i + 1];
        InsertLaw(rest, t);
        HeadKeepsOrder(tiers[0], InsertSorted(rest, t));
      } else {
        assert tiers == [tiers[0]] + tiers[1..];
        HeadKeepsOrder(t, tiers);
      }
    }
  }

  // Adding a tier keeps the list ordered and puts exactly that tier at its level.
  lemma AddTierLaw(tiers: seq<TierConfig>, t: TierConfig)
    requires Ordered(tiers)
    ensures Ordered(WithTier(tiers, t))
    ensures forall x :: x in WithTier(tiers, t) <==> x == t || (x in tiers && x.level != t.level)
  {
    if exists i :: 0 <= i < |tiers| && tiers[i].level == t.level {
      var k :| 0 <= k < |tiers| && tiers[k].level == t.level;
      ReplaceIsUpdate(tiers, t, k);
      assert tiers[k := t][k] == t;
      forall x | x in tiers && x.level != t.level ensures x in tiers[k := t] {
        var i :| 0 <= i < |tiers| && tiers[i] == x;
        assert tiers[k := t][i] == x;
      }
    } else {
      InsertLaw(tiers, t);
    }
  }

  lemma {:induction false} RemoveTierLaw(tiers: seq<TierConfig>, level: int)
    requires Ordered(tiers)
    ensures Ordered(WithoutTier(tiers, level))
    ensures forall x :: x in WithoutTier(tiers, level) <==> x in tiers && x.level != level
  {
    if tiers != [] {
      TailIsOrdered(tiers);
      RemoveTierLaw(tiers[1..], level);
      HeadKeepsOrder(tiers[0], WithoutTier(tiers[1..], level));
    }
  }

  // The configuration manager, for one reward type.
  class ReferralConfigManager {
    var config: RewardConfig

    ghost predicate Valid()
      reads this
    {
      Ordered(config.tiers)
    }

    constructor (config: RewardConfig)
      requires Ordered(config.tiers)
      ensures Valid() && this.config == config
    {
      this.config := config;
    }

    method AddTier(t: TierConfig)
      requires Valid()
      modifies this
      ensures Valid() && config.enabled == old(config).enabled
      ensures forall x :: x in config.tiers <==> x == t || (x in old(config).tiers && x.level != t.level)
    {
      AddTierLaw(config.tiers, t);
      var i := 0;
      while i < |config.tiers| && config.tiers[i].level != t.level
        invariant 0 <= i <= |config.tiers|
        invariant forall k :: 0 <= k < i ==> config.tiers[k].level != t.level
      {
        i := i + 1;
      }
      if i < |config.tiers| {
        ReplaceIsUpdate(config.tiers, t, i);
        config := config.(tiers := config.tiers[i := t]);
      } else {
        config := config.(tiers := InsertSorted(config.tiers, t));
      }
    }

    method RemoveTier(level: int)
      requires Valid()
      modifies this
      ensures Valid() && config.enabled == old(config).enabled
      ensures forall x :: x in config.tiers <==> x in old(config).tiers && x.level != level
    {
      RemoveTierLaw(config.tiers, level);
      config := config.(tiers := WithoutTier(config.tiers, level));
    }

    method SetTierEnabled(level: int, enabled: bool)
      requires Valid()
      modifies this
      ensures Valid() && |config.tiers| == |old(config).tiers| && config.enabled == old(config).enabled
      ensures forall i :: 0 <= i < |config.tiers| ==>
                config.tiers[i] == if old(config).tiers[i].level == level
                                   then old(config).tiers[i].(enabled := enabled) else old(config).tiers[i]
    {
      var i := 0;
      while i < |config.tiers| && config.tiers[i].level != level
        invariant 0 <= i <= |config.tiers|
        invariant forall k :: 0 <= k < i ==> config.tiers[k].level != level
      {
        i := i + 1;
      }
      if i < |config.tiers| {
        config := config.(tiers := config.tiers[i := config.tiers[i].(enabled := enabled)]);
      }
    }

    method GetEnabledTiers() returns (tiers: seq<TierConfig>)
      ensures forall t :: t in tiers <==> config.enabled && t in config.tiers && t.enabled
    {
      tiers := EnabledTiers(config);
    }
  }
}
