/** Frequency limits at low battery: the threshold in force, and the limit requests sent for it. */
module BatteryLimit {
  import opened Basics

  const INT32_MAX := 0x7FFF_FFFF
  const INT32_MIN := -0x8000_0000
  const NO_LIMIT := -1
  const CHARGE_STATE_ENABLE := 1
  const CHARGE_STATE_FULL := 3

  /** The limits of one threshold: a frequency for each tag. */
  datatype Frequencies = Frequencies(tags: seq<int>, configs: seq<int>)

  type Config = map<int, Frequencies>

  /** One LimitRequest: the tags it names and the value it sets each to; INT32_MAX lifts a limit. */
  datatype Request = Request(tags: seq<int>, values: seq<int>)

  /** The threshold in force, the PowerLimitBoost calls, and the limit requests sent. */
  datatype Battery = Battery(last: int, boosts: seq<bool>, requests: seq<Request>)

  datatype Event = Event(value: int, chargeState: int)

  /** The 64-bit event value as the 32-bit capacity parameter takes it. */
  function ToInt32(v: int): (r: int)
    ensures INT32_MIN <= r <= INT32_MAX
    ensures INT32_MIN <= v <= INT32_MAX ==> r == v
    ensures (v - r) % 0x1_0000_0000 == 0
  {
    var low := v % 0x1_0000_0000;
    if low > INT32_MAX then low - 0x1_0000_0000 else low
  }

  predicate Charging(e: Event) {
    e.chargeState == CHARGE_STATE_ENABLE || e.chargeState == CHARGE_STATE_FULL
  }

  /** The first threshold met going up from c, and the maximum one if none is met before it. */
  function ThresholdFrom(keys: set<int>, c: int, max: int): int
    decreases max - c
  {
    if c >= max then max else if c in keys then c else ThresholdFrom(keys, c + 1, max)
  }

  function Lifted(n: nat): (v: seq<int>)
    ensures |v| == n && forall i :: 0 <= i < n ==> v[i] == INT32_MAX
  {
    seq(n, _ => INT32_MAX)
  }

  function Recover(cfg: Config, b: Battery): Battery
    requires b.last != NO_LIMIT ==> b.last in cfg
  {
    if b.last == NO_LIMIT then b
    else Battery(NO_LIMIT, b.boosts + [false], b.requests + [Request(cfg[b.last].tags, Lifted(|cfg[b.last].configs|))])
  }

  function Limit(cfg: Config, b: Battery, t: int): Battery
    requires t in cfg
  {
    if b.last == t then b
    else Battery(t, b.boosts + [true], b.requests + [Request(cfg[t].tags, cfg[t].configs)])
  }

  /** The largest threshold is max, and each tag has its frequency. */
  ghost predicate Shaped(cfg: Config, max: int) {
    && max in cfg
    && (forall k :: k in cfg ==> INT32_MIN <= k <= max <= INT32_MAX)
    && (forall k :: k in cfg ==> |cfg[k].tags| == |cfg[k].configs|)
  }

  /** No threshold is taken for the mark that there is no limit. */
  ghost predicate GoodConfig(cfg: Config, max: int) {
    Shaped(cfg, max) && NO_LIMIT !in cfg
  }

  /** The threshold an event calls for. */
  function Target(cfg: Config, max: int, e: Event): int {
    if e.value > max || Charging(e) then NO_LIMIT else ThresholdFrom(cfg.Keys, ToInt32(e.value), max)
  }

  lemma {:induction false} ThresholdIsConfigured(keys: set<int>, c: int, max: int)
    requires max in keys
    ensures ThresholdFrom(keys, c, max) in keys
    ensures c <= max ==> ThresholdFrom(keys, c, max) >= c
    ensures c <= max ==> forall k :: k in keys && c <= k <= max ==> ThresholdFrom(keys, c, max) <= k
    decreases max - c
  {
    if c < max && c !in keys {
      ThresholdIsConfigured(keys, c + 1, max);
    }
  }

  ghost function Step(cfg: Config, max: int, b: Battery, e: Event): (r: Battery)
    requires Shaped(cfg, max) && (b.last != NO_LIMIT ==> b.last in cfg)
    ensures r.last != NO_LIMIT ==> r.last in cfg
  {
    ThresholdIsConfigured(cfg.Keys, ToInt32(e.value), max);
    if e.value > max || Charging(e) then Recover(cfg, b) else Limit(cfg, b, Target(cfg, max, e))
  }

  ghost function Run(cfg: Config, max: int, es: seq<Event>): (b: Battery)
    requires Shaped(cfg, max)
    ensures b.last != NO_LIMIT ==> b.last in cfg
  {
    if |es| == 0 then Battery(NO_LIMIT, [], []) else Step(cfg, max, Run(cfg, max, es[..|es| - 1]), es[|es| - 1])
  }

  /** The threshold in force depends on the latest event alone, and the boost is on exactly under a limit. */
  lemma {:induction false} LatestEventDecides(cfg: Config, max: int, es: seq<Event>)
    requires Shaped(cfg, max)
    ensures Run(cfg, max, es).last == if |es| == 0 then NO_LIMIT else Target(cfg, max, es[|es| - 1])
    ensures GoodConfig(cfg, max) ==> (LastOn(Run(cfg, max, es).boosts) <==> Run(cfg, max, es).last != NO_LIMIT)
  {
    if |es| > 0 {
      LatestEventDecides(cfg, max, es[..|es| - 1]);
      ThresholdIsConfigured(cfg.Keys, ToInt32(es[|es| - 1].value), max);
    }
  }

  ghost predicate BoostsFollowLimits(cfg: Config, max: int)
    requires Shaped(cfg, max)
  {
    forall es :: LastOn(Run(cfg, max, es).boosts) <==> Run(cfg, max, es).last != NO_LIMIT
  }

  /** A threshold of -1 is taken for no limit, so the boost stays on under it; alone it never comes into force. */
  lemma BoostsFollowLimitsExactly(cfg: Config, max: int)
    requires Shaped(cfg, max)
    ensures BoostsFollowLimits(cfg, max) <==> (NO_LIMIT in cfg ==> cfg.Keys == {NO_LIMIT})
  {
    if NO_LIMIT !in cfg {
      forall es ensures LastOn(Run(cfg, max, es).boosts) <==> Run(cfg, max, es).last != NO_LIMIT {
        LatestEventDecides(cfg, max, es);
      }
    } else if cfg.Keys == {NO_LIMIT} {
      forall es ensures LastOn(Run(cfg, max, es).boosts) <==> Run(cfg, max, es).last != NO_LIMIT {
        LoneMarkIsIdle(cfg, max, es);
      }
    } else {
      assert cfg.Keys - {NO_LIMIT} != {};
      var a := Member(cfg.Keys - {NO_LIMIT});
      var e1, e2 := Event(a, 0), Event(NO_LIMIT, 0);
      RunNext(cfg, max, [], e1);
      RunNext(cfg, max, [e1], e2);
      assert [] + [e1] == [e1] && [e1] + [e2] == [e1, e2];
      assert Run(cfg, max, [e1]).boosts == [true] && Run(cfg, max, [e1]).last == a;
      assert Run(cfg, max, [e1, e2]).boosts == [true] + [true] && Run(cfg, max, [e1, e2]).last == NO_LIMIT;
    }
  }

  lemma {:induction false} LoneMarkIsIdle(cfg: Config, max: int, es: seq<Event>)
    requires Shaped(cfg, max) && cfg.Keys == {NO_LIMIT}
    ensures Run(cfg, max, es) == Battery(NO_LIMIT, [], [])
  {
    if |es| > 0 {
      LoneMarkIsIdle(cfg, max, es[..|es| - 1]);
      ThresholdIsConfigured(cfg.Keys, ToInt32(es[|es| - 1].value), max);
    }
  }

  ghost predicate IsLeastThresholdAtLeast(keys: set<int>, t: int, value: int) {
    t in keys && t >= value && forall k :: k in keys && k >= value ==> t <= k
  }

  /**
   * A discharging event up to the maximum threshold gets the least threshold not below its value,
   * unless the value is below 32-bit range and wraps past some threshold.
   */
  lemma TargetIsLeastThreshold(cfg: Config, max: int, e: Event)
    requires Shaped(cfg, max) && e.value <= max && !Charging(e)
    ensures IsLeastThresholdAtLeast(cfg.Keys, Target(cfg, max, e), e.value)
      <==> e.value >= INT32_MIN || forall k :: k in cfg ==> k >= max || k >= ToInt32(e.value)
  {
    ThresholdIsConfigured(cfg.Keys, ToInt32(e.value), max);
  }

  /**
   * After any run that ends with this event: no limit if it reports charge state 1 or 3 or a value above the largest
   * threshold, else, for a value in 32-bit range, the least threshold not below it.
   */
  lemma LimitFollowsTheEvent(cfg: Config, max: int, es: seq<Event>, e: Event)
    requires Shaped(cfg, max)
    ensures var last := Run(cfg, max, es + [e]).last;
      if e.chargeState == 1 || e.chargeState == 3 || e.value > max then last == -1
      else e.value >= -0x8000_0000 ==>
        last in cfg && last >= e.value && forall k :: k in cfg && k >= e.value ==> last <= k
  {
    assert (es + [e])[..|es + [e]| - 1] == es;
    LatestEventDecides(cfg, max, es + [e]);
    if e.value <= max && !Charging(e) {
      TargetIsLeastThreshold(cfg, max, e);
    }
  }

  /** Below 32-bit range the promise does fail: -4294967246 is taken for 50. */
  lemma WrappedValuePicksTheWrongThreshold()
    ensures exists cfg, max, e: Event :: GoodConfig(cfg, max) && e.value <= max && !Charging(e) &&
                                         !IsLeastThresholdAtLeast(cfg.Keys, Target(cfg, max, e), e.value)
  {
    var cfg := map[20 := Frequencies([], []), 60 := Frequencies([], [])];
    var e := Event(50 - 0x1_0000_0000, 0);
    assert ToInt32(e.value) == 50 && 20 in cfg;
    TargetIsLeastThreshold(cfg, 60, e);
    assert GoodConfig(cfg, 60) && !IsLeastThresholdAtLeast(cfg.Keys, Target(cfg, 60, e), e.value);
  }

  // ----- what stays limited after a recovery

  /** The value a request sets a tag to, if it names it; a later mention wins. */
  function ValueIn(tags: seq<int>, values: seq<int>, tag: int): Option<int>
    requires |tags| == |values|
  {
    if |tags| == 0 then None
    else if tags[|tags| - 1] == tag then Some(values[|values| - 1])
    else ValueIn(tags[..|tags| - 1], values[..|values| - 1], tag)
  }

  /** The value last sent for a tag. */
  function LastSent(rs: seq<Request>, tag: int): Option<int> {
    if |rs| == 0 then None
    else
      var r := rs[|rs| - 1];
      var v := if |r.tags| == |r.values| then ValueIn(r.tags, r.values, tag) else None;
      if v.Some? then v else LastSent(rs[..|rs| - 1], tag)
  }

  /**
   * One request and one boost call go out when the threshold in force changes, none otherwise: entering one sends each
   * of its tags its own frequency, recovering from one sends each the largest 32-bit number, which lifts the limit.
   */
  lemma {:induction false} RequestsFollowTheLimit(cfg: Config, max: int, es: seq<Event>, e: Event)
    requires GoodConfig(cfg, max)
    ensures var b, next := Run(cfg, max, es), Run(cfg, max, es + [e]);
      if next.last == b.last then next == b
      else
        && next.boosts == b.boosts + [next.last != -1]
        && |next.requests| == |b.requests| + 1 && next.requests[..|b.requests|] == b.requests
        && var r, t := next.requests[|b.requests|], if next.last != -1 then next.last else b.last;
          && t in cfg && r.tags == cfg[t].tags && |r.values| == |cfg[t].configs|
          && forall i :: 0 <= i < |r.values| ==>
            r.values[i] == if next.last != -1 then cfg[t].configs[i] else 0x7FFF_FFFF
  {
    RunNext(cfg, max, es, e);
    LatestEventDecides(cfg, max, es + [e]);
    ThresholdIsConfigured(cfg.Keys, ToInt32(e.value), max);
  }

  ghost predicate Limited(v: Option<int>) {
    v.Some? && v.value != INT32_MAX
  }

  /** A threshold really limits a tag. */
  ghost predicate Restricts(f: Frequencies, tag: int)
    requires |f.tags| == |f.configs|
  {
    Limited(ValueIn(f.tags, f.configs, tag))
  }

  /** Every tag some threshold limits is named by all thresholds. */
  ghost predicate SameTags(cfg: Config, max: int)
    requires Shaped(cfg, max)
  {
    forall a, b, tag :: a in cfg && b in cfg && Restricts(cfg[a], tag) ==> tag in cfg[b].tags
  }

  /** A threshold of -1, under which recovery finds nothing to do, limits no tag itself. */
  ghost predicate MarkIsHarmless(cfg: Config, max: int)
    requires Shaped(cfg, max)
  {
    NO_LIMIT in cfg ==> forall tag :: !Restricts(cfg[NO_LIMIT], tag)
  }

  ghost predicate AllLifted(rs: seq<Request>) {
    forall tag :: !Limited(LastSent(rs, tag))
  }

  ghost predicate RecoveryLiftsAll(cfg: Config, max: int)
    requires Shaped(cfg, max)
  {
    forall es :: Run(cfg, max, es).last == NO_LIMIT ==> AllLifted(Run(cfg, max, es).requests)
  }

  lemma {:induction false} ValueInMeansNamed(tags: seq<int>, values: seq<int>, tag: int)
    requires |tags| == |values|
    ensures ValueIn(tags, values, tag).Some? <==> tag in tags
    ensures ValueIn(tags, values, tag).Some? ==> ValueIn(tags, values, tag).value in values
  {
    if |tags| > 0 {
      ValueInMeansNamed(tags[..|tags| - 1], values[..|values| - 1], tag);
    }
  }

  lemma SentNext(rs: seq<Request>, r: Request, tag: int)
    requires |r.tags| == |r.values|
    ensures LastSent(rs + [r], tag) == if tag in r.tags then ValueIn(r.tags, r.values, tag) else LastSent(rs, tag)
  {
    ValueInMeansNamed(r.tags, r.values, tag);
    assert (rs + [r])[..|rs + [r]| - 1] == rs;
  }

  /**
   * What is still limited was limited by some threshold; with the same tags everywhere and a harmless -1, if there is
   * one, only while a threshold is in force.
   */
  lemma {:induction false} LimitedByThreshold(cfg: Config, max: int, es: seq<Event>, tag: int)
    requires Shaped(cfg, max)
    requires Limited(LastSent(Run(cfg, max, es).requests, tag))
    ensures exists a :: a in cfg && Restricts(cfg[a], tag)
    ensures SameTags(cfg, max) && MarkIsHarmless(cfg, max) ==> Run(cfg, max, es).last != NO_LIMIT
  {
    var before, e := Run(cfg, max, es[..|es| - 1]), es[|es| - 1];
    var now := Run(cfg, max, es);
    LatestEventDecides(cfg, max, es);
    ThresholdIsConfigured(cfg.Keys, ToInt32(e.value), max);
    if now == before {
      LimitedByThreshold(cfg, max, es[..|es| - 1], tag);
    } else {
      var r := now.requests[|before.requests|];
      SentNext(before.requests, r, tag);
      if tag !in r.tags {
        LimitedByThreshold(cfg, max, es[..|es| - 1], tag);
      } else {
        ValueInMeansNamed(r.tags, r.values, tag);
        assert now.last in cfg && Restricts(cfg[now.last], tag);
      }
    }
  }

  /** Two events from the start, the first bringing a proper threshold into force, the second another one. */
  lemma TwoThresholds(cfg: Config, max: int, a: int, b: int, tag: int)
    requires Shaped(cfg, max) && a in cfg && b in cfg && a != b && a != NO_LIMIT
    ensures var rs := [Request(cfg[a].tags, cfg[a].configs), Request(cfg[b].tags, cfg[b].configs)];
      && Run(cfg, max, [Event(a, 0), Event(b, 0)]) == Battery(b, [true, true], rs)
      && LastSent(rs, tag) == if tag in cfg[b].tags then ValueIn(cfg[b].tags, cfg[b].configs, tag)
        else ValueIn(cfg[a].tags, cfg[a].configs, tag)
  {
    var e1, e2 := Event(a, 0), Event(b, 0);
    var r1, r2 := Request(cfg[a].tags, cfg[a].configs), Request(cfg[b].tags, cfg[b].configs);
    RunNext(cfg, max, [], e1);
    assert Run(cfg, max, [e1]) == Battery(a, [true], [r1]) by { assert [] + [e1] == [e1]; }
    RunNext(cfg, max, [e1], e2);
    assert [e1] + [e2] == [e1, e2] && [true] + [true] == [true, true] && [r1] + [r2] == [r1, r2];
    ValueInMeansNamed(cfg[a].tags, cfg[a].configs, tag);
    SentNext([], r1, tag);
    SentNext([r1], r2, tag);
    assert [] + [r1] == [r1];
  }

  /** Two thresholds, the first limiting a tag the second does not name: the second's recovery does not lift it. */
  lemma LeakingRun(cfg: Config, max: int, a: int, b: int, tag: int)
    requires Shaped(cfg, max) && a in cfg && b in cfg && a != NO_LIMIT
    requires Restricts(cfg[a], tag) && tag !in cfg[b].tags
    ensures !RecoveryLiftsAll(cfg, max)
  {
    ValueInMeansNamed(cfg[a].tags, cfg[a].configs, tag);
    TwoThresholds(cfg, max, a, b, tag);
    var es := [Event(a, 0), Event(b, 0)];
    var two := Run(cfg, max, es);
    if b == NO_LIMIT {
      assert two.last == NO_LIMIT && Limited(LastSent(two.requests, tag));
    } else {
      var e := Event(0, CHARGE_STATE_FULL);
      var r := Request(cfg[b].tags, Lifted(|cfg[b].configs|));
      RunNext(cfg, max, es, e);
      SentNext(two.requests, r, tag);
      var three := Run(cfg, max, es + [e]);
      assert three == Battery(NO_LIMIT, two.boosts + [false], two.requests + [r]);
      assert Limited(LastSent(three.requests, tag));
    }
  }

  /** A threshold of -1 that limits a tag, reached from any other one: it reads as no limit, and is never lifted. */
  lemma LimitingMarkRun(cfg: Config, max: int, a: int, tag: int)
    requires Shaped(cfg, max) && a in cfg && a != NO_LIMIT && NO_LIMIT in cfg && Restricts(cfg[NO_LIMIT], tag)
    ensures !RecoveryLiftsAll(cfg, max)
  {
    ValueInMeansNamed(cfg[NO_LIMIT].tags, cfg[NO_LIMIT].configs, tag);
    TwoThresholds(cfg, max, a, NO_LIMIT, tag);
    var two := Run(cfg, max, [Event(a, 0), Event(NO_LIMIT, 0)]);
    assert two.last == NO_LIMIT && Limited(LastSent(two.requests, tag));
  }

  lemma RunNext(cfg: Config, max: int, es: seq<Event>, e: Event)
    requires Shaped(cfg, max)
    ensures Run(cfg, max, es + [e]) == Step(cfg, max, Run(cfg, max, es), e)
  {
    assert (es + [e])[..|es + [e]| - 1] == es;
  }

  /**
   * Recovery lifts every limit ever sent, over all runs, exactly when every tag that some threshold limits is named by
   * all of them and a threshold of -1 limits none; or when -1 is the only threshold, which never comes into force.
   */
  lemma RecoveryLiftsAllExactlyWithSameTags(cfg: Config, max: int)
    requires Shaped(cfg, max)
    ensures RecoveryLiftsAll(cfg, max)
      <==> cfg.Keys == {NO_LIMIT} || (SameTags(cfg, max) && MarkIsHarmless(cfg, max))
  {
    if cfg.Keys == {NO_LIMIT} {
      forall es ensures AllLifted(Run(cfg, max, es).requests) {
        LoneMarkIsIdle(cfg, max, es);
      }
    } else if SameTags(cfg, max) && MarkIsHarmless(cfg, max) {
      forall es, tag | Run(cfg, max, es).last == NO_LIMIT ensures !Limited(LastSent(Run(cfg, max, es).requests, tag)) {
        if Limited(LastSent(Run(cfg, max, es).requests, tag)) {
          LimitedByThreshold(cfg, max, es, tag);
        }
      }
    } else {
      SomeRunLeaks(cfg, max);
    }
  }

  lemma SomeRunLeaks(cfg: Config, max: int)
    requires Shaped(cfg, max) && cfg.Keys != {NO_LIMIT} && !(SameTags(cfg, max) && MarkIsHarmless(cfg, max))
    ensures !RecoveryLiftsAll(cfg, max)
  {
    if !MarkIsHarmless(cfg, max) {
      assert cfg.Keys - {NO_LIMIT} != {};
      var a := Member(cfg.Keys - {NO_LIMIT});
      var tag :| Restricts(cfg[NO_LIMIT], tag);
      LimitingMarkRun(cfg, max, a, tag);
    } else {
      var a, b, tag :| a in cfg && b in cfg && Restricts(cfg[a], tag) && tag !in cfg[b].tags;
      LeakingRun(cfg, max, a, b, tag);
    }
  }

  /** With 20 and -1 both limiting tag 1, every limited tag is named everywhere, and yet recovery leaves it limited. */
  lemma LimitingMarkHappens()
    ensures exists cfg, max :: Shaped(cfg, max) && SameTags(cfg, max) && !RecoveryLiftsAll(cfg, max)
  {
    var limit := Frequencies([1], [100]);
    var cfg := map[NO_LIMIT := limit, 20 := limit];
    forall a, tag | a in cfg && Restricts(cfg[a], tag) ensures tag in limit.tags {
      ValueInMeansNamed(limit.tags, limit.configs, tag);
    }
    assert SameTags(cfg, 20);
    assert Restricts(cfg[NO_LIMIT], 1);
    LimitingMarkRun(cfg, 20, 20, 1);
  }

  // ----- the plugin's battery part

  class BatteryLimiter {
    var socperfBatteryConfig: Config
    var maxBatteryLimitCapacity: int
    var lastBatteryLimitCap: int
    ghost var boosts: seq<bool>        // PowerLimitBoost calls for low battery
    ghost var requests: seq<Request>   // LimitRequest calls of the battery action

    /** The configuration as read so far, whatever its capacities; the maximum starts at -1. */
    ghost predicate Read()
      reads this
    {
      && (maxBatteryLimitCapacity == NO_LIMIT || maxBatteryLimitCapacity in socperfBatteryConfig)
      && NO_LIMIT <= maxBatteryLimitCapacity <= INT32_MAX
      && (forall k :: k in socperfBatteryConfig ==> INT32_MIN <= k <= maxBatteryLimitCapacity)
      && (forall k :: k in socperfBatteryConfig ==> |socperfBatteryConfig[k].tags| == |socperfBatteryConfig[k].configs|)
    }

    ghost predicate Valid()
      reads this
    {
      Read() && (lastBatteryLimitCap != NO_LIMIT ==> lastBatteryLimitCap in socperfBatteryConfig)
    }

    /** With capacities below -1 only, the maximum is no threshold: looking it up makes it one without tags. */
    ghost function Effective(): (cfg: Config)
      requires Read()
      reads this
      ensures Shaped(cfg, maxBatteryLimitCapacity)
    {
      if maxBatteryLimitCapacity in socperfBatteryConfig then socperfBatteryConfig
      else socperfBatteryConfig[maxBatteryLimitCapacity := Frequencies([], [])]
    }

    ghost function View(): Battery
      reads this
    {
      Battery(lastBatteryLimitCap, boosts, requests)
    }

    constructor ()
      ensures Valid() && View() == Battery(NO_LIMIT, [], []) && socperfBatteryConfig == map[]
    {
      socperfBatteryConfig, maxBatteryLimitCapacity, lastBatteryLimitCap := map[], NO_LIMIT, NO_LIMIT;
      boosts, requests := [], [];
    }

    method HandleBatterySubValue(capacity: int, tag: int, config: int)
      requires Read() && INT32_MIN <= capacity <= INT32_MAX
      modifies this`socperfBatteryConfig, this`maxBatteryLimitCapacity
      ensures Read() && (old(Valid()) ==> Valid()) && socperfBatteryConfig != map[]
      ensures maxBatteryLimitCapacity
        == if capacity > old(maxBatteryLimitCapacity) then capacity else old(maxBatteryLimitCapacity)
      ensures maxBatteryLimitCapacity in socperfBatteryConfig
        <==> old(maxBatteryLimitCapacity) in old(socperfBatteryConfig) || capacity >= NO_LIMIT
      ensures var was := old(socperfBatteryConfig);
        var f := if capacity in was then was[capacity] else Frequencies([], []);
        socperfBatteryConfig == was[capacity := Frequencies(f.tags + [tag], f.configs + [config])]
    {
      var frequencies := Frequencies([], []);
      if capacity in socperfBatteryConfig {
        frequencies := socperfBatteryConfig[capacity];
      }
      if capacity > maxBatteryLimitCapacity {
        maxBatteryLimitCapacity := capacity;
      }
      frequencies := Frequencies(frequencies.tags + [tag], frequencies.configs + [config]);
      socperfBatteryConfig := socperfBatteryConfig[capacity := frequencies];
      assert capacity in socperfBatteryConfig;
    }

    /** chargeState is None when the payload does not carry an integer charge state. */
    method HandleBatteryStatusChange(value: int, chargeState: Option<int>) returns (handled: bool)
      requires Valid()
      modifies this`socperfBatteryConfig, this`lastBatteryLimitCap, this`boosts, this`requests
      ensures Valid() && Effective() == old(Effective())
      ensures handled <==> old(socperfBatteryConfig) != map[] && chargeState.Some?
      ensures View() ==
        if handled then Step(Effective(), maxBatteryLimitCapacity, old(View()), Event(value, chargeState.value))
        else old(View())
    {
      if socperfBatteryConfig == map[] || chargeState.None? {
        return false;
      }
      if chargeState.value == CHARGE_STATE_ENABLE || chargeState.value == CHARGE_STATE_FULL {
        HandleFreqLimit(value, true);
      } else {
        HandleFreqLimit(value, false);
      }
      return true;
    }

    method HandleFreqLimit(value: int, isChargeState: bool)
      requires Valid() && socperfBatteryConfig != map[]
      modifies this`socperfBatteryConfig, this`lastBatteryLimitCap, this`boosts, this`requests
      ensures Valid() && Effective() == old(Effective())
      ensures View() == Step(Effective(), maxBatteryLimitCapacity, old(View()),
                             Event(value, if isChargeState then CHARGE_STATE_FULL else 0))
    {
      ThresholdIsConfigured(Effective().Keys, ToInt32(value), maxBatteryLimitCapacity);
      if value > maxBatteryLimitCapacity || isChargeState {
        var _ := HandleRecoverBatteryLimit();
      } else {
        var _ := HandleBatteryLimit(ToInt32(value));
      }
    }

    method GetLimitCapacity(capacity: int) returns (tempCap: int)
      requires Valid() && socperfBatteryConfig != map[]
      ensures tempCap == ThresholdFrom(Effective().Keys, capacity, maxBatteryLimitCapacity)
    {
      tempCap := maxBatteryLimitCapacity;
      ghost var keys := Effective().Keys;
      ghost var t := ThresholdFrom(keys, capacity, maxBatteryLimitCapacity);
      ThresholdIsConfigured(keys, capacity, maxBatteryLimitCapacity);
      var todo := socperfBatteryConfig.Keys;
      while todo != {}
        invariant todo <= keys && t <= tempCap <= maxBatteryLimitCapacity
        invariant capacity <= maxBatteryLimitCapacity && t !in todo ==> tempCap == t
        invariant capacity > maxBatteryLimitCapacity ==> tempCap == maxBatteryLimitCapacity
      {
        ghost var some := Member(todo);
        var key :| key in todo;
        todo := todo - {key};
        if key >= capacity && key <= tempCap {
          tempCap := key;
        }
      }
    }

    method HandleRecoverBatteryLimit() returns (recovered: bool)
      requires Valid()
      modifies this`lastBatteryLimitCap, this`boosts, this`requests
      ensures Valid() && View() == Recover(Effective(), old(View()))
      ensures recovered <==> old(lastBatteryLimitCap) != NO_LIMIT
    {
      if lastBatteryLimitCap == NO_LIMIT {
        return false;
      }
      boosts := boosts + [false];
      var frequencies := socperfBatteryConfig[lastBatteryLimitCap];
      requests := requests + [Request(frequencies.tags, Lifted(|frequencies.configs|))];
      lastBatteryLimitCap := NO_LIMIT;
      return true;
    }

    method HandleBatteryLimit(capacity: int) returns (limited: bool)
      requires Valid() && socperfBatteryConfig != map[]
      modifies this`socperfBatteryConfig, this`lastBatteryLimitCap, this`boosts, this`requests
      ensures Valid() && Effective() == old(Effective())
      ensures var t := ThresholdFrom(Effective().Keys, capacity, maxBatteryLimitCapacity);
        && t in Effective() && View() == Limit(Effective(), old(View()), t)
        && (limited <==> old(lastBatteryLimitCap) != t)
    {
      ThresholdIsConfigured(Effective().Keys, capacity, maxBatteryLimitCapacity);
      var limitCapacity := GetLimitCapacity(capacity);
      if lastBatteryLimitCap == limitCapacity {
        return false;
      }
      if limitCapacity !in socperfBatteryConfig {
        socperfBatteryConfig := socperfBatteryConfig[limitCapacity := Frequencies([], [])];
      }
      boosts := boosts + [true];
      var frequencies := socperfBatteryConfig[limitCapacity];
      requests := requests + [Request(frequencies.tags, frequencies.configs)];
      lastBatteryLimitCap := limitCapacity;
      return true;
    }
  }
}
