/** Weighted variant choice over the 10,000 slots (pkg/engine/evaluator.go, ResolveMultivariateVariant). */
module Quota {
  import opened Domain

  const SLOTS := 10_000

  function Bucket(slot: nat): real {
    slot as real / 100.0
  }

  function Abs(x: real): real {
    if x < 0.0 then -x else x
  }

  // The total over the first n variants, which leaves negative weights out.
  function PositiveTotal(vs: seq<FlagVariant>, n: nat): real
    requires n <= |vs|
  {
    if n == 0 then 0.0
    else PositiveTotal(vs, n - 1) + (if vs[n - 1].weight > 0.0 then vs[n - 1].weight else 0.0)
  }

  predicate Normalises(total: real) {
    total > 0.0 && Abs(total - 100.0) > 0.001
  }

  function Effective(w: real, total: real): real {
    if Normalises(total) then (w / total) * 100.0 else w
  }

  function Cumulative(vs: seq<FlagVariant>, n: nat, total: real): real
    requires n <= |vs|
  {
    if n == 0 then 0.0 else Cumulative(vs, n - 1, total) + Effective(vs[n - 1].weight, total)
  }

  function Total(vs: seq<FlagVariant>): real {
    PositiveTotal(vs, |vs|)
  }

  // The first variant from k on whose cumulative weight exceeds the bucket, or |vs| if there is none.
  function Pick(vs: seq<FlagVariant>, bucket: real, k: nat): (i: nat)
    requires k <= |vs|
    ensures k <= i <= |vs|
    ensures i < |vs| ==> bucket < Cumulative(vs, i + 1, Total(vs))
    ensures forall j :: k < j <= i ==> Cumulative(vs, j, Total(vs)) <= bucket
    decreases |vs| - k
  {
    if k == |vs| || bucket < Cumulative(vs, k + 1, Total(vs)) then k else Pick(vs, bucket, k + 1)
  }

  lemma {:induction false} PickIs(vs: seq<FlagVariant>, bucket: real, k: nat, i: nat)
    requires k <= i < |vs| && bucket < Cumulative(vs, i + 1, Total(vs))
    requires forall j :: k < j <= i ==> Cumulative(vs, j, Total(vs)) <= bucket
    ensures Pick(vs, bucket, k) == i
    decreases i - k
  {
    if k < i {
      PickIs(vs, bucket, k + 1, i);
    }
  }

  const DEFAULT_VARIANT := FlagVariant("default", "Default", Bool(true), 100.0)

  function Resolve(vs: seq<FlagVariant>, slot: nat): FlagVariant {
    if vs == [] then DEFAULT_VARIANT
    else
      var i := Pick(vs, Bucket(slot), 0);
      if i < |vs| then vs[i] else vs[|vs| - 1]
  }

  method ResolveMultivariateVariant(vs: seq<FlagVariant>, slot: nat) returns (v: FlagVariant)
    ensures v == Resolve(vs, slot)
  {
    if |vs| == 0 {
      return DEFAULT_VARIANT;
    }
    var bucket, total := Bucket(slot), 0.0;
    for i := 0 to |vs|
      invariant total == PositiveTotal(vs, i)
    {
      if vs[i].weight > 0.0 {
        total := total + vs[i].weight;
      }
    }
    var cumulative := 0.0;
    for i := 0 to |vs|
      invariant cumulative == Cumulative(vs, i, Total(vs))
      invariant forall j :: 0 < j <= i ==> Cumulative(vs, j, Total(vs)) <= bucket
    {
      var w := vs[i].weight;
      if total > 0.0 && Abs(total - 100.0) > 0.001 {
        w := (w / total) * 100.0;
      }
      cumulative := cumulative + w;
      if bucket < cumulative {
        PickIs(vs, bucket, 0, i);
        return vs[i];
      }
    }
    assert Pick(vs, bucket, 0) == |vs|;
    return vs[|vs| - 1];
  }

  // ----- Every slot is served -----

  predicate Weighted(vs: seq<FlagVariant>) {
    (forall i :: 0 <= i < |vs| ==> vs[i].weight >= 0.0) && Total(vs) > 0.0
  }

  lemma {:induction false} EffectiveSign(w: real, total: real)
    requires total > 0.0 && w >= 0.0
    ensures Effective(w, total) >= 0.0 && (Effective(w, total) > 0.0 <==> w > 0.0)
  {
  }

  lemma {:induction false} CumulativeGrows(vs: seq<FlagVariant>, i: nat, j: nat)
    requires Weighted(vs) && i <= j <= |vs|
    ensures 0.0 <= Cumulative(vs, i, Total(vs)) <= Cumulative(vs, j, Total(vs))
  {
    if i < j {
      CumulativeGrows(vs, i, j - 1);
      EffectiveSign(vs[j - 1].weight, Total(vs));
    } else if 0 < i {
      CumulativeGrows(vs, i - 1, i - 1);
      EffectiveSign(vs[i - 1].weight, Total(vs));
    }
  }

  lemma {:induction false} EffectiveAdds(a: real, w: real, total: real)
    requires total > 0.0
    ensures Effective(a + w, total) == Effective(a, total) + Effective(w, total)
  {
  }

  lemma {:induction false} CumulativeScales(vs: seq<FlagVariant>, n: nat, total: real)
    requires n <= |vs| && total > 0.0 && forall i :: 0 <= i < |vs| ==> vs[i].weight >= 0.0
    ensures Cumulative(vs, n, total) == Effective(PositiveTotal(vs, n), total)
  {
    if n > 0 {
      CumulativeScales(vs, n - 1, total);
      EffectiveAdds(PositiveTotal(vs, n - 1), vs[n - 1].weight, total);
    }
  }

  lemma {:induction false} SelfQuotient(t: real)
    requires t > 0.0
    ensures t / t == 1.0
  {
  }

  // What the weights add up to in the end: 100, or within the tolerance of 100.
  lemma {:induction false} EffectiveTotal(vs: seq<FlagVariant>)
    requires Weighted(vs)
    ensures var c := Cumulative(vs, |vs|, Total(vs));
            && Abs(c - 100.0) <= 0.001
            && (Normalises(Total(vs)) || Total(vs) == 100.0 ==> c == 100.0)
  {
    var t := Total(vs);
    CumulativeScales(vs, |vs|, t);
    SelfQuotient(t);
  }

  /** Every slot falls to a variant of positive weight; the fallback to the last variant is never taken. */
  lemma {:induction false} EverySlotServed(vs: seq<FlagVariant>, slot: nat)
    requires Weighted(vs) && slot < SLOTS
    ensures var i := Pick(vs, Bucket(slot), 0);
            && i < |vs| && vs[i].weight > 0.0 && Resolve(vs, slot) == vs[i]
            && Cumulative(vs, i, Total(vs)) <= Bucket(slot) < Cumulative(vs, i + 1, Total(vs))
  {
    EffectiveTotal(vs);
    var b := Bucket(slot);
    assert b <= 99.99;
    var i := Pick(vs, b, 0);
    EffectiveSign(vs[i].weight, Total(vs));
  }

  /** The bucket lies in the i-th variant's part of the weights, scaled to 100 if they miss it by over 0.001. */
  predicate InInterval(vs: seq<FlagVariant>, i: nat, bucket: real)
    requires i < |vs|
  {
    var total := RawTotal(vs, |vs|);
    if total - 100.0 > 0.001 || 100.0 - total > 0.001 then
      RawTotal(vs, i) * 100.0 <= bucket * total < RawTotal(vs, i + 1) * 100.0
    else RawTotal(vs, i) <= bucket < RawTotal(vs, i + 1)
  }

  lemma {:induction false} QuotientOrder(a: real, t: real, b: real)
    requires t > 0.0
    ensures (a / t) * 100.0 <= b <==> a * 100.0 <= b * t
  {
    var q := a / t;
    assert a == q * t;
    assert a * 100.0 == q * 100.0 * t;
    if q * 100.0 <= b {
      assert q * 100.0 * t <= b * t;
    } else {
      assert q * 100.0 * t > b * t;
    }
  }

  lemma {:induction false} IntervalIs(vs: seq<FlagVariant>, i: nat, bucket: real)
    requires Weighted(vs) && i < |vs|
    requires Cumulative(vs, i, Total(vs)) <= bucket < Cumulative(vs, i + 1, Total(vs))
    ensures InInterval(vs, i, bucket)
  {
    var t := Total(vs);
    RawIsPositive(vs, |vs|);
    RawIsPositive(vs, i);
    RawIsPositive(vs, i + 1);
    CumulativeScales(vs, i, t);
    CumulativeScales(vs, i + 1, t);
    QuotientOrder(RawTotal(vs, i), t, bucket);
    QuotientOrder(RawTotal(vs, i + 1), t, bucket);
  }

  /** When no weight is positive, every slot falls to the last variant. */
  lemma {:induction false} NoWeightServesLast(vs: seq<FlagVariant>, slot: nat)
    requires vs != [] && forall i :: 0 <= i < |vs| ==> vs[i].weight <= 0.0
    ensures Resolve(vs, slot) == vs[|vs| - 1]
  {
    AddsUpTo(vs, |vs|);
    var i := Pick(vs, Bucket(slot), 0);
    if i < |vs| {
      AddsUpTo(vs, i + 1);
      assert false;
    }
  }

  lemma {:induction false} AddsUpTo(vs: seq<FlagVariant>, n: nat)
    requires n <= |vs| && forall i :: 0 <= i < |vs| ==> vs[i].weight <= 0.0
    ensures PositiveTotal(vs, n) == 0.0 && Cumulative(vs, n, 0.0) <= 0.0
  {
    if n > 0 {
      AddsUpTo(vs, n - 1);
    }
  }

  // ----- What validation lets through (pkg/domain/flag.go) -----

  function RawTotal(vs: seq<FlagVariant>, n: nat): real
    requires n <= |vs|
  {
    if n == 0 then 0.0 else RawTotal(vs, n - 1) + vs[n - 1].weight
  }

  predicate ValidConfig(cfg: EnvConfig) {
    cfg.strategy.Multivariate? ==>
      && cfg.variants != []
      && (forall i :: 0 <= i < |cfg.variants| ==> cfg.variants[i].weight >= 0.0)
      && Abs(RawTotal(cfg.variants, |cfg.variants|) - 100.0) <= 0.01
  }

  method ValidateEnvironmentConfig(cfg: EnvConfig) returns (ok: bool)
    ensures ok <==> ValidConfig(cfg)
    ensures cfg.strategy != Multivariate ==> ok
    ensures cfg.strategy == Multivariate ==>
              (ok <==>
                 && |cfg.variants| > 0 && (forall v :: v in cfg.variants ==> v.weight >= 0.0)
                 && 99.99 <= RawTotal(cfg.variants, |cfg.variants|) <= 100.01)
  {
    if !cfg.strategy.Multivariate? {
      return true;
    }
    if |cfg.variants| == 0 {
      return false;
    }
    var total := 0.0;
    for i := 0 to |cfg.variants|
      invariant total == RawTotal(cfg.variants, i)
      invariant forall j :: 0 <= j < i ==> cfg.variants[j].weight >= 0.0
    {
      if cfg.variants[i].weight < 0.0 {
        return false;
      }
      total := total + cfg.variants[i].weight;
    }
    return Abs(total - 100.0) <= 0.01;
  }

  lemma {:induction false} RawIsPositive(vs: seq<FlagVariant>, n: nat)
    requires n <= |vs| && forall i :: 0 <= i < |vs| ==> vs[i].weight >= 0.0
    ensures RawTotal(vs, n) == PositiveTotal(vs, n)
  {
    if n > 0 {
      RawIsPositive(vs, n - 1);
    }
  }

  /** Whatever validation accepts, every slot is served by a variant of positive weight. */
  lemma {:induction false} ValidConfigServes(cfg: EnvConfig, slot: nat)
    requires ValidConfig(cfg) && cfg.strategy.Multivariate? && slot < SLOTS
    ensures exists i :: 0 <= i < |cfg.variants| && cfg.variants[i].weight > 0.0 &&
              Resolve(cfg.variants, slot) == cfg.variants[i]
  {
    RawIsPositive(cfg.variants, |cfg.variants|);
    EverySlotServed(cfg.variants, slot);
    var i := Pick(cfg.variants, Bucket(slot), 0);
    assert Resolve(cfg.variants, slot) == cfg.variants[i];
  }

  // ----- How many slots each variant gets -----

  // Of the slots below n, those that the i-th variant gets, and those below a real bound.
  function SlotCount(vs: seq<FlagVariant>, i: nat, n: nat): nat {
    if n == 0 then 0 else SlotCount(vs, i, n - 1) + (if Pick(vs, Bucket(n - 1), 0) == i then 1 else 0)
  }

  function CountBelow(x: real, n: nat): nat {
    if n == 0 then 0 else CountBelow(x, n - 1) + (if (n - 1) as real < x then 1 else 0)
  }

  function Ceil(x: real): int {
    -((-x).Floor)
  }

  lemma {:induction false} CountBelowIs(x: real, n: nat)
    requires x >= 0.0
    ensures CountBelow(x, n) == if Ceil(x) < n then Ceil(x) else n
  {
    if n > 0 {
      CountBelowIs(x, n - 1);
    }
  }

  lemma {:induction false} SlotBounds(vs: seq<FlagVariant>, i: nat, slot: nat)
    requires Weighted(vs) && i < |vs| && slot < SLOTS
    ensures var lo, hi := Cumulative(vs, i, Total(vs)), Cumulative(vs, i + 1, Total(vs));
            lo <= hi && (Pick(vs, Bucket(slot), 0) == i <==> lo <= Bucket(slot) < hi)
  {
    EverySlotServed(vs, slot);
    var k := Pick(vs, Bucket(slot), 0);
    CumulativeGrows(vs, i, i + 1);
    if k < i {
      CumulativeGrows(vs, k + 1, i);
    } else if i < k {
      CumulativeGrows(vs, i + 1, k);
    }
  }

  lemma {:induction false} SlotCountIs(vs: seq<FlagVariant>, i: nat, n: nat)
    requires Weighted(vs) && i < |vs| && n <= SLOTS
    ensures var t := Total(vs);
            SlotCount(vs, i, n) ==
                CountBelow(100.0 * Cumulative(vs, i + 1, t), n) - CountBelow(100.0 * Cumulative(vs, i, t), n)
  {
    hide Pick;
    hide Cumulative;
    if n > 0 {
      SlotCountIs(vs, i, n - 1);
      SlotBounds(vs, i, n - 1);
    }
  }

  /**
    A variant's share of the 10,000 slots is within one of a hundred times its effective weight, plus
    whatever the accepted weights miss 100 by (at most a tenth of a slot, and nothing once normalised).
   */
  lemma {:induction false} VariantQuota(vs: seq<FlagVariant>, i: nat)
    requires Weighted(vs) && i < |vs|
    ensures var t := Total(vs);
            var miss := 100.0 * Abs(Cumulative(vs, |vs|, t) - 100.0);
            && Abs(SlotCount(vs, i, SLOTS) as real - 100.0 * Effective(vs[i].weight, t)) < 1.0 + miss
            && miss <= 0.1
            && (Normalises(t) || t == 100.0 ==> miss == 0.0)
            && (vs[i].weight == 0.0 ==> SlotCount(vs, i, SLOTS) == 0)
  {
    var t := Total(vs);
    var lo, hi, top := 100.0 * Cumulative(vs, i, t), 100.0 * Cumulative(vs, i + 1, t), 100.0 * Cumulative(vs, |vs|, t);
    EffectiveTotal(vs);
    EffectiveSign(vs[i].weight, t);
    CumulativeGrows(vs, i, i + 1);
    CumulativeGrows(vs, i + 1, |vs|);
    SlotCountIs(vs, i, SLOTS);
    CountBelowIs(lo, SLOTS);
    CountBelowIs(hi, SLOTS);
  }

  /**
    A percentage rollout enables exactly the first slots, and their number is within one of a hundred times
    the percentage.
   */
  lemma {:induction false} PercentageShare(pct: real, slot: nat)
    requires 0.0 <= pct <= 100.0 && slot < SLOTS
    ensures Bucket(slot) < pct <==> slot < CountBelow(100.0 * pct, SLOTS)
    ensures 100.0 * pct <= CountBelow(100.0 * pct, SLOTS) as real < 100.0 * pct + 1.0
  {
    CountBelowIs(100.0 * pct, SLOTS);
  }
}
