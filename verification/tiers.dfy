/**
 * The stepped subsidy schedule of the milestone verifier: a fixed list of
 * production tiers, the filter that selects the tiers a production quantity
 * has reached, and the `reduce` that sums their payouts.
 *
 * Rates are exact `real`s. The `MilestoneVerifier` React component computes with IEEE doubles, but for the
 * three constants of the schedule every product `threshold * rate` rounds to
 * the exact value (500, 2000, 6000), so the exact model and the doubles agree.
 */
module Tiers {

  /** A tier: reaching `threshold` kg of hydrogen earns `threshold * rate` rupees. */
  datatype Tier = Tier(name: string, threshold: int, rate: real)

  /** The hard-coded schedule of the widget, in its display order. */
  const Schedule: seq<Tier> := [
    Tier("Tier 1", 1000, 0.5),
    Tier("Tier 2", 5000, 0.4),
    Tier("Tier 3", 20000, 0.3)
  ]

  /** A tier is achieved once production reaches its threshold (inclusive). */
  predicate IsAchieved(t: Tier, productionKg: int) {
    productionKg >= t.threshold
  }

  /** A tier whose payout cannot be negative. */
  predicate ValidTier(t: Tier) {
    t.threshold >= 0 && t.rate >= 0.0
  }

  predicate ValidTiers(tiers: seq<Tier>) {
    forall i :: 0 <= i < |tiers| ==> ValidTier(tiers[i])
  }

  /** Tiers listed with non-decreasing thresholds, as the schedule is. */
  predicate Ascending(tiers: seq<Tier>) {
    forall i, j :: 0 <= i < j < |tiers| ==> tiers[i].threshold <= tiers[j].threshold
  }

  /**
   * `a` can be obtained from `b` by deleting elements, so the elements of `a`
   * appear in `b` in the same relative order.
   */
  predicate IsSubsequence<T(==)>(a: seq<T>, b: seq<T>)
    decreases |b|
  {
    if a == [] then true
    else if b == [] then false
    else (a[0] == b[0] && IsSubsequence(a[1..], b[1..])) || IsSubsequence(a, b[1..])
  }

  /** The component's `tiers.filter(...)`: the tiers reached by `productionKg`, left to right. */
  function Achieved(tiers: seq<Tier>, productionKg: int): (r: seq<Tier>)
    ensures forall t :: t in r <==> t in tiers && IsAchieved(t, productionKg)
    ensures IsSubsequence(r, tiers)
  {
    if tiers == [] then []
    else if IsAchieved(tiers[0], productionKg) then
      var rest := Achieved(tiers[1..], productionKg);
      assert ([tiers[0]] + rest)[1..] == rest;
      [tiers[0]] + rest
    else
      Achieved(tiers[1..], productionKg)
  }

  /** What one achieved tier pays. */
  function Payout(t: Tier): real {
    t.threshold as real * t.rate
  }

  /** The component's `reduce((sum, t) => sum + t.threshold * t.rate, acc)`, folding from the left. */
  function Reduce(acc: real, tiers: seq<Tier>): real
    decreases tiers
  {
    if tiers == [] then acc else Reduce(acc + Payout(tiers[0]), tiers[1..])
  }

  /** Reference sum of the payouts of `tiers`, independent of the fold order. */
  function Total(tiers: seq<Tier>): real {
    if tiers == [] then 0.0 else Payout(tiers[0]) + Total(tiers[1..])
  }

  /** The subsidy the widget displays and disburses for a production quantity. */
  function Subsidy(tiers: seq<Tier>, productionKg: int): real {
    Reduce(0.0, Achieved(tiers, productionKg))
  }

  // ---------------------------------------------------------------------------
  // Subsequences

  lemma SubsequenceOfTail<T>(a: seq<T>, x: T, b: seq<T>)
    requires IsSubsequence(a, b)
    ensures IsSubsequence(a, [x] + b)
  {
  }

  // ---------------------------------------------------------------------------
  // Achieved tiers

  /** Reaching more production never loses a tier, and the order is kept. */
  lemma {:induction false} AchievedMonotone(tiers: seq<Tier>, p: int, q: int)
    requires p <= q
    ensures IsSubsequence(Achieved(tiers, p), Achieved(tiers, q))
    ensures forall t :: t in Achieved(tiers, p) ==> t in Achieved(tiers, q)
  {
    if tiers != [] {
      var t0 := tiers[0];
      var ap := Achieved(tiers[1..], p);
      var aq := Achieved(tiers[1..], q);
      AchievedMonotone(tiers[1..], p, q);
      if IsAchieved(t0, p) {
        assert ([t0] + ap)[1..] == ap;
        assert ([t0] + aq)[1..] == aq;
      } else if IsAchieved(t0, q) {
        SubsequenceOfTail(ap, t0, aq);
      }
    }
  }

  /**
   * The filter keeps every reached tier as often as the list holds it and drops
   * every other tier, so the later sum counts each listed tier exactly once.
   */
  lemma {:induction false} AchievedCounts(tiers: seq<Tier>, p: int)
    ensures forall t :: multiset(Achieved(tiers, p))[t] == if IsAchieved(t, p) then multiset(tiers)[t] else 0
  {
    if tiers != [] {
      AchievedCounts(tiers[1..], p);
      assert tiers == [tiers[0]] + tiers[1..];
    }
  }

  /** When no listed tier is reached, nothing is achieved. */
  lemma NoneAchieved(tiers: seq<Tier>, p: int)
    requires forall i :: 0 <= i < |tiers| ==> !IsAchieved(tiers[i], p)
    ensures Achieved(tiers, p) == []
  {
  }

  /**
   * With ascending thresholds the achieved tiers are a prefix of the list:
   * the first tier missed is the last one considered.
   */
  lemma {:induction false} AchievedIsPrefix(tiers: seq<Tier>, p: int)
    requires Ascending(tiers)
    ensures |Achieved(tiers, p)| <= |tiers|
    ensures Achieved(tiers, p) == tiers[..|Achieved(tiers, p)|]
  {
    if tiers != [] {
      assert Ascending(tiers[1..]);
      AchievedIsPrefix(tiers[1..], p);
      if !IsAchieved(tiers[0], p) {
        NoneAchieved(tiers[1..], p);
      }
    }
  }

  /** With ascending thresholds, more production extends the achieved prefix. */
  lemma AchievedPrefixMonotone(tiers: seq<Tier>, p: int, q: int)
    requires Ascending(tiers) && p <= q
    ensures Achieved(tiers, p) <= Achieved(tiers, q)
  {
    AchievedIsPrefix(tiers, p);
    AchievedIsPrefix(tiers, q);
    AchievedMonotone(tiers, p, q);
  }

  // ---------------------------------------------------------------------------
  // Sums

  /** The component's left fold computes the reference total. */
  lemma {:induction false} ReduceIsTotal(acc: real, tiers: seq<Tier>)
    ensures Reduce(acc, tiers) == acc + Total(tiers)
    decreases tiers
  {
    if tiers != [] {
      ReduceIsTotal(acc + Payout(tiers[0]), tiers[1..]);
    }
  }

  lemma PayoutNonNegative(t: Tier)
    requires ValidTier(t)
    ensures Payout(t) >= 0.0
  {
  }

  lemma {:induction false} TotalNonNegative(tiers: seq<Tier>)
    requires ValidTiers(tiers)
    ensures Total(tiers) >= 0.0
  {
    if tiers != [] {
      PayoutNonNegative(tiers[0]);
      assert ValidTiers(tiers[1..]);
      TotalNonNegative(tiers[1..]);
    }
  }

  /** Dropping tiers from a list of non-negative payouts cannot raise the total. */
  lemma {:induction false} TotalSubsequence(a: seq<Tier>, b: seq<Tier>)
    requires ValidTiers(b) && IsSubsequence(a, b)
    ensures Total(a) <= Total(b)
    decreases |b|
  {
    if a == [] {
      TotalNonNegative(b);
    } else {
      assert ValidTiers(b[1..]);
      PayoutNonNegative(b[0]);
      if a[0] == b[0] && IsSubsequence(a[1..], b[1..]) {
        TotalSubsequence(a[1..], b[1..]);
      } else {
        TotalSubsequence(a, b[1..]);
      }
    }
  }

  // ---------------------------------------------------------------------------
  // Subsidy

  /** The subsidy is never negative and never exceeds the sum of every tier's payout. */
  lemma SubsidyBounds(tiers: seq<Tier>, p: int)
    requires ValidTiers(tiers)
    ensures 0.0 <= Subsidy(tiers, p) <= Total(tiers)
  {
    var a := Achieved(tiers, p);
    ReduceIsTotal(0.0, a);
    assert ValidTiers(a) by {
      forall i | 0 <= i < |a| ensures ValidTier(a[i]) {
        assert a[i] in a;
      }
    }
    TotalNonNegative(a);
    TotalSubsequence(a, tiers);
  }

  /** More production never lowers the subsidy. */
  lemma SubsidyMonotone(tiers: seq<Tier>, p: int, q: int)
    requires ValidTiers(tiers) && p <= q
    ensures Subsidy(tiers, p) <= Subsidy(tiers, q)
  {
    var ap, aq := Achieved(tiers, p), Achieved(tiers, q);
    ReduceIsTotal(0.0, ap);
    ReduceIsTotal(0.0, aq);
    AchievedMonotone(tiers, p, q);
    assert ValidTiers(aq) by {
      forall i | 0 <= i < |aq| ensures ValidTier(aq[i]) {
        assert aq[i] in aq;
      }
    }
    TotalSubsequence(ap, aq);
  }

  /** A positive subsidy needs at least one achieved tier. */
  lemma SubsidyNeedsTier(tiers: seq<Tier>, p: int)
    ensures Achieved(tiers, p) == [] ==> Subsidy(tiers, p) == 0.0
  {
  }

  // ---------------------------------------------------------------------------
  // The schedule

  lemma ScheduleValid()
    ensures ValidTiers(Schedule) && Ascending(Schedule)
  {
  }

  /** The achieved tiers of the schedule, band by band, in display order. */
  lemma ScheduleAchieved(p: int)
    ensures p < 1000 ==> Achieved(Schedule, p) == []
    ensures 1000 <= p < 5000 ==> Achieved(Schedule, p) == [Schedule[0]]
    ensures 5000 <= p < 20000 ==> Achieved(Schedule, p) == [Schedule[0], Schedule[1]]
    ensures 20000 <= p ==> Achieved(Schedule, p) == Schedule
  {
    var s1, s2 := Schedule[1..], Schedule[2..];
    assert s2[1..] == [];
    assert s1[1..] == s2;
    assert Achieved(s2, p) == if p >= 20000 then [Schedule[2]] else [];
    assert Achieved(s1, p) == if p >= 5000 then [Schedule[1]] + Achieved(s2, p) else [];
  }

  /** A tier of the schedule is achieved exactly from 1000 kg on. */
  lemma ScheduleAnyAchieved(p: int)
    ensures Achieved(Schedule, p) != [] <==> p >= 1000
  {
    ScheduleAchieved(p);
  }

  /** The stepped subsidy of the schedule: 0, 500, 2500 or 8500 rupees. */
  lemma ScheduleSubsidy(p: int)
    ensures p < 1000 ==> Subsidy(Schedule, p) == 0.0
    ensures 1000 <= p < 5000 ==> Subsidy(Schedule, p) == 500.0
    ensures 5000 <= p < 20000 ==> Subsidy(Schedule, p) == 2500.0
    ensures 20000 <= p ==> Subsidy(Schedule, p) == 8500.0
  {
    ScheduleAchieved(p);
    ReduceIsTotal(0.0, Achieved(Schedule, p));
    assert Total(Schedule[2..]) == 6000.0;
    assert Total(Schedule[1..]) == 8000.0;
    assert Total([Schedule[0], Schedule[1]]) == 2500.0 by {
      assert [Schedule[0], Schedule[1]][1..] == [Schedule[1]];
    }
  }

  /** The subsidy of the schedule lies in [0, 8500]. */
  lemma ScheduleSubsidyBounds(p: int)
    ensures 0.0 <= Subsidy(Schedule, p) <= 8500.0
  {
    ScheduleSubsidy(p);
  }
}
