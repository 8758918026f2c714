/**
 * The frecency scorer of src/scorer.rs: a bounded log of the latest visits
 * and a visit counter, scored with a priority bonus and an age weight.
 *
 * The source sums `f32` values; every term `bonus * weight / 100` is a whole
 * number (see `PointsAreExact`), so the sum is exact and is a `nat` here.
 * The clock is a parameter: `now` is the current time in seconds.
 */
module Scorer {
  import opened Common

  const MAX_VISIT_ENTRIES: nat := 10

  datatype VisitPriority = Normal | High | VeryHigh

  /** The percentage bonus of a priority. */
  function Bonus(p: VisitPriority): (b: nat)
    ensures 100 <= b <= 200
  {
    match p
    case Normal => 100
    case High => 150
    case VeryHigh => 200
  }

  /** Higher priorities never get a smaller bonus. */
  lemma BonusOrdered()
    ensures Bonus(Normal) < Bonus(High) < Bonus(VeryHigh)
  {
  }

  datatype VisitEntry = VisitEntry(timestamp: Timestamp, priority: VisitPriority)

  const SECONDS_PER_DAY: int := 86400

  /** `Duration::num_days`: whole days, the fraction dropped toward zero. */
  function NumDays(seconds: int): (d: int)
    ensures seconds >= 0 ==> 0 <= d * SECONDS_PER_DAY <= seconds < (d + 1) * SECONDS_PER_DAY
    ensures seconds < 0 ==> (d - 1) * SECONDS_PER_DAY < seconds <= d * SECONDS_PER_DAY <= 0
  {
    if seconds >= 0 then seconds / SECONDS_PER_DAY else -((-seconds) / SECONDS_PER_DAY)
  }

  /** `weight_for`, given the age of the visit in days. */
  function WeightFor(days: int): (w: nat)
    ensures 10 <= w <= 100
  {
    if days <= 4 then 100
    else if days <= 14 then 70
    else if days <= 31 then 50
    else if days <= 90 then 30
    else 10
  }

  /** An older visit never weighs more than a more recent one. */
  lemma WeightForNonIncreasing(d1: int, d2: int)
    requires d1 <= d2
    ensures WeightFor(d2) <= WeightFor(d1)
  {
  }

  /** The points of one visit: `bonus * weight / 100`. */
  function Points(e: VisitEntry, now: Timestamp): nat {
    Bonus(e.priority) * WeightFor(NumDays(now - e.timestamp)) / 100
  }

  /** The division by 100 never leaves a remainder, so rounding the `f32` sum changes nothing. */
  lemma PointsAreExact(e: VisitEntry, now: Timestamp)
    ensures Bonus(e.priority) * WeightFor(NumDays(now - e.timestamp)) % 100 == 0
    ensures 10 <= Points(e, now) <= 200
  {
  }

  function PointsSum(entries: seq<VisitEntry>, now: Timestamp): nat {
    if entries == [] then 0 else PointsSum(entries[..|entries| - 1], now) + Points(entries[|entries| - 1], now)
  }

  /** Each visit brings between 10 and 200 points. */
  lemma {:induction false} PointsSumBounds(entries: seq<VisitEntry>, now: Timestamp)
    ensures 10 * |entries| <= PointsSum(entries, now) <= 200 * |entries|
  {
    if entries != [] {
      PointsSumBounds(entries[..|entries| - 1], now);
      PointsAreExact(entries[|entries| - 1], now);
    }
  }

  /** `n` visits worth `p` points each are worth `n * p`. */
  lemma {:induction false} PointsSumConstant(entries: seq<VisitEntry>, now: Timestamp, p: nat)
    requires forall k :: 0 <= k < |entries| ==> Points(entries[k], now) == p
    ensures PointsSum(entries, now) == |entries| * p
  {
    if entries != [] {
      var n := |entries| - 1;
      var init := entries[..n];
      assert forall k :: 0 <= k < |init| ==> init[k] == entries[k];
      PointsSumConstant(init, now, p);
      assert Points(entries[n], now) == p;
      MulSucc(n, p);
    }
  }

  lemma MulSucc(n: nat, p: nat)
    ensures (n + 1) * p == n * p + p
  {
  }

  /** The log after one visit: the oldest entry goes when the log is full, the new one goes last. */
  function Pushed(entries: seq<VisitEntry>, e: VisitEntry): seq<VisitEntry> {
    (if |entries| == MAX_VISIT_ENTRIES then entries[1..] else entries) + [e]
  }

  /** The log after a run of visits from an empty log. */
  function PushedAll(visits: seq<VisitEntry>): seq<VisitEntry> {
    if visits == [] then [] else Pushed(PushedAll(visits[..|visits| - 1]), visits[|visits| - 1])
  }

  function Min(a: nat, b: nat): nat { if a < b then a else b }

  /** A log built by visits keeps exactly the latest ten of them, oldest first. */
  lemma {:induction false} PushedAllKeepsLatest(visits: seq<VisitEntry>)
    ensures PushedAll(visits) == visits[|visits| - Min(|visits|, MAX_VISIT_ENTRIES)..]
  {
    if visits != [] {
      var init := visits[..|visits| - 1];
      PushedAllKeepsLatest(init);
      var n := |visits|;
      var last := [visits[n - 1]];
      assert visits == init + last;
      if |init| >= MAX_VISIT_ENTRIES {
        var kept := init[|init| - MAX_VISIT_ENTRIES..];
        assert kept[1..] == visits[n - MAX_VISIT_ENTRIES..n - 1];
        assert visits[n - MAX_VISIT_ENTRIES..] == visits[n - MAX_VISIT_ENTRIES..n - 1] + last;
      } else {
        assert init[0..] == init && visits[0..] == visits;
      }
    }
  }

  /**
   * `ObjectScore`: the visit counter and the log of the latest visits. Both
   * change in place when a visit is added.
   */
  class ObjectScore {
    var visitCount: nat
    var entries: seq<VisitEntry>

    /** At most ten entries, and never more entries than visits. */
    ghost predicate Valid()
      reads this
    {
      |entries| <= MAX_VISIT_ENTRIES && |entries| <= visitCount
    }

    /** `ObjectScore::default`: no visit yet. */
    constructor ()
      ensures Valid()
      ensures visitCount == 0 && entries == []
    {
      visitCount := 0;
      entries := [];
    }

    /** `add`: drop the oldest entry when full, append the new one, count one more visit. */
    method Add(entry: VisitEntry)
      requires Valid()
      modifies this
      ensures Valid()
      ensures entries == Pushed(old(entries), entry)
      ensures visitCount == old(visitCount) + 1
      ensures entries[..|entries| - 1] == old(entries)[|old(entries)| + 1 - |entries|..]
      ensures entries[|entries| - 1] == entry
    {
      if |entries| == MAX_VISIT_ENTRIES {
        entries := entries[1..];
      }
      entries := entries + [entry];
      visitCount := visitCount + 1;
    }

    /**
     * `frecency`: the visit count times the points of the logged visits,
     * divided by their number. The empty log, where the source divides by
     * zero, is excluded.
     */
    function Frecency(now: Timestamp): (f: nat)
      reads this
      requires entries != []
      ensures 10 * visitCount <= f <= 200 * visitCount
    {
      PointsSumBounds(entries, now);
      FrecencyBounds(visitCount, PointsSum(entries, now), |entries|);
      visitCount * PointsSum(entries, now) / |entries|
    }
  }

  /** `count * sum / n` stays between 10 and 200 times the count when the sum is between 10 and 200 times n. */
  lemma FrecencyBounds(count: nat, sum: nat, n: nat)
    requires n > 0
    requires 10 * n <= sum <= 200 * n
    ensures 10 * count <= count * sum / n <= 200 * count
  {
    assert 10 * count * n <= count * sum <= 200 * count * n by {
      MulMonotone(count, 10 * n, sum);
      MulMonotone(count, sum, 200 * n);
    }
    DivBounds(count * sum, n, 10 * count, 200 * count);
  }

  lemma MulMonotone(c: nat, a: nat, b: nat)
    requires a <= b
    ensures c * a <= c * b
  {
  }

  /** Multiplying by a positive number keeps and reflects an order. */
  lemma MulOrder(n: nat, x: int, y: int)
    requires n > 0
    ensures x <= y <==> n * x <= n * y
  {
    if x <= y {
      assert n * y - n * x == n * (y - x);
    } else {
      assert n * x - n * y == n * (x - y);
    }
  }

  /** Division by a positive number keeps an order. */
  lemma DivMonotone(x: nat, y: nat, n: nat)
    requires n > 0 && x <= y
    ensures x / n <= y / n
  {
    var qx, rx := x / n, x % n;
    var qy, ry := y / n, y % n;
    assert x == n * qx + rx;
    assert y == n * qy + ry;
    assert n * (qy + 1) == n * qy + n;
    MulOrder(n, qy + 1, qx);
  }

  lemma MulDiv(a: nat, n: nat)
    requires n > 0
    ensures a * n / n == a
  {
    var q, r := a * n / n, a * n % n;
    assert n * a == n * q + r;
    assert n * (q + 1) == n * q + n;
    MulOrder(n, q, a);
    MulOrder(n, q + 1, a);
  }

  lemma DivBounds(x: nat, n: nat, lo: nat, hi: nat)
    requires n > 0
    requires lo * n <= x <= hi * n
    ensures lo <= x / n <= hi
  {
    DivMonotone(lo * n, x, n);
    DivMonotone(x, hi * n, n);
    MulDiv(lo, n);
    MulDiv(hi, n);
  }

  /** `ObjectScore::max`: ten very high priority visits now score 2000. */
  method Max(now: Timestamp) returns (f: nat)
    ensures f == 2000
  {
    var score := new ObjectScore();
    var e := VisitEntry(now, VeryHigh);
    var i := 0;
    while i < MAX_VISIT_ENTRIES
      invariant 0 <= i <= MAX_VISIT_ENTRIES
      invariant score.Valid()
      invariant score.visitCount == i && |score.entries| == i
      invariant forall k :: 0 <= k < |score.entries| ==> score.entries[k] == e
    {
      score.Add(e);
      i := i + 1;
    }
    assert Points(e, now) == 200;
    PointsSumConstant(score.entries, now, 200);
    f := score.Frecency(now);
  }

  /** The two visits of a scenario of `frecency_alg`: one now, then one ten days old. */
  method TwoVisits(now: Timestamp, second: VisitPriority) returns (first: nat, both: nat)
    ensures first == 100
    ensures both == 2 * (100 + Bonus(second) * 70 / 100) / 2
  {
    var tenDaysAgo := now - 10 * SECONDS_PER_DAY;
    var e1 := VisitEntry(now, Normal);
    var e2 := VisitEntry(tenDaysAgo, second);
    assert Points(e1, now) == 100;
    assert NumDays(now - tenDaysAgo) == 10;
    assert Points(e2, now) == Bonus(second) * 70 / 100;
    var score := new ObjectScore();
    score.Add(e1);
    assert score.entries == [e1];
    assert PointsSum(score.entries, now) == 100;
    first := score.Frecency(now);
    score.Add(e2);
    assert score.entries == [e1, e2];
    assert score.entries[..1] == [e1];
    assert PointsSum(score.entries, now) == 100 + Bonus(second) * 70 / 100;
    both := score.Frecency(now);
  }

  /**
   * The scenarios of `frecency_alg`: a normal visit now scores 100; a second
   * normal visit ten days old then gives 170, a high priority one 205.
   */
  method FrecencyScenarios(now: Timestamp) returns (a: nat, b: nat, c: nat, d: nat)
    ensures a == 100 && b == 170 && c == 100 && d == 205
  {
    a, b := TwoVisits(now, Normal);
    c, d := TwoVisits(now, High);
  }
}
