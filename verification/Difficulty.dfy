/** Difficulty retargeting (consensus/src/difficulty.rs): the target of the next block from the
    targets and times of a window of blocks, in saturating and truncating machine arithmetic. */
module Difficulty {
  import opened Basics

  const U256_MAX: nat := 0xFFFF_FFFF_FFFF_FFFF_FFFF_FFFF_FFFF_FFFF_FFFF_FFFF_FFFF_FFFF_FFFF_FFFF_FFFF_FFFF
  const U512_MAX: nat := (U256_MAX + 1) * (U256_MAX + 1) - 1

  type U64 = x: nat | x <= U64_MAX
  type U256 = x: nat | x <= U256_MAX

  datatype BlockDiff = BlockDiff(timestamp: U64, target: U256)

  /** A division by zero ends the computation; it is an outcome here. */
  datatype DiffError = NoBlocks | TotalTargetOverflow | DivisionByZero

  // ---------- specification ----------

  function TotalTarget(blocks: seq<BlockDiff>): nat {
    if blocks == [] then 0 else TotalTarget(blocks[..|blocks| - 1]) + blocks[|blocks| - 1].target
  }

  function AvgTarget(blocks: seq<BlockDiff>): nat
    requires blocks != []
  {
    TotalTarget(blocks) / |blocks|
  }

  /** The saturating sum of the distances of the first `n` blocks from the newest. */
  function TotalTime(blocks: seq<BlockDiff>, n: nat): nat
    requires 0 < n <= |blocks|
  {
    if n == 1 then 0
    else SatAdd(TotalTime(blocks, n - 1), SatSub(blocks[0].timestamp, blocks[n - 1].timestamp))
  }

  /** The saturating sum of 1 to n - 1. */
  function Weight(n: nat): nat
    requires n > 0
  {
    if n == 1 then 0 else SatAdd(Weight(n - 1), n - 1)
  }

  function WeightedTime(blocks: seq<BlockDiff>): nat
    requires |blocks| >= 2
  {
    WeightIsPositive(|blocks|);
    TotalTime(blocks, |blocks|) / Weight(|blocks|)
  }

  function RawTime(blocks: seq<BlockDiff>): nat
    requires |blocks| >= 2
  {
    if |blocks| == 2 then SatSub(blocks[0].timestamp, blocks[1].timestamp) else WeightedTime(blocks)
  }

  /** The average block time, never 0. */
  function AvgTime(blocks: seq<BlockDiff>): nat
    requires |blocks| >= 2
  {
    if RawTime(blocks) == 0 then 1 else RawTime(blocks)
  }

  function Product(avg: nat, time: nat, plan: nat): nat
    requires plan > 0
  {
    (avg / plan) * time
  }

  /** `avg * time / plan`, kept near the range from half to twice `avg`; the largest target when the
      product does not fit. */
  function NextTarget(avg: nat, time: nat, plan: nat): nat
    requires plan > 0
  {
    var p := Product(avg, time, plan);
    if p > U256_MAX then U256_MAX
    else if p / 2 > avg then avg * 2
    else if p < avg / 2 then avg / 2
    else p
  }

  // ---------- the loops ----------

  method SumTargets(blocks: seq<BlockDiff>) returns (r: Result<nat, DiffError>)
    requires |blocks| <= U64_MAX
    ensures r == Ok(TotalTarget(blocks))
  {
    var total := 0;
    for i := 0 to |blocks|
      invariant total == TotalTarget(blocks[..i]) && total <= i * U256_MAX
    {
      assert blocks[..i + 1][..i] == blocks[..i];
      if total + blocks[i].target > U512_MAX {
        return Err(TotalTargetOverflow);
      }
      total := total + blocks[i].target;
    }
    assert blocks[..|blocks|] == blocks;
    r := Ok(total);
  }

  method WeighTimes(blocks: seq<BlockDiff>) returns (time: nat, weight: nat)
    requires |blocks| > 0
    ensures time == TotalTime(blocks, |blocks|) && weight == Weight(|blocks|)
  {
    time, weight := 0, 0;
    for i := 1 to |blocks|
      invariant time == TotalTime(blocks, i) && weight == Weight(i)
    {
      time := SatAdd(time, SatSub(blocks[0].timestamp, blocks[i].timestamp));
      weight := SatAdd(weight, i);
    }
  }

  method AverageTime(blocks: seq<BlockDiff>) returns (time: nat)
    requires |blocks| >= 2
    ensures time == AvgTime(blocks)
  {
    if |blocks| == 2 {
      time := SatSub(blocks[0].timestamp, blocks[1].timestamp);
    } else {
      var sum, weight := WeighTimes(blocks);
      WeightIsPositive(|blocks|);
      time := sum / weight;
    }
    if time == 0 {
      time := 1;
    }
  }

  method Retarget(avg: U256, time: nat, plan: U64) returns (target: U256)
    requires plan > 0
    ensures target == NextTarget(avg, time, plan)
  {
    var p := (avg / plan) * time;
    if p > U256_MAX {
      target := U256_MAX;
    } else if p / 2 > avg {
      target := avg * 2;
    } else if p < avg / 2 {
      target := avg / 2;
    } else {
      target := p;
    }
  }

  method GetNextTarget(blocks: seq<BlockDiff>, plan: U64) returns (r: Result<U256, DiffError>)
    requires |blocks| <= U64_MAX
    ensures |blocks| == 0 ==> r == Err(NoBlocks)
    ensures |blocks| == 1 ==> r == Ok(blocks[0].target)
    ensures |blocks| >= 2 && plan == 0 ==> r == Err(DivisionByZero)
    ensures |blocks| >= 2 && plan > 0 ==> r.Ok? && r.value == NextTarget(AvgTarget(blocks), AvgTime(blocks), plan)
  {
    if |blocks| == 0 {
      return Err(NoBlocks);
    }
    if |blocks| == 1 {
      return Ok(blocks[0].target);
    }
    var total := SumTargets(blocks);
    if total.Err? {
      return Err(TotalTargetOverflow);
    }
    AvgTargetIsBetween(blocks, 0, U256_MAX);
    var time := AverageTime(blocks);
    if plan == 0 {
      return Err(DivisionByZero);
    }
    var target := Retarget(total.value / |blocks|, time, plan);
    r := Ok(target);
  }

  // ---------- arithmetic ----------

  lemma DivBounds(m: nat, d: nat)
    requires d > 0
    ensures d * (m / d) <= m < d * (m / d) + d
  {
  }

  lemma MulMonotone(a: nat, b: nat, c: nat)
    requires a <= b
    ensures a * c <= b * c && c * a <= c * b
  {
  }

  lemma MulAdds(d: nat, a: nat, b: nat)
    ensures d * (a + b) == d * a + b * d
  {
  }

  lemma MulNext(n: nat, x: nat)
    ensures (n + 1) * x == n * x + x
  {
  }

  lemma DivMonotone(a: nat, b: nat, d: nat)
    requires a <= b && d > 0
    ensures a / d <= b / d
  {
    DivBounds(a, d);
    DivBounds(b, d);
    if a / d > b / d {
      MulMonotone(b / d + 1, a / d, d);
      assert false;
    }
  }

  lemma DivUnique(m: nat, d: nat, q: nat)
    requires d > 0 && d * q <= m < d * q + d
    ensures m / d == q
  {
    DivBounds(m, d);
    if m / d < q {
      MulMonotone(m / d + 1, q, d);
    } else if m / d > q {
      MulMonotone(q + 1, m / d, d);
    }
  }

  lemma {:induction false} WeightIsPositive(n: nat)
    requires n >= 2
    ensures Weight(n) >= 1
  {
    if n > 2 {
      WeightIsPositive(n - 1);
    }
  }

  /** 1 + 2 + ... + (n - 1) */
  function Triangle(n: nat): nat {
    if n <= 1 then 0 else Triangle(n - 1) + (n - 1)
  }

  lemma {:induction false} TriangleIsProduct(n: nat)
    ensures 2 * Triangle(n) == n * (n - 1)
  {
    if n > 1 {
      TriangleIsProduct(n - 1);
      assert n * (n - 1) == (n - 1) * (n - 2) + 2 * (n - 1);
    }
  }

  /** The weight of a window of n blocks is n(n - 1)/2 until it saturates. */
  lemma {:induction false} WeightIsTriangle(n: nat)
    requires n > 0
    ensures Weight(n) == Min(Triangle(n), U64_MAX)
  {
    if n > 1 {
      WeightIsTriangle(n - 1);
    }
  }

  // ---------- the average target ----------

  lemma {:induction false} TotalTargetIsBetween(blocks: seq<BlockDiff>, lo: nat, hi: nat)
    requires forall i :: 0 <= i < |blocks| ==> lo <= blocks[i].target <= hi
    ensures |blocks| * lo <= TotalTarget(blocks) <= |blocks| * hi
  {
    if blocks != [] {
      var init := blocks[..|blocks| - 1];
      TotalTargetIsBetween(init, lo, hi);
      MulNext(|init|, lo);
      MulNext(|init|, hi);
    }
  }

  /** The average lies between any bounds on the window's targets, so between smallest and largest. */
  lemma AvgTargetIsBetween(blocks: seq<BlockDiff>, lo: nat, hi: nat)
    requires blocks != []
    requires forall i :: 0 <= i < |blocks| ==> lo <= blocks[i].target <= hi
    ensures lo <= AvgTarget(blocks) <= hi
  {
    TotalTargetIsBetween(blocks, lo, hi);
    DivUnique(|blocks| * lo, |blocks|, lo);
    DivUnique(|blocks| * hi, |blocks|, hi);
    DivMonotone(|blocks| * lo, TotalTarget(blocks), |blocks|);
    DivMonotone(TotalTarget(blocks), |blocks| * hi, |blocks|);
  }

  lemma {:induction false} TotalTargetAdds(a: seq<BlockDiff>, b: seq<BlockDiff>)
    ensures TotalTarget(a + b) == TotalTarget(a) + TotalTarget(b)
  {
    if b == [] {
      assert a + b == a;
    } else {
      assert (a + b)[..|a + b| - 1] == a + b[..|b| - 1];
      TotalTargetAdds(a, b[..|b| - 1]);
    }
  }

  lemma TotalTargetOne(b: BlockDiff)
    ensures TotalTarget([b]) == b.target
  {
    assert [b][..0] == [];
  }

  /** The average is the sum of the window's targets divided by their number, rounded down. */
  lemma AvgTargetIsQuotient(blocks: seq<BlockDiff>)
    requires blocks != []
    ensures |blocks| * AvgTarget(blocks) <= TotalTarget(blocks) < |blocks| * (AvgTarget(blocks) + 1)
  {
    DivBounds(TotalTarget(blocks), |blocks|);
    MulAdds(|blocks|, AvgTarget(blocks), 1);
  }

  // ---------- the average time ----------

  /** How much later the first block is than the others, added up without a bound; a block that is not earlier counts
      as zero. */
  ghost function Distances(newest: nat, others: seq<BlockDiff>): nat {
    if others == [] then 0
    else
      Distances(newest, others[..|others| - 1]) + SatSub(newest, others[|others| - 1].timestamp)
  }

  lemma {:induction false} DistancesAdd(newest: nat, a: seq<BlockDiff>, b: seq<BlockDiff>)
    ensures Distances(newest, a + b) == Distances(newest, a) + Distances(newest, b)
  {
    if b == [] {
      assert a + b == a;
    } else {
      assert (a + b)[..|a + b| - 1] == a + b[..|b| - 1];
      DistancesAdd(newest, a, b[..|b| - 1]);
    }
  }

  lemma DistanceOfOne(newest: nat, b: BlockDiff)
    ensures b.timestamp <= newest ==> Distances(newest, [b]) + b.timestamp == newest
    ensures b.timestamp >= newest ==> Distances(newest, [b]) == 0
  {
    assert [b][..0] == [];
  }

  lemma {:induction false} TotalTimeIsCut(blocks: seq<BlockDiff>, n: nat)
    requires 0 < n <= |blocks|
    ensures TotalTime(blocks, n) == Min(Distances(blocks[0].timestamp, blocks[1..n]), U64_MAX)
  {
    if n > 1 {
      TotalTimeIsCut(blocks, n - 1);
      assert blocks[1..n][..n - 2] == blocks[1..n - 1];
    }
  }

  /** The average time, unless it is replaced by 1, is the distances of all blocks from the newest divided by 1 + 2 + ... + (n - 1), both cut off at
      the largest 64-bit number, rounded down. */
  lemma RawTimeIsQuotient(blocks: seq<BlockDiff>)
    requires |blocks| >= 2
    ensures var time := Min(Distances(blocks[0].timestamp, blocks[1..]), U64_MAX);
      var weight := Min(Triangle(|blocks|), U64_MAX);
      weight * RawTime(blocks) <= time < weight * (RawTime(blocks) + 1)
    ensures AvgTime(blocks) > 0 && (RawTime(blocks) > 0 ==> AvgTime(blocks) == RawTime(blocks))
  {
    if |blocks| == 2 {
      TwoBlocksAgree(blocks);
    }
    TotalTimeIsCut(blocks, |blocks|);
    assert blocks[1..|blocks|] == blocks[1..];
    WeightIsTriangle(|blocks|);
    WeightIsPositive(|blocks|);
    DivBounds(TotalTime(blocks, |blocks|), Weight(|blocks|));
    MulAdds(Weight(|blocks|), RawTime(blocks), 1);
  }

  // ---------- what the new target is ----------

  /** The product is `avg * time / plan`, less by at most what one division rounds off for every unit of time. */
  lemma ProductIsNear(avg: nat, time: nat, plan: nat)
    requires plan > 0
    ensures plan * Product(avg, time, plan) <= avg * time
    ensures avg * time < plan * Product(avg, time, plan) + plan * time || time == 0
  {
    var q := avg / plan;
    DivBounds(avg, plan);
    MulMonotone(plan * q, avg, time);
    assert plan * (q * time) == plan * q * time;
    if time > 0 {
      MulMonotone(avg + 1, plan * q + plan, time);
      assert (plan * q + plan) * time == plan * q * time + plan * time;
    }
  }

  /** The new target is the product if that lies from half the average to twice the average plus one, and otherwise half
      or twice the average, whichever is nearer; a product that does not fit gives the largest target. */
  lemma NextTargetIsClamped(avg: nat, time: nat, plan: nat)
    requires plan > 0
    ensures var p, target := Product(avg, time, plan), NextTarget(avg, time, plan);
      && (p > U256_MAX ==> target == U256_MAX)
      && (p <= U256_MAX && avg / 2 <= p <= 2 * avg + 1 ==> target == p)
      && (p < avg / 2 && p <= U256_MAX ==> target == avg / 2)
      && (2 * avg + 1 < p <= U256_MAX ==> target == 2 * avg)
  {
  }

  // ---------- bounds of the new target ----------

  lemma ProductOnPlan(avg: nat, plan: nat)
    requires plan > 0
    ensures avg - plan < Product(avg, plan, plan) <= avg
  {
    DivBounds(avg, plan);
  }

  /** If the product fits, the new target lies from floor(avg / 2) to 2 * avg + 1 and doubling cannot
      overflow; otherwise it is the largest target, and blocks were slower than planned. */
  lemma NextTargetBounds(avg: U256, time: nat, plan: nat)
    requires plan > 0
    ensures NextTarget(avg, time, plan) <= U256_MAX
    ensures Product(avg, time, plan) <= U256_MAX ==> avg / 2 <= NextTarget(avg, time, plan) <= 2 * avg + 1
    ensures Product(avg, time, plan) > U256_MAX ==> NextTarget(avg, time, plan) == U256_MAX && time > plan
  {
    ProductOnPlan(avg, plan);
    if time <= plan {
      MulMonotone(time, plan, avg / plan);
    }
  }

  /** The new target is 0 only when the average is 0, or 1 with a plan above 1. */
  lemma NextTargetIsPositive(avg: U256, time: nat, plan: nat)
    requires plan > 0 && time > 0
    ensures NextTarget(avg, time, plan) == 0 <==> avg == 0 || (avg == 1 && plan > 1)
  {
    if avg == 0 || (avg == 1 && plan > 1) {
      DivUnique(avg, plan, 0);
    } else if avg == 1 {
      assert avg / plan == 1;
    }
  }

  // ---------- monotonicity ----------

  /** `later` has a newer head or older ancestors than `blocks`, with the same targets. */
  ghost predicate Stretched(blocks: seq<BlockDiff>, later: seq<BlockDiff>) {
    && |blocks| == |later| >= 2
    && blocks[0].timestamp <= later[0].timestamp
    && (forall i :: 1 <= i < |blocks| ==> later[i].timestamp <= blocks[i].timestamp)
    && (forall i :: 0 <= i < |blocks| ==> later[i].target == blocks[i].target)
  }

  lemma {:induction false} TotalTimeMonotone(blocks: seq<BlockDiff>, later: seq<BlockDiff>, n: nat)
    requires Stretched(blocks, later) && 0 < n <= |blocks|
    ensures TotalTime(blocks, n) <= TotalTime(later, n)
  {
    if n > 1 {
      TotalTimeMonotone(blocks, later, n - 1);
    }
  }

  lemma AvgTimeMonotone(blocks: seq<BlockDiff>, later: seq<BlockDiff>)
    requires Stretched(blocks, later)
    ensures AvgTime(blocks) <= AvgTime(later)
  {
    TotalTimeMonotone(blocks, later, |blocks|);
    WeightIsPositive(|blocks|);
    DivMonotone(TotalTime(blocks, |blocks|), TotalTime(later, |blocks|), Weight(|blocks|));
  }

  lemma {:induction false} SameTargets(blocks: seq<BlockDiff>, later: seq<BlockDiff>)
    requires |blocks| == |later| && forall i :: 0 <= i < |blocks| ==> later[i].target == blocks[i].target
    ensures TotalTarget(blocks) == TotalTarget(later)
  {
    if blocks != [] {
      SameTargets(blocks[..|blocks| - 1], later[..|later| - 1]);
    }
  }

  /** A longer time lowers the new target in one case only: the product passes from 2 * avg + 1, which
      the clamp lets through, to a larger value, which it cuts to 2 * avg. */
  lemma NextTargetMonotone(avg: U256, time: nat, later: nat, plan: nat)
    requires plan > 0 && time <= later
    ensures NextTarget(avg, later, plan) + 1 >= NextTarget(avg, time, plan)
    ensures NextTarget(avg, later, plan) < NextTarget(avg, time, plan)
       <==> Product(avg, time, plan) == 2 * avg + 1 && 2 * avg + 1 < Product(avg, later, plan) <= U256_MAX
  {
    MulMonotone(time, later, avg / plan);
  }

  /** Such a drop: with an average of 1, a longer time takes the new target from 3 to 2. */
  lemma LongerTimeCanLowerTarget()
    ensures NextTarget(1, 3, 1) == 3 && NextTarget(1, 4, 1) == 2
  {
  }

  /** Making the head later or older blocks earlier never lowers the new target by more than one. */
  lemma RetargetMonotone(blocks: seq<BlockDiff>, later: seq<BlockDiff>, plan: nat)
    requires plan > 0 && Stretched(blocks, later)
    ensures NextTarget(AvgTarget(later), AvgTime(later), plan) + 1 >= NextTarget(AvgTarget(blocks), AvgTime(blocks), plan)
  {
    SameTargets(blocks, later);
    AvgTimeMonotone(blocks, later);
    AvgTargetIsBetween(blocks, 0, U256_MAX);
    NextTargetMonotone(AvgTarget(blocks), AvgTime(blocks), AvgTime(later), plan);
  }

  // ---------- uniform windows ----------

  /** Blocks `d` apart, newest first. */
  ghost predicate Uniform(blocks: seq<BlockDiff>, d: nat) {
    forall i :: 0 <= i < |blocks| ==> blocks[i].timestamp + i * d == blocks[0].timestamp
  }

  lemma {:induction false} UniformTotal(blocks: seq<BlockDiff>, d: nat, n: nat)
    requires Uniform(blocks, d) && 0 < n <= |blocks|
    requires d * Triangle(n) <= U64_MAX
    ensures TotalTime(blocks, n) == d * Triangle(n)
  {
    if n > 1 {
      MulAdds(d, Triangle(n - 1), n - 1);
      UniformTotal(blocks, d, n - 1);
      UniformDistance(blocks, d, n - 1);
    }
  }

  lemma UniformDistance(blocks: seq<BlockDiff>, d: nat, i: nat)
    requires Uniform(blocks, d) && i < |blocks|
    ensures SatSub(blocks[0].timestamp, blocks[i].timestamp) == i * d
  {
    assert blocks[i].timestamp + i * d == blocks[0].timestamp;
  }

  /** The two-block branch computes what the general loop would. */
  lemma TwoBlocksAgree(blocks: seq<BlockDiff>)
    requires |blocks| == 2
    ensures RawTime(blocks) == WeightedTime(blocks)
  {
    assert TotalTime(blocks, 2) == SatAdd(TotalTime(blocks, 1), SatSub(blocks[0].timestamp, blocks[1].timestamp));
    assert Weight(2) == SatAdd(Weight(1), 1);
  }

  /** On an evenly spaced window whose sum does not saturate the estimate is exactly the spacing. */
  lemma UniformTime(blocks: seq<BlockDiff>, d: nat)
    requires |blocks| >= 2 && Uniform(blocks, d)
    requires d * Triangle(|blocks|) <= U64_MAX
    ensures RawTime(blocks) == d
  {
    var n := |blocks|;
    if n == 2 {
      TwoBlocksAgree(blocks);
    }
    UniformTotal(blocks, d, n);
    WeightIsTriangle(n);
    WeightIsPositive(n);
    ExactQuotient(d, Triangle(n), Weight(n));
  }

  /** A product that fits, divided by a factor that is cut off only if it does not. */
  lemma ExactQuotient(d: nat, w: nat, cut: nat)
    requires d * w <= U64_MAX && cut == Min(w, U64_MAX) && cut > 0
    ensures (d * w) / cut == d
  {
    if d == 0 {
      DivUnique(0, cut, 0);
    } else {
      MulMonotone(1, d, w);
      DivUnique(d * w, w, d);
    }
  }

  /** Blocks exactly on plan keep the target, up to the rounding of one division. */
  lemma OnPlan(blocks: seq<BlockDiff>, plan: nat)
    requires |blocks| >= 2 && plan > 0 && Uniform(blocks, plan)
    requires plan * Triangle(|blocks|) <= U64_MAX
    ensures var avg := AvgTarget(blocks);
      avg - plan < NextTarget(avg, AvgTime(blocks), plan) <= avg
  {
    UniformTime(blocks, plan);
    AvgTargetIsBetween(blocks, 0, U256_MAX);
    ProductOnPlan(AvgTarget(blocks), plan);
  }
}
