/** The target of the next block of a chain (consensus/src/difficulty.rs). */
module NextWork {
  import opened Basics
  import opened ChainTypes
  import opened ChainInvariants
  import opened BlockChains
  import Chain
  import Difficulty
  import PowTarget

  /** Header values are machine integers. */
  ghost predicate Sized(leaves: seq<HashValue>) {
    forall n :: 0 <= n < |leaves| ==>
      leaves[n].OfHeader? && leaves[n].header.timestamp <= U64_MAX && leaves[n].header.difficulty <= Difficulty.U256_MAX
  }

  /** The newest `count` headers have a target: a difficulty of zero has none. */
  ghost predicate HaveTargets(leaves: seq<HashValue>, count: nat)
    requires count <= |leaves| && Sized(leaves)
  {
    forall n :: |leaves| - count <= n < |leaves| ==> leaves[n].header.difficulty > 0
  }

  function DiffOf(h: BlockHeader): Difficulty.BlockDiff
    requires h.timestamp <= U64_MAX && 0 < h.difficulty <= Difficulty.U256_MAX
  {
    PowTarget.QuotientIsPositive(h.difficulty);
    Difficulty.BlockDiff(h.timestamp, PowTarget.DifficultyToTarget(h.difficulty))
  }

  /** The newest `count` headers of a chain, newest first. */
  ghost function Newest(leaves: seq<HashValue>, count: nat): (r: seq<Difficulty.BlockDiff>)
    requires count <= |leaves| && Sized(leaves) && HaveTargets(leaves, count)
    ensures |r| == count
  {
    if count == 0 then [] else Newest(leaves, count - 1) + [DiffOf(leaves[|leaves| - count].header)]
  }

  lemma {:induction false} NewestAt(leaves: seq<HashValue>, count: nat, i: nat)
    requires i < count <= |leaves| && Sized(leaves) && HaveTargets(leaves, count)
    ensures Newest(leaves, count)[i] == DiffOf(leaves[|leaves| - 1 - i].header)
  {
    if i < count - 1 {
      NewestAt(leaves, count - 1, i);
    }
  }

  /** Entry `i` of the window has the time of the i-th newest header, and the target of its difficulty. */
  lemma WindowAt(leaves: seq<HashValue>, count: nat, i: nat)
    requires i < count <= |leaves| && Sized(leaves) && HaveTargets(leaves, count)
    ensures var h, b := leaves[|leaves| - 1 - i].header, Newest(leaves, count)[i];
      b.timestamp == h.timestamp && b.target == PowTarget.DifficultyToTarget(h.difficulty)
  {
    NewestAt(leaves, count, i);
  }

  datatype WorkError = HeaderNotFound | NumberOverflow | DivisionByZero | NoWindow(cause: Difficulty.DiffError)

  method HeaderAt(chain: BlockChain, n: nat) returns (h: Option<BlockHeader>)
    requires chain.Valid() && n < |chain.blockAccumulator|
    ensures chain.blockAccumulator[n].OfHeader? && h == Some(chain.blockAccumulator[n].header)
  {
    BlockByNumber(chain.storage.Contents(), chain.View(), n);
    h := Chain.GetHeaderByNumber(chain.storage.Contents(), chain.View(), n);
  }

  /** The window is the newest min(window, height + 1) headers in descending order; counting them
      overflows at the largest height. */
  method Window(chain: BlockChain) returns (r: Result<seq<Difficulty.BlockDiff>, WorkError>)
    requires chain.Valid() && Sized(chain.blockAccumulator)
    ensures |chain.blockAccumulator| == chain.head.header.number + 1
    ensures chain.head.header.number >= U64_MAX ==> r == Err(NumberOverflow)
    ensures chain.head.header.number < U64_MAX ==>
      var count := Min(chain.epoch.difficultyWindow, |chain.blockAccumulator|);
      r == if HaveTargets(chain.blockAccumulator, count) then Ok(Newest(chain.blockAccumulator, count)) else Err(DivisionByZero)
  {
    AccumulatorIsLineage(chain.storage.Contents(), chain.View());
    var number, window := chain.head.header.number, chain.epoch.difficultyWindow;
    if number >= U64_MAX {
      return Err(NumberOverflow);
    }
    var start := if number < window then 0 else SatSub(number, window) + 1;
    r := Headers(chain, start);
  }

  /** The headers from the head down to height `start`. */
  method Headers(chain: BlockChain, start: nat) returns (r: Result<seq<Difficulty.BlockDiff>, WorkError>)
    requires chain.Valid() && Sized(chain.blockAccumulator) && start <= chain.head.header.number + 1
    requires |chain.blockAccumulator| == chain.head.header.number + 1
    ensures var count := chain.head.header.number + 1 - start;
      r == if HaveTargets(chain.blockAccumulator, count) then Ok(Newest(chain.blockAccumulator, count)) else Err(DivisionByZero)
  {
    var number := chain.head.header.number;
    var blocks: seq<Difficulty.BlockDiff> := [];
    var n := number + 1;
    while n > start
      invariant start <= n <= number + 1
      invariant HaveTargets(chain.blockAccumulator, number + 1 - n)
      invariant blocks == Newest(chain.blockAccumulator, number + 1 - n)
    {
      n := n - 1;
      var h := HeaderAt(chain, n);
      if h.None? {
        return Err(HeaderNotFound);
      }
      if h.value.difficulty == 0 {
        return Err(DivisionByZero);
      }
      blocks := blocks + [DiffOf(h.value)];
    }
    r := Ok(blocks);
  }

  method GetNextWorkRequired(chain: BlockChain) returns (r: Result<Difficulty.U256, WorkError>)
    requires chain.Valid() && Sized(chain.blockAccumulator) && chain.epoch.timeTarget <= U64_MAX
    ensures |chain.blockAccumulator| == chain.head.header.number + 1
    ensures chain.head.header.number <= 1 ==>
      r == if HaveTargets(chain.blockAccumulator, 1) then Ok(Newest(chain.blockAccumulator, 1)[0].target) else Err(DivisionByZero)
    ensures chain.head.header.number >= U64_MAX ==> r == Err(NumberOverflow)
    ensures 1 < chain.head.header.number < U64_MAX ==>
      var count := Min(chain.epoch.difficultyWindow, |chain.blockAccumulator|);
      if !HaveTargets(chain.blockAccumulator, count) then r == Err(DivisionByZero)
      else
        var blocks := Newest(chain.blockAccumulator, count);
        && (|blocks| == 0 ==> r == Err(NoWindow(Difficulty.NoBlocks)))
        && (|blocks| == 1 ==> r == Ok(blocks[0].target))
        && (|blocks| >= 2 && chain.epoch.timeTarget == 0 ==> r == Err(NoWindow(Difficulty.DivisionByZero)))
        && (|blocks| >= 2 && chain.epoch.timeTarget > 0 ==>
              r.Ok? && r.value == Difficulty.NextTarget(
                         Difficulty.AvgTarget(blocks), Difficulty.AvgTime(blocks), chain.epoch.timeTarget))
  {
    ghost var s, c := chain.storage.Contents(), chain.View();
    AccumulatorIsLineage(s, c);
    if chain.head.header.number <= 1 {
      HeadIsLastLeaf(s, c);
      assert HaveTargets(chain.blockAccumulator, 1) <==> chain.head.header.difficulty > 0;
      if chain.head.header.difficulty == 0 {
        return Err(DivisionByZero);
      }
      NewestAt(chain.blockAccumulator, 1, 0);
      return Ok(DiffOf(chain.head.header).target);
    }
    var blocks := Window(chain);
    if blocks.Err? {
      return Err(blocks.error);
    }
    var target := Difficulty.GetNextTarget(blocks.value, chain.epoch.timeTarget);
    r := if target.Ok? then Ok(target.value) else Err(NoWindow(target.error));
  }

  lemma HeadIsLastLeaf(s: Store, c: Chain.Chain)
    requires StoreInv(s) && AtHead(s, c)
    ensures |c.blockAccumulator| > 0 && c.blockAccumulator[|c.blockAccumulator| - 1] == c.head.Id()
  {
    AccumulatorIsLineage(s, c);
    LineageShape(c.head.Id());
  }
}
