/** When a block passes verification, told by the path of the chain alone: no cache, no accumulator, no fork. */
module ChainVerification {
  import opened Basics
  import opened ChainTypes
  import opened Chain
  import opened ChainInvariants
  import opened ChainSteps
  import opened ChainRuns

  /** Header `h` extends `path`: it is one higher and later than the last block, within the epoch and its gas limit,
      and commits to the path. */
  ghost predicate ExtendsPath(path: seq<HashValue>, epoch: Epoch, h: BlockHeader) {
    && path != [] && h.number == |path| && h.parentHash == path[|path| - 1]
    && h.parentHash.OfHeader? && h.timestamp > h.parentHash.header.timestamp
    && epoch.start < h.number <= epoch.end && h.gasUsed <= epoch.gasLimit
    && h.blockAccumulatorRoot == OfLeaves(path)
  }

  lemma HeaderVerifiesIff(store: Store, c: Chain, h: BlockHeader)
    requires StoreInv(store) && ChainInv(store, c)
    ensures VerifyHeader(c, h) <==> ExtendsPath(c.blockAccumulator, c.epoch, h)
  {
    AccumulatorIsLineage(store, c);
    LineageShape(c.head.Id());
  }

  // ---------- uncles ----------

  /** Some block of the path from height `start` on has `u` as an uncle. */
  ghost predicate MintedOn(path: seq<HashValue>, start: nat, u: BlockHeader) {
    exists n :: start <= n < |path| && u in UncleHeaders(path[n])
  }

  lemma MintedAtIff(id: HashValue, u: BlockHeader)
    ensures OfHeader(u) in MintedAt(id) <==> u in UncleHeaders(id)
  {
    var us, ids := UncleHeaders(id), MintedAt(id);
    assert |ids| == |us| && forall k :: 0 <= k < |us| ==> ids[k] == OfHeader(us[k]);
    if u in us {
      var k :| 0 <= k < |us| && us[k] == u;
      assert ids[k] == OfHeader(u);
    }
  }

  lemma {:induction false} MintedIff(id: HashValue, start: nat, u: BlockHeader)
    requires Rooted(id)
    ensures OfHeader(u) in Minted(id, start) <==> MintedOn(Lineage(id), start, u)
  {
    var path, h := Lineage(id), id.header;
    LineageShape(id);
    if start <= h.number {
      MintedAtIff(id, u);
      if h.number == 0 {
        assert Minted(h.parentHash, start) == map[];
        assert path == [id];
      } else {
        MintedIff(h.parentHash, start, u);
        LineageShape(h.parentHash);
        MintedOnMore(Lineage(h.parentHash), id, start, u);
      }
    }
  }

  lemma MintedOnMore(path: seq<HashValue>, id: HashValue, start: nat, u: BlockHeader)
    requires start <= |path|
    ensures MintedOn(path + [id], start, u) <==> MintedOn(path, start, u) || u in UncleHeaders(id)
  {
    var more := path + [id];
    if MintedOn(path, start, u) {
      var n :| start <= n < |path| && u in UncleHeaders(path[n]);
      assert u in UncleHeaders(more[n]);
    }
    if u in UncleHeaders(id) {
      assert u in UncleHeaders(more[|path|]);
    }
    if MintedOn(more, start, u) {
      var n :| start <= n < |more| && u in UncleHeaders(more[n]);
      assert n < |path| ==> u in UncleHeaders(path[n]);
    }
  }

  /** `u` is of this epoch and not above the head, no block of the path, not yet an uncle on it in this epoch, and
      extends the part of the path that ends at its parent, in the epoch there. */
  ghost predicate MayBeUncle(path: seq<HashValue>, epoch: Epoch, u: BlockHeader) {
    && epoch.start <= u.number < epoch.end && 0 < u.number < |path|
    && OfHeader(u) !in path && !MintedOn(path, epoch.start, u)
    && EpochAt(path[u.number - 1]).Some?
    && ExtendsPath(path[..u.number], EpochAt(path[u.number - 1]).value, u)
  }

  /** The fork at an ancestor: its path is the part up to there, and its epoch the one there. */
  lemma ForkAtAncestor(store: Store, c: Chain, n: nat)
    requires StoreInv(store) && ChainInv(store, c) && n < |c.blockAccumulator|
    ensures var f := Fork(store, c, c.blockAccumulator[n]);
      && f.Ok? && ChainInv(store, f.value)
      && f.value.blockAccumulator == c.blockAccumulator[..n + 1] && EpochAt(c.blockAccumulator[n]) == Some(f.value.epoch)
  {
    AccumulatorIsLineage(store, c);
    var id := c.blockAccumulator[n];
    LineageAt(c.head.Id(), n);
    ForkKeeps(store, c, id);
    AccumulatorIsLineage(store, Fork(store, c, id).value);
  }

  lemma UncleVerifiesAt(store: Store, c: Chain, u: BlockHeader, n: nat)
    requires StoreInv(store) && ChainInv(store, c) && n < |c.blockAccumulator| && u.parentHash == c.blockAccumulator[n]
    ensures EpochAt(c.blockAccumulator[n]).Some?
    ensures UncleVerifies(store, c, u) <==>
            ExtendsPath(c.blockAccumulator[..n + 1], EpochAt(c.blockAccumulator[n]).value, u)
  {
    ForkAtAncestor(store, c, n);
    HeaderVerifiesIff(store, Fork(store, c, u.parentHash).value, u);
  }

  lemma ExistsIff(store: Store, c: Chain, id: HashValue)
    requires StoreInv(store) && ChainInv(store, c)
    ensures ExistBlock(store, c, id) <==> id in c.blockAccumulator
  {
    AccumulatorIsLineage(store, c);
    ExistBlockIsOnLineage(store, c, id);
  }

  lemma CachedIff(store: Store, c: Chain, u: BlockHeader)
    requires StoreInv(store) && ChainInv(store, c)
    ensures OfHeader(u) in c.uncles <==> MintedOn(c.blockAccumulator, c.epoch.start, u)
  {
    AccumulatorIsLineage(store, c);
    MintedIff(c.head.Id(), c.epoch.start, u);
  }

  lemma CanBeUncleIff(store: Store, c: Chain, u: BlockHeader)
    requires StoreInv(store) && ChainInv(store, c)
    ensures |c.blockAccumulator| == c.head.header.number + 1
    ensures CanBeUncle(store, c, u) <==>
      && c.epoch.start <= u.number < c.epoch.end && u.number < |c.blockAccumulator|
      && u.parentHash in c.blockAccumulator && OfHeader(u) !in c.blockAccumulator
      && !MintedOn(c.blockAccumulator, c.epoch.start, u)
  {
    AccumulatorIsLineage(store, c);
    ExistsIff(store, c, u.parentHash);
    ExistsIff(store, c, OfHeader(u));
    CachedIff(store, c, u);
  }

  lemma UncleMay(store: Store, c: Chain, u: BlockHeader, n: nat)
    requires StoreInv(store) && ChainInv(store, c) && CanBeUncle(store, c, u) && UncleVerifies(store, c, u)
    requires n < |c.blockAccumulator| && c.blockAccumulator[n] == u.parentHash
    ensures MayBeUncle(c.blockAccumulator, c.epoch, u)
  {
    CanBeUncleIff(store, c, u);
    UncleVerifiesAt(store, c, u, n);
  }

  lemma MayThenVerifies(store: Store, c: Chain, u: BlockHeader)
    requires StoreInv(store) && ChainInv(store, c) && MayBeUncle(c.blockAccumulator, c.epoch, u)
    ensures CanBeUncle(store, c, u) && UncleVerifies(store, c, u)
  {
    CanBeUncleIff(store, c, u);
    UncleVerifiesAt(store, c, u, u.number - 1);
  }

  lemma UncleIff(store: Store, c: Chain, u: BlockHeader)
    requires StoreInv(store) && ChainInv(store, c)
    ensures CanBeUncle(store, c, u) && UncleVerifies(store, c, u) <==> MayBeUncle(c.blockAccumulator, c.epoch, u)
  {
    if CanBeUncle(store, c, u) && UncleVerifies(store, c, u) {
      ExistsIff(store, c, u.parentHash);
      var n :| 0 <= n < |c.blockAccumulator| && c.blockAccumulator[n] == u.parentHash;
      UncleMay(store, c, u, n);
    }
    if MayBeUncle(c.blockAccumulator, c.epoch, u) {
      MayThenVerifies(store, c, u);
    }
  }

  // ---------- blocks ----------

  /** No uncles for the first block of an epoch; otherwise distinct ones, no more than allowed, that may be uncles. */
  ghost predicate MayBeUncles(path: seq<HashValue>, epoch: Epoch, us: seq<BlockHeader>) {
    && (|path| == epoch.end ==> us == [])
    && |us| <= epoch.maxUncles
    && (forall i, j :: 0 <= i < j < |us| ==> us[i] != us[j])
    && (forall i :: 0 <= i < |us| ==> MayBeUncle(path, epoch, us[i]))
  }

  ghost predicate MayExtend(path: seq<HashValue>, epoch: Epoch, block: Block) {
    && ExtendsPath(path, epoch, block.header) && block.header.bodyHash == OfBody(block.body)
    && MayBeUncles(path, epoch, if block.body.uncles.Some? then block.body.uncles.value else [])
  }

  lemma UnclesVerifyIff(store: Store, c: Chain, us: seq<BlockHeader>, h: BlockHeader)
    requires StoreInv(store) && ChainInv(store, c) && h.number == |c.blockAccumulator|
    ensures VerifyUncles(store, c, us, h) <==> MayBeUncles(c.blockAccumulator, c.epoch, us)
  {
    forall i | 0 <= i < |us|
      ensures CanBeUncle(store, c, us[i]) && UncleVerifies(store, c, us[i]) <==> MayBeUncle(c.blockAccumulator, c.epoch, us[i])
    {
      UncleIff(store, c, us[i]);
    }
  }

  lemma BlockVerifiesIff(store: Store, c: Chain, block: Block)
    requires StoreInv(store) && ChainInv(store, c)
    ensures VerifyBlock(store, c, block) <==> MayExtend(c.blockAccumulator, c.epoch, block)
  {
    HeaderVerifiesIff(store, c, block.header);
    if ExtendsPath(c.blockAccumulator, c.epoch, block.header) {
      UnclesVerifyIff(store, c, if block.body.uncles.Some? then block.body.uncles.value else [], block.header);
    }
  }

  /** In every reachable world a block passes verification on a chain if and only if it may extend the chain's path in
      the epoch of its head. */
  lemma VerifiesIff(w: World, i: nat, block: Block)
    requires Reachable(w) && i < |w.chains|
    ensures var c := w.chains[i];
      && EpochAt(c.head.Id()) == Some(c.epoch)
      && (VerifyBlock(w.store, c, block) <==> MayExtend(c.blockAccumulator, c.epoch, block))
  {
    ReachableInv(w);
    BlockVerifiesIff(w.store, w.chains[i], block);
  }
}
