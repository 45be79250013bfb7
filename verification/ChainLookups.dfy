/** Which block a transaction info names: the block that saved it last, on the chain or not. */
module ChainLookups {
  import opened Basics
  import opened ChainTypes
  import opened Executor
  import opened Chain
  import opened ChainInvariants
  import opened ChainSteps
  import opened ChainRuns
  import opened ChainTheorems
  import opened ChainGrowth

  // ---------- the last block to save an info ----------

  /** The block an action executes and saves, if any. */
  ghost function SavedBy(w: World, a: Action): seq<HashValue> {
    if (a.Apply? || a.ExecuteOnly?) && Accepts(w, a.i, a.block, a.vm) then [a.block.Id()] else []
  }

  /** The blocks a run executes and saves, in order. */
  ghost function Savers(w: World, run: seq<Action>): seq<HashValue>
    decreases |run|
  {
    if run == [] then [] else SavedBy(w, run[0]) + Savers(Next(w, run[0]), run[1..])
  }

  /** The last of the blocks `savers` one of whose transaction infos has id `x`. */
  ghost function LastSaver(ids: map<HashValue, seq<HashValue>>, savers: seq<HashValue>, x: HashValue): Option<HashValue> {
    if savers == [] then None
    else
      var last := savers[|savers| - 1];
      if last in ids && x in ids[last] then Some(last) else LastSaver(ids, savers[..|savers| - 1], x)
  }

  /** Every stored transaction info names its last saver. */
  ghost predicate Named(store: Store, savers: seq<HashValue>) {
    && (forall b :: b in savers ==> b in store.infos)
    && (forall x :: x in store.txnInfos ==> LastSaver(store.txnInfoIds, savers, x) == Some(store.txnInfos[x].blockId))
  }

  lemma {:induction false} LastSaverFrame(ids: map<HashValue, seq<HashValue>>, ids': map<HashValue, seq<HashValue>>,
                                          savers: seq<HashValue>, x: HashValue)
    requires forall b :: b in savers ==> b in ids && b in ids' && ids[b] == ids'[b]
    ensures LastSaver(ids, savers, x) == LastSaver(ids', savers, x)
  {
    if savers != [] {
      LastSaverFrame(ids, ids', savers[..|savers| - 1], x);
    }
  }

  lemma LastSaverOfMore(ids: map<HashValue, seq<HashValue>>, savers: seq<HashValue>, b: HashValue, x: HashValue)
    requires b in ids
    ensures LastSaver(ids, savers + [b], x) == if x in ids[b] then Some(b) else LastSaver(ids, savers, x)
  {
    assert (savers + [b])[..|savers|] == savers;
  }

  /** Saving a block makes it the last saver of its infos and of no others. */
  lemma SaveNames(s: Store, savers: seq<HashValue>, block: Block, info: BlockInfo, txns: seq<Transaction>, data: ExecutedData)
    requires |data.infos| == |data.events| == |txns| && Named(s, savers)
    requires Extends(s, Save(s, block, info, txns, data))
    ensures Named(Save(s, block, info, txns, data), savers + [block.Id()])
  {
    var s', ids := Save(s, block, info, txns, data), InfoIds(data.infos);
    forall x | x in s'.txnInfos ensures LastSaver(s'.txnInfoIds, savers + [block.Id()], x) == Some(s'.txnInfos[x].blockId) {
      LastSaverOfMore(s'.txnInfoIds, savers, block.Id(), x);
      if x in ids {
        SavedInfoOf(s.txnInfos, block.Id(), data.infos, x);
      } else {
        LastSaverFrame(s.txnInfoIds, s'.txnInfoIds, savers, x);
      }
    }
  }

  lemma ExecuteNames(s: Store, savers: seq<HashValue>, c: Chain, block: Block, vm: VmResult)
    requires Named(s, savers) && Execute(s, c, block, vm).Ok? && Extends(s, Execute(s, c, block, vm).value.0)
    ensures Named(Execute(s, c, block, vm).value.0, savers + [block.Id()])
  {
    var txns := BlockTransactions(block, ParentGas(BaseOf(c)));
    var data := Executed(c.stateRoot.state, txns, vm).value;
    SaveNames(s, savers, block, Execute(s, c, block, vm).value.1, txns, data);
  }

  lemma AcceptNames(w: World, i: nat, block: Block, vm: VmResult, savers: seq<HashValue>)
    requires Inv(w) && Accepts(w, i, block, vm) && EpochMoves(w, i, block, vm) && Named(w.store, savers)
    ensures Named(AfterExecute(w, i, block, vm).store, savers + [block.Id()])
  {
    ExecuteExtends(w, i, block, vm);
    ExecuteNames(w.store, savers, w.chains[i], block, vm);
  }

  lemma NextNames(w: World, a: Action, savers: seq<HashValue>)
    requires Inv(w) && Legal(w, a) && Named(w.store, savers)
    ensures Named(Next(w, a).store, savers + SavedBy(w, a))
  {
    if SavedBy(w, a) != [] {
      AcceptNames(w, a.i, a.block, a.vm, savers);
    } else {
      assert savers + [] == savers;
    }
  }

  lemma {:induction false} RunNames(w: World, run: seq<Action>, savers: seq<HashValue>)
    requires Inv(w) && LegalRun(w, run) && Named(w.store, savers)
    ensures Named(After(w, run).store, savers + Savers(w, run))
    decreases |run|
  {
    if run == [] {
      assert savers + [] == savers;
    } else {
      NextKeeps(w, run[0]);
      NextNames(w, run[0], savers);
      RunNames(Next(w, run[0]), run[1..], savers + SavedBy(w, run[0]));
      Regroup(savers, SavedBy(w, run[0]), Savers(Next(w, run[0]), run[1..]));
    }
  }

  lemma Regroup(a: seq<HashValue>, b: seq<HashValue>, c: seq<HashValue>)
    ensures a + b + c == a + (b + c)
  {
  }

  lemma GenesisNames(genesis: Block, vm: VmResult)
    requires GenesisBlock(genesis) && ExecuteGenesis(genesis, vm).Ok?
    ensures Named(ExecuteGenesis(genesis, vm).value.0, [genesis.Id()])
  {
    var s := EMPTY_STORE.(genesis := Some(genesis.Id()));
    var txns := BlockTransactions(genesis, None);
    var none: seq<HashValue> := [];
    SaveNames(s, none, genesis, ExecuteGenesis(genesis, vm).value.1, txns, Executed(map[], txns, vm).value);
    assert none + [genesis.Id()] == [genesis.Id()];
  }

  /** All blocks saved from genesis on. */
  ghost function AllSavers(genesis: Block, vm: VmResult, run: seq<Action>): seq<HashValue>
    requires Begin(genesis, vm).Ok?
  {
    [genesis.Id()] + Savers(Begin(genesis, vm).value, run)
  }

  /** In every run every stored transaction info names the last block of the run that saved it. */
  lemma InfosNameLastSaver(genesis: Block, vm: VmResult, run: seq<Action>)
    requires GenesisBlock(genesis) && Begin(genesis, vm).Ok? && LegalRun(Begin(genesis, vm).value, run)
    ensures Named(After(Begin(genesis, vm).value, run).store, AllSavers(genesis, vm, run))
  {
    GenesisNames(genesis, vm);
    BeginKeeps(genesis, vm);
    RunNames(Begin(genesis, vm).value, run, [genesis.Id()]);
  }

  /** Block `savers[j]` saved the info `x`. */
  ghost predicate SavedAt(ids: map<HashValue, seq<HashValue>>, savers: seq<HashValue>, j: int, x: HashValue) {
    0 <= j < |savers| && savers[j] in ids && x in ids[savers[j]]
  }

  /** The info was saved by one of the blocks `on`, and since then by no other. */
  ghost predicate LastSavedOn(ids: map<HashValue, seq<HashValue>>, savers: seq<HashValue>, x: HashValue, on: seq<HashValue>) {
    exists j :: SavedAt(ids, savers, j, x) && savers[j] in on &&
                forall k :: j < k && SavedAt(ids, savers, k, x) ==> savers[k] in on
  }

  lemma {:induction false} LastSaverIsAt(ids: map<HashValue, seq<HashValue>>, savers: seq<HashValue>, x: HashValue)
    requires LastSaver(ids, savers, x).Some?
    ensures exists j :: SavedAt(ids, savers, j, x) && savers[j] == LastSaver(ids, savers, x).value &&
                        forall k :: j < k ==> !SavedAt(ids, savers, k, x)
  {
    var n := |savers| - 1;
    if SavedAt(ids, savers, n, x) {
      assert forall k :: n < k ==> !SavedAt(ids, savers, k, x);
    } else {
      var init := savers[..n];
      LastSaverIsAt(ids, init, x);
      var j :| SavedAt(ids, init, j, x) && init[j] == LastSaver(ids, init, x).value &&
               forall k :: j < k ==> !SavedAt(ids, init, k, x);
      assert SavedAt(ids, savers, j, x);
      forall k | j < k ensures !SavedAt(ids, savers, k, x) {
        assert !SavedAt(ids, init, k, x);
      }
    }
  }

  lemma LastSaverIsOnIff(ids: map<HashValue, seq<HashValue>>, savers: seq<HashValue>, x: HashValue, on: seq<HashValue>)
    requires LastSaver(ids, savers, x).Some?
    ensures LastSaver(ids, savers, x).value in on <==> LastSavedOn(ids, savers, x, on)
  {
    LastSaverIsAt(ids, savers, x);
    var j :| SavedAt(ids, savers, j, x) && savers[j] == LastSaver(ids, savers, x).value &&
             forall k :: j < k ==> !SavedAt(ids, savers, k, x);
    if LastSavedOn(ids, savers, x, on) {
      var i :| SavedAt(ids, savers, i, x) && savers[i] in on &&
               forall k :: i < k && SavedAt(ids, savers, k, x) ==> savers[k] in on;
      assert i <= j;
    }
  }

  /** So a lookup by version names the last saver of the leaf there, and that is a block of the chain if and only
      if no block off the chain saved the leaf after the last block on it did. */
  lemma LookupNamesLastSaver(genesis: Block, vm: VmResult, run: seq<Action>, i: nat, v: nat)
    requires GenesisBlock(genesis) && Begin(genesis, vm).Ok? && LegalRun(Begin(genesis, vm).value, run)
    requires var w := After(Begin(genesis, vm).value, run);
      i < |w.chains| && GetTransactionInfoByVersion(w.store, w.chains[i], v).Some?
    ensures var w := After(Begin(genesis, vm).value, run);
      var c, ids, savers := w.chains[i], w.store.txnInfoIds, AllSavers(genesis, vm, run);
      var named := GetTransactionInfoByVersion(w.store, c, v).value.blockId;
      && LastSaver(ids, savers, c.txnAccumulator[v]) == Some(named)
      && (named in c.blockAccumulator <==> LastSavedOn(ids, savers, c.txnAccumulator[v], c.blockAccumulator))
  {
    var w := After(Begin(genesis, vm).value, run);
    InfosNameLastSaver(genesis, vm, run);
    LastSaverIsOnIff(w.store.txnInfoIds, AllSavers(genesis, vm, run), w.chains[i].txnAccumulator[v], w.chains[i].blockAccumulator);
  }

  // ---------- a lookup that leaves the chain ----------

  /** A chain that agrees with the store is determined by its head. */
  lemma SameHead(s: Store, c: Chain, d: Chain)
    requires ChainInv(s, c) && ChainInv(s, d) && c.head.Id() == d.head.Id()
    ensures c == d
  {
  }

  /** Forking at a block of the chain does not depend on what else the store holds. */
  lemma ForkFrame(s: Store, s': Store, c: Chain, id: HashValue)
    requires StoreInv(s) && StoreInv(s') && Extends(s, s') && ChainInv(s, c) && id in Lineage(c.head.Id())
    ensures Fork(s', c, id) == Fork(s, c, id)
  {
    ChainInvFrame(s, s', c);
    ForkKeeps(s, c, id);
    ForkKeeps(s', c, id);
    ChainInvFrame(s, s', Fork(s, c, id).value);
    SameHead(s', Fork(s, c, id).value, Fork(s', c, id).value);
  }

  lemma UncleFrame(s: Store, s': Store, c: Chain, u: BlockHeader)
    requires StoreInv(s) && StoreInv(s') && Extends(s, s') && ChainInv(s, c)
    requires CanBeUncle(s, c, u) && UncleVerifies(s, c, u)
    ensures CanBeUncle(s', c, u) && UncleVerifies(s', c, u)
  {
    ChainInvFrame(s, s', c);
    ExistBlockIsOnLineage(s, c, u.parentHash);
    ExistBlockIsOnLineage(s', c, u.parentHash);
    ExistBlockIsOnLineage(s, c, OfHeader(u));
    ExistBlockIsOnLineage(s', c, OfHeader(u));
    ForkFrame(s, s', c, u.parentHash);
  }

  lemma UnclesFrame(s: Store, s': Store, c: Chain, us: seq<BlockHeader>, h: BlockHeader, h': BlockHeader)
    requires StoreInv(s) && StoreInv(s') && Extends(s, s') && ChainInv(s, c)
    requires VerifyUncles(s, c, us, h) && h'.number == h.number
    ensures VerifyUncles(s', c, us, h')
  {
    forall k | 0 <= k < |us| ensures CanBeUncle(s', c, us[k]) && UncleVerifies(s', c, us[k]) {
      UncleFrame(s, s', c, us[k]);
    }
  }

  /** A block that differs only in its nonce verifies as well, also once the block itself has been saved. */
  lemma SiblingVerifies(s: Store, s': Store, c: Chain, block: Block, nonce: nat)
    requires StoreInv(s) && StoreInv(s') && Extends(s, s') && ChainInv(s, c) && VerifyBlock(s, c, block)
    ensures VerifyBlock(s', c, Sibling(block, nonce))
  {
    UnclesFrame(s, s', c, if block.body.uncles.Some? then block.body.uncles.value else [],
                block.header, Sibling(block, nonce).header);
  }

  /** The chain after applying a block, and forking at the block's parent again. */
  lemma ForkBack(s: Store, c: Chain, block: Block, vm: VmResult)
    requires StoreInv(s) && ChainInv(s, c) && VerifyBlock(s, c, block) && Execute(s, c, block, vm).Ok?
    requires VmKeepsEpochLaw(s, c, block, vm)
    ensures var (s', info) := Execute(s, c, block, vm).value;
      && StoreInv(s') && Extends(s, s')
      && Fork(s', Connect(s', c, block, info).0, c.head.Id()) == Ok(c)
  {
    ApplyKeeps(s, c, block, vm);
    var (s', info) := Execute(s, c, block, vm).value;
    var c' := Connect(s', c, block, info).0;
    ChainInvFrame(s, s', c);
    AccumulatorIsLineage(s', c);
    AccumulatorIsLineage(s', c');
    LineageShape(c.head.Id());
    assert c'.blockAccumulator[c.head.header.number] == c.head.Id();
    ForkKeeps(s', c', c.head.Id());
    SameHead(s', c, Fork(s', c', c.head.Id()).value);
  }

  /** Version `v` of the chain is found, and names a block that is not on the chain. */
  ghost predicate LookupLeaves(store: Store, c: Chain, v: nat) {
    var found := GetTransactionInfoByVersion(store, c, v);
    found.Some? && found.value.blockId !in c.blockAccumulator
  }

  ghost predicate LookupLeavesChain(w: World, i: nat, v: nat) {
    i < |w.chains| && LookupLeaves(w.store, w.chains[i], v)
  }

  /** Executing a block's sibling on the same parent makes it the block that the block's infos name. */
  lemma SiblingTakesOver(s: Store, s': Store, c: Chain, block: Block, nonce: nat, vm: VmResult)
    requires Execute(s, c, block, vm).Ok? && block.header.bodyHash == OfBody(block.body)
    ensures Execute(s', c, Sibling(block, nonce), vm).Ok?
    ensures var info, s'' := Execute(s, c, block, vm).value.1, Execute(s', c, Sibling(block, nonce), vm).value.0;
      var v := |c.txnAccumulator|;
      && v < |info.txnAccumulator| && info.txnAccumulator[v] in s''.txnInfos
      && s''.txnInfos[info.txnAccumulator[v]].blockId == Sibling(block, nonce).Id()
  {
    SiblingSharesInfos(s, s', c, block, nonce, vm);
    SavedInfosNameTheirBlock(s', c, Sibling(block, nonce), vm);
    ExecuteSaves(s, c, block, vm);
    FirstInfo(s, c, block, vm);
  }

  lemma FirstInfo(s: Store, c: Chain, block: Block, vm: VmResult)
    requires Execute(s, c, block, vm).Ok?
    ensures block.Id() in Execute(s, c, block, vm).value.0.txnInfoIds
    ensures |Execute(s, c, block, vm).value.0.txnInfoIds[block.Id()]| > 0
  {
  }

  lemma NotAmongParents(s: Store, c: Chain, block: Block)
    requires StoreInv(s) && ChainInv(s, c) && block.header.number == c.head.header.number + 1
    ensures block.Id() !in c.blockAccumulator
  {
    AccumulatorIsLineage(s, c);
    if block.Id() in c.blockAccumulator {
      var k :| 0 <= k < |c.blockAccumulator| && c.blockAccumulator[k] == block.Id();
      BlockByNumber(s, c, k);
    }
  }

  /** The world after a block was applied to chain `i`. */
  ghost function Applied(w: World, i: nat, block: Block, vm: VmResult): World
    requires Accepts(w, i, block, vm)
  {
    var (s', info) := Execute(w.store, w.chains[i], block, vm).value;
    World(s', w.chains[i := Connect(s', w.chains[i], block, info).0])
  }

  lemma ApplyIsApplied(w: World, i: nat, block: Block, vm: VmResult)
    requires Accepts(w, i, block, vm)
    ensures Next(w, Apply(i, block, vm)) == Applied(w, i, block, vm)
  {
    ExecuteSaves(w.store, w.chains[i], block, vm);
    var (s', info) := Execute(w.store, w.chains[i], block, vm).value;
    ConnectsSaved(w.(store := s'), i, block, info);
  }

  lemma ConnectsSaved(w: World, i: nat, block: Block, info: BlockInfo)
    requires i < |w.chains| && block.Id() in w.store.blocks && w.store.blocks[block.Id()] == block
    requires block.Id() in w.store.infos && w.store.infos[block.Id()] == info
    ensures AfterConnect(w, i, block.Id()) == w.(chains := w.chains[i := Connect(w.store, w.chains[i], block, info).0])
  {
  }

  lemma ForkAdds(w: World, i: nat, id: HashValue, c: Chain)
    requires i < |w.chains| && Fork(w.store, w.chains[i], id) == Ok(c)
    ensures Next(w, ForkAt(i, id)) == w.(chains := w.chains + [c])
  {
  }

  /** Forking a chain back to where it was before the block was applied brings the old chain back. */
  lemma ForkIsForked(w: World, i: nat, block: Block, vm: VmResult)
    requires Accepts(w, i, block, vm) && StoreInv(w.store) && ChainInv(w.store, w.chains[i])
    requires VmKeepsEpochLaw(w.store, w.chains[i], block, vm)
    ensures var w1 := Applied(w, i, block, vm);
      && StoreInv(w1.store) && Extends(w.store, w1.store)
      && Next(w1, ForkAt(i, w.chains[i].head.Id())) == w1.(chains := w1.chains + [w.chains[i]])
  {
    ForkBack(w.store, w.chains[i], block, vm);
    ForkAdds(Applied(w, i, block, vm), i, w.chains[i].head.Id(), w.chains[i]);
  }

  lemma SiblingIsAccepted(w: World, i: nat, block: Block, vm: VmResult, nonce: nat, s': Store, chains: seq<Chain>)
    requires Inv(w) && Accepts(w, i, block, vm) && EpochMoves(w, i, block, vm)
    requires StoreInv(s') && Extends(w.store, s') && |chains| == |w.chains|
    ensures var w' := World(s', chains + [w.chains[i]]);
      Accepts(w', |chains|, Sibling(block, nonce), vm) && EpochMoves(w', |chains|, Sibling(block, nonce), vm)
  {
    SiblingExecutes(w.store, s', w.chains[i], block, vm, nonce);
    SiblingHasEpoch(block, nonce);
    AcceptsOnLast(s', chains, w.chains[i], Sibling(block, nonce), vm);
  }

  lemma AcceptsOnLast(s: Store, chains: seq<Chain>, c: Chain, block: Block, vm: VmResult)
    requires VerifyBlock(s, c, block) && Execute(s, c, block, vm).Ok?
    requires EpochLaw(c.epoch, block.header.number, EpochAt(block.Id()))
    ensures var w := World(s, chains + [c]);
      Accepts(w, |chains|, block, vm) && EpochMoves(w, |chains|, block, vm)
  {
  }

  lemma SiblingExecutes(s: Store, s': Store, c: Chain, block: Block, vm: VmResult, nonce: nat)
    requires StoreInv(s) && StoreInv(s') && Extends(s, s') && ChainInv(s, c)
    requires VerifyBlock(s, c, block) && Execute(s, c, block, vm).Ok?
    ensures VerifyBlock(s', c, Sibling(block, nonce)) && Execute(s', c, Sibling(block, nonce), vm).Ok?
  {
    SiblingVerifies(s, s', c, block, nonce);
    SiblingSharesInfos(s, s', c, block, nonce, vm);
  }

  lemma SiblingHasEpoch(block: Block, nonce: nat)
    ensures EpochAt(Sibling(block, nonce).Id()) == EpochAt(block.Id())
    ensures Sibling(block, nonce).header.number == block.header.number
  {
  }

  lemma SiblingIsNamed(s: Store, s': Store, c: Chain, block: Block, vm: VmResult, nonce: nat)
    requires StoreInv(s) && ChainInv(s, c) && VerifyBlock(s, c, block) && Execute(s, c, block, vm).Ok?
    requires nonce != block.header.nonce
    ensures var c' := Connect(s', c, block, Execute(s, c, block, vm).value.1).0;
      var s'' := Execute(s', c, Sibling(block, nonce), vm);
      s''.Ok? && LookupLeaves(s''.value.0, c', |c.txnAccumulator|)
  {
    var info := Execute(s, c, block, vm).value.1;
    SiblingTakesOver(s, s', c, block, nonce, vm);
    SiblingIsElsewhere(s, c, block, vm, nonce);
    ConnectedLeaves(s', c, block, info);
  }

  lemma SiblingIsElsewhere(s: Store, c: Chain, block: Block, vm: VmResult, nonce: nat)
    requires StoreInv(s) && ChainInv(s, c) && VerifyBlock(s, c, block) && Execute(s, c, block, vm).Ok?
    requires nonce != block.header.nonce
    ensures Sibling(block, nonce).Id() !in Execute(s, c, block, vm).value.1.blockAccumulator
  {
    ExecuteSaves(s, c, block, vm);
    NotAmongParents(s, c, Sibling(block, nonce));
  }

  lemma ConnectedLeaves(s: Store, c: Chain, block: Block, info: BlockInfo)
    ensures var c' := Connect(s, c, block, info).0;
      c'.blockAccumulator == info.blockAccumulator && c'.txnAccumulator == info.txnAccumulator
  {
  }

  /** For every accepted block: apply it, fork at its parent and execute a sibling of the block on the fork.
      Then a version of the chain is found and names the sibling, which is not on the chain. */
  lemma LookupCanLeaveChain(w: World, i: nat, block: Block, vm: VmResult, nonce: nat)
    requires Inv(w) && Accepts(w, i, block, vm) && EpochMoves(w, i, block, vm) && nonce != block.header.nonce
    ensures var fork, execute := ForkAt(i, w.chains[i].head.Id()), ExecuteOnly(|w.chains|, Sibling(block, nonce), vm);
      var w1 := Next(w, Apply(i, block, vm));
      var w2 := Next(w1, fork);
      && Legal(w, Apply(i, block, vm)) && Legal(w1, fork) && Legal(w2, execute)
      && LookupLeavesChain(Next(w2, execute), i, |w.chains[i].txnAccumulator|)
  {
    ApplyIsApplied(w, i, block, vm);
    ForkIsForked(w, i, block, vm);
    var w1 := Applied(w, i, block, vm);
    SiblingIsAccepted(w, i, block, vm, nonce, w1.store, w1.chains);
    SiblingIsNamed(w.store, w1.store, w.chains[i], block, vm, nonce);
  }

  /** So from every reachable world, for every of its chains, a world is reached in which a lookup leaves that
      chain. */
  lemma LookupLeavesEveryChain(w: World, i: nat)
    requires Reachable(w) && i < |w.chains|
    ensures exists w', v :: Reachable(w') && LookupLeavesChain(w', i, v)
  {
    ReachableInv(w);
    var a, b, c, v := LeavingActions(w, i);
    ReachableNext(w, a);
    ReachableNext(Next(w, a), b);
    ReachableNext(Next(Next(w, a), b), c);
  }

  lemma LeavingActions(w: World, i: nat) returns (a: Action, b: Action, c: Action, v: nat)
    requires Inv(w) && i < |w.chains|
    ensures Legal(w, a) && Legal(Next(w, a), b) && Legal(Next(Next(w, a), b), c)
    ensures LookupLeavesChain(Next(Next(Next(w, a), b), c), i, v)
  {
    ChildIsAccepted(w, i, [], 0);
    var block, vm := Child(w.chains[i], [], 0), Ok([ChildOutput(w.chains[i], [])]);
    LookupCanLeaveChain(w, i, block, vm, 1);
    a, b := Apply(i, block, vm), ForkAt(i, w.chains[i].head.Id());
    c, v := ExecuteOnly(|w.chains|, Sibling(block, 1), vm), |w.chains[i].txnAccumulator|;
  }
}
