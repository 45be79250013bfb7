/** What holds of every chain of every reachable world. */
module ChainTheorems {
  import opened Basics
  import opened ChainTypes
  import opened Executor
  import opened Chain
  import opened ChainHistory
  import opened ChainInvariants
  import opened ChainSteps
  import opened ChainRuns

  /** The incrementally kept uncle cache is what recomputing the epoch would give. */
  lemma UncleCacheIsExact(w: World, i: nat)
    requires Reachable(w) && i < |w.chains|
    ensures EpochUncles(w.store, w.chains[i]) == Ok(w.chains[i].uncles)
  {
    ReachableInv(w);
    EpochUnclesIsMinted(w.store, w.chains[i]);
  }

  /** Reopening a chain at its head, as a restart does, gives exactly the chain that was running. */
  lemma ReopenIsSame(w: World, i: nat)
    requires Reachable(w) && i < |w.chains|
    ensures New(w.store, w.chains[i].head.Id()) == Ok(w.chains[i])
  {
    ReachableInv(w);
    OpensAsItself(w.store, w.chains[i]);
  }

  lemma OpensAsItself(store: Store, c: Chain)
    requires StoreInv(store) && ChainInv(store, c)
    ensures New(store, c.head.Id()) == Ok(c)
  {
    OpenKeeps(store, c.head, None);
    EpochUnclesIsMinted(store, c.(uncles := map[]));
  }

  /** So however two chains came to the same head, by applying, connecting, forking or opening, they
      are the same chain. */
  lemma HeadDeterminesChain(w: World, i: nat, j: nat)
    requires Reachable(w) && i < |w.chains| && j < |w.chains|
    requires w.chains[i].head.Id() == w.chains[j].head.Id()
    ensures w.chains[i] == w.chains[j]
  {
    ReopenIsSame(w, i);
    ReopenIsSame(w, j);
  }

  /** `path` is the way from the genesis block to `head` by parent hashes. */
  ghost predicate IsPath(path: seq<HashValue>, genesis: HashValue, head: HashValue) {
    && |path| > 0 && path[0] == genesis && path[|path| - 1] == head
    && (forall n :: 0 <= n < |path| ==> path[n].OfHeader? && path[n].header.number == n)
    && (forall n :: 0 < n < |path| ==> path[n].header.parentHash == path[n - 1])
  }

  /** Leaf n of the block accumulator is the ancestor of the head at height n, and there is none
      beyond the head. */
  lemma LeavesAreAncestors(w: World, i: nat)
    requires Reachable(w) && i < |w.chains|
    ensures var c := w.chains[i];
      && |c.blockAccumulator| == c.head.header.number + 1
      && IsPath(c.blockAccumulator, c.genesis, c.head.Id())
      && c.genesis == w.chains[0].genesis
  {
    ReachableInv(w);
    var c := w.chains[i];
    AccumulatorIsLineage(w.store, c);
    forall n | 0 <= n < |c.blockAccumulator|
      ensures c.blockAccumulator[n].OfHeader? && c.blockAccumulator[n].header.number == n
      ensures n > 0 ==> c.blockAccumulator[n].header.parentHash == c.blockAccumulator[n - 1]
    {
      LineageAt(c.head.Id(), n);
    }
    LineageShape(c.head.Id());
    GenesisIsFirst(w.store, c);
    assert ChainInv(w.store, w.chains[0]);
  }

  // ---------- verified history ----------

  lemma HeadIsVouched(w: World, i: nat)
    requires Reachable(w) && i < |w.chains|
    ensures var c := w.chains[i];
      && c.blockAccumulator == Lineage(c.head.Id())
      && Rooted(c.head.Id()) && Lawful(c.head.Id()) && Vouched(c.head.Id())
  {
    ReachableInv(w);
    AccumulatorIsLineage(w.store, w.chains[i]);
    assert BlockInv(w.store, w.chains[i].head.Id());
  }

  /** Timestamps strictly increase along a chain. */
  lemma TimestampsIncrease(w: World, i: nat, n: nat, m: nat)
    requires Reachable(w) && i < |w.chains| && n < m < |w.chains[i].blockAccumulator|
    ensures var leaves := w.chains[i].blockAccumulator;
      leaves[n].OfHeader? && leaves[m].OfHeader? && leaves[n].header.timestamp < leaves[m].header.timestamp
  {
    HeadIsVouched(w, i);
    TimesOrdered(w.chains[i].head.Id(), n, m);
  }

  /** Every header of a chain commits to all the blocks before it. */
  lemma HeadersCommitToPath(w: World, i: nat, n: nat)
    requires Reachable(w) && i < |w.chains| && 0 < n < |w.chains[i].blockAccumulator|
    ensures var leaves := w.chains[i].blockAccumulator;
      leaves[n].OfHeader? && leaves[n].header.blockAccumulatorRoot == OfLeaves(leaves[..n])
  {
    HeadIsVouched(w, i);
    CommitsToPath(w.chains[i].head.Id(), n);
  }

  /** Every uncle of a chain is lower than the block that minted it, one higher than its parent, which is a
      block of the chain, later than that, commits to the blocks before it, and is no block of the chain. */
  lemma UnclesAreOffPath(w: World, i: nat, n: nat, u: BlockHeader)
    requires Reachable(w) && i < |w.chains| && n < |w.chains[i].blockAccumulator|
    requires u in UncleHeaders(w.chains[i].blockAccumulator[n])
    ensures BesidePath(w.chains[i].blockAccumulator, n, u)
  {
    HeadIsVouched(w, i);
    UncleIsBesidePath(w.chains[i].head.Id(), n, u);
  }

  /** The uncles of one block are distinct and no more than its epoch allows, and the first block of an
      epoch has none. */
  lemma UnclesAreFew(w: World, i: nat, n: nat)
    requires Reachable(w) && i < |w.chains| && n < |w.chains[i].blockAccumulator|
    ensures var x := w.chains[i].blockAccumulator[n];
      var us := UncleHeaders(x);
      && InEpoch(x) && |us| <= EpochAt(x).value.maxUncles
      && (forall i, j :: 0 <= i < j < |us| ==> us[i] != us[j])
      && (x.header.number == EpochAt(x).value.start ==> us == [])
  {
    HeadIsVouched(w, i);
    UnclesOfLeaf(w.chains[i].head.Id(), n);
  }

  /** No uncle is minted twice on a chain, in one epoch or in different ones. */
  lemma UnclesAreMintedOnce(w: World, i: nat, n: nat, m: nat, u: BlockHeader)
    requires Reachable(w) && i < |w.chains| && n < m < |w.chains[i].blockAccumulator|
    requires u in UncleHeaders(w.chains[i].blockAccumulator[n])
    ensures u !in UncleHeaders(w.chains[i].blockAccumulator[m])
  {
    HeadIsVouched(w, i);
    MintedOnce(w.chains[i].head.Id(), n, m, u);
  }

  /** A path is determined by its head, whatever store or chain it was read from. */
  lemma {:induction false} PathIsUnique(p: seq<HashValue>, q: seq<HashValue>, g: HashValue, g': HashValue, head: HashValue)
    requires IsPath(p, g, head) && IsPath(q, g', head)
    ensures p == q
    decreases |p|
  {
    assert |p| == |q| == head.header.number + 1;
    if |p| > 1 {
      var p', q' := p[..|p| - 1], q[..|q| - 1];
      PathIsUnique(p', q', g, g', head.header.parentHash);
      assert p == p' + [head] && q == q' + [head];
    } else {
      assert p == [head] && q == [head];
    }
  }

  /** `exist_block`, `get_block` and `get_header` accept exactly the ids on the chain's path. */
  lemma QueriesMatchPath(w: World, i: nat, id: HashValue)
    requires Reachable(w) && i < |w.chains|
    ensures var c := w.chains[i];
      && (ExistBlock(w.store, c, id) <==> id in c.blockAccumulator)
      && (GetBlock(w.store, c, id).Some? <==> id in c.blockAccumulator)
      && (GetHeader(w.store, c, id).Some? <==> id in c.blockAccumulator)
      && (GetBlock(w.store, c, id).Some? ==> GetBlock(w.store, c, id).value.Id() == id)
      && (GetHeader(w.store, c, id).Some? ==> OfHeader(GetHeader(w.store, c, id).value) == id)
  {
    ReachableInv(w);
    var c := w.chains[i];
    AccumulatorIsLineage(w.store, c);
    ExistBlockIsOnLineage(w.store, c, id);
    forall k | 0 <= k < |c.blockAccumulator|
      ensures c.blockAccumulator[k] in w.store.headers && c.blockAccumulator[k] in w.store.blocks
      ensures c.blockAccumulator[k].OfHeader? && c.blockAccumulator[k].header.number == k
    {
      BlockByNumber(w.store, c, k);
    }
    GetBlockIsOnLineage(w.store, c, id);
    GetHeaderIsOnLineage(w.store, c, id);
  }

  lemma ForkLeaves(store: Store, c: Chain, id: HashValue)
    requires StoreInv(store) && ChainInv(store, c) && id in c.blockAccumulator
    ensures Fork(store, c, id).Ok?
    ensures var f := Fork(store, c, id).value;
      && ChainInv(store, f) && f.head.Id() == id && f.blockAccumulator <= c.blockAccumulator
  {
    AccumulatorIsLineage(store, c);
    ForkKeeps(store, c, id);
    AccumulatorIsLineage(store, Fork(store, c, id).value);
    var k :| 0 <= k < |c.blockAccumulator| && c.blockAccumulator[k] == id;
    LineageAt(c.head.Id(), k);
  }

  /** A fork succeeds exactly at the blocks of the chain, and its leaves are a prefix. */
  lemma ForkIsPrefix(w: World, i: nat, id: HashValue)
    requires Reachable(w) && i < |w.chains|
    ensures Fork(w.store, w.chains[i], id).Ok? <==> id in w.chains[i].blockAccumulator
    ensures Fork(w.store, w.chains[i], id).Ok? ==>
      var f := Fork(w.store, w.chains[i], id).value;
      && f.head.Id() == id && f.blockAccumulator <= w.chains[i].blockAccumulator
      && EpochUncles(w.store, f) == Ok(f.uncles)
  {
    ReachableInv(w);
    var c := w.chains[i];
    AccumulatorIsLineage(w.store, c);
    ExistBlockIsOnLineage(w.store, c, id);
    if id in c.blockAccumulator {
      ForkLeaves(w.store, c, id);
      EpochUnclesIsMinted(w.store, Fork(w.store, c, id).value);
    }
  }

  // ---------- totals ----------

  /** Total difficulty is the sum of the header difficulties from genesis, and the transaction
      accumulator the concatenation of the blocks' transaction info ids. */
  lemma TotalsFollowPath(w: World, i: nat)
    requires Reachable(w) && i < |w.chains|
    ensures var c := w.chains[i];
      && c.info.totalDifficulty == TotalDifficulty(c.blockAccumulator)
      && c.txnAccumulator == TxnHistory(w.store.txnInfoIds, c.blockAccumulator)
  {
    ReachableInv(w);
    AccumulatorIsLineage(w.store, w.chains[i]);
    assert BlockInv(w.store, w.chains[i].head.Id());
  }

  /** Difficulties add up and histories are concatenated from the parts of a path down to its single blocks. */
  lemma {:induction false} TotalsAddUp(ids: map<HashValue, seq<HashValue>>, a: seq<HashValue>, b: seq<HashValue>)
    ensures TotalDifficulty(a + b) == TotalDifficulty(a) + TotalDifficulty(b)
    ensures TxnHistory(ids, a + b) == TxnHistory(ids, a) + TxnHistory(ids, b)
  {
    if b == [] {
      assert a + b == a;
    } else {
      assert (a + b)[..|a + b| - 1] == a + b[..|b| - 1];
      TotalsAddUp(ids, a, b[..|b| - 1]);
    }
  }

  lemma TotalsOfOne(ids: map<HashValue, seq<HashValue>>, id: HashValue)
    requires id.OfHeader? && id in ids
    ensures TotalDifficulty([id]) == id.header.difficulty && TxnHistory(ids, [id]) == ids[id]
  {
    assert [id][..0] == [];
  }

  lemma {:induction false} HistoryIsFromBlocks(ids: map<HashValue, seq<HashValue>>, path: seq<HashValue>, v: nat) returns (b: HashValue)
    requires v < |TxnHistory(ids, path)|
    ensures b in path && b in ids && TxnHistory(ids, path)[v] in ids[b]
  {
    var init, last := path[..|path| - 1], path[|path| - 1];
    if v < |TxnHistory(ids, init)| {
      b := HistoryIsFromBlocks(ids, init, v);
    } else {
      b := last;
    }
  }

  /** Looking up version v returns the v-th transaction info of the chain's history. */
  lemma VersionLookup(w: World, i: nat, v: nat)
    requires Reachable(w) && i < |w.chains|
    ensures var c := w.chains[i];
      var history := TxnHistory(w.store.txnInfoIds, c.blockAccumulator);
      match GetTransactionInfoByVersion(w.store, c, v)
      case Some(found) => v < |history| && OfInfo(found.txnInfo) == history[v]
      case None => v >= |history|
  {
    TotalsFollowPath(w, i);
    ReachableInv(w);
    if v < |w.chains[i].txnAccumulator| {
      LeafIsStored(w.store, w.chains[i], v);
    }
  }

  lemma LeafIsStored(store: Store, c: Chain, v: nat)
    requires StoreInv(store) && ChainInv(store, c) && v < |c.txnAccumulator|
    requires c.txnAccumulator == TxnHistory(store.txnInfoIds, c.blockAccumulator)
    ensures c.txnAccumulator[v] in store.txnInfos && OfInfo(store.txnInfos[c.txnAccumulator[v]].txnInfo) == c.txnAccumulator[v]
  {
    var b := HistoryIsFromBlocks(store.txnInfoIds, c.blockAccumulator, v);
    var k :| 0 <= k < |c.blockAccumulator| && c.blockAccumulator[k] == b;
    BlockByNumber(store, c, k);
  }

  // ---------- saved blocks ----------

  /** The conditions a block must meet to be saved: every transaction is executed and kept, and
      state root, gas and accumulator root are those of its header. */
  ghost predicate Faithful(state: State, txnAcc: seq<HashValue>, base: Base, block: Block, vm: VmResult) {
    var txns := BlockTransactions(block, ParentGas(base));
    && vm.Ok? && |txns| <= |vm.value| && NoDiscard(vm.value, |txns|)
    && var infos := seq(|txns|, k requires 0 <= k < |txns| => InfoAt(state, txns, vm.value, k));
       && block.header.stateRoot == OfState(StateAfter(state, vm.value[..|txns|]))
       && block.header.gasUsed == GasSum(infos)
       && block.header.txnAccumulatorRoot == OfLeaves(txnAcc + InfoIds(infos))
  }

  /** A block is saved if and only if it is faithful to its header; otherwise nothing is written. */
  lemma SavedIffFaithful(store: Store, state: State, txnAcc: seq<HashValue>, blockAcc: seq<HashValue>,
                         base: Base, block: Block, vm: VmResult)
    ensures ExecuteBlockAndSave(store, state, txnAcc, blockAcc, base, block, vm).Ok?
       <==> Faithful(state, txnAcc, base, block, vm)
  {
    ExecutedInfos(state, BlockTransactions(block, ParentGas(base)), vm);
  }

  lemma ExecutedInfos(state: State, txns: seq<Transaction>, vm: VmResult)
    ensures vm.Ok? && |txns| <= |vm.value| && Executed(state, txns, vm).Ok? ==>
      Executed(state, txns, vm).value.infos == seq(|txns|, k requires 0 <= k < |txns| => InfoAt(state, txns, vm.value, k))
  {
  }

  /** The first check that fails gives the error: the execution, the state root, the gas, the number of transactions and
      then the accumulator root. */
  lemma FirstFailureIsReported(txnAcc: seq<HashValue>, base: Base, block: Block, r: Result<ExecutedData, ExecutorError>)
    ensures var e, h := CheckExecution(txnAcc, base, block, r), block.header;
      match r
      case Err(cause) => e == Some(ExecutionFailed(cause))
      case Ok(data) =>
        var n := Leading(base) + |block.body.transactions|;
        && (e == Some(StateRootMismatch) <==> data.stateRoot != h.stateRoot)
        && (e == Some(GasMismatch) <==> data.stateRoot == h.stateRoot && GasSum(data.infos) != h.gasUsed)
        && (e == Some(TransactionCountMismatch) <==>
              data.stateRoot == h.stateRoot && GasSum(data.infos) == h.gasUsed && |data.infos| != n)
        && (e == Some(AccumulatorRootMismatch) <==>
              && data.stateRoot == h.stateRoot && GasSum(data.infos) == h.gasUsed && |data.infos| == n
              && h.txnAccumulatorRoot != OfLeaves(txnAcc + InfoIds(data.infos)))
        && (e == None <==>
              && data.stateRoot == h.stateRoot && GasSum(data.infos) == h.gasUsed && |data.infos| == n
              && h.txnAccumulatorRoot == OfLeaves(txnAcc + InfoIds(data.infos)))
  {
    TransactionCount(block, base);
  }

  /** Transaction `k` of block `id` is saved as `txn`, with the info and the events of output `k`. */
  ghost predicate SavedAs(s: Store, id: HashValue, k: nat, state: State, outputs: seq<TransactionOutput>, txn: Transaction) {
    && k < |outputs| && outputs[k].status.Keep?
    && id in s.txnInfoIds && id in s.txnIds && k < |s.txnInfoIds[id]| && k < |s.txnIds[id]|
    && s.txnIds[id][k] == OfTransaction(txn)
    && OfTransaction(txn) in s.transactions && s.transactions[OfTransaction(txn)] == txn
    && var x := s.txnInfoIds[id][k];
       && x == OfInfo(TransactionInfo(
            OfTransaction(txn), OfState(StateAfter(state, outputs[..k + 1])), OfEvents(outputs[k].events),
            outputs[k].gasUsed, outputs[k].status.code))
       && x in s.txnInfos && s.txnInfos[x].txnInfo == x.info
       && x in s.events && s.events[x] == outputs[k].events
  }

  /** What is saved for transaction k of a block. */
  lemma SavedTransaction(store: Store, state: State, txnAcc: seq<HashValue>, blockAcc: seq<HashValue>,
                         base: Base, block: Block, vm: VmResult, k: nat)
    requires KeysHash(store)
    requires ExecuteBlockAndSave(store, state, txnAcc, blockAcc, base, block, vm).Ok?
    requires k < |BlockTransactions(block, ParentGas(base))|
    ensures vm.Ok?
    ensures SavedAs(ExecuteBlockAndSave(store, state, txnAcc, blockAcc, base, block, vm).value.0, block.Id(), k,
                    state, vm.value, BlockTransactions(block, ParentGas(base))[k])
  {
    var txns := BlockTransactions(block, ParentGas(base));
    var data := Executed(state, txns, vm).value;
    var ids := InfoIds(data.infos);
    assert data.infos[k] == InfoAt(state, txns, vm.value, k);
    var x := ids[k];
    assert x in ids;
    SaveKeepsEvents(store, state, txns, vm, x);
    SaveKeepsTxnInfos(store, block.Id(), data.infos, x);
    var t := TransactionIds(txns)[k];
    assert t in TransactionIds(txns);
    SavedTransactionOf(store.transactions, txns, t);
  }

  /** The number of metadata transactions before those of the body. */
  ghost function Leading(base: Base): nat {
    if base.OnHead? then 1 else 0
  }

  lemma BodyTransaction(block: Block, base: Base, k: nat)
    requires k < |block.body.transactions|
    ensures var txns := BlockTransactions(block, ParentGas(base));
      Leading(base) + k < |txns| && txns[Leading(base) + k] == UserTransaction(block.body.transactions[k])
  {
    TransactionsOfBlock(block, ParentGas(base));
  }

  /** So for transaction `k` of the body itself is saved, with what the virtual machine gave for it. */
  lemma SavedBody(store: Store, state: State, txnAcc: seq<HashValue>, blockAcc: seq<HashValue>,
                  base: Base, block: Block, vm: VmResult, k: nat)
    requires KeysHash(store) && ExecuteBlockAndSave(store, state, txnAcc, blockAcc, base, block, vm).Ok?
    requires k < |block.body.transactions|
    ensures vm.Ok?
    ensures SavedAs(ExecuteBlockAndSave(store, state, txnAcc, blockAcc, base, block, vm).value.0, block.Id(),
                    Leading(base) + k, state, vm.value, UserTransaction(block.body.transactions[k]))
  {
    BodyTransaction(block, base, k);
    SavedTransaction(store, state, txnAcc, blockAcc, base, block, vm, Leading(base) + k);
  }

  /** A block is saved only if its header tells the gas its outputs used together, cut off at the largest 64-bit
      number, and there is one output for each of its transactions. */
  lemma SavedGas(store: Store, state: State, txnAcc: seq<HashValue>, blockAcc: seq<HashValue>,
                 base: Base, block: Block, vm: VmResult)
    requires ExecuteBlockAndSave(store, state, txnAcc, blockAcc, base, block, vm).Ok?
    ensures var n := Leading(base) + |block.body.transactions|;
      vm.Ok? && n <= |vm.value| && block.header.gasUsed == Min(OutputGas(vm.value[..n]), U64_MAX)
  {
    var txns := BlockTransactions(block, ParentGas(base));
    TransactionCount(block, base);
    ChecksPass(txnAcc, base, block, Executed(state, txns, vm));
    ExecutedGas(state, txns, vm);
  }

  lemma TransactionCount(block: Block, base: Base)
    ensures |BlockTransactions(block, ParentGas(base))| == Leading(base) + |block.body.transactions|
  {
  }

  lemma ChecksPass(txnAcc: seq<HashValue>, base: Base, block: Block, r: Result<ExecutedData, ExecutorError>)
    requires CheckExecution(txnAcc, base, block, r).None?
    ensures r.Ok? && |r.value.infos| == |BlockTransactions(block, ParentGas(base))|
    ensures GasSum(r.value.infos) == block.header.gasUsed
  {
  }

  lemma ExecutedGas(state: State, txns: seq<Transaction>, vm: VmResult)
    requires Executed(state, txns, vm).Ok? && |Executed(state, txns, vm).value.infos| == |txns|
    ensures |txns| <= |vm.value|
    ensures GasSum(Executed(state, txns, vm).value.infos) == Min(OutputGas(vm.value[..|txns|]), U64_MAX)
  {
    var infos, outputs := Executed(state, txns, vm).value.infos, vm.value[..|txns|];
    forall k | 0 <= k < |infos| ensures infos[k].gasUsed == outputs[k].gasUsed {
      assert infos[k] == InfoAt(state, txns, vm.value, k);
    }
    GasSumIsCut(infos, outputs);
  }

  lemma SavedTransactionOf(m: map<HashValue, Transaction>, txns: seq<Transaction>, t: HashValue)
    requires t in TransactionIds(txns)
    ensures t.OfTransaction? && PutAll(m, TransactionIds(txns), txns)[t] == t.txn
  {
    var r := PutAll(m, TransactionIds(txns), txns);
    var i :| 0 <= i < |txns| && TransactionIds(txns)[i] == t && r[t] == txns[i];
  }

  /** A saved transaction info names the block that saved it last. */
  lemma SavedInfosNameTheirBlock(store: Store, c: Chain, block: Block, vm: VmResult)
    requires Execute(store, c, block, vm).Ok?
    ensures var s' := Execute(store, c, block, vm).value.0;
      block.Id() in s'.txnInfoIds && forall x :: x in s'.txnInfoIds[block.Id()] ==>
        x in s'.txnInfos && s'.txnInfos[x].blockId == block.Id()
  {
    var infos := Executed(c.stateRoot.state, BlockTransactions(block, ParentGas(BaseOf(c))), vm).value.infos;
    forall x | x in InfoIds(infos)
      ensures var m := PutAll(store.txnInfos, InfoIds(infos), BlockInfosOf(block.Id(), infos));
        x in m && m[x].blockId == block.Id()
    {
      SavedInfoOf(store.txnInfos, block.Id(), infos, x);
    }
  }

  lemma SavedInfoOf(m: map<HashValue, BlockTransactionInfo>, id: HashValue, infos: seq<TransactionInfo>, x: HashValue)
    requires x in InfoIds(infos)
    ensures var r := PutAll(m, InfoIds(infos), BlockInfosOf(id, infos));
      x in r && r[x].blockId == id
  {
    var ids, values := InfoIds(infos), BlockInfosOf(id, infos);
    var r := PutAll(m, ids, values);
    var i :| 0 <= i < |ids| && ids[i] == x && r[x] == values[i];
  }

  ghost function Sibling(block: Block, nonce: nat): Block {
    block.(header := block.header.(nonce := nonce))
  }

  /** So a version lookup may name a block that is not on the chain: a sibling that differs only in
      its nonce is accepted on the same parent and has the same transaction infos. */
  lemma SiblingSharesInfos(store: Store, store': Store, c: Chain, block: Block, nonce: nat, vm: VmResult)
    requires Execute(store, c, block, vm).Ok?
    ensures Execute(store', c, Sibling(block, nonce), vm).Ok?
    ensures Execute(store', c, Sibling(block, nonce), vm).value.0.txnInfoIds[Sibling(block, nonce).Id()]
         == Execute(store, c, block, vm).value.0.txnInfoIds[block.Id()]
  {
    assert BlockTransactions(Sibling(block, nonce), ParentGas(BaseOf(c))) == BlockTransactions(block, ParentGas(BaseOf(c)));
  }

  // ---------- there are runs ----------

  /** The block whose one transaction writes the first epoch. */
  ghost function FirstBlock(epoch: Epoch): Block {
    var out := FirstOutput(epoch);
    var state := StateAfter(map[], [out]);
    var body := BlockBody([0], None);
    var info := TransactionInfo(OfTransaction(UserTransaction(0)), OfState(state), OfEvents([]), 0, 0);
    Block(BlockHeader(Zero, 0, 0, 0, OfState(state), OfLeaves([OfInfo(info)]), OfLeaves([]), OfBody(body), 0, 1, 0), body)
  }

  ghost function FirstOutput(epoch: Epoch): TransactionOutput {
    TransactionOutput([Put(EPOCH_PATH, EpochResource(epoch))], [], 0, Keep(0))
  }

  lemma FirstBlockIsFaithful(epoch: Epoch)
    ensures Faithful(map[], [], NoParent, FirstBlock(epoch), Ok([FirstOutput(epoch)]))
    ensures EpochAt(FirstBlock(epoch).Id()) == Some(epoch)
  {
    var out, block := FirstOutput(epoch), FirstBlock(epoch);
    var txns := BlockTransactions(block, None);
    var outputs := [out];
    assert txns == [UserTransaction(0)];
    assert outputs[..1] == outputs;
    var infos := seq(|txns|, k requires 0 <= k < |txns| => InfoAt(map[], txns, outputs, k));
    assert infos == [InfoAt(map[], txns, outputs, 0)];
    assert infos[..0] == [];
    assert [] + InfoIds(infos) == [OfInfo(infos[0])];
    assert outputs[..0] == [] && out.writeSet[..0] == [];
  }

  /** A run begins with exactly the genesis blocks that are faithful to their header. */
  lemma BeginsIffFaithful(genesis: Block, vm: VmResult)
    requires GenesisBlock(genesis)
    ensures Begin(genesis, vm).Ok? <==> Faithful(map[], [], NoParent, genesis, vm)
    ensures Begin(genesis, vm).Ok? ==>
      |Begin(genesis, vm).value.chains| == 1 && Begin(genesis, vm).value.chains[0].head == genesis
  {
    SavedIffFaithful(EMPTY_STORE.(genesis := Some(genesis.Id())), map[], [], [], NoParent, genesis, vm);
    var r := ExecuteGenesis(genesis, vm);
    if r.Ok? {
      GenesisStoreInv(genesis, vm);
      OpenKeeps(r.value.0, genesis, None);
    }
  }

  lemma BeginIsReachable(genesis: Block, vm: VmResult)
    requires GenesisBlock(genesis) && Begin(genesis, vm).Ok?
    ensures Reachable(Begin(genesis, vm).value)
  {
    var w := Begin(genesis, vm).value;
    assert LegalRun(w, []) && w == After(w, []);
  }

  /** Any first epoch that starts at height 0 is the beginning of some run. */
  lemma EveryFirstEpochBegins(epoch: Epoch)
    requires epoch.start == 0 < epoch.end
    ensures exists w :: Reachable(w) && |w.chains| == 1 && EpochAt(w.chains[0].head.Id()) == Some(epoch)
  {
    var genesis, vm := FirstBlock(epoch), Ok([FirstOutput(epoch)]);
    FirstBlockIsFaithful(epoch);
    BeginsIffFaithful(genesis, vm);
    BeginIsReachable(genesis, vm);
    assert Reachable(Begin(genesis, vm).value);
  }
}
