/** Every operation keeps the invariants of the store and of the chains over it. */
module ChainSteps {
  import opened Basics
  import opened ChainTypes
  import opened Executor
  import opened Chain
  import opened ChainInvariants

  // ---------- a growing store ----------

  lemma {:induction false} TxnHistoryFrame(m: map<HashValue, seq<HashValue>>, m': map<HashValue, seq<HashValue>>, path: seq<HashValue>)
    requires forall x :: x in path ==> x in m && x in m' && m[x] == m'[x]
    ensures TxnHistory(m, path) == TxnHistory(m', path)
  {
    if path != [] {
      TxnHistoryFrame(m, m', path[..|path| - 1]);
    }
  }

  lemma BlockInvFrame(s: Store, s': Store, id: HashValue)
    requires StoreInv(s) && Extends(s, s') && id in s.infos
    ensures BlockInv(s', id)
  {
    assert BlockInv(s, id);
    LineageShape(id);
    forall x | x in Lineage(id)
      ensures x in s.txnInfoIds && x in s'.txnInfoIds && s.txnInfoIds[x] == s'.txnInfoIds[x]
    {
      var k :| 0 <= k < |Lineage(id)| && Lineage(id)[k] == x;
      Ancestor(s, id, k);
    }
    TxnHistoryFrame(s.txnInfoIds, s'.txnInfoIds, Lineage(id));
  }

  lemma ChainInvFrame(s: Store, s': Store, c: Chain)
    requires ChainInv(s, c) && Extends(s, s')
    ensures ChainInv(s', c)
  {
  }

  // ---------- executing ----------

  /** Info ids name infos that commit to their events, so saving one again changes no events. */
  lemma SaveKeepsEvents(store: Store, state: State, txns: seq<Transaction>, vm: VmResult, x: HashValue)
    requires KeysHash(store) && Executed(state, txns, vm).Ok?
    ensures var data := Executed(state, txns, vm).value;
      var events := PutAll(store.events, InfoIds(data.infos), data.events);
      && (x in store.events ==> events[x] == store.events[x])
      && (x in events ==> x.OfInfo? && x.info.eventRoot == OfEvents(events[x]))
  {
    var data := Executed(state, txns, vm).value;
    var ids := InfoIds(data.infos);
    if x in ids {
      var events := PutAll(store.events, ids, data.events);
      var i :| 0 <= i < |ids| && ids[i] == x && events[x] == data.events[i];
      assert data.infos[i] == InfoAt(state, txns, vm.value, i);
    }
  }

  lemma SaveKeepsTxnInfos(store: Store, id: HashValue, infos: seq<TransactionInfo>, x: HashValue)
    requires KeysHash(store)
    ensures var txnInfos := PutAll(store.txnInfos, InfoIds(infos), BlockInfosOf(id, infos));
      x in txnInfos ==> OfInfo(txnInfos[x].txnInfo) == x
  {
    var ids := InfoIds(infos);
    if x in ids {
      var txnInfos := PutAll(store.txnInfos, ids, BlockInfosOf(id, infos));
      var i :| 0 <= i < |ids| && ids[i] == x && txnInfos[x] == BlockInfosOf(id, infos)[i];
    }
  }

  /** A block that was executed before is the same block and is saved with the same infos. */
  ghost predicate SameWhenStored(store: Store, txnAcc: seq<HashValue>, blockAcc: seq<HashValue>, base: Base, block: Block) {
    block.Id() in store.infos ==>
      && block.Id() in store.blocks && store.blocks[block.Id()] == block
      && block.Id() in store.txnInfoIds
      && block.header.txnAccumulatorRoot == OfLeaves(store.infos[block.Id()].txnAccumulator)
      && store.infos[block.Id()].txnAccumulator == txnAcc + store.txnInfoIds[block.Id()]
      && store.infos[block.Id()].blockAccumulator == blockAcc + [block.Id()]
      && store.infos[block.Id()].blockId == block.Id()
      && store.infos[block.Id()].totalDifficulty ==
         (if base.OnHead? then base.totalDifficulty else 0) + block.header.difficulty
  }

  lemma SaveIsSame(store: Store, state: State, txnAcc: seq<HashValue>, blockAcc: seq<HashValue>,
                   base: Base, block: Block, vm: VmResult)
    requires SameWhenStored(store, txnAcc, blockAcc, base, block) && block.Id() in store.infos
    requires CheckExecution(txnAcc, base, block, Executed(state, BlockTransactions(block, ParentGas(base)), vm)).None?
    ensures var data := Executed(state, BlockTransactions(block, ParentGas(base)), vm).value;
      && store.txnInfoIds[block.Id()] == InfoIds(data.infos)
      && NewInfo(txnAcc, blockAcc, base, block, data.infos) == store.infos[block.Id()]
  {
    var ids := InfoIds(Executed(state, BlockTransactions(block, ParentGas(base)), vm).value.infos);
    var old_ids := store.txnInfoIds[block.Id()];
    assert txnAcc + old_ids == txnAcc + ids;
    assert old_ids == (txnAcc + old_ids)[|txnAcc|..] == (txnAcc + ids)[|txnAcc|..] == ids;
  }

  lemma SaveKeepsKeys(store: Store, block: Block, info: BlockInfo, state: State, txns: seq<Transaction>, vm: VmResult)
    requires KeysHash(store) && block.header.bodyHash == OfBody(block.body)
    requires Executed(state, txns, vm).Ok? && |Executed(state, txns, vm).value.infos| == |txns|
    ensures var store' := Save(store, block, info, txns, Executed(state, txns, vm).value);
      && KeysHash(store')
      && (forall x :: x in store.events ==> store'.events[x] == store.events[x])
  {
    var data := Executed(state, txns, vm).value;
    var store' := Save(store, block, info, txns, data);
    forall x ensures x in store.events ==> store'.events[x] == store.events[x]
      ensures x in store'.events ==> x.OfInfo? && x.info.eventRoot == OfEvents(store'.events[x])
    {
      SaveKeepsEvents(store, state, txns, vm, x);
    }
    forall x ensures x in store'.txnInfos ==> OfInfo(store'.txnInfos[x].txnInfo) == x {
      SaveKeepsTxnInfos(store, block.Id(), data.infos, x);
    }
  }

  lemma AddsBlock(s: Store, s': Store, block: Block, info: BlockInfo, ids: seq<HashValue>)
    requires block.Id() in s.headers ==> s.headers[block.Id()] == block.header
    requires block.Id() in s.blocks ==> s.blocks[block.Id()] == block
    requires forall id :: id in s.infos ==> id in s.txnInfoIds
    requires block.Id() in s.infos ==> s.infos[block.Id()] == info && s.txnInfoIds[block.Id()] == ids
    requires s'.headers == s.headers[block.Id() := block.header] && s'.blocks == s.blocks[block.Id() := block]
    requires s'.infos == s.infos[block.Id() := info] && s'.txnInfoIds == s.txnInfoIds[block.Id() := ids]
    requires s'.genesis == s.genesis
    requires forall x :: x in s.txnInfos ==> x in s'.txnInfos
    requires forall x :: x in s.events ==> x in s'.events && s'.events[x] == s.events[x]
    ensures Extends(s, s')
  {
  }

  lemma SaveExtends(store: Store, state: State, txnAcc: seq<HashValue>, blockAcc: seq<HashValue>,
                    base: Base, block: Block, vm: VmResult)
    requires KeysHash(store) && block.header.bodyHash == OfBody(block.body)
    requires forall id :: id in store.infos ==> id in store.txnInfoIds
    requires SameWhenStored(store, txnAcc, blockAcc, base, block)
    requires ExecuteBlockAndSave(store, state, txnAcc, blockAcc, base, block, vm).Ok?
    ensures var (store', info) := ExecuteBlockAndSave(store, state, txnAcc, blockAcc, base, block, vm).value;
      && KeysHash(store') && Extends(store, store')
  {
    var (store', info) := ExecuteBlockAndSave(store, state, txnAcc, blockAcc, base, block, vm).value;
    var txns := BlockTransactions(block, ParentGas(base));
    var data := Executed(state, txns, vm).value;
    SaveKeepsKeys(store, block, info, state, txns, vm);
    if block.Id() in store.infos {
      SaveIsSame(store, state, txnAcc, blockAcc, base, block, vm);
    }
    AddsBlock(store, store', block, info, InfoIds(data.infos));
  }

  lemma VerifiedMintsFresh(store: Store, c: Chain, block: Block, u: HashValue)
    requires VerifyBlock(store, c, block) && u in MintedAt(block.Id())
    ensures u !in c.uncles
  {
    var us := block.body.uncles.value;
    var i :| 0 <= i < |us| && u == OfHeader(us[i]);
    assert CanBeUncle(store, c, us[i]);
  }

  /** A verified block continues the lineage of the head lawfully. */
  lemma VerifiedContinues(store: Store, c: Chain, block: Block)
    requires StoreInv(store) && ChainInv(store, c) && VerifyBlock(store, c, block)
    requires EpochLaw(c.epoch, block.header.number, EpochAt(block.Id()))
    ensures Rooted(block.Id()) && Lawful(block.Id())
    ensures Lineage(block.Id()) == Lineage(c.head.Id()) + [block.Id()]
  {
    var id := block.Id();
    assert BlockInv(store, c.head.Id());
    assert EpochAt(c.head.Id()) == Some(c.epoch);
    forall u | u in MintedAt(id) ensures u !in c.uncles {
      VerifiedMintsFresh(store, c, block, u);
    }
    assert MintsFresh(id);
  }

  lemma VerifiedUncleFits(store: Store, c: Chain, block: Block, u: BlockHeader)
    requires StoreInv(store) && ChainInv(store, c)
    requires CanBeUncle(store, c, u) && UncleVerifies(store, c, u) && u.number < block.header.number
    requires Lineage(block.Id()) == Lineage(c.head.Id()) + [block.Id()] && block.header.parentHash == c.head.Id()
    requires InEpoch(block.Id()) && EpochAt(block.Id()) == Some(c.epoch)
    ensures UncleFits(block.Id(), u)
  {
    ExistBlockIsOnLineage(store, c, u.parentHash);
    ExistBlockIsOnLineage(store, c, OfHeader(u));
    VerifiedExtendsParent(store, c, u);
  }

  lemma VerifiedExtendsParent(store: Store, c: Chain, u: BlockHeader)
    requires StoreInv(store) && ChainInv(store, c) && u.parentHash in Lineage(c.head.Id()) && UncleVerifies(store, c, u)
    ensures ExtendsParent(u)
  {
    ForkKeeps(store, c, u.parentHash);
    AccumulatorIsLineage(store, Fork(store, c, u.parentHash).value);
  }

  /** A verified block commits to the leaves before it, and its uncles fit. */
  lemma VerifiedVouches(store: Store, c: Chain, block: Block)
    requires StoreInv(store) && ChainInv(store, c) && VerifyBlock(store, c, block)
    requires Lineage(block.Id()) == Lineage(c.head.Id()) + [block.Id()]
    requires InEpoch(block.Id()) && EpochLaw(c.epoch, block.header.number, EpochAt(block.Id()))
    ensures Vouched(block.Id())
  {
    var id, us := block.Id(), UncleHeaders(block.Id());
    assert BlockInv(store, c.head.Id());
    AccumulatorIsLineage(store, c);
    forall i | 0 <= i < |us| ensures UncleFits(id, us[i]) {
      VerifiedUncleFits(store, c, block, us[i]);
    }
    assert UnclesFit(id);
  }

  lemma StoredAgain(store: Store, c: Chain, block: Block)
    requires StoreInv(store) && ChainInv(store, c)
    requires block.header.parentHash == c.head.Id() && block.header.bodyHash == OfBody(block.body)
    requires Lineage(block.Id()) == Lineage(c.head.Id()) + [block.Id()]
    ensures SameWhenStored(store, c.txnAccumulator, c.blockAccumulator, BaseOf(c), block)
  {
    var id := block.Id();
    if id in store.infos {
      assert BlockInv(store, id) && BlockInv(store, c.head.Id());
      assert Lineage(id)[..|Lineage(id)| - 1] == Lineage(c.head.Id());
    }
  }

  lemma StoreHasInfoIds(store: Store)
    requires StoreInv(store)
    ensures forall id :: id in store.infos ==> id in store.txnInfoIds
  {
    forall id | id in store.infos ensures id in store.txnInfoIds {
      assert BlockInv(store, id);
    }
  }

  /** What executing and saving a block writes. */
  ghost predicate SavedAs(s': Store, c: Chain, block: Block, info: BlockInfo) {
    var id := block.Id();
    && id in s'.infos && s'.infos[id] == info
    && Committed(s', id)
    && info == BlockInfo(id, c.info.totalDifficulty + block.header.difficulty,
                         c.txnAccumulator + s'.txnInfoIds[id], c.blockAccumulator + [id])
    && block.header.txnAccumulatorRoot == OfLeaves(c.txnAccumulator + s'.txnInfoIds[id])
    && s'.blocks[id] == block
  }

  lemma SaveCommits(store: Store, block: Block, info: BlockInfo, txns: seq<Transaction>, data: ExecutedData)
    requires |data.infos| == |data.events| == |txns| && block.header.bodyHash == OfBody(block.body)
    ensures var store' := Save(store, block, info, txns, data);
      && Committed(store', block.Id()) && store'.blocks[block.Id()] == block
      && store'.txnInfoIds[block.Id()] == InfoIds(data.infos)
      && store'.infos == store.infos[block.Id() := info]
  {
    var store' := Save(store, block, info, txns, data);
    var ids := InfoIds(data.infos);
    forall x | x in ids ensures x in store'.txnInfos && x in store'.events {
      assert x in PutAll(store.events, ids, data.events);
      assert x in PutAll(store.txnInfos, ids, BlockInfosOf(block.Id(), data.infos));
    }
  }

  lemma ExecuteSaves(store: Store, c: Chain, block: Block, vm: VmResult)
    requires Execute(store, c, block, vm).Ok? && block.header.bodyHash == OfBody(block.body)
    ensures var (store', info) := Execute(store, c, block, vm).value;
      SavedAs(store', c, block, info) && store'.infos == store.infos[block.Id() := info]
  {
    var txns := BlockTransactions(block, ParentGas(BaseOf(c)));
    var data := Executed(c.stateRoot.state, txns, vm).value;
    SaveCommits(store, block, Execute(store, c, block, vm).value.1, txns, data);
  }

  lemma NewBlockInv(s: Store, s': Store, c: Chain, block: Block, info: BlockInfo)
    requires StoreInv(s) && ChainInv(s, c) && Extends(s, s')
    requires block.header.number > 0 && block.header.parentHash == c.head.Id()
    requires Rooted(block.Id()) && Lawful(block.Id()) && Vouched(block.Id())
    requires Lineage(block.Id()) == Lineage(c.head.Id()) + [block.Id()]
    requires SavedAs(s', c, block, info)
    ensures BlockInv(s', block.Id())
  {
    var id := block.Id();
    BlockInvFrame(s, s', c.head.Id());
    HeadTotals(s', c);
    TotalsOfAppend(s'.txnInfoIds, Lineage(c.head.Id()), id);
  }

  lemma TotalsOfAppend(m: map<HashValue, seq<HashValue>>, path: seq<HashValue>, id: HashValue)
    requires id.OfHeader? && id in m
    ensures TotalDifficulty(path + [id]) == TotalDifficulty(path) + id.header.difficulty
    ensures TxnHistory(m, path + [id]) == TxnHistory(m, path) + m[id]
  {
    assert (path + [id])[..|path|] == path;
  }

  lemma HeadTotals(s: Store, c: Chain)
    requires AtHead(s, c) && BlockInv(s, c.head.Id())
    ensures c.info == BlockInfo(c.head.Id(), TotalDifficulty(Lineage(c.head.Id())),
                                TxnHistory(s.txnInfoIds, Lineage(c.head.Id())), Lineage(c.head.Id()))
  {
  }

  lemma SavedKeepsInv(s: Store, s': Store, c: Chain, block: Block, info: BlockInfo, x: HashValue)
    requires StoreInv(s) && ChainInv(s, c) && Extends(s, s')
    requires block.header.number > 0 && block.header.parentHash == c.head.Id()
    requires Rooted(block.Id()) && Lawful(block.Id()) && Vouched(block.Id())
    requires Lineage(block.Id()) == Lineage(c.head.Id()) + [block.Id()]
    requires SavedAs(s', c, block, info) && s'.infos == s.infos[block.Id() := info]
    requires x in s'.infos
    ensures BlockInv(s', x)
  {
    if x == block.Id() {
      NewBlockInv(s, s', c, block, info);
    } else {
      BlockInvFrame(s, s', x);
    }
  }

  /** Executing a verified block saves it with the right infos and disturbs nothing else. */
  lemma ExecuteKeeps(store: Store, c: Chain, block: Block, vm: VmResult)
    requires StoreInv(store) && ChainInv(store, c) && VerifyBlock(store, c, block)
    requires EpochLaw(c.epoch, block.header.number, EpochAt(block.Id()))
    requires Execute(store, c, block, vm).Ok?
    ensures var (store', info) := Execute(store, c, block, vm).value;
      && StoreInv(store') && Extends(store, store') && SavedAs(store', c, block, info)
  {
    var (store', info) := Execute(store, c, block, vm).value;
    VerifiedContinues(store, c, block);
    VerifiedVouches(store, c, block);
    StoredAgain(store, c, block);
    StoreHasInfoIds(store);
    SaveExtends(store, c.stateRoot.state, c.txnAccumulator, c.blockAccumulator, BaseOf(c), block, vm);
    ExecuteSaves(store, c, block, vm);
    forall x | x in store'.infos ensures BlockInv(store', x) {
      SavedKeepsInv(store, store', c, block, info, x);
    }
  }

  // ---------- connecting, opening and forking ----------

  /** A stored child of the head is one higher and obeys the epoch law. */
  lemma StoredChild(store: Store, c: Chain, block: Block)
    requires StoreInv(store) && AtHead(store, c)
    requires block.Id() in store.infos && block.Id() in store.blocks && store.blocks[block.Id()] == block
    requires block.header.parentHash == c.head.Id()
    ensures c.epoch.start < block.header.number <= c.epoch.end
    ensures EpochAt(block.Id()).Some? && EpochLaw(c.epoch, block.header.number, EpochAt(block.Id()))
    ensures MintedAt(block.Id()) == UncleIds(block.body)
  {
    StoredIsLawful(store, block.Id());
    StoredIsLawful(store, c.head.Id());
    assert EpochAt(c.head.Id()) == Some(c.epoch);
  }

  lemma StoredIsLawful(store: Store, id: HashValue)
    requires StoreInv(store) && id in store.infos
    ensures Rooted(id) && Lawful(id) && id in store.blocks && id.header.bodyHash == OfBody(store.blocks[id].body)
  {
    assert BlockInv(store, id);
  }

  /** Connecting a stored block to its parent keeps the cache equal to what was minted. */
  lemma ConnectKeeps(store: Store, c: Chain, block: Block, info: BlockInfo)
    requires StoreInv(store) && ChainInv(store, c)
    requires block.Id() in store.infos && store.infos[block.Id()] == info
    requires block.Id() in store.blocks && store.blocks[block.Id()] == block
    requires block.header.parentHash == c.head.Id()
    ensures Connect(store, c, block, info).1.Ok?
    ensures ChainInv(store, Connect(store, c, block, info).0)
    ensures Connect(store, c, block, info).0.head == block
  {
    StoredChild(store, c, block);
    if c.epoch.end == block.header.number {
      var c' := c.(txnAccumulator := info.txnAccumulator, blockAccumulator := info.blockAccumulator,
                   head := block, info := info, stateRoot := block.header.stateRoot,
                   epoch := EpochUnder(block.header.stateRoot).value);
      EpochUnclesIsMinted(store, c');
    }
  }

  lemma OpenKeeps(store: Store, head: Block, uncles: Option<map<HashValue, nat>>)
    requires StoreInv(store) && head.Id() in store.infos && head.Id() in store.blocks && store.blocks[head.Id()] == head
    requires EpochAt(head.Id()).Some? && uncles.Some? ==> uncles.value == Minted(head.Id(), EpochAt(head.Id()).value.start)
    ensures NewWithUncles(store, head, uncles).Ok?
    ensures ChainInv(store, NewWithUncles(store, head, uncles).value)
    ensures NewWithUncles(store, head, uncles).value.head == head
  {
    assert BlockInv(store, head.Id());
    if uncles.None? {
      var c := Chain(store.genesis.value, store.infos[head.Id()].txnAccumulator, store.infos[head.Id()].blockAccumulator,
                     head, store.infos[head.Id()], head.header.stateRoot, map[], EpochAt(head.Id()).value);
      EpochUnclesIsMinted(store, c);
    }
  }

  /** `exist_block` accepts exactly the ids on the path from genesis to the head. */
  lemma ExistBlockIsOnLineage(store: Store, c: Chain, id: HashValue)
    requires StoreInv(store) && AtHead(store, c)
    ensures ExistBlock(store, c, id) <==> id in Lineage(c.head.Id())
  {
    AccumulatorIsLineage(store, c);
    if id in Lineage(c.head.Id()) {
      var k :| 0 <= k < |Lineage(c.head.Id())| && Lineage(c.head.Id())[k] == id;
      BlockByNumber(store, c, k);
    }
  }

  lemma GetBlockIsOnLineage(store: Store, c: Chain, id: HashValue)
    requires KeysHash(store)
    requires id in c.blockAccumulator ==> id in store.blocks
    requires forall k :: 0 <= k < |c.blockAccumulator| ==> c.blockAccumulator[k].OfHeader? && c.blockAccumulator[k].header.number == k
    ensures GetBlock(store, c, id) == if id in c.blockAccumulator then Some(store.blocks[id]) else None
  {
  }

  lemma GetHeaderIsOnLineage(store: Store, c: Chain, id: HashValue)
    requires KeysHash(store)
    requires id in c.blockAccumulator ==> id in store.headers
    requires forall k :: 0 <= k < |c.blockAccumulator| ==> c.blockAccumulator[k].OfHeader? && c.blockAccumulator[k].header.number == k
    ensures GetHeader(store, c, id) == if id in c.blockAccumulator then Some(id.header) else None
  {
  }

  /** Within an epoch, filtering the cache by height gives the ancestor's own cache. */
  lemma FilteredUncles(store: Store, c: Chain, k: nat)
    requires StoreInv(store) && ChainInv(store, c)
    requires c.epoch.start <= k < |c.blockAccumulator|
    ensures EpochAt(c.blockAccumulator[k]) == Some(c.epoch)
    ensures UpTo(c.uncles, k) == Minted(c.blockAccumulator[k], c.epoch.start)
  {
    var head := c.head.Id();
    AccumulatorIsLineage(store, c);
    assert BlockInv(store, head);
    EpochOfAncestor(head, k);
    NoUncleTwice(head, k);
    UpToIsExact(head, c.epoch.start, k);
  }

  lemma ForkOpens(store: Store, c: Chain, id: HashValue)
    requires ExistBlock(store, c, id) && id in store.blocks
    ensures Fork(store, c, id) ==
      var n := store.blocks[id].header.number;
      NewWithUncles(store, store.blocks[id], if n >= c.epoch.start then Some(UpTo(c.uncles, n)) else None)
  {
  }

  /** A fork at any block of the chain succeeds, and its filtered or recomputed cache is right. */
  lemma ForkKeeps(store: Store, c: Chain, id: HashValue)
    requires StoreInv(store) && ChainInv(store, c) && id in Lineage(c.head.Id())
    ensures Fork(store, c, id).Ok? && ChainInv(store, Fork(store, c, id).value)
    ensures Fork(store, c, id).value.head.Id() == id
  {
    ExistBlockIsOnLineage(store, c, id);
    AccumulatorIsLineage(store, c);
    var k :| 0 <= k < |c.blockAccumulator| && c.blockAccumulator[k] == id;
    BlockByNumber(store, c, k);
    ForkOpens(store, c, id);
    if k >= c.epoch.start {
      FilteredUncles(store, c, k);
      OpenKeeps(store, store.blocks[id], Some(UpTo(c.uncles, k)));
    } else {
      OpenKeeps(store, store.blocks[id], None);
    }
  }

  /** The virtual machine moves the epoch of an accepted block by the epoch law. */
  ghost predicate VmKeepsEpochLaw(store: Store, c: Chain, block: Block, vm: VmResult) {
    VerifyBlock(store, c, block) && Execute(store, c, block, vm).Ok? ==>
      EpochLaw(c.epoch, block.header.number, EpochAt(block.Id()))
  }

  /** Applying a block: it is saved, the chain moves onto it and agrees with the store. */
  lemma ApplyKeeps(store: Store, c: Chain, block: Block, vm: VmResult)
    requires StoreInv(store) && ChainInv(store, c) && VmKeepsEpochLaw(store, c, block, vm)
    requires VerifyBlock(store, c, block) && Execute(store, c, block, vm).Ok?
    ensures var (store', info) := Execute(store, c, block, vm).value;
      var (c', r) := Connect(store', c, block, info);
      && StoreInv(store') && Extends(store, store')
      && r.Ok? && ChainInv(store', c') && c'.head == block && c'.info == info
      && c'.blockAccumulator == c.blockAccumulator + [block.Id()]
  {
    ExecuteKeeps(store, c, block, vm);
    var (store', info) := Execute(store, c, block, vm).value;
    ChainInvFrame(store, store', c);
    ConnectKeeps(store', c, block, info);
  }

  lemma HeadStateExists(store: Store, c: Chain)
    requires StoreInv(store) && AtHead(store, c)
    ensures c.stateRoot.OfState?
  {
  }

  // ---------- shared ancestors ----------

  /** `r` names the highest leaf, below the last of the shorter sequence, that both share. */
  ghost predicate HighestShared(a: seq<HashValue>, b: seq<HashValue>, r: Option<(HashValue, nat)>)
    requires |a| > 0 && |b| > 0
  {
    var top := Min(|a|, |b|) - 1;
    match r
    case None => top == 0
    case Some((id, n)) =>
      && n < top && id == a[n]
      && a[..n + 1] == b[..n + 1]
      && forall m :: n < m < top ==> a[m] != b[m]
  }

  /** `r` names the highest leaf of all that two sequences share. */
  ghost predicate NamesTopShared(a: seq<HashValue>, b: seq<HashValue>, r: Option<(HashValue, nat)>) {
    && r.Some? && r.value.1 < Min(|a|, |b|) && r.value.0 == a[r.value.1] == b[r.value.1]
    && forall m :: r.value.1 < m < Min(|a|, |b|) ==> a[m] != b[m]
  }

  lemma TopSharedIff(a: seq<HashValue>, b: seq<HashValue>, r: Option<(HashValue, nat)>)
    requires |a| > 0 && |b| > 0 && a[0] == b[0] && HighestShared(a, b, r)
    ensures NamesTopShared(a, b, r) <==> a[Min(|a|, |b|) - 1] != b[Min(|a|, |b|) - 1]
  {
    var top := Min(|a|, |b|) - 1;
    if r.Some? {
      assert a[..r.value.1 + 1][r.value.1] == b[..r.value.1 + 1][r.value.1];
    }
  }

  /** The last leaves of the shorter sequence agree exactly if one head is on the other chain. */
  lemma HeadIsSharedIff(s: Store, c: Chain, d: Chain)
    requires StoreInv(s) && AtHead(s, c) && AtHead(s, d)
    ensures var a, b := c.blockAccumulator, d.blockAccumulator;
      && |a| > 0 && |b| > 0
      && (a[Min(|a|, |b|) - 1] == b[Min(|a|, |b|) - 1] <==> c.head.Id() in b || d.head.Id() in a)
  {
    AccumulatorIsLineage(s, c);
    AccumulatorIsLineage(s, d);
    LineageShape(c.head.Id());
    LineageShape(d.head.Id());
    LeafHeight(s, c, d.head.Id());
    LeafHeight(s, d, c.head.Id());
  }

  lemma LeafHeight(s: Store, c: Chain, id: HashValue)
    requires StoreInv(s) && AtHead(s, c)
    ensures id in c.blockAccumulator ==> id.OfHeader? && id.header.number < |c.blockAccumulator| && c.blockAccumulator[id.header.number] == id
  {
    AccumulatorIsLineage(s, c);
    if id in c.blockAccumulator {
      var k :| 0 <= k < |c.blockAccumulator| && c.blockAccumulator[k] == id;
      BlockByNumber(s, c, k);
    }
  }

  /** The answer for two chains, if any, is the highest block they share exactly when neither head is a block
      of the other chain. */
  lemma AncestorIsTopIff(s: Store, c: Chain, d: Chain, r: Option<(HashValue, nat)>)
    requires StoreInv(s) && AtHead(s, c) && AtHead(s, d)
    requires |c.blockAccumulator| > 0 && |d.blockAccumulator| > 0 && HighestShared(c.blockAccumulator, d.blockAccumulator, r)
    ensures NamesTopShared(c.blockAccumulator, d.blockAccumulator, r)
       <==> c.head.Id() !in d.blockAccumulator && d.head.Id() !in c.blockAccumulator
  {
    SameGenesis(s, c, d);
    TopSharedIff(c.blockAccumulator, d.blockAccumulator, r);
    HeadIsSharedIff(s, c, d);
  }

  /** So it never is for a chain and a fork of it: the answer is the parent of the block forked at, which is
      the highest they share, or none if that is genesis. */
  lemma ForkAncestorIsBelow(s: Store, c: Chain, id: HashValue, r: Option<(HashValue, nat)>)
    requires StoreInv(s) && ChainInv(s, c) && id in Lineage(c.head.Id())
    requires Fork(s, c, id).Ok? && |c.blockAccumulator| > 0 && |Fork(s, c, id).value.blockAccumulator| > 0
    requires HighestShared(c.blockAccumulator, Fork(s, c, id).value.blockAccumulator, r)
    ensures !NamesTopShared(c.blockAccumulator, Fork(s, c, id).value.blockAccumulator, r)
    ensures id.OfHeader? && (r.None? <==> id.header.number == 0)
    ensures r.Some? ==> r.value == (id.header.parentHash, id.header.number - 1)
  {
    ForkKeeps(s, c, id);
    var f := Fork(s, c, id).value;
    AccumulatorIsLineage(s, c);
    AccumulatorIsLineage(s, f);
    AncestorIsTopIff(s, c, f, r);
    LeafHeight(s, c, id);
    LineageAt(c.head.Id(), id.header.number);
    SharedPrefix(c.blockAccumulator, f.blockAccumulator, r);
  }

  /** What the answer is if one sequence is a prefix of the other. */
  lemma SharedPrefix(a: seq<HashValue>, b: seq<HashValue>, r: Option<(HashValue, nat)>)
    requires |b| > 0 && b <= a && HighestShared(a, b, r)
    ensures r == if |b| == 1 then None else Some((a[|b| - 2], |b| - 2))
  {
    assert |b| >= 2 ==> a[|b| - 2] == b[|b| - 2];
  }

  /** Every chain starts at the genesis block of its store. */
  lemma GenesisIsFirst(s: Store, c: Chain)
    requires StoreInv(s) && AtHead(s, c)
    ensures |c.blockAccumulator| > 0 && s.genesis == Some(c.blockAccumulator[0])
  {
    AccumulatorIsLineage(s, c);
    BlockByNumber(s, c, 0);
    assert BlockInv(s, c.blockAccumulator[0]);
  }

  lemma SameGenesis(s: Store, c: Chain, d: Chain)
    requires StoreInv(s) && AtHead(s, c) && AtHead(s, d)
    ensures |c.blockAccumulator| > 0 && |d.blockAccumulator| > 0
    ensures c.blockAccumulator[0] == d.blockAccumulator[0]
  {
    GenesisIsFirst(s, c);
    GenesisIsFirst(s, d);
  }

  lemma SharedBelow(s: Store, c: Chain, d: Chain, n: nat)
    requires StoreInv(s) && AtHead(s, c) && AtHead(s, d)
    requires n < |c.blockAccumulator| && n < |d.blockAccumulator| && c.blockAccumulator[n] == d.blockAccumulator[n]
    ensures c.blockAccumulator[..n + 1] == d.blockAccumulator[..n + 1]
  {
    AccumulatorIsLineage(s, c);
    AccumulatorIsLineage(s, d);
    LineagesMerge(c.head.Id(), d.head.Id(), n);
  }
}
