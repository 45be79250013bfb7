/** What is stored about the transactions of every saved block, in every reachable world. */
module ChainRecords {
  import opened Basics
  import opened ChainTypes
  import opened Executor
  import opened Chain
  import opened ChainInvariants
  import opened ChainRuns
  import opened ChainTheorems

  /** The infos that a block's transaction info ids are the hashes of. */
  ghost function InfosOf(ids: seq<HashValue>): (infos: seq<TransactionInfo>)
    requires forall x :: x in ids ==> x.OfInfo?
    ensures |infos| == |ids|
  {
    seq(|ids|, k requires 0 <= k < |ids| => assert ids[k] in ids; ids[k].info)
  }

  /** The gas the parent of block `id` used, which the metadata transaction records; genesis has none. */
  ghost function ParentGasOf(id: HashValue): Option<nat> {
    if id.OfHeader? && id.header.number > 0 && id.header.parentHash.OfHeader?
    then Some(id.header.parentHash.header.gasUsed) else None
  }

  /** The infos are those of `txns`, one to one, and add up to the header: gas, and the state after the last. */
  ghost predicate InfosMatch(h: BlockHeader, txns: seq<Transaction>, infos: seq<TransactionInfo>) {
    && |infos| == |txns|
    && (forall k :: 0 <= k < |txns| ==> infos[k].transactionHash == OfTransaction(txns[k]))
    && GasSum(infos) == h.gasUsed
    && (infos != [] ==> infos[|infos| - 1].stateRoot == h.stateRoot)
  }

  ghost predicate TransactionsStored(m: map<HashValue, Transaction>, txns: seq<Transaction>) {
    forall k :: 0 <= k < |txns| ==> OfTransaction(txns[k]) in m
  }

  /** What is stored about the transactions of block `id` matches its header and body. */
  ghost predicate TxnsMatch(store: Store, id: HashValue) {
    && id.OfHeader? && id in store.blocks && id in store.txnInfoIds && id in store.txnIds
    && var txns, ids := BlockTransactions(store.blocks[id], ParentGasOf(id)), store.txnInfoIds[id];
       && store.txnIds[id] == TransactionIds(txns)
       && TransactionsStored(store.transactions, txns)
       && (forall x :: x in ids ==> x.OfInfo?)
       && InfosMatch(id.header, txns, InfosOf(ids))
  }

  ghost predicate TxnInv(store: Store) {
    && (forall id {:trigger TxnsMatch(store, id)} :: id in store.infos ==> TxnsMatch(store, id))
    && (forall t :: t in store.transactions ==> OfTransaction(store.transactions[t]) == t)
  }

  // ---------- executing ----------

  lemma ExecutedMatches(state: State, txnAcc: seq<HashValue>, base: Base, block: Block, vm: VmResult)
    requires CheckExecution(txnAcc, base, block, Executed(state, BlockTransactions(block, ParentGas(base)), vm)).None?
    ensures var txns := BlockTransactions(block, ParentGas(base));
      InfosMatch(block.header, txns, Executed(state, txns, vm).value.infos)
  {
    var txns := BlockTransactions(block, ParentGas(base));
    var data := Executed(state, txns, vm).value;
    if txns != [] {
      assert data.infos[|txns| - 1] == InfoAt(state, txns, vm.value, |txns| - 1);
    }
  }

  lemma InfosOfIds(infos: seq<TransactionInfo>)
    ensures (forall x :: x in InfoIds(infos) ==> x.OfInfo?) && InfosOf(InfoIds(infos)) == infos
  {
  }

  lemma SavedTransactions(m: map<HashValue, Transaction>, txns: seq<Transaction>)
    requires forall t :: t in m ==> OfTransaction(m[t]) == t
    ensures var m' := PutAll(m, TransactionIds(txns), txns);
      TransactionsStored(m', txns) && (forall t :: t in m ==> t in m') && (forall t :: t in m' ==> OfTransaction(m'[t]) == t)
  {
    var ids := TransactionIds(txns);
    var m' := PutAll(m, ids, txns);
    forall t | t in m' ensures OfTransaction(m'[t]) == t {
      if t in ids {
        SavedTransactionOf(m, txns, t);
      }
    }
    forall k | 0 <= k < |txns| ensures OfTransaction(txns[k]) in m' {
      assert ids[k] in ids;
    }
  }

  lemma NewMatches(s': Store, block: Block, txns: seq<Transaction>, infos: seq<TransactionInfo>)
    requires txns == BlockTransactions(block, ParentGasOf(block.Id())) && InfosMatch(block.header, txns, infos)
    requires block.Id() in s'.blocks && s'.blocks[block.Id()] == block
    requires block.Id() in s'.txnInfoIds && s'.txnInfoIds[block.Id()] == InfoIds(infos)
    requires block.Id() in s'.txnIds && s'.txnIds[block.Id()] == TransactionIds(txns) && TransactionsStored(s'.transactions, txns)
    ensures TxnsMatch(s', block.Id())
  {
    InfosOfIds(infos);
  }

  lemma OldMatches(s: Store, s': Store, id: HashValue)
    requires TxnsMatch(s, id) && Extends(s, s') && id in s.infos && id in s'.txnIds && s'.txnIds[id] == s.txnIds[id]
    requires forall t :: t in s.transactions ==> t in s'.transactions
    ensures TxnsMatch(s', id)
  {
  }

  /** Saving a block keeps what is stored about the others and matches its own header and body. */
  lemma SaveMatches(s: Store, block: Block, info: BlockInfo, txns: seq<Transaction>, data: ExecutedData)
    requires TxnInv(s) && |data.infos| == |data.events| == |txns| && Extends(s, Save(s, block, info, txns, data))
    requires txns == BlockTransactions(block, ParentGasOf(block.Id())) && InfosMatch(block.header, txns, data.infos)
    ensures TxnInv(Save(s, block, info, txns, data))
  {
    var s' := Save(s, block, info, txns, data);
    SavedTransactions(s.transactions, txns);
    AddsMatching(s, s', block, info, txns, data.infos);
  }

  lemma AddsMatching(s: Store, s': Store, block: Block, info: BlockInfo, txns: seq<Transaction>, infos: seq<TransactionInfo>)
    requires TxnInv(s) && Extends(s, s')
    requires txns == BlockTransactions(block, ParentGasOf(block.Id())) && InfosMatch(block.header, txns, infos)
    requires s'.blocks == s.blocks[block.Id() := block] && s'.infos == s.infos[block.Id() := info]
    requires s'.txnInfoIds == s.txnInfoIds[block.Id() := InfoIds(infos)]
    requires s'.txnIds == s.txnIds[block.Id() := TransactionIds(txns)]
    requires TransactionsStored(s'.transactions, txns) && forall t :: t in s.transactions ==> t in s'.transactions
    requires forall t :: t in s'.transactions ==> OfTransaction(s'.transactions[t]) == t
    ensures TxnInv(s')
  {
    NewMatches(s', block, txns, infos);
    forall id | id in s'.infos && id != block.Id() ensures TxnsMatch(s', id) {
      assert TxnsMatch(s, id);
      OldMatches(s, s', id);
    }
  }

  lemma ExecuteMatches(s: Store, c: Chain, block: Block, vm: VmResult)
    requires TxnInv(s) && VerifyHeader(c, block.header) && Execute(s, c, block, vm).Ok?
    requires Extends(s, Execute(s, c, block, vm).value.0)
    ensures TxnInv(Execute(s, c, block, vm).value.0)
  {
    var txns := BlockTransactions(block, ParentGas(BaseOf(c)));
    ExecutedMatches(c.stateRoot.state, c.txnAccumulator, BaseOf(c), block, vm);
    SaveMatches(s, block, Execute(s, c, block, vm).value.1, txns, Executed(c.stateRoot.state, txns, vm).value);
  }

  // ---------- every run ----------

  lemma AcceptMatches(w: World, i: nat, block: Block, vm: VmResult)
    requires Inv(w) && EpochMoves(w, i, block, vm) && TxnInv(w.store)
    ensures TxnInv(AfterExecute(w, i, block, vm).store)
  {
    if Accepts(w, i, block, vm) {
      ExecuteExtends(w, i, block, vm);
      ExecuteMatches(w.store, w.chains[i], block, vm);
    }
  }

  lemma NextMatches(w: World, a: Action)
    requires Inv(w) && Legal(w, a) && TxnInv(w.store)
    ensures TxnInv(Next(w, a).store)
  {
    if a.Apply? || a.ExecuteOnly? {
      AcceptMatches(w, a.i, a.block, a.vm);
    }
  }

  lemma {:induction false} RunMatches(w: World, run: seq<Action>)
    requires Inv(w) && LegalRun(w, run) && TxnInv(w.store)
    ensures TxnInv(After(w, run).store)
    decreases |run|
  {
    if run != [] {
      NextKeeps(w, run[0]);
      NextMatches(w, run[0]);
      RunMatches(Next(w, run[0]), run[1..]);
    }
  }

  lemma BeginMatches(genesis: Block, vm: VmResult)
    requires GenesisBlock(genesis) && Begin(genesis, vm).Ok?
    ensures TxnInv(Begin(genesis, vm).value.store)
  {
    var s := EMPTY_STORE.(genesis := Some(genesis.Id()));
    var txns := BlockTransactions(genesis, None);
    ExecutedMatches(map[], [], NoParent, genesis, vm);
    SaveMatches(s, genesis, ExecuteGenesis(genesis, vm).value.1, txns, Executed(map[], txns, vm).value);
  }

  lemma ReachableMatches(w: World)
    requires Reachable(w)
    ensures TxnInv(w.store)
  {
    var genesis, vm, run :|
      && GenesisBlock(genesis) && Begin(genesis, vm).Ok?
      && LegalRun(Begin(genesis, vm).value, run) && w == After(Begin(genesis, vm).value, run);
    BeginKeeps(genesis, vm);
    BeginMatches(genesis, vm);
    RunMatches(Begin(genesis, vm).value, run);
  }

  /** Under the ids of `txns` these very transactions are stored. */
  ghost predicate HoldsTransactions(m: map<HashValue, Transaction>, txns: seq<Transaction>) {
    forall k :: 0 <= k < |txns| ==> OfTransaction(txns[k]) in m && m[OfTransaction(txns[k])] == txns[k]
  }

  /** Under the info ids the events are stored whose root each info holds. */
  ghost predicate HoldsEvents(m: map<HashValue, seq<ContractEvent>>, ids: seq<HashValue>) {
    forall x :: x in ids ==> x.OfInfo? && x in m && x.info.eventRoot == OfEvents(m[x])
  }

  lemma StoredTransactionsHold(store: Store, id: HashValue)
    requires TxnInv(store) && id in store.infos
    ensures TxnsMatch(store, id)
    ensures HoldsTransactions(store.transactions, BlockTransactions(store.blocks[id], ParentGasOf(id)))
  {
    assert TxnsMatch(store, id);
    SameIds(store.transactions, BlockTransactions(store.blocks[id], ParentGasOf(id)));
  }

  lemma SameIds(m: map<HashValue, Transaction>, txns: seq<Transaction>)
    requires TransactionsStored(m, txns) && forall t :: t in m ==> OfTransaction(m[t]) == t
    ensures HoldsTransactions(m, txns)
  {
  }

  lemma StoredEventsHold(store: Store, id: HashValue)
    requires StoreInv(store) && id in store.infos
    ensures id in store.txnInfoIds && HoldsEvents(store.events, store.txnInfoIds[id])
  {
    assert BlockInv(store, id);
  }

  /** In every reachable world, for every saved block: the stored transaction ids are those of its metadata and
      body; under each id that very transaction is stored; the infos align with them one to one, each with its
      stored events; and the gas they sum to and the state after the last are those of the header. */
  lemma StoredBlocksMatch(w: World, id: HashValue)
    requires Reachable(w) && id in w.store.infos
    ensures TxnsMatch(w.store, id) && HoldsEvents(w.store.events, w.store.txnInfoIds[id])
    ensures HoldsTransactions(w.store.transactions, BlockTransactions(w.store.blocks[id], ParentGasOf(id)))
  {
    ReachableMatches(w);
    StoredTransactionsHold(w.store, id);
    ReachableInv(w);
    StoredEventsHold(w.store, id);
  }

  /** Transaction `i` of block `id` is `txn`: it is stored under its id, and its info and events are stored. */
  ghost predicate IsTransaction(store: Store, id: HashValue, i: nat, txn: Transaction)
    requires id in store.txnIds && id in store.txnInfoIds
  {
    && i < |store.txnIds[id]| && i < |store.txnInfoIds[id]|
    && store.txnIds[id][i] == OfTransaction(txn)
    && OfTransaction(txn) in store.transactions && store.transactions[OfTransaction(txn)] == txn
    && var x := store.txnInfoIds[id][i];
       && x.OfInfo? && x.info.transactionHash == OfTransaction(txn)
       && x in store.events && x.info.eventRoot == OfEvents(store.events[x])
  }

  lemma MatchedAt(store: Store, id: HashValue, i: nat)
    requires id in store.infos && TxnsMatch(store, id) && HoldsEvents(store.events, store.txnInfoIds[id])
    requires HoldsTransactions(store.transactions, BlockTransactions(store.blocks[id], ParentGasOf(id)))
    requires i < |BlockTransactions(store.blocks[id], ParentGasOf(id))|
    ensures IsTransaction(store, id, i, BlockTransactions(store.blocks[id], ParentGasOf(id))[i])
  {
    var ids := store.txnInfoIds[id];
    assert ids[i] in ids && InfosOf(ids)[i] == ids[i].info;
  }

  /** The transactions stored for block `id` are, in this order and no others, its metadata, unless it is genesis,
      and those of its body. */
  ghost predicate StoredInOrder(store: Store, id: HashValue) {
    && id.OfHeader? && id in store.blocks && id in store.txnIds && id in store.txnInfoIds
    && var h, body := id.header, store.blocks[id].body;
       var first := if h.number == 0 then 0 else 1;
       && |store.txnIds[id]| == |store.txnInfoIds[id]| == first + |body.transactions|
       && (forall k :: 0 <= k < |body.transactions| ==>
             IsTransaction(store, id, first + k, UserTransaction(body.transactions[k])))
       && (h.number > 0 ==>
             && h.parentHash.OfHeader?
             && IsTransaction(store, id, 0, BlockMetadata(
                  h.parentHash, h.timestamp, h.author, if body.uncles.Some? then |body.uncles.value| else 0,
                  h.number, h.parentHash.header.gasUsed)))
  }

  lemma MatchedInOrder(store: Store, id: HashValue)
    requires id in store.infos && TxnsMatch(store, id) && HoldsEvents(store.events, store.txnInfoIds[id])
    requires HoldsTransactions(store.transactions, BlockTransactions(store.blocks[id], ParentGasOf(id)))
    requires store.blocks[id].header == id.header && (id.header.number > 0 ==> id.header.parentHash.OfHeader?)
    ensures StoredInOrder(store, id)
  {
    var txns := BlockTransactions(store.blocks[id], ParentGasOf(id));
    TransactionsOfBlock(store.blocks[id], ParentGasOf(id));
    forall i | 0 <= i < |txns| ensures IsTransaction(store, id, i, txns[i]) {
      MatchedAt(store, id, i);
    }
  }

  lemma HasParent(store: Store, id: HashValue)
    requires StoreInv(store) && id in store.infos
    ensures id.OfHeader? && id in store.blocks && store.blocks[id].header == id.header
    ensures id.header.number > 0 ==> id.header.parentHash.OfHeader?
  {
    assert BlockInv(store, id);
    assert id.header.number > 0 ==> Rooted(id.header.parentHash);
  }

  /** In every reachable world that holds of every saved block. */
  lemma BodiesAreStoredInOrder(w: World, id: HashValue)
    requires Reachable(w) && id in w.store.infos
    ensures StoredInOrder(w.store, id)
  {
    StoredBlocksMatch(w, id);
    ReachableInv(w);
    HasParent(w.store, id);
    MatchedInOrder(w.store, id);
  }
}
