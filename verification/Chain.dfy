/** The operations of a block chain over a shared store (chain/src/chain.rs) as functions of
    values; the class in BlockChain.dfy refines them. */
module Chain {
  import opened Basics
  import opened ChainTypes
  import opened Executor

  datatype Chain = Chain(
    genesis: HashValue,
    txnAccumulator: seq<HashValue>, blockAccumulator: seq<HashValue>,
    head: Block, info: BlockInfo, stateRoot: HashValue,
    uncles: map<HashValue, nat>, epoch: Epoch)

  datatype ChainError =
    | BlockNotFound | InfoNotFound | StateNotFound | EpochNotFound | GenesisNotFound | NotOnChain
    | ExecutionFailed(cause: ExecutorError)
    | StateRootMismatch | GasMismatch | TransactionCountMismatch | AccumulatorRootMismatch
    | VerifyFailed

  type Outcome<+T> = Result<T, ChainError>

  // ---------- lookups ----------

  function LeafAt(leaves: seq<HashValue>, n: nat): Option<HashValue> {
    if n < |leaves| then Some(leaves[n]) else None
  }

  function GetBlockByNumber(store: Store, c: Chain, n: nat): Option<Block> {
    match LeafAt(c.blockAccumulator, n)
    case None => None
    case Some(id) => Find(store.blocks, id)
  }

  function GetHeaderByNumber(store: Store, c: Chain, n: nat): Option<BlockHeader> {
    match LeafAt(c.blockAccumulator, n)
    case None => None
    case Some(id) => Find(store.headers, id)
  }

  predicate CheckExistBlock(c: Chain, id: HashValue, number: nat) {
    LeafAt(c.blockAccumulator, number) == Some(id)
  }

  predicate ExistBlock(store: Store, c: Chain, id: HashValue) {
    id in store.headers && CheckExistBlock(c, id, store.headers[id].number)
  }

  function GetBlock(store: Store, c: Chain, id: HashValue): Option<Block> {
    if id in store.blocks && CheckExistBlock(c, store.blocks[id].Id(), store.blocks[id].header.number)
    then Some(store.blocks[id]) else None
  }

  function GetHeader(store: Store, c: Chain, id: HashValue): Option<BlockHeader> {
    if id in store.headers && CheckExistBlock(c, OfHeader(store.headers[id]), store.headers[id].number)
    then Some(store.headers[id]) else None
  }

  function GetTransactionInfoByVersion(store: Store, c: Chain, version: nat): Option<BlockTransactionInfo> {
    match LeafAt(c.txnAccumulator, version)
    case None => None
    case Some(id) => Find(store.txnInfos, id)
  }

  // ---------- the uncle cache ----------

  /** `m` after inserting every id of `ids` with value `n`. */
  function InsertAll(m: map<HashValue, nat>, ids: seq<HashValue>, n: nat): (r: map<HashValue, nat>)
    ensures forall u :: u in r <==> u in m || u in ids
    ensures forall u :: u in r ==> r[u] == if u in ids then n else m[u]
  {
    if ids == [] then m
    else
      var k := |ids| - 1;
      assert forall u :: u in ids <==> u in ids[..k] || u == ids[k];
      InsertAll(m, ids[..k], n)[ids[k] := n]
  }

  /** Recomputation of the uncles of the current epoch, continued at height `n` with `acc`. */
  function EpochUnclesFrom(store: Store, c: Chain, n: nat, acc: map<HashValue, nat>): Outcome<map<HashValue, nat>>
    decreases if n < c.epoch.end then c.epoch.end - n else 0
  {
    if n >= c.epoch.end then Ok(acc)
    else if n == c.head.header.number then Ok(InsertAll(acc, UncleIds(c.head.body), n))
    else
      match GetBlockByNumber(store, c, n)
      case None => Err(BlockNotFound)
      case Some(b) => EpochUnclesFrom(store, c, n + 1, InsertAll(acc, UncleIds(b.body), n))
  }

  function EpochUncles(store: Store, c: Chain): Outcome<map<HashValue, nat>> {
    EpochUnclesFrom(store, c, c.epoch.start, map[])
  }

  // ---------- opening, forking and connecting ----------

  function NewWithUncles(store: Store, head: Block, uncles: Option<map<HashValue, nat>>): Outcome<Chain> {
    if head.Id() !in store.infos then Err(InfoNotFound)
    else if EpochUnder(head.header.stateRoot).None? then Err(EpochNotFound)
    else if store.genesis.None? then Err(GenesisNotFound)
    else
      var info := store.infos[head.Id()];
      var c := Chain(store.genesis.value, info.txnAccumulator, info.blockAccumulator,
                     head, info, head.header.stateRoot, map[], EpochUnder(head.header.stateRoot).value);
      match uncles
      case Some(us) => Ok(c.(uncles := us))
      case None =>
        var r := EpochUncles(store, c);
        if r.Ok? then Ok(c.(uncles := r.value)) else Err(r.error)
  }

  function New(store: Store, id: HashValue): Outcome<Chain> {
    if id in store.blocks then NewWithUncles(store, store.blocks[id], None) else Err(BlockNotFound)
  }

  /** The cached uncles minted at or below height `n`. */
  function UpTo(uncles: map<HashValue, nat>, n: nat): map<HashValue, nat> {
    map u | u in uncles && uncles[u] <= n :: uncles[u]
  }

  function Fork(store: Store, c: Chain, id: HashValue): Outcome<Chain> {
    if !ExistBlock(store, c, id) then Err(NotOnChain)
    else if id !in store.blocks then Err(BlockNotFound)
    else
      var head := store.blocks[id];
      NewWithUncles(store, head,
                    if head.header.number >= c.epoch.start then Some(UpTo(c.uncles, head.header.number)) else None)
  }

  /** The chain after `connect`, and whether connecting succeeded. The head moves before the
      epoch is reloaded, so a failing reload leaves the new head with the old uncles. */
  function Connect(store: Store, c: Chain, block: Block, info: BlockInfo): (Chain, Outcome<()>) {
    var c1 := c.(txnAccumulator := info.txnAccumulator, blockAccumulator := info.blockAccumulator,
                 head := block, info := info, stateRoot := block.header.stateRoot);
    if c.epoch.end == block.header.number then
      if EpochUnder(c1.stateRoot).None? then (c1, Err(EpochNotFound))
      else
        var c2 := c1.(epoch := EpochUnder(c1.stateRoot).value);
        var r := EpochUncles(store, c2);
        if r.Ok? then (c2.(uncles := r.value), Ok(())) else (c2, Err(r.error))
    else
      (c1.(uncles := InsertAll(c1.uncles, UncleIds(block.body), block.header.number)), Ok(()))
  }

  // ---------- executing and saving ----------

  function GasSum(infos: seq<TransactionInfo>): nat {
    if infos == [] then 0 else SatAdd(GasSum(infos[..|infos| - 1]), infos[|infos| - 1].gasUsed)
  }

  /** The transactions a block executes: a metadata transaction unless it has no parent (genesis),
      then the transactions of its body. */
  function BlockTransactions(block: Block, parentGasUsed: Option<nat>): (txns: seq<Transaction>) {
    var users := seq(|block.body.transactions|,
                     i requires 0 <= i < |block.body.transactions| => UserTransaction(block.body.transactions[i]));
    match parentGasUsed
    case None => users
    case Some(g) =>
      var h := block.header;
      [BlockMetadata(h.parentHash, h.timestamp, h.author, |UncleIds(block.body)|, h.number, g)] + users
  }

  /** Exactly the metadata, which tells of the block's own header, its uncles and its parent's gas, and after it
      the transactions of the body in their order; for genesis the latter alone. */
  lemma TransactionsOfBlock(block: Block, parentGasUsed: Option<nat>)
    ensures var txns, body, h := BlockTransactions(block, parentGasUsed), block.body.transactions, block.header;
      var first := if parentGasUsed.Some? then 1 else 0;
      var uncles := if block.body.uncles.Some? then |block.body.uncles.value| else 0;
      && |txns| == first + |body|
      && (forall k :: 0 <= k < |body| ==> txns[first + k] == UserTransaction(body[k]))
      && (parentGasUsed.Some? ==>
            txns[0] == BlockMetadata(h.parentHash, h.timestamp, h.author, uncles, h.number, parentGasUsed.value))
  {
  }

  /** The gas of a block is the sum over its outputs, cut off at the largest 64-bit number. */
  lemma {:induction false} GasSumIsCut(infos: seq<TransactionInfo>, outputs: seq<TransactionOutput>)
    requires |infos| == |outputs| && forall k :: 0 <= k < |infos| ==> infos[k].gasUsed == outputs[k].gasUsed
    ensures GasSum(infos) == Min(OutputGas(outputs), U64_MAX)
  {
    if infos != [] {
      GasSumIsCut(infos[..|infos| - 1], outputs[..|outputs| - 1]);
    }
  }

  function InfoIds(infos: seq<TransactionInfo>): (ids: seq<HashValue>)
    ensures |ids| == |infos| && forall k :: 0 <= k < |ids| ==> ids[k] == OfInfo(infos[k])
  {
    seq(|infos|, k requires 0 <= k < |infos| => OfInfo(infos[k]))
  }

  function PutAll<K(!new), V>(m: map<K, V>, ks: seq<K>, vs: seq<V>): (r: map<K, V>)
    requires |ks| == |vs|
    ensures forall k :: k in r <==> k in m || k in ks
    ensures forall k :: k in r && k !in ks ==> r[k] == m[k]
    ensures forall k :: k in r && k in ks ==> exists i :: 0 <= i < |ks| && ks[i] == k && r[k] == vs[i]
  {
    if ks == [] then m
    else
      var n := |ks| - 1;
      var r := PutAll(m, ks[..n], vs[..n])[ks[n] := vs[n]];
      assert forall k :: k in ks <==> k in ks[..n] || k == ks[n];
      r
  }

  function BlockInfosOf(id: HashValue, infos: seq<TransactionInfo>): (r: seq<BlockTransactionInfo>) {
    seq(|infos|, k requires 0 <= k < |infos| => BlockTransactionInfo(id, infos[k]))
  }

  function TransactionIds(txns: seq<Transaction>): (r: seq<HashValue>) {
    seq(|txns|, k requires 0 <= k < |txns| => OfTransaction(txns[k]))
  }

  function Save(store: Store, block: Block, info: BlockInfo, txns: seq<Transaction>, data: ExecutedData): Store
    requires |data.infos| == |data.events| == |txns|
  {
    var id := block.Id();
    var ids := InfoIds(data.infos);
    store.(
      events := PutAll(store.events, ids, data.events),
      txnInfoIds := store.txnInfoIds[id := ids],
      txnInfos := PutAll(store.txnInfos, ids, BlockInfosOf(id, data.infos)),
      txnIds := store.txnIds[id := TransactionIds(txns)],
      transactions := PutAll(store.transactions, TransactionIds(txns), txns),
      headers := store.headers[id := block.header],
      blocks := store.blocks[id := block],
      infos := store.infos[id := info])
  }

  /** What a block is executed on top of: nothing for genesis, else the head of a chain. */
  datatype Base = NoParent | OnHead(gasUsed: nat, totalDifficulty: nat)

  function ParentGas(base: Base): Option<nat> {
    if base.OnHead? then Some(base.gasUsed) else None
  }

  /** The checks between executing a block and saving it, in the order they are made. */
  function CheckExecution(
    txnAccumulator: seq<HashValue>, base: Base, block: Block, r: Result<ExecutedData, ExecutorError>)
    : (e: Option<ChainError>)
  {
    if r.Err? then Some(ExecutionFailed(r.error))
    else if r.value.stateRoot != block.header.stateRoot then Some(StateRootMismatch)
    else if GasSum(r.value.infos) != block.header.gasUsed then Some(GasMismatch)
    else if |r.value.infos| != |BlockTransactions(block, ParentGas(base))| then Some(TransactionCountMismatch)
    else if OfLeaves(txnAccumulator + InfoIds(r.value.infos)) != block.header.txnAccumulatorRoot then Some(AccumulatorRootMismatch)
    else None
  }

  function NewInfo(txnAccumulator: seq<HashValue>, blockAccumulator: seq<HashValue>, base: Base, block: Block,
                   infos: seq<TransactionInfo>): BlockInfo
  {
    BlockInfo(block.Id(),
              (if base.OnHead? then base.totalDifficulty else 0) + block.header.difficulty,
              txnAccumulator + InfoIds(infos),
              blockAccumulator + [block.Id()])
  }

  /** Executes a block on a state, checks it against its header and saves it. */
  function ExecuteBlockAndSave(
    store: Store, state: State, txnAccumulator: seq<HashValue>, blockAccumulator: seq<HashValue>,
    base: Base, block: Block, vm: VmResult) : (r: Outcome<(Store, BlockInfo)>)
  {
    var txns := BlockTransactions(block, ParentGas(base));
    var executed := Executed(state, txns, vm);
    match CheckExecution(txnAccumulator, base, block, executed)
    case Some(e) => Err(e)
    case None =>
      var info := NewInfo(txnAccumulator, blockAccumulator, base, block, executed.value.infos);
      Ok((Save(store, block, info, txns, executed.value), info))
  }

  function BaseOf(c: Chain): Base {
    OnHead(c.head.header.gasUsed, c.info.totalDifficulty)
  }

  function Execute(store: Store, c: Chain, block: Block, vm: VmResult): Outcome<(Store, BlockInfo)> {
    if c.stateRoot.OfState?
    then ExecuteBlockAndSave(store, c.stateRoot.state, c.txnAccumulator, c.blockAccumulator, BaseOf(c), block, vm)
    else Err(StateNotFound)
  }

  // ---------- verifying ----------

  predicate CanBeUncle(store: Store, c: Chain, uncle: BlockHeader) {
    && c.epoch.start <= uncle.number < c.epoch.end
    && ExistBlock(store, c, uncle.parentHash)
    && !ExistBlock(store, c, OfHeader(uncle))
    && OfHeader(uncle) !in c.uncles
    && uncle.number <= c.head.header.number
  }

  /** The header checks the chain relies on: head position, time, epoch range, gas limit and commitment to
      the parent's block accumulator. */
  predicate VerifyHeader(c: Chain, h: BlockHeader) {
    && h.number == c.head.header.number + 1
    && h.parentHash == c.head.Id()
    && h.timestamp > c.head.header.timestamp
    && c.epoch.start < h.number <= c.epoch.end
    && h.gasUsed <= c.epoch.gasLimit
    && h.blockAccumulatorRoot == OfLeaves(c.info.blockAccumulator)
  }

  /** An uncle's header is verified on a fork at its parent. */
  predicate UncleVerifies(store: Store, c: Chain, uncle: BlockHeader) {
    var f := Fork(store, c, uncle.parentHash);
    f.Ok? && VerifyHeader(f.value, uncle)
  }

  predicate VerifyUncles(store: Store, c: Chain, uncles: seq<BlockHeader>, header: BlockHeader) {
    && (header.number == c.epoch.end ==> uncles == [])
    && |uncles| <= c.epoch.maxUncles
    && (forall i, j :: 0 <= i < j < |uncles| ==> uncles[i] != uncles[j])
    && (forall i :: 0 <= i < |uncles| ==> uncles[i].number < header.number && CanBeUncle(store, c, uncles[i]))
    && (forall i :: 0 <= i < |uncles| ==> UncleVerifies(store, c, uncles[i]))
  }

  /** The part of block verification the chain relies on: header, body hash and uncles. */
  predicate VerifyBlock(store: Store, c: Chain, block: Block) {
    && VerifyHeader(c, block.header)
    && block.header.bodyHash == OfBody(block.body)
    && VerifyUncles(store, c, if block.body.uncles.Some? then block.body.uncles.value else [], block.header)
  }
}
