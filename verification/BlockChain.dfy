/** The mutable block chain and its store (chain/src/chain.rs). */
module BlockChains {
  import opened Basics
  import opened ChainTypes
  import opened Executor
  import opened Chain
  import opened ChainInvariants
  import opened ChainSteps
  import opened EventQuery
  import Spec = Chain

  /** The block store all chains of a node share. */
  class Storage {
    var genesis: Option<HashValue>
    var headers: map<HashValue, BlockHeader>
    var blocks: map<HashValue, Block>
    var infos: map<HashValue, BlockInfo>
    var txnInfoIds: map<HashValue, seq<HashValue>>
    var txnInfos: map<HashValue, BlockTransactionInfo>
    var events: map<HashValue, seq<ContractEvent>>
    var txnIds: map<HashValue, seq<HashValue>>
    var transactions: map<HashValue, Transaction>

    function Contents(): Store
      reads this
    {
      Store(genesis, headers, blocks, infos, txnInfoIds, txnInfos, events, txnIds, transactions)
    }

    method SaveContractEvents(ids: seq<HashValue>, evs: seq<seq<ContractEvent>>)
      requires |ids| == |evs|
      modifies `events
      ensures events == PutAll(old(events), ids, evs)
    {
      for i := 0 to |ids|
        invariant events == PutAll(old(events), ids[..i], evs[..i])
      {
        assert ids[..i + 1][..i] == ids[..i] && evs[..i + 1][..i] == evs[..i];
        events := events[ids[i] := evs[i]];
      }
      assert ids[..|ids|] == ids && evs[..|ids|] == evs;
    }

    method SaveTransactionInfos(ids: seq<HashValue>, values: seq<BlockTransactionInfo>)
      requires |ids| == |values|
      modifies `txnInfos
      ensures txnInfos == PutAll(old(txnInfos), ids, values)
    {
      for i := 0 to |ids|
        invariant txnInfos == PutAll(old(txnInfos), ids[..i], values[..i])
      {
        assert ids[..i + 1][..i] == ids[..i] && values[..i + 1][..i] == values[..i];
        txnInfos := txnInfos[ids[i] := values[i]];
      }
      assert ids[..|ids|] == ids && values[..|ids|] == values;
    }

    method SaveTransactionBatch(ids: seq<HashValue>, txns: seq<Transaction>)
      requires |ids| == |txns|
      modifies `transactions
      ensures transactions == PutAll(old(transactions), ids, txns)
    {
      for i := 0 to |ids|
        invariant transactions == PutAll(old(transactions), ids[..i], txns[..i])
      {
        assert ids[..i + 1][..i] == ids[..i] && txns[..i + 1][..i] == txns[..i];
        transactions := transactions[ids[i] := txns[i]];
      }
      assert ids[..|ids|] == ids && txns[..|ids|] == txns;
    }

    method CommitBlock(block: Block)
      modifies `headers, `blocks
      ensures headers == old(headers)[block.Id() := block.header] && blocks == old(blocks)[block.Id() := block]
    {
      headers := headers[block.Id() := block.header];
      blocks := blocks[block.Id() := block];
    }

    method Save(block: Block, info: BlockInfo, txns: seq<Transaction>, data: ExecutedData)
      requires |data.infos| == |data.events| == |txns|
      modifies this
      ensures Contents() == Spec.Save(old(Contents()), block, info, txns, data)
    {
      var id := block.Id();
      var ids := InfoIds(data.infos);
      SaveContractEvents(ids, data.events);
      txnInfoIds := txnInfoIds[id := ids];
      SaveTransactionInfos(ids, BlockInfosOf(id, data.infos));
      txnIds := txnIds[id := TransactionIds(txns)];
      SaveTransactionBatch(TransactionIds(txns), txns);
      CommitBlock(block);
      infos := infos[id := info];
    }
  }

  class BlockChain {
    const storage: Storage
    var genesisHash: HashValue
    var txnAccumulator: seq<HashValue>
    var blockAccumulator: seq<HashValue>
    var head: Block
    var info: BlockInfo
    var stateRoot: HashValue
    var uncles: map<HashValue, nat>
    var epoch: Epoch

    function View(): Chain
      reads this
    {
      Chain(genesisHash, txnAccumulator, blockAccumulator, head, info, stateRoot, uncles, epoch)
    }

    /** The store is well formed and this chain agrees with it. */
    ghost predicate Valid()
      reads this, storage
    {
      StoreInv(storage.Contents()) && ChainInv(storage.Contents(), View())
    }

    constructor FromView(storage: Storage, v: Chain)
      ensures this.storage == storage && View() == v
    {
      this.storage := storage;
      genesisHash, txnAccumulator, blockAccumulator := v.genesis, v.txnAccumulator, v.blockAccumulator;
      head, info, stateRoot, uncles, epoch := v.head, v.info, v.stateRoot, v.uncles, v.epoch;
    }

    // ---------- the uncle cache ----------

    static method Inserted(before: map<HashValue, nat>, ids: seq<HashValue>, n: nat) returns (found: map<HashValue, nat>)
      ensures found == InsertAll(before, ids, n)
    {
      found := before;
      for i := 0 to |ids|
        invariant found == InsertAll(before, ids[..i], n)
      {
        assert ids[..i + 1][..i] == ids[..i];
        found := found[ids[i] := n];
      }
      assert ids[..|ids|] == ids;
    }

    method RecomputeUncles() returns (r: Outcome<map<HashValue, nat>>)
      ensures r == Spec.EpochUncles(storage.Contents(), View())
    {
      var found: map<HashValue, nat> := map[];
      var n := epoch.start;
      while n < epoch.end
        invariant n < epoch.end ==>
          Spec.EpochUncles(storage.Contents(), View()) == EpochUnclesFrom(storage.Contents(), View(), n, found)
        invariant n >= epoch.end ==> Spec.EpochUncles(storage.Contents(), View()) == Ok(found)
        decreases if n < epoch.end then epoch.end - n else 0
      {
        var ids;
        if n == head.header.number {
          ids := UncleIds(head.body);
        } else {
          var b := GetBlockByNumber(storage.Contents(), View(), n);
          if b.None? {
            return Err(BlockNotFound);
          }
          ids := UncleIds(b.value.body);
        }
        found := Inserted(found, ids, n);
        if n == head.header.number {
          break;
        }
        n := n + 1;
      }
      r := Ok(found);
    }

    // ---------- opening, forking and connecting ----------

    static method NewWithUncles(storage: Storage, head: Block, uncles: Option<map<HashValue, nat>>)
      returns (r: Outcome<BlockChain>)
      ensures var spec := Spec.NewWithUncles(storage.Contents(), head, uncles);
        if spec.Ok? then r.Ok? && fresh(r.value) && r.value.storage == storage && r.value.View() == spec.value
        else r == Err(spec.error)
    {
      if head.Id() !in storage.infos {
        return Err(InfoNotFound);
      }
      var e := EpochUnder(head.header.stateRoot);
      if e.None? {
        return Err(EpochNotFound);
      }
      if storage.genesis.None? {
        return Err(GenesisNotFound);
      }
      var info := storage.infos[head.Id()];
      var c := new BlockChain.FromView(storage,
        Chain(storage.genesis.value, info.txnAccumulator, info.blockAccumulator,
              head, info, head.header.stateRoot, map[], e.value));
      match uncles {
        case Some(us) => c.uncles := us;
        case None =>
          var us := c.RecomputeUncles();
          if us.Err? {
            return Err(us.error);
          }
          c.uncles := us.value;
      }
      r := Ok(c);
    }

    method ForkAt(id: HashValue) returns (r: Outcome<BlockChain>)
      requires Valid()
      ensures r.Ok? <==> id in blockAccumulator
      ensures r.Err? ==> r.error == NotOnChain
      ensures r.Ok? ==>
        && fresh(r.value) && r.value.storage == storage
        && Spec.Fork(storage.Contents(), View(), id) == Ok(r.value.View())
        && r.value.Valid() && r.value.head.Id() == id && r.value.blockAccumulator <= blockAccumulator
    {
      ghost var s, c := storage.Contents(), View();
      AccumulatorIsLineage(s, c);
      ExistBlockIsOnLineage(s, c, id);
      if !ExistBlock(storage.Contents(), View(), id) {
        return Err(NotOnChain);
      }
      ForkKeeps(s, c, id);
      if id !in storage.blocks {
        return Err(BlockNotFound);
      }
      var newHead := storage.blocks[id];
      var kept := if newHead.header.number >= epoch.start then Some(UpTo(uncles, newHead.header.number)) else None;
      r := NewWithUncles(storage, newHead, kept);
      AccumulatorIsLineage(s, r.value.View());
      ghost var k :| 0 <= k < |blockAccumulator| && blockAccumulator[k] == id;
      LineageAt(head.Id(), k);
    }

    method Connect(block: Block, blockInfo: BlockInfo) returns (r: Outcome<()>)
      modifies this
      ensures (View(), r) == Spec.Connect(storage.Contents(), old(View()), block, blockInfo)
    {
      txnAccumulator := blockInfo.txnAccumulator;
      blockAccumulator := blockInfo.blockAccumulator;
      stateRoot := block.header.stateRoot;
      head, info := block, blockInfo;
      if epoch.end == block.header.number {
        var e := EpochUnder(stateRoot);
        if e.None? {
          return Err(EpochNotFound);
        }
        epoch := e.value;
        var us := RecomputeUncles();
        if us.Err? {
          return Err(us.error);
        }
        uncles := us.value;
      } else {
        uncles := Inserted(uncles, UncleIds(block.body), block.header.number);
      }
      r := Ok(());
    }

    // ---------- executing ----------

    /** Executes, checks and saves a block. A block that fails any check leaves the store as it was. */
    static method ExecuteBlockAndSave(
      storage: Storage, db: StateDb, txnAccumulator: seq<HashValue>, blockAccumulator: seq<HashValue>,
      base: Base, block: Block, vm: VmResult) returns (r: Outcome<BlockInfo>)
      requires db.working == db.committed
      modifies storage, db
      ensures var spec := Spec.ExecuteBlockAndSave(old(storage.Contents()), old(db.committed),
                                                   txnAccumulator, blockAccumulator, base, block, vm);
        match r
        case Ok(info) => spec == Ok((storage.Contents(), info))
        case Err(e) => spec == Err(e) && storage.Contents() == old(storage.Contents())
    {
      var txns := BlockTransactions(block, ParentGas(base));
      var executed := BlockExecute(db, txns, vm);
      if executed.Err? {
        return Err(ExecutionFailed(executed.error));
      }
      var data := executed.value;
      if data.stateRoot != block.header.stateRoot {
        return Err(StateRootMismatch);
      }
      var gas := BlockGas(data.infos);
      if gas != block.header.gasUsed {
        return Err(GasMismatch);
      }
      if |data.infos| != |txns| {
        return Err(TransactionCountMismatch);
      }
      var newLeaves := txnAccumulator + InfoIds(data.infos);
      if OfLeaves(newLeaves) != block.header.txnAccumulatorRoot {
        return Err(AccumulatorRootMismatch);
      }
      var info := NewInfo(txnAccumulator, blockAccumulator, base, block, data.infos);
      storage.Save(block, info, txns, data);
      r := Ok(info);
    }

    static method BlockGas(infos: seq<TransactionInfo>) returns (gas: nat)
      ensures gas == GasSum(infos)
    {
      gas := 0;
      for i := 0 to |infos|
        invariant gas == GasSum(infos[..i])
      {
        assert infos[..i + 1][..i] == infos[..i];
        gas := SatAdd(gas, infos[i].gasUsed);
      }
      assert infos[..|infos|] == infos;
    }

    /** Verifies, executes and connects a block. On failure neither chain nor store changes. */
    method Apply(block: Block, vm: VmResult) returns (r: Outcome<BlockInfo>)
      requires Valid() && VmKeepsEpochLaw(storage.Contents(), View(), block, vm)
      modifies this, storage
      ensures Valid()
      ensures r.Ok? <==> VerifyBlock(old(storage.Contents()), old(View()), block)
                         && Execute(old(storage.Contents()), old(View()), block, vm).Ok?
      ensures r.Err? ==> View() == old(View()) && storage.Contents() == old(storage.Contents())
      ensures r.Err? ==> r.error == if VerifyBlock(old(storage.Contents()), old(View()), block)
                                    then Execute(old(storage.Contents()), old(View()), block, vm).error else VerifyFailed
      ensures r.Ok? ==>
        && head == block && info == r.value && Extends(old(storage.Contents()), storage.Contents())
        && blockAccumulator == old(blockAccumulator) + [block.Id()]
    {
      ghost var s, c := storage.Contents(), View();
      if !VerifyBlock(storage.Contents(), View(), block) {
        return Err(VerifyFailed);
      }
      HeadStateExists(s, c);
      var db := new StateDb(stateRoot.state);
      r := ExecuteBlockAndSave(storage, db, txnAccumulator, blockAccumulator, BaseOf(View()), block, vm);
      assert View() == c;
      if r.Ok? {
        assert Execute(s, c, block, vm) == Ok((storage.Contents(), r.value));
        ApplyKeeps(s, c, block, vm);
        var connected := Connect(block, r.value);
      } else {
        assert Execute(s, c, block, vm).Err?;
      }
    }

    // ---------- queries ----------

    /** The highest block below both heads that two chains share. */
    method FindAncestor(other: BlockChain) returns (r: Option<(HashValue, nat)>)
      requires Valid() && other.Valid() && other.storage == storage
      ensures |blockAccumulator| == head.header.number + 1
      ensures |other.blockAccumulator| == other.head.header.number + 1
      ensures HighestShared(blockAccumulator, other.blockAccumulator, r)
    {
      ghost var s, c, d := storage.Contents(), View(), other.View();
      AccumulatorIsLineage(s, c);
      AccumulatorIsLineage(s, d);
      r := None;
      var top := Min(head.header.number, other.head.header.number);
      var n := top;
      while n > 0
        invariant 0 <= n <= top < |c.blockAccumulator| && top < |d.blockAccumulator|
        invariant forall k :: n <= k < top ==> c.blockAccumulator[k] != d.blockAccumulator[k]
      {
        n := n - 1;
        var a, b := LeafAt(other.blockAccumulator, n), LeafAt(blockAccumulator, n);
        if a.Some? && b.Some? && a.value == b.value {
          SharedBelow(s, c, d, n);
          return Some((a.value, n));
        }
      }
      SameGenesis(s, c, d);
    }

    /** The `count` blocks ending at `number`, or at the head, newest first. */
    method GetBlocksByNumber(number: Option<nat>, count: nat) returns (r: Outcome<seq<Block>>)
      requires Valid()
      ensures var end := SatAdd(if number.Some? then number.value else head.header.number, 1);
        && (r.Ok? <==> count == 0 || end <= head.header.number + 1)
        && (r.Ok? ==>
              && |r.value| == Min(count, end)
              && forall i :: 0 <= i < |r.value| && end - 1 - i < |blockAccumulator| ==>
                   r.value[i].Id() == blockAccumulator[end - 1 - i])
    {
      ghost var s, c := storage.Contents(), View();
      AccumulatorIsLineage(s, c);
      var end := SatAdd(if number.Some? then number.value else head.header.number, 1);
      var start := end - Min(count, end);
      var blocks: seq<Block> := [];
      var n := end;
      while n > start
        invariant start <= n <= end
        invariant n < end ==> end <= |c.blockAccumulator|
        invariant |blocks| == end - n
        invariant forall i :: 0 <= i < |blocks| ==> blocks[i].Id() == c.blockAccumulator[end - 1 - i]
      {
        n := n - 1;
        var b := GetBlockByNumber(storage.Contents(), View(), n);
        if n < |c.blockAccumulator| {
          BlockByNumber(s, c, n);
        }
        if b.None? {
          return Err(BlockNotFound);
        }
        blocks := blocks + [b.value];
      }
      r := Ok(blocks);
    }

    // ---------- filtering events ----------

    /** The matching events of transaction `i` of a block. */
    method FilterTransaction(f: Filter, id: HashValue, number: nat, i: nat) returns (r: Outcome<seq<EventInfo>>)
      requires HasEvents(storage.Contents(), id) && i < |storage.txnInfoIds[id]|
      ensures r == Ok(TxnChunks(storage.Contents(), f, id, number)[i])
    {
      var x := storage.txnInfoIds[id][i];
      assert x in storage.txnInfoIds[id];
      ChunkAt(storage.Contents(), f, id, number, |storage.txnInfoIds[id]|, i);
      if x !in storage.events {
        return Err(InfoNotFound);
      }
      var found := Matches(f, number, storage.events[x]);
      if found == [] {
        assert TxnEvents(storage.Contents(), f, id, number, i) == [];
        return Ok([]);
      }
      if x !in storage.txnInfos {
        return Err(InfoNotFound);
      }
      var txn := storage.txnInfos[x].txnInfo.transactionHash;
      r := Ok(seq(|found|, k requires 0 <= k < |found| => EventInfo(id, number, txn, i, found[k])));
    }

    /** Appends the matching events of one block to `out`, stopping once the limit is reached. */
    method FilterBlock(f: Filter, id: HashValue, number: nat, out: seq<EventInfo>)
      returns (r: Outcome<seq<EventInfo>>, stop: bool)
      requires HasEvents(storage.Contents(), id)
      ensures var chunks := TxnChunks(storage.Contents(), f, id, number);
        r.Ok? && Collected(f, r.value, out + Visit(f, chunks, |chunks|), stop)
    {
      ghost var chunks := TxnChunks(storage.Contents(), f, id, number);
      if id !in storage.txnInfoIds {
        return Err(BlockNotFound), false;
      }
      var acc := out;
      for k := 0 to |storage.txnInfoIds[id]|
        invariant acc == out + Visit(f, chunks, k)
      {
        r, stop := FilterNext(f, id, number, k, acc);
        if r.Err? {
          return;
        }
        VisitStep(f, chunks, k, out, acc, r.value, stop);
        if stop {
          return;
        }
        acc := r.value;
      }
      return Ok(acc), false;
    }

    /** Appends the matching events of the next transaction, and says whether to stop. */
    method FilterNext(f: Filter, id: HashValue, number: nat, k: nat, acc: seq<EventInfo>)
      returns (r: Outcome<seq<EventInfo>>, stop: bool)
      requires HasEvents(storage.Contents(), id) && k < |storage.txnInfoIds[id]|
      ensures var chunks := TxnChunks(storage.Contents(), f, id, number);
        r == Ok(acc + Directed(f, chunks[if f.reverse then |chunks| - 1 - k else k]))
      ensures r.Ok? && stop ==> f.limit.Some? && |r.value| >= f.limit.value
    {
      var i := if f.reverse then |storage.txnInfoIds[id]| - 1 - k else k;
      var chunk := FilterTransaction(f, id, number, i);
      if chunk.Err? {
        return chunk, false;
      }
      r := Ok(acc + Directed(f, chunk.value));
      stop := chunk.value != [] && f.limit.Some? && |r.value| >= f.limit.value;
    }

    /** All matching events of the chain in order, or in reverse order, up to the limit. */
    method FilterEvents(f: Filter) returns (r: Outcome<seq<EventInfo>>)
      requires Valid()
      ensures HaveEvents(storage.Contents(), blockAccumulator)
      ensures r == Ok(FilteredEvents(storage.Contents(), f, blockAccumulator))
    {
      ghost var s, c := storage.Contents(), View();
      AccumulatorIsLineage(s, c);
      ChainHasEvents(s, c);
      var last := Min(head.header.number, f.to);
      if f.from > last {
        return Ok([]);
      }
      ghost var chunks := ChunksInRange(s, f, blockAccumulator);
      var stop;
      r, stop := CollectBlocks(f, last, chunks);
      if r.Ok? {
        LimitedVisit(f, chunks, r.value);
        r := Ok(Limited(f, r.value));
      }
    }

    /** Appends the matching events of the block at height `n`, or enough of them. */
    method FilterHeight(f: Filter, n: nat, out: seq<EventInfo>, ghost chunks: seq<seq<EventInfo>>)
      returns (r: Outcome<seq<EventInfo>>, stop: bool)
      requires Valid() && AreBlockEvents(storage.Contents(), f, blockAccumulator, chunks)
      requires f.from <= n < f.from + |chunks|
      ensures r.Ok? && Collected(f, r.value, out + Directed(f, chunks[n - f.from]), stop)
    {
      assert chunks[n - f.from] == BlockEvents(storage.Contents(), f, blockAccumulator[n], n);
      BlockByNumber(storage.Contents(), View(), n);
      var b := GetBlockByNumber(storage.Contents(), View(), n);
      if b.None? {
        return Err(BlockNotFound), false;
      }
      VisitAll(f, TxnChunks(storage.Contents(), f, blockAccumulator[n], n));
      r, stop := FilterBlock(f, b.value.Id(), b.value.header.number, out);
    }

    /** Visits the blocks from `f.from` to `last`, or back, until the last of them or the limit. */
    method CollectBlocks(f: Filter, last: nat, ghost chunks: seq<seq<EventInfo>>)
      returns (r: Outcome<seq<EventInfo>>, stop: bool)
      requires Valid() && AreBlockEvents(storage.Contents(), f, blockAccumulator, chunks)
      requires f.from <= last && |chunks| == last + 1 - f.from
      ensures r.Ok? && Collected(f, r.value, Visit(f, chunks, |chunks|), stop)
    {
      var current, tail := if f.reverse then last else f.from, if f.reverse then f.from else last;
      var out: seq<EventInfo> := [];
      ghost var n := 0;
      while true
        invariant 0 <= n < |chunks|
        invariant current == if f.reverse then last - n else f.from + n
        invariant out == Visit(f, chunks, n)
        decreases |chunks| - n
      {
        r, stop := FilterHeight(f, current, out, chunks);
        CollectStep(f, chunks, n, out, r.value, stop);
        if stop || (if f.reverse then current <= tail else current >= tail) {
          return;
        }
        out := r.value;
        n := n + 1;
        current := if f.reverse then current - 1 else current + 1;
      }
    }
  }

  // ---------- partial visits ----------

  /** `chunks` are the matching events of the blocks from height `f.from` on. */
  ghost predicate AreBlockEvents(s: Store, f: Filter, leaves: seq<HashValue>, chunks: seq<seq<EventInfo>>) {
    && HaveEvents(s, leaves) && f.from + |chunks| <= |leaves|
    && forall n {:trigger BlockEvents(s, f, leaves[n], n)} :: f.from <= n < f.from + |chunks| ==>
         chunks[n - f.from] == BlockEvents(s, f, leaves[n], n)
  }

  /** `found` is all of `full`, or after a stop a prefix of it that reaches the limit. */
  ghost predicate Collected(f: Filter, found: seq<EventInfo>, full: seq<EventInfo>, stop: bool) {
    found <= full && if stop then f.limit.Some? && |found| >= f.limit.value else found == full
  }

  /** What has been collected after visiting `k` chunks, from the front or from the back. */
  ghost function Visit(f: Filter, chunks: seq<seq<EventInfo>>, k: nat): seq<EventInfo>
    requires k <= |chunks|
  {
    if k == 0 then [] else Visit(f, chunks, k - 1) + Directed(f, chunks[if f.reverse then |chunks| - k else k - 1])
  }

  lemma {:induction false} VisitPrefix(f: Filter, chunks: seq<seq<EventInfo>>, k: nat, n: nat)
    requires k <= n <= |chunks|
    ensures Visit(f, chunks, k) <= Visit(f, chunks, n)
  {
    if k < n {
      VisitPrefix(f, chunks, k, n - 1);
    }
  }

  /** Collecting the next chunk after `out`. */
  lemma VisitStep(f: Filter, chunks: seq<seq<EventInfo>>, k: nat, out: seq<EventInfo>, acc: seq<EventInfo>,
                  found: seq<EventInfo>, stop: bool)
    requires k < |chunks| && acc == out + Visit(f, chunks, k)
    requires found == acc + Directed(f, chunks[if f.reverse then |chunks| - 1 - k else k])
    requires stop ==> f.limit.Some? && |found| >= f.limit.value
    ensures if stop then Collected(f, found, out + Visit(f, chunks, |chunks|), true) else found == out + Visit(f, chunks, k + 1)
  {
    Associative(out, Visit(f, chunks, k), Directed(f, chunks[if f.reverse then |chunks| - 1 - k else k]));
    VisitPrefix(f, chunks, k + 1, |chunks|);
  }

  lemma CollectStep(f: Filter, chunks: seq<seq<EventInfo>>, n: nat, out: seq<EventInfo>, found: seq<EventInfo>, stop: bool)
    requires n < |chunks| && out == Visit(f, chunks, n)
    requires Collected(f, found, out + Directed(f, chunks[if f.reverse then |chunks| - 1 - n else n]), stop)
    ensures found <= Visit(f, chunks, |chunks|)
    ensures !stop ==> found == Visit(f, chunks, n + 1)
  {
    VisitPrefix(f, chunks, n + 1, |chunks|);
  }

  lemma {:induction false} VisitForward(f: Filter, chunks: seq<seq<EventInfo>>, k: nat)
    requires !f.reverse && k <= |chunks|
    ensures Visit(f, chunks, k) == Flat(chunks[..k])
  {
    if k > 0 {
      VisitForward(f, chunks, k - 1);
      assert chunks[..k][..k - 1] == chunks[..k - 1];
    }
  }

  lemma {:induction false} VisitBackward(f: Filter, chunks: seq<seq<EventInfo>>, k: nat)
    requires f.reverse && k <= |chunks|
    ensures Visit(f, chunks, k) == Reversed(Flat(chunks[|chunks| - k..]))
  {
    if k > 0 {
      VisitBackward(f, chunks, k - 1);
      FlatFrom(chunks, |chunks| - k);
      ReversedConcat(chunks[|chunks| - k], Flat(chunks[|chunks| - k + 1..]));
    }
  }

  lemma FlatFrom(chunks: seq<seq<EventInfo>>, i: nat)
    requires i < |chunks|
    ensures Flat(chunks[i..]) == chunks[i] + Flat(chunks[i + 1..])
  {
    assert chunks[i..] == [chunks[i]] + chunks[i + 1..];
    FlatConcat([chunks[i]], chunks[i + 1..]);
    FlatOne(chunks[i]);
  }

  /** A full visit collects everything, in the filter's direction. */
  lemma VisitAll(f: Filter, chunks: seq<seq<EventInfo>>)
    ensures Visit(f, chunks, |chunks|) == Directed(f, Flat(chunks))
  {
    if f.reverse {
      VisitBackward(f, chunks, |chunks|);
      assert chunks[0..] == chunks;
    } else {
      VisitForward(f, chunks, |chunks|);
      assert chunks[..|chunks|] == chunks;
    }
  }

  /** A visit cut off once the limit was reached has the same first `limit` events as a full one. */
  lemma LimitedVisit(f: Filter, chunks: seq<seq<EventInfo>>, out: seq<EventInfo>)
    requires out <= Visit(f, chunks, |chunks|)
    requires out == Visit(f, chunks, |chunks|) || (f.limit.Some? && |out| >= f.limit.value)
    ensures Limited(f, out) == Limited(f, Directed(f, Flat(chunks)))
  {
    VisitAll(f, chunks);
  }

  lemma ChunksInRange(s: Store, f: Filter, leaves: seq<HashValue>) returns (chunks: seq<seq<EventInfo>>)
    requires HaveEvents(s, leaves) && f.from < Min(f.to + 1, |leaves|)
    ensures AreBlockEvents(s, f, leaves, chunks) && f.from + |chunks| == Min(f.to + 1, |leaves|)
    ensures FilteredEvents(s, f, leaves) == Limited(f, Directed(f, Flat(chunks)))
  {
    var hi := Min(f.to + 1, |leaves|);
    chunks := HeightChunks(s, f, leaves, f.from, hi);
    assert AllEvents(s, f, leaves) == Flat(chunks);
  }

  lemma ChainHasEvents(s: Store, c: Chain)
    requires StoreInv(s) && AtHead(s, c)
    ensures HaveEvents(s, c.blockAccumulator)
  {
    forall n | 0 <= n < |c.blockAccumulator| ensures HasEvents(s, c.blockAccumulator[n]) {
      BlockByNumber(s, c, n);
    }
  }
}
