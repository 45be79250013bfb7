/** Every chain can grow: on each of them some block is accepted. */
module ChainGrowth {
  import opened Basics
  import opened ChainTypes
  import opened Executor
  import opened Chain
  import opened ChainInvariants
  import opened ChainSteps
  import opened ChainRuns
  import opened ChainTheorems

  /** The epoch after the one of a chain whose next block is its last. */
  ghost function NextEpoch(c: Chain): Epoch {
    c.epoch.(start := c.epoch.end, end := c.epoch.end + 1)
  }

  /** The writes of a block without transactions: none, or the next epoch at the end of one. */
  ghost function ChildWrites(c: Chain): seq<WriteOp> {
    if c.head.header.number + 1 == c.epoch.end then [Put(EPOCH_PATH, EpochResource(NextEpoch(c)))] else []
  }

  ghost function ChildOutput(c: Chain, events: seq<ContractEvent>): TransactionOutput {
    TransactionOutput(ChildWrites(c), events, 0, Keep(0))
  }

  ghost function ChildState(c: Chain): State
    requires c.stateRoot.OfState?
  {
    ApplyWrites(c.stateRoot.state, ChildWrites(c))
  }

  ghost function ChildMetadata(c: Chain): Transaction {
    BlockMetadata(c.head.Id(), c.head.header.timestamp + 1, 0, 0, c.head.header.number + 1, c.head.header.gasUsed)
  }

  ghost function ChildInfo(c: Chain, events: seq<ContractEvent>): TransactionInfo
    requires c.stateRoot.OfState?
  {
    TransactionInfo(OfTransaction(ChildMetadata(c)), OfState(ChildState(c)), OfEvents(events), 0, 0)
  }

  /** A block on the head of a chain without transactions, whose metadata transaction emits `events`. */
  ghost function Child(c: Chain, events: seq<ContractEvent>, nonce: nat): Block
    requires c.stateRoot.OfState?
  {
    var body := BlockBody([], None);
    Block(BlockHeader(c.head.Id(), c.head.header.number + 1, c.head.header.timestamp + 1, 0, OfState(ChildState(c)),
                      OfLeaves(c.txnAccumulator + [OfInfo(ChildInfo(c, events))]), OfLeaves(c.info.blockAccumulator),
                      OfBody(body), 0, 1, nonce), body)
  }

  lemma ChildVerifies(store: Store, c: Chain, events: seq<ContractEvent>, nonce: nat)
    requires c.stateRoot.OfState? && c.epoch.start <= c.head.header.number < c.epoch.end
    ensures VerifyBlock(store, c, Child(c, events, nonce))
  {
  }

  lemma ChildIsFaithful(c: Chain, events: seq<ContractEvent>, nonce: nat)
    requires c.stateRoot.OfState?
    ensures Faithful(c.stateRoot.state, c.txnAccumulator, BaseOf(c), Child(c, events, nonce), Ok([ChildOutput(c, events)]))
  {
    var block, outputs := Child(c, events, nonce), [ChildOutput(c, events)];
    var txns := BlockTransactions(block, Some(c.head.header.gasUsed));
    assert txns == [ChildMetadata(c)];
    assert outputs[..1] == outputs && outputs[..0] == [];
    assert StateAfter(c.stateRoot.state, outputs) == ChildState(c);
    var infos := seq(|txns|, k requires 0 <= k < |txns| => InfoAt(c.stateRoot.state, txns, outputs, k));
    assert infos == [ChildInfo(c, events)];
    OneInfo(ChildInfo(c, events));
  }

  lemma OneInfo(info: TransactionInfo)
    ensures GasSum([info]) == SatAdd(0, info.gasUsed) && InfoIds([info]) == [OfInfo(info)]
  {
    var infos := [info];
    assert infos[..0] == [];
  }

  lemma ChildEpoch(c: Chain, events: seq<ContractEvent>, nonce: nat)
    requires c.stateRoot.OfState? && EpochUnder(c.stateRoot) == Some(c.epoch) && c.head.header.number < c.epoch.end
    ensures EpochLaw(c.epoch, c.head.header.number + 1, EpochAt(Child(c, events, nonce).Id()))
  {
    var ws := ChildWrites(c);
    if ws != [] {
      assert ws[..0] == [];
    }
  }

  lemma ChildIsAccepted(w: World, i: nat, events: seq<ContractEvent>, nonce: nat)
    requires Inv(w) && i < |w.chains|
    ensures w.chains[i].stateRoot.OfState?
    ensures Accepts(w, i, Child(w.chains[i], events, nonce), Ok([ChildOutput(w.chains[i], events)]))
    ensures EpochMoves(w, i, Child(w.chains[i], events, nonce), Ok([ChildOutput(w.chains[i], events)]))
  {
    var c := w.chains[i];
    AccumulatorIsLineage(w.store, c);
    HeadStateExists(w.store, c);
    ChildVerifies(w.store, c, events, nonce);
    ChildIsFaithful(c, events, nonce);
    SavedIffFaithful(w.store, c.stateRoot.state, c.txnAccumulator, c.blockAccumulator, BaseOf(c),
                     Child(c, events, nonce), Ok([ChildOutput(c, events)]));
    ChildEpoch(c, events, nonce);
  }

  /** Chain `i` accepts some lawful block with the given nonce. */
  ghost predicate Grows(w: World, i: nat, nonce: nat) {
    exists block, vm :: Legal(w, Apply(i, block, vm)) && Accepts(w, i, block, vm) && block.header.nonce == nonce
  }

  lemma ChildGrows(w: World, i: nat, nonce: nat)
    requires Inv(w) && i < |w.chains|
    ensures Grows(w, i, nonce)
  {
    ChildIsAccepted(w, i, [], nonce);
    var block, vm := Child(w.chains[i], [], nonce), Ok([ChildOutput(w.chains[i], [])]);
    assert Legal(w, Apply(i, block, vm)) && block.header.nonce == nonce;
  }

  /** In every reachable world every chain accepts some block, also at the end of an epoch. */
  lemma EveryChainGrows(w: World, i: nat, nonce: nat)
    requires Reachable(w) && i < |w.chains|
    ensures Grows(w, i, nonce)
  {
    ReachableInv(w);
    ChildGrows(w, i, nonce);
  }
}
