/** A reachable chain on which a forward query with a limit does not return the last events. */
module ChainEvents {
  import opened Basics
  import opened ChainTypes
  import opened Executor
  import opened Chain
  import opened ChainInvariants
  import opened ChainSteps
  import opened ChainRuns
  import opened ChainTheorems
  import opened ChainGrowth
  import opened ChainLookups
  import opened EventQuery
  import BlockChains

  /** What the store holds about a child block that emits `events`. */
  lemma ChildIsSaved(s: Store, c: Chain, events: seq<ContractEvent>, nonce: nat)
    requires KeysHash(s) && c.stateRoot.OfState?
    requires Execute(s, c, Child(c, events, nonce), Ok([ChildOutput(c, events)])).Ok?
    ensures var s' := Execute(s, c, Child(c, events, nonce), Ok([ChildOutput(c, events)])).value.0;
      var id := Child(c, events, nonce).Id();
      && id in s'.txnInfoIds && |s'.txnInfoIds[id]| == 1
      && var x := s'.txnInfoIds[id][0];
         x in s'.events && s'.events[x] == events && x in s'.txnInfos
  {
    var block, vm := Child(c, events, nonce), Ok([ChildOutput(c, events)]);
    var txns := BlockTransactions(block, Some(c.head.header.gasUsed));
    assert txns == [ChildMetadata(c)];
    SavedTransaction(s, c.stateRoot.state, c.txnAccumulator, c.blockAccumulator, BaseOf(c), block, vm, 0);
  }

  /** From every reachable world, for every chain and any two events, a world is reached in which a forward query
      on that chain returns the first of the two where the last is promised. */
  lemma ForwardQueryGivesFirst(w: World, i: nat, e1: ContractEvent, e2: ContractEvent)
    requires Reachable(w) && i < |w.chains| && e1 != e2
    ensures exists w', f :: Reachable(w') && i < |w'.chains| && MissesLast(w'.store, w'.chains[i], f)
  {
    ReachableInv(w);
    var block, vm := ChildWorld(w, i, e1, e2);
    ReachableNext(w, Apply(i, block, vm));
    assert Reachable(Next(w, Apply(i, block, vm)));
  }

  /** A forward query on the chain does not return the last events. */
  ghost predicate MissesLast(store: Store, c: Chain, f: Filter) {
    && !f.reverse && HaveEvents(store, c.blockAccumulator)
    && FilteredEvents(store, f, c.blockAccumulator) != LastOf(f, AllEvents(store, f, c.blockAccumulator))
  }

  lemma ChildWorld(w: World, i: nat, e1: ContractEvent, e2: ContractEvent) returns (block: Block, vm: VmResult)
    requires Inv(w) && i < |w.chains| && e1 != e2
    ensures Legal(w, Apply(i, block, vm))
    ensures var w' := Next(w, Apply(i, block, vm));
      && i < |w'.chains|
      && MissesLast(w'.store, w'.chains[i], Filter(block.header.number, block.header.number, [], Some(1), false))
  {
    ChildIsAccepted(w, i, [e1, e2], 0);
    block, vm := Child(w.chains[i], [e1, e2], 0), Ok([ChildOutput(w.chains[i], [e1, e2])]);
    ApplyIsApplied(w, i, block, vm);
    ChildQuery(w.store, w.chains[i], e1, e2);
  }

  lemma ChildQuery(s: Store, c: Chain, e1: ContractEvent, e2: ContractEvent)
    requires StoreInv(s) && ChainInv(s, c) && c.stateRoot.OfState? && e1 != e2
    requires var block, vm := Child(c, [e1, e2], 0), Ok([ChildOutput(c, [e1, e2])]);
      VerifyBlock(s, c, block) && Execute(s, c, block, vm).Ok? && VmKeepsEpochLaw(s, c, block, vm)
    ensures var block, vm := Child(c, [e1, e2], 0), Ok([ChildOutput(c, [e1, e2])]);
      var (s', info) := Execute(s, c, block, vm).value;
      MissesLast(s', Connect(s', c, block, info).0, Filter(block.header.number, block.header.number, [], Some(1), false))
  {
    var block, vm := Child(c, [e1, e2], 0), Ok([ChildOutput(c, [e1, e2])]);
    var (s', info) := Execute(s, c, block, vm).value;
    var c' := Connect(s', c, block, info).0;
    ApplyKeeps(s, c, block, vm);
    ChildIsSaved(s, c, [e1, e2], 0);
    HeadQuery(s', c', e1, e2);
  }

  /** A query for one event of the head, which emitted two. */
  lemma HeadQuery(s: Store, c: Chain, e1: ContractEvent, e2: ContractEvent)
    requires StoreInv(s) && AtHead(s, c) && e1 != e2
    requires c.head.Id() in s.txnInfoIds && |s.txnInfoIds[c.head.Id()]| == 1
    requires var x := s.txnInfoIds[c.head.Id()][0];
      x in s.events && s.events[x] == [e1, e2] && x in s.txnInfos
    ensures MissesLast(s, c, Filter(c.head.header.number, c.head.header.number, [], Some(1), false))
  {
    var n, x := c.head.header.number, s.txnInfoIds[c.head.Id()][0];
    BlockChains.ChainHasEvents(s, c);
    AccumulatorIsLineage(s, c);
    LineageShape(c.head.Id());
    assert s.txnInfoIds[c.head.Id()] == [x];
    ForwardGivesFirst(s, Filter(n, n, [], Some(1), false), c.blockAccumulator, n, x, e1, e2);
  }
}
