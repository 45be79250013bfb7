/** Whole runs of a node: any number of chains over one store, growing from one genesis block
    by applying, executing, connecting, forking and reopening in any order. */
module ChainRuns {
  import opened Basics
  import opened ChainTypes
  import opened Executor
  import opened Chain
  import opened ChainInvariants
  import opened ChainSteps

  datatype World = World(store: Store, chains: seq<Chain>)

  datatype Action =
    | Apply(i: nat, block: Block, vm: VmResult)        // verify, execute, connect
    | ExecuteOnly(i: nat, block: Block, vm: VmResult)  // verify and execute, not connected
    | UpdateHead(i: nat, id: HashValue)                // connect a block executed earlier
    | ForkAt(i: nat, id: HashValue)                    // a new chain at a block of chain i
    | Open(id: HashValue)                              // a new chain at any executed block

  /** Block `block` passes verification on chain `i` and executes and checks out. */
  predicate Accepts(w: World, i: nat, block: Block, vm: VmResult) {
    i < |w.chains| && VerifyBlock(w.store, w.chains[i], block) && Execute(w.store, w.chains[i], block, vm).Ok?
  }

  function AfterExecute(w: World, i: nat, block: Block, vm: VmResult): World {
    if Accepts(w, i, block, vm) then w.(store := Execute(w.store, w.chains[i], block, vm).value.0) else w
  }

  function AfterConnect(w: World, i: nat, id: HashValue): World {
    if i < |w.chains| && id in w.store.blocks && id in w.store.infos
    then w.(chains := w.chains[i := Connect(w.store, w.chains[i], w.store.blocks[id], w.store.infos[id]).0])
    else w
  }

  function Adds(w: World, r: Outcome<Chain>): World {
    if r.Ok? then w.(chains := w.chains + [r.value]) else w
  }

  function Next(w: World, a: Action): World {
    match a
    case Apply(i, block, vm) => if Accepts(w, i, block, vm) then AfterConnect(AfterExecute(w, i, block, vm), i, block.Id()) else w
    case ExecuteOnly(i, block, vm) => AfterExecute(w, i, block, vm)
    case UpdateHead(i, id) => AfterConnect(w, i, id)
    case ForkAt(i, id) => if i < |w.chains| then Adds(w, Fork(w.store, w.chains[i], id)) else w
    case Open(id) => Adds(w, New(w.store, id))
  }

  ghost predicate EpochMoves(w: World, i: nat, block: Block, vm: VmResult) {
    Accepts(w, i, block, vm) ==> EpochLaw(w.chains[i].epoch, block.header.number, EpochAt(block.Id()))
  }

  /** What the surroundings guarantee: the virtual machine moves the on-chain epoch by the epoch
      law, and only a child of the head is connected. */
  ghost predicate Legal(w: World, a: Action) {
    match a
    case Apply(i, block, vm) => EpochMoves(w, i, block, vm)
    case ExecuteOnly(i, block, vm) => EpochMoves(w, i, block, vm)
    case UpdateHead(i, id) => i < |w.chains| && id.OfHeader? ==> id.header.parentHash == w.chains[i].head.Id()
    case ForkAt(_, _) => true
    case Open(_) => true
  }

  ghost predicate LegalRun(w: World, run: seq<Action>)
    decreases |run|
  {
    run == [] || (Legal(w, run[0]) && LegalRun(Next(w, run[0]), run[1..]))
  }

  ghost function After(w: World, run: seq<Action>): World
    decreases |run|
  {
    if run == [] then w else After(Next(w, run[0]), run[1..])
  }

  const EMPTY_STORE := Store(None, map[], map[], map[], map[], map[], map[], map[], map[])

  ghost predicate GenesisBlock(block: Block) {
    && block.header.number == 0 && !block.header.parentHash.OfHeader? && block.body.uncles.None?
    && block.header.bodyHash == OfBody(block.body)
    && EpochAt(block.Id()).Some? && EpochAt(block.Id()).value.start == 0 < EpochAt(block.Id()).value.end
  }

  /** The genesis block executed on the empty state and saved in a fresh store. */
  function ExecuteGenesis(genesis: Block, vm: VmResult): Outcome<(Store, BlockInfo)> {
    ExecuteBlockAndSave(EMPTY_STORE.(genesis := Some(genesis.Id())), map[], [], [], NoParent, genesis, vm)
  }

  /** A fresh store with the genesis block, and a chain opened on it. */
  function Begin(genesis: Block, vm: VmResult): Outcome<World> {
    var r := ExecuteGenesis(genesis, vm);
    if r.Err? then Err(r.error)
    else
      var c := New(r.value.0, genesis.Id());
      if c.Err? then Err(c.error) else Ok(World(r.value.0, [c.value]))
  }

  ghost predicate Reachable(w: World) {
    exists genesis, vm, run ::
      && GenesisBlock(genesis) && Begin(genesis, vm).Ok?
      && LegalRun(Begin(genesis, vm).value, run) && w == After(Begin(genesis, vm).value, run)
  }

  ghost predicate Inv(w: World) {
    StoreInv(w.store) && forall i :: 0 <= i < |w.chains| ==> ChainInv(w.store, w.chains[i])
  }

  // ---------- every run keeps the invariant ----------

  lemma GenesisStoreInv(genesis: Block, vm: VmResult)
    requires GenesisBlock(genesis)
    requires ExecuteGenesis(genesis, vm).Ok?
    ensures var store := ExecuteGenesis(genesis, vm).value.0;
      && StoreInv(store) && genesis.Id() in store.infos
      && genesis.Id() in store.blocks && store.blocks[genesis.Id()] == genesis
  {
    var store0 := EMPTY_STORE.(genesis := Some(genesis.Id()));
    var (store, info) := ExecuteBlockAndSave(store0, map[], [], [], NoParent, genesis, vm).value;
    var txns := BlockTransactions(genesis, None);
    var data := Executed(map[], txns, vm).value;
    SaveExtends(store0, map[], [], [], NoParent, genesis, vm);
    SaveCommits(store0, genesis, info, txns, data);
    GenesisBlockInv(store, genesis, info);
  }

  lemma GenesisBlockInv(store: Store, genesis: Block, info: BlockInfo)
    requires GenesisBlock(genesis) && store.genesis == Some(genesis.Id()) && Committed(store, genesis.Id())
    requires genesis.Id() in store.infos && store.infos[genesis.Id()] == info
    requires info == BlockInfo(genesis.Id(), genesis.header.difficulty, [] + store.txnInfoIds[genesis.Id()], [] + [genesis.Id()])
    requires genesis.header.txnAccumulatorRoot == OfLeaves(info.txnAccumulator)
    ensures BlockInv(store, genesis.Id())
  {
    var id := genesis.Id();
    LineageShape(id);
    assert Lineage(id) == [] + [id];
    TotalsOfAppend(store.txnInfoIds, [], id);
  }

  lemma ExecutesKeeps(w: World, i: nat, block: Block, vm: VmResult)
    requires Inv(w) && EpochMoves(w, i, block, vm)
    ensures Inv(AfterExecute(w, i, block, vm))
  {
    if Accepts(w, i, block, vm) {
      ExecuteKeeps(w.store, w.chains[i], block, vm);
      var store' := Execute(w.store, w.chains[i], block, vm).value.0;
      forall k | 0 <= k < |w.chains| ensures ChainInv(store', w.chains[k]) {
        ChainInvFrame(w.store, store', w.chains[k]);
      }
    }
  }

  lemma ConnectsKeeps(w: World, i: nat, id: HashValue)
    requires Inv(w)
    requires i < |w.chains| && id.OfHeader? ==> id.header.parentHash == w.chains[i].head.Id()
    ensures Inv(AfterConnect(w, i, id))
  {
    if i < |w.chains| && id in w.store.blocks && id in w.store.infos {
      ConnectKeeps(w.store, w.chains[i], w.store.blocks[id], w.store.infos[id]);
    }
  }

  lemma AppliesKeeps(w: World, i: nat, block: Block, vm: VmResult)
    requires Inv(w) && EpochMoves(w, i, block, vm)
    ensures Inv(Next(w, Apply(i, block, vm)))
  {
    if Accepts(w, i, block, vm) {
      ExecutesKeeps(w, i, block, vm);
      ConnectsKeeps(AfterExecute(w, i, block, vm), i, block.Id());
    }
  }

  lemma AddsKeeps(w: World, r: Outcome<Chain>)
    requires Inv(w) && (r.Ok? ==> ChainInv(w.store, r.value))
    ensures Inv(Adds(w, r))
  {
  }

  lemma ForksKeeps(w: World, i: nat, id: HashValue)
    requires Inv(w)
    ensures Inv(Next(w, ForkAt(i, id)))
  {
    if i < |w.chains| {
      ExistBlockIsOnLineage(w.store, w.chains[i], id);
      if Fork(w.store, w.chains[i], id).Ok? {
        ForkKeeps(w.store, w.chains[i], id);
      }
      AddsKeeps(w, Fork(w.store, w.chains[i], id));
    }
  }

  lemma OpensKeeps(w: World, id: HashValue)
    requires Inv(w)
    ensures Inv(Adds(w, New(w.store, id)))
  {
    if New(w.store, id).Ok? {
      OpenKeeps(w.store, w.store.blocks[id], None);
    }
    AddsKeeps(w, New(w.store, id));
  }

  lemma NextKeeps(w: World, a: Action)
    requires Inv(w) && Legal(w, a)
    ensures Inv(Next(w, a))
  {
    match a
    case Apply(i, block, vm) => AppliesKeeps(w, i, block, vm);
    case ExecuteOnly(i, block, vm) => ExecutesKeeps(w, i, block, vm);
    case UpdateHead(i, id) => ConnectsKeeps(w, i, id);
    case ForkAt(i, id) => ForksKeeps(w, i, id);
    case Open(id) => OpensKeeps(w, id);
  }

  lemma {:induction false} RunKeeps(w: World, run: seq<Action>)
    requires Inv(w) && LegalRun(w, run)
    ensures Inv(After(w, run))
    decreases |run|
  {
    if run != [] {
      NextKeeps(w, run[0]);
      RunKeeps(Next(w, run[0]), run[1..]);
    }
  }

  // ---------- nothing saved is lost ----------

  lemma ExtendsIsTransitive(a: Store, b: Store, c: Store)
    requires Extends(a, b) && Extends(b, c)
    ensures Extends(a, c)
  {
  }

  lemma StoreExtendsItself(s: Store)
    requires StoreInv(s)
    ensures Extends(s, s)
  {
    StoreHasInfoIds(s);
  }

  lemma NextExtends(w: World, a: Action)
    requires Inv(w) && Legal(w, a)
    ensures Extends(w.store, Next(w, a).store)
  {
    StoreExtendsItself(w.store);
    if a.Apply? || a.ExecuteOnly? {
      ExecuteExtends(w, a.i, a.block, a.vm);
    }
  }

  lemma ExecuteExtends(w: World, i: nat, block: Block, vm: VmResult)
    requires Inv(w) && EpochMoves(w, i, block, vm)
    ensures Extends(w.store, AfterExecute(w, i, block, vm).store)
  {
    StoreExtendsItself(w.store);
    if Accepts(w, i, block, vm) {
      ExecuteKeeps(w.store, w.chains[i], block, vm);
    }
  }

  /** Along every run the store only grows: headers, blocks, block infos, transaction info ids and
      events, once saved, stay as they are. */
  lemma {:induction false} RunExtends(w: World, run: seq<Action>)
    requires Inv(w) && LegalRun(w, run)
    ensures Extends(w.store, After(w, run).store)
    decreases |run|
  {
    StoreExtendsItself(w.store);
    if run != [] {
      NextKeeps(w, run[0]);
      NextExtends(w, run[0]);
      RunExtends(Next(w, run[0]), run[1..]);
      ExtendsIsTransitive(w.store, Next(w, run[0]).store, After(w, run).store);
    }
  }

  // ---------- from genesis ----------

  lemma BeginKeeps(genesis: Block, vm: VmResult)
    requires GenesisBlock(genesis) && Begin(genesis, vm).Ok?
    ensures Inv(Begin(genesis, vm).value)
  {
    GenesisStoreInv(genesis, vm);
    var store := Begin(genesis, vm).value.store;
    OpenKeeps(store, genesis, None);
  }

  lemma ReachableInv(w: World)
    requires Reachable(w)
    ensures Inv(w)
  {
    var genesis, vm, run :|
      && GenesisBlock(genesis) && Begin(genesis, vm).Ok?
      && LegalRun(Begin(genesis, vm).value, run) && w == After(Begin(genesis, vm).value, run);
    BeginKeeps(genesis, vm);
    RunKeeps(Begin(genesis, vm).value, run);
  }

  lemma {:induction false} OneMore(w: World, run: seq<Action>, a: Action)
    requires LegalRun(w, run) && Legal(After(w, run), a)
    ensures LegalRun(w, run + [a]) && After(w, run + [a]) == Next(After(w, run), a)
    decreases |run|
  {
    var all := run + [a];
    if run == [] {
      assert all[1..] == [];
    } else {
      assert all[1..] == run[1..] + [a];
      OneMore(Next(w, run[0]), run[1..], a);
    }
  }

  /** Legal actions lead from reachable worlds to reachable worlds. */
  lemma ReachableNext(w: World, a: Action)
    requires Reachable(w) && Legal(w, a)
    ensures Reachable(Next(w, a))
  {
    var genesis, vm, run :|
      && GenesisBlock(genesis) && Begin(genesis, vm).Ok?
      && LegalRun(Begin(genesis, vm).value, run) && w == After(Begin(genesis, vm).value, run);
    ReachableBy(genesis, vm, run, a);
  }

  lemma ReachableBy(genesis: Block, vm: VmResult, run: seq<Action>, a: Action)
    requires GenesisBlock(genesis) && Begin(genesis, vm).Ok? && LegalRun(Begin(genesis, vm).value, run)
    requires Legal(After(Begin(genesis, vm).value, run), a)
    ensures Reachable(Next(After(Begin(genesis, vm).value, run), a))
  {
    OneMore(Begin(genesis, vm).value, run, a);
  }
}
