/** What every block of a store and every chain over it satisfies. Ancestry, minted uncles and
    difficulty are defined from the headers alone, by following parent hashes, so they say what
    the accumulators and caches should hold without mentioning them. */
module ChainInvariants {
  import opened Basics
  import opened ChainTypes
  import opened Chain

  // ---------- reference definitions ----------

  /** The ids from genesis to `id`, following parent hashes. */
  ghost function Lineage(id: HashValue): seq<HashValue> {
    if id.OfHeader? then Lineage(id.header.parentHash) + [id] else []
  }

  /** Heights count up by one from a genesis at height 0 to `id`. */
  ghost predicate Rooted(id: HashValue) {
    && id.OfHeader?
    && if id.header.number == 0 then !id.header.parentHash.OfHeader?
       else Rooted(id.header.parentHash) && id.header.parentHash.header.number + 1 == id.header.number
  }

  ghost function TotalDifficulty(path: seq<HashValue>): nat {
    if path == [] then 0
    else
      var last := path[|path| - 1];
      TotalDifficulty(path[..|path| - 1]) + if last.OfHeader? then last.header.difficulty else 0
  }

  /** The transaction info ids of the blocks of `path`, concatenated in order. */
  ghost function TxnHistory(ids: map<HashValue, seq<HashValue>>, path: seq<HashValue>): seq<HashValue> {
    if path == [] then []
    else
      var last := path[|path| - 1];
      TxnHistory(ids, path[..|path| - 1]) + if last in ids then ids[last] else []
  }

  ghost function EpochAt(id: HashValue): Option<Epoch> {
    if id.OfHeader? then EpochUnder(id.header.stateRoot) else None
  }

  ghost function MintedAt(id: HashValue): seq<HashValue> {
    if id.OfHeader? && id.header.bodyHash.OfBody? then UncleIds(id.header.bodyHash.body) else []
  }

  /** The uncles minted on the lineage of `id` from height `start` on, each with the height
      that last minted it. */
  ghost function Minted(id: HashValue, start: nat): map<HashValue, nat> {
    if !id.OfHeader? || id.header.number < start then map[]
    else InsertAll(Minted(id.header.parentHash, start), MintedAt(id), id.header.number)
  }

  /** How executing block `number` may change the on-chain epoch: not at all inside the epoch,
      and at its end to one that starts right there. */
  ghost predicate EpochLaw(pre: Epoch, number: nat, post: Option<Epoch>) {
    && post.Some?
    && (number < pre.end ==> post.value == pre)
    && (number == pre.end ==> post.value.start == number < post.value.end)
  }

  // ---------- invariants ----------

  ghost predicate Committed(store: Store, id: HashValue) {
    && id.OfHeader? && id in store.headers && id in store.blocks && id in store.txnInfoIds
    && store.blocks[id].header == id.header
    && id.header.bodyHash == OfBody(store.blocks[id].body)
    && (forall x :: x in store.txnInfoIds[id] ==> x in store.txnInfos && x in store.events)
  }

  ghost predicate Accumulated(store: Store, id: HashValue)
    requires id in store.infos && id.OfHeader?
  {
    && store.infos[id] ==
       BlockInfo(id, TotalDifficulty(Lineage(id)), TxnHistory(store.txnInfoIds, Lineage(id)), Lineage(id))
    && id.header.txnAccumulatorRoot == OfLeaves(store.infos[id].txnAccumulator)
  }

  ghost predicate InEpoch(id: HashValue) {
    && id.OfHeader? && EpochAt(id).Some?
    && EpochAt(id).value.start <= id.header.number < EpochAt(id).value.end
  }

  /** Along the lineage of `id` the epoch law holds and no uncle of an epoch is minted twice. */
  ghost predicate Lawful(id: HashValue) {
    && InEpoch(id)
    && (id.header.number > 0 ==>
          var p := id.header.parentHash;
          && Lawful(p) && id.header.number <= EpochAt(p).value.end
          && EpochLaw(EpochAt(p).value, id.header.number, EpochAt(id))
          && MintsFresh(id))
  }

  ghost predicate MintsFresh(id: HashValue)
    requires InEpoch(id)
  {
    var start := EpochAt(id).value.start;
    start < id.header.number ==> forall u :: u in MintedAt(id) ==> u !in Minted(id.header.parentHash, start)
  }

  ghost function UncleHeaders(id: HashValue): seq<BlockHeader> {
    if id.OfHeader? && id.header.bodyHash.OfBody? && id.header.bodyHash.body.uncles.Some?
    then id.header.bodyHash.body.uncles.value else []
  }

  /** Header `u` extends its parent: one higher, later, and committing to the parent's lineage. */
  ghost predicate ExtendsParent(u: BlockHeader) {
    && u.parentHash.OfHeader? && u.number == u.parentHash.header.number + 1
    && u.timestamp > u.parentHash.header.timestamp && u.blockAccumulatorRoot == OfLeaves(Lineage(u.parentHash))
  }

  /** Uncle `u` of block `id` is lower, of the same epoch, a verified child of an ancestor and not one
      itself. */
  ghost predicate UncleFits(id: HashValue, u: BlockHeader) {
    && InEpoch(id) && EpochAt(id).value.start <= u.number < id.header.number
    && u.parentHash in Lineage(id.header.parentHash) && OfHeader(u) !in Lineage(id)
    && ExtendsParent(u)
  }

  ghost predicate UnclesFit(id: HashValue) {
    var us := UncleHeaders(id);
    && (forall i, j :: 0 <= i < j < |us| ==> us[i] != us[j])
    && (forall i :: 0 <= i < |us| ==> UncleFits(id, us[i]))
    && (InEpoch(id) && id.header.number == EpochAt(id).value.start ==> us == [])
    && (us != [] && InEpoch(id) ==> |us| <= EpochAt(id).value.maxUncles)
  }

  /** Every block of the lineage of `id` is later than its parent, commits to the blocks before it, and
      its uncles fit. */
  ghost predicate Vouched(id: HashValue) {
    && id.OfHeader?
    && if id.header.number == 0 then UncleHeaders(id) == []
       else
         && Vouched(id.header.parentHash) && id.header.parentHash.header.timestamp < id.header.timestamp
         && id.header.blockAccumulatorRoot == OfLeaves(Lineage(id.header.parentHash))
         && UnclesFit(id)
  }

  ghost predicate BlockInv(store: Store, id: HashValue)
    requires id in store.infos
  {
    && Rooted(id) && Lawful(id) && Vouched(id)
    && Committed(store, id)
    && Accumulated(store, id)
    && if id.header.number == 0 then store.genesis == Some(id) else id.header.parentHash in store.infos
  }

  ghost predicate KeysHash(store: Store) {
    && (forall id :: id in store.headers ==> OfHeader(store.headers[id]) == id)
    && (forall id :: id in store.blocks ==> store.blocks[id].Id() == id)
    && (forall id :: id in store.blocks ==> store.blocks[id].header.bodyHash == OfBody(store.blocks[id].body))
    && (forall x :: x in store.txnInfos ==> OfInfo(store.txnInfos[x].txnInfo) == x)
    && (forall x :: x in store.events ==> x.OfInfo? && x.info.eventRoot == OfEvents(store.events[x]))
  }

  ghost predicate StoreInv(store: Store) {
    && store.genesis.Some?
    && KeysHash(store)
    && forall id {:trigger BlockInv(store, id)} :: id in store.infos ==> BlockInv(store, id)
  }

  /** Everything about a chain but its uncle cache is determined by its head. */
  ghost predicate AtHead(store: Store, c: Chain) {
    var id := c.head.Id();
    && id in store.infos && id in store.blocks && store.blocks[id] == c.head
    && c.info == store.infos[id]
    && c.txnAccumulator == c.info.txnAccumulator && c.blockAccumulator == c.info.blockAccumulator
    && c.stateRoot == c.head.header.stateRoot
    && EpochUnder(c.stateRoot) == Some(c.epoch)
    && store.genesis == Some(c.genesis)
  }

  ghost predicate ChainInv(store: Store, c: Chain) {
    AtHead(store, c) && c.uncles == Minted(c.head.Id(), c.epoch.start)
  }

  /** `s'` holds all of `s`; only the block named by a transaction info may have changed. */
  ghost predicate Extends(s: Store, s': Store) {
    && s'.genesis == s.genesis
    && (forall id :: id in s.headers ==> id in s'.headers && s'.headers[id] == s.headers[id])
    && (forall id :: id in s.blocks ==> id in s'.blocks && s'.blocks[id] == s.blocks[id])
    && (forall id :: id in s.infos ==> id in s'.infos && s'.infos[id] == s.infos[id])
    && (forall id :: id in s.infos ==> id in s'.txnInfoIds && id in s.txnInfoIds && s'.txnInfoIds[id] == s.txnInfoIds[id])
    && (forall x :: x in s.txnInfos ==> x in s'.txnInfos)
    && (forall x :: x in s.events ==> x in s'.events && s'.events[x] == s.events[x])
  }

  // ---------- ancestors ----------

  lemma {:induction false} LineageShape(id: HashValue)
    requires Rooted(id)
    ensures |Lineage(id)| == id.header.number + 1
    ensures Lineage(id)[id.header.number] == id
    ensures id.header.number > 0 ==> Lineage(id) == Lineage(id.header.parentHash) + [id]
  {
    if id.header.number > 0 {
      LineageShape(id.header.parentHash);
    }
  }

  /** Leaf `k` of a lineage is the ancestor at height `k`, and its own lineage is the prefix. */
  lemma {:induction false} LineageAt(id: HashValue, k: nat)
    requires Rooted(id) && k <= id.header.number
    ensures |Lineage(id)| == id.header.number + 1
    ensures Rooted(Lineage(id)[k]) && Lineage(id)[k].header.number == k
    ensures Lineage(Lineage(id)[k]) == Lineage(id)[..k + 1]
    ensures k > 0 ==> Lineage(id)[k].header.parentHash == Lineage(id)[k - 1]
  {
    LineageShape(id);
    if k < id.header.number {
      var p := id.header.parentHash;
      LineageAt(p, k);
      assert Lineage(id)[..k + 1] == Lineage(p)[..k + 1];
    } else {
      assert Lineage(id)[..k + 1] == Lineage(id);
      if k > 0 {
        LineageShape(id.header.parentHash);
      }
    }
  }

  /** Every ancestor of a stored block is stored. */
  lemma {:induction false} Ancestor(store: Store, id: HashValue, k: nat)
    requires StoreInv(store) && id in store.infos && BlockInv(store, id)
    requires k <= id.header.number
    ensures |Lineage(id)| == id.header.number + 1
    ensures Lineage(id)[k] in store.infos && BlockInv(store, Lineage(id)[k])
    decreases id
  {
    LineageShape(id);
    if k < id.header.number {
      var p := id.header.parentHash;
      assert BlockInv(store, p);
      Ancestor(store, p, k);
      assert Lineage(id)[k] == Lineage(p)[k];
    }
  }

  lemma {:induction false} EpochOfAncestor(id: HashValue, k: nat)
    requires Rooted(id) && Lawful(id)
    requires EpochAt(id).value.start <= k <= id.header.number
    ensures |Lineage(id)| == id.header.number + 1
    ensures EpochAt(Lineage(id)[k]) == EpochAt(id)
  {
    LineageShape(id);
    if k < id.header.number {
      EpochOfAncestor(id.header.parentHash, k);
    }
  }

  /** Two lineages that agree at a height agree below it. */
  lemma LineagesMerge(a: HashValue, b: HashValue, k: nat)
    requires Rooted(a) && Rooted(b) && k <= a.header.number && k <= b.header.number
    requires k < |Lineage(a)| && k < |Lineage(b)| && Lineage(a)[k] == Lineage(b)[k]
    ensures Lineage(a)[..k + 1] == Lineage(b)[..k + 1]
  {
    LineageAt(a, k);
    LineageAt(b, k);
  }

  // ---------- the uncle cache ----------

  lemma MintedStep(id: HashValue, n: nat, start: nat)
    requires Rooted(id) && start <= n <= id.header.number
    requires |Lineage(id)| == id.header.number + 1
    ensures Lineage(id)[n].OfHeader?
    ensures Minted(Lineage(id)[n], start) ==
            InsertAll(if n == start then map[] else Minted(Lineage(id)[n - 1], start), MintedAt(Lineage(id)[n]), n)
  {
    LineageAt(id, n);
    var a := Lineage(id)[n];
    assert Rooted(a);
    assert Minted(a, start) == InsertAll(Minted(a.header.parentHash, start), MintedAt(a), n);
  }

  lemma AccumulatorIsLineage(store: Store, c: Chain)
    requires StoreInv(store) && AtHead(store, c)
    ensures Rooted(c.head.Id()) && c.blockAccumulator == Lineage(c.head.Id())
    ensures |c.blockAccumulator| == c.head.header.number + 1
    ensures c.epoch.start <= c.head.header.number < c.epoch.end
  {
    assert BlockInv(store, c.head.Id());
    LineageShape(c.head.Id());
  }

  /** On a chain at its head, looking up height `n` finds the ancestor there. */
  lemma BlockByNumber(store: Store, c: Chain, n: nat)
    requires StoreInv(store) && AtHead(store, c)
    requires n < |c.blockAccumulator|
    ensures c.blockAccumulator[n] in store.infos && Committed(store, c.blockAccumulator[n])
    ensures c.blockAccumulator[n].header.number == n
    ensures UncleIds(store.blocks[c.blockAccumulator[n]].body) == MintedAt(c.blockAccumulator[n])
  {
    AccumulatorIsLineage(store, c);
    assert BlockInv(store, c.head.Id());
    Ancestor(store, c.head.Id(), n);
    LineageAt(c.head.Id(), n);
  }

  /** Recomputing from height `n` completes what was minted below `n`. */
  lemma {:induction false} EpochUnclesFromIsMinted(store: Store, c: Chain, n: nat, acc: map<HashValue, nat>)
    requires StoreInv(store) && AtHead(store, c)
    requires c.epoch.start <= n <= c.head.header.number
    requires |Lineage(c.head.Id())| == c.head.header.number + 1
    requires acc == if n == c.epoch.start then map[] else Minted(Lineage(c.head.Id())[n - 1], c.epoch.start)
    ensures EpochUnclesFrom(store, c, n, acc) == Ok(Minted(c.head.Id(), c.epoch.start))
    decreases c.head.header.number - n
  {
    var id := c.head.Id();
    AccumulatorIsLineage(store, c);
    BlockByNumber(store, c, n);
    MintedStep(id, n, c.epoch.start);
    if n < c.head.header.number {
      var a := Lineage(id)[n];
      EpochUnclesFromIsMinted(store, c, n + 1, Minted(a, c.epoch.start));
      assert EpochUnclesFrom(store, c, n, acc) ==
             EpochUnclesFrom(store, c, n + 1, InsertAll(acc, UncleIds(store.blocks[a].body), n));
    } else {
      LineageShape(id);
      assert UncleIds(c.head.body) == MintedAt(id);
    }
  }

  lemma EpochUnclesIsMinted(store: Store, c: Chain)
    requires StoreInv(store) && AtHead(store, c)
    ensures EpochUncles(store, c) == Ok(Minted(c.head.Id(), c.epoch.start))
  {
    assert BlockInv(store, c.head.Id());
    LineageShape(c.head.Id());
    EpochUnclesFromIsMinted(store, c, c.epoch.start, map[]);
  }

  /** The uncles minted above height `h` on the lineage of `id`. */
  ghost function MintedAbove(id: HashValue, h: nat): set<HashValue> {
    if !id.OfHeader? || id.header.number <= h then {}
    else MintedAbove(id.header.parentHash, h) + (set u | u in MintedAt(id))
  }

  lemma {:induction false} MintedSplit(id: HashValue, start: nat, h: nat)
    requires Rooted(id) && start <= h <= id.header.number
    requires |Lineage(id)| == id.header.number + 1
    ensures forall u :: u in Minted(id, start) <==> u in Minted(Lineage(id)[h], start) || u in MintedAbove(id, h)
    ensures forall u :: u in MintedAbove(id, h) ==> Minted(id, start)[u] > h
    ensures forall u :: u in Minted(Lineage(id)[h], start) && u !in MintedAbove(id, h) ==>
      Minted(id, start)[u] == Minted(Lineage(id)[h], start)[u]
    decreases id
  {
    LineageShape(id);
    if h < id.header.number {
      var p := id.header.parentHash;
      LineageShape(p);
      assert Lineage(id)[h] == Lineage(p)[h];
      MintedSplit(p, start, h);
    }
  }

  lemma {:induction false} MintedHeights(id: HashValue, start: nat)
    requires Rooted(id)
    ensures forall u :: u in Minted(id, start) ==> start <= Minted(id, start)[u] <= id.header.number
  {
    if id.header.number > 0 {
      MintedHeights(id.header.parentHash, start);
    }
  }

  /** Keeping the cached uncles up to height `h` gives the uncles minted up to `h` if and only
      if none of those was minted again above `h`. */
  lemma UpToIsExact(id: HashValue, start: nat, h: nat)
    requires Rooted(id) && start <= h <= id.header.number
    requires |Lineage(id)| == id.header.number + 1
    ensures UpTo(Minted(id, start), h) == Minted(Lineage(id)[h], start)
       <==> Minted(Lineage(id)[h], start).Keys !! MintedAbove(id, h)
  {
    var all, below := Minted(id, start), Minted(Lineage(id)[h], start);
    MintedSplit(id, start, h);
    LineageAt(id, h);
    MintedHeights(Lineage(id)[h], start);
    if below.Keys !! MintedAbove(id, h) {
      assert forall u :: u in UpTo(all, h) <==> u in below;
      assert UpTo(all, h) == below;
    } else {
      var u :| u in below && u in MintedAbove(id, h);
      assert u !in UpTo(all, h);
    }
  }

  /** A lawful lineage never mints an uncle of its epoch twice. */
  lemma {:induction false} NoUncleTwice(id: HashValue, h: nat)
    requires Rooted(id) && Lawful(id)
    requires EpochAt(id).value.start <= h <= id.header.number
    requires |Lineage(id)| == id.header.number + 1
    ensures Minted(Lineage(id)[h], EpochAt(id).value.start).Keys !! MintedAbove(id, h)
  {
    LineageShape(id);
    if h < id.header.number {
      var p := id.header.parentHash;
      LineageShape(p);
      NoUncleTwice(p, h);
      MintedSplit(p, EpochAt(id).value.start, h);
    }
  }
}
