/** What `filter_events` should return (chain/src/chain.rs, types/src/filter.rs): all matching
    events in block, transaction and event order, possibly reversed, cut off at the limit. */
module EventQuery {
  import opened Basics
  import opened ChainTypes

  datatype Filter = Filter(from: nat, to: nat, keys: seq<nat>, limit: Option<nat>, reverse: bool)

  datatype EventInfo = EventInfo(
    blockHash: HashValue, blockNumber: nat, transactionHash: HashValue, transactionIndex: nat, event: ContractEvent)

  predicate Matching(f: Filter, number: nat, e: ContractEvent) {
    f.from <= number <= f.to && (f.keys == [] || e.key in f.keys)
  }

  // ---------- sequences ----------

  function Flat<T>(chunks: seq<seq<T>>): seq<T> {
    if chunks == [] then [] else Flat(chunks[..|chunks| - 1]) + chunks[|chunks| - 1]
  }

  lemma {:induction false} FlatConcat<T>(a: seq<seq<T>>, b: seq<seq<T>>)
    ensures Flat(a + b) == Flat(a) + Flat(b)
  {
    if b == [] {
      assert a + b == a;
    } else {
      assert (a + b)[..|a + b| - 1] == a + b[..|b| - 1];
      FlatConcat(a, b[..|b| - 1]);
      Associative(Flat(a), Flat(b[..|b| - 1]), b[|b| - 1]);
    }
  }

  lemma FlatOne<T>(c: seq<T>)
    ensures Flat([c]) == c
  {
    assert Flat([c]) == Flat([c][..0]) + c;
  }

  lemma Associative<T>(a: seq<T>, b: seq<T>, c: seq<T>)
    ensures (a + b) + c == a + (b + c)
  {
  }

  function Directed<T>(f: Filter, s: seq<T>): seq<T> {
    if f.reverse then Reversed(s) else s
  }

  function Limited<T>(f: Filter, s: seq<T>): seq<T> {
    if f.limit.Some? && f.limit.value < |s| then s[..f.limit.value] else s
  }

  // ---------- the specification ----------

  function Matches(f: Filter, number: nat, events: seq<ContractEvent>): (r: seq<ContractEvent>) {
    if events == [] then []
    else
      var last := events[|events| - 1];
      Matches(f, number, events[..|events| - 1]) + if Matching(f, number, last) then [last] else []
  }

  /** The matching events of transaction `i` of a block, in the order they were emitted. */
  function TxnEvents(store: Store, f: Filter, id: HashValue, number: nat, i: nat): (r: seq<EventInfo>)
    requires id in store.txnInfoIds && i < |store.txnInfoIds[id]|
    requires store.txnInfoIds[id][i] in store.events && store.txnInfoIds[id][i] in store.txnInfos
  {
    var x := store.txnInfoIds[id][i];
    var ms := Matches(f, number, store.events[x]);
    seq(|ms|, k requires 0 <= k < |ms| =>
      EventInfo(id, number, store.txnInfos[x].txnInfo.transactionHash, i, ms[k]))
  }

  ghost predicate HasEvents(store: Store, id: HashValue) {
    id in store.txnInfoIds && forall x :: x in store.txnInfoIds[id] ==> x in store.events && x in store.txnInfos
  }

  ghost predicate HaveEvents(store: Store, leaves: seq<HashValue>) {
    forall n :: 0 <= n < |leaves| ==> HasEvents(store, leaves[n])
  }

  /** The matching events of the first `n` transactions of a block, one chunk each. */
  ghost function FirstChunks(store: Store, f: Filter, id: HashValue, number: nat, n: nat): (r: seq<seq<EventInfo>>)
    requires HasEvents(store, id) && n <= |store.txnInfoIds[id]|
    ensures |r| == n
  {
    if n == 0 then [] else FirstChunks(store, f, id, number, n - 1) + [TxnEvents(store, f, id, number, n - 1)]
  }

  ghost function TxnChunks(store: Store, f: Filter, id: HashValue, number: nat): seq<seq<EventInfo>>
    requires HasEvents(store, id)
  {
    FirstChunks(store, f, id, number, |store.txnInfoIds[id]|)
  }

  lemma {:induction false} ChunkAt(store: Store, f: Filter, id: HashValue, number: nat, n: nat, i: nat)
    requires HasEvents(store, id) && i < n <= |store.txnInfoIds[id]|
    ensures FirstChunks(store, f, id, number, n)[i] == TxnEvents(store, f, id, number, i)
  {
    if i < n - 1 {
      ChunkAt(store, f, id, number, n - 1, i);
    }
  }

  ghost function BlockEvents(store: Store, f: Filter, id: HashValue, number: nat): seq<EventInfo>
    requires HasEvents(store, id)
  {
    Flat(TxnChunks(store, f, id, number))
  }

  /** The matching events of the blocks at heights `lo` up to but excluding `hi`. */
  ghost function HeightChunks(store: Store, f: Filter, leaves: seq<HashValue>, lo: nat, hi: nat): (r: seq<seq<EventInfo>>)
    requires lo <= hi <= |leaves| && HaveEvents(store, leaves)
    ensures |r| == hi - lo
    ensures forall n :: lo <= n < hi ==> r[n - lo] == BlockEvents(store, f, leaves[n], n)
  {
    seq(hi - lo, n requires 0 <= n < hi - lo => BlockEvents(store, f, leaves[lo + n], lo + n))
  }

  /** All matching events of a chain with the given leaves. */
  ghost function AllEvents(store: Store, f: Filter, leaves: seq<HashValue>): seq<EventInfo>
    requires HaveEvents(store, leaves)
  {
    var hi := Min(f.to + 1, |leaves|);
    if f.from < hi then Flat(HeightChunks(store, f, leaves, f.from, hi)) else []
  }

  ghost function FilteredEvents(store: Store, f: Filter, leaves: seq<HashValue>): seq<EventInfo>
    requires HaveEvents(store, leaves)
  {
    Limited(f, Directed(f, AllEvents(store, f, leaves)))
  }

  // ---------- what the specification says about single events ----------

  lemma {:induction false} MatchesKeepsExactly(f: Filter, number: nat, events: seq<ContractEvent>, e: ContractEvent)
    ensures e in Matches(f, number, events) <==> e in events && Matching(f, number, e)
  {
    if events != [] {
      MatchesKeepsExactly(f, number, events[..|events| - 1], e);
    }
  }

  /** Which of the events match. */
  function MatchMarks(f: Filter, number: nat, events: seq<ContractEvent>): (keep: seq<bool>)
    ensures |keep| == |events| && forall i :: 0 <= i < |keep| ==> keep[i] == Matching(f, number, events[i])
  {
    seq(|events|, i requires 0 <= i < |events| => Matching(f, number, events[i]))
  }

  /** Filtering picks the events at all matching positions, each once and in order. */
  lemma {:induction false} MatchesArePicked(f: Filter, number: nat, events: seq<ContractEvent>)
    ensures Matches(f, number, events) == Picked(events, Chosen(MatchMarks(f, number, events)))
  {
    if events != [] {
      var n, keep := |events| - 1, MatchMarks(f, number, events);
      MatchesArePicked(f, number, events[..n]);
      assert keep[..n] == MatchMarks(f, number, events[..n]);
      PickedStep(events, keep);
    }
  }

  lemma {:induction false} FlatHas<T>(chunks: seq<seq<T>>, x: T)
    ensures x in Flat(chunks) <==> exists i :: 0 <= i < |chunks| && x in chunks[i]
  {
    if chunks != [] {
      var init, last := chunks[..|chunks| - 1], chunks[|chunks| - 1];
      FlatHas(init, x);
      if x in Flat(init) {
        var i :| 0 <= i < |init| && x in init[i];
        assert x in chunks[i];
      }
      if i :| 0 <= i < |chunks| && x in chunks[i] {
        assert i < |init| ==> x in init[i];
      }
    }
  }

  /** `x` reports an event that transaction `x.transactionIndex` of the block at height
      `x.blockNumber` emitted and that matches. */
  ghost predicate Emitted(store: Store, f: Filter, leaves: seq<HashValue>, x: EventInfo) {
    var n, i := x.blockNumber, x.transactionIndex;
    && n < |leaves| && HasEvents(store, leaves[n]) && i < |store.txnInfoIds[leaves[n]]|
    && f.from <= n <= f.to && (f.keys == [] || x.event.key in f.keys)
    && x.blockHash == leaves[n]
    && x.transactionHash == store.txnInfos[store.txnInfoIds[leaves[n]][i]].txnInfo.transactionHash
    && x.event in store.events[store.txnInfoIds[leaves[n]][i]]
  }

  lemma TxnEventsHas(store: Store, f: Filter, leaves: seq<HashValue>, x: EventInfo, n: nat, i: nat)
    requires n < |leaves| && HasEvents(store, leaves[n]) && i < |store.txnInfoIds[leaves[n]]|
    ensures x in TxnEvents(store, f, leaves[n], n, i)
       <==> Emitted(store, f, leaves, x) && x.blockNumber == n && x.transactionIndex == i
  {
    var id := store.txnInfoIds[leaves[n]][i];
    var ms := Matches(f, n, store.events[id]);
    var r := TxnEvents(store, f, leaves[n], n, i);
    MatchesKeepsExactly(f, n, store.events[id], x.event);
    if Emitted(store, f, leaves, x) && x.blockNumber == n && x.transactionIndex == i {
      var k :| 0 <= k < |ms| && ms[k] == x.event;
      assert r[k] == x;
    }
    if x in r {
      var k :| 0 <= k < |r| && r[k] == x;
      assert x.event == ms[k];
    }
  }

  lemma BlockEventsHas(store: Store, f: Filter, leaves: seq<HashValue>, x: EventInfo, n: nat)
    requires n < |leaves| && HasEvents(store, leaves[n])
    ensures x in BlockEvents(store, f, leaves[n], n) <==> Emitted(store, f, leaves, x) && x.blockNumber == n
  {
    var chunks := TxnChunks(store, f, leaves[n], n);
    FlatHas(chunks, x);
    if x in Flat(chunks) {
      var i :| 0 <= i < |chunks| && x in chunks[i];
      ChunkAt(store, f, leaves[n], n, |chunks|, i);
      TxnEventsHas(store, f, leaves, x, n, i);
    }
    if Emitted(store, f, leaves, x) && x.blockNumber == n {
      ChunkAt(store, f, leaves[n], n, |chunks|, x.transactionIndex);
      TxnEventsHas(store, f, leaves, x, n, x.transactionIndex);
      assert x in chunks[x.transactionIndex];
    }
  }

  lemma HeightHas(store: Store, f: Filter, leaves: seq<HashValue>, lo: nat, hi: nat, x: EventInfo, k: nat)
    requires lo <= hi <= |leaves| && HaveEvents(store, leaves) && k < hi - lo
    ensures x in HeightChunks(store, f, leaves, lo, hi)[k] <==> Emitted(store, f, leaves, x) && x.blockNumber == lo + k
  {
    BlockEventsHas(store, f, leaves, x, lo + k);
    assert HeightChunks(store, f, leaves, lo, hi)[lo + k - lo] == BlockEvents(store, f, leaves[lo + k], lo + k);
  }

  lemma HeightsHave(store: Store, f: Filter, leaves: seq<HashValue>, lo: nat, hi: nat, x: EventInfo)
    requires lo <= hi <= |leaves| && HaveEvents(store, leaves)
    ensures x in Flat(HeightChunks(store, f, leaves, lo, hi)) <==> Emitted(store, f, leaves, x) && lo <= x.blockNumber < hi
  {
    var chunks := HeightChunks(store, f, leaves, lo, hi);
    FlatHas(chunks, x);
    if x in Flat(chunks) {
      var k :| 0 <= k < |chunks| && x in chunks[k];
      HeightHas(store, f, leaves, lo, hi, x, k);
    }
    if Emitted(store, f, leaves, x) && lo <= x.blockNumber < hi {
      HeightHas(store, f, leaves, lo, hi, x, x.blockNumber - lo);
    }
  }

  /** An event is reported exactly when some transaction of the chain emitted it and it matches. */
  lemma AllEventsHas(store: Store, f: Filter, leaves: seq<HashValue>, x: EventInfo)
    requires HaveEvents(store, leaves)
    ensures x in AllEvents(store, f, leaves) <==> Emitted(store, f, leaves, x)
  {
    var hi := Min(f.to + 1, |leaves|);
    if f.from < hi {
      HeightsHave(store, f, leaves, f.from, hi, x);
    }
  }

  // ---------- the order of events ----------

  /** `x` comes from the same transaction as `y` or an earlier one. */
  predicate NotAfter(x: EventInfo, y: EventInfo) {
    x.blockNumber < y.blockNumber || (x.blockNumber == y.blockNumber && x.transactionIndex <= y.transactionIndex)
  }

  ghost predicate Ordered(s: seq<EventInfo>) {
    forall i, j :: 0 <= i < j < |s| ==> NotAfter(s[i], s[j])
  }

  lemma OrderedConcat(a: seq<EventInfo>, b: seq<EventInfo>)
    requires Ordered(a) && Ordered(b) && forall x, y :: x in a && y in b ==> NotAfter(x, y)
    ensures Ordered(a + b)
  {
  }

  /** Ordered events of the first `n` transactions of the block at height `number`. */
  ghost predicate OrderedWithin(s: seq<EventInfo>, number: nat, n: nat) {
    Ordered(s) && forall x :: x in s ==> x.blockNumber == number && x.transactionIndex < n
  }

  lemma OrderedWithinConcat(a: seq<EventInfo>, b: seq<EventInfo>, number: nat, n: nat)
    requires OrderedWithin(a, number, n)
    requires forall x :: x in b ==> x.blockNumber == number && x.transactionIndex == n
    ensures OrderedWithin(a + b, number, n + 1)
  {
    OrderedConcat(a, b);
  }

  lemma {:induction false} ChunksAreOrdered(store: Store, f: Filter, id: HashValue, number: nat, n: nat)
    requires HasEvents(store, id) && n <= |store.txnInfoIds[id]|
    ensures OrderedWithin(Flat(FirstChunks(store, f, id, number, n)), number, n)
  {
    if n > 0 {
      var chunks := FirstChunks(store, f, id, number, n);
      assert chunks[..n - 1] == FirstChunks(store, f, id, number, n - 1);
      ChunksAreOrdered(store, f, id, number, n - 1);
      OrderedWithinConcat(Flat(chunks[..n - 1]), TxnEvents(store, f, id, number, n - 1), number, n - 1);
    }
  }

  ghost predicate OrderedBelow(s: seq<EventInfo>, n: nat) {
    Ordered(s) && forall x :: x in s ==> x.blockNumber < n
  }

  lemma OrderedBelowConcat(a: seq<EventInfo>, b: seq<EventInfo>, n: nat)
    requires OrderedBelow(a, n) && Ordered(b) && forall x :: x in b ==> x.blockNumber == n
    ensures OrderedBelow(a + b, n + 1)
  {
    OrderedConcat(a, b);
  }

  lemma {:induction false} HeightsAreOrdered(store: Store, f: Filter, leaves: seq<HashValue>, lo: nat, hi: nat)
    requires lo <= hi <= |leaves| && HaveEvents(store, leaves)
    ensures OrderedBelow(Flat(HeightChunks(store, f, leaves, lo, hi)), hi)
  {
    if lo < hi {
      LastHeight(store, f, leaves, lo, hi);
      HeightsAreOrdered(store, f, leaves, lo, hi - 1);
      ChunksAreOrdered(store, f, leaves[hi - 1], hi - 1, |store.txnInfoIds[leaves[hi - 1]]|);
      OrderedBelowConcat(Flat(HeightChunks(store, f, leaves, lo, hi - 1)), BlockEvents(store, f, leaves[hi - 1], hi - 1), hi - 1);
    }
  }

  lemma LastHeight(store: Store, f: Filter, leaves: seq<HashValue>, lo: nat, hi: nat)
    requires lo < hi <= |leaves| && HaveEvents(store, leaves)
    ensures Flat(HeightChunks(store, f, leaves, lo, hi)) ==
            Flat(HeightChunks(store, f, leaves, lo, hi - 1)) + BlockEvents(store, f, leaves[hi - 1], hi - 1)
  {
    var chunks := HeightChunks(store, f, leaves, lo, hi);
    assert chunks[..hi - 1 - lo] == HeightChunks(store, f, leaves, lo, hi - 1);
    assert chunks[hi - 1 - lo] == BlockEvents(store, f, leaves[hi - 1], hi - 1);
  }

  /** The events of a chain come in the order of their blocks and transactions. */
  lemma AllEventsAreOrdered(store: Store, f: Filter, leaves: seq<HashValue>)
    requires HaveEvents(store, leaves)
    ensures Ordered(AllEvents(store, f, leaves))
  {
    var hi := Min(f.to + 1, |leaves|);
    if f.from < hi {
      HeightsAreOrdered(store, f, leaves, f.from, hi);
    }
  }

  // ---------- the first and the last events ----------

  /** What the documentation of the limit promises: the last events, in the order of the list. */
  function LastOf<T>(f: Filter, s: seq<T>): seq<T> {
    if f.limit.Some? && f.limit.value < |s| then s[|s| - f.limit.value..] else s
  }

  /** A query in reverse returns the last events of the list, reversed. */
  lemma ReverseGivesLast(store: Store, f: Filter, leaves: seq<HashValue>)
    requires HaveEvents(store, leaves) && f.reverse
    ensures FilteredEvents(store, f, leaves) == Reversed(LastOf(f, AllEvents(store, f, leaves)))
  {
    var all := AllEvents(store, f, leaves);
    if f.limit.Some? && f.limit.value < |all| {
      FirstOfReversed(all, f.limit.value);
    }
  }

  lemma FirstOfReversed<T>(s: seq<T>, n: nat)
    requires n <= |s|
    ensures Reversed(s)[..n] == Reversed(s[|s| - n..])
  {
    var a, b := s[..|s| - n], s[|s| - n..];
    assert s == a + b;
    ReversedConcat(a, b);
  }

  /** All events of a list come from one transaction. */
  ghost predicate OneTransaction(s: seq<EventInfo>) {
    forall i :: 0 <= i < |s| ==> s[i].blockNumber == s[0].blockNumber && s[i].transactionIndex == s[0].transactionIndex
  }

  /** A forward query returns the last events exactly if the limit leaves out nothing, lets nothing through, or
      all events come from one transaction whose first events, up to the limit, are equal to its last. */
  lemma ForwardGivesLastIff(store: Store, f: Filter, leaves: seq<HashValue>)
    requires HaveEvents(store, leaves) && !f.reverse
    ensures var all := AllEvents(store, f, leaves);
      FilteredEvents(store, f, leaves) == LastOf(f, all)
      <==> || f.limit.None? || |all| <= f.limit.value || f.limit.value == 0
           || (OneTransaction(all) && all[..f.limit.value] == all[|all| - f.limit.value..])
  {
    var all := AllEvents(store, f, leaves);
    AllEventsAreOrdered(store, f, leaves);
    if f.limit.Some? && 0 < f.limit.value < |all| && all[..f.limit.value] == all[|all| - f.limit.value..] {
      SameEndsAreOneTransaction(all, f.limit.value);
    }
  }

  /** A list in order whose first `n` events equal its last `n` is from one transaction. */
  lemma SameEndsAreOneTransaction(s: seq<EventInfo>, n: nat)
    requires Ordered(s) && 0 < n < |s| && s[..n] == s[|s| - n..]
    ensures OneTransaction(s)
  {
    var d := |s| - n;
    assert forall i :: 0 <= i < n ==> s[i] == s[d + i] by {
      assert forall i :: 0 <= i < n ==> s[..n][i] == s[d..][i];
    }
    forall i | 0 <= i < |s| ensures SameTransaction(s[0], s[i]) {
      BackToFront(s, d, i);
    }
  }

  predicate SameTransaction(x: EventInfo, y: EventInfo) {
    x.blockNumber == y.blockNumber && x.transactionIndex == y.transactionIndex
  }

  /** Every event lies before one of the same transaction as the first. */
  lemma {:induction false} BackToFront(s: seq<EventInfo>, d: nat, i: nat)
    requires Ordered(s) && 0 < d < |s| && i < |s|
    requires forall k :: 0 <= k < |s| - d ==> s[k] == s[d + k]
    ensures SameTransaction(s[0], s[i])
  {
    if i > d {
      assert s[i - d] == s[d + (i - d)];
      BackToFront(s, d, i - d);
    } else if i > 0 {
      assert s[0] == s[d + 0];
      assert NotAfter(s[0], s[i]) && (i < d ==> NotAfter(s[i], s[d]));
    }
  }

  /** A forward query whose matching events come from several transactions never returns the last events, if
      the limit leaves out some and lets some through. */
  lemma ForwardMissesLast(store: Store, f: Filter, leaves: seq<HashValue>)
    requires HaveEvents(store, leaves) && !f.reverse && f.limit.Some?
    requires 0 < f.limit.value < |AllEvents(store, f, leaves)| && !OneTransaction(AllEvents(store, f, leaves))
    ensures FilteredEvents(store, f, leaves) != LastOf(f, AllEvents(store, f, leaves))
  {
    ForwardGivesLastIff(store, f, leaves);
  }

  /** The events of a block whose one transaction emitted `e1` and `e2`. */
  lemma TwoEvents(store: Store, f: Filter, leaves: seq<HashValue>, n: nat, x: HashValue, e1: ContractEvent, e2: ContractEvent)
    requires n < |leaves| && HaveEvents(store, leaves) && f.from == f.to == n && f.keys == []
    requires store.txnInfoIds[leaves[n]] == [x] && x in store.events && store.events[x] == [e1, e2] && x in store.txnInfos
    ensures var txn := store.txnInfos[x].txnInfo.transactionHash;
      AllEvents(store, f, leaves) == [EventInfo(leaves[n], n, txn, 0, e1), EventInfo(leaves[n], n, txn, 0, e2)]
  {
    var id := leaves[n];
    TwoMatches(f, n, e1, e2);
    var found := TxnEvents(store, f, id, n, 0);
    var chunks := FirstChunks(store, f, id, n, 1);
    assert FirstChunks(store, f, id, n, 0) == [];
    assert chunks == [found];
    FlatOne(found);
    var heights := HeightChunks(store, f, leaves, n, n + 1);
    assert heights[n - n] == BlockEvents(store, f, id, n);
    assert heights == [found];
  }

  lemma TwoMatches(f: Filter, n: nat, e1: ContractEvent, e2: ContractEvent)
    requires f.from <= n <= f.to && f.keys == []
    ensures Matches(f, n, [e1, e2]) == [e1, e2]
  {
    var events := [e1, e2];
    assert events[..1] == [e1] && events[..1][..0] == [];
    assert Matches(f, n, events[..1]) == [e1];
  }

  /** Such a block, asked for one event going forward: the query returns the first, not the last. */
  lemma ForwardGivesFirst(store: Store, f: Filter, leaves: seq<HashValue>, n: nat, x: HashValue, e1: ContractEvent, e2: ContractEvent)
    requires n < |leaves| && HaveEvents(store, leaves) && f == Filter(n, n, [], Some(1), false) && e1 != e2
    requires store.txnInfoIds[leaves[n]] == [x] && x in store.events && store.events[x] == [e1, e2] && x in store.txnInfos
    ensures var found, last := FilteredEvents(store, f, leaves), LastOf(f, AllEvents(store, f, leaves));
      |found| == 1 && found[0].event == e1 && |last| == 1 && last[0].event == e2 && found != last
  {
    TwoEvents(store, f, leaves, n, x, e1, e2);
    var txn := store.txnInfos[x].txnInfo.transactionHash;
    FirstOfTwo(f, EventInfo(leaves[n], n, txn, 0, e1), EventInfo(leaves[n], n, txn, 0, e2));
  }

  lemma FirstOfTwo(f: Filter, x: EventInfo, y: EventInfo)
    requires f.limit == Some(1) && !f.reverse
    ensures Limited(f, Directed(f, [x, y])) == [x] && LastOf(f, [x, y]) == [y]
  {
  }
}
