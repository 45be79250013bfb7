/** What happens between the steps of a gossip run (network/src/service.rs): what is handed to the
    message handler, what is broadcast to a peer, and how far apart repeats are. */
module GossipRuns {
  import opened Basics
  import opened Lru
  import opened Gossip

  datatype Kind = Txns | Blocks

  /** The ids of the transactions, or of the block, that a message carries or announces. */
  function IdsIn(kind: Kind, m: Option<Message>): seq<Id> {
    match m
    case Some(Transactions(ids)) => if kind.Txns? then ids else []
    case Some(TxnAnnouncement(ids)) => if kind.Txns? then ids else []
    case Some(CompactBlock(id, _)) => if kind.Blocks? then [id] else []
    case _ => []
  }

  function OwnMemory(n: Node, kind: Kind): Memory {
    if kind.Txns? then n.ownTxns else n.ownBlocks
  }

  function PeerMemory(peer: Peer, kind: Kind): Memory {
    if kind.Txns? then peer.txns else peer.blocks
  }

  // ---------- one step ----------

  /** What a step hands to the message handler. */
  function StepHands(n: Node, a: Action, kind: Kind): seq<Id> {
    match a
    case Received(p, m) => IdsIn(kind, Receive(n, p, m).1)
    case _ => []
  }

  /** What a step makes the node know: what it hands over, sends or broadcasts. */
  function StepOwnRecords(n: Node, a: Action, kind: Kind): seq<Id> {
    match a
    case Received(p, m) => IdsIn(kind, Receive(n, p, m).1)
    case Sent(p, m) => if Supported(n, p, ProtocolOf(m)) then IdsIn(kind, Some(m)) else []
    case Broadcasted(m, _) => if m.Transactions? || m.CompactBlock? then IdsIn(kind, Some(m)) else []
    case Connected(_, _, _) => []
    case Disconnected(_) => []
  }

  /** What a step broadcasts to a peer. */
  function StepSends(n: Node, a: Action, p: PeerId, kind: Kind): seq<Id> {
    match a
    case Broadcasted(m, selected) => IdsIn(kind, Sends(n, m, selected, p))
    case _ => []
  }

  /** The transactions of a broadcast that a peer is not remembered to know. */
  function Unremembered(peer: Peer, m: Message): seq<Id> {
    if m.Transactions? then PutFresh(peer.txns, m.ids).1 else []
  }

  /** A transaction broadcast that does not reach the peer. It records the transactions all the same. */
  predicate Silent(n: Node, a: Action, p: PeerId) {
    a.Broadcasted? && a.message.Transactions? && p in n.peers && !TxnsReach(n.peers[p], p in a.selected)
  }

  /** What a step records as known to a peer: what it received from the peer or broadcasts to it, and the
      transactions of a silent broadcast. */
  function StepPeerRecords(n: Node, a: Action, p: PeerId, kind: Kind): seq<Id>
    requires p in n.peers
  {
    match a
    case Received(q, m) => if q == p then IdsIn(kind, Some(m)) else []
    case Broadcasted(m, selected) =>
      if Silent(n, a, p) then (if kind.Txns? then Unremembered(n.peers[p], m) else [])
      else StepSends(n, a, p, kind)
    case _ => []
  }

  // ---------- memories hold the most recent records ----------

  lemma {:induction false} PutAllIsRecent(h: seq<Id>, ids: seq<Id>)
    ensures PutAll(Recent(h, LRU_CACHE_SIZE), ids) == Recent(h + ids, LRU_CACHE_SIZE)
  {
    if ids == [] {
      assert h + ids == h;
    } else {
      var init, last := ids[..|ids| - 1], ids[|ids| - 1];
      PutAllIsRecent(h, init);
      RecentStep(h + init, LRU_CACHE_SIZE, last);
      assert h + ids == h + init + [last];
    }
  }

  lemma {:induction false} PutFreshIsRecent(h: seq<Id>, ids: seq<Id>)
    ensures var m := Recent(h, LRU_CACHE_SIZE);
      PutFresh(m, ids).0 == Recent(h + PutFresh(m, ids).1, LRU_CACHE_SIZE)
  {
    var m := Recent(h, LRU_CACHE_SIZE);
    if ids == [] {
      assert h + [] == h;
    } else {
      var init, last := ids[..|ids| - 1], ids[|ids| - 1];
      PutFreshIsRecent(h, init);
      var (m', unseen) := PutFresh(m, init);
      RecentStep(h + unseen, LRU_CACHE_SIZE, last);
      assert h + (unseen + [last]) == h + unseen + [last];
    }
  }

  lemma PutIsRecent(h: seq<Id>, id: Id)
    ensures Put(Recent(h, LRU_CACHE_SIZE), id) == Recent(h + [id], LRU_CACHE_SIZE)
  {
    RecentStep(h, LRU_CACHE_SIZE, id);
  }

  /** What filtering keeps was not among the most recent when its turn came. */
  lemma {:induction false} FreshAt(h: seq<Id>, ids: seq<Id>, j: nat)
    requires j < |PutFresh(Recent(h, LRU_CACHE_SIZE), ids).1|
    ensures var unseen := PutFresh(Recent(h, LRU_CACHE_SIZE), ids).1;
      unseen[j] !in Recent(h + unseen[..j], LRU_CACHE_SIZE)
  {
    var m, init := Recent(h, LRU_CACHE_SIZE), ids[..|ids| - 1];
    var before, all := PutFresh(m, init).1, PutFresh(m, ids).1;
    if j < |before| {
      FreshAt(h, init, j);
      assert all[..j] == before[..j];
    } else {
      PutFreshIsRecent(h, init);
      assert all[..j] == before;
    }
  }

  /** Filtering never swallows an id the memory did not hold. */
  lemma {:induction false} UnknownIsFresh(m: Memory, ids: seq<Id>, id: Id)
    requires id in ids && id !in m
    ensures id in PutFresh(m, ids).1
  {
    var init := ids[..|ids| - 1];
    if id in init {
      UnknownIsFresh(m, init, id);
    } else {
      FreshHoldsOnlyThese(m, init, id);
      assert ids == init + [ids[|ids| - 1]];
    }
  }

  lemma {:induction false} FreshHoldsOnlyThese(m: Memory, ids: seq<Id>, id: Id)
    requires id !in m && id !in ids
    ensures id !in PutFresh(m, ids).0
  {
    if ids != [] {
      FreshHoldsOnlyThese(m, ids[..|ids| - 1], id);
      RefreshAddsOne(PutFresh(m, ids[..|ids| - 1]).0, LRU_CACHE_SIZE, ids[|ids| - 1], id);
    }
  }

  lemma RefreshAddsOne(m: Memory, n: nat, e: Id, id: Id)
    requires id !in m && id != e
    ensures id !in Refresh(m, n, e)
  {
    WithoutHasNoMore(m, e, id);
  }

  lemma {:induction false} WithoutHasNoMore(m: Memory, e: Id, id: Id)
    requires id !in m
    ensures id !in Without(m, e)
  {
    if m != [] {
      WithoutHasNoMore(m[1..], e, id);
    }
  }

  // ---------- one step on memories ----------

  /** A step leaves the node with the most recent of what it knew and what the step records. */
  lemma OwnStep(n: Node, a: Action, kind: Kind, h: seq<Id>)
    requires OwnMemory(n, kind) == Recent(h, LRU_CACHE_SIZE)
    ensures OwnMemory(Next(n, a), kind) == Recent(h + StepOwnRecords(n, a, kind), LRU_CACHE_SIZE)
  {
    assert h + [] == h;
    match a
    case Received(p, m) => OwnReceiveStep(n, p, m, kind, h);
    case Sent(p, m) => OwnSendStep(n, m, kind, h);
    case Broadcasted(m, _) => OwnSendStep(n, m, kind, h);
    case Connected(_, _, _) =>
    case Disconnected(_) =>
  }

  lemma OwnReceiveStep(n: Node, p: PeerId, m: Message, kind: Kind, h: seq<Id>)
    requires OwnMemory(n, kind) == Recent(h, LRU_CACHE_SIZE)
    ensures OwnMemory(Receive(n, p, m).0, kind) == Recent(h + IdsIn(kind, Receive(n, p, m).1), LRU_CACHE_SIZE)
  {
    assert h + [] == h;
    if kind.Txns? && (m.Transactions? || m.TxnAnnouncement?) {
      PutFreshIsRecent(h, m.ids);
    } else if kind.Blocks? && m.CompactBlock? {
      PutIsRecent(h, m.id);
    }
  }

  lemma OwnSendStep(n: Node, m: Message, kind: Kind, h: seq<Id>)
    requires OwnMemory(n, kind) == Recent(h, LRU_CACHE_SIZE)
    ensures kind.Txns? && (m.Transactions? || m.TxnAnnouncement?) ==>
      PutAll(n.ownTxns, m.ids) == Recent(h + IdsIn(kind, Some(m)), LRU_CACHE_SIZE)
    ensures kind.Blocks? && m.CompactBlock? ==> Put(n.ownBlocks, m.id) == Recent(h + IdsIn(kind, Some(m)), LRU_CACHE_SIZE)
  {
    if kind.Txns? && (m.Transactions? || m.TxnAnnouncement?) {
      PutAllIsRecent(h, m.ids);
    } else if kind.Blocks? && m.CompactBlock? {
      PutIsRecent(h, m.id);
    }
  }

  /** What a step hands over was not among the most recent when its turn came. */
  lemma HandedAt(n: Node, a: Action, kind: Kind, h: seq<Id>, j: nat)
    requires OwnMemory(n, kind) == Recent(h, LRU_CACHE_SIZE) && j < |StepHands(n, a, kind)|
    ensures StepHands(n, a, kind)[j] !in Recent(h + StepHands(n, a, kind)[..j], LRU_CACHE_SIZE)
  {
    if kind.Txns? {
      FreshAt(h, a.message.ids, j);
    } else {
      assert h + StepHands(n, a, kind)[..0] == h;
    }
  }

  /** While a peer stays connected, a step leaves its memory with the most recent of what it held and what
      the step records for the peer. */
  lemma PeerStep(n: Node, a: Action, p: PeerId, kind: Kind, h: seq<Id>)
    requires p in n.peers && p in Next(n, a).peers && PeerMemory(n.peers[p], kind) == Recent(h, LRU_CACHE_SIZE)
    ensures PeerMemory(Next(n, a).peers[p], kind) == Recent(h + StepPeerRecords(n, a, p, kind), LRU_CACHE_SIZE)
  {
    assert h + [] == h;
    match a
    case Received(q, m) => if q == p { PeerReceiveStep(n, p, m, kind, h); }
    case Sent(_, _) =>
    case Broadcasted(m, selected) => PeerBroadcastStep(n, m, selected, p, kind, h);
    case Connected(_, _, _) =>
    case Disconnected(_) =>
  }

  lemma PeerReceiveStep(n: Node, p: PeerId, m: Message, kind: Kind, h: seq<Id>)
    requires p in n.peers && PeerMemory(n.peers[p], kind) == Recent(h, LRU_CACHE_SIZE)
    ensures p in Receive(n, p, m).0.peers
    ensures PeerMemory(Receive(n, p, m).0.peers[p], kind) == Recent(h + IdsIn(kind, Some(m)), LRU_CACHE_SIZE)
  {
    assert h + [] == h;
    if kind.Txns? && (m.Transactions? || m.TxnAnnouncement?) {
      PutAllIsRecent(h, m.ids);
    } else if kind.Blocks? && m.CompactBlock? {
      PutIsRecent(h, m.id);
    }
  }

  lemma PeerBroadcastStep(n: Node, m: Message, selected: set<PeerId>, p: PeerId, kind: Kind, h: seq<Id>)
    requires p in n.peers && PeerMemory(n.peers[p], kind) == Recent(h, LRU_CACHE_SIZE)
    ensures p in Broadcast(n, m, selected).peers
    ensures PeerMemory(Broadcast(n, m, selected).peers[p], kind) ==
            Recent(h + StepPeerRecords(n, Broadcasted(m, selected), p, kind), LRU_CACHE_SIZE)
  {
    assert h + [] == h;
    if kind.Txns? && m.Transactions? {
      PeerTxnsStep(n, m, selected, p, h);
    } else if kind.Blocks? && m.CompactBlock? {
      PutIsRecent(h, m.id);
    }
  }

  lemma PeerTxnsStep(n: Node, m: Message, selected: set<PeerId>, p: PeerId, h: seq<Id>)
    requires p in n.peers && n.peers[p].txns == Recent(h, LRU_CACHE_SIZE) && m.Transactions?
    ensures var peer := n.peers[p];
      && StepPeerRecords(n, Broadcasted(m, selected), p, Txns) == PutFresh(peer.txns, m.ids).1
      && WithTxns(peer, m.ids, p in selected).0.txns
         == Recent(h + StepPeerRecords(n, Broadcasted(m, selected), p, Txns), LRU_CACHE_SIZE)
  {
    PutFreshIsRecent(h, m.ids);
  }

  /** What a step broadcasts to a peer was not among the most recent of the peer when its turn came. */
  lemma SentAt(n: Node, a: Action, p: PeerId, kind: Kind, h: seq<Id>, j: nat)
    requires p in n.peers && PeerMemory(n.peers[p], kind) == Recent(h, LRU_CACHE_SIZE) && j < |StepSends(n, a, p, kind)|
    ensures StepSends(n, a, p, kind)[j] !in Recent(h + StepSends(n, a, p, kind)[..j], LRU_CACHE_SIZE)
  {
    SentIsFresh(n, a, p, kind);
    if kind.Txns? {
      FreshAt(h, a.message.ids, j);
    } else {
      assert h + [a.message.id][..0] == h;
    }
  }

  lemma SentIsFresh(n: Node, a: Action, p: PeerId, kind: Kind)
    requires p in n.peers && StepSends(n, a, p, kind) != []
    ensures a.Broadcasted?
    ensures kind.Txns? ==> a.message.Transactions? && StepSends(n, a, p, kind) == PutFresh(n.peers[p].txns, a.message.ids).1
    ensures kind.Blocks? ==>
      a.message.CompactBlock? && StepSends(n, a, p, kind) == [a.message.id] && a.message.id !in n.peers[p].blocks
  {
  }

  // ---------- logs ----------

  /** All entries of a log, which lists the entries of every step. */
  function Flat(log: seq<seq<Id>>): seq<Id> {
    if log == [] then [] else Flat(log[..|log| - 1]) + log[|log| - 1]
  }

  lemma FlatNext(log: seq<seq<Id>>, s: nat, t: nat)
    requires s <= t < |log|
    ensures Flat(log[s..t + 1]) == Flat(log[s..t]) + log[t]
  {
    assert log[s..t + 1][..t - s] == log[s..t];
  }

  lemma {:induction false} FlatSplit(log: seq<seq<Id>>, r: nat, s: nat, t: nat)
    requires r <= s <= t <= |log|
    ensures Flat(log[r..t]) == Flat(log[r..s]) + Flat(log[s..t])
  {
    if s == t {
      assert Flat(log[r..s]) + [] == Flat(log[r..s]);
    } else {
      FlatSplit(log, r, s, t - 1);
      FlatNext(log, r, t - 1);
      FlatNext(log, s, t - 1);
      Extend(Flat(log[r..t - 1]), Flat(log[r..s]), Flat(log[s..t - 1]), log[t - 1]);
    }
  }

  lemma Extend(ab: seq<Id>, a: seq<Id>, b: seq<Id>, x: seq<Id>)
    requires ab == a + b
    ensures ab + x == a + (b + x)
  {
  }

  /** The entries from step `c` on that come before entry `j` of step `t`. */
  function Before(log: seq<seq<Id>>, c: nat, t: nat, j: nat): seq<Id>
    requires c <= t < |log| && j <= |log[t]|
  {
    Flat(log[c..t]) + log[t][..j]
  }

  /** Entry `i` of step `s` comes before entry `j` of step `t`. */
  predicate InOrder(log: seq<seq<Id>>, s: nat, i: nat, t: nat, j: nat) {
    s <= t < |log| && i < |log[s]| && j < |log[t]| && (s == t ==> i < j)
  }

  /** The entries after entry `i` of step `s` and before entry `j` of step `t`. */
  function Between(log: seq<seq<Id>>, s: nat, i: nat, t: nat, j: nat): seq<Id>
    requires InOrder(log, s, i, t, j)
  {
    if s == t then log[t][i + 1..j] else log[s][i + 1..] + Flat(log[s + 1..t]) + log[t][..j]
  }

  lemma BetweenIsAfter(log: seq<seq<Id>>, c: nat, s: nat, i: nat, t: nat, j: nat)
    requires c <= s && InOrder(log, s, i, t, j)
    ensures var k := |Flat(log[c..s])| + i;
      && k < |Before(log, c, t, j)| && Before(log, c, t, j)[k] == log[s][i]
      && Before(log, c, t, j)[k + 1..] == Between(log, s, i, t, j)
  {
    if s < t {
      FlatNext(log, c, s);
      FlatSplit(log, c, s + 1, t);
      DropInto(Flat(log[c..s]), log[s], Flat(log[s + 1..t]), log[t][..j], i);
    }
  }

  lemma DropInto(a: seq<Id>, r: seq<Id>, b: seq<Id>, q: seq<Id>, i: nat)
    requires i < |r|
    ensures (a + r + b + q)[|a| + i] == r[i]
    ensures (a + r + b + q)[|a| + i + 1..] == r[i + 1..] + b + q
  {
  }

  lemma OthersFollow(entries: seq<Id>, id: Id, k: nat, rest: seq<Id>)
    requires id !in Recent(entries, LRU_CACHE_SIZE) && k < |entries| && entries[k] == id && entries[k + 1..] == rest
    ensures |Elements(rest) - {id}| >= 10240
  {
    ForgettingTakesOthers(entries, k, LRU_CACHE_SIZE);
  }

  /** Entry `j` of step `t` is not among the most recent of what was entered from step `c` on. */
  predicate Forgotten(log: seq<seq<Id>>, c: nat, t: nat, j: nat)
    requires c <= t < |log| && j < |log[t]|
  {
    log[t][j] !in Recent(Before(log, c, t, j), LRU_CACHE_SIZE)
  }

  lemma FarBetween(log: seq<seq<Id>>, c: nat, s: nat, i: nat, t: nat, j: nat)
    requires c <= s && InOrder(log, s, i, t, j) && log[s][i] == log[t][j] && Forgotten(log, c, t, j)
    ensures |Elements(Between(log, s, i, t, j)) - {log[t][j]}| >= 10240
  {
    BetweenIsAfter(log, c, s, i, t, j);
    OthersFollow(Before(log, c, t, j), log[t][j], |Flat(log[c..s])| + i, Between(log, s, i, t, j));
  }

  // ---------- from step to step ----------

  /** The node before step `k` of a run. */
  function At(run: seq<Action>, k: nat): Node
    requires k <= |run|
  {
    if k == 0 then EMPTY_NODE else Next(At(run, k - 1), run[k - 1])
  }

  /** What step `k` of the run makes the node know. */
  function OwnRecords(run: seq<Action>, kind: Kind, k: nat): seq<Id>
    requires k < |run|
  {
    StepOwnRecords(At(run, k), run[k], kind)
  }

  /** What the steps of a run make the node know. */
  function OwnLog(run: seq<Action>, kind: Kind): seq<seq<Id>> {
    seq(|run|, k requires 0 <= k < |run| => OwnRecords(run, kind, k))
  }

  /** At every step of every run the node remembers the most recent of what it was made to know. */
  lemma {:induction false} OwnItems(run: seq<Action>, kind: Kind, k: nat)
    requires k <= |run|
    ensures OwnMemory(At(run, k), kind) == Recent(Flat(OwnLog(run, kind)[0..k]), LRU_CACHE_SIZE)
  {
    if k > 0 {
      OwnItems(run, kind, k - 1);
      FlatNext(OwnLog(run, kind), 0, k - 1);
      OwnStep(At(run, k - 1), run[k - 1], kind, Flat(OwnLog(run, kind)[0..k - 1]));
    }
  }

  // ---------- what repeats cost ----------

  /** The ids a received message makes the node know are those it hands to the message handler. */
  lemma ReceivedIsHandedOver(run: seq<Action>, kind: Kind, t: nat)
    requires t < |run| && run[t].Received?
    ensures OwnLog(run, kind)[t] == StepHands(At(run, t), run[t], kind)
  {
  }

  lemma HandedIsForgotten(run: seq<Action>, kind: Kind, t: nat, j: nat)
    requires t < |run| && run[t].Received? && j < |OwnLog(run, kind)[t]|
    ensures Forgotten(OwnLog(run, kind), 0, t, j)
  {
    OwnItems(run, kind, t);
    ReceivedIsHandedOver(run, kind, t);
    HandedAt(At(run, t), run[t], kind, Flat(OwnLog(run, kind)[0..t]), j);
  }

  /** If the id that a received message hands over as its id `j` was made known before, at position `i`, then
      at least 10240 other distinct ids were made known after that position and before the hand-over. */
  lemma HandOversAreFar(run: seq<Action>, kind: Kind, t: nat, j: nat, i: nat)
    requires t < |run| && run[t].Received? && j < |OwnLog(run, kind)[t]|
    requires i < |Before(OwnLog(run, kind), 0, t, j)| && Before(OwnLog(run, kind), 0, t, j)[i] == OwnLog(run, kind)[t][j]
    ensures |Elements(Before(OwnLog(run, kind), 0, t, j)[i + 1..]) - {OwnLog(run, kind)[t][j]}| >= 10240
  {
    HandedIsForgotten(run, kind, t, j);
    ForgettingTakesOthers(Before(OwnLog(run, kind), 0, t, j), i, LRU_CACHE_SIZE);
  }

  /** So between two hand-overs of the same id, in one message or in two, at least 10240 other distinct ids
      are made known. The first may be any other way to make the id known. */
  lemma TwoHandOvers(run: seq<Action>, kind: Kind, s: nat, i: nat, t: nat, j: nat)
    requires InOrder(OwnLog(run, kind), s, i, t, j) && run[t].Received?
    requires OwnLog(run, kind)[s][i] == OwnLog(run, kind)[t][j]
    ensures |Elements(Between(OwnLog(run, kind), s, i, t, j)) - {OwnLog(run, kind)[t][j]}| >= 10240
  {
    HandedIsForgotten(run, kind, t, j);
    FarBetween(OwnLog(run, kind), 0, s, i, t, j);
  }

  /** The peer is connected from before step `s` until after step `t - 1`. */
  predicate Stays(run: seq<Action>, p: PeerId, s: nat, t: nat)
    requires s <= t <= |run|
  {
    p in At(run, t).peers && (s < t ==> Stays(run, p, s, t - 1))
  }

  /** What a step records as known to a peer, if it is connected. */
  function RecordsFor(n: Node, a: Action, p: PeerId, kind: Kind): seq<Id> {
    if p in n.peers then StepPeerRecords(n, a, p, kind) else []
  }

  /** What step `k` of the run records as known to a peer. */
  function PeerRecords(run: seq<Action>, p: PeerId, kind: Kind, k: nat): seq<Id>
    requires k < |run|
  {
    RecordsFor(At(run, k), run[k], p, kind)
  }

  /** What the steps of a run record as known to a peer. */
  function PeerLog(run: seq<Action>, p: PeerId, kind: Kind): seq<seq<Id>> {
    seq(|run|, k requires 0 <= k < |run| => PeerRecords(run, p, kind, k))
  }

  /** The step after which a peer that is connected before step `k` has been connected. */
  function Since(run: seq<Action>, p: PeerId, k: nat): (c: nat)
    requires k <= |run| && p in At(run, k).peers
    ensures c <= k
  {
    if p in At(run, k - 1).peers then Since(run, p, k - 1) else k
  }

  lemma {:induction false} SinceStays(run: seq<Action>, p: PeerId, s: nat, t: nat)
    requires s <= t <= |run| && Stays(run, p, s, t)
    ensures p in At(run, t).peers && Since(run, p, t) <= s
    decreases t - s
  {
    if s < t {
      StaysAt(run, p, s, t - 1, t);
      SinceStays(run, p, s, t - 1);
    }
  }

  lemma {:induction false} StaysAt(run: seq<Action>, p: PeerId, s: nat, k: nat, t: nat)
    requires s <= k <= t <= |run| && Stays(run, p, s, t)
    ensures p in At(run, k).peers && Stays(run, p, s, k) && Stays(run, p, k, t)
    decreases t - k
  {
    if k < t {
      StaysAt(run, p, s, k, t - 1);
    }
  }

  /** At every step of every run a peer is remembered to know the most recent of what was recorded for it
      since it connected. */
  lemma {:induction false} PeerItems(run: seq<Action>, p: PeerId, kind: Kind, k: nat)
    requires k <= |run| && p in At(run, k).peers
    ensures PeerMemory(At(run, k).peers[p], kind) ==
            Recent(Flat(PeerLog(run, p, kind)[Since(run, p, k)..k]), LRU_CACHE_SIZE)
  {
    if p in At(run, k - 1).peers {
      PeerItems(run, p, kind, k - 1);
      PeerItemsNext(run, p, kind, Since(run, p, k - 1), k - 1);
    } else {
      NewPeerIsEmpty(At(run, k - 1), run[k - 1], p, kind);
    }
  }

  lemma PeerItemsNext(run: seq<Action>, p: PeerId, kind: Kind, c: nat, k: nat)
    requires c <= k < |run| && p in At(run, k).peers && p in At(run, k + 1).peers
    requires PeerMemory(At(run, k).peers[p], kind) == Recent(Flat(PeerLog(run, p, kind)[c..k]), LRU_CACHE_SIZE)
    ensures PeerMemory(At(run, k + 1).peers[p], kind) == Recent(Flat(PeerLog(run, p, kind)[c..k + 1]), LRU_CACHE_SIZE)
  {
    FlatNext(PeerLog(run, p, kind), c, k);
    PeerStep(At(run, k), run[k], p, kind, Flat(PeerLog(run, p, kind)[c..k]));
  }

  lemma NewPeerIsEmpty(n: Node, a: Action, p: PeerId, kind: Kind)
    requires p !in n.peers && p in Next(n, a).peers
    ensures PeerMemory(Next(n, a).peers[p], kind) == []
  {
  }

  /** Step `t` is a broadcast, and not one that is silent for the peer. */
  predicate Reaches(run: seq<Action>, p: PeerId, t: nat)
    requires t < |run|
  {
    run[t].Broadcasted? && p in At(run, t).peers && !Silent(At(run, t), run[t], p)
  }

  /** The ids it records for the peer are those it broadcasts to the peer. */
  lemma ReachedIsSent(run: seq<Action>, p: PeerId, kind: Kind, t: nat)
    requires t < |run| && Reaches(run, p, t)
    ensures PeerLog(run, p, kind)[t] == StepSends(At(run, t), run[t], p, kind)
  {
  }

  lemma SentIsForgotten(run: seq<Action>, p: PeerId, kind: Kind, t: nat, j: nat)
    requires t < |run| && Reaches(run, p, t) && j < |PeerLog(run, p, kind)[t]|
    ensures Forgotten(PeerLog(run, p, kind), Since(run, p, t), t, j)
  {
    PeerItems(run, p, kind, t);
    ReachedIsSent(run, p, kind, t);
    SentAt(At(run, t), run[t], p, kind, Flat(PeerLog(run, p, kind)[Since(run, p, t)..t]), j);
  }

  /** What the run records for a peer from when it connected until record `j` of step `t`. */
  function PeerBefore(run: seq<Action>, p: PeerId, kind: Kind, t: nat, j: nat): seq<Id>
    requires t < |run| && p in At(run, t).peers && j <= |PeerLog(run, p, kind)[t]|
  {
    Before(PeerLog(run, p, kind), Since(run, p, t), t, j)
  }

  /** If the id that a broadcast sends to a peer as its id `j` was recorded for the peer before, at position
      `i` since it connected, then at least 10240 other distinct ids were recorded for the peer after that
      position and before this broadcast of it. */
  lemma BroadcastsAreFar(run: seq<Action>, p: PeerId, kind: Kind, t: nat, j: nat, i: nat)
    requires t < |run| && Reaches(run, p, t) && j < |PeerLog(run, p, kind)[t]|
    requires i < |PeerBefore(run, p, kind, t, j)| && PeerBefore(run, p, kind, t, j)[i] == PeerLog(run, p, kind)[t][j]
    ensures |Elements(PeerBefore(run, p, kind, t, j)[i + 1..]) - {PeerLog(run, p, kind)[t][j]}| >= 10240
  {
    SentIsForgotten(run, p, kind, t, j);
    ForgettingTakesOthers(PeerBefore(run, p, kind, t, j), i, LRU_CACHE_SIZE);
  }

  /** So between two broadcasts of the same id to a peer that stays connected, in one message or in two, at
      least 10240 other distinct ids are recorded for the peer. The first may be any other way to record it. */
  lemma TwoBroadcasts(run: seq<Action>, p: PeerId, kind: Kind, s: nat, i: nat, t: nat, j: nat)
    requires InOrder(PeerLog(run, p, kind), s, i, t, j) && Stays(run, p, s, t) && Reaches(run, p, t)
    requires PeerLog(run, p, kind)[s][i] == PeerLog(run, p, kind)[t][j]
    ensures |Elements(Between(PeerLog(run, p, kind), s, i, t, j)) - {PeerLog(run, p, kind)[t][j]}| >= 10240
  {
    SinceStays(run, p, s, t);
    SentIsForgotten(run, p, kind, t, j);
    FarBetween(PeerLog(run, p, kind), Since(run, p, t), s, i, t, j);
  }

  /** What is broadcast to a peer is recorded for it. */
  lemma SentIsRecorded(n: Node, a: Action, p: PeerId, kind: Kind)
    requires p in n.peers
    ensures Elements(StepSends(n, a, p, kind)) <= Elements(StepPeerRecords(n, a, p, kind))
  {
  }

  // ---------- ids recorded without being exchanged ----------

  /** What a step exchanges with a peer: what it receives from the peer or broadcasts to it. */
  function StepExchanges(n: Node, a: Action, p: PeerId, kind: Kind): seq<Id>
    requires p in n.peers
  {
    if a.Received? && a.peer == p then IdsIn(kind, Some(a.message)) else StepSends(n, a, p, kind)
  }

  /** A step records an id without exchanging it exactly if it is a transaction broadcast that does not
      reach the peer, and the id is one of its transactions the peer is not remembered to know. */
  lemma UnexchangedIff(n: Node, a: Action, p: PeerId, kind: Kind, id: Id)
    requires p in n.peers
    ensures id in StepPeerRecords(n, a, p, kind) && id !in StepExchanges(n, a, p, kind)
       <==> kind.Txns? && Silent(n, a, p) && id in Unremembered(n.peers[p], a.message)
  {
  }

  /** What step `k` of the run exchanges with a peer. */
  function Exchanges(run: seq<Action>, p: PeerId, kind: Kind, k: nat): seq<Id>
    requires k < |run|
  {
    if p in At(run, k).peers then StepExchanges(At(run, k), run[k], p, kind) else []
  }

  predicate NeverExchanged(run: seq<Action>, p: PeerId, kind: Kind, s: nat, t: nat, id: Id)
    requires s <= t <= |run|
  {
    forall k :: s <= k < t ==> id !in Exchanges(run, p, kind, k)
  }

  /** Every step that recorded the id for the peer was a broadcast that did not reach the peer. */
  predicate OnlySilently(run: seq<Action>, p: PeerId, kind: Kind, s: nat, t: nat, id: Id)
    requires s <= t <= |run|
  {
    forall k :: s <= k < t && id in PeerRecords(run, p, kind, k) ==> Silent(At(run, k), run[k], p)
  }

  lemma NotExchangedAtIff(run: seq<Action>, p: PeerId, kind: Kind, k: nat, id: Id)
    requires k < |run|
    ensures id !in Exchanges(run, p, kind, k)
       <==> (id in PeerRecords(run, p, kind, k) ==> Silent(At(run, k), run[k], p))
  {
    if p in At(run, k).peers {
      UnexchangedIff(At(run, k), run[k], p, kind, id);
      ExchangedIsRecorded(At(run, k), run[k], p, kind);
    }
  }

  /** Over any part of a run, an id is never exchanged with a peer exactly if every step that recorded the id for
      the peer was a transaction broadcast that did not reach it. */
  lemma NeverExchangedIff(run: seq<Action>, p: PeerId, kind: Kind, s: nat, t: nat, id: Id)
    requires s <= t <= |run|
    ensures NeverExchanged(run, p, kind, s, t, id) <==> OnlySilently(run, p, kind, s, t, id)
  {
    forall k | s <= k < t
      ensures id !in Exchanges(run, p, kind, k)
         <==> (id in PeerRecords(run, p, kind, k) ==> Silent(At(run, k), run[k], p))
    {
      NotExchangedAtIff(run, p, kind, k, id);
    }
  }

  lemma ExchangedIsRecorded(n: Node, a: Action, p: PeerId, kind: Kind)
    requires p in n.peers
    ensures Elements(StepExchanges(n, a, p, kind)) <= Elements(StepPeerRecords(n, a, p, kind))
  {
    SentIsRecorded(n, a, p, kind);
  }

  lemma {:induction false} FlatHas(log: seq<seq<Id>>, s: nat, t: nat, id: Id)
    requires s <= t <= |log| && id in Flat(log[s..t])
    ensures exists k :: s <= k < t && id in log[k]
  {
    if s < t {
      FlatNext(log, s, t - 1);
      if id !in log[t - 1] {
        FlatHas(log, s, t - 1, id);
      }
    }
  }

  /** What a peer is remembered to know was recorded by some step since it connected. */
  lemma RememberedIsRecorded(run: seq<Action>, p: PeerId, kind: Kind, k: nat, id: Id)
    requires k <= |run| && p in At(run, k).peers && id in PeerMemory(At(run, k).peers[p], kind)
    ensures exists t :: Since(run, p, k) <= t < k && id in PeerRecords(run, p, kind, t)
  {
    PeerItems(run, p, kind, k);
    var log, c := PeerLog(run, p, kind), Since(run, p, k);
    LastOrderIsExact(Flat(log[c..k]));
    assert id in Elements(LastOrder(Flat(log[c..k])));
    FlatHas(log, c, k, id);
    var t :| c <= t < k && id in log[t];
    assert id in PeerRecords(run, p, kind, t);
  }

  /** The step is a broadcast that records the id for the peer and does not reach the peer. */
  predicate RecordsSilently(run: seq<Action>, p: PeerId, kind: Kind, t: nat, id: Id)
    requires t < |run|
  {
    id in PeerRecords(run, p, kind, t) && Silent(At(run, t), run[t], p)
  }

  /** That a peer is remembered to know an id does not mean it was exchanged with the peer since it connected: it
      never was exactly if such broadcasts recorded it, and nothing else did. */
  lemma RememberedNeverExchangedIff(run: seq<Action>, p: PeerId, kind: Kind, k: nat, id: Id)
    requires k <= |run| && p in At(run, k).peers && id in PeerMemory(At(run, k).peers[p], kind)
    ensures NeverExchanged(run, p, kind, Since(run, p, k), k, id)
       <==> OnlySilently(run, p, kind, Since(run, p, k), k, id)
            && exists t :: Since(run, p, k) <= t < k && RecordsSilently(run, p, kind, t, id)
  {
    NeverExchangedIff(run, p, kind, Since(run, p, k), k, id);
    RememberedIsRecorded(run, p, kind, k, id);
    var t :| Since(run, p, k) <= t < k && id in PeerRecords(run, p, kind, t);
    assert OnlySilently(run, p, kind, Since(run, p, k), k, id) ==> RecordsSilently(run, p, kind, t, id);
  }

  /** In every state, a peer without the announcement protocol that is not selected for the broadcast of a
      transaction it is not remembered to know gets nothing, neither then nor from the next broadcast of it,
      whichever peers that one selects. */
  lemma SilencedForLater(n: Node, p: PeerId, id: Id, selected: set<PeerId>, later: set<PeerId>)
    requires p in n.peers && AnnouncementProtocol !in n.peers[p].protocols && p !in selected && id !in n.peers[p].txns
    ensures var first := Broadcasted(Transactions([id]), selected);
      var n' := Next(n, first);
      && StepSends(n, first, p, Txns) == []
      && p in n'.peers && id in n'.peers[p].txns
      && StepSends(n', Broadcasted(Transactions([id]), later), p, Txns) == []
  {
    FreshOne(n.peers[p].txns, id);
    FreshOne(Put(n.peers[p].txns, id), id);
  }

  lemma FreshOne(m: Memory, id: Id)
    ensures PutFresh(m, [id]) == if id in m then (m, []) else (Put(m, id), [id])
    ensures id in Put(m, id)
  {
    var ids, none: seq<Id> := [id], [];
    assert ids[..0] == none && none + [id] == [id];
    assert PutFresh(m, ids[..0]) == (m, none);
  }

  // ---------- nothing unknown is swallowed ----------

  /** Filtering keeps nothing exactly if the memory holds every id. */
  lemma {:induction false} NothingFreshIff(m: Memory, ids: seq<Id>)
    ensures PutFresh(m, ids).1 == [] <==> forall id :: id in ids ==> id in m
    ensures PutFresh(m, ids).1 == [] ==> PutFresh(m, ids).0 == m
  {
    if ids != [] {
      var init := ids[..|ids| - 1];
      NothingFreshIff(m, init);
      assert ids == init + [ids[|ids| - 1]];
      if id :| id in ids && id !in m {
        UnknownIsFresh(m, ids, id);
      }
    }
  }

  /** Distinct ids none of which the memory holds are all kept, in their order. */
  lemma {:induction false} AllFresh(m: Memory, ids: seq<Id>)
    requires NoDuplicates(ids) && forall id :: id in ids ==> id !in m
    ensures PutFresh(m, ids).1 == ids
  {
    if ids != [] {
      var init, last := ids[..|ids| - 1], ids[|ids| - 1];
      assert ids == init + [last];
      AllFresh(m, init);
      FreshHoldsOnlyThese(m, init, last);
    }
  }

  /** What the node was last made to know, at most 10240 ids, before step `k`. */
  function OwnRecent(run: seq<Action>, kind: Kind, k: nat): seq<Id>
    requires k <= |run|
  {
    Recent(Flat(OwnLog(run, kind)[0..k]), LRU_CACHE_SIZE)
  }

  function PeerRecent(run: seq<Action>, p: PeerId, kind: Kind, k: nat): seq<Id>
    requires k <= |run| && p in At(run, k).peers
  {
    Recent(Flat(PeerLog(run, p, kind)[Since(run, p, k)..k]), LRU_CACHE_SIZE)
  }

  /** What step `k`, a message received from a peer, hands to the message handler. */
  function HandedOver(run: seq<Action>, k: nat): Option<Message>
    requires k < |run| && run[k].Received?
  {
    Receive(At(run, k), run[k].peer, run[k].message).1
  }

  /** A block message of a connected peer is handed over, as it is, exactly if the block is not among the most recent
      of what the node was made to know. */
  lemma BlockIsHandedOverIff(run: seq<Action>, k: nat)
    requires k < |run| && run[k].Received? && run[k].peer in At(run, k).peers && run[k].message.CompactBlock?
    ensures HandedOver(run, k) == if run[k].message.id in OwnRecent(run, Blocks, k) then None else Some(run[k].message)
  {
    OwnItems(run, Blocks, k);
  }

  /** A message with transactions, in full or announced, of a connected peer is swallowed exactly if every one is among
      the most recent of what the node was made to know; an empty message in full is not. What is handed over is a
      message of the same kind, and it is the whole message if its ids are distinct and none is among the most recent. */
  lemma TxnsAreHandedOverIff(run: seq<Action>, k: nat)
    requires k < |run| && run[k].Received? && run[k].peer in At(run, k).peers
    requires run[k].message.Transactions? || run[k].message.TxnAnnouncement?
    ensures var m, handed, recent := run[k].message, HandedOver(run, k), OwnRecent(run, Txns, k);
      && (handed.None? <==> (m.Transactions? ==> m.ids != []) && forall id :: id in m.ids ==> id in recent)
      && (handed.Some? ==> (handed.value.Transactions? <==> m.Transactions?) && (handed.value.TxnAnnouncement? <==> m.TxnAnnouncement?))
      && (m.ids != [] && NoDuplicates(m.ids) && (forall id :: id in m.ids ==> id !in recent) ==> handed == Some(m))
  {
    var m, own := run[k].message, At(run, k).ownTxns;
    OwnItems(run, Txns, k);
    NothingFreshIff(own, m.ids);
    if NoDuplicates(m.ids) && forall id :: id in m.ids ==> id !in own {
      AllFresh(own, m.ids);
    }
  }

  /** A transaction not among the most recent of what the node was made to know is always handed to the
      message handler. */
  lemma UnknownIsHandedOver(run: seq<Action>, k: nat, id: Id)
    requires k < |run| && run[k].Received? && run[k].peer in At(run, k).peers && id in IdsIn(Txns, Some(run[k].message))
    requires id !in OwnRecent(run, Txns, k)
    ensures id in StepHands(At(run, k), run[k], Txns)
  {
    OwnItems(run, Txns, k);
    UnknownIsFresh(At(run, k).ownTxns, run[k].message.ids, id);
  }

  /** A message from a peer that is not connected is ignored. */
  lemma StrangerIsIgnored(run: seq<Action>, k: nat)
    requires k < |run| && run[k].Received? && run[k].peer !in At(run, k).peers
    ensures HandedOver(run, k) == None && At(run, k + 1) == At(run, k)
  {
  }

  /** What step `k`, a broadcast, sends to a peer. */
  function SentTo(run: seq<Action>, p: PeerId, k: nat): Option<Message>
    requires k < |run| && run[k].Broadcasted?
  {
    Sends(At(run, k), run[k].message, run[k].selected, p)
  }

  /** A broadcast block is sent to a connected peer exactly if the peer was selected, supports blocks, and the block is
      not among the most recent of what was recorded for it. */
  lemma BlockIsSentIff(run: seq<Action>, k: nat, p: PeerId)
    requires k < |run| && run[k].Broadcasted? && run[k].message.CompactBlock? && p in At(run, k).peers
    ensures SentTo(run, p, k) ==
      if p in run[k].selected && BlockProtocol in At(run, k).peers[p].protocols && run[k].message.id !in PeerRecent(run, p, Blocks, k)
      then Some(run[k].message) else None
  {
    PeerItems(run, p, Blocks, k);
  }

  /** Broadcast transactions are sent to a connected peer, in full if it was selected and otherwise announced if it
      supports announcements, exactly if one of them is not among the most recent of what was recorded for it; and all of
      them if they are distinct and none is. */
  lemma TxnsAreSentIff(run: seq<Action>, k: nat, p: PeerId)
    requires k < |run| && run[k].Broadcasted? && run[k].message.Transactions? && p in At(run, k).peers
    ensures var ids, sent, recent := run[k].message.ids, SentTo(run, p, k), PeerRecent(run, p, Txns, k);
      var full, announced := p in run[k].selected, AnnouncementProtocol in At(run, k).peers[p].protocols;
      && (sent.Some? <==> (full || announced) && exists id :: id in ids && id !in recent)
      && (sent.Some? ==> if full then sent.value.Transactions? else sent.value.TxnAnnouncement?)
      && (sent.Some? && NoDuplicates(ids) && (forall id :: id in ids ==> id !in recent) ==>
            sent.value == if full then Transactions(ids) else TxnAnnouncement(ids))
  {
    var ids, txns := run[k].message.ids, At(run, k).peers[p].txns;
    PeerItems(run, p, Txns, k);
    NothingFreshIff(txns, ids);
    if NoDuplicates(ids) && forall id :: id in ids ==> id !in txns {
      AllFresh(txns, ids);
    }
  }

  /** A broadcast transaction not among the most recent of what was recorded for a peer is always sent to it,
      if the broadcast reaches it. */
  lemma UnknownIsSent(run: seq<Action>, k: nat, p: PeerId, id: Id)
    requires k < |run| && run[k].Broadcasted? && run[k].message.Transactions? && id in run[k].message.ids
    requires p in At(run, k).peers && !Silent(At(run, k), run[k], p)
    requires id !in PeerRecent(run, p, Txns, k)
    ensures id in StepSends(At(run, k), run[k], p, Txns)
  {
    PeerItems(run, p, Txns, k);
    UnknownReaches(At(run, k), run[k], p, id);
  }

  lemma UnknownReaches(n: Node, a: Action, p: PeerId, id: Id)
    requires a.Broadcasted? && a.message.Transactions? && id in a.message.ids
    requires p in n.peers && !Silent(n, a, p) && id !in n.peers[p].txns
    ensures id in StepSends(n, a, p, Txns)
  {
    UnknownIsFresh(n.peers[p].txns, a.message.ids, id);
  }

  // ---------- who is connected ----------

  /** The peer was connected by the step before it counts as connected, and still has the protocols of that handshake. */
  lemma {:induction false} ProtocolsAreOfHandshake(run: seq<Action>, p: PeerId, k: nat)
    requires k <= |run| && p in At(run, k).peers
    ensures var c := Since(run, p, k);
      && 0 < c <= k && run[c - 1].Connected? && run[c - 1].peer == p
      && At(run, k).peers[p].protocols == run[c - 1].protocols
  {
    if p in At(run, k - 1).peers {
      ProtocolsAreOfHandshake(run, p, k - 1);
      SameProtocols(At(run, k - 1), run[k - 1], p);
    } else {
      NewcomerShakesHands(At(run, k - 1), run[k - 1], p);
    }
  }

  lemma SameProtocols(n: Node, a: Action, p: PeerId)
    requires p in n.peers && p in Next(n, a).peers
    ensures Next(n, a).peers[p].protocols == n.peers[p].protocols
  {
  }

  lemma NewcomerShakesHands(n: Node, a: Action, p: PeerId)
    requires p !in n.peers && p in Next(n, a).peers
    ensures a.Connected? && a.peer == p && Next(n, a).peers[p].protocols == a.protocols
  {
  }

  /** A peer is connected exactly if the last step that connected or disconnected it connected it. */
  lemma {:induction false} ConnectedIff(run: seq<Action>, p: PeerId, k: nat)
    requires k <= |run|
    ensures p in At(run, k).peers <==>
      exists j :: 0 <= j < k && run[j].Connected? && run[j].peer == p && forall i :: j < i < k ==> run[i] != Disconnected(p)
  {
    if k > 0 {
      ConnectedIff(run, p, k - 1);
      StaysUnless(At(run, k - 1), run[k - 1], p);
    }
  }

  lemma StaysUnless(n: Node, a: Action, p: PeerId)
    ensures p in Next(n, a).peers <==> (a.Connected? && a.peer == p) || (p in n.peers && a != Disconnected(p))
  {
  }

  // ---------- what a peer claims ----------

  /** The status the step claims for the peer: a handshake, or a block message of the peer. */
  function Claim(a: Action, p: PeerId): Option<ChainStatus> {
    match a
    case Connected(q, _, status) => if q == p then Some(status) else None
    case Received(q, m) => if q == p && m.CompactBlock? then Some(ChainStatus(m.id, m.difficulty)) else None
    case _ => None
  }

  /** The step claims nothing, or is a handshake with no more difficulty than the status. */
  predicate Ignored(a: Action, p: PeerId, status: ChainStatus) {
    Claim(a, p).Some? ==> a.Connected? && Claim(a, p).value.difficulty <= status.difficulty
  }

  /** Step `j` claims the status, and the steps after it are ignored. */
  predicate ClaimsLast(run: seq<Action>, p: PeerId, j: nat, k: nat, status: ChainStatus) {
    j < k <= |run| && Claim(run[j], p) == Some(status) && forall i :: j < i < k ==> Ignored(run[i], p, status)
  }

  lemma StatusStep(n: Node, a: Action, p: PeerId)
    requires p in Next(n, a).peers
    ensures p !in n.peers || !Ignored(a, p, n.peers[p].status) ==> Claim(a, p) == Some(Next(n, a).peers[p].status)
    ensures p in n.peers && Ignored(a, p, n.peers[p].status) ==> Next(n, a).peers[p].status == n.peers[p].status
  {
  }

  /** At every step of every run the status of a peer is the last one claimed since and including its connecting
      handshake, where a later handshake counts only if it claims more difficulty and a block message always. */
  lemma {:induction false} StatusIsLastClaim(run: seq<Action>, p: PeerId, k: nat)
    requires k <= |run| && p in At(run, k).peers
    ensures exists j: nat :: Since(run, p, k) <= j + 1 && ClaimsLast(run, p, j, k, At(run, k).peers[p].status)
  {
    var n, a, status := At(run, k - 1), run[k - 1], At(run, k).peers[p].status;
    StatusStep(n, a, p);
    if p !in n.peers || !Ignored(a, p, n.peers[p].status) {
      assert ClaimsLast(run, p, k - 1, k, status);
    } else {
      StatusIsLastClaim(run, p, k - 1);
      var j: nat :| Since(run, p, k - 1) <= j + 1 && ClaimsLast(run, p, j, k - 1, status);
      assert ClaimsLast(run, p, j, k, status);
    }
  }
}
