/** Gossip of transactions and blocks with bounded memory (network/src/service.rs): what every message,
    send and broadcast does to the known sets of the node and of its peers. */
module Gossip {
  import opened Basics
  import opened Lru

  const LRU_CACHE_SIZE: nat := 10240

  type Id = nat
  type PeerId = nat

  datatype Protocol = TransactionProtocol | BlockProtocol | AnnouncementProtocol

  datatype Message =
    | Transactions(ids: seq<Id>)
    | CompactBlock(id: Id, difficulty: nat)   // the block and its total difficulty
    | TxnAnnouncement(ids: seq<Id>)
    | OtherAnnouncement(ids: seq<Id>)

  function ProtocolOf(m: Message): Protocol {
    match m
    case Transactions(_) => TransactionProtocol
    case CompactBlock(_, _) => BlockProtocol
    case TxnAnnouncement(_) => AnnouncementProtocol
    case OtherAnnouncement(_) => AnnouncementProtocol
  }

  // ---------- memories ----------

  /** The ids an LRU cache holds, the least recently recorded first. */
  type Memory = seq<Id>

  function Put(m: Memory, id: Id): Memory {
    Refresh(m, LRU_CACHE_SIZE, id)
  }

  function PutAll(m: Memory, ids: seq<Id>): Memory {
    if ids == [] then m else Put(PutAll(m, ids[..|ids| - 1]), ids[|ids| - 1])
  }

  /** Records the ids the memory does not hold, in order, and returns them. */
  function PutFresh(m: Memory, ids: seq<Id>): (Memory, seq<Id>) {
    if ids == [] then (m, [])
    else
      var (m', unseen) := PutFresh(m, ids[..|ids| - 1]);
      var id := ids[|ids| - 1];
      if id in m' then (m', unseen) else (Put(m', id), unseen + [id])
  }

  /** Filtering keeps at most all ids, and if it keeps as many it kept them all. */
  lemma {:induction false} FreshIsShorter(m: Memory, ids: seq<Id>)
    ensures var unseen := PutFresh(m, ids).1;
      |unseen| <= |ids| && (|unseen| == |ids| ==> unseen == ids)
  {
    if ids != [] {
      FreshIsShorter(m, ids[..|ids| - 1]);
      assert ids == ids[..|ids| - 1] + [ids[|ids| - 1]];
    }
  }

  // ---------- the node ----------

  /** The head a peer claims to have. */
  datatype ChainStatus = ChainStatus(head: Id, difficulty: nat)

  datatype Peer = Peer(txns: Memory, blocks: Memory, protocols: set<Protocol>, status: ChainStatus)

  datatype Node = Node(ownTxns: Memory, ownBlocks: Memory, peers: map<PeerId, Peer>)

  function NewPeer(protocols: set<Protocol>, status: ChainStatus): Peer {
    Peer([], [], protocols, status)
  }

  predicate Supported(n: Node, p: PeerId, protocol: Protocol) {
    p in n.peers && protocol in n.peers[p].protocols
  }

  /** A peer that sent a block: it knows the block and has it as its head. */
  function WithReceivedBlock(peer: Peer, id: Id, difficulty: nat): Peer {
    peer.(blocks := Put(peer.blocks, id), status := ChainStatus(id, difficulty))
  }

  /** A message arriving from a peer: the node after it, and what is handed to the handler. */
  function Receive(n: Node, p: PeerId, m: Message): (Node, Option<Message>) {
    if p !in n.peers then (n, None)
    else
      var peer := n.peers[p];
      match m
      case Transactions(ids) =>
        var (own, unseen) := PutFresh(n.ownTxns, ids);
        (n.(ownTxns := own, peers := n.peers[p := peer.(txns := PutAll(peer.txns, ids))]),
         if unseen == [] && ids != [] then None else Some(Transactions(unseen)))
      case CompactBlock(id, difficulty) =>
        var n' := n.(peers := n.peers[p := WithReceivedBlock(peer, id, difficulty)]);
        if id in n.ownBlocks then (n', None)
        else (n'.(ownBlocks := Put(n.ownBlocks, id)), Some(m))
      case TxnAnnouncement(ids) =>
        var (own, unseen) := PutFresh(n.ownTxns, ids);
        (n.(ownTxns := own, peers := n.peers[p := peer.(txns := PutAll(peer.txns, ids))]),
         if unseen == [] then None else Some(TxnAnnouncement(unseen)))
      case OtherAnnouncement(_) => (n, None)
  }

  /** A message sent to one peer directly: only the node's own memory records it. */
  function SendTo(n: Node, p: PeerId, m: Message): Node {
    if !Supported(n, p, ProtocolOf(m)) then n
    else
      match m
      case Transactions(ids) => n.(ownTxns := PutAll(n.ownTxns, ids))
      case CompactBlock(id, _) => n.(ownBlocks := Put(n.ownBlocks, id))
      case TxnAnnouncement(ids) => n.(ownTxns := PutAll(n.ownTxns, ids))
      case OtherAnnouncement(_) => n
  }

  /** The peers a block may be broadcast to. */
  function BlockTargets(n: Node, id: Id): set<PeerId> {
    set p | p in n.peers && id !in n.peers[p].blocks && BlockProtocol in n.peers[p].protocols
  }

  /** Whether a transaction broadcast reaches a peer: in full if it was selected, else announced. */
  predicate TxnsReach(peer: Peer, selected: bool) {
    selected || AnnouncementProtocol in peer.protocols
  }

  /** A peer after a transaction broadcast, and what is sent to it: the transactions it does not know,
      in full or announced, or nothing. */
  function WithTxns(peer: Peer, ids: seq<Id>, selected: bool): (Peer, Option<Message>) {
    var reach := TxnsReach(peer, selected);
    var (txns, unseen) := PutFresh(peer.txns, ids);
    (peer.(txns := txns),
     if unseen == [] || !reach then None else if selected then Some(Transactions(unseen)) else Some(TxnAnnouncement(unseen)))
  }

  function WithBlock(peer: Peer, id: Id): Peer {
    peer.(blocks := Put(peer.blocks, id))
  }

  /** Broadcasts a message; `selected` are the randomly chosen peers. */
  function Broadcast(n: Node, m: Message, selected: set<PeerId>): Node {
    match m
    case CompactBlock(id, _) =>
      n.(ownBlocks := Put(n.ownBlocks, id),
         peers := map p | p in n.peers ::
           if p in selected && p in BlockTargets(n, id) then WithBlock(n.peers[p], id) else n.peers[p])
    case Transactions(ids) =>
      n.(ownTxns := PutAll(n.ownTxns, ids),
         peers := map p | p in n.peers :: WithTxns(n.peers[p], ids, p in selected).0)
    case TxnAnnouncement(_) => n
    case OtherAnnouncement(_) => n
  }

  /** What a broadcast sends to a peer. */
  function Sends(n: Node, m: Message, selected: set<PeerId>, p: PeerId): Option<Message> {
    if p !in n.peers then None
    else
      match m
      case CompactBlock(id, _) => if p in selected && p in BlockTargets(n, id) then Some(m) else None
      case Transactions(ids) => WithTxns(n.peers[p], ids, p in selected).1
      case TxnAnnouncement(_) => None
      case OtherAnnouncement(_) => None
  }

  /** A handshake: a known peer keeps all but its status, which is replaced by a better one. */
  function PeerConnected(n: Node, p: PeerId, protocols: set<Protocol>, status: ChainStatus): Node {
    if p !in n.peers then n.(peers := n.peers[p := NewPeer(protocols, status)])
    else if status.difficulty > n.peers[p].status.difficulty then n.(peers := n.peers[p := n.peers[p].(status := status)])
    else n
  }

  function PeerDisconnected(n: Node, p: PeerId): Node {
    n.(peers := n.peers - {p})
  }

  // ---------- every run ----------

  datatype Action =
    | Received(peer: PeerId, message: Message)
    | Sent(peer: PeerId, message: Message)
    | Broadcasted(message: Message, selected: set<PeerId>)
    | Connected(peer: PeerId, protocols: set<Protocol>, status: ChainStatus)
    | Disconnected(peer: PeerId)

  function Next(n: Node, a: Action): Node {
    match a
    case Received(p, m) => Receive(n, p, m).0
    case Sent(p, m) => SendTo(n, p, m)
    case Broadcasted(m, selected) => Broadcast(n, m, selected)
    case Connected(p, protocols, status) => PeerConnected(n, p, protocols, status)
    case Disconnected(p) => PeerDisconnected(n, p)
  }

  /** The node before the first step of a run. */
  const EMPTY_NODE := Node([], [], map[])

  // ---------- the mutable node ----------

  class Inner {
    var ownTxns: Memory
    var ownBlocks: Memory
    var peers: map<PeerId, Peer>

    function View(): Node
      reads this
    {
      Node(ownTxns, ownBlocks, peers)
    }

    constructor ()
      ensures View() == EMPTY_NODE
    {
      ownTxns, ownBlocks, peers := [], [], map[];
    }

    /** Records ids as known to a peer. */
    method PeerKnows(p: PeerId, ids: seq<Id>)
      requires p in peers
      modifies `peers
      ensures peers == old(peers)[p := old(peers)[p].(txns := PutAll(old(peers)[p].txns, ids))]
    {
      for i := 0 to |ids|
        invariant peers == old(peers)[p := old(peers)[p].(txns := PutAll(old(peers)[p].txns, ids[..i]))]
      {
        assert ids[..i + 1][..i] == ids[..i];
        peers := peers[p := peers[p].(txns := Put(peers[p].txns, ids[i]))];
      }
      assert ids[..|ids|] == ids;
    }

    /** Records ids as known to the node. */
    method SelfKnows(ids: seq<Id>)
      modifies `ownTxns
      ensures ownTxns == PutAll(old(ownTxns), ids)
    {
      for i := 0 to |ids|
        invariant ownTxns == PutAll(old(ownTxns), ids[..i])
      {
        assert ids[..i + 1][..i] == ids[..i];
        ownTxns := Put(ownTxns, ids[i]);
      }
      assert ids[..|ids|] == ids;
    }

    /** Keeps the ids the node does not know yet, recording them. */
    method FilterOwn(ids: seq<Id>) returns (unseen: seq<Id>)
      modifies `ownTxns
      ensures (ownTxns, unseen) == PutFresh(old(ownTxns), ids)
    {
      unseen := [];
      for i := 0 to |ids|
        invariant (ownTxns, unseen) == PutFresh(old(ownTxns), ids[..i])
      {
        assert ids[..i + 1][..i] == ids[..i];
        if ids[i] !in ownTxns {
          ownTxns := Put(ownTxns, ids[i]);
          unseen := unseen + [ids[i]];
        }
      }
      assert ids[..|ids|] == ids;
    }

    /** `decoded` is the message, if the bytes are one; those of an unknown peer are not looked at. */
    method HandleNetworkMessage(p: PeerId, decoded: Option<Message>) returns (r: Result<Option<Message>, ()>)
      modifies this
      ensures p in old(peers) && decoded.None? ==> r == Err(()) && View() == old(View())
      ensures p !in old(peers) ==> r == Ok(None) && View() == old(View())
      ensures p in old(peers) && decoded.Some? ==>
        r.Ok? && (View(), r.value) == Receive(old(View()), p, decoded.value)
    {
      if p !in peers {
        return Ok(None);
      }
      if decoded.None? {
        return Err(());
      }
      var handed := HandleMessage(p, decoded.value);
      r := Ok(handed);
    }

    method HandleMessage(p: PeerId, m: Message) returns (handed: Option<Message>)
      requires p in peers
      modifies this
      ensures (View(), handed) == Receive(old(View()), p, m)
    {
      match m {
        case Transactions(ids) =>
          PeerKnows(p, ids);
          FreshIsShorter(ownTxns, ids);
          var unseen := FilterOwn(ids);
          if |unseen| == |ids| {
            handed := Some(m);
          } else if unseen == [] {
            handed := None;
          } else {
            handed := Some(Transactions(unseen));
          }
        case CompactBlock(id, difficulty) =>
          peers := peers[p := WithReceivedBlock(peers[p], id, difficulty)];
          if id in ownBlocks {
            handed := None;
          } else {
            ownBlocks := Put(ownBlocks, id);
            handed := Some(m);
          }
        case TxnAnnouncement(ids) =>
          PeerKnows(p, ids);
          var unseen := FilterOwn(ids);
          handed := if unseen == [] then None else Some(TxnAnnouncement(unseen));
        case OtherAnnouncement(_) =>
          handed := None;
      }
    }

    method SendPeerMessage(p: PeerId, m: Message) returns (written: bool)
      modifies this
      ensures View() == SendTo(old(View()), p, m)
      ensures written <==> Supported(old(View()), p, ProtocolOf(m))
    {
      written := Supported(View(), p, ProtocolOf(m));
      if written {
        match m {
          case Transactions(ids) => SelfKnows(ids);
          case CompactBlock(id, _) => ownBlocks := Put(ownBlocks, id);
          case TxnAnnouncement(ids) => SelfKnows(ids);
          case OtherAnnouncement(_) =>
        }
      }
    }

    /** Sends a peer the transactions it does not know, recording them as known to it. */
    method BroadcastTo(p: PeerId, ids: seq<Id>, selected: bool) returns (sent: Option<Message>)
      requires p in peers
      modifies `peers
      ensures peers == old(peers)[p := WithTxns(old(peers)[p], ids, selected).0]
      ensures sent == WithTxns(old(peers)[p], ids, selected).1
    {
      var reach := TxnsReach(peers[p], selected);
      var known := peers[p].txns;
      var unseen: seq<Id> := [];
      for i := 0 to |ids|
        invariant (known, unseen) == PutFresh(peers[p].txns, ids[..i])
      {
        assert ids[..i + 1][..i] == ids[..i];
        if ids[i] !in known {
          known := Put(known, ids[i]);
          unseen := unseen + [ids[i]];
        }
      }
      assert ids[..|ids|] == ids;
      peers := peers[p := peers[p].(txns := known)];
      if unseen == [] || !reach {
        sent := None;
      } else {
        sent := Some(if selected then Transactions(unseen) else TxnAnnouncement(unseen));
      }
    }

    /** Sends every peer the transactions it does not know. */
    method BroadcastToAll(ids: seq<Id>, selected: set<PeerId>) returns (sent: map<PeerId, Message>)
      modifies `peers
      ensures peers.Keys == old(peers).Keys && sent.Keys <= peers.Keys
      ensures forall p :: p in peers ==> peers[p] == WithTxns(old(peers)[p], ids, p in selected).0
      ensures forall p :: p in peers ==> Find(sent, p) == WithTxns(old(peers)[p], ids, p in selected).1
    {
      sent := map[];
      var todo := peers.Keys;
      while todo != {}
        invariant todo <= peers.Keys == old(peers).Keys && sent.Keys <= peers.Keys - todo
        invariant forall p :: p in todo ==> peers[p] == old(peers)[p]
        invariant forall p :: p in peers && p !in todo ==> peers[p] == WithTxns(old(peers)[p], ids, p in selected).0
        invariant forall p :: p in peers && p !in todo ==> Find(sent, p) == WithTxns(old(peers)[p], ids, p in selected).1
        decreases |todo|
      {
        var p :| p in todo;
        todo := todo - {p};
        var message := BroadcastTo(p, ids, p in selected);
        if message.Some? {
          sent := sent[p := message.value];
        }
      }
    }

    method BroadcastTransactions(ids: seq<Id>, selected: set<PeerId>) returns (sent: map<PeerId, Message>)
      modifies this
      ensures View() == Broadcast(old(View()), Transactions(ids), selected)
      ensures forall p :: Find(sent, p) == Sends(old(View()), Transactions(ids), selected, p)
    {
      SelfKnows(ids);
      sent := BroadcastToAll(ids, selected);
    }

    /** Records the block as known to the given peers. */
    method PeersKnowBlock(targets: set<PeerId>, id: Id)
      requires targets <= peers.Keys
      modifies `peers
      ensures peers.Keys == old(peers).Keys
      ensures forall p :: p in peers ==> peers[p] == if p in targets then WithBlock(old(peers)[p], id) else old(peers)[p]
    {
      var todo := targets;
      while todo != {}
        invariant todo <= targets && peers.Keys == old(peers).Keys
        invariant forall p :: p in peers ==>
          peers[p] == if p in targets && p !in todo then WithBlock(old(peers)[p], id) else old(peers)[p]
        decreases |todo|
      {
        var p :| p in todo;
        todo := todo - {p};
        peers := peers[p := WithBlock(peers[p], id)];
      }
    }

    method BroadcastBlock(id: Id, difficulty: nat, selected: set<PeerId>) returns (sent: set<PeerId>)
      modifies this
      ensures View() == Broadcast(old(View()), CompactBlock(id, difficulty), selected)
      ensures forall p :: (if p in sent then Some(CompactBlock(id, difficulty)) else None)
                          == Sends(old(View()), CompactBlock(id, difficulty), selected, p)
    {
      ownBlocks := Put(ownBlocks, id);
      sent := selected * BlockTargets(View(), id);
      assert forall p :: p in sent <==> p in selected && p in BlockTargets(old(View()), id);
      PeersKnowBlock(sent, id);
    }

    method OnPeerConnected(p: PeerId, protocols: set<Protocol>, status: ChainStatus)
      modifies this
      ensures View() == PeerConnected(old(View()), p, protocols, status)
    {
      if p !in peers {
        peers := peers[p := NewPeer(protocols, status)];
      } else if status.difficulty > peers[p].status.difficulty {
        peers := peers[p := peers[p].(status := status)];
      }
    }

    method OnPeerDisconnected(p: PeerId)
      modifies this
      ensures View() == PeerDisconnected(old(View()), p)
    {
      peers := peers - {p};
    }
  }
}
