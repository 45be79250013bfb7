/** Options, results, machine integers and sequences shared by the modules of the project. */
module Basics {
  datatype Option<+T> = None | Some(value: T)

  datatype Result<+T, +E> = Ok(value: T) | Err(error: E)

  function Find<K, V>(m: map<K, V>, k: K): Option<V> {
    if k in m then Some(m[k]) else None
  }

  function Min(a: nat, b: nat): nat {
    if a <= b then a else b
  }

  const U64_MAX: nat := 0xFFFF_FFFF_FFFF_FFFF

  /** Addition that stops at the largest 64-bit number. */
  function SatAdd(a: nat, b: nat): nat {
    if a + b <= U64_MAX then a + b else U64_MAX
  }

  function SatSub(a: nat, b: nat): nat {
    if a >= b then a - b else 0
  }

  function Pow256(k: nat): nat {
    if k == 0 then 1 else 256 * Pow256(k - 1)
  }

  function Reversed<T>(s: seq<T>): (r: seq<T>)
    ensures |r| == |s|
  {
    if s == [] then [] else Reversed(s[1..]) + [s[0]]
  }

  lemma {:induction false} ReversedAt<T>(s: seq<T>)
    ensures forall i :: 0 <= i < |s| ==> Reversed(s)[i] == s[|s| - 1 - i]
  {
    if s != [] {
      ReversedAt(s[1..]);
    }
  }

  lemma {:induction false} ReversedConcat<T>(a: seq<T>, b: seq<T>)
    ensures Reversed(a + b) == Reversed(b) + Reversed(a)
  {
    if a == [] {
      assert a + b == b;
    } else {
      assert (a + b)[1..] == a[1..] + b;
      ReversedConcat(a[1..], b);
      assert Reversed(b) + Reversed(a[1..]) + [a[0]] == Reversed(b) + (Reversed(a[1..]) + [a[0]]);
    }
  }

  lemma ReversedOne<T>(x: T)
    ensures Reversed([x]) == [x]
  {
    assert Reversed([x]) == Reversed([x][1..]) + [x];
  }

  lemma {:induction false} ReversedTwice<T>(s: seq<T>)
    ensures Reversed(Reversed(s)) == s
  {
    if s != [] {
      ReversedTwice(s[1..]);
      ReversedConcat(Reversed(s[1..]), [s[0]]);
      ReversedOne(s[0]);
      assert s == [s[0]] + s[1..];
    }
  }

  // ---------- choosing some of a sequence ----------

  /** The positions marked in `keep`, each of them once and in order. */
  function Chosen(keep: seq<bool>): (at: seq<nat>)
    ensures forall i :: 0 <= i < |at| ==> at[i] < |keep| && keep[at[i]]
    ensures forall i, j :: 0 <= i < j < |at| ==> at[i] < at[j]
    ensures forall k :: 0 <= k < |keep| && keep[k] ==> k in at
  {
    if keep == [] then []
    else
      var n := |keep| - 1;
      Chosen(keep[..n]) + if keep[n] then [n] else []
  }

  function Picked<T>(s: seq<T>, at: seq<nat>): (r: seq<T>)
    requires forall i :: 0 <= i < |at| ==> at[i] < |s|
    ensures |r| == |at| && forall i :: 0 <= i < |r| ==> r[i] == s[at[i]]
  {
    seq(|at|, i requires 0 <= i < |at| => s[at[i]])
  }

  lemma PickedStep<T>(s: seq<T>, keep: seq<bool>)
    requires |s| == |keep| > 0
    ensures var n := |s| - 1;
      Picked(s, Chosen(keep)) == Picked(s[..n], Chosen(keep[..n])) + if keep[n] then [s[n]] else []
  {
  }

  /** The values that are there. */
  function Present<T>(s: seq<Option<T>>): seq<T> {
    if s == [] then []
    else
      var last := s[|s| - 1];
      Present(s[..|s| - 1]) + if last.Some? then [last.value] else []
  }

  function PresentMarks<T>(s: seq<Option<T>>): (keep: seq<bool>)
    ensures |keep| == |s| && forall i :: 0 <= i < |keep| ==> keep[i] == s[i].Some?
  {
    seq(|s|, i requires 0 <= i < |s| => s[i].Some?)
  }

  /** They are picked at the positions where there is one, in order. */
  lemma {:induction false} PresentArePicked<T>(s: seq<Option<T>>)
    ensures var at := Chosen(PresentMarks(s));
      |Present(s)| == |at| && forall i :: 0 <= i < |at| ==> s[at[i]] == Some(Present(s)[i])
  {
    if s != [] {
      var n, keep := |s| - 1, PresentMarks(s);
      PresentArePicked(s[..n]);
      assert keep[..n] == PresentMarks(s[..n]);
    }
  }
}

/** The values a block chain is made of.

    Hashing is idealised as collision free: a hash value *is* a constructor applied to the
    value that was hashed, so two hashes are equal exactly when the hashed values are.
    A Merkle accumulator is the sequence of its leaves; its root is the hash of that sequence. */
module ChainTypes {
  import opened Basics

  datatype Epoch = Epoch(
    start: nat, end: nat,
    difficultyWindow: nat, timeTarget: nat,
    maxUncles: nat, gasLimit: nat)

  datatype StateValue = EpochResource(epoch: Epoch) | Blob(data: nat)

  /** Chain state: access path to value. The epoch resource lives at a fixed path. */
  type State = map<nat, StateValue>

  const EPOCH_PATH: nat := 0

  datatype HashValue =
    | Zero
    | OfHeader(header: BlockHeader)
    | OfBody(body: BlockBody)
    | OfTransaction(txn: Transaction)
    | OfInfo(info: TransactionInfo)
    | OfState(state: State)
    | OfLeaves(leaves: seq<HashValue>)
    | OfEvents(events: seq<ContractEvent>)

  datatype BlockHeader = BlockHeader(
    parentHash: HashValue, number: nat, timestamp: nat, author: nat,
    stateRoot: HashValue, txnAccumulatorRoot: HashValue, blockAccumulatorRoot: HashValue,
    bodyHash: HashValue, gasUsed: nat, difficulty: nat, nonce: nat)

  datatype BlockBody = BlockBody(transactions: seq<nat>, uncles: Option<seq<BlockHeader>>)

  datatype Block = Block(header: BlockHeader, body: BlockBody) {
    function Id(): HashValue { OfHeader(header) }
  }

  datatype Transaction =
    | BlockMetadata(parentHash: HashValue, timestamp: nat, author: nat, uncles: nat, number: nat, parentGasUsed: nat)
    | UserTransaction(payload: nat)

  datatype ContractEvent = ContractEvent(key: nat, data: nat)

  datatype TransactionInfo = TransactionInfo(
    transactionHash: HashValue, stateRoot: HashValue, eventRoot: HashValue, gasUsed: nat, status: nat)

  datatype BlockTransactionInfo = BlockTransactionInfo(blockId: HashValue, txnInfo: TransactionInfo)

  datatype BlockInfo = BlockInfo(
    blockId: HashValue, totalDifficulty: nat,
    txnAccumulator: seq<HashValue>, blockAccumulator: seq<HashValue>)

  /** The contents of the block store that every chain of a node shares. */
  datatype Store = Store(
    genesis: Option<HashValue>,
    headers: map<HashValue, BlockHeader>,
    blocks: map<HashValue, Block>,
    infos: map<HashValue, BlockInfo>,
    txnInfoIds: map<HashValue, seq<HashValue>>,
    txnInfos: map<HashValue, BlockTransactionInfo>,
    events: map<HashValue, seq<ContractEvent>>,
    txnIds: map<HashValue, seq<HashValue>>,
    transactions: map<HashValue, Transaction>)

  function UncleIds(body: BlockBody): (ids: seq<HashValue>) {
    match body.uncles
    case None => []
    case Some(us) => seq(|us|, i requires 0 <= i < |us| => OfHeader(us[i]))
  }

  function EpochOf(state: State): Option<Epoch> {
    if EPOCH_PATH in state && state[EPOCH_PATH].EpochResource? then Some(state[EPOCH_PATH].epoch) else None
  }

  /** The epoch resource read from the state under `root`. */
  function EpochUnder(root: HashValue): Option<Epoch> {
    if root.OfState? then EpochOf(root.state) else None
  }
}
