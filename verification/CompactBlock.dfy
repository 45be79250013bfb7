/** Filling a compact block from the pool, the prefilled transactions and a peer
    (block-relayer/src/block_relayer.rs, sync/src/verified_rpc_client.rs). */
module CompactBlock {
  import opened Basics
  import opened Lru

  type Id = nat

  datatype SignedTxn = SignedTxn(id: Id, payload: nat)

  /** What a peer may answer with; only a user transaction can be put in a block body. */
  datatype Transaction = UserTransaction(txn: SignedTxn) | BlockMetadata(metadataId: Id) {
    function Id(): Id { if UserTransaction? then txn.id else metadataId }
  }

  datatype Prefilled = Prefilled(index: nat, txn: SignedTxn)

  datatype FillError = NoPeer | PeerFailed | CountMismatch | IdMismatch | NotUserTransaction

  type Slots = seq<Option<SignedTxn>>
  type Answers = seq<Option<Transaction>>

  /** How a request ends: a peer is selected in any case, even if one was named, and selecting fails
      without peers; then the request itself may fail. */
  datatype Response = Response(selectable: bool, answers: Result<Answers, ()>)

  // ---------- the verified fetch ----------

  /** The answers are one per id, and each transaction has the id it was asked for by. */
  predicate Verified(ids: seq<Id>, answers: Answers) {
    |answers| == |ids| && forall i :: 0 <= i < |ids| ==> answers[i].None? || answers[i].value.Id() == ids[i]
  }

  function MissingIn(ids: seq<Id>, answers: Answers): seq<Id>
    requires |ids| == |answers|
  {
    if ids == [] then []
    else
      var k := |ids| - 1;
      MissingIn(ids[..k], answers[..k]) + if answers[k].None? then [ids[k]] else []
  }

  /** What the fetch reports if it fails. */
  function FetchError(ids: seq<Id>, response: Response): Option<FillError> {
    if !response.selectable then Some(NoPeer)
    else if response.answers.Err? then Some(PeerFailed)
    else if |response.answers.value| != |ids| then Some(CountMismatch)
    else if !Verified(ids, response.answers.value) then Some(IdMismatch)
    else None
  }

  method GetTxns(ids: seq<Id>, response: Response) returns (r: Result<(seq<Id>, seq<Transaction>), FillError>)
    ensures match FetchError(ids, response)
      case Some(e) => r == Err(e)
      case None => r == Ok((MissingIn(ids, response.answers.value), Present(response.answers.value)))
  {
    if !response.selectable {
      return Err(NoPeer);
    }
    if response.answers.Err? {
      return Err(PeerFailed);
    }
    var answers := response.answers.value;
    if |answers| != |ids| {
      return Err(CountMismatch);
    }
    var missing: seq<Id>, found: seq<Transaction> := [], [];
    for i := 0 to |ids|
      invariant forall k :: 0 <= k < i ==> answers[k].None? || answers[k].value.Id() == ids[k]
      invariant missing == MissingIn(ids[..i], answers[..i]) && found == Present(answers[..i])
    {
      assert ids[..i + 1][..i] == ids[..i] && answers[..i + 1][..i] == answers[..i];
      match answers[i] {
        case Some(txn) =>
          if txn.Id() != ids[i] {
            return Err(IdMismatch);
          }
          found := found + [txn];
        case None =>
          missing := missing + [ids[i]];
      }
    }
    assert ids[..|ids|] == ids && answers[..|ids|] == answers;
    r := Ok((missing, found));
  }

  /** Which of the answers are missing. */
  function MissingMarks(answers: Answers): (keep: seq<bool>)
    ensures |keep| == |answers| && forall i :: 0 <= i < |keep| ==> keep[i] == answers[i].None?
  {
    seq(|answers|, i requires 0 <= i < |answers| => answers[i].None?)
  }

  /** The ids reported missing are the asked ones without an answer, in order. */
  lemma {:induction false} MissingArePicked(ids: seq<Id>, answers: Answers)
    requires |ids| == |answers|
    ensures MissingIn(ids, answers) == Picked(ids, Chosen(MissingMarks(answers)))
  {
    if ids != [] {
      var n, keep := |ids| - 1, MissingMarks(answers);
      MissingArePicked(ids[..n], answers[..n]);
      assert keep[..n] == MissingMarks(answers[..n]);
      PickedStep(ids, keep);
    }
  }

  // ---------- looking up what was fetched ----------

  /** The fetched transactions by id. */
  function ById(found: seq<Transaction>): map<Id, Transaction> {
    if found == [] then map[]
    else ById(found[..|found| - 1])[found[|found| - 1].Id() := found[|found| - 1]]
  }

  /** The peer answered `id` with a transaction. */
  ghost predicate Delivered(ids: seq<Id>, answers: Answers, id: Id) {
    exists i :: 0 <= i < |ids| && i < |answers| && ids[i] == id && answers[i].Some?
  }

  /** Answer `j` is the last transaction delivered for `id`. */
  ghost predicate LastDelivered(ids: seq<Id>, answers: Answers, id: Id, j: nat)
    requires |ids| == |answers|
  {
    j < |ids| && ids[j] == id && answers[j].Some? && forall k :: j < k < |ids| && ids[k] == id ==> answers[k].None?
  }

  /** Under an id the last transaction delivered for it is found. */
  lemma {:induction false} FetchedIsLast(ids: seq<Id>, answers: Answers, id: Id, j: nat)
    requires Verified(ids, answers) && LastDelivered(ids, answers, id, j)
    ensures Find(ById(Present(answers)), id) == answers[j]
  {
    var k := |ids| - 1;
    var found, init := Present(answers), Present(answers[..k]);
    if answers[k].Some? {
      assert found[..|found| - 1] == init;
    } else {
      assert found == init;
    }
    if j < k {
      FetchedIsLast(ids[..k], answers[..k], id, j);
    }
  }

  lemma {:induction false} SomeIsLast(ids: seq<Id>, answers: Answers, id: Id)
    requires |ids| == |answers| && Delivered(ids, answers, id)
    ensures exists j: nat :: LastDelivered(ids, answers, id, j)
  {
    var k := |ids| - 1;
    if ids[k] == id && answers[k].Some? {
      assert LastDelivered(ids, answers, id, k);
    } else {
      var i :| 0 <= i < |ids| && ids[i] == id && answers[i].Some?;
      assert ids[..k][i] == id && answers[..k][i].Some?;
      SomeIsLast(ids[..k], answers[..k], id);
      var j: nat :| LastDelivered(ids[..k], answers[..k], id, j);
      assert LastDelivered(ids, answers, id, j);
    }
  }

  lemma {:induction false} FetchedIsDelivered(ids: seq<Id>, answers: Answers, id: Id)
    requires Verified(ids, answers)
    ensures id in ById(Present(answers)) <==> Delivered(ids, answers, id)
    ensures id in ById(Present(answers)) ==> ById(Present(answers))[id].Id() == id
  {
    if ids != [] {
      var k := |ids| - 1;
      FetchedIsDelivered(ids[..k], answers[..k], id);
      var found, init := Present(answers), Present(answers[..k]);
      if answers[k].Some? {
        assert found[..|found| - 1] == init;
      } else {
        assert found == init;
      }
      if Delivered(ids[..k], answers[..k], id) {
        var i :| 0 <= i < k && ids[..k][i] == id && answers[..k][i].Some?;
        assert ids[i] == id && answers[i].Some?;
      }
      if Delivered(ids, answers, id) && !(ids[k] == id && answers[k].Some?) {
        var i :| 0 <= i < |ids| && ids[i] == id && answers[i].Some?;
        assert ids[..k][i] == id && answers[..k][i].Some?;
      }
    }
  }

  // ---------- the three fillings ----------

  function FromPool(shortIds: seq<Id>, pool: map<Id, SignedTxn>): (r: Slots)
    ensures |r| == |shortIds|
    ensures forall i :: 0 <= i < |r| ==> r[i] == if shortIds[i] in pool then Some(pool[shortIds[i]]) else None
  {
    seq(|shortIds|, i requires 0 <= i < |shortIds| => if shortIds[i] in pool then Some(pool[shortIds[i]]) else None)
  }

  function NotInPool(shortIds: seq<Id>, pool: map<Id, SignedTxn>): set<Id> {
    set id | id in shortIds && id !in pool
  }

  function WithPrefilled(slots: Slots, prefilled: seq<Prefilled>): (r: Slots)
    ensures |r| == |slots|
  {
    if prefilled == [] then slots
    else
      var s, p := WithPrefilled(slots, prefilled[..|prefilled| - 1]), prefilled[|prefilled| - 1];
      if p.index < |slots| then s[p.index := Some(p.txn)] else s
  }

  /** The ids still missing once the prefilled transactions inside the block are taken off. */
  function StillMissing(missing: set<Id>, n: nat, prefilled: seq<Prefilled>): set<Id> {
    if prefilled == [] then missing
    else
      var m, p := StillMissing(missing, n, prefilled[..|prefilled| - 1]), prefilled[|prefilled| - 1];
      if p.index < n then m - {p.txn.id} else m
  }

  /** Fills the first `n` empty slots' ids from `fetched`, each fetched transaction at most once. */
  function Fetch(shortIds: seq<Id>, slots: Slots, fetched: map<Id, Transaction>, n: nat)
    : Result<(Slots, map<Id, Transaction>), FillError>
    requires |slots| == |shortIds| && n <= |slots|
    ensures Fetch(shortIds, slots, fetched, n).Ok? ==> |Fetch(shortIds, slots, fetched, n).value.0| == |slots|
  {
    if n == 0 then Ok((slots, fetched))
    else
      var r := Fetch(shortIds, slots, fetched, n - 1);
      if r.Err? then r
      else
        var (s, left) := r.value;
        var id := shortIds[n - 1];
        if s[n - 1].Some? || id !in left then r
        else if !left[id].UserTransaction? then Err(NotUserTransaction)
        else Ok((s[n - 1 := Some(left[id].txn)], left - {id}))
  }

  function Prepared(shortIds: seq<Id>, prefilled: seq<Prefilled>, pool: map<Id, SignedTxn>): Slots {
    WithPrefilled(FromPool(shortIds, pool), prefilled)
  }

  function Wanted(shortIds: seq<Id>, prefilled: seq<Prefilled>, pool: map<Id, SignedTxn>): set<Id> {
    StillMissing(NotInPool(shortIds, pool), |shortIds|, prefilled)
  }

  /** The fetched transactions; nothing is asked for when nothing is missing. */
  function Fetched(asked: seq<Id>, response: Response): Result<map<Id, Transaction>, FillError> {
    if asked == [] then Ok(map[])
    else
      match FetchError(asked, response)
      case Some(e) => Err(e)
      case None => Ok(ById(Present(response.answers.value)))
  }

  /** The slots after the peer's answers to `asked`. */
  function FilledSlots(shortIds: seq<Id>, slots: Slots, asked: seq<Id>, response: Response)
    : (r: Result<Slots, FillError>)
    requires |slots| == |shortIds|
    ensures r.Ok? ==> |r.value| == |shortIds|
  {
    var fetched := Fetched(asked, response);
    if fetched.Err? then Err(fetched.error)
    else
      var r := Fetch(shortIds, slots, fetched.value, |slots|);
      if r.Ok? then Ok(r.value.0) else Err(r.error)
  }

  method FillFromPool(shortIds: seq<Id>, pool: map<Id, SignedTxn>, txns: array<Option<SignedTxn>>) returns (missing: set<Id>)
    requires txns.Length == |shortIds| && forall k :: 0 <= k < txns.Length ==> txns[k] == None
    modifies txns
    ensures txns[..] == FromPool(shortIds, pool) && missing == NotInPool(shortIds, pool)
  {
    missing := {};
    for i := 0 to |shortIds|
      invariant forall k :: i <= k < txns.Length ==> txns[k] == None
      invariant forall k :: 0 <= k < i ==> txns[k] == FromPool(shortIds, pool)[k]
      invariant missing == set id | id in shortIds[..i] && id !in pool
    {
      if shortIds[i] in pool {
        txns[i] := Some(pool[shortIds[i]]);
      } else {
        missing := missing + {shortIds[i]};
      }
      assert shortIds[..i + 1] == shortIds[..i] + [shortIds[i]];
    }
    assert shortIds[..|shortIds|] == shortIds;
  }

  method FillPrefilled(prefilled: seq<Prefilled>, txns: array<Option<SignedTxn>>, initial: set<Id>) returns (missing: set<Id>)
    modifies txns
    ensures txns[..] == WithPrefilled(old(txns[..]), prefilled)
    ensures missing == StillMissing(initial, txns.Length, prefilled)
  {
    missing := initial;
    for i := 0 to |prefilled|
      invariant txns[..] == WithPrefilled(old(txns[..]), prefilled[..i])
      invariant missing == StillMissing(initial, txns.Length, prefilled[..i])
    {
      var p := prefilled[i];
      assert prefilled[..i + 1][..i] == prefilled[..i];
      if p.index < txns.Length {
        txns[p.index] := Some(p.txn);
        missing := missing - {p.txn.id};
      }
    }
    assert prefilled[..|prefilled|] == prefilled;
  }

  method FillFetched(shortIds: seq<Id>, txns: array<Option<SignedTxn>>, fetched: map<Id, Transaction>) returns (r: Result<(), FillError>)
    requires txns.Length == |shortIds|
    modifies txns
    ensures var spec := Fetch(shortIds, old(txns[..]), fetched, |shortIds|);
      if spec.Ok? then r.Ok? && txns[..] == spec.value.0 else r == Err(spec.error)
  {
    ghost var slots := txns[..];
    var left := fetched;
    for i := 0 to |shortIds|
      invariant Fetch(shortIds, slots, fetched, i) == Ok((txns[..], left))
    {
      if txns[i].None? && shortIds[i] in left {
        var txn := left[shortIds[i]];
        left := left - {shortIds[i]};
        if !txn.UserTransaction? {
          FailsForGood(shortIds, slots, fetched, i + 1, |shortIds|);
          return Err(NotUserTransaction);
        }
        txns[i] := Some(txn.txn);
      }
    }
    r := Ok(());
  }

  lemma {:induction false} FailsForGood(shortIds: seq<Id>, slots: Slots, fetched: map<Id, Transaction>, n: nat, m: nat)
    requires |slots| == |shortIds| && n <= m <= |slots| && Fetch(shortIds, slots, fetched, n).Err?
    ensures Fetch(shortIds, slots, fetched, m) == Fetch(shortIds, slots, fetched, n)
  {
    if n < m {
      FailsForGood(shortIds, slots, fetched, n, m - 1);
    }
  }

  method CollectTxns(txns: array<Option<SignedTxn>>) returns (r: seq<SignedTxn>)
    ensures r == Present(txns[..])
  {
    r := [];
    for i := 0 to txns.Length
      invariant r == Present(txns[..i])
    {
      assert txns[..i + 1][..i] == txns[..i];
      if txns[i].Some? {
        r := r + [txns[i].value];
      }
    }
    assert txns[..txns.Length] == txns[..];
  }

  /** The ids of a set in some order. */
  method Listed(ids: set<Id>) returns (r: seq<Id>)
    ensures NoDuplicates(r) && forall id :: id in r <==> id in ids
  {
    r := [];
    var todo := ids;
    while todo != {}
      invariant todo <= ids && NoDuplicates(r)
      invariant forall id :: id in r <==> id in ids && id !in todo
      decreases |todo|
    {
      var id :| id in todo;
      todo := todo - {id};
      r := r + [id];
    }
  }

  /** Filling up to the request to the peer: the prepared slots and the ids to ask for. */
  method PrepareBlock(shortIds: seq<Id>, prefilled: seq<Prefilled>, pool: map<Id, SignedTxn>)
    returns (txns: array<Option<SignedTxn>>, asked: seq<Id>)
    ensures fresh(txns) && txns[..] == Prepared(shortIds, prefilled, pool)
    ensures NoDuplicates(asked) && forall id :: id in asked <==> id in Wanted(shortIds, prefilled, pool)
  {
    txns := new Option<SignedTxn>[|shortIds|](_ => None);
    var missing := FillFromPool(shortIds, pool, txns);
    missing := FillPrefilled(prefilled, txns, missing);
    asked := Listed(missing);
  }

  /** Filling from the peer's response on. */
  method FinishBlock(shortIds: seq<Id>, txns: array<Option<SignedTxn>>, asked: seq<Id>, response: Response)
    returns (r: Result<seq<SignedTxn>, FillError>)
    requires txns.Length == |shortIds|
    modifies txns
    ensures match FilledSlots(shortIds, old(txns[..]), asked, response)
      case Ok(slots) => r == Ok(Present(slots))
      case Err(e) => r == Err(e)
  {
    var fetched: map<Id, Transaction> := map[];
    if asked != [] {
      var answers := GetTxns(asked, response);
      if answers.Err? {
        return Err(answers.error);
      }
      fetched := CollectById(answers.value.1);
    }
    var filled := FillFetched(shortIds, txns, fetched);
    if filled.Err? {
      return Err(filled.error);
    }
    var all := CollectTxns(txns);
    r := Ok(all);
  }

  method CollectById(found: seq<Transaction>) returns (m: map<Id, Transaction>)
    ensures m == ById(found)
  {
    m := map[];
    for i := 0 to |found|
      invariant m == ById(found[..i])
    {
      assert found[..i + 1][..i] == found[..i];
      m := m[found[i].Id() := found[i]];
    }
    assert found[..|found|] == found;
  }

  // ---------- what is asked for ----------

  ghost predicate PrefilledInside(prefilled: seq<Prefilled>, n: nat, id: Id) {
    exists k :: 0 <= k < |prefilled| && prefilled[k].index < n && prefilled[k].txn.id == id
  }

  lemma {:induction false} StillMissingIff(missing: set<Id>, n: nat, prefilled: seq<Prefilled>, id: Id)
    ensures id in StillMissing(missing, n, prefilled) <==> id in missing && !PrefilledInside(prefilled, n, id)
  {
    if prefilled != [] {
      var k := |prefilled| - 1;
      var init := prefilled[..k];
      StillMissingIff(missing, n, init, id);
      if PrefilledInside(init, n, id) {
        var j :| 0 <= j < k && init[j].index < n && init[j].txn.id == id;
        assert prefilled[j].txn.id == id;
      }
      if PrefilledInside(prefilled, n, id) && !(prefilled[k].index < n && prefilled[k].txn.id == id) {
        var j :| 0 <= j <= k && prefilled[j].index < n && prefilled[j].txn.id == id;
        assert init[j].txn.id == id;
      }
    }
  }

  /** The peer is asked for exactly the short ids found neither in the pool nor prefilled. */
  lemma WantedIff(shortIds: seq<Id>, prefilled: seq<Prefilled>, pool: map<Id, SignedTxn>, id: Id)
    ensures id in Wanted(shortIds, prefilled, pool)
       <==> id in shortIds && id !in pool && !PrefilledInside(prefilled, |shortIds|, id)
  {
    StillMissingIff(NotInPool(shortIds, pool), |shortIds|, prefilled, id);
  }

  // ---------- what ends up in a slot ----------

  /** The last prefilled transaction for slot `i`. */
  function PrefilledAt(prefilled: seq<Prefilled>, i: nat): Option<SignedTxn> {
    if prefilled == [] then None
    else if prefilled[|prefilled| - 1].index == i then Some(prefilled[|prefilled| - 1].txn)
    else PrefilledAt(prefilled[..|prefilled| - 1], i)
  }

  lemma {:induction false} PreparedAt(slots: Slots, prefilled: seq<Prefilled>, i: nat)
    requires i < |slots|
    ensures WithPrefilled(slots, prefilled)[i] ==
            if PrefilledAt(prefilled, i).Some? then PrefilledAt(prefilled, i) else slots[i]
  {
    if prefilled != [] {
      PreparedAt(slots, prefilled[..|prefilled| - 1], i);
    }
  }

  /** Slot `i` takes a fetched transaction: it is empty and the first empty slot for its id. */
  ghost predicate FirstEmpty(shortIds: seq<Id>, slots: Slots, i: nat)
    requires |slots| == |shortIds| && i < |slots|
  {
    slots[i].None? && forall k :: 0 <= k < i && slots[k].None? ==> shortIds[k] != shortIds[i]
  }

  /** After the first `n` slots, exactly the first empty slots among them took what was fetched for
      them, and nothing else changed. */
  lemma {:induction false} FetchAt(shortIds: seq<Id>, slots: Slots, fetched: map<Id, Transaction>, n: nat)
    requires |slots| == |shortIds| && n <= |slots| && Fetch(shortIds, slots, fetched, n).Ok?
    ensures var (s, left) := Fetch(shortIds, slots, fetched, n).value;
      && (forall i :: 0 <= i < |slots| ==>
            s[i] == if i < n && FirstEmpty(shortIds, slots, i) && shortIds[i] in fetched && fetched[shortIds[i]].UserTransaction?
                    then Some(fetched[shortIds[i]].txn) else slots[i])
      && (forall i :: 0 <= i < n && FirstEmpty(shortIds, slots, i) && shortIds[i] in fetched ==> fetched[shortIds[i]].UserTransaction?)
      && (forall id :: id in left <==> id in fetched && forall k :: 0 <= k < n && slots[k].None? ==> shortIds[k] != id)
      && (forall id :: id in left ==> left[id] == fetched[id])
  {
    if n > 0 {
      FetchAt(shortIds, slots, fetched, n - 1);
    }
  }

  function Answered(response: Response): Answers {
    if response.answers.Ok? then response.answers.value else []
  }

  /** The peer delivered a transaction for `id`. */
  ghost predicate Got(asked: seq<Id>, response: Response, id: Id) {
    Delivered(asked, Answered(response), id)
  }

  /** A filled slot keeps what was prepared; an empty one is filled exactly if it is the first empty
      slot for its id and the peer delivered it, and then with a transaction of that id. */
  lemma FilledAt(shortIds: seq<Id>, slots: Slots, asked: seq<Id>, response: Response, i: nat)
    requires |slots| == |shortIds| && i < |slots| && FilledSlots(shortIds, slots, asked, response).Ok?
    ensures var s := FilledSlots(shortIds, slots, asked, response).value;
      && (slots[i].Some? ==> s[i] == slots[i])
      && (slots[i].None? ==>
            && (s[i].Some? <==> FirstEmpty(shortIds, slots, i) && Got(asked, response, shortIds[i]))
            && (s[i].Some? ==> s[i].value.id == shortIds[i]))
  {
    var fetched := Fetched(asked, response).value;
    FetchAt(shortIds, slots, fetched, |slots|);
    if asked != [] {
      FetchedIsDelivered(asked, response.answers.value, shortIds[i]);
    }
  }

  /** And what it is filled with is the last transaction the peer delivered for its id. */
  lemma FilledWithLast(shortIds: seq<Id>, slots: Slots, asked: seq<Id>, response: Response, i: nat, j: nat)
    requires |slots| == |shortIds| && i < |slots| && FilledSlots(shortIds, slots, asked, response).Ok?
    requires FirstEmpty(shortIds, slots, i) && |asked| == |Answered(response)|
    requires LastDelivered(asked, Answered(response), shortIds[i], j)
    ensures Answered(response)[j].value.UserTransaction?
    ensures FilledSlots(shortIds, slots, asked, response).value[i] == Some(Answered(response)[j].value.txn)
  {
    FetchAt(shortIds, slots, Fetched(asked, response).value, |slots|);
    FetchedIsLast(asked, Answered(response), shortIds[i], j);
  }

  // ---------- when filling succeeds ----------

  /** Every transaction delivered for a first empty slot is a user transaction. */
  ghost predicate UserTransactions(shortIds: seq<Id>, slots: Slots, asked: seq<Id>, answers: Answers)
    requires |slots| == |shortIds| && |asked| == |answers|
  {
    forall i, j: nat :: 0 <= i < |slots| && FirstEmpty(shortIds, slots, i) && LastDelivered(asked, answers, shortIds[i], j) ==>
      answers[j].value.UserTransaction?
  }

  /** The peer's response fills the slots: nothing was asked for, or a peer could be selected and answered once for each
      id, with the ids asked for and user transactions wherever they are needed. Missing answers do no harm. */
  ghost predicate Fills(shortIds: seq<Id>, slots: Slots, asked: seq<Id>, response: Response)
    requires |slots| == |shortIds|
  {
    asked == [] ||
    (&& response.selectable && response.answers.Ok? && |asked| == |response.answers.value|
     && (forall j :: 0 <= j < |asked| && response.answers.value[j].Some? ==> response.answers.value[j].value.Id() == asked[j])
     && UserTransactions(shortIds, slots, asked, response.answers.value))
  }

  /** The slots wanting a fetched transaction that cannot be put in a block: filling fails at the first of them. */
  lemma {:induction false} FetchIff(shortIds: seq<Id>, slots: Slots, fetched: map<Id, Transaction>, n: nat)
    requires |slots| == |shortIds| && n <= |slots|
    ensures Fetch(shortIds, slots, fetched, n).Ok? <==>
      forall i :: 0 <= i < n && FirstEmpty(shortIds, slots, i) && shortIds[i] in fetched ==> fetched[shortIds[i]].UserTransaction?
    ensures Fetch(shortIds, slots, fetched, n).Err? ==> Fetch(shortIds, slots, fetched, n) == Err(NotUserTransaction)
  {
    if n > 0 {
      FetchIff(shortIds, slots, fetched, n - 1);
      if Fetch(shortIds, slots, fetched, n - 1).Ok? {
        FetchAt(shortIds, slots, fetched, n - 1);
      }
    }
  }

  lemma UsersIff(shortIds: seq<Id>, slots: Slots, asked: seq<Id>, answers: Answers)
    requires |slots| == |shortIds| && Verified(asked, answers)
    ensures UserTransactions(shortIds, slots, asked, answers) <==>
      var fetched := ById(Present(answers));
      forall i :: 0 <= i < |slots| && FirstEmpty(shortIds, slots, i) && shortIds[i] in fetched ==> fetched[shortIds[i]].UserTransaction?
  {
    var fetched := ById(Present(answers));
    forall i, j: nat | 0 <= i < |slots| && LastDelivered(asked, answers, shortIds[i], j)
      ensures shortIds[i] in fetched && fetched[shortIds[i]] == answers[j].value
    {
      FetchedIsLast(asked, answers, shortIds[i], j);
    }
    forall i | 0 <= i < |slots| && shortIds[i] in fetched
      ensures exists j: nat :: LastDelivered(asked, answers, shortIds[i], j)
    {
      FetchedIsDelivered(asked, answers, shortIds[i]);
      SomeIsLast(asked, answers, shortIds[i]);
    }
  }

  /** Filling succeeds exactly if the response fills the slots. */
  lemma FilledIff(shortIds: seq<Id>, slots: Slots, asked: seq<Id>, response: Response)
    requires |slots| == |shortIds|
    ensures FilledSlots(shortIds, slots, asked, response).Ok? <==> Fills(shortIds, slots, asked, response)
  {
    if asked == [] {
      FetchIff(shortIds, slots, map[], |slots|);
    } else if FetchError(asked, response).None? {
      UsersIff(shortIds, slots, asked, response.answers.value);
      FetchIff(shortIds, slots, ById(Present(response.answers.value)), |slots|);
    }
  }

  /** And if it fails, the error says why, in the order of these causes. */
  lemma FailsBecause(shortIds: seq<Id>, slots: Slots, asked: seq<Id>, response: Response)
    requires |slots| == |shortIds| && !Fills(shortIds, slots, asked, response)
    ensures FilledSlots(shortIds, slots, asked, response) == Err(
      if !response.selectable then NoPeer
      else if response.answers.Err? then PeerFailed
      else if |response.answers.value| != |asked| then CountMismatch
      else if exists j :: 0 <= j < |asked| && response.answers.value[j].Some? && response.answers.value[j].value.Id() != asked[j]
      then IdMismatch
      else NotUserTransaction)
  {
    FilledIff(shortIds, slots, asked, response);
    if FetchError(asked, response).None? {
      FetchIff(shortIds, slots, ById(Present(response.answers.value)), |slots|);
    }
  }

  // ---------- the block ----------

  ghost predicate PoolIsRight(pool: map<Id, SignedTxn>) {
    forall id :: id in pool ==> pool[id].id == id
  }

  /** Every prefilled transaction inside the block has the short id of its slot. */
  ghost predicate PrefilledMatch(shortIds: seq<Id>, prefilled: seq<Prefilled>) {
    forall k :: 0 <= k < |prefilled| && prefilled[k].index < |shortIds| ==>
      prefilled[k].txn.id == shortIds[prefilled[k].index]
  }

  ghost predicate SlotsMatch(shortIds: seq<Id>, slots: Slots)
    requires |slots| == |shortIds|
  {
    forall i :: 0 <= i < |slots| && slots[i].Some? ==> slots[i].value.id == shortIds[i]
  }

  lemma {:induction false} PrefilledAtIsOne(prefilled: seq<Prefilled>, i: nat)
    ensures PrefilledAt(prefilled, i).Some? <==> exists k :: 0 <= k < |prefilled| && prefilled[k].index == i
    ensures PrefilledAt(prefilled, i).Some? ==>
      exists k :: 0 <= k < |prefilled| && prefilled[k].index == i && prefilled[k].txn == PrefilledAt(prefilled, i).value
  {
    if prefilled != [] {
      var k := |prefilled| - 1;
      var init := prefilled[..k];
      PrefilledAtIsOne(init, i);
      if j :| 0 <= j < |prefilled| && prefilled[j].index == i {
        assert j < k ==> init[j].index == i;
      }
      if prefilled[k].index != i && PrefilledAt(init, i).Some? {
        var j :| 0 <= j < |init| && init[j].index == i && init[j].txn == PrefilledAt(init, i).value;
        assert prefilled[j].index == i && prefilled[j].txn == PrefilledAt(init, i).value;
      }
    }
  }

  /** With a right pool, every transaction has the id of its slot if and only if the prefilled
      transaction that ends up in a slot always has. */
  lemma SlotsMatchIff(shortIds: seq<Id>, prefilled: seq<Prefilled>, pool: map<Id, SignedTxn>,
                      asked: seq<Id>, response: Response)
    requires PoolIsRight(pool) && FilledSlots(shortIds, Prepared(shortIds, prefilled, pool), asked, response).Ok?
    ensures SlotsMatch(shortIds, FilledSlots(shortIds, Prepared(shortIds, prefilled, pool), asked, response).value)
       <==> forall i :: 0 <= i < |shortIds| && PrefilledAt(prefilled, i).Some? ==> PrefilledAt(prefilled, i).value.id == shortIds[i]
  {
    var slots := Prepared(shortIds, prefilled, pool);
    var s := FilledSlots(shortIds, slots, asked, response).value;
    forall i | 0 <= i < |shortIds|
      ensures PrefilledAt(prefilled, i).Some? ==> s[i] == PrefilledAt(prefilled, i)
      ensures PrefilledAt(prefilled, i).None? && s[i].Some? ==> s[i].value.id == shortIds[i]
    {
      PreparedAt(FromPool(shortIds, pool), prefilled, i);
      FilledAt(shortIds, slots, asked, response, i);
    }
  }

  /** Every delivered transaction is used in all slots for it if and only if no two empty slots want
      the same delivered id. */
  lemma DeliveredAreUsedIff(shortIds: seq<Id>, slots: Slots, asked: seq<Id>, response: Response)
    requires |slots| == |shortIds| && FilledSlots(shortIds, slots, asked, response).Ok?
    ensures (forall i :: 0 <= i < |slots| && Got(asked, response, shortIds[i]) ==>
               FilledSlots(shortIds, slots, asked, response).value[i].Some?)
       <==> (forall i, j :: 0 <= i < j < |slots| && slots[i].None? && slots[j].None? && Got(asked, response, shortIds[j]) ==>
               shortIds[i] != shortIds[j])
  {
    var s := FilledSlots(shortIds, slots, asked, response).value;
    forall i | 0 <= i < |slots|
      ensures slots[i].None? && Got(asked, response, shortIds[i]) ==> (s[i].Some? <==> FirstEmpty(shortIds, slots, i))
      ensures slots[i].Some? ==> s[i].Some?
    {
      FilledAt(shortIds, slots, asked, response, i);
    }
  }

  /** The short ids in order, without those in `gone`. */
  function Kept(shortIds: seq<Id>, gone: set<Id>): seq<Id> {
    if shortIds == [] then []
    else
      var last := shortIds[|shortIds| - 1];
      Kept(shortIds[..|shortIds| - 1], gone) + if last in gone then [] else [last]
  }

  /** Which of the ids are not gone. */
  function KeptMarks(shortIds: seq<Id>, gone: set<Id>): (keep: seq<bool>)
    ensures |keep| == |shortIds| && forall i :: 0 <= i < |keep| ==> keep[i] == (shortIds[i] !in gone)
  {
    seq(|shortIds|, i requires 0 <= i < |shortIds| => shortIds[i] !in gone)
  }

  lemma {:induction false} KeptArePicked(shortIds: seq<Id>, gone: set<Id>)
    ensures Kept(shortIds, gone) == Picked(shortIds, Chosen(KeptMarks(shortIds, gone)))
  {
    if shortIds != [] {
      var n, keep := |shortIds| - 1, KeptMarks(shortIds, gone);
      KeptArePicked(shortIds[..n], gone);
      assert keep[..n] == KeptMarks(shortIds[..n], gone);
      PickedStep(shortIds, keep);
    }
  }

  function IdsOf(txns: seq<SignedTxn>): seq<Id> {
    seq(|txns|, i requires 0 <= i < |txns| => txns[i].id)
  }

  lemma {:induction false} CollectedIds(shortIds: seq<Id>, slots: Slots, gone: set<Id>)
    requires |slots| == |shortIds| && SlotsMatch(shortIds, slots)
    requires forall i :: 0 <= i < |slots| ==> (slots[i].None? <==> shortIds[i] in gone)
    ensures IdsOf(Present(slots)) == Kept(shortIds, gone)
  {
    if slots != [] {
      var k := |slots| - 1;
      CollectedIds(shortIds[..k], slots[..k], gone);
      if slots[k].Some? {
        assert IdsOf(Present(slots[..k]) + [slots[k].value]) == IdsOf(Present(slots[..k])) + [slots[k].value.id];
      }
    }
  }

  /** Under distinct short ids and matching prefilled transactions, a slot stays empty until the fetch
      exactly if its id is asked for. */
  lemma EmptyIffWanted(shortIds: seq<Id>, prefilled: seq<Prefilled>, pool: map<Id, SignedTxn>, i: nat)
    requires NoDuplicates(shortIds) && PrefilledMatch(shortIds, prefilled) && i < |shortIds|
    ensures Prepared(shortIds, prefilled, pool)[i].None? <==> shortIds[i] in Wanted(shortIds, prefilled, pool)
  {
    PreparedAt(FromPool(shortIds, pool), prefilled, i);
    PrefilledAtIsOne(prefilled, i);
    WantedIff(shortIds, prefilled, pool, shortIds[i]);
    if PrefilledInside(prefilled, |shortIds|, shortIds[i]) {
      var k :| 0 <= k < |prefilled| && prefilled[k].index < |shortIds| && prefilled[k].txn.id == shortIds[i];
      assert prefilled[k].index == i;
    }
    if PrefilledAt(prefilled, i).Some? {
      var k :| 0 <= k < |prefilled| && prefilled[k].index == i;
      assert prefilled[k].txn.id == shortIds[i];
    }
  }

  /** The asked ids the peer reported missing. */
  ghost function Reported(asked: seq<Id>, response: Response): set<Id> {
    set id | id in asked && !Got(asked, response, id)
  }

  /** With distinct short ids, prefilled transactions matching their slots and a right pool, and a response that fills
      the slots, the block's transactions have the short ids in order, omitting exactly those the peer reported
      missing. */
  lemma BlockHasShortIds(shortIds: seq<Id>, prefilled: seq<Prefilled>, pool: map<Id, SignedTxn>,
                         asked: seq<Id>, response: Response)
    requires NoDuplicates(shortIds) && PrefilledMatch(shortIds, prefilled) && PoolIsRight(pool)
    requires forall id :: id in asked <==> id in Wanted(shortIds, prefilled, pool)
    requires Fills(shortIds, Prepared(shortIds, prefilled, pool), asked, response)
    ensures FilledSlots(shortIds, Prepared(shortIds, prefilled, pool), asked, response).Ok?
    ensures IdsOf(Present(FilledSlots(shortIds, Prepared(shortIds, prefilled, pool), asked, response).value))
         == Picked(shortIds, Chosen(KeptMarks(shortIds, Reported(asked, response))))
  {
    FilledIff(shortIds, Prepared(shortIds, prefilled, pool), asked, response);
    FilledHasShortIds(shortIds, prefilled, pool, asked, response);
    KeptArePicked(shortIds, Reported(asked, response));
  }

  lemma FilledHasShortIds(shortIds: seq<Id>, prefilled: seq<Prefilled>, pool: map<Id, SignedTxn>,
                          asked: seq<Id>, response: Response)
    requires NoDuplicates(shortIds) && PrefilledMatch(shortIds, prefilled) && PoolIsRight(pool)
    requires forall id :: id in asked <==> id in Wanted(shortIds, prefilled, pool)
    requires FilledSlots(shortIds, Prepared(shortIds, prefilled, pool), asked, response).Ok?
    ensures IdsOf(Present(FilledSlots(shortIds, Prepared(shortIds, prefilled, pool), asked, response).value))
         == Kept(shortIds, Reported(asked, response))
  {
    var slots := Prepared(shortIds, prefilled, pool);
    var s := FilledSlots(shortIds, slots, asked, response).value;
    assert SlotsMatch(shortIds, s) by {
      forall i | 0 <= i < |shortIds| && PrefilledAt(prefilled, i).Some?
        ensures PrefilledAt(prefilled, i).value.id == shortIds[i]
      {
        PrefilledAtIsOne(prefilled, i);
      }
      SlotsMatchIff(shortIds, prefilled, pool, asked, response);
    }
    forall i | 0 <= i < |s| ensures s[i].None? <==> shortIds[i] in Reported(asked, response) {
      EmptyIffWanted(shortIds, prefilled, pool, i);
      FilledAt(shortIds, slots, asked, response, i);
    }
    CollectedIds(shortIds, s, Reported(asked, response));
  }

  // ---------- inputs on which the block is not what was sent ----------

  const NOTHING := Response(true, Ok([]))

  /** A prefilled transaction with another id ends up in the slot all the same. */
  lemma WrongPrefillIsKept()
    ensures var wrong := SignedTxn(2, 0);
      var slots := FilledSlots([1], Prepared([1], [Prefilled(0, wrong)], map[]), [], NOTHING);
      slots == Ok([Some(wrong)]) && !SlotsMatch([1], slots.value)
  {
    var wrong := SignedTxn(2, 0);
    var prefilled := [Prefilled(0, wrong)];
    assert prefilled[..0] == [];
    assert Prepared([1], prefilled, map[]) == [Some(wrong)];
    assert Fetch([1], [Some(wrong)], map[], 0) == Ok(([Some(wrong)], map[]));
  }

  /** A short id listed twice is fetched once: the second slot stays empty. */
  lemma RepeatedIdIsUsedOnce()
    ensures var txn := SignedTxn(1, 0);
      var response := Response(true, Ok([Some(UserTransaction(txn))]));
      FilledSlots([1, 1], Prepared([1, 1], [], map[]), [1], response) == Ok([Some(txn), None])
  {
    var txn, ids := SignedTxn(1, 0), [1, 1];
    var answers := [Some(UserTransaction(txn))];
    assert Prepared(ids, [], map[]) == [None, None];
    assert answers[..0] == [];
    assert Present(answers) == [UserTransaction(txn)];
    var found := [UserTransaction(txn)];
    assert found[..0] == [];
    var fetched: map<Id, Transaction> := map[1 := UserTransaction(txn)];
    assert ById(found) == fetched;
    var empty: Slots := [None, None];
    assert Fetch(ids, empty, fetched, 0) == Ok((empty, fetched));
    assert fetched - {1} == map[] && empty[0 := Some(txn)] == [Some(txn), None];
    assert Fetch(ids, empty, fetched, 1) == Ok(([Some(txn), None], map[]));
  }
}
