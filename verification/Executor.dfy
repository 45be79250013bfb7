/** Execution of the transactions of one block (executor/src/block_executor.rs).

    The virtual machine is a parameter: its outputs, one per transaction until the gas limit
    stops it, are given as `VmResult`. */
module Executor {
  import opened Basics
  import opened ChainTypes

  datatype WriteOp = Put(path: nat, value: StateValue) | Delete(path: nat)

  datatype TransactionStatus = Keep(code: nat) | Discard(code: nat)

  datatype TransactionOutput = TransactionOutput(
    writeSet: seq<WriteOp>, events: seq<ContractEvent>, gasUsed: nat, status: TransactionStatus)

  datatype ExecutorError = VmFailed | TransactionDiscarded(code: nat, txn: HashValue)

  type VmResult = Result<seq<TransactionOutput>, ()>

  datatype ExecutedData = ExecutedData(
    stateRoot: HashValue, infos: seq<TransactionInfo>, events: seq<seq<ContractEvent>>)

  function ApplyOp(s: State, op: WriteOp): State {
    match op
    case Put(p, v) => s[p := v]
    case Delete(p) => s - {p}
  }

  function ApplyWrites(s: State, ws: seq<WriteOp>): State {
    if ws == [] then s else ApplyOp(ApplyWrites(s, ws[..|ws| - 1]), ws[|ws| - 1])
  }

  /** The state once exactly the write sets of `outputs` have been applied, in order. */
  function StateAfter(s: State, outputs: seq<TransactionOutput>): State {
    if outputs == [] then s
    else ApplyWrites(StateAfter(s, outputs[..|outputs| - 1]), outputs[|outputs| - 1].writeSet)
  }

  // ---------- what a state reads as after writes ----------

  /** The last write to a path decides what it reads as. */
  lemma {:induction false} LastWriteDecides(s: State, ws: seq<WriteOp>, p: nat, k: nat)
    requires k < |ws| && ws[k].path == p && forall j :: k < j < |ws| ==> ws[j].path != p
    ensures Find(ApplyWrites(s, ws), p) == if ws[k].Put? then Some(ws[k].value) else None
  {
    if k < |ws| - 1 {
      LastWriteDecides(s, ws[..|ws| - 1], p, k);
    }
  }

  /** A path that is not written reads as before. */
  lemma {:induction false} UnwrittenStays(s: State, ws: seq<WriteOp>, p: nat)
    requires forall j :: 0 <= j < |ws| ==> ws[j].path != p
    ensures Find(ApplyWrites(s, ws), p) == Find(s, p)
  {
    if ws != [] {
      UnwrittenStays(s, ws[..|ws| - 1], p);
    }
  }

  /** The writes of all outputs, one after the other. */
  function AllWrites(outputs: seq<TransactionOutput>): seq<WriteOp> {
    if outputs == [] then [] else AllWrites(outputs[..|outputs| - 1]) + outputs[|outputs| - 1].writeSet
  }

  lemma {:induction false} AllWritesConcat(a: seq<TransactionOutput>, b: seq<TransactionOutput>)
    ensures AllWrites(a + b) == AllWrites(a) + AllWrites(b)
  {
    if b == [] {
      assert a + b == a;
    } else {
      assert (a + b)[..|a + b| - 1] == a + b[..|b| - 1];
      AllWritesConcat(a, b[..|b| - 1]);
    }
  }

  lemma AllWritesOne(o: TransactionOutput)
    ensures AllWrites([o]) == o.writeSet
  {
    assert [o][..0] == [];
  }

  lemma {:induction false} ApplyWritesConcat(s: State, a: seq<WriteOp>, b: seq<WriteOp>)
    ensures ApplyWrites(s, a + b) == ApplyWrites(ApplyWrites(s, a), b)
  {
    if b == [] {
      assert a + b == a;
    } else {
      assert (a + b)[..|a + b| - 1] == a + b[..|b| - 1];
      ApplyWritesConcat(s, a, b[..|b| - 1]);
    }
  }

  /** The state after the outputs is that after all their writes, in order. */
  lemma {:induction false} StateAfterIsOneBatch(s: State, outputs: seq<TransactionOutput>)
    ensures StateAfter(s, outputs) == ApplyWrites(s, AllWrites(outputs))
  {
    if outputs != [] {
      var init := outputs[..|outputs| - 1];
      StateAfterIsOneBatch(s, init);
      ApplyWritesConcat(s, AllWrites(init), outputs[|outputs| - 1].writeSet);
    }
  }

  /** The gas all outputs used together. */
  ghost function OutputGas(outputs: seq<TransactionOutput>): nat {
    if outputs == [] then 0 else OutputGas(outputs[..|outputs| - 1]) + outputs[|outputs| - 1].gasUsed
  }

  lemma {:induction false} OutputGasAdds(a: seq<TransactionOutput>, b: seq<TransactionOutput>)
    ensures OutputGas(a + b) == OutputGas(a) + OutputGas(b)
  {
    if b == [] {
      assert a + b == a;
    } else {
      assert (a + b)[..|a + b| - 1] == a + b[..|b| - 1];
      OutputGasAdds(a, b[..|b| - 1]);
    }
  }

  lemma OutputGasOne(o: TransactionOutput)
    ensures OutputGas([o]) == o.gasUsed
  {
    assert [o][..0] == [];
  }

  // ---------- executing a block ----------

  /** The number of transactions an execution pairs with outputs. */
  function Paired(txns: seq<Transaction>, outputs: seq<TransactionOutput>): nat {
    Min(|txns|, |outputs|)
  }

  /** The info of transaction `k`: its own hash, events, gas and status, and the root of the
      state after the write sets of outputs 0 to k. */
  function InfoAt(s: State, txns: seq<Transaction>, outputs: seq<TransactionOutput>, k: nat): TransactionInfo
    requires k < Paired(txns, outputs)
  {
    TransactionInfo(
      OfTransaction(txns[k]), OfState(StateAfter(s, outputs[..k + 1])),
      OfEvents(outputs[k].events), outputs[k].gasUsed, outputs[k].status.code)
  }

  ghost predicate NoDiscard(outputs: seq<TransactionOutput>, n: nat)
    requires n <= |outputs|
  {
    forall k :: 0 <= k < n ==> outputs[k].status.Keep?
  }

  /** What a successful execution of `txns` from state `s` is. */
  ghost predicate Executes(s: State, txns: seq<Transaction>, outputs: seq<TransactionOutput>, data: ExecutedData) {
    var n := Paired(txns, outputs);
    && NoDiscard(outputs, n)
    && |data.infos| == n && |data.events| == n
    && (forall k :: 0 <= k < n ==> data.infos[k] == InfoAt(s, txns, outputs, k))
    && (forall k :: 0 <= k < n ==> data.events[k] == outputs[k].events)
    && data.stateRoot == OfState(StateAfter(s, outputs[..n]))
  }

  lemma ExecutesIsUnique(s: State, txns: seq<Transaction>, outputs: seq<TransactionOutput>, a: ExecutedData, b: ExecutedData)
    requires Executes(s, txns, outputs, a) && Executes(s, txns, outputs, b)
    ensures a == b
  {
    assert a.infos == b.infos && a.events == b.events;
  }

  /** The execution as a function of its inputs. */
  function Executed(s: State, txns: seq<Transaction>, vm: VmResult): (r: Result<ExecutedData, ExecutorError>)
    ensures vm.Err? ==> r == Err(VmFailed)
    ensures r.Ok? ==> vm.Ok? && Executes(s, txns, vm.value, r.value)
    ensures vm.Ok? && r.Err? ==>
      exists k :: 0 <= k < Paired(txns, vm.value) && NoDiscard(vm.value, k) && vm.value[k].status.Discard?
        && r == Err(TransactionDiscarded(vm.value[k].status.code, OfTransaction(txns[k])))
  {
    match vm
    case Err(_) => Err(VmFailed)
    case Ok(outputs) =>
      var n := Paired(txns, outputs);
      var d := FirstDiscard(outputs, n);
      if d < n then
        Err(TransactionDiscarded(outputs[d].status.code, OfTransaction(txns[d])))
      else
        Ok(ExecutedData(
             OfState(StateAfter(s, outputs[..n])),
             seq(n, k requires 0 <= k < n => InfoAt(s, txns, outputs, k)),
             seq(n, k requires 0 <= k < n => outputs[k].events)))
  }

  function FirstDiscard(outputs: seq<TransactionOutput>, n: nat): (d: nat)
    requires n <= |outputs|
    ensures d <= n && NoDiscard(outputs, d)
    ensures d < n ==> outputs[d].status.Discard?
  {
    if n == 0 then 0
    else
      var d := FirstDiscard(outputs, n - 1);
      if d < n - 1 then d else if outputs[n - 1].status.Discard? then n - 1 else n
  }

  /** A state database opened at some root: writes go to `working`, and `Commit` makes them
      the state whose root is reported. */
  class StateDb {
    var working: State
    var committed: State

    constructor (root: State)
      ensures working == root && committed == root
    {
      working, committed := root, root;
    }

    method ApplyWriteSet(ws: seq<WriteOp>)
      modifies this
      ensures working == ApplyWrites(old(working), ws) && committed == old(committed)
    {
      for i := 0 to |ws|
        invariant working == ApplyWrites(old(working), ws[..i]) && committed == old(committed)
      {
        assert ws[..i + 1][..i] == ws[..i];
        working := ApplyOp(working, ws[i]);
      }
      assert ws[..|ws|] == ws;
    }

    method Commit() returns (root: HashValue)
      modifies this
      ensures working == old(working) && committed == working && root == OfState(working)
    {
      committed := working;
      root := OfState(committed);
    }
  }

  lemma StateAfterNext(s: State, outputs: seq<TransactionOutput>, i: nat)
    requires i < |outputs|
    ensures StateAfter(s, outputs[..i + 1]) == ApplyWrites(StateAfter(s, outputs[..i]), outputs[i].writeSet)
  {
    assert outputs[..i + 1][..i] == outputs[..i];
  }

  lemma {:induction false} DiscardIsFirst(outputs: seq<TransactionOutput>, n: nat, d: nat)
    requires d < n <= |outputs| && NoDiscard(outputs, d) && outputs[d].status.Discard?
    ensures FirstDiscard(outputs, n) == d
  {
    if d < n - 1 {
      DiscardIsFirst(outputs, n - 1, d);
    }
  }

  /** The first discarded transaction is the error, whatever comes after it. */
  lemma DiscardExecutes(s: State, txns: seq<Transaction>, outputs: seq<TransactionOutput>, d: nat)
    requires d < Paired(txns, outputs) && NoDiscard(outputs, d) && outputs[d].status.Discard?
    ensures Executed(s, txns, Ok(outputs)) ==
            Err(TransactionDiscarded(outputs[d].status.code, OfTransaction(txns[d])))
  {
    DiscardIsFirst(outputs, Paired(txns, outputs), d);
  }

  /** The infos and events of the first `n` transactions, one after the other. */
  ghost function FirstInfos(s: State, txns: seq<Transaction>, outputs: seq<TransactionOutput>, n: nat): (r: seq<TransactionInfo>)
    requires n <= Paired(txns, outputs)
    ensures |r| == n
  {
    if n == 0 then [] else FirstInfos(s, txns, outputs, n - 1) + [InfoAt(s, txns, outputs, n - 1)]
  }

  ghost function FirstEvents(outputs: seq<TransactionOutput>, n: nat): (r: seq<seq<ContractEvent>>)
    requires n <= |outputs|
    ensures |r| == n
  {
    if n == 0 then [] else FirstEvents(outputs, n - 1) + [outputs[n - 1].events]
  }

  lemma {:induction false} FirstAre(s: State, txns: seq<Transaction>, outputs: seq<TransactionOutput>, n: nat)
    requires n <= Paired(txns, outputs)
    ensures forall k :: 0 <= k < n ==> FirstInfos(s, txns, outputs, n)[k] == InfoAt(s, txns, outputs, k)
    ensures forall k :: 0 <= k < n ==> FirstEvents(outputs, n)[k] == outputs[k].events
  {
    if n > 0 {
      FirstAre(s, txns, outputs, n - 1);
    }
  }

  /** Putting the loop's results together gives the execution. */
  lemma FirstExecute(s: State, txns: seq<Transaction>, outputs: seq<TransactionOutput>)
    requires NoDiscard(outputs, Paired(txns, outputs))
    ensures var n := Paired(txns, outputs);
      Executed(s, txns, Ok(outputs)) ==
      Ok(ExecutedData(OfState(StateAfter(s, outputs[..n])), FirstInfos(s, txns, outputs, n), FirstEvents(outputs, n)))
  {
    var n := Paired(txns, outputs);
    var data := ExecutedData(OfState(StateAfter(s, outputs[..n])), FirstInfos(s, txns, outputs, n), FirstEvents(outputs, n));
    FirstAre(s, txns, outputs, n);
    assert Executes(s, txns, outputs, data);
    ExecutesIsUnique(s, txns, outputs, data, Executed(s, txns, Ok(outputs)).value);
  }

  /** The loop over the outputs: a kept output is written, committed and recorded; the first
      discarded one ends the execution. */
  method BlockExecute(db: StateDb, txns: seq<Transaction>, vm: VmResult) returns (r: Result<ExecutedData, ExecutorError>)
    requires db.working == db.committed
    modifies db
    ensures r == Executed(old(db.committed), txns, vm)
    ensures r.Ok? ==> r.value.stateRoot == OfState(db.committed)
  {
    if vm.Err? {
      return Err(VmFailed);
    }
    var outputs := vm.value;
    var n := Min(|txns|, |outputs|);
    var infos: seq<TransactionInfo> := [];
    var events: seq<seq<ContractEvent>> := [];
    ghost var s := db.committed;
    for i := 0 to n
      invariant db.working == db.committed == StateAfter(s, outputs[..i])
      invariant NoDiscard(outputs, i)
      invariant infos == FirstInfos(s, txns, outputs, i) && events == FirstEvents(outputs, i)
    {
      var output := outputs[i];
      match output.status {
        case Discard(code) =>
          DiscardExecutes(s, txns, outputs, i);
          return Err(TransactionDiscarded(code, OfTransaction(txns[i])));
        case Keep(code) =>
          StateAfterNext(s, outputs, i);
          db.ApplyWriteSet(output.writeSet);
          var root := db.Commit();
          infos := infos + [TransactionInfo(
              OfTransaction(txns[i]), root, OfEvents(output.events), output.gasUsed, code)];
          events := events + [output.events];
      }
    }
    FirstExecute(s, txns, outputs);
    r := Ok(ExecutedData(OfState(db.committed), infos, events));
  }
}
