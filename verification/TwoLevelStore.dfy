/** The two-level store: a positive and negative cache over a database (storage/src/storage.rs,
    storage/src/cache_storage/mod.rs). Bytes are written as strings. */
module TwoLevelStore {
  import opened Basics

  type Bytes = string

  /** An address in the database: a column family and a key in it. */
  datatype Cell = Cell(family: Bytes, key: Bytes)

  /** The cache has no column families; it files a cell under the family name followed by the key. */
  function ComposeKey(c: Cell): Bytes {
    c.family + c.key
  }

  datatype CacheObject = Value(bytes: Bytes) | Absent

  datatype WriteOp = Write(value: Bytes) | Deletion

  type Batch = seq<(Bytes, WriteOp)>

  type Cache = map<Bytes, CacheObject>

  type Db = map<Cell, Bytes>

  datatype Answer = Found(value: Option<Bytes>) | Has(present: bool) | Written | Failed

  datatype Action =
    | Get(cell: Cell)
    | Contains(cell: Cell)
    | Put(cell: Cell, value: Bytes)
    | Remove(cell: Cell)
    | WriteBatch(family: Bytes, rows: Batch)
    | Evict(keys: set<Bytes>)   // the cache drops entries on its own

  // ---------- the database alone ----------

  function Lookup(db: Db, c: Cell): Option<Bytes> {
    if c in db then Some(db[c]) else None
  }

  function DbApply(db: Db, family: Bytes, row: (Bytes, WriteOp)): Db {
    match row.1
    case Write(v) => db[Cell(family, row.0) := v]
    case Deletion => db - {Cell(family, row.0)}
  }

  function DbBatch(db: Db, family: Bytes, rows: Batch): Db {
    if rows == [] then db else DbApply(DbBatch(db, family, rows[..|rows| - 1]), family, rows[|rows| - 1])
  }

  /** What the database alone does; `ok` if its operation succeeds. */
  function DbStep(db: Db, a: Action, ok: bool): (Db, Answer) {
    if a.Evict? then (db, Written)
    else if !ok then (db, Failed)
    else
      match a
      case Get(c) => (db, Found(Lookup(db, c)))
      case Contains(c) => (db, Has(c in db))
      case Put(c, v) => (db[c := v], Written)
      case Remove(c) => (db - {c}, Written)
      case WriteBatch(family, rows) => (DbBatch(db, family, rows), Written)
  }

  // ---------- both levels ----------

  datatype TwoLevel = TwoLevel(cache: Cache, db: Db)

  function CacheOf(v: Option<Bytes>): CacheObject {
    if v.Some? then Value(v.value) else Absent
  }

  function CacheApply(cache: Cache, family: Bytes, row: (Bytes, WriteOp)): Cache {
    var k := ComposeKey(Cell(family, row.0));
    match row.1
    case Write(v) => cache[k := Value(v)]
    case Deletion => cache - {k}
  }

  function CacheBatch(cache: Cache, family: Bytes, rows: Batch): Cache {
    if rows == [] then cache else CacheApply(CacheBatch(cache, family, rows[..|rows| - 1]), family, rows[|rows| - 1])
  }

  function Step(s: TwoLevel, a: Action, ok: bool): (TwoLevel, Answer) {
    match a
    case Get(c) =>
      var k := ComposeKey(c);
      if k in s.cache then (s, Found(if s.cache[k].Value? then Some(s.cache[k].bytes) else None))
      else if !ok then (s, Failed)
      else (s.(cache := s.cache[k := CacheOf(Lookup(s.db, c))]), Found(Lookup(s.db, c)))
    case Contains(c) =>
      var k := ComposeKey(c);
      if k in s.cache then (s, Has(s.cache[k].Value?))
      else if !ok then (s, Failed)
      else (s, Has(c in s.db))
    case Put(c, v) =>
      if !ok then (s, Failed) else (TwoLevel(s.cache[ComposeKey(c) := Value(v)], s.db[c := v]), Written)
    case Remove(c) =>
      if !ok then (s, Failed) else (TwoLevel(s.cache - {ComposeKey(c)}, s.db - {c}), Written)
    case WriteBatch(family, rows) =>
      if !ok then (s, Failed)
      else (TwoLevel(CacheBatch(s.cache, family, rows), DbBatch(s.db, family, rows)), Written)
    case Evict(keys) => (s.(cache := s.cache - keys), Written)
  }

  class StorageInstance {
    var cache: Cache
    var db: Db

    constructor (db: Db)
      ensures View() == TwoLevel(map[], db)
    {
      this.cache, this.db := map[], db;
    }

    function View(): TwoLevel
      reads this
    {
      TwoLevel(cache, db)
    }

    method Get(c: Cell, ok: bool) returns (r: Answer)
      modifies `cache
      ensures (View(), r) == Step(old(View()), Action.Get(c), ok)
    {
      var k := ComposeKey(c);
      if k in cache {
        match cache[k] {
          case Value(v) => return Found(Some(v));
          case Absent => return Found(None);
        }
      }
      if !ok {
        return Failed;
      }
      var v := Lookup(db, c);
      match v {
        case Some(bytes) => cache := cache[k := Value(bytes)];
        case None => cache := cache[k := Absent];
      }
      r := Found(v);
    }

    method Put(c: Cell, v: Bytes, ok: bool) returns (r: Answer)
      modifies this
      ensures (View(), r) == Step(old(View()), Action.Put(c, v), ok)
    {
      if !ok {
        return Failed;
      }
      db := db[c := v];
      cache := cache[ComposeKey(c) := Value(v)];
      r := Written;
    }

    method ContainsKey(c: Cell, ok: bool) returns (r: Answer)
      ensures (View(), r) == Step(View(), Action.Contains(c), ok)
    {
      var k := ComposeKey(c);
      if k in cache {
        match cache[k] {
          case Value(_) => return Has(true);
          case Absent => return Has(false);
        }
      }
      if !ok {
        return Failed;
      }
      r := Has(c in db);
    }

    method Remove(c: Cell, ok: bool) returns (r: Answer)
      modifies this
      ensures (View(), r) == Step(old(View()), Action.Remove(c), ok)
    {
      if !ok {
        return Failed;
      }
      db := db - {c};
      cache := cache - {ComposeKey(c)};
      r := Written;
    }

    method WriteBatch(family: Bytes, rows: Batch, ok: bool) returns (r: Answer)
      modifies this
      ensures (View(), r) == Step(old(View()), Action.WriteBatch(family, rows), ok)
    {
      if !ok {
        return Failed;
      }
      db := DbBatch(db, family, rows);
      for i := 0 to |rows|
        invariant cache == CacheBatch(old(cache), family, rows[..i]) && db == DbBatch(old(db), family, rows)
      {
        assert rows[..i + 1][..i] == rows[..i];
        match rows[i].1 {
          case Write(v) => cache := cache[ComposeKey(Cell(family, rows[i].0)) := Value(v)];
          case Deletion => cache := cache - {ComposeKey(Cell(family, rows[i].0))};
        }
      }
      assert rows[..|rows|] == rows;
      r := Written;
    }
  }

  // ---------- batches ----------

  /** The last operation of a batch on a key decides. */
  function LastOp(rows: Batch, key: Bytes): Option<WriteOp> {
    if rows == [] then None
    else if rows[|rows| - 1].0 == key then Some(rows[|rows| - 1].1)
    else LastOp(rows[..|rows| - 1], key)
  }

  function Decided(op: Option<WriteOp>, before: Option<Bytes>): Option<Bytes> {
    match op
    case None => before
    case Some(Write(v)) => Some(v)
    case Some(Deletion) => None
  }

  lemma {:induction false} BatchLastWriteWins(db: Db, family: Bytes, rows: Batch, c: Cell)
    ensures Lookup(DbBatch(db, family, rows), c) ==
            if c.family == family then Decided(LastOp(rows, c.key), Lookup(db, c)) else Lookup(db, c)
  {
    if rows != [] {
      BatchLastWriteWins(db, family, rows[..|rows| - 1], c);
      assert c == Cell(c.family, c.key);
    }
  }

  // ---------- agreement ----------

  /** No two cells that are used share a place in the cache. */
  ghost predicate Injective(used: iset<Cell>) {
    forall a, b :: a in used && b in used && ComposeKey(a) == ComposeKey(b) ==> a == b
  }

  ghost predicate Uses(a: Action, used: iset<Cell>) {
    match a
    case Get(c) => c in used
    case Contains(c) => c in used
    case Put(c, _) => c in used
    case Remove(c) => c in used
    case WriteBatch(family, rows) => forall i :: 0 <= i < |rows| ==> Cell(family, rows[i].0) in used
    case Evict(_) => true
  }

  /** Every cached entry for a used cell, value or negative, is what the database holds. */
  ghost predicate Agrees(s: TwoLevel, used: iset<Cell>) {
    forall c :: c in used && ComposeKey(c) in s.cache ==> s.cache[ComposeKey(c)] == CacheOf(Lookup(s.db, c))
  }

  lemma RowKeepsAgreement(s: TwoLevel, used: iset<Cell>, family: Bytes, row: (Bytes, WriteOp))
    requires Injective(used) && Agrees(s, used) && Cell(family, row.0) in used
    ensures Agrees(TwoLevel(CacheApply(s.cache, family, row), DbApply(s.db, family, row)), used)
  {
  }

  lemma {:induction false} BatchKeepsAgreement(s: TwoLevel, used: iset<Cell>, family: Bytes, rows: Batch)
    requires Injective(used) && Agrees(s, used) && Uses(WriteBatch(family, rows), used)
    ensures Agrees(TwoLevel(CacheBatch(s.cache, family, rows), DbBatch(s.db, family, rows)), used)
  {
    if rows != [] {
      var init := rows[..|rows| - 1];
      BatchKeepsAgreement(s, used, family, init);
      RowKeepsAgreement(TwoLevel(CacheBatch(s.cache, family, init), DbBatch(s.db, family, init)), used, family, rows[|rows| - 1]);
    }
  }

  /** The answer is the database's; where a read would have failed in the database, it may also be the answer the
      database would have given had it not. */
  ghost predicate SameAnswer(answer: Answer, db: Db, a: Action, ok: bool) {
    answer == DbStep(db, a, ok).1 || ((a.Get? || a.Contains?) && answer == DbStep(db, a, true).1)
  }

  lemma StepAgrees(s: TwoLevel, used: iset<Cell>, a: Action, ok: bool)
    requires Injective(used) && Agrees(s, used) && Uses(a, used)
    ensures Agrees(Step(s, a, ok).0, used)
    ensures Step(s, a, ok).0.db == DbStep(s.db, a, ok).0
    ensures SameAnswer(Step(s, a, ok).1, s.db, a, ok)
  {
    if a.WriteBatch? {
      BatchKeepsAgreement(s, used, a.family, a.rows);
    }
  }

  // ---------- every run ----------

  type Run = seq<(Action, bool)>

  function After(s: TwoLevel, run: Run): TwoLevel {
    if run == [] then s else Step(After(s, run[..|run| - 1]), run[|run| - 1].0, run[|run| - 1].1).0
  }

  function DbAfter(db: Db, run: Run): Db {
    if run == [] then db else DbStep(DbAfter(db, run[..|run| - 1]), run[|run| - 1].0, run[|run| - 1].1).0
  }

  ghost predicate RunUses(run: Run, used: iset<Cell>) {
    forall k :: 0 <= k < |run| ==> Uses(run[k].0, used)
  }

  lemma {:induction false} RunAgrees(db: Db, run: Run, used: iset<Cell>)
    requires Injective(used) && RunUses(run, used)
    ensures Agrees(After(TwoLevel(map[], db), run), used)
    ensures After(TwoLevel(map[], db), run).db == DbAfter(db, run)
  {
    if run != [] {
      var init := run[..|run| - 1];
      RunAgrees(db, init, used);
      assert Uses(run[|run| - 1].0, used);
      StepAgrees(After(TwoLevel(map[], db), init), used, run[|run| - 1].0, run[|run| - 1].1);
    }
  }

  /** After `run`, action `a` gets the answer the database alone would give. */
  ghost predicate Transparent(db: Db, run: Run, a: Action, ok: bool) {
    SameAnswer(Step(After(TwoLevel(map[], db), run), a, ok).1, DbAfter(db, run), a, ok)
  }

  ghost predicate AlwaysTransparent(used: iset<Cell>) {
    forall db, run, a, ok | RunUses(run, used) && Uses(a, used) :: Transparent(db, run, a, ok)
  }

  lemma CollisionShows(used: iset<Cell>, a: Cell, b: Cell, v: Bytes)
    requires a in used && b in used && a != b && ComposeKey(a) == ComposeKey(b)
    ensures RunUses([(Put(a, v), true)], used) && Uses(Get(b), used)
    ensures !Transparent(map[], [(Put(a, v), true)], Get(b), true)
  {
    var run := [(Put(a, v), true)];
    assert run[..0] == [];
    assert After(TwoLevel(map[], map[]), run).cache[ComposeKey(b)] == Value(v);
    assert DbAfter(map[], run) == map[a := v];
  }

  /** The cache is transparent in every run, whatever it evicts, if and only if the composed keys of
      the cells in use do not collide. */
  lemma TransparentIffInjective(used: iset<Cell>)
    ensures AlwaysTransparent(used) <==> Injective(used)
  {
    if Injective(used) {
      forall db, run, a, ok | RunUses(run, used) && Uses(a, used) ensures Transparent(db, run, a, ok) {
        RunAgrees(db, run, used);
        StepAgrees(After(TwoLevel(map[], db), run), used, a, ok);
      }
    } else {
      var a, b :| a in used && b in used && ComposeKey(a) == ComposeKey(b) && a != b;
      CollisionShows(used, a, b, "");
    }
  }

  /** Without a rule for the lengths of keys, the names of the node's own families do collide. */
  lemma NamesAloneCollide()
    ensures !AlwaysTransparent(iset{Cell("block", "_infox"), Cell("block_info", "x")})
  {
    var a, b := Cell("block", "_infox"), Cell("block_info", "x");
    assert ComposeKey(a) == "block_infox" == ComposeKey(b);
    assert |a.family| != |b.family|;
    TransparentIffInjective(iset{a, b});
  }

  // ---------- what a read returns ----------

  /** What a successful step writes to a cell, if it does. */
  function WrittenTo(a: Action, ok: bool, c: Cell): Option<WriteOp> {
    match a
    case Put(d, v) => if ok && d == c then Some(Write(v)) else None
    case Remove(d) => if ok && d == c then Some(Deletion) else None
    case WriteBatch(family, rows) => if ok && family == c.family then LastOp(rows, c.key) else None
    case _ => None
  }

  /** The last operation of a run on a cell. */
  function LastWritten(run: Run, c: Cell): Option<WriteOp> {
    if run == [] then None
    else
      var op := WrittenTo(run[|run| - 1].0, run[|run| - 1].1, c);
      if op.Some? then op else LastWritten(run[..|run| - 1], c)
  }

  lemma {:induction false} DbHoldsLastWrite(db: Db, run: Run, c: Cell)
    ensures Lookup(DbAfter(db, run), c) == Decided(LastWritten(run, c), Lookup(db, c))
  {
    if run != [] {
      var init, a := run[..|run| - 1], run[|run| - 1].0;
      DbHoldsLastWrite(db, init, c);
      if a.WriteBatch? {
        BatchLastWriteWins(DbAfter(db, init), a.family, a.rows, c);
      }
    }
  }

  /** Reading a cell after a run returns what the last successful write to it wrote, nothing if that was a deletion, and
      what the database held at first if there was none; whether it comes from the cache or from the database. */
  lemma ReadsReturnLastWrite(db: Db, run: Run, used: iset<Cell>, c: Cell)
    requires Injective(used) && RunUses(run, used) && c in used
    ensures var held := Decided(LastWritten(run, c), Lookup(db, c));
      && Step(After(TwoLevel(map[], db), run), Get(c), true).1 == Found(held)
      && Step(After(TwoLevel(map[], db), run), Contains(c), true).1 == Has(held.Some?)
  {
    DbHoldsLastWrite(db, run, c);
    RunAgrees(db, run, used);
  }

  // ---------- what is answered without the database ----------

  /** The last row of a batch that the cache files under `k`. */
  function LastFiled(family: Bytes, rows: Batch, k: Bytes): Option<WriteOp> {
    if rows == [] then None
    else if ComposeKey(Cell(family, rows[|rows| - 1].0)) == k then Some(rows[|rows| - 1].1)
    else LastFiled(family, rows[..|rows| - 1], k)
  }

  /** The step reads or writes a value under `k`, successfully. */
  predicate Fills(a: Action, ok: bool, k: Bytes) {
    match a
    case Get(c) => ok && ComposeKey(c) == k
    case Put(c, _) => ok && ComposeKey(c) == k
    case WriteBatch(family, rows) => ok && LastFiled(family, rows, k).Some? && LastFiled(family, rows, k).value.Write?
    case _ => false
  }

  /** The step deletes or evicts what is under `k`. */
  predicate Empties(a: Action, ok: bool, k: Bytes) {
    match a
    case Remove(c) => ok && ComposeKey(c) == k
    case WriteBatch(family, rows) => ok && LastFiled(family, rows, k) == Some(Deletion)
    case Evict(keys) => k in keys
    case _ => false
  }

  /** Some step filled `k`, and none since emptied it. */
  predicate Held(run: Run, k: Bytes) {
    run != [] &&
    var (a, ok) := run[|run| - 1];
    (Fills(a, ok, k) || (!Empties(a, ok, k) && Held(run[..|run| - 1], k)))
  }

  lemma {:induction false} BatchHolds(cache: Cache, family: Bytes, rows: Batch, k: Bytes)
    ensures k in CacheBatch(cache, family, rows) <==>
      match LastFiled(family, rows, k)
      case None => k in cache
      case Some(op) => op.Write?
  {
    if rows != [] {
      BatchHolds(cache, family, rows[..|rows| - 1], k);
    }
  }

  lemma StepHolds(s: TwoLevel, a: Action, ok: bool, k: Bytes)
    ensures k in Step(s, a, ok).0.cache <==> Fills(a, ok, k) || (!Empties(a, ok, k) && k in s.cache)
  {
    if a.WriteBatch? {
      BatchHolds(s.cache, a.family, a.rows, k);
    }
  }

  lemma {:induction false} CacheHoldsIff(db: Db, run: Run, k: Bytes)
    ensures k in After(TwoLevel(map[], db), run).cache <==> Held(run, k)
  {
    if run != [] {
      var init := run[..|run| - 1];
      CacheHoldsIff(db, init, k);
      StepHolds(After(TwoLevel(map[], db), init), run[|run| - 1].0, run[|run| - 1].1, k);
    }
  }

  /** A read is answered while the database fails exactly if a successful read or write of its key came before, and no
      removal, deletion or eviction since. */
  lemma ReadsWithoutDatabaseIff(db: Db, run: Run, c: Cell)
    ensures Step(After(TwoLevel(map[], db), run), Get(c), false).1 != Failed <==> Held(run, ComposeKey(c))
    ensures Step(After(TwoLevel(map[], db), run), Contains(c), false).1 != Failed <==> Held(run, ComposeKey(c))
  {
    CacheHoldsIff(db, run, ComposeKey(c));
  }

  // ---------- the column families in use ----------

  /** The key has one of the lengths its family allows. */
  ghost predicate Fits(c: Cell, lengths: map<Bytes, set<nat>>) {
    c.family in lengths && |c.key| in lengths[c.family]
  }

  /** No name that extends another name makes up for the difference with a shorter key. */
  ghost predicate LengthsApart(lengths: map<Bytes, set<nat>>) {
    forall f, g, a, b :: f in lengths && g in lengths && f < g && a in lengths[f] && b in lengths[g] ==>
      |f| + a != |g| + b
  }

  /** Families whose key lengths are apart do not collide. */
  lemma LengthsApartAreInjective(used: iset<Cell>, lengths: map<Bytes, set<nat>>)
    requires LengthsApart(lengths) && forall c :: c in used ==> Fits(c, lengths)
    ensures Injective(used)
  {
    forall a, b | a in used && b in used && ComposeKey(a) == ComposeKey(b) ensures a == b {
      assert Fits(a, lengths) && Fits(b, lengths);
      var k := ComposeKey(a);
      assert k[..|a.family|] == a.family && k[..|b.family|] == b.family;
      assert k[|a.family|..] == a.key && k[|b.family|..] == b.key;
      assert |a.family| < |b.family| ==> a.family < b.family;
      assert |b.family| < |a.family| ==> b.family < a.family;
    }
  }

  /** The families of the node's store with 32-byte hash keys (storage/src/lib.rs). */
  const HASH_FAMILIES: set<Bytes> := {
    "acc_node_block", "acc_node_transaction", "block", "block_header", "block_body", "block_info",
    "block_txns", "block_txn_infos", "state_node", "transaction", "transaction_info",
    "transaction_info_hash", "contract_event", "failed_block"}

  const CHAIN_INFO: Bytes := "chain_info"
  const CHAIN_INFO_KEYS: set<Bytes> := {"startup_info", "genesis"}

  ghost const NODE_CELLS: iset<Cell> :=
    iset c: Cell | (c.family in HASH_FAMILIES && |c.key| == 32) || (c.family == CHAIN_INFO && c.key in CHAIN_INFO_KEYS)

  ghost const NODE_LENGTHS: map<Bytes, set<nat>> :=
    map f | f in HASH_FAMILIES + {CHAIN_INFO} :: if f in HASH_FAMILIES then {32} else {12, 7}

  lemma NodeLengthsAreApart()
    ensures LengthsApart(NODE_LENGTHS)
  {
    forall f, g, a, b | f in NODE_LENGTHS && g in NODE_LENGTHS && f < g && a in NODE_LENGTHS[f] && b in NODE_LENGTHS[g]
      ensures |f| + a != |g| + b
    {
      assert f in HASH_FAMILIES <==> NODE_LENGTHS[f] == {32};
      assert f !in HASH_FAMILIES ==> f == CHAIN_INFO;
      assert g !in HASH_FAMILIES ==> g == CHAIN_INFO;
      assert |CHAIN_INFO| == 10;
    }
  }

  /** Names such as `block` and `block_info` extend each other, but the key lengths of the node's families
      are apart, so its cache is transparent. */
  lemma NodeStoreIsTransparent()
    ensures Injective(NODE_CELLS) && AlwaysTransparent(NODE_CELLS)
  {
    NodeLengthsAreApart();
    forall c | c in NODE_CELLS ensures Fits(c, NODE_LENGTHS) {
      assert |"startup_info"| == 12 && |"genesis"| == 7;
    }
    LengthsApartAreInjective(NODE_CELLS, NODE_LENGTHS);
    TransparentIffInjective(NODE_CELLS);
  }

  // ---------- typed batches ----------

  /** A batch over decoded keys; `put` and `delete` append, `new_puts` and `new_deletes` fill it. */
  type TypedBatch<K> = seq<(K, WriteOp)>

  function NewPuts<K>(kvs: seq<(K, Bytes)>): TypedBatch<K> {
    seq(|kvs|, i requires 0 <= i < |kvs| => (kvs[i].0, Write(kvs[i].1)))
  }

  function NewDeletes<K>(ks: seq<K>): TypedBatch<K> {
    seq(|ks|, i requires 0 <= i < |ks| => (ks[i], Deletion))
  }

  function EncodeRows<K>(encode: K -> Bytes, rows: TypedBatch<K>): Batch {
    seq(|rows|, i requires 0 <= i < |rows| => (encode(rows[i].0), rows[i].1))
  }

  ghost predicate Distinguishes<K(!new)>(encode: K -> Bytes) {
    forall a, b :: encode(a) == encode(b) ==> a == b
  }

  /** The value of a key after putting `kvs`: the last one given for it, else what was there. */
  function LastValue<K(==)>(kvs: seq<(K, Bytes)>, k: K, before: Option<Bytes>): Option<Bytes> {
    if kvs == [] then before
    else if kvs[|kvs| - 1].0 == k then Some(kvs[|kvs| - 1].1)
    else LastValue(kvs[..|kvs| - 1], k, before)
  }

  lemma {:induction false} LastOpOfPuts<K(!new)>(encode: K -> Bytes, kvs: seq<(K, Bytes)>, k: K, before: Option<Bytes>)
    requires Distinguishes(encode)
    ensures Decided(LastOp(EncodeRows(encode, NewPuts(kvs)), encode(k)), before) == LastValue(kvs, k, before)
  {
    if kvs != [] {
      var rows := EncodeRows(encode, NewPuts(kvs));
      var init := kvs[..|kvs| - 1];
      assert rows[..|rows| - 1] == EncodeRows(encode, NewPuts(init));
      LastOpOfPuts(encode, init, k, before);
    }
  }

  /** `put_all` leaves every key with its last value. */
  lemma PutAllLastWins<K(!new)>(db: Db, family: Bytes, encode: K -> Bytes, kvs: seq<(K, Bytes)>, k: K)
    requires Distinguishes(encode)
    ensures Lookup(DbBatch(db, family, EncodeRows(encode, NewPuts(kvs))), Cell(family, encode(k))) ==
            LastValue(kvs, k, Lookup(db, Cell(family, encode(k))))
  {
    BatchLastWriteWins(db, family, EncodeRows(encode, NewPuts(kvs)), Cell(family, encode(k)));
    LastOpOfPuts(encode, kvs, k, Lookup(db, Cell(family, encode(k))));
  }

  lemma {:induction false} LastOpOfDeletes<K(!new)>(encode: K -> Bytes, ks: seq<K>, k: K)
    requires Distinguishes(encode)
    ensures LastOp(EncodeRows(encode, NewDeletes(ks)), encode(k)) == if k in ks then Some(Deletion) else None
  {
    if ks != [] {
      var rows := EncodeRows(encode, NewDeletes(ks));
      var init := ks[..|ks| - 1];
      assert rows[..|rows| - 1] == EncodeRows(encode, NewDeletes(init));
      LastOpOfDeletes(encode, init, k);
    }
  }

  /** `delete_all` removes exactly the given keys. */
  lemma DeleteAllRemoves<K(!new)>(db: Db, family: Bytes, encode: K -> Bytes, ks: seq<K>, k: K)
    requires Distinguishes(encode)
    ensures Lookup(DbBatch(db, family, EncodeRows(encode, NewDeletes(ks))), Cell(family, encode(k))) ==
            if k in ks then None else Lookup(db, Cell(family, encode(k)))
  {
    BatchLastWriteWins(db, family, EncodeRows(encode, NewDeletes(ks)), Cell(family, encode(k)));
    LastOpOfDeletes(encode, ks, k);
  }

  // ---------- integer keys ----------

  type U64 = x: nat | x <= U64_MAX

  function BigEndianBytes(n: nat, width: nat): (s: Bytes)
    ensures |s| == width
  {
    if width == 0 then "" else BigEndianBytes(n / 256, width - 1) + [(n % 256) as char]
  }

  function BigEndianValue(s: Bytes): nat {
    if s == "" then 0 else 256 * BigEndianValue(s[..|s| - 1]) + s[|s| - 1] as nat
  }

  function EncodeU64(n: U64): Bytes {
    BigEndianBytes(n, 8)
  }

  /** Reads eight bytes and ignores the rest; fewer are an error. */
  function DecodeU64(s: Bytes): Option<nat> {
    if |s| < 8 then None else Some(BigEndianValue(s[..8]))
  }

  lemma {:induction false} BigEndianRoundTrip(n: nat, width: nat)
    requires n < Pow256(width)
    ensures BigEndianValue(BigEndianBytes(n, width)) == n
  {
    if width > 0 {
      BigEndianRoundTrip(n / 256, width - 1);
      var s := BigEndianBytes(n, width);
      assert s[..|s| - 1] == BigEndianBytes(n / 256, width - 1);
    }
  }

  /** Integer keys decode to themselves, so distinct keys have distinct bytes. */
  lemma U64KeyRoundTrip(n: U64)
    ensures DecodeU64(EncodeU64(n)) == Some(n)
  {
    assert Pow256(4) == 0x1_0000_0000;
    assert Pow256(8) == 0x1_0000_0000_0000_0000;
    BigEndianRoundTrip(n, 8);
    assert EncodeU64(n)[..8] == EncodeU64(n);
  }

  lemma U64KeysAreDistinct()
    ensures Distinguishes(EncodeU64)
  {
    forall a: U64, b: U64 | EncodeU64(a) == EncodeU64(b) ensures a == b {
      U64KeyRoundTrip(a);
      U64KeyRoundTrip(b);
    }
  }
}
