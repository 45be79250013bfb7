/** What block verification guarantees about whole lineages: time moves on, headers commit to their
    past, and uncles lie beside the path and are minted once. */
module ChainHistory {
  import opened ChainTypes
  import opened ChainInvariants

  lemma {:induction false} AncestorIsVouched(id: HashValue, n: nat)
    requires Rooted(id) && Lawful(id) && Vouched(id) && n <= id.header.number
    ensures n < |Lineage(id)| && Lawful(Lineage(id)[n]) && Vouched(Lineage(id)[n])
  {
    LineageShape(id);
    if n < id.header.number {
      AncestorIsVouched(id.header.parentHash, n);
    }
  }

  lemma {:induction false} TimeMovesOn(id: HashValue, n: nat)
    requires Rooted(id) && Vouched(id) && n < id.header.number && n < |Lineage(id)|
    ensures Lineage(id)[n].OfHeader? && Lineage(id)[n].header.timestamp < id.header.timestamp
  {
    var p := id.header.parentHash;
    LineageShape(id);
    LineageShape(p);
    if n < p.header.number {
      TimeMovesOn(p, n);
    }
  }

  lemma TimesOrdered(id: HashValue, n: nat, m: nat)
    requires Rooted(id) && Lawful(id) && Vouched(id) && n < m < |Lineage(id)|
    ensures Lineage(id)[n].OfHeader? && Lineage(id)[m].OfHeader?
    ensures Lineage(id)[n].header.timestamp < Lineage(id)[m].header.timestamp
  {
    LineageShape(id);
    AncestorIsVouched(id, m);
    LineageAt(id, m);
    TimeMovesOn(Lineage(id)[m], n);
  }

  lemma CommitsToPath(id: HashValue, n: nat)
    requires Rooted(id) && Lawful(id) && Vouched(id) && 0 < n < |Lineage(id)|
    ensures Lineage(id)[n].OfHeader? && Lineage(id)[n].header.blockAccumulatorRoot == OfLeaves(Lineage(id)[..n])
  {
    LineageShape(id);
    AncestorIsVouched(id, n);
    LineageAt(id, n);
    LineageAt(id, n - 1);
  }

  /** The uncles of one block are distinct and no more than its epoch allows, and the first block of an
      epoch has none. */
  lemma UnclesOfLeaf(id: HashValue, n: nat)
    requires Rooted(id) && Lawful(id) && Vouched(id) && n < |Lineage(id)|
    ensures var x := Lineage(id)[n];
      var us := UncleHeaders(x);
      && InEpoch(x) && |us| <= EpochAt(x).value.maxUncles
      && (forall i, j :: 0 <= i < j < |us| ==> us[i] != us[j])
      && (x.header.number == EpochAt(x).value.start ==> us == [])
  {
    LineageShape(id);
    AncestorIsVouched(id, n);
    assert Lineage(id)[n].header.number > 0 ==> UnclesFit(Lineage(id)[n]);
  }

  lemma UncleOfLeafFits(id: HashValue, n: nat, u: BlockHeader)
    requires Rooted(id) && Lawful(id) && Vouched(id) && n < |Lineage(id)| && u in UncleHeaders(Lineage(id)[n])
    ensures n > 0 && UncleFits(Lineage(id)[n], u) && Lineage(id)[n].header.number == n
  {
    LineageShape(id);
    AncestorIsVouched(id, n);
    LineageAt(id, n);
    var us := UncleHeaders(Lineage(id)[n]);
    var k :| 0 <= k < |us| && us[k] == u;
    assert UnclesFit(Lineage(id)[n]);
  }

  /** Header `u` lies beside `path`, below its entry `n`: it is one higher than its parent, which is an entry,
      later than that, commits to the entries before it, and is no entry itself. */
  ghost predicate BesidePath(path: seq<HashValue>, n: nat, u: BlockHeader) {
    && 0 < u.number < n < |path| && path[u.number - 1] == u.parentHash && OfHeader(u) !in path
    && u.parentHash.OfHeader? && u.timestamp > u.parentHash.header.timestamp
    && u.blockAccumulatorRoot == OfLeaves(path[..u.number])
  }

  lemma UncleIsBesidePath(id: HashValue, n: nat, u: BlockHeader)
    requires Rooted(id) && Lawful(id) && Vouched(id) && n < |Lineage(id)| && u in UncleHeaders(Lineage(id)[n])
    ensures BesidePath(Lineage(id), n, u)
  {
    LineageShape(id);
    UncleOfLeafFits(id, n, u);
    LineageAt(id, n);
    NotOnPath(id, n, OfHeader(u));
    ParentIsEntry(id, n, u);
  }

  lemma ParentIsEntry(id: HashValue, n: nat, u: BlockHeader)
    requires Rooted(id) && 0 < n < |Lineage(id)| && u.parentHash.OfHeader? && u.number == u.parentHash.header.number + 1
    requires Lineage(id)[n].OfHeader? && u.parentHash in Lineage(Lineage(id)[n].header.parentHash)
    ensures 0 < u.number <= n && Lineage(id)[u.number - 1] == u.parentHash
    ensures Lineage(u.parentHash) == Lineage(id)[..u.number]
  {
    LineageShape(id);
    LineageAt(id, n);
    LineageAt(id, n - 1);
    var k :| 0 <= k < n && Lineage(id)[..n][k] == u.parentHash;
    LineageAt(id, k);
  }

  /** A header lower than `n` that is not among the first `n + 1` leaves is no leaf. */
  lemma NotOnPath(id: HashValue, n: nat, x: HashValue)
    requires Rooted(id) && x.OfHeader? && x.header.number <= n < |Lineage(id)| && x !in Lineage(id)[..n + 1]
    ensures x !in Lineage(id)
  {
    LineageShape(id);
    if x in Lineage(id) {
      var j :| 0 <= j < |Lineage(id)| && Lineage(id)[j] == x;
      LineageAt(id, j);
    }
  }

  /** An uncle is minted at most once on a lineage. Within an epoch the cache of minted uncles sees to
      it; across epochs, an uncle is lower than the first block that minted it and would have to be in
      the epoch of the second. */
  lemma MintedOnce(id: HashValue, n: nat, m: nat, u: BlockHeader)
    requires Rooted(id) && Lawful(id) && Vouched(id) && n < m < |Lineage(id)|
    requires u in UncleHeaders(Lineage(id)[n])
    ensures u !in UncleHeaders(Lineage(id)[m])
  {
    LineageShape(id);
    UncleOfLeafFits(id, n, u);
    AncestorIsVouched(id, m);
    LineageAt(id, m);
    NotMintedAgain(Lineage(id)[m], n, u);
  }

  lemma NotMintedAgain(id: HashValue, n: nat, u: BlockHeader)
    requires Rooted(id) && Lawful(id) && Vouched(id) && n < id.header.number && n < |Lineage(id)|
    requires u in UncleHeaders(Lineage(id)[n]) && u.number < n
    ensures u !in UncleHeaders(id)
  {
    LineageShape(id);
    if u in UncleHeaders(id) {
      var start := EpochAt(id).value.start;
      UncleOfLeafFits(id, id.header.number, u);
      NoUncleTwice(id, n);
      MintedHere(id, id.header.number, start, u);
      MintedHere(id, n, start, u);
      LineageAt(id, n);
    }
  }

  lemma MintedHere(id: HashValue, n: nat, start: nat, u: BlockHeader)
    requires Rooted(id) && start <= n < |Lineage(id)| && u in UncleHeaders(Lineage(id)[n])
    ensures OfHeader(u) in MintedAt(Lineage(id)[n]) && OfHeader(u) in Minted(Lineage(id)[n], start)
  {
    LineageShape(id);
    LineageAt(id, n);
    MintedStep(id, n, start);
    var us := UncleHeaders(Lineage(id)[n]);
    var k :| 0 <= k < |us| && us[k] == u;
    assert MintedAt(Lineage(id)[n])[k] == OfHeader(u);
  }
}
