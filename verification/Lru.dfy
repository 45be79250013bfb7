/** Bounded memory of the most recently seen elements, and the linked hash set that implements it
    (network-p2p/src/utils.rs). */
module Lru {
  // ---------- order of last insertion ----------

  predicate NoDuplicates<T(==)>(s: seq<T>) {
    forall i, j :: 0 <= i < j < |s| ==> s[i] != s[j]
  }

  function Without<T(==)>(s: seq<T>, x: T): seq<T> {
    if s == [] then [] else if s[0] == x then s[1..] else [s[0]] + Without(s[1..], x)
  }

  /** The distinct elements of a history, in the order of their last occurrence. */
  function LastOrder<T(==)>(h: seq<T>): seq<T> {
    if h == [] then [] else Without(LastOrder(h[..|h| - 1]), h[|h| - 1]) + [h[|h| - 1]]
  }

  function Newest<T>(s: seq<T>, n: nat): seq<T> {
    if |s| <= n then s else s[|s| - n..]
  }

  /** At most `n` elements: those of the history that occurred last. */
  function Recent<T(==)>(h: seq<T>, n: nat): seq<T> {
    Newest(LastOrder(h), n)
  }

  function Elements<T(==)>(s: seq<T>): set<T> {
    set x | x in s
  }

  lemma DistinctTail<T>(s: seq<T>)
    requires s != [] && NoDuplicates(s)
    ensures NoDuplicates(s[1..]) && s[0] !in Elements(s[1..])
    ensures Elements(s) == Elements(s[1..]) + {s[0]}
  {
    assert s == [s[0]] + s[1..];
  }

  lemma DistinctCons<T>(x: T, s: seq<T>)
    requires NoDuplicates(s) && x !in Elements(s)
    ensures NoDuplicates([x] + s) && Elements([x] + s) == Elements(s) + {x}
  {
  }

  lemma DistinctSnoc<T>(s: seq<T>, x: T)
    requires NoDuplicates(s) && x !in Elements(s)
    ensures NoDuplicates(s + [x]) && Elements(s + [x]) == Elements(s) + {x}
  {
  }

  lemma {:induction false} WithoutElements<T>(s: seq<T>, x: T)
    requires NoDuplicates(s)
    ensures Elements(Without(s, x)) == Elements(s) - {x} && NoDuplicates(Without(s, x))
    ensures |Without(s, x)| == if x in Elements(s) then |s| - 1 else |s|
  {
    if s != [] {
      DistinctTail(s);
      if s[0] != x {
        WithoutElements(s[1..], x);
        DistinctCons(s[0], Without(s[1..], x));
      }
    }
  }

  lemma {:induction false} LastOrderIsExact<T>(h: seq<T>)
    ensures NoDuplicates(LastOrder(h)) && Elements(LastOrder(h)) == Elements(h)
  {
    if h != [] {
      var init, e := h[..|h| - 1], h[|h| - 1];
      LastOrderIsExact(init);
      WithoutElements(LastOrder(init), e);
      DistinctSnoc(Without(LastOrder(init), e), e);
      assert h == init + [e];
    }
  }

  // ---------- one more element ----------

  /** The memory after one more occurrence of `e`: moved to the back if remembered, otherwise added
      at the back, dropping the oldest element of a full memory. */
  function Refresh<T(==)>(m: seq<T>, n: nat, e: T): seq<T> {
    if n == 0 then []
    else if e in m then Without(m, e) + [e]
    else if |m| < n then m + [e]
    else m[1..] + [e]
  }

  /** Dropping the `k` oldest commutes with moving a newer element to the back. */
  lemma {:induction false} MoveInSuffix<T>(s: seq<T>, k: nat, e: T)
    requires k <= |s| && NoDuplicates(s) && e in Elements(s[k..])
    ensures |Without(s, e)| == |s| - 1 && Without(s, e)[k..] == Without(s[k..], e)
  {
    if k == 0 {
      assert s[0..] == s;
      WithoutElements(s, e);
    } else {
      DistinctTail(s);
      TailDrop(s, k);
      MoveInSuffix(s[1..], k - 1, e);
      ConsDrop(s[0], Without(s[1..], e), k);
    }
  }

  lemma ConsDrop<T>(x: T, s: seq<T>, k: nat)
    requires 0 < k <= |s| + 1
    ensures ([x] + s)[k..] == s[k - 1..]
  {
  }

  lemma {:induction false} MoveFromPrefix<T>(s: seq<T>, k: nat, e: T)
    requires 0 < k <= |s| && NoDuplicates(s) && e in Elements(s) && e !in Elements(s[k..])
    ensures |Without(s, e)| == |s| - 1 && Without(s, e)[k - 1..] == s[k..]
  {
    DistinctTail(s);
    TailDrop(s, k);
    if s[0] != e {
      assert k > 1;
      MoveFromPrefix(s[1..], k - 1, e);
    }
  }

  lemma TailDrop<T>(s: seq<T>, k: nat)
    requires 0 < k <= |s|
    ensures s[1..][k - 1..] == s[k..] && Elements(s[k..]) <= Elements(s[1..])
  {
  }

  lemma AppendThenDrop<T>(w: seq<T>, e: T, k: nat)
    requires k <= |w|
    ensures (w + [e])[k..] == w[k..] + [e]
  {
  }

  lemma NewestStep<T>(s: seq<T>, n: nat, e: T)
    requires NoDuplicates(s) && 0 < n < |s|
    ensures Newest(Without(s, e) + [e], n) == Refresh(Newest(s, n), n, e)
  {
    if e in Newest(s, n) {
      RememberedStep(s, n, e);
    } else if e in s {
      ForgottenStep(s, n, e);
    } else {
      UnseenStep(s, n, e);
    }
  }

  lemma RememberedStep<T>(s: seq<T>, n: nat, e: T)
    requires NoDuplicates(s) && 0 < n < |s| && e in Elements(Newest(s, n))
    ensures Newest(Without(s, e) + [e], n) == Without(Newest(s, n), e) + [e]
  {
    var k := |s| - n;
    assert Newest(s, n) == s[k..];
    MovedInSuffix(s, k, e);
  }

  lemma MovedInSuffix<T>(s: seq<T>, k: nat, e: T)
    requires k < |s| && NoDuplicates(s) && e in Elements(s[k..])
    ensures var moved := Without(s, e) + [e];
      |moved| == |s| && moved[k..] == Without(s[k..], e) + [e]
  {
    MoveInSuffix(s, k, e);
    AppendThenDrop(Without(s, e), e, k);
  }

  lemma ForgottenStep<T>(s: seq<T>, n: nat, e: T)
    requires NoDuplicates(s) && 0 < n < |s| && e in Elements(s) && e !in Elements(Newest(s, n))
    ensures Newest(Without(s, e) + [e], n) == Newest(s, n)[1..] + [e]
  {
    DropOne(s, |s| - n);
    MovedFromPrefix(s, |s| - n, e);
  }

  lemma MovedFromPrefix<T>(s: seq<T>, k: nat, e: T)
    requires k < |s| && NoDuplicates(s) && e in Elements(s) && e !in Elements(s[k + 1..])
    ensures var moved := Without(s, e) + [e];
      |moved| == |s| && moved[k..] == s[k + 1..] + [e]
  {
    MoveFromPrefix(s, k + 1, e);
    AppendThenDrop(Without(s, e), e, k);
  }

  lemma UnseenStep<T>(s: seq<T>, n: nat, e: T)
    requires 0 < n < |s| && e !in s
    ensures Newest(Without(s, e) + [e], n) == Newest(s, n)[1..] + [e]
  {
    WithoutAbsent(s, e);
    NewestOfAppend(s, n, e);
  }

  lemma NewestOfAppend<T>(s: seq<T>, n: nat, e: T)
    requires 0 < n < |s|
    ensures Newest(s + [e], n) == Newest(s, n)[1..] + [e]
  {
    DropAppend(s, |s| - n, e);
  }

  lemma DropAppend<T>(s: seq<T>, k: nat, e: T)
    requires k < |s|
    ensures (s + [e])[k + 1..] == s[k..][1..] + [e]
  {
    assert s[k..][1..] == s[k + 1..];
  }

  lemma DropOne<T>(s: seq<T>, k: nat)
    requires k < |s|
    ensures s[k..][1..] == s[k + 1..] && Elements(s[k + 1..]) <= Elements(s[k..]) <= Elements(s)
  {
    assert s[k..] == [s[k]] + s[k + 1..];
  }

  lemma {:induction false} WithoutAbsent<T>(s: seq<T>, e: T)
    requires e !in s
    ensures Without(s, e) == s
  {
    if s != [] {
      WithoutAbsent(s[1..], e);
      assert s == [s[0]] + s[1..];
    }
  }

  lemma RecentStep<T>(h: seq<T>, n: nat, e: T)
    ensures Recent(h + [e], n) == Refresh(Recent(h, n), n, e)
  {
    var order := LastOrder(h);
    LastOrderIsExact(h);
    assert (h + [e])[..|h|] == h;
    assert LastOrder(h + [e]) == Without(order, e) + [e];
    WithoutElements(order, e);
    if 0 < n < |order| {
      NewestStep(order, n, e);
    } else if e !in order {
      WithoutAbsent(order, e);
    }
  }

  lemma RecentIsBounded<T>(h: seq<T>, n: nat)
    ensures |Recent(h, n)| <= n && NoDuplicates(Recent(h, n))
  {
    LastOrderIsExact(h);
  }

  // ---------- forgetting takes many others ----------

  /** What comes after `x` in an order. */
  function Later<T(==)>(s: seq<T>, x: T): seq<T> {
    if s == [] then [] else if s[0] == x then s[1..] else Later(s[1..], x)
  }

  /** Moving another element to the back moves it to the back of what comes after `x`. */
  lemma {:induction false} LaterOfMove<T>(s: seq<T>, x: T, e: T)
    requires NoDuplicates(s) && x in s && x != e
    ensures Elements(Later(Without(s, e) + [e], x)) == Elements(Later(s, x)) + {e}
  {
    var moved := Without(s, e) + [e];
    if s[0] == x {
      assert moved[0] == x && moved[1..] == Without(s[1..], e) + [e];
      assert Later(moved, x) == moved[1..];
      WithoutElements(s[1..], e);
      DistinctSnoc(Without(s[1..], e), e);
    } else if s[0] == e {
      LaterOfAppend(s[1..], x, e);
    } else {
      assert moved[0] == s[0] && moved[1..] == Without(s[1..], e) + [e];
      LaterOfMove(s[1..], x, e);
    }
  }

  lemma {:induction false} LaterOfAppend<T>(s: seq<T>, x: T, e: T)
    requires x in s
    ensures Elements(Later(s + [e], x)) == Elements(Later(s, x)) + {e}
  {
    assert (s + [e])[1..] == s[1..] + [e];
    if s[0] != x {
      LaterOfAppend(s[1..], x, e);
    }
  }

  lemma {:induction false} LaterOfLast<T>(s: seq<T>, x: T)
    requires x !in s
    ensures Later(s + [x], x) == []
  {
    if s != [] {
      assert (s + [x])[1..] == s[1..] + [x];
      LaterOfLast(s[1..], x);
    }
  }

  /** Everything after `h[i]` in the order occurred after position `i`; if `h[i]` does not occur again,
      that is everything that did. */
  lemma {:induction false} LaterOccurredLater<T>(h: seq<T>, i: nat)
    requires i < |h|
    ensures h[i] in LastOrder(h)
    ensures Elements(Later(LastOrder(h), h[i])) <= Elements(h[i + 1..])
    ensures h[i] !in h[i + 1..] ==> Elements(Later(LastOrder(h), h[i])) == Elements(h[i + 1..])
  {
    var init, e, x := h[..|h| - 1], h[|h| - 1], h[i];
    LastOrderIsExact(init);
    LastOrderIsExact(h);
    WithoutElements(LastOrder(init), e);
    assert x in Elements(h);
    if x == e {
      assert e !in Elements(Without(LastOrder(init), e));
      LaterOfLast(Without(LastOrder(init), e), e);
      assert i + 1 < |h| ==> h[i + 1..][|h| - i - 2] == x;
    } else {
      LaterOccurredLater(init, i);
      LaterOfMove(LastOrder(init), x, e);
      assert h[i + 1..] == init[i + 1..] + [e];
    }
  }

  lemma {:induction false} DistinctCount<T>(s: seq<T>)
    requires NoDuplicates(s)
    ensures |Elements(s)| == |s|
  {
    if s != [] {
      var init, e := s[..|s| - 1], s[|s| - 1];
      DistinctCount(init);
      assert Elements(s) == Elements(init) + {e};
      assert e !in Elements(init);
    }
  }

  lemma SubsetCount<T>(a: set<T>, b: set<T>)
    requires a <= b
    ensures |a| <= |b|
  {
    assert b == a + (b - a);
  }

  /** An element is among the newest exactly if fewer than `n` elements come after it. */
  lemma {:induction false} NewestIff<T>(s: seq<T>, x: T, n: nat)
    requires NoDuplicates(s) && x in s
    ensures x in Newest(s, n) <==> |Later(s, x)| < n
    ensures NoDuplicates(Later(s, x)) && x !in Later(s, x)
  {
    assert s == [s[0]] + s[1..];
    if s[0] == x {
      assert |s| > n ==> s[|s| - n..] == s[1..][|s| - 1 - n..];
    } else {
      NewestIff(s[1..], x, n);
      assert |s| > n ==> Newest(s, n) == Newest(s[1..], n);
    }
  }

  /** An element that occurred is forgotten only after `n` other distinct elements occurred. */
  lemma ForgettingTakesOthers<T>(h: seq<T>, i: nat, n: nat)
    requires i < |h| && h[i] !in Recent(h, n)
    ensures |Elements(h[i + 1..]) - {h[i]}| >= n
  {
    var order := LastOrder(h);
    LaterOccurredLater(h, i);
    LastOrderIsExact(h);
    NewestIff(order, h[i], n);
    DistinctCount(Later(order, h[i]));
    SubsetCount(Elements(Later(order, h[i])), Elements(h[i + 1..]) - {h[i]});
  }

  /** Exactly how long an element is remembered: while fewer than `n` distinct elements occurred
      after its last occurrence. */
  lemma RememberedIff<T>(h: seq<T>, i: nat, n: nat)
    requires i < |h| && h[i] !in h[i + 1..]
    ensures h[i] in Recent(h, n) <==> |Elements(h[i + 1..])| < n
  {
    LaterOccurredLater(h, i);
    LastOrderIsExact(h);
    NewestIff(LastOrder(h), h[i], n);
    DistinctCount(Later(LastOrder(h), h[i]));
  }

  // ---------- the linked hash set ----------

  /** A set in insertion order that stays below its limit. */
  class LruHashSet<T(==)> {
    var items: seq<T>
    const limit: nat

    constructor (limit: nat)
      requires limit > 0
      ensures items == [] && this.limit == limit
    {
      items := [];
      this.limit := limit;
    }

    /** Inserts `e`; true if it was not in the set. */
    method Insert(e: T) returns (isNew: bool)
      modifies this
      ensures (items, isNew) == Inserted(old(items), limit, e)
    {
      isNew := e !in items;
      if isNew {
        items := items + [e];
        if |items| == limit {
          items := items[1..];
        }
      } else {
        items := Without(items, e) + [e];
      }
    }
  }

  function Inserted<T(==)>(items: seq<T>, limit: nat, e: T): (seq<T>, bool) {
    if e in items then (Without(items, e) + [e], false)
    else if |items| + 1 == limit then ((items + [e])[1..], true)
    else (items + [e], true)
  }

  function AfterInserts<T(==)>(h: seq<T>, limit: nat): seq<T> {
    if h == [] then [] else Inserted(AfterInserts(h[..|h| - 1], limit), limit, h[|h| - 1]).0
  }

  lemma InsertedIsRefresh<T>(m: seq<T>, limit: nat, e: T)
    requires |m| < limit
    ensures Inserted(m, limit, e).0 == Refresh(m, limit - 1, e)
  {
    if m != [] {
      assert (m + [e])[1..] == m[1..] + [e];
    }
  }

  lemma {:induction false} InsertsKeepRecent<T>(h: seq<T>, limit: nat)
    requires limit > 0
    ensures AfterInserts(h, limit) == Recent(h, limit - 1)
  {
    if h != [] {
      var init, last := h[..|h| - 1], h[|h| - 1];
      InsertsKeepRecent(init, limit);
      InsertStep(init, last, limit);
      assert h == init + [last];
    }
  }

  lemma InsertStep<T>(h: seq<T>, e: T, limit: nat)
    requires limit > 0
    ensures Inserted(Recent(h, limit - 1), limit, e).0 == Recent(h + [e], limit - 1)
  {
    RecentIsBounded(h, limit - 1);
    InsertedIsRefresh(Recent(h, limit - 1), limit, e);
    RecentStep(h, limit - 1, e);
  }

  /** After any inserts the set holds the at most limit - 1 most recent distinct elements in order of
      last insertion, and inserting reports exactly whether the element was not among them. */
  lemma InsertReportsForgotten<T>(h: seq<T>, limit: nat, e: T)
    requires limit > 0
    ensures AfterInserts(h, limit) == Recent(h, limit - 1) && |AfterInserts(h, limit)| <= limit - 1
    ensures Inserted(AfterInserts(h, limit), limit, e).1 <==> e !in Recent(h, limit - 1)
  {
    InsertsKeepRecent(h, limit);
    RecentIsBounded(h, limit - 1);
  }
}
