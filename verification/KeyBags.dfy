/** Multisets of content keys, and what a pairing by content can reach. */
module KeyBags {

  datatype Row = Row(ts: int, oldFee: int, newFee: int, reason: string)

  /** The three fields a comparison judges. */
  datatype Key = Key(oldFee: int, newFee: int, reason: string)

  function KeyOf(r: Row): Key { Key(r.oldFee, r.newFee, r.reason) }

  ghost predicate Within(ids: seq<nat>, rows: seq<Row>) {
    forall i :: 0 <= i < |ids| ==> ids[i] < |rows|
  }

  ghost predicate Distinct(ids: seq<nat>) {
    forall i, j :: 0 <= i < j < |ids| ==> ids[i] != ids[j]
  }

  /** The keys of the listed rows, with multiplicity. */
  ghost function KeyBag(ids: seq<nat>, rows: seq<Row>): (b: multiset<Key>)
    requires Within(ids, rows)
    ensures |b| == |ids|
  {
    if ids == [] then multiset{}
    else KeyBag(ids[..|ids| - 1], rows) + multiset{KeyOf(rows[ids[|ids| - 1]])}
  }

  lemma {:induction false} KeyBagCat(a: seq<nat>, b: seq<nat>, rows: seq<Row>)
    requires Within(a, rows) && Within(b, rows)
    ensures Within(a + b, rows) && KeyBag(a + b, rows) == KeyBag(a, rows) + KeyBag(b, rows)
  {
    if b == [] {
      assert a + b == a;
    } else {
      assert (a + b)[..|a + b| - 1] == a + b[..|b| - 1];
      KeyBagCat(a, b[..|b| - 1], rows);
    }
  }

  /** Pulling entry `i` out of a list. */
  lemma KeyBagExtract(b: seq<nat>, i: nat, rows: seq<Row>)
    requires Within(b, rows) && i < |b|
    ensures var rest := b[..i] + b[i + 1..];
            && Within(rest, rows)
            && multiset(b) == multiset(rest) + multiset{b[i]}
            && KeyBag(b, rows) == KeyBag(rest, rows) + multiset{KeyOf(rows[b[i]])}
  {
    var x := b[i];
    assert b == b[..i] + [x] + b[i + 1..];
    KeyBagCat(b[..i], b[i + 1..], rows);
    KeyBagCat(b[..i] + [x], b[i + 1..], rows);
    assert (b[..i] + [x])[..i] == b[..i];
  }

  lemma PermutedWithin(a: seq<nat>, b: seq<nat>, rows: seq<Row>)
    requires Within(a, rows) && multiset(a) == multiset(b)
    ensures Within(b, rows)
  {
    forall i | 0 <= i < |b| ensures b[i] < |rows| {
      assert b[i] in multiset(b);
      assert b[i] in multiset(a);
    }
  }

  lemma PermutedRest<T>(a: seq<T>, b: seq<T>) returns (i: nat)
    requires a != [] && multiset(a) == multiset(b)
    ensures i < |b| && b[i] == a[|a| - 1]
    ensures multiset(a[..|a| - 1]) == multiset(b[..i] + b[i + 1..])
  {
    var x := a[|a| - 1];
    assert x in multiset(b);
    i :| 0 <= i < |b| && b[i] == x;
    assert a == a[..|a| - 1] + [x];
    assert b == b[..i] + [x] + b[i + 1..];
    assert multiset(a) == multiset(a[..|a| - 1]) + multiset{x};
    assert multiset(b) == multiset(b[..i] + b[i + 1..]) + multiset{x};
    assert multiset(a[..|a| - 1]) == multiset(a) - multiset{x};
    assert multiset(b[..i] + b[i + 1..]) == multiset(b) - multiset{x};
  }

  lemma {:induction false} KeyBagPermutes(a: seq<nat>, b: seq<nat>, rows: seq<Row>)
    requires Within(a, rows) && multiset(a) == multiset(b)
    ensures Within(b, rows) && KeyBag(a, rows) == KeyBag(b, rows)
    decreases |a|
  {
    PermutedWithin(a, b, rows);
    if a == [] {
      assert |multiset(b)| == 0;
    } else {
      var i := PermutedRest(a, b);
      KeyBagExtract(b, i, rows);
      KeyBagPermutes(a[..|a| - 1], b[..i] + b[i + 1..], rows);
    }
  }

  lemma DistinctCat(a: seq<nat>, b: seq<nat>)
    requires Distinct(a) && Distinct(b) && forall i, j :: 0 <= i < |a| && 0 <= j < |b| ==> a[i] != b[j]
    ensures Distinct(a + b)
  {
  }

  lemma {:induction false} DistinctBag(ids: seq<nat>, x: nat)
    requires Distinct(ids)
    ensures multiset(ids)[x] == if x in ids then 1 else 0
  {
    if ids != [] {
      DistinctBag(ids[..|ids| - 1], x);
      assert ids == ids[..|ids| - 1] + [ids[|ids| - 1]];
    }
  }

  /** The entries of `ids` outside `taken`, in order. */
  function Remaining(ids: seq<nat>, taken: set<nat>): (r: seq<nat>)
    ensures forall i :: 0 <= i < |r| ==> r[i] in ids && r[i] !in taken
  {
    if ids == [] then []
    else
      var x := ids[|ids| - 1];
      Remaining(ids[..|ids| - 1], taken) + if x in taken then [] else [x]
  }

  lemma {:induction false} RemainingBag(ids: seq<nat>, taken: set<nat>, x: nat)
    ensures multiset(Remaining(ids, taken))[x] == if x in taken then 0 else multiset(ids)[x]
  {
    NothingRemains(taken);
    hide Remaining;
    if ids != [] {
      RemainingUnfolds(ids, taken);
      var n := |ids| - 1;
      RemainingBag(ids[..n], taken, x);
      CountSnoc(ids[..n], ids[n], x);
      CountSnoc(Remaining(ids[..n], taken), ids[n], x);
      assert ids == ids[..n] + [ids[n]];
    }
  }

  lemma NothingRemains(taken: set<nat>)
    ensures Remaining([], taken) == []
  {
  }

  lemma RemainingUnfolds(ids: seq<nat>, taken: set<nat>)
    requires ids != []
    ensures var n := |ids| - 1;
            Remaining(ids, taken) == if ids[n] in taken then Remaining(ids[..n], taken) else Remaining(ids[..n], taken) + [ids[n]]
  {
    assert Remaining(ids[..|ids| - 1], taken) + [] == Remaining(ids[..|ids| - 1], taken);
  }

  lemma CountSnoc(ids: seq<nat>, id: nat, x: nat)
    ensures multiset(ids + [id])[x] == multiset(ids)[x] + if id == x then 1 else 0
  {
  }

  /** Taking distinct entries away splits the list, and its keys, in two. */
  lemma RemainingSplits(ids: seq<nat>, taken: seq<nat>, rows: seq<Row>)
    requires Within(ids, rows) && Distinct(ids) && Distinct(taken) && forall i :: 0 <= i < |taken| ==> taken[i] in ids
    ensures var rest := Remaining(ids, (set x | x in taken));
            && Within(rest, rows) && Within(taken, rows)
            && multiset(rest) + multiset(taken) == multiset(ids)
            && KeyBag(rest, rows) + KeyBag(taken, rows) == KeyBag(ids, rows)
  {
    var rest := Remaining(ids, (set x | x in taken));
    forall x ensures (multiset(rest) + multiset(taken))[x] == multiset(ids)[x] {
      RemainingBag(ids, (set y | y in taken), x);
      DistinctBag(taken, x);
      DistinctBag(ids, x);
    }
    assert multiset(ids) == multiset(rest + taken);
    KeyBagPermutes(ids, rest + taken, rows);
    forall i | 0 <= i < |taken| ensures taken[i] < |rows| {
      assert (rest + taken)[|rest| + i] < |rows|;
    }
    KeyBagCat(rest, taken, rows);
  }

  // ----- groups --------------------------------------------------------------------------------------

  /** The listed rows with content `k`, in order. */
  function WithKey(ids: seq<nat>, rows: seq<Row>, k: Key): (r: seq<nat>)
    requires Within(ids, rows)
    ensures forall i :: 0 <= i < |r| ==> r[i] in ids && r[i] < |rows| && KeyOf(rows[r[i]]) == k
  {
    if ids == [] then []
    else
      var x := ids[|ids| - 1];
      WithKey(ids[..|ids| - 1], rows, k) + if KeyOf(rows[x]) == k then [x] else []
  }

  lemma WithKeySnoc(ids: seq<nat>, i: nat, rows: seq<Row>, k: Key)
    requires Within(ids, rows) && i < |ids|
    ensures WithKey(ids[..i + 1], rows, k)
            == WithKey(ids[..i], rows, k) + if KeyOf(rows[ids[i]]) == k then [ids[i]] else []
  {
    assert ids[..i + 1][..i] == ids[..i];
  }

  lemma {:induction false} WithKeyCounts(ids: seq<nat>, rows: seq<Row>, k: Key)
    requires Within(ids, rows)
    ensures KeyBag(ids, rows)[k] == |WithKey(ids, rows, k)|
  {
    if ids != [] {
      WithKeyCounts(ids[..|ids| - 1], rows, k);
    }
  }

  lemma {:induction false} WithKeyDistinct(ids: seq<nat>, rows: seq<Row>, k: Key)
    requires Within(ids, rows) && Distinct(ids)
    ensures Distinct(WithKey(ids, rows, k))
  {
    if ids != [] {
      var n := |ids| - 1;
      WithKeyDistinct(ids[..n], rows, k);
      assert ids[n] !in ids[..n];
      assert ids[n] !in WithKey(ids[..n], rows, k);
    }
  }

  lemma {:induction false} UniformBag(ids: seq<nat>, rows: seq<Row>, k: Key)
    requires Within(ids, rows) && forall i :: 0 <= i < |ids| ==> KeyOf(rows[ids[i]]) == k
    ensures KeyBag(ids, rows) == multiset{}[k := |ids|]
  {
    if ids != [] {
      UniformBag(ids[..|ids| - 1], rows, k);
    }
  }

  // ----- pairings ------------------------------------------------------------------------------------

  /** A pairing of rows of equal content: `p[i]` with `r[i]`, no row used twice. */
  ghost predicate ExactPairing(p: seq<nat>, r: seq<nat>, ps: seq<nat>, rs: seq<nat>, pyRows: seq<Row>, rsRows: seq<Row>)
    requires Within(ps, pyRows) && Within(rs, rsRows)
  {
    && |p| == |r| && Distinct(p) && Distinct(r)
    && (forall i :: 0 <= i < |p| ==> p[i] in ps && r[i] in rs)
    && (forall i :: 0 <= i < |p| ==> p[i] < |pyRows| && r[i] < |rsRows| && KeyOf(pyRows[p[i]]) == KeyOf(rsRows[r[i]]))
  }

  lemma {:induction false} SameKeysSameBag(p: seq<nat>, r: seq<nat>, pyRows: seq<Row>, rsRows: seq<Row>)
    requires Within(p, pyRows) && Within(r, rsRows) && |p| == |r|
    requires forall i :: 0 <= i < |p| ==> KeyOf(pyRows[p[i]]) == KeyOf(rsRows[r[i]])
    ensures KeyBag(p, pyRows) == KeyBag(r, rsRows)
  {
    if p != [] {
      SameKeysSameBag(p[..|p| - 1], r[..|p| - 1], pyRows, rsRows);
    }
  }

  /** No pairing by content pairs more rows than the two bags share. */
  lemma PairingIsBounded(p: seq<nat>, r: seq<nat>, ps: seq<nat>, rs: seq<nat>, pyRows: seq<Row>, rsRows: seq<Row>)
    requires Within(ps, pyRows) && Within(rs, rsRows) && Distinct(ps) && Distinct(rs)
    requires ExactPairing(p, r, ps, rs, pyRows, rsRows)
    ensures |p| <= |KeyBag(ps, pyRows) * KeyBag(rs, rsRows)|
  {
    RemainingSplits(ps, p, pyRows);
    RemainingSplits(rs, r, rsRows);
    SameKeysSameBag(p, r, pyRows, rsRows);
    BagSize(p, pyRows);
    hide KeyBag, Remaining, ExactPairing, Within, Distinct;
    Intersected(KeyBag(p, pyRows), KeyBag(Remaining(ps, set x | x in p), pyRows), KeyBag(ps, pyRows),
                KeyBag(Remaining(rs, set x | x in r), rsRows), KeyBag(rs, rsRows));
  }

  lemma {:induction false} BagSize(ids: seq<nat>, rows: seq<Row>)
    requires Within(ids, rows)
    ensures |KeyBag(ids, rows)| == |ids|
  {
    if ids != [] { BagSize(ids[..|ids| - 1], rows); }
  }

  lemma Intersected(b: multiset<Key>, x: multiset<Key>, left: multiset<Key>, y: multiset<Key>, right: multiset<Key>)
    requires x + b == left && y + b == right
    ensures |b| <= |left * right|
  {
    var cap := left * right;
    assert b <= cap;
    assert cap == b + (cap - b);
  }
}
