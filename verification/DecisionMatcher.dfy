/** Two-pass matching of decisions per channel and cycle window, tools/diff-harness/diff_fee_decisions.py. */
module DecisionMatcher {
  import opened KeyBags
  import opened Numbers

  /** Rows are named by their position in their side's list, which stands for object identity. */
  datatype Finding =
    | Compared(py: nat, rs: nat, matches: bool)
    | RustMissed(py: nat)
    | RustInvented(rs: nat)

  /** compare_pair: no differing field. The tolerance is for the two fees only. */
  predicate PairMatches(p: Row, r: Row, tolerance: int) {
    && Abs(p.oldFee - r.oldFee) <= tolerance
    && Abs(p.newFee - r.newFee) <= tolerance
    && p.reason == r.reason
  }

  predicate IsMismatch(f: Finding) { f.Compared? ==> !f.matches }

  ghost predicate AllMatch(fs: seq<Finding>) {
    forall i :: 0 <= i < |fs| ==> !IsMismatch(fs[i])
  }

  function PyIds(fs: seq<Finding>): seq<nat> {
    if fs == [] then []
    else
      var f := fs[|fs| - 1];
      PyIds(fs[..|fs| - 1]) + if f.RustInvented? then [] else [f.py]
  }

  function RsIds(fs: seq<Finding>): seq<nat> {
    if fs == [] then []
    else
      var f := fs[|fs| - 1];
      RsIds(fs[..|fs| - 1]) + if f.RustMissed? then [] else [f.rs]
  }

  lemma {:induction false} IdsCat(a: seq<Finding>, b: seq<Finding>)
    ensures PyIds(a + b) == PyIds(a) + PyIds(b) && RsIds(a + b) == RsIds(a) + RsIds(b)
  {
    if b == [] {
      assert a + b == a;
    } else {
      assert (a + b)[..|a + b| - 1] == a + b[..|b| - 1];
      IdsCat(a, b[..|b| - 1]);
    }
  }

  /** zip(p, r), compared. */
  function Zipped(p: seq<nat>, r: seq<nat>, pyRows: seq<Row>, rsRows: seq<Row>, tolerance: int): (fs: seq<Finding>)
    requires |p| == |r| && Within(p, pyRows) && Within(r, rsRows)
    ensures |fs| == |p|
  {
    seq(|p|, i requires 0 <= i < |p| => Compared(p[i], r[i], PairMatches(pyRows[p[i]], rsRows[r[i]], tolerance)))
  }

  function Missed(p: seq<nat>): seq<Finding> { seq(|p|, i requires 0 <= i < |p| => RustMissed(p[i])) }

  function Invented(r: seq<nat>): seq<Finding> { seq(|r|, i requires 0 <= i < |r| => RustInvented(r[i])) }

  lemma {:induction false} IdsOfZipped(fs: seq<Finding>, p: seq<nat>, r: seq<nat>)
    requires |fs| == |p| == |r|
    requires forall i :: 0 <= i < |fs| ==> fs[i].Compared? && fs[i].py == p[i] && fs[i].rs == r[i]
    ensures PyIds(fs) == p && RsIds(fs) == r
  {
    if fs != [] {
      var n := |fs| - 1;
      IdsOfZipped(fs[..n], p[..n], r[..n]);
      assert p == p[..n] + [p[n]] && r == r[..n] + [r[n]];
    }
  }

  lemma IdsOfPairs(p: seq<nat>, r: seq<nat>, pyRows: seq<Row>, rsRows: seq<Row>, tolerance: int)
    requires |p| == |r| && Within(p, pyRows) && Within(r, rsRows)
    ensures var fs := Zipped(p, r, pyRows, rsRows, tolerance); PyIds(fs) == p && RsIds(fs) == r
  {
    IdsOfZipped(Zipped(p, r, pyRows, rsRows, tolerance), p, r);
  }

  lemma {:induction false} IdsOfMissed(p: seq<nat>)
    ensures PyIds(Missed(p)) == p && RsIds(Missed(p)) == []
  {
    if p != [] {
      var n := |p| - 1;
      IdsOfMissed(p[..n]);
      assert Missed(p)[..n] == Missed(p[..n]);
    }
  }

  lemma {:induction false} IdsOfInvented(r: seq<nat>)
    ensures PyIds(Invented(r)) == [] && RsIds(Invented(r)) == r
  {
    if r != [] {
      var n := |r| - 1;
      IdsOfInvented(r[..n]);
      assert Invented(r)[..n] == Invented(r[..n]);
    }
  }

  // ----- pass 1 ---------------------------------------------------------------------------------------

  /** The contents in the order of their first row. */
  function KeysInOrder(ids: seq<nat>, rows: seq<Row>): seq<Key>
    requires Within(ids, rows)
  {
    if ids == [] then []
    else
      var earlier, k := KeysInOrder(ids[..|ids| - 1], rows), KeyOf(rows[ids[|ids| - 1]]);
      if k in earlier then earlier else earlier + [k]
  }

  /** A dict from content to rows; `order` is its insertion order. */
  method GroupByKey(ids: seq<nat>, rows: seq<Row>) returns (order: seq<Key>, groups: map<Key, seq<nat>>)
    requires Within(ids, rows)
    ensures order == KeysInOrder(ids, rows)
    ensures forall i, j :: 0 <= i < j < |order| ==> order[i] != order[j]
    ensures forall k :: k in order <==> WithKey(ids, rows, k) != []
    ensures forall k :: k in groups <==> k in order
    ensures forall k :: k in groups ==> groups[k] == WithKey(ids, rows, k)
  {
    hide WithKey, KeyOf, KeysInOrder, Grouped;
    order, groups := [], map[];
    EmptyGroups(rows);
    assert ids[..0] == [];
    for i := 0 to |ids|
      invariant Within(ids[..i], rows) && Grouped(ids[..i], rows, order, groups)
    {
      var k := KeyOf(rows[ids[i]]);
      GroupStep(ids, i, rows, order, groups);
      if k in groups {
        groups := groups[k := groups[k] + [ids[i]]];
      } else {
        order := order + [k];
        groups := groups[k := [ids[i]]];
      }
    }
    assert ids[..|ids|] == ids;
    GroupedMeans(ids, rows, order, groups);
  }

  predicate NoKeyTwice(order: seq<Key>) { forall i, j :: 0 <= i < j < |order| ==> order[i] != order[j] }

  /** The dict holds under `k` exactly the rows of that content, and `k` is a key when there are any. */
  predicate GroupIs(ids: seq<nat>, rows: seq<Row>, order: seq<Key>, groups: map<Key, seq<nat>>, k: Key)
    requires Within(ids, rows)
  {
    && (k in order <==> WithKey(ids, rows, k) != [])
    && (k in groups <==> k in order)
    && (k in groups ==> groups[k] == WithKey(ids, rows, k))
  }

  /** The dict and its keys after the rows `ids`. */
  ghost predicate Grouped(ids: seq<nat>, rows: seq<Row>, order: seq<Key>, groups: map<Key, seq<nat>>)
    requires Within(ids, rows)
  {
    order == KeysInOrder(ids, rows) && NoKeyTwice(order) && forall k :: GroupIs(ids, rows, order, groups, k)
  }

  lemma GroupedMeans(ids: seq<nat>, rows: seq<Row>, order: seq<Key>, groups: map<Key, seq<nat>>)
    requires Within(ids, rows) && Grouped(ids, rows, order, groups)
    ensures order == KeysInOrder(ids, rows)
    ensures forall i, j :: 0 <= i < j < |order| ==> order[i] != order[j]
    ensures forall k :: k in order <==> WithKey(ids, rows, k) != []
    ensures forall k :: k in groups <==> k in order
    ensures forall k :: k in groups ==> groups[k] == WithKey(ids, rows, k)
  {
    hide WithKey, KeysInOrder;
    forall k ensures (k in order <==> WithKey(ids, rows, k) != []) && (k in groups <==> k in order)
      && (k in groups ==> groups[k] == WithKey(ids, rows, k))
    {
      assert GroupIs(ids, rows, order, groups, k);
    }
  }

  lemma GroupStep(ids: seq<nat>, i: nat, rows: seq<Row>, order: seq<Key>, groups: map<Key, seq<nat>>)
    requires i < |ids| && Within(ids, rows) && Grouped(ids[..i], rows, order, groups)
    ensures var k := KeyOf(rows[ids[i]]);
            if k in groups then Grouped(ids[..i + 1], rows, order, groups[k := groups[k] + [ids[i]]])
            else Grouped(ids[..i + 1], rows, order + [k], groups[k := [ids[i]]])
  {
    hide WithKey, KeyOf, KeysInOrder, Grouped;
    var k := KeyOf(rows[ids[i]]);
    if k in groups {
      GroupStepTo(ids, i, rows, order, groups, order, groups[k := groups[k] + [ids[i]]]);
    } else {
      assert [] + [ids[i]] == [ids[i]];
      GroupStepTo(ids, i, rows, order, groups, order + [k], groups[k := [ids[i]]]);
    }
  }

  lemma GroupStepTo(ids: seq<nat>, i: nat, rows: seq<Row>, order: seq<Key>, groups: map<Key, seq<nat>>,
                    order': seq<Key>, groups': map<Key, seq<nat>>)
    requires i < |ids| && Within(ids, rows) && Grouped(ids[..i], rows, order, groups)
    requires var k := KeyOf(rows[ids[i]]);
             && order' == (if k in groups then order else order + [k])
             && groups' == groups[k := (if k in groups then groups[k] else []) + [ids[i]]]
    ensures Grouped(ids[..i + 1], rows, order', groups')
  {
    hide WithKey, KeyOf, KeysInOrder, GroupIs;
    KeysSnoc(ids, i, rows);
    KeyIsIn(ids[..i], rows, order, groups, KeyOf(rows[ids[i]]));
    var taken := ids[..i + 1];
    forall o ensures GroupIs(taken, rows, order', groups', o) {
      assert GroupIs(ids[..i], rows, order, groups, o);
      OneGroupStep(ids, i, rows, order, groups, o);
    }
  }

  lemma KeyIsIn(ids: seq<nat>, rows: seq<Row>, order: seq<Key>, groups: map<Key, seq<nat>>, k: Key)
    requires Within(ids, rows) && Grouped(ids, rows, order, groups)
    ensures k in groups <==> k in order
  {
    assert GroupIs(ids, rows, order, groups, k);
  }

  lemma OneGroupStep(ids: seq<nat>, i: nat, rows: seq<Row>, order: seq<Key>, groups: map<Key, seq<nat>>, o: Key)
    requires i < |ids| && Within(ids, rows) && GroupIs(ids[..i], rows, order, groups, o)
    ensures var k := KeyOf(rows[ids[i]]);
            GroupIs(ids[..i + 1], rows, if k in groups then order else order + [k],
                    groups[k := (if k in groups then groups[k] else []) + [ids[i]]], o)
  {
    hide WithKey, KeyOf;
    WithKeySnoc(ids, i, rows, o);
  }

  lemma KeysSnoc(ids: seq<nat>, i: nat, rows: seq<Row>)
    requires i < |ids| && Within(ids, rows)
    ensures var earlier, k := KeysInOrder(ids[..i], rows), KeyOf(rows[ids[i]]);
            KeysInOrder(ids[..i + 1], rows) == if k in earlier then earlier else earlier + [k]
  {
    hide KeyOf;
    assert ids[..i + 1][..i] == ids[..i];
  }

  lemma EmptyGroups(rows: seq<Row>)
    ensures Grouped([], rows, [], map[])
  {
  }

  /** One side of a pairing, extended by the first `n` rows of content `k`. */
  lemma SideExtends(p: seq<nat>, ps: seq<nat>, rows: seq<Row>, k: Key, n: nat)
    requires Within(ps, rows) && Distinct(ps) && Distinct(p) && Within(p, rows)
    requires forall i :: 0 <= i < |p| ==> KeyOf(rows[p[i]]) != k
    requires n <= |WithKey(ps, rows, k)|
    ensures var p' := p + WithKey(ps, rows, k)[..n];
            Within(p', rows) && Distinct(p') && KeyBag(p', rows) == KeyBag(p, rows) + multiset{}[k := n]
  {
    hide KeyBag, KeyOf;
    var g := WithKey(ps, rows, k)[..n];
    WithKeyDistinct(ps, rows, k);
    DistinctCat(p, g);
    KeyBagCat(p, g, rows);
    UniformBag(g, rows, k);
  }

  lemma PairingExtends(p: seq<nat>, r: seq<nat>, ps: seq<nat>, rs: seq<nat>, pyRows: seq<Row>, rsRows: seq<Row>,
                       k: Key, n: nat)
    requires Within(ps, pyRows) && Within(rs, rsRows) && Distinct(ps) && Distinct(rs)
    requires ExactPairing(p, r, ps, rs, pyRows, rsRows)
    requires forall i :: 0 <= i < |p| ==> KeyOf(pyRows[p[i]]) != k
    requires n <= |WithKey(ps, pyRows, k)| && n <= |WithKey(rs, rsRows, k)|
    ensures var p' := p + WithKey(ps, pyRows, k)[..n];
            var r' := r + WithKey(rs, rsRows, k)[..n];
            ExactPairing(p', r', ps, rs, pyRows, rsRows)
  {
    hide KeyBag, KeyOf;
    SideExtends(p, ps, pyRows, k, n);
    SideExtends(r, rs, rsRows, k, n);
  }

  /** Greedy matching by content: for every key the first min(count) rows of both sides. */
  method PassOne(ps: seq<nat>, rs: seq<nat>, pyRows: seq<Row>, rsRows: seq<Row>) returns (p: seq<nat>, r: seq<nat>)
    requires Within(ps, pyRows) && Within(rs, rsRows) && Distinct(ps) && Distinct(rs)
    ensures ExactPairing(p, r, ps, rs, pyRows, rsRows)
    ensures Within(p, pyRows) && KeyBag(p, pyRows) == KeyBag(ps, pyRows) * KeyBag(rs, rsRows)
  {
    hide KeyBag, KeyOf, WithKey, ExactPairing, KeysInOrder, Distinct;
    var order, pyGroups := GroupByKey(ps, pyRows);
    var _, rsGroups := GroupByKey(rs, rsRows);
    p, r := [], [];
    EmptyPairing(ps, rs, pyRows, rsRows);
    for i := 0 to |order|
      invariant ExactPairing(p, r, ps, rs, pyRows, rsRows) && Within(p, pyRows)
      invariant forall k :: KeyBag(p, pyRows)[k] == if k in order[..i] then Shared(ps, rs, pyRows, rsRows, k) else 0
    {
      var k := order[i];
      assert k !in order[..i];
      assert order[..i + 1] == order[..i] + [k];
      var n := 0;
      if k in rsGroups { n := Min(|pyGroups[k]|, |rsGroups[k]|); }
      NoSuchKey(p, pyRows, k);
      PairingParts(p, r, ps, rs, pyRows, rsRows);
      PairingExtends(p, r, ps, rs, pyRows, rsRows, k, n);
      SideExtends(p, ps, pyRows, k, n);
      assert n == 0 ==> r + WithKey(rs, rsRows, k)[..n] == r;
      p := p + pyGroups[k][..n];
      if k in rsGroups { r := r + rsGroups[k][..n]; }
    }
    assert order[..|order|] == order;
    forall k ensures KeyBag(p, pyRows)[k] == (KeyBag(ps, pyRows) * KeyBag(rs, rsRows))[k] {
      WithKeyCounts(ps, pyRows, k);
      WithKeyCounts(rs, rsRows, k);
    }
  }

  function Shared(ps: seq<nat>, rs: seq<nat>, pyRows: seq<Row>, rsRows: seq<Row>, k: Key): nat
    requires Within(ps, pyRows) && Within(rs, rsRows)
  {
    Min(|WithKey(ps, pyRows, k)|, |WithKey(rs, rsRows, k)|)
  }

  lemma EmptyPairing(ps: seq<nat>, rs: seq<nat>, pyRows: seq<Row>, rsRows: seq<Row>)
    requires Within(ps, pyRows) && Within(rs, rsRows)
    ensures ExactPairing([], [], ps, rs, pyRows, rsRows) && KeyBag([], pyRows) == multiset{}
  {
  }

  lemma PairingParts(p: seq<nat>, r: seq<nat>, ps: seq<nat>, rs: seq<nat>, pyRows: seq<Row>, rsRows: seq<Row>)
    requires Within(ps, pyRows) && Within(rs, rsRows) && ExactPairing(p, r, ps, rs, pyRows, rsRows)
    ensures Distinct(p) && Distinct(r) && Within(p, pyRows) && Within(r, rsRows) && |p| == |r|
  {
  }

  lemma {:induction false} NoSuchKey(ids: seq<nat>, rows: seq<Row>, k: Key)
    requires Within(ids, rows) && KeyBag(ids, rows)[k] == 0
    ensures forall i :: 0 <= i < |ids| ==> KeyOf(rows[ids[i]]) != k
  {
    if ids != [] {
      NoSuchKey(ids[..|ids| - 1], rows, k);
      forall i | 0 <= i < |ids| ensures KeyOf(rows[ids[i]]) != k {
        if i < |ids| - 1 { assert ids[..|ids| - 1][i] == ids[i]; }
      }
    }
  }

  /** Pass 1 pairs as many rows of equal content as any pairing could. */
  lemma PassOneIsMaximal(p: seq<nat>, q: seq<nat>, r: seq<nat>, ps: seq<nat>, rs: seq<nat>,
                         pyRows: seq<Row>, rsRows: seq<Row>)
    requires Within(ps, pyRows) && Within(rs, rsRows) && Distinct(ps) && Distinct(rs)
    requires Within(p, pyRows) && KeyBag(p, pyRows) == KeyBag(ps, pyRows) * KeyBag(rs, rsRows)
    requires ExactPairing(q, r, ps, rs, pyRows, rsRows)
    ensures |q| <= |p|
  {
    PairingIsBounded(q, r, ps, rs, pyRows, rsRows);
  }

  // ----- one cluster -----------------------------------------------------------------------------------

  /** What one cluster's findings promise about its two lists. */
  ghost predicate Judged(fs: seq<Finding>, ps: seq<nat>, rs: seq<nat>, pyRows: seq<Row>, rsRows: seq<Row>, tolerance: int)
    requires Within(ps, pyRows) && Within(rs, rsRows)
  {
    && multiset(PyIds(fs)) == multiset(ps)
    && multiset(RsIds(fs)) == multiset(rs)
    && (tolerance >= 0 && KeyBag(ps, pyRows) == KeyBag(rs, rsRows) ==> AllMatch(fs))
    && (tolerance == 0 && AllMatch(fs) ==> KeyBag(ps, pyRows) == KeyBag(rs, rsRows))
  }

  /** Findings of a cluster from the two passes. */
  function Findings(p: seq<nat>, r: seq<nat>, pr: seq<nat>, rr: seq<nat>, pyRows: seq<Row>, rsRows: seq<Row>,
                    tolerance: int): seq<Finding>
    requires |p| == |r| && Within(p, pyRows) && Within(r, rsRows) && Within(pr, pyRows) && Within(rr, rsRows)
  {
    var n := Min(|pr|, |rr|);
    Zipped(p, r, pyRows, rsRows, tolerance) + Zipped(pr[..n], rr[..n], pyRows, rsRows, tolerance)
    + Missed(pr[n..]) + Invented(rr[n..])
  }

  lemma FindingsIds(p: seq<nat>, r: seq<nat>, pr: seq<nat>, rr: seq<nat>, pyRows: seq<Row>, rsRows: seq<Row>, tolerance: int)
    requires |p| == |r| && Within(p, pyRows) && Within(r, rsRows) && Within(pr, pyRows) && Within(rr, rsRows)
    ensures var fs := Findings(p, r, pr, rr, pyRows, rsRows, tolerance);
            PyIds(fs) == p + pr && RsIds(fs) == r + rr
  {
    hide Zipped, Missed, Invented, PyIds, RsIds;
    var n := Min(|pr|, |rr|);
    var a, b := Zipped(p, r, pyRows, rsRows, tolerance), Zipped(pr[..n], rr[..n], pyRows, rsRows, tolerance);
    var c, d := Missed(pr[n..]), Invented(rr[n..]);
    IdsOfPairs(p, r, pyRows, rsRows, tolerance);
    IdsOfPairs(pr[..n], rr[..n], pyRows, rsRows, tolerance);
    IdsOfMissed(pr[n..]);
    IdsOfInvented(rr[n..]);
    IdsCat(a, b);
    IdsCat(a + b, c);
    IdsCat(a + b + c, d);
    assert p + pr[..n] + pr[n..] + [] == p + pr;
    assert r + rr[..n] + [] + rr[n..] == r + rr;
  }

  lemma EqualKeysMatch(p: Row, r: Row, tolerance: int)
    ensures tolerance >= 0 && KeyOf(p) == KeyOf(r) ==> PairMatches(p, r, tolerance)
    ensures tolerance == 0 ==> (PairMatches(p, r, tolerance) <==> KeyOf(p) == KeyOf(r))
  {
  }

  /** With nothing left over, every finding is an exact pair. */
  lemma NothingLeftMatches(p: seq<nat>, r: seq<nat>, pyRows: seq<Row>, rsRows: seq<Row>, tolerance: int)
    requires |p| == |r| && Within(p, pyRows) && Within(r, rsRows) && tolerance >= 0
    requires forall i :: 0 <= i < |p| ==> KeyOf(pyRows[p[i]]) == KeyOf(rsRows[r[i]])
    ensures AllMatch(Findings(p, r, [], [], pyRows, rsRows, tolerance))
  {
    forall i | 0 <= i < |p| ensures PairMatches(pyRows[p[i]], rsRows[r[i]], tolerance) {
      EqualKeysMatch(pyRows[p[i]], rsRows[r[i]], tolerance);
    }
  }

  /** Leftovers of disjoint content always show a mismatch at tolerance 0. */
  lemma LeftoverShows(p: seq<nat>, r: seq<nat>, pr: seq<nat>, rr: seq<nat>, pyRows: seq<Row>, rsRows: seq<Row>)
    requires |p| == |r| && Within(p, pyRows) && Within(r, rsRows) && Within(pr, pyRows) && Within(rr, rsRows)
    requires pr != [] || rr != []
    requires pr != [] && rr != [] ==> KeyOf(pyRows[pr[0]]) != KeyOf(rsRows[rr[0]])
    ensures !AllMatch(Findings(p, r, pr, rr, pyRows, rsRows, 0))
  {
    var fs := Findings(p, r, pr, rr, pyRows, rsRows, 0);
    var f := fs[|p|];
    if pr != [] && rr != [] {
      assert f == Compared(pr[0], rr[0], PairMatches(pyRows[pr[0]], rsRows[rr[0]], 0));
      EqualKeysMatch(pyRows[pr[0]], rsRows[rr[0]], 0);
    } else if pr != [] {
      assert f == RustMissed(pr[0]);
    } else {
      assert f == RustInvented(rr[0]);
    }
    assert IsMismatch(f);
  }

  lemma {:induction false} KeyInBag(ids: seq<nat>, rows: seq<Row>, i: nat)
    requires Within(ids, rows) && i < |ids|
    ensures KeyBag(ids, rows)[KeyOf(rows[ids[i]])] > 0
  {
    var n := |ids| - 1;
    if i < n { KeyInBag(ids[..n], rows, i); }
  }

  lemma ClusterIsJudged(p: seq<nat>, r: seq<nat>, ps: seq<nat>, rs: seq<nat>, pyRows: seq<Row>, rsRows: seq<Row>, tolerance: int)
    requires Within(ps, pyRows) && Within(rs, rsRows) && Distinct(ps) && Distinct(rs)
    requires ExactPairing(p, r, ps, rs, pyRows, rsRows)
    requires Within(p, pyRows) && KeyBag(p, pyRows) == KeyBag(ps, pyRows) * KeyBag(rs, rsRows)
    ensures var pr, rr := Remaining(ps, set x | x in p), Remaining(rs, set x | x in r);
            && Within(pr, pyRows) && Within(rr, rsRows) && Within(r, rsRows)
            && Judged(Findings(p, r, pr, rr, pyRows, rsRows, tolerance), ps, rs, pyRows, rsRows, tolerance)
  {
    hide KeyBag, KeyOf, Findings, AllMatch, Remaining, PyIds, RsIds, Distinct;
    var pr, rr := Remaining(ps, set x | x in p), Remaining(rs, set x | x in r);
    RemainingSplits(ps, p, pyRows);
    RemainingSplits(rs, r, rsRows);
    SameKeysSameBag(p, r, pyRows, rsRows);
    FindingsIds(p, r, pr, rr, pyRows, rsRows, tolerance);
    assert multiset(p + pr) == multiset(pr) + multiset(p) && multiset(r + rr) == multiset(rr) + multiset(r);
    if KeyBag(ps, pyRows) == KeyBag(rs, rsRows) {
      EqualBagsLeaveNothing(pr, rr, p, r, ps, rs, pyRows, rsRows);
      if tolerance >= 0 { NothingLeftMatches(p, r, pyRows, rsRows, tolerance); }
    } else {
      LeftoversAreDisjoint(pr, rr, p, ps, rs, pyRows, rsRows);
      if tolerance == 0 { LeftoverShows(p, r, pr, rr, pyRows, rsRows); }
    }
  }

  lemma EqualBagsLeaveNothing(pr: seq<nat>, rr: seq<nat>, p: seq<nat>, r: seq<nat>, ps: seq<nat>, rs: seq<nat>,
                              pyRows: seq<Row>, rsRows: seq<Row>)
    requires Within(pr, pyRows) && Within(rr, rsRows) && Within(p, pyRows) && Within(r, rsRows)
    requires Within(ps, pyRows) && Within(rs, rsRows)
    requires var bp, br := KeyBag(ps, pyRows), KeyBag(rs, rsRows);
             && bp == br
             && KeyBag(p, pyRows) == KeyBag(r, rsRows) == bp * br
             && KeyBag(pr, pyRows) + KeyBag(p, pyRows) == bp
             && KeyBag(rr, rsRows) + KeyBag(r, rsRows) == br
    ensures pr == [] && rr == []
  {
    hide KeyBag, KeyOf;
    var b := KeyBag(ps, pyRows);
    assert b * b == b;
    assert KeyBag(pr, pyRows) == b - b == multiset{} && KeyBag(rr, rsRows) == b - b == multiset{};
  }

  lemma LeftoversAreDisjoint(pr: seq<nat>, rr: seq<nat>, p: seq<nat>, ps: seq<nat>, rs: seq<nat>,
                             pyRows: seq<Row>, rsRows: seq<Row>)
    requires Within(pr, pyRows) && Within(rr, rsRows) && Within(p, pyRows) && Within(ps, pyRows) && Within(rs, rsRows)
    requires var bp, br := KeyBag(ps, pyRows), KeyBag(rs, rsRows);
             && bp != br
             && KeyBag(p, pyRows) == bp * br
             && KeyBag(pr, pyRows) + bp * br == bp
             && KeyBag(rr, rsRows) + bp * br == br
    ensures pr != [] || rr != []
    ensures pr != [] && rr != [] ==> KeyOf(pyRows[pr[0]]) != KeyOf(rsRows[rr[0]])
  {
    hide KeyBag, KeyOf;
    var bp, br := KeyBag(ps, pyRows), KeyBag(rs, rsRows);
    assert pr == [] ==> KeyBag(pr, pyRows) == multiset{};
    assert rr == [] ==> KeyBag(rr, rsRows) == multiset{};
    if pr != [] && rr != [] {
      var k := KeyOf(pyRows[pr[0]]);
      KeyInBag(pr, pyRows, 0);
      KeyInBag(rr, rsRows, 0);
      assert bp[k] == KeyBag(pr, pyRows)[k] + (bp * br)[k];
      assert br[k] == KeyBag(rr, rsRows)[k] + (bp * br)[k];
    }
  }

  /** `fs` compares the exact pairs `p`, `r`, then what is left of both sides in time order, then the surplus. */
  ghost predicate TwoPasses(fs: seq<Finding>, p: seq<nat>, r: seq<nat>, ps: seq<nat>, rs: seq<nat>,
                            pyRows: seq<Row>, rsRows: seq<Row>, tolerance: int)
    requires Within(ps, pyRows) && Within(rs, rsRows)
  {
    var pr, rr := Remaining(ps, set x | x in p), Remaining(rs, set x | x in r);
    && ExactPairing(p, r, ps, rs, pyRows, rsRows)
    && Within(p, pyRows) && Within(r, rsRows) && Within(pr, pyRows) && Within(rr, rsRows)
    && KeyBag(p, pyRows) == KeyBag(ps, pyRows) * KeyBag(rs, rsRows)
    && fs == Findings(p, r, pr, rr, pyRows, rsRows, tolerance)
  }

  /** Both passes on one cycle window; `p` and `r` are the pairs of the first. */
  method MatchCluster(ps: seq<nat>, rs: seq<nat>, pyRows: seq<Row>, rsRows: seq<Row>, tolerance: int)
    returns (fs: seq<Finding>, ghost p: seq<nat>, ghost r: seq<nat>)
    requires Within(ps, pyRows) && Within(rs, rsRows) && Distinct(ps) && Distinct(rs)
    ensures Judged(fs, ps, rs, pyRows, rsRows, tolerance)
    ensures TwoPasses(fs, p, r, ps, rs, pyRows, rsRows, tolerance)
  {
    hide KeyBag, KeyOf, Judged;
    var exactPy, exactRs := PassOne(ps, rs, pyRows, rsRows);
    p, r := exactPy, exactRs;
    ClusterIsJudged(p, r, ps, rs, pyRows, rsRows, tolerance);
    fs := Zipped(exactPy, exactRs, pyRows, rsRows, tolerance);
    var pr, rr := Remaining(ps, set x | x in exactPy), Remaining(rs, set x | x in exactRs);
    var n := Min(|pr|, |rr|);
    fs := fs + Zipped(pr[..n], rr[..n], pyRows, rsRows, tolerance);
    fs := fs + Missed(pr[n..]);
    fs := fs + Invented(rr[n..]);
  }

  // ----- a positive tolerance ---------------------------------------------------------------------------------

  /** Row by row, in order, the two lists are within tolerance. */
  ghost predicate PairwiseMatch(p: seq<nat>, r: seq<nat>, pyRows: seq<Row>, rsRows: seq<Row>, tolerance: int)
    requires Within(p, pyRows) && Within(r, rsRows)
  {
    |p| == |r| && forall i :: 0 <= i < |p| ==> PairMatches(pyRows[p[i]], rsRows[r[i]], tolerance)
  }

  /**
    The verdict of one window at any tolerance: clean exactly when what exact matching leaves on the two sides,
    taken in time order, is within tolerance row by row.
  */
  lemma WindowIsCleanIff(fs: seq<Finding>, p: seq<nat>, r: seq<nat>, ps: seq<nat>, rs: seq<nat>,
                         pyRows: seq<Row>, rsRows: seq<Row>, tolerance: int)
    requires tolerance >= 0 && Within(ps, pyRows) && Within(rs, rsRows)
    requires TwoPasses(fs, p, r, ps, rs, pyRows, rsRows, tolerance)
    ensures var pr, rr := Remaining(ps, set x | x in p), Remaining(rs, set x | x in r);
            Within(pr, pyRows) && Within(rr, rsRows)
            && (AllMatch(fs) <==> PairwiseMatch(pr, rr, pyRows, rsRows, tolerance))
  {
    hide KeyBag, Remaining;
    var pr, rr := Remaining(ps, set x | x in p), Remaining(rs, set x | x in r);
    FindingsAreCleanIff(p, r, pr, rr, pyRows, rsRows, tolerance);
  }

  lemma ExactPairsAreClean(p: seq<nat>, r: seq<nat>, pyRows: seq<Row>, rsRows: seq<Row>, tolerance: int)
    requires tolerance >= 0 && |p| == |r| && Within(p, pyRows) && Within(r, rsRows)
    requires forall i :: 0 <= i < |p| ==> KeyOf(pyRows[p[i]]) == KeyOf(rsRows[r[i]])
    ensures AllMatch(Zipped(p, r, pyRows, rsRows, tolerance))
  {
    forall i | 0 <= i < |p| ensures PairMatches(pyRows[p[i]], rsRows[r[i]], tolerance) {
      EqualKeysMatch(pyRows[p[i]], rsRows[r[i]], tolerance);
    }
  }

  lemma AllMatchCat(a: seq<Finding>, b: seq<Finding>)
    ensures AllMatch(a + b) <==> AllMatch(a) && AllMatch(b)
  {
    if AllMatch(a + b) {
      assert forall i :: 0 <= i < |a| ==> a[i] == (a + b)[i];
      assert forall i :: 0 <= i < |b| ==> b[i] == (a + b)[|a| + i];
    }
  }

  lemma ZipIsPairwise(p: seq<nat>, r: seq<nat>, pyRows: seq<Row>, rsRows: seq<Row>, tolerance: int)
    requires |p| == |r| && Within(p, pyRows) && Within(r, rsRows)
    ensures AllMatch(Zipped(p, r, pyRows, rsRows, tolerance)) <==> PairwiseMatch(p, r, pyRows, rsRows, tolerance)
  {
    hide PairMatches;
    var fs := Zipped(p, r, pyRows, rsRows, tolerance);
    assert forall i :: 0 <= i < |p| ==> (!IsMismatch(fs[i]) <==> PairMatches(pyRows[p[i]], rsRows[r[i]], tolerance));
  }

  lemma FindingsAreCleanIff(p: seq<nat>, r: seq<nat>, pr: seq<nat>, rr: seq<nat>, pyRows: seq<Row>, rsRows: seq<Row>,
                            tolerance: int)
    requires tolerance >= 0 && |p| == |r| && Within(p, pyRows) && Within(r, rsRows)
    requires Within(pr, pyRows) && Within(rr, rsRows)
    requires forall i :: 0 <= i < |p| ==> KeyOf(pyRows[p[i]]) == KeyOf(rsRows[r[i]])
    ensures AllMatch(Findings(p, r, pr, rr, pyRows, rsRows, tolerance)) <==> PairwiseMatch(pr, rr, pyRows, rsRows, tolerance)
  {
    hide KeyOf, PairMatches;
    var n := Min(|pr|, |rr|);
    var a, b := Zipped(p, r, pyRows, rsRows, tolerance), Zipped(pr[..n], rr[..n], pyRows, rsRows, tolerance);
    var c, d := Missed(pr[n..]), Invented(rr[n..]);
    ExactPairsAreClean(p, r, pyRows, rsRows, tolerance);
    AllMatchCat(a, b);
    AllMatchCat(a + b, c);
    AllMatchCat(a + b + c, d);
    ZipIsPairwise(pr[..n], rr[..n], pyRows, rsRows, tolerance);
    assert c != [] ==> IsMismatch(c[0]);
    assert d != [] ==> IsMismatch(d[0]);
    if |pr| == |rr| { assert pr[..n] == pr && rr[..n] == rr; }
  }

  const FEES_100_101 := [Row(0, 100, 100, "a"), Row(0, 100, 101, "a")]
  const FEES_101_102 := [Row(0, 100, 101, "a"), Row(0, 100, 102, "a")]

  /**
    The verdict is not the best one could give: with new fees 100, 101 against 101, 102 and tolerance 1 the rows
    pair off within tolerance in order, yet the exact pass takes 101 with 101 and the window has a mismatch.
  */
  lemma ExactPassSpoilsTolerance()
    ensures Within([0, 1], FEES_100_101) && Within([0, 1], FEES_101_102)
    ensures PairwiseMatch([0, 1], [0, 1], FEES_100_101, FEES_101_102, 1)
    ensures exists fs :: TwoPasses(fs, [1], [0], [0, 1], [0, 1], FEES_100_101, FEES_101_102, 1) && !AllMatch(fs)
  {
    var fs := Findings([1], [0], [0], [1], FEES_100_101, FEES_101_102, 1);
    SpoiledPasses(fs);
    hide Findings, TwoPasses;
    FindingsAreCleanIff([1], [0], [0], [1], FEES_100_101, FEES_101_102, 1);
    assert !PairMatches(FEES_100_101[0], FEES_101_102[1], 1);
  }

  lemma SpoiledPasses(fs: seq<Finding>)
    requires fs == Findings([1], [0], [0], [1], FEES_100_101, FEES_101_102, 1)
    ensures TwoPasses(fs, [1], [0], [0, 1], [0, 1], FEES_100_101, FEES_101_102, 1)
  {
    SpoiledBags();
    SpoiledRest();
    SpoiledPairing();
    hide KeyBag, Remaining, Findings, ExactPairing;
  }

  lemma SpoiledPairing()
    ensures ExactPairing([1], [0], [0, 1], [0, 1], FEES_100_101, FEES_101_102)
  {
    assert [0, 1][1] == 1 && [0, 1][0] == 0;
  }

  lemma SpoiledRest()
    ensures Remaining([0, 1], set x | x in [1]) == [0] && Remaining([0, 1], set x | x in [0]) == [1]
  {
    RemainingOfTwo(set x | x in [1]);
    RemainingOfTwo(set x | x in [0]);
    hide Remaining;
    assert [0] + [] == [0] && [] + [1] == [1];
  }

  lemma SpoiledBags()
    ensures KeyBag([1], FEES_100_101) == KeyBag([0, 1], FEES_100_101) * KeyBag([0, 1], FEES_101_102)
  {
    BagOfTwo(FEES_100_101);
    BagOfTwo(FEES_101_102);
    assert [1][..0] == [];
    hide KeyBag;
  }

  lemma BagOfTwo(rows: seq<Row>)
    requires |rows| == 2
    ensures KeyBag([0, 1], rows) == multiset{KeyOf(rows[0]), KeyOf(rows[1])} && KeyBag([1], rows) == multiset{KeyOf(rows[1])}
  {
    hide KeyOf;
    assert [0, 1][..1] == [0] && [0][..0] == [] && [1][..0] == [];
    assert KeyBag([0], rows) == multiset{KeyOf(rows[0])};
  }

  lemma RemainingOfTwo(taken: set<nat>)
    ensures Remaining([0, 1], taken) == (if 0 in taken then [] else [0]) + (if 1 in taken then [] else [1])
  {
    assert [0, 1][..1] == [0] && [0][..0] == [];
    assert Remaining([], taken) == [];
    assert Remaining([0], taken) == if 0 in taken then [] else [0];
  }
}
