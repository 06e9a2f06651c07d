/** match_channel of tools/diff-harness/diff_fee_decisions.py: cluster, bucket, match every window. */
module ChannelMatcher {
  import opened TimeClusters
  import opened KeyBags
  import opened DecisionMatcher

  function PyEvents(rows: seq<Row>): seq<Event> {
    seq(|rows|, i requires 0 <= i < |rows| => Event(rows[i].ts, true, i))
  }

  function RsEvents(rows: seq<Row>): seq<Event> {
    seq(|rows|, i requires 0 <= i < |rows| => Event(rows[i].ts, false, i))
  }

  /** 0, 1, ..., n - 1 */
  function AllIds(n: nat): seq<nat> { seq(n, i requires 0 <= i < n => i) }

  /** The rows of one side in cluster `c`, in time order. */
  function Members(tags: seq<Tagged>, python: bool, c: nat): seq<nat> {
    if tags == [] then []
    else
      var t := tags[|tags| - 1];
      Members(tags[..|tags| - 1], python, c) + if t.e.python == python && t.cluster == c then [t.e.row] else []
  }

  /** The rows of one side in all clusters below `n`, cluster by cluster. */
  function AllMembers(tags: seq<Tagged>, python: bool, n: nat): seq<nat> {
    if n == 0 then [] else AllMembers(tags, python, n - 1) + Members(tags, python, n - 1)
  }

  function SideRows(s: seq<Event>, python: bool): seq<nat> {
    if s == [] then []
    else SideRows(s[..|s| - 1], python) + if s[|s| - 1].python == python then [s[|s| - 1].row] else []
  }

  /** How often a list holds `x`. */
  function Times(s: seq<nat>, x: nat): nat { multiset(s)[x] }

  lemma TimesCat(a: seq<nat>, b: seq<nat>, x: nat)
    ensures Times(a + b, x) == Times(a, x) + Times(b, x)
  {
  }

  /** 1 when `x` is the event's row, the event is on that side and it is `here`. */
  function Here(e: Event, python: bool, here: bool, x: nat): nat {
    if e.python == python && here && e.row == x then 1 else 0
  }

  // ----- each side's rows are exactly its ids ------------------------------------------------------------

  lemma {:induction false} SideRowsCat(a: seq<Event>, b: seq<Event>, python: bool)
    ensures SideRows(a + b, python) == SideRows(a, python) + SideRows(b, python)
  {
    if b == [] {
      assert a + b == a;
    } else {
      assert (a + b)[..|a + b| - 1] == a + b[..|b| - 1];
      SideRowsCat(a, b[..|b| - 1], python);
    }
  }

  lemma {:induction false} SideRowsOfOwn(s: seq<Event>, python: bool, own: bool)
    requires forall i :: 0 <= i < |s| ==> s[i].python == own && s[i].row == i
    ensures SideRows(s, python) == if python == own then AllIds(|s|) else []
  {
    if s != [] {
      SideRowsOfOwn(s[..|s| - 1], python, own);
      assert AllIds(|s|) == AllIds(|s| - 1) + [|s| - 1];
    }
  }

  lemma SideRowsExtract(t: seq<Event>, i: nat, python: bool)
    requires i < |t|
    ensures multiset(SideRows(t, python))
            == multiset(SideRows(t[..i] + t[i + 1..], python)) + (if t[i].python == python then multiset{t[i].row} else multiset{})
  {
    hide SideRows;
    var one := [t[i]];
    assert t == t[..i] + one + t[i + 1..];
    SideRowsCat(t[..i] + one, t[i + 1..], python);
    SideRowsCat(t[..i], one, python);
    SideRowsCat(t[..i], t[i + 1..], python);
    SideRowsSnoc([], t[i], python);
    assert [] + one == one;
  }

  lemma SideRowsSnoc(s: seq<Event>, e: Event, python: bool)
    ensures SideRows([], python) == []
    ensures SideRows(s + [e], python) == SideRows(s, python) + if e.python == python then [e.row] else []
  {
    assert (s + [e])[..|s|] == s;
  }

  lemma {:induction false} SideRowsPermute(s: seq<Event>, t: seq<Event>, python: bool)
    requires multiset(s) == multiset(t)
    ensures multiset(SideRows(s, python)) == multiset(SideRows(t, python))
    decreases |s|
  {
    if s == [] {
      assert |multiset(t)| == 0;
    } else {
      hide SideRows;
      var n := |s| - 1;
      var i := PermutedRest(s, t);
      SideRowsPermute(s[..n], t[..i] + t[i + 1..], python);
      SideRowsExtract(t, i, python);
      SideRowsExtract(s, n, python);
      assert s[..n] + s[n + 1..] == s[..n];
    }
  }

  lemma SideRowsAreAllIds(s: seq<Event>, pyRows: seq<Row>, rsRows: seq<Row>)
    requires multiset(s) == multiset(PyEvents(pyRows) + RsEvents(rsRows))
    ensures multiset(SideRows(s, true)) == multiset(AllIds(|pyRows|))
    ensures multiset(SideRows(s, false)) == multiset(AllIds(|rsRows|))
  {
    var a, b := PyEvents(pyRows), RsEvents(rsRows);
    forall python: bool
      ensures multiset(SideRows(s, python)) == multiset(SideRows(a, python)) + multiset(SideRows(b, python))
    {
      SideRowsPermute(s, a + b, python);
      SideRowsCat(a, b, python);
      assert multiset(SideRows(a, python) + SideRows(b, python))
             == multiset(SideRows(a, python)) + multiset(SideRows(b, python));
    }
    SideRowsOfOwn(a, true, true);
    SideRowsOfOwn(a, false, true);
    SideRowsOfOwn(b, true, false);
    SideRowsOfOwn(b, false, false);
  }

  // ----- clusters partition the rows ---------------------------------------------------------------------------

  function Untagged(tags: seq<Tagged>): seq<Event> {
    seq(|tags|, i requires 0 <= i < |tags| => tags[i].e)
  }

  /** One more tagged event lands in exactly one cluster. */
  lemma {:induction false} AllMembersSnoc(tags: seq<Tagged>, t: Tagged, python: bool, n: nat, x: nat)
    ensures Times(AllMembers(tags + [t], python, n), x)
            == Times(AllMembers(tags, python, n), x) + Here(t.e, python, t.cluster < n, x)
  {
    hide Members, Times;
    if n > 0 {
      AllMembersSnoc(tags, t, python, n - 1, x);
      MembersSnocTimes(tags, t, python, n - 1, x);
      TimesCat(AllMembers(tags, python, n - 1), Members(tags, python, n - 1), x);
      TimesCat(AllMembers(tags + [t], python, n - 1), Members(tags + [t], python, n - 1), x);
    }
  }

  lemma MembersSnocTimes(tags: seq<Tagged>, t: Tagged, python: bool, c: nat, x: nat)
    ensures Times(Members(tags + [t], python, c), x)
            == Times(Members(tags, python, c), x) + Here(t.e, python, t.cluster == c, x)
  {
    hide Members;
    MembersSnoc(tags, t, python, c);
    TimesCat(Members(tags, python, c), [t.e.row], x);
  }

  lemma MembersSnoc(tags: seq<Tagged>, t: Tagged, python: bool, c: nat)
    ensures Members(tags + [t], python, c)
            == Members(tags, python, c) + if t.e.python == python && t.cluster == c then [t.e.row] else []
  {
    assert (tags + [t])[..|tags|] == tags;
  }

  lemma {:induction false} NoTagsNoMembers(python: bool, n: nat)
    ensures AllMembers([], python, n) == []
  {
    if n > 0 { NoTagsNoMembers(python, n - 1); }
  }

  lemma {:induction false} TimesInClusters(tags: seq<Tagged>, python: bool, n: nat, x: nat)
    requires forall i :: 0 <= i < |tags| ==> tags[i].cluster < n
    ensures Times(AllMembers(tags, python, n), x) == Times(SideRows(Untagged(tags), python), x)
  {
    hide AllMembers, SideRows, Times;
    if tags == [] {
      NoTagsNoMembers(python, n);
      SideRowsSnoc([], Event(0, python, 0), python);
    } else {
      var k := |tags| - 1;
      TimesInClusters(tags[..k], python, n, x);
      AllMembersSnoc(tags[..k], tags[k], python, n, x);
      SideRowsTimes(Untagged(tags[..k]), tags[k].e, python, x);
      assert tags == tags[..k] + [tags[k]];
      assert Untagged(tags) == Untagged(tags[..k]) + [tags[k].e];
    }
  }

  lemma SideRowsTimes(s: seq<Event>, e: Event, python: bool, x: nat)
    ensures Times(SideRows(s + [e], python), x) == Times(SideRows(s, python), x) + Here(e, python, true, x)
  {
    hide SideRows;
    SideRowsSnoc(s, e, python);
    TimesCat(SideRows(s, python), [e.row], x);
  }

  lemma AllMembersAreSideRows(tags: seq<Tagged>, python: bool, n: nat)
    requires forall i :: 0 <= i < |tags| ==> tags[i].cluster < n
    ensures multiset(AllMembers(tags, python, n)) == multiset(SideRows(Untagged(tags), python))
  {
    hide AllMembers, SideRows, Untagged, Times;
    forall x: nat ensures Times(AllMembers(tags, python, n), x) == Times(SideRows(Untagged(tags), python), x) {
      TimesInClusters(tags, python, n, x);
    }
    SameTimes(AllMembers(tags, python, n), SideRows(Untagged(tags), python));
  }

  lemma SameTimes(a: seq<nat>, b: seq<nat>)
    requires forall x: nat :: Times(a, x) == Times(b, x)
    ensures multiset(a) == multiset(b)
  {
    forall x: nat ensures multiset(a)[x] == multiset(b)[x] {
      assert Times(a, x) == Times(b, x);
    }
  }

  lemma {:induction false} MembersInAll(tags: seq<Tagged>, python: bool, c: nat, n: nat)
    requires c < n
    ensures multiset(Members(tags, python, c)) <= multiset(AllMembers(tags, python, n))
  {
    hide Members;
    var rest, last := AllMembers(tags, python, n - 1), Members(tags, python, n - 1);
    assert multiset(rest + last) == multiset(rest) + multiset(last);
    if c < n - 1 { MembersInAll(tags, python, c, n - 1); }
  }

  lemma {:induction false} AllIdsBag(n: nat, x: nat)
    ensures multiset(AllIds(n))[x] == if x < n then 1 else 0
  {
    if n > 0 {
      AllIdsBag(n - 1, x);
      assert AllIds(n) == AllIds(n - 1) + [n - 1];
    }
  }

  lemma {:induction false} SingleBagIsDistinct(ids: seq<nat>)
    requires forall x: nat :: multiset(ids)[x] <= 1
    ensures Distinct(ids)
  {
    forall i, j | 0 <= i < j < |ids| ensures ids[i] != ids[j] {
      assert ids == ids[..j] + ids[j..];
      assert ids[..j][i] in multiset(ids[..j]) && ids[j..][0] in multiset(ids[j..]);
      assert multiset(ids)[ids[j]] == multiset(ids[..j])[ids[j]] + multiset(ids[j..])[ids[j]];
    }
  }

  /** Each cluster lists some of a side's rows, none of them twice. */
  lemma MembersAreRows(tags: seq<Tagged>, python: bool, c: nat, n: nat, rows: seq<Row>)
    requires c < n && multiset(AllMembers(tags, python, n)) == multiset(AllIds(|rows|))
    ensures Within(Members(tags, python, c), rows) && Distinct(Members(tags, python, c))
  {
    var m := Members(tags, python, c);
    MembersInAll(tags, python, c, n);
    forall x: nat ensures multiset(m)[x] <= if x < |rows| then 1 else 0 { AllIdsBag(|rows|, x); }
    SingleBagIsDistinct(m);
    forall i | 0 <= i < |m| ensures m[i] < |rows| { assert m[i] in multiset(m); }
  }

  // ----- the channel ---------------------------------------------------------------------------------------------

  datatype Bucket = Bucket(py: seq<nat>, rs: seq<nat>)

  /** The number of clusters. */
  function Count(tags: seq<Tagged>): nat {
    if tags == [] then 0 else tags[|tags| - 1].cluster + 1
  }

  lemma {:induction false} TagsStep(s: seq<Event>, i: nat)
    requires i < |s|
    ensures Tags(s)[i].cluster == Count(Tags(s)[..i]) || Tags(s)[i].cluster + 1 == Count(Tags(s)[..i])
    ensures Tags(s)[..i + 1] == Tags(s)[..i] + [Tags(s)[i]]
  {
  }

  /** by_cluster: rows of both sides, in time order, under their cluster. */
  method Buckets(tags: seq<Tagged>, ghost s: seq<Event>) returns (buckets: map<nat, Bucket>)
    requires tags == Tags(s)
    ensures forall c: nat :: c in buckets <==> c < Count(tags)
    ensures forall c: nat :: c in buckets ==> buckets[c] == Bucket(Members(tags, true, c), Members(tags, false, c))
  {
    hide Tags, Members;
    buckets := map[];
    assert tags[..0] == [];
    forall c: nat ensures Members(tags[..0], true, c) == [] && Members(tags[..0], false, c) == [] { NoMembers(c); }
    for i := 0 to |tags|
      invariant forall c: nat :: c in buckets <==> c < Count(tags[..i])
      invariant forall c: nat :: c in buckets ==> buckets[c] == Bucket(Members(tags[..i], true, c), Members(tags[..i], false, c))
      invariant forall c: nat :: c !in buckets ==> Members(tags[..i], true, c) == [] && Members(tags[..i], false, c) == []
    {
      TagsStep(s, i);
      var t := tags[i];
      forall c: nat
        ensures Members(tags[..i + 1], true, c) == Members(tags[..i], true, c) + if t.e.python && t.cluster == c then [t.e.row] else []
        ensures Members(tags[..i + 1], false, c) == Members(tags[..i], false, c) + if !t.e.python && t.cluster == c then [t.e.row] else []
      {
        MembersSnoc(tags[..i], t, true, c);
        MembersSnoc(tags[..i], t, false, c);
      }
      var b := if t.cluster in buckets then buckets[t.cluster] else Bucket([], []);
      buckets := buckets[t.cluster := if t.e.python then b.(py := b.py + [t.e.row]) else b.(rs := b.rs + [t.e.row])];
    }
    assert tags[..|tags|] == tags;
  }

  lemma NoMembers(c: nat)
    ensures Members([], true, c) == [] && Members([], false, c) == []
  {
  }

  /** In cluster `c` the two sides have equal multisets of (old fee, new fee, reason). */
  ghost predicate Agree(tags: seq<Tagged>, c: nat, pyRows: seq<Row>, rsRows: seq<Row>) {
    && Within(Members(tags, true, c), pyRows) && Within(Members(tags, false, c), rsRows)
    && KeyBag(Members(tags, true, c), pyRows) == KeyBag(Members(tags, false, c), rsRows)
  }

  ghost predicate AgreeBelow(tags: seq<Tagged>, n: nat, pyRows: seq<Row>, rsRows: seq<Row>) {
    forall c: nat :: c < n ==> Agree(tags, c, pyRows, rsRows)
  }

  /**
    match_channel. Every row of either side shows up in exactly one finding, and at tolerance 0 there
    is no mismatch exactly when the two sides agree in every cluster of the sorted events `s`.
  */
  method MatchChannel(pyRows: seq<Row>, rsRows: seq<Row>, tolerance: int)
    returns (fs: seq<Finding>, s: seq<Event>)
    ensures Ascending(s) && multiset(s) == multiset(PyEvents(pyRows) + RsEvents(rsRows))
    ensures Stable(PyEvents(pyRows) + RsEvents(rsRows), s)
    ensures multiset(PyIds(fs)) == multiset(AllIds(|pyRows|))
    ensures multiset(RsIds(fs)) == multiset(AllIds(|rsRows|))
    ensures tolerance == 0 ==> (AllMatch(fs) <==> AgreeBelow(Tags(s), Count(Tags(s)), pyRows, rsRows))
    ensures tolerance >= 0 && AgreeBelow(Tags(s), Count(Tags(s)), pyRows, rsRows) ==> AllMatch(fs)
  {
    var tags;
    tags, s := ClusterByTime(PyEvents(pyRows) + RsEvents(rsRows));
    var n := Count(tags);
    ChannelPartition(s, pyRows, rsRows);
    fs := MatchWindows(tags, s, n, pyRows, rsRows, tolerance);
  }

  /** What the findings of the first `c` windows promise. */
  ghost predicate Progress(fs: seq<Finding>, tags: seq<Tagged>, c: nat, pyRows: seq<Row>, rsRows: seq<Row>, tolerance: int) {
    && multiset(PyIds(fs)) == multiset(AllMembers(tags, true, c))
    && multiset(RsIds(fs)) == multiset(AllMembers(tags, false, c))
    && (tolerance == 0 ==> (AllMatch(fs) <==> AgreeBelow(tags, c, pyRows, rsRows)))
    && (tolerance >= 0 && AgreeBelow(tags, c, pyRows, rsRows) ==> AllMatch(fs))
  }

  method MatchWindows(tags: seq<Tagged>, ghost s: seq<Event>, n: nat, pyRows: seq<Row>, rsRows: seq<Row>, tolerance: int)
    returns (fs: seq<Finding>)
    requires tags == Tags(s) && n == Count(tags)
    requires multiset(AllMembers(tags, true, n)) == multiset(AllIds(|pyRows|))
    requires multiset(AllMembers(tags, false, n)) == multiset(AllIds(|rsRows|))
    ensures Progress(fs, tags, n, pyRows, rsRows, tolerance)
  {
    hide Judged, Members, AllMembers, Tags, Count, Progress, AllIds;
    var buckets := Buckets(tags, s);
    fs := [];
    NothingYet(tags, pyRows, rsRows, tolerance);
    for c := 0 to n
      invariant Progress(fs, tags, c, pyRows, rsRows, tolerance)
    {
      MembersAreRows(tags, true, c, n, pyRows);
      MembersAreRows(tags, false, c, n, rsRows);
      var part, _, _ := MatchCluster(buckets[c].py, buckets[c].rs, pyRows, rsRows, tolerance);
      JudgedParts(part, tags, c, pyRows, rsRows, tolerance);
      ProgressStep(fs, part, tags, c, pyRows, rsRows, tolerance);
      fs := fs + part;
    }
  }

  lemma ProgressStep(fs: seq<Finding>, part: seq<Finding>, tags: seq<Tagged>, c: nat,
                     pyRows: seq<Row>, rsRows: seq<Row>, tolerance: int)
    requires Progress(fs, tags, c, pyRows, rsRows, tolerance)
    requires multiset(PyIds(part)) == multiset(Members(tags, true, c))
    requires multiset(RsIds(part)) == multiset(Members(tags, false, c))
    requires tolerance >= 0 && Agree(tags, c, pyRows, rsRows) ==> AllMatch(part)
    requires tolerance == 0 && AllMatch(part) ==> Agree(tags, c, pyRows, rsRows)
    ensures Progress(fs + part, tags, c + 1, pyRows, rsRows, tolerance)
  {
    hide Members, AllMembers, AllMatch, Agree, PyIds, RsIds;
    AllMembersSplit(tags, true, c);
    AllMembersSplit(tags, false, c);
    AgreeOneMore(tags, c, pyRows, rsRows);
    hide AgreeBelow;
    IdsCat(fs, part);
    AllMatchCat(fs, part);
    BagsAdd(PyIds(fs), PyIds(part), AllMembers(tags, true, c), Members(tags, true, c));
    BagsAdd(RsIds(fs), RsIds(part), AllMembers(tags, false, c), Members(tags, false, c));
  }

  lemma AllMembersSplit(tags: seq<Tagged>, python: bool, c: nat)
    ensures AllMembers(tags, python, c + 1) == AllMembers(tags, python, c) + Members(tags, python, c)
  {
    hide Members;
  }

  lemma AgreeOneMore(tags: seq<Tagged>, c: nat, pyRows: seq<Row>, rsRows: seq<Row>)
    ensures AgreeBelow(tags, c + 1, pyRows, rsRows) <==> AgreeBelow(tags, c, pyRows, rsRows) && Agree(tags, c, pyRows, rsRows)
  {
    hide Agree;
  }

  lemma BagsAdd(a: seq<nat>, b: seq<nat>, a': seq<nat>, b': seq<nat>)
    requires multiset(a) == multiset(a') && multiset(b) == multiset(b')
    ensures multiset(a + b) == multiset(a' + b')
  {
  }

  lemma NothingYet(tags: seq<Tagged>, pyRows: seq<Row>, rsRows: seq<Row>, tolerance: int)
    ensures Progress([], tags, 0, pyRows, rsRows, tolerance)
  {
  }

  lemma JudgedParts(fs: seq<Finding>, tags: seq<Tagged>, c: nat, pyRows: seq<Row>, rsRows: seq<Row>, tolerance: int)
    requires var ps, rs := Members(tags, true, c), Members(tags, false, c);
             Within(ps, pyRows) && Within(rs, rsRows) && Judged(fs, ps, rs, pyRows, rsRows, tolerance)
    ensures multiset(PyIds(fs)) == multiset(Members(tags, true, c))
    ensures multiset(RsIds(fs)) == multiset(Members(tags, false, c))
    ensures tolerance >= 0 && Agree(tags, c, pyRows, rsRows) ==> AllMatch(fs)
    ensures tolerance == 0 && AllMatch(fs) ==> Agree(tags, c, pyRows, rsRows)
  {
  }

  lemma ChannelPartition(s: seq<Event>, pyRows: seq<Row>, rsRows: seq<Row>)
    requires multiset(s) == multiset(PyEvents(pyRows) + RsEvents(rsRows))
    ensures var n := Count(Tags(s));
            && multiset(AllMembers(Tags(s), true, n)) == multiset(AllIds(|pyRows|))
            && multiset(AllMembers(Tags(s), false, n)) == multiset(AllIds(|rsRows|))
  {
    var tags, n := Tags(s), Count(Tags(s));
    forall i | 0 <= i < |tags| ensures tags[i].cluster < n { ClustersGrow(s, i, |s| - 1); }
    assert Untagged(tags) == s;
    AllMembersAreSideRows(tags, true, n);
    AllMembersAreSideRows(tags, false, n);
    SideRowsAreAllIds(s, pyRows, rsRows);
  }
}
