/** Time clustering of tools/diff-harness/diff_fee_decisions.py. */
module TimeClusters {

  const TOLERANCE_SECONDS := 120

  /** One decision on one side; `row` is its position in that side's list. */
  datatype Event = Event(ts: int, python: bool, row: nat)

  datatype Tagged = Tagged(e: Event, cluster: nat)

  ghost predicate Ascending(s: seq<Event>) {
    forall i, j :: 0 <= i < j < |s| ==> s[i].ts <= s[j].ts
  }

  /** `e` goes after everything no later than it: the sort is stable. */
  function Insert(e: Event, s: seq<Event>): (r: seq<Event>)
    ensures multiset(r) == multiset(s) + multiset{e} && |r| == |s| + 1
  {
    if s == [] || s[|s| - 1].ts <= e.ts then s + [e]
    else
      var n := |s| - 1;
      assert s == s[..n] + [s[n]];
      Insert(e, s[..n]) + [s[n]]
  }

  /** The events at one time, in list order. */
  function AtTime(s: seq<Event>, ts: int): seq<Event> {
    if s == [] then []
    else AtTime(s[..|s| - 1], ts) + if s[|s| - 1].ts == ts then [s[|s| - 1]] else []
  }

  /** Events of equal time keep their order. */
  ghost predicate Stable(from: seq<Event>, r: seq<Event>) {
    forall ts :: AtTime(r, ts) == AtTime(from, ts)
  }

  lemma AtTimeSnoc(s: seq<Event>, e: Event, ts: int)
    ensures AtTime(s + [e], ts) == AtTime(s, ts) + if e.ts == ts then [e] else []
  {
    assert (s + [e])[..|s|] == s;
  }

  lemma {:induction false} InsertIsStable(e: Event, s: seq<Event>, ts: int)
    ensures AtTime(Insert(e, s), ts) == AtTime(s + [e], ts)
  {
    hide AtTime;
    if s != [] && s[|s| - 1].ts > e.ts {
      var n := |s| - 1;
      InsertIsStable(e, s[..n], ts);
      InsertUnfolds(e, s);
      hide Insert;
      assert s == s[..n] + [s[n]];
      AtTimeSnoc(s[..n], e, ts);
      AtTimeSnoc(s[..n], s[n], ts);
      AtTimeSnoc(s, e, ts);
      AtTimeSnoc(Insert(e, s[..n]), s[n], ts);
    }
  }

  lemma InsertUnfolds(e: Event, s: seq<Event>)
    requires s != [] && s[|s| - 1].ts > e.ts
    ensures Insert(e, s) == Insert(e, s[..|s| - 1]) + [s[|s| - 1]]
  {
  }

  ghost predicate NoLaterThan(s: seq<Event>, ts: int) { forall i :: 0 <= i < |s| ==> s[i].ts <= ts }

  lemma {:induction false} InsertKeepsBound(e: Event, s: seq<Event>, ts: int)
    requires NoLaterThan(s, ts) && e.ts <= ts
    ensures NoLaterThan(Insert(e, s), ts)
  {
    if s != [] && s[|s| - 1].ts > e.ts {
      InsertKeepsBound(e, s[..|s| - 1], ts);
    }
  }

  lemma {:induction false} InsertAscends(e: Event, s: seq<Event>)
    requires Ascending(s)
    ensures Ascending(Insert(e, s))
  {
    if s != [] && s[|s| - 1].ts > e.ts {
      InsertAscends(e, s[..|s| - 1]);
      InsertKeepsBound(e, s[..|s| - 1], s[|s| - 1].ts);
    }
  }

  /** sorted(events, key=ts) */
  method SortByTime(events: seq<Event>) returns (r: seq<Event>)
    ensures Ascending(r) && multiset(r) == multiset(events) && |r| == |events| && Stable(events, r)
  {
    hide AtTime, Insert, Ascending;
    r := [];
    NothingToSort();
    for i := 0 to |events|
      invariant Ascending(r) && multiset(r) == multiset(events[..i]) && |r| == i && Stable(events[..i], r)
    {
      InsertAscends(events[i], r);
      forall ts ensures AtTime(Insert(events[i], r), ts) == AtTime(events[..i] + [events[i]], ts) {
        InsertIsStable(events[i], r, ts);
        AtTimeSnoc(r, events[i], ts);
        AtTimeSnoc(events[..i], events[i], ts);
      }
      r := Insert(events[i], r);
      assert events[..i + 1] == events[..i] + [events[i]];
    }
    assert events[..|events|] == events;
  }

  lemma NothingToSort()
    ensures Ascending([]) && Stable([], [])
  {
  }

  /** The gap before position `k` starts a new cluster. */
  predicate Breaks(s: seq<Event>, k: nat)
    requires 0 < k < |s|
  {
    s[k].ts - s[k - 1].ts > TOLERANCE_SECONDS
  }

  /** How many breaks there are up to position `i`. */
  function ClusterOf(s: seq<Event>, i: nat): nat
    requires i < |s|
  {
    if i == 0 then 0 else ClusterOf(s, i - 1) + if Breaks(s, i) then 1 else 0
  }

  function Tags(s: seq<Event>): (out: seq<Tagged>)
    ensures |out| == |s|
  {
    seq(|s|, i requires 0 <= i < |s| => Tagged(s[i], ClusterOf(s, i)))
  }

  /** cluster_by_time: the last cluster is extended while the gap to its end is within tolerance.
      `s` is the list in ascending order. */
  method ClusterByTime(events: seq<Event>) returns (out: seq<Tagged>, s: seq<Event>)
    ensures Ascending(s) && multiset(s) == multiset(events) && Stable(events, s)
    ensures out == Tags(s)
  {
    s := SortByTime(events);
    out := TagRuns(s);
  }

  method TagRuns(s: seq<Event>) returns (out: seq<Tagged>)
    ensures out == Tags(s)
  {
    var ends: seq<int> := [];
    out := [];
    for i := 0 to |s|
      invariant |out| == i && (i == 0 <==> ends == [])
      invariant i > 0 ==> |ends| == ClusterOf(s, i - 1) + 1 && ends[|ends| - 1] == s[i - 1].ts
      invariant forall j :: 0 <= j < i ==> out[j] == Tags(s)[j]
    {
      var ts := s[i].ts;
      if |ends| > 0 && ts - ends[|ends| - 1] <= TOLERANCE_SECONDS {
        ends := ends[|ends| - 1 := ts];
      } else {
        ends := ends + [ts];
      }
      out := out + [Tagged(s[i], |ends| - 1)];
    }
  }

  lemma {:induction false} ClustersGrow(s: seq<Event>, i: nat, j: nat)
    requires i <= j < |s|
    ensures ClusterOf(s, i) <= ClusterOf(s, j)
    ensures ClusterOf(s, i) == ClusterOf(s, j) <==> forall k :: i < k <= j ==> !Breaks(s, k)
    decreases j
  {
    if i < j {
      ClustersGrow(s, i, j - 1);
      if Breaks(s, j) {
        assert ClusterOf(s, j) > ClusterOf(s, i);
      }
    }
  }

  /** Two events share a cluster exactly when every gap between consecutive events from one to the
      other is at most 120 seconds. */
  lemma {:induction false} ShareClusterIffNoLongGap(s: seq<Event>, i: nat, j: nat)
    requires i <= j < |s|
    ensures ClusterOf(s, i) == ClusterOf(s, j) <==>
              forall k :: i < k <= j ==> s[k].ts - s[k - 1].ts <= TOLERANCE_SECONDS
  {
    ClustersGrow(s, i, j);
    hide ClusterOf;
    if forall k :: i < k <= j ==> s[k].ts - s[k - 1].ts <= TOLERANCE_SECONDS {
      assert forall k :: i < k <= j ==> !Breaks(s, k);
    } else {
      var k :| i < k <= j && s[k].ts - s[k - 1].ts > TOLERANCE_SECONDS;
      assert Breaks(s, k);
    }
  }
}
