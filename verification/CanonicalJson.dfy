/**
  The recursive writers of crates/revops-core/src/canonical.rs, crates/revops-db/src/budget.rs and
  crates/revops-analytics/src/telemetry.rs over a growing output string, and the canonical form of
  a value whose objects are unordered maps.
*/
module CanonicalJson {
  import opened Outcomes
  import opened JsonText
  import opened JsonRoundTrip

  datatype Value =
    | VNull
    | VBool(b: bool)
    | VInt(n: int)
    | VFloat
    | VStr(s: string)
    | VArr(items: seq<Value>)
    | VObj(fields: map<string, Value>)

  // ----- key order -------------------------------------------------------------------------------

  /** Code point order, which is the byte order of UTF-8. */
  predicate LexLe(a: string, b: string) {
    a == "" || (b != "" && (a[0] < b[0] || (a[0] == b[0] && LexLe(a[1..], b[1..]))))
  }

  lemma {:induction false} LexReflexive(a: string)
    ensures LexLe(a, a)
  {
    if a != "" { LexReflexive(a[1..]); }
  }

  lemma {:induction false} LexTotal(a: string, b: string)
    ensures LexLe(a, b) || LexLe(b, a)
  {
    if a != "" && b != "" { LexTotal(a[1..], b[1..]); }
  }

  lemma {:induction false} LexAntisymmetric(a: string, b: string)
    requires LexLe(a, b) && LexLe(b, a)
    ensures a == b
  {
    if a != "" {
      LexAntisymmetric(a[1..], b[1..]);
      assert a == [a[0]] + a[1..] && b == [b[0]] + b[1..];
    }
  }

  lemma {:induction false} LexTransitive(a: string, b: string, c: string)
    requires LexLe(a, b) && LexLe(b, c)
    ensures LexLe(a, c)
  {
    if a != "" && a[0] == b[0] && b[0] == c[0] { LexTransitive(a[1..], b[1..], c[1..]); }
  }

  ghost predicate IsLeast(k: string, keys: set<string>) {
    k in keys && forall o :: o in keys ==> LexLe(k, o)
  }

  method Least(keys: set<string>) returns (k: string)
    requires keys != {}
    ensures IsLeast(k, keys)
  {
    k :| k in keys;
    var left := keys - {k};
    LexReflexive(k);
    while left != {}
      invariant k in keys && left <= keys && forall o :: o in keys && o !in left ==> LexLe(k, o)
      decreases |left|
    {
      var o :| o in left;
      LexTotal(k, o);
      if !LexLe(k, o) {
        forall p | p in keys && p !in left ensures LexLe(o, p) { LexTransitive(o, k, p); }
        k := o;
      }
      LexReflexive(o);
      left := left - {o};
    }
  }

  lemma {:induction false} LeastExists(keys: set<string>)
    requires keys != {}
    ensures exists k :: IsLeast(k, keys)
    decreases |keys|
  {
    var x :| x in keys;
    LexReflexive(x);
    if keys == {x} {
      assert IsLeast(x, keys);
    } else {
      LeastExists(keys - {x});
      var k :| IsLeast(k, keys - {x});
      LexTotal(x, k);
      if LexLe(x, k) {
        forall o | o in keys ensures LexLe(x, o) { if o != x { LexTransitive(x, k, o); } }
        assert IsLeast(x, keys);
      } else {
        assert IsLeast(k, keys);
      }
    }
  }

  /** The keys in ascending order. */
  ghost function SortedKeys(keys: set<string>): (r: seq<string>)
    ensures forall k :: k in r <==> k in keys
    ensures |r| == |keys|
  {
    if keys == {} then []
    else
      LeastExists(keys);
      var k :| IsLeast(k, keys);
      [k] + SortedKeys(keys - {k})
  }

  lemma {:induction false} SortedKeysAscend(keys: set<string>, i: nat, j: nat)
    requires i < j < |keys|
    ensures LexLe(SortedKeys(keys)[i], SortedKeys(keys)[j]) && SortedKeys(keys)[i] != SortedKeys(keys)[j]
    decreases |keys|
  {
    var r := SortedKeys(keys);
    var k := r[0];
    assert IsLeast(k, keys) && r[1..] == SortedKeys(keys - {k});
    if i == 0 {
      assert r[j] in r[1..];
    } else {
      SortedKeysAscend(keys - {k}, i - 1, j - 1);
    }
  }

  lemma LeastComesFirst(keys: set<string>, k: string)
    requires keys != {} && IsLeast(k, keys)
    ensures SortedKeys(keys) == [k] + SortedKeys(keys - {k})
  {
    var first := SortedKeys(keys)[0];
    LexAntisymmetric(k, first);
  }

  lemma SortedNone()
    ensures SortedKeys({}) == []
  {
  }

  /** keys().collect() and sort_unstable(). */
  method SortKeys(keys: set<string>) returns (r: seq<string>)
    ensures r == SortedKeys(keys)
  {
    hide IsLeast, SortedKeys;
    SortedNone();
    r := [];
    var left := keys;
    while left != {}
      invariant r + SortedKeys(left) == SortedKeys(keys)
      decreases |left|
    {
      var k := Least(left);
      LeastComesFirst(left, k);
      r, left := r + [k], left - {k};
    }
  }

  // ----- the canonical document of a value, and back ---------------------------------------------------

  ghost function Canon(v: Value): Doc {
    match v
    case VNull => Null
    case VBool(b) => Bool(b)
    case VInt(n) => Int(n)
    case VFloat => Float
    case VStr(s) => Str(s)
    case VArr(items) => List(seq(|items|, i requires 0 <= i < |items| => Canon(items[i])))
    case VObj(fields) =>
      var keys := SortedKeys(fields.Keys);
      Dict(seq(|keys|, i requires 0 <= i < |keys| => Pair(keys[i], Canon(fields[keys[i]]))))
  }

  /** Reading a document as a value: later fields win. */
  function FromDoc(d: Doc): Value
    decreases d, 1
  {
    match d
    case Null => VNull
    case Bool(b) => VBool(b)
    case Int(n) => VInt(n)
    case Float => VFloat
    case Str(s) => VStr(s)
    case List(items) => VArr(seq(|items|, i requires 0 <= i < |items| => FromDoc(items[i])))
    case Dict(pairs) => VObj(FromPairs(pairs))
  }

  function FromPairs(pairs: seq<Pair>): map<string, Value>
    decreases pairs, 0
  {
    if pairs == [] then map[]
    else
      var last := pairs[|pairs| - 1];
      FromPairs(pairs[..|pairs| - 1])[last.key := FromDoc(last.value)]
  }

  lemma {:induction false} FromPairsLookup(pairs: seq<Pair>)
    requires forall i, j :: 0 <= i < j < |pairs| ==> pairs[i].key != pairs[j].key
    ensures forall k :: k in FromPairs(pairs) ==> exists i :: 0 <= i < |pairs| && pairs[i].key == k
    ensures forall i :: 0 <= i < |pairs| ==>
              pairs[i].key in FromPairs(pairs) && FromPairs(pairs)[pairs[i].key] == FromDoc(pairs[i].value)
  {
    if pairs != [] {
      var n := |pairs| - 1;
      FromPairsLookup(pairs[..n]);
      forall k | k in FromPairs(pairs) ensures exists i :: 0 <= i < |pairs| && pairs[i].key == k {
        if k == pairs[n].key {
          assert pairs[n].key == k;
        } else {
          var i :| 0 <= i < n && pairs[..n][i].key == k;
          assert pairs[i].key == k;
        }
      }
      forall i | 0 <= i < |pairs|
        ensures pairs[i].key in FromPairs(pairs) && FromPairs(pairs)[pairs[i].key] == FromDoc(pairs[i].value)
      {
        if i < n { assert pairs[..n][i] == pairs[i]; }
      }
    }
  }

  lemma PairsOfFields(pairs: seq<Pair>, fields: map<string, Value>)
    requires forall i, j :: 0 <= i < j < |pairs| ==> pairs[i].key != pairs[j].key
    requires forall i :: 0 <= i < |pairs| ==> pairs[i].key in fields && FromDoc(pairs[i].value) == fields[pairs[i].key]
    requires forall k :: k in fields ==> exists i :: 0 <= i < |pairs| && pairs[i].key == k
    ensures FromPairs(pairs) == fields
  {
    hide FromDoc, FromPairs;
    FromPairsLookup(pairs);
    var m := FromPairs(pairs);
    forall k | k in fields ensures k in m && m[k] == fields[k] {
      var i :| 0 <= i < |pairs| && pairs[i].key == k;
    }
    forall k | k in m ensures k in fields {
      var i :| 0 <= i < |pairs| && pairs[i].key == k;
    }
  }

  lemma {:induction false} ObjectComesBack(fields: map<string, Value>)
    requires forall k :: k in fields ==> FromDoc(Canon(fields[k])) == fields[k]
    ensures FromDoc(Canon(VObj(fields))) == VObj(fields)
  {
    hide FromPairs, SortedKeys;
    var keys := SortedKeys(fields.Keys);
    var pairs := Canon(VObj(fields)).pairs;
    forall i, j | 0 <= i < j < |pairs| ensures pairs[i].key != pairs[j].key { SortedKeysAscend(fields.Keys, i, j); }
    forall k | k in fields ensures exists i :: 0 <= i < |pairs| && pairs[i].key == k {
      var i :| 0 <= i < |keys| && keys[i] == k;
      assert pairs[i].key == k;
    }
    PairsOfFields(pairs, fields);
  }

  /** Nothing is lost by sorting: the value comes back from its canonical document. */
  lemma {:induction false} CanonComesBack(v: Value)
    ensures FromDoc(Canon(v)) == v
  {
    match v {
      case VArr(items) =>
        forall i | 0 <= i < |items| ensures FromDoc(Canon(items[i])) == items[i] { CanonComesBack(items[i]); }
      case VObj(fields) =>
        forall k | k in fields ensures FromDoc(Canon(fields[k])) == fields[k] { CanonComesBack(fields[k]); }
        ObjectComesBack(fields);
      case _ =>
    }
  }

  // ----- the first float --------------------------------------------------------------------------------

  /** Position `at` (child numbers from the root) names a float of `d`. */
  predicate FloatAt(d: Doc, at: seq<nat>)
    decreases |at|
  {
    if at == [] then d.Float?
    else
      match d
      case List(items) => at[0] < |items| && FloatAt(items[at[0]], at[1..])
      case Dict(pairs) => at[0] < |pairs| && FloatAt(pairs[at[0]].value, at[1..])
      case _ => false
  }

  /** `a` comes no later than `b` in the order the document is written. */
  predicate NotAfter(a: seq<nat>, b: seq<nat>) {
    a == [] || (b != [] && (a[0] < b[0] || (a[0] == b[0] && NotAfter(a[1..], b[1..]))))
  }

  ghost function FirstFloat(d: Doc): Option<seq<nat>>
    decreases d, 1
  {
    match d
    case Float => Some([])
    case List(items) => FirstInItems(items, 0)
    case Dict(pairs) => FirstInPairs(pairs, 0)
    case _ => None
  }

  ghost function FirstInItems(items: seq<Doc>, i: nat): Option<seq<nat>>
    requires i <= |items|
    decreases items, 0, |items| - i
  {
    if i == |items| then None
    else
      match FirstFloat(items[i])
      case Some(p) => Some([i] + p)
      case None => FirstInItems(items, i + 1)
  }

  ghost function FirstInPairs(pairs: seq<Pair>, i: nat): Option<seq<nat>>
    requires i <= |pairs|
    decreases pairs, 0, |pairs| - i
  {
    if i == |pairs| then None
    else
      match FirstFloat(pairs[i].value)
      case Some(p) => Some([i] + p)
      case None => FirstInPairs(pairs, i + 1)
  }

  ghost predicate IsFirst(d: Doc, r: Option<seq<nat>>) {
    match r
    case Some(p) => FloatAt(d, p) && forall q :: FloatAt(d, q) ==> NotAfter(p, q)
    case None => forall q :: !FloatAt(d, q)
  }

  /** The position reported is a float, and no float comes before it. */
  lemma {:induction false} FirstFloatIsFirst(d: Doc)
    ensures IsFirst(d, FirstFloat(d))
    decreases d, 1
  {
    match d {
      case List(items) =>
        FirstInItemsIsFirst(items, 0);
      case Dict(pairs) =>
        FirstInPairsIsFirst(pairs, 0);
      case _ =>
    }
  }

  lemma {:induction false} FirstInItemsIsFirst(items: seq<Doc>, i: nat)
    requires i <= |items|
    ensures var r := FirstInItems(items, i);
            && (r.Some? ==> r.value != [] && FloatAt(List(items), r.value))
            && forall q :: q != [] && q[0] >= i && FloatAt(List(items), q) ==> r.Some? && NotAfter(r.value, q)
    decreases items, 0, |items| - i
  {
    if i < |items| {
      FirstFloatIsFirst(items[i]);
      FirstInItemsIsFirst(items, i + 1);
      var r := FirstInItems(items, i);
      if FirstFloat(items[i]).Some? {
        assert r.value[1..] == FirstFloat(items[i]).value;
      }
      forall q | q != [] && q[0] >= i && FloatAt(List(items), q) ensures r.Some? && NotAfter(r.value, q) {
        if q[0] == i { assert FloatAt(items[i], q[1..]); }
      }
    }
  }

  lemma {:induction false} FirstInPairsIsFirst(pairs: seq<Pair>, i: nat)
    requires i <= |pairs|
    ensures var r := FirstInPairs(pairs, i);
            && (r.Some? ==> r.value != [] && FloatAt(Dict(pairs), r.value))
            && forall q :: q != [] && q[0] >= i && FloatAt(Dict(pairs), q) ==> r.Some? && NotAfter(r.value, q)
    decreases pairs, 0, |pairs| - i
  {
    if i < |pairs| {
      FirstFloatIsFirst(pairs[i].value);
      FirstInPairsIsFirst(pairs, i + 1);
      var r := FirstInPairs(pairs, i);
      if FirstFloat(pairs[i].value).Some? {
        assert r.value[1..] == FirstFloat(pairs[i].value).value;
      }
      forall q | q != [] && q[0] >= i && FloatAt(Dict(pairs), q) ensures r.Some? && NotAfter(r.value, q) {
        if q[0] == i { assert FloatAt(pairs[i].value, q[1..]); }
      }
    }
  }

  lemma {:induction false} NoFloatIffNone(d: Doc)
    ensures NoFloat(d) <==> FirstFloat(d).None?
    decreases d, 1
  {
    match d {
      case List(items) => ItemsNoneIff(items, 0);
      case Dict(pairs) => PairsNoneIff(pairs, 0);
      case _ =>
    }
  }

  lemma {:induction false} ItemsNoneIff(items: seq<Doc>, i: nat)
    requires i <= |items|
    ensures FirstInItems(items, i).None? <==> forall j :: i <= j < |items| ==> NoFloat(items[j])
    decreases items, 0, |items| - i
  {
    if i < |items| {
      NoFloatIffNone(items[i]);
      ItemsNoneIff(items, i + 1);
    }
  }

  lemma {:induction false} PairsNoneIff(pairs: seq<Pair>, i: nat)
    requires i <= |pairs|
    ensures FirstInPairs(pairs, i).None? <==> forall j :: i <= j < |pairs| ==> NoFloat(pairs[j].value)
    decreases pairs, 0, |pairs| - i
  {
    if i < |pairs| {
      NoFloatIffNone(pairs[i].value);
      PairsNoneIff(pairs, i + 1);
    }
  }

  // ----- error paths --------------------------------------------------------------------------------------

  /** The segments of a position: array indices in decimal, object keys as they are. */
  function Names(d: Doc, at: seq<nat>): seq<string>
    decreases |at|
  {
    if at == [] then []
    else
      match d
      case List(items) => if at[0] < |items| then [NatText(at[0])] + Names(items[at[0]], at[1..]) else []
      case Dict(pairs) => if at[0] < |pairs| then [pairs[at[0]].key] + Names(pairs[at[0]].value, at[1..]) else []
      case _ => []
  }

  function Segments(path: seq<string>): string {
    if path == [] then "" else Segments(path[..|path| - 1]) + "/" + path[|path| - 1]
  }

  function FormatPath(path: seq<string>): string {
    if path == [] then "/" else Segments(path)
  }

  datatype Written = Done | NonIntegerNumber(path: string)

  /** What writing `d` below `path` answers. */
  ghost function Answer(d: Doc, path: seq<string>): Written {
    match FirstFloat(d)
    case None => Done
    case Some(p) => NonIntegerNumber(FormatPath(path + Names(d, p)))
  }
}
