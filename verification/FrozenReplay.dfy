/**
  The child verdict of tools/replay_fee_capture_window.py, and what an accepted exact replay means: one
  exact result for every capture of the window and no other, with totals that are the sums.
*/
module FrozenReplay {
  import opened FrozenWindow
  import opened MapSums
  import opened Outcomes

  const EXIT_EXACT := 0
  const EXIT_GATE_FAILED := 1
  const EXIT_INPUT := 2
  const MIN_CYCLES := 6
  const MIN_EVALUATIONS := 100
  const MIN_ADJUSTMENTS := 10

  /** The replay binary's answer; `None` is anything but one JSON object on stdout and nothing on stderr. */
  datatype Child = Child(answer: Option<Fields>, code: int)

  datatype Status = InsufficientWindow | Exact | Mismatch | InError

  datatype Outcome = Outcome(code: int, status: Status)

  // ----- one result ------------------------------------------------------------------------------------------

  predicate SaysExact(result: Fields) {
    && Get(result, "status") == Str("exact") && Get(result, "mismatch_count") == Num(0)
    && "error" in result && result["error"] == Null
  }

  predicate SaysMismatch(result: Fields) {
    && Get(result, "status") == Str("mismatch") && Get(result, "mismatch_count") == Num(1)
    && "error" in result && result["error"].Str? && result["error"].s != ""
  }

  predicate CountsMatch(expected: Selected, result: Fields) {
    && Get(result, "capture_seq") == Num(expected.captureSeq)
    && Get(result, "evaluated_channel_count") == Num(expected.evaluations)
    && Get(result, "adjustment_count") == Num(expected.adjustments)
  }

  predicate ResultOk(expected: Selected, result: Fields, code: int) {
    && CountsMatch(expected, result)
    && "error" in result && Get(result, "mismatch_count").Num?
    && (code == EXIT_EXACT ==> SaysExact(result))
    && (code == EXIT_GATE_FAILED ==> SaysExact(result) || SaysMismatch(result))
  }

  method CheckResult(expected: Selected, result: Fields, code: int) returns (ok: bool, mismatch: bool)
    ensures ok <==> ResultOk(expected, result, code)
    ensures ok ==> (mismatch <==> code == EXIT_GATE_FAILED && SaysMismatch(result))
  {
    mismatch := false;
    if Get(result, "capture_seq") != Num(expected.captureSeq) { return false, false; }
    if Get(result, "evaluated_channel_count") != Num(expected.evaluations) { return false, false; }
    if Get(result, "adjustment_count") != Num(expected.adjustments) { return false, false; }
    var status, count := Get(result, "status"), Get(result, "mismatch_count");
    if "error" !in result { return false, false; }
    var childError := result["error"];
    if !count.Num? { return false, false; }
    if code == EXIT_EXACT {
      if status != Str("exact") || count != Num(0) || childError != Null { return false, false; }
    } else if code == EXIT_GATE_FAILED {
      if status == Str("exact") {
        if count != Num(0) || childError != Null { return false, false; }
      } else if status == Str("mismatch") {
        if count != Num(1) || !childError.Str? || childError.s == "" { return false, false; }
        mismatch := true;
      } else {
        return false, false;
      }
    }
    ok := true;
  }

  // ----- the results against the window ---------------------------------------------------------------------------

  function Files(selected: seq<Selected>): set<string> { set e | e in selected :: e.file }

  /** The result's file, when it is an object naming one. */
  function FileOf(v: Value): (f: Option<string>)
    ensures f.Some? ==> v.Obj?
  {
    if v.Obj? && Get(v.fields, "file").Str? then Some(Get(v.fields, "file").s) else None
  }

  predicate NamesSelected(results: seq<Value>, selected: seq<Selected>) {
    forall i :: 0 <= i < |results| ==> FileOf(results[i]).Some? && FileOf(results[i]).value in Files(selected)
  }

  predicate DistinctFiles(results: seq<Value>) {
    forall i, j :: 0 <= i < j < |results| ==> FileOf(results[i]) != FileOf(results[j])
  }

  /** Every result is right about the capture it names. */
  predicate AllMatch(results: seq<Value>, selected: seq<Selected>, code: int) {
    forall i, k :: 0 <= i < |results| && 0 <= k < |selected| && FileOf(results[i]) == Some(selected[k].file)
                   ==> ResultOk(selected[k], results[i].fields, code)
  }

  predicate MismatchAt(results: seq<Value>, f: string) {
    exists i :: 0 <= i < |results| && FileOf(results[i]) == Some(f) && SaysMismatch(results[i].fields)
  }

  function MismatchFiles(results: seq<Value>, selected: seq<Selected>): set<string> {
    set f | f in Files(selected) && MismatchAt(results, f)
  }

  predicate ResultsOk(replay: Fields, selected: seq<Selected>, code: int) {
    && Get(replay, "results").Arr?
    && var results := Get(replay, "results").items;
    && |results| == |selected|
    && NamesSelected(results, selected) && DistinctFiles(results) && AllMatch(results, selected, code)
    && (code == EXIT_GATE_FAILED ==>
          && MismatchFiles(results, selected) != {}
          && EqInt(Get(replay, "mismatch_count"), |MismatchFiles(results, selected)|))
  }

  /** {item["file"]: item for item in selected}: a later item replaces an earlier one. */
  function ByFile(selected: seq<Selected>): (m: map<string, Selected>)
    ensures m.Keys == Files(selected)
    ensures forall f :: f in m ==> m[f] in selected && m[f].file == f
  {
    if selected == [] then map[]
    else
      var last := selected[|selected| - 1];
      assert selected == selected[..|selected| - 1] + [last];
      ByFile(selected[..|selected| - 1])[last.file := last]
  }

  function Named(results: seq<Value>): set<string> {
    set i | 0 <= i < |results| && FileOf(results[i]).Some? :: FileOf(results[i]).value
  }

  lemma {:induction false} DistinctNames(results: seq<Value>)
    requires DistinctFiles(results) && forall i :: 0 <= i < |results| ==> FileOf(results[i]).Some?
    ensures |Named(results)| == |results|
  {
    if results != [] {
      var shorter, last := results[..|results| - 1], results[|results| - 1];
      DistinctNames(shorter);
      assert Named(results) == Named(shorter) + {FileOf(last).value};
      assert FileOf(last).value !in Named(shorter);
    }
  }

  lemma {:induction false} FilesAtMost(selected: seq<Selected>)
    ensures |Files(selected)| <= |selected|
    ensures |Files(selected)| == |selected| ==> forall i, k :: 0 <= i < k < |selected| ==> selected[i].file != selected[k].file
  {
    if selected != [] {
      var shorter, last := selected[..|selected| - 1], selected[|selected| - 1];
      FilesAtMost(shorter);
      assert selected == shorter + [last];
      assert Files(selected) == Files(shorter) + {last.file};
    }
  }

  lemma SubsetOfSameSize(a: set<string>, b: set<string>)
    requires a <= b && |a| >= |b|
    ensures a == b
  {
    assert b == a + (b - a);
    assert |b| == |a| + |b - a|;
  }

  /**
    By counting alone: as many distinct selected files as there are captures are all of them. So the later
    comparison of the two file sets can never fail, and an accepted window names no file twice.
  */
  lemma SetCheckNeverFails(results: seq<Value>, selected: seq<Selected>)
    requires |results| == |selected| && NamesSelected(results, selected) && DistinctFiles(results)
    ensures Named(results) == Files(selected)
    ensures forall i, k :: 0 <= i < k < |selected| ==> selected[i].file != selected[k].file
  {
    DistinctNames(results);
    FilesAtMost(selected);
    assert Named(results) <= Files(selected);
    SubsetOfSameSize(Named(results), Files(selected));
  }

  /** `actual` holds each result under the file it names. */
  ghost predicate Indexed(actual: map<string, Fields>, results: seq<Value>) {
    && actual.Keys == Named(results)
    && forall i :: 0 <= i < |results| && FileOf(results[i]).Some? && FileOf(results[i]).value in actual
                   ==> actual[FileOf(results[i]).value] == results[i].fields
  }

  method IndexResults(results: seq<Value>, selected: seq<Selected>) returns (r: Option<map<string, Fields>>)
    ensures r.Some? <==> NamesSelected(results, selected) && DistinctFiles(results)
    ensures r.Some? ==> Indexed(r.value, results)
  {
    hide Files, FileOf, ByFile;
    var expectedByFile := ByFile(selected);
    var actual: map<string, Fields> := map[];
    for i := 0 to |results|
      invariant NamesSelected(results[..i], selected) && DistinctFiles(results[..i])
      invariant Indexed(actual, results[..i])
    {
      var result := results[i];
      assert results[..i + 1] == results[..i] + [result];
      if FileOf(result).None? || FileOf(result).value !in expectedByFile { return None; }
      var file := FileOf(result).value;
      if file in actual {
        assert file in Named(results[..i]);
        return None;
      }
      assert Named(results[..i + 1]) == Named(results[..i]) + {file};
      actual := actual[file := result.fields];
    }
    assert results[..|results|] == results;
    r := Some(actual);
  }

  // ----- the checks over all files ----------------------------------------------------------------------------------

  /** Every file's result is right, read through the two dictionaries. */
  ghost predicate FileOk(expected: map<string, Selected>, actual: map<string, Fields>, f: string, code: int) {
    f in expected && f in actual && ResultOk(expected[f], actual[f], code)
  }

  ghost function Flagged(actual: map<string, Fields>, files: set<string>): set<string> {
    set f | f in files && f in actual && SaysMismatch(actual[f])
  }

  lemma NoneFlagged(actual: map<string, Fields>)
    ensures Flagged(actual, {}) == {}
  {
  }

  lemma FlagOneMore(actual: map<string, Fields>, done: set<string>, file: string)
    requires file in actual && file !in done
    ensures |Flagged(actual, done + {file})| == |Flagged(actual, done)| + if SaysMismatch(actual[file]) then 1 else 0
  {
    hide SaysMismatch;
    assert Flagged(actual, done + {file})
        == Flagged(actual, done) + if SaysMismatch(actual[file]) then {file} else {};
  }

  /** The loop over expected_by_file, with its count of mismatches. */
  method CheckFiles(expected: map<string, Selected>, actual: map<string, Fields>, code: int)
    returns (ok: bool, mismatches: nat)
    requires expected.Keys == actual.Keys
    ensures ok <==> forall f :: f in expected ==> FileOk(expected, actual, f, code)
    ensures ok && code == EXIT_GATE_FAILED ==> mismatches == |Flagged(actual, actual.Keys)|
  {
    hide ResultOk, SaysMismatch, Flagged;
    mismatches := 0;
    var left := expected.Keys;
    ghost var done: set<string> := {};
    NoneFlagged(actual);
    while left != {}
      invariant left <= expected.Keys && done == expected.Keys - left
      invariant forall f :: f in done ==> FileOk(expected, actual, f, code)
      invariant code == EXIT_GATE_FAILED ==> mismatches == |Flagged(actual, done)|
      decreases |left|
    {
      var file :| file in left;
      var one, mismatch := CheckResult(expected[file], actual[file], code);
      assert one <==> FileOk(expected, actual, file, code);
      if !one { return false, 0; }
      FlagOneMore(actual, done, file);
      if mismatch { mismatches := mismatches + 1; }
      left, done := left - {file}, done + {file};
    }
    assert done == actual.Keys;
    ok := true;
  }

  lemma ResultOf(results: seq<Value>, actual: map<string, Fields>, f: string) returns (i: nat)
    requires Indexed(actual, results) && f in actual
    ensures i < |results| && FileOf(results[i]) == Some(f) && actual[f] == results[i].fields
  {
    i :| 0 <= i < |results| && FileOf(results[i]) == Some(f);
  }

  /** The result and the capture that name one file, wherever each stands in its list. */
  lemma PairOf(results: seq<Value>, selected: seq<Selected>, actual: map<string, Fields>, i: nat, k: nat)
    requires |results| == |selected| && NamesSelected(results, selected) && DistinctFiles(results)
    requires Indexed(actual, results) && i < |results| && k < |selected| && FileOf(results[i]) == Some(selected[k].file)
    ensures selected[k].file in actual && actual[selected[k].file] == results[i].fields
    ensures ByFile(selected)[selected[k].file] == selected[k]
  {
    hide NamesSelected, DistinctFiles, Named, FileOf, Files;
    SetCheckNeverFails(results, selected);
    LookUp(results, actual, i);
    InFiles(selected, k);
    hide Indexed, ByFile;
    var e := ByFile(selected)[selected[k].file];
    var j :| 0 <= j < |selected| && selected[j] == e;
  }

  lemma InFiles(selected: seq<Selected>, k: nat)
    requires k < |selected|
    ensures selected[k].file in Files(selected)
  {
    assert selected[k] in selected;
  }

  lemma LookUp(results: seq<Value>, actual: map<string, Fields>, i: nat)
    requires Indexed(actual, results) && i < |results| && FileOf(results[i]).Some?
    ensures FileOf(results[i]).value in actual && actual[FileOf(results[i]).value] == results[i].fields
  {
    hide FileOf;
    assert FileOf(results[i]).value in Named(results);
  }

  /** With the files in one-to-one correspondence, the dictionary view says what the sequences say. */
  lemma DictionariesAgree(results: seq<Value>, selected: seq<Selected>, actual: map<string, Fields>, code: int)
    requires |results| == |selected| && NamesSelected(results, selected) && DistinctFiles(results)
    requires Indexed(actual, results)
    ensures actual.Keys == ByFile(selected).Keys
    ensures (forall f :: f in ByFile(selected) ==> FileOk(ByFile(selected), actual, f, code)) <==> AllMatch(results, selected, code)
  {
    hide ResultOk, NamesSelected, DistinctFiles, Indexed, FileOf, Files, Named;
    SetCheckNeverFails(results, selected);
    var expected := ByFile(selected);
    assert actual.Keys == expected.Keys by { IndexedKeys(results, actual); }
    forall i: nat, k: nat | i < |results| && k < |selected| && FileOf(results[i]) == Some(selected[k].file)
      ensures selected[k].file in expected
      ensures FileOk(expected, actual, selected[k].file, code) <==> ResultOk(selected[k], results[i].fields, code)
    {
      PairOf(results, selected, actual, i, k);
    }
    forall f | f in expected && AllMatch(results, selected, code) ensures FileOk(expected, actual, f, code) {
      var i := ResultOf(results, actual, f);
      var k :| 0 <= k < |selected| && selected[k] == expected[f];
      assert FileOf(results[i]) == Some(selected[k].file);
    }
  }

  lemma IndexedKeys(results: seq<Value>, actual: map<string, Fields>)
    requires Indexed(actual, results)
    ensures actual.Keys == Named(results)
  {
  }

  lemma FlaggedAreMismatches(results: seq<Value>, selected: seq<Selected>, actual: map<string, Fields>)
    requires NamesSelected(results, selected) && Indexed(actual, results)
    ensures Flagged(actual, actual.Keys) == MismatchFiles(results, selected)
  {
    hide SaysMismatch, Files;
    forall f | f in Flagged(actual, actual.Keys) ensures f in MismatchFiles(results, selected) {
      var i := ResultOf(results, actual, f);
      assert MismatchAt(results, f);
    }
    forall f | f in MismatchFiles(results, selected) ensures f in Flagged(actual, actual.Keys) {
      var i :| 0 <= i < |results| && FileOf(results[i]) == Some(f) && SaysMismatch(results[i].fields);
      assert f in Named(results);
    }
  }

  /** _validate_child_results accepts exactly a right result for every capture, once each. */
  method ValidateChildResults(replay: Fields, selected: seq<Selected>, code: int) returns (ok: bool)
    ensures ok <==> ResultsOk(replay, selected, code)
  {
    hide NamesSelected, DistinctFiles, AllMatch, MismatchFiles, Indexed, FileOk, Flagged;
    var results := Get(replay, "results");
    if !results.Arr? || |results.items| != |selected| { return false; }
    var expectedByFile := ByFile(selected);
    var actual := IndexResults(results.items, selected);
    if actual.None? { return false; }
    DictionariesAgree(results.items, selected, actual.value, code);
    FlaggedAreMismatches(results.items, selected, actual.value);
    var right, mismatches := CheckFiles(expectedByFile, actual.value, code);
    if !right { return false; }
    if code == EXIT_GATE_FAILED {
      if mismatches == 0 || !EqInt(Get(replay, "mismatch_count"), mismatches) { return false; }
    }
    ok := true;
  }

  predicate VerdictOk(replay: Fields, w: Window, code: int) {
    && code in {EXIT_EXACT, EXIT_GATE_FAILED, EXIT_INPUT}
    && Get(replay, "run_id") == Str(w.runId)
    && Get(replay, "capture_count") == Num(w.counts.cycles)
    && Get(replay, "evaluated_channel_count") == Num(w.counts.evaluations)
    && Get(replay, "adjustment_count") == Num(w.counts.adjustments)
    && Get(replay, "mismatch_count").Num? && Get(replay, "mismatch_count").n >= 0
    && (code != EXIT_INPUT ==> RequiredString(replay, "commit").Some? && ResultsOk(replay, w.selected, code))
    && (code == EXIT_EXACT ==> Get(replay, "mismatch_count") == Num(0) && Get(replay, "error") == Null)
  }

  method ValidateChildVerdict(replay: Fields, w: Window, code: int) returns (ok: bool)
    ensures ok <==> VerdictOk(replay, w, code)
  {
    hide ResultsOk;
    if code !in {EXIT_EXACT, EXIT_GATE_FAILED, EXIT_INPUT} { return false; }
    if Get(replay, "run_id") != Str(w.runId) || Get(replay, "capture_count") != Num(w.counts.cycles) { return false; }
    if Get(replay, "evaluated_channel_count") != Num(w.counts.evaluations) { return false; }
    if Get(replay, "adjustment_count") != Num(w.counts.adjustments) { return false; }
    var count := Get(replay, "mismatch_count");
    if !count.Num? || count.n < 0 { return false; }
    if code in {EXIT_EXACT, EXIT_GATE_FAILED} {
      if RequiredString(replay, "commit").None? { return false; }
      var right := ValidateChildResults(replay, w.selected, code);
      if !right { return false; }
    }
    if code == EXIT_EXACT {
      if count.n != 0 || Get(replay, "error") != Null { return false; }
    }
    ok := true;
  }

  // ----- the whole run ------------------------------------------------------------------------------------------------

  predicate Enough(c: Counts) {
    c.cycles >= MIN_CYCLES && c.evaluations >= MIN_EVALUATIONS && c.adjustments >= MIN_ADJUSTMENTS
  }

  /** The manifest names a frozen window big enough to judge. */
  predicate Judgeable(manifest: File, disk: Disk) {
    var m := LoadObject(manifest, MAX_MANIFEST_BYTES);
    m.Some? && Frozen(m.value, disk) && Enough(WindowOf(m.value, disk).counts)
  }

  function JudgedWindow(manifest: File, disk: Disk): Window
    requires Judgeable(manifest, disk)
  {
    WindowOf(LoadObject(manifest, MAX_MANIFEST_BYTES).value, disk)
  }

  /** _run, with main's catch-all: every error is the input exit code. */
  method Run(manifest: File, disk: Disk, child: Child) returns (o: Outcome)
    ensures o.code == EXIT_EXACT
            <==> && Judgeable(manifest, disk) && child.code == EXIT_EXACT && child.answer.Some?
                 && VerdictOk(child.answer.value, JudgedWindow(manifest, disk), EXIT_EXACT)
    ensures o.code == EXIT_EXACT <==> o.status == Exact
    ensures o.status == Mismatch
            <==> && Judgeable(manifest, disk) && child.code == EXIT_GATE_FAILED && child.answer.Some?
                 && VerdictOk(child.answer.value, JudgedWindow(manifest, disk), EXIT_GATE_FAILED)
    ensures o.status == InsufficientWindow
            <==> var m := LoadObject(manifest, MAX_MANIFEST_BYTES);
                 m.Some? && Frozen(m.value, disk) && !Enough(WindowOf(m.value, disk).counts)
    ensures o.code == match o.status case Exact => EXIT_EXACT case InError => EXIT_INPUT case _ => EXIT_GATE_FAILED
  {
    hide Frozen, WindowOf, VerdictOk, LoadObject;
    var window := Preflight(manifest, disk);
    if window.Err? { return Outcome(EXIT_INPUT, InError); }
    if !Enough(window.value.counts) { return Outcome(EXIT_GATE_FAILED, InsufficientWindow); }
    if child.answer.None? { return Outcome(EXIT_INPUT, InError); }
    var ok := ValidateChildVerdict(child.answer.value, window.value, child.code);
    if !ok { return Outcome(EXIT_INPUT, InError); }
    if child.code == EXIT_EXACT { return Outcome(EXIT_EXACT, Exact); }
    if child.code == EXIT_GATE_FAILED { return Outcome(EXIT_GATE_FAILED, Mismatch); }
    o := Outcome(EXIT_INPUT, InError);
  }

  // ----- what an exact run means -------------------------------------------------------------------------------------

  /** Consecutive numbers and the per-file number check force the captures of a window to be distinct files. */
  lemma FrozenFilesAreDistinct(m: Fields, disk: Disk, i: nat, k: nat)
    requires Frozen(m, disk) && i < k < |WindowOf(m, disk).selected|
    ensures WindowOf(m, disk).selected[i].file != WindowOf(m, disk).selected[k].file
  {
    var w := WindowOf(m, disk);
    var attempts := Get(m, "attempts").items;
    hide Frozen, HeaderOk, TrailerOk, Evaluations, AdjustmentTotal, TotalBytes, RequiredString;
    SameFileSameNumber(disk, w.runId, attempts[i], attempts[k]);
  }

  lemma SameFileSameNumber(disk: Disk, runId: string, a: Value, b: Value)
    requires AttemptOk(disk, runId, a) && AttemptOk(disk, runId, b)
    ensures SelectedOf(disk, runId, a).file == SelectedOf(disk, runId, b).file
            ==> SelectedOf(disk, runId, a).captureSeq == SelectedOf(disk, runId, b).captureSeq
  {
    hide Adjustments, CycleId, Basename;
  }

  /** Values filed under their names; with distinct names nothing is overwritten. */
  function Table(names: seq<string>, values: seq<int>): (t: map<string, int>)
    requires |names| == |values|
    ensures t.Keys == set n | n in names
  {
    if names == [] then map[]
    else
      var last := |names| - 1;
      assert names == names[..last] + [names[last]];
      Table(names[..last], values[..last])[names[last] := values[last]]
  }

  function Total(values: seq<int>): int {
    if values == [] then 0 else Total(values[..|values| - 1]) + values[|values| - 1]
  }

  predicate NoRepeat(names: seq<string>) { forall i, k :: 0 <= i < k < |names| ==> names[i] != names[k] }

  lemma {:induction false} TableAt(names: seq<string>, values: seq<int>, i: nat)
    requires |names| == |values| && NoRepeat(names) && i < |names|
    ensures names[i] in Table(names, values) && Table(names, values)[names[i]] == values[i]
  {
    var last := |names| - 1;
    if i < last {
      TableAt(names[..last], values[..last], i);
    }
  }

  lemma {:induction false} TableSum(names: seq<string>, values: seq<int>)
    requires |names| == |values| && NoRepeat(names)
    ensures Sum(Table(names, values)) == Total(values)
  {
    hide Sum;
    if names == [] {
      EmptySum();
    } else {
      var last := |names| - 1;
      TableSum(names[..last], values[..last]);
      SumUpdate(Table(names[..last], values[..last]), names[last], values[last]);
    }
  }

  lemma EmptySum()
    ensures Sum(map[]) == 0
  {
  }

  /** Two lists of the same names, in any order, that agree name by name have the same total. */
  lemma SameTotal(names: seq<string>, values: seq<int>, others: seq<string>, counts: seq<int>)
    requires |names| == |values| && |others| == |counts| && NoRepeat(names) && NoRepeat(others)
    requires (set n | n in names) == (set n | n in others)
    requires forall i, k :: 0 <= i < |names| && 0 <= k < |others| && names[i] == others[k] ==> values[i] == counts[k]
    ensures Total(values) == Total(counts)
  {
    TableSum(names, values);
    TableSum(others, counts);
    forall n | n in names ensures Table(names, values)[n] == Table(others, counts)[n] {
      var i :| 0 <= i < |names| && names[i] == n;
      assert n in set o | o in others;
      var k :| 0 <= k < |others| && others[k] == n;
      TableAt(names, values, i);
      TableAt(others, counts, k);
    }
    assert Table(names, values) == Table(others, counts);
  }

  function NameOf(v: Value): string { if FileOf(v).Some? then FileOf(v).value else "" }

  function AmountOf(v: Value, field: string): int {
    if v.Obj? && Get(v.fields, field).Num? then Get(v.fields, field).n else 0
  }

  function Names(results: seq<Value>): (r: seq<string>)
    ensures |r| == |results| && forall i :: 0 <= i < |r| ==> r[i] == NameOf(results[i])
  {
    seq(|results|, i requires 0 <= i < |results| => NameOf(results[i]))
  }

  /** An integer field, result by result. */
  function Amounts(results: seq<Value>, field: string): (r: seq<int>)
    ensures |r| == |results| && forall i :: 0 <= i < |r| ==> r[i] == AmountOf(results[i], field)
  {
    seq(|results|, i requires 0 <= i < |results| => AmountOf(results[i], field))
  }

  function Captures(selected: seq<Selected>): (r: seq<string>)
    ensures |r| == |selected| && forall i :: 0 <= i < |r| ==> r[i] == selected[i].file
  {
    seq(|selected|, i requires 0 <= i < |selected| => selected[i].file)
  }

  function EvaluationCounts(selected: seq<Selected>): (r: seq<int>)
    ensures |r| == |selected| && forall i :: 0 <= i < |r| ==> r[i] == selected[i].evaluations
  {
    seq(|selected|, i requires 0 <= i < |selected| => selected[i].evaluations)
  }

  function AdjustmentCounts(selected: seq<Selected>): (r: seq<int>)
    ensures |r| == |selected| && forall i :: 0 <= i < |r| ==> r[i] == selected[i].adjustments
  {
    seq(|selected|, i requires 0 <= i < |selected| => selected[i].adjustments)
  }

  lemma {:induction false} CountsAreTotals(selected: seq<Selected>)
    ensures Evaluations(selected) == Total(EvaluationCounts(selected))
    ensures AdjustmentTotal(selected) == Total(AdjustmentCounts(selected))
  {
    if selected != [] {
      var shorter := selected[..|selected| - 1];
      CountsAreTotals(shorter);
      assert EvaluationCounts(selected)[..|shorter|] == EvaluationCounts(shorter);
      assert AdjustmentCounts(selected)[..|shorter|] == AdjustmentCounts(shorter);
    }
  }

  /** One exact result for each capture of the window and none besides, and the child's totals are its own sums. */
  ghost predicate CoversExactly(replay: Fields, w: Window) {
    && Get(replay, "results").Arr?
    && var results := Get(replay, "results").items;
    && |results| == |w.selected|
    && (forall i, k :: 0 <= i < k < |w.selected| ==> w.selected[i].file != w.selected[k].file)
    && Named(results) == Files(w.selected) && DistinctFiles(results)
    && (forall i :: 0 <= i < |results| ==> results[i].Obj? && SaysExact(results[i].fields))
    && Get(replay, "evaluated_channel_count") == Num(Total(Amounts(results, "evaluated_channel_count")))
    && Get(replay, "adjustment_count") == Num(Total(Amounts(results, "adjustment_count")))
  }


  lemma NamesDoNotRepeat(results: seq<Value>, selected: seq<Selected>)
    requires |results| == |selected| && NamesSelected(results, selected) && DistinctFiles(results)
    ensures NoRepeat(Names(results)) && NoRepeat(Captures(selected))
  {
    SetCheckNeverFails(results, selected);
    hide Files, Named, FileOf;
  }

  lemma NamesAreFiles(results: seq<Value>, selected: seq<Selected>)
    requires |results| == |selected| && NamesSelected(results, selected) && DistinctFiles(results)
    ensures (set n | n in Names(results)) == (set n | n in Captures(selected))
  {
    SetCheckNeverFails(results, selected);
    hide DistinctFiles, FileOf;
    forall n ensures n in Names(results) <==> n in Named(results) {
      if n in Names(results) { var i :| 0 <= i < |results| && Names(results)[i] == n; }
      if n in Named(results) {
        var i :| 0 <= i < |results| && FileOf(results[i]) == Some(n);
        assert Names(results)[i] == n;
      }
    }
    forall n ensures n in Captures(selected) <==> n in Files(selected) {
      if n in Files(selected) {
        var k :| 0 <= k < |selected| && selected[k].file == n;
        assert Captures(selected)[k] == n;
      }
    }
  }

  lemma ResultAmounts(results: seq<Value>, selected: seq<Selected>, code: int, i: nat, k: nat)
    requires i < |results| && k < |selected| && AllMatch(results, selected, code)
    requires FileOf(results[i]) == Some(selected[k].file)
    ensures AmountOf(results[i], "evaluated_channel_count") == selected[k].evaluations
    ensures AmountOf(results[i], "adjustment_count") == selected[k].adjustments
    ensures code == EXIT_EXACT ==> SaysExact(results[i].fields)
  {
    hide SaysExact, SaysMismatch;
  }

  /** What the results add up to is what the window adds up to, in whatever order they came. */
  lemma TotalsAgree(results: seq<Value>, selected: seq<Selected>, code: int)
    requires |results| == |selected| && NamesSelected(results, selected) && DistinctFiles(results)
    requires AllMatch(results, selected, code)
    ensures Total(Amounts(results, "evaluated_channel_count")) == Evaluations(selected)
    ensures Total(Amounts(results, "adjustment_count")) == AdjustmentTotal(selected)
  {
    NamesDoNotRepeat(results, selected);
    NamesAreFiles(results, selected);
    CountsAreTotals(selected);
    hide AllMatch, DistinctFiles, AmountOf, Files, Total, Evaluations, AdjustmentTotal;
    forall i: nat, k: nat | i < |results| && k < |selected| && Names(results)[i] == Captures(selected)[k]
      ensures AmountOf(results[i], "evaluated_channel_count") == selected[k].evaluations
      ensures AmountOf(results[i], "adjustment_count") == selected[k].adjustments
    {
      ResultAmounts(results, selected, code, i, k);
    }
    SameTotal(Names(results), Amounts(results, "evaluated_channel_count"), Captures(selected), EvaluationCounts(selected));
    SameTotal(Names(results), Amounts(results, "adjustment_count"), Captures(selected), AdjustmentCounts(selected));
  }

  lemma ResultsAllExact(results: seq<Value>, selected: seq<Selected>)
    requires NamesSelected(results, selected) && AllMatch(results, selected, EXIT_EXACT)
    ensures forall i :: 0 <= i < |results| ==> results[i].Obj? && SaysExact(results[i].fields)
  {
    hide SaysExact, AllMatch;
    forall i: nat | i < |results| ensures results[i].Obj? && SaysExact(results[i].fields) {
      var e :| e in selected && e.file == FileOf(results[i]).value;
      var k :| 0 <= k < |selected| && selected[k] == e;
      ResultAmounts(results, selected, EXIT_EXACT, i, k);
    }
  }

  /** An accepted exact replay covers the window one-to-one. */
  lemma ExactReplayCoversWindow(manifest: File, disk: Disk, replay: Fields)
    requires Judgeable(manifest, disk) && VerdictOk(replay, JudgedWindow(manifest, disk), EXIT_EXACT)
    ensures CoversExactly(replay, JudgedWindow(manifest, disk))
  {
    var w := JudgedWindow(manifest, disk);
    WindowCounts(manifest, disk);
    hide Judgeable, JudgedWindow, Evaluations, AdjustmentTotal, NamesSelected, DistinctFiles, AllMatch;
    var results := Get(replay, "results").items;
    SetCheckNeverFails(results, w.selected);
    ResultsAllExact(results, w.selected);
    TotalsAgree(results, w.selected, EXIT_EXACT);
  }

  lemma WindowCounts(manifest: File, disk: Disk)
    requires Judgeable(manifest, disk)
    ensures var w := JudgedWindow(manifest, disk);
            w.counts == Counts(|w.selected|, Evaluations(w.selected), AdjustmentTotal(w.selected))
  {
    hide Frozen, LoadObject;
  }

  /** And conversely a mismatch verdict is never empty: some capture's result says so, and the total counts them. */
  lemma MismatchNamesACapture(manifest: File, disk: Disk, replay: Fields)
    requires Judgeable(manifest, disk) && VerdictOk(replay, JudgedWindow(manifest, disk), EXIT_GATE_FAILED)
    ensures var w, results := JudgedWindow(manifest, disk), Get(replay, "results").items;
            && |MismatchFiles(results, w.selected)| >= 1
            && Get(replay, "mismatch_count") == Num(|MismatchFiles(results, w.selected)|)
            && (forall i, k :: 0 <= i < k < |w.selected| ==> w.selected[i].file != w.selected[k].file)
            && Named(results) == Files(w.selected)
  {
    var w := JudgedWindow(manifest, disk);
    hide Judgeable, JudgedWindow, NamesSelected, DistinctFiles, AllMatch, MismatchFiles;
    SetCheckNeverFails(Get(replay, "results").items, w.selected);
  }
}
