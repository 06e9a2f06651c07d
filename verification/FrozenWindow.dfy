/**
  The preflight of tools/replay_fee_capture_window.py over one frozen capture window. The filesystem is a
  fixed `Disk`; every WindowError is `Err`. A JSON value keeps Python's comparison habits: a bool or a
  float equals the integer of the same value.
*/
module FrozenWindow {
  import JsonText
  import opened Outcomes

  datatype Value =
    | Null | Bool(b: bool) | Num(n: int) | Float(r: real) | Str(s: string) | Arr(items: seq<Value>)
    | Obj(fields: map<string, Value>)

  type Fields = map<string, Value>

  const MAX_MANIFEST_BYTES := 4 * 1024 * 1024
  const MAX_CAPTURE_BYTES := 32 * 1024 * 1024
  const MAX_SELECTED_WINDOW_BYTES := 256 * 1024 * 1024

  /** A file's size, and what it parses to (`None`: not UTF-8, or not JSON). */
  datatype File = File(bytes: nat, json: Option<Value>)

  /** What a basename in the capture directory resolves to, which paths lie inside it, and their files. */
  datatype Disk = Disk(resolve: map<string, string>, inside: set<string>, files: map<string, File>)

  datatype Selected = Selected(file: string, captureSeq: int, evaluations: int, adjustments: int)

  datatype Counts = Counts(cycles: int, evaluations: int, adjustments: int)

  datatype Window = Window(runId: string, selected: seq<Selected>, counts: Counts)

  // ----- Python's dynamic checks ---------------------------------------------------------------------------

  function Get(o: Fields, k: string): Value { if k in o then o[k] else Null }

  predicate EqInt(v: Value, n: int) {
    match v
    case Num(m) => m == n
    case Bool(b) => (if b then 1 else 0) == n
    case Float(r) => r == n as real
    case _ => false
  }

  /** An expected sequence number, or None when nothing was retained. */
  predicate EqSeq(v: Value, n: Option<int>) { if n.Some? then EqInt(v, n.value) else v == Null }

  function RequiredInt(o: Fields, k: string, minimum: int): (r: Option<int>)
    ensures r.Some? ==> r.value >= minimum
  {
    if Get(o, k).Num? && Get(o, k).n >= minimum then Some(Get(o, k).n) else None
  }

  function RequiredString(o: Fields, k: string): (r: Option<string>)
    ensures r.Some? ==> r.value != ""
  {
    if Get(o, k).Str? && Get(o, k).s != "" then Some(Get(o, k).s) else None
  }

  function LoadObject(f: File, maximum: nat): Option<Fields> {
    if f.bytes <= maximum && f.json.Some? && f.json.value.Obj? then Some(f.json.value.fields) else None
  }

  predicate Basename(name: string) { name != "" && name !in {".", ".."} && '/' !in name }

  function CapturePath(disk: Disk, name: Value): Option<string> {
    if name.Str? && Basename(name.s) && name.s in disk.resolve && disk.resolve[name.s] in disk.files
       && disk.resolve[name.s] in disk.inside
    then Some(disk.resolve[name.s]) else None
  }

  function Zeros(n: nat): string { if n == 0 then "" else "0" + Zeros(n - 1) }

  function Pad8(n: nat): string {
    var t := JsonText.NatText(n);
    if |t| < 8 then Zeros(8 - |t|) + t else t
  }

  function CycleId(runId: string, captureSeq: nat): string { runId + ":" + Pad8(captureSeq) }

  // ----- one attempt -----------------------------------------------------------------------------------------

  predicate OutcomeOk(v: Value) {
    v.Obj? && ("adjustment" in v.fields ==> v.fields["adjustment"].Obj?)
  }

  function Adjustments(outcomes: seq<Value>): nat
  {
    if outcomes == [] then 0
    else
      var last := outcomes[|outcomes| - 1];
      Adjustments(outcomes[..|outcomes| - 1]) + if last.Obj? && "adjustment" in last.fields then 1 else 0
  }

  function OrderedOutcomes(capture: Fields): seq<Value> {
    var expected := Get(capture, "expected");
    if expected.Obj? && Get(expected.fields, "ordered_outcomes").Arr?
    then Get(expected.fields, "ordered_outcomes").items else []
  }

  predicate CaptureOk(capture: Fields, runId: string, captureSeq: nat) {
    var completeness, expected := Get(capture, "completeness"), Get(capture, "expected");
    && Get(capture, "capture_run_id") == Str(runId)
    && EqInt(Get(capture, "capture_seq"), captureSeq)
    && Get(capture, "cycle_id") == Str(CycleId(runId, captureSeq))
    && completeness.Obj? && Get(completeness.fields, "complete") == Bool(true)
    && RequiredInt(completeness.fields, "evaluated_channels", 0) == Some(|OrderedOutcomes(capture)|)
    && expected.Obj? && Get(expected.fields, "ordered_outcomes").Arr?
    && forall i :: 0 <= i < |OrderedOutcomes(capture)| ==> OutcomeOk(OrderedOutcomes(capture)[i])
  }

  /** The path and capture an attempt names, when it names one that loads. */
  function Loaded(disk: Disk, attempt: Fields): Option<(string, Fields, nat)> {
    var path := CapturePath(disk, Get(attempt, "filename"));
    if path.None? then None
    else
      var capture := LoadObject(disk.files[path.value], MAX_CAPTURE_BYTES);
      if capture.None? then None else Some((path.value, capture.value, disk.files[path.value].bytes))
  }

  /** One retained attempt is sound: completed, eligible, and its capture is the canonical one for its number. */
  predicate AttemptOk(disk: Disk, runId: string, v: Value) {
    && v.Obj?
    && RequiredInt(v.fields, "capture_seq", 1).Some?
    && Get(v.fields, "status") == Str("completed")
    && Get(v.fields, "eligible") == Bool(true)
    && Loaded(disk, v.fields).Some?
    && var captureSeq := RequiredInt(v.fields, "capture_seq", 1).value;
    && Get(v.fields, "cycle_id") == Str(CycleId(runId, captureSeq))
    && CaptureOk(Loaded(disk, v.fields).value.1, runId, captureSeq)
  }

  function SelectedOf(disk: Disk, runId: string, v: Value): Selected
    requires AttemptOk(disk, runId, v)
  {
    var capture := Loaded(disk, v.fields).value;
    Selected(capture.0, RequiredInt(v.fields, "capture_seq", 1).value, |OrderedOutcomes(capture.1)|,
             Adjustments(OrderedOutcomes(capture.1)))
  }

  function BytesOf(disk: Disk, runId: string, v: Value): nat
    requires AttemptOk(disk, runId, v)
  {
    Loaded(disk, v.fields).value.2
  }

  method CountAdjustments(outcomes: seq<Value>) returns (r: Option<nat>)
    ensures r.Some? <==> forall i :: 0 <= i < |outcomes| ==> OutcomeOk(outcomes[i])
    ensures r.Some? ==> r.value == Adjustments(outcomes)
  {
    var adjustments := 0;
    for i := 0 to |outcomes|
      invariant forall j :: 0 <= j < i ==> OutcomeOk(outcomes[j])
      invariant adjustments == Adjustments(outcomes[..i])
    {
      var outcome := outcomes[i];
      if !outcome.Obj? { return None; }
      assert outcomes[..i + 1][..i] == outcomes[..i];
      if "adjustment" in outcome.fields {
        if !outcome.fields["adjustment"].Obj? { return None; }
        adjustments := adjustments + 1;
      }
    }
    assert outcomes[..|outcomes|] == outcomes;
    r := Some(adjustments);
  }

  /** The body of the loop over attempts, up to the appends. */
  method CheckAttempt(disk: Disk, runId: string, v: Value) returns (r: Option<(Selected, nat)>)
    ensures r.Some? <==> AttemptOk(disk, runId, v)
    ensures r.Some? ==> r.value == (SelectedOf(disk, runId, v), BytesOf(disk, runId, v))
  {
    if !v.Obj? { return None; }
    var attempt := v.fields;
    var captureSeq := RequiredInt(attempt, "capture_seq", 1);
    if captureSeq.None? || Get(attempt, "status") != Str("completed") { return None; }
    if Get(attempt, "eligible") != Bool(true) { return None; }
    var path := CapturePath(disk, Get(attempt, "filename"));
    if path.None? { return None; }
    var file := disk.files[path.value];
    var capture := LoadObject(file, MAX_CAPTURE_BYTES);
    if capture.None? { return None; }
    var found := CheckCapture(capture.value, runId, captureSeq.value);
    if found.None? || Get(attempt, "cycle_id") != Str(CycleId(runId, captureSeq.value)) { return None; }
    r := Some((Selected(path.value, captureSeq.value, found.value.0, found.value.1), file.bytes));
  }

  method CheckCapture(capture: Fields, runId: string, captureSeq: nat) returns (r: Option<(nat, nat)>)
    ensures r.Some? <==> CaptureOk(capture, runId, captureSeq)
    ensures r.Some? ==> r.value == (|OrderedOutcomes(capture)|, Adjustments(OrderedOutcomes(capture)))
  {
    if Get(capture, "capture_run_id") != Str(runId) { return None; }
    if !EqInt(Get(capture, "capture_seq"), captureSeq) { return None; }
    if Get(capture, "cycle_id") != Str(CycleId(runId, captureSeq)) { return None; }
    var completeness := Get(capture, "completeness");
    if !completeness.Obj? || Get(completeness.fields, "complete") != Bool(true) { return None; }
    var evaluations := RequiredInt(completeness.fields, "evaluated_channels", 0);
    if evaluations.None? { return None; }
    var expected := Get(capture, "expected");
    if !expected.Obj? { return None; }
    var outcomes := Get(expected.fields, "ordered_outcomes");
    if !outcomes.Arr? || |outcomes.items| != evaluations.value { return None; }
    var adjustments := CountAdjustments(outcomes.items);
    if adjustments.None? { return None; }
    r := Some((evaluations.value, adjustments.value));
  }

  // ----- the window -------------------------------------------------------------------------------------------

  /** list(range(a, b)). */
  function Range(a: int, b: int): (r: seq<int>)
    ensures |r| == if b > a then b - a else 0
    ensures forall i :: 0 <= i < |r| ==> r[i] == a + i
  {
    if b <= a then [] else seq(b - a, i => a + i)
  }

  predicate HeaderOk(m: Fields) {
    && Get(m, "schema_name") == Str("fee_cycle_capture_manifest")
    && EqInt(Get(m, "schema_version"), 0)
    && Get(m, "state") == Str("closed")
    && Get(m, "queue_drained") == Bool(true)
    && RequiredInt(m, "failed", 0) == Some(0) && RequiredInt(m, "dropped", 0) == Some(0)
    && RequiredString(m, "capture_run_id").Some?
    && Get(m, "attempts").Arr?
    && RequiredInt(m, "attempted", 0) == RequiredInt(m, "completed", 0) == Some(|Get(m, "attempts").items|)
  }

  predicate TrailerOk(m: Fields, first: Option<int>, last: Option<int>) {
    var retained := Get(m, "retained_sequence_range");
    && EqSeq(Get(m, "last_attempted_seq"), last) && EqSeq(Get(m, "last_completed_seq"), last)
    && retained.Obj? && EqSeq(Get(retained.fields, "first"), first) && EqSeq(Get(retained.fields, "last"), last)
  }

  predicate AllOk(disk: Disk, runId: string, attempts: seq<Value>) {
    forall i :: 0 <= i < |attempts| ==> AttemptOk(disk, runId, attempts[i])
  }

  function Selection(disk: Disk, runId: string, attempts: seq<Value>): (r: seq<Selected>)
    requires AllOk(disk, runId, attempts)
    ensures |r| == |attempts|
    ensures forall i :: 0 <= i < |r| ==> r[i] == SelectedOf(disk, runId, attempts[i])
  {
    seq(|attempts|, i requires 0 <= i < |attempts| => SelectedOf(disk, runId, attempts[i]))
  }

  function TotalBytes(disk: Disk, runId: string, attempts: seq<Value>): nat
    requires AllOk(disk, runId, attempts)
  {
    if attempts == [] then 0
    else
      assert AllOk(disk, runId, attempts[..|attempts| - 1]);
      TotalBytes(disk, runId, attempts[..|attempts| - 1]) + BytesOf(disk, runId, attempts[|attempts| - 1])
  }

  function Evaluations(s: seq<Selected>): int {
    if s == [] then 0 else Evaluations(s[..|s| - 1]) + s[|s| - 1].evaluations
  }

  function AdjustmentTotal(s: seq<Selected>): int {
    if s == [] then 0 else AdjustmentTotal(s[..|s| - 1]) + s[|s| - 1].adjustments
  }

  predicate Consecutive(s: seq<Selected>) {
    forall i :: 0 <= i < |s| ==> s[i].captureSeq == s[0].captureSeq + i
  }

  function FirstSeq(s: seq<Selected>): Option<int> { if s == [] then None else Some(s[0].captureSeq) }
  function LastSeq(s: seq<Selected>): Option<int> { if s == [] then None else Some(s[|s| - 1].captureSeq) }

  /** The manifest is a closed, drained, lossless window of consecutive sound captures under the byte limit. */
  predicate Frozen(m: Fields, disk: Disk) {
    && HeaderOk(m)
    && var runId, attempts := RequiredString(m, "capture_run_id").value, Get(m, "attempts").items;
    && AllOk(disk, runId, attempts)
    && TotalBytes(disk, runId, attempts) <= MAX_SELECTED_WINDOW_BYTES
    && Consecutive(Selection(disk, runId, attempts))
    && TrailerOk(m, FirstSeq(Selection(disk, runId, attempts)), LastSeq(Selection(disk, runId, attempts)))
  }

  function WindowOf(m: Fields, disk: Disk): Window
    requires Frozen(m, disk)
  {
    var runId := RequiredString(m, "capture_run_id").value;
    var s := Selection(disk, runId, Get(m, "attempts").items);
    Window(runId, s, Counts(|s|, Evaluations(s), AdjustmentTotal(s)))
  }

  lemma BytesGrow(disk: Disk, runId: string, attempts: seq<Value>, i: nat)
    requires i <= |attempts| && AllOk(disk, runId, attempts)
    ensures AllOk(disk, runId, attempts[..i]) && TotalBytes(disk, runId, attempts[..i]) <= TotalBytes(disk, runId, attempts)
    decreases |attempts|
  {
    if i == |attempts| {
      assert attempts[..i] == attempts;
    } else {
      var shorter := attempts[..|attempts| - 1];
      assert AllOk(disk, runId, shorter);
      BytesGrow(disk, runId, shorter, i);
      assert shorter[..i] == attempts[..i];
    }
  }

  /** The range comparison is consecutiveness. */
  lemma RangeIsConsecutive(sequences: seq<int>)
    requires sequences != []
    ensures sequences == Range(sequences[0], sequences[|sequences| - 1] + 1)
            <==> forall i :: 0 <= i < |sequences| ==> sequences[i] == sequences[0] + i
  {
    var r := Range(sequences[0], sequences[|sequences| - 1] + 1);
    if forall i :: 0 <= i < |sequences| ==> sequences[i] == sequences[0] + i {
      assert sequences[|sequences| - 1] == sequences[0] + |sequences| - 1;
      assert |r| == |sequences|;
    }
  }

  method CheckHeader(m: Fields) returns (r: Option<(string, seq<Value>)>)
    ensures r.Some? <==> HeaderOk(m)
    ensures r.Some? ==> r.value == (RequiredString(m, "capture_run_id").value, Get(m, "attempts").items)
  {
    if Get(m, "schema_name") != Str("fee_cycle_capture_manifest") { return None; }
    if !EqInt(Get(m, "schema_version"), 0) || Get(m, "state") != Str("closed") { return None; }
    if Get(m, "queue_drained") != Bool(true) { return None; }
    var failed, dropped := RequiredInt(m, "failed", 0), RequiredInt(m, "dropped", 0);
    if failed.None? || dropped.None? || failed.value != 0 || dropped.value != 0 { return None; }
    var runId, attempts := RequiredString(m, "capture_run_id"), Get(m, "attempts");
    if runId.None? || !attempts.Arr? { return None; }
    var attempted, completed := RequiredInt(m, "attempted", 0), RequiredInt(m, "completed", 0);
    if attempted.None? || completed.None? { return None; }
    if attempted.value != completed.value + failed.value + dropped.value || completed.value != |attempts.items| { return None; }
    r := Some((runId.value, attempts.items));
  }

  /** _preflight accepts exactly the frozen windows, and returns their captures in manifest order. */
  method Preflight(manifest: File, disk: Disk) returns (r: Result<Window>)
    ensures var m := LoadObject(manifest, MAX_MANIFEST_BYTES);
            && (r.Ok? <==> m.Some? && Frozen(m.value, disk))
            && (r.Ok? ==> r.value == WindowOf(m.value, disk))
  {
    hide HeaderOk, TrailerOk, AttemptOk, RequiredString, RequiredInt, Consecutive;
    var m := LoadObject(manifest, MAX_MANIFEST_BYTES);
    if m.None? { return Err; }
    var header := CheckHeader(m.value);
    if header.None? { return Err; }
    var (runId, attempts) := header.value;
    var gathered := GatherCaptures(disk, runId, attempts);
    if gathered.None? { return Err; }
    var (sequences, selected, counts) := gathered.value;
    if sequences != [] {
      SequencesAreConsecutive(selected, sequences);
      if sequences != Range(sequences[0], sequences[|sequences| - 1] + 1) { return Err; }
    } else {
      EmptyIsConsecutive(selected);
    }
    var first := if sequences == [] then None else Some(sequences[0]);
    var last := if sequences == [] then None else Some(sequences[|sequences| - 1]);
    var trailer := CheckTrailer(m.value, first, last);
    if !trailer { return Err; }
    r := Ok(Window(runId, selected, counts));
  }

  method CheckTrailer(m: Fields, first: Option<int>, last: Option<int>) returns (ok: bool)
    ensures ok == TrailerOk(m, first, last)
  {
    if !EqSeq(Get(m, "last_attempted_seq"), last) { return false; }
    if !EqSeq(Get(m, "last_completed_seq"), last) { return false; }
    var retained := Get(m, "retained_sequence_range");
    if !retained.Obj? { return false; }
    ok := EqSeq(Get(retained.fields, "first"), first) && EqSeq(Get(retained.fields, "last"), last);
  }

  predicate SequencesOf(selected: seq<Selected>, sequences: seq<int>) {
    |sequences| == |selected| && forall i :: 0 <= i < |selected| ==> sequences[i] == selected[i].captureSeq
  }

  lemma SequencesAreConsecutive(selected: seq<Selected>, sequences: seq<int>)
    requires sequences != [] && SequencesOf(selected, sequences)
    ensures sequences == Range(sequences[0], sequences[|sequences| - 1] + 1) <==> Consecutive(selected)
  {
    RangeIsConsecutive(sequences);
  }

  lemma EmptyIsConsecutive(selected: seq<Selected>)
    requires selected == []
    ensures Consecutive(selected)
  {
  }

  /** The loop over the retained attempts. */
  method GatherCaptures(disk: Disk, runId: string, attempts: seq<Value>)
    returns (r: Option<(seq<int>, seq<Selected>, Counts)>)
    ensures r.Some? <==> AllOk(disk, runId, attempts) && TotalBytes(disk, runId, attempts) <= MAX_SELECTED_WINDOW_BYTES
    ensures r.Some? ==>
              var s := Selection(disk, runId, attempts);
              && r.value.1 == s && SequencesOf(s, r.value.0)
              && r.value.2 == Counts(|s|, Evaluations(s), AdjustmentTotal(s))
  {
    hide AttemptOk, SelectedOf, BytesOf;
    var sequences: seq<int>, selected: seq<Selected> := [], [];
    var evaluations, adjustments, bytes := 0, 0, 0;
    for i := 0 to |attempts|
      invariant AllOk(disk, runId, attempts[..i])
      invariant bytes == TotalBytes(disk, runId, attempts[..i]) <= MAX_SELECTED_WINDOW_BYTES
      invariant selected == Selection(disk, runId, attempts[..i]) && SequencesOf(selected, sequences)
      invariant evaluations == Evaluations(selected) && adjustments == AdjustmentTotal(selected)
    {
      assert attempts[..i + 1][..i] == attempts[..i];
      var checked := CheckAttempt(disk, runId, attempts[i]);
      if checked.None? { return None; }
      var (one, size) := checked.value;
      assert AllOk(disk, runId, attempts[..i + 1]);
      bytes := bytes + size;
      if bytes > MAX_SELECTED_WINDOW_BYTES {
        if AllOk(disk, runId, attempts) { BytesGrow(disk, runId, attempts, i + 1); }
        return None;
      }
      AppendSelected(selected, one);
      sequences, selected := sequences + [one.captureSeq], selected + [one];
      evaluations, adjustments := evaluations + one.evaluations, adjustments + one.adjustments;
    }
    assert attempts[..|attempts|] == attempts;
    r := Some((sequences, selected, Counts(|selected|, evaluations, adjustments)));
  }

  lemma AppendSelected(s: seq<Selected>, one: Selected)
    ensures Evaluations(s + [one]) == Evaluations(s) + one.evaluations
    ensures AdjustmentTotal(s + [one]) == AdjustmentTotal(s) + one.adjustments
  {
    assert (s + [one])[..|s|] == s;
  }
}
