/** The writers themselves, pushing onto an output string, and what their texts guarantee. */
module JsonWriters {
  import opened Outcomes
  import opened JsonText
  import opened JsonRoundTrip
  import opened CanonicalJson

  lemma {:induction false} CharsSnoc(s: string, c: char, asciiOnly: bool)
    ensures CharsText(s + [c], asciiOnly) == CharsText(s, asciiOnly) + CharText(c, asciiOnly)
  {
    hide CharText;
    if s == "" {
      assert [c][1..] == "";
    } else {
      assert (s + [c])[1..] == s[1..] + [c];
      CharsSnoc(s[1..], c, asciiOnly);
    }
  }

  lemma {:induction false} ItemsSnoc(items: seq<Doc>, d: Doc, st: Style)
    ensures ItemsText(items + [d], st)
            == ItemsText(items, st) + (if items == [] then "" else st.itemSep) + Text(d, st)
  {
    hide Text;
    if |items| > 1 {
      ItemsSnoc(items[1..], d, st);
      assert (items + [d])[1..] == items[1..] + [d];
    } else if |items| == 1 {
      assert (items + [d])[1..] == [d];
    }
  }

  lemma {:induction false} PairsSnoc(pairs: seq<Pair>, p: Pair, st: Style)
    ensures PairsText(pairs + [p], st)
            == PairsText(pairs, st) + (if pairs == [] then "" else st.itemSep) + PairText(p, st)
  {
    hide PairText;
    if |pairs| > 1 {
      PairsSnoc(pairs[1..], p, st);
      assert (pairs + [p])[1..] == pairs[1..] + [p];
    } else if |pairs| == 1 {
      assert (pairs + [p])[1..] == [p];
    }
  }

  class JsonWriter {
    var out: string
    var path: seq<string>
    const style: Style

    constructor (style: Style)
      ensures out == "" && path == [] && this.style == style
    {
      this.style := style;
      out, path := "", [];
    }

    method WriteString(s: string)
      modifies this
      ensures out == old(out) + StrText(s, style.asciiOnly) && path == old(path)
    {
      hide CharText;
      out := out + "\"";
      for i := 0 to |s|
        invariant path == old(path) && out == old(out) + "\"" + CharsText(s[..i], style.asciiOnly)
      {
        CharsSnoc(s[..i], s[i], style.asciiOnly);
        assert s[..i + 1] == s[..i] + [s[i]];
        out := out + CharText(s[i], style.asciiOnly);
      }
      assert s[..|s|] == s;
      out := out + "\"";
    }

    /** Objects are written in sorted key order; the first float ends the writing. */
    method WriteValue(v: Value) returns (w: Written)
      modifies this
      ensures w == Answer(Canon(v), old(path)) && path == old(path)
      ensures w.Done? ==> out == old(out) + Text(Canon(v), style)
      decreases v, 5
    {
      match v
      case VNull => out := out + "null"; return Done;
      case VBool(b) => out := out + if b then "true" else "false"; return Done;
      case VInt(n) => out := out + IntText(n); return Done;
      case VFloat => assert path + [] == path; return NonIntegerNumber(FormatPath(path));
      case VStr(s) => WriteString(s); return Done;
      case VArr(items) => w := WriteItems(v);
      case VObj(fields) => w := WriteFields(v);
    }

    method WriteItems(v: Value) returns (w: Written)
      requires v.VArr?
      modifies this
      ensures w == Answer(Canon(v), old(path)) && path == old(path)
      ensures w.Done? ==> out == old(out) + Text(Canon(v), style)
      decreases v, 4
    {
      hide *;
      ListUnfolds(v, style);
      ghost var docs := Canon(v).items;
      out := out + "[";
      w := WriteElements(v, docs);
      if w.Done? {
        out := out + "]";
        assert out == old(out) + ("[" + ItemsText(docs, style) + "]");
      }
    }

    method WriteElements(v: Value, ghost docs: seq<Doc>) returns (w: Written)
      requires v.VArr? && |docs| == |v.items| && forall i :: 0 <= i < |docs| ==> docs[i] == Canon(v.items[i])
      modifies this
      ensures w == Answer(List(docs), old(path)) && path == old(path)
      ensures w.Done? ==> out == old(out) + ItemsText(docs, style)
      decreases v, 3
    {
      hide Text, FormatPath, Canon, ItemsText, Names, FirstFloat, FirstInItems, Answer;
      EmptyItems(style);
      for i := 0 to |v.items|
        invariant path == old(path)
        invariant FirstInItems(docs, 0) == FirstInItems(docs, i)
        invariant out == old(out) + ItemsText(docs[..i], style)
      {
        ghost var before := ItemsText(docs[..i], style);
        if i > 0 { out := out + style.itemSep; }
        path := path + [NatText(i)];
        w := WriteValue(v.items[i]);
        path := path[..|path| - 1];
        ItemAnswer(docs, i, path);
        if w.NonIntegerNumber? { return; }
        ItemsSnocAt(docs, i, style);
        assert out == old(out) + before + ((if i == 0 then "" else style.itemSep) + Text(docs[i], style));
        CatAssociates(old(out), before, (if i == 0 then "" else style.itemSep) + Text(docs[i], style));
      }
      assert docs[..|v.items|] == docs;
      DoneWithItems(docs, path);
      w := Done;
    }

    method WriteKey(first: bool, key: string)
      modifies this
      ensures path == old(path)
      ensures out == old(out) + ((if first then "" else style.itemSep) + StrText(key, style.asciiOnly) + style.keySep)
    {
      hide StrText;
      if !first { out := out + style.itemSep; }
      WriteString(key);
      out := out + style.keySep;
    }

    /** One field of an object, its key pushed on the path while the value is written. */
    method WriteField(first: bool, key: string, v: Value) returns (w: Written)
      modifies this
      ensures path == old(path) && w == Answer(Canon(v), old(path) + [key])
      ensures w.Done? ==>
                out == old(out) + ((if first then "" else style.itemSep) + PairText(Pair(key, Canon(v)), style))
      decreases v, 6
    {
      hide Text, FormatPath, Canon, StrText;
      WriteKey(first, key);
      ghost var keyed := out;
      path := path + [key];
      w := WriteValue(v);
      path := path[..|path| - 1];
      if w.Done? {
        assert out == keyed + Text(Canon(v), style);
      }
    }

    method WriteFields(v: Value) returns (w: Written)
      requires v.VObj?
      modifies this
      ensures w == Answer(Canon(v), old(path)) && path == old(path)
      ensures w.Done? ==> out == old(out) + Text(Canon(v), style)
      decreases v, 4
    {
      hide *;
      var keys := SortKeys(v.fields.Keys);
      DictUnfolds(v, style);
      ghost var pairs := Canon(v).pairs;
      out := out + "{";
      w := WriteSorted(v, keys, pairs);
      if w.Done? {
        out := out + "}";
        assert out == old(out) + ("{" + PairsText(pairs, style) + "}");
      }
    }

    /** The fields of `v` in the order of `keys`, up to the first float. */
    method WriteSorted(v: Value, keys: seq<string>, ghost pairs: seq<Pair>) returns (w: Written)
      requires v.VObj? && |pairs| == |keys|
      requires forall i :: 0 <= i < |keys| ==> keys[i] in v.fields && pairs[i] == Pair(keys[i], Canon(v.fields[keys[i]]))
      modifies this
      ensures w == Answer(Dict(pairs), old(path)) && path == old(path)
      ensures w.Done? ==> out == old(out) + PairsText(pairs, style)
      decreases v, 3
    {
      hide Text, FormatPath, Canon, PairText, PairsText, Names, FirstFloat, FirstInPairs, Answer;
      EmptyPairs(style);
      for i := 0 to |keys|
        invariant path == old(path)
        invariant FirstInPairs(pairs, 0) == FirstInPairs(pairs, i)
        invariant out == old(out) + PairsText(pairs[..i], style)
      {
        ghost var before := PairsText(pairs[..i], style);
        w := WriteField(i == 0, keys[i], v.fields[keys[i]]);
        PairAnswer(pairs, i, path);
        if w.NonIntegerNumber? { return; }
        PairsSnocAt(pairs, i, style);
        CatAssociates(old(out), before, (if i == 0 then "" else style.itemSep) + PairText(pairs[i], style));
      }
      assert pairs[..|keys|] == pairs;
      DoneWithPairs(pairs, path);
      w := Done;
    }

    /** telemetry.rs: insertion order, no sorting, no floats in this model. */
    method WriteDoc(d: Doc)
      requires NoFloat(d)
      modifies this
      ensures out == old(out) + Text(d, style) && path == old(path)
      decreases d, 1
    {
      match d
      case Null => out := out + "null";
      case Bool(b) => out := out + if b then "true" else "false";
      case Int(n) => out := out + IntText(n);
      case Str(s) => WriteString(s);
      case List(items) => WriteList(items);
      case Dict(pairs) => WriteDict(pairs);
    }

    method WriteList(items: seq<Doc>)
      requires forall i :: 0 <= i < |items| ==> NoFloat(items[i])
      modifies this
      ensures out == old(out) + Text(List(items), style) && path == old(path)
      decreases items, 0
    {
      hide NoFloat, Text, ItemsText;
      EmptyItems(style);
      ListText(items, style);
      assert items[..0] == [];
      out := out + "[";
      for i := 0 to |items|
        invariant path == old(path) && out == old(out) + "[" + ItemsText(items[..i], style)
      {
        ItemsSnoc(items[..i], items[i], style);
        assert items[..i + 1] == items[..i] + [items[i]];
        if i > 0 { out := out + style.itemSep; }
        WriteDoc(items[i]);
      }
      assert items[..|items|] == items;
      out := out + "]";
    }

    method WriteDict(pairs: seq<Pair>)
      requires forall i :: 0 <= i < |pairs| ==> NoFloat(pairs[i].value)
      modifies this
      ensures out == old(out) + Text(Dict(pairs), style) && path == old(path)
      decreases pairs, 0
    {
      hide NoFloat, StrText, PairsText;
      EmptyPairs(style);
      out := out + "{";
      ghost var start := out;
      for i := 0 to |pairs|
        invariant path == old(path) && out == start + PairsText(pairs[..i], style)
      {
        ghost var before := PairsText(pairs[..i], style);
        WriteKey(i == 0, pairs[i].key);
        WriteDoc(pairs[i].value);
        PairsSnocAt(pairs, i, style);
        CatAssociates(start, before, (if i == 0 then "" else style.itemSep) + PairText(pairs[i], style));
      }
      assert pairs[..|pairs|] == pairs;
      out := out + "}";
      CatAssociates(old(out), "{", PairsText(pairs, style) + "}");
    }
  }

  lemma CatAssociates(a: string, b: string, c: string)
    ensures a + b + c == a + (b + c)
  {
  }

  lemma EmptyPairs(st: Style)
    ensures PairsText([], st) == ""
  {
  }

  lemma {:induction false} PairsSnocAt(pairs: seq<Pair>, i: nat, st: Style)
    requires i < |pairs|
    ensures PairsText(pairs[..i + 1], st)
            == PairsText(pairs[..i], st) + ((if i == 0 then "" else st.itemSep) + PairText(pairs[i], st))
  {
    hide PairText, PairsText;
    PairsSnoc(pairs[..i], pairs[i], st);
    assert pairs[..i + 1] == pairs[..i] + [pairs[i]];
  }

  /** A float below field `i`, when the fields before have none, is the answer of the whole object;
      no float below it moves the search on. */
  lemma PairAnswer(pairs: seq<Pair>, i: nat, path: seq<string>)
    requires i < |pairs| && FirstInPairs(pairs, 0) == FirstInPairs(pairs, i)
    ensures var w := Answer(pairs[i].value, path + [pairs[i].key]);
            if w.Done? then FirstInPairs(pairs, 0) == FirstInPairs(pairs, i + 1) else Answer(Dict(pairs), path) == w
  {
    hide FormatPath;
    if FirstFloat(pairs[i].value).Some? {
      var p := FirstFloat(pairs[i].value).value;
      assert ([i] + p)[1..] == p;
      var key := pairs[i].key;
      assert path + ([key] + Names(pairs[i].value, p)) == path + [key] + Names(pairs[i].value, p);
    }
  }

  lemma DoneWithPairs(pairs: seq<Pair>, path: seq<string>)
    requires FirstInPairs(pairs, 0) == FirstInPairs(pairs, |pairs|)
    ensures Answer(Dict(pairs), path) == Done
  {
  }

  lemma ListText(items: seq<Doc>, st: Style)
    ensures Text(List(items), st) == "[" + ItemsText(items, st) + "]"
  {
  }

  lemma EmptyItems(st: Style)
    ensures ItemsText([], st) == ""
  {
  }

  lemma {:induction false} ItemsSnocAt(docs: seq<Doc>, i: nat, st: Style)
    requires i < |docs|
    ensures ItemsText(docs[..i + 1], st)
            == ItemsText(docs[..i], st) + ((if i == 0 then "" else st.itemSep) + Text(docs[i], st))
  {
    hide Text, ItemsText;
    ItemsSnoc(docs[..i], docs[i], st);
    assert docs[..i + 1] == docs[..i] + [docs[i]];
  }

  lemma ItemAnswer(docs: seq<Doc>, i: nat, path: seq<string>)
    requires i < |docs| && FirstInItems(docs, 0) == FirstInItems(docs, i)
    ensures var w := Answer(docs[i], path + [NatText(i)]);
            if w.Done? then FirstInItems(docs, 0) == FirstInItems(docs, i + 1) else Answer(List(docs), path) == w
  {
    hide FormatPath;
    if FirstFloat(docs[i]).Some? {
      var p := FirstFloat(docs[i]).value;
      assert ([i] + p)[1..] == p;
      assert path + ([NatText(i)] + Names(docs[i], p)) == path + [NatText(i)] + Names(docs[i], p);
    }
  }

  lemma DoneWithItems(docs: seq<Doc>, path: seq<string>)
    requires FirstInItems(docs, 0) == FirstInItems(docs, |docs|)
    ensures Answer(List(docs), path) == Done
  {
  }

  lemma ListUnfolds(v: Value, st: Style)
    requires v.VArr?
    ensures Canon(v).List? && |Canon(v).items| == |v.items|
    ensures forall i :: 0 <= i < |v.items| ==> Canon(v).items[i] == Canon(v.items[i])
    ensures Canon(v) == List(Canon(v).items)
    ensures Text(Canon(v), st) == "[" + ItemsText(Canon(v).items, st) + "]"
  {
  }

  lemma DictUnfolds(v: Value, st: Style)
    requires v.VObj?
    ensures var keys := SortedKeys(v.fields.Keys);
            && Canon(v).Dict? && |Canon(v).pairs| == |keys|
            && forall i :: 0 <= i < |keys| ==>
                 keys[i] in v.fields && Canon(v).pairs[i] == Pair(keys[i], Canon(v.fields[keys[i]]))
    ensures Canon(v) == Dict(Canon(v).pairs)
    ensures Text(Canon(v), st) == "{" + PairsText(Canon(v).pairs, st) + "}"
  {
    forall i | 0 <= i < |SortedKeys(v.fields.Keys)| ensures SortedKeys(v.fields.Keys)[i] in v.fields {
      assert SortedKeys(v.fields.Keys)[i] in SortedKeys(v.fields.Keys);
    }
  }

  // ----- canonical_json -------------------------------------------------------------------------------

  /** canonical_json: `text` is meaningful only when the answer is `Done`. */
  method CanonicalText(v: Value) returns (w: Written, text: string)
    ensures w == Answer(Canon(v), [])
    ensures w.Done? ==> text == Text(Canon(v), COMPACT)
  {
    var writer := new JsonWriter(COMPACT);
    w := writer.WriteValue(v);
    text := writer.out;
  }

  /** A value in which no float occurs. */
  ghost predicate IntegerOnly(v: Value) { NoFloat(Canon(v)) }

  /** canonical_json fails exactly when a float occurs anywhere, and the error names the first one in
      sorted key order. */
  lemma FailsExactlyOnFloat(v: Value)
    ensures Answer(Canon(v), []).Done? <==> IntegerOnly(v)
    ensures !IntegerOnly(v) ==>
              exists p :: && FloatAt(Canon(v), p)
                          && (forall q :: FloatAt(Canon(v), q) ==> NotAfter(p, q))
                          && Answer(Canon(v), []) == NonIntegerNumber(FormatPath(Names(Canon(v), p)))
  {
    NoFloatIffNone(Canon(v));
    FirstFloatIsFirst(Canon(v));
    if !IntegerOnly(v) {
      var p := FirstFloat(Canon(v)).value;
      assert [] + Names(Canon(v), p) == Names(Canon(v), p);
      assert FloatAt(Canon(v), p);
    }
  }

  /** Reading one value off the front of a text. */
  function ReadValue(s: string): Parsed<Value> {
    match ParseDoc(s)
    case Fail => Fail
    case Got(d, rest) => Got(FromDoc(d), rest)
  }

  /** The parser returns exactly the value that was written and exactly what followed it; a value that
      is itself an integer must not be followed by another digit. */
  lemma CanonicalComesBack(v: Value, st: Style, rest: string)
    requires Known(st) && IntegerOnly(v) && (v.VInt? ==> NoDigitNext(rest))
    ensures ReadValue(Text(Canon(v), st) + rest) == Got(v, rest)
  {
    DocComesBack(Canon(v), st, rest);
    CanonComesBack(v);
  }

  /** The canonical form is injective: equal texts, hence equal idempotency keys, mean equal values.
      Objects are maps here, so insertion order plays no part. */
  lemma CanonicalIsInjective(v: Value, w: Value, st: Style)
    requires Known(st) && IntegerOnly(v) && IntegerOnly(w)
    ensures Text(Canon(v), st) == Text(Canon(w), st) <==> v == w
  {
    CanonicalComesBack(v, st, "");
    CanonicalComesBack(w, st, "");
  }

  // ----- budget metadata --------------------------------------------------------------------------------

  /** metadata_json: nothing for an absent or empty object, an error for anything but an object. */
  method MetadataJson(metadata: Option<Value>) returns (r: Result<Option<string>>)
    ensures r.Ok? <==> metadata.Some? ==> metadata.value.VObj? && IntegerOnly(metadata.value)
    ensures r.Ok? ==>
              (r.value.Some? <==> metadata.Some? && metadata.value.fields != map[])
    ensures r.Ok? && r.value.Some? ==>
              Printable(r.value.value) && ReadValue(r.value.value) == Got(metadata.value, "")
  {
    if metadata.None? { return Ok(None); }
    var v := metadata.value;
    if !v.VObj? { return Err; }
    NoFloatIffNone(Canon(v));
    if v.fields == map[] {
      assert Canon(v) == Dict([]);
      return Ok(None);
    }
    var writer := new JsonWriter(PYTHON);
    var w := writer.WriteValue(v);
    if w.NonIntegerNumber? { return Err; }
    CanonicalComesBack(v, PYTHON, "");
    assert writer.out == Text(Canon(v), PYTHON) == Text(Canon(v), PYTHON) + "";
    PythonTextIsPrintable(Canon(v));
    return Ok(Some(writer.out));
  }

  // ----- telemetry ------------------------------------------------------------------------------------------

  predicate HasKey(pairs: seq<Pair>, key: string) {
    exists i :: 0 <= i < |pairs| && pairs[i].key == key
  }

  function Stamped(payload: seq<Pair>, now: int): seq<Pair> {
    if HasKey(payload, "timestamp") then payload else payload + [Pair("timestamp", Int(now))]
  }

  datatype Envelope = Encoded(text: string) | ErrorKeyPresent | TooLarge(bytes: nat)

  /** datastore_envelope: a reserved key, then the timestamp, then the size cap. What is sent is
      printable ASCII, within the cap, and reads back as the stamped payload. */
  method DatastoreEnvelope(payload: seq<Pair>, now: int, maxBytes: nat) returns (r: Envelope)
    requires NoFloat(Dict(payload))
    ensures r.ErrorKeyPresent? <==> HasKey(payload, "error")
    ensures r.TooLarge? <==> !HasKey(payload, "error") && |Text(Dict(Stamped(payload, now)), PYTHON)| > maxBytes
    ensures r.TooLarge? ==> r.bytes == |Text(Dict(Stamped(payload, now)), PYTHON)|
    ensures r.Encoded? ==>
              && |r.text| <= maxBytes
              && Printable(r.text)
              && ParseDoc(r.text) == Got(Dict(Stamped(payload, now)), "")
  {
    if HasKey(payload, "error") { return ErrorKeyPresent; }
    var stamped := Dict(Stamped(payload, now));
    var writer := new JsonWriter(PYTHON);
    writer.WriteDoc(stamped);
    if |writer.out| > maxBytes { return TooLarge(|writer.out|); }
    DocComesBack(stamped, PYTHON, "");
    assert writer.out == Text(stamped, PYTHON) == Text(stamped, PYTHON) + "";
    PythonTextIsPrintable(stamped);
    return Encoded(writer.out);
  }
}
