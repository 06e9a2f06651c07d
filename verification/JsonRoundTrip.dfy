/** The parser undoes the writers: for every document without a float, in either style. */
module JsonRoundTrip {
  import opened JsonText

  ghost predicate NoFloat(d: Doc)
    decreases d
  {
    match d
    case Float => false
    case List(items) => forall i :: 0 <= i < |items| ==> NoFloat(items[i])
    case Dict(pairs) => forall i :: 0 <= i < |pairs| ==> NoFloat(pairs[i].value)
    case _ => true
  }

  ghost predicate Known(st: Style) { st == COMPACT || st == PYTHON }

  lemma {:induction false} CharsComeBack(s: string, asciiOnly: bool, rest: string)
    ensures ParseChars(CharsText(s, asciiOnly) + "\"" + rest) == Got(s, rest)
  {
    hide ParseChar, CharText;
    var text := CharsText(s, asciiOnly) + "\"" + rest;
    if s == "" {
      assert text == "\"" + rest;
      assert text[1..] == rest;
    } else {
      var tail := CharsText(s[1..], asciiOnly) + "\"" + rest;
      assert text == CharText(s[0], asciiOnly) + tail;
      CharComesBack(s[0], asciiOnly, tail);
      CharsComeBack(s[1..], asciiOnly, rest);
      assert [s[0]] + s[1..] == s;
    }
  }

  lemma StrComesBack(s: string, asciiOnly: bool, rest: string)
    ensures var text := StrText(s, asciiOnly) + rest;
            text != "" && text[0] == '"' && ParseChars(text[1..]) == Got(s, rest)
  {
    var text := StrText(s, asciiOnly) + rest;
    assert text[1..] == CharsText(s, asciiOnly) + "\"" + rest;
    CharsComeBack(s, asciiOnly, rest);
  }

  /** A document never starts with a character that closes or separates. */
  predicate Opens(s: string) {
    s != "" && s[0] != ' ' && s[0] != ']' && s[0] != '}' && s[0] != ','
  }

  lemma TextOpens(d: Doc, st: Style)
    requires NoFloat(d)
    ensures Opens(Text(d, st))
  {
  }

  /** What may follow `d` without being read into it. */
  predicate EndsBefore(d: Doc, rest: string) { d.Int? ==> NoDigitNext(rest) }

  lemma {:induction false} DocComesBack(d: Doc, st: Style, rest: string)
    requires Known(st) && NoFloat(d) && EndsBefore(d, rest)
    ensures ParseDoc(Text(d, st) + rest) == Got(d, rest)
    decreases d, 1
  {
    var s := Text(d, st) + rest;
    match d {
      case Null => assert s[..4] == "null" && s[4..] == rest;
      case Bool(b) => BoolComesBack(b, st, rest);
      case Int(n) => IntDocComesBack(n, st, rest);
      case Str(t) => StrComesBack(t, st.asciiOnly, rest);
      case List(items) => ListComesBack(items, st, rest);
      case Dict(pairs) => DictComesBack(pairs, st, rest);
    }
  }

  lemma BoolComesBack(b: bool, st: Style, rest: string)
    ensures ParseDoc(Text(Bool(b), st) + rest) == Got(Bool(b), rest)
  {
    var s := Text(Bool(b), st) + rest;
    if b {
      assert s[..4] == "true" && s[4..] == rest;
    } else {
      assert s[..5] == "false" && s[5..] == rest;
    }
  }

  lemma IntDocComesBack(n: int, st: Style, rest: string)
    requires NoDigitNext(rest)
    ensures ParseDoc(Text(Int(n), st) + rest) == Got(Int(n), rest)
  {
    hide IntText, ParseInt;
    IntComesBack(n, rest);
    var s := IntText(n) + rest;
    assert s[0] == IntText(n)[0];
  }

  lemma {:induction false} ListComesBack(items: seq<Doc>, st: Style, rest: string)
    requires Known(st) && forall i :: 0 <= i < |items| ==> NoFloat(items[i])
    ensures ParseDoc(Text(List(items), st) + rest) == Got(List(items), rest)
    decreases items, 2
  {
    var s := Text(List(items), st) + rest;
    if items == [] {
      assert s == "[]" + rest && s[2..] == rest;
    } else {
      assert s == "[" + (ItemsText(items, st) + "]" + rest);
      assert s[1..] == ItemsText(items, st) + "]" + rest;
      TextOpens(items[0], st);
      ItemsComeBack(items, st, rest);
    }
  }

  lemma {:induction false} DictComesBack(pairs: seq<Pair>, st: Style, rest: string)
    requires Known(st) && forall i :: 0 <= i < |pairs| ==> NoFloat(pairs[i].value)
    ensures ParseDoc(Text(Dict(pairs), st) + rest) == Got(Dict(pairs), rest)
    decreases pairs, 2
  {
    hide PairsText, ParsePairs, NoFloat;
    var s := Text(Dict(pairs), st) + rest;
    if pairs == [] {
      EmptyPairsText(st);
      assert s == "{}" + rest && s[2..] == rest;
    } else {
      assert s == "{" + (PairsText(pairs, st) + "}" + rest);
      assert s[1..] == PairsText(pairs, st) + "}" + rest;
      PairsComeBack(pairs, st, rest);
    }
  }

  lemma EmptyPairsText(st: Style)
    ensures PairsText([], st) == ""
  {
  }

  /** A separator's own mark is consumed and its space skipped. */
  lemma SeparatorSkips(st: Style, next: string)
    requires Known(st) && Opens(next)
    ensures var a := st.itemSep + next; a[0] == ',' && SkipSpace(a[1..]) == next
    ensures var b := st.keySep + next; b[0] == ':' && SkipSpace(b[1..]) == next
  {
    var a, b := st.itemSep + next, st.keySep + next;
    if st == COMPACT {
      assert a[1..] == next && b[1..] == next;
    } else {
      assert a[1..] == " " + next && b[1..] == " " + next;
      assert a[1..][1..] == next && b[1..][1..] == next;
    }
  }

  lemma {:induction false} ItemsComeBack(items: seq<Doc>, st: Style, rest: string)
    requires Known(st) && items != [] && forall i :: 0 <= i < |items| ==> NoFloat(items[i])
    ensures ParseItems(ItemsText(items, st) + "]" + rest) == Got(items, rest)
    ensures Opens(ItemsText(items, st))
    decreases items, 1
  {
    hide Text;
    TextOpens(items[0], st);
    var s := ItemsText(items, st) + "]" + rest;
    if |items| == 1 {
      assert s == Text(items[0], st) + ("]" + rest);
      assert ("]" + rest)[1..] == rest;
      DocComesBack(items[0], st, "]" + rest);
      assert items == [items[0]];
    } else {
      var next := ItemsText(items[1..], st) + "]" + rest;
      assert s == Text(items[0], st) + (st.itemSep + next);
      ItemsComeBack(items[1..], st, rest);
      SeparatorSkips(st, next);
      DocComesBack(items[0], st, st.itemSep + next);
      assert [items[0]] + items[1..] == items;
    }
  }

  lemma {:induction false} PairComesBack(p: Pair, st: Style, rest: string)
    requires Known(st) && NoFloat(p.value) && EndsBefore(p.value, rest)
    ensures ParsePair(PairText(p, st) + rest) == Got(p, rest)
    decreases p, 1
  {
    hide Text, ParseChars, StrText;
    var next := Text(p.value, st) + rest;
    TextOpens(p.value, st);
    assert PairText(p, st) + rest == StrText(p.key, st.asciiOnly) + (st.keySep + next);
    StrComesBack(p.key, st.asciiOnly, st.keySep + next);
    SeparatorSkips(st, next);
    DocComesBack(p.value, st, rest);
  }

  lemma PairOpens(p: Pair, st: Style)
    ensures PairText(p, st) != "" && PairText(p, st)[0] == '"'
  {
    hide Text;
  }

  lemma {:induction false} PairsComeBack(pairs: seq<Pair>, st: Style, rest: string)
    requires Known(st) && pairs != [] && forall i :: 0 <= i < |pairs| ==> NoFloat(pairs[i].value)
    ensures ParsePairs(PairsText(pairs, st) + "}" + rest) == Got(pairs, rest)
    ensures Opens(PairsText(pairs, st)) && PairsText(pairs, st)[0] == '"'
    decreases pairs, 1
  {
    hide Text, ParsePair, NoFloat, StrText;
    var s := PairsText(pairs, st) + "}" + rest;
    PairOpens(pairs[0], st);
    if |pairs| == 1 {
      assert s == PairText(pairs[0], st) + ("}" + rest);
      assert ("}" + rest)[1..] == rest;
      PairComesBack(pairs[0], st, "}" + rest);
      assert pairs == [pairs[0]];
    } else {
      var next := PairsText(pairs[1..], st) + "}" + rest;
      assert s == PairText(pairs[0], st) + (st.itemSep + next);
      PairsComeBack(pairs[1..], st, rest);
      SeparatorSkips(st, next);
      PairComesBack(pairs[0], st, st.itemSep + next);
      assert [pairs[0]] + pairs[1..] == pairs;
    }
  }

  /** Equal texts mean equal documents. */
  lemma TextIsInjective(d: Doc, e: Doc, st: Style)
    requires Known(st) && NoFloat(d) && NoFloat(e) && Text(d, st) == Text(e, st)
    ensures d == e
  {
    DocComesBack(d, st, "");
    DocComesBack(e, st, "");
  }

  // ----- the ASCII writers ---------------------------------------------------------------------------

  ghost predicate Printable(s: string) { forall i :: 0 <= i < |s| ==> ' ' <= s[i] <= '~' }

  lemma CharIsPrintable(c: char)
    ensures Printable(CharText(c, true))
  {
  }

  lemma {:induction false} CharsArePrintable(s: string)
    ensures Printable(CharsText(s, true))
  {
    if s != "" {
      CharIsPrintable(s[0]);
      CharsArePrintable(s[1..]);
    }
  }

  /** The ASCII writers emit nothing but printable ASCII. */
  lemma {:induction false} PythonTextIsPrintable(d: Doc)
    requires NoFloat(d)
    ensures Printable(Text(d, PYTHON))
    decreases d, 1
  {
    match d {
      case Str(s) => CharsArePrintable(s);
      case List(items) => ItemsArePrintable(items);
      case Dict(pairs) => PairsArePrintable(pairs);
      case _ =>
    }
  }

  lemma {:induction false} ItemsArePrintable(items: seq<Doc>)
    requires forall i :: 0 <= i < |items| ==> NoFloat(items[i])
    ensures Printable(ItemsText(items, PYTHON))
    decreases items, 0
  {
    hide Text;
    if items != [] {
      PythonTextIsPrintable(items[0]);
      ItemsArePrintable(items[1..]);
    }
  }

  lemma {:induction false} PairsArePrintable(pairs: seq<Pair>)
    requires forall i :: 0 <= i < |pairs| ==> NoFloat(pairs[i].value)
    ensures Printable(PairsText(pairs, PYTHON))
    decreases pairs, 0
  {
    hide Text, CharsText;
    if pairs != [] {
      CharsArePrintable(pairs[0].key);
      assert pairs[0].value < pairs[0];
      PythonTextIsPrintable(pairs[0].value);
      PairsArePrintable(pairs[1..]);
    }
  }
}
