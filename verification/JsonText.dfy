/**
  JSON documents with ordered fields, the text the three writers produce for them, and one reader that
  undoes all three. It reads the grammar of RFC 8259 without fractions and exponents, and lets a number start
  with zeros.
*/
module JsonText {
  import opened Outcomes

  datatype Pair = Pair(key: string, value: Doc)

  /** `Float` is a number the writers refuse (or, in telemetry, one this model leaves out). */
  datatype Doc =
    | Null
    | Bool(b: bool)
    | Int(n: int)
    | Float
    | Str(s: string)
    | List(items: seq<Doc>)
    | Dict(pairs: seq<Pair>)

  datatype Style = Style(itemSep: string, keySep: string, asciiOnly: bool)

  /** crates/revops-core/src/canonical.rs: compact, non-ASCII passed through. */
  const COMPACT := Style(",", ":", false)

  /** json.dumps defaults, in budget.rs and telemetry.rs: spaced and ASCII only. */
  const PYTHON := Style(", ", ": ", true)

  // ----- writing ---------------------------------------------------------------------------------

  function Digit(d: nat): char
    requires d < 10
  {
    ('0' as int + d) as char
  }

  function NatText(n: nat): (t: string)
    ensures t != "" && forall i :: 0 <= i < |t| ==> IsDigit(t[i])
  {
    if n < 10 then [Digit(n)] else NatText(n / 10) + [Digit(n % 10)]
  }

  function IntText(n: int): (t: string)
    ensures t != "" && (t[0] == '-' || IsDigit(t[0]))
  {
    if n < 0 then "-" + NatText(-n) else NatText(n)
  }

  function HexDigit(d: nat): char
    requires d < 16
  {
    if d < 10 then ('0' as int + d) as char else ('a' as int + d - 10) as char
  }

  /** \uXXXX */
  function Escape16(u: nat): (t: string)
    requires u < 0x10000
    ensures |t| == 6
  {
    ['\\', 'u', HexDigit(u / 4096), HexDigit(u / 256 % 16), HexDigit(u / 16 % 16), HexDigit(u % 16)]
  }

  /** One code point as one escape, or as a surrogate pair above the basic plane. */
  function UnicodeEscape(c: char): string {
    var u := c as int;
    if u > 0xFFFF then
      var v := u - 0x10000;
      Escape16(0xD800 + v / 1024) + Escape16(0xDC00 + v % 1024)
    else Escape16(u)
  }

  function CharText(c: char, asciiOnly: bool): string {
    if c == '"' then "\\\""
    else if c == '\\' then "\\\\"
    else if c == '\n' then "\\n"
    else if c == '\t' then "\\t"
    else if c == '\r' then "\\r"
    else if c == '\U{8}' then "\\b"
    else if c == '\U{C}' then "\\f"
    else if c < ' ' || (asciiOnly && c >= '\U{7F}') then UnicodeEscape(c)
    else [c]
  }

  function CharsText(s: string, asciiOnly: bool): string {
    if s == "" then "" else CharText(s[0], asciiOnly) + CharsText(s[1..], asciiOnly)
  }

  function StrText(s: string, asciiOnly: bool): string {
    "\"" + CharsText(s, asciiOnly) + "\""
  }

  function Text(d: Doc, st: Style): string
    decreases d, 1
  {
    match d
    case Null => "null"
    case Bool(b) => if b then "true" else "false"
    case Int(n) => IntText(n)
    case Float => ""
    case Str(s) => StrText(s, st.asciiOnly)
    case List(items) => "[" + ItemsText(items, st) + "]"
    case Dict(pairs) => "{" + PairsText(pairs, st) + "}"
  }

  function ItemsText(items: seq<Doc>, st: Style): string
    decreases items, 0
  {
    if items == [] then ""
    else if |items| == 1 then Text(items[0], st)
    else Text(items[0], st) + st.itemSep + ItemsText(items[1..], st)
  }

  function PairText(p: Pair, st: Style): string
    decreases p, 0
  {
    StrText(p.key, st.asciiOnly) + st.keySep + Text(p.value, st)
  }

  function PairsText(pairs: seq<Pair>, st: Style): string
    decreases pairs, 0
  {
    if pairs == [] then ""
    else if |pairs| == 1 then PairText(pairs[0], st)
    else PairText(pairs[0], st) + st.itemSep + PairsText(pairs[1..], st)
  }

  // ----- parsing ------------------------------------------------------------------------------------

  predicate IsDigit(c: char) { '0' <= c <= '9' }

  function DigitValue(c: char): nat
    requires IsDigit(c)
  {
    c as int - '0' as int
  }

  datatype Parsed<+T> = Fail | Got(value: T, rest: string)

  /** Reads the longest run of digits, continuing from `acc`. */
  function ParseDigits(s: string, acc: nat): (r: (nat, string))
    ensures |r.1| <= |s|
  {
    if s != "" && IsDigit(s[0]) then ParseDigits(s[1..], 10 * acc + DigitValue(s[0])) else (acc, s)
  }

  function ParseInt(s: string): (r: Parsed<int>)
    ensures r.Got? ==> |r.rest| < |s|
  {
    if s != "" && IsDigit(s[0]) then
      var (n, rest) := ParseDigits(s[1..], DigitValue(s[0]));
      Got(n, rest)
    else if |s| > 1 && s[0] == '-' && IsDigit(s[1]) then
      var (n, rest) := ParseDigits(s[2..], DigitValue(s[1]));
      var negative: int := 0 - (n as int);
      Got(negative, rest)
    else Fail
  }

  function HexValue(c: char): Option<nat> {
    if IsDigit(c) then Some(DigitValue(c))
    else if 'a' <= c <= 'f' then Some(c as int - 'a' as int + 10)
    else if 'A' <= c <= 'F' then Some(c as int - 'A' as int + 10)
    else None
  }

  /** The code unit of a \uXXXX escape at the front of `s`. */
  function ParseEscape16(s: string): (r: Parsed<nat>)
    ensures r.Got? ==> |s| >= 6 && r.rest == s[6..] && r.value < 0x10000
  {
    if |s| < 6 || s[0] != '\\' || s[1] != 'u' then Fail
    else
      var a, b, c, d := HexValue(s[2]), HexValue(s[3]), HexValue(s[4]), HexValue(s[5]);
      if a.None? || b.None? || c.None? || d.None? then Fail
      else Got(4096 * a.value + 256 * b.value + 16 * c.value + d.value, s[6..])
  }

  /** An escape, or a high and a low surrogate that together name one code point. */
  function ParseUnicode(s: string): (r: Parsed<char>)
    ensures r.Got? ==> |r.rest| < |s|
  {
    match ParseEscape16(s)
    case Fail => Fail
    case Got(u, rest) =>
      if 0xDC00 <= u < 0xE000 then Fail
      else if 0xD800 <= u < 0xDC00 then
        match ParseEscape16(rest)
        case Fail => Fail
        case Got(w, rest') =>
          if 0xDC00 <= w < 0xE000 then Got((0x10000 + (u - 0xD800) * 1024 + (w - 0xDC00)) as char, rest') else Fail
      else Got(u as char, rest)
  }

  function ParseChar(s: string): (r: Parsed<char>)
    ensures r.Got? ==> |r.rest| < |s|
  {
    if s == "" || s[0] < ' ' then Fail
    else if s[0] != '\\' then Got(s[0], s[1..])
    else if |s| < 2 then Fail
    else if s[1] == '"' then Got('"', s[2..])
    else if s[1] == '\\' then Got('\\', s[2..])
    else if s[1] == '/' then Got('/', s[2..])
    else if s[1] == 'n' then Got('\n', s[2..])
    else if s[1] == 't' then Got('\t', s[2..])
    else if s[1] == 'r' then Got('\r', s[2..])
    else if s[1] == 'b' then Got('\U{8}', s[2..])
    else if s[1] == 'f' then Got('\U{C}', s[2..])
    else ParseUnicode(s)
  }

  /** The characters up to the closing quote, which is consumed. */
  function ParseChars(s: string): (r: Parsed<string>)
    ensures r.Got? ==> |r.rest| < |s|
    decreases |s|
  {
    if s == "" then Fail
    else if s[0] == '"' then Got("", s[1..])
    else
      match ParseChar(s)
      case Fail => Fail
      case Got(c, rest) =>
        match ParseChars(rest)
        case Fail => Fail
        case Got(cs, rest') => Got([c] + cs, rest')
  }

  function SkipSpace(s: string): (r: string)
    ensures |r| <= |s|
  {
    if s != "" && s[0] == ' ' then SkipSpace(s[1..]) else s
  }

  predicate StartsWith(s: string, t: string) { |t| <= |s| && s[..|t|] == t }

  function ParseDoc(s: string): (r: Parsed<Doc>)
    ensures r.Got? ==> |r.rest| < |s|
    decreases |s|, 2
  {
    if s == "" then Fail
    else if s[0] == '"' then
      match ParseChars(s[1..])
      case Fail => Fail
      case Got(t, rest) => Got(Str(t), rest)
    else if s[0] == '[' then
      if |s| > 1 && s[1] == ']' then Got(List([]), s[2..])
      else
        match ParseItems(s[1..])
        case Fail => Fail
        case Got(items, rest) => Got(List(items), rest)
    else if s[0] == '{' then
      if |s| > 1 && s[1] == '}' then Got(Dict([]), s[2..])
      else
        match ParsePairs(s[1..])
        case Fail => Fail
        case Got(pairs, rest) => Got(Dict(pairs), rest)
    else if StartsWith(s, "null") then Got(Null, s[4..])
    else if StartsWith(s, "true") then Got(Bool(true), s[4..])
    else if StartsWith(s, "false") then Got(Bool(false), s[5..])
    else
      match ParseInt(s)
      case Fail => Fail
      case Got(n, rest) => Got(Int(n), rest)
  }

  /** One or more values up to the closing bracket. */
  function ParseItems(s: string): (r: Parsed<seq<Doc>>)
    ensures r.Got? ==> |r.rest| < |s|
    decreases |s|, 3
  {
    match ParseDoc(s)
    case Fail => Fail
    case Got(d, rest) =>
      if rest == "" then Fail
      else if rest[0] == ']' then Got([d], rest[1..])
      else if rest[0] != ',' then Fail
      else
        match ParseItems(SkipSpace(rest[1..]))
        case Fail => Fail
        case Got(ds, rest') => Got([d] + ds, rest')
  }

  function ParsePair(s: string): (r: Parsed<Pair>)
    ensures r.Got? ==> |r.rest| < |s|
    decreases |s|, 3
  {
    if s == "" || s[0] != '"' then Fail
    else
      match ParseChars(s[1..])
      case Fail => Fail
      case Got(key, rest) =>
        if rest == "" || rest[0] != ':' then Fail
        else
          match ParseDoc(SkipSpace(rest[1..]))
          case Fail => Fail
          case Got(d, rest') => Got(Pair(key, d), rest')
  }

  /** One or more fields up to the closing brace. */
  function ParsePairs(s: string): (r: Parsed<seq<Pair>>)
    ensures r.Got? ==> |r.rest| < |s|
    decreases |s|, 4
  {
    match ParsePair(s)
    case Fail => Fail
    case Got(p, rest) =>
      if rest == "" then Fail
      else if rest[0] == '}' then Got([p], rest[1..])
      else if rest[0] != ',' then Fail
      else
        match ParsePairs(SkipSpace(rest[1..]))
        case Fail => Fail
        case Got(ps, rest') => Got([p] + ps, rest')
  }

  // ----- numbers come back ---------------------------------------------------------------------------

  predicate NoDigitNext(rest: string) { rest == "" || !IsDigit(rest[0]) }

  /** Value of a digit string continuing from `acc`. */
  function Fold(acc: nat, t: string): nat
    requires forall i :: 0 <= i < |t| ==> IsDigit(t[i])
  {
    if t == "" then acc else 10 * Fold(acc, t[..|t| - 1]) + DigitValue(t[|t| - 1])
  }

  lemma {:induction false} FoldFront(acc: nat, t: string)
    requires t != "" && forall i :: 0 <= i < |t| ==> IsDigit(t[i])
    ensures Fold(acc, t) == Fold(10 * acc + DigitValue(t[0]), t[1..])
  {
    if |t| > 1 {
      FoldFront(acc, t[..|t| - 1]);
      assert t[..|t| - 1][1..] == t[1..][..|t| - 2];
    }
  }

  lemma {:induction false} DigitsComeBack(t: string, acc: nat, rest: string)
    requires NoDigitNext(rest) && forall i :: 0 <= i < |t| ==> IsDigit(t[i])
    ensures ParseDigits(t + rest, acc) == (Fold(acc, t), rest)
  {
    if t == "" {
      assert t + rest == rest;
    } else {
      assert (t + rest)[1..] == t[1..] + rest;
      FoldFront(acc, t);
      DigitsComeBack(t[1..], 10 * acc + DigitValue(t[0]), rest);
    }
  }

  lemma {:induction false} NatTextValue(n: nat)
    ensures Fold(0, NatText(n)) == n
  {
    if n < 10 {
      assert NatText(n)[..0] == "";
    } else {
      NatTextValue(n / 10);
      assert NatText(n)[..|NatText(n)| - 1] == NatText(n / 10);
    }
  }

  lemma {:induction false} TextComesBack(t: string, rest: string)
    requires t != "" && NoDigitNext(rest) && forall i :: 0 <= i < |t| ==> IsDigit(t[i])
    ensures ParseDigits((t + rest)[1..], DigitValue(t[0])) == (Fold(0, t), rest)
  {
    FoldFront(0, t);
    assert (t + rest)[1..] == t[1..] + rest;
    DigitsComeBack(t[1..], DigitValue(t[0]), rest);
  }

  lemma IntComesBack(n: int, rest: string)
    requires NoDigitNext(rest)
    ensures ParseInt(IntText(n) + rest) == Got(n, rest)
  {
    hide NatText, ParseDigits, Fold;
    var t := NatText(if n < 0 then -n else n);
    NatTextValue(if n < 0 then -n else n);
    TextComesBack(t, rest);
    if n < 0 {
      assert IntText(n) + rest == "-" + (t + rest);
      assert ("-" + (t + rest))[2..] == (t + rest)[1..];
      assert ("-" + (t + rest))[1] == t[0];
    }
  }

  // ----- strings come back -------------------------------------------------------------------------------

  lemma HexComesBack(d: nat)
    requires d < 16
    ensures HexValue(HexDigit(d)) == Some(d)
  {
  }

  lemma HexDigitsOf(u: nat)
    requires u < 0x10000
    ensures 4096 * (u / 4096) + 256 * (u / 256 % 16) + 16 * (u / 16 % 16) + u % 16 == u
  {
    var a := u / 16;
    var b := a / 16;
    assert u / 256 == b && u / 4096 == b / 16;
    assert u == 16 * a + u % 16 && a == 16 * b + a % 16 && b == 16 * (b / 16) + b % 16;
  }

  lemma Escape16ComesBack(u: nat, rest: string)
    requires u < 0x10000
    ensures ParseEscape16(Escape16(u) + rest) == Got(u, rest)
  {
    hide HexValue, HexDigit;
    var a, b, c, d := u / 4096, u / 256 % 16, u / 16 % 16, u % 16;
    HexComesBack(a);
    HexComesBack(b);
    HexComesBack(c);
    HexComesBack(d);
    HexDigitsOf(u);
    var s := Escape16(u) + rest;
    assert s[6..] == rest;
    assert s[2] == HexDigit(a) && s[3] == HexDigit(b) && s[4] == HexDigit(c) && s[5] == HexDigit(d);
  }

  /** Every code point above the basic plane survives the split into surrogates. */
  lemma UnicodeComesBack(c: char, rest: string)
    ensures ParseUnicode(UnicodeEscape(c) + rest) == Got(c, rest)
  {
    var u := c as int;
    if u > 0xFFFF {
      var v := u - 0x10000;
      var low := Escape16(0xDC00 + v % 1024) + rest;
      assert UnicodeEscape(c) + rest == Escape16(0xD800 + v / 1024) + low;
      Escape16ComesBack(0xD800 + v / 1024, low);
      Escape16ComesBack(0xDC00 + v % 1024, rest);
    } else {
      Escape16ComesBack(u, rest);
    }
  }

  lemma CharComesBack(c: char, asciiOnly: bool, rest: string)
    ensures var t := CharText(c, asciiOnly);
            t != "" && t[0] != '"' && ParseChar(t + rest) == Got(c, rest)
  {
    var t := CharText(c, asciiOnly);
    var s := t + rest;
    if |t| == 1 {
      assert s[1..] == rest;
    } else if |t| == 2 {
      assert s[2..] == rest;
    } else {
      hide ParseUnicode, Escape16;
      UnicodeComesBack(c, rest);
    }
  }
}
