/** Text and amount normalisation of crates/revops-db/src/budget.rs. */
module Normal {

  const MAX_AMOUNT_SATS := 10_000_000_000

  /** Unicode White_Space, what Rust's `trim` strips. */
  predicate IsSpace(c: char) {
    || '\t' <= c <= '\r' || c == ' ' || c == '\U{85}' || c == '\U{A0}' || c == '\U{1680}'
    || '\U{2000}' <= c <= '\U{200A}' || c == '\U{2028}' || c == '\U{2029}' || c == '\U{202F}'
    || c == '\U{205F}' || c == '\U{3000}'
  }

  function TrimStart(s: string): (r: string)
    ensures r != [] ==> !IsSpace(r[0])
    ensures |r| <= |s| && r == s[|s| - |r|..]
  {
    if s != [] && IsSpace(s[0]) then TrimStart(s[1..]) else s
  }

  function TrimEnd(s: string): (r: string)
    ensures r != [] ==> !IsSpace(r[|r| - 1])
    ensures |r| <= |s| && r == s[..|r|]
  {
    if s != [] && IsSpace(s[|s| - 1]) then TrimEnd(s[..|s| - 1]) else s
  }

  function Trim(s: string): (r: string)
    ensures r != [] ==> !IsSpace(r[0]) && !IsSpace(r[|r| - 1])
  {
    TrimEnd(TrimStart(s))
  }

  predicate Trimmed(s: string) {
    s == [] || (!IsSpace(s[0]) && !IsSpace(s[|s| - 1]))
  }

  /** `to_lowercase` on ASCII letters. */
  function LowerChar(c: char): char {
    if 'A' <= c <= 'Z' then ((c as int) - ('A' as int) + ('a' as int)) as char else c
  }

  function Lower(s: string): (r: string)
    ensures |r| == |s|
  {
    seq(|s|, i requires 0 <= i < |s| => LowerChar(s[i]))
  }

  /** The category as it is stored. */
  function Category(s: string): string { Lower(Trim(s)) }

  lemma LowerCharIsStable(c: char)
    ensures LowerChar(LowerChar(c)) == LowerChar(c) && IsSpace(LowerChar(c)) == IsSpace(c)
  {
  }

  lemma LowerIsStable(s: string)
    ensures Lower(Lower(s)) == Lower(s) && (Trimmed(s) ==> Trimmed(Lower(s)))
  {
    forall i | 0 <= i < |s| ensures Lower(Lower(s))[i] == Lower(s)[i] && IsSpace(Lower(s)[i]) == IsSpace(s[i]) {
      LowerCharIsStable(s[i]);
    }
  }

  lemma TrimOfTrimmed(s: string)
    requires Trimmed(s)
    ensures Trim(s) == s
  {
  }

  /** Normalising a stored category again changes nothing. */
  lemma CategoryIsStable(s: string)
    ensures Category(Category(s)) == Category(s)
  {
    LowerIsStable(Trim(s));
    TrimOfTrimmed(Category(s));
  }

  /** Magnitudes above the cap are clamped, keeping the sign. */
  function SanitizeAmount(a: int): (r: int)
    ensures -MAX_AMOUNT_SATS <= r <= MAX_AMOUNT_SATS
    ensures (0 < a <==> 0 < r) && (a >= 0 ==> r <= a)
    ensures -MAX_AMOUNT_SATS <= a <= MAX_AMOUNT_SATS ==> r == a
  {
    if a > MAX_AMOUNT_SATS then MAX_AMOUNT_SATS
    else if a < -MAX_AMOUNT_SATS then -MAX_AMOUNT_SATS
    else a
  }

  function SettlementId(rid: string): string { "resv:" + rid }

  /** A settlement event keeps its id through the event writer's own trim. */
  lemma SettlementIdIsTrimmed(rid: string)
    requires Trimmed(rid) && rid != ""
    ensures Trim(SettlementId(rid)) == SettlementId(rid) != ""
  {
    var s := SettlementId(rid);
    assert s[0] == 'r' && s[|s| - 1] == rid[|rid| - 1];
  }
}
