/** Whitespace stripping. Python's `str.strip()` (used on received frames) and the Rust `trim`
    behind pydantic's `strip_whitespace` (used on slugs) differ only in the four separator
    characters U+001C..U+001F, which Python also counts as whitespace. */
module Text {

  /** Characters with the Unicode White_Space property. */
  predicate IsUnicodeWhiteSpace(c: char) {
    || '\t' <= c <= '\r' || c == ' ' || c == '\U{0085}' || c == '\U{00A0}' || c == '\U{1680}'
    || '\U{2000}' <= c <= '\U{200A}' || c == '\U{2028}' || c == '\U{2029}' || c == '\U{202F}'
    || c == '\U{205F}' || c == '\U{3000}'
  }

  /** What Python's `str.isspace` accepts for a single character. */
  predicate IsPythonSpace(c: char) {
    IsUnicodeWhiteSpace(c) || '\U{001C}' <= c <= '\U{001F}'
  }

  ghost predicate AllOf(s: string, ws: char -> bool) {
    forall i :: 0 <= i < |s| ==> ws(s[i])
  }

  /** How many characters at the front of `s` are in `ws`. */
  function Leading(s: string, ws: char -> bool): (k: nat)
    ensures k <= |s|
    ensures forall i :: 0 <= i < k ==> ws(s[i])
    ensures k < |s| ==> !ws(s[k])
  {
    if s != [] && ws(s[0]) then 1 + Leading(s[1..], ws) else 0
  }

  /** How many characters at the back of `s` are in `ws`. */
  function Trailing(s: string, ws: char -> bool): (k: nat)
    ensures k <= |s|
    ensures forall i :: |s| - k <= i < |s| ==> ws(s[i])
    ensures k < |s| ==> !ws(s[|s| - 1 - k])
  {
    if s != [] && ws(s[|s| - 1]) then 1 + Trailing(s[..|s| - 1], ws) else 0
  }

  /** The counts are the only ones with their defining property. */
  lemma LeadingIs(s: string, ws: char -> bool, k: nat)
    requires k <= |s| && forall i :: 0 <= i < k ==> ws(s[i])
    requires k < |s| ==> !ws(s[k])
    ensures Leading(s, ws) == k
  {
  }

  lemma TrailingIs(s: string, ws: char -> bool, k: nat)
    requires k <= |s| && forall i :: |s| - k <= i < |s| ==> ws(s[i])
    requires k < |s| ==> !ws(s[|s| - 1 - k])
    ensures Trailing(s, ws) == k
  {
  }

  function TrimStart(s: string, ws: char -> bool): string {
    s[Leading(s, ws)..]
  }

  function TrimEnd(s: string, ws: char -> bool): string {
    s[..|s| - Trailing(s, ws)]
  }

  /** `strip`: both ends cut. */
  function Trim(s: string, ws: char -> bool): string {
    TrimEnd(TrimStart(s, ws), ws)
  }

  /** The stripped text is a slice of the input with only `ws` characters cut away on either
      side, and it neither starts nor ends with one of them. */
  lemma TrimIsSlice(s: string, ws: char -> bool)
    ensures exists a, b ::
      && 0 <= a <= b <= |s| && Trim(s, ws) == s[a..b]
      && (forall i :: 0 <= i < a ==> ws(s[i])) && (forall i :: b <= i < |s| ==> ws(s[i]))
      && (a < b ==> !ws(s[a]) && !ws(s[b - 1]))
  {
    var a := Leading(s, ws);
    var t := s[a..];
    var b := |s| - Trailing(t, ws);
    assert Trim(s, ws) == s[a..b];
    forall i | b <= i < |s| ensures ws(s[i]) {
      assert s[i] == t[i - a];
    }
    if a < b {
      assert s[b - 1] == t[|t| - 1 - Trailing(t, ws)];
    }
  }

  /** Only a text made entirely of `ws` characters strips to nothing. */
  lemma TrimEmptyIffAll(s: string, ws: char -> bool)
    ensures Trim(s, ws) == [] <==> AllOf(s, ws)
  {
  }

  /** A text that neither starts nor ends with whitespace survives any padding by whitespace
      unchanged: stripping recovers exactly the original. */
  lemma TrimPadded(left: string, core: string, right: string, ws: char -> bool)
    requires AllOf(left, ws) && AllOf(right, ws)
    requires core != [] && !ws(core[0]) && !ws(core[|core| - 1])
    ensures Trim(left + core + right, ws) == core
  {
    var s := left + core + right;
    assert s[|left|] == core[0];
    LeadingIs(s, ws, |left|);
    var t := s[|left|..];
    assert t == core + right;
    assert t[|t| - 1 - |right|] == core[|core| - 1];
    TrailingIs(t, ws, |right|);
    assert t[..|core|] == core;
  }
}
