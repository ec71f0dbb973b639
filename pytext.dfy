/**
 * The pieces of Python's `str` that the pipeline relies on: `str.isspace`
 * (which is also what the regular-expression class `\s` matches for `str`
 * patterns), `str.strip()` called without arguments, and the matching of
 * an ASCII literal under `re.IGNORECASE`.
 */
module PyText {

  /** Python's `str.isspace()` for a single character. */
  predicate IsSpace(c: char) {
    || ('\t' <= c <= '\r')                       // \t \n \v \f \r
    || ('\U{1C}' <= c <= '\U{1F}')               // file/group/record/unit separators
    || c == ' ' || c == '\U{85}' || c == '\U{A0}' || c == '\U{1680}'
    || ('\U{2000}' <= c <= '\U{200A}')
    || c == '\U{2028}' || c == '\U{2029}' || c == '\U{202F}' || c == '\U{205F}'
    || c == '\U{3000}'
  }

  /** No whitespace at either end: what `strip()` leaves behind. */
  predicate Stripped(s: string) {
    s == [] || (!IsSpace(s[0]) && !IsSpace(s[|s| - 1]))
  }

  /** `s.lstrip()`: drop the leading run of whitespace. */
  function LStrip(s: string): (r: string)
    ensures |r| <= |s| && r == s[|s| - |r|..]
    ensures forall i :: 0 <= i < |s| - |r| ==> IsSpace(s[i])
    ensures r != [] ==> !IsSpace(r[0])
  {
    if s == [] || !IsSpace(s[0]) then s else LStrip(s[1..])
  }

  /** `s.rstrip()`: drop the trailing run of whitespace. */
  function RStrip(s: string): (r: string)
    ensures |r| <= |s| && r == s[..|r|]
    ensures forall i :: |r| <= i < |s| ==> IsSpace(s[i])
    ensures r != [] ==> !IsSpace(r[|r| - 1])
  {
    if s == [] || !IsSpace(s[|s| - 1]) then s else RStrip(s[..|s| - 1])
  }

  /** `s.strip()`: drop leading and trailing whitespace, keep the middle. */
  function Strip(s: string): (r: string)
    ensures Stripped(r)
    ensures |r| <= |s|
  {
    RStrip(LStrip(s))
  }

  /** The characters `strip()` keeps form one slice of `s`, and all it drops is whitespace. */
  lemma {:induction false} StripIsSlice(s: string)
    ensures var k := |s| - |LStrip(s)|;
      && k + |Strip(s)| <= |s|
      && (forall i :: 0 <= i < |Strip(s)| ==> Strip(s)[i] == s[k + i])
      && (forall i :: 0 <= i < k ==> IsSpace(s[i]))
      && (forall i :: k + |Strip(s)| <= i < |s| ==> IsSpace(s[i]))
  {
    var l := LStrip(s);
    var k := |s| - |l|;
    var r := RStrip(l);
    assert Strip(s) == r;
    PrefixOfSuffix(s, l, r, k);
    TrailingOfSuffix(s, l, |r|, k);
  }

  /** A prefix `r` of the suffix `l == s[k..]` reads the characters of `s` from `k` on. */
  lemma PrefixOfSuffix(s: string, l: string, r: string, k: nat)
    requires k <= |s| && l == s[k..] && |r| <= |l| && r == l[..|r|]
    ensures forall i :: 0 <= i < |r| ==> r[i] == s[k + i]
  {
    forall i | 0 <= i < |r| ensures r[i] == s[k + i] {
      assert r[i] == l[i];
    }
  }

  /** Whitespace at the end of the suffix `l == s[k..]` is whitespace at the end of `s`. */
  lemma TrailingOfSuffix(s: string, l: string, n: nat, k: nat)
    requires k <= |s| && l == s[k..] && n <= |l|
    requires forall j :: n <= j < |l| ==> IsSpace(l[j])
    ensures forall i :: k + n <= i < |s| ==> IsSpace(s[i])
  {
    forall i | k + n <= i < |s| ensures IsSpace(s[i]) {
      assert s[i] == l[i - k];
    }
  }

  /** A string that is already stripped is left alone. */
  lemma StripStripped(s: string)
    requires Stripped(s)
    ensures Strip(s) == s
  {
  }

  /** `strip()` is idempotent. */
  lemma StripIdempotent(s: string)
    ensures Strip(Strip(s)) == Strip(s)
  {
    StripStripped(Strip(s));
  }

  /** `strip()` keeps every non-whitespace character, so it returns "" only for blank strings. */
  lemma StripEmptyIffBlank(s: string)
    ensures Strip(s) == [] <==> forall i :: 0 <= i < |s| ==> IsSpace(s[i])
  {
    StripIsSlice(s);
  }

  /** `strip()` cannot introduce a character: a newline-free string stays newline-free. */
  lemma StripKeepsNoNewline(s: string)
    requires '\n' !in s
    ensures '\n' !in Strip(s)
  {
    var l := LStrip(s);
    var k := |s| - |l|;
    var r := RStrip(l);
    forall i | 0 <= i < |r| ensures r[i] != '\n' {
      assert r[i] == l[i] == s[k + i];
      assert s[k + i] in s;
    }
  }

  /** ASCII lower case; every other character is its own lower case here. */
  function Lower(c: char): char {
    if 'A' <= c <= 'Z' then (c as int + 32) as char else c
  }

  /**
   * Does text character `c` match the ASCII pattern character `p` under
   * `re.IGNORECASE`? Letters match either case; besides, `i` also matches
   * U+0130 and U+0131, `k` matches U+212A (Kelvin sign) and `s` matches
   * U+017F (long s), as in Python's `re`.
   */
  predicate CharMatchesIgnoreCase(c: char, p: char) {
    || Lower(c) == Lower(p)
    || (Lower(p) == 'i' && (c == '\U{130}' || c == '\U{131}'))
    || (Lower(p) == 'k' && c == '\U{212A}')
    || (Lower(p) == 's' && c == '\U{17F}')
  }

  /** `w` matches the literal pattern `p` character by character, ignoring case. */
  predicate MatchesIgnoreCase(w: string, p: string) {
    |w| == |p| && (w == [] || (CharMatchesIgnoreCase(w[0], p[0]) && MatchesIgnoreCase(w[1..], p[1..])))
  }

  /** Every literal matches itself. */
  lemma {:induction false} MatchesItself(p: string)
    ensures MatchesIgnoreCase(p, p)
  {
    if p != [] {
      MatchesItself(p[1..]);
    }
  }
}
