/**
 * The order-id rule of redaction.py, `re.sub(r"\bORD-\d{6,8}\b", "[REDACTED]",
 * text, flags=re.I)`, as a concrete scanner. `re.sub` tries each offset from
 * left to right; after a match it resumes at the end of the match, after a
 * failure at the next offset, and the word boundaries are read in the input.
 *
 * Backtracking is resolved by hand: the greedy `\d{6,8}` first takes
 * min(run, 8) digits of the maximal digit run; if the run is longer than 8,
 * or if a word character follows, the trailing `\b` fails on every shorter
 * choice too, because a digit would follow. So the pattern matches at an
 * offset exactly when a word boundary precedes it, "ORD-" follows in either
 * case, then a maximal run of 6 to 8 digits, then a non-word character or the end.
 */
module OrderIds {
  import opened Wrappers
  import opened PyText
  import Redaction

  /** `\d`, here the ASCII digits. */
  predicate IsDigit(c: char) {
    '0' <= c <= '9'
  }

  /** `\w`, here the ASCII letters, digits and underscore. */
  predicate IsWord(c: char) {
    ('a' <= c <= 'z') || ('A' <= c <= 'Z') || IsDigit(c) || c == '_'
  }

  /** The literal part of the pattern. */
  const OrderPrefix: string := "ORD-"

  /** The end of the maximal run of digits starting at `k`. */
  function DigitRunEnd(s: string, k: nat): (e: nat)
    requires k <= |s|
    ensures k <= e <= |s|
    ensures forall j :: k <= j < e ==> IsDigit(s[j])
    ensures e == |s| || !IsDigit(s[e])
    decreases |s| - k
  {
    if k == |s| || !IsDigit(s[k]) then k else DigitRunEnd(s, k + 1)
  }

  /** `ORD-\d{6,8}\b` at the start of `s`: the length of the match, if any. */
  function OrderIdLength(s: string): (r: Option<nat>)
    ensures r.Some? ==> 10 <= r.value <= 12 && r.value <= |s|
    ensures r.Some? ==> MatchesIgnoreCase(s[..4], OrderPrefix)
    ensures r.Some? ==> forall j :: 4 <= j < r.value ==> IsDigit(s[j])
    ensures r.Some? ==> r.value == |s| || !IsWord(s[r.value])
  {
    if |s| < 4 || !MatchesIgnoreCase(s[..4], OrderPrefix) then None
    else
      var e := DigitRunEnd(s, 4);
      if 10 <= e <= 12 && (e == |s| || !IsWord(s[e])) then Some(e) else None
  }

  /** The leading `\b`, at an offset where the pattern's first letter must stand. */
  predicate BoundaryBefore(t: string, i: nat)
    requires i <= |t|
  {
    i == 0 || !IsWord(t[i - 1])
  }

  /** The end of the match at offset `i`, if the pattern matches there. */
  function MatchAt(t: string, i: nat): (r: Option<nat>)
    requires i <= |t|
    ensures r.Some? ==> BoundaryBefore(t, i) && i + 10 <= r.value <= i + 12 && r.value <= |t|
  {
    if BoundaryBefore(t, i) then
      match OrderIdLength(t[i..])
      case None => None
      case Some(n) => Some(i + n)
    else None
  }

  /**
   * The converse of `OrderIdLength`'s contract: "ORD-" in either case, then
   * a maximal run of 6 to 8 digits, then a non-word character or the end, is
   * matched, with exactly that length.
   */
  lemma OrderIdLengthComplete(s: string, n: nat)
    requires 10 <= n <= 12 && n <= |s|
    requires MatchesIgnoreCase(s[..4], OrderPrefix)
    requires forall j :: 4 <= j < n ==> IsDigit(s[j])
    requires n == |s| || !IsWord(s[n])
    ensures OrderIdLength(s) == Some(n)
  {
    var e := DigitRunEnd(s, 4);
    assert e == n;
  }

  /** The pattern matches at `i` exactly when the leading word boundary holds and an order id follows. */
  lemma MatchAtIff(t: string, i: nat)
    requires i <= |t|
    ensures MatchAt(t, i).Some? <==> BoundaryBefore(t, i) && OrderIdLength(t[i..]).Some?
    ensures MatchAt(t, i).Some? ==> MatchAt(t, i).value == i + OrderIdLength(t[i..]).value
  {
  }

  /** The output of the substitution for the input from offset `i` on. */
  function Scan(t: string, i: nat): string
    requires i <= |t|
    decreases |t| - i
  {
    if i == |t| then []
    else
      match MatchAt(t, i)
      case Some(j) => Redaction.Placeholder + Scan(t, j)
      case None => [t[i]] + Scan(t, i + 1)
  }

  /** `re.sub(r"\bORD-\d{6,8}\b", "[REDACTED]", t, flags=re.I)`. */
  function SubOrderIds(t: string): string {
    Scan(t, 0)
  }

  /** No order id occurs anywhere in `t`. */
  predicate NoOrderId(t: string) {
    forall k :: 0 <= k <= |t| ==> MatchAt(t, k).None?
  }

  /** A text without an order id passes the scanner unchanged. */
  lemma {:induction false} ScanWithoutMatch(u: string, i: nat)
    requires i <= |u|
    requires forall k :: i <= k <= |u| ==> MatchAt(u, k).None?
    ensures Scan(u, i) == u[i..]
    decreases |u| - i
  {
    if i < |u| {
      ScanWithoutMatch(u, i + 1);
      assert u[i..] == [u[i]] + u[i + 1..];
    }
  }

  /** The first offset at or after `i` where the pattern matches, or the end of the text. */
  function FirstMatch(t: string, i: nat): (m: nat)
    requires i <= |t|
    ensures i <= m <= |t|
    ensures forall k :: i <= k < m ==> MatchAt(t, k).None?
    ensures m < |t| ==> MatchAt(t, m).Some?
    decreases |t| - i
  {
    if i == |t| || MatchAt(t, i).Some? then i else FirstMatch(t, i + 1)
  }

  /** The scanner copies the input up to the first match, then writes the placeholder. */
  lemma {:induction false} ScanCopiesToFirstMatch(t: string, i: nat)
    requires i <= |t|
    ensures var m := FirstMatch(t, i);
      Scan(t, i) == t[i..m] + (if m < |t| then Redaction.Placeholder + Scan(t, MatchAt(t, m).value) else [])
    decreases |t| - i
  {
    if i < |t| && MatchAt(t, i).None? {
      ScanCopiesToFirstMatch(t, i + 1);
      var m := FirstMatch(t, i + 1);
      assert FirstMatch(t, i) == m;
      var rest := if m < |t| then Redaction.Placeholder + Scan(t, MatchAt(t, m).value) else [];
      ScanCopiesOne(t, i);
      CopyOneMore(t, i, m, rest);
    }
  }

  /** Where nothing matches at `i`, the scanner copies `t[i]` and goes on at `i + 1`. */
  lemma ScanCopiesOne(t: string, i: nat)
    requires i < |t| && MatchAt(t, i).None?
    ensures Scan(t, i) == [t[i]] + Scan(t, i + 1)
  {
  }

  /** Copying `t[i]` in front of a copy of `t[i + 1..m]` copies `t[i..m]`. */
  lemma CopyOneMore(t: string, i: nat, m: nat, rest: string)
    requires i + 1 <= m <= |t|
    ensures [t[i]] + (t[i + 1..m] + rest) == t[i..m] + rest
  {
    assert t[i..m] == [t[i]] + t[i + 1..m];
  }

  /** Only the letters O and o match the pattern's first character. */
  lemma FirstLetterIsWord(c: char)
    requires CharMatchesIgnoreCase(c, 'O')
    ensures IsWord(c) && c != '['
  {
  }

  /** No suffix of the placeholder, followed by anything, begins an order id. */
  lemma PlaceholderHidesOrderIds(w: string, k: nat)
    requires |Redaction.Placeholder| <= |w| && w[..|Redaction.Placeholder|] == Redaction.Placeholder
    requires k < |Redaction.Placeholder|
    ensures OrderIdLength(w[k..]).None?
  {
    var s := w[k..];
    assert s[0] == Redaction.Placeholder[k];
    if |s| >= 4 && MatchesIgnoreCase(s[..4], OrderPrefix) {
      assert CharMatchesIgnoreCase(s[0], 'O');
      FirstLetterIsWord(s[0]);
    }
  }

  /** An order id read in `s1` is read in any `s2` that agrees with `s1` up to and including the character after it. */
  lemma OrderIdSamePrefix(s1: string, s2: string, e: nat)
    requires OrderIdLength(s1) == Some(e) && e < |s1| && e < |s2|
    requires s1[..e + 1] == s2[..e + 1]
    ensures OrderIdLength(s2) == Some(e)
  {
    assert s1[..4] == s2[..4];
    forall j | 4 <= j <= e ensures s2[j] == s1[j] {
      assert s1[..e + 1][j] == s2[..e + 1][j];
    }
    var e2 := DigitRunEnd(s2, 4);
    assert e2 == e;
  }

  /**
   * Where no order id starts in the input, none starts in the output either:
   * the output copies the input up to the next match and then has "[", which
   * cannot be part of an order id, and a run of digits cut by that "[" was
   * followed in the input by the next order id, whose leading word boundary
   * forbids a digit before it.
   */
  lemma NoNewMatchAtCopiedOffset(t: string, i: nat)
    requires i < |t| && BoundaryBefore(t, i) && MatchAt(t, i).None?
    ensures OrderIdLength(Scan(t, i)).None?
  {
    var m := FirstMatch(t, i);
    var w := Scan(t, i);
    ScanCopiesToFirstMatch(t, i);
    if m == |t| {
      assert t[i..m] == t[i..];
      assert w == t[i..];
    } else {
      var rest := Redaction.Placeholder + Scan(t, MatchAt(t, m).value);
      assert w == t[i..m] + rest;
      assert m > i;
      assert t[m - 1] == t[i..][m - i - 1];
      NoOrderIdBeforeOpenBracket(t[i..], w, m - i);
    }
  }

  /**
   * The step behind `NoNewMatchAtCopiedOffset`: `w` agrees with `u` before
   * offset `l` and has "[" there; at `l` a word boundary stands in `u`, and no
   * order id starts `u`. Then none starts `w`.
   */
  lemma NoOrderIdBeforeOpenBracket(u: string, w: string, l: nat)
    requires 0 < l <= |u| && l < |w| && w[..l] == u[..l] && w[l] == '['
    requires !IsWord(u[l - 1]) && OrderIdLength(u).None?
    ensures OrderIdLength(w).None?
  {
    if OrderIdLength(w).Some? {
      var e := OrderIdLength(w).value;
      if l < 4 {
        assert w[..4][l] == w[l];
        MatchesPointwise(w[..4], OrderPrefix, l);
        assert false;
      } else if l <= e {
        assert false;
      } else {
        assert w[..e + 1] == w[..l][..e + 1];
        OrderIdSamePrefix(w, u, e);
        assert false;
      }
    }
  }

  /** A case-insensitive literal match holds at each position. */
  lemma {:induction false} MatchesPointwise(w: string, p: string, k: nat)
    requires MatchesIgnoreCase(w, p) && k < |p|
    ensures CharMatchesIgnoreCase(w[k], p[k])
  {
    if k > 0 {
      MatchesPointwise(w[1..], p[1..], k - 1);
    }
  }

  /** An order id starts at offset `k` of output `w`, whose preceding character is a word character iff `prevWord`. */
  predicate OutputMatch(w: string, k: nat, prevWord: bool)
    requires k < |w|
  {
    (if k == 0 then !prevWord else !IsWord(w[k - 1])) && OrderIdLength(w[k..]).Some?
  }

  /**
   * The output of the scanner from offset `i` contains no order id, given what
   * precedes it in the output: either the input's own previous character, or
   * the placeholder's "]" when a match ended at `i` (then a non-word character
   * or the end follows in the input).
   */
  lemma {:induction false} ScanLeavesNoMatch(t: string, i: nat, prevWord: bool)
    requires i <= |t|
    requires prevWord == (i > 0 && IsWord(t[i - 1])) || (!prevWord && (i == |t| || !IsWord(t[i])))
    ensures forall k :: 0 <= k < |Scan(t, i)| ==> !OutputMatch(Scan(t, i), k, prevWord)
    decreases |t| - i
  {
    if i < |t| {
      var w := Scan(t, i);
      match MatchAt(t, i)
      case Some(j) =>
        var w' := Scan(t, j);
        var p := Redaction.Placeholder;
        assert w == p + w';
        ScanLeavesNoMatch(t, j, false);
        forall k | 0 <= k < |w| ensures !OutputMatch(w, k, prevWord) {
          if k < |p| {
            assert w[..|p|] == p;
            PlaceholderHidesOrderIds(w, k);
          } else {
            assert w[k..] == w'[k - |p|..];
            assert !OutputMatch(w', k - |p|, false);
            if k > |p| {
              assert w[k - 1] == w'[k - |p| - 1];
            }
          }
        }
      case None =>
        var w' := Scan(t, i + 1);
        assert w == [t[i]] + w';
        ScanLeavesNoMatch(t, i + 1, IsWord(t[i]));
        forall k | 0 <= k < |w| ensures !OutputMatch(w, k, prevWord) {
          if k == 0 {
            if !prevWord {
              if prevWord == (i > 0 && IsWord(t[i - 1])) {
                NoNewMatchAtCopiedOffset(t, i);
              } else if |w| >= 4 && MatchesIgnoreCase(w[..4], OrderPrefix) {
                assert CharMatchesIgnoreCase(w[0], 'O');
                FirstLetterIsWord(w[0]);
              }
            }
          } else {
            assert w[k..] == w'[k - 1..];
            assert !OutputMatch(w', k - 1, IsWord(t[i]));
            if k > 1 {
              assert w[k - 1] == w'[k - 2];
            }
          }
        }
    }
  }

  /** After the substitution no order id is left. */
  lemma SubstitutionLeavesNoOrderId(t: string)
    ensures NoOrderId(SubOrderIds(t))
  {
    var u := SubOrderIds(t);
    ScanLeavesNoMatch(t, 0, false);
    forall k | 0 <= k <= |u| ensures MatchAt(u, k).None? {
      if k < |u| {
        assert !OutputMatch(u, k, false);
        assert u[0..] == u;
      }
    }
  }

  /** A text without order ids is returned unchanged. */
  lemma SubstitutionKeepsCleanText(t: string)
    requires NoOrderId(t)
    ensures SubOrderIds(t) == t
  {
    ScanWithoutMatch(t, 0);
  }

  /** Redacting order ids twice is the same as once. */
  lemma SubstitutionIdempotent(t: string)
    ensures SubOrderIds(SubOrderIds(t)) == SubOrderIds(t)
  {
    SubstitutionLeavesNoOrderId(t);
    SubstitutionKeepsCleanText(SubOrderIds(t));
  }

  /** An id of seven digits, in either case, is replaced. */
  lemma SevenDigitIdReplaced()
    ensures SubOrderIds("ord-1234567") == Redaction.Placeholder
  {
    var t := "ord-1234567";
    assert t[..4] == "ord-";
    assert DigitRunEnd(t, 4) == 11;
    assert MatchAt(t, 0) == Some(11);
  }

  /** An id of nine digits is not an order id and stays. */
  lemma NineDigitIdKept()
    ensures SubOrderIds("ORD-123456789") == "ORD-123456789"
  {
    var t := "ORD-123456789";
    assert t[..4] == "ORD-";
    assert DigitRunEnd(t, 4) == 13;
    forall k | 0 <= k <= |t| ensures MatchAt(t, k).None? {
      if k == 4 {
        assert t[4..][0] == '1';
      } else if k > 0 {
        assert t[k - 1] in "ORD123456789";
      }
    }
    SubstitutionKeepsCleanText(t);
  }

  /**
   * When `sub` performs the order-id rule as the scanner does, the regex stage
   * leaves no order id, since that rule runs last.
   */
  lemma RegexStageLeavesNoOrderId(text: string, sub: Redaction.Subst)
    requires forall x :: sub(Redaction.RegexPatterns[3].pattern, Redaction.Placeholder, x) == SubOrderIds(x)
    ensures NoOrderId(Redaction.ApplyRules(Redaction.RegexPatterns, text, sub))
  {
    Redaction.RegexStageUnrolled(text, sub);
    var before := sub(Redaction.RegexPatterns[2].pattern, Redaction.Placeholder,
                    sub(Redaction.RegexPatterns[1].pattern, Redaction.Placeholder,
                      sub(Redaction.RegexPatterns[0].pattern, Redaction.Placeholder, text)));
    SubstitutionLeavesNoOrderId(before);
  }

  /**
   * The entity stage can create an order id: in "xORD-123456" the letter x
   * blocks the leading word boundary, so the order-id rule keeps the text; if
   * the recogniser then reports "x" as a PERSON, the splice puts "]" before
   * "ORD-123456", and an order id now stands at offset 10 of the output.
   */
  lemma EntityStageCanCreateOrderId()
    ensures NoOrderId("xORD-123456")
    ensures SubOrderIds("xORD-123456") == "xORD-123456"
    ensures Redaction.Rebuild("xORD-123456", [Redaction.Entity(0, 1, "PERSON")], 0)
         == Redaction.Placeholder + "ORD-123456"
    ensures MatchAt(Redaction.Placeholder + "ORD-123456", 10) == Some(20)
  {
    GluedIdIsNoOrderId();
    SubstitutionKeepsCleanText("xORD-123456");
    SpliceBeforeGluedId();
    PlaceholderCompletesOrderId();
  }

  /** "xORD-123456" holds no order id: x blocks the word boundary. */
  lemma GluedIdIsNoOrderId()
    ensures NoOrderId("xORD-123456")
  {
    var t := "xORD-123456";
    forall k | 0 <= k <= |t| ensures MatchAt(t, k).None? {
      if k == 0 {
        assert t[0..][0] == 'x';
      } else if k == 5 {
        assert t[5..][0] == '1';
      } else {
        assert t[k - 1] in "xORD123456";
      }
    }
  }

  /** Splicing the placeholder over the "x" of "xORD-123456". */
  lemma SpliceBeforeGluedId()
    ensures Redaction.Rebuild("xORD-123456", [Redaction.Entity(0, 1, "PERSON")], 0)
         == Redaction.Placeholder + "ORD-123456"
  {
    var t := "xORD-123456";
    var ents := [Redaction.Entity(0, 1, "PERSON")];
    assert ents[1..] == [];
    assert Redaction.Rebuild(t, ents, 0) == t[0..0] + Redaction.Placeholder + t[1..];
    assert t[1..] == "ORD-123456";
  }

  /** After the placeholder, "ORD-123456" is an order id: "]" supplies the word boundary. */
  lemma PlaceholderCompletesOrderId()
    ensures MatchAt(Redaction.Placeholder + "ORD-123456", 10) == Some(20)
  {
    var out := Redaction.Placeholder + "ORD-123456";
    assert out[10..] == "ORD-123456";
    assert out[10..][..4] == "ORD-";
    assert DigitRunEnd(out[10..], 4) == 10;
  }
}
