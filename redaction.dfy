/**
 * PII redaction (redaction.py, `redact`). Stage 1 runs four case-insensitive
 * global regular-expression substitutions in list order. Stage 2 asks the
 * named-entity recogniser for entity spans of the stage-1 text and splices
 * "[REDACTED]" over every span with an allowed label, walking the spans from
 * last to first so that the offsets of the spans still to be processed stay valid.
 *
 * The regular-expression engine and the recogniser are not modelled: `re.sub`
 * is the parameter `sub` and the recogniser the parameter `ner`.
 */
module Redaction {

  /** The placeholder every redaction writes. */
  const Placeholder: string := "[REDACTED]"

  /** One `(pattern, replacement)` pair of `REGEX_PATTERNS`. */
  datatype Rule = Rule(pattern: string, replacement: string)

  /** `REGEX_PATTERNS`: e-mail addresses, phone numbers, card numbers, order ids, in this order. */
  const RegexPatterns: seq<Rule> := [
    Rule(@"\b[\w.-]+@[\w.-]+\.\w+\b", Placeholder),
    Rule(@"\b(?:\+?\d{1,3})?[-.\s]?\(?\d{2,4}\)?[-.\s]?\d{3,4}[-.\s]?\d{3,4}\b", Placeholder),
    Rule(@"\b\d{4}[-\s]?\d{4}[-\s]?\d{4}[-\s]?\d{4}\b", Placeholder),
    Rule(@"\bORD-\d{6,8}\b", Placeholder)
  ]

  /** The table in order: the four patterns, each replaced by the placeholder. */
  lemma RegexPatternsInOrder()
    ensures |RegexPatterns| == 4
    ensures forall k :: 0 <= k < 4 ==> RegexPatterns[k].replacement == "[REDACTED]"
    ensures RegexPatterns[0].pattern == @"\b[\w.-]+@[\w.-]+\.\w+\b"
    ensures RegexPatterns[3].pattern == @"\bORD-\d{6,8}\b"
  {
  }

  /** `re.sub(pattern, replacement, text, flags=re.I)`, supplied from outside. */
  type Subst = (string, string, string) -> string

  /** The regex stage as a value: the rules applied left to right, each to the previous output. */
  function ApplyRules(rules: seq<Rule>, text: string, sub: Subst): string
    decreases |rules|
  {
    if rules == [] then text
    else
      var last := rules[|rules| - 1];
      sub(last.pattern, last.replacement, ApplyRules(rules[..|rules| - 1], text, sub))
  }

  /** Stage 1 (lines 40-41 of redaction.py): `text` is reassigned once per pattern. */
  method RedactPatterns(text: string, sub: Subst) returns (out: string)
    ensures out == ApplyRules(RegexPatterns, text, sub)
    ensures out == sub(RegexPatterns[3].pattern, Placeholder,
                     sub(RegexPatterns[2].pattern, Placeholder,
                       sub(RegexPatterns[1].pattern, Placeholder,
                         sub(RegexPatterns[0].pattern, Placeholder, text))))
  {
    out := text;
    for i := 0 to |RegexPatterns|
      invariant out == ApplyRules(RegexPatterns[..i], text, sub)
    {
      var rule := RegexPatterns[i];
      assert RegexPatterns[..i + 1][..i] == RegexPatterns[..i];
      out := sub(rule.pattern, rule.replacement, out);
    }
    assert RegexPatterns[..|RegexPatterns|] == RegexPatterns;
    RegexStageUnrolled(text, sub);
  }

  /** Each pattern is applied exactly once, in list order, and later ones see earlier output. */
  lemma RegexStageUnrolled(text: string, sub: Subst)
    ensures ApplyRules(RegexPatterns, text, sub)
         == sub(RegexPatterns[3].pattern, Placeholder,
              sub(RegexPatterns[2].pattern, Placeholder,
                sub(RegexPatterns[1].pattern, Placeholder,
                  sub(RegexPatterns[0].pattern, Placeholder, text))))
  {
    var r := RegexPatterns;
    assert r[..3][..2] == r[..2];
    assert r[..2][..1] == r[..1];
    assert r[..1][..0] == [];
    assert ApplyRules(r[..1], text, sub) == sub(r[0].pattern, Placeholder, text);
    assert ApplyRules(r[..2], text, sub) == sub(r[1].pattern, Placeholder, ApplyRules(r[..1], text, sub));
    assert ApplyRules(r[..3], text, sub) == sub(r[2].pattern, Placeholder, ApplyRules(r[..2], text, sub));
  }

  /** A named-entity span: `start_char`, `end_char` and `label_` (here `kind`) of a spaCy entity. */
  datatype Entity = Entity(startChar: nat, endChar: nat, kind: string)

  /** The labels whose entities are redacted. */
  const AllowedLabels: set<string> := {"LOC", "PERSON", "GPE", "NORP", "FAC"}

  /** The label filter: an entity is redacted exactly when its label is one of `AllowedLabels`. */
  predicate Replaced(e: Entity) {
    e.kind in AllowedLabels
  }

  /** Spans inside a text of length n, ascending and non-overlapping, as a recogniser's entities are. */
  predicate WellFormed(ents: seq<Entity>, n: nat) {
    && (forall i :: 0 <= i < |ents| ==> ents[i].startChar <= ents[i].endChar <= n)
    && (forall i, j :: 0 <= i < j < |ents| ==> ents[i].endChar <= ents[j].startChar)
  }

  /** Every span starts at or after `from`. */
  predicate StartsFrom(ents: seq<Entity>, from: nat) {
    forall i :: 0 <= i < |ents| ==> from <= ents[i].startChar
  }

  /**
   * The left-to-right rebuild: copy the original text from `from` up to the
   * next replaced span, write the placeholder, resume after the span, and so
   * on; all offsets are offsets into the original `text`.
   */
  function Rebuild(text: string, ents: seq<Entity>, from: nat): string
    requires WellFormed(ents, |text|) && from <= |text| && StartsFrom(ents, from)
    decreases |ents|
  {
    if ents == [] then text[from..]
    else if Replaced(ents[0]) then
      text[from..ents[0].startChar] + Placeholder + Rebuild(text, ents[1..], ents[0].endChar)
    else
      Rebuild(text, ents[1..], from)
  }

  /** Copying can be cut at any point before the first span. */
  lemma {:induction false} RebuildSplit(text: string, ents: seq<Entity>, from: nat, mid: nat)
    requires WellFormed(ents, |text|) && from <= mid <= |text| && StartsFrom(ents, mid)
    ensures Rebuild(text, ents, from) == text[from..mid] + Rebuild(text, ents, mid)
    decreases |ents|
  {
    if ents == [] {
      assert text[from..] == text[from..mid] + text[mid..];
    } else if Replaced(ents[0]) {
      RebuildSplitAtReplaced(text, ents, from, mid);
    } else {
      WellFormedTail(ents, |text|);
      assert StartsFrom(ents[1..], mid);
      RebuildSplit(text, ents[1..], from, mid);
    }
  }

  /** The tail of a well-formed span list is well formed and starts after the head's end. */
  lemma WellFormedTail(ents: seq<Entity>, n: nat)
    requires WellFormed(ents, n) && ents != []
    ensures WellFormed(ents[1..], n) && StartsFrom(ents[1..], ents[0].endChar)
  {
    forall i, j | 0 <= i < j < |ents| - 1 ensures ents[1..][i].endChar <= ents[1..][j].startChar {
      assert ents[1..][i] == ents[i + 1] && ents[1..][j] == ents[j + 1];
    }
    forall i | 0 <= i < |ents| - 1 ensures ents[0].endChar <= ents[1..][i].startChar {
      assert ents[1..][i] == ents[i + 1];
    }
  }

  /** The replaced case of `RebuildSplit`: both sides copy up to the same span. */
  lemma RebuildSplitAtReplaced(text: string, ents: seq<Entity>, from: nat, mid: nat)
    requires WellFormed(ents, |text|) && from <= mid <= |text| && StartsFrom(ents, mid)
    requires ents != [] && Replaced(ents[0])
    ensures Rebuild(text, ents, from) == text[from..mid] + Rebuild(text, ents, mid)
  {
    var e := ents[0];
    WellFormedTail(ents, |text|);
    var rest := Placeholder + Rebuild(text, ents[1..], e.endChar);
    assert Rebuild(text, ents, from) == text[from..e.startChar] + rest;
    assert Rebuild(text, ents, mid) == text[mid..e.startChar] + rest;
    CopyThenRest(text, from, mid, e.startChar, rest);
  }

  /** Copying `text[from..s]` is copying `text[from..mid]` and then `text[mid..s]`. */
  lemma CopyThenRest(text: string, from: nat, mid: nat, s: nat, rest: string)
    requires from <= mid <= s <= |text|
    ensures text[from..s] + rest == text[from..mid] + (text[mid..s] + rest)
  {
    assert text[from..s] == text[from..mid] + text[mid..s];
  }

  /** Splice the placeholder over one span: `text[:start] + "[REDACTED]" + text[end:]`. */
  function Splice(text: string, e: Entity): (r: string)
    requires e.startChar <= e.endChar <= |text|
    ensures |r| == |text| - (e.endChar - e.startChar) + |Placeholder|
    ensures r[..e.startChar] == text[..e.startChar]
    ensures r[e.startChar..e.startChar + |Placeholder|] == Placeholder
    ensures r[e.startChar + |Placeholder|..] == text[e.endChar..]
  {
    text[..e.startChar] + Placeholder + text[e.endChar..]
  }

  /**
   * Stage 2 (lines 43-45 of redaction.py): walk the spans in reverse, splicing
   * the placeholder over each allowed one. Proved equal to the left-to-right
   * rebuild from the original offsets.
   */
  method RedactEntities(text: string, ents: seq<Entity>) returns (out: string)
    requires WellFormed(ents, |text|)
    ensures out == Rebuild(text, ents, 0)
  {
    out := text;
    var i := |ents|;
    while i > 0
      invariant 0 <= i <= |ents|
      invariant out == Rebuild(text, ents[i..], 0)
    {
      i := i - 1;
      var ent := ents[i];
      assert ents[i..][1..] == ents[i + 1..];
      if Replaced(ent) {
        RebuildSplit(text, ents[i + 1..], 0, ent.endChar);
        out := Splice(out, ent);
      }
    }
  }

  /** `redact`: stage 1, then the recogniser on the stage-1 text, then stage 2 on that same text. */
  method Redact(text: string, sub: Subst, ner: string -> seq<Entity>) returns (out: string)
    requires WellFormed(ner(ApplyRules(RegexPatterns, text, sub)), |ApplyRules(RegexPatterns, text, sub)|)
    ensures out == Rebuild(ApplyRules(RegexPatterns, text, sub), ner(ApplyRules(RegexPatterns, text, sub)), 0)
  {
    var patterned := RedactPatterns(text, sub);
    var ents := ner(patterned);
    out := RedactEntities(patterned, ents);
  }

  // ---------------------------------------------------------------------------
  // Properties of the rebuild

  /** Number of spans that are replaced. */
  function ReplacedCount(ents: seq<Entity>): nat {
    if ents == [] then 0
    else (if Replaced(ents[0]) then 1 else 0) + ReplacedCount(ents[1..])
  }

  /** Total width of the replaced spans. */
  function ReplacedWidth(ents: seq<Entity>): int {
    if ents == [] then 0
    else (if Replaced(ents[0]) then ents[0].endChar - ents[0].startChar else 0) + ReplacedWidth(ents[1..])
  }

  /** Output length = input length - total replaced width + 10 per replaced span. */
  lemma {:induction false} RebuildLength(text: string, ents: seq<Entity>, from: nat)
    requires WellFormed(ents, |text|) && from <= |text| && StartsFrom(ents, from)
    ensures |Rebuild(text, ents, from)| == |text| - from - ReplacedWidth(ents) + 10 * ReplacedCount(ents)
    decreases |ents|
  {
    if ents != [] {
      if Replaced(ents[0]) {
        RebuildLength(text, ents[1..], ents[0].endChar);
      } else {
        RebuildLength(text, ents[1..], from);
      }
    }
  }

  /** With no replaced span at all, stage 2 leaves the text as stage 1 produced it. */
  lemma {:induction false} RebuildNothingReplaced(text: string, ents: seq<Entity>, from: nat)
    requires WellFormed(ents, |text|) && from <= |text| && StartsFrom(ents, from)
    requires forall i :: 0 <= i < |ents| ==> !Replaced(ents[i])
    ensures Rebuild(text, ents, from) == text[from..]
    decreases |ents|
  {
    if ents != [] {
      RebuildNothingReplaced(text, ents[1..], from);
    }
  }

  /** Only the entities with an allowed label, in their order. */
  function ReplacedOnly(ents: seq<Entity>): (r: seq<Entity>)
    ensures |r| <= |ents|
    ensures forall x :: x in r ==> x in ents && Replaced(x)
    ensures forall x :: x in ents && Replaced(x) ==> x in r
  {
    if ents == [] then []
    else if Replaced(ents[0]) then [ents[0]] + ReplacedOnly(ents[1..])
    else ReplacedOnly(ents[1..])
  }

  /** A span that ends before every span of a well-formed tail can be put in front of it. */
  lemma WellFormedCons(e: Entity, tail: seq<Entity>, n: nat)
    requires e.startChar <= e.endChar <= n
    requires WellFormed(tail, n) && StartsFrom(tail, e.endChar)
    ensures WellFormed([e] + tail, n)
  {
    var r := [e] + tail;
    forall i, j | 0 <= i < j < |r| ensures r[i].endChar <= r[j].startChar {
      assert r[j] == tail[j - 1];
      if i > 0 {
        assert r[i] == tail[i - 1];
      }
    }
  }

  /** Dropping spans keeps them in bounds, ascending and non-overlapping. */
  lemma {:induction false} ReplacedOnlyWellFormed(ents: seq<Entity>, n: nat, from: nat)
    requires WellFormed(ents, n) && StartsFrom(ents, from)
    ensures WellFormed(ReplacedOnly(ents), n) && StartsFrom(ReplacedOnly(ents), from)
    decreases |ents|
  {
    if ents != [] {
      var e := ents[0];
      assert StartsFrom(ents[1..], e.endChar);
      assert WellFormed(ents[1..], n);
      if Replaced(e) {
        ReplacedOnlyWellFormed(ents[1..], n, e.endChar);
        WellFormedCons(e, ReplacedOnly(ents[1..]), n);
      } else {
        ReplacedOnlyWellFormed(ents[1..], n, from);
      }
    }
  }

  /** Entities with any other label change nothing: rebuilding from the allowed ones alone gives the same text. */
  lemma {:induction false} RebuildIgnoresOtherLabels(text: string, ents: seq<Entity>, from: nat)
    requires WellFormed(ents, |text|) && from <= |text| && StartsFrom(ents, from)
    ensures WellFormed(ReplacedOnly(ents), |text|) && StartsFrom(ReplacedOnly(ents), from)
    ensures Rebuild(text, ents, from) == Rebuild(text, ReplacedOnly(ents), from)
    decreases |ents|
  {
    ReplacedOnlyWellFormed(ents, |text|, from);
    if ents != [] {
      if Replaced(ents[0]) {
        RebuildIgnoresOtherLabels(text, ents[1..], ents[0].endChar);
        assert ReplacedOnly(ents)[1..] == ReplacedOnly(ents[1..]);
      } else {
        RebuildIgnoresOtherLabels(text, ents[1..], from);
      }
    }
  }

  /** Offset of the first replaced span, or the end of the text if there is none. */
  function FirstReplacedStart(ents: seq<Entity>, n: nat): nat {
    if ents == [] then n
    else if Replaced(ents[0]) then ents[0].startChar
    else FirstReplacedStart(ents[1..], n)
  }

  /**
   * The text before the first replaced span is untouched, and the first
   * replaced span becomes exactly the placeholder.
   */
  lemma {:induction false} RebuildPrefixUntouched(text: string, ents: seq<Entity>, from: nat)
    requires WellFormed(ents, |text|) && from <= |text| && StartsFrom(ents, from)
    ensures from <= FirstReplacedStart(ents, |text|) <= |text|
    ensures text[from..FirstReplacedStart(ents, |text|)] <= Rebuild(text, ents, from)
    ensures ReplacedCount(ents) > 0 ==>
      var p := FirstReplacedStart(ents, |text|) - from;
      p + |Placeholder| <= |Rebuild(text, ents, from)| && Rebuild(text, ents, from)[p..p + |Placeholder|] == Placeholder
    decreases |ents|
  {
    if ents != [] && !Replaced(ents[0]) {
      RebuildPrefixUntouched(text, ents[1..], from);
    }
  }

  /** Two replaced spans: the text around them is kept, each becomes the placeholder. */
  lemma RebuildTwoSpans(text: string, first: Entity, second: Entity)
    requires first.startChar <= first.endChar <= second.startChar <= second.endChar <= |text|
    requires Replaced(first) && Replaced(second)
    ensures WellFormed([first, second], |text|)
    ensures Rebuild(text, [first, second], 0)
         == text[0..first.startChar] + Placeholder + (text[first.endChar..second.startChar] + Placeholder + text[second.endChar..])
  {
    RebuildOneSpan(text, second, first.endChar);
    RebuildCons(text, first, [second], 0);
    assert [first] + [second] == [first, second];
  }

  /** Putting a replaced span in front: copy up to it, write the placeholder, continue after it. */
  lemma RebuildCons(text: string, e: Entity, tail: seq<Entity>, from: nat)
    requires from <= e.startChar <= e.endChar <= |text| && Replaced(e)
    requires WellFormed(tail, |text|) && StartsFrom(tail, e.endChar)
    ensures WellFormed([e] + tail, |text|) && StartsFrom([e] + tail, from)
    ensures Rebuild(text, [e] + tail, from) == text[from..e.startChar] + Placeholder + Rebuild(text, tail, e.endChar)
  {
    WellFormedCons(e, tail, |text|);
    assert ([e] + tail)[1..] == tail;
  }

  /** One replaced span: the text around it is kept and the span becomes the placeholder. */
  lemma RebuildOneSpan(text: string, e: Entity, from: nat)
    requires from <= e.startChar <= e.endChar <= |text| && Replaced(e)
    ensures WellFormed([e], |text|) && StartsFrom([e], from)
    ensures Rebuild(text, [e], from) == text[from..e.startChar] + Placeholder + text[e.endChar..]
  {
    assert [e][1..] == [];
  }

  /** The worked example: "Alice lives in Paris" with PERSON 0-5 and GPE 15-20. */
  lemma AliceInParis()
    ensures Rebuild("Alice lives in Paris", [Entity(0, 5, "PERSON"), Entity(15, 20, "GPE")], 0)
         == Placeholder + (" lives in " + Placeholder)
  {
    var text := "Alice lives in Paris";
    RebuildTwoSpans(text, Entity(0, 5, "PERSON"), Entity(15, 20, "GPE"));
    assert text[0..0] == [] && text[5..15] == " lives in " && text[20..] == [];
  }
}
