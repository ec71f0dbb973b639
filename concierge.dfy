/**
 * The deterministic parts of main.py: composing an e-mail from a CSV row
 * (`load_emails_from_csv`), recovering the subject line with
 * `re.search(r"Subject:\s*(.*?)(?=\n|$)", text, re.IGNORECASE)` followed by
 * `strip()`, and assembling the result record of `ottomation` from the
 * outputs of the other stages. The classifier, the draft writer, the
 * sentiment API, the clock and the trace id are supplied as inputs.
 */
module Concierge {
  import opened Wrappers
  import opened PyText
  import Urgency
  import Sentiment
  import Redaction

  // ---------------------------------------------------------------------------
  // Subject extraction

  /** The literal that anchors the subject pattern. */
  const SubjectTag: string := "Subject:"

  /** "Subject:" occurs at offset `i`, ignoring case. */
  predicate TagAt(text: string, i: nat) {
    i + |SubjectTag| <= |text| && MatchesIgnoreCase(text[i..i + |SubjectTag|], SubjectTag)
  }

  /** The first offset at or after `from` where the tag occurs, as `re.search` scans. */
  function FindTag(text: string, from: nat): (r: Option<nat>)
    requires from <= |text|
    ensures r.Some? ==> from <= r.value && TagAt(text, r.value)
    ensures r.Some? ==> forall j :: from <= j < r.value ==> !TagAt(text, j)
    ensures r.None? ==> forall j :: from <= j <= |text| ==> !TagAt(text, j)
    decreases |text| - from
  {
    if TagAt(text, from) then Some(from)
    else if from == |text| then None
    else FindTag(text, from + 1)
  }

  /** The greedy `\s*`: the first non-whitespace offset at or after `i`. */
  function SkipSpace(text: string, i: nat): (j: nat)
    requires i <= |text|
    ensures i <= j <= |text|
    ensures forall k :: i <= k < j ==> IsSpace(text[k])
    ensures j == |text| || !IsSpace(text[j])
    decreases |text| - i
  {
    if i == |text| || !IsSpace(text[i]) then i else SkipSpace(text, i + 1)
  }

  /** The lazy `(.*?)(?=\n|$)`: the first newline at or after `i`, or the end. */
  function LineEnd(text: string, i: nat): (j: nat)
    requires i <= |text|
    ensures i <= j <= |text|
    ensures forall k :: i <= k < j ==> text[k] != '\n'
    ensures j == |text| || text[j] == '\n'
    decreases |text| - i
  {
    if i == |text| || text[i] == '\n' then i else LineEnd(text, i + 1)
  }

  /**
   * `match.group(1)`, or None when there is no match. Once the tag is found the
   * rest always matches: `\s*` takes the whole whitespace run (newlines
   * included), after which `(.*?)` runs to the next newline or the end.
   */
  function SubjectGroup(text: string): (r: Option<string>)
    ensures r.Some? <==> exists i :: 0 <= i <= |text| && TagAt(text, i)
    ensures r.Some? ==> '\n' !in r.value && (r.value == [] || !IsSpace(r.value[0]))
  {
    match FindTag(text, 0)
    case None => None
    case Some(i) =>
      var q := SkipSpace(text, i + |SubjectTag|);
      var g := text[q..LineEnd(text, q)];
      assert forall k :: 0 <= k < |g| ==> g[k] == text[q + k];
      Some(g)
  }

  /** Lines 87-90 of main.py: the stripped subject, or None where `subject` is never bound. */
  function ExtractSubject(text: string): (r: Option<string>)
    ensures r.Some? <==> exists i :: 0 <= i <= |text| && TagAt(text, i)
    ensures r.Some? ==> '\n' !in r.value && Stripped(r.value)
  {
    match SubjectGroup(text)
    case None => None
    case Some(g) =>
      StripKeepsNoNewline(g);
      Some(Strip(g))
  }

  /** Extraction reads the line of the first tag, starting after the whitespace that follows it. */
  lemma ExtractAtFirstTag(text: string, i: nat)
    requires TagAt(text, i)
    requires forall j :: 0 <= j < i ==> !TagAt(text, j)
    ensures var q := SkipSpace(text, i + |SubjectTag|);
      ExtractSubject(text) == Some(Strip(text[q..LineEnd(text, q)]))
  {
    assert FindTag(text, 0) == Some(i);
  }

  // ---------------------------------------------------------------------------
  // Email composition

  /** One CSV row: its `subject` and `body` columns. */
  datatype Row = Row(subject: string, body: string)

  /** The f-string of line 117: `f"Subject: {subject}\n\n{body}"`. */
  function FormatEmail(subject: string, body: string): string {
    "Subject: " + subject + "\n\n" + body
  }

  /**
   * `load_emails_from_csv` after the file is parsed: one `(full_email, subject)`
   * pair per row, in row order, with both columns stripped first.
   */
  method LoadEmails(rows: seq<Row>) returns (emails: seq<(string, string)>)
    ensures |emails| == |rows|
    ensures forall i :: 0 <= i < |rows| ==>
      emails[i] == (FormatEmail(Strip(rows[i].subject), Strip(rows[i].body)), Strip(rows[i].subject))
    ensures forall i :: 0 <= i < |rows| && emails[i].1 != [] && '\n' !in emails[i].1 ==>
      ExtractSubject(emails[i].0) == Some(emails[i].1)
  {
    emails := [];
    for n := 0 to |rows|
      invariant |emails| == n
      invariant forall i :: 0 <= i < n ==>
        emails[i] == (FormatEmail(Strip(rows[i].subject), Strip(rows[i].body)), Strip(rows[i].subject))
    {
      var subject := Strip(rows[n].subject);
      var body := Strip(rows[n].body);
      var fullEmail := FormatEmail(subject, body);
      emails := emails + [(fullEmail, subject)];
    }
    forall i | 0 <= i < |rows| && emails[i].1 != [] && '\n' !in emails[i].1
      ensures ExtractSubject(emails[i].0) == Some(emails[i].1)
    {
      SubjectRoundTrip(rows[i].subject, rows[i].body);
    }
  }

  /** The composed e-mail carries the tag at offset 0. */
  lemma TagAtStart(subject: string, body: string)
    ensures TagAt(FormatEmail(subject, body), 0)
  {
    var t := FormatEmail(subject, body);
    assert t[0..|SubjectTag|] == SubjectTag;
    MatchesItself(SubjectTag);
  }

  /** After a non-blank single-line subject, the group is exactly that subject. */
  lemma GroupOfSubjectLine(s: string, b: string)
    requires s != [] && !IsSpace(s[0]) && '\n' !in s
    ensures SubjectGroup(FormatEmail(s, b)) == Some(s)
  {
    var t := FormatEmail(s, b);
    TagAtStart(s, b);
    assert FindTag(t, 0) == Some(0);
    assert t[8] == ' ' && t[9] == s[0];
    assert SkipSpace(t, 8) == 9;
    assert t[9 + |s|] == '\n';
    forall k | 9 <= k < 9 + |s| ensures t[k] != '\n' {
      assert t[k] == s[k - 9];
    }
    assert LineEnd(t, 9) == 9 + |s|;
    assert t[9..9 + |s|] == s;
  }

  /**
   * Round trip: a non-empty single-line subject written by `load_emails_from_csv`
   * is recovered exactly by the extraction in `ottomation`.
   */
  lemma SubjectRoundTrip(subject: string, body: string)
    requires Strip(subject) != [] && '\n' !in Strip(subject)
    ensures ExtractSubject(FormatEmail(Strip(subject), Strip(body))) == Some(Strip(subject))
  {
    GroupOfSubjectLine(Strip(subject), Strip(body));
    StripIdempotent(subject);
  }

  /** The first line of a text, without its newline. */
  function FirstLine(s: string): (r: string)
    ensures r <= s && '\n' !in r
    ensures |r| == |s| || s[|r|] == '\n'
  {
    var e := LineEnd(s, 0);
    assert forall k :: 0 <= k < e ==> s[..e][k] == s[k];
    s[..e]
  }

  /** With an empty subject, `\s*` runs through the blank line and the group is the body's first line. */
  lemma GroupOfEmptySubject(b: string)
    requires b == [] || !IsSpace(b[0])
    ensures SubjectGroup(FormatEmail([], b)) == Some(FirstLine(b))
  {
    var t := FormatEmail([], b);
    assert t == "Subject: \n\n" + b;
    TagAtStart([], b);
    assert FindTag(t, 0) == Some(0);
    assert IsSpace(t[8]) && IsSpace(t[9]) && IsSpace(t[10]);
    assert b != [] ==> t[11] == b[0];
    assert SkipSpace(t, 8) == 11;
    var l := LineEnd(b, 0);
    forall k | 11 <= k < 11 + l ensures t[k] != '\n' {
      assert t[k] == b[k - 11];
    }
    assert 11 + l < |t| ==> t[11 + l] == b[l];
    assert LineEnd(t, 11) == 11 + l;
    assert t[11..11 + l] == b[..l];
  }

  /** A text that starts with a non-whitespace character has a non-blank first line. */
  lemma FirstLineNotBlank(b: string)
    requires b != [] && !IsSpace(b[0])
    ensures Strip(FirstLine(b)) != []
  {
    var f := FirstLine(b);
    assert f != [] && f[0] == b[0];
    StripEmptyIffBlank(f);
  }

  /**
   * Because `\s*` also consumes newlines, an empty subject makes extraction
   * return the first line of the body (stripped), which is not empty when the
   * body is not blank, rather than the empty string.
   */
  lemma EmptySubjectYieldsBodyLine(subject: string, body: string)
    requires Strip(subject) == []
    ensures ExtractSubject(FormatEmail(Strip(subject), Strip(body))) == Some(Strip(FirstLine(Strip(body))))
    ensures Strip(body) != [] ==> Strip(FirstLine(Strip(body))) != []
  {
    var b := Strip(body);
    assert FormatEmail(Strip(subject), b) == FormatEmail([], b);
    GroupOfEmptySubject(b);
    if b != [] {
      FirstLineNotBlank(b);
    }
  }

  /** Corollary of `ExtractSubject`'s contract, for the error path: without a "Subject:" anywhere, no subject is bound. */
  lemma NoTagNoSubject(text: string)
    requires forall i :: 0 <= i <= |text| ==> !TagAt(text, i)
    ensures ExtractSubject(text) == None
  {
  }

  // ---------------------------------------------------------------------------
  // The result record of `ottomation`

  /** The dictionary `ottomation` returns. */
  datatype EmailRecord = EmailRecord(
    timestamp: string,
    emailAddress: string,
    subject: string,
    originalEmailText: string,
    redactedEmailText: string,
    supportTeam: string,
    sentimentCategory: string,
    sentimentScore: real,
    sentimentMagnitude: real,
    urgency: int,
    draftReply: string,
    answered: bool,
    traceId: string)

  /** How building the record fails: `subject` read while unbound (UnboundLocalError). */
  datatype Error = UnboundSubject

  /**
   * `ottomation` with every external service passed in: `sub` and `ner` for
   * redaction, `supportTeam` for the classifier's answer, `response` for the
   * sentiment API's answer, `draftReply` for the draft writer, and the clock's
   * and tracer's strings.
   */
  method Ottomation(
    originalEmailText: string, emailAddress: string,
    sub: Redaction.Subst, ner: string -> seq<Redaction.Entity>,
    supportTeam: string, response: Sentiment.Response, draftReply: string,
    timestamp: string, traceId: string)
    returns (result: Result<EmailRecord, Error>)
    requires var stage1 := Redaction.ApplyRules(Redaction.RegexPatterns, originalEmailText, sub);
      Redaction.WellFormed(ner(stage1), |stage1|)
    ensures var stage1 := Redaction.ApplyRules(Redaction.RegexPatterns, originalEmailText, sub);
      var redacted := Redaction.Rebuild(stage1, ner(stage1), 0);
      var category := Sentiment.InterpretScore(response.documentScore).Name();
      match ExtractSubject(redacted)
      case None => result == Err(UnboundSubject)
      case Some(subject) =>
        result == Ok(EmailRecord(
          timestamp, emailAddress, subject, originalEmailText, redacted, supportTeam,
          category, response.documentScore, response.documentMagnitude,
          Urgency.Score(supportTeam, category), draftReply, false, traceId))
  {
    var redactedEmailText := Redaction.Redact(originalEmailText, sub, ner);
    var sentiment := Sentiment.AnalyzeSentiment(response);
    var urgency := Urgency.DefineUrgency(supportTeam, sentiment.sentimentCategory);
    assert urgency == Urgency.Score(supportTeam, sentiment.sentimentCategory);
    var subject := ExtractSubject(redactedEmailText);
    if subject.None? {
      return Err(UnboundSubject);
    }
    result := Ok(EmailRecord(
      timestamp, emailAddress, subject.value, originalEmailText, redactedEmailText, supportTeam,
      sentiment.sentimentCategory, sentiment.score, sentiment.magnitude,
      urgency, draftReply, false, traceId));
  }

  /**
   * The urgency that `ottomation` stores depends on the document score only
   * through its label: 2 extra points at or below -0.35, 1 up to -0.1, none above.
   */
  lemma UrgencyFromScore(supportTeam: string, score: real)
    ensures Urgency.Score(supportTeam, Sentiment.InterpretScore(score).Name())
         == Urgency.CategoryPoints(supportTeam)
            + (if score <= -0.35 then 2 else if score <= -0.1 then 1 else 0)
  {
    var name := Sentiment.InterpretScore(score).Name();
    if score > -0.1 {
      assert name[0] != 'U';
      assert name != "Very unhappy" by {
        assert name == "Neutral" || name == "Happy" || name == "Very Happy";
        assert "Very Happy"[5] != "Very unhappy"[5];
      }
    }
  }
}
