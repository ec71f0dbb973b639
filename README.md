# AI e-mail concierge: the deterministic core, in Dafny

The system triages customer-support e-mails. It removes personal data,
classifies the support category, scores sentiment and urgency, drafts a
reply, and stores one record per e-mail for review in a dashboard. The
language models, the Natural Language API, the named-entity recogniser and
cloud storage do most of the work. Around their answers sit four small
deterministic pieces. This project models those four and proves their
properties:

- **Urgency scoring** (`urgency.py`, module `Urgency`). Category points come
  from three fixed buckets (3, 2 or 1 point, else 0). Sentiment points are
  2 for "Very unhappy", 1 for "Unhappy", else 0. The score is the sum. The
  method `DefineUrgency` keeps the source's accumulator. It is proved equal
  to the pure points functions, and lemmas give the bucket table, exact
  matching, disjointness, the range 0..5 and monotonicity.
- **PII redaction** (`redaction.py`, module `Redaction`). Stage 1 applies
  the four `REGEX_PATTERNS` in order, each once. Stage 2 splices `[REDACTED]`
  over the recogniser's spans with labels LOC, PERSON, GPE, NORP or FAC,
  walking the spans backwards. `RedactEntities` is proved equal to `Rebuild`,
  a left-to-right rebuild from the original offsets. Lemmas then give the
  output length, the untouched prefix, and that other labels change nothing.
- **Order-id substitution** (`redaction.py`, module `OrderIds`). The fourth
  regex rule, `\bORD-\d{6,8}\b` under `re.IGNORECASE`, is also modelled as a
  concrete left-to-right scanner, `SubOrderIds`. It is proved to leave no
  order id behind, to return a text without order ids unchanged, and hence
  to be idempotent. If `sub` agrees with it on that rule, the whole regex
  stage leaves no order id.
- **E-mail composition and subject extraction** (`main.py`, module
  `Concierge`). A CSV row becomes
  `"Subject: " + strip(subject) + "\n\n" + strip(body)`. The subject is
  recovered with `Subject:\s*(.*?)(?=\n|$)` under `re.IGNORECASE`, then
  `strip()`. The model proves the round trip for a non-empty single-line
  subject. It also proves that an empty subject makes extraction return the
  body's first line. A text without the tag is an error (`UnboundSubject`),
  as the source's `subject` variable is then never bound. `Ottomation`
  assembles the result record from the outputs of the other stages.
- **Sentiment labels** (`sentiment.py`, module `Sentiment`). `InterpretScore`
  is the five-way threshold classifier on exact reals. `AnalyzeSentiment`
  builds the result with one entry per response sentence.

`PyText` models Python's `str.isspace` (which is also `\s`), `str.strip()`,
and the matching of an ASCII literal under `re.IGNORECASE`: letters match in
either ASCII case, and as in Python's `re`, `i` also matches U+0130 and
U+0131, `k` matches U+212A (Kelvin sign) and `s` matches U+017F (long s).
Only the `s` case can arise for the two literals the pipeline matches,
"Subject:" and "ORD-". `Wrappers` holds `Option` and `Result`.

External results are parameters:
- `sub` is `re.sub(pattern, repl, text, flags=re.I)`;
- `ner` is the spaCy recogniser, giving `(start_char, end_char, label_)` spans;
- `supportTeam` is the classifier's answer;
- `response` is the sentiment API's answer;
- `draftReply`, `timestamp` and `traceId` are the draft writer's, the clock's
  and the tracer's strings.

Where the docstrings and the code disagree, the model follows the code:
- The redaction docstring lists LOC, PERSON and GPE; the code also redacts
  NORP and FAC.
- `define_urgency` is annotated `-> str` but returns an integer.
- The urgency docstring gives "Shipping and Delivery Updates (Aftersales)" as
  an example category. Matching is exact, so that string scores 0.

How the subject pattern is read:
- `re.search` tries offsets left to right. At the first case-insensitive
  "Subject:" the rest of the pattern always matches, so the match is anchored
  there. `\s*` is greedy and also eats newlines. The lazy group then runs to
  the next `\n` or the end of the text.
- `\s` for a `str` pattern is the `str.isspace` set.
- Under `re.IGNORECASE`, the letters of "Subject:" match either ASCII case,
  and `s` also matches U+017F (long s).

## Model

| member | source | states |
|---|---|---|
| `Urgency.DefineUrgency` | urgency.py:34-55 | the accumulator, bumped by one category branch and one sentiment branch, returns category points plus sentiment points, an integer in 0..5 |
| `Urgency.CategoryPoints` | urgency.py:36-48 | category points are at most 3 |
| `Urgency.SentimentPoints` | urgency.py:50-53 | sentiment points are at most 2 |
| `Urgency.Score` | urgency.py:34-55 | the urgency never exceeds 5 (and is a natural number) |
| `Urgency.AftersalesScoreThree` | urgency.py:36-40 | each of the four aftersales categories contributes exactly 3 |
| `Urgency.SupportScoreTwoLessUrgentOne` | urgency.py:41-48 | the four support categories contribute exactly 2, the loyalty and feedback categories exactly 1 |
| `Urgency.CategoryPointsIff` | urgency.py:36-48 | a category scores 3, 2, 1 exactly when it is in the matching bucket, and 0 exactly when it is in none |
| `Urgency.UnlistedCategoriesScoreZero` | urgency.py:36-48 | matching is exact and case-sensitive: the docstring's "Shipping and Delivery Updates (Aftersales)", a lower-cased name and an unknown name score 0 |
| `Urgency.SentimentPointsIff` | urgency.py:50-53 | 2 points exactly for "Very unhappy", 1 exactly for "Unhappy", 0 for everything else including "Very Happy" and "very unhappy" |
| `Urgency.BucketsDisjoint` | urgency.py:36-48 | no category is in two buckets |
| `Urgency.CategoryPointsOrderIndependent` | urgency.py:36-48 | the `elif` chain equals the sum of the three independent membership tests, so branch order does not matter |
| `Urgency.ScoreExamples` | urgency.py:34-55 | defect claim + "Very unhappy" scores 5, loyalty + "Happy" scores 1, unknown + "Neutral" scores 0 |
| `Urgency.ScoreMonotoneInSentiment` | urgency.py:50-53 | with the category fixed, "Very unhappy" scores one more than "Unhappy", which scores one more than any other label |
| `Urgency.ScoreMonotoneInCategory` | urgency.py:36-48 | with the sentiment fixed, bucket 3 scores one more than bucket 2, which scores one more than bucket 1, which scores one more than an unmatched category |
| `Sentiment.Label.Name` | sentiment.py:64-72 | the five strings `interpret_score` returns, spelled as in the source; `NameInjective` shows they are pairwise distinct |
| `Sentiment.InterpretScore` | sentiment.py:62-72 | `interpret_score`: the first threshold test that holds picks the label; its intervals, totality and monotonicity are the lemmas below |
| `Sentiment.InterpretScoreIntervals` | sentiment.py:62-72 | each of the five labels is produced exactly on its interval: (-inf, -0.35], (-0.35, -0.1], (-0.1, 0.25), [0.25, 0.75), [0.75, inf) |
| `Sentiment.InterpretScoreTotal` | sentiment.py:62-72 | every score yields one of the five label strings, the one at the label's rank |
| `Sentiment.NameInjective` | sentiment.py:62-72 | the five returned strings are pairwise distinct |
| `Sentiment.InterpretScoreMonotone` | sentiment.py:62-72 | a higher score never gets a lower-ranked label |
| `Sentiment.AnalyzeSentiment` | sentiment.py:74-89 | the category is the label of the document score; score, magnitude and language are copied; one sentence entry per response sentence, in order, each with its text, score, magnitude and the label of its own score |
| `Redaction.ApplyRules` | redaction.py:40-41 | the regex stage as a left fold: each rule's substitution is applied to the output of the rules before it |
| `Redaction.RedactPatterns` | redaction.py:40-41 | the regex stage equals the left fold of the rules, i.e. the four substitutions applied once each in list order to the previous output |
| `Redaction.RegexPatternsInOrder` | redaction.py:6-11 | `REGEX_PATTERNS` has four rules, each replacing with `[REDACTED]`, the first for e-mail addresses and the last for order ids, with the patterns copied verbatim |
| `Redaction.RegexStageUnrolled` | redaction.py:6-11 | the fold over `REGEX_PATTERNS` is e-mail, then phone, then card, then order-id substitution, each replacing with `[REDACTED]` |
| `Redaction.Replaced` | redaction.py:44 | the label filter: an entity is redacted exactly when its label is LOC, PERSON, GPE, NORP or FAC |
| `Redaction.Splice` | redaction.py:45 | one splice keeps the text before the span, writes exactly `[REDACTED]`, keeps the text after the span, and changes the length by 10 minus the span width |
| `Redaction.Rebuild` | redaction.py:30-32 | the left-to-right reference for the docstring's claim that the reverse order keeps the offsets valid: copy the text up to each allowed span, write `[REDACTED]`, resume after the span, all offsets into the original text |
| `Redaction.RebuildSplit` | redaction.py:43-45 | the rebuild may start copying at any offset before the first span: the skipped text is simply copied first |
| `Redaction.RedactEntities` | redaction.py:43-45 | splicing the allowed spans in reverse order gives the same text as the left-to-right rebuild from the original offsets |
| `Redaction.Redact` | redaction.py:40-46 | the recogniser runs on the regex-stage output, and its offsets are applied to that same text |
| `Redaction.RebuildLength` | redaction.py:45 | output length = input length - total width of the replaced spans + 10 per replaced span |
| `Redaction.RebuildNothingReplaced` | redaction.py:42-46 | with no entity, or none with an allowed label, stage 2 returns the regex-stage text unchanged |
| `Redaction.RebuildIgnoresOtherLabels` | redaction.py:44 | entities whose label is not LOC, PERSON, GPE, NORP or FAC change nothing: the result equals the rebuild from the allowed entities alone |
| `Redaction.RebuildPrefixUntouched` | redaction.py:45 | the text before the first replaced span is a prefix of the output, and the first replaced span becomes exactly `[REDACTED]` |
| `Redaction.RebuildCons` | redaction.py:43-45 | a replaced span in front of well-formed spans: copy up to it, write `[REDACTED]`, continue after it |
| `Redaction.RebuildOneSpan` | redaction.py:45 | one replaced span: the text before and after it is kept and the span becomes `[REDACTED]` |
| `Redaction.RebuildTwoSpans` | redaction.py:43-45 | with two allowed, ordered spans, the text before, between and after them is kept and each span becomes `[REDACTED]` |
| `Redaction.AliceInParis` | redaction.py:43-45 | "Alice lives in Paris" with PERSON 0-5 and GPE 15-20 becomes "[REDACTED] lives in [REDACTED]" |
| `OrderIds.IsDigit` | redaction.py:10 | `\d`, taken as the ASCII digits |
| `OrderIds.IsWord` | redaction.py:10 | `\w`, taken as the ASCII letters, digits and underscore |
| `OrderIds.BoundaryBefore` | redaction.py:10 | the leading `\b` before a word character: the start of the text or a non-word character before it |
| `OrderIds.DigitRunEnd` | redaction.py:10 | `\d` repeated greedily: the end of the maximal digit run |
| `OrderIds.OrderIdLength` | redaction.py:10 | a match at the start is "ORD-" in either case, then only digits, 6 to 8 of them, then a non-word character or the end |
| `OrderIds.OrderIdLengthComplete` | redaction.py:10 | the converse: "ORD-" in either case, a maximal run of 6 to 8 digits, then a non-word character or the end, is matched with exactly that length |
| `OrderIds.MatchAt` | redaction.py:10 | a match at an offset needs the leading word boundary and ends 10 to 12 characters later, inside the text |
| `OrderIds.MatchAtIff` | redaction.py:10 | the pattern matches at an offset exactly when the leading word boundary holds there and an order id follows, and the match ends where that id ends |
| `OrderIds.Scan` | redaction.py:41 | `re.sub` from an offset: at a match write `[REDACTED]` and resume at its end, otherwise copy one character and try the next offset |
| `OrderIds.SubOrderIds` | redaction.py:10 | the substitution of the order-id rule over the whole text |
| `OrderIds.NoOrderId` | redaction.py:10 | no offset of the text, its end included, starts an order id |
| `OrderIds.FirstMatch` | redaction.py:10 | the leftmost offset at or after a position where the pattern matches, or the end when there is none |
| `OrderIds.ScanWithoutMatch` | redaction.py:10 | with no match from an offset on, the substitution copies the rest of the text |
| `OrderIds.ScanCopiesToFirstMatch` | redaction.py:10 | the substitution copies the text up to the leftmost match, writes `[REDACTED]` and resumes after the match |
| `OrderIds.OrderIdSamePrefix` | redaction.py:10 | whether an id matches depends only on its characters and the one after it |
| `OrderIds.NoNewMatchAtCopiedOffset` | redaction.py:10 | where no id starts in the input, none starts in the output: a placeholder cannot extend or complete an id |
| `OrderIds.NoOrderIdBeforeOpenBracket` | redaction.py:10 | a text that agrees with another up to a "[" after a word boundary starts an order id only if the other does |
| `OrderIds.ScanLeavesNoMatch` | redaction.py:10 | no order id starts anywhere in the substitution's output |
| `OrderIds.SubstitutionLeavesNoOrderId` | redaction.py:10 | the output of `re.sub` for this rule contains no order id |
| `OrderIds.SubstitutionKeepsCleanText` | redaction.py:10 | a text without order ids is returned unchanged |
| `OrderIds.SubstitutionIdempotent` | redaction.py:10 | substituting twice gives the same text as once |
| `OrderIds.SevenDigitIdReplaced` | redaction.py:10 | "ord-1234567" becomes `[REDACTED]` |
| `OrderIds.NineDigitIdKept` | redaction.py:10 | "ORD-123456789" is kept: nine digits are not an order id |
| `OrderIds.GluedIdIsNoOrderId` | redaction.py:10 | "xORD-123456" holds no order id, as the x blocks the leading word boundary |
| `OrderIds.SpliceBeforeGluedId` | redaction.py:45 | a PERSON span over that x makes the text `[REDACTED]ORD-123456` |
| `OrderIds.PlaceholderCompletesOrderId` | redaction.py:10 | in `[REDACTED]ORD-123456` an order id starts at offset 10, since "]" is not a word character |
| `OrderIds.EntityStageCanCreateOrderId` | redaction.py:40-46 | the regex stage keeps "xORD-123456" unchanged, yet the entity stage can turn it into a text holding an order id |
| `OrderIds.RegexStageLeavesNoOrderId` | redaction.py:6-11 | the order-id rule runs last, so with `sub` doing it as modelled, the regex-stage output holds no order id |
| `Concierge.TagAt` | main.py:87 | "Subject:" matched case-insensitively at an offset |
| `Concierge.FormatEmail` | main.py:117 | the composed e-mail: "Subject: ", the subject, a blank line, the body |
| `Concierge.FindTag` | main.py:87 | the leftmost case-insensitive "Subject:" at or after an offset, or None when there is none |
| `Concierge.SkipSpace` | main.py:87 | greedy `\s*`: the end of the whitespace run, which stops at a non-whitespace character or the end |
| `Concierge.LineEnd` | main.py:87 | the lazy group and its lookahead: the first newline at or after the offset, or the end |
| `Concierge.SubjectGroup` | main.py:87 | there is a match exactly when the tag occurs; the group holds no newline and does not start with whitespace |
| `Concierge.ExtractSubject` | main.py:87-90 | a subject exists exactly when the tag occurs; it holds no newline and has no leading or trailing whitespace |
| `Concierge.ExtractAtFirstTag` | main.py:87-90 | extraction reads the line of the first tag, from the first non-whitespace character after it, then strips |
| `Concierge.NoTagNoSubject` | main.py:87-95 | the error path, as a corollary of `ExtractSubject`: without a "Subject:" no subject is bound |
| `Concierge.LoadEmails` | main.py:111-120 | one pair per row, in row order: the formatted e-mail of the stripped subject and body, and the stripped subject; a non-empty single-line subject is recovered from its e-mail by the extraction |
| `Concierge.GroupOfSubjectLine` | main.py:87 | in a composed e-mail whose subject is non-blank and single-line, the regex group is exactly the subject |
| `Concierge.SubjectRoundTrip` | main.py:115-117 | extracting from the composed e-mail gives back `strip(subject)` when it is non-empty and has no newline |
| `Concierge.GroupOfEmptySubject` | main.py:87 | with an empty subject the group is the body's first line |
| `Concierge.EmptySubjectYieldsBodyLine` | main.py:87-90 | with an empty subject, extraction returns the stripped first line of the body, which is non-empty for a non-blank body |
| `Concierge.Ottomation` | main.py:75-106 | the record holds the redacted text of the original, the classifier's team, the label, score and magnitude of the document sentiment, the urgency of team and label, `answered = False`, the original text unchanged; it is the error `UnboundSubject` exactly when there is no subject |
| `Concierge.UrgencyFromScore` | main.py:78 | the stored urgency adds 2 at or below -0.35, 1 up to -0.1, and nothing above |
| `PyText.IsSpace` | main.py:87 | `\s` and `str.isspace()`: Python's whitespace set, including the Unicode separators |
| `PyText.CharMatchesIgnoreCase` | main.py:87 | one text character against one ASCII pattern character under `re.IGNORECASE` |
| `PyText.MatchesIgnoreCase` | main.py:87 | a literal matched character by character under `re.IGNORECASE` |
| `PyText.LStrip` | main.py:115 | drops exactly the leading whitespace run |
| `PyText.RStrip` | main.py:115 | drops exactly the trailing whitespace run |
| `PyText.Strip` | main.py:90 | the result has no whitespace at either end |
| `PyText.StripIsSlice` | main.py:116 | `strip()` keeps one contiguous slice and drops only whitespace |
| `PyText.StripIdempotent` | main.py:90 | stripping twice equals stripping once |
| `PyText.StripEmptyIffBlank` | main.py:90 | `strip()` returns the empty string exactly for a blank string |
| `PyText.StripKeepsNoNewline` | main.py:90 | stripping a single-line string leaves it single-line |

## Left out

- `Frontend.py`: the Streamlit dashboard, the cloud-storage download, the
  table filtering and the grid styling are user interface.
- The external services are inputs, not models: `classify_email`,
  `create_draft_reply`, the Natural Language API call, the spaCy recogniser,
  and the tracing (`traceable`, `get_current_run_tree`).
- `await` and asynchrony: the model runs the stages in the source's order,
  with no concurrency.
- I/O and environment: CSV parsing (`LoadEmails` takes the parsed rows),
  `convert_to_json`, `upload_data_to_gcs`, the `main` loop with its
  `uuid`-based fake addresses, the environment variables, and the timestamp
  formatting (`timestamp` is an input string).
- The regular-expression engine for the e-mail, phone and card patterns:
  `sub` stands for `re.sub`. So "no order id is left" and "substituting twice
  changes nothing" are stated only for the order-id rule, and only for the
  regex-stage output. For `redact`'s final output the first is false:
  `OrderIds.EntityStageCanCreateOrderId` shows the entity stage creating an
  order id. `Redact` as a whole is not proved idempotent, for that reason and
  because the recogniser is a parameter that may report a span over a
  placeholder.
- `OrderIds.IsDigit`, `OrderIds.IsWord`: `\d` and `\w` are taken as the ASCII
  classes; Python's `str` patterns also accept non-ASCII digits and letters.
- Floating point: scores are exact reals, so IEEE rounding at the thresholds
  is not modelled.
- `Redaction.RedactEntities`: requires the spans to be in bounds, ascending
  and non-overlapping, as spaCy's entities are. Behaviour on overlapping or
  unsorted spans is not modelled.
- Python's dictionary values and their dynamic types: records are datatypes
  with typed fields.
