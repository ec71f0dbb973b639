/**
 * Sentiment labelling (sentiment.py, `analyze_sentiment`). The Natural
 * Language API call is outside the model: its response is an input. What is
 * modelled is the five-way threshold classifier `interpret_score` and the
 * construction of the result record with one entry per response sentence.
 * Scores are exact reals, so the thresholds -0.35, -0.1, 0.25 and 0.75 are exact.
 */
module Sentiment {

  /** The five labels, in increasing order of happiness. */
  datatype Label = VeryUnhappy | Unhappy | Neutral | Happy | VeryHappy {

    /** The label as the exact string the source returns. */
    function Name(): string {
      match this
      case VeryUnhappy => "Very unhappy"
      case Unhappy => "Unhappy"
      case Neutral => "Neutral"
      case Happy => "Happy"
      case VeryHappy => "Very Happy"
    }

    /** Position in the order Very unhappy < Unhappy < Neutral < Happy < Very Happy. */
    function Rank(): nat {
      match this
      case VeryUnhappy => 0
      case Unhappy => 1
      case Neutral => 2
      case Happy => 3
      case VeryHappy => 4
    }
  }

  /** `interpret_score`: the threshold chain, first matching branch wins. */
  function InterpretScore(score: real): Label {
    if score <= -0.35 then VeryUnhappy
    else if score <= -0.1 then Unhappy
    else if score < 0.25 then Neutral
    else if score < 0.75 then Happy
    else VeryHappy
  }

  /** Each label is produced for exactly one score interval; the boundaries fall as the comparisons say. */
  lemma InterpretScoreIntervals(score: real)
    ensures InterpretScore(score) == VeryUnhappy <==> score <= -0.35
    ensures InterpretScore(score) == Unhappy <==> -0.35 < score <= -0.1
    ensures InterpretScore(score) == Neutral <==> -0.1 < score < 0.25
    ensures InterpretScore(score) == Happy <==> 0.25 <= score < 0.75
    ensures InterpretScore(score) == VeryHappy <==> 0.75 <= score
  {
  }

  /** `interpret_score` is total: every score yields one of the five strings of sentiment.py:64-72, the one at its rank. */
  lemma InterpretScoreTotal(score: real)
    ensures var names := ["Very unhappy", "Unhappy", "Neutral", "Happy", "Very Happy"];
      && InterpretScore(score).Name() in names
      && names[InterpretScore(score).Rank()] == InterpretScore(score).Name()
  {
  }

  /** The five names are pairwise distinct, so the string identifies the label. */
  lemma NameInjective(a: Label, b: Label)
    requires a.Name() == b.Name()
    ensures a == b
  {
    assert a.Name()[0] == b.Name()[0];
    assert |a.Name()| == |b.Name()|;
  }

  /** The label is monotone in the score. */
  lemma InterpretScoreMonotone(s1: real, s2: real)
    requires s1 <= s2
    ensures InterpretScore(s1).Rank() <= InterpretScore(s2).Rank()
  {
  }

  /** What the API reports for one sentence. */
  datatype SentenceSentiment = SentenceSentiment(content: string, score: real, magnitude: real)

  /** The parts of the API response the source reads. */
  datatype Response = Response(
    documentScore: real,
    documentMagnitude: real,
    languageCode: string,
    sentences: seq<SentenceSentiment>)

  /** One entry of `result["sentences"]`. */
  datatype SentenceResult = SentenceResult(text: string, score: real, magnitude: real, sentimentLabel: string)

  /** The dictionary `analyze_sentiment` returns. */
  datatype SentimentResult = SentimentResult(
    sentimentCategory: string,
    score: real,
    magnitude: real,
    language: string,
    sentences: seq<SentenceResult>)

  /**
   * `analyze_sentiment` after the API call: the document-level fields, then one
   * appended entry per response sentence, in order.
   */
  method AnalyzeSentiment(response: Response) returns (result: SentimentResult)
    ensures result.sentimentCategory == InterpretScore(response.documentScore).Name()
    ensures result.score == response.documentScore && result.magnitude == response.documentMagnitude
    ensures result.language == response.languageCode
    ensures |result.sentences| == |response.sentences|
    ensures forall i :: 0 <= i < |result.sentences| ==>
      && result.sentences[i].text == response.sentences[i].content
      && result.sentences[i].score == response.sentences[i].score
      && result.sentences[i].magnitude == response.sentences[i].magnitude
      && result.sentences[i].sentimentLabel == InterpretScore(response.sentences[i].score).Name()
  {
    var sentences: seq<SentenceResult> := [];
    for i := 0 to |response.sentences|
      invariant |sentences| == i
      invariant forall k :: 0 <= k < i ==>
        && sentences[k].text == response.sentences[k].content
        && sentences[k].score == response.sentences[k].score
        && sentences[k].magnitude == response.sentences[k].magnitude
        && sentences[k].sentimentLabel == InterpretScore(response.sentences[k].score).Name()
    {
      var sentence := response.sentences[i];
      var sentenceScore := sentence.score;
      sentences := sentences + [SentenceResult(
        sentence.content, sentenceScore, sentence.magnitude, InterpretScore(sentenceScore).Name())];
    }
    result := SentimentResult(
      InterpretScore(response.documentScore).Name(),
      response.documentScore,
      response.documentMagnitude,
      response.languageCode,
      sentences);
  }
}
