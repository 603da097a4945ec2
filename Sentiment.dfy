/** The result of a sentiment evaluation (Mute.Moe/Services/Sentiment/ISentimentEvaluator.cs):
    three scores and the class chosen from them. Scores are reals; the source's `float`
    NaN, which would fail every comparison and fall through to Neutral, is not representable. */
module Sentiment {

  datatype Sentiment = Negative | Positive | Neutral

  datatype SentimentResult = SentimentResult(
    text: string,
    classificationScore: real,
    classification: Sentiment,
    negativeScore: real,
    positiveScore: real,
    neutralScore: real,
    classificationTime: int)

  /** The score the result holds for sentiment `s`. */
  function ScoreOf(r: SentimentResult, s: Sentiment): real
  {
    match s
    case Negative => r.negativeScore
    case Positive => r.positiveScore
    case Neutral => r.neutralScore
  }

  /** `Math.Max` */
  function Max(a: real, b: real): real
  {
    if a > b then a else b
  }

  /** The `SentimentResult` constructor: stores its inputs, takes the largest score and
      chooses the first class, in the order Negative, Positive, Neutral, that reaches it. */
  function NewSentimentResult(message: string, negative: real, positive: real, neutral: real, time: int): (r: SentimentResult)
    ensures r.text == message && r.classificationTime == time
    ensures r.negativeScore == negative && r.positiveScore == positive && r.neutralScore == neutral
    ensures r.classificationScore >= negative && r.classificationScore >= positive && r.classificationScore >= neutral
    ensures r.classificationScore in {negative, positive, neutral}
    ensures ScoreOf(r, r.classification) == r.classificationScore
    ensures r.classification == Negative <==> negative >= positive && negative >= neutral
    ensures r.classification == Positive <==> positive > negative && positive >= neutral
    ensures r.classification == Neutral <==> neutral > negative && neutral > positive
  {
    var score := Max(negative, Max(positive, neutral));
    var classification :=
      if score == negative then Negative
      else if score == positive then Positive
      else Neutral;
    SentimentResult(message, score, classification, negative, positive, neutral, time)
  }

  /** No other class scores strictly more than the chosen one, and every class listed
      before the chosen one in the tie-break order scores strictly less. */
  lemma ClassificationIsTieBrokenArgmax(message: string, negative: real, positive: real, neutral: real, time: int)
    ensures var r := NewSentimentResult(message, negative, positive, neutral, time);
      forall s :: ScoreOf(r, s) <= ScoreOf(r, r.classification) &&
        (Rank(s) < Rank(r.classification) ==> ScoreOf(r, s) < ScoreOf(r, r.classification))
  {
  }

  /** Position of a class in the tie-break order. */
  function Rank(s: Sentiment): nat
  {
    match s
    case Negative => 0
    case Positive => 1
    case Neutral => 2
  }
}
