/**
 * Urgency scoring (urgency.py, `define_urgency`): points for the support
 * category plus points for the sentiment label. Category and label are matched
 * as exact, case-sensitive strings; anything unmatched contributes nothing.
 */
module Urgency {

  /** Aftersales categories: 3 points. */
  const Aftersales: seq<string> := [
    "Shipping and Delivery Updates",
    "Returns and Exchanges Management",
    "Claims and Product Defects",
    "Payment and Billing Support"
  ]

  /** Presales/aftersales categories: 2 points. */
  const Support: seq<string> := [
    "Product Consultation",
    "Order Support",
    "Technical Assistance",
    "Customer Account Support"
  ]

  /** Less urgent categories: 1 point. */
  const LessUrgent: seq<string> := [
    "Loyalty Programs and Discounts",
    "Customer Feedback and Complaints"
  ]

  /** Points for the category, tested bucket by bucket as the `if/elif` chain does. */
  function CategoryPoints(category: string): (r: nat)
    ensures r <= 3
  {
    if category in Aftersales then 3
    else if category in Support then 2
    else if category in LessUrgent then 1
    else 0
  }

  /** Points for the sentiment label. */
  function SentimentPoints(sentiment: string): (r: nat)
    ensures r <= 2
  {
    if sentiment == "Very unhappy" then 2
    else if sentiment == "Unhappy" then 1
    else 0
  }

  /**
   * `define_urgency`: a local accumulator starts at 0 and is bumped once by the
   * category chain and once by the sentiment chain. The result is an integer
   * (the source annotates it `str`, returns an `int`, and its tests check `int`).
   */
  method DefineUrgency(category: string, sentiment: string) returns (urgencyScore: int)
    ensures urgencyScore == CategoryPoints(category) + SentimentPoints(sentiment)
    ensures 0 <= urgencyScore <= 5
  {
    urgencyScore := 0;

    if category in Aftersales {
      urgencyScore := urgencyScore + 3;
    } else if category in Support {
      urgencyScore := urgencyScore + 2;
    } else if category in LessUrgent {
      urgencyScore := urgencyScore + 1;
    }

    if sentiment == "Very unhappy" {
      urgencyScore := urgencyScore + 2;
    } else if sentiment == "Unhappy" {
      urgencyScore := urgencyScore + 1;
    }
  }

  /** The urgency as a value, for reasoning outside a method. */
  function Score(category: string, sentiment: string): (r: nat)
    ensures r <= 5
  {
    CategoryPoints(category) + SentimentPoints(sentiment)
  }

  /** Each of the four aftersales categories gives exactly 3 points. */
  lemma AftersalesScoreThree()
    ensures CategoryPoints("Shipping and Delivery Updates") == 3
    ensures CategoryPoints("Returns and Exchanges Management") == 3
    ensures CategoryPoints("Claims and Product Defects") == 3
    ensures CategoryPoints("Payment and Billing Support") == 3
  {
  }

  /** The four support categories give exactly 2 points, the two loyalty/feedback ones exactly 1. */
  lemma SupportScoreTwoLessUrgentOne()
    ensures CategoryPoints("Product Consultation") == 2
    ensures CategoryPoints("Order Support") == 2
    ensures CategoryPoints("Technical Assistance") == 2
    ensures CategoryPoints("Customer Account Support") == 2
    ensures CategoryPoints("Loyalty Programs and Discounts") == 1
    ensures CategoryPoints("Customer Feedback and Complaints") == 1
  {
    assert "Product Consultation" !in Aftersales;
    assert "Order Support" !in Aftersales;
    assert "Technical Assistance" !in Aftersales;
    assert "Customer Account Support" !in Aftersales;
    assert "Loyalty Programs and Discounts" !in Aftersales + Support;
    assert "Customer Feedback and Complaints" !in Aftersales + Support;
  }

  /** Membership decides the points both ways: a category scores k > 0 exactly when it is in bucket k. */
  lemma CategoryPointsIff(category: string)
    ensures CategoryPoints(category) == 3 <==> category in Aftersales
    ensures CategoryPoints(category) == 2 <==> category in Support
    ensures CategoryPoints(category) == 1 <==> category in LessUrgent
    ensures CategoryPoints(category) == 0 <==> category !in Aftersales + Support + LessUrgent
  {
    BucketsDisjoint(category);
  }

  /**
   * Matching is exact and case-sensitive: the docstring's own example
   * "Shipping and Delivery Updates (Aftersales)" is in no bucket, and neither
   * is a differently cased category name.
   */
  lemma UnlistedCategoriesScoreZero()
    ensures CategoryPoints("Shipping and Delivery Updates (Aftersales)") == 0
    ensures CategoryPoints("Product Consultation (Presales)") == 0
    ensures CategoryPoints("shipping and delivery updates") == 0
    ensures CategoryPoints("Unknown Category") == 0
  {
    assert "Shipping and Delivery Updates (Aftersales)" != "Shipping and Delivery Updates";
    assert "Product Consultation (Presales)" != "Product Consultation";
    assert "shipping and delivery updates"[0] != "Shipping and Delivery Updates"[0];
  }

  /** Sentiment adds 2 only for exactly "Very unhappy", 1 only for exactly "Unhappy", else 0. */
  lemma SentimentPointsIff(sentiment: string)
    ensures SentimentPoints(sentiment) == 2 <==> sentiment == "Very unhappy"
    ensures SentimentPoints(sentiment) == 1 <==> sentiment == "Unhappy"
    ensures SentimentPoints(sentiment) == 0 <==> sentiment != "Very unhappy" && sentiment != "Unhappy"
    ensures SentimentPoints("Very Happy") == 0 && SentimentPoints("very unhappy") == 0
  {
    assert "Very Happy" != "Very unhappy";
    assert "very unhappy"[0] != "Very unhappy"[0];
  }

  /** No category is in two buckets. */
  lemma BucketsDisjoint(category: string)
    ensures !(category in Aftersales && category in Support)
    ensures !(category in Aftersales && category in LessUrgent)
    ensures !(category in Support && category in LessUrgent)
  {
    forall i, j | 0 <= i < |Aftersales| && 0 <= j < |Support| ensures Aftersales[i] != Support[j] {
      DistinctPrefix(Aftersales[i], Support[j]);
    }
    forall i, j | 0 <= i < |Aftersales| && 0 <= j < |LessUrgent| ensures Aftersales[i] != LessUrgent[j] {
      DistinctPrefix(Aftersales[i], LessUrgent[j]);
    }
    forall i, j | 0 <= i < |Support| && 0 <= j < |LessUrgent| ensures Support[i] != LessUrgent[j] {
      DistinctPrefix(Support[i], LessUrgent[j]);
    }
  }

  /** Two strings whose first two characters differ, or whose lengths differ, are different. */
  lemma DistinctPrefix(a: string, b: string)
    requires |a| >= 2 && |b| >= 2
    requires a[0] != b[0] || a[1] != b[1] || |a| != |b|
    ensures a != b
  {
  }

  /**
   * Because the buckets are disjoint, the order of the `elif` chain does not
   * matter: the points equal the sum of the three independent membership tests.
   */
  lemma CategoryPointsOrderIndependent(category: string)
    ensures CategoryPoints(category) ==
      (if category in Aftersales then 3 else 0)
      + (if category in Support then 2 else 0)
      + (if category in LessUrgent then 1 else 0)
  {
    BucketsDisjoint(category);
  }

  /** Worked examples: 5 for a "Very unhappy" defect claim, 1 for a happy loyalty mail, 0 for an unknown category with a "Neutral" label. */
  lemma ScoreExamples()
    ensures Score("Claims and Product Defects", "Very unhappy") == 5
    ensures Score("Loyalty Programs and Discounts", "Happy") == 1
    ensures Score("Unknown Category", "Neutral") == 0
  {
    assert "Loyalty Programs and Discounts" !in Aftersales + Support;
    assert "Happy" != "Very unhappy" && "Happy" != "Unhappy";
    UnlistedCategoriesScoreZero();
  }

  /** With the category fixed, "Very unhappy" >= "Unhappy" >= any other label. */
  lemma ScoreMonotoneInSentiment(category: string, other: string)
    requires other != "Very unhappy" && other != "Unhappy"
    ensures Score(category, "Very unhappy") == Score(category, "Unhappy") + 1
    ensures Score(category, "Unhappy") == Score(category, other) + 1
  {
  }

  /** With the sentiment fixed, a bucket-3 category >= bucket-2 >= bucket-1 >= an unmatched one. */
  lemma ScoreMonotoneInCategory(c3: string, c2: string, c1: string, c0: string, sentiment: string)
    requires c3 in Aftersales && c2 in Support && c1 in LessUrgent
    requires c0 !in Aftersales + Support + LessUrgent
    ensures Score(c3, sentiment) == Score(c2, sentiment) + 1
    ensures Score(c2, sentiment) == Score(c1, sentiment) + 1
    ensures Score(c1, sentiment) == Score(c0, sentiment) + 1
  {
    BucketsDisjoint(c2);
    BucketsDisjoint(c1);
  }
}
