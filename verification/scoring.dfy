/** The AI-likeness score: eleven banded signals add integer points to a
    confidence value, which is mapped to a percentage clamped to [0, 100]
    and rounded, half to even, to a display score out of 10. Ratios are
    compared exactly over the reals. */
module Scoring {
  import opened Text
  import opened Features

  // ---------------------------------------------------------------------------
  // Statistics of the sentence lengths

  function Sum(ls: seq<nat>): nat
  {
    if |ls| == 0 then 0 else ls[0] + Sum(ls[1..])
  }

  function Mean(ls: seq<nat>): real
    requires |ls| > 0
  {
    Sum(ls) as real / |ls| as real
  }

  function SquaredDeviations(ls: seq<nat>, m: real): (r: real)
    ensures r >= 0.0
  {
    if |ls| == 0 then 0.0 else (ls[0] as real - m) * (ls[0] as real - m) + SquaredDeviations(ls[1..], m)
  }

  /** The population variance. */
  function Variance(ls: seq<nat>): (v: real)
    requires |ls| > 0
    ensures v >= 0.0
  {
    SquaredDeviations(ls, Mean(ls)) / |ls| as real
  }

  lemma {:induction false} SumAtLeast(ls: seq<nat>)
    requires forall k :: 0 <= k < |ls| ==> ls[k] >= 1
    ensures Sum(ls) >= |ls|
  {
    if |ls| > 0 {
      assert forall k :: 0 <= k < |ls| - 1 ==> ls[1..][k] == ls[k + 1];
      SumAtLeast(ls[1..]);
    }
  }

  /** Every analysed sentence has a word, so the mean length is at least 1
      and the coefficient of variation never divides by zero. */
  lemma MeanAtLeastOne(ls: seq<nat>)
    requires |ls| > 0 && forall k :: 0 <= k < |ls| ==> ls[k] >= 1
    ensures Mean(ls) >= 1.0
  {
    SumAtLeast(ls);
    var n := |ls| as real;
    var q := Mean(ls);
    assert q * n == Sum(ls) as real;
    if q < 1.0 {
      assert q * n < n;
    }
  }

  // ---------------------------------------------------------------------------
  // Factor 1: sentence-length uniformity

  /** The grading of the coefficient of variation, as a function of the
      coefficient itself. */
  function CvBand(cv: real): (d: int)
    ensures cv < 0.45 ==> d > 0
    ensures cv > 0.55 ==> d < 0
  {
    if cv < 0.15 then 35
    else if cv < 0.25 then 25
    else if cv < 0.35 then 15
    else if cv < 0.45 then 5
    else if cv > 0.7 then -25
    else if cv > 0.55 then -15
    else 0
  }

  function Sq(x: real): real { x * x }

  /** Factor 1 without the square root: with mean m > 0, `sd / m < t` is
      decided as `variance < (t * m)^2`, and likewise for `>`. */
  function Uniformity(ls: seq<nat>): (d: int)
    ensures |ls| <= 2 ==> d == 0
    ensures -25 <= d <= 35
  {
    if |ls| <= 2 then 0
    else
      var m := Mean(ls);
      var v := Variance(ls);
      if m <= 0.0 then 35
      else if v < Sq(0.15 * m) then 35
      else if v < Sq(0.25 * m) then 25
      else if v < Sq(0.35 * m) then 15
      else if v < Sq(0.45 * m) then 5
      else if v > Sq(0.7 * m) then -25
      else if v > Sq(0.55 * m) then -15
      else 0
  }

  /** Squaring is strictly monotone on the non-negative reals. */
  lemma SqLess(a: real, b: real)
    requires a >= 0.0 && b >= 0.0
    ensures a < b <==> a * a < b * b
  {
    if a < b {
      var d := b - a;
      assert d > 0.0;
      assert b * b == a * a + d * (a + b);
      assert d * (a + b) > 0.0;
    } else {
      assert b * b <= b * a;
      assert b * a <= a * a;
    }
  }

  /** Comparing a non-negative ratio with a threshold is comparing squares. */
  lemma CvTest(sd: real, m: real, t: real)
    requires sd >= 0.0 && m > 0.0 && t > 0.0
    ensures sd / m < t <==> sd * sd < Sq(t * m)
    ensures sd / m > t <==> sd * sd > Sq(t * m)
  {
    var y := t * m;
    assert y > 0.0;
    assert sd / m < t <==> sd < y;
    assert sd / m > t <==> sd > y;
    SqLess(sd, y);
    SqLess(y, sd);
  }

  /** The square-root-free grading agrees with grading the coefficient of
      variation `sd / mean` for the standard deviation sd (any non-negative
      square root of the variance), and with a coefficient of 0 when the mean
      is 0. */
  lemma UniformityIsCvBand(ls: seq<nat>, sd: real)
    requires |ls| > 2 && sd >= 0.0 && sd * sd == Variance(ls)
    ensures Uniformity(ls) == CvBand(if Mean(ls) > 0.0 then sd / Mean(ls) else 0.0)
  {
    var m := Mean(ls);
    if m > 0.0 {
      CvTest(sd, m, 0.15);
      CvTest(sd, m, 0.25);
      CvTest(sd, m, 0.35);
      CvTest(sd, m, 0.45);
      CvTest(sd, m, 0.7);
      CvTest(sd, m, 0.55);
    }
  }

  // ---------------------------------------------------------------------------
  // Factor 2: runs of similar sentence lengths

  function Dist(a: nat, b: nat): nat { if a >= b then a - b else b - a }

  /** Adjacent pairs whose lengths differ by less than 3. */
  function SimilarPairs(ls: seq<nat>): (n: nat)
    ensures |ls| >= 1 ==> n <= |ls| - 1
  {
    if |ls| < 2 then 0
    else (if Dist(ls[0], ls[1]) < 3 then 1 else 0) + SimilarPairs(ls[1..])
  }

  function Flow(ls: seq<nat>): (d: int)
    ensures |ls| <= 3 ==> d == 0
    ensures -15 <= d <= 20
  {
    if |ls| <= 3 then 0
    else
      var ratio := SimilarPairs(ls) as real / (|ls| - 1) as real;
      if ratio > 0.7 then 20 else if ratio < 0.3 then -15 else 0
  }

  // ---------------------------------------------------------------------------
  // Factors 3 to 11

  function ContractionSignal(contractions: nat, wc: nat): (d: int)
    requires wc >= 1
    ensures -20 <= d <= 30
    ensures contractions == 0 ==> d > 0
  {
    var density := contractions as real / wc as real;
    if density == 0.0 && wc > 30 then 30
    else if density < 0.01 then 20
    else if density < 0.02 then 10
    else if density > 0.05 then -20
    else if density > 0.03 then -10
    else 0
  }

  function Distinct(ws: seq<string>): (n: nat)
  {
    |set w | w in ws|
  }

  function StarterSignal(fw: seq<string>): (d: int)
    ensures |fw| <= 3 ==> d == 0
    ensures -15 <= d <= 25
  {
    if |fw| <= 3 then 0
    else
      var variety := Distinct(fw) as real / |fw| as real;
      if variety < 0.4 then 25 else if variety < 0.6 then 12 else if variety > 0.85 then -15 else 0
  }

  function TransitionSignal(transitions: nat, sc: nat): (d: int)
    requires sc >= 1
    ensures 0 <= d <= 25
    ensures transitions == 0 ==> d == 0
  {
    var density := transitions as real / sc as real;
    if density > 0.4 then 25 else if density > 0.25 then 15 else if density > 0.15 then 8 else 0
  }

  /** The human-imperfection points, subtracted from the confidence. */
  function Imperfections(f: Features): (p: nat)
    ensures p >= 8 * f.typos && p >= 5 * f.doubleSpaces
    ensures p >= 6 * f.missingCommas && p >= 7 * f.periodNoSpace
    ensures p == 0 <==> f.typos == 0 && f.doubleSpaces == 0 && f.missingCommas == 0 && f.periodNoSpace == 0
  {
    8 * f.typos + 5 * f.doubleSpaces + 6 * f.missingCommas + 7 * f.periodNoSpace
  }

  function CasualSignal(casual: nat, wc: nat): (d: int)
    requires wc >= 1
    ensures -20 <= d <= 10
    ensures d > 0 ==> casual == 0 && wc > 50
  {
    var density := casual as real / wc as real;
    if density > 0.04 then -20 else if density > 0.02 then -12 else if density == 0.0 && wc > 50 then 10 else 0
  }

  /** Points for varied punctuation. */
  function PunctuationPoints(f: Features): (p: nat)
    ensures p <= 38
  {
    (if f.ellipsis then 8 else 0)
    + (if f.emDash then 8 else 0)
    + (if f.semicolon then 6 else 0)
    + (if 1 <= f.exclamations <= 3 then 7 else 0)
    + (if f.question then 5 else 0)
    + (if f.colon then 4 else 0)
  }

  /** None of `! ? ; : —` occurs. */
  predicate OnlyPeriods(f: Features) {
    f.exclamations == 0 && !f.question && !f.semicolon && !f.colon && !f.emDash
  }

  function PunctuationSignal(f: Features, sc: nat): (d: int)
    ensures -38 <= d <= 15
    ensures d > 0 <==> OnlyPeriods(f) && sc > 3
  {
    if OnlyPeriods(f) && sc > 3 then 15 else -(PunctuationPoints(f) as int)
  }

  function RepetitionSignal(lw: seq<string>): (d: int)
    ensures |lw| <= 10 ==> d == 0
    ensures -12 <= d <= 18
  {
    if |lw| <= 10 then 0
    else
      var ratio := Distinct(lw) as real / |lw| as real;
      if ratio < 0.5 then 18 else if ratio < 0.65 then 10 else if ratio > 0.85 then -12 else 0
  }

  function ExclamationSignal(exclamations: nat, wc: nat, sc: nat): (d: int)
    ensures -8 <= d <= 12
    ensures d < 0 <==> 1 <= exclamations <= 3
  {
    if exclamations == 0 && wc > 50 then 8
    else if exclamations > 5 && sc < 10 then 12
    else if 1 <= exclamations <= 3 then -8
    else 0
  }

  // ---------------------------------------------------------------------------
  // Aggregation and mapping

  /** `word_count`: the token count, floored to 1. */
  function WordCount(f: Features): (n: nat)
    ensures n >= 1
  {
    AtLeastOne(f.wordCount)
  }

  /** `sentence_count`: the sentence count, floored to 1. */
  function SentenceCount(f: Features): (n: nat)
    ensures n >= 1
  {
    AtLeastOne(|f.lengths|)
  }

  /** The signals that do not depend on red flags or imperfections. */
  function BaseSignals(f: Features): (d: int)
    ensures -153 <= d <= 190
  {
    var wc := WordCount(f);
    var sc := SentenceCount(f);
    Uniformity(f.lengths)
    + Flow(f.lengths)
    + ContractionSignal(f.contractions, wc)
    + StarterSignal(f.firstWords)
    + TransitionSignal(f.transitions, sc)
    + CasualSignal(f.casual, wc)
    + PunctuationSignal(f, sc)
    + RepetitionSignal(f.longWords)
    + ExclamationSignal(f.exclamations, wc, sc)
  }

  /** `ai_confidence`: the banded signals, 15 points per red flag, minus the
      imperfection points. */
  function Confidence(f: Features): (c: int)
    ensures -153 - Imperfections(f) <= c <= 190 + 15 * f.redFlags
  {
    BaseSignals(f) + 15 * f.redFlags - Imperfections(f)
  }

  /** Each red flag adds exactly 15, whatever else the text contains. */
  lemma RedFlagsAddFifteen(f: Features, n: nat)
    ensures Confidence(f.(redFlags := f.redFlags + n)) == Confidence(f) + 15 * n
  {
    var g := f.(redFlags := f.redFlags + n);
    assert BaseSignals(g) == BaseSignals(f);
    assert Imperfections(g) == Imperfections(f);
  }

  /** Typos, double spaces, missing commas and glued periods lower the
      confidence by 8, 5, 6 and 7 points each. */
  lemma ImperfectionsSubtract(f: Features, typos: nat, spaces: nat, commas: nat, periods: nat)
    ensures var g := f.(typos := f.typos + typos, doubleSpaces := f.doubleSpaces + spaces,
                        missingCommas := f.missingCommas + commas, periodNoSpace := f.periodNoSpace + periods);
      Confidence(g) == Confidence(f) - (8 * typos + 5 * spaces + 6 * commas + 7 * periods)
  {
    var g := f.(typos := f.typos + typos, doubleSpaces := f.doubleSpaces + spaces,
                missingCommas := f.missingCommas + commas, periodNoSpace := f.periodNoSpace + periods);
    assert BaseSignals(g) == BaseSignals(f);
  }

  function Clamp(x: real, lo: real, hi: real): (r: real)
    requires lo <= hi
    ensures lo <= r <= hi
    ensures lo <= x <= hi ==> r == x
    ensures x < lo ==> r == lo
    ensures x > hi ==> r == hi
  {
    if x < lo then lo else if x > hi then hi else x
  }

  /** `max(0, min(100, 50 + c / 2))`. */
  function Percentage(c: int): (p: real)
    ensures 0.0 <= p <= 100.0
  {
    Clamp(50.0 + c as real / 2.0, 0.0, 100.0)
  }

  /** Python's `round` on a real: the nearest integer, ties to the even one. */
  function RoundHalfEven(x: real): (r: int)
    ensures r as real - 0.5 <= x <= r as real + 0.5
    ensures x - x.Floor as real == 0.5 ==> r % 2 == 0
  {
    var fl := x.Floor;
    var d := x - fl as real;
    if d < 0.5 then fl
    else if d > 0.5 then fl + 1
    else if fl % 2 == 0 then fl
    else fl + 1
  }

  /** An integer closer than one half to x is the rounding of x. */
  lemma RoundNearest(x: real, k: int)
    requires k as real - 0.5 < x < k as real + 0.5
    ensures RoundHalfEven(x) == k
  {
  }

  lemma RoundMonotone(x: real, y: real)
    requires x <= y
    ensures RoundHalfEven(x) <= RoundHalfEven(y)
  {
  }

  /** `round(percentage / 10)`: the display score. */
  function Score(c: int): (s: int)
    ensures 0 <= s <= 10
  {
    var x := Percentage(c) / 10.0;
    RoundMonotone(0.0, x);
    RoundMonotone(x, 10.0);
    RoundNearest(0.0, 0);
    RoundNearest(10.0, 10);
    RoundHalfEven(x)
  }

  lemma ScoreMonotone(c: int, d: int)
    requires c <= d
    ensures Score(c) <= Score(d)
  {
    RoundMonotone(Percentage(c) / 10.0, Percentage(d) / 10.0);
  }

  /** The half-way cases round to even: -90 maps to 5% and a score of 0,
      -70 maps to 15% and a score of 2, 90 maps to 95% and a score of 10. */
  lemma ScoreTies()
    ensures Score(-90) == 0 && Score(-70) == 2 && Score(90) == 10
  {
    assert Percentage(-90) / 10.0 == 0.5;
    assert Percentage(-70) / 10.0 == 1.5;
    assert Percentage(90) / 10.0 == 9.5;
  }

  /** The extreme scores: 10 exactly from confidence 90 up, 0 exactly from
      -90 down. */
  lemma ScoreExtremes(c: int)
    ensures Score(c) == 10 <==> c >= 90
    ensures Score(c) == 0 <==> c <= -90
  {
    ScoreTies();
    if c >= 90 {
      ScoreMonotone(90, c);
    } else {
      ScoreMonotone(c, 89);
      RoundNearest(Percentage(89) / 10.0, 9);
    }
    if c <= -90 {
      ScoreMonotone(c, -90);
    } else {
      ScoreMonotone(-89, c);
      RoundNearest(Percentage(-89) / 10.0, 1);
    }
  }

  /** `calculate_ai_score(text)`. */
  function AiScore(text: string): (s: int)
    ensures 0 <= s <= 10
  {
    Score(Confidence(Extract(text)))
  }

  /** More red flags never lower the score. */
  lemma AiScoreRedFlagsMonotone(f: Features, n: nat)
    ensures Score(Confidence(f)) <= Score(Confidence(f.(redFlags := f.redFlags + n)))
  {
    RedFlagsAddFifteen(f, n);
    ScoreMonotone(Confidence(f), Confidence(f.(redFlags := f.redFlags + n)));
  }

  /** More imperfections never raise the score. */
  lemma AiScoreImperfectionsAntitone(f: Features, typos: nat, spaces: nat, commas: nat, periods: nat)
    ensures var g := f.(typos := f.typos + typos, doubleSpaces := f.doubleSpaces + spaces,
                        missingCommas := f.missingCommas + commas, periodNoSpace := f.periodNoSpace + periods);
      Score(Confidence(g)) <= Score(Confidence(f))
  {
    var g := f.(typos := f.typos + typos, doubleSpaces := f.doubleSpaces + spaces,
                missingCommas := f.missingCommas + commas, periodNoSpace := f.periodNoSpace + periods);
    ImperfectionsSubtract(f, typos, spaces, commas, periods);
    ScoreMonotone(Confidence(g), Confidence(f));
  }
}
