/** The Flesch reading-ease score of a text, over exact reals:
    206.835 - 1.015 * (words / sentences) - 84.6 * (syllables / words),
    with each of the three counts floored to 1. */
module Readability {
  import opened Text
  import opened Segments
  import opened Syllables

  /** Total syllable estimate of a word list. */
  function SyllableSum(ws: seq<string>): nat
  {
    if |ws| == 0 then 0 else CountSyllables(ws[0]) + SyllableSum(ws[1..])
  }

  /** The three counts of the formula, each floored to 1. */
  datatype Counts = Counts(words: nat, sentences: nat, syllables: nat)

  function CountsOf(text: string): (c: Counts)
    ensures c.words >= 1 && c.sentences >= 1 && c.syllables >= 1
    ensures |Words(text)| >= 1 ==> c.words == |Words(text)|
    ensures |Sentences(text)| >= 1 ==> c.sentences == |Sentences(text)|
  {
    var ws := Words(Strip(text));
    WordsStrip(text);
    Counts(AtLeastOne(|ws|), AtLeastOne(|Sentences(text)|), AtLeastOne(SyllableSum(ws)))
  }

  function Ease(c: Counts): (score: real)
    requires c.words >= 1 && c.sentences >= 1
  {
    206.835 - 1.015 * (c.words as real / c.sentences as real) - 84.6 * (c.syllables as real / c.words as real)
  }

  /** `flesch_reading_ease(text)` before the final rounding: every division
      has a positive denominator, so the score is defined for every text,
      the empty one included, and stays below the formula's constant. */
  function FleschReadingEase(text: string): (score: real)
    ensures score < 206.835
  {
    var c := CountsOf(text);
    EaseBelowConstant(c);
    Ease(c)
  }

  lemma EaseBelowConstant(c: Counts)
    requires c.words >= 1 && c.sentences >= 1 && c.syllables >= 1
    ensures Ease(c) < 206.835
  {
    var a := c.words as real / c.sentences as real;
    var b := c.syllables as real / c.words as real;
    assert a > 0.0;
    assert b > 0.0;
  }

  /** A blank text scores 206.835 - 1.015 - 84.6. */
  lemma FleschOfBlank(text: string)
    requires AllSpace(text)
    ensures FleschReadingEase(text) == 121.22
  {
    WordsOfSpaces(text);
    WordsStrip(text);
    SentencesOfBlank(text);
    StripBlank(text);
    assert Words(Strip(text)) == [];
    assert CountsOf(text) == Counts(1, 1, 1);
  }

  /** With the word and sentence counts fixed, more syllables lower the score. */
  lemma EaseSyllablesAntitone(c: Counts, extra: nat)
    requires c.words >= 1 && c.sentences >= 1
    ensures Ease(c.(syllables := c.syllables + extra)) <= Ease(c)
  {
    var w := c.words as real;
    assert (c.syllables + extra) as real / w >= c.syllables as real / w;
  }
}
