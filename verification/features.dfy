/** The measurements the AI-likeness score is computed from: one record of
    counts, lists and flags per analysed text, and the patterns behind them. */
module Features {
  import opened Text
  import opened Regex
  import opened Segments
  import Syllables

  /** The contractions the analyser looks for, case-folded. */
  const ContractionWords: seq<string> := [
    "don't", "doesn't", "didn't", "can't", "won't", "wouldn't", "shouldn't", "isn't",
    "aren't", "wasn't", "weren't", "haven't", "hasn't", "hadn't", "it's", "that's",
    "there's", "what's", "who's", "you're", "they're", "we're", "couldn't", "i'm",
    "we've", "i'll", "you'll", "he's", "she's", "they've", "we'd", "you'd"]

  /** The twenty red-flag phrase patterns, each counted separately. */
  const RedFlags: seq<Pattern> := [
    Lead("overall"), Lead("in conclusion"), Lead("to sum up"), Lead("in summary"),
    Word(["the article demonstrates"], true), Word(["the text shows"], true),
    Word(["the passage illustrates"], true), Word(["this demonstrates that"], true),
    Word(["this shows that"], true), Word(["this illustrates"], true),
    Word(["it is important to note that"], true), Word(["it should be noted that"], true),
    Word(["one can see", "one can observe", "one can conclude"], true),
    Word(["as can be seen"], true), Word(["in order to"], true),
    Word(["due to the fact that"], true), Word(["for the purpose of"], true),
    Word(["at this point in time"], true), Word(["in the modern world"], true),
    Word(["in today's society", "in todays society"], true)]

  const TransitionWords: seq<string> := [
    "however", "therefore", "furthermore", "moreover", "consequently", "additionally",
    "nevertheless", "thus", "hence", "accordingly", "subsequently"]

  const TypoWords: seq<string> := [
    "teh", "taht", "tehm", "waht", "whcih", "jsut", "tehn", "thier", "recieve",
    "occured", "writting", "goverment", "seperate", "definately"]

  /** The transitions whose missing comma counts as a human slip. */
  const CommaTransitions: seq<string> := ["however", "therefore", "furthermore", "moreover", "consequently"]

  const CasualWords: seq<string> := [
    "really", "pretty", "quite", "actually", "basically", "honestly", "literally",
    "totally", "kinda", "sorta", "gonna", "wanna", "yeah", "nope", "ok", "okay"]

  const EmDash: char := '—'

  datatype Features = Features(
    wordCount: nat,              // len(text.strip().split()), before flooring
    lengths: seq<nat>,           // words per sentence
    firstWords: seq<string>,     // lower-cased leading word of each sentence that has one
    contractions: nat,
    redFlags: nat,
    transitions: nat,
    typos: nat,
    doubleSpaces: nat,           // runs of two or more spaces
    missingCommas: nat,
    periodNoSpace: nat,          // a period directly followed by a capital
    casual: nat,
    exclamations: nat,
    ellipsis: bool,
    emDash: bool,
    semicolon: bool,
    question: bool,
    colon: bool,
    longWords: seq<string>)      // folded letters of each word, when longer than 3

  /** The red-flag total: the matches of every pattern, added up. */
  function RedFlagCount(t: string, ps: seq<Pattern>): nat
  {
    if |ps| == 0 then 0 else Count(t, ps[0]) + RedFlagCount(t, ps[1..])
  }

  /** `[w for w in (re.sub('[^a-z]', '', x.lower()) for x in ws) if len(w) > 3]`. */
  function LongWords(ws: seq<string>): (lw: seq<string>)
    ensures |lw| <= |ws|
    ensures forall k :: 0 <= k < |lw| ==> |lw[k]| > 3
  {
    if |ws| == 0 then []
    else
      var w := Syllables.Letters(ws[0]);
      var rest := LongWords(ws[1..]);
      if |w| > 3 then [w] + rest else rest
  }

  predicate Has(t: string, c: char) {
    exists k :: 0 <= k < |t| && t[k] == c
  }

  /** What the analyser measures in a text. Every sentence has at least one
      word, and the word count is the number of whitespace-separated tokens. */
  function Extract(t: string): (f: Features)
    ensures f.wordCount == |Words(t)|
    ensures forall k :: 0 <= k < |f.lengths| ==> f.lengths[k] >= 1
    ensures |f.firstWords| <= |f.lengths|
    ensures forall k :: 0 <= k < |f.longWords| ==> |f.longWords[k]| > 3
    ensures f.exclamations == CountChar(t, '!')
  {
    var ws := Words(Strip(t));
    WordsStrip(t);
    var ss := Sentences(t);
    Features(
      |ws|,
      Lengths(ss),
      FirstWords(ss),
      Count(t, Word(ContractionWords, true)),
      RedFlagCount(t, RedFlags),
      Count(t, Word(TransitionWords, true)),
      Count(t, Word(TypoWords, true)),
      Count(t, CharRun(' ', 2)),
      Count(t, WordThenLetter(CommaTransitions)),
      Count(t, PeriodUpper),
      Count(t, Word(CasualWords, true)),
      CountChar(t, '!'),
      Found(t, Lit("...")),
      Has(t, EmDash),
      Has(t, ';'),
      Has(t, '?'),
      Has(t, ':'),
      LongWords(ws))
  }
}
