/** How hard the humanizer works on a text: the length tier picked from the
    word count, the per-tier rates of the random edits, the gate every rate
    is used through, the two ways a draw picks a value (`random.choice` and
    `random.randint`), and the tier label reported with the result. */
module Profile {
  datatype Tier = Short | Long | VeryLong

  /** Short < Long < VeryLong. */
  function Rank(t: Tier): nat
  {
    match t
    case Short => 0
    case Long => 1
    case VeryLong => 2
  }

  /** The tier of a text with `wordCount` whitespace-separated words: long
      above 100 words, very long above 300. */
  function TierOf(wordCount: nat): (t: Tier)
    ensures t == VeryLong <==> wordCount > 300
    ensures t == Short <==> wordCount <= 100
  {
    if wordCount > 300 then VeryLong
    else if wordCount > 100 then Long
    else Short
  }

  /** `is_long_text`: every very long text is also long. */
  predicate IsLong(t: Tier) { t != Short }

  predicate IsVeryLong(t: Tier) { t == VeryLong }

  lemma VeryLongIsLong(wordCount: nat)
    ensures IsVeryLong(TierOf(wordCount)) ==> IsLong(TierOf(wordCount))
    ensures IsLong(TierOf(wordCount)) <==> wordCount > 100
  {
  }

  /** More words never give a lower tier. */
  lemma TierMonotone(a: nat, b: nat)
    requires a <= b
    ensures Rank(TierOf(a)) <= Rank(TierOf(b))
  {
  }

  datatype Rates = Rates(synonym: real, contraction: real, casual: real, filler: real, starter: real)

  predicate InUnit(x: real) { 0.0 <= x <= 1.0 }

  predicate RatesInUnit(r: Rates) {
    InUnit(r.synonym) && InUnit(r.contraction) && InUnit(r.casual) && InUnit(r.filler) && InUnit(r.starter)
  }

  /** Every rate of `a` is at most the matching rate of `b`. */
  predicate RatesBelow(a: Rates, b: Rates) {
    a.synonym <= b.synonym && a.contraction <= b.contraction && a.casual <= b.casual
    && a.filler <= b.filler && a.starter <= b.starter
  }

  /** The edit rates of a tier. */
  function RatesOf(t: Tier): (r: Rates)
    ensures RatesInUnit(r)
    ensures r.starter <= r.filler <= r.casual < r.synonym < r.contraction
  {
    match t
    case VeryLong => Rates(0.65, 0.80, 0.45, 0.35, 0.30)
    case Long => Rates(0.60, 0.75, 0.40, 0.30, 0.25)
    case Short => Rates(0.50, 0.70, 0.35, 0.25, 0.20)
  }

  /** A higher tier never lowers a rate. */
  lemma RatesMonotone(a: Tier, b: Tier)
    requires Rank(a) <= Rank(b)
    ensures RatesBelow(RatesOf(a), RatesOf(b))
  {
  }

  /** `random.random() > (1 - rate)`: the draw `u` lets an edit with this
      rate through. */
  predicate Gate(u: real, rate: real) { u > 1.0 - rate }

  /** A draw that passes a gate passes every gate with a higher rate; a zero
      rate stops every draw below 1. */
  lemma GateMonotone(u: real, r1: real, r2: real)
    requires r1 <= r2
    ensures Gate(u, r1) ==> Gate(u, r2)
    ensures u < 1.0 ==> !Gate(u, 0.0)
  {
  }

  /** `random.choice(alts)`, the draw `n` reduced modulo the number of
      alternatives. */
  function Choose(alts: seq<string>, n: nat): (s: string)
    ensures |alts| > 0 ==> s in alts
  {
    if |alts| == 0 then "" else alts[n % |alts|]
  }

  /** `random.randint(a, b)`, the draw `n` reduced into the range. */
  function RandInt(a: nat, b: nat, n: nat): (r: nat)
    requires a <= b
    ensures a <= r <= b
  {
    a + n % (b - a + 1)
  }

  /** The tier label of the response, from the output's word count. */
  function Level(t: Tier): (s: string)
    ensures |s| > 0
  {
    match t
    case VeryLong => "very-long"
    case Long => "long"
    case Short => "short"
  }

  /** The label read back. */
  function TierOfLevel(s: string): (t: Tier)
  {
    if s == "very-long" then VeryLong else if s == "long" then Long else Short
  }

  /** Distinct tiers have distinct labels. */
  lemma LevelRoundTrip(t: Tier)
    ensures TierOfLevel(Level(t)) == t
  {
  }

  function Variations(t: Tier): (s: string)
    ensures |s| > 0
  {
    match t
    case VeryLong => "50% word variation, paragraph breaks, transitions"
    case Long => "40% word variation, sentence length variation"
    case Short => "35% word variation, balanced approach"
  }

  const ModelPrefix: string := "python-smart-"

  /** `modelUsed`: the label behind a fixed prefix. */
  function ModelUsed(t: Tier): (s: string)
    ensures |s| > |ModelPrefix| && s[..|ModelPrefix|] == ModelPrefix
    ensures s[|ModelPrefix|..] == Level(t)
  {
    ModelPrefix + Level(t)
  }

  /** The reported model name determines the tier. */
  lemma ModelUsedInjective(a: Tier, b: Tier)
    requires ModelUsed(a) == ModelUsed(b)
    ensures a == b
  {
    assert Level(a) == ModelUsed(a)[|ModelPrefix|..];
    LevelRoundTrip(a);
    LevelRoundTrip(b);
  }
}
