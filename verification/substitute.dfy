/** The three table-driven word substitutions that open the humanizer:
    formal phrases replaced everywhere by a random alternative, synonyms and
    contractions applied match by match behind a random gate, splicing the
    matches from the last to the first. Every random draw is a parameter:
    `pick` functions stand for `random.choice` and `u` functions for
    `random.random()`, indexed by table entry and match number. */
module Substitute {
  import opened Options
  import opened Text
  import opened Regex
  import opened Profile

  /** A key and the alternatives it may be replaced with. */
  datatype Entry = Entry(key: string, alts: seq<string>)

  /** The pattern `\bkey\b` under IGNORECASE. */
  function KeyPattern(key: string): Pattern
  {
    Word([key], true)
  }

  // ---------------------------------------------------------------------------
  // Stage 1: formal phrases

  const FormalPhrases: seq<Entry> := [
    Entry("in order to", ["to", "so we can", "aiming to"]),
    Entry("due to the fact that", ["because", "since"]),
    Entry("at this point in time", ["now", "currently"]),
    Entry("it is important to note that", ["notably", "it's worth noting"]),
    Entry("in spite of", ["despite", "even though"]),
    Entry("a large number of", ["many", "lots of", "tons of"]),
    Entry("for the purpose of", ["to", "for"]),
    Entry("with regard to", ["about", "regarding"]),
    Entry("prior to", ["before"]),
    Entry("subsequent to", ["after"]),
    Entry("however", ["but", "yet", "though", "still"]),
    Entry("therefore", ["so", "thus", "hence"]),
    Entry("furthermore", ["also", "plus", "moreover"]),
    Entry("nevertheless", ["still", "even so", "yet"])]

  /** No alternative is longer than its key. */
  predicate Shortening(e: Entry)
  {
    forall k :: 0 <= k < |e.alts| ==> |e.alts[k]| <= |e.key|
  }

  lemma FormalPhrasesShorten()
    ensures forall k :: 0 <= k < |FormalPhrases| ==> Shortening(FormalPhrases[k])
  {
  }

  /** `re.compile(r'\b' + re.escape(key) + r'\b', re.I).sub(lambda m:
      random.choice(alts), text)`: the k-th match replaced by the k-th pick. */
  function PhraseStep(t: string, e: Entry, pick: nat -> nat): string
  {
    Sub(t, KeyPattern(e.key), (k: nat, m: string) => Choose(e.alts, pick(k)))
  }

  /** The picks for the first n matches. */
  function Picks(alts: seq<string>, pick: nat -> nat, n: nat): (ps: seq<string>)
    ensures |ps| == n
    ensures forall q :: 0 <= q < n ==> ps[q] == Choose(alts, pick(q))
  {
    seq(n, q requires 0 <= q < n => Choose(alts, pick(q)))
  }

  /** A phrase substitution cuts out the matches of the key, in order, and
      puts the chosen alternatives in their place. */
  lemma PhraseStepIsSplice(t: string, e: Entry, pick: nat -> nat)
    ensures var ms := FindAll(t, KeyPattern(e.key));
      PhraseStep(t, e, pick) == Splice(t, ms, Picks(e.alts, pick, |ms|), 0)
  {
    var r := (k: nat, m: string) => Choose(e.alts, pick(k));
    var at := At(KeyPattern(e.key), t);
    SubIsSplice(t, at, 0, 0, Unlimited, r);
    var ms := MatchesFrom(t, at, 0, Unlimited);
    assert Reps(t, ms, 0, r) == Picks(e.alts, pick, |ms|);
  }

  /** Every match of a one-word key is as long as the key. */
  lemma KeySpans(t: string, key: string)
    ensures var ms := FindAll(t, KeyPattern(key));
      forall q :: 0 <= q < |ms| ==> ms[q].end - ms[q].start == |key|
  {
    var at := At(KeyPattern(key), t);
    MatchesHit(t, at, 0, Unlimited);
    var ms := MatchesFrom(t, at, 0, Unlimited);
    forall q | 0 <= q < |ms|
      ensures ms[q].end - ms[q].start == |key|
    {
      assert SpanHit(t, at, ms[q]);
      WordSingle(t, ms[q].start, key, true);
    }
  }

  /** An entry whose alternatives are no longer than its key never lengthens
      the text. */
  lemma PhraseStepShortens(t: string, e: Entry, pick: nat -> nat)
    requires Shortening(e) && |e.alts| > 0
    ensures |PhraseStep(t, e, pick)| <= |t|
  {
    var ms := FindAll(t, KeyPattern(e.key));
    var ps := Picks(e.alts, pick, |ms|);
    PhraseStepIsSplice(t, e, pick);
    KeySpans(t, e.key);
    forall q | 0 <= q < |ms|
      ensures |ps[q]| <= ms[q].end - ms[q].start
    {
      var k := pick(q) % |e.alts|;
      assert ps[q] == e.alts[k];
    }
    SpliceLength(t, ms, ps, 0, |ms|);
  }

  /** Where the key does not occur the step changes nothing. */
  lemma PhraseStepAbsent(t: string, e: Entry, pick: nat -> nat)
    requires Count(t, KeyPattern(e.key)) == 0
    ensures PhraseStep(t, e, pick) == t
  {
    PhraseStepIsSplice(t, e, pick);
  }

  /** The substitutions of the table entries from position q on, in order;
      the j-th match of entry q is replaced by alternative `pick(q, j)`. */
  function ReplacePhrases(t: string, table: seq<Entry>, pick: (nat, nat) -> nat, q: nat): string
    decreases |table|
  {
    if |table| == 0 then t
    else ReplacePhrases(PhraseStep(t, table[0], (j: nat) => pick(q, j)), table[1..], pick, q + 1)
  }

  /** Stage 1 of the humanizer. */
  function FormalStage(t: string, pick: (nat, nat) -> nat): string
  {
    ReplacePhrases(t, FormalPhrases, pick, 0)
  }

  /** A table of shortening entries never lengthens the text. */
  lemma {:induction false} ReplacePhrasesShortens(t: string, table: seq<Entry>, pick: (nat, nat) -> nat, q: nat)
    requires forall k :: 0 <= k < |table| ==> Shortening(table[k]) && |table[k].alts| > 0
    ensures |ReplacePhrases(t, table, pick, q)| <= |t|
    decreases |table|
  {
    if |table| > 0 {
      var t' := PhraseStep(t, table[0], (j: nat) => pick(q, j));
      PhraseStepShortens(t, table[0], (j: nat) => pick(q, j));
      assert forall k :: 0 <= k < |table| - 1 ==> table[1..][k] == table[k + 1];
      ReplacePhrasesShortens(t', table[1..], pick, q + 1);
    }
  }

  /** A text containing none of the keys comes back unchanged. */
  lemma {:induction false} ReplacePhrasesAbsent(t: string, table: seq<Entry>, pick: (nat, nat) -> nat, q: nat)
    requires forall k :: 0 <= k < |table| ==> Count(t, KeyPattern(table[k].key)) == 0
    ensures ReplacePhrases(t, table, pick, q) == t
    decreases |table|
  {
    if |table| > 0 {
      PhraseStepAbsent(t, table[0], (j: nat) => pick(q, j));
      assert forall k :: 0 <= k < |table| - 1 ==> table[1..][k] == table[k + 1];
      ReplacePhrasesAbsent(t, table[1..], pick, q + 1);
    }
  }

  /** Stage 1 never lengthens the text. */
  lemma FormalStageShortens(t: string, pick: (nat, nat) -> nat)
    ensures |FormalStage(t, pick)| <= |t|
  {
    FormalPhrasesShorten();
    ReplacePhrasesShortens(t, FormalPhrases, pick, 0);
  }

  // ---------------------------------------------------------------------------
  // Stage 2: synonyms

  const Synonyms: seq<Entry> := [
    Entry("important", ["crucial", "key", "vital"]),
    Entry("need", ["require", "want"]),
    Entry("are", ["become"]),
    Entry("give", ["provide", "offer"]),
    Entry("have", ["possess", "own", "keep"]),
    Entry("keep", ["maintain", "hold"]),
    Entry("make", ["create", "form", "build"]),
    Entry("form", ["create", "make", "build"]),
    Entry("live", ["exist", "survive"]),
    Entry("talk", ["speak", "communicate"]),
    Entry("big", ["large", "huge"]),
    Entry("gentle", ["calm", "peaceful"]),
    Entry("useful", ["helpful", "valuable"]),
    Entry("well-known", ["famous", "popular"]),
    Entry("calm", ["peaceful", "relaxed"]),
    Entry("very", ["really", "quite", "pretty", "extremely"]),
    Entry("really", ["very", "truly", "actually"]),
    Entry("only", ["just", "simply"]),
    Entry("actually", ["really", "truly"]),
    Entry("demonstrates", ["shows", "proves", "reveals"]),
    Entry("demonstrate", ["show", "prove", "reveal"]),
    Entry("represents", ["is", "means", "shows"]),
    Entry("represent", ["show", "mean"]),
    Entry("major", ["big", "huge", "significant"]),
    Entry("advancement", ["progress", "improvement"]),
    Entry("transitions", ["shifts", "moves", "changes"]),
    Entry("traditional", ["old", "conventional", "standard"]),
    Entry("intelligent", ["smart", "clever"]),
    Entry("capable", ["able", "equipped"]),
    Entry("vast", ["huge", "massive"]),
    Entry("complex", ["complicated", "intricate"]),
    Entry("because", ["since", "as"]),
    Entry("but", ["yet", "though", "although"]),
    Entry("also", ["too", "as well"]),
    Entry("and", ["plus"]),
    Entry("for", ["during"])]

  /** The replacement with its first letter upper-cased when the matched
      text starts with an upper-case letter. */
  function CaseLike(orig: string, rep: string): (r: string)
    ensures |r| == |rep|
    ensures |rep| > 0 ==> r[1..] == rep[1..]
  {
    if |orig| > 0 && IsUpper(orig[0]) && |rep| > 0 then [ToUpper(rep[0])] + rep[1..] else rep
  }

  /** For a replacement that starts with a lower-case letter, the result
      starts with a capital exactly when the matched text does. */
  lemma CaseLikeFirst(orig: string, rep: string)
    requires |orig| > 0 && |rep| > 0 && IsLower(rep[0])
    ensures IsUpper(CaseLike(orig, rep)[0]) <==> IsUpper(orig[0])
    ensures IsLetter(CaseLike(orig, rep)[0])
  {
  }

  predicate StartsLower(s: string) { |s| > 0 && IsLower(s[0]) }

  predicate AllStartLower(alts: seq<string>)
  {
    forall a :: 0 <= a < |alts| ==> StartsLower(alts[a])
  }

  /** The edits of one synonym pass: match q is replaced when its draw
      `u(q)` clears the gate. */
  function SynonymEdits(t: string, ms: seq<Span>, alts: seq<string>, rate: real, u: nat -> real, pick: nat -> nat): (es: seq<Option<string>>)
    requires Within(ms, |t|)
    ensures |es| == |ms|
    ensures forall q :: 0 <= q < |ms| ==> (es[q].Some? <==> Gate(u(q), rate))
  {
    seq(|ms|, q requires 0 <= q < |ms| =>
      if Gate(u(q), rate) then Some(CaseLike(t[ms[q].start..ms[q].end], Choose(alts, pick(q)))) else None)
  }

  /** One synonym entry: the matches of the key, replaced from the last to
      the first. */
  function SynonymStep(t: string, e: Entry, rate: real, u: nat -> real, pick: nat -> nat): string
  {
    var ms := FindAll(t, KeyPattern(e.key));
    SpliceBackwards(t, ms, SynonymEdits(t, ms, e.alts, rate, u, pick))
  }

  /** Replacing from the back keeps the earlier spans valid: the result is
      one left-to-right splice of the same edits. */
  lemma SynonymStepIsSplice(t: string, e: Entry, rate: real, u: nat -> real, pick: nat -> nat)
    ensures var ms := FindAll(t, KeyPattern(e.key));
      SynonymStep(t, e, rate, u, pick) == Splice(t, ms, Fill(t, ms, SynonymEdits(t, ms, e.alts, rate, u, pick)), 0)
  {
    var ms := FindAll(t, KeyPattern(e.key));
    SpliceBackwardsIsSplice(t, ms, SynonymEdits(t, ms, e.alts, rate, u, pick));
  }

  /** A replaced match keeps the case of its first letter: the word put in
      its place starts with a capital exactly when the match did. */
  lemma SynonymKeepsCase(t: string, e: Entry, rate: real, u: nat -> real, pick: nat -> nat, q: nat)
    requires |e.alts| > 0 && AllStartLower(e.alts)
    requires q < Count(t, KeyPattern(e.key)) && Gate(u(q), rate)
    ensures var ms := FindAll(t, KeyPattern(e.key));
      var x := Fill(t, ms, SynonymEdits(t, ms, e.alts, rate, u, pick))[q];
      |x| > 0 && (IsUpper(x[0]) <==> IsUpper(t[ms[q].start]))
  {
    var ms := FindAll(t, KeyPattern(e.key));
    var orig := t[ms[q].start..ms[q].end];
    var rep := Choose(e.alts, pick(q));
    assert rep == e.alts[pick(q) % |e.alts|];
    assert StartsLower(rep);
    CaseLikeFirst(orig, rep);
  }

  /** Edits that all keep their span leave the text as it was. */
  lemma FillKept(t: string, ms: seq<Span>, es: seq<Option<string>>)
    requires Ordered(ms, 0, |t|) && |es| == |ms|
    requires forall q :: 0 <= q < |ms| ==> es[q].None?
    ensures Splice(t, ms, Fill(t, ms, es), 0) == t
  {
    SpliceSelf(t, ms, Fill(t, ms, es), 0);
  }

  /** When no draw clears the gate the step changes nothing. */
  lemma SynonymStepClosed(t: string, e: Entry, rate: real, u: nat -> real, pick: nat -> nat)
    requires forall q: nat :: !Gate(u(q), rate)
    ensures SynonymStep(t, e, rate, u, pick) == t
  {
    var ms := FindAll(t, KeyPattern(e.key));
    SynonymStepIsSplice(t, e, rate, u, pick);
    FillKept(t, ms, SynonymEdits(t, ms, e.alts, rate, u, pick));
  }

  function ReplaceSynonyms(t: string, table: seq<Entry>, rate: real, u: (nat, nat) -> real, pick: (nat, nat) -> nat, q: nat): string
    decreases |table|
  {
    if |table| == 0 then t
    else ReplaceSynonyms(SynonymStep(t, table[0], rate, (j: nat) => u(q, j), (j: nat) => pick(q, j)), table[1..], rate, u, pick, q + 1)
  }

  /** Stage 2 of the humanizer, at the synonym rate of the tier. */
  function SynonymStage(t: string, tier: Tier, u: (nat, nat) -> real, pick: (nat, nat) -> nat): string
  {
    ReplaceSynonyms(t, Synonyms, RatesOf(tier).synonym, u, pick, 0)
  }

  /** When no draw clears the gate the whole table changes nothing. */
  lemma {:induction false} ReplaceSynonymsClosed(t: string, table: seq<Entry>, rate: real, u: (nat, nat) -> real, pick: (nat, nat) -> nat, q: nat)
    requires forall a: nat, b: nat :: !Gate(u(a, b), rate)
    ensures ReplaceSynonyms(t, table, rate, u, pick, q) == t
    decreases |table|
  {
    if |table| > 0 {
      SynonymStepClosed(t, table[0], rate, (j: nat) => u(q, j), (j: nat) => pick(q, j));
      ReplaceSynonymsClosed(t, table[1..], rate, u, pick, q + 1);
    }
  }

  // ---------------------------------------------------------------------------
  // Stage 3: contractions

  const Contractions: seq<Entry> := [
    Entry("do not", ["don't"]), Entry("does not", ["doesn't"]), Entry("is not", ["isn't"]),
    Entry("are not", ["aren't"]), Entry("it is", ["it's"]), Entry("that is", ["that's"]),
    Entry("you are", ["you're"]), Entry("they are", ["they're"]), Entry("we are", ["we're"]),
    Entry("will not", ["won't"]), Entry("would not", ["wouldn't"]), Entry("cannot", ["can't"]),
    Entry("could not", ["couldn't"]), Entry("should not", ["shouldn't"])]

  /** Every contraction is strictly shorter than what it replaces. */
  predicate Contracting(e: Entry)
  {
    |e.alts| == 1 && |e.alts[0]| < |e.key|
  }

  lemma ContractionsContract()
    ensures forall k :: 0 <= k < |Contractions| ==> Contracting(Contractions[k])
  {
  }

  /** The edits of one contraction pass: match q is contracted when its draw
      clears the gate. */
  function ContractionEdits(n: nat, c: string, rate: real, u: nat -> real): (es: seq<Option<string>>)
    ensures |es| == n
    ensures forall q :: 0 <= q < n ==> es[q] == if Gate(u(q), rate) then Some(c) else None
  {
    seq(n, q requires 0 <= q < n => if Gate(u(q), rate) then Some(c) else None)
  }

  function ContractionStep(t: string, e: Entry, rate: real, u: nat -> real): string
    requires Contracting(e)
  {
    var ms := FindAll(t, KeyPattern(e.key));
    SpliceBackwards(t, ms, ContractionEdits(|ms|, e.alts[0], rate, u))
  }

  /** A contraction pass never lengthens the text, and it shortens it as
      soon as one match (the `q`-th) is contracted. */
  lemma ContractionStepLength(t: string, e: Entry, rate: real, u: nat -> real, q: nat)
    requires Contracting(e)
    ensures |ContractionStep(t, e, rate, u)| <= |t|
    ensures q < Count(t, KeyPattern(e.key)) && Gate(u(q), rate) ==> |ContractionStep(t, e, rate, u)| < |t|
  {
    var ms := FindAll(t, KeyPattern(e.key));
    var es := ContractionEdits(|ms|, e.alts[0], rate, u);
    SpliceBackwardsIsSplice(t, ms, es);
    KeySpans(t, e.key);
    SpliceLength(t, ms, Fill(t, ms, es), 0, q);
  }

  /** When no draw clears the gate a contraction pass changes nothing. */
  lemma ContractionStepClosed(t: string, e: Entry, rate: real, u: nat -> real)
    requires Contracting(e)
    requires forall j: nat :: !Gate(u(j), rate)
    ensures ContractionStep(t, e, rate, u) == t
  {
    var ms := FindAll(t, KeyPattern(e.key));
    var es := ContractionEdits(|ms|, e.alts[0], rate, u);
    SpliceBackwardsIsSplice(t, ms, es);
    FillKept(t, ms, es);
  }

  function ReplaceContractions(t: string, table: seq<Entry>, rate: real, u: (nat, nat) -> real, q: nat): string
    requires forall k :: 0 <= k < |table| ==> Contracting(table[k])
    decreases |table|
  {
    if |table| == 0 then t
    else ReplaceContractions(ContractionStep(t, table[0], rate, (j: nat) => u(q, j)), table[1..], rate, u, q + 1)
  }

  /** Stage 3 of the humanizer, at the contraction rate of the tier. */
  function ContractionStage(t: string, tier: Tier, u: (nat, nat) -> real): string
  {
    ContractionsContract();
    ReplaceContractions(t, Contractions, RatesOf(tier).contraction, u, 0)
  }

  lemma {:induction false} ReplaceContractionsShortens(t: string, table: seq<Entry>, rate: real, u: (nat, nat) -> real, q: nat)
    requires forall k :: 0 <= k < |table| ==> Contracting(table[k])
    ensures |ReplaceContractions(t, table, rate, u, q)| <= |t|
    decreases |table|
  {
    if |table| > 0 {
      ContractionStepLength(t, table[0], rate, (j: nat) => u(q, j), 0);
      assert forall k :: 0 <= k < |table| - 1 ==> table[1..][k] == table[k + 1];
      ReplaceContractionsShortens(ContractionStep(t, table[0], rate, (j: nat) => u(q, j)), table[1..], rate, u, q + 1);
    }
  }

  /** Stage 3 never lengthens the text. */
  lemma ContractionStageShortens(t: string, tier: Tier, u: (nat, nat) -> real)
    ensures |ContractionStage(t, tier, u)| <= |t|
  {
    ContractionsContract();
    ReplaceContractionsShortens(t, Contractions, RatesOf(tier).contraction, u, 0);
  }
}
