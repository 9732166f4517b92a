/** The marker rewrites: stage 4 varies the `Q:` and `A:` markers of
    question-and-answer text, and stage 10 varies a leading "Overall," and
    the phrase "the article". Each is a `re.sub` whose replacement function
    draws at random; the draws are parameters indexed by match number. */
module Markers {
  import opened Text
  import opened Regex
  import opened Profile
  import opened Substitute

  const QuestionForms: seq<string> := ["Q:", "Question:", "Q -", "Q.", "**Q:**"]

  const AnswerForms: seq<string> := ["A:", "Answer:", "A -", "A.", "**A:**", ""]

  /** `re.sub(r'\bX:\s*', lambda m: random.choice(forms) + ' ', text, flags=re.I)`. */
  function MarkerStep(t: string, letter: char, forms: seq<string>, pick: nat -> nat): string
  {
    Sub(t, Marker(letter), (k: nat, m: string) => Choose(forms, pick(k)) + " ")
  }

  /** The k-th marker's replacement: the picked form and one space. */
  function FormsWithSpace(forms: seq<string>, pick: nat -> nat, n: nat): (rs: seq<string>)
    ensures |rs| == n
    ensures forall q :: 0 <= q < n ==> rs[q] == Choose(forms, pick(q)) + " "
  {
    seq(n, q requires 0 <= q < n => Choose(forms, pick(q)) + " ")
  }

  /** Each marker, with all the whitespace after it, becomes one of the forms
      followed by exactly one space; the rest of the text is untouched. */
  lemma MarkerStepIsSplice(t: string, letter: char, forms: seq<string>, pick: nat -> nat)
    ensures var ms := FindAll(t, Marker(letter));
      MarkerStep(t, letter, forms, pick) == Splice(t, ms, FormsWithSpace(forms, pick, |ms|), 0)
  {
    var r := (k: nat, m: string) => Choose(forms, pick(k)) + " ";
    var at := At(Marker(letter), t);
    SubIsSplice(t, at, 0, 0, Unlimited, r);
    assert Reps(t, MatchesFrom(t, at, 0, Unlimited), 0, r) == FormsWithSpace(forms, pick, |MatchesFrom(t, at, 0, Unlimited)|);
  }

  /** Text without markers is left alone. */
  lemma MarkerStepAbsent(t: string, letter: char, forms: seq<string>, pick: nat -> nat)
    requires Count(t, Marker(letter)) == 0
    ensures MarkerStep(t, letter, forms, pick) == t
  {
    MarkerStepIsSplice(t, letter, forms, pick);
  }

  /** Stage 4: question markers, then answer markers. */
  function QaStage(t: string, pickQ: nat -> nat, pickA: nat -> nat): string
  {
    MarkerStep(MarkerStep(t, 'q', QuestionForms, pickQ), 'a', AnswerForms, pickA)
  }

  const OverallForms: seq<string> := ["So basically,", "In the end,", "To sum up,", "Ultimately,", "Looking at it,", ""]

  const ArticleForms: seq<string> := ["the article", "this article", "the piece", "this paper", "it"]

  /** `re.sub(r'\bOverall,\s*', lambda m: random.choice(forms), text, flags=re.I)`:
      the replacement has no trailing space, so the whitespace after the
      comma is consumed. */
  function OverallStep(t: string, pick: nat -> nat): string
  {
    Sub(t, LeadComma("overall"), (k: nat, m: string) => Choose(OverallForms, pick(k)))
  }

  /** Each "Overall," with the whitespace after it becomes the picked form. */
  lemma OverallStepIsSplice(t: string, pick: nat -> nat)
    ensures var ms := FindAll(t, LeadComma("overall"));
      OverallStep(t, pick) == Splice(t, ms, Picks(OverallForms, pick, |ms|), 0)
  {
    var r := (k: nat, m: string) => Choose(OverallForms, pick(k));
    var at := At(LeadComma("overall"), t);
    SubIsSplice(t, at, 0, 0, Unlimited, r);
    assert Reps(t, MatchesFrom(t, at, 0, Unlimited), 0, r) == Picks(OverallForms, pick, |MatchesFrom(t, at, 0, Unlimited)|);
  }

  /** The replacement of the k-th "the article": a random form when the
      draw `u(k)` exceeds one half, the matched text otherwise. */
  function ArticleReplacement(u: nat -> real, pick: nat -> nat): (nat, string) -> string
  {
    (k: nat, m: string) => if u(k) > 0.5 then Choose(ArticleForms, pick(k)) else m
  }

  function ArticleStep(t: string, u: nat -> real, pick: nat -> nat): string
  {
    Sub(t, Word(["the article"], true), ArticleReplacement(u, pick))
  }

  /** When no draw exceeds one half every match is put back as it was. */
  lemma ArticleStepKeeps(t: string, u: nat -> real, pick: nat -> nat)
    requires forall k: nat :: u(k) <= 0.5
    ensures ArticleStep(t, u, pick) == t
  {
    var at := At(Word(["the article"], true), t);
    SubKeep(t, at, 0, 0, Unlimited, ArticleReplacement(u, pick));
  }

  /** The replaced matches are exactly those whose draw exceeds one half. */
  lemma ArticleStepIsSplice(t: string, u: nat -> real, pick: nat -> nat)
    ensures var ms := FindAll(t, Word(["the article"], true));
      ArticleStep(t, u, pick) == Splice(t, ms, Reps(t, ms, 0, ArticleReplacement(u, pick)), 0)
    ensures var ms := FindAll(t, Word(["the article"], true));
      forall q :: 0 <= q < |ms| ==>
        Reps(t, ms, 0, ArticleReplacement(u, pick))[q]
          == if u(q) > 0.5 then Choose(ArticleForms, pick(q)) else t[ms[q].start..ms[q].end]
  {
    SubIsSplice(t, At(Word(["the article"], true), t), 0, 0, Unlimited, ArticleReplacement(u, pick));
  }

  /** Stage 10: the "Overall," lead, then "the article". */
  function OverallStage(t: string, pickOverall: nat -> nat, u: nat -> real, pickArticle: nat -> nat): string
  {
    ArticleStep(OverallStep(t, pickOverall), u, pickArticle)
  }
}
