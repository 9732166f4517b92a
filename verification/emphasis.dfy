/** The late stages that work on the `'. '` pieces of the text and on its
    punctuation: exclamation marks (end of stage 10), paragraph breaks with
    transitions for very long texts (stage 11), and the occasional ellipsis
    or em dash (stage 12). */
module Emphasis {
  import opened Options
  import opened Text
  import opened Regex
  import opened Profile

  // ---------------------------------------------------------------------------
  // Exclamation marks (lines 563-568)

  predicate EndsWith(s: string, c: char) { |s| > 0 && s[|s| - 1] == c }

  /** Piece i of n gets a `!` when its draw exceeds 0.92, it is longer than
      twenty characters, it does not already end with `!` or `?`, and it is
      not the last piece. */
  predicate Exclaims(s: string, i: nat, n: nat, u: nat -> real)
  {
    u(i) > 0.92 && |s| > 20 && !EndsWith(s, '!') && !EndsWith(s, '?') && i + 1 < n
  }

  function ExclaimPieces(ps: seq<string>, u: nat -> real): (qs: seq<string>)
    ensures |qs| == |ps|
    ensures forall k :: 0 <= k < |ps| ==> qs[k] == if Exclaims(ps[k], k, |ps|, u) then ps[k] + "!" else ps[k]
  {
    seq(|ps|, k requires 0 <= k < |ps| => if Exclaims(ps[k], k, |ps|, u) then ps[k] + "!" else ps[k])
  }

  function ExclaimStage(t: string, u: nat -> real): string
  {
    Join(ExclaimPieces(SplitOn(t, ". "), u), ". ")
  }

  predicate IsBang(c: char) { c == '!' }

  lemma EraseBang(s: string)
    ensures Erase(s + "!", IsBang) == Erase(s, IsBang)
  {
    EraseAppend(s, "!", IsBang);
    EraseAll("!", IsBang);
  }

  /** The stage only adds exclamation marks, never to the last piece and
      never to a piece that already ends a question or an exclamation. */
  lemma ExclaimStageEffect(t: string, u: nat -> real)
    ensures Erase(ExclaimStage(t, u), IsBang) == Erase(t, IsBang)
    ensures |ExclaimStage(t, u)| >= |t|
    ensures var ps := SplitOn(t, ". "); var qs := ExclaimPieces(ps, u);
      && qs[|ps| - 1] == ps[|ps| - 1]
      && forall k :: 0 <= k < |ps| && (EndsWith(ps[k], '!') || EndsWith(ps[k], '?') || |ps[k]| <= 20) ==> qs[k] == ps[k]
  {
    var ps := SplitOn(t, ". ");
    var qs := ExclaimPieces(ps, u);
    forall k | 0 <= k < |ps|
      ensures Erase(qs[k], IsBang) == Erase(ps[k], IsBang) && |ps[k]| <= |qs[k]|
    {
      EraseBang(ps[k]);
    }
    JoinPointwise(ps, qs, ". ", IsBang);
    JoinLonger(ps, qs, ". ");
    JoinSplitOn(t, ". ");
  }

  /** A text without a `'. '` is left alone. */
  lemma ExclaimSingle(t: string, u: nat -> real)
    requires |SplitOn(t, ". ")| == 1
    ensures ExclaimStage(t, u) == t
  {
    JoinSplitOn(t, ". ");
  }

  // ---------------------------------------------------------------------------
  // Paragraph breaks and transitions (lines 571-586)

  const Transitions: seq<string> := ["Now", "Additionally", "Moreover", "On the other hand",
    "However", "In fact", "Furthermore", "That said", "Plus", "Also"]

  /** The draws of stage 11: the stride `random.randint(5, 8)`, and per
      piece the draw that chooses a transition and the transition picked. */
  datatype ParagraphDraws = ParagraphDraws(stride: nat, u: nat -> real, pick: nat -> nat)

  function Stride(d: ParagraphDraws): (s: nat)
    ensures 5 <= s <= 8
  {
    RandInt(5, 8, d.stride)
  }

  /** `s[0].lower() + s[1:]`, which raises IndexError on an empty piece. */
  function LowerFirst(s: string): (r: Result<string>)
    ensures r.Ok? <==> |s| > 0
    ensures r.Ok? ==> |r.value| == |s| && Lower(r.value) == Lower(s) && r.value[1..] == s[1..]
  {
    if |s| == 0 then Err("string index out of range")
    else
      var r := [ToLower(s[0])] + s[1..];
      assert r[1..] == s[1..];
      assert Lower(r) == [ToLower(r[0])] + Lower(r[1..]);
      Ok(r)
  }

  /** One iteration of the loop, for piece i: a paragraph break, with a
      transition when the draw exceeds one half. */
  function Break(s: string, i: nat, d: ParagraphDraws): Result<string>
  {
    if d.u(i) > 0.5 then
      match LowerFirst(s)
      case Err(e) => Err(e)
      case Ok(r) => Ok("\n\n" + Choose(Transitions, d.pick(i)) + ", " + r)
    else Ok("\n\n" + s)
  }

  /** `for i in range(i, len(ps), step)`, stopping at the first error. */
  function BreakFrom(ps: seq<string>, i: nat, step: nat, d: ParagraphDraws): Result<seq<string>>
    requires step >= 1
    decreases |ps| - i
  {
    if i >= |ps| then Ok(ps)
    else
      match Break(ps[i], i, d)
      case Err(e) => Err(e)
      case Ok(x) => BreakFrom(ps[i := x], i + step, step, d)
  }

  /** Piece k is visited by the loop that starts at i with stride `step`:
      it is i, or it is visited from i + step. */
  predicate Visited(k: nat, i: nat, step: nat)
    decreases k - i
  {
    step >= 1 && (k == i || (k >= i + step && Visited(k, i + step, step)))
  }

  /** A visited piece that would fail: a transition drawn for an empty piece. */
  predicate FailsAt(ps: seq<string>, k: nat, d: ParagraphDraws)
  {
    k < |ps| && d.u(k) > 0.5 && |ps[k]| == 0
  }

  /** The loop fails exactly when some piece it visits would fail. */
  lemma {:induction false} BreakFromErr(ps: seq<string>, i: nat, step: nat, d: ParagraphDraws)
    requires step >= 1
    ensures BreakFrom(ps, i, step, d).Err? <==> exists k :: Visited(k, i, step) && FailsAt(ps, k, d)
    decreases |ps| - i
  {
    if i < |ps| {
      match Break(ps[i], i, d)
      case Err(e) =>
        assert FailsAt(ps, i, d) && Visited(i, i, step);
      case Ok(x) =>
        BreakFromErr(ps[i := x], i + step, step, d);
        FailsShift(ps, i, step, d, x, ps[i := x]);
    } else {
      forall k | Visited(k, i, step)
        ensures !FailsAt(ps, k, d)
      {
      }
    }
  }

  /** Past a piece that did not fail, the failing pieces of the updated list
      are those of the original. */
  lemma FailsShift(ps: seq<string>, i: nat, step: nat, d: ParagraphDraws, x: string, ps': seq<string>)
    requires step >= 1 && i < |ps| && Break(ps[i], i, d) == Ok(x) && ps' == ps[i := x]
    ensures (exists k :: Visited(k, i + step, step) && FailsAt(ps', k, d))
        <==> (exists k :: Visited(k, i, step) && FailsAt(ps, k, d))
  {
    if k :| Visited(k, i + step, step) && FailsAt(ps', k, d) {
      assert Visited(k, i, step) && FailsAt(ps, k, d);
    }
    if k :| Visited(k, i, step) && FailsAt(ps, k, d) {
      assert k != i;
      assert Visited(k, i + step, step) && FailsAt(ps', k, d);
    }
  }

  /** When the loop succeeds, each visited piece is rewritten by `Break` and
      every other piece is left alone. */
  lemma {:induction false} BreakFromPieces(ps: seq<string>, i: nat, step: nat, d: ParagraphDraws)
    requires step >= 1 && BreakFrom(ps, i, step, d).Ok?
    ensures var qs := BreakFrom(ps, i, step, d).value;
      && |qs| == |ps|
      && (forall k :: 0 <= k < |ps| && !Visited(k, i, step) ==> qs[k] == ps[k])
      && (forall k :: 0 <= k < |ps| && Visited(k, i, step) ==> Break(ps[k], k, d) == Ok(qs[k]))
    decreases |ps| - i
  {
    if i < |ps| {
      var x := Break(ps[i], i, d).value;
      var ps' := ps[i := x];
      BreakFromPieces(ps', i + step, step, d);
      var qs := BreakFrom(ps, i, step, d).value;
      assert qs == BreakFrom(ps', i + step, step, d).value;
      forall k | 0 <= k < |ps| && Visited(k, i, step)
        ensures Break(ps[k], k, d) == Ok(qs[k])
      {
        if k != i {
          assert Visited(k, i + step, step);
        } else {
          assert !Visited(i, i + step, step);
        }
      }
      forall k | 0 <= k < |ps| && !Visited(k, i, step)
        ensures qs[k] == ps[k]
      {
        assert !Visited(k, i + step, step);
      }
    } else {
      forall k | 0 <= k < |ps|
        ensures !Visited(k, i, step)
      {
      }
    }
  }

  /** Stage 11: only very long texts with more than fifteen pieces get
      breaks, at pieces 7, 7 + stride, 7 + 2 * stride, ... */
  function ParagraphStage(t: string, tier: Tier, d: ParagraphDraws): Result<string>
  {
    if tier != VeryLong then Ok(t)
    else
      var ps := SplitOn(t, ". ");
      if |ps| <= 15 then Ok(t)
      else
        match BreakFrom(ps, 7, Stride(d), d)
        case Err(e) => Err(e)
        case Ok(qs) => Ok(Join(qs, ". "))
  }

  /** The stage fails exactly when a transition is drawn for an empty piece
      the loop visits; short texts come back whole, the first seven pieces are
      never touched, and piece 7 always gets a paragraph break. */
  lemma ParagraphStageEffect(t: string, tier: Tier, d: ParagraphDraws)
    ensures var ps := SplitOn(t, ". ");
      ParagraphStage(t, tier, d).Err? <==>
        tier == VeryLong && |ps| > 15 && exists k :: Visited(k, 7, Stride(d)) && FailsAt(ps, k, d)
    ensures tier != VeryLong || |SplitOn(t, ". ")| <= 15 ==> ParagraphStage(t, tier, d) == Ok(t)
    ensures var ps := SplitOn(t, ". ");
      tier == VeryLong && |ps| > 15 && BreakFrom(ps, 7, Stride(d), d).Ok? ==>
        var qs := BreakFrom(ps, 7, Stride(d), d).value;
        && ParagraphStage(t, tier, d) == Ok(Join(qs, ". "))
        && |qs| == |ps| && qs[..7] == ps[..7]
        && |qs[7]| >= 2 && qs[7][..2] == "\n\n"
  {
    var ps := SplitOn(t, ". ");
    BreakFromErr(ps, 7, Stride(d), d);
    if tier == VeryLong && |ps| > 15 && BreakFrom(ps, 7, Stride(d), d).Ok? {
      BreakFromPieces(ps, 7, Stride(d), d);
      var qs := BreakFrom(ps, 7, Stride(d), d).value;
      forall k | 0 <= k < 7
        ensures !Visited(k, 7, Stride(d))
      {
      }
      assert Visited(7, 7, Stride(d));
      BreakShape(ps[7], 7, d);
    }
  }

  /** A visited piece gains a paragraph break and possibly a transition, and
      otherwise keeps its text up to the case of its first letter. */
  lemma BreakShape(s: string, i: nat, d: ParagraphDraws)
    requires Break(s, i, d).Ok?
    ensures var b := Break(s, i, d).value; |b| >= 2 && b[..2] == "\n\n"
    ensures var b := Break(s, i, d).value;
      || b == "\n\n" + s
      || exists tr :: tr in Transitions && |b| == |tr| + 4 + |s|
           && b[..|tr| + 4] == "\n\n" + tr + ", " && Lower(b[|tr| + 4..]) == Lower(s)
  {
    if d.u(i) > 0.5 {
      var tr := Choose(Transitions, d.pick(i));
      var r := LowerFirst(s).value;
      var b := "\n\n" + tr + ", " + r;
      assert b == ("\n\n" + tr + ", ") + r;
      assert b[..|tr| + 4] == "\n\n" + tr + ", ";
      assert b[|tr| + 4..] == r;
    }
  }

  // ---------------------------------------------------------------------------
  // Ellipsis and em dash (lines 590-595)

  /** The draws of stage 12: the ellipsis gate and choice, the em-dash gate,
      its `count` and the per-match choice. */
  datatype StyleDraws = StyleDraws(ellipsis: real, dots: real, dash: real, count: nat, dashes: nat -> real)

  const EmDash: char := '—'

  function EllipsisReplacement(dots: real): (nat, string) -> string
  {
    (k: nat, m: string) => if dots > 0.7 then "... " else ". "
  }

  /** Lines 590-591: the first `'. '` of a text longer than a hundred
      characters may become `'... '`. */
  function EllipsisStep(t: string, d: StyleDraws): string
  {
    if d.ellipsis > 0.92 && |t| > 100 then SubFirst(t, Lit(". "), 1, EllipsisReplacement(d.dots)) else t
  }

  function DashReplacement(dashes: nat -> real): (nat, string) -> string
  {
    (k: nat, m: string) => if dashes(k) > 0.5 then [' ', EmDash, ' '] else " - "
  }

  /** Lines 594-595: up to two `' - '` may become em dashes. */
  function DashStep(t: string, d: StyleDraws): string
  {
    if d.dash > 0.85 then SubFirst(t, Lit(" - "), RandInt(1, 2, d.count), DashReplacement(d.dashes)) else t
  }

  /** Stage 12 of the humanizer. */
  function StyleStage(t: string, d: StyleDraws): string
  {
    DashStep(EllipsisStep(t, d), d)
  }

  predicate IsPeriod(c: char) { c == '.' }

  predicate IsDash(c: char) { c == '-' || c == EmDash }

  /** A `Lit(s)` match is `s` itself. */
  lemma LitMatch(t: string, s: string, j: nat)
    requires Hit(t, At(Lit(s), t), j)
    ensures t[j..j + At(Lit(s), t)(j).value] == s
  {
  }

  /** The ellipsis only adds periods, and with a low second draw it changes
      nothing. */
  lemma EllipsisStepEffect(t: string, d: StyleDraws)
    ensures Erase(EllipsisStep(t, d), IsPeriod) == Erase(t, IsPeriod)
    ensures d.dots <= 0.7 ==> EllipsisStep(t, d) == t
  {
    if d.ellipsis > 0.92 && |t| > 100 {
      var at := At(Lit(". "), t);
      var r := EllipsisReplacement(d.dots);
      forall j | 0 <= j < |t| && Hit(t, at, j)
        ensures ErasesAlike(t[j..j + at(j).value], r, IsPeriod)
      {
        LitMatch(t, ". ", j);
        EllipsisErase(d.dots);
      }
      SubErase(t, at, 0, 0, AtMost(1), r, IsPeriod);
      if d.dots <= 0.7 {
        SubKeepLit(t, ". ", AtMost(1), r);
      }
      assert t[0..] == t;
    }
  }

  lemma EllipsisErase(dots: real)
    ensures ErasesAlike(". ", EllipsisReplacement(dots), IsPeriod)
  {
    assert ". " == "." + " " && "... " == "..." + " ";
    EraseAppend(".", " ", IsPeriod);
    EraseAppend("...", " ", IsPeriod);
    EraseAll(".", IsPeriod);
    EraseAll("...", IsPeriod);
    EraseNone(" ", IsPeriod);
  }

  /** A substitution of a literal by itself keeps the text. */
  lemma SubKeepLit(t: string, s: string, b: Budget, r: (nat, string) -> string)
    requires forall q: nat :: r(q, s) == s
    ensures SubFrom(t, At(Lit(s), t), 0, 0, b, r) == t
  {
    var at := At(Lit(s), t);
    forall j | 0 <= j < |t| && Hit(t, at, j)
      ensures KeepsMatch(t[j..j + at(j).value], r)
    {
      LitMatch(t, s, j);
    }
    SubKeepHits(t, at, 0, 0, b, r);
    assert t[0..] == t;
  }

  /** The em dash keeps the length and everything but the dashes; with no
      draw above one half it changes nothing. */
  lemma DashStepEffect(t: string, d: StyleDraws)
    ensures Erase(DashStep(t, d), IsDash) == Erase(t, IsDash)
    ensures |DashStep(t, d)| == |t|
    ensures (forall k: nat :: d.dashes(k) <= 0.5) ==> DashStep(t, d) == t
  {
    if d.dash > 0.85 {
      var at := At(Lit(" - "), t);
      var r := DashReplacement(d.dashes);
      var b := AtMost(RandInt(1, 2, d.count));
      forall j | 0 <= j < |t| && Hit(t, at, j)
        ensures ErasesAlike(t[j..j + at(j).value], r, IsDash)
        ensures LengthAlike(t[j..j + at(j).value], r)
      {
        LitMatch(t, " - ", j);
        DashErase();
      }
      SubErase(t, at, 0, 0, b, r, IsDash);
      SubSameLength(t, at, 0, 0, b, r);
      if forall k: nat :: d.dashes(k) <= 0.5 {
        SubKeepLit(t, " - ", b, r);
      }
      assert t[0..] == t;
    }
  }

  lemma DashErase()
    ensures Erase(" - ", IsDash) == "  " && Erase([' ', EmDash, ' '], IsDash) == "  "
  {
    assert " - " == " " + "-" + " ";
    assert [' ', EmDash, ' '] == " " + [EmDash] + " ";
    EraseAppend(" " + "-", " ", IsDash);
    EraseAppend(" ", "-", IsDash);
    EraseAppend(" " + [EmDash], " ", IsDash);
    EraseAppend(" ", [EmDash], IsDash);
    EraseAll("-", IsDash);
    EraseAll([EmDash], IsDash);
    EraseNone(" ", IsDash);
  }
}
