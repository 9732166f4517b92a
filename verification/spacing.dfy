/** Stages 7 and 8: spacing slips and dropped commas.

    Stage 7 may glue up to two sentences together by deleting the space
    after a period, and may double one space inside one of the `'. '`
    pieces of the text. Stage 8 rewrites every comma followed by
    whitespace as either `", "` or a bare space. None of them touches a
    character that is not whitespace, apart from the commas stage 8 drops. */
module Spacing {
  import opened Text
  import opened Regex
  import opened Profile

  /** The draws of stage 7: the gate of the missing space, the `count` of
      its `re.sub`, the per-match choice of glueing, the gate of the double
      space and the piece it lands in. */
  datatype SpacingDraws = SpacingDraws(gap: real, count: nat, glue: nat -> real, double: real, piece: nat)

  /** `m.group(1)`: the capital letter that ends a `\.\s+([A-Z])` match. */
  function Capital(m: string): (c: string)
    ensures |c| <= 1
  {
    if |m| == 0 then "" else [m[|m| - 1]]
  }

  /** The replacement of the k-th period-space-capital match: the period and
      the capital glued together, or with one space between them. */
  function GlueReplacement(glue: nat -> real): (nat, string) -> string
  {
    (k: nat, m: string) => if glue(k) > 0.5 then "." + Capital(m) else ". " + Capital(m)
  }

  /** Lines 534-536: the missing space after a period. */
  function MissingSpace(t: string, d: SpacingDraws): string
  {
    if d.gap > 0.85 then SubFirst(t, PeriodSpaceUpper, RandInt(1, 2, d.count), GlueReplacement(d.glue)) else t
  }

  /** Lines 539-544: one space doubled inside one of the `'. '` pieces, when
      there are more than two of them. */
  function DoubleSpace(t: string, d: SpacingDraws): string
  {
    if d.double > 0.88 then
      var ps := SplitOn(t, ". ");
      if |ps| > 2 then
        var idx := RandInt(0, |ps| - 1, d.piece);
        Join(ps[idx := ReplaceFirst(ps[idx], " ", "  ")], ". ")
      else Join(ps, ". ")
    else t
  }

  /** Stage 7 of the humanizer. */
  function SpacingStage(t: string, d: SpacingDraws): string
  {
    DoubleSpace(MissingSpace(t, d), d)
  }

  /** The replacement of the k-th comma: kept when the draw is at most 0.82. */
  function CommaReplacement(u: nat -> real): (nat, string) -> string
  {
    (k: nat, m: string) => if u(k) > 0.82 then " " else ", "
  }

  /** Stage 8 of the humanizer (line 547). */
  function CommaStage(t: string, u: nat -> real): string
  {
    Sub(t, CommaSpace, CommaReplacement(u))
  }

  predicate NotSpace(c: char) { !IsSpace(c) }

  predicate NotComma(c: char) { c != ',' }

  predicate SpaceOrComma(c: char) { IsSpace(c) || c == ',' }

  // ---------------------------------------------------------------------------
  // What the matches look like

  /** A `\.\s+[A-Z]` match is a period, at least one whitespace character
      and a capital. */
  lemma PeriodMatch(t: string, j: nat)
    requires Hit(t, At(PeriodSpaceUpper, t), j)
    ensures var m := t[j..j + At(PeriodSpaceUpper, t)(j).value];
      && |m| >= 3 && m[0] == '.' && IsUpper(m[|m| - 1])
      && (forall q :: 1 <= q < |m| - 1 ==> IsSpace(m[q]))
  {
    var n := RunFrom(t, j + 1, IsSpace);
    assert At(PeriodSpaceUpper, t)(j).value == n + 2;
  }

  /** A `,\s+` match is a comma and at least one whitespace character. */
  lemma CommaMatch(t: string, j: nat)
    requires Hit(t, At(CommaSpace, t), j)
    ensures var m := t[j..j + At(CommaSpace, t)(j).value];
      && |m| >= 2 && m[0] == ','
      && (forall q :: 1 <= q < |m| ==> IsSpace(m[q]))
  {
    var n := RunFrom(t, j + 1, IsSpace);
    assert At(CommaSpace, t)(j).value == n + 1;
  }

  /** A period, some whitespace and a character erase, for whitespace, to the
      period and the character. */
  lemma ErasePeriodGap(m: string)
    requires |m| >= 2 && m[0] == '.' && !IsSpace(m[|m| - 1])
    requires forall q :: 1 <= q < |m| - 1 ==> IsSpace(m[q])
    ensures Erase(m, IsSpace) == ['.', m[|m| - 1]]
  {
    InnerShift(m, IsSpace);
    EraseRunThen(m[1..], IsSpace);
    EraseFirstKept(m, IsSpace);
  }

  /** Both replacements of a period match keep its period and its capital. */
  lemma GlueErasesAlike(m: string, glue: nat -> real)
    requires |m| >= 3 && m[0] == '.' && IsUpper(m[|m| - 1])
    requires forall q :: 1 <= q < |m| - 1 ==> IsSpace(m[q])
    ensures ErasesAlike(m, GlueReplacement(glue), IsSpace)
  {
    ErasePeriodGap(m);
    var c := m[|m| - 1];
    ErasePeriodGap(['.', c]);
    ErasePeriodGap(['.', ' ', c]);
    assert "." + Capital(m) == ['.', c];
    assert ". " + Capital(m) == ['.', ' ', c];
  }

  /** A comma followed by whitespace. */
  predicate CommaGap(m: string)
  {
    |m| >= 2 && m[0] == ',' && forall q :: 1 <= q < |m| ==> IsSpace(m[q])
  }

  /** Both comma replacements are commas and whitespace only. */
  lemma CommaErasesAlike(m: string, u: nat -> real)
    requires CommaGap(m)
    ensures ErasesAlike(m, CommaReplacement(u), SpaceOrComma)
  {
    EraseAll(m, SpaceOrComma);
    EraseAll(" ", SpaceOrComma);
    EraseAll(", ", SpaceOrComma);
  }

  /** A comma match erases, for everything but commas, to its one comma. */
  lemma CommaGapCommas(m: string)
    requires CommaGap(m)
    ensures Erase(m, NotComma) == ","
  {
    assert m == [','] + m[1..];
    EraseAppend([','], m[1..], NotComma);
    EraseNone([','], NotComma);
    EraseAll(m[1..], NotComma);
  }

  /** A comma match erases, for everything but whitespace, to its whitespace. */
  lemma CommaGapSpaces(m: string)
    requires CommaGap(m)
    ensures |Erase(m, NotSpace)| == |m| - 1 >= 1
  {
    assert m == [','] + m[1..];
    EraseAppend([','], m[1..], NotSpace);
    EraseAll([','], NotSpace);
    EraseNone(m[1..], NotSpace);
  }

  // ---------------------------------------------------------------------------
  // Stage 7 moves only whitespace

  /** The missing space deletes whitespace and nothing else. */
  lemma MissingSpaceKeeps(t: string, d: SpacingDraws)
    ensures Erase(MissingSpace(t, d), IsSpace) == Erase(t, IsSpace)
  {
    if d.gap > 0.85 {
      var at := At(PeriodSpaceUpper, t);
      forall j | 0 <= j < |t| && Hit(t, at, j)
        ensures ErasesAlike(t[j..j + at(j).value], GlueReplacement(d.glue), IsSpace)
      {
        PeriodMatch(t, j);
        GlueErasesAlike(t[j..j + at(j).value], d.glue);
      }
      SubErase(t, at, 0, 0, AtMost(RandInt(1, 2, d.count)), GlueReplacement(d.glue), IsSpace);
      assert t[0..] == t;
    }
  }

  /** Doubling a space inserts at most one whitespace character and changes
      nothing else; with two pieces or fewer the text comes back whole. */
  lemma DoubleSpaceKeeps(t: string, d: SpacingDraws)
    ensures Erase(DoubleSpace(t, d), IsSpace) == Erase(t, IsSpace)
    ensures |t| <= |DoubleSpace(t, d)| <= |t| + 1
    ensures |SplitOn(t, ". ")| <= 2 ==> DoubleSpace(t, d) == t
  {
    if d.double > 0.88 {
      var ps := SplitOn(t, ". ");
      JoinSplitOn(t, ". ");
      if |ps| > 2 {
        var idx := RandInt(0, |ps| - 1, d.piece);
        var x := ReplaceFirst(ps[idx], " ", "  ");
        ReplaceFirstSpace(ps[idx]);
        JoinUpdate(ps, ". ", idx, x, IsSpace);
      }
    }
  }

  /** Stage 7 as a whole changes whitespace only. */
  lemma SpacingStageKeeps(t: string, d: SpacingDraws)
    ensures Erase(SpacingStage(t, d), IsSpace) == Erase(t, IsSpace)
  {
    MissingSpaceKeeps(t, d);
    DoubleSpaceKeeps(MissingSpace(t, d), d);
  }

  // ---------------------------------------------------------------------------
  // Stage 8 drops commas and normalises the gap after them

  /** Every comma with the whitespace after it becomes `", "` when its draw
      is at most 0.82 and a single space otherwise; the rest of the text is
      copied. */
  lemma CommaStageIsSplice(t: string, u: nat -> real)
    ensures var ms := FindAll(t, CommaSpace);
      CommaStage(t, u) == Splice(t, ms, Reps(t, ms, 0, CommaReplacement(u)), 0)
    ensures var ms := FindAll(t, CommaSpace);
      forall q :: 0 <= q < |ms| ==>
        Reps(t, ms, 0, CommaReplacement(u))[q] == if u(q) > 0.82 then " " else ", "
  {
    SubIsSplice(t, At(CommaSpace, t), 0, 0, Unlimited, CommaReplacement(u));
  }

  /** Every `,\s+` match of `t` is a comma gap. */
  lemma CommaHits(t: string)
    ensures forall j :: 0 <= j < |t| && Hit(t, At(CommaSpace, t), j) ==>
      CommaGap(t[j..j + At(CommaSpace, t)(j).value])
  {
    forall j | 0 <= j < |t| && Hit(t, At(CommaSpace, t), j)
      ensures CommaGap(t[j..j + At(CommaSpace, t)(j).value])
    {
      CommaMatch(t, j);
    }
  }

  /** Outside commas and whitespace the text is unchanged. */
  lemma CommaStageKeeps(t: string, u: nat -> real)
    ensures Erase(CommaStage(t, u), SpaceOrComma) == Erase(t, SpaceOrComma)
  {
    var at := At(CommaSpace, t);
    CommaHits(t);
    forall j | 0 <= j < |t| && Hit(t, at, j)
      ensures ErasesAlike(t[j..j + at(j).value], CommaReplacement(u), SpaceOrComma)
    {
      CommaErasesAlike(t[j..j + at(j).value], u);
    }
    SubErase(t, at, 0, 0, Unlimited, CommaReplacement(u), SpaceOrComma);
    assert t[0..] == t;
  }

  /** The stage never adds a comma. */
  lemma CommaStageCommas(t: string, u: nat -> real)
    ensures |Erase(CommaStage(t, u), NotComma)| <= |Erase(t, NotComma)|
  {
    var at := At(CommaSpace, t);
    CommaHits(t);
    forall j | 0 <= j < |t| && Hit(t, at, j)
      ensures ErasesShorter(t[j..j + at(j).value], CommaReplacement(u), NotComma)
    {
      var m := t[j..j + at(j).value];
      CommaGapCommas(m);
      EraseAll(" ", NotComma);
      EraseNone([','], NotComma);
      EraseAppend([','], " ", NotComma);
      assert ", " == [','] + " ";
    }
    SubEraseShorter(t, at, 0, 0, Unlimited, CommaReplacement(u), NotComma);
    assert t[0..] == t;
  }

  /** When every draw keeps its comma, the commas are all still there. */
  lemma CommaStageKeepsCommas(t: string, u: nat -> real)
    requires forall k: nat :: u(k) <= 0.82
    ensures Erase(CommaStage(t, u), NotComma) == Erase(t, NotComma)
  {
    var at := At(CommaSpace, t);
    CommaHits(t);
    forall j | 0 <= j < |t| && Hit(t, at, j)
      ensures ErasesAlike(t[j..j + at(j).value], CommaReplacement(u), NotComma)
    {
      var m := t[j..j + at(j).value];
      CommaGapCommas(m);
      EraseAll(" ", NotComma);
      EraseNone([','], NotComma);
      EraseAppend([','], " ", NotComma);
      assert ", " == [','] + " ";
    }
    SubErase(t, at, 0, 0, Unlimited, CommaReplacement(u), NotComma);
    assert t[0..] == t;
  }

  /** The stage never adds whitespace: each gap shrinks to one space. */
  lemma CommaStageSpaces(t: string, u: nat -> real)
    ensures |Erase(CommaStage(t, u), NotSpace)| <= |Erase(t, NotSpace)|
  {
    var at := At(CommaSpace, t);
    CommaHits(t);
    forall j | 0 <= j < |t| && Hit(t, at, j)
      ensures ErasesShorter(t[j..j + at(j).value], CommaReplacement(u), NotSpace)
    {
      var m := t[j..j + at(j).value];
      CommaGapSpaces(m);
      EraseNone(" ", NotSpace);
      EraseAll([','], NotSpace);
      EraseAppend([','], " ", NotSpace);
      assert ", " == [','] + " ";
    }
    SubEraseShorter(t, at, 0, 0, Unlimited, CommaReplacement(u), NotSpace);
    assert t[0..] == t;
  }
}
