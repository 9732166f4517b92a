/** `computeVisualDiff` (script.js:104-153): a word-level diff of the
    original and the rewritten text for display.

    Both texts are split on whitespace runs. A dynamic program fills `dp`,
    where `dp[i][j]` is the length of a longest common subsequence of the
    words from i on and from j on, words compared case-insensitively
    (`Lcs`, proved to be the longest with `LcsUpper` and `LcsWitness`). A
    walk from (0, 0) then emits every rewritten word once, plain when it
    belongs to the common subsequence and highlighted when it was added;
    original words that were dropped emit nothing. */
module Diff {
  import opened Text
  import opened Display

  function Max(x: nat, y: nat): nat { if x >= y then x else y }

  /** `a.toLowerCase() === b.toLowerCase()`. */
  predicate SameWord(x: string, y: string)
  {
    Lower(x) == Lower(y)
  }

  /** The value `dp[i][j]` of the table: the recurrence of lines 113-121,
      with `dp[n][j] = dp[i][m] = 0` from the zero fill of line 111. */
  function Lcs(a: seq<string>, b: seq<string>, i: nat, j: nat): nat
    requires i <= |a| && j <= |b|
    decreases |a| - i + |b| - j
  {
    if i == |a| || j == |b| then 0
    else if SameWord(a[i], b[j]) then 1 + Lcs(a, b, i + 1, j + 1)
    else Max(Lcs(a, b, i + 1, j), Lcs(a, b, i, j + 1))
  }

  // ---------------------------------------------------------------------------
  // Filling the table (lines 109-121)

  /** `dp` holds `Lcs` in every cell. */
  predicate IsTable(dp: seq<seq<nat>>, a: seq<string>, b: seq<string>)
  {
    && |dp| == |a| + 1
    && (forall i :: 0 <= i < |dp| ==> |dp[i]| == |b| + 1)
    && (forall i, j :: 0 <= i <= |a| && 0 <= j <= |b| ==> dp[i][j] == Lcs(a, b, i, j))
  }

  /** The loops of lines 113-121, row n first and each row from its end. */
  method LcsTable(a: seq<string>, b: seq<string>) returns (dp: seq<seq<nat>>)
    ensures IsTable(dp, a, b)
  {
    var rows: seq<seq<nat>> := [seq(|b| + 1, _ => 0)];
    var i := |a|;
    while i > 0
      invariant 0 <= i <= |a|
      invariant |rows| == |a| + 1 - i
      invariant forall r :: 0 <= r < |rows| ==> |rows[r]| == |b| + 1
      invariant forall r, j :: 0 <= r < |rows| && 0 <= j <= |b| ==> rows[r][j] == Lcs(a, b, i + r, j)
    {
      i := i - 1;
      var next := rows[0];
      var row: seq<nat> := [0];
      var j := |b|;
      while j > 0
        invariant 0 <= j <= |b|
        invariant |row| == |b| + 1 - j
        invariant forall q :: 0 <= q < |row| ==> row[q] == Lcs(a, b, i, j + q)
      {
        j := j - 1;
        var v := if SameWord(a[i], b[j]) then 1 + next[j + 1] else Max(next[j], row[0]);
        row := [v] + row;
      }
      rows := [row] + rows;
    }
    dp := rows;
  }

  // ---------------------------------------------------------------------------
  // The table holds longest common subsequences

  /** A pair of word positions, one in each text. */
  datatype Pair = Pair(x: nat, y: nat)

  /** `ps` pairs equal words of `a` from i on and `b` from j on, strictly
      increasing in both texts: a common subsequence. */
  predicate Common(a: seq<string>, b: seq<string>, ps: seq<Pair>, i: nat, j: nat)
  {
    && (forall k :: 0 <= k < |ps| ==>
         i <= ps[k].x < |a| && j <= ps[k].y < |b| && SameWord(a[ps[k].x], b[ps[k].y]))
    && (forall k :: 0 <= k < |ps| - 1 ==> ps[k].x < ps[k + 1].x && ps[k].y < ps[k + 1].y)
  }

  /** Dropping a word from either text loses at most one common word, and
      never gains one. */
  lemma {:induction false} LcsSteps(a: seq<string>, b: seq<string>, i: nat, j: nat)
    requires i <= |a| && j <= |b|
    ensures i < |a| ==> Lcs(a, b, i + 1, j) <= Lcs(a, b, i, j) <= 1 + Lcs(a, b, i + 1, j)
    ensures j < |b| ==> Lcs(a, b, i, j + 1) <= Lcs(a, b, i, j) <= 1 + Lcs(a, b, i, j + 1)
    decreases |a| - i + |b| - j
  {
    if i < |a| && j < |b| {
      LcsSteps(a, b, i + 1, j);
      LcsSteps(a, b, i, j + 1);
    }
  }

  /** No common subsequence is longer than `Lcs`. */
  lemma {:induction false} LcsUpper(a: seq<string>, b: seq<string>, ps: seq<Pair>, i: nat, j: nat)
    requires i <= |a| && j <= |b| && Common(a, b, ps, i, j)
    ensures |ps| <= Lcs(a, b, i, j)
    decreases |a| - i + |b| - j
  {
    if |ps| > 0 {
      var p := ps[0];
      LcsSteps(a, b, i, j);
      if p.x > i {
        CommonFrom(a, b, ps, i, j, i + 1, j);
        LcsUpper(a, b, ps, i + 1, j);
      } else if p.y > j {
        CommonFrom(a, b, ps, i, j, i, j + 1);
        LcsUpper(a, b, ps, i, j + 1);
      } else {
        CommonTail(a, b, ps, i, j);
        LcsUpper(a, b, ps[1..], i + 1, j + 1);
      }
    }
  }

  /** A common subsequence still is one from any start up to its first pair. */
  lemma CommonFrom(a: seq<string>, b: seq<string>, ps: seq<Pair>, i: nat, j: nat, i2: nat, j2: nat)
    requires Common(a, b, ps, i, j) && |ps| > 0
    requires i <= i2 <= ps[0].x && j <= j2 <= ps[0].y
    ensures Common(a, b, ps, i2, j2)
  {
    forall k | 0 < k < |ps|
      ensures ps[0].x < ps[k].x && ps[0].y < ps[k].y
    {
      CommonIncreasing(a, b, ps, i, j, k);
    }
  }

  /** Past its first pair, a common subsequence is one from just after it. */
  lemma CommonTail(a: seq<string>, b: seq<string>, ps: seq<Pair>, i: nat, j: nat)
    requires Common(a, b, ps, i, j) && |ps| > 0
    ensures Common(a, b, ps[1..], ps[0].x + 1, ps[0].y + 1)
  {
    forall k | 0 < k < |ps|
      ensures ps[0].x < ps[k].x && ps[0].y < ps[k].y
    {
      CommonIncreasing(a, b, ps, i, j, k);
    }
  }

  /** Every later pair of a common subsequence comes after the first. */
  lemma {:induction false} CommonIncreasing(a: seq<string>, b: seq<string>, ps: seq<Pair>, i: nat, j: nat, k: nat)
    requires Common(a, b, ps, i, j) && 0 < k < |ps|
    ensures ps[0].x < ps[k].x && ps[0].y < ps[k].y
    decreases k
  {
    if k > 1 {
      CommonIncreasing(a, b, ps, i, j, k - 1);
    }
  }

  /** A common subsequence of length `Lcs`, read off the recurrence. */
  function Witness(a: seq<string>, b: seq<string>, i: nat, j: nat): (ps: seq<Pair>)
    requires i <= |a| && j <= |b|
    decreases |a| - i + |b| - j
  {
    if i == |a| || j == |b| then []
    else if SameWord(a[i], b[j]) then [Pair(i, j)] + Witness(a, b, i + 1, j + 1)
    else if Lcs(a, b, i + 1, j) >= Lcs(a, b, i, j + 1) then Witness(a, b, i + 1, j)
    else Witness(a, b, i, j + 1)
  }

  /** The witness from (i, j) is a common subsequence as long as `Lcs`. */
  predicate Witnessed(a: seq<string>, b: seq<string>, i: nat, j: nat)
    requires i <= |a| && j <= |b|
  {
    Common(a, b, Witness(a, b, i, j), i, j) && |Witness(a, b, i, j)| == Lcs(a, b, i, j)
  }

  /** `Lcs` is reached: the witness is a common subsequence of that length. */
  lemma {:induction false} LcsWitness(a: seq<string>, b: seq<string>, i: nat, j: nat)
    requires i <= |a| && j <= |b|
    ensures Common(a, b, Witness(a, b, i, j), i, j)
    ensures |Witness(a, b, i, j)| == Lcs(a, b, i, j)
    decreases |a| - i + |b| - j
  {
    if i < |a| && j < |b| {
      if SameWord(a[i], b[j]) {
        LcsWitness(a, b, i + 1, j + 1);
        WitnessMatch(a, b, i, j);
      } else if Lcs(a, b, i + 1, j) >= Lcs(a, b, i, j + 1) {
        LcsWitness(a, b, i + 1, j);
        WitnessSkip(a, b, i, j);
      } else {
        LcsWitness(a, b, i, j + 1);
        WitnessAdd(a, b, i, j);
      }
    }
  }

  lemma WitnessMatch(a: seq<string>, b: seq<string>, i: nat, j: nat)
    requires i < |a| && j < |b| && SameWord(a[i], b[j]) && Witnessed(a, b, i + 1, j + 1)
    ensures Witnessed(a, b, i, j)
  {
    CommonCons(a, b, Witness(a, b, i + 1, j + 1), i, j);
  }

  lemma WitnessSkip(a: seq<string>, b: seq<string>, i: nat, j: nat)
    requires i < |a| && j < |b| && !SameWord(a[i], b[j]) && Lcs(a, b, i + 1, j) >= Lcs(a, b, i, j + 1)
    requires Witnessed(a, b, i + 1, j)
    ensures Witnessed(a, b, i, j)
  {
    CommonWiden(a, b, Witness(a, b, i + 1, j), i + 1, j, i, j);
  }

  lemma WitnessAdd(a: seq<string>, b: seq<string>, i: nat, j: nat)
    requires i < |a| && j < |b| && !SameWord(a[i], b[j]) && Lcs(a, b, i + 1, j) < Lcs(a, b, i, j + 1)
    requires Witnessed(a, b, i, j + 1)
    ensures Witnessed(a, b, i, j)
  {
    CommonWiden(a, b, Witness(a, b, i, j + 1), i, j + 1, i, j);
  }

  /** A matching pair in front of a common subsequence from just after it
      gives a common subsequence. */
  lemma CommonCons(a: seq<string>, b: seq<string>, rest: seq<Pair>, i: nat, j: nat)
    requires i < |a| && j < |b| && SameWord(a[i], b[j])
    requires Common(a, b, rest, i + 1, j + 1)
    ensures Common(a, b, [Pair(i, j)] + rest, i, j)
  {
    var ps := [Pair(i, j)] + rest;
    assert forall k :: 0 < k < |ps| ==> ps[k] == rest[k - 1];
  }

  /** A common subsequence from a later start is one from an earlier start. */
  lemma CommonWiden(a: seq<string>, b: seq<string>, ps: seq<Pair>, i: nat, j: nat, i2: nat, j2: nat)
    requires Common(a, b, ps, i, j) && i2 <= i && j2 <= j
    ensures Common(a, b, ps, i2, j2)
  {
  }

  /** A common subsequence is never longer than what is left of either text. */
  lemma {:induction false} LcsBound(a: seq<string>, b: seq<string>, i: nat, j: nat)
    requires i <= |a| && j <= |b|
    ensures Lcs(a, b, i, j) <= |a| - i && Lcs(a, b, i, j) <= |b| - j
    decreases |a| - i + |b| - j
  {
    if i < |a| && j < |b| {
      LcsBound(a, b, i + 1, j + 1);
      LcsBound(a, b, i + 1, j);
      LcsBound(a, b, i, j + 1);
    }
  }

  // ---------------------------------------------------------------------------
  // The walk (lines 124-150)

  const StructuralWords: seq<string> := ["really", "actually", "basically", "honestly", "pretty", "quite",
    "very", "like", "just", "so", "well", "now"]

  /** `/^(really|...|now)$/i.test(w)`. */
  predicate IsStructural(w: string)
  {
    Lower(w) in StructuralWords
  }

  /** How a rewritten word is shown: plain, as a replacement (red), or as
      an addition (orange for a filler-like word, blue otherwise). */
  datatype Mark = Kept | Replaced | Added(structural: bool)

  datatype Item = Item(mark: Mark, word: string)

  /** The step the walk takes at (i, j): the branches of lines 128-149. */
  datatype Move = Match | Replace | Skip | Add

  /** The branch taken at (i, j) when the walk is not yet done. The
      replacement branch sits under a guard that contradicts it
      (`ChooseNeverReplaces`). */
  function Choose(a: seq<string>, b: seq<string>, i: nat, j: nat): Move
    requires i <= |a| && j <= |b|
  {
    if i < |a| && j < |b| && SameWord(a[i], b[j]) then Match
    else if i < |a| && (j >= |b| || Lcs(a, b, i + 1, j) >= Lcs(a, b, i, j + 1)) then
      if j < |b| && Lcs(a, b, i, j + 1) > Lcs(a, b, i + 1, j) then Replace else Skip
    else Add
  }

  /** The mark of the entry a move emits (a skip emits none). */
  function MarkOf(mv: Move, w: string): Mark
  {
    if mv == Match then Kept else if mv == Replace then Replaced else Added(IsStructural(w))
  }

  /** The entry the move at (i, j) emits: none for a skip. */
  function Emitted(a: seq<string>, b: seq<string>, i: nat, j: nat): seq<Item>
    requires i <= |a| && j <= |b| && (i < |a| || j < |b|)
  {
    ChooseBounds(a, b, i, j);
    var mv := Choose(a, b, i, j);
    if mv == Skip then [] else [Item(MarkOf(mv, b[j]), b[j])]
  }

  /** The row the move at (i, j) leads to: an addition stays on row i. */
  function NextI(a: seq<string>, b: seq<string>, i: nat, j: nat): (i2: nat)
    requires i <= |a| && j <= |b| && (i < |a| || j < |b|)
    ensures i <= i2 <= |a|
  {
    ChooseBounds(a, b, i, j);
    if Choose(a, b, i, j) == Add then i else i + 1
  }

  /** The column the move at (i, j) leads to: a skip stays on column j. */
  function NextJ(a: seq<string>, b: seq<string>, i: nat, j: nat): (j2: nat)
    requires i <= |a| && j <= |b| && (i < |a| || j < |b|)
    ensures j <= j2 <= |b|
  {
    ChooseBounds(a, b, i, j);
    if Choose(a, b, i, j) == Skip then j else j + 1
  }

  /** The items the walk from (i, j) emits. */
  function Walk(a: seq<string>, b: seq<string>, i: nat, j: nat): seq<Item>
    requires i <= |a| && j <= |b|
    decreases |a| - i + |b| - j
  {
    if i == |a| && j == |b| then []
    else Emitted(a, b, i, j) + Walk(a, b, NextI(a, b, i, j), NextJ(a, b, i, j))
  }

  /** Every move but a skip reads a rewritten word, and every move but an
      addition reads an original word. */
  lemma ChooseBounds(a: seq<string>, b: seq<string>, i: nat, j: nat)
    requires i <= |a| && j <= |b| && (i < |a| || j < |b|)
    ensures Choose(a, b, i, j) != Skip ==> j < |b|
    ensures Choose(a, b, i, j) != Add ==> i < |a|
  {
  }

  /** The replacement branch is dead: its condition `dp[i][j+1] > dp[i+1][j]`
      negates the guard `dp[i+1][j] >= dp[i][j+1]` it is nested in, so a
      red entry is never produced. */
  lemma ChooseNeverReplaces(a: seq<string>, b: seq<string>, i: nat, j: nat)
    requires i <= |a| && j <= |b|
    ensures Choose(a, b, i, j) != Replace
    ensures Choose(a, b, i, j) == Skip <==> i < |a| && !(j < |b| && SameWord(a[i], b[j])) && (j == |b| || Lcs(a, b, i + 1, j) >= Lcs(a, b, i, j + 1))
  {
  }

  function WordsOf(items: seq<Item>): (ws: seq<string>)
    ensures |ws| == |items|
    ensures forall k :: 0 <= k < |items| ==> ws[k] == items[k].word
  {
    seq(|items|, k requires 0 <= k < |items| => items[k].word)
  }

  function KeptCount(items: seq<Item>): nat
  {
    if |items| == 0 then 0 else (if items[0].mark == Kept then 1 else 0) + KeptCount(items[1..])
  }

  predicate NoReplaced(items: seq<Item>)
  {
    forall k :: 0 <= k < |items| ==> items[k].mark != Replaced
  }

  lemma WordsOfAppend(x: seq<Item>, y: seq<Item>)
    ensures WordsOf(x + y) == WordsOf(x) + WordsOf(y)
  {
    assert forall k :: 0 <= k < |x + y| ==> WordsOf(x + y)[k] == (WordsOf(x) + WordsOf(y))[k];
  }

  lemma {:induction false} KeptCountAppend(x: seq<Item>, y: seq<Item>)
    ensures KeptCount(x + y) == KeptCount(x) + KeptCount(y)
    decreases |x|
  {
    if |x| > 0 {
      assert (x + y)[1..] == x[1..] + y;
      KeptCountAppend(x[1..], y);
    } else {
      assert x + y == y;
    }
  }

  lemma NoReplacedAppend(x: seq<Item>, y: seq<Item>)
    requires NoReplaced(x) && NoReplaced(y)
    ensures NoReplaced(x + y)
  {
    assert forall k :: |x| <= k < |x + y| ==> (x + y)[k] == y[k - |x|];
  }

  /** One step of the walk: the entry of the move, then the walk from the
      cell the move leads to. */
  lemma WalkUnfold(a: seq<string>, b: seq<string>, i: nat, j: nat)
    requires i <= |a| && j <= |b| && (i < |a| || j < |b|)
    ensures Walk(a, b, i, j) == Emitted(a, b, i, j) + Walk(a, b, NextI(a, b, i, j), NextJ(a, b, i, j))
  {
  }

  /** A move emits the rewritten word it reads, and reads one unless it
      skips. */
  lemma EmittedWords(a: seq<string>, b: seq<string>, i: nat, j: nat)
    requires i <= |a| && j <= |b| && (i < |a| || j < |b|)
    ensures WordsOf(Emitted(a, b, i, j)) + b[NextJ(a, b, i, j)..] == b[j..]
  {
    ChooseBounds(a, b, i, j);
    if Choose(a, b, i, j) != Skip {
      assert b[j..] == [b[j]] + b[j + 1..];
    }
  }

  /** No move emits a red entry. */
  lemma EmittedMarks(a: seq<string>, b: seq<string>, i: nat, j: nat)
    requires i <= |a| && j <= |b| && (i < |a| || j < |b|)
    ensures NoReplaced(Emitted(a, b, i, j))
  {
    ChooseNeverReplaces(a, b, i, j);
  }

  /** A match emits the one plain entry of the step and uses up one word of
      the common subsequence; a skip and an addition keep its length. */
  lemma EmittedKept(a: seq<string>, b: seq<string>, i: nat, j: nat)
    requires i <= |a| && j <= |b| && (i < |a| || j < |b|)
    ensures KeptCount(Emitted(a, b, i, j)) + Lcs(a, b, NextI(a, b, i, j), NextJ(a, b, i, j)) == Lcs(a, b, i, j)
  {
    ChooseBounds(a, b, i, j);
    ChooseNeverReplaces(a, b, i, j);
  }

  /** Every rewritten word from j on is emitted exactly once, in order. */
  lemma {:induction false} WalkWords(a: seq<string>, b: seq<string>, i: nat, j: nat)
    requires i <= |a| && j <= |b|
    ensures WordsOf(Walk(a, b, i, j)) == b[j..]
    decreases |a| - i + |b| - j
  {
    if i < |a| || j < |b| {
      var i2, j2 := NextI(a, b, i, j), NextJ(a, b, i, j);
      WalkWords(a, b, i2, j2);
      WalkUnfold(a, b, i, j);
      WordsOfAppend(Emitted(a, b, i, j), Walk(a, b, i2, j2));
      EmittedWords(a, b, i, j);
    }
  }

  /** The walk never emits a red entry. */
  lemma {:induction false} WalkMarks(a: seq<string>, b: seq<string>, i: nat, j: nat)
    requires i <= |a| && j <= |b|
    ensures NoReplaced(Walk(a, b, i, j))
    decreases |a| - i + |b| - j
  {
    if i < |a| || j < |b| {
      var i2, j2 := NextI(a, b, i, j), NextJ(a, b, i, j);
      WalkMarks(a, b, i2, j2);
      WalkUnfold(a, b, i, j);
      EmittedMarks(a, b, i, j);
      NoReplacedAppend(Emitted(a, b, i, j), Walk(a, b, i2, j2));
    }
  }

  /** The plain entries of the walk are as many as the longest common
      subsequence from (i, j) is long. */
  lemma {:induction false} WalkKept(a: seq<string>, b: seq<string>, i: nat, j: nat)
    requires i <= |a| && j <= |b|
    ensures KeptCount(Walk(a, b, i, j)) == Lcs(a, b, i, j)
    decreases |a| - i + |b| - j
  {
    if i < |a| || j < |b| {
      var i2, j2 := NextI(a, b, i, j), NextJ(a, b, i, j);
      WalkKept(a, b, i2, j2);
      WalkUnfold(a, b, i, j);
      KeptCountAppend(Emitted(a, b, i, j), Walk(a, b, i2, j2));
      EmittedKept(a, b, i, j);
    }
  }

  /** Every rewritten word from j on is emitted exactly once, in order; the
      replacement branch is never taken, since its condition contradicts
      the guard around it; and the plain words are as many as the longest
      common subsequence. */
  lemma WalkEmits(a: seq<string>, b: seq<string>, i: nat, j: nat)
    requires i <= |a| && j <= |b|
    ensures WordsOf(Walk(a, b, i, j)) == b[j..]
    ensures NoReplaced(Walk(a, b, i, j))
    ensures KeptCount(Walk(a, b, i, j)) == Lcs(a, b, i, j)
  {
    WalkWords(a, b, i, j);
    WalkMarks(a, b, i, j);
    WalkKept(a, b, i, j);
  }

  /** The two table cells the walk compares. */
  lemma TableCells(dp: seq<seq<nat>>, a: seq<string>, b: seq<string>, i: nat, j: nat)
    requires IsTable(dp, a, b) && i < |a| && j < |b|
    ensures dp[i + 1][j] == Lcs(a, b, i + 1, j) && dp[i][j + 1] == Lcs(a, b, i, j + 1)
  {
  }

  /** The branch of lines 128-149, decided on the table's cells. */
  method ChooseByTable(a: seq<string>, b: seq<string>, dp: seq<seq<nat>>, i: nat, j: nat) returns (mv: Move)
    requires IsTable(dp, a, b) && i <= |a| && j <= |b|
    ensures mv == Choose(a, b, i, j)
  {
    if i < |a| && j < |b| {
      TableCells(dp, a, b, i, j);
    }
    if i < |a| && j < |b| && SameWord(a[i], b[j]) {
      mv := Match;
    } else if i < |a| && (j >= |b| || dp[i + 1][j] >= dp[i][j + 1]) {
      if j < |b| && dp[i][j + 1] > dp[i + 1][j] {
        mv := Replace;
      } else {
        mv := Skip;
      }
    } else {
      mv := Add;
    }
  }

  /** The backtracking loop over a filled table. */
  method Backtrack(a: seq<string>, b: seq<string>, dp: seq<seq<nat>>) returns (items: seq<Item>)
    requires IsTable(dp, a, b)
    ensures items == Walk(a, b, 0, 0)
  {
    var i, j := 0, 0;
    items := [];
    while i < |a| || j < |b|
      invariant i <= |a| && j <= |b|
      invariant items + Walk(a, b, i, j) == Walk(a, b, 0, 0)
      decreases |a| - i + |b| - j
    {
      var mv := ChooseByTable(a, b, dp, i, j);
      ChooseBounds(a, b, i, j);
      var e := if mv == Skip then [] else [Item(MarkOf(mv, b[j]), b[j])];
      var i2 := if mv == Add then i else i + 1;
      var j2 := if mv == Skip then j else j + 1;
      WalkUnfold(a, b, i, j);
      assert e == Emitted(a, b, i, j) && i2 == NextI(a, b, i, j) && j2 == NextJ(a, b, i, j);
      AppendAssoc(items, e, Walk(a, b, i2, j2));
      items, i, j := items + e, i2, j2;
    }
  }

  // ---------------------------------------------------------------------------
  // The HTML of the diff

  function SpanOpen(color: string): string
  {
    "<span style=\"background:" + color + ";color:white;padding:2px 6px;border-radius:4px;font-weight:500\">"
  }

  const SpanClose: string := "</span>"

  /** The entry of one rewritten word. */
  function Render(it: Item): string
  {
    match it.mark
    case Kept => EscapeHtml(it.word)
    case Replaced => SpanOpen("#ff4757") + EscapeHtml(it.word) + SpanClose
    case Added(structural) => SpanOpen(if structural then "#ffa502" else "#1e90ff") + EscapeHtml(it.word) + SpanClose
  }

  function RenderAll(items: seq<Item>): (es: seq<string>)
    ensures |es| == |items|
    ensures forall k :: 0 <= k < |items| ==> es[k] == Render(items[k])
  {
    seq(|items|, k requires 0 <= k < |items| => Render(items[k]))
  }

  /** The items of `computeVisualDiff(original, humanized)`. */
  function DiffItems(original: string, humanized: string): seq<Item>
  {
    Walk(SplitWs(original), SplitWs(humanized), 0, 0)
  }

  /** `computeVisualDiff(original, humanized)`: the entries joined by spaces. */
  function VisualDiff(original: string, humanized: string): string
  {
    Join(RenderAll(DiffItems(original, humanized)), " ")
  }

  /** The method form of `computeVisualDiff`: the table, then the walk. */
  method ComputeVisualDiff(original: string, humanized: string) returns (html: string)
    ensures html == VisualDiff(original, humanized)
  {
    var a := SplitWs(original);
    var b := SplitWs(humanized);
    var dp := LcsTable(a, b);
    var items := Backtrack(a, b, dp);
    html := Join(RenderAll(items), " ");
  }

  /** The diff has one entry per piece of the rewritten text, in order: the
      piece escaped, plain when it is in the longest common subsequence and
      in an orange or blue span when it was added. As many entries are
      plain as the longest common subsequence is long. */
  lemma VisualDiffEntries(original: string, humanized: string)
    ensures var b := SplitWs(humanized);
      var items := DiffItems(original, humanized);
      && |items| == |b|
      && (forall k :: 0 <= k < |b| ==> items[k].word == b[k] && items[k].mark != Replaced)
      && (forall k :: 0 <= k < |b| ==> items[k].mark == Kept ==> Render(items[k]) == EscapeHtml(b[k]))
      && (forall k :: 0 <= k < |b| ==> items[k].mark.Added? ==>
            Render(items[k]) == SpanOpen(if IsStructural(b[k]) then "#ffa502" else "#1e90ff") + EscapeHtml(b[k]) + SpanClose)
      && KeptCount(items) == Lcs(SplitWs(original), b, 0, 0)
  {
    var a := SplitWs(original);
    var b := SplitWs(humanized);
    WalkEmits(a, b, 0, 0);
    var items := DiffItems(original, humanized);
    assert b[0..] == b;
    assert forall k :: 0 <= k < |b| ==> items[k].word == WordsOf(items)[k];
    WalkAdded(a, b, 0, 0);
  }

  /** Every added entry is marked structural exactly when its word is a
      filler word. */
  predicate AddedByWord(items: seq<Item>)
  {
    forall k :: 0 <= k < |items| && items[k].mark.Added? ==> items[k].mark.structural == IsStructural(items[k].word)
  }

  lemma AddedByWordAppend(x: seq<Item>, y: seq<Item>)
    requires AddedByWord(x) && AddedByWord(y)
    ensures AddedByWord(x + y)
  {
    assert forall k :: |x| <= k < |x + y| ==> (x + y)[k] == y[k - |x|];
  }

  /** An added word is coloured by its own text. */
  lemma {:induction false} WalkAdded(a: seq<string>, b: seq<string>, i: nat, j: nat)
    requires i <= |a| && j <= |b|
    ensures AddedByWord(Walk(a, b, i, j))
    decreases |a| - i + |b| - j
  {
    if i < |a| || j < |b| {
      var i2, j2 := NextI(a, b, i, j), NextJ(a, b, i, j);
      WalkAdded(a, b, i2, j2);
      WalkUnfold(a, b, i, j);
      AddedByWordAppend(Emitted(a, b, i, j), Walk(a, b, i2, j2));
    }
  }
}
