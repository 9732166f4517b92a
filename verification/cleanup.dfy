/** Stage 13: the clean-up that ends every rewrite (lines 598-604). Five
    substitutions cap whitespace runs at two characters, period runs at
    three, remove whitespace before a period, cap newline runs at two and
    collapse a doubled period; the result is stripped.

    `CalmFrom` is the shape the clean-up leaves behind, read left to right
    with a count of the whitespace characters just seen; `Calm` states the
    same thing in terms of whole runs and is proved equivalent to it. */
module Cleanup {
  import opened Options
  import opened Text
  import opened Regex

  /** A replacement that does not depend on the match. */
  function Const(s: string): (nat, string) -> string
  {
    (k: nat, m: string) => s
  }

  function CapSpaces(t: string): string
  {
    Sub(t, SpaceRun(3), Const("  "))
  }

  function CapPeriods(t: string): string
  {
    Sub(t, CharRun('.', 4), Const("..."))
  }

  function TightenPeriods(t: string): string
  {
    Sub(t, SpaceThenPeriod, Const("."))
  }

  function CapNewlines(t: string): string
  {
    Sub(t, CharRun('\n', 3), Const("\n\n"))
  }

  /** Line 602 as written: `re.sub(r'\.\.', '.', text)`, which also eats one
      period of every ellipsis. */
  function DoubleDotsAsWritten(t: string): string
  {
    Sub(t, Lit(".."), Const("."))
  }

  /** Line 602 as evidently intended: only a pair of periods that is not part
      of a longer run is collapsed. */
  function DoubleDots(t: string): string
  {
    Sub(t, LonePair('.'), Const("."))
  }

  /** The first four substitutions, shared by both versions. */
  function Tidy(t: string): string
  {
    CapNewlines(TightenPeriods(CapPeriods(CapSpaces(t))))
  }

  function CleanupAsWritten(t: string): string
  {
    Strip(DoubleDotsAsWritten(Tidy(t)))
  }

  /** Stage 13 of the humanizer, with the corrected line 602. */
  function CleanupStage(t: string): string
  {
    Strip(DoubleDots(Tidy(t)))
  }

  // ---------------------------------------------------------------------------
  // The shape of clean text

  /** The whitespace count after reading `x`. */
  function Next(c: nat, x: char): nat
  {
    if IsSpace(x) then c + 1 else 0
  }

  /** Read after `c` whitespace characters, `s` never reaches a third
      whitespace character in a row and, with `dots`, never has whitespace
      right before a period. */
  predicate CalmFrom(s: string, c: nat, dots: bool)
    decreases |s|
  {
    |s| == 0 ||
      ((IsSpace(s[0]) ==> c < 2) && (dots && s[0] == '.' ==> c == 0) && CalmFrom(s[1..], Next(c, s[0]), dots))
  }

  /** The whitespace count after reading all of `s`. */
  function Trail(s: string, c: nat): nat
    decreases |s|
  {
    if |s| == 0 then c else Trail(s[1..], Next(c, s[0]))
  }

  predicate SpaceBeforePeriod(s: string, j: nat)
  {
    j + 1 < |s| && IsSpace(s[j]) && s[j + 1] == '.'
  }

  /** No run of more than two whitespace characters and, with `dots`, no
      whitespace right before a period. */
  predicate Calm(s: string, dots: bool)
  {
    && (forall j :: 0 <= j < |s| ==> RunFrom(s, j, IsSpace) <= 2)
    && (dots ==> forall j: nat :: j < |s| ==> !SpaceBeforePeriod(s, j))
  }

  lemma CalmCons(x: char, s: string, c: nat, dots: bool)
    ensures CalmFrom([x] + s, c, dots) <==>
      (IsSpace(x) ==> c < 2) && (dots && x == '.' ==> c == 0) && CalmFrom(s, Next(c, x), dots)
  {
    assert ([x] + s)[1..] == s;
  }

  lemma {:induction false} CalmAppend(a: string, b: string, c: nat, dots: bool)
    ensures CalmFrom(a + b, c, dots) <==> CalmFrom(a, c, dots) && CalmFrom(b, Trail(a, c), dots)
    decreases |a|
  {
    if |a| == 0 {
      assert a + b == b;
    } else {
      assert a + b == [a[0]] + (a[1..] + b);
      CalmCons(a[0], a[1..] + b, c, dots);
      CalmAppend(a[1..], b, Next(c, a[0]), dots);
    }
  }

  /** Fewer whitespace characters before can only help. */
  lemma {:induction false} CalmFromLess(s: string, c: nat, c': nat, dots: bool)
    requires CalmFrom(s, c, dots) && c' <= c
    ensures CalmFrom(s, c', dots)
    decreases |s|
  {
    if |s| > 0 {
      CalmFromLess(s[1..], Next(c, s[0]), Next(c', s[0]), dots);
    }
  }

  lemma RunFromShift(s: string, j: nat, p: char -> bool)
    requires 0 < |s| && j < |s|
    ensures RunFrom(s, j + 1, p) == RunFrom(s[1..], j, p)
    decreases |s| - j
  {
    if j + 1 < |s| && p(s[j + 1]) {
      RunFromShift(s, j + 1, p);
    }
  }

  /** The reading and the run formulation agree: read from the start, `s` is
      calm exactly when its runs are. */
  lemma {:induction false} CalmFromMeans(s: string, c: nat, dots: bool)
    requires c <= 2
    ensures CalmFrom(s, c, dots) <==>
      && (RunFrom(s, 0, IsSpace) > 0 ==> c + RunFrom(s, 0, IsSpace) <= 2)
      && (dots && c > 0 && |s| > 0 ==> s[0] != '.')
      && Calm(s, dots)
    decreases |s|
  {
    if |s| > 0 {
      var c' := Next(c, s[0]);
      if c' <= 2 {
        CalmFromMeans(s[1..], c', dots);
      }
      CalmShift(s, dots);
      if IsSpace(s[0]) && CalmFrom(s, c, dots) {
        assert RunFrom(s, 0, IsSpace) == 1 + RunFrom(s[1..], 0, IsSpace) by {
          RunFromShift(s, 0, IsSpace);
        }
      }
      if !CalmFrom(s, c, dots) && c' <= 2 && !CalmFrom(s[1..], c', dots) {
        RunFromShift(s, 0, IsSpace);
      }
    }
  }

  /** `Calm` of a text from `Calm` of its tail and its first positions. */
  lemma CalmShift(s: string, dots: bool)
    requires |s| > 0
    ensures Calm(s, dots) <==>
      && RunFrom(s, 0, IsSpace) <= 2
      && (dots ==> !SpaceBeforePeriod(s, 0))
      && Calm(s[1..], dots)
  {
    forall j | 0 <= j < |s| - 1
      ensures RunFrom(s, j + 1, IsSpace) == RunFrom(s[1..], j, IsSpace)
      ensures SpaceBeforePeriod(s, j + 1) == SpaceBeforePeriod(s[1..], j)
    {
      RunFromShift(s, j, IsSpace);
    }
    if Calm(s[1..], dots) && RunFrom(s, 0, IsSpace) <= 2 && (dots ==> !SpaceBeforePeriod(s, 0)) {
      forall j | 0 <= j < |s|
        ensures RunFrom(s, j, IsSpace) <= 2
      {
        if j > 0 {
          assert RunFrom(s, j, IsSpace) == RunFrom(s[1..], j - 1, IsSpace);
        }
      }
      if dots {
        forall j: nat | j < |s|
          ensures !SpaceBeforePeriod(s, j)
        {
          if j > 0 {
            assert SpaceBeforePeriod(s, j) == SpaceBeforePeriod(s[1..], j - 1);
          }
        }
      }
    }
    if Calm(s, dots) {
      forall j | 0 <= j < |s| - 1
        ensures RunFrom(s[1..], j, IsSpace) <= 2
      {
        assert RunFrom(s[1..], j, IsSpace) == RunFrom(s, j + 1, IsSpace);
      }
      if dots {
        forall j: nat | j < |s| - 1
          ensures !SpaceBeforePeriod(s[1..], j)
        {
          assert SpaceBeforePeriod(s, j + 1) == SpaceBeforePeriod(s[1..], j);
        }
      }
    }
  }

  // ---------------------------------------------------------------------------
  // Each substitution keeps or makes the text calm

  /** A `\s{3,}` match is the whole whitespace run from its start. */
  lemma SpaceRunHit(t: string, i: nat)
    requires i <= |t|
    ensures Hit(t, At(SpaceRun(3), t), i) <==> RunFrom(t, i, IsSpace) >= 3
    ensures Hit(t, At(SpaceRun(3), t), i) ==> At(SpaceRun(3), t)(i).value == RunFrom(t, i, IsSpace)
  {
  }

  /** Read after `c` whitespace characters that, when positive, belong to the
      run continuing at i, capping runs leaves no third whitespace in a row. */
  lemma {:induction false} CapSpacesFrom(t: string, i: nat, k: nat, c: nat)
    requires i <= |t| && c <= 2
    requires c > 0 && i < |t| && IsSpace(t[i]) ==> c + RunFrom(t, i, IsSpace) <= 2
    ensures CalmFrom(SubFrom(t, At(SpaceRun(3), t), i, k, Unlimited, Const("  ")), c, false)
    decreases |t| - i
  {
    if i < |t| {
      var n := RunFrom(t, i, IsSpace);
      if n >= 3 {
        CapSpacesFrom(t, i + n, k + 1, 2);
        CapSpacesHit(t, i, k);
      } else {
        CapSpacesMissReads(t, i, c);
        CapSpacesFrom(t, i + 1, k, Next(c, t[i]));
        CapSpacesMiss(t, i, k, c);
      }
    }
  }

  /** Past a character that starts no match, the whitespace read so far
      still belongs to the run continuing at the next position. */
  lemma CapSpacesMissReads(t: string, i: nat, c: nat)
    requires i < |t| && c <= 2 && RunFrom(t, i, IsSpace) < 3
    requires c > 0 && IsSpace(t[i]) ==> c + RunFrom(t, i, IsSpace) <= 2
    ensures Next(c, t[i]) <= 2
    ensures Next(c, t[i]) > 0 && i + 1 < |t| && IsSpace(t[i + 1]) ==> Next(c, t[i]) + RunFrom(t, i + 1, IsSpace) <= 2
  {
    if IsSpace(t[i]) {
      assert RunFrom(t, i, IsSpace) == 1 + RunFrom(t, i + 1, IsSpace);
    }
  }

  /** A character that starts no match is copied, and the text stays calm
      behind it. */
  lemma CapSpacesMiss(t: string, i: nat, k: nat, c: nat)
    requires i < |t| && RunFrom(t, i, IsSpace) < 3
    requires c > 0 && IsSpace(t[i]) ==> c + RunFrom(t, i, IsSpace) <= 2
    requires CalmFrom(SubFrom(t, At(SpaceRun(3), t), i + 1, k, Unlimited, Const("  ")), Next(c, t[i]), false)
    ensures CalmFrom(SubFrom(t, At(SpaceRun(3), t), i, k, Unlimited, Const("  ")), c, false)
  {
    var at := At(SpaceRun(3), t);
    SpaceRunHit(t, i);
    SubMiss(t, at, i, k, Unlimited, Const("  "));
    CalmCons(t[i], SubFrom(t, at, i + 1, k, Unlimited, Const("  ")), c, false);
  }

  lemma CapSpacesHit(t: string, i: nat, k: nat)
    requires i < |t| && RunFrom(t, i, IsSpace) >= 3
    requires var n := RunFrom(t, i, IsSpace);
      CalmFrom(SubFrom(t, At(SpaceRun(3), t), i + n, k + 1, Unlimited, Const("  ")), 2, false)
    ensures CalmFrom(SubFrom(t, At(SpaceRun(3), t), i, k, Unlimited, Const("  ")), 0, false)
  {
    var n := RunFrom(t, i, IsSpace);
    SpaceRunHit(t, i);
    var rest := SubFrom(t, At(SpaceRun(3), t), i + n, k + 1, Unlimited, Const("  "));
    assert SubFrom(t, At(SpaceRun(3), t), i, k, Unlimited, Const("  ")) == "  " + rest;
    PairThenCalm(rest);
  }

  /** Two spaces in front of a text that is calm after two whitespace
      characters make a calm text. */
  lemma PairThenCalm(rest: string)
    requires CalmFrom(rest, 2, false)
    ensures CalmFrom("  " + rest, 0, false)
  {
    CalmAppend("  ", rest, 0, false);
    assert Trail("  ", 0) == 2 by {
      assert "  "[1..] == " ";
      assert " "[1..] == "";
    }
  }

  /** Capping whitespace runs leaves none longer than two. */
  lemma CapSpacesCalm(t: string)
    ensures CalmFrom(CapSpaces(t), 0, false)
  {
    CapSpacesFrom(t, 0, 0, 0);
  }

  predicate AllDots(s: string)
  {
    forall q :: 0 <= q < |s| ==> s[q] == '.'
  }

  /** A non-empty run of periods is calm exactly when no whitespace comes
      before it that matters, and leaves no whitespace behind. */
  lemma {:induction false} DotsCalm(s: string, c: nat, dots: bool)
    requires |s| > 0 && AllDots(s)
    ensures CalmFrom(s, c, dots) <==> (!dots || c == 0)
    ensures Trail(s, c) == 0
    decreases |s|
  {
    if |s| > 1 {
      DotsCalm(s[1..], 0, dots);
    }
  }

  /** The match is a non-empty run of periods and so is every replacement. */
  ghost predicate DotsFor(m: string, r: (nat, string) -> string)
  {
    |m| > 0 && AllDots(m) && forall q: nat :: |r(q, m)| > 0 && AllDots(r(q, m))
  }

  /** Replacing runs of periods by runs of periods keeps a text calm. */
  lemma {:induction false} SubDotsCalm(t: string, at: nat -> Option<nat>, i: nat, k: nat, b: Budget, r: (nat, string) -> string, c: nat, dots: bool)
    requires i <= |t| && CalmFrom(t[i..], c, dots)
    requires forall j :: i <= j < |t| && Hit(t, at, j) ==> DotsFor(t[j..j + at(j).value], r)
    ensures CalmFrom(SubFrom(t, at, i, k, b, r), c, dots)
    decreases |t| - i
  {
    if i < |t| && b != AtMost(0) {
      if Hit(t, at, i) {
        var n := at(i).value;
        DotsInput(t, i, n, c, dots, r(k, t[i..i + n]));
        SubDotsCalm(t, at, i + n, k + 1, Spend(b), r, 0, dots);
        CalmAppend(r(k, t[i..i + n]), SubFrom(t, at, i + n, k + 1, Spend(b), r), c, dots);
      } else {
        assert t[i..] == [t[i]] + t[i + 1..];
        CalmCons(t[i], t[i + 1..], c, dots);
        SubDotsCalm(t, at, i + 1, k, b, r, Next(c, t[i]), dots);
        CalmCons(t[i], SubFrom(t, at, i + 1, k, b, r), c, dots);
      }
    }
  }

  /** Splitting calm input at a run of periods replaced by another. */
  lemma DotsInput(t: string, i: nat, n: nat, c: nat, dots: bool, x: string)
    requires i + n <= |t| && CalmFrom(t[i..], c, dots)
    requires n > 0 && AllDots(t[i..i + n]) && |x| > 0 && AllDots(x)
    ensures CalmFrom(t[i + n..], 0, dots)
    ensures CalmFrom(x, c, dots) && Trail(x, c) == 0
  {
    assert t[i..] == t[i..i + n] + t[i + n..];
    CalmAppend(t[i..i + n], t[i + n..], c, dots);
    DotsCalm(t[i..i + n], c, dots);
    DotsCalm(x, c, dots);
  }

  /** The whitespace run at i is not followed by a period. */
  predicate NoPeriodAfterRun(t: string, i: nat)
    requires i <= |t|
  {
    var n := RunFrom(t, i, IsSpace);
    i + n == |t| || t[i + n] != '.'
  }

  lemma SpaceThenPeriodHit(t: string, i: nat)
    requires i <= |t|
    ensures Hit(t, At(SpaceThenPeriod, t), i) <==> RunFrom(t, i, IsSpace) >= 1 && !NoPeriodAfterRun(t, i)
    ensures Hit(t, At(SpaceThenPeriod, t), i) ==> At(SpaceThenPeriod, t)(i).value == RunFrom(t, i, IsSpace) + 1
  {
  }

  /** A text whose last character is not whitespace leaves no whitespace
      behind. */
  lemma {:induction false} TrailLast(s: string, c: nat)
    requires |s| > 0 && !IsSpace(s[|s| - 1])
    ensures Trail(s, c) == 0
    decreases |s|
  {
    if |s| > 1 {
      TrailLast(s[1..], Next(c, s[0]));
    }
  }

  /** Removing whitespace before periods makes a text with short runs calm
      about periods too. */
  lemma {:induction false} TightenFrom(t: string, i: nat, k: nat, c: nat)
    requires i <= |t| && CalmFrom(t[i..], c, false)
    requires c > 0 ==> NoPeriodAfterRun(t, i)
    ensures CalmFrom(SubFrom(t, At(SpaceThenPeriod, t), i, k, Unlimited, Const(".")), c, true)
    decreases |t| - i
  {
    if i < |t| {
      SpaceThenPeriodHit(t, i);
      if Hit(t, At(SpaceThenPeriod, t), i) {
        var n := RunFrom(t, i, IsSpace) + 1;
        TightenInput(t, i, n, c);
        TightenFrom(t, i + n, k + 1, 0);
        TightenHit(t, i, k, n);
      } else {
        assert t[i..] == [t[i]] + t[i + 1..];
        CalmCons(t[i], t[i + 1..], c, false);
        TightenFrom(t, i + 1, k, Next(c, t[i]));
        TightenMiss(t, i, k, c);
      }
    }
  }

  lemma TightenHit(t: string, i: nat, k: nat, n: nat)
    requires i < |t| && Hit(t, At(SpaceThenPeriod, t), i) && n == At(SpaceThenPeriod, t)(i).value
    requires CalmFrom(SubFrom(t, At(SpaceThenPeriod, t), i + n, k + 1, Unlimited, Const(".")), 0, true)
    ensures CalmFrom(SubFrom(t, At(SpaceThenPeriod, t), i, k, Unlimited, Const(".")), 0, true)
  {
    CalmCons('.', SubFrom(t, At(SpaceThenPeriod, t), i + n, k + 1, Unlimited, Const(".")), 0, true);
  }

  lemma TightenMiss(t: string, i: nat, k: nat, c: nat)
    requires i < |t| && !Hit(t, At(SpaceThenPeriod, t), i)
    requires IsSpace(t[i]) ==> c < 2
    requires t[i] == '.' ==> c == 0
    requires CalmFrom(SubFrom(t, At(SpaceThenPeriod, t), i + 1, k, Unlimited, Const(".")), Next(c, t[i]), true)
    ensures CalmFrom(SubFrom(t, At(SpaceThenPeriod, t), i, k, Unlimited, Const(".")), c, true)
  {
    CalmCons(t[i], SubFrom(t, At(SpaceThenPeriod, t), i + 1, k, Unlimited, Const(".")), c, true);
  }

  lemma TightenInput(t: string, i: nat, n: nat, c: nat)
    requires i < |t| && CalmFrom(t[i..], c, false)
    requires RunFrom(t, i, IsSpace) >= 1 && n == RunFrom(t, i, IsSpace) + 1 && !NoPeriodAfterRun(t, i)
    ensures i + n <= |t| && CalmFrom(t[i + n..], 0, false)
  {
    assert t[i..] == t[i..i + n] + t[i + n..];
    CalmAppend(t[i..i + n], t[i + n..], c, false);
    TrailLast(t[i..i + n], c);
  }

  /** Three newlines in a row start a whitespace run of at least three. */
  lemma NewlineRunHit(t: string, j: nat)
    requires j <= |t| && Hit(t, At(CharRun('\n', 3), t), j)
    ensures RunFrom(t, j, IsSpace) >= 3
  {
    var n := RunFrom(t, j, x => x == '\n');
    assert n >= 3;
    assert t[j] == '\n' && t[j + 1] == '\n' && t[j + 2] == '\n';
    assert RunFrom(t, j + 2, IsSpace) >= 1;
    assert RunFrom(t, j + 1, IsSpace) >= 2;
  }

  /** In a calm text there is no run of three newlines to cap. */
  lemma CapNewlinesCalm(t: string, dots: bool)
    requires CalmFrom(t, 0, dots)
    ensures CapNewlines(t) == t
  {
    CalmFromMeans(t, 0, dots);
    forall j | 0 <= j < |t|
      ensures !Hit(t, At(CharRun('\n', 3), t), j)
    {
      if Hit(t, At(CharRun('\n', 3), t), j) {
        NewlineRunHit(t, j);
        assert false;
      }
    }
    SubNoMatch(t, At(CharRun('\n', 3), t), 0, 0, Unlimited, Const("\n\n"));
    assert t[0..] == t;
  }

  /** Capping period runs keeps a text calm. */
  lemma CapPeriodsCalm(t: string, dots: bool)
    requires CalmFrom(t, 0, dots)
    ensures CalmFrom(CapPeriods(t), 0, dots)
  {
    var at := At(CharRun('.', 4), t);
    forall j | 0 <= j < |t| && Hit(t, at, j)
      ensures DotsFor(t[j..j + at(j).value], Const("..."))
    {
    }
    assert t[0..] == t;
    SubDotsCalm(t, at, 0, 0, Unlimited, Const("..."), 0, dots);
  }

  /** Collapsing doubled periods, as written or as intended, keeps a text
      calm. */
  lemma DoubleDotsCalm(t: string)
    requires CalmFrom(t, 0, true)
    ensures CalmFrom(DoubleDots(t), 0, true)
  {
    assert t[0..] == t;
    var at := At(LonePair('.'), t);
    forall j | 0 <= j < |t| && Hit(t, at, j)
      ensures DotsFor(t[j..j + at(j).value], Const("."))
    {
    }
    SubDotsCalm(t, at, 0, 0, Unlimited, Const("."), 0, true);
  }

  lemma DoubleDotsAsWrittenCalm(t: string)
    requires CalmFrom(t, 0, true)
    ensures CalmFrom(DoubleDotsAsWritten(t), 0, true)
  {
    assert t[0..] == t;
    var at := At(Lit(".."), t);
    forall j | 0 <= j < |t| && Hit(t, at, j)
      ensures DotsFor(t[j..j + at(j).value], Const("."))
    {
    }
    SubDotsCalm(t, at, 0, 0, Unlimited, Const("."), 0, true);
  }

  lemma CalmSuffix(s: string, a: nat, dots: bool)
    requires a <= |s| && CalmFrom(s, 0, dots)
    ensures CalmFrom(s[a..], 0, dots)
  {
    assert s == s[..a] + s[a..];
    CalmAppend(s[..a], s[a..], 0, dots);
    CalmFromLess(s[a..], Trail(s[..a], 0), 0, dots);
  }

  lemma CalmPrefix(s: string, b: nat, dots: bool)
    requires b <= |s| && CalmFrom(s, 0, dots)
    ensures CalmFrom(s[..b], 0, dots)
  {
    assert s == s[..b] + s[b..];
    CalmAppend(s[..b], s[b..], 0, dots);
  }

  /** Stripping keeps a text calm. */
  lemma StripCalm(s: string, dots: bool)
    requires CalmFrom(s, 0, dots)
    ensures CalmFrom(Strip(s), 0, dots)
  {
    var u := TrimStart(s);
    CalmSuffix(s, |s| - |u|, dots);
    CalmPrefix(u, |TrimEnd(u)|, dots);
  }

  /** The first four substitutions leave a calm text, about periods too. */
  lemma TidyCalm(t: string)
    ensures CalmFrom(Tidy(t), 0, true)
  {
    var t1 := CapSpaces(t);
    CapSpacesCalm(t);
    var t2 := CapPeriods(t1);
    CapPeriodsCalm(t1, false);
    var t3 := TightenPeriods(t2);
    assert t2[0..] == t2;
    TightenFrom(t2, 0, 0, 0);
    CapNewlinesCalm(t3, true);
  }

  /** No whitespace at either end, no run of more than two whitespace
      characters and no whitespace right before a period. */
  predicate Settled(r: string)
  {
    && (|r| > 0 ==> !IsSpace(r[0]) && !IsSpace(r[|r| - 1]))
    && Calm(r, true)
  }

  /** The clean-up leaves no whitespace at either end, no run of more than
      two whitespace characters and no whitespace right before a period. */
  lemma CleanupCalm(t: string)
    ensures Settled(CleanupStage(t))
  {
    TidyCalm(t);
    DotsStripCalm(Tidy(t));
  }

  /** The last two substitutions keep a calm text calm and strip its ends. */
  lemma DotsStripCalm(u: string)
    requires CalmFrom(u, 0, true)
    ensures Settled(Strip(DoubleDots(u)))
  {
    DoubleDotsCalm(u);
    StripCalm(DoubleDots(u), true);
    CalmFromMeans(Strip(DoubleDots(u)), 0, true);
  }

  /** The version as written keeps the same shape. */
  lemma CleanupAsWrittenCalm(t: string)
    ensures Settled(CleanupAsWritten(t))
  {
    TidyCalm(t);
    DotsStripAsWrittenCalm(Tidy(t));
  }

  lemma DotsStripAsWrittenCalm(u: string)
    requires CalmFrom(u, 0, true)
    ensures Settled(Strip(DoubleDotsAsWritten(u)))
  {
    DoubleDotsAsWrittenCalm(u);
    StripCalm(DoubleDotsAsWritten(u), true);
    CalmFromMeans(Strip(DoubleDotsAsWritten(u)), 0, true);
  }

  // ---------------------------------------------------------------------------
  // What the clean-up leaves alone

  predicate SpaceOrPeriod(c: char) { IsSpace(c) || c == '.' }

  predicate OnlySpaceOrPeriod(s: string)
  {
    forall q :: 0 <= q < |s| ==> SpaceOrPeriod(s[q])
  }

  /** A substitution of whitespace and periods by whitespace and periods
      leaves every other character where it was. */
  lemma SubConstKeeps(t: string, at: nat -> Option<nat>, s: string)
    requires OnlySpaceOrPeriod(s)
    requires forall j :: 0 <= j < |t| && Hit(t, at, j) ==> OnlySpaceOrPeriod(t[j..j + at(j).value])
    ensures Erase(SubFrom(t, at, 0, 0, Unlimited, Const(s)), SpaceOrPeriod) == Erase(t, SpaceOrPeriod)
  {
    EraseAll(s, SpaceOrPeriod);
    forall j | 0 <= j < |t| && Hit(t, at, j)
      ensures ErasesAlike(t[j..j + at(j).value], Const(s), SpaceOrPeriod)
    {
      EraseAll(t[j..j + at(j).value], SpaceOrPeriod);
    }
    SubErase(t, at, 0, 0, Unlimited, Const(s), SpaceOrPeriod);
    assert t[0..] == t;
  }

  lemma CapSpacesKeeps(t: string)
    ensures Erase(CapSpaces(t), SpaceOrPeriod) == Erase(t, SpaceOrPeriod)
  {
    forall j | 0 <= j < |t| && Hit(t, At(SpaceRun(3), t), j)
      ensures OnlySpaceOrPeriod(t[j..j + At(SpaceRun(3), t)(j).value])
    {
      SpaceRunHit(t, j);
    }
    SubConstKeeps(t, At(SpaceRun(3), t), "  ");
  }

  lemma CapPeriodsKeeps(t: string)
    ensures Erase(CapPeriods(t), SpaceOrPeriod) == Erase(t, SpaceOrPeriod)
  {
    forall j | 0 <= j < |t| && Hit(t, At(CharRun('.', 4), t), j)
      ensures OnlySpaceOrPeriod(t[j..j + At(CharRun('.', 4), t)(j).value])
    {
    }
    SubConstKeeps(t, At(CharRun('.', 4), t), "...");
  }

  lemma TightenPeriodsKeeps(t: string)
    ensures Erase(TightenPeriods(t), SpaceOrPeriod) == Erase(t, SpaceOrPeriod)
  {
    forall j | 0 <= j < |t| && Hit(t, At(SpaceThenPeriod, t), j)
      ensures OnlySpaceOrPeriod(t[j..j + At(SpaceThenPeriod, t)(j).value])
    {
      SpaceThenPeriodHit(t, j);
    }
    SubConstKeeps(t, At(SpaceThenPeriod, t), ".");
  }

  lemma CapNewlinesKeeps(t: string)
    ensures Erase(CapNewlines(t), SpaceOrPeriod) == Erase(t, SpaceOrPeriod)
  {
    forall j | 0 <= j < |t| && Hit(t, At(CharRun('\n', 3), t), j)
      ensures OnlySpaceOrPeriod(t[j..j + At(CharRun('\n', 3), t)(j).value])
    {
    }
    SubConstKeeps(t, At(CharRun('\n', 3), t), "\n\n");
  }

  lemma DoubleDotsKeeps(t: string)
    ensures Erase(DoubleDots(t), SpaceOrPeriod) == Erase(t, SpaceOrPeriod)
  {
    forall j | 0 <= j < |t| && Hit(t, At(LonePair('.'), t), j)
      ensures OnlySpaceOrPeriod(t[j..j + At(LonePair('.'), t)(j).value])
    {
    }
    SubConstKeeps(t, At(LonePair('.'), t), ".");
  }

  lemma DoubleDotsAsWrittenKeeps(t: string)
    ensures Erase(DoubleDotsAsWritten(t), SpaceOrPeriod) == Erase(t, SpaceOrPeriod)
  {
    forall j | 0 <= j < |t| && Hit(t, At(Lit(".."), t), j)
      ensures OnlySpaceOrPeriod(t[j..j + At(Lit(".."), t)(j).value])
    {
    }
    SubConstKeeps(t, At(Lit(".."), t), ".");
  }

  /** Stripping removes only whitespace. */
  lemma StripKeeps(s: string)
    ensures Erase(Strip(s), SpaceOrPeriod) == Erase(s, SpaceOrPeriod)
  {
    var u := TrimStart(s);
    var r := TrimEnd(u);
    var a := |s| - |u|;
    PrefixRest(s, a);
    PrefixRest(u, |r|);
    AppendAssoc(s[..a], r, u[|r|..]);
    EraseSpacesAround(s[..a], r, u[|r|..]);
  }

  /** Whitespace on either side erases away. */
  lemma EraseSpacesAround(x: string, y: string, z: string)
    requires AllSpace(x) && AllSpace(z)
    ensures Erase(x + y + z, SpaceOrPeriod) == Erase(y, SpaceOrPeriod)
  {
    EraseAppend(x + y, z, SpaceOrPeriod);
    EraseAppend(x, y, SpaceOrPeriod);
    EraseAll(x, SpaceOrPeriod);
    EraseAll(z, SpaceOrPeriod);
  }

  /** Both versions of the clean-up change nothing but whitespace and
      periods: every other character stays, in order. */
  lemma CleanupKeeps(t: string)
    ensures Erase(CleanupStage(t), SpaceOrPeriod) == Erase(t, SpaceOrPeriod)
    ensures Erase(CleanupAsWritten(t), SpaceOrPeriod) == Erase(t, SpaceOrPeriod)
  {
    var a := CapSpaces(t);
    var b := CapPeriods(a);
    var c := TightenPeriods(b);
    var u := CapNewlines(c);
    CapSpacesKeeps(t);
    CapPeriodsKeeps(a);
    TightenPeriodsKeeps(b);
    CapNewlinesKeeps(c);
    DoubleDotsKeeps(u);
    DoubleDotsAsWrittenKeeps(u);
    StripKeeps(DoubleDots(u));
    StripKeeps(DoubleDotsAsWritten(u));
  }

  // ---------------------------------------------------------------------------
  // Line 602 and the ellipsis

  /** As written, line 602 turns an ellipsis into two periods. */
  lemma EllipsisShortened()
    ensures DoubleDotsAsWritten("...") == ".."
  {
    var t := "...";
    var at := At(Lit(".."), t);
    assert Hit(t, at, 0) && at(0).value == 2;
    assert !Hit(t, at, 2);
    assert t[0..2] == "..";
  }

  /** Corrected, it leaves the ellipsis alone. */
  lemma EllipsisKept()
    ensures DoubleDots("...") == "..."
  {
    var t := "...";
    var at := At(LonePair('.'), t);
    forall j | 0 <= j < |t|
      ensures !Hit(t, at, j)
    {
    }
    SubNoMatch(t, at, 0, 0, Unlimited, Const("."));
    assert t[0..] == t;
  }

  /** Corrected, it still collapses a lone pair of periods. */
  lemma LonePairCollapsed()
    ensures DoubleDots("..") == "."
  {
    var t := "..";
    var at := At(LonePair('.'), t);
    assert Hit(t, at, 0) && at(0).value == 2;
    assert t[0..2] == "..";
  }
}
