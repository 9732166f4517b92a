/** The handful of regular expressions the analyser and the rewrite stages
    use, as a first-order `Pattern` with a matcher, and the left-to-right
    scan of Python's `re.sub`, `re.finditer` and `re.findall` over it.

    Matching follows the leftmost, non-overlapping discipline of Python's
    `re` module: the scan tries each position in turn, and after a match of
    length n at position i it resumes at i + n. Every pattern here matches
    at least one character, so the empty-match rules of `re` never apply. */
module Regex {
  import opened Options
  import opened Text

  datatype Pattern =
    | Word(alts: seq<string>, fold: bool)   // \b(a1|a2|...)\b, case-insensitive when fold
    | Lead(phrase: string)                  // \bphrase,?\s            (IGNORECASE)
    | WordThenLetter(alts: seq<string>)     // \b(a1|a2|...)\s+[a-z]   (IGNORECASE)
    | Marker(letter: char)                  // \bX:\s*                 (IGNORECASE)
    | LeadComma(phrase: string)             // \bphrase,\s*            (IGNORECASE)
    | CommaSpace                            // ,\s+
    | SpaceRun(min: nat)                    // \s{min,}
    | HSpaceRun(min: nat)                   // [^\S\n]{min,}
    | CharRun(c: char, min: nat)            // c{min,}
    | SpaceThenPeriod                       // \s+\.
    | Lit(s: string)                        // a literal, case-sensitive
    | PeriodUpper                           // \.[A-Z]
    | PeriodSpaceUpper                      // \.\s+[A-Z]
    | LonePair(c: char)                     // (?<!c)cc(?!c)

  /** A matched region `t[start..end]`. */
  datatype Span = Span(start: nat, end: nat)

  predicate IsWordAt(t: string, j: int) {
    0 <= j < |t| && IsWordChar(t[j])
  }

  /** `\b` at position i: exactly one side of i is a word character. */
  predicate Boundary(t: string, i: nat) {
    IsWordAt(t, i - 1) != IsWordAt(t, i)
  }

  /** The literal `s` occurs at i; with `fold`, `s` is lower case and the text
      is compared after ASCII case folding. */
  predicate LitAt(t: string, i: nat, s: string, fold: bool) {
    i + |s| <= |t| && (if fold then Lower(t[i..i + |s|]) == s else t[i..i + |s|] == s)
  }

  predicate IsHSpace(c: char) { IsSpace(c) && c != '\n' }

  /** Length of the maximal run of characters satisfying `p` from position i. */
  function RunFrom(t: string, i: nat, p: char -> bool): (n: nat)
    requires i <= |t|
    ensures i + n <= |t|
    ensures forall j :: i <= j < i + n ==> p(t[j])
    ensures i + n < |t| ==> !p(t[i + n])
    decreases |t| - i
  {
    if i < |t| && p(t[i]) then 1 + RunFrom(t, i + 1, p) else 0
  }

  function SpacesFrom(t: string, i: nat): (n: nat)
    requires i <= |t|
    ensures i + n <= |t|
  {
    RunFrom(t, i, IsSpace)
  }

  /** `\b(alts[q]|alts[q+1]|...)\b` at i: the length of the first alternative
      that matches with a word boundary on both sides. */
  function WordAlt(t: string, i: nat, alts: seq<string>, fold: bool, q: nat): (r: Option<nat>)
    requires i <= |t|
    ensures r.Some? ==> 1 <= r.value <= |t| - i
    decreases |alts| - q
  {
    if q >= |alts| then None
    else
      var a := alts[q];
      if |a| > 0 && Boundary(t, i) && LitAt(t, i, a, fold) && Boundary(t, i + |a|) then Some(|a|)
      else WordAlt(t, i, alts, fold, q + 1)
  }

  /** `\b(alts[q]|...)\s+[a-z]` under IGNORECASE at i. */
  function WordLetterAlt(t: string, i: nat, alts: seq<string>, q: nat): (r: Option<nat>)
    requires i <= |t|
    ensures r.Some? ==> 1 <= r.value <= |t| - i
    decreases |alts| - q
  {
    if q >= |alts| then None
    else
      var a := alts[q];
      if Boundary(t, i) && LitAt(t, i, a, true) then
        var e := i + |a|;
        var n := SpacesFrom(t, e);
        if n >= 1 && e + n < |t| && IsLetter(t[e + n]) then Some(|a| + n + 1)
        else WordLetterAlt(t, i, alts, q + 1)
      else WordLetterAlt(t, i, alts, q + 1)
  }

  /** The length of the match of `p` starting exactly at position i, if any. */
  function MatchAt(p: Pattern, t: string, i: nat): (r: Option<nat>)
    requires i <= |t|
    ensures r.Some? ==> 1 <= r.value <= |t| - i
  {
    match p
    case Word(alts, fold) => WordAlt(t, i, alts, fold, 0)
    case Lead(ph) => LeadAt(t, i, ph)
    case WordThenLetter(alts) => WordLetterAlt(t, i, alts, 0)
    case Marker(x) => MarkerAt(t, i, x)
    case LeadComma(ph) => LeadCommaAt(t, i, ph)
    case CommaSpace => CommaSpaceAt(t, i)
    case SpaceRun(m) => RunAtLeast(t, i, IsSpace, m)
    case HSpaceRun(m) => RunAtLeast(t, i, IsHSpace, m)
    case CharRun(c, m) => RunAtLeast(t, i, x => x == c, m)
    case SpaceThenPeriod => SpaceThenPeriodAt(t, i)
    case Lit(s) => if |s| > 0 && LitAt(t, i, s, false) then Some(|s|) else None
    case PeriodUpper => if i + 1 < |t| && t[i] == '.' && IsUpper(t[i + 1]) then Some(2) else None
    case PeriodSpaceUpper => PeriodSpaceUpperAt(t, i)
    case LonePair(c) => LonePairAt(t, i, c)
  }

  function LeadAt(t: string, i: nat, ph: string): (r: Option<nat>)
    requires i <= |t|
    ensures r.Some? ==> 1 <= r.value <= |t| - i
  {
    var e := i + |ph|;
    if Boundary(t, i) && LitAt(t, i, ph, true) then
      if e + 1 < |t| && t[e] == ',' && IsSpace(t[e + 1]) then Some(|ph| + 2)
      else if e < |t| && IsSpace(t[e]) then Some(|ph| + 1)
      else None
    else None
  }

  function MarkerAt(t: string, i: nat, x: char): (r: Option<nat>)
    requires i <= |t|
    ensures r.Some? ==> 1 <= r.value <= |t| - i
  {
    if Boundary(t, i) && i + 1 < |t| && ToLower(t[i]) == x && t[i + 1] == ':' then
      Some(2 + SpacesFrom(t, i + 2))
    else None
  }

  function LeadCommaAt(t: string, i: nat, ph: string): (r: Option<nat>)
    requires i <= |t|
    ensures r.Some? ==> 1 <= r.value <= |t| - i
  {
    var e := i + |ph|;
    if Boundary(t, i) && LitAt(t, i, ph, true) && e < |t| && t[e] == ',' then
      Some(|ph| + 1 + SpacesFrom(t, e + 1))
    else None
  }

  function CommaSpaceAt(t: string, i: nat): (r: Option<nat>)
    requires i <= |t|
    ensures r.Some? ==> 1 <= r.value <= |t| - i
  {
    if i < |t| && t[i] == ',' && SpacesFrom(t, i + 1) >= 1 then Some(1 + SpacesFrom(t, i + 1))
    else None
  }

  /** `c{m,}`: the whole maximal run from i, when it is at least m long. */
  function RunAtLeast(t: string, i: nat, c: char -> bool, m: nat): (r: Option<nat>)
    requires i <= |t|
    ensures r.Some? ==> 1 <= r.value <= |t| - i
  {
    var n := RunFrom(t, i, c);
    if n >= 1 && n >= m then Some(n) else None
  }

  function SpaceThenPeriodAt(t: string, i: nat): (r: Option<nat>)
    requires i <= |t|
    ensures r.Some? ==> 1 <= r.value <= |t| - i
  {
    var n := SpacesFrom(t, i);
    if n >= 1 && i + n < |t| && t[i + n] == '.' then Some(n + 1) else None
  }

  function PeriodSpaceUpperAt(t: string, i: nat): (r: Option<nat>)
    requires i <= |t|
    ensures r.Some? ==> 1 <= r.value <= |t| - i
  {
    if i < |t| && t[i] == '.' then
      var n := SpacesFrom(t, i + 1);
      if n >= 1 && i + 1 + n < |t| && IsUpper(t[i + 1 + n]) then Some(n + 2) else None
    else None
  }

  function LonePairAt(t: string, i: nat, c: char): (r: Option<nat>)
    requires i <= |t|
    ensures r.Some? ==> 1 <= r.value <= |t| - i
  {
    if i + 1 < |t| && t[i] == c && t[i + 1] == c
       && (i == 0 || t[i - 1] != c) && (i + 2 == |t| || t[i + 2] != c)
    then Some(2) else None
  }

  /** How many more replacements `re.sub` may make (its `count` argument). */
  datatype Budget = Unlimited | AtMost(n: nat)

  function Spend(b: Budget): Budget
    requires b != AtMost(0)
  {
    match b
    case Unlimited => Unlimited
    case AtMost(n) => AtMost(n - 1)
  }

  /** The matcher of `p` over `t`, as a function of the position. */
  function At(p: Pattern, t: string): nat -> Option<nat>
  {
    (j: nat) => if j <= |t| then MatchAt(p, t, j) else None
  }

  /** The matcher reports a match at i that fits in the text. */
  predicate Hit(t: string, at: nat -> Option<nat>, i: nat)
  {
    at(i).Some? && 1 <= at(i).value && i + at(i).value <= |t|
  }

  /** `re.sub` from position i, for the matcher `at`: the k-th match (counting
      from 0) with matched text m is replaced by `r(k, m)`; everything else is
      copied. */
  function SubFrom(t: string, at: nat -> Option<nat>, i: nat, k: nat, b: Budget, r: (nat, string) -> string): string
    requires i <= |t|
    decreases |t| - i
  {
    if i == |t| then []
    else if b == AtMost(0) then t[i..]
    else if Hit(t, at, i) then
      var n := at(i).value;
      r(k, t[i..i + n]) + SubFrom(t, at, i + n, k + 1, Spend(b), r)
    else [t[i]] + SubFrom(t, at, i + 1, k, b, r)
  }

  /** `re.finditer` from position i: the spans the same scan replaces. */
  function MatchesFrom(t: string, at: nat -> Option<nat>, i: nat, b: Budget): (ms: seq<Span>)
    requires i <= |t|
    ensures Ordered(ms, i, |t|)
    decreases |t| - i
  {
    if i == |t| then []
    else if b == AtMost(0) then []
    else if Hit(t, at, i) then
      var n := at(i).value;
      [Span(i, i + n)] + MatchesFrom(t, at, i + n, Spend(b))
    else MatchesFrom(t, at, i + 1, b)
  }

  /** `re.sub(p, r, t)`: replace every match. */
  function Sub(t: string, p: Pattern, r: (nat, string) -> string): string
  {
    SubFrom(t, At(p, t), 0, 0, Unlimited, r)
  }

  /** `re.sub(p, r, t, count=n)`: replace the first n matches (all of them when n is 0). */
  function SubFirst(t: string, p: Pattern, n: nat, r: (nat, string) -> string): string
  {
    SubFrom(t, At(p, t), 0, 0, if n == 0 then Unlimited else AtMost(n), r)
  }

  /** `list(re.finditer(p, t))` as spans. */
  function FindAll(t: string, p: Pattern): (ms: seq<Span>)
    ensures Ordered(ms, 0, |t|)
    ensures forall q :: 0 <= q < |ms| ==> ms[q].start < ms[q].end <= |t|
  {
    MatchesHit(t, At(p, t), 0, Unlimited);
    MatchesFrom(t, At(p, t), 0, Unlimited)
  }

  /** `len(re.findall(p, t))`. */
  function Count(t: string, p: Pattern): nat
  {
    |FindAll(t, p)|
  }

  /** `re.search(p, t) is not None`. */
  predicate Found(t: string, p: Pattern)
  {
    Count(t, p) > 0
  }

  // ---------------------------------------------------------------------------
  // Spans and splicing

  /** The spans are non-empty, in increasing order, disjoint, and lie within
      `[from, n)`. */
  predicate Ordered(ms: seq<Span>, from: nat, n: nat)
  {
    Within(ms, n) && Chain(ms, from)
  }

  predicate Within(ms: seq<Span>, n: nat)
  {
    forall q :: 0 <= q < |ms| ==> ms[q].start <= ms[q].end <= n
  }

  predicate Chain(ms: seq<Span>, from: nat)
    decreases |ms|
  {
    |ms| == 0 || (from <= ms[0].start < ms[0].end && Chain(ms[1..], ms[0].end))
  }

  lemma {:induction false} ChainWeaken(ms: seq<Span>, from: nat, from': nat)
    requires Chain(ms, from) && from' <= from
    ensures Chain(ms, from')
  {
  }

  /** Every span of a chain starts at or after its origin. */
  lemma {:induction false} ChainBounds(ms: seq<Span>, from: nat)
    requires Chain(ms, from)
    ensures forall q :: 0 <= q < |ms| ==> from <= ms[q].start
    decreases |ms|
  {
    if |ms| > 0 {
      ChainBounds(ms[1..], ms[0].end);
      forall q | 1 <= q < |ms|
        ensures from <= ms[q].start
      {
        assert ms[q] == ms[1..][q - 1];
      }
    }
  }

  lemma {:induction false} ChainPrefix(ms: seq<Span>, from: nat)
    requires Chain(ms, from) && |ms| > 0
    ensures Chain(ms[..|ms| - 1], from)
    ensures from <= ms[|ms| - 1].start < ms[|ms| - 1].end
    ensures forall q :: 0 <= q < |ms| - 1 ==> ms[q].end <= ms[|ms| - 1].start
    decreases |ms|
  {
    if |ms| > 1 {
      ChainPrefix(ms[1..], ms[0].end);
      assert ms[1..][..|ms[1..]| - 1] == ms[..|ms| - 1][1..];
      assert ms[1..][|ms[1..]| - 1] == ms[|ms| - 1];
      ChainBounds(ms[1..], ms[0].end);
      forall q | 1 <= q < |ms| - 1
        ensures ms[q].end <= ms[|ms| - 1].start
      {
        assert ms[q] == ms[1..][q - 1];
      }
    }
  }

  /** The text between the spans copied from `t`, the q-th span replaced by
      `reps[q]`. */
  function Splice(t: string, ms: seq<Span>, reps: seq<string>, from: nat): string
    requires Ordered(ms, from, |t|) && from <= |t|
    requires |reps| == |ms|
    decreases |ms|
  {
    if |ms| == 0 then t[from..]
    else t[from..ms[0].start] + (reps[0] + Splice(t, ms[1..], reps[1..], ms[0].end))
  }

  /** The replacement strings `re.sub` computes for the spans `ms`, numbering
      them from k. */
  function Reps(t: string, ms: seq<Span>, k: nat, r: (nat, string) -> string): (reps: seq<string>)
    requires Within(ms, |t|)
    ensures |reps| == |ms|
  {
    seq(|ms|, q requires 0 <= q < |ms| => r(k + q, t[ms[q].start..ms[q].end]))
  }

  /** From position i on, `re.sub` agrees with splicing its replacements
      into the `re.finditer` spans. */
  predicate SplicedFrom(t: string, at: nat -> Option<nat>, i: nat, k: nat, b: Budget, r: (nat, string) -> string)
    requires i <= |t|
  {
    var ms := MatchesFrom(t, at, i, b);
    SubFrom(t, at, i, k, b, r) == Splice(t, ms, Reps(t, ms, k, r), i)
  }

  /** `re.sub` is a splice of its replacements into the `re.finditer` spans. */
  lemma {:induction false} SubIsSplice(t: string, at: nat -> Option<nat>, i: nat, k: nat, b: Budget, r: (nat, string) -> string)
    requires i <= |t|
    ensures SplicedFrom(t, at, i, k, b, r)
    decreases |t| - i
  {
    if i == |t| || b == AtMost(0) {
      SpliceEndCase(t, at, i, k, b, r);
    } else if Hit(t, at, i) {
      var n := at(i).value;
      SubIsSplice(t, at, i + n, k + 1, Spend(b), r);
      SpliceHitCase(t, at, i, k, b, r);
    } else {
      SubIsSplice(t, at, i + 1, k, b, r);
      SpliceMissCase(t, at, i, k, b, r);
    }
  }

  lemma SpliceEndCase(t: string, at: nat -> Option<nat>, i: nat, k: nat, b: Budget, r: (nat, string) -> string)
    requires i <= |t| && (i == |t| || b == AtMost(0))
    ensures SplicedFrom(t, at, i, k, b, r)
  {
    SubEnd(t, at, i, k, b, r);
  }

  lemma SpliceHitCase(t: string, at: nat -> Option<nat>, i: nat, k: nat, b: Budget, r: (nat, string) -> string)
    requires i < |t| && b != AtMost(0) && Hit(t, at, i)
    requires SplicedFrom(t, at, i + at(i).value, k + 1, Spend(b), r)
    ensures SplicedFrom(t, at, i, k, b, r)
  {
    SubHitStep(t, at, i, k, b, r);
  }

  lemma SpliceMissCase(t: string, at: nat -> Option<nat>, i: nat, k: nat, b: Budget, r: (nat, string) -> string)
    requires i < |t| && b != AtMost(0) && !Hit(t, at, i)
    requires SplicedFrom(t, at, i + 1, k, b, r)
    ensures SplicedFrom(t, at, i, k, b, r)
  {
    SubMissStep(t, at, i, k, b, r);
  }

  /** Without a match at i, the splice copies `t[i]` and goes on at i + 1. */
  lemma SubMissStep(t: string, at: nat -> Option<nat>, i: nat, k: nat, b: Budget, r: (nat, string) -> string)
    requires i < |t| && b != AtMost(0) && !Hit(t, at, i)
    ensures var ms := MatchesFrom(t, at, i, b);
      ms == MatchesFrom(t, at, i + 1, b)
      && Splice(t, ms, Reps(t, ms, k, r), i) == [t[i]] + Splice(t, ms, Reps(t, ms, k, r), i + 1)
  {
    var ms := MatchesFrom(t, at, i, b);
    assert ms == MatchesFrom(t, at, i + 1, b);
    SpliceStep(t, ms, Reps(t, ms, k, r), i);
  }

  /** The splice after a match at i is the replacement followed by the
      splice of the later matches. */
  lemma SubHitStep(t: string, at: nat -> Option<nat>, i: nat, k: nat, b: Budget, r: (nat, string) -> string)
    requires i < |t| && b != AtMost(0) && Hit(t, at, i)
    ensures var n := at(i).value;
      var ms := MatchesFrom(t, at, i, b);
      var ms' := MatchesFrom(t, at, i + n, Spend(b));
      Splice(t, ms, Reps(t, ms, k, r), i)
        == r(k, t[i..i + n]) + Splice(t, ms', Reps(t, ms', k + 1, r), i + n)
  {
    var n := at(i).value;
    var ms := MatchesFrom(t, at, i, b);
    var ms' := MatchesFrom(t, at, i + n, Spend(b));
    assert ms == [Span(i, i + n)] + ms';
    assert ms[1..] == ms';
    SpliceHead(t, ms, Reps(t, ms, k, r), i);
    RepsTail(t, ms, k, r);
  }

  /** Unfolding a splice whose first span starts at its origin. */
  lemma SpliceHead(t: string, ms: seq<Span>, reps: seq<string>, from: nat)
    requires Ordered(ms, from, |t|) && from <= |t| && |reps| == |ms|
    requires |ms| > 0 && ms[0].start == from
    ensures Ordered(ms[1..], ms[0].end, |t|)
    ensures Splice(t, ms, reps, from) == reps[0] + Splice(t, ms[1..], reps[1..], ms[0].end)
  {
    assert t[from..ms[0].start] == [];
  }

  /** Dropping the first span of a `Reps` sequence renumbers from k + 1. */
  lemma RepsTail(t: string, ms: seq<Span>, k: nat, r: (nat, string) -> string)
    requires Within(ms, |t|) && |ms| > 0
    ensures Within(ms[1..], |t|)
    ensures Reps(t, ms, k, r)[1..] == Reps(t, ms[1..], k + 1, r)
    ensures Reps(t, ms, k, r)[0] == r(k, t[ms[0].start..ms[0].end])
  {
    assert forall q :: 0 <= q < |ms| - 1 ==> ms[1..][q] == ms[q + 1];
  }

  /** A splice whose spans all start after `from` begins with `t[from]`. */
  lemma SpliceStep(t: string, ms: seq<Span>, reps: seq<string>, from: nat)
    requires from < |t| && Ordered(ms, from + 1, |t|) && |reps| == |ms|
    ensures Ordered(ms, from, |t|)
    ensures Splice(t, ms, reps, from) == [t[from]] + Splice(t, ms, reps, from + 1)
  {
    ChainWeaken(ms, from + 1, from);
    if |ms| > 0 {
      var rest := reps[0] + Splice(t, ms[1..], reps[1..], ms[0].end);
      SliceCons(t, from, ms[0].start, rest);
    } else {
      SliceCons(t, from, |t|, "");
      assert t[from..] == t[from..|t|];
    }
  }

  /** Peeling the first character off a slice followed by more text. */
  lemma SliceCons(t: string, a: nat, b: nat, rest: string)
    requires a < b <= |t|
    ensures t[a..b] + rest == [t[a]] + (t[a + 1..b] + rest)
  {
    assert t[a..b] == [t[a]] + t[a + 1..b];
  }

  /** Replacing the last span first, then splicing the others into the
      result, is one splice of all of them. */
  lemma {:induction false} SpliceLast(t: string, ms: seq<Span>, reps: seq<string>, m: Span, x: string, from: nat)
    requires from <= m.start < m.end <= |t|
    requires Ordered(ms, from, m.start) && |reps| == |ms|
    ensures Ordered(ms + [m], from, |t|)
    ensures Ordered(ms, from, |t[..m.start] + x + t[m.end..]|)
    ensures Splice(t[..m.start] + x + t[m.end..], ms, reps, from) == Splice(t, ms + [m], reps + [x], from)
    decreases |ms|
  {
    var t' := t[..m.start] + x + t[m.end..];
    if |ms| == 0 {
      assert ms + [m] == [m];
      assert [m][1..] == [];
    } else {
      SnocTail(ms, m);
      SnocTail(reps, x);
      SpliceLast(t, ms[1..], reps[1..], m, x, ms[0].end);
      EditKeepsBefore(t, m.start, m.end, x, from, ms[0].start);
    }
  }

  /** The splice made by iterating `reversed(matches)` and rebuilding the text
      as `text[:start] + replacement + text[end:]` whenever an edit applies
      (a `None` edit leaves the match alone). */
  function SpliceBackwards(t: string, ms: seq<Span>, edits: seq<Option<string>>): string
    requires Ordered(ms, 0, |t|) && |edits| == |ms|
    decreases |ms|
  {
    if |ms| == 0 then t
    else
      var m := ms[|ms| - 1];
      ChainPrefix(ms, 0);
      var t' := match edits[|ms| - 1]
        case Some(x) => t[..m.start] + x + t[m.end..]
        case None => t;
      SpliceBackwards(t', ms[..|ms| - 1], edits[..|ms| - 1])
  }

  /** What each edit puts in place of its span: the replacement, or the
      matched text itself. */
  function Fill(t: string, ms: seq<Span>, edits: seq<Option<string>>): (reps: seq<string>)
    requires Within(ms, |t|)
    requires |edits| == |ms|
    ensures |reps| == |ms|
  {
    seq(|ms|, q requires 0 <= q < |ms| =>
      match edits[q] case Some(x) => x case None => t[ms[q].start..ms[q].end])
  }

  /** What an edit puts in place of the span m of t. */
  function Filler(t: string, m: Span, e: Option<string>): string
    requires m.start <= m.end <= |t|
  {
    match e case Some(x) => x case None => t[m.start..m.end]
  }

  /** Filling spans that lie before `cut` only reads the text before `cut`. */
  lemma FillPrefix(t: string, t': string, ms: seq<Span>, edits: seq<Option<string>>, cut: nat)
    requires Within(ms, cut) && cut <= |t| && cut <= |t'| && t[..cut] == t'[..cut]
    requires |edits| == |ms|
    ensures Fill(t', ms, edits) == Fill(t, ms, edits)
  {
    forall q | 0 <= q < |ms|
      ensures t'[ms[q].start..ms[q].end] == t[ms[q].start..ms[q].end]
    {
      SliceOfPrefix(t', cut, ms[q].start, ms[q].end);
      SliceOfPrefix(t, cut, ms[q].start, ms[q].end);
    }
  }

  lemma FillSnoc(t: string, ms: seq<Span>, edits: seq<Option<string>>)
    requires Within(ms, |t|) && |edits| == |ms| && |ms| > 0
    ensures Within(ms[..|ms| - 1], |t|)
    ensures Fill(t, ms, edits)
      == Fill(t, ms[..|ms| - 1], edits[..|ms| - 1]) + [Filler(t, ms[|ms| - 1], edits[|ms| - 1])]
  {
  }

  /** Back-to-front splicing (the index-preserving idiom) equals one
      front-to-back splice of the same edits. */
  lemma {:induction false} SpliceBackwardsIsSplice(t: string, ms: seq<Span>, edits: seq<Option<string>>)
    requires Ordered(ms, 0, |t|) && |edits| == |ms|
    ensures SpliceBackwards(t, ms, edits) == Splice(t, ms, Fill(t, ms, edits), 0)
    decreases |ms|
  {
    if |ms| > 0 {
      var m := ms[|ms| - 1];
      var init := ms[..|ms| - 1];
      var einit := edits[..|ms| - 1];
      ChainPrefix(ms, 0);
      var x := Filler(t, m, edits[|ms| - 1]);
      var t' := t[..m.start] + x + t[m.end..];
      assert SpliceBackwards(t, ms, edits) == SpliceBackwards(t', init, einit) by {
        if edits[|ms| - 1].None? {
          EditSame(t, m.start, m.end);
        }
      }
      SpliceLast(t, init, Fill(t, init, einit), m, x, 0);
      SpliceBackwardsIsSplice(t', init, einit);
      FillPrefix(t, t', init, einit, m.start);
      FillSnoc(t, ms, edits);
      FrontLast(ms);
    }
  }

  // ---------------------------------------------------------------------------
  // Generic consequences of the scan

  /** Where nothing matches, `re.sub` returns the text unchanged. */
  lemma {:induction false} SubNoMatch(t: string, at: nat -> Option<nat>, i: nat, k: nat, b: Budget, r: (nat, string) -> string)
    requires i <= |t|
    requires forall j :: i <= j < |t| ==> !Hit(t, at, j)
    ensures SubFrom(t, at, i, k, b, r) == t[i..]
    decreases |t| - i
  {
    if i < |t| && b != AtMost(0) {
      SubNoMatch(t, at, i + 1, k, b, r);
      SliceSplit(t, i, i + 1);
      assert t[i..i + 1] == [t[i]];
    }
  }

  /** A replacement that gives back the matched text leaves the text unchanged. */
  lemma {:induction false} SubKeep(t: string, at: nat -> Option<nat>, i: nat, k: nat, b: Budget, r: (nat, string) -> string)
    requires i <= |t|
    requires forall q: nat, m: string :: r(q, m) == m
    ensures SubFrom(t, at, i, k, b, r) == t[i..]
    decreases |t| - i
  {
    if i < |t| && b != AtMost(0) {
      if Hit(t, at, i) {
        var n := at(i).value;
        SubKeep(t, at, i + n, k + 1, Spend(b), r);
        assert r(k, t[i..i + n]) == t[i..i + n];
        SubKeepHit(t, at, i, k, b, r);
      } else {
        SubKeep(t, at, i + 1, k, b, r);
        SubKeepMiss(t, at, i, k, b, r);
      }
    } else {
      SubEnd(t, at, i, k, b, r);
    }
  }

  lemma SubKeepHit(t: string, at: nat -> Option<nat>, i: nat, k: nat, b: Budget, r: (nat, string) -> string)
    requires i < |t| && b != AtMost(0) && Hit(t, at, i)
    requires r(k, t[i..i + at(i).value]) == t[i..i + at(i).value]
    requires SubFrom(t, at, i + at(i).value, k + 1, Spend(b), r) == t[i + at(i).value..]
    ensures SubFrom(t, at, i, k, b, r) == t[i..]
  {
    SliceSplit(t, i, i + at(i).value);
  }

  lemma SubKeepMiss(t: string, at: nat -> Option<nat>, i: nat, k: nat, b: Budget, r: (nat, string) -> string)
    requires i < |t| && b != AtMost(0) && !Hit(t, at, i)
    requires SubFrom(t, at, i + 1, k, b, r) == t[i + 1..]
    ensures SubFrom(t, at, i, k, b, r) == t[i..]
  {
    SliceSplit(t, i, i + 1);
    assert t[i..i + 1] == [t[i]];
  }

  lemma AvoidsSplit(t: string, a: nat, b: nat, c: char -> bool)
    requires a <= b <= |t|
    requires Avoids(t[a..], c)
    ensures Avoids(t[a..b], c) && Avoids(t[b..], c)
    ensures b < |t| ==> !c(t[b])
  {
    assert forall j :: a <= j < |t| ==> t[j] == t[a..][j - a];
  }

  /** A character class absent from the text and from every replacement of a
      text lacking it stays absent after `re.sub`. */
  lemma {:induction false} SubAvoids(t: string, at: nat -> Option<nat>, i: nat, k: nat, b: Budget, r: (nat, string) -> string, c: char -> bool)
    requires i <= |t|
    requires Avoids(t[i..], c)
    requires forall q: nat, m: string :: Avoids(m, c) ==> Avoids(r(q, m), c)
    ensures Avoids(SubFrom(t, at, i, k, b, r), c)
    decreases |t| - i
  {
    if i < |t| && b != AtMost(0) {
      if Hit(t, at, i) {
        var n := at(i).value;
        AvoidsSplit(t, i, i + n, c);
        SubAvoids(t, at, i + n, k + 1, Spend(b), r, c);
      } else {
        AvoidsSplit(t, i, i + 1, c);
        AvoidsSplit(t, i, i, c);
        SubAvoids(t, at, i + 1, k, b, r, c);
      }
    }
  }

  // ---------------------------------------------------------------------------
  // Lengths of splices

  /** A span list without its head still lies in the text, after the head. */
  lemma OrderedTail(ms: seq<Span>, from: nat, n: nat)
    requires Ordered(ms, from, n) && |ms| > 0
    ensures Ordered(ms[1..], ms[0].end, n)
    ensures from <= ms[0].start < ms[0].end <= n
  {
    assert forall q :: 0 <= q < |ms| - 1 ==> ms[1..][q] == ms[q + 1];
  }

  /** Filling every span with its own text gives the text back. */
  lemma {:induction false} SpliceSelf(t: string, ms: seq<Span>, reps: seq<string>, from: nat)
    requires Ordered(ms, from, |t|) && from <= |t| && |reps| == |ms|
    requires forall q :: 0 <= q < |ms| ==> reps[q] == t[ms[q].start..ms[q].end]
    ensures Splice(t, ms, reps, from) == t[from..]
    decreases |ms|
  {
    if |ms| > 0 {
      OrderedTail(ms, from, |t|);
      assert forall q :: 0 <= q < |ms| - 1 ==> reps[1..][q] == reps[q + 1] && ms[1..][q] == ms[q + 1];
      SpliceSelf(t, ms[1..], reps[1..], ms[0].end);
      assert t[from..] == t[from..ms[0].start] + (t[ms[0].start..ms[0].end] + t[ms[0].end..]);
    }
  }

  /** Replacements no longer than their spans never lengthen the text, and
      one strictly shorter replacement shortens it. */
  lemma {:induction false} SpliceLength(t: string, ms: seq<Span>, reps: seq<string>, from: nat, short: nat)
    requires Ordered(ms, from, |t|) && from <= |t| && |reps| == |ms|
    requires forall q :: 0 <= q < |ms| ==> |reps[q]| <= ms[q].end - ms[q].start
    ensures |Splice(t, ms, reps, from)| <= |t| - from
    ensures short < |ms| && |reps[short]| < ms[short].end - ms[short].start ==> |Splice(t, ms, reps, from)| < |t| - from
    decreases |ms|
  {
    if |ms| > 0 {
      OrderedTail(ms, from, |t|);
      assert forall q :: 0 <= q < |ms| - 1 ==> reps[1..][q] == reps[q + 1] && ms[1..][q] == ms[q + 1];
      SpliceLength(t, ms[1..], reps[1..], ms[0].end, if short > 0 then short - 1 else |ms|);
    }
  }

  /** A one-word pattern matches exactly the length of its word. */
  lemma WordSingle(t: string, j: nat, a: string, fold: bool)
    requires j <= |t|
    ensures MatchAt(Word([a], fold), t, j).Some? ==> MatchAt(Word([a], fold), t, j).value == |a|
  {
    assert WordAlt(t, j, [a], fold, 1) == None;
  }

  /** Every span the scan reports is a match of the matcher, of the span's
      length. */
  lemma {:induction false} MatchesHit(t: string, at: nat -> Option<nat>, i: nat, b: Budget)
    requires i <= |t|
    ensures forall q :: 0 <= q < |MatchesFrom(t, at, i, b)| ==> SpanHit(t, at, MatchesFrom(t, at, i, b)[q])
    decreases |t| - i
  {
    if i < |t| && b != AtMost(0) {
      if Hit(t, at, i) {
        var n := at(i).value;
        MatchesHit(t, at, i + n, Spend(b));
        var ms := MatchesFrom(t, at, i, b);
        var ms' := MatchesFrom(t, at, i + n, Spend(b));
        assert ms == [Span(i, i + n)] + ms';
        assert forall q :: 1 <= q < |ms| ==> ms[q] == ms'[q - 1];
      } else {
        MatchesHit(t, at, i + 1, b);
        assert MatchesFrom(t, at, i, b) == MatchesFrom(t, at, i + 1, b);
      }
    }
  }

  /** The span is a match of the matcher, of the span's length. */
  predicate SpanHit(t: string, at: nat -> Option<nat>, m: Span)
  {
    Hit(t, at, m.start) && at(m.start).value == m.end - m.start
  }

  /** With a budget of one, the scan reports the first match only. */
  lemma {:induction false} MatchesFirst(t: string, at: nat -> Option<nat>, i: nat)
    requires i <= |t|
    ensures var all := MatchesFrom(t, at, i, Unlimited);
      MatchesFrom(t, at, i, AtMost(1)) == if |all| == 0 then [] else [all[0]]
    decreases |t| - i
  {
    if i < |t| {
      if Hit(t, at, i) {
        var n := at(i).value;
        assert MatchesFrom(t, at, i + n, AtMost(0)) == [];
      } else {
        MatchesFirst(t, at, i + 1);
      }
    }
  }

  // ---------------------------------------------------------------------------
  // What a substitution leaves alone

  /** Every replacement of the matched text `m` erases, for the class `p`,
      to what `m` erases to. */
  ghost predicate ErasesAlike(m: string, r: (nat, string) -> string, p: char -> bool)
  {
    forall q: nat :: Erase(r(q, m), p) == Erase(m, p)
  }

  /** Every replacement of the matched text `m` erases to no more than `m`
      does. */
  ghost predicate ErasesShorter(m: string, r: (nat, string) -> string, p: char -> bool)
  {
    forall q: nat :: |Erase(r(q, m), p)| <= |Erase(m, p)|
  }

  /** Every match from position i on erases, whatever replaces it, to what
      it erased to before. */
  ghost predicate HitsEraseAlike(t: string, at: nat -> Option<nat>, i: nat, r: (nat, string) -> string, p: char -> bool)
  {
    forall j {:trigger Hit(t, at, j)} :: i <= j < |t| && Hit(t, at, j) ==> ErasesAlike(t[j..j + at(j).value], r, p)
  }

  /** From position i on, the substitution erases as the text does. */
  predicate ErasedFrom(t: string, at: nat -> Option<nat>, i: nat, k: nat, b: Budget, r: (nat, string) -> string, p: char -> bool)
    requires i <= |t|
  {
    Erase(SubFrom(t, at, i, k, b, r), p) == Erase(t[i..], p)
  }

  /** A substitution whose replacements differ from their matches only in
      the class `p` changes the text only in that class. */
  lemma {:induction false} SubErase(t: string, at: nat -> Option<nat>, i: nat, k: nat, b: Budget, r: (nat, string) -> string, p: char -> bool)
    requires i <= |t|
    requires HitsEraseAlike(t, at, i, r, p)
    ensures ErasedFrom(t, at, i, k, b, r, p)
    decreases |t| - i
  {
    if i < |t| && b != AtMost(0) {
      if Hit(t, at, i) {
        SubErase(t, at, i + at(i).value, k + 1, Spend(b), r, p);
        SubEraseHit(t, at, i, k, b, r, p);
      } else {
        SubErase(t, at, i + 1, k, b, r, p);
        SubEraseMiss(t, at, i, k, b, r, p);
      }
    } else {
      SubEnd(t, at, i, k, b, r);
    }
  }

  /** At the end of the text, or with the budget spent, the rest is copied. */
  lemma SubEnd(t: string, at: nat -> Option<nat>, i: nat, k: nat, b: Budget, r: (nat, string) -> string)
    requires i <= |t| && (i == |t| || b == AtMost(0))
    ensures SubFrom(t, at, i, k, b, r) == t[i..]
  {
  }

  /** A character that starts no match is copied. */
  lemma SubMiss(t: string, at: nat -> Option<nat>, i: nat, k: nat, b: Budget, r: (nat, string) -> string)
    requires i < |t| && b != AtMost(0) && !Hit(t, at, i)
    ensures SubFrom(t, at, i, k, b, r) == [t[i]] + SubFrom(t, at, i + 1, k, b, r)
  {
  }

  lemma SubEraseHit(t: string, at: nat -> Option<nat>, i: nat, k: nat, b: Budget, r: (nat, string) -> string, p: char -> bool)
    requires i < |t| && b != AtMost(0) && Hit(t, at, i)
    requires ErasesAlike(t[i..i + at(i).value], r, p)
    requires ErasedFrom(t, at, i + at(i).value, k + 1, Spend(b), r, p)
    ensures ErasedFrom(t, at, i, k, b, r, p)
  {
    var n := at(i).value;
    EraseHit(t, i, n, r(k, t[i..i + n]), SubFrom(t, at, i + n, k + 1, Spend(b), r), p);
  }

  lemma SubEraseMiss(t: string, at: nat -> Option<nat>, i: nat, k: nat, b: Budget, r: (nat, string) -> string, p: char -> bool)
    requires i < |t| && b != AtMost(0) && !Hit(t, at, i)
    requires ErasedFrom(t, at, i + 1, k, b, r, p)
    ensures ErasedFrom(t, at, i, k, b, r, p)
  {
    EraseHit(t, i, 1, [t[i]], SubFrom(t, at, i + 1, k, b, r), p);
  }

  lemma EraseHit(t: string, i: nat, n: nat, x: string, rest: string, p: char -> bool)
    requires i + n <= |t|
    requires Erase(x, p) == Erase(t[i..i + n], p) && Erase(rest, p) == Erase(t[i + n..], p)
    ensures Erase(x + rest, p) == Erase(t[i..], p)
  {
    EraseAppend(x, rest, p);
    EraseSplit(t, i, i + n, p);
  }

  /** Every match from position i on erases, whatever replaces it, to no
      more than it erased to before. */
  ghost predicate HitsEraseShorter(t: string, at: nat -> Option<nat>, i: nat, r: (nat, string) -> string, p: char -> bool)
  {
    forall j {:trigger Hit(t, at, j)} :: i <= j < |t| && Hit(t, at, j) ==> ErasesShorter(t[j..j + at(j).value], r, p)
  }

  /** From position i on, the substitution erases to no more than the text. */
  predicate ErasedShorterFrom(t: string, at: nat -> Option<nat>, i: nat, k: nat, b: Budget, r: (nat, string) -> string, p: char -> bool)
    requires i <= |t|
  {
    |Erase(SubFrom(t, at, i, k, b, r), p)| <= |Erase(t[i..], p)|
  }

  /** A substitution whose replacements keep no more of the complement of
      `p` than their matches keeps no more of it in the text. */
  lemma {:induction false} SubEraseShorter(t: string, at: nat -> Option<nat>, i: nat, k: nat, b: Budget, r: (nat, string) -> string, p: char -> bool)
    requires i <= |t|
    requires HitsEraseShorter(t, at, i, r, p)
    ensures ErasedShorterFrom(t, at, i, k, b, r, p)
    decreases |t| - i
  {
    if i < |t| && b != AtMost(0) {
      if Hit(t, at, i) {
        SubEraseShorter(t, at, i + at(i).value, k + 1, Spend(b), r, p);
        SubShorterHit(t, at, i, k, b, r, p);
      } else {
        SubEraseShorter(t, at, i + 1, k, b, r, p);
        SubShorterMiss(t, at, i, k, b, r, p);
      }
    } else {
      SubEnd(t, at, i, k, b, r);
    }
  }

  lemma SubShorterHit(t: string, at: nat -> Option<nat>, i: nat, k: nat, b: Budget, r: (nat, string) -> string, p: char -> bool)
    requires i < |t| && b != AtMost(0) && Hit(t, at, i)
    requires ErasesShorter(t[i..i + at(i).value], r, p)
    requires ErasedShorterFrom(t, at, i + at(i).value, k + 1, Spend(b), r, p)
    ensures ErasedShorterFrom(t, at, i, k, b, r, p)
  {
    var n := at(i).value;
    EraseHitShorter(t, i, n, r(k, t[i..i + n]), SubFrom(t, at, i + n, k + 1, Spend(b), r), p);
  }

  lemma SubShorterMiss(t: string, at: nat -> Option<nat>, i: nat, k: nat, b: Budget, r: (nat, string) -> string, p: char -> bool)
    requires i < |t| && b != AtMost(0) && !Hit(t, at, i)
    requires ErasedShorterFrom(t, at, i + 1, k, b, r, p)
    ensures ErasedShorterFrom(t, at, i, k, b, r, p)
  {
    EraseHitShorter(t, i, 1, [t[i]], SubFrom(t, at, i + 1, k, b, r), p);
  }

  lemma EraseHitShorter(t: string, i: nat, n: nat, x: string, rest: string, p: char -> bool)
    requires i + n <= |t|
    requires |Erase(x, p)| <= |Erase(t[i..i + n], p)| && |Erase(rest, p)| <= |Erase(t[i + n..], p)|
    ensures |Erase(x + rest, p)| <= |Erase(t[i..], p)|
  {
    EraseAppend(x, rest, p);
    EraseSplit(t, i, i + n, p);
  }

  /** Every replacement of `m` is as long as `m`. */
  ghost predicate LengthAlike(m: string, r: (nat, string) -> string)
  {
    forall q: nat :: |r(q, m)| == |m|
  }

  /** Replacements as long as their matches keep the length of the text. */
  lemma {:induction false} SubSameLength(t: string, at: nat -> Option<nat>, i: nat, k: nat, b: Budget, r: (nat, string) -> string)
    requires i <= |t|
    requires forall j {:trigger Hit(t, at, j)} :: i <= j < |t| && Hit(t, at, j) ==> LengthAlike(t[j..j + at(j).value], r)
    ensures |SubFrom(t, at, i, k, b, r)| == |t| - i
    decreases |t| - i
  {
    if i < |t| && b != AtMost(0) {
      if Hit(t, at, i) {
        SubSameLength(t, at, i + at(i).value, k + 1, Spend(b), r);
      } else {
        SubSameLength(t, at, i + 1, k, b, r);
      }
    }
  }

  /** Every replacement of `m` is `m` itself. */
  ghost predicate KeepsMatch(m: string, r: (nat, string) -> string)
  {
    forall q: nat :: r(q, m) == m
  }

  predicate Never(c: char) { false }

  /** A substitution that puts every match of the text back keeps the text. */
  lemma SubKeepHits(t: string, at: nat -> Option<nat>, i: nat, k: nat, b: Budget, r: (nat, string) -> string)
    requires i <= |t|
    requires forall j {:trigger Hit(t, at, j)} :: i <= j < |t| && Hit(t, at, j) ==> KeepsMatch(t[j..j + at(j).value], r)
    ensures SubFrom(t, at, i, k, b, r) == t[i..]
  {
    forall j | i <= j < |t| && Hit(t, at, j)
      ensures ErasesAlike(t[j..j + at(j).value], r, Never)
    {
    }
    SubErase(t, at, i, k, b, r, Never);
    EraseNone(SubFrom(t, at, i, k, b, r), Never);
    EraseNone(t[i..], Never);
  }
}
