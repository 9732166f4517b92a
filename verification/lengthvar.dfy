/** Stage 5.5, long texts only: sentence-length variation. The text is split
    with `re.split(r'([.!?]+)', text)` again; a sentence of more than 30
    words may be split at its first conjunction between the 10th word and
    the 10th-last, and a sentence of fewer than 8 words may be merged with
    the next one through a connector. Every sentence that is kept is
    stripped. */
module LengthVariation {
  import opened Options
  import opened Text
  import opened Segments
  import opened Profile
  import opened Substitute

  const Conjunctions: seq<string> := ["and", "but", "or", "while", "because"]

  const Connectors: seq<string> := [", and", ", but", ", so", " -"]

  /** The draws of stage 5.5, indexed by the part number. */
  datatype LengthDraws = LengthDraws(split: nat -> real, merge: nat -> real, connector: nat -> nat)

  /** The stage as the source writes it, or with its two defects mended:
      the whitespace in front of a sentence is kept, and a merge with a
      one-character sentence keeps the first sentence. */
  datatype Variant = AsWritten | Corrected

  /** The first `j`, from `from` on and before `|ws| - 10`, whose word
      lower-cased is a conjunction: `for j in range(10, len(words) - 10)`. */
  function SplitPoint(ws: seq<string>, from: nat): (r: Option<nat>)
    ensures r.Some? ==> from <= r.value && r.value + 10 < |ws| && Lower(ws[r.value]) in Conjunctions
    ensures r.Some? ==> forall k :: from <= k < r.value ==> Lower(ws[k]) !in Conjunctions
    ensures r.None? ==> forall k :: from <= k && k + 10 < |ws| ==> Lower(ws[k]) !in Conjunctions
    decreases |ws| - from
  {
    if from + 10 >= |ws| then None
    else if Lower(ws[from]) in Conjunctions then Some(from)
    else SplitPoint(ws, from + 1)
  }

  /** The second half of a split, line 467 as written: a leading space and
      a capital when it is longer than one character, else only upper-cased. */
  function SplitTail(second: string): (r: string)
    ensures |second| > 1 ==> |r| == |second| + 1 && r[0] == ' ' && r[2..] == second[1..]
  {
    if |second| > 1 then " " + [ToUpper(second[0])] + second[1..] else Upper(second)
  }

  /** The merge of line 480 as written: the conditional expression binds
      loosest, so a one-character next sentence is emitted alone. */
  function MergeAsWritten(sent: string, conn: string, next: string): string
    requires |next| > 0
  {
    if |next| > 1 then sent + conn + " " + [ToLower(next[0])] + next[1..] else Lower(next)
  }

  /** The merge as intended: the first sentence, the connector, a space and
      the next sentence with a lower-case first letter, whatever the length
      of the next sentence. */
  function Merge(sent: string, conn: string, next: string): (r: string)
    requires |next| > 0
    ensures |r| == |sent| + |conn| + 1 + |next|
    ensures r[..|sent|] == sent && r[|sent|..|sent| + |conn|] == conn
    ensures r[|r| - |next|] == ToLower(next[0]) && r[|r| - |next| + 1..] == next[1..]
  {
    var r := sent + conn + " " + [ToLower(next[0])] + next[1..];
    assert r[..|sent|] == sent;
    r
  }

  /** The whitespace in front of the first non-blank character. */
  function Leading(s: string): (r: string)
    ensures AllSpace(r) && r + TrimStart(s) == s
  {
    var r := s[..|s| - |TrimStart(s)|];
    assert r + s[|s| - |TrimStart(s)|..] == s;
    r
  }

  /** What one pass of the loop of lines 452-496 emits, and where it goes on. */
  datatype Step = Step(out: seq<string>, next: nat)

  /** The pass at part `i`: a delimiter or a blank part is copied; a
      sentence is split, merged with the sentence after the next delimiter,
      or kept, each followed by the delimiter that follows it. */
  function VaryStep(parts: seq<string>, i: nat, d: LengthDraws, v: Variant): (s: Step)
    requires i < |parts|
    ensures i < s.next <= i + 4
  {
    if i % 2 == 1 || AllSpace(parts[i]) then Step([parts[i]], i + 1)
    else
      var sent := Strip(parts[i]);
      var lead := if v == Corrected then Leading(parts[i]) else "";
      var ws := Words(sent);
      var delim := if i + 1 < |parts| then [parts[i + 1]] else [];
      if |ws| > 30 && d.split(i) > 0.7 then
        match SplitPoint(ws, 10)
        case Some(j) =>
          Step([lead + Join(ws[..j], " ") + "."] + delim + [SplitTail(Join(ws[j + 1..], " "))], i + 2)
        case None => Step([lead + sent] + delim, i + 2)
      else if |ws| < 8 && i + 2 < |parts| && d.merge(i) > 0.6 && |Strip(parts[i + 2])| > 0 then
        var next := Strip(parts[i + 2]);
        var conn := Choose(Connectors, d.connector(i));
        var merged := if v == Corrected then Merge(sent, conn, next) else MergeAsWritten(sent, conn, next);
        Step([lead + merged] + (if i + 3 < |parts| then [parts[i + 3]] else []), i + 4)
      else Step([lead + sent] + delim, i + 2)
  }

  /** The loop from part `i` on. */
  function Vary(parts: seq<string>, i: nat, d: LengthDraws, v: Variant): seq<string>
    decreases |parts| - i
  {
    if i >= |parts| then []
    else
      var s := VaryStep(parts, i, d, v);
      s.out + Vary(parts, s.next, d, v)
  }

  /** Stage 5.5 of the humanizer. */
  function VaryStage(t: string, d: LengthDraws, v: Variant): string
  {
    Concat(Vary(SplitKeep(t), 0, d, v))
  }

  // ---------------------------------------------------------------------------
  // The split

  lemma {:induction false} JoinLength(ws: seq<string>)
    requires forall k :: 0 <= k < |ws| ==> IsToken(ws[k])
    ensures |Join(ws, " ")| >= |ws|
  {
    if |ws| > 1 {
      JoinLength(ws[1..]);
    }
  }

  /** A split removes only the conjunction: the words of the two halves,
      with the conjunction between them, are the words of the sentence, and
      the second half is long enough that line 467 always capitalises it
      behind a space. */
  lemma SplitDropsConjunction(sent: string, j: nat)
    requires SplitPoint(Words(sent), 10) == Some(j)
    ensures var ws := Words(sent);
      && Lower(ws[j]) in Conjunctions
      && Words(Join(ws[..j], " ")) + [ws[j]] + Words(Join(ws[j + 1..], " ")) == ws
      && |Join(ws[j + 1..], " ")| > 1
  {
    var ws := Words(sent);
    TokensSlice(ws, 0, j);
    TokensSlice(ws, j + 1, |ws|);
    assert ws[0..j] == ws[..j] && ws[j + 1..|ws|] == ws[j + 1..];
    WordsOfJoin(ws[..j]);
    WordsOfJoin(ws[j + 1..]);
    JoinLength(ws[j + 1..]);
    AroundAt(ws, j);
  }

  // ---------------------------------------------------------------------------
  // With no split or merge drawn

  ghost predicate Quiet(d: LengthDraws)
  {
    forall i: nat :: d.split(i) <= 0.7 && d.merge(i) <= 0.6
  }

  /** What a part becomes when nothing is split or merged. */
  function QuietPart(p: string, k: nat, v: Variant): (r: string)
    ensures v == Corrected ==> |r| <= |p| && r == p[..|r|] && AllSpace(p[|r|..])
  {
    if k % 2 == 1 || AllSpace(p) then p
    else
      var lead := if v == Corrected then Leading(p) else "";
      QuietPrefix(p);
      lead + Strip(p)
  }

  lemma QuietPrefix(p: string)
    ensures var r := Leading(p) + Strip(p); |r| <= |p| && r == p[..|r|] && AllSpace(p[|r|..])
  {
    var t := TrimStart(p);
    assert Strip(p) == TrimEnd(t);
    KeepFront(p, Leading(p), t, Strip(p));
  }

  /** Keeping the front of `p` and a prefix of the rest, when only
      whitespace follows that prefix, keeps a prefix of `p` followed by
      whitespace only. */
  lemma KeepFront(p: string, lead: string, t: string, s: string)
    requires p == lead + t && |s| <= |t| && s == t[..|s|] && AllSpace(t[|s|..])
    ensures var r := lead + s; |r| <= |p| && r == p[..|r|] && AllSpace(p[|r|..])
  {
    assert p[|lead + s|..] == t[|s|..];
  }

  /** The parts from `i` on, each rewritten on its own. */
  function QuietFrom(parts: seq<string>, i: nat, v: Variant): (qs: seq<string>)
    decreases |parts| - i
  {
    if i >= |parts| then [] else [QuietPart(parts[i], i, v)] + QuietFrom(parts, i + 1, v)
  }

  /** Without a split or a merge the stage rewrites each part on its own:
      as written it strips every sentence, so the space after each
      delimiter is lost; corrected it drops only the trailing whitespace of
      each sentence, keeping every part a prefix of the original. */
  lemma {:induction false} VaryQuiet(parts: seq<string>, i: nat, d: LengthDraws, v: Variant)
    requires Quiet(d)
    ensures Vary(parts, i, d, v) == QuietFrom(parts, i, v)
    decreases |parts| - i
  {
    if i < |parts| {
      assert d.split(i) <= 0.7 && d.merge(i) <= 0.6;
      VaryQuietStep(parts, i, d, v);
      if i % 2 == 1 || AllSpace(parts[i]) {
        VaryQuiet(parts, i + 1, d, v);
        VaryUnfold(parts, i, d, v, [parts[i]], i + 1);
      } else if i + 1 == |parts| {
        VaryUnfold(parts, i, d, v, [QuietPart(parts[i], i, v)], i + 2);
      } else {
        VaryQuiet(parts, i + 2, d, v);
        VaryUnfold(parts, i, d, v, [QuietPart(parts[i], i, v), parts[i + 1]], i + 2);
        NextIsOdd(i);
        QuietFromDelimiter(parts, i + 1, v);
        QuietFromUnfold(parts, i, v);
        ConsTwo(QuietPart(parts[i], i, v), parts[i + 1], QuietFrom(parts, i + 2, v));
      }
    }
  }

  lemma VaryUnfold(parts: seq<string>, i: nat, d: LengthDraws, v: Variant, out: seq<string>, next: nat)
    requires i < |parts| && VaryStep(parts, i, d, v) == Step(out, next)
    ensures Vary(parts, i, d, v) == out + Vary(parts, next, d, v)
  {
  }

  lemma ConsTwo<T>(a: T, b: T, r: seq<T>)
    ensures [a] + ([b] + r) == [a, b] + r
  {
  }

  lemma NextIsOdd(i: nat)
    requires i % 2 == 0
    ensures (i + 1) % 2 == 1
  {
  }

  lemma QuietFromUnfold(parts: seq<string>, i: nat, v: Variant)
    requires i < |parts|
    ensures QuietFrom(parts, i, v) == [QuietPart(parts[i], i, v)] + QuietFrom(parts, i + 1, v)
  {
  }

  lemma QuietFromDelimiter(parts: seq<string>, i: nat, v: Variant)
    requires i < |parts| && i % 2 == 1
    ensures QuietFrom(parts, i, v) == [parts[i]] + QuietFrom(parts, i + 1, v)
  {
  }

  /** One pass of the loop when neither a split nor a merge is drawn. */
  lemma VaryQuietStep(parts: seq<string>, i: nat, d: LengthDraws, v: Variant)
    requires i < |parts| && d.split(i) <= 0.7 && d.merge(i) <= 0.6
    ensures VaryStep(parts, i, d, v) ==
      if i % 2 == 1 || AllSpace(parts[i]) then Step([parts[i]], i + 1)
      else if i + 1 == |parts| then Step([QuietPart(parts[i], i, v)], i + 2)
      else Step([QuietPart(parts[i], i, v), parts[i + 1]], i + 2)
  {
  }

  // ---------------------------------------------------------------------------
  // The two defects

  /** As written, a sentence that follows its delimiter after a space comes
      out without that space, so it is glued to the delimiter ("A b. C d."
      becomes "A b.C d."); corrected, it keeps the space. */
  lemma QuietLosesSpace(p: string, k: nat)
    requires k % 2 == 0 && !AllSpace(p) && IsSpace(p[0])
    ensures var a := QuietPart(p, k, AsWritten); |a| > 0 && !IsSpace(a[0])
    ensures var c := QuietPart(p, k, Corrected); |c| > 0 && c[0] == p[0]
  {
    StripEmpty(p);
    QuietAsWrittenStrips(p, k);
    LeadingStarts(p);
    QuietCorrectedLeads(p, k);
  }

  lemma QuietAsWrittenStrips(p: string, k: nat)
    requires k % 2 == 0 && !AllSpace(p)
    ensures QuietPart(p, k, AsWritten) == Strip(p)
  {
  }

  lemma QuietCorrectedLeads(p: string, k: nat)
    requires k % 2 == 0 && !AllSpace(p)
    ensures QuietPart(p, k, Corrected) == Leading(p) + Strip(p)
  {
  }

  /** Text that starts with whitespace has that character at the head of its
      leading run. */
  lemma LeadingStarts(p: string)
    requires |p| > 0 && IsSpace(p[0])
    ensures |Leading(p)| > 0 && Leading(p)[0] == p[0]
  {
    assert TrimStart(p) == TrimStart(p[1..]);
  }

  /** As written, merging any sentence with a one-character sentence emits
      that character alone: the first sentence and the connector are lost. */
  lemma MergeDropsSentence(sent: string, conn: string, c: char)
    ensures MergeAsWritten(sent, conn, [c]) == [ToLower(c)]
  {
  }
}
