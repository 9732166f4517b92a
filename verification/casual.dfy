/** Stage 5: casual language, sentence by sentence. The text is split with
    `re.split(r'([.!?]+)', text)`; each non-blank text part may get a filler
    word after its first or second word, an intensifier before the first of
    a few adjectives, and (after the first part) a conversational starter.
    The delimiters are copied through. */
module Casual {
  import opened Text
  import opened Regex
  import opened Segments
  import opened Profile
  import opened Substitute

  const IntensifiedWords: seq<string> := ["good", "important", "difficult", "easy", "clear", "effective", "simple"]

  function Fillers(tier: Tier): (fs: seq<string>)
    ensures |fs| > 0
  {
    if IsLong(tier) then ["basically", "actually", "honestly"] else ["basically", "actually"]
  }

  function Intensifiers(tier: Tier): (cs: seq<string>)
    ensures |cs| > 0
  {
    if IsLong(tier) then ["pretty", "really", "quite", "fairly"] else ["pretty", "really", "quite"]
  }

  function Starters(tier: Tier): (ss: seq<string>)
    ensures |ss| > 0
  {
    if IsLong(tier) then ["And ", "But ", "So ", "Plus "] else ["And ", "But ", "So "]
  }

  function Min(a: nat, b: nat): nat { if a <= b then a else b }

  /** The draws of stage 5, indexed by the part number. */
  datatype CasualDraws = CasualDraws(
    filler: nat -> real, fillerWord: nat -> nat, fillerPos: nat -> nat,
    intensifier: nat -> real, intensifierWord: nat -> nat,
    starter: nat -> real, starterWord: nat -> nat)

  // ---------------------------------------------------------------------------
  // The three edits

  /** `words = s.split(); words.insert(pos, w); ' '.join(words)`. */
  function InsertWord(s: string, pos: nat, w: string): string
    requires pos <= |Words(s)|
  {
    var ws := Words(s);
    Join(ws[..pos] + [w] + ws[pos..], " ")
  }

  /** Splitting the result again gives the old words with the new one at
      `pos`. */
  lemma InsertWordWords(s: string, pos: nat, w: string)
    requires pos <= |Words(s)| && IsToken(w)
    ensures Words(InsertWord(s, pos, w)) == Words(s)[..pos] + [w] + Words(s)[pos..]
  {
    var ws := Words(s);
    var ws' := ws[..pos] + [w] + ws[pos..];
    forall k | 0 <= k < |ws'|
      ensures IsToken(ws'[k])
    {
      if k < pos {
        assert ws'[k] == ws[k];
      } else if k > pos {
        assert ws'[k] == ws[k - 1];
      }
    }
    WordsOfJoin(ws');
  }

  /** `re.sub(r'\b(good|...|simple)\b', lambda m: c + ' ' + m.group(0), s, count=1)`
      (case-sensitive). */
  function Intensify(s: string, c: string): string
  {
    SubFirst(s, Word(IntensifiedWords, false), 1, (k: nat, m: string) => c + " " + m)
  }

  /** The intensifier and a space go in front of the first adjective; a
      part without one is left alone. */
  lemma IntensifyIsInsert(s: string, c: string)
    ensures var ms := FindAll(s, Word(IntensifiedWords, false));
      Intensify(s, c) == if |ms| == 0 then s else s[..ms[0].start] + c + " " + s[ms[0].start..]
  {
    var r := (k: nat, m: string) => c + " " + m;
    var at := At(Word(IntensifiedWords, false), s);
    SubIsSplice(s, at, 0, 0, AtMost(1), r);
    MatchesFirst(s, at, 0);
    var ms := FindAll(s, Word(IntensifiedWords, false));
    if |ms| > 0 {
      var m := ms[0];
      var one := MatchesFrom(s, at, 0, AtMost(1));
      assert one == [m];
      assert one[1..] == [];
      assert Splice(s, one, Reps(s, one, 0, r), 0) == s[0..m.start] + (c + " " + s[m.start..m.end] + s[m.end..]);
      assert s[m.start..] == s[m.start..m.end] + s[m.end..];
    }
  }

  /** The starter branch: the part is stripped, and a part that then starts
      with a capital gets the starter and a lower-cased first letter. */
  function Restart(s: string, starter: string): string
  {
    var x := Strip(s);
    if |x| > 0 && IsUpper(x[0]) then starter + [ToLower(x[0])] + x[1..] else x
  }

  function FillerWord(tier: Tier, d: CasualDraws, i: nat): string
  {
    Choose(Fillers(tier), d.fillerWord(i)) + ","
  }

  /** `random.randint(1, min(2, len(words) - 1))`. */
  function FillerPosition(n: nat, d: CasualDraws, i: nat): (pos: nat)
    requires n > 8
    ensures 1 <= pos <= 2
  {
    RandInt(1, Min(2, n - 1), d.fillerPos(i))
  }

  predicate FillerApplies(part: string, i: nat, tier: Tier, d: CasualDraws)
  {
    Gate(d.filler(i), RatesOf(tier).filler) && |Words(part)| > 8
  }

  function AddFiller(part: string, i: nat, tier: Tier, d: CasualDraws): string
  {
    if FillerApplies(part, i, tier, d) then
      InsertWord(part, FillerPosition(|Words(part)|, d, i), FillerWord(tier, d, i))
    else part
  }

  function AddIntensifier(part: string, i: nat, tier: Tier, d: CasualDraws): string
  {
    if Gate(d.intensifier(i), RatesOf(tier).casual) then
      Intensify(part, Choose(Intensifiers(tier), d.intensifierWord(i)))
    else part
  }

  function AddStarter(part: string, i: nat, tier: Tier, d: CasualDraws): string
  {
    if i > 0 && Gate(d.starter(i), RatesOf(tier).starter) then
      Restart(part, Choose(Starters(tier), d.starterWord(i)))
    else part
  }

  /** The rewrite of part i of the split: the non-blank text parts are
      edited, the delimiters and blank parts copied. */
  function CasualPart(part: string, i: nat, tier: Tier, d: CasualDraws): string
  {
    if i % 2 == 0 && !AllSpace(part) then
      AddStarter(AddIntensifier(AddFiller(part, i, tier, d), i, tier, d), i, tier, d)
    else part
  }

  function CasualParts(parts: seq<string>, tier: Tier, d: CasualDraws): (ps: seq<string>)
    ensures |ps| == |parts|
    ensures forall k :: 0 <= k < |parts| ==> ps[k] == CasualPart(parts[k], k, tier, d)
  {
    seq(|parts|, k requires 0 <= k < |parts| => CasualPart(parts[k], k, tier, d))
  }

  /** Stage 5 of the humanizer. */
  function CasualStage(t: string, tier: Tier, d: CasualDraws): string
  {
    Concat(CasualParts(SplitKeep(t), tier, d))
  }

  // ---------------------------------------------------------------------------
  // Properties

  /** A filler adds exactly one word, after the first or the second, and
      keeps every other word in order. */
  lemma AddFillerWords(part: string, i: nat, tier: Tier, d: CasualDraws)
    requires FillerApplies(part, i, tier, d)
    ensures var ws := Words(part);
      var pos := FillerPosition(|ws|, d, i);
      Words(AddFiller(part, i, tier, d)) == ws[..pos] + [FillerWord(tier, d, i)] + ws[pos..]
  {
    FillersAreTokens(tier, d, i);
    InsertWordWords(part, FillerPosition(|Words(part)|, d, i), FillerWord(tier, d, i));
  }

  lemma FillersAreTokens(tier: Tier, d: CasualDraws, i: nat)
    ensures IsToken(FillerWord(tier, d, i)) && NoEnder(FillerWord(tier, d, i))
  {
    var f := Choose(Fillers(tier), d.fillerWord(i));
    assert f in Fillers(tier);
    assert f == "basically" || f == "actually" || f == "honestly";
  }

  lemma IntensifiersAvoid(tier: Tier, n: nat)
    ensures NoEnder(Choose(Intensifiers(tier), n) + " ")
  {
    var c := Choose(Intensifiers(tier), n);
    assert c in Intensifiers(tier);
    assert c == "pretty" || c == "really" || c == "quite" || c == "fairly";
  }

  lemma StartersAvoid(tier: Tier, n: nat)
    ensures NoEnder(Choose(Starters(tier), n))
  {
    var c := Choose(Starters(tier), n);
    assert c in Starters(tier);
    assert c == "And " || c == "But " || c == "So " || c == "Plus ";
  }

  lemma AllSpaceAppend(a: string, b: string)
    ensures AllSpace(a + b) <==> AllSpace(a) && AllSpace(b)
  {
    if AllSpace(a + b) {
      assert forall k :: 0 <= k < |a| ==> a[k] == (a + b)[k];
      assert forall k :: 0 <= k < |b| ==> b[k] == (a + b)[|a| + k];
    }
  }

  /** The filler keeps a non-blank, ender-free part so. */
  lemma AddFillerShape(part: string, i: nat, tier: Tier, d: CasualDraws)
    requires NoEnder(part) && !AllSpace(part)
    ensures NoEnder(AddFiller(part, i, tier, d)) && !AllSpace(AddFiller(part, i, tier, d))
  {
    if FillerApplies(part, i, tier, d) {
      var ws := Words(part);
      var pos := FillerPosition(|ws|, d, i);
      var f := FillerWord(tier, d, i);
      var ws' := ws[..pos] + [f] + ws[pos..];
      FillersAreTokens(tier, d, i);
      WordsAvoid(part, IsEnder);
      forall k | 0 <= k < |ws'|
        ensures Avoids(ws'[k], IsEnder)
      {
        if k < pos {
          assert ws'[k] == ws[k];
        } else if k > pos {
          assert ws'[k] == ws[k - 1];
        }
      }
      JoinAvoids(ws', " ", IsEnder);
      AddFillerWords(part, i, tier, d);
      if AllSpace(AddFiller(part, i, tier, d)) {
        WordsOfSpaces(AddFiller(part, i, tier, d));
      }
    }
  }

  /** Inserting text that avoids a class into text that avoids it. */
  lemma InsertAvoids(s: string, a: nat, x: string, p: char -> bool)
    requires a <= |s| && Avoids(s, p) && Avoids(x, p)
    ensures Avoids(s[..a] + x + s[a..], p)
  {
    AvoidsSlice(s, 0, a, p);
    AvoidsSlice(s, a, |s|, p);
    assert s[0..a] == s[..a] && s[a..|s|] == s[a..];
    AvoidsAppend(s[..a], x, p);
    AvoidsAppend(s[..a] + x, s[a..], p);
  }

  lemma AddIntensifierShape(part: string, i: nat, tier: Tier, d: CasualDraws)
    requires NoEnder(part) && !AllSpace(part)
    ensures NoEnder(AddIntensifier(part, i, tier, d)) && !AllSpace(AddIntensifier(part, i, tier, d))
  {
    var c := Choose(Intensifiers(tier), d.intensifierWord(i));
    var ms := FindAll(part, Word(IntensifiedWords, false));
    IntensifyIsInsert(part, c);
    if Gate(d.intensifier(i), RatesOf(tier).casual) && |ms| > 0 {
      var a := ms[0].start;
      IntensifiersAvoid(tier, d.intensifierWord(i));
      InsertAvoids(part, a, c + " ", IsEnder);
      assert part[..a] + c + " " + part[a..] == part[..a] + (c + " ") + part[a..];
      AllSpaceAppend(part[..a] + (c + " "), part[a..]);
      AllSpaceAppend(part[..a], c + " ");
      AllSpaceAppend(part[..a], part[a..]);
      assert part[..a] + part[a..] == part;
    }
  }

  lemma AddStarterShape(part: string, i: nat, tier: Tier, d: CasualDraws)
    requires NoEnder(part) && !AllSpace(part)
    ensures NoEnder(AddStarter(part, i, tier, d)) && |AddStarter(part, i, tier, d)| > 0
  {
    if i > 0 && Gate(d.starter(i), RatesOf(tier).starter) {
      var st := Choose(Starters(tier), d.starterWord(i));
      var x := Strip(part);
      StripAvoids(part, IsEnder);
      StripEmpty(part);
      if IsUpper(x[0]) {
        StartersAvoid(tier, d.starterWord(i));
        AvoidsSlice(x, 1, |x|, IsEnder);
        assert x[1..|x|] == x[1..];
        assert Avoids([ToLower(x[0])], IsEnder);
        AvoidsAppend(st, [ToLower(x[0])], IsEnder);
        AvoidsAppend(st + [ToLower(x[0])], x[1..], IsEnder);
      }
    } else {
      assert |part| > 0;
    }
  }

  /** A rewritten text part stays free of enders, and a part that had text
      still has some. */
  lemma CasualPartShape(part: string, i: nat, tier: Tier, d: CasualDraws)
    requires NoEnder(part)
    ensures NoEnder(CasualPart(part, i, tier, d))
    ensures |part| > 0 ==> |CasualPart(part, i, tier, d)| > 0
  {
    if i % 2 == 0 && !AllSpace(part) {
      AddFillerShape(part, i, tier, d);
      var p1 := AddFiller(part, i, tier, d);
      AddIntensifierShape(p1, i, tier, d);
      AddStarterShape(AddIntensifier(p1, i, tier, d), i, tier, d);
    }
  }

  /** Stage 5 keeps the sentence structure: splitting its output at the
      ender runs gives the rewritten parts, with every delimiter exactly as
      it was. */
  lemma CasualStageKeepsDelimiters(t: string, tier: Tier, d: CasualDraws)
    ensures var parts := SplitKeep(t);
      var out := SplitKeep(CasualStage(t, tier, d));
      && out == CasualParts(parts, tier, d)
      && forall k :: 0 <= k < |parts| && k % 2 == 1 ==> out[k] == parts[k]
  {
    var parts := SplitKeep(t);
    var ps := CasualParts(parts, tier, d);
    forall k | 0 <= k < |parts| && k % 2 == 0
      ensures NoEnder(ps[k]) && (|parts[k]| > 0 ==> |ps[k]| > 0)
    {
      CasualPartShape(parts[k], k, tier, d);
    }
    RewriteTexts(parts, ps);
  }
}
