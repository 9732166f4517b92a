/** Stage 6: typos. The text is split into words; a word longer than two
    characters whose letters, lower-cased, spell one of a few common words
    may get a doubled letter, two swapped letters or a dropped letter, and
    its first letter is capitalised again when the word began with a
    capital. The words are joined with single spaces. */
module Typos {
  import opened Text
  import opened Profile

  const SafeWords: seq<string> := ["the", "and", "but", "for", "with", "from", "this", "that", "have",
    "will", "can", "should", "would", "been", "them", "than", "then"]

  datatype Kind = Double | Swap | Missing

  /** `random.choice(['double', 'swap', 'missing'])`. */
  function KindOf(n: nat): Kind
  {
    if n % 3 == 0 then Double else if n % 3 == 1 then Swap else Missing
  }

  /** The draws of stage 6, indexed by the word number. */
  datatype TypoDraws = TypoDraws(u: nat -> real, kind: nat -> nat, pos: nat -> nat)

  /** `re.sub(r'[^a-zA-Z]', '', w).lower()`. */
  function Letters(w: string): (r: string)
    ensures |r| <= |w|
    ensures forall k :: 0 <= k < |r| ==> IsLower(r[k])
  {
    if |w| == 0 then ""
    else (if IsLetter(w[0]) then [ToLower(w[0])] else "") + Letters(w[1..])
  }

  /** The letter at `pos` written twice. */
  function DoubleLetter(s: string, pos: nat): string
    requires pos < |s|
  {
    s[..pos] + [s[pos]] + s[pos..]
  }

  /** The letters at `pos` and `pos + 1` exchanged. */
  function SwapLetters(s: string, pos: nat): string
    requires pos + 1 < |s|
  {
    s[..pos] + [s[pos + 1], s[pos]] + s[pos + 2..]
  }

  /** The letter at `pos` left out. */
  function DropLetter(s: string, pos: nat): string
    requires pos < |s|
  {
    s[..pos] + s[pos + 1..]
  }

  /** Lines 512-523: the typo of the drawn kind, where the word is long
      enough for it. */
  function Misspell(s: string, kind: Kind, n: nat): string
  {
    match kind
    case Double => if |s| > 2 then DoubleLetter(s, RandInt(0, |s| - 1, n)) else s
    case Swap => if |s| > 2 then SwapLetters(s, RandInt(0, |s| - 2, n)) else s
    case Missing => if |s| > 3 then DropLetter(s, RandInt(1, |s| - 2, n)) else s
  }

  /** Lines 526-527: the first letter upper-cased when the word began with
      a capital. */
  function Recapitalize(word: string, s: string): string
  {
    if |word| > 0 && IsUpper(word[0]) && |s| > 0 then [ToUpper(s[0])] + s[1..] else s
  }

  /** The index of the first ASCII letter of `w` at or after `i`. */
  function FirstLetter(w: string, i: nat): (a: nat)
    requires i <= |w|
    ensures i <= a <= |w|
    ensures a < |w| ==> IsLetter(w[a])
    ensures forall k :: i <= k < a ==> !IsLetter(w[k])
    decreases |w| - i
  {
    if i == |w| || IsLetter(w[i]) then i else FirstLetter(w, i + 1)
  }

  /** The end of the run of letters starting at `a`. */
  function RunEnd(w: string, a: nat): (b: nat)
    requires a <= |w|
    ensures a <= b <= |w|
    ensures forall k :: a <= k < b ==> IsLetter(w[k])
    ensures b < |w| ==> !IsLetter(w[b])
    decreases |w| - a
  {
    if a == |w| || !IsLetter(w[a]) then a else RunEnd(w, a + 1)
  }

  /** `re.sub(r'[a-zA-Z]+', rep, w, count=1)`: the first run of letters
      replaced. */
  function ReplaceFirstRun(w: string, rep: string): string
  {
    var a := FirstLetter(w, 0);
    if a == |w| then w else w[..a] + rep + w[RunEnd(w, a)..]
  }

  /** Lines 504-529 for word number `i`. */
  function TypoWord(word: string, i: nat, d: TypoDraws): string
  {
    var letters := Letters(word);
    if d.u(i) > 0.93 && |word| > 2 && letters in SafeWords then
      ReplaceFirstRun(word, Recapitalize(word, Misspell(letters, KindOf(d.kind(i)), d.pos(i))))
    else word
  }

  function TypoWords(ws: seq<string>, d: TypoDraws): (out: seq<string>)
    ensures |out| == |ws|
    ensures forall k :: 0 <= k < |ws| ==> out[k] == TypoWord(ws[k], k, d)
  {
    seq(|ws|, k requires 0 <= k < |ws| => TypoWord(ws[k], k, d))
  }

  /** Stage 6 of the humanizer: `' '.join(words)` after the typos. */
  function TypoStage(t: string, d: TypoDraws): string
  {
    Join(TypoWords(Words(t), d), " ")
  }

  // ---------------------------------------------------------------------------
  // The three kinds of typo

  /** A doubled letter adds one character, and taking it out again gives
      the word back. */
  lemma DoubleLetterUndo(s: string, pos: nat)
    requires pos < |s|
    ensures |DoubleLetter(s, pos)| == |s| + 1
    ensures DropLetter(DoubleLetter(s, pos), pos) == s
  {
    var t := DoubleLetter(s, pos);
    assert t[..pos] == s[..pos];
    assert t[pos + 1..] == s[pos..];
    assert s[..pos] + s[pos..] == s;
  }

  /** Swapping keeps the length and the letters, and swapping again gives
      the word back. */
  lemma SwapLettersUndo(s: string, pos: nat)
    requires pos + 1 < |s|
    ensures |SwapLetters(s, pos)| == |s|
    ensures multiset(SwapLetters(s, pos)) == multiset(s)
    ensures SwapLetters(SwapLetters(s, pos), pos) == s
  {
    var t := SwapLetters(s, pos);
    assert t[..pos] == s[..pos];
    assert t[pos + 2..] == s[pos + 2..];
    assert s == s[..pos] + [s[pos], s[pos + 1]] + s[pos + 2..];
    assert multiset([s[pos + 1], s[pos]]) == multiset([s[pos], s[pos + 1]]);
  }

  /** A dropped letter between the first and the last keeps both. */
  lemma DropLetterEnds(s: string, pos: nat)
    requires 1 <= pos && pos + 1 < |s|
    ensures var r := DropLetter(s, pos);
      |r| == |s| - 1 && r[0] == s[0] && r[|r| - 1] == s[|s| - 1]
  {
  }

  /** The effect of each kind of typo on a letter string. */
  lemma MisspellEffect(s: string, kind: Kind, n: nat)
    ensures var r := Misspell(s, kind, n);
      && (kind == Double && |s| > 2 ==> |r| == |s| + 1)
      && (kind == Swap ==> |r| == |s| && multiset(r) == multiset(s))
      && (kind == Missing && |s| > 3 ==> |r| == |s| - 1 && r[0] == s[0] && r[|r| - 1] == s[|s| - 1])
      && (kind == Missing && |s| <= 3 ==> r == s)
      && (|s| > 0 ==> |r| > 0)
  {
    match kind
    case Double =>
      if |s| > 2 {
        DoubleLetterUndo(s, RandInt(0, |s| - 1, n));
      }
    case Swap =>
      if |s| > 2 {
        SwapLettersUndo(s, RandInt(0, |s| - 2, n));
      }
    case Missing =>
      if |s| > 3 {
        DropLetterEnds(s, RandInt(1, |s| - 2, n));
      }
  }

  /** Every letter of the typo comes from the word. */
  lemma MisspellChars(s: string, kind: Kind, n: nat)
    ensures forall k :: 0 <= k < |Misspell(s, kind, n)| ==> Misspell(s, kind, n)[k] in s
  {
    var r := Misspell(s, kind, n);
    forall k | 0 <= k < |r|
      ensures r[k] in s
    {
      match kind
      case Double =>
        if |s| > 2 {
          var p := RandInt(0, |s| - 1, n);
          if k <= p { assert r[k] == s[k]; } else { assert r[k] == s[k - 1]; }
        }
      case Swap =>
        if |s| > 2 {
          var p := RandInt(0, |s| - 2, n);
          if k < p || k > p + 1 { assert r[k] == s[k]; }
        }
      case Missing =>
        if |s| > 3 {
          var p := RandInt(1, |s| - 2, n);
          if k < p { assert r[k] == s[k]; } else { assert r[k] == s[k + 1]; }
        }
    }
  }

  /** The result begins with a capital exactly when the word did; only the
      case of the first letter changes. */
  lemma RecapitalizeCase(word: string, s: string)
    requires |word| > 0 && |s| > 0 && IsLower(s[0])
    ensures var r := Recapitalize(word, s);
      && |r| == |s| && r[1..] == s[1..] && Lower(r) == Lower(s)
      && (IsUpper(r[0]) <==> IsUpper(word[0]))
  {
    var r := Recapitalize(word, s);
    assert r[0] == s[0] || r[0] == ToUpper(s[0]);
    assert ToLower(r[0]) == ToLower(s[0]);
    assert forall k :: 1 <= k < |r| ==> r[k] == s[k];
  }

  // ---------------------------------------------------------------------------
  // The stage keeps the words apart

  /** Replacing a run of letters by a non-empty run of letters keeps a
      token a token. */
  lemma ReplaceFirstRunToken(w: string, rep: string)
    requires IsToken(w) && |rep| > 0
    requires forall k :: 0 <= k < |rep| ==> IsLetter(rep[k])
    ensures IsToken(ReplaceFirstRun(w, rep))
  {
    var a := FirstLetter(w, 0);
    if a < |w| {
      var b := RunEnd(w, a);
      var r := w[..a] + rep + w[b..];
      forall k | 0 <= k < |r|
        ensures !IsSpace(r[k])
      {
        if k < a {
          assert r[k] == w[k];
        } else if k < a + |rep| {
          assert r[k] == rep[k - a];
        } else {
          assert r[k] == w[b + k - a - |rep|];
        }
      }
    }
  }

  lemma SafeWordsLong(s: string)
    requires s in SafeWords
    ensures |s| >= 3
  {
  }

  /** Every word of the split is still one word after its typo. */
  lemma TypoWordToken(word: string, i: nat, d: TypoDraws)
    requires IsToken(word)
    ensures IsToken(TypoWord(word, i, d))
  {
    var letters := Letters(word);
    if d.u(i) > 0.93 && |word| > 2 && letters in SafeWords {
      SafeWordsLong(letters);
      var m := Misspell(letters, KindOf(d.kind(i)), d.pos(i));
      MisspellEffect(letters, KindOf(d.kind(i)), d.pos(i));
      MisspellChars(letters, KindOf(d.kind(i)), d.pos(i));
      var rep := Recapitalize(word, m);
      RecapitalizeCase(word, m);
      assert forall k :: 0 <= k < |rep| ==> IsLetter(rep[k]) by {
        forall k | 0 <= k < |rep|
          ensures IsLetter(rep[k])
        {
          if k > 0 {
            assert rep[k] == rep[1..][k - 1] == m[1..][k - 1] == m[k];
          }
        }
      }
      ReplaceFirstRunToken(word, rep);
    }
  }

  /** Splitting the output of stage 6 gives the words of its input, each
      after its own typo: no word is lost, split or merged. */
  lemma TypoStageWords(t: string, d: TypoDraws)
    ensures Words(TypoStage(t, d)) == TypoWords(Words(t), d)
    ensures |Words(TypoStage(t, d))| == |Words(t)|
  {
    var ws := Words(t);
    var out := TypoWords(ws, d);
    forall k | 0 <= k < |out|
      ensures IsToken(out[k])
    {
      TypoWordToken(ws[k], k, d);
    }
    WordsOfJoin(out);
  }
}
