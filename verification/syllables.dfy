/** The syllable estimate behind the readability score: the word is case
    folded, everything but the letters a-z is dropped, and each maximal run
    of the vowels a, e, i, o, u, y counts as one syllable, with at least one
    syllable for any word that keeps a letter. */
module Syllables {
  import opened Text

  predicate IsVowel(c: char) {
    c == 'a' || c == 'e' || c == 'i' || c == 'o' || c == 'u' || c == 'y'
  }

  /** `re.sub(r'[^a-z]', '', w.lower())`: the lower-case letters of the folded word. */
  function Letters(w: string): (r: string)
    ensures |r| <= |w|
    ensures forall k :: 0 <= k < |r| ==> IsLower(r[k])
    decreases |w|
  {
    if |w| == 0 then ""
    else
      var c := ToLower(w[0]);
      (if IsLower(c) then [c] else "") + Letters(w[1..])
  }

  /** Folding keeps a letter exactly when the word has an ASCII letter. */
  lemma {:induction false} LettersEmpty(w: string)
    ensures |Letters(w)| == 0 <==> forall k :: 0 <= k < |w| ==> !IsLetter(w[k])
    decreases |w|
  {
    if |w| > 0 {
      LettersEmpty(w[1..]);
      assert forall k :: 1 <= k < |w| ==> w[k] == w[1..][k - 1];
    }
  }

  /** Length of the vowel run at the front of s. */
  function VowelRun(s: string): (n: nat)
    ensures n <= |s|
    decreases |s|
  {
    if |s| > 0 && IsVowel(s[0]) then 1 + VowelRun(s[1..]) else 0
  }

  /** `len(re.findall(r'[aeiouy]+', s))`: the scan that consumes each
      maximal vowel run in one match. */
  function VowelGroups(s: string): (n: nat)
    decreases |s|
  {
    if |s| == 0 then 0
    else if IsVowel(s[0]) then
      var k := VowelRun(s);
      1 + VowelGroups(s[k..])
    else VowelGroups(s[1..])
  }

  /** Reference count: the positions where a vowel run starts, i.e. a vowel
      whose predecessor (`prev`, for the first character) is not a vowel. */
  function RunStarts(s: string, prev: bool): (n: nat)
    decreases |s|
  {
    if |s| == 0 then 0
    else (if IsVowel(s[0]) && !prev then 1 else 0) + RunStarts(s[1..], IsVowel(s[0]))
  }

  /** A run start count is blind to vowels that continue a run. */
  lemma {:induction false} RunStartsSkip(s: string)
    requires |s| > 0 && IsVowel(s[0])
    ensures RunStarts(s, true) == RunStarts(s[VowelRun(s)..], true)
    decreases |s|
  {
    if |s[1..]| > 0 && IsVowel(s[1]) {
      RunStartsSkip(s[1..]);
      assert s[1..][VowelRun(s[1..])..] == s[VowelRun(s)..];
    } else {
      assert VowelRun(s) == 1;
      if |s[1..]| > 0 {
        assert RunStarts(s[1..], true) == RunStarts(s[1..][1..], false);
        assert RunStarts(s[1..], false) == RunStarts(s[1..][1..], false);
      }
    }
  }

  lemma {:induction false} RunStartsAfterRun(s: string)
    requires |s| > 0 && IsVowel(s[0])
    ensures VowelRun(s) == |s| || !IsVowel(s[VowelRun(s)])
    ensures RunStarts(s[VowelRun(s)..], true) == RunStarts(s[VowelRun(s)..], false)
    decreases |s|
  {
    if |s[1..]| > 0 && IsVowel(s[1]) {
      RunStartsAfterRun(s[1..]);
      assert s[1..][VowelRun(s[1..])..] == s[VowelRun(s)..];
    }
  }

  /** The regular-expression scan counts exactly the vowel-run starts. */
  lemma {:induction false} VowelGroupsAreRunStarts(s: string)
    ensures VowelGroups(s) == RunStarts(s, false)
    decreases |s|
  {
    if |s| > 0 {
      if IsVowel(s[0]) {
        var k := VowelRun(s);
        RunStartsAfterRun(s);
        VowelGroupsAreRunStarts(s[k..]);
        if |s[1..]| > 0 {
          assert RunStarts(s, false) == 1 + RunStarts(s[1..], true);
          if IsVowel(s[1]) {
            RunStartsSkip(s[1..]);
            assert s[1..][VowelRun(s[1..])..] == s[k..];
          } else {
            assert RunStarts(s[1..], true) == RunStarts(s[1..], false);
          }
        }
      } else {
        VowelGroupsAreRunStarts(s[1..]);
      }
    }
  }

  /** There are never more runs than characters, and a vowel gives a run. */
  lemma {:induction false} VowelGroupsBounds(s: string)
    ensures VowelGroups(s) <= |s|
    ensures (exists k :: 0 <= k < |s| && IsVowel(s[k])) ==> VowelGroups(s) >= 1
    decreases |s|
  {
    if |s| > 0 {
      if IsVowel(s[0]) {
        VowelGroupsBounds(s[VowelRun(s)..]);
      } else {
        VowelGroupsBounds(s[1..]);
        if exists k :: 0 <= k < |s| && IsVowel(s[k]) {
          var k :| 0 <= k < |s| && IsVowel(s[k]);
          assert s[1..][k - 1] == s[k];
        }
      }
    }
  }

  /** `count_syllables(w)`. */
  function CountSyllables(w: string): (n: nat)
    ensures n == 0 <==> forall k :: 0 <= k < |w| ==> !IsLetter(w[k])
    ensures n <= |Letters(w)|
  {
    var s := Letters(w);
    LettersEmpty(w);
    VowelGroupsBounds(s);
    if |s| == 0 then 0
    else if VowelGroups(s) > 1 then VowelGroups(s) else 1
  }

  /** The estimate for a word with letters is the number of vowel-run starts,
      or 1 when the letters hold no vowel. */
  lemma SyllablesCountRunStarts(w: string)
    requires exists k :: 0 <= k < |w| && IsLetter(w[k])
    ensures CountSyllables(w) == if RunStarts(Letters(w), false) >= 1 then RunStarts(Letters(w), false) else 1
  {
    VowelGroupsAreRunStarts(Letters(w));
  }
}
