/** Sentence segmentation as the analyser and the rewrite stages perform it:
    `re.split(r'([.!?]+)', text)` keeps the runs of sentence enders as
    separate parts, `re.split(r'[.!?]+', text)` keeps only the text between
    them, and the analyser strips each fragment and drops the empty ones. */
module Segments {
  import opened Options
  import opened Text

  predicate NoEnder(s: string) {
    Avoids(s, IsEnder)
  }

  predicate AllEnder(s: string) {
    forall k :: 0 <= k < |s| ==> IsEnder(s[k])
  }

  /** Length of the longest ender-free prefix. */
  function UntilEnder(s: string): (n: nat)
    ensures n <= |s| && NoEnder(s[..n])
    ensures n < |s| ==> IsEnder(s[n])
    decreases |s|
  {
    if |s| == 0 || IsEnder(s[0]) then 0 else 1 + UntilEnder(s[1..])
  }

  /** Length of the run of enders at the front. */
  function EnderRun(s: string): (n: nat)
    ensures n <= |s| && AllEnder(s[..n])
    ensures n < |s| ==> !IsEnder(s[n])
    decreases |s|
  {
    if |s| > 0 && IsEnder(s[0]) then 1 + EnderRun(s[1..]) else 0
  }

  /** The shape of a `re.split` with a capturing group: text, delimiter,
      text, ..., text; the texts hold no ender, every delimiter is a
      non-empty run of enders, and only the outer texts may be empty (two
      delimiters never touch, because each run is maximal). */
  predicate Alternating(parts: seq<string>) {
    && |parts| % 2 == 1
    && (forall k :: 0 <= k < |parts| && k % 2 == 0 ==> NoEnder(parts[k]))
    && (forall k :: 0 <= k < |parts| && k % 2 == 1 ==> |parts[k]| > 0 && AllEnder(parts[k]))
    && (forall k :: 0 < k < |parts| - 1 && k % 2 == 0 ==> |parts[k]| > 0)
  }

  /** `re.split(r'([.!?]+)', s)`. */
  function SplitKeep(s: string): (parts: seq<string>)
    ensures Alternating(parts)
    ensures |s| > 0 && !IsEnder(s[0]) ==> |parts[0]| > 0
    decreases |s|
  {
    var j := UntilEnder(s);
    if j == |s| then [s]
    else
      var rest := s[j..];
      var n := EnderRun(rest);
      assert rest[0] == s[j];
      var tail := SplitKeep(rest[n..]);
      AlternatingCons(s[..j], rest[..n], tail);
      [s[..j], rest[..n]] + tail
  }

  lemma AlternatingCons(p0: string, p1: string, tail: seq<string>)
    requires NoEnder(p0) && |p1| > 0 && AllEnder(p1)
    requires Alternating(tail) && (|tail| > 1 ==> |tail[0]| > 0)
    ensures Alternating([p0, p1] + tail)
  {
    var parts := [p0, p1] + tail;
    assert forall k :: 2 <= k < |parts| ==> parts[k] == tail[k - 2];
  }

  /** Concatenating the parts of the split restores the text. */
  lemma {:induction false} SplitKeepConcat(s: string)
    ensures Concat(SplitKeep(s)) == s
    decreases |s|
  {
    var j := UntilEnder(s);
    if j < |s| {
      var rest := s[j..];
      var n := EnderRun(rest);
      var tail := SplitKeep(rest[n..]);
      SplitKeepConcat(rest[n..]);
      assert SplitKeep(s) == [s[..j], rest[..n]] + tail;
      ConcatCons2(s[..j], rest[..n], tail);
      SliceThree(s, j, n);
    }
  }

  lemma ConcatCons2(a: string, b: string, tail: seq<string>)
    ensures Concat([a, b] + tail) == a + (b + Concat(tail))
  {
    assert ([a, b] + tail)[1..] == [b] + tail;
    assert ([b] + tail)[1..] == tail;
  }

  /** A sequence cut at j and then n further on. */
  lemma SliceThree<T>(s: seq<T>, j: nat, n: nat)
    requires j <= |s| && n <= |s| - j
    ensures s == s[..j] + (s[j..][..n] + s[j..][n..])
  {
  }

  /** One step of the split: a text, a maximal run of enders, and the rest. */
  lemma SplitKeepCons(p0: string, p1: string, t: string)
    requires NoEnder(p0) && |p1| > 0 && AllEnder(p1) && (|t| == 0 || !IsEnder(t[0]))
    ensures SplitKeep(p0 + (p1 + t)) == [p0, p1] + SplitKeep(t)
  {
    var s := p0 + (p1 + t);
    UntilEnderOf(p0, p1 + t);
    assert s[..|p0|] == p0;
    assert s[|p0|..] == p1 + t;
    EnderRunOf(p1, t);
    assert (p1 + t)[..|p1|] == p1;
    assert (p1 + t)[|p1|..] == t;
  }

  /** The parts after the first text and delimiter still alternate. */
  lemma AlternatingTail(parts: seq<string>)
    requires Alternating(parts) && |parts| > 1
    ensures Alternating(parts[2..])
    ensures NoEnder(parts[0]) && |parts[1]| > 0 && AllEnder(parts[1])
    ensures |parts| > 3 ==> |parts[2..][0]| > 0
  {
    var tailParts := parts[2..];
    forall k | 0 <= k < |tailParts|
      ensures tailParts[k] == parts[k + 2]
    {
    }
  }

  lemma ConcatTwo(parts: seq<string>)
    requires |parts| > 1
    ensures Concat(parts) == parts[0] + (parts[1] + Concat(parts[2..]))
  {
    assert parts[1..][1..] == parts[2..];
  }

  /** An alternating concatenation whose first text is non-empty (or alone)
      starts like that text, so not with an ender. */
  lemma AlternatingStart(parts: seq<string>)
    requires Alternating(parts) && (|parts| > 1 ==> |parts[0]| > 0)
    ensures |Concat(parts)| == 0 || !IsEnder(Concat(parts)[0])
  {
    var p0 := parts[0];
    assert NoEnder(p0);
    if |parts| > 1 {
      assert |p0| > 0;
      assert Concat(parts) == p0 + Concat(parts[1..]);
      assert Concat(parts)[0] == p0[0];
    } else {
      assert Concat(parts) == p0;
    }
  }

  /** Splitting an alternating concatenation takes off its first text and
      delimiter. */
  lemma SplitKeepStep(parts: seq<string>)
    requires Alternating(parts) && |parts| > 1
    ensures Alternating(parts[2..])
    ensures SplitKeep(Concat(parts)) == [parts[0], parts[1]] + SplitKeep(Concat(parts[2..]))
  {
    var rest := parts[2..];
    AlternatingTail(parts);
    ConcatTwo(parts);
    AlternatingStart(rest);
    SplitKeepCons(parts[0], parts[1], Concat(rest));
  }

  /** A sequence is its first two elements followed by the rest. */
  lemma Reassemble<T>(parts: seq<T>, whole: seq<T>, rest: seq<T>)
    requires |parts| > 1 && rest == parts[2..] && whole == [parts[0], parts[1]] + rest
    ensures whole == parts
  {
  }

  /** A lone text without enders is split into itself. */
  lemma SplitKeepSingle(parts: seq<string>)
    requires |parts| == 1 && NoEnder(parts[0])
    ensures SplitKeep(Concat(parts)) == parts
  {
    assert Concat(parts) == parts[0];
    UntilEnderAll(parts[0]);
  }

  /** Splitting an alternating concatenation gives back its parts. */
  lemma {:induction false} SplitKeepOfConcat(parts: seq<string>)
    requires Alternating(parts)
    ensures SplitKeep(Concat(parts)) == parts
    decreases |parts|
  {
    if |parts| == 1 {
      SplitKeepSingle(parts);
    } else {
      var rest := parts[2..];
      SplitKeepStep(parts);
      SplitKeepOfConcat(rest);
      Reassemble(parts, SplitKeep(Concat(parts)), SplitKeep(Concat(rest)));
    }
  }

  lemma {:induction false} UntilEnderOf(a: string, b: string)
    requires NoEnder(a) && |b| > 0 && IsEnder(b[0])
    ensures UntilEnder(a + b) == |a|
    decreases |a|
  {
    if |a| == 0 {
      assert a + b == b;
    } else {
      assert (a + b)[1..] == a[1..] + b;
      assert NoEnder(a[1..]) by {
        assert forall k :: 0 <= k < |a| - 1 ==> a[1..][k] == a[k + 1];
      }
      UntilEnderOf(a[1..], b);
    }
  }

  lemma {:induction false} UntilEnderAll(a: string)
    requires NoEnder(a)
    ensures UntilEnder(a) == |a|
    decreases |a|
  {
    if |a| > 0 {
      assert NoEnder(a[1..]) by {
        assert forall k :: 0 <= k < |a| - 1 ==> a[1..][k] == a[k + 1];
      }
      UntilEnderAll(a[1..]);
    }
  }

  lemma {:induction false} EnderRunOf(a: string, b: string)
    requires |a| > 0 && AllEnder(a) && (|b| == 0 || !IsEnder(b[0]))
    ensures EnderRun(a + b) == |a|
    decreases |a|
  {
    assert (a + b)[1..] == a[1..] + b;
    if |a| > 1 {
      EnderRunOf(a[1..], b);
    } else {
      assert a[1..] + b == b;
    }
  }

  /** Rewriting the text parts of a split, keeping them free of enders and
      keeping the non-empty ones non-empty, while leaving the delimiters
      alone, gives parts that split back into themselves: a stage that works
      sentence by sentence keeps every delimiter where it was. */
  lemma RewriteTexts(parts: seq<string>, parts': seq<string>)
    requires Alternating(parts) && |parts'| == |parts|
    requires forall k :: 0 <= k < |parts| && k % 2 == 1 ==> parts'[k] == parts[k]
    requires forall k :: 0 <= k < |parts| && k % 2 == 0 ==> NoEnder(parts'[k])
    requires forall k :: 0 <= k < |parts| && k % 2 == 0 && |parts[k]| > 0 ==> |parts'[k]| > 0
    ensures Alternating(parts')
    ensures SplitKeep(Concat(parts')) == parts'
  {
    SplitKeepOfConcat(parts');
  }

  /** The even-numbered parts: `re.split(r'[.!?]+', s)`. */
  function Fragments(s: string): (fs: seq<string>)
    ensures forall k :: 0 <= k < |fs| ==> NoEnder(fs[k])
  {
    var parts := SplitKeep(s);
    seq((|parts| + 1) / 2, k requires 0 <= k < (|parts| + 1) / 2 => parts[2 * k])
  }

  /** A sentence as the analyser keeps it: non-empty, without enders, and
      starting with a non-space character. */
  predicate IsSentence(x: string) {
    |x| > 0 && !IsSpace(x[0]) && NoEnder(x)
  }

  /** `[x.strip() for x in fs if x.strip()]`. */
  function StripNonEmpty(fs: seq<string>): (ss: seq<string>)
    requires forall k :: 0 <= k < |fs| ==> NoEnder(fs[k])
    ensures |ss| <= |fs|
    ensures forall k :: 0 <= k < |ss| ==> IsSentence(ss[k])
  {
    if |fs| == 0 then []
    else
      var r := Strip(fs[0]);
      NoEnderTail(fs);
      StripAvoids(fs[0], IsEnder);
      var rest := StripNonEmpty(fs[1..]);
      if |r| > 0 then
        SentenceCons(r, rest);
        [r] + rest
      else rest
  }

  lemma NoEnderTail(fs: seq<string>)
    requires |fs| > 0 && forall k :: 0 <= k < |fs| ==> NoEnder(fs[k])
    ensures Avoids(fs[0], IsEnder)
    ensures forall k :: 0 <= k < |fs[1..]| ==> NoEnder(fs[1..][k])
  {
    assert NoEnder(fs[0]);
    assert forall k :: 0 <= k < |fs| - 1 ==> fs[1..][k] == fs[k + 1];
  }

  lemma SentenceCons(r: string, rest: seq<string>)
    requires IsSentence(r) && forall k :: 0 <= k < |rest| ==> IsSentence(rest[k])
    ensures forall k :: 0 <= k < |[r] + rest| ==> IsSentence(([r] + rest)[k])
  {
    assert forall k :: 1 <= k < |rest| + 1 ==> ([r] + rest)[k] == rest[k - 1];
  }

  /** The analyser's sentences: stripped, non-empty, ender-free fragments. */
  function Sentences(s: string): (ss: seq<string>)
    ensures forall k :: 0 <= k < |ss| ==> IsSentence(ss[k])
    ensures forall k :: 0 <= k < |ss| ==> |Words(ss[k])| >= 1
  {
    var ss := StripNonEmpty(Fragments(s));
    forall k | 0 <= k < |ss|
      ensures |Words(ss[k])| >= 1
    {
      WordsNonEmpty(ss[k]);
    }
    ss
  }

  /** A text that starts with a non-space character has a first token. */
  lemma WordsNonEmpty(s: string)
    requires |s| > 0 && !IsSpace(s[0])
    ensures |Words(s)| >= 1
  {
  }

  /** Only whitespace between the enders gives no sentence at all. */
  lemma SentencesOfBlank(s: string)
    requires AllSpace(s)
    ensures Sentences(s) == []
  {
    UntilEnderAll(s);
    assert SplitKeep(s) == [s];
    assert Fragments(s) == [s];
    StripBlank(s);
  }

  /** `re.match(r'^\s*(\w+)', s)`: the word-character run after the leading
      whitespace, lower-cased, if there is one. */
  function FirstWord(s: string): (r: Option<string>)
    ensures r.Some? ==> |r.value| > 0 && forall k :: 0 <= k < |r.value| ==> IsWordChar(r.value[k])
  {
    var k := SpacePrefix(s);
    var n := WordPrefix(s[k..]);
    if n > 0 then Some(Lower(s[k..k + n])) else None
  }

  function SpacePrefix(s: string): (n: nat)
    ensures n <= |s|
    decreases |s|
  {
    if |s| > 0 && IsSpace(s[0]) then 1 + SpacePrefix(s[1..]) else 0
  }

  function WordPrefix(s: string): (n: nat)
    ensures n <= |s|
    ensures forall k :: 0 <= k < n ==> IsWordChar(s[k])
    decreases |s|
  {
    if |s| > 0 && IsWordChar(s[0]) then 1 + WordPrefix(s[1..]) else 0
  }

  /** The first words of the sentences that begin with a word character. */
  function FirstWords(ss: seq<string>): (fw: seq<string>)
    ensures |fw| <= |ss|
  {
    if |ss| == 0 then []
    else
      var rest := FirstWords(ss[1..]);
      match FirstWord(ss[0])
      case Some(w) => [w] + rest
      case None => rest
  }

  /** `[len(x.split()) for x in ss]`. */
  function Lengths(ss: seq<string>): (ls: seq<nat>)
    ensures |ls| == |ss|
    ensures forall k :: 0 <= k < |ss| ==> ls[k] == |Words(ss[k])|
  {
    seq(|ss|, k requires 0 <= k < |ss| => |Words(ss[k])|)
  }
}
