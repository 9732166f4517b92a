/** Characters, case folding and the whitespace tokenisation that Python's
    `str.split()` / `str.strip()` and JavaScript's `trim()` perform, over the
    ASCII character classes. */
module Text {
  import opened Options

  /** ASCII whitespace: space, tab, line feed, carriage return, vertical tab, form feed. */
  predicate IsSpace(c: char) {
    c == ' ' || c == '\t' || c == '\n' || c == '\r' || c == '\U{000B}' || c == '\U{000C}'
  }

  predicate IsUpper(c: char) { 'A' <= c <= 'Z' }

  predicate IsLower(c: char) { 'a' <= c <= 'z' }

  predicate IsLetter(c: char) { IsUpper(c) || IsLower(c) }

  predicate IsDigit(c: char) { '0' <= c <= '9' }

  /** The regular-expression class `\w`: letters, digits and underscore. */
  predicate IsWordChar(c: char) { IsLetter(c) || IsDigit(c) || c == '_' }

  /** The sentence enders of the class `[.!?]`. */
  predicate IsEnder(c: char) { c == '.' || c == '!' || c == '?' }

  function ToLower(c: char): (r: char)
    ensures IsLetter(c) ==> IsLower(r) && ToUpper(r) == ToUpper(c)
    ensures !IsLetter(c) ==> r == c
    ensures IsSpace(r) <==> IsSpace(c)
    ensures IsEnder(r) <==> IsEnder(c)
  {
    if IsUpper(c) then (c as int + 32) as char else c
  }

  function ToUpper(c: char): (r: char)
    ensures IsLetter(c) ==> IsUpper(r)
    ensures !IsLetter(c) ==> r == c
    ensures IsSpace(r) <==> IsSpace(c)
    ensures IsEnder(r) <==> IsEnder(c)
  {
    if IsLower(c) then (c as int - 32) as char else c
  }

  /** `s.lower()` restricted to ASCII. */
  function Lower(s: string): (r: string)
    ensures |r| == |s|
    ensures forall i :: 0 <= i < |s| ==> r[i] == ToLower(s[i])
  {
    seq(|s|, i requires 0 <= i < |s| => ToLower(s[i]))
  }

  /** `s.upper()` restricted to ASCII. */
  function Upper(s: string): (r: string)
    ensures |r| == |s|
    ensures forall i :: 0 <= i < |s| ==> r[i] == ToUpper(s[i])
  {
    seq(|s|, i requires 0 <= i < |s| => ToUpper(s[i]))
  }

  /** `n if n else 1`, the flooring the analyser applies to its counts. */
  function AtLeastOne(n: nat): (r: nat)
    ensures r >= 1 && r >= n
    ensures n >= 1 ==> r == n
  {
    if n >= 1 then n else 1
  }

  predicate NoSpace(s: string) {
    forall i :: 0 <= i < |s| ==> !IsSpace(s[i])
  }

  predicate AllSpace(s: string) {
    forall i :: 0 <= i < |s| ==> IsSpace(s[i])
  }

  /** A token of `str.split()`: non-empty and free of whitespace. */
  predicate IsToken(w: string) {
    |w| > 0 && NoSpace(w)
  }

  /** Every character of `s` avoids the character class `p`. */
  predicate Avoids(s: string, p: char -> bool) {
    forall i :: 0 <= i < |s| ==> !p(s[i])
  }

  // ---------------------------------------------------------------------------
  // strip / trim

  function TrimStart(s: string): (r: string)
    ensures |r| <= |s| && r == s[|s| - |r|..]
    ensures |r| > 0 ==> !IsSpace(r[0])
    ensures AllSpace(s[..|s| - |r|])
    decreases |s|
  {
    if |s| > 0 && IsSpace(s[0]) then TrimStart(s[1..]) else s
  }

  function TrimEnd(s: string): (r: string)
    ensures |r| <= |s| && r == s[..|r|]
    ensures |r| > 0 ==> !IsSpace(r[|r| - 1])
    ensures AllSpace(s[|r|..])
    decreases |s|
  {
    if |s| > 0 && IsSpace(s[|s| - 1]) then TrimEnd(s[..|s| - 1]) else s
  }

  /** Python's `str.strip()` and JavaScript's `String.prototype.trim()`. */
  function Strip(s: string): (r: string)
    ensures |r| <= |s|
    ensures |r| > 0 ==> !IsSpace(r[0]) && !IsSpace(r[|r| - 1])
  {
    TrimEnd(TrimStart(s))
  }

  /** The stripped text is the slice of `s` left after cutting away only
      whitespace on either side. */
  lemma StripIsSlice(s: string)
    ensures exists a ::
      && 0 <= a <= |s| - |Strip(s)|
      && Strip(s) == s[a..a + |Strip(s)|]
      && AllSpace(s[..a])
      && AllSpace(s[a + |Strip(s)|..])
  {
    var t := TrimStart(s);
    var r := TrimEnd(t);
    var a := |s| - |t|;
    SuffixSlices(s, a, |r|);
    assert Strip(s) == r;
    assert AllSpace(s[..a]) && AllSpace(s[a + |r|..]);
  }

  /** Stripping removes characters only, so a class absent from the text is
      absent from the stripped text. */
  lemma StripAvoids(s: string, p: char -> bool)
    requires Avoids(s, p)
    ensures Avoids(Strip(s), p)
  {
    var t := TrimStart(s);
    AvoidsSlice(s, |s| - |t|, |s|, p);
    assert t == s[|s| - |t|..|s|];
    AvoidsSlice(t, 0, |TrimEnd(t)|, p);
  }

  lemma AvoidsSlice(s: string, a: nat, b: nat, p: char -> bool)
    requires Avoids(s, p) && a <= b <= |s|
    ensures Avoids(s[a..b], p)
  {
    forall k | 0 <= k < b - a
      ensures !p(s[a..b][k])
    {
      assert s[a..b][k] == s[a + k];
    }
  }

  /** A blank text strips to nothing. */
  lemma StripBlank(s: string)
    requires AllSpace(s)
    ensures Strip(s) == ""
  {
    StripIsSlice(s);
  }

  // ---------------------------------------------------------------------------
  // str.split()

  /** Length of the maximal whitespace-free prefix of `s`. */
  function RunLen(s: string): (n: nat)
    ensures n <= |s|
    ensures NoSpace(s[..n])
    ensures n < |s| ==> IsSpace(s[n])
    decreases |s|
  {
    if |s| == 0 || IsSpace(s[0]) then 0 else 1 + RunLen(s[1..])
  }

  /** Python's `s.split()`: the maximal whitespace-free runs of `s`, in order. */
  function Words(s: string): (ws: seq<string>)
    ensures forall k :: 0 <= k < |ws| ==> IsToken(ws[k])
    decreases |s|
  {
    if |s| == 0 then []
    else if IsSpace(s[0]) then Words(s[1..])
    else
      var n := RunLen(s);
      [s[..n]] + Words(s[n..])
  }

  /** `sep.join(ws)`. */
  function Join(ws: seq<string>, sep: string): string
  {
    if |ws| == 0 then "" else if |ws| == 1 then ws[0] else ws[0] + sep + Join(ws[1..], sep)
  }

  /** `''.join(ss)`. */
  function Concat(ss: seq<string>): string
  {
    if |ss| == 0 then "" else ss[0] + Concat(ss[1..])
  }

  lemma {:induction false} ConcatAppend(a: seq<string>, b: seq<string>)
    ensures Concat(a + b) == Concat(a) + Concat(b)
  {
    if |a| == 0 {
      assert a + b == b;
    } else {
      assert (a + b)[0] == a[0];
      assert (a + b)[1..] == a[1..] + b;
      ConcatAppend(a[1..], b);
    }
  }

  lemma {:induction false} RunLenAppend(a: string, b: string)
    ensures RunLen(a + b) == if RunLen(a) < |a| then RunLen(a) else |a| + RunLen(b)
    decreases |a|
  {
    if |a| == 0 {
      assert a + b == b;
    } else if IsSpace(a[0]) {
    } else {
      assert (a + b)[1..] == a[1..] + b;
      RunLenAppend(a[1..], b);
    }
  }

  lemma {:induction false} WordsOfSpaces(s: string)
    requires AllSpace(s)
    ensures Words(s) == []
    decreases |s|
  {
    if |s| > 0 {
      WordsOfSpaces(s[1..]);
    }
  }

  /** Trailing whitespace contributes no token. */
  lemma {:induction false} WordsAppendSpaces(a: string, b: string)
    requires AllSpace(b)
    ensures Words(a + b) == Words(a)
    decreases |a|
  {
    if |a| == 0 {
      assert a + b == b;
      WordsOfSpaces(b);
    } else if IsSpace(a[0]) {
      assert (a + b)[1..] == a[1..] + b;
      WordsAppendSpaces(a[1..], b);
    } else {
      var n := RunLen(a);
      RunLenAppend(a, b);
      if n == |a| {
        assert |b| > 0 ==> RunLen(b) == 0;
      }
      assert RunLen(a + b) == n;
      assert (a + b)[..n] == a[..n];
      assert (a + b)[n..] == a[n..] + b;
      WordsAppendSpaces(a[n..], b);
    }
  }

  /** Leading whitespace contributes no token. */
  lemma {:induction false} WordsPrependSpaces(a: string, b: string)
    requires AllSpace(a)
    ensures Words(a + b) == Words(b)
    decreases |a|
  {
    if |a| > 0 {
      assert (a + b)[1..] == a[1..] + b;
      WordsPrependSpaces(a[1..], b);
    } else {
      assert a + b == b;
    }
  }

  lemma WordsTrimStart(s: string)
    ensures Words(TrimStart(s)) == Words(s)
  {
    var t := TrimStart(s);
    var k := |s| - |t|;
    assert s == s[..k] + t;
    WordsPrependSpaces(s[..k], t);
  }

  lemma WordsTrimEnd(t: string)
    ensures Words(TrimEnd(t)) == Words(t)
  {
    var r := TrimEnd(t);
    assert t == r + t[|r|..];
    WordsAppendSpaces(r, t[|r|..]);
  }

  /** Stripping a text does not change its tokens. */
  lemma WordsStrip(s: string)
    ensures Words(Strip(s)) == Words(s)
  {
    WordsTrimStart(s);
    WordsTrimEnd(TrimStart(s));
  }

  lemma {:induction false} WordsOfToken(w: string, rest: string)
    requires IsToken(w)
    requires |rest| == 0 || IsSpace(rest[0])
    ensures Words(w + rest) == [w] + Words(rest)
  {
    RunLenAppend(w, rest);
    assert RunLen(w) == |w|;
    assert (w + rest)[..|w|] == w;
    assert (w + rest)[|w|..] == rest;
  }

  /** Round trip: splitting a single-space join of tokens gives the tokens back. */
  lemma {:induction false} WordsOfJoin(ws: seq<string>)
    requires forall k :: 0 <= k < |ws| ==> IsToken(ws[k])
    ensures Words(Join(ws, " ")) == ws
    decreases |ws|
  {
    if |ws| == 1 {
      WordsOfToken(ws[0], "");
      assert ws[0] + "" == ws[0];
    } else if |ws| > 1 {
      var rest := Join(ws[1..], " ");
      assert Join(ws, " ") == ws[0] + (" " + rest);
      WordsOfToken(ws[0], " " + rest);
      assert (" " + rest)[1..] == rest;
      WordsOfJoin(ws[1..]);
    }
  }

  /** A character class absent from a text is absent from each of its words. */
  lemma {:induction false} WordsAvoid(s: string, p: char -> bool)
    requires Avoids(s, p)
    ensures forall k :: 0 <= k < |Words(s)| ==> Avoids(Words(s)[k], p)
    decreases |s|
  {
    if |s| > 0 {
      if IsSpace(s[0]) {
        AvoidsSlice(s, 1, |s|, p);
        assert s[1..|s|] == s[1..];
        WordsAvoid(s[1..], p);
      } else {
        var n := RunLen(s);
        AvoidsSlice(s, 0, n, p);
        AvoidsSlice(s, n, |s|, p);
        assert s[0..n] == s[..n] && s[n..|s|] == s[n..];
        WordsAvoid(s[n..], p);
        var ws := Words(s);
        assert ws == [s[..n]] + Words(s[n..]);
        assert forall k :: 1 <= k < |ws| ==> ws[k] == Words(s[n..])[k - 1];
      }
    }
  }

  lemma AvoidsAppend(a: string, b: string, p: char -> bool)
    ensures Avoids(a + b, p) <==> Avoids(a, p) && Avoids(b, p)
  {
    if Avoids(a, p) && Avoids(b, p) {
      forall k | 0 <= k < |a + b|
        ensures !p((a + b)[k])
      {
        if k >= |a| {
          assert (a + b)[k] == b[k - |a|];
        }
      }
    }
    if Avoids(a + b, p) {
      assert forall k :: 0 <= k < |a| ==> a[k] == (a + b)[k];
      assert forall k :: 0 <= k < |b| ==> b[k] == (a + b)[|a| + k];
    }
  }

  /** Joining words that avoid a class with a separator that avoids it. */
  lemma {:induction false} JoinAvoids(ws: seq<string>, sep: string, p: char -> bool)
    requires forall k :: 0 <= k < |ws| ==> Avoids(ws[k], p)
    requires Avoids(sep, p)
    ensures Avoids(Join(ws, sep), p)
    decreases |ws|
  {
    if |ws| > 1 {
      assert forall k :: 0 <= k < |ws| - 1 ==> ws[1..][k] == ws[k + 1];
      JoinAvoids(ws[1..], sep, p);
      AvoidsAppend(ws[0], sep, p);
      AvoidsAppend(ws[0] + sep, Join(ws[1..], sep), p);
    }
  }

  /** `s.strip()` is empty exactly when `s` is blank. */
  lemma StripEmpty(s: string)
    ensures |Strip(s)| == 0 <==> AllSpace(s)
  {
    var t := TrimStart(s);
    var c := |s| - |t|;
    if |Strip(s)| == 0 {
      assert AllSpace(t[0..]);
      assert |t| == 0;
      assert s[..c] == s;
    } else {
      if AllSpace(s) {
        StripBlank(s);
      }
    }
  }

  // ---------------------------------------------------------------------------
  // literal search, str.split(sep), str.replace(old, new, 1)

  predicate OccursAt(s: string, pat: string, j: nat) {
    j + |pat| <= |s| && s[j..j + |pat|] == pat
  }

  /** The first occurrence of `pat` in `s` at or after `i`. */
  function FindFrom(s: string, pat: string, i: nat): (r: Option<nat>)
    requires i <= |s|
    ensures r.Some? ==> i <= r.value && OccursAt(s, pat, r.value)
    ensures r.Some? ==> forall j :: i <= j < r.value ==> !OccursAt(s, pat, j)
    ensures r.None? ==> forall j :: i <= j <= |s| ==> !OccursAt(s, pat, j)
    decreases |s| - i
  {
    if OccursAt(s, pat, i) then Some(i)
    else if i == |s| then None
    else FindFrom(s, pat, i + 1)
  }

  /** Python's `s.split(sep)` for a non-empty literal separator. */
  function SplitOn(s: string, sep: string): (parts: seq<string>)
    requires |sep| > 0
    ensures |parts| >= 1
    decreases |s|, 1
  {
    SplitFound(s, sep, FindFrom(s, sep, 0))
  }

  /** The split of `s` once the first separator has been looked for: `f` is
      where it was found, if anywhere. */
  function SplitFound(s: string, sep: string, f: Option<nat>): (parts: seq<string>)
    requires |sep| > 0 && (f.Some? ==> f.value + |sep| <= |s|)
    ensures |parts| >= 1
    decreases |s|, 0
  {
    match f
    case None => [s]
    case Some(j) => [s[..j]] + SplitOn(s[j + |sep|..], sep)
  }

  /** Round trip: joining the pieces of a split with the separator restores the text. */
  lemma {:induction false} JoinSplitOn(s: string, sep: string)
    requires |sep| > 0
    ensures Join(SplitOn(s, sep), sep) == s
    decreases |s|, 1
  {
    JoinSplitFound(s, sep, FindFrom(s, sep, 0));
  }

  /** The same round trip once the first separator has been looked for. */
  lemma {:induction false} JoinSplitFound(s: string, sep: string, f: Option<nat>)
    requires |sep| > 0 && (f.Some? ==> OccursAt(s, sep, f.value))
    ensures Join(SplitFound(s, sep, f), sep) == s
    decreases |s|, 0
  {
    match f
    case None =>
    case Some(j) =>
      var rest := s[j + |sep|..];
      JoinSplitOn(rest, sep);
      JoinCons(s[..j], SplitOn(rest, sep), sep);
      CutAt(s, sep, j);
  }

  /** Joining a piece in front of at least one more adds the piece and a separator. */
  lemma JoinCons(x: string, ws: seq<string>, sep: string)
    requires |ws| > 0
    ensures Join([x] + ws, sep) == x + sep + Join(ws, sep)
  {
    assert ([x] + ws)[1..] == ws;
  }

  /** Cutting out an occurrence and putting it back gives the text. */
  lemma CutAt(s: string, pat: string, j: nat)
    requires OccursAt(s, pat, j)
    ensures s[..j] + pat + s[j + |pat|..] == s
  {
  }

  /** Python's `s.replace(old, new, 1)`. */
  function ReplaceFirst(s: string, pat: string, rep: string): (r: string)
    ensures FindFrom(s, pat, 0).None? ==> r == s
    ensures FindFrom(s, pat, 0).Some? ==> |r| == |s| - |pat| + |rep|
  {
    match FindFrom(s, pat, 0)
    case None => s
    case Some(j) => s[..j] + rep + s[j + |pat|..]
  }

  function CountChar(s: string, c: char): nat
  {
    if |s| == 0 then 0 else (if s[0] == c then 1 else 0) + CountChar(s[1..], c)
  }

  lemma {:induction false} CountCharAppend(a: string, b: string, c: char)
    ensures CountChar(a + b, c) == CountChar(a, c) + CountChar(b, c)
    decreases |a|
  {
    if |a| == 0 {
      assert a + b == b;
    } else {
      assert (a + b)[1..] == a[1..] + b;
      CountCharAppend(a[1..], b, c);
    }
  }

  // ---------------------------------------------------------------------------
  // erasing a character class

  /** `s` with every character of the class `p` left out. */
  function Erase(s: string, p: char -> bool): (r: string)
    ensures |r| <= |s|
  {
    if |s| == 0 then "" else (if p(s[0]) then "" else [s[0]]) + Erase(s[1..], p)
  }

  lemma {:induction false} EraseAppend(a: string, b: string, p: char -> bool)
    ensures Erase(a + b, p) == Erase(a, p) + Erase(b, p)
    decreases |a|
  {
    if |a| == 0 {
      assert a + b == b;
    } else {
      assert (a + b)[1..] == a[1..] + b;
      EraseAppend(a[1..], b, p);
    }
  }

  /** A suffix is its slice up to `j` followed by the suffix from `j`. */
  lemma SliceSplit<T>(s: seq<T>, i: nat, j: nat)
    requires i <= j <= |s|
    ensures s[i..] == s[i..j] + s[j..]
  {
  }

  /** Replacing `s[a..b]` by `x` leaves every slice before `a` alone. */
  lemma EditKeepsBefore<T>(s: seq<T>, a: nat, b: nat, x: seq<T>, i: nat, j: nat)
    requires i <= j <= a <= b <= |s|
    ensures (s[..a] + x + s[b..])[i..j] == s[i..j]
  {
  }

  /** Replacing `s[a..b]` by itself gives `s` back. */
  lemma EditSame<T>(s: seq<T>, a: nat, b: nat)
    requires a <= b <= |s|
    ensures s[..a] + s[a..b] + s[b..] == s
  {
  }

  /** A non-empty sequence is its front followed by its last element. */
  lemma FrontLast<T>(s: seq<T>)
    requires |s| > 0
    ensures s[..|s| - 1] + [s[|s| - 1]] == s
  {
  }

  /** Appending at the end commutes with dropping the first element. */
  lemma SnocTail<T>(s: seq<T>, y: T)
    requires |s| > 0
    ensures (s + [y])[0] == s[0] && (s + [y])[1..] == s[1..] + [y]
  {
  }

  lemma AppendAssoc<T>(x: seq<T>, y: seq<T>, z: seq<T>)
    ensures (x + y) + z == x + (y + z)
  {
  }

  /** A sequence is its prefix up to `a` followed by the rest. */
  /** Taking one element out of a sequence leaves what surrounds it. */
  lemma AroundAt<T>(s: seq<T>, j: nat)
    requires j < |s|
    ensures s[..j] + [s[j]] + s[j + 1..] == s
  {
  }

  /** A slice of a list of tokens is one. */
  lemma TokensSlice(ws: seq<string>, i: nat, k: nat)
    requires i <= k <= |ws| && forall t :: 0 <= t < |ws| ==> IsToken(ws[t])
    ensures forall t :: 0 <= t < k - i ==> IsToken(ws[i..k][t])
  {
  }

  /** Slicing a suffix of `s` is slicing `s` further on. */
  lemma SuffixSlices<T>(s: seq<T>, a: nat, n: nat)
    requires a + n <= |s|
    ensures s[a..][..n] == s[a..a + n] && s[a..][n..] == s[a + n..]
  {
  }

  /** A slice that ends before `cut` reads the same in the prefix up to `cut`. */
  lemma SliceOfPrefix<T>(s: seq<T>, cut: nat, a: nat, b: nat)
    requires a <= b <= cut <= |s|
    ensures s[..cut][a..b] == s[a..b]
  {
  }

  lemma PrefixRest<T>(s: seq<T>, a: nat)
    requires a <= |s|
    ensures s[..a] + s[a..] == s
  {
  }

  /** Erasing a suffix of `t` erases its two pieces on either side of `j`. */
  lemma EraseSplit(t: string, i: nat, j: nat, p: char -> bool)
    requires i <= j <= |t|
    ensures Erase(t[i..], p) == Erase(t[i..j], p) + Erase(t[j..], p)
  {
    assert t[i..] == t[i..j] + t[j..];
    EraseAppend(t[i..j], t[j..], p);
  }

  /** A text with no character of the class erases to itself. */
  lemma {:induction false} EraseNone(s: string, p: char -> bool)
    requires forall i :: 0 <= i < |s| ==> !p(s[i])
    ensures Erase(s, p) == s
    decreases |s|
  {
    if |s| > 0 {
      EraseNone(s[1..], p);
    }
  }

  /** A text made only of the class erases to nothing. */
  lemma {:induction false} EraseAll(s: string, p: char -> bool)
    requires forall i :: 0 <= i < |s| ==> p(s[i])
    ensures Erase(s, p) == ""
    decreases |s|
  {
    if |s| > 0 {
      EraseAll(s[1..], p);
    }
  }

  /** A kept character in front survives erasure. */
  lemma EraseFirstKept(m: string, p: char -> bool)
    requires |m| >= 1 && !p(m[0])
    ensures Erase(m, p) == [m[0]] + Erase(m[1..], p)
  {
  }

  /** A run of the erased class followed by one kept character erases to that
      character. */
  lemma {:induction false} EraseRunThen(s: string, p: char -> bool)
    requires |s| >= 1 && !p(s[|s| - 1])
    requires forall q :: 0 <= q < |s| - 1 ==> p(s[q])
    ensures Erase(s, p) == [s[|s| - 1]]
    decreases |s|
  {
    if |s| > 1 {
      EraseRunThen(s[1..], p);
    }
  }

  /** A class that holds strictly inside `m` holds on all but the last
      character of `m[1..]`. */
  lemma InnerShift(m: string, p: char -> bool)
    requires |m| >= 1
    requires forall q :: 1 <= q < |m| - 1 ==> p(m[q])
    ensures forall q :: 0 <= q < |m[1..]| - 1 ==> p(m[1..][q])
  {
    forall q | 0 <= q < |m[1..]| - 1 ensures p(m[1..][q]) {
      assert m[1..][q] == m[q + 1];
    }
  }

  /** Replacing one piece of a join by a piece that erases alike leaves the
      erased join alone, and changes its length by the change of the piece. */
  lemma {:induction false} JoinUpdate(ws: seq<string>, sep: string, k: nat, x: string, p: char -> bool)
    requires k < |ws|
    ensures Erase(ws[k], p) == Erase(x, p) ==> Erase(Join(ws[k := x], sep), p) == Erase(Join(ws, sep), p)
    ensures |Join(ws[k := x], sep)| + |ws[k]| == |Join(ws, sep)| + |x|
    decreases |ws|
  {
    var ws' := ws[k := x];
    if |ws| > 1 {
      if k == 0 {
        assert ws'[1..] == ws[1..];
        EraseAppend(ws[0] + sep, Join(ws[1..], sep), p);
        EraseAppend(x + sep, Join(ws[1..], sep), p);
        EraseAppend(ws[0], sep, p);
        EraseAppend(x, sep, p);
      } else {
        assert ws'[1..] == ws[1..][k - 1 := x];
        JoinUpdate(ws[1..], sep, k - 1, x, p);
        EraseAppend(ws[0] + sep, Join(ws'[1..], sep), p);
        EraseAppend(ws[0] + sep, Join(ws[1..], sep), p);
      }
    }
  }

  /** Joining pieces that erase alike gives texts that erase alike. */
  lemma {:induction false} JoinPointwise(ws: seq<string>, ws': seq<string>, sep: string, p: char -> bool)
    requires |ws'| == |ws|
    requires forall k :: 0 <= k < |ws| ==> Erase(ws'[k], p) == Erase(ws[k], p)
    ensures Erase(Join(ws', sep), p) == Erase(Join(ws, sep), p)
    decreases |ws|
  {
    if |ws| > 1 {
      assert forall k :: 0 <= k < |ws| - 1 ==> ws[1..][k] == ws[k + 1] && ws'[1..][k] == ws'[k + 1];
      JoinPointwise(ws[1..], ws'[1..], sep, p);
      EraseAppend(ws[0] + sep, Join(ws[1..], sep), p);
      EraseAppend(ws'[0] + sep, Join(ws'[1..], sep), p);
      EraseAppend(ws[0], sep, p);
      EraseAppend(ws'[0], sep, p);
    }
  }

  /** Joining pieces that are each no shorter gives a text no shorter. */
  lemma {:induction false} JoinLonger(ws: seq<string>, ws': seq<string>, sep: string)
    requires |ws'| == |ws|
    requires forall k :: 0 <= k < |ws| ==> |ws[k]| <= |ws'[k]|
    ensures |Join(ws, sep)| <= |Join(ws', sep)|
    decreases |ws|
  {
    if |ws| > 1 {
      assert forall k :: 0 <= k < |ws| - 1 ==> ws[1..][k] == ws[k + 1] && ws'[1..][k] == ws'[k + 1];
      JoinLonger(ws[1..], ws'[1..], sep);
    }
  }

  /** `s.replace(' ', '  ', 1)` only adds a space. */
  lemma ReplaceFirstSpace(s: string)
    ensures Erase(ReplaceFirst(s, " ", "  "), IsSpace) == Erase(s, IsSpace)
    ensures |ReplaceFirst(s, " ", "  ")| <= |s| + 1
  {
    match FindFrom(s, " ", 0)
    case None =>
    case Some(j) =>
      assert s == s[..j] + " " + s[j + 1..];
      EraseAppend(s[..j] + " ", s[j + 1..], IsSpace);
      EraseAppend(s[..j], " ", IsSpace);
      EraseAppend(s[..j] + "  ", s[j + 1..], IsSpace);
      EraseAppend(s[..j], "  ", IsSpace);
      EraseAll(" ", IsSpace);
      EraseAll("  ", IsSpace);
  }
}
