/** The pure helpers of the front end (script.js): `escapeHtml`, the
    JavaScript split on `/\s+/` that `countWords` and the visual diff use,
    `countWords`, and the arithmetic of the AI-score gauge. */
module Display {
  import opened Text

  // ---------------------------------------------------------------------------
  // escapeHtml (script.js:155-157)

  /** `s.replace(/c/g, rep)`: every occurrence of `c` replaced by `rep`. */
  function ReplaceChar(s: string, c: char, rep: string): (r: string)
    ensures c !in rep ==> c !in r
    decreases |s|
  {
    if |s| == 0 then "" else (if s[0] == c then rep else [s[0]]) + ReplaceChar(s[1..], c, rep)
  }

  /** `escapeHtml(s)`: the four global replacements in the order of the
      source, the ampersand first. */
  function EscapeHtml(s: string): string
  {
    ReplaceChar(ReplaceChar(ReplaceChar(ReplaceChar(s, '&', "&amp;"), '<', "&lt;"), '>', "&gt;"), '"', "&quot;")
  }

  /** The entity one character is written as. */
  function EscapeChar(c: char): (r: string)
    ensures |r| > 0 && (r[0] == '&' <==> |r| > 1)
  {
    if c == '&' then "&amp;"
    else if c == '<' then "&lt;"
    else if c == '>' then "&gt;"
    else if c == '"' then "&quot;"
    else [c]
  }

  /** The escape character by character: the reference the four replacements
      are compared with. */
  function EscapeEach(s: string): string
    decreases |s|
  {
    if |s| == 0 then "" else EscapeChar(s[0]) + EscapeEach(s[1..])
  }

  lemma {:induction false} ReplaceCharAppend(a: string, b: string, c: char, rep: string)
    ensures ReplaceChar(a + b, c, rep) == ReplaceChar(a, c, rep) + ReplaceChar(b, c, rep)
    decreases |a|
  {
    if |a| == 0 {
      assert a + b == b;
    } else {
      assert (a + b)[1..] == a[1..] + b;
      ReplaceCharAppend(a[1..], b, c, rep);
    }
  }

  lemma ReplaceCharAbsent(s: string, c: char, rep: string)
    requires c !in s
    ensures ReplaceChar(s, c, rep) == s
    decreases |s|
  {
    if |s| > 0 {
      ReplaceCharAbsent(s[1..], c, rep);
    }
  }

  lemma ReplaceCharSingle(x: char, c: char, rep: string)
    ensures ReplaceChar([x], c, rep) == if x == c then rep else [x]
  {
    assert ReplaceChar([x][1..], c, rep) == "";
  }

  /** The last three replacements leave a text without `<`, `>` and `"`
      alone. */
  lemma LaterAbsent(s: string)
    requires '<' !in s && '>' !in s && '"' !in s
    ensures ReplaceChar(ReplaceChar(ReplaceChar(s, '<', "&lt;"), '>', "&gt;"), '"', "&quot;") == s
  {
    ReplaceCharAbsent(s, '<', "&lt;");
    ReplaceCharAbsent(s, '>', "&gt;");
    ReplaceCharAbsent(s, '"', "&quot;");
  }

  /** The four replacements applied to one character give its entity. */
  lemma EscapeOne(c: char)
    ensures EscapeHtml([c]) == EscapeChar(c)
  {
    var r1 := ReplaceChar([c], '&', "&amp;");
    ReplaceCharSingle(c, '&', "&amp;");
    if c == '&' {
      LaterAbsent("&amp;");
    } else {
      var r2 := ReplaceChar(r1, '<', "&lt;");
      ReplaceCharSingle(c, '<', "&lt;");
      if c == '<' {
        ReplaceCharAbsent("&lt;", '>', "&gt;");
        ReplaceCharAbsent("&lt;", '"', "&quot;");
      } else {
        var r3 := ReplaceChar(r2, '>', "&gt;");
        ReplaceCharSingle(c, '>', "&gt;");
        if c == '>' {
          ReplaceCharAbsent("&gt;", '"', "&quot;");
        } else {
          ReplaceCharSingle(c, '"', "&quot;");
        }
      }
    }
  }

  lemma EscapeHtmlAppend(a: string, b: string)
    ensures EscapeHtml(a + b) == EscapeHtml(a) + EscapeHtml(b)
  {
    ReplaceCharAppend(a, b, '&', "&amp;");
    var a1 := ReplaceChar(a, '&', "&amp;");
    var b1 := ReplaceChar(b, '&', "&amp;");
    ReplaceCharAppend(a1, b1, '<', "&lt;");
    var a2 := ReplaceChar(a1, '<', "&lt;");
    var b2 := ReplaceChar(b1, '<', "&lt;");
    ReplaceCharAppend(a2, b2, '>', "&gt;");
    var a3 := ReplaceChar(a2, '>', "&gt;");
    var b3 := ReplaceChar(b2, '>', "&gt;");
    ReplaceCharAppend(a3, b3, '"', "&quot;");
  }

  /** Because the ampersand is replaced first, the four replacements escape
      each character on its own: no entity is escaped twice. */
  lemma {:induction false} EscapeHtmlEach(s: string)
    ensures EscapeHtml(s) == EscapeEach(s)
    decreases |s|
  {
    if |s| > 0 {
      assert s == [s[0]] + s[1..];
      EscapeHtmlAppend([s[0]], s[1..]);
      EscapeOne(s[0]);
      EscapeHtmlEach(s[1..]);
    }
  }

  /** The entity at the start of `s`, read back: its character and length. */
  function EntityAt(s: string): (r: (char, nat))
    requires |s| > 0
    ensures 1 <= r.1 <= |s|
  {
    if |s| >= 5 && s[..5] == "&amp;" then ('&', 5)
    else if |s| >= 4 && s[..4] == "&lt;" then ('<', 4)
    else if |s| >= 4 && s[..4] == "&gt;" then ('>', 4)
    else if |s| >= 6 && s[..6] == "&quot;" then ('"', 6)
    else (s[0], 1)
  }

  /** HTML decoding of the four entities, left to right. */
  function Unescape(s: string): string
    decreases |s|
  {
    if |s| == 0 then "" else
      var (c, n) := EntityAt(s);
      [c] + Unescape(s[n..])
  }

  /** The text has no raw `<`, `>` or `"`, and every ampersand in it starts
      one of the four entities. */
  predicate SafeHtml(s: string)
  {
    forall k :: 0 <= k < |s| ==>
      && s[k] != '<' && s[k] != '>' && s[k] != '"'
      && (s[k] == '&' ==>
        || (k + 5 <= |s| && s[k..k + 5] == "&amp;")
        || (k + 4 <= |s| && s[k..k + 4] == "&lt;")
        || (k + 4 <= |s| && s[k..k + 4] == "&gt;")
        || (k + 6 <= |s| && s[k..k + 6] == "&quot;"))
  }

  lemma EntityOfEscape(c: char, rest: string)
    ensures EntityAt(EscapeChar(c) + rest) == (c, |EscapeChar(c)|)
  {
    var e := EscapeChar(c);
    var s := e + rest;
    assert s[..|e|] == e;
    assert |s| >= 4 ==> s[..4][0] == s[0] && s[..4][1] == s[1];
    assert |s| >= 5 ==> s[..5][0] == s[0] && s[..5][1] == s[1];
    assert |s| >= 6 ==> s[..6][0] == s[0] && s[..6][1] == s[1];
    if c == '&' {
      assert s[..5] == "&amp;";
    } else if c == '<' {
      assert s[1] == 'l';
      assert s[..4] == "&lt;";
    } else if c == '>' {
      assert s[1] == 'g';
      assert s[..4] == "&gt;";
    } else if c == '"' {
      assert s[1] == 'q';
      assert s[..6] == "&quot;";
    } else {
      assert s[0] == c;
    }
  }

  /** Decoding undoes the escape. */
  lemma {:induction false} UnescapeEscape(s: string)
    ensures Unescape(EscapeHtml(s)) == s
  {
    EscapeHtmlEach(s);
    UnescapeEach(s);
  }

  lemma {:induction false} UnescapeEach(s: string)
    ensures Unescape(EscapeEach(s)) == s
    decreases |s|
  {
    if |s| > 0 {
      var e := EscapeChar(s[0]);
      var rest := EscapeEach(s[1..]);
      EntityOfEscape(s[0], rest);
      assert (e + rest)[|e|..] == rest;
      UnescapeEach(s[1..]);
      assert s == [s[0]] + s[1..];
    }
  }

  /** One escaped character is safe, whatever follows it. */
  lemma SafeOne(c: char, rest: string, k: nat)
    requires k < |EscapeChar(c)|
    ensures var s := EscapeChar(c) + rest;
      && s[k] != '<' && s[k] != '>' && s[k] != '"'
      && (s[k] == '&' ==>
        || (k + 5 <= |s| && s[k..k + 5] == "&amp;")
        || (k + 4 <= |s| && s[k..k + 4] == "&lt;")
        || (k + 4 <= |s| && s[k..k + 4] == "&gt;")
        || (k + 6 <= |s| && s[k..k + 6] == "&quot;"))
  {
    var e := EscapeChar(c);
    var s := e + rest;
    assert s[..|e|] == e;
    if k == 0 && s[k] == '&' {
      if c == '&' { assert s[0..5] == "&amp;"; }
      else if c == '<' { assert s[0..4] == "&lt;"; }
      else if c == '>' { assert s[0..4] == "&gt;"; }
      else { assert s[0..6] == "&quot;"; }
    }
  }

  lemma SafeCons(c: char, rest: string)
    requires SafeHtml(rest)
    ensures SafeHtml(EscapeChar(c) + rest)
  {
    var e := EscapeChar(c);
    var s := e + rest;
    forall k | 0 <= k < |s|
      ensures && s[k] != '<' && s[k] != '>' && s[k] != '"'
        && (s[k] == '&' ==>
          || (k + 5 <= |s| && s[k..k + 5] == "&amp;")
          || (k + 4 <= |s| && s[k..k + 4] == "&lt;")
          || (k + 4 <= |s| && s[k..k + 4] == "&gt;")
          || (k + 6 <= |s| && s[k..k + 6] == "&quot;"))
    {
      if k < |e| {
        SafeOne(c, rest, k);
      } else {
        var q := k - |e|;
        assert s[k] == rest[q];
        assert s[k..] == rest[q..];
      }
    }
  }

  lemma {:induction false} SafeEach(s: string)
    ensures SafeHtml(EscapeEach(s))
    decreases |s|
  {
    if |s| > 0 {
      SafeEach(s[1..]);
      SafeCons(s[0], EscapeEach(s[1..]));
    }
  }

  /** The escaped text is safe to put in HTML. */
  lemma EscapeHtmlSafe(s: string)
    ensures SafeHtml(EscapeHtml(s))
  {
    EscapeHtmlEach(s);
    SafeEach(s);
  }

  // ---------------------------------------------------------------------------
  // split(/\s+/) and countWords (script.js:16-18)

  /** JavaScript's `s.split(/\s+/)`: the pieces between maximal whitespace
      runs, with an empty first or last piece when the text starts or ends
      with whitespace; the empty text gives one empty piece. */
  function SplitWs(s: string): (ps: seq<string>)
    ensures |ps| >= 1
    ensures forall k :: 0 <= k < |ps| ==> NoSpace(ps[k])
    decreases |s|
  {
    var n := RunLen(s);
    if n == |s| then [s] else [s[..n]] + SplitWs(TrimStart(s[n..]))
  }

  /** `.filter(Boolean)`: the non-empty pieces. */
  function NonEmpty(ps: seq<string>): (qs: seq<string>)
    ensures |qs| <= |ps|
    ensures forall k :: 0 <= k < |qs| ==> |qs[k]| > 0
  {
    if |ps| == 0 then [] else (if |ps[0]| > 0 then [ps[0]] else []) + NonEmpty(ps[1..])
  }

  /** `countWords(text)`. */
  function CountWords(text: string): nat
  {
    |NonEmpty(SplitWs(Strip(text)))|
  }

  /** The non-empty pieces of the JavaScript split are Python's words. */
  lemma {:induction false} SplitWsWords(s: string)
    ensures NonEmpty(SplitWs(s)) == Words(s)
    decreases |s|
  {
    var n := RunLen(s);
    if n == |s| {
      if |s| > 0 {
        assert s[..n] == s && s[n..] == "";
      }
    } else {
      var rest := TrimStart(s[n..]);
      SplitWsWords(rest);
      WordsTrimStart(s[n..]);
      var ps := SplitWs(s);
      assert ps[0] == s[..n] && ps[1..] == SplitWs(rest);
      if n == 0 {
        assert s[n..] == s;
      }
    }
  }

  /** `countWords` counts the maximal runs of non-whitespace characters:
      Python's word count of the same text, zero for a blank text. */
  lemma CountWordsIsWords(text: string)
    ensures CountWords(text) == |Words(text)|
    ensures AllSpace(text) ==> CountWords(text) == 0
  {
    SplitWsWords(Strip(text));
    WordsStrip(text);
    if AllSpace(text) {
      WordsOfSpaces(text);
    }
  }

  /** Leading whitespace erases to nothing. */
  lemma {:induction false} EraseTrimStart(t: string)
    ensures Erase(TrimStart(t), IsSpace) == Erase(t, IsSpace)
    decreases |t|
  {
    if |t| > 0 && IsSpace(t[0]) {
      EraseTrimStart(t[1..]);
    }
  }

  /** Erasing the whitespace of a text erases its first whitespace run. */
  lemma EraseFirstRun(s: string, n: nat)
    requires n == RunLen(s) && n < |s|
    ensures Erase(s, IsSpace) == s[..n] + Erase(TrimStart(s[n..]), IsSpace)
  {
    assert s == s[..n] + s[n..];
    EraseAppend(s[..n], s[n..], IsSpace);
    EraseNone(s[..n], IsSpace);
    EraseTrimStart(s[n..]);
  }

  /** Concatenating the pieces gives the text with its whitespace left out:
      the split loses nothing but whitespace. */
  lemma {:induction false} SplitWsPieces(s: string)
    ensures Concat(SplitWs(s)) == Erase(s, IsSpace)
    decreases |s|
  {
    var n := RunLen(s);
    if n == |s| {
      assert s[..n] == s;
      EraseNone(s, IsSpace);
      assert Concat([s]) == s + Concat([]);
    } else {
      SplitWsPieces(TrimStart(s[n..]));
      EraseFirstRun(s, n);
    }
  }

  // ---------------------------------------------------------------------------
  // The gauge (script.js:165-191)

  /** `Math.max(0, Math.min(10, score))`. */
  function Clamp(score: real): (r: real)
    ensures 0.0 <= r <= 10.0
    ensures 0.0 <= score <= 10.0 ==> r == score
    ensures score < 0.0 ==> r == 0.0
    ensures score > 10.0 ==> r == 10.0
  {
    if score < 0.0 then 0.0 else if score > 10.0 then 10.0 else score
  }

  /** The needle angle in degrees: -90 for 0, 90 for 10. */
  function Rotation(score: real): real
  {
    -90.0 + score * 18.0
  }

  datatype Band = Excellent | Good | Warning | Danger

  /** The status band of a clamped score. */
  function BandOf(score: real): Band
  {
    if score <= 2.0 then Excellent
    else if score <= 4.0 then Good
    else if score <= 6.0 then Warning
    else Danger
  }

  /** The status class set on the gauge. */
  function BandClass(b: Band): string
  {
    match b
    case Excellent => "excellent"
    case Good => "good"
    case Warning => "warning"
    case Danger => "danger"
  }

  /** What `updateGauge(score)` shows: the clamped score, the needle angle,
      the band and the percentage of its status text. */
  datatype Gauge = Gauge(score: real, rotation: real, band: Band, percent: real)

  function GaugeOf(score: real): (g: Gauge)
    ensures 0.0 <= g.score <= 10.0
    ensures -90.0 <= g.rotation <= 90.0
    ensures 0.0 <= g.percent <= 100.0
    ensures 0.0 <= score <= 10.0 ==> g.score == score
  {
    var s := Clamp(score);
    Gauge(s, Rotation(s), BandOf(s), s * 10.0)
  }

  /** The needle angle gives the clamped score back, and a higher score never
      turns the needle back. */
  lemma RotationInverse(a: real, b: real)
    ensures (GaugeOf(a).rotation + 90.0) / 18.0 == GaugeOf(a).score
    ensures a <= b ==> GaugeOf(a).rotation <= GaugeOf(b).rotation
  {
  }

  /** The bands split [0, 10] at 2, 4 and 6, each band's upper bound included. */
  lemma BandBounds(score: real)
    ensures var g := GaugeOf(score);
      && (g.band == Excellent <==> g.score <= 2.0)
      && (g.band == Good <==> 2.0 < g.score <= 4.0)
      && (g.band == Warning <==> 4.0 < g.score <= 6.0)
      && (g.band == Danger <==> 6.0 < g.score)
  {
  }

  function BandRank(b: Band): nat
  {
    match b
    case Excellent => 0
    case Good => 1
    case Warning => 2
    case Danger => 3
  }

  /** A higher score never shows a better band. */
  lemma BandMonotone(a: real, b: real)
    requires a <= b
    ensures BandRank(GaugeOf(a).band) <= BandRank(GaugeOf(b).band)
  {
  }
}
