/** `humanize_text_aggressive` and the `/api/humanize` endpoint around it.

    The rewrite runs its stages in the order of the source, each on the
    output of the one before, with the length tier of the INPUT picking the
    rates and switching the long-text stages on. Every random draw is part
    of a `Draws` value. Stage 9 (lines 549-555) finds matches and discards
    them, so it has no effect and no step here. The paragraph stage is the
    only one that can fail; its failure becomes the endpoint's 500 answer.

    Stage 5.5 and the clean-up come in two variants: as written, and with
    lines 454, 480 and 602 corrected. `Humanize`, and so the endpoint, is
    the code as written; `HumanizeCorrected` is the repaired rewrite. The
    lemmas about the rewrite hold for both.

    The endpoint reads the JSON body, answers 400 when it has no text or
    the text is not a string, and otherwise reports the rewritten text with
    its word count, readability, AI score and level, the level taken from
    the word count of the OUTPUT. */
module Pipeline {
  import opened Options
  import opened Text
  import opened Profile
  import opened Substitute
  import opened Markers
  import opened Casual
  import opened LengthVariation
  import opened Typos
  import opened Spacing
  import opened Emphasis
  import opened Cleanup
  import opened Readability
  import opened Scoring

  /** Every random draw of one rewrite, grouped by stage. */
  datatype Draws = Draws(
    formal: (nat, nat) -> nat,
    synonym: (nat, nat) -> real, synonymPick: (nat, nat) -> nat,
    contraction: (nat, nat) -> real,
    question: nat -> nat, answer: nat -> nat,
    casual: CasualDraws,
    length: LengthDraws,
    typo: TypoDraws,
    spacing: SpacingDraws,
    comma: nat -> real,
    overall: nat -> nat, article: nat -> real, articlePick: nat -> nat,
    exclaim: nat -> real,
    paragraph: ParagraphDraws,
    style: StyleDraws)

  /** The tier of a text: from its number of whitespace-separated words. */
  function TierOfText(t: string): Tier
  {
    TierOf(|Words(t)|)
  }

  /** Stages 1 to 8 and stage 10 (lines 302-568), in order, for a text of
      the tier `tier`. Sentence-length variation runs on long texts only;
      `v` picks the stage as written (lines 454 and 480) or with its two
      defects corrected. */
  function Stages(tier: Tier, d: Draws, v: Variant): (fs: seq<string -> string>)
    ensures |fs| == 11
  {
    [ (t: string) => FormalStage(t, d.formal),
      (t: string) => SynonymStage(t, tier, d.synonym, d.synonymPick),
      (t: string) => ContractionStage(t, tier, d.contraction),
      (t: string) => QaStage(t, d.question, d.answer),
      (t: string) => CasualStage(t, tier, d.casual),
      (t: string) => if IsLong(tier) then VaryStage(t, d.length, v) else t,
      (t: string) => TypoStage(t, d.typo),
      (t: string) => SpacingStage(t, d.spacing),
      (t: string) => CommaStage(t, d.comma),
      (t: string) => OverallStage(t, d.overall, d.article, d.articlePick),
      (t: string) => ExclaimStage(t, d.exclaim) ]
  }

  /** The stages `fs` applied one after the other, the first one first. */
  function Compose(fs: seq<string -> string>, t: string): string
    decreases |fs|
  {
    if |fs| == 0 then t else fs[|fs| - 1](Compose(fs[..|fs| - 1], t))
  }

  /** Running two lists of stages one after the other is running their
      concatenation. */
  lemma {:induction false} ComposeAppend(fs: seq<string -> string>, gs: seq<string -> string>, t: string)
    ensures Compose(fs + gs, t) == Compose(gs, Compose(fs, t))
    decreases |gs|
  {
    if |gs| > 0 {
      var hs := fs + gs;
      assert hs[..|hs| - 1] == fs + gs[..|gs| - 1];
      ComposeAppend(fs, gs[..|gs| - 1], t);
    } else {
      assert fs + gs == fs;
    }
  }

  function Rewrite(t: string, tier: Tier, d: Draws, v: Variant): string
  {
    Compose(Stages(tier, d, v), t)
  }

  /** The clean-up of lines 597-604: as written, or with the `\.\.`
      substitution of line 602 corrected to spare an ellipsis. */
  function CleanupOf(t: string, v: Variant): string
  {
    if v == AsWritten then CleanupAsWritten(t) else CleanupStage(t)
  }

  /** Stage 11, stage 12 and the clean-up of stage 13 (lines 570-604). */
  function Finish(p: string, tier: Tier, d: Draws, v: Variant): (r: Result<string>)
    ensures r.Err? <==> ParagraphStage(p, tier, d.paragraph).Err?
  {
    match ParagraphStage(p, tier, d.paragraph)
    case Err(e) => Err(e)
    case Ok(q) => Ok(CleanupOf(StyleStage(q, d.style), v))
  }

  /** The tier of the input, the rewrite and the finish, in the variant `v`. */
  function HumanizeWith(t: string, d: Draws, v: Variant): (r: Result<string>)
  {
    var tier := TierOfText(t);
    Finish(Rewrite(t, tier, d, v), tier, d, v)
  }

  /** `humanize_text_aggressive(text)` as written. */
  function Humanize(t: string, d: Draws): (r: Result<string>)
  {
    HumanizeWith(t, d, AsWritten)
  }

  /** The same with the defects of lines 454, 480 and 602 corrected. */
  function HumanizeCorrected(t: string, d: Draws): (r: Result<string>)
  {
    HumanizeWith(t, d, Corrected)
  }

  /** A text of at most 300 words is never broken into paragraphs, so its
      rewrite cannot fail. */
  lemma FinishShortSucceeds(p: string, tier: Tier, d: Draws, v: Variant)
    requires tier != VeryLong
    ensures Finish(p, tier, d, v) == Ok(CleanupOf(StyleStage(p, d.style), v))
  {
    ParagraphStageEffect(p, tier, d.paragraph);
  }

  /** In either variant, and so for the code as written. */
  lemma HumanizeShortSucceeds(t: string, d: Draws, v: Variant)
    requires |Words(t)| <= 300
    ensures HumanizeWith(t, d, v) == Ok(CleanupOf(StyleStage(Rewrite(t, TierOfText(t), d, v), d.style), v))
  {
    FinishShortSucceeds(Rewrite(t, TierOfText(t), d, v), TierOfText(t), d, v);
  }

  /** The rewrite of a very long text fails exactly when the paragraph stage
      draws a transition for an empty piece it visits. */
  lemma FinishFails(p: string, tier: Tier, d: Draws, v: Variant)
    ensures var ps := SplitOn(p, ". ");
      Finish(p, tier, d, v).Err? <==>
        tier == VeryLong && |ps| > 15 && exists k :: Visited(k, 7, Stride(d.paragraph)) && FailsAt(ps, k, d.paragraph)
  {
    ParagraphStageEffect(p, tier, d.paragraph);
  }

  /** In either variant: the pieces are those of the rewrite in that
      variant, so as written they are the pieces left after line 454 glued
      the sentences of a long text together. */
  lemma HumanizeFails(t: string, d: Draws, v: Variant)
    ensures var ps := SplitOn(Rewrite(t, TierOfText(t), d, v), ". ");
      HumanizeWith(t, d, v).Err? <==>
        |Words(t)| > 300 && |ps| > 15 && exists k :: Visited(k, 7, Stride(d.paragraph)) && FailsAt(ps, k, d.paragraph)
  {
    FinishFails(Rewrite(t, TierOfText(t), d, v), TierOfText(t), d, v);
  }

  /** Whatever the draws, a successful rewrite has no whitespace at either
      end, no run of three whitespace characters and no whitespace before a
      period. */
  /** Both clean-ups leave the text settled. */
  lemma CleanupOfSettled(t: string, v: Variant)
    ensures Settled(CleanupOf(t, v))
  {
    if v == AsWritten {
      CleanupAsWrittenCalm(t);
    } else {
      CleanupCalm(t);
    }
  }

  lemma FinishCalm(p: string, tier: Tier, d: Draws, v: Variant)
    ensures Finish(p, tier, d, v).Ok? ==> Settled(Finish(p, tier, d, v).value)
  {
    if ParagraphStage(p, tier, d.paragraph).Ok? {
      var q := StyleStage(ParagraphStage(p, tier, d.paragraph).value, d.style);
      CleanupOfSettled(q, v);
      assert Finish(p, tier, d, v).value == CleanupOf(q, v);
    }
  }

  /** In either variant, and so for the code as written. */
  lemma HumanizeCalm(t: string, d: Draws, v: Variant)
    ensures HumanizeWith(t, d, v).Ok? ==>
      var r := HumanizeWith(t, d, v).value;
      && (|r| > 0 ==> !IsSpace(r[0]) && !IsSpace(r[|r| - 1]))
      && Calm(r, true)
  {
    FinishCalm(Rewrite(t, TierOfText(t), d, v), TierOfText(t), d, v);
  }

  // ---------------------------------------------------------------------------
  // Decimal numbers in the explanation

  function DigitChar(n: nat): (c: char)
    requires n < 10
    ensures IsDigit(c)
  {
    ('0' as int + n) as char
  }

  /** `str(n)` for a non-negative integer. */
  function Decimal(n: nat): (s: string)
    ensures |s| > 0
    ensures forall k :: 0 <= k < |s| ==> IsDigit(s[k])
    decreases n
  {
    if n < 10 then [DigitChar(n)] else Decimal(n / 10) + [DigitChar(n % 10)]
  }

  function DigitOf(c: char): (n: nat)
    requires IsDigit(c)
    ensures n < 10 && DigitChar(n) == c
  {
    c as int - '0' as int
  }

  /** The value of a string of digits. */
  function DigitsValue(s: string): nat
    requires forall k :: 0 <= k < |s| ==> IsDigit(s[k])
    decreases |s|
  {
    if |s| == 0 then 0 else 10 * DigitsValue(s[..|s| - 1]) + DigitOf(s[|s| - 1])
  }

  /** Reading the digits back gives the number, and only zero has a
      leading zero. */
  lemma {:induction false} DecimalRoundTrip(n: nat)
    ensures DigitsValue(Decimal(n)) == n
    ensures Decimal(n)[0] == '0' <==> n == 0
    decreases n
  {
    var s := Decimal(n);
    if n >= 10 {
      DecimalRoundTrip(n / 10);
      assert s[..|s| - 1] == Decimal(n / 10);
      assert s[0] == Decimal(n / 10)[0];
    }
  }

  /** Distinct numbers are written differently. */
  lemma DecimalInjective(a: nat, b: nat)
    requires Decimal(a) == Decimal(b)
    ensures a == b
  {
    DecimalRoundTrip(a);
    DecimalRoundTrip(b);
  }

  // ---------------------------------------------------------------------------
  // The endpoint

  /** A JSON value as `request.get_json()` hands it over: a number without
      a fraction or an exponent becomes a Python `int`, any other a `float`. */
  datatype Json =
    | Null
    | Bool(b: bool)
    | Int(i: int)
    | Float(x: real)
    | Str(s: string)
    | Array(items: seq<Json>)
    | Object(fields: map<string, Json>)

  /** The request body: JSON, or something `get_json` refuses with an
      exception carrying `reason`. */
  datatype Body = Parsed(json: Json) | Unreadable(reason: string)

  /** `not data`: the values Python takes as false. */
  predicate Falsy(j: Json)
  {
    match j
    case Null => true
    case Bool(b) => !b
    case Int(i) => i == 0
    case Float(x) => x == 0.0
    case Str(s) => |s| == 0
    case Array(items) => |items| == 0
    case Object(fields) => |fields| == 0
  }

  /** The exception message of `'text' in data` when `data` is a number or a
      boolean, which Python cannot search. */
  function NotIterable(j: Json): string
  {
    match j
    case Bool(_) => "argument of type 'bool' is not iterable"
    case Int(_) => "argument of type 'int' is not iterable"
    case _ => "argument of type 'float' is not iterable"
  }

  /** `'text' in data`: a key of an object, an element of an array, a
      substring of a string; an error for anything else. */
  function HasText(j: Json): (r: Result<bool>)
    requires !Falsy(j)
  {
    match j
    case Object(fields) => Ok("text" in fields)
    case Array(items) => Ok(Str("text") in items)
    case Str(s) => Ok(FindFrom(s, "text", 0).Some?)
    case _ => Err(NotIterable(j))
  }

  /** `data['text']`, once `'text' in data` has held: an object's value, an
      error for an array or a string. */
  function TextOf(j: Json): (r: Result<Json>)
    requires !Falsy(j) && HasText(j) == Ok(true)
    ensures r.Ok? <==> j.Object?
  {
    match j
    case Object(fields) => Ok(fields["text"])
    case Array(_) => Err("list indices must be integers or slices, not str")
    case Str(_) => Err("string indices must be integers")
  }

  /** What the endpoint answers with. */
  datatype Reply =
    | Failure(error: string, message: Option<string>)
    | Humanized(
        humanizedText: string, aiScore: int, explanation: string, wordCount: nat,
        readabilityScore: real, modelUsed: string, aiAssisted: bool)

  datatype Response = Response(status: nat, reply: Reply)

  function Explanation(wordCount: nat, tier: Tier, aiScore: nat): string
  {
    "Smart humanization (" + Decimal(wordCount) + Detail(tier, aiScore)
  }

  function Detail(tier: Tier, aiScore: nat): string
  {
    " words, " + Level(tier) + "): " + Variations(tier)
      + ". AI Detection: " + Decimal(aiScore) + "/10 (" + Decimal(aiScore * 10) + "% likely AI-generated)."
  }

  /** Lines 620-644: the success reply for the rewritten text `h`. */
  function Report(h: string): (r: Reply)
    ensures r.Humanized? && r.humanizedText == h && !r.aiAssisted
    ensures r.wordCount == |Words(h)| && 0 <= r.aiScore <= 10
    ensures r.readabilityScore < 206.835
  {
    var wc := |Words(h)|;
    var tier := TierOf(wc);
    var ai := AiScore(h);
    Humanized(h, ai, Explanation(wc, tier, ai), wc, FleschReadingEase(h), ModelUsed(tier), false)
  }

  function InternalError(message: string): Response
  {
    Response(500, Failure("internal_error", Some(message)))
  }

  /** `humanize()` of lines 606-648, for the rewrite `rewrite` it calls. */
  function Respond(body: Body, rewrite: string -> Result<string>): (r: Response)
    ensures r.status in {200, 400, 500}
    ensures r.status == 200 <==> r.reply.Humanized?
  {
    match body
    case Unreadable(reason) => InternalError(reason)
    case Parsed(data) =>
      if Falsy(data) then Response(400, Failure("text required", None))
      else
        match HasText(data)
        case Err(e) => InternalError(e)
        case Ok(false) => Response(400, Failure("text required", None))
        case Ok(true) =>
          match TextOf(data)
          case Err(e) => InternalError(e)
          case Ok(Str(s)) =>
            (match rewrite(s)
             case Err(e) => InternalError(e)
             case Ok(h) => Response(200, Report(h)))
          case Ok(_) => Response(400, Failure("text must be a string", None))
  }

  /** The endpoint with the humanizer's draws. */
  function Endpoint(body: Body, d: Draws): Response
  {
    Respond(body, (s: string) => Humanize(s, d))
  }

  /** A JSON object whose `text` field is a string. */
  predicate WellFormed(body: Body)
  {
    body.Parsed? && body.json.Object? && "text" in body.json.fields && body.json.fields["text"].Str?
  }

  /** The endpoint succeeds exactly for a JSON object with a string `text`
      whose rewrite succeeds, and then reports that rewrite. */
  lemma RespondSucceeds(body: Body, rewrite: string -> Result<string>)
    ensures Respond(body, rewrite).status == 200 <==>
      WellFormed(body) && rewrite(body.json.fields["text"].s).Ok?
    ensures WellFormed(body) && rewrite(body.json.fields["text"].s).Ok? ==>
      Respond(body, rewrite).reply == Report(rewrite(body.json.fields["text"].s).value)
  {
    if WellFormed(body) {
      var fields := body.json.fields;
      assert "text" in fields.Keys;
      assert !Falsy(body.json);
      assert HasText(body.json) == Ok(true);
      assert TextOf(body.json) == Ok(Str(fields["text"].s));
    }
  }

  /** The body lacks a text: it is empty or false, or `'text' in data` is
      false. */
  predicate Lacks(j: Json)
  {
    || Falsy(j)
    || (j.Object? && "text" !in j.fields)
    || (j.Array? && Str("text") !in j.items)
    || (j.Str? && FindFrom(j.s, "text", 0).None?)
  }

  /** A body without a text gets "text required", an object whose text is
      not a string "text must be a string"; nothing else gets a 400. */
  lemma RespondRejects(body: Body, rewrite: string -> Result<string>)
    ensures Respond(body, rewrite).status == 400 <==>
      (body.Parsed? && (Lacks(body.json) || (body.json.Object? && "text" in body.json.fields && !body.json.fields["text"].Str?)))
    ensures Respond(body, rewrite).status == 400 ==>
      Respond(body, rewrite).reply.error == (if Lacks(body.json) then "text required" else "text must be a string")
  {
  }

  /** Everything else is a 500 carrying the exception's message: an
      unreadable body, a number, a boolean, an array or a string that holds
      "text", or a rewrite that fails. */
  lemma RespondFails(body: Body, rewrite: string -> Result<string>)
    ensures Respond(body, rewrite).status == 500 <==>
      || body.Unreadable?
      || (!Lacks(body.json) && (body.json.Int? || body.json.Float? || body.json.Bool? || body.json.Array? || body.json.Str?))
      || (WellFormed(body) && rewrite(body.json.fields["text"].s).Err?)
    ensures WellFormed(body) && rewrite(body.json.fields["text"].s).Err? ==>
      Respond(body, rewrite) == InternalError(rewrite(body.json.fields["text"].s).message)
  {
  }

  /** A string of 300 words or fewer always gets a 200. */
  lemma EndpointShortText(s: string, d: Draws)
    requires |Words(s)| <= 300
    ensures Endpoint(Parsed(Object(map["text" := Str(s)])), d).status == 200
  {
    var body := Parsed(Object(map["text" := Str(s)]));
    var rewrite := (s: string) => Humanize(s, d);
    HumanizeShortSucceeds(s, d, AsWritten);
    assert rewrite(s).Ok?;
    assert WellFormed(body) && body.json.fields["text"].s == s;
    RespondSucceeds(body, rewrite);
  }

  /** The level in the model name is the tier of the reported word count,
      and it can be read back from the name. */
  lemma ReportLevel(h: string)
    ensures var r := Report(h);
      && r.modelUsed[..|ModelPrefix|] == ModelPrefix
      && TierOfLevel(r.modelUsed[|ModelPrefix|..]) == TierOf(r.wordCount)
      && (r.modelUsed[|ModelPrefix|..] == "very-long" <==> r.wordCount > 300)
      && (r.modelUsed[|ModelPrefix|..] == "short" <==> r.wordCount <= 100)
  {
    LevelRoundTrip(TierOf(|Words(h)|));
  }

  /** The explanation starts with the word count, written in decimal. */
  lemma ExplanationCount(wordCount: nat, tier: Tier, aiScore: nat)
    ensures var e := Explanation(wordCount, tier, aiScore);
      var n := |Decimal(wordCount)|;
      && |e| > 20 + n
      && e[..20] == "Smart humanization ("
      && DigitsValue(e[20..20 + n]) == wordCount
  {
    var a := "Smart humanization (";
    var b := Decimal(wordCount);
    var c := Detail(tier, aiScore);
    var e := a + b + c;
    assert |a| == 20;
    assert e[..20] == a;
    assert e[20..20 + |b|] == b;
    DecimalRoundTrip(wordCount);
  }
}
