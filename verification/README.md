# AI humanizer: a verified model of the analyser, the rewriter and the diff view

The system is a small web tool that "humanizes" text. It has two parts.

The Python server (`server.py`) does three things:

- It scores how machine-like a text looks. `calculate_ai_score` adds banded signals into a confidence value and maps it to a score from 0 to 10.
- It computes a Flesch reading-ease value, using a syllable counter.
- It rewrites the text through thirteen randomised stages. These substitute phrases, synonyms and contractions, vary Q/A markers, add casual words, split or merge sentences, add typos, spacing slips and exclamations, add paragraph breaks, add stylistic punctuation and finally clean up.

The `/api/humanize` endpoint wraps the rewriter and reports the output's metrics.

The browser script (`script.js`) counts words and escapes HTML. It draws a gauge for the score. It also shows a word-level diff of the original and the rewritten text, computed with a longest-common-subsequence table.

The model is written in Dafny as pure functions over `seq<char>` and `seq<string>`.

- Every draw of Python's `random` module is an explicit parameter:
  - `random.random()` is a function from the draw's ordinal to a real;
  - `random.choice` and `random.randint` take a natural number reduced modulo the number of alternatives.
  
  The properties hold for all draws.
- Python's `re` operations are modelled by one left-to-right matcher (`Regex`). `re.sub`, `re.findall`, `re.split` and `finditer` are built on it.
- The modules follow the source:

| module | models |
|---|---|
| `Text` | whitespace splitting, strip, ASCII case folding |
| `Regex` | the matcher and `re.sub` |
| `Segments` | sentence splitting |
| `Syllables`, `Readability` | `count_syllables`, `flesch_reading_ease` |
| `Features`, `Scoring` | `calculate_ai_score` |
| `Profile` | the length tiers and rates |
| `Substitute` | stages 1-3 |
| `Markers` | stage 4 and the "Overall"/"the article" step |
| `Casual` | stage 5 |
| `LengthVariation` | stage 5.5 |
| `Typos` | stage 6 |
| `Spacing` | stages 7-8 |
| `Emphasis` | exclamations, stages 11-12 |
| `Cleanup` | stage 13 |
| `Pipeline` | the whole rewrite and the endpoint |
| `Display` | `escapeHtml`, `countWords` and the gauge |
| `Diff` | `computeVisualDiff` |

Stage 9 (server.py:549-555) collects matches and discards them. It is the identity, and the pipeline has no step for it.

Three lines of the rewriter do something other than what was evidently intended (see "## Findings"): server.py:454, 480 and 602. The stages they belong to take a `Variant`. `AsWritten` follows the code as it is; `Corrected` repairs those three lines. `Pipeline.Humanize`, and through it `Pipeline.Endpoint`, runs the stages as written. `Pipeline.HumanizeCorrected` runs the repaired ones. The pipeline lemmas take the variant as a parameter, so each holds for both.

## Model

| member | source | states |
|---|---|---|
| Text.WordsStrip | server.py:40 | `text.strip().split()` gives the same words as `text.split()` |
| Text.StripEmpty | server.py:40-41 | the stripped text is empty exactly when the text is all whitespace |
| Text.WordsOfJoin | server.py:531 | joining tokens with single spaces and splitting again gives the same tokens back |
| Text.JoinSplitOn | server.py:540-544 | `'. '.join(text.split('. '))` is the original text |
| Profile.TierOf | server.py:278-280 | the tier is very long exactly when there are more than 300 words, and short exactly when there are at most 100 |
| Profile.VeryLongIsLong | server.py:279-280 | a very long text is also long, and a text is long exactly when it has more than 100 words |
| Profile.TierMonotone | server.py:278-280 | more words never give a lower tier |
| Profile.RatesOf | server.py:283-300 | every rate lies in [0, 1], with starter <= filler <= casual < synonym < contraction |
| Profile.RatesMonotone | server.py:283-300 | each rate is non-decreasing from short to long to very long |
| Profile.GateMonotone | server.py:377 | a draw that passes a lower rate passes a higher one, and a rate of 0 never passes |
| Profile.Choose | server.py:322 | `random.choice` returns a member of a non-empty list |
| Profile.RandInt | server.py:424 | `random.randint(a, b)` lies in [a, b] |
| Profile.LevelRoundTrip | server.py:626-635 | the level label of a tier reads back as that tier |
| Profile.ModelUsed | server.py:642 | the model name is `python-smart-` followed by the level label |
| Profile.ModelUsedInjective | server.py:642 | different tiers give different model names |
| Syllables.Letters | server.py:31-32 | the letters kept are lower-case ASCII letters and are no more than the word's characters |
| Syllables.LettersEmpty | server.py:31-34 | nothing is kept exactly when the word has no ASCII letter |
| Syllables.VowelGroupsAreRunStarts | server.py:35 | `findall('[aeiouy]+')` counts the starts of maximal vowel runs |
| Syllables.VowelGroupsBounds | server.py:35 | there are at most as many vowel groups as letters, and at least one when there is a vowel |
| Syllables.CountSyllables | server.py:29-36 | 0 exactly when the word has no ASCII letter, and never more than its letters |
| Syllables.SyllablesCountRunStarts | server.py:35-36 | for a word with a letter, the count is the number of vowel runs, floored at 1 |
| Segments.SplitKeep | server.py:415 | a split that keeps delimiters alternates text without enders and non-empty runs of `.!?` |
| Segments.SplitKeepConcat | server.py:415 | the pieces of the split concatenate back to the text |
| Segments.SplitKeepOfConcat | server.py:445 | splitting the join of an alternating piece list gives that list back |
| Segments.RewriteTexts | server.py:418-445 | rewriting only text pieces, keeping them free of enders and non-empty, keeps the delimiters in place |
| Segments.Sentences | server.py:42 | every sentence is stripped, has no ender and has at least one word |
| Segments.SentencesOfBlank | server.py:42 | a blank text has no sentences |
| Readability.CountsOf | server.py:40-45 | word, sentence and syllable counts are each at least 1, and equal the real counts when those are positive |
| Readability.FleschReadingEase | server.py:47 | the score is below 206.835 |
| Readability.FleschOfBlank | server.py:40-47 | a blank text scores 206.835 - 1.015 - 84.6 = 121.22 |
| Readability.EaseSyllablesAntitone | server.py:47 | more syllables never raise the score |
| Features.LongWords | server.py:235-236 | the kept words are longer than three letters, and there are no more of them than words |
| Features.Extract | server.py:59-250 | the feature record counts the words of `split()`, the exclamation marks, and sentence lengths of at least one word |
| Scoring.MeanAtLeastOne | server.py:68 | the mean sentence length is at least 1, so the coefficient of variation is defined |
| Scoring.CvTest | server.py:70-74 | `sd / avg < t` holds exactly when `variance < (t * avg)^2`, and likewise for `>` |
| Scoring.UniformityIsCvBand | server.py:67-85 | the square-free band equals the band of the square-root coefficient of variation |
| Scoring.Uniformity | server.py:67-85 | the delta is 0 for at most two sentences and lies in [-25, 35] |
| Scoring.Flow | server.py:89-100 | the delta is 0 for at most three sentences and lies in [-15, 20] |
| Scoring.ContractionSignal | server.py:108-119 | the delta lies in [-20, 30] and is positive when there is no contraction |
| Scoring.StarterSignal | server.py:148-157 | the delta is 0 for at most three first words and lies in [-15, 25] |
| Scoring.TransitionSignal | server.py:165-172 | the delta lies in [0, 25] and is 0 without transitions |
| Scoring.Imperfections | server.py:175-197 | the score bounds each weighted count from above, and is 0 exactly when all four counts are 0 |
| Scoring.CasualSignal | server.py:207-214 | the delta lies in [-20, 10] and is positive only without casual words in more than 50 words |
| Scoring.PunctuationPoints | server.py:218-225 | the points are at most 38 |
| Scoring.PunctuationSignal | server.py:227-231 | the delta is positive exactly when only periods are used in more than three sentences |
| Scoring.RepetitionSignal | server.py:238-247 | the delta is 0 for at most ten long words and lies in [-12, 18] |
| Scoring.ExclamationSignal | server.py:250-256 | the delta lies in [-8, 12] and is negative exactly for one to three exclamation marks |
| Scoring.Confidence | server.py:57-199 | the confidence lies between -153 minus the imperfections and 190 plus 15 per red flag |
| Scoring.RedFlagsAddFifteen | server.py:133-138 | n more red-flag matches raise the confidence by exactly 15n |
| Scoring.ImperfectionsSubtract | server.py:175-199 | more typos, double spaces, missing commas or glued periods lower the confidence by 8, 5, 6 and 7 each |
| Scoring.Percentage | server.py:263-264 | the percentage is clamped to [0, 100] |
| Scoring.RoundHalfEven | server.py:267 | `round` gives an integer within 1/2 of its argument, and an even one on a tie |
| Scoring.RoundNearest | server.py:267 | a value closer than 1/2 to an integer rounds to it |
| Scoring.RoundMonotone | server.py:267 | rounding is monotone |
| Scoring.Score | server.py:263-267 | the displayed score lies in [0, 10] |
| Scoring.ScoreMonotone | server.py:263-267 | a higher confidence never gives a lower score |
| Scoring.ScoreTies | server.py:263-267 | the ties round to even: confidence -90 gives 0 and -70 gives 2, and 90 gives 10 |
| Scoring.ScoreExtremes | server.py:263-267 | the score is 10 exactly from confidence 90 up, and 0 exactly from -90 down |
| Scoring.AiScore | server.py:50-269 | `calculate_ai_score` returns an integer in [0, 10] for every text |
| Scoring.AiScoreRedFlagsMonotone | server.py:133-138 | with the other features fixed, more red flags never lower the score |
| Scoring.AiScoreImperfectionsAntitone | server.py:175-199 | with the other features fixed, more imperfections never raise the score |
| Regex.FindAll | server.py:375 | the matches are ordered, non-overlapping, non-empty and inside the text |
| Regex.SubIsSplice | server.py:322 | a left-to-right `re.sub` equals splicing the replacement of each successive match into the text |
| Regex.SpliceBackwardsIsSplice | server.py:375-383 | splicing the matches in reverse order, as the synonym loop does, gives the same text as splicing them forwards |
| Regex.MatchesFirst | server.py:432 | with `count=1` only the first match is replaced |
| Regex.SubNoMatch | server.py:406 | a substitution without a match leaves the text unchanged |
| Substitute.FormalStage | server.py:302-322 | stage 1, with nothing to correct: each formal phrase of the table, in order, replaced at every whole-word, case-insensitive match by a drawn alternative. It has no contract of its own; Substitute.PhraseStepIsSplice and Substitute.FormalStageShortens state its properties |
| Substitute.SynonymStage | server.py:324-383 | stage 2, with nothing to correct: each table word, in order, replaced at every match whose draw passes the tier's synonym rate, keeping the first letter's case. It has no contract of its own; Substitute.SynonymStepIsSplice, Substitute.SynonymKeepsCase and Substitute.ReplaceSynonymsClosed state its properties |
| Substitute.ContractionStage | server.py:385-399 | stage 3, with nothing to correct: each phrase, in order, contracted at every match whose draw passes the tier's contraction rate. It has no contract of its own; Substitute.ContractionStepLength and Substitute.ContractionStageShortens state its properties |
| Substitute.FormalPhrasesShorten | server.py:303-318 | no alternative of a formal phrase is longer than the phrase |
| Substitute.PhraseStepIsSplice | server.py:320-322 | each phrase step replaces every whole-word, case-insensitive match by the chosen alternative |
| Substitute.ReplacePhrasesAbsent | server.py:320-322 | a text containing none of the phrases is unchanged |
| Substitute.FormalStageShortens | server.py:320-322 | stage 1 never lengthens the text |
| Substitute.CaseLikeFirst | server.py:380-382 | the replacement starts with a capital exactly when the replaced word did |
| Substitute.SynonymEdits | server.py:377 | a match is replaced exactly when its draw passes the synonym rate |
| Substitute.SynonymStepIsSplice | server.py:374-383 | the reverse-order replacement loop splices the gated, case-adjusted choices into the matches |
| Substitute.SynonymKeepsCase | server.py:377-383 | each replaced synonym keeps the capitalisation of the word it replaces |
| Substitute.ReplaceSynonymsClosed | server.py:373-383 | when no draw passes the rate the text is unchanged |
| Substitute.ContractionsContract | server.py:386-392 | every contraction is shorter than the phrase it replaces |
| Substitute.ContractionStepLength | server.py:394-399 | a contraction step never lengthens the text, and shortens it when a match is contracted |
| Substitute.ContractionStepClosed | server.py:397-399 | when no draw passes the rate the text is unchanged |
| Substitute.ContractionStageShortens | server.py:394-399 | stage 3 never lengthens the text |
| Markers.QaStage | server.py:401-412 | stage 4, with nothing to correct: the `Q:` markers and then the `A:` markers replaced by drawn forms. It has no contract of its own; Markers.MarkerStepIsSplice and Markers.MarkerStepAbsent state its properties |
| Markers.OverallStage | server.py:557-560 | stage 10, with nothing to correct: the leading "Overall," replaced, then "the article" where its draw exceeds 0.5. It has no contract of its own; Markers.OverallStepIsSplice, Markers.ArticleStepIsSplice and Markers.ArticleStepKeeps state its properties |
| Markers.MarkerStepIsSplice | server.py:402-412 | every `Q:`/`A:` marker with its trailing whitespace becomes a chosen form followed by one space |
| Markers.MarkerStepAbsent | server.py:406 | a text without markers is unchanged |
| Markers.OverallStepIsSplice | server.py:559 | every leading "Overall," with its whitespace becomes a chosen opener |
| Markers.ArticleStepIsSplice | server.py:560 | "the article" is replaced exactly where its draw exceeds 0.5, and kept as matched elsewhere |
| Markers.ArticleStepKeeps | server.py:560 | when no draw exceeds 0.5 the text is unchanged |
| Casual.CasualStage | server.py:414-445 | stage 5, with nothing to correct: every sentence piece between delimiters rewritten on its own. It has no contract of its own; Casual.CasualPartShape and Casual.CasualStageKeepsDelimiters state its properties |
| Casual.FillerPosition | server.py:424 | the filler goes in at word position 1 or 2 |
| Casual.InsertWordWords | server.py:423-426 | inserting a token puts it into the word list at the chosen position and moves nothing else |
| Casual.AddFillerWords | server.py:421-426 | the filler word with its comma is inserted at position 1 or 2 of the sentence's words |
| Casual.IntensifyIsInsert | server.py:431-432 | the intensifier and a space go in front of the first adjective match only |
| Casual.CasualPartShape | server.py:418-441 | a rewritten sentence has no ender and is non-empty when the original was |
| Casual.CasualStageKeepsDelimiters | server.py:415-445 | splitting the output again gives the rewritten pieces, and every delimiter run is unchanged |
| LengthVariation.VaryStage | server.py:447-498 | stage 5.5 in the variant it is given: as written (lines 454 and 480 as they are) in Pipeline.Humanize, corrected in Pipeline.HumanizeCorrected. It has no contract of its own; LengthVariation.VaryStep, LengthVariation.VaryQuiet, LengthVariation.QuietLosesSpace and LengthVariation.MergeDropsSentence state its properties |
| LengthVariation.SplitPoint | server.py:460-461 | the split point is the first conjunction from word 10 on that leaves more than ten words after it |
| LengthVariation.SplitDropsConjunction | server.py:460-467 | the two halves hold exactly the sentence's words with the conjunction taken out |
| LengthVariation.SplitTail | server.py:467 | the second half starts with a space and its first letter upper-cased, and keeps the rest |
| LengthVariation.Merge | server.py:476-480 | corrected, the merged sentence is the first sentence, the connector, a space and the next sentence with a lower-cased first letter |
| LengthVariation.MergeDropsSentence | server.py:480 | as written, merging with a one-character sentence emits only that character |
| LengthVariation.VaryStep | server.py:452-496 | each step of the loop advances by one to four pieces |
| LengthVariation.QuietPart | server.py:454 | corrected, a sentence left alone loses only trailing whitespace |
| LengthVariation.QuietLosesSpace | server.py:454 | as written, a sentence left alone also loses the space after the previous delimiter |
| LengthVariation.VaryQuiet | server.py:448-498 | when no split or merge draw fires, each text piece is only stripped and delimiters are kept |
| Typos.TypoStage | server.py:500-531 | stage 6, with nothing to correct: the words of `split()`, each possibly misspelt, joined with single spaces. It has no contract of its own; Typos.TypoStageWords states its property |
| Typos.DoubleLetterUndo | server.py:512-515 | doubling a letter adds one character, and dropping it again restores the word |
| Typos.SwapLettersUndo | server.py:516-519 | swapping keeps the length and the letter multiset, and swapping again restores the word |
| Typos.DropLetterEnds | server.py:520-523 | dropping an inner letter removes one character and keeps the first and last |
| Typos.MisspellEffect | server.py:510-523 | a double adds one letter, a swap permutes the letters, and a drop applies only above three letters, keeping both ends |
| Typos.MisspellChars | server.py:510-523 | a misspelling uses only letters of the word |
| Typos.RecapitalizeCase | server.py:526-527 | the first letter is upper-cased exactly when the word began with a capital, and nothing else changes |
| Typos.ReplaceFirstRunToken | server.py:529 | replacing the first letter run keeps the word a single token |
| Typos.TypoWordToken | server.py:503-529 | a word stays one token after a typo |
| Typos.TypoStageWords | server.py:501-531 | stage 6 keeps the number of words, and each output word is the typo of the input word at its position |
| Spacing.SpacingStage | server.py:533-544 | stage 7, with nothing to correct: the missing-space step and then the double-space step. It has no contract of its own; Spacing.SpacingStageKeeps states its property |
| Spacing.CommaStage | server.py:546-547 | stage 8, with nothing to correct: `re.sub` of every comma with its whitespace. It has no contract of its own; Spacing.CommaStageIsSplice and the CommaStage lemmas below state its properties |
| Spacing.MissingSpaceKeeps | server.py:534-536 | removing the space after a period changes only whitespace |
| Spacing.DoubleSpaceKeeps | server.py:539-544 | doubling a space changes only whitespace, adds at most one character, and does nothing with two or fewer pieces |
| Spacing.SpacingStageKeeps | server.py:533-544 | stage 7 changes only whitespace |
| Spacing.CommaStageIsSplice | server.py:547 | each comma with its whitespace becomes a lone space when its draw exceeds 0.82, and `", "` otherwise |
| Spacing.CommaStageKeeps | server.py:547 | stage 8 changes only commas and whitespace |
| Spacing.CommaStageCommas | server.py:547 | stage 8 never adds a comma |
| Spacing.CommaStageKeepsCommas | server.py:547 | when no draw exceeds 0.82 every comma is kept |
| Spacing.CommaStageSpaces | server.py:547 | stage 8 never adds a non-space character |
| Emphasis.ExclaimStage | server.py:562-568 | the exclamation step, with nothing to correct: the `'. '` pieces, some given a `!`, joined again. It has no contract of its own; Emphasis.ExclaimStageEffect states its properties |
| Emphasis.ParagraphStage | server.py:570-586 | stage 11, with nothing to correct, including its IndexError. It has no contract of its own; Emphasis.ParagraphStageEffect states its properties |
| Emphasis.StyleStage | server.py:588-595 | stage 12, with nothing to correct: the ellipsis step and then the dash step. It has no contract of its own; Emphasis.EllipsisStepEffect and Emphasis.DashStepEffect state its properties |
| Emphasis.ExclaimPieces | server.py:564-567 | a piece gets a `!` exactly when its draw passes, it is longer than 20 characters, does not end in `!` or `?`, and is not the last piece |
| Emphasis.ExclaimStageEffect | server.py:563-568 | only exclamation marks are added, the last piece never gets one, and short pieces are untouched |
| Emphasis.ExclaimSingle | server.py:563-568 | a text without `'. '` is unchanged |
| Emphasis.Stride | server.py:576 | the paragraph stride lies in [5, 8] |
| Emphasis.LowerFirst | server.py:582 | lower-casing the first character fails exactly on an empty sentence, and otherwise changes only that character's case |
| Emphasis.BreakFromErr | server.py:576-584 | the loop fails exactly when a visited sentence is empty and its draw asks for a transition |
| Emphasis.BreakFromPieces | server.py:576-584 | the loop changes exactly the visited sentences, each by its break |
| Emphasis.BreakShape | server.py:581-584 | a broken sentence starts with a blank line, then either the sentence or a transition, a comma and the sentence with its first letter lowered |
| Emphasis.ParagraphStageEffect | server.py:571-586 | stage 11 acts only on very long texts with more than 15 pieces, fails exactly on the IndexError case, and starts the break at piece 7 |
| Emphasis.EllipsisStepEffect | server.py:590-591 | the ellipsis step changes only periods, and nothing when its draw does not pass |
| Emphasis.DashStepEffect | server.py:594-595 | the dash step keeps the length, changes only dashes, and nothing when no draw passes |
| Cleanup.CleanupAsWritten | server.py:597-604 | stage 13 as written, line 602 included; Pipeline.Humanize uses it. It has no contract of its own; Cleanup.CleanupAsWrittenCalm, Cleanup.CleanupKeeps and Cleanup.EllipsisShortened state its properties |
| Cleanup.CleanupStage | server.py:597-604 | corrected, stage 13 with line 602 sparing an ellipsis; Pipeline.HumanizeCorrected uses it. It has no contract of its own; Cleanup.CleanupCalm, Cleanup.CleanupKeeps and Cleanup.EllipsisKept state its properties |
| Cleanup.CapSpacesCalm | server.py:598 | after the first substitution no whitespace run is longer than two |
| Cleanup.TidyCalm | server.py:598-601 | after the first four substitutions no whitespace run exceeds two and no whitespace precedes a period |
| Cleanup.StripCalm | server.py:604 | stripping keeps that shape |
| Cleanup.CleanupCalm | server.py:598-604 | corrected, the clean-up output has no edge whitespace, no run of three whitespace characters and no whitespace before a period |
| Cleanup.CleanupAsWrittenCalm | server.py:598-604 | the same holds for the clean-up as written |
| Cleanup.CleanupKeeps | server.py:598-604 | the clean-up changes nothing but whitespace and periods, in both versions |
| Cleanup.EllipsisShortened | server.py:602 | as written, an ellipsis comes out as two periods |
| Cleanup.EllipsisKept | server.py:602 | corrected, an ellipsis is kept |
| Cleanup.LonePairCollapsed | server.py:602 | corrected, a lone pair of periods still collapses to one |
| Pipeline.Stages | server.py:302-568 | stages 1 to 8 and 10 in source order, eleven steps, with stage 5.5 in the given variant and only for long texts. Its contract gives only the number of steps; Pipeline.ComposeAppend and the Humanize lemmas state the rest |
| Pipeline.Rewrite | server.py:302-568 | the stages run in turn, each on the output of the one before. It has no contract of its own; Pipeline.ComposeAppend and the Humanize lemmas state its properties |
| Pipeline.Humanize | server.py:271-604 | `humanize_text_aggressive` as written: the AsWritten stages and clean-up. It has no contract of its own; Pipeline.HumanizeShortSucceeds, Pipeline.HumanizeFails and Pipeline.HumanizeCalm state its properties, with the variant AsWritten |
| Pipeline.HumanizeCorrected | server.py:271-604 | corrected, the same rewrite with lines 454, 480 and 602 repaired. It has no contract of its own; the Humanize lemmas state its properties, with the variant Corrected |
| Pipeline.ComposeAppend | server.py:302-568 | running two stage lists in sequence is running their concatenation |
| Pipeline.Finish | server.py:570-604 | in either variant, the tail of the rewrite fails exactly when the paragraph stage fails |
| Pipeline.HumanizeShortSucceeds | server.py:271-604 | in either variant, so also as written, a text of at most 300 words is always rewritten, and the result is that variant's clean-up of the style stage applied to that variant's rewrite |
| Pipeline.HumanizeFails | server.py:571-586 | in either variant, so also as written, the rewrite fails exactly for more than 300 words, more than 15 `'. '` pieces of that variant's rewrite, and an empty visited piece whose draw asks for a transition |
| Pipeline.CleanupOfSettled | server.py:597-604 | the clean-up as written and the corrected one both leave no edge whitespace, no triple whitespace and no space before a period |
| Pipeline.HumanizeCalm | server.py:597-604 | in either variant, so also as written, every rewritten text has no edge whitespace, no triple whitespace and no space before a period |
| Pipeline.DecimalRoundTrip | server.py:639 | the decimal digits of the word count read back as the count, with no leading zero |
| Pipeline.DecimalInjective | server.py:639 | different counts print differently |
| Pipeline.TextOf | server.py:613 | `data['text']` succeeds exactly on an object |
| Pipeline.Report | server.py:621-643 | the reply carries the text, its `split()` word count, a score in [0, 10], a readability below 206.835 and `ai_assisted` false |
| Pipeline.Respond | server.py:606-648 | the status is 200, 400 or 500, and 200 exactly when a humanized reply is sent |
| Pipeline.RespondSucceeds | server.py:608-644 | the answer is 200 exactly for an object with a string `text` whose rewrite succeeds, and the reply is then the report of the rewrite |
| Pipeline.RespondRejects | server.py:610-615 | the answer is 400 exactly when the body is falsy or lacks `text` ("text required") or `text` is not a string ("text must be a string") |
| Pipeline.RespondFails | server.py:646-648 | the answer is 500 exactly for an unreadable body, a non-object that passes the `in` test, or a failing rewrite, whose message is passed on |
| Pipeline.Endpoint | server.py:606-648 | the `/api/humanize` handler, answering with Pipeline.Humanize, the rewrite as written. It has no contract of its own; Pipeline.Respond, Pipeline.RespondSucceeds, Pipeline.RespondRejects, Pipeline.RespondFails and Pipeline.EndpointShortText state its properties |
| Pipeline.EndpointShortText | server.py:606-644 | a request with a string of at most 300 words is always answered 200 |
| Pipeline.ReportLevel | server.py:626-642 | the model name's level is the tier of the output's word count |
| Pipeline.ExplanationCount | server.py:639 | the explanation starts with "Smart humanization (" and then the word count in decimal |
| Display.EscapeHtml | script.js:155-157 | `escapeHtml`, the four chained replaces, with nothing to correct. It has no contract of its own; Display.EscapeHtmlEach, Display.UnescapeEscape and Display.EscapeHtmlSafe state its properties |
| Display.EscapeHtmlEach | script.js:155-157 | the four chained replaces equal escaping each character on its own |
| Display.UnescapeEscape | script.js:155-157 | decoding the four entities recovers the input |
| Display.EscapeHtmlSafe | script.js:155-157 | the output has no raw `<`, `>` or `"`, and every `&` begins one of the four entities |
| Display.SplitWsPieces | script.js:17 | the pieces of `split(/\s+/)` hold exactly the non-whitespace characters, in order |
| Display.SplitWsWords | script.js:17 | the non-empty pieces of `split(/\s+/)` are the maximal non-whitespace runs |
| Display.CountWords | script.js:16-18 | `countWords`, with nothing to correct. It has no contract of its own; Display.CountWordsIsWords states its property |
| Display.CountWordsIsWords | script.js:16-18 | `countWords` is the number of maximal non-whitespace runs, and 0 for blank text |
| Display.Clamp | script.js:166 | the gauge score lies in [0, 10], and a score already inside is kept |
| Display.GaugeOf | script.js:165-191 | the score lies in [0, 10], the rotation in [-90, 90] and the percentage in [0, 100] |
| Display.RotationInverse | script.js:172 | the clamped score is recovered from the rotation, and the rotation is monotone in the score |
| Display.BandBounds | script.js:179-191 | the band is excellent up to 2, good up to 4, warning up to 6 and danger above |
| Display.BandMonotone | script.js:179-191 | a higher score never gives a better band |
| Diff.Lcs | script.js:109-121 | the value of the table cell `dp[i][j]`, by the recurrence of lines 113-121. It has no contract of its own; Diff.LcsSteps, Diff.LcsBound, Diff.LcsUpper and Diff.LcsWitness state its properties |
| Diff.LcsTable | script.js:109-121 | the filled table holds in every cell the length of the longest common subsequence of the two suffixes |
| Diff.LcsSteps | script.js:113-121 | dropping a word from either text never raises that length and lowers it by at most one |
| Diff.LcsBound | script.js:113-121 | a cell is at most the number of words left in either text |
| Diff.LcsUpper | script.js:113-121 | no case-insensitive common subsequence of the suffixes is longer than the cell |
| Diff.LcsWitness | script.js:113-121 | some common subsequence is exactly as long as the cell |
| Diff.ChooseNeverReplaces | script.js:133-142 | the replacement branch is never taken, and the walk drops an original word exactly under the guard of the second branch |
| Diff.Walk | script.js:124-150 | the entries the backtracking loop emits from cell (i, j) to the end, with the dead replacement branch kept. It has no contract of its own; Diff.WalkEmits and Diff.WalkAdded state its properties |
| Diff.EmittedKept | script.js:127-150 | the plain entries one step emits, added to the cell the step moves to, give the cell it started from |
| Diff.WalkEmits | script.js:124-150 | the walk emits each rewritten word once and in order, never a red entry, and as many plain ones as the cell at the start |
| Diff.WalkAdded | script.js:144-148 | an added word is orange exactly when it is one of the filler words |
| Diff.ChooseByTable | script.js:128-149 | the branch read off the table is the branch of the recurrence |
| Diff.Backtrack | script.js:124-150 | the loop over the table produces the walk |
| Diff.ComputeVisualDiff | script.js:104-153 | the table and loop compute the joined rendering of the walk |
| Diff.VisualDiffEntries | script.js:104-153 | there is one entry per piece of the rewritten text, plain when kept and in a coloured span when added, and the plain entries are as many as the longest common subsequence |

## Left out

- The Flask application, CORS hook, static routes, health route, logging and the `__main__` block (server.py:1-27, 647, 650-655) are transport and I/O. The endpoint is modelled from the parsed request body. A body Flask cannot read is one value, `Unreadable`.
- Every probability is left out. A draw is a parameter, so statements such as "a 7% chance" are not modelled, only what happens for each outcome.
- Python's `re` and JavaScript regular expressions are modelled over ASCII only. This covers `\s`, `\w`, `\b`, `IGNORECASE`, `lower()`, `upper()`, `isupper()` and `toLowerCase()`. Unicode whitespace, letters and case mappings are not modelled.
- Readability.FleschReadingEase: the value is the exact real before `round(score, 1)`. The rounding to one decimal, and float arithmetic in general, are not modelled.
- Scoring.Uniformity: the square root of the coefficient-of-variation test is replaced by a comparison of squares. Scoring.UniformityIsCvBand proves that this gives the same band for any square root.
- Pipeline.Falsy: the `NaN` and `Infinity` literals, which Python's JSON parser reads as floats, are not modelled; `Json.Float` holds a real.
- Pipeline.Report: the JSON number format of `readabilityScore` is not modelled, since the value is the exact real described above.
- Display.GaugeOf: the status text's number formatting and the NaN case of `Math.max`/`Math.min` are not modelled. The DOM writes of `updateGauge` and everything else in script.js that touches the DOM, fetch, the clipboard or downloads (script.js:1-15, 20-101, 161-163, 193-194) are UI and I/O.
- The replacement branch of `computeVisualDiff` (script.js:135-140) is kept in Diff.Choose and Diff.ChooseByTable. Diff.ChooseNeverReplaces shows it is dead, so no red entry is ever rendered.
- The claim that the score is always under 10 (server.py:274, 654) is not stated. The code does not enforce it, and Scoring.ScoreExtremes shows a score of 10 for any confidence of 90 or more.

## Findings

| source | as written | input that shows it | evidently intended | confidence | as-written member | corrected member |
|---|---|---|---|---|---|---|
| server.py:602 | collapses every pair of periods, including two of the three in an ellipsis | "..." (inserted at line 591 and kept by the cap at line 599) becomes ".." | fix only a doubled period and keep an ellipsis | not executed | Cleanup.EllipsisShortened | Cleanup.EllipsisKept |
| server.py:480 | the conditional expression covers the whole concatenation, so a one-character next sentence replaces the merged text | merging "We stopped" with the next sentence "I" emits only "i" | append the connector and the lower-cased next sentence in every case | not executed | LengthVariation.MergeDropsSentence | LengthVariation.Merge |
| server.py:454 | a sentence left unchanged is stripped of its leading space before being re-joined | in a text of more than 100 words, "One two. Three four." becomes "One two.Three four." when no draw fires | keep the separating whitespace, as the split branch does at line 467 | not executed | LengthVariation.QuietLosesSpace | LengthVariation.QuietPart |
