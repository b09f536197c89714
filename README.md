# Newspaper-advertisement pipeline of fortune-lab3/PBL, modelled in Dafny

The repository holds several Streamlit apps. Each one turns a broadcast manuscript into a short
Japanese newspaper advertisement with a hosted text-generation model. Every app carries its own
copy of a small deterministic pipeline around the model call, and that pipeline is what is
modelled here:

- **Cleaners.** `remove_strings` / `preprocess` delete annotation markers (`【…】`, channel tags
  such as `R-12`) and noise characters. `normalize_output` / `postprocess` strip the text,
  delete `<think>…</think>` blocks and line breaks, and in the `code/` apps also delete ASCII
  letters. `count_chars` / `count` give the length without line breaks.
- **Retry controller.** `_call_chat` / `_hf_chat` make at most three requests. Timeouts and
  statuses of 500 or above are retried after sleeping `2^attempt` seconds. A lower status is
  re-raised. When the attempts run out, app.py raises and the other apps return `""`.
- **Convergence steps.** These are:
  - `finalize_ad`, the hard cut to the target length that ends on `。`;
  - `adjust_length`, at most two resize calls of the controller;
  - `adjust_tail_with_llm` with `split_sentences`, which rewrites only the last sentence.
- **The three flows** that chain these steps:
  - `generate_advertisement` of app.py;
  - `generate_newspaper_ad_api` of app/app.py;
  - `generate_newspaper_ad_api` of code/UI.py and code/app.py.
- **Directive builders.** Keyword lists and tone rules become prompt text.
- **History.** The history list of the last five results, and its labels.

Modules follow these components:
- `Wrappers`, `PyStr`: Python `str` behaviour.
- `Normalizer`.
- `Instructions`.
- `Client`.
- `Sentences`.
- `Truncation`.
- `Resizing`.
- `TailRepair`.
- `Flows`.
- `HistoryCache`.

The copies of a function differ in a few places. Where they do, a flag selects the variant:
- `dropSpace` selects `remove_strings` rather than `preprocess`;
- `dropLatin` selects the `code/` version of `normalize_output`;
- `Exhaustion` selects raise or `""` when the retries run out.

The model service is a script. `svc(k)` is the outcome of the k-th request ever made. A
controller call that starts after `start` requests reads `svc(start)`, `svc(start + 1)` and so
on, and reports how many requests it used and which delays it slept. `Client.Controller(svc,
policy)` is that whole controller seen from a caller. The flows are specified by functions
(`Flows.Advertised`, `Flows.TailRepaired`, `Resizing.Resize`, `TailRepair.Rejoin`). Those
functions take the controller, the normalizer and the sentence splitter as function values.
Each flow's method is proved equal to its function for the apps' own controller and normalizer.

`normalize` is not idempotent for every variant; the model follows the code:
- The letter-dropping variant of the `code/` apps is idempotent, and
  `Normalizer.NormalizeWithoutLatinIdempotent` proves it.
- `preprocess` is not idempotent, and `Normalizer.PreprocessNotIdempotent` gives the input
  `R■-1`.
- The letter-keeping `postprocess` / `normalize_output` is not idempotent either. One pass turns
  `<thi<think></think>nk></think>` into `<think></think>`. That counterexample is not part of the
  proofs; see Left out.

## Model

| member | source | states |
|---|---|---|
| PyStr.Strip | app.py:38 | The result has no whitespace at either end and is obtained from the input by deleting characters only. |
| PyStr.StripTrimsEnds | app.py:38 | `strip()` returns a slice `s[i..j]` of its input with only whitespace before `i` and after `j`, so nothing inside the text is removed. |
| PyStr.StripBlank | code/UI.py:151-152 | `strip()` yields `""` exactly when every character is whitespace. |
| PyStr.RemoveWhere | app.py:40 | Deleting a character class leaves none of it, keeps the order of the others, and shortens the text by exactly the number of deleted characters. |
| PyStr.JoinWithContainsEach | app.py:138 | Every element of a list occurs as a substring of `sep.join(list)`. |
| Normalizer.BracketEnd | app.py:33 | The lazy `【.*?】` match ends at the first `】`, with no line break before it. When there is no match, every later `】` has a line break before it. |
| Normalizer.MarkerLength | app.py:33 | A marker match at the front of a text is non-empty, lies within the text and starts with `【` or a channel letter. A bracket match ends with `】`. `[ＲR][ー-]` followed by a digit always matches, with length 2 plus the whole digit run. |
| Normalizer.Scrub | app.py:33-34 | The left-to-right substitution leaves no noise character and only deletes characters (which characters are kept is given by `ScrubKeepsPlainText` and `ScrubOfMarkerFree`). |
| Normalizer.ScrubKeepsPlainText | app.py:33-34 | A text none of whose characters can start a match is left unchanged. |
| Normalizer.ScrubOfMarkerFree | app.py:33-34 | Where no character can start a marker, exactly the noise characters (`■`, `＊`, and whitespace in `remove_strings`) are deleted and every other character is kept in order. |
| Normalizer.ScrubDropsBlackSquare | app.py:34 | `あ■い` becomes `あい`. |
| Normalizer.RemoveStrings | app/app.py:18-20 | `None` gives `""`. The result is a subsequence of the input, no longer than it, and has no whitespace, `■` or `＊`. |
| Normalizer.Preprocess | app.py:32-34 | `None` gives `""`. The result is a subsequence of the input, no longer than it, and has no `■` or `＊`. |
| Normalizer.PreprocessNotIdempotent | app.py:32-34 | `R■-1` preprocesses to `R-1`, which preprocesses again to `""`. |
| Normalizer.StripThink | app.py:39 | Deleting `<think>…</think>` blocks only deletes characters. |
| Normalizer.StripThinkLetterFree | code/UI.py:23-24 | A text without ASCII letters contains no `<think>` and is left unchanged. |
| Normalizer.StripThinkWithoutOpenTag | app.py:39 | A text in which `<think>` never occurs is left unchanged. |
| Normalizer.DropLatin | code/UI.py:24 | With letters dropped, the result is the input with exactly its ASCII letters deleted: no letter remains, the other characters stay in order, and the length drops by the number of letters. Without the flag (app/app.py:25, commented out) the text is unchanged. |
| Normalizer.Normalize | app/app.py:22-26 | `None` gives `""`. There is no `\n`/`\r` (and no ASCII letter in the `code/` variant), no whitespace at either end, and the result is a subsequence of the input, never longer. |
| Normalizer.Clean | code/app.py:23-27 | The passes on a present text give a trimmed subsequence of it without line breaks (and without letters when they are dropped). |
| Normalizer.Unbroken | code/UI.py:22-25 | The deletion passes before the final strip leave no line break (and no letter when they are dropped) and only delete characters. |
| Normalizer.NormalizeWithoutLatinIdempotent | code/UI.py:21-25 | Normalizing twice with letters dropped gives the same text as normalizing once. |
| Normalizer.CleanTextIsFixpoint | code/app.py:23-27 | A trimmed text without letters and line breaks passes through every stage unchanged. |
| Normalizer.CleanKeepsPlainText | app.py:37-40 | The letter-keeping variant returns a trimmed text without line breaks and without `<think>` unchanged, letters included. |
| Normalizer.CountChars | app.py:43-44 | The count is the length minus the number of `\n`/`\r`, so it is never more than the length. |
| Normalizer.CountCharsOfNormalized | app.py:37-44 | On normalized text the count equals the plain length. |
| Instructions.Words | app.py:131 | The pieces are non-empty and contain no separator. |
| Instructions.WordsAreMaximalRuns | app.py:131 | Every piece occurs in the text as a whole run, with a separator or the text's edge on either side. |
| Instructions.WordsInTextOrder | app.py:131 | The pieces are runs of the text at strictly increasing positions, each ending before the next starts. With `WordsKeepEveryOtherChar` this fixes the split: the pieces are the runs of non-separators, once each, in text order. |
| Instructions.WordsKeepEveryOtherChar | app.py:131 | The pieces joined together are the text with every separator deleted, so order and content are preserved. |
| Instructions.NoWordsIffAllSeparators | code/UI.py:155-158 | There are no pieces exactly when the text consists of separators only. |
| Instructions.SplitKeywords | app.py:130-131 | Every keyword is non-empty and contains neither an ASCII nor an ideographic space. |
| Instructions.SplitKeywordsBlank | app.py:130-131 | The keyword list is empty exactly when the input is blank. |
| Instructions.SplitKeywordsInOrder | app.py:130-131 | The keywords joined together are the stripped input with its spaces deleted. |
| Instructions.SplitKeywordsInTextOrder | app.py:130-131 | The keywords are the runs of non-spaces of the stripped input at strictly increasing positions, once each and in input order. |
| Instructions.SplitKeywordsAreRuns | app.py:130-131 | Every keyword is a whole run of non-spaces of the stripped input, bounded by spaces or its ends (its position and order are given by `SplitKeywordsInTextOrder`). |
| Instructions.SplitKeywordsOfTwo | app.py:130-131 | `猫　犬` splits into the two keywords `猫` and `犬`. |
| Instructions.BuildKeyword | app.py:133-141 | The result is `""` exactly when there are no keywords. Otherwise it starts with the keyword header and contains `'、'.join(words)`. |
| Instructions.BuildKeywordListsEach | app.py:137-138 | Every keyword occurs in the built block. |
| Instructions.BuildKeywordInstruction | app/app.py:77-81 | The result is `""` exactly when there are no keywords. Otherwise it starts with the demand header, contains the joined keywords and ends with `。`. |
| Instructions.BuildKeywordRequest | code/UI.py:150-161 | The result is `""` exactly when the input is blank. Otherwise it starts with the request header, contains the words of `split()` joined by `、` and ends with `。`. |
| Instructions.BuildTone | app.py:144-152 | The result is non-empty exactly for `やわらかい`, and then ends with a line break. |
| Instructions.ToneRebuiltIsEmpty | app.py:85-87 | Building the tone of an already built tone gives `""`. Because app.py:162 rebinds `tone` and app.py:186 passes it on, the resize prompt never carries tone rules. |
| Instructions.BuildToneInstruction | app/app.py:84-95 | The result is never empty, is the plain-language block exactly for `やさしい`, and ends with a line break. |
| Client.ExtractMessageText | app/app.py:32-36 | `None` is returned exactly for a present message whose content is `None`. A missing message or content gives `""`; otherwise the content itself. |
| Client.Settle | app/app.py:40-53 | An attempt that is not retried yields a reply exactly when the response has a first choice with non-`None` content, and the reply is that content stripped. A status below 500 is re-raised and any other error escapes. |
| Client.CallChat | app/app.py:38-54 | The retry loop computes exactly the controller run `ChatFrom(svc, start, 0, policy)`: the same result, number of requests and delays. |
| Client.ChatFromShape | app.py:66-82 | From any attempt, a run makes one to three requests, and every request before the last was retryable. The delays are `2^k` in order. Either all remaining attempts failed retryably and the exhaustion result follows, or the last request settles the result. |
| Client.ChatCallsBounded | code/UI.py:50-67 | A call makes between one and three requests, and all but the last were retryable. |
| Client.ChatBackoffDoubles | app.py:75-79 | At most three delays, the k-th of `2^k` seconds (1, 2, 4). |
| Client.ChatSettlesFirstFinalOutcome | code/app.py:52-68 | A non-retryable first outcome ends the call after one request without sleeping. A status below 500 is re-raised. |
| Client.ChatClientErrorAborts | app.py:77-81 | A status below 500 at attempt k, after k retryable failures, ends the call after k+1 requests and k delays, re-raising that status. |
| Client.ChatExhaustion | app.py:66-82 | All three outcomes are retryable exactly when the run sleeps 1, 2, 4, uses three requests and ends with the variant's exhaustion result (raise or `""`). |
| Client.ChatReplyIsStripped | app.py:74 | A reply never has whitespace at either end. |
| Client.ChatRecoversAfterTwoTimeouts | code/app.py:52-66 | A timeout, then a 5xx without status, then an answer: the answer comes back after three requests and sleeps of 1 and 2 seconds. |
| Client.SettleTrimmedReply | app/app.py:46 | A reply without surrounding whitespace comes back unchanged. |
| Client.ControllerBounded | app/app.py:39 | Every controller call, wherever it starts in the script, makes one to three requests. |
| Sentences.SplitCapture | code/UI.py:35 | `re.split(r"(。)", s)` has an odd number of parts. The odd-indexed parts are `。` and the even-indexed parts contain no `。`. |
| Sentences.SplitCaptureRejoins | code/UI.py:35 | The parts joined together give back the text. |
| Sentences.SplitCaptureSentences | code/UI.py:35-39 | The stride-2 walk over the parts yields exactly `Sentences(s)`, each sentence being a piece with its `。`. |
| Sentences.SplitSentences | code/UI.py:33-39 | `split_sentences` returns the sentences of the letter-dropping normalization of its input. |
| Sentences.SplitOnStops | code/app.py:37-41 | The append loop computes exactly `Sentences(s)`. |
| Sentences.SentencesEndWithStop | code/UI.py:37-38 | Every sentence ends with `。` and contains exactly one `。`. |
| Sentences.SentenceCountIsStopCount | code/app.py:35-41 | There are exactly as many sentences as `。` in the text. |
| Sentences.SentencesCoverUpToLastStop | code/UI.py:33-39 | The sentences joined together are a prefix of the text, and no `。` follows it, so they are the text up to its last `。`. |
| Sentences.SentencesOfTerminatedText | code/app.py:35-41 | A text ending with `。` is exactly its sentences joined together. |
| Truncation.PyPrefix | app/app.py:68 | `s[:n]` is a prefix of `s` of length n, all of `s` when n is larger, and counts from the end when n is negative. |
| Truncation.Terminated | app/app.py:61-62 | The text ends with `。` and the original is a prefix of it, one character longer exactly when it did not end with `。`. |
| Truncation.LastIndexOf | app/app.py:69-71 | The found index holds `。` and no later index does; when nothing is found there is none at all. |
| Truncation.Cut | app/app.py:60-74 | The result always ends with `。`, is the closed text when that fits, and is at most `target` long for `target >= 1`. In the over-length branch it is the prefix of the cut ending at its last `。`, or, without one, the cut minus its last character plus `。`, exactly `target` long. |
| Truncation.CutToLength | app/app.py:61-74 | The backward scan returns exactly `Cut`. |
| Truncation.FinalizeAd | app/app.py:57-74 | `finalize_ad` is `Cut` of the letter-keeping normalization. |
| Truncation.CutOfEmpty | app/app.py:61-65 | An empty text finalizes to a lone `。`, whatever the target. |
| Resizing.ResizeBounds | app.py:90-123 | At most one controller call per round, each of one to three requests. Within tolerance no call is made and the text is kept. An empty reply ends the loop with the text unchanged. |
| Resizing.ResizeYieldsPostprocessed | app.py:122-127 | The text returned is the one that went in or the post-processing of some reply. |
| Resizing.AdjustLength | app.py:85-127 | `adjust_length` is the two-round resize of the postprocessed text. It makes at most two controller calls and at most three requests per call, and returns a postprocessed text. |
| Resizing.ResizeRounds | app.py:90-127 | The loop with its early return and `break` computes exactly `Resize` with two rounds. |
| TailRepair.Rejoin | code/UI.py:79-102 | A raise propagates. Otherwise the joined head is a prefix of the result, which is as long as the head plus the normalized reply. An empty reply yields exactly the head. |
| TailRepair.RejoinTidyTail | code/app.py:104 | With the `code/` normalization, nothing after the head is a line break or an ASCII letter. |
| TailRepair.TidyOfEmpty | code/UI.py:21-25 | The `code/` normalization of `""` is `""`. |
| TailRepair.AdjustTail | code/UI.py:72-102 | `adjust_tail_with_llm` makes one controller call and returns `Rejoin` of the head and that call's result. |
| TailRepair.SentencesOfNormalized | code/UI.py:133-134 | On a first-pass text, the normalization inside `split_sentences` changes nothing. |
| Flows.GenerateAdvertisement | app.py:155-188 | Without a token it raises before any request. Otherwise the result and request count are those of `Advertised` for the raising controller and `postprocess`. It makes one to nine requests, and a returned text is a `postprocess` output. |
| Flows.AdvertiseFrom | app.py:185-186 | After the first call: a raise propagates, otherwise the text is resized. The total number of requests stays between the first call's count and nine. |
| Flows.AdvertisedKeepsCloseReply | app.py:94-95 | A postprocessed first reply within five characters of the target and ending with `。` is returned without any further request. |
| Flows.GenerateFinalized | app/app.py:98-129 | Without a token it raises before any request. Otherwise it makes one controller call of one to three requests, and a raise propagates. A reply is finalized from its double normalization, ends with `。` and fits the target. If all three attempts fail, the result is `。`. |
| Flows.GenerateTailRepaired | code/UI.py:107-146 | Without a token it raises before any request. Otherwise it is `TailRepaired` for the `""`-returning controller, the `code/` normalization and `split_sentences`, with one or two controller calls of one to three requests each. |
| Flows.RepairFrom | code/app.py:133-148 | After the first call: a raise propagates, otherwise the normalized text goes through the tail repair. The result is one or two controller calls. |
| Flows.RepairTail | code/app.py:136-146 | The branch asks the controller at most once, exactly as `Repaired` says. |
| Flows.TailRewrittenIffLong | code/UI.py:137 | A second controller call happens exactly when the normalized first reply has at least two sentences and is more than ten characters over the target. |
| Flows.TailKeptWhenShort | code/UI.py:133-146 | Without the second call, the normalized first reply is the answer after the first call's requests alone. |
| Flows.TailRewriteKeepsHead | code/app.py:139-146 | After a rewrite, every sentence but the last of the normalized first reply starts the answer. |
| HistoryCache.Recorded | app/app.py:221-228 | The new entry is at index 0, the length is `min(old + 1, 5)`, and the rest are the first `min(old, 4)` old entries in order. |
| HistoryCache.RecordAllKeepsLatest | code/UI.py:261-262 | Recording several entries into a valid history keeps the newest first, followed by the older ones that still fit, five in all at most. |
| HistoryCache.History.constructor | app/app.py:156-157 | A new history is empty. |
| HistoryCache.History.Insert | code/UI.py:261-262 | Insertion at the front followed by `[:5]` updates the list to `Recorded(old, x)` and keeps at most five entries. |
| HistoryCache.MakeHistoryLabel | app/app.py:141-146 | With the file option and an upload, the label is the file name. Otherwise it is the first up to ten characters of the normalized text followed by `…`. |

## Left out

- The Streamlit UI is not modelled. That covers `main`, `load_css`, images, widgets, the session
  plumbing and `realtime_count`; only the history list update is lifted out of `main`.
- The network call to the text-generation model is a parameter: the outcome script `svc`.
  `time.sleep` is modelled as the recorded list of delays.
- Prompt wording is not modelled. Only the directive builders' exact strings are. The prompts of
  `adjust_length`, `adjust_tail_with_llm` and the flows, the old last sentence, the target passed
  to the prompt and the keyword and tone directives only shape the requests. The scripted service
  does not read them.
- `temperature` and the floating-point `max_tokens` arithmetic are floats passed straight to the
  service, and are not modelled.
- `.docx` reading and writing (`save_docx`, `create_docx_bytes`), UTF-8 decoding of uploads and
  `create_download_link` wrap libraries and produce I/O. code/HuggingfaceAPI.py is not part of this
  model: its retry loop is the raising variant already modelled.
- Normalizer.IsDigit: `\d` is limited to the ASCII and full-width decimal digits, not every
  Unicode decimal digit.
- Normalizer.Normalize: the non-idempotence of the letter-keeping variant on
  `<thi<think></think>nk></think>` is stated in prose only, not proved.
- Client.Controller: inside the flows, the second and later controller calls (`adjust_length`,
  `adjust_tail_with_llm`) are consulted as this function rather than by running `CallChat` again.
  The two agree by `CallChat`'s postcondition.
- Flows.GenerateAdvertisement: the text passed to `adjust_length` is always present, so its `None`
  case is covered only through `Normalize`'s `None` handling.
- Exceptions are modelled as the `Raised` result. Their message texts are not modelled.
