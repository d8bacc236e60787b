# Content generator hook — a verified model

The hook `useContentGenerator` asks an AI service for social-media post
variations and keeps the result as React state. This project models the logic
of that hook in Dafny:

- the parser in `generateAndParseSinglePost`. It cuts the service's reply at
  the markers `###HASHTAGS###`, `###PRIMARYTEXT###`, `###MESSAGE###` and
  `###IMAGEPROMPT###` and builds one typed post variant. Post types outside the
  text flow, empty replies and image replies without a prompt are errors
  (module `ResponseParser`);
- the ad guardrail. It builds required and banned keyword lists from
  comma-separated text. It keeps an ad only when the ad's lower-cased headline
  and primary text contain every required keyword and no banned one. It raises
  an error when every variation is rejected (module `Guardrail`);
- the validation prelude of `handleGeneratePost`: the fields each post type
  needs, and the message shown when one is blank (module `Validation`);
- the video post's status machine: generating, then polling, then success or
  error (module `VideoJob`);
- the hook's state as the class `Generator.ContentGenerator`. Its handlers are
  split at each `await`. Every functional `setContentVariations` update copies
  the list and changes the entry at one index, and only when that entry has
  the expected type. Most updates replace that entry with a new object; the
  three image-URL updates change the entry object in place instead (see
  "Left out").

The JavaScript string operations the hook relies on are written out in module
`Text`: `trim`, `split` with a string separator, `split(/\s+/)`, `includes`,
`startsWith` and `toLowerCase`. `trim` and `\s` use the ECMAScript set of
white-space and line-terminator characters. `Content` holds the data model.
`Outcomes` holds `Option` and `Result`.

Behaviour of the source kept as written: when the video service refuses a job,
`isLoading` stays set. The `finally` block of `handleGeneratePost` only clears
it for other post types (`Generator.ContentGenerator.CompleteGeneration`).

## Model

| member | source | states |
|---|---|---|
| Text.Trim | hooks/useContentGenerator.ts:113 | `trim` removes exactly the leading and trailing white space: the result is a slice of the input with only white space around it, does not end in white space, and is empty exactly when the input is all white space |
| Text.BlankIffTrimEmpty | hooks/useContentGenerator.ts:233 | a string is blank exactly when it is all white space, and exactly when it trims to the empty string (`!topic.trim()`) |
| Text.FindFrom | hooks/useContentGenerator.ts:295 | the index found is an occurrence of the keyword with none before it, and no index means no occurrence (`includes`) |
| Text.Split | hooks/useContentGenerator.ts:112 | `split` always yields at least one piece; the first is the text before the first separator; a second piece exists exactly when the separator occurs, and is the text up to the next separator |
| Text.JoinSplit | hooks/useContentGenerator.ts:112 | joining the pieces of a split with the separator gives back the input |
| Text.SplitPiecesOmitSeparator | hooks/useContentGenerator.ts:112 | no piece of a split contains the separator |
| Text.SplitAtFirst | hooks/useContentGenerator.ts:112 | in `a + sep + b`, where no occurrence of `sep` starts inside `a` (even one running into the `sep` after it), the text before the first separator is `a` and the text after it is `b`, whatever `b` is |
| Text.SplitOnSpaceRuns | hooks/useContentGenerator.ts:113 | `split(/\s+/)` yields at least one word and no word contains white space (which words: `Text.SplitOnSpaceRunsCollapse`) |
| Text.SplitOnSpaceRunsCollapse | hooks/useContentGenerator.ts:113 | the words of `split(/\s+/)` joined with single spaces equal the input with every white-space run collapsed to one space, a reference defined character by character; with `Text.JoinInjective` this fixes the words as the input's maximal non-white-space runs, in order |
| Text.JoinInjective | hooks/useContentGenerator.ts:113 | two lists of white-space-free words with the same single-space join are equal |
| Text.SplitOnSpaceRunsOfJoin | hooks/useContentGenerator.ts:113 | non-empty white-space-free words joined with single spaces split back into the same words |
| Text.ToLower | hooks/useContentGenerator.ts:287 | `toLowerCase` keeps the length, maps each capital letter to its lower-case letter, leaves no capital letter, and leaves lower-case text unchanged |
| ResponseParser.KeepHashtags | hooks/useContentGenerator.ts:113 | every word the filter keeps starts with `#` and holds no white space (which words: `ResponseParser.KeepHashtagsExactly`) |
| ResponseParser.KeepHashtagsExactly | hooks/useContentGenerator.ts:113 | the filter's output is an order-preserving subsequence of the words holding every word that starts with `#` exactly as often as the input does, and no other word |
| ResponseParser.Hashtags | hooks/useContentGenerator.ts:113 | every extracted hashtag starts with `#` and holds no white space; a blank or missing hashtag piece yields no hashtags (which hashtags: `ResponseParser.HashtagsExactly`) |
| ResponseParser.HashtagsExactly | hooks/useContentGenerator.ts:113 | the hashtags of a piece are exactly the words of the trimmed piece that start with `#`, in order and with their multiplicity |
| ResponseParser.HashtagsSkipPlainWord | hooks/useContentGenerator.ts:113 | a hashtag, a plain word and a hashtag separated by any white-space runs (spaces, tabs, line breaks, as in `#a notag\n#b`) give exactly the two hashtags, in order |
| ResponseParser.HashtagLineRoundTrip | hooks/useContentGenerator.ts:113 | a line of hashtags separated by single spaces (empty for no hashtags) is extracted back into exactly those hashtags, in order |
| ResponseParser.FirstTwo | hooks/useContentGenerator.ts:112 | destructuring the first two pieces of a split, with `|| ''`, gives the text before the first marker and the text between the first and the second |
| ResponseParser.SplitContent | hooks/useContentGenerator.ts:112-113 | text and guided content is the trimmed text before the first `###HASHTAGS###`; hashtags come only from the text between the first and a second marker, and there are none without a marker |
| ResponseParser.SplitThree | hooks/useContentGenerator.ts:116-118 | three-field replies are read in marker order; without the middle marker the middle field is empty and there are no hashtags |
| ResponseParser.TwoFieldRoundTrip | hooks/useContentGenerator.ts:110-114 | a reply laid out as content, `###HASHTAGS###`, hashtag line parses back into that content and those hashtags, for any trimmed content in which no `###HASHTAGS###` starts (a `#` in the content, as in `We're #1`, is allowed) |
| ResponseParser.ThreeFieldRoundTrip | hooks/useContentGenerator.ts:115-138 | a reply laid out as first field, middle marker, middle field, `###HASHTAGS###`, hashtag line parses back into those three fields, when the first field is trimmed, no marker starts inside the first or middle field, and the middle marker does not come back |
| ResponseParser.ImageReplyRoundTrip | hooks/useContentGenerator.ts:134-139 | an image reply with a non-empty prompt piece parses into an image post with that prompt trimmed and the image state `prompt_ready`, under the same conditions on caption and prompt |
| ResponseParser.ParseImageReply | hooks/useContentGenerator.ts:134-139 | the caption is the trimmed text before the first `###IMAGEPROMPT###`; the prompt is the trimmed text after it up to `###HASHTAGS###`; the reply fails with the missing-prompt message exactly when that prompt piece is empty |
| ResponseParser.ParseReply | hooks/useContentGenerator.ts:109-162 | for each post type the fields of the parsed post: content, headline, title and caption are the trimmed text before the first marker; primary text and message are the trimmed text after the middle marker up to `###HASHTAGS###`; hashtags come from the piece after `###HASHTAGS###`; grounding chunks default to none; strategy and voice-dialog replies fail with their own message when the JSON does not parse (or, for a voice dialog, is `null`) |
| ResponseParser.GenerateSinglePost | hooks/useContentGenerator.ts:97-162 | gantt, video generation, dashboards and all-tools fail with the unsupported-type message; a service error is passed on; an empty reply fails; a non-empty reply is parsed by `ResponseParser.ParseReply`, and the result is a post exactly when the reply is usable (image prompt piece non-empty, JSON parses, voice-dialog JSON is not `null`) |
| ResponseParser.ParsedPostShape | hooks/useContentGenerator.ts:109-162 | a parsed post is the variant of its post type and well formed; the ad's call to action, the analysis source URL and the voice dialog's type and scenario are copied from the request, and an image post starts at `prompt_ready` |
| Guardrail.NormalizeAll | hooks/useContentGenerator.ts:287-288 | every keyword is the trimmed, lower-cased form of some piece and is non-empty; every piece whose normalized form is non-empty contributes a keyword |
| Guardrail.NormalizedIsKeyword | hooks/useContentGenerator.ts:287 | a non-empty trimmed, lower-cased piece is lower case with no white space at either end |
| Guardrail.KeywordsOfSeparatorsOnly | hooks/useContentGenerator.ts:287-288 | a list made only of commas and white space yields no keyword |
| Guardrail.KeepPassing | hooks/useContentGenerator.ts:290-299 | the filter's output is an order-preserving subsequence of its input that holds every passing variation as often as the input does and no failing one |
| Guardrail.FilterByKeywords | hooks/useContentGenerator.ts:290-304 | the guardrail fails, with its message, exactly when the input is non-empty and no variation passes |
| Guardrail.NothingKeptIffNonePass | hooks/useContentGenerator.ts:290-301 | the filter keeps nothing exactly when no variation passes |
| Guardrail.GuardrailKeepsMatchingAds | hooks/useContentGenerator.ts:286-304 | the kept variations are an order-preserving subsequence of the input, every non-ad is kept, and every kept ad contains every non-empty required entry and no non-empty banned entry, case-insensitively |
| Guardrail.PassingAdHonoursLists | hooks/useContentGenerator.ts:293-298 | an ad that passes the filter contains every normalized required entry of the comma-separated list and none of the banned ones |
| Guardrail.SeparatorOnlyListsKeepAll | hooks/useContentGenerator.ts:286-304 | keyword lists made only of commas and white space keep every variation |
| Guardrail.KeepAllPassing | hooks/useContentGenerator.ts:290-299 | when every variation passes, the filter returns its input unchanged |
| Validation.Validate | hooks/useContentGenerator.ts:233-247 | validation fails exactly when a field the post type needs is blank (topic for text, grounded text, video, image and video generation; URL and topic for analysis; key tip for guided; product and audience for ads; scenario for voice dialogs), with that type's message |
| VideoJob.AfterTick | hooks/useContentGenerator.ts:178-225 | one poll keeps the prompt and input image; records a fetched operation, and its progress even when the job then fails; an unfinished job keeps its status and shows the progress message; a finished job with a link succeeds with progress 100 and the keyed URL; a job error, a missing link or a failed fetch ends in error with the message; only success sets the URL |
| VideoJob.PollingContinues | hooks/useContentGenerator.ts:178-191 | ticks that all find the job unfinished leave a polling post polling |
| VideoJob.VideoJobLifecycle | hooks/useContentGenerator.ts:255-278 | a video post starts generating at progress 0, moves to polling when the job is accepted, stays polling until the poller stops, and then ends in success (progress 100, URL set) exactly when the last tick finished the job, in error exactly when it failed |
| Generator.ParseAll | hooks/useContentGenerator.ts:281-284 | all replies parse, one variation per reply in order and each well formed, or the result is the error of a failing reply, and it is an error exactly when some reply fails |
| Generator.GenerateVariations | hooks/useContentGenerator.ts:281-307 | the installed variations are well formed; they are the parsed ones, filtered by the guardrail exactly when an ad request has a non-blank keyword list |
| Generator.ContentGenerator.constructor | hooks/useContentGenerator.ts:167-171 | the hook starts with no variations, index 0, nothing loading and no error |
| Generator.ContentGenerator.SetCurrentVariationIndex | hooks/useContentGenerator.ts:168 | the current index becomes the given one |
| Generator.ContentGenerator.StartGeneration | hooks/useContentGenerator.ts:232-265 | the error is cleared; on a validation failure the error is that message and the variations, index and loading flag are untouched; otherwise loading starts at index 0 with no variations, or with the initial generating post for a video request |
| Generator.ContentGenerator.CompleteGeneration | hooks/useContentGenerator.ts:267-318 | an accepted video job moves the video post at index 0 to polling, stops loading and asks for index 0 to be polled; a refused one records the error and clears the list; other requests install the generated variations or record the error and clear the list, and stop loading; well-formedness is kept |
| Generator.ContentGenerator.CompleteVideoJob | hooks/useContentGenerator.ts:267-278 | an accepted job moves the video post at index 0, and only it, to polling, stops loading and asks for index 0 to be polled; a refused job records the error, clears the list and leaves loading set |
| Generator.ContentGenerator.InstallVariations | hooks/useContentGenerator.ts:307-317 | generated variations replace the list, or the error is recorded and the list cleared; loading stops either way and well-formedness is kept |
| Generator.ContentGenerator.PollTick | hooks/useContentGenerator.ts:173-227 | only the video post at the polled index changes, to the post after that tick; the error is set exactly when the job fails; polling stops exactly when the job finished or failed |
| Generator.ContentGenerator.ChangeImagePrompt | hooks/useContentGenerator.ts:321-328 | only the image post at the current index changes, and only its prompt |
| Generator.ContentGenerator.BeginImageGeneration | hooks/useContentGenerator.ts:330-341 | only an image post with a non-empty prompt starts: the error is cleared, the generating flag is set, that post's image is marked loading and the request captures its index and prompt; otherwise nothing changes |
| Generator.ContentGenerator.FinishImageGeneration | hooks/useContentGenerator.ts:343-363 | the image post at the captured index gets the JPEG data URL, or on failure the error is recorded and the post returns to `prompt_ready`; the generating flag is cleared either way |

## Left out

- `components/FacebookAdPost.tsx` is not part of this model: it only displays fields.
- The AI service calls `generateContent`, `generateImage`, `generateVideos` and `getVideosOperation` are inputs. A reply is a `Reply` value, a video job is a `Result<Operation>`, one poll is a `Tick` and an image is a `Result<string>`.
- `JSON.parse` is the `parseJson` parameter. Its result is an abstract `Json` value, and a failed parse is `None`. The strategy and voice-dialog schemas are not modelled.
- Prompt templates, system instructions, model names and the temperature are left out. They only assemble the request.
- Timing is left out: the `setInterval` cadence, the 10-second period and async ordering. Each handler is split at its `await`, and each interval tick is one `PollTick` call.
- `Generator.ParseAll`: for a `Promise.all` with several failing replies, the model reports the first failure in list order. The source reports whichever promise rejects first, so the model does not say which failing reply wins.
- `numVariations` is the length of the replies list. The `RangeError` that `Array(n)` raises for an invalid length is left out.
- Several pollers running at once, and closures reading stale state, are concurrency. They are left out, so the model does not capture a stale poller writing into a newer post at the same index.
- `post.imageUrl` is mutated in place on an object shared with the previous state (lines 339, 348, 358). The model uses value semantics, so that aliasing is not captured.
- `VideoJob.ProgressMessage`: progress is an integer. The `toFixed(0)` formatting of a fractional percentage is not modelled.
- The API key is the `apiKey` parameter of `PollTick`. Reading it from the environment is left out.
- Toasts and console logging are left out.
- A thrown value that is not an `Error` gets a default message in the source. The model passes every error as a message string.
- `Text.ToLower` lower-cases ASCII letters only. Full Unicode case mapping is left out.
- The raw `setContentVariations` and `setError` setters that the hook returns are left out. They let callers replace the state with anything.
