# duo-tts in Dafny

duo-tts is a small HTTP service. It turns a two- or three-speaker dialogue script into one MP3 file:

- each line `A: …`, `B: …` or `C: …` is sent to a text-to-speech provider in the voice of its speaker;
- the clips are joined after 250 ms of silence, with a configurable pause between turns;
- the result is published under `/public/`, and the handler answers with its URL.

This project models the service's decision logic:

- **Parser.** The script parser `parse_script` and the two Python string primitives it rests on. These are `str.strip()` / the regular-expression class `\s`, and `str.splitlines()`. Both are stated over the full Unicode whitespace and line-boundary sets.
- **Voices.** How the voice of each turn is chosen.
- **Layout.** The order of silences and clips in the assembled audio, and the length of the result.
- **Handler.** The `POST /duo-tts` handler as a function from the following inputs to the response:
  - the configuration (`ACTION_API_KEY`, `PUBLIC_BASE_URL`);
  - the `X-API-Key` header;
  - the payload;
  - the outcomes of the external services.

  The response is the status with its detail, or the URL. The model also returns the synthesis requests actually made and the audio handed to the exporter.

Modules:

- `Wrappers`: `Option` and `Result`.
- `Text`: whitespace, `Strip`, `TrimStart` and `SplitLines`.
- `Selection`: the generic "keep the accepted elements, in order" loop.
- `Script`: the parser.
- `Voices`: voice selection.
- `Assembly`: the audio layout.
- `Handler`: the request handler.

External effects are parameters of the handler, in a `Services` value:

- the synthesis of one turn, together with decoding of the returned file, yields a clip length or an error message. It is indexed by the request's position in the loop, so every request is a call of its own and two identical utterances may fare differently;
- the MP3 export either raises or does not;
- the random file name is a given hex string.

A payload's `pause_ms` is given as absent, as the integer `int()` produced, or as a value `int()` rejects.

Three behaviours of the handler may surprise a reader; the model follows the code:

- **Unparseable script.** A script without a single dialogue line raises `ValueError` inside the `try`. The broad `except` turns it into a **500** with detail `TTS error: <message>`, not a 400 (`Handler.ParseFailureIs500`, `Handler.UnsupportedTagRequest`).
- **Unconvertible pause.** A `pause_ms` that `int()` cannot convert raises at line 50, outside the `try` and before the empty-script check. It escapes as an uncaught error, not a 400. This happens even when the script is missing (`Handler.UncaughtIff`).
- **Negative pause.** A negative integer pause is accepted.

## Model

| member | source | states |
|---|---|---|
| Text.TrimStart | app/main.py:25 | the greedy `\s*` after the colon: the result is a suffix of the input, everything dropped is whitespace, and the result does not start with whitespace |
| Text.TrimStartAt | app/main.py:25 | the whitespace run ends exactly at the first non-space character |
| Text.Strip | app/main.py:25 | `line.strip()` leaves no whitespace at either end and never lengthens the line |
| Text.StripSurrounds | app/main.py:25 | what `strip()` removes is whitespace, at the two ends only: the result is a contiguous piece of the line with only whitespace around it |
| Text.StripUnique | app/main.py:25 | any text without outer whitespace, surrounded by whitespace runs, is exactly what stripping returns |
| Text.StripEmpty | app/main.py:47 | stripping yields the empty string exactly when the input is all whitespace (the condition of the 400 check) |
| Text.StripPadded | app/main.py:47 | extra whitespace around a string does not change its stripped form |
| Text.StripStripped | app/main.py:25 | stripping a string with no outer whitespace changes nothing |
| Text.StripIdempotent | app/main.py:25 | stripping twice is stripping once (the script is stripped at line 47 and every line again at line 25) |
| Text.SplitLines | app/main.py:24 | `splitlines()` yields lines free of line boundaries, and no line at all exactly for the empty string |
| Text.SplitFirstLine | app/main.py:24 | a boundary-free line followed by `\n` splits off as one line before the lines of the rest |
| Text.SplitAnyBreak | app/main.py:24 | a boundary-free line followed by any single boundary character (`\n`, `\r`, `\v`, `\f`, `\x1c`-`\x1e`, U+0085, U+2028, U+2029) splits off as one line, the rest being split on its own; a `\r` directly followed by `\n` is excepted |
| Text.SplitCrLf | app/main.py:24 | `\r\n` is a single boundary: the line before it splits off and the next line starts after the `\n` |
| Text.SplitJoin | app/main.py:24 | splitting lines joined with `\n` gives them back, when no line holds a boundary and the last is not empty |
| Selection.Keep | app/main.py:24-27 | the append-if-matched loop never yields more results than elements, and yields one per element exactly when every element is accepted |
| Selection.KeepSelects | app/main.py:24-27 | the append-if-matched loop keeps the value of every accepted element, only those, each once, in input order |
| Selection.KeepAppend | app/main.py:24-27 | the loop over a concatenation is the loop over the parts, concatenated |
| Selection.KeepEmpty | app/main.py:28 | nothing is kept exactly when no element is accepted |
| Script.TagOf | app/main.py:25 | the class `[ABC]`: exactly the three upper-case letters are tags |
| Script.MatchLine | app/main.py:25 | matching the stripped line: any turn found has a non-empty utterance without outer whitespace and without `\n` |
| Script.MatchStripped | app/main.py:25 | a match has a non-empty utterance without outer whitespace and without `\n` |
| Script.MatchLineShape | app/main.py:25-27 | a line yields a turn exactly when its stripped form is the tag, a colon, a whitespace run and an utterance starting with a non-space and holding no `\n` |
| Script.AcceptedLine | app/main.py:25-26 | a line from `splitlines()` is accepted exactly when its stripped form is a tag, then a colon, then something other than whitespace |
| Script.PaddedTurnParses | app/main.py:25-27 | any tag, colon, whitespace run and well-formed utterance, padded with any whitespace, parses to that turn |
| Script.FormatTurnRoundTrip | app/main.py:25-27 | writing a turn as `T: text` and matching the line gives the turn back |
| Script.NoTagRejected | app/main.py:25-26 | a stripped line that does not start with a tag letter directly followed by a colon is dropped |
| Script.SpaceBeforeColonRejected | app/main.py:25-26 | `A :x` is dropped: the colon must follow the tag directly |
| Script.LowerCaseTagRejected | app/main.py:25-26 | `a: x` is dropped: tags are upper-case |
| Script.LongTagRejected | app/main.py:25-26 | `AB: x` is dropped: the tag is a single letter |
| Script.UnknownTagRejected | app/main.py:25-26 | `D: hi` is dropped: only A, B and C are tags |
| Script.EmptyUtteranceRejected | app/main.py:25-26 | `  A:   ` is dropped: the utterance must be non-empty |
| Script.ColonInUtterance | app/main.py:25-27 | in `A:B: x` the first colon ends the tag and the utterance is `B: x` |
| Script.ScriptLines | app/main.py:24 | `(text or "").splitlines()`: no line holds a line boundary, and there are no lines exactly when the script is absent or empty |
| Script.ParseLines | app/main.py:24-27 | there are no more turns than lines, and every utterance is well formed |
| Script.ParseLinesSelects | app/main.py:24-27 | parsing keeps exactly the matching lines, one turn each, in line order |
| Script.ParseLinesAppend | app/main.py:24-27 | the turns of a script are the turns of its first part followed by those of the rest |
| Script.RejectedLineIgnored | app/main.py:24-27 | a line the grammar rejects contributes nothing wherever it stands |
| Script.ParseScript | app/main.py:22-30 | failure exactly when no line matches, always with the fixed Spanish message; on success between one turn and one turn per line, all well formed |
| Script.ParseScriptSelects | app/main.py:22-30 | a successful result lists the turns of exactly the matching lines, in order |
| Script.EmptyScriptRejected | app/main.py:24 | a missing or empty script has no lines and is rejected |
| Script.FormatScriptLines | app/main.py:24 | a script written one line per turn splits back into those lines |
| Script.ParseFormatRoundTrip | app/main.py:22-30 | writing turns out as a script and parsing it gives the same turns back, when every utterance is well formed and holds no line boundary |
| Script.TwoLineScript | app/main.py:22-30 | `A: Hello\nB: Hi there` parses to the turns (A, `Hello`) and (B, `Hi there`) |
| Script.UnsupportedTagScript | app/main.py:28-29 | a script consisting of `D: hi` is rejected with the parser's message |
| Voices.ResolveCast | app/main.py:48-49 | a supplied voice for A or B is used; a missing one becomes `alloy` or `verse` |
| Voices.VoiceMap | app/main.py:57 | the voice dictionary has exactly the keys `A`, `B` and `C`, mapped to voice A, voice B and `aria` |
| Voices.Lookup | app/main.py:61 | `voice_map.get(spk, voice_a)`: the entry when the key is present, the fallback otherwise |
| Voices.VoiceFor | app/main.py:57-61 | speaker A uses voice A, B uses voice B, and C always uses `aria` |
| Voices.EveryTagMapped | app/main.py:57-61 | every tag the parser produces has an entry in the voice map |
| Voices.UnknownKeyFallsBack | app/main.py:61 | a key without an entry gets voice A |
| Voices.VoiceCFixed | app/main.py:57 | the voice of C is `aria` whatever the overrides |
| Voices.OverrideIsolated | app/main.py:48-49 | overriding voice A affects only speaker A, and likewise for B |
| Voices.DefaultCast | app/main.py:48-57 | with no overrides A speaks as `alloy`, B as `verse`, C as `aria` |
| Assembly.Tail | app/main.py:65-68 | loop iterations i..n-1 alternate clip, pause, clip, …, starting with clip i and ending with the last clip |
| Assembly.Layout | app/main.py:64-68 | leading 250 ms silence at position 0, clip k at position 2k+1, the pause at every other even position; length 2n (1 when there are no clips) |
| Assembly.LayoutUnique | app/main.py:64-68 | that positional description determines the layout completely |
| Assembly.LayoutClipsInOrder | app/main.py:65-66 | read left to right, the clips are 0, 1, …, n-1: each once, in turn order |
| Assembly.LayoutSeparatesClips | app/main.py:66-68 | exactly one pause lies between consecutive clips, and the result ends with the last clip |
| Assembly.TailDuration | app/main.py:65-68 | the loop's contribution lasts the clips from index i on, plus one pause per remaining gap |
| Assembly.LayoutDuration | app/main.py:64-68 | the result lasts 250 ms plus every clip plus (n-1) pauses |
| Assembly.SingleClipLayout | app/main.py:64-68 | one clip gives the leading silence and the clip, with no pause |
| Assembly.TwoClipLayout | app/main.py:64-68 | two clips give silence, clip 0, one pause, clip 1 |
| Assembly.TwoClipDuration | app/main.py:64-68 | two clips last 250 ms plus both clips plus one pause |
| Handler.BaseUrl | app/main.py:11 | `PUBLIC_BASE_URL` when set, `http://localhost:8000` otherwise |
| Handler.AuthRequired | app/main.py:44 | the header is checked exactly when the configured key is set and non-empty |
| Handler.Authorized | app/main.py:44 | the header check passes exactly when no key or an empty key is configured, or the header equals the key; a missing header never equals a key |
| Handler.PauseMs | app/main.py:50 | an absent pause is 500, a converted one is kept, and only an unconvertible one yields nothing |
| Handler.Requests | app/main.py:60-61 | one request per turn, in turn order, with the turn's text, in voice A for speaker A, voice B for B and `aria` for C |
| Handler.SynthesizeAll | app/main.py:60-62 | the requests made are a prefix of the turns' requests; every one but the last succeeded at its position; on success every request was made once, in order, with one clip length each; on failure the last request made is the one that failed, with its message |
| Handler.SynthesisStopsAtFirstFailure | app/main.py:60-62 | when request k is the first to fail, exactly requests 0..k are made and its message is reported |
| Handler.SynthesisSucceedsIff | app/main.py:60-62 | the loop completes exactly when every request succeeds |
| Handler.AudioUrl | app/main.py:70-73 | the URL is the base, then `/public/`, then the hex name, then `.mp3` |
| Handler.DuoTts | app/main.py:43-75 | every error status is 400, 401 or 500; every 500 detail starts with `TTS error: `; nothing is synthesized unless the header check passed and the stripped script is non-empty; a success always has exported audio and at least one request |
| Handler.Attempt | app/main.py:55-75 | the `try` block either answers with the URL, having exported audio after at least one request, or fails with status 500 and a detail starting with `TTS error: ` |
| Handler.StrippedScript | app/main.py:47 | `(payload.get("script") or "").strip()`: an absent or null script reads as empty; the result has no outer whitespace and is a contiguous piece of the script with only whitespace around it; it is empty exactly when the script is all whitespace |
| Handler.TtsError | app/main.py:74-75 | a failure inside the `try` becomes status 500 with detail `TTS error: ` followed by the message |
| Handler.AuthIff | app/main.py:44-45 | 401 exactly when a non-empty key is configured and the header differs from it; then the response is fixed and nothing else happens |
| Handler.NoKeyNoAuth | app/main.py:44 | with no key, or an empty one, no request is refused for its header |
| Handler.UncaughtIff | app/main.py:50-53 | an uncaught error happens exactly when the header check passes and the pause does not convert, even for a missing script; nothing is synthesized then |
| Handler.MissingScriptIff | app/main.py:47-53 | 400 `Falta 'script'` exactly when the header check passes, the pause converts and the script is missing, null or all whitespace |
| Handler.ParseFailureIs500 | app/main.py:55-56 | a script the parser rejects gives 500 with `TTS error: ` and the parser's message, and no synthesis |
| Handler.SuccessIff | app/main.py:43-75 | success exactly when the header check passes, the pause converts, the stripped script is non-empty and parses, every synthesis succeeds and the export does |
| Handler.SuccessWhen | app/main.py:55-73 | then the URL is the base, `/public/`, the hex name and `.mp3`; every turn was synthesized once, in order and in its speaker's voice; and the exported audio has the assembly layout, its clip k being the length request k's synthesis returned |
| Handler.SynthesisFailureResponse | app/main.py:59-62 | a synthesis failure gives 500 with the provider's message; the requests made are those of the loop up to the failing one, and nothing is exported |
| Handler.ExportFailureResponse | app/main.py:70-75 | when the export raises after every synthesis succeeded, the response is 500 with `TTS error: ` and the exporter's message; every turn was synthesized once, in order, and the audio handed over has the assembly layout, its clip k being the length request k's synthesis returned |
| Handler.PaddedScriptSameResponse | app/main.py:47 | whitespace around the whole script changes nothing in the response |
| Handler.MissingScriptRequest | app/main.py:47-53 | an absent script gives 400 `Falta 'script'` with no synthesis |
| Handler.UnsupportedTagPayload | app/main.py:47-56 | a payload whose script is `D: hi` is left unchanged by stripping and the parser rejects it with its message |
| Handler.UnsupportedTagRequest | app/main.py:55-56 | the script `D: hi` gives 500 with the parser's message |
| Handler.TwoLinePayload | app/main.py:47-56 | a payload whose script is `A: Hello\nB: Hi there` is left unchanged by stripping and parses to (A, `Hello`) and (B, `Hi there`) |
| Handler.TwoLineRequest | app/main.py:43-73 | the payload whose script is `A: Hello\nB: Hi there`, with defaults, synthesizes `Hello` in `alloy`, then `Hi there` in `verse`, and answers with `http://localhost:8000/public/<hex>.mp3` |
| Handler.TwoLineAudio | app/main.py:64-72 | the same request exports 250 ms silence, clip 0, a 500 ms pause, then clip 1 |
| Handler.TwoLineDuration | app/main.py:60-72 | in the same request clip 0 is what synthesizing `Hello` in `alloy` returned and clip 1 that of `Hi there` in `verse`, and the exported audio lasts 250 ms plus both clips plus 500 ms |

## Left out

- Lines 1-20: start-up is outside the model. This covers the imports, the `OPENAI_API_KEY` check that aborts start-up, the client, the application object and the static-file mount. The two settings the handler reads are the `Config` parameter.
- `synth_tts_to_file` (lines 32-40) and `AudioSegment.from_file` (line 62) are network and file I/O. Together they form the `Services.synthesize` parameter. The model keeps only a clip's length in milliseconds, or the exception message. The temporary files are not modelled.
- The export (line 72) and `uuid.uuid4()` (line 70) are parameters: an optional exception message and a given hex string. The file written under `public/` and the JSON encoding of the response are not modelled.
- A request is either refused or answered with a URL. The synthesis calls made before a failure are reported, but the provider's side effects are not modelled.
- `int()` on the pause is modelled only by its outcome: absent, the integer produced, or a raised error. How strings, floats or booleans convert is left out.
- Payload values that are neither strings nor absent are left out. Examples are a numeric `script`, whose `.strip()` would raise, and a `null` voice, which would be passed to the provider. The model's `script` field treats `null` like an absent field, as `or ""` does.
- The framework's own responses are left out. These are the JSON body parse and the generic 500 page for an uncaught exception, which the model reports as `Uncaught`.
- Audio content, sample rates, frame rounding and MP3 encoding are left out. A part is only its length in milliseconds.
- Assembly.LayoutDuration: requires a non-negative pause. How the audio library treats a silence of negative length is outside the model, although the handler itself accepts a negative pause.
- Handler.DuoTts: its own contract states only coarse facts. The full statement of each outcome is split across `AuthIff`, `UncaughtIff`, `MissingScriptIff`, `ParseFailureIs500`, `SuccessIff`, `SuccessWhen`, `SynthesisFailureResponse` and `ExportFailureResponse`.
