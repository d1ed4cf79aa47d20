# EmoRecorder core, modelled in Dafny

EmoRecorder is a browser app for recording spoken sentences with a given emotion. The user
pastes or uploads prompt text. The text is parsed into (emotion, sentence) prompts. The user
records each prompt from the microphone. The audio is converted to 16-bit PCM WAV and
uploaded under a path made from the user, the emotion and a slug of the sentence. At the end,
the completion page offers a metadata CSV and a ZIP archive of all recordings. A second,
localStorage-backed store keeps recordings per user.

This project models that core and proves properties of it:

| file | models |
|---|---|
| `Wrappers.dfy`, `Sequences.dfy` | an `Option` type and three sequence identities |
| `JsText.dfy` | the JavaScript string operations the core relies on: `trim` and its whitespace set, `toLowerCase`, `slice`, `endsWith`, `includes`, `split`/`join` and `split(sep).pop()` |
| `Slug.dfy` | `slugify`, as a pipeline of functions and as a method with the source's steps |
| `Prompts.dfy` | `parsePrompts`: the twelve-expression pre-clean and the line loop, as methods proved equal to a definition |
| `Wav.dfy` | `audioBufferToWav`: an array of bytes filled through a moving position, proved equal to a byte-level definition of the file |
| `AudioCapture.dfy` | the `AudioRecorder` class: its six nullable browser references, the chunk list, start, stop, cleanup and device filtering |
| `Storage.dfy` | `CloudStorage`: localStorage as a map from keys to stored JSON (or unparseable text), with upload, download, delete and stats |
| `RecorderPage.dfy` | the `Recorder` page: the upload path of a recording, `moveToNext`, and the two halves of `handleSave` around the upload |
| `Completion.dfy` | the `CompletionPage`: the metadata CSV and the ZIP loop of `downloadAllRecordings` |

The browser, Supabase, the clock and the decoder are parameters. Each becomes a function
argument or a value passed in: the upload result, the download function, `Date.now()`, the
granted stream, the decoded `AudioBuffer`.

## Model

| member | source | states |
|---|---|---|
| `JsText.Trim` | src/utils/parsePrompts.ts:41 | the result has no leading or trailing JavaScript whitespace and is no longer than the input |
| `JsText.TrimStart` | src/utils/slugify.ts:13 | the result is a suffix of the input; only whitespace was removed, up to the first non-space character |
| `JsText.TrimDropsOnlySpace` | src/utils/parsePrompts.ts:41 | the trimmed string is a slice of the input with only JavaScript whitespace before and after it |
| `JsText.TrimEnd` | src/utils/slugify.ts:13 | the result is a prefix of the input; only whitespace was removed, back to the last non-space character |
| `JsText.TrimOfTrimmed` | src/utils/parsePrompts.ts:41 | trimming a trimmed string changes nothing |
| `JsText.TrimAllSpace` | src/utils/parsePrompts.ts:44 | a string of whitespace trims to the empty string, the falsy value the loop skips |
| `JsText.LowerKeepsCaseless` | src/pages/Recorder.tsx:28 | `toLowerCase` neither adds nor removes a caseless character such as '/' |
| `JsText.Slice` | src/pages/Recorder.tsx:29 | `slice(0, n)` is the prefix of length min(length, n) |
| `JsText.IndexOf` | src/pages/CompletionPage.tsx:45 | the first position of the separator: it is there, and not before |
| `JsText.Split` | src/pages/CompletionPage.tsx:45 | `split` yields at least one part, and no part holds the separator |
| `JsText.SplitJoin` | src/utils/parsePrompts.ts:37 | splitting a join of separator-free parts gives the parts back |
| `JsText.JoinSplit` | src/pages/CompletionPage.tsx:80 | joining the parts of a split gives the string back |
| `JsText.SplitAround` | src/pages/Recorder.tsx:31 | a separator between two strings splits them apart, part lists concatenated |
| `JsText.LastSegmentSuffix` | src/pages/CompletionPage.tsx:45 | `split(sep).pop()` is the suffix after the last separator, and holds none |
| `JsText.LastSegmentAfterTrailing` | src/pages/CompletionPage.tsx:45 | a path ending in the separator has an empty last segment |
| `Slug.TableExpands` | src/utils/slugify.ts:16-18 | the seven global replacements, applied key by key, expand each umlaut and ß to its two letters and keep every other character |
| `Slug.ExpandAllNoKey` | src/utils/slugify.ts:3-11 | text without a table key is left alone by the expansion |
| `Slug.DropDisallowed` | src/utils/slugify.ts:22 | only lower-case ASCII letters, digits, whitespace and '-' survive; text made of those is unchanged |
| `Slug.DropAlnums` | src/utils/slugify.ts:22 | dropping disallowed characters keeps every ASCII letter and digit, in order |
| `Slug.Collapse` | src/utils/slugify.ts:23 | a run of whitespace, '_' or '-' becomes one '-'; the result is empty iff the input is, and ends in '-' iff the input ends in a separator |
| `Slug.CollapseShape` | src/utils/slugify.ts:23 | on kept characters, collapsing yields only slug characters and never two '-' in a row |
| `Slug.CollapseAlnums` | src/utils/slugify.ts:23 | collapsing keeps every ASCII letter and digit, in order |
| `Slug.CollapseOfSlug` | src/utils/slugify.ts:23 | collapsing changes nothing in a string of slug characters with no double hyphen |
| `Slug.StripHyphens` | src/utils/slugify.ts:24 | the result is a slice of the input with only hyphens before and after it, and neither starts nor ends with '-' |
| `Slug.StripAlnums` | src/utils/slugify.ts:24 | stripping the outer hyphens keeps every ASCII letter and digit |
| `Slug.StripOfSlug` | src/utils/slugify.ts:24 | stripping changes nothing in a string that neither starts nor ends with a hyphen |
| `Slug.Slug` | src/utils/slugify.ts:1-27 | every slug is lower-case ASCII letters, digits and single inner hyphens, with no hyphen at either end |
| `Slug.Slugify` | src/utils/slugify.ts:1-27 | the method with the source's steps (lower-case, trim, replacement loop, three regex passes) returns `Slug(text)` |
| `Slug.SlugOfSlug` | src/utils/slugify.ts:21-24 | a string already in slug form is its own slug |
| `Slug.SlugIdempotent` | src/utils/slugify.ts:1-27 | slugifying twice is slugifying once |
| `Slug.SlugKeepsAlnums` | src/utils/slugify.ts:13-24 | the slug holds exactly the ASCII letters and digits of the lower-cased, umlaut-expanded text, in order |
| `Slug.SlugWithoutAlnums` | src/utils/slugify.ts:21-24 | text with no ASCII letter or digit after expansion has the empty slug |
| `Slug.PunctuationOnly` | src/utils/slugify.ts:22 | text made only of whitespace and ASCII punctuation has the empty slug |
| `Prompts.PatternsValid` | src/utils/parsePrompts.ts:10-29 | each of the twelve expressions is anchored on a literal that cannot match the empty string |
| `Prompts.LastNewline` | src/utils/parsePrompts.ts:25-28 | the last newline in a range, or none when the range has no newline |
| `Prompts.MatchAt` | src/utils/parsePrompts.ts:33-35 | a match starting at a position ends after it and inside the text |
| `Prompts.ReplaceFromUnchanged` | src/utils/parsePrompts.ts:34 | a global replace with no match anywhere leaves the text unchanged |
| `Prompts.CleanWithSpace` | src/utils/parsePrompts.ts:31-35 | whitespace-only text passes the pre-clean unchanged |
| `Prompts.PairReplaced` | src/utils/parsePrompts.ts:12-23 | a picker label pair separated only by whitespace becomes a single newline |
| `Prompts.LineReplaced` | src/utils/parsePrompts.ts:25-28 | a picker label alone on its line, with its surrounding newlines, becomes a single newline |
| `Prompts.CleanText` | src/utils/parsePrompts.ts:31-35 | the loop over the twelve expressions yields the pre-clean definition `Clean(text)` |
| `Prompts.Classify` | src/utils/parsePrompts.ts:41-67 | each line is blank, an exact picker label, a header (ending in ':') or a trimmed non-blank sentence |
| `Prompts.KindsAppend` | src/utils/parsePrompts.ts:40 | lines are classified one by one, independently of their neighbours |
| `Prompts.Parse` | src/utils/parsePrompts.ts:6-71 | no more prompts than lines; every prompt has a non-empty emotion and a trimmed, non-blank sentence |
| `Prompts.ParsePrompts` | src/utils/parsePrompts.ts:6-71 | the method with the source's steps (pre-clean, trim, split at newlines, line loop) returns `PromptsOf(text)`, and every prompt is well formed |
| `Prompts.ReadLines` | src/utils/parsePrompts.ts:38-68 | the loop over the lines, from no emotion and no prompts, returns `Parse(lines)` |
| `Prompts.ReadLine` | src/utils/parsePrompts.ts:41-67 | one iteration: the new emotion and the prompts extended by what that line emits |
| `Prompts.ParseStep` | src/utils/parsePrompts.ts:40-68 | reading one more line updates the emotion and extends the prompts exactly as one loop iteration does |
| `Prompts.ParseAppend` | src/utils/parsePrompts.ts:40-68 | parsing two blocks of lines is parsing the first, then the second under the emotion the first left |
| `Prompts.SkippedLineNeutral` | src/utils/parsePrompts.ts:43-56 | removing a blank line or a picker-label line never changes the prompts |
| `Prompts.HeaderStartsSection` | src/utils/parsePrompts.ts:59-60 | a header line replaces the current emotion, whatever it was |
| `Prompts.SentenceLine` | src/utils/parsePrompts.ts:61-67 | a sentence line adds one prompt with the current emotion, and none while no header has been seen |
| `Prompts.NoHeaderNoPrompts` | src/utils/parsePrompts.ts:38 | text without a header line yields no prompts |
| `Prompts.BlankTextNoPrompts` | src/utils/parsePrompts.ts:37-44 | whitespace-only text yields no prompts |
| `Prompts.ExampleLinesParse` | src/pages/ImportPrompts.tsx:18-28 | the lines of the app's sample text yield two prompts per section, in order, each with its section's emotion |
| `Prompts.PatternsBlocked` | src/utils/parsePrompts.ts:10-29 | every alternative of the twelve expressions holds a non-ASCII character or the letter pair "fi" or "ch", in either case |
| `Prompts.NoMatchInPlain` | src/utils/parsePrompts.ts:33-34 | none of the twelve expressions matches anywhere in printable ASCII text without "fi" or "ch" |
| `Prompts.CleanWithPlain` | src/utils/parsePrompts.ts:31-35 | such text passes the pre-clean unchanged |
| `Prompts.ExampleTextPlain` | src/pages/ImportPrompts.tsx:18-28 | the app's sample text is such text, and none of its lines holds a newline |
| `Prompts.ExampleParse` | src/pages/ImportPrompts.tsx:18-28 | the app's sample text itself, run through the whole of `parsePrompts` (pre-clean, trim, split, loop), yields two prompts per section, in order, each with its section's emotion |
| `Wav.Le16RoundTrip` | src/utils/audioRecorder.ts:99-102 | reading back a little-endian `setUint16` gives the value modulo 2^16 |
| `Wav.Le16SignedRoundTrip` | src/utils/audioRecorder.ts:141 | reading back a signed 16-bit value in range gives it exactly |
| `Wav.Le32RoundTrip` | src/utils/audioRecorder.ts:104-107 | reading back a little-endian `setUint32` gives the value modulo 2^32 |
| `Wav.Pcm16Range` | src/utils/audioRecorder.ts:139-140 | every converted sample fits a signed 16-bit integer |
| `Wav.Pcm16FullScale` | src/utils/audioRecorder.ts:139-140 | samples at or beyond ±1 clip to 0x7FFF and -0x8000; silence stays 0 |
| `Wav.Pcm16HalfScale` | src/utils/audioRecorder.ts:140 | the scaling is asymmetric: +0.5 becomes 16383 and -0.5 becomes -16384 |
| `Wav.Pcm16Monotonic` | src/utils/audioRecorder.ts:139-140 | a louder sample never converts to a smaller integer |
| `Wav.WriteString` | src/utils/audioRecorder.ts:110-115 | writes the ASCII codes of the string at the position and advances past them; bytes before and after are untouched |
| `Wav.SetUint16` | src/utils/audioRecorder.ts:99-102 | writes two little-endian bytes and advances by two; bytes before and after are untouched |
| `Wav.SetUint32` | src/utils/audioRecorder.ts:104-107 | writes four little-endian bytes and advances by four; bytes before and after are untouched |
| `Wav.SetInt16` | src/utils/audioRecorder.ts:141-142 | writes the truncated sample as two little-endian bytes and advances by two; bytes before and after are untouched |
| `Wav.WriteRiffDescriptor` | src/utils/audioRecorder.ts:117-119 | writes "RIFF", the chunk size and "WAVE" |
| `Wav.WriteFmtChunk` | src/utils/audioRecorder.ts:120-127 | writes the 24 bytes of the "fmt " chunk: id, size 16, PCM tag 1, channels, rate, byte rate, block align, 16 bits |
| `Wav.WriteDataChunkHeader` | src/utils/audioRecorder.ts:128-129 | writes "data" and the number of bytes that follow the header |
| `Wav.WriteHeader` | src/utils/audioRecorder.ts:117-129 | the first 44 bytes are the RIFF/fmt/data header of the buffer |
| `Wav.CollectChannels` | src/utils/audioRecorder.ts:132-134 | the channel list is the buffer's channel data, channel by channel |
| `Wav.AudioBufferToWav` | src/utils/audioRecorder.ts:90-148 | the array has `44 + 2 * length * channels` bytes and holds exactly the WAV file of the buffer |
| `Wav.WriteSamples` | src/utils/audioRecorder.ts:137-145 | the interleaving loop writes frame after frame, channel after channel, after the header |
| `Wav.WriteFrame` | src/utils/audioRecorder.ts:138-143 | one pass of the inner loop writes the frame's samples, channel by channel, and advances two bytes per channel |
| `Wav.WavSize` | src/utils/audioRecorder.ts:91 | the file is 44 header bytes plus two bytes per sample per channel |
| `Wav.WavMarkers` | src/utils/audioRecorder.ts:117-128 | the file carries the "RIFF", "WAVE", "fmt " and "data" markers at their offsets |
| `Wav.WavHeaderFields` | src/utils/audioRecorder.ts:117-129 | each header field reads back as the chunk size, PCM format 1, channel count, rate, byte rate, block align, 16 bits and data size, modulo the field's width |
| `Wav.WavHeaderFieldsExact` | src/utils/audioRecorder.ts:117-129 | when the sizes fit their fields, the header fields read back exactly |
| `Wav.WavSampleAt` | src/utils/audioRecorder.ts:137-145 | sample f of channel c is at byte `44 + 2 * (f * channels + c)` and reads back as its 16-bit conversion |
| `Wav.MonoExampleSize` | src/utils/audioRecorder.ts:91 | one second of mono audio at 48 kHz is 96044 bytes |
| `AudioCapture.ChooseOptions` | src/utils/audioRecorder.ts:38-48 | opus at 256 kbit/s when the browser supports it, the browser's default otherwise |
| `AudioCapture.NonEmptyChunks` | src/utils/audioRecorder.ts:52-56 | keeps exactly the chunks of non-zero size, in order |
| `AudioCapture.NonEmptyChunksAppend` | src/utils/audioRecorder.ts:52-56 | filtering chunk by chunk as they arrive is filtering the whole list |
| `AudioCapture.AudioInputs` | src/utils/audioRecorder.ts:165-168 | keeps exactly the devices of kind "audioinput", in order |
| `AudioCapture.AudioInputsAppend` | src/utils/audioRecorder.ts:165-168 | the device filter works device by device |
| `AudioCapture.AudioRecorder.constructor` | src/utils/audioRecorder.ts:1-7 | a new recorder holds no browser object and no chunk |
| `AudioCapture.AudioRecorder.StartRecording` | src/utils/audioRecorder.ts:9-59 | requests 48 kHz, 16-bit mono with all processing off and an exact device only for a non-empty id; on a granted stream it wires the graph and starts with no chunks; on a refusal nothing changes |
| `AudioCapture.AudioRecorder.OnDataAvailable` | src/utils/audioRecorder.ts:52-56 | a chunk is appended only when its size is positive |
| `AudioCapture.AudioRecorder.Cleanup` | src/utils/audioRecorder.ts:150-163 | stops the stream and closes the context when present, then clears every reference and the chunks |
| `AudioCapture.AudioRecorder.StopRecording` | src/utils/audioRecorder.ts:61-88 | with no recorder it resolves an empty Blob; otherwise it resolves the WAV of the decoded chunks as "audio/wav" and cleans up, or never settles when decoding fails |
| `AudioCapture.AudioRecorder.ConvertToWav` | src/utils/audioRecorder.ts:79-88 | the decoded chunks become a Blob of type "audio/wav" holding exactly the WAV file; no Blob when decoding fails |
| `Storage.KeyInjective` | src/utils/cloudStorage.ts:43 | two users never share a localStorage key |
| `Storage.SanitizeSentence` | src/utils/cloudStorage.ts:21-24 | at most 50 characters; each ASCII letter or digit lower-cased, every other character '_' |
| `Storage.DecimalRoundTrip` | src/utils/cloudStorage.ts:26 | the timestamp's decimal digits read back as the timestamp |
| `Storage.EmotionTag` | src/utils/cloudStorage.ts:26 | an absent or empty emotion becomes "single"; any other emotion is kept |
| `Storage.FileNameIdentifiesTimestamp` | src/utils/cloudStorage.ts:26 | one user's uploads at different times never share a file name |
| `Storage.WithoutFile` | src/utils/cloudStorage.ts:75 | keeps only records of other file names; the length is unchanged iff no record had that name |
| `Storage.WithoutFileAppend` | src/utils/cloudStorage.ts:75 | the filter keeps the other records in their order |
| `Storage.WithoutAbsentFile` | src/utils/cloudStorage.ts:75-79 | deleting a file name that no record has leaves the list as it was |
| `Storage.FirstWithFile` | src/utils/cloudStorage.ts:65 | `find` returns the first record with the file name, or nothing iff no record has it |
| `Storage.CountType` | src/utils/cloudStorage.ts:99-100 | the count of one recording type is the number of records of that type, no more than the list's length |
| `Storage.CountsCoverAll` | src/utils/cloudStorage.ts:98-100 | batch and single counts add up to the total |
| `Storage.DownloadAfterUpload` | src/utils/cloudStorage.ts:38-45 | after an upload, a download of its file name finds it, unless an earlier record already had that name |
| `Storage.DeleteAfterUpload` | src/utils/cloudStorage.ts:73-87 | deleting the file name of the last upload removes it and every earlier record with that name |
| `Storage.StatsAfterUpload` | src/utils/cloudStorage.ts:38-45 | an upload adds one to the total and one to the count of its own type, and leaves the other type's count alone |
| `Storage.StatsOf` | src/utils/cloudStorage.ts:97-102 | the total is the list's length, the batch and single counts are the numbers of records of each type, the duration is 0 |
| `Storage.OtherUsersUnaffected` | src/utils/cloudStorage.ts:42-45 | a write under one user's key leaves every other user's list as it was |
| `Storage.CloudStorage.UploadRecording` | src/utils/cloudStorage.ts:15-50 | the generated file name; the record appended to the user's list and written back under the user's key, nothing else written |
| `Storage.CloudStorage.DownloadRecording` | src/utils/cloudStorage.ts:63-71 | null exactly when no record of the user has that file name; otherwise the stored audio data of the first record with that name |
| `Storage.CloudStorage.DeleteRecording` | src/utils/cloudStorage.ts:73-87 | true iff a record had the name; then the filtered list is written back, otherwise localStorage is untouched |
| `Storage.CloudStorage.GetRecordingStats` | src/utils/cloudStorage.ts:89-103 | the total is the list's length, the batch and single counts are the numbers of the user's records of each type, batch plus single is the total, duration is 0 |
| `RecorderPage.EntryFileName` | src/pages/Recorder.tsx:28-30 | `<lower-cased emotion>_<slug of the first 50 characters>.wav` |
| `RecorderPage.FileNameHasNoSlash` | src/pages/Recorder.tsx:28-30 | the file name holds a '/' only when the emotion does |
| `RecorderPage.UploadPathSegments` | src/pages/Recorder.tsx:31 | the path's segments are those of the user id, of the lower-cased emotion and of the file name |
| `RecorderPage.UploadPathLevels` | src/pages/Recorder.tsx:28-31 | with no '/' in the user id or the emotion, the path has exactly three levels: user, emotion, file name |
| `RecorderPage.UploadPathFileName` | src/pages/CompletionPage.tsx:45 | the last segment of an upload path, which the completion page uses, is the file name |
| `RecorderPage.EmotionSlashAddsLevels` | src/pages/Recorder.tsx:28 | a '/' in the emotion adds levels, because the emotion is not slugified |
| `RecorderPage.NextIndexInRange` | src/pages/Recorder.tsx:81-87 | the cursor stays on a prompt, and `onComplete` fires exactly when it does not move |
| `RecorderPage.IndexAfterSteps` | src/pages/Recorder.tsx:81-87 | n moves from the first prompt reach prompt n, stopping at the last |
| `RecorderPage.UploadErrorMessage` | src/pages/Recorder.tsx:47-63 | the alert is the failure prefix plus the first matching hint (RLS, bucket, signature), else the message itself, or "undefined" when there is none |
| `RecorderPage.Recorder.constructor` | src/pages/Recorder.tsx:17-19 | starts at the first prompt, not uploading |
| `RecorderPage.Recorder.MoveToNext` | src/pages/Recorder.tsx:81-87 | advances the cursor unless it is on the last prompt, in which case `onComplete` is called once |
| `RecorderPage.Recorder.BeginSave` | src/pages/Recorder.tsx:23-31 | without a user nothing happens; otherwise the uploading flag is set and the path names the current prompt; with no current prompt the save fails with the generic alert and the flag is cleared |
| `RecorderPage.Recorder.FinishSave` | src/pages/Recorder.tsx:47-78 | only an upload without error advances; an error or an exception alerts and keeps the cursor; the flag is cleared on every path |
| `Completion.CsvRowRoundTrip` | src/pages/CompletionPage.tsx:67-80 | a row of quote-free fields decodes back to emotion, sentence, file name and path |
| `Completion.QuotesNotEscaped` | src/pages/CompletionPage.tsx:78 | quotes in a field are not escaped, so two different files can give the same row |
| `Completion.CsvStartsWithHeader` | src/pages/CompletionPage.tsx:75-80 | the CSV starts with the header line, and is only that header when there are no files |
| `Completion.CsvNoTrailingNewline` | src/pages/CompletionPage.tsx:80 | the CSV does not end in a newline |
| `Completion.CsvLines` | src/pages/CompletionPage.tsx:75-80 | for newline-free fields, the CSV's lines are the header followed by one row per file |
| `Completion.ZipFileName` | src/pages/CompletionPage.tsx:45 | the entry's file name is never empty and holds no '/' |
| `Completion.ZipFileNameFallback` | src/pages/CompletionPage.tsx:45 | an empty path or one ending in '/' falls back to "recording.wav"; otherwise the path's last segment |
| `Completion.AddFile` | src/pages/CompletionPage.tsx:47 | `zip.file` appends a new name, and replaces the data of an existing name in place |
| `Completion.AddFileKeepsUnique` | src/pages/CompletionPage.tsx:47 | the archive never holds two entries of one name |
| `Completion.ZipAbortsOnThrow` | src/pages/CompletionPage.tsx:30-60 | no archive is produced exactly when some download throws |
| `Completion.ZipUniqueNames` | src/pages/CompletionPage.tsx:34-51 | the entry names of a finished archive are distinct |
| `Completion.ZipSkipsFailures` | src/pages/CompletionPage.tsx:43-50 | with distinct entry names and no exception, the archive holds one entry per downloaded file, in order, and skips failed downloads |
| `Completion.DownloadAllRecordings` | src/pages/CompletionPage.tsx:24-65 | without a user nothing happens; an exception aborts; otherwise the loop's archive is `ZipOf` of the files, with distinct names |

## Left out

- Browser and network I/O: `getUserMedia`, `AudioContext`, `MediaRecorder`, Supabase storage, `localStorage`, `saveAs`, `alert` and the console. Each is a parameter of the method that uses it, or a result of it.
- Promises and concurrency: each `await` is a call boundary. `handleSave` is split into `BeginSave` and `FinishSave` around the upload. React state batching and the stale `currentIndex` closure are not modelled, so each save and skip acts on the latest state.
- Floating point: samples are exact reals. NaN and infinities are out of scope.
- `JsText.ToLowerCase`: covers ASCII and Latin-1 capitals only; other Unicode case mappings are not modelled.
- `JsText.Slice`: counts characters, where JavaScript counts UTF-16 code units; the two differ only outside the Basic Multilingual Plane.
- `Storage.CloudStorage.UploadRecording`: returns the generated file name, where the source returns `URL.createObjectURL(audioBlob)`, an opaque browser URL. The stored `audioData` (base64 of the Blob) is an input string; `blobToBase64` and `base64ToBlob` are not modelled.
- `Storage.CloudStorage.DownloadRecording`: returns the stored base64 text instead of the decoded Blob.
- `Storage.CloudStorage.UploadRecording`: a `localStorage.setItem` that throws (storage quota exceeded) is not modelled; the source then rejects the upload and nothing is written.
- `Storage.CloudStorage.DeleteRecording`: a `localStorage.setItem` that throws (storage quota exceeded) is not modelled; the source then throws instead of returning, and nothing is written.
- `Storage.CloudStorage.GetUserRecordings`: stored text that parses as JSON but not as a list (for example `null` or `{}`) is not modelled; the source returns that value, and the `push`, `find` or `filter` of the caller then throws.
- `Storage.SanitizeSentence`: counts characters, where `slice` counts UTF-16 code units and the regular expression replaces each unit; a character outside the Basic Multilingual Plane becomes "__" in the source and "_" here.
- `AudioCapture.AudioRecorder.ConvertToWav`: the second `AudioContext` it creates to decode the chunks is never closed in the source; the model does not track it, so it is not recorded in `released`.
- JSON: `JSON.stringify` then `JSON.parse` is taken to give back the same list. Text that does not parse is the `Unparseable` case.
- `Completion.DownloadAllRecordings`: JSZip's implicit folder entries, `generateAsync`, the dated archive name, `saveAs`, the progress bar and the finally block's state reset are not modelled.
- The dated CSV file name and the `Blob` around the CSV text are not modelled.
- `Wav.AudioBufferToWav`: covers the 16-bit path only, as the source writes it. The `ArrayBuffer`/`DataView` pair is one byte array.
- `AudioCapture.AudioRecorder.StartRecording`: `isTypeSupported` is a boolean input. The `AudioContext` sample rate and the media graph's connections are not tracked.
- The `onstop` handler is modelled as running when `stopRecording` is called; the recorder's own event timing is not modelled.
- There is no guard against starting a second session while one is running, as in the source.
- The rest of the app (routing, sign-in, the import page's file reading, the downloads and admin pages, styling) is not part of this model.
