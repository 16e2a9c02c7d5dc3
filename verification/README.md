# tubestampprod timestamp generator — a verified model

tubestampprod is a small web application that generates chapter timestamps
for YouTube videos. A React client checks the URL the user types. If the
browser's history of earlier generations already has that URL, the client
shows the stored list. Otherwise it calls a Firebase cloud function, which
forwards the request to the Bumpups timestamp service. The client normalises
the reply into a list of timestamp objects. It saves every non-empty list in
its local history, and a copy button turns the list back into text.

This project models that core in Dafny and proves properties of the model:

- `text.dfy`: the JavaScript string operations the client relies on:
  - `trim` (ECMAScript white space and line terminators);
  - `split`/`join` on one character, `includes`, `substring(0, n)`;
  - decimal rendering of status codes.
- `youtube_url.dfy`: the client's YouTube URL pattern. A deterministic
  recogniser is proved equal to the pattern's declarative reading.
- `timecode.dfy`: the per-line timecode pattern of the text fallback (a
  recogniser that follows the regex engine's greedy matching) and the
  entry built from each line.
- `normalizer.dfy`: how a successful payload becomes the displayed list:
  `timestamps_list` first, then the line-by-line text fallback, then the
  whole string as one description.
- `copy_text.dfy`: the copy button's per-entry formatting and `\n` join,
  with the round trip back through the text fallback.
- `history.dfy`: the local history: lookup, the most-recent-first load
  sort, save (replace in place or append, keep the first 50), delete,
  clear, and the save trigger.
- `orchestrator.dfy`: `handleGenerateTimestamps`, covering:
  - URL validation and the history hit;
  - reply handling: content type, JSON parse, non-ok status and error-message precedence;
  - the `catch` block's message;
  - the combination with the history's save effect.
- `dispatch.dfy`: the cloud function, covering:
  - `call_bumpups_api`'s result tuple;
  - `generate_timestamps`'s decision table: preflight, method, body, API key, batch, single URL, missing field, internal error;
  - the batch aggregation, whose counts and record multisets do not depend on the order the calls complete in.

Environment inputs are parameters:
- the remote service's outcome for call `k` is `remote(k)`;
- the `fetch` reply is a `Reply` value;
- `localStorage` is a `Slot` value: empty, unreadable, or holding records;
- the clock is an integer `now`;
- the API key is an `Option<string>`.

Truncation keeps the first 50 records, as `items.slice(0, 50)` does,
although the comment above it speaks of the "last 50 items". Once 50
records are stored, every new URL is therefore dropped
(`History.FullStoreDropsNewUrl`), while known URLs are still updated in place.

## Model

| member | source | states |
|---|---|---|
| YouTubeUrl.IsYouTubeUrlIff | src/unAuth/components/timestampcomp/VideoList.js:8-9 | the recogniser accepts a URL exactly when the pattern matches it: optional `http(s)://`, optional `www.`, one of the three hosts, eleven id characters, then non-white-space to the end |
| YouTubeUrl.RecognisedMatchesPattern | src/unAuth/components/timestampcomp/VideoList.js:8-9 | every URL the recogniser accepts matches the pattern |
| YouTubeUrl.PatternRecognised | src/unAuth/components/timestampcomp/VideoList.js:8-9 | every way of laying the pattern over a URL is found by the recogniser, although it never backtracks |
| Timecode.TimecodeEnd | src/unAuth/components/timestampcomp/VideoList.js:150 | a leading timecode that is found is a complete `h:mm`, `hh:mm`, `h:mm:ss` or `hh:mm:ss` |
| Timecode.TimecodeEndFindsBoundary | src/unAuth/components/timestampcomp/VideoList.js:150 | a timecode followed by neither a digit nor a colon is exactly the one found |
| Timecode.BodyStart | src/unAuth/components/timestampcomp/VideoList.js:150 | the second group it finds after the dash is non-empty, preceded only by white space, and free of line terminators |
| Timecode.MatchTimecodeLine | src/unAuth/components/timestampcomp/VideoList.js:150 | a match it reports is a way of laying the line pattern over the line (timecode, white space, dash, white space, a non-empty rest without line terminators) |
| Timecode.MatchTimecodeLineComplete | src/unAuth/components/timestampcomp/VideoList.js:150 | whenever the pattern matches, the recogniser matches at the same timecode and dash, with the second group as short as greedy `\s*` makes it |
| Timecode.MatchTimecodeLineIff | src/unAuth/components/timestampcomp/VideoList.js:150-151 | the recogniser succeeds exactly on the lines the pattern matches |
| Timecode.ParseLine | src/unAuth/components/timestampcomp/VideoList.js:148-159 | every parsed entry has a description and no `text`; a timestamp, when present, is a timecode |
| Timecode.ParseLineAt | src/unAuth/components/timestampcomp/VideoList.js:150-155 | for any match, the entry's timestamp is the first group and its description is the trimmed text after the dash |
| Timecode.ParseLineSpec | src/unAuth/components/timestampcomp/VideoList.js:150-158 | a line gets a timestamp exactly when it matches; any other line becomes its trimmed self as a description |
| Timecode.ParseSpacedHyphenLine | src/unAuth/components/timestampcomp/VideoList.js:150-155 | `t - d` with a timecode `t` and a trimmed, non-empty, single-line `d` parses to exactly `{timestamp: t, description: d}` |
| Normalizer.KeepNonBlank | src/unAuth/components/timestampcomp/VideoList.js:147 | the kept lines are non-blank lines of the input, and every non-blank input line is kept |
| Normalizer.KeepNonBlankAppend | src/unAuth/components/timestampcomp/VideoList.js:147 | filtering a concatenation filters each part and keeps their order, so lines keep their order and repetitions |
| Normalizer.KeepNonBlankOne | src/unAuth/components/timestampcomp/VideoList.js:147 | a single line is kept exactly when it is not blank |
| Normalizer.ParseLines | src/unAuth/components/timestampcomp/VideoList.js:148-159 | one entry per line, entry `k` parsed from line `k` |
| Normalizer.Normalize | src/unAuth/components/timestampcomp/VideoList.js:142-163 | a non-empty `timestamps_list` is shown as it is; the list is empty exactly when the list field is missing or empty and the string field is falsy |
| Normalizer.ParseTimestampsStringAppend | src/unAuth/components/timestampcomp/VideoList.js:147-159 | lines are parsed independently and their entries keep line order |
| Normalizer.ParseTimestampsStringLine | src/unAuth/components/timestampcomp/VideoList.js:147-159 | a single line yields nothing when blank and its parsed entry otherwise |
| Normalizer.ParseTimestampsStringEmptyIff | src/unAuth/components/timestampcomp/VideoList.js:147-160 | the text fallback yields no entries exactly when the whole string is white space |
| Normalizer.NormalizeTextFallback | src/unAuth/components/timestampcomp/VideoList.js:144-160 | with an unusable list and a non-empty string, an all-white-space string is shown as one description and any other string as its parsed lines |
| Normalizer.ParseSpacedHyphenText | src/unAuth/components/timestampcomp/VideoList.js:147-159 | the text `t - d` is one line and yields exactly the entry `{timestamp: t, description: d}` |
| CopyText.FormatEntry | src/unAuth/components/timestampcomp/StampPop.js:12-25 | every line is non-empty, and the first applicable form wins: `t - d`, then `t - text` when the description is falsy, then bare `t`, then `d`, then `text`, then the JSON dump of an entry with no truthy field |
| CopyText.FormatAll | src/unAuth/components/timestampcomp/StampPop.js:11-25 | one line per entry, line `k` formatted from entry `k` |
| CopyText.CopiedText | src/unAuth/components/timestampcomp/StampPop.js:7-26 | nothing is copied exactly when the list is missing or empty |
| CopyText.RendersIffCopies | src/unAuth/components/timestampcomp/StampPop.js:36-38 | the panel renders exactly when the copy handler has something to copy |
| CopyText.CopiedTextLines | src/unAuth/components/timestampcomp/StampPop.js:11-26 | splitting the copied text at line breaks gives back the formatted lines, in entry order |
| CopyText.DescriptionHidesText | src/unAuth/components/timestampcomp/StampPop.js:13-16 | with a truthy description, the `text` field never reaches the line |
| CopyText.OnlyTruthyFieldsCount | src/unAuth/components/timestampcomp/StampPop.js:13-24 | two entries with the same truthy fields, at least one of them, copy to the same line |
| CopyText.ParsedDescriptionClean | src/unAuth/components/timestampcomp/VideoList.js:150-155 | a parsed description is already trimmed and holds no line terminator |
| CopyText.TimedEntryRoundTrip | src/unAuth/components/timestampcomp/StampPop.js:13-14 | an entry parsed from a timecode line with a non-empty description copies to a line that parses back to the same entry |
| CopyText.EmptyDescriptionLosesTimestamp | src/unAuth/components/timestampcomp/StampPop.js:17-18 | a timed entry with an empty description copies as the bare timecode, which parses back as a description without a timestamp |
| CopyText.BareTimecodeIsDescription | src/unAuth/components/timestampcomp/VideoList.js:150-158 | a bare timecode does not match the line pattern and parses to a description only |
| CopyText.CopyThenParseRoundTrip | src/unAuth/components/timestampcomp/StampPop.js:11-26 | copying a non-empty list of clean timed entries and normalising the copied text as `timestamps_string` gives back the same list |
| History.FindIndex | src/unAuth/components/History.js:29 | the index found is the first record with the URL; none means no record has it |
| History.Lookup | src/unAuth/components/timestampcomp/VideoList.js:17-31 | a record is found exactly when the slot parses and some record has the URL, and it is the first such record |
| History.SortByRecency | src/unAuth/components/History.js:15 | the sorted list is a permutation of the stored one, most recent first |
| History.InsertKeepsDescending | src/unAuth/components/History.js:15 | inserting a record into a most-recent-first list keeps it most recent first |
| History.SortIsStable | src/unAuth/components/History.js:15 | records saved at the same instant keep their stored order |
| History.SortKeepsDescending | src/unAuth/components/History.js:15 | a list already most recent first is left unchanged |
| History.Load | src/unAuth/components/History.js:9-21 | the panel shows a sorted permutation of the stored records; storage is not rewritten; an empty or unreadable slot leaves the panel unchanged |
| History.SaveItems | src/unAuth/components/History.js:28-52 | at most 50 records; a known URL is replaced at its index and every other record is kept; a new URL is appended, or falls off a full list |
| History.Save | src/unAuth/components/History.js:23-59 | an unreadable slot makes the save a no-op; an empty slot becomes the single record; afterwards the panel shows the stored records most recent first |
| History.Remove | src/unAuth/components/History.js:78 | a record survives exactly when it was stored and has another URL |
| History.Delete | src/unAuth/components/History.js:73-85 | without readable records nothing changes; otherwise the URL's records are dropped and the panel reloaded |
| History.Clear | src/unAuth/components/History.js:87-94 | the slot is empty, the panel empty, and no URL is found afterwards |
| History.SaveEffect | src/unAuth/components/History.js:66-71 | without a URL, video details or a non-empty list the history is untouched; a saved list is found by the next lookup of its URL when storage keeps it; another URL that is still found gives its earlier record, and with at most 50 stored records every other URL answers exactly as before |
| History.SaveKeepsDistinct | src/unAuth/components/History.js:28-47 | a save never stores two records for one URL |
| History.SaveThenLookup | src/unAuth/components/History.js:41-52 | a saved record is found by its URL next time, unless truncation drops it |
| History.FullStoreDropsNewUrl | src/unAuth/components/History.js:44-52 | with 50 or more records, a new URL is appended and then cut off, so it is not found |
| History.SaveKeepsOtherUrls | src/unAuth/components/History.js:41-52 | another URL that is still found after a save gives its earlier record; with at most 50 stored records every other URL answers exactly as before |
| History.SaveIdempotent | src/unAuth/components/History.js:23-59 | saving the same record twice leaves the state of saving it once |
| History.DeleteThenLookup | src/unAuth/components/History.js:73-85 | after a delete the URL is not found and every other URL answers as before |
| History.RemoveAppend | src/unAuth/components/History.js:78 | filtering works record by record and keeps the stored order |
| History.RemoveAbsent | src/unAuth/components/History.js:78 | deleting a URL without a record rewrites the same records |
| History.DeleteIdempotent | src/unAuth/components/History.js:73-85 | deleting twice is deleting once |
| Orchestrator.ErrorMessage | src/unAuth/components/timestampcomp/VideoList.js:113-127 | the message for a non-ok reply in each shape of the body: string `error`, error object, string `message`, non-empty string body, and the status fallback otherwise |
| Orchestrator.ErrorTextWins | src/unAuth/components/timestampcomp/VideoList.js:116-117 | a string `error` is the message whatever `message` and the rest of the body hold |
| Orchestrator.ErrorObjectBeatsMessage | src/unAuth/components/timestampcomp/VideoList.js:118-119 | an object `error` decides the message whatever the body's `message` is, and its truthy `message` wins |
| Orchestrator.StatusOnlyAsFallback | src/unAuth/components/timestampcomp/VideoList.js:114-126 | the message depends on the status exactly when the body has no usable detail |
| Orchestrator.ServerErrorShown | src/unAuth/components/timestampcomp/VideoList.js:113-127 | a non-ok `{"error": msg}` reply reaches the panel as `msg`, through the connection check |
| Orchestrator.HandleReply | src/unAuth/components/timestampcomp/VideoList.js:92-163 | a non-JSON content type and an unparsable body throw with the status and the first 200 characters; a non-ok JSON reply throws its error message; an ok `null` body throws the `TypeError` of the `data.url` read; a list is shown exactly for an ok reply with a non-null JSON body, the normalised payload for an object and nothing otherwise |
| Orchestrator.DisplayError | src/unAuth/components/timestampcomp/VideoList.js:178-183 | the fixed connection message is shown exactly when the thrown message names a network failure; any other message is shown behind the `Failed to generate timestamps: ` prefix |
| Orchestrator.Generate | src/unAuth/components/timestampcomp/VideoList.js:33-187 | an invalid URL only sets the validation error; a history hit shows the stored list without a call; otherwise the call is made, success shows the list and clears the error, failure keeps the list and shows the error, and the busy flag ends cleared |
| Orchestrator.InvalidUrlConsultsNothing | src/unAuth/components/timestampcomp/VideoList.js:34-37 | an invalid URL is rejected whatever the history and the network hold |
| Orchestrator.HitSkipsFetch | src/unAuth/components/timestampcomp/VideoList.js:39-46 | a history hit does not depend on what the call would return, and no call is made |
| Orchestrator.FailureKeepsList | src/unAuth/components/timestampcomp/VideoList.js:165-183 | a failed call leaves the shown list as it was |
| Orchestrator.BadReplyIsError | src/unAuth/components/timestampcomp/VideoList.js:97-128 | a non-JSON reply, an unparsable body or a non-ok status always throws |
| Orchestrator.ListWins | src/unAuth/components/timestampcomp/VideoList.js:142-143 | an ok reply with a non-empty `timestamps_list` shows that list whatever `timestamps_string` holds |
| Orchestrator.PressAndSave | src/unAuth/components/History.js:66-71 | history changes only when the press sets a new list (a history hit or a shown reply) and video details exist; a shown non-empty generation is saved |
| Orchestrator.FailedPressSavesNothing | src/unAuth/components/timestampcomp/VideoList.js:34-37 | a rejected URL or a failed call leaves history as it was |
| Orchestrator.HitResavesInPlace | src/unAuth/components/timestampcomp/VideoList.js:39-46 | a history hit triggers a save that rewrites the same record in place, with the new time and video details |
| Orchestrator.EmptyGenerationNotCached | src/unAuth/components/History.js:66-71 | a generation that yields an empty list leaves the history untouched |
| Orchestrator.SavedGenerationIsHit | src/unAuth/components/timestampcomp/VideoList.js:39-46 | after a saved generation, the next press for the same URL shows the saved list without a call, as long as storage had room |
| Dispatch.CallApi | functions/main.py:33-67 | success exactly for a 200 reply whose body decodes, with that body as data; the status error carries the status and the first 200 characters of the body; a timeout has its fixed message; an undecodable body or another exception is reported with the `Error calling Bumpups API: ` prefix |
| Dispatch.CallApiDataXorError | functions/main.py:33-67 | exactly one of data and error is set, unless a 200 reply's body is `null` |
| Dispatch.CallApiNullBody | functions/main.py:59-60 | a 200 reply whose body is `null` is a success with neither data nor error |
| Dispatch.Collect | functions/main.py:155-168 | every record carries the requested URL; a success with dict data keeps its fields plus `url`; non-dict data becomes an error record with the `TypeError` text of the failed `data["url"] = url`, and every failed call an error record with the call's message |
| Dispatch.Gather | functions/main.py:141-168 | each completed call adds exactly one record to `results` or `errors` |
| Dispatch.GatherAppend | functions/main.py:155-168 | calls are collected independently of each other |
| Dispatch.GatherHasEach | functions/main.py:155-168 | every call's record lands in the list that matches its outcome |
| Dispatch.GatherOrderFree | functions/main.py:155-168 | any completion order gathers the same results and errors |
| Dispatch.BatchResponse | functions/main.py:170-196 | the summary lists exactly the gathered results and errors with their counts; the status is 200 exactly when every call succeeded, else 207; a one-URL batch answers with the bare record exactly when its call succeeded |
| Dispatch.GatherNoErrorsIff | functions/main.py:155-168 | no error record is gathered exactly when every call succeeded |
| Dispatch.Handle | functions/main.py:70-245 | preflight answers 204; other non-POST methods 405; a falsy or missing body 400; no key 500; a non-empty `urls` list gives the batch reply; neither `urls` nor a truthy `url` gives the missing-field 400; a non-dict body gives the internal-error 500 |
| Dispatch.SingleMode | functions/main.py:198-226 | without a batch, a truthy `url` forwards the service data with 200, or the call's error with 500 |
| Dispatch.BatchIgnoresUrl | functions/main.py:128 | with a non-empty `urls` list the `url` field does not matter |
| Dispatch.EmptyUrlsFallsThrough | functions/main.py:128-138 | an empty `urls` list is answered as if the field were absent |
| Dispatch.BadRequestReasons | functions/main.py:132-138 | a 400 is about the body or the missing field; the empty-list error is never produced |
| Dispatch.NoKeyNoCall | functions/main.py:110-119 | without a key the answer does not depend on the remote service |
| Dispatch.BatchCounts | functions/main.py:170-196 | a batch request's counts add up to the number of URLs, and it answers 200 exactly when every call succeeded |
| JsText.TrimIsSlice | src/unAuth/components/timestampcomp/VideoList.js:154 | `trim` returns a slice of its input and is idempotent |
| JsText.SplitJoin | src/unAuth/components/timestampcomp/StampPop.js:26 | splitting joined parts gives the parts back when none holds the separator |
| JsText.ContainsIffOccurs | src/unAuth/components/timestampcomp/VideoList.js:179 | the recursive `includes` used by the connection check holds exactly when the substring occurs at some position |
| JsText.NatToString | functions/main.py:62 | the decimal rendering has no leading zero and denotes the number |

## Left out

- Storage and serialisation are values. `localStorage`, `JSON.parse` and
  `JSON.stringify` of the history become the `Slot` datatype: empty,
  unreadable, or holding records. A stored value that parses to something
  other than an array counts as unreadable.
- The save time is an integer. `new Date().toISOString()` and the
  `new Date(...)` comparison are modelled on an integer `savedAt`.
  Unparsable dates, which compare as `NaN`, are not modelled.
- `fetch` and the function URL are inputs. Building the function URL
  (emulator or production), the request itself and its headers are out;
  the model starts from the reply. A failure while reading the response
  text is not modelled.
- Concurrency is out:
  - the thread pool of the batch mode; the model abstracts it as an arbitrary completion order, which `Dispatch.GatherOrderFree` covers;
  - React's state batching and effect scheduling. The save effect is modelled after a press; it also runs when the URL or the video details change between presses, which the model does not follow;
  - a second press while a generation is running.
- The batch order is abstracted. The response's `results` and `errors` lists appear as multisets, because their order is the completion order, which is not determined.
- Dictionary key order and JSON text output are out:
  - the key order of `json.dumps` and `JSON.stringify`;
  - the text of `JSON.stringify(data.error)`, which is an opaque string in `Orchestrator.ErrorField`.
- CORS headers and log output are out.
- Some slicing is measured in code points. `substring(0, 200)` counts UTF-16
  code units and `text[:200]` counts code points; `JsText.Take` counts
  characters for both.
- Non-string values in string positions are out:
  - a truthy `timestamps_string` that is not a string, on which `.split` throws;
  - a non-string `error.message`;
  - timestamp fields that are not strings, in both the copy formatting and the history.
- CopyText.FormatEntry: list elements are modelled as objects with only the
  `timestamp`, `description` and `text` keys, and the JSON-dump tier covers
  only such objects. A `timestamps_list` element is passed through as the
  service sends it, so an object with other keys dumps those keys too, and a
  non-object element such as a string dumps as its JSON text. The model
  represents neither.
- Floating-point numbers are out. JSON numbers are integers in `PyJson.Json`; only their truthiness and type name matter here.
- Dispatch.Handle: the `Internal server error` message covers only a request
  body that decodes to a non-object value, whose `.get` fails. Other
  unexpected exceptions inside the handler are not modelled.
- Orchestrator.HandleReply: for an ok reply whose JSON body is `null`, the
  first property read is `data.url`, in the logging at
  src/unAuth/components/timestampcomp/VideoList.js:131-132. The message is the
  text of V8's `TypeError` for that read; other engines word it differently.
- The clipboard, the "copied" indicator, the history panel's date
  formatting, loading a record from the panel, and the page components
  around the generator are out.
