# Resume analyzer client: a Dafny model

This project models the two client-side components of the resume analyzer. Together they hold the application's logic.

- **The upload form** (`resume/src/FileUpload.tsx`). The user builds up a list of PDF resumes and types a job description. The form validates both, posts them as one multipart request, and then either shows an error or navigates to the results page with the analysis attached.
- **The results page** (`resume/src/Results.tsx`). It turns that attached analysis (or its absence) into what is shown: a "no data" notice with a way back, or a report with an optional summary panel and one card per candidate. Each card has a score chip coloured by tier, chips for strengths and weaknesses, and an optional list of suggestions.

Modules:

- `Wrappers` (`wrappers.dfy`): `Option`, `Result`, and JavaScript truthiness of an optional string.
- `Strings` (`strings.dfy`): the JavaScript string operations the form depends on. These are `trim` (with ECMAScript's whitespace set written out), `Array.prototype.join`, and the decimal text of a status code.
- `Payload` (`payload.dfy`): the analysis payload. The upload form passes it on unchanged, and the results page reads it.
- `Upload` (`file_upload.dfy`): the form is the class `FileUpload`. Its fields are `selectedFiles`, `description`, `loading` and `error`, and its methods update them as the handlers do. `Valid()` states that every stored file is a PDF. The request is split into two halves:
  - `BeginUpload` validates the input and returns the form parts.
  - `FinishUpload` takes what the request returned, as an `Outcome`, and returns the navigation, if any.
  - `HandleUpload` runs the two halves in sequence.
- `Results` (`results.dfy`): the results page as pure functions. `Present` builds the page, `CandidateCard` builds one card, and `Tier` picks the score colour.

The two source files disagree on the payload's shape:

- `FileUpload.tsx:19-35` declares `strengths: string`, `overall_score` and `comments`.
- `Results.tsx` reads `suitability_score`, `ranking`, `summary`, array-valued `strengths`/`weaknesses`, `improvement_suggestions`, `overall_summary` and `processed_files`.

The upload form reads only `success`, and it passes the parsed object through untouched. `Payload` therefore follows the shape that `Results.tsx` reads. `FileUpload.tsx:19-26` declares `strengths` and `weaknesses` as strings and an optional `comments`. `Results.tsx:103,112` maps over `strengths` and `weaknesses` as arrays and never reads `comments`. The model follows `Results.tsx`.

## Model

| member | source | states |
|---|---|---|
| `Strings.Trim` | resume/src/FileUpload.tsx:70 | The trimmed text is the part of the input between a leading and a trailing run of whitespace. It is empty exactly when every character is whitespace. Otherwise it starts and ends with a non-whitespace character. |
| `Strings.IsBlank` | resume/src/FileUpload.tsx:70 | `!description.trim()` holds exactly when every character of the description is whitespace, including the empty description. |
| `Strings.Join` | resume/src/FileUpload.tsx:52 | `join` of no parts is `""`. Otherwise the joined text starts with the first part and ends with the last. `JoinContainsPart`, `JoinSeparatorAt` and `JoinLength` state the rest of its layout. |
| `Strings.NatToString` | resume/src/FileUpload.tsx:92 | The status code's text is at least one decimal digit, with no leading zero except for 0 itself. |
| `Strings.JoinContainsPart` | resume/src/FileUpload.tsx:52 | `join(", ")` keeps every name whole, at a computable offset of the joined text. |
| `Strings.JoinSeparatorAt` | resume/src/FileUpload.tsx:52 | Right after part k ends, and before part k + 1 begins, the joined text holds the separator exactly once. |
| `Strings.JoinLength` | resume/src/FileUpload.tsx:52 | The joined text ends exactly where the last part ends. Together with the two lemmas above, this fixes every character: parts at their offsets, one separator between neighbours, nothing else. |
| `Strings.NatToStringRoundTrip` | resume/src/FileUpload.tsx:92 | The status code written into the fallback message reads back as the same number. |
| `Upload.InvalidFiles` | resume/src/FileUpload.tsx:49 | The offenders are exactly the batch's non-PDF files. The list is empty iff the whole batch is PDF. |
| `Upload.InvalidFilesAppend` | resume/src/FileUpload.tsx:49 | The filter keeps batch order: the offenders of `a + b` are those of `a` followed by those of `b`. |
| `Upload.Names` | resume/src/FileUpload.tsx:52 | `.map(f => f.name)`: one name per file, name k from file k. |
| `Upload.InvalidTypeMessage` | resume/src/FileUpload.tsx:52 | The rejection message starts with `"Invalid file type: "` and ends with `". Only PDF files are allowed."`. What stands between them is exactly the offenders' names joined with `", "`. A single offender is named alone between them. |
| `Upload.InvalidTypeMessageNamesEach` | resume/src/FileUpload.tsx:51-52 | The rejection message contains every offender's name, whole, after the prefix `"Invalid file type: "`. |
| `Upload.WithoutPosition` | resume/src/FileUpload.tsx:61 | `prev.filter((_, i) => i !== index)` drops exactly one entry for an in-range index and none otherwise. It never introduces an entry that was not there. |
| `Upload.WithoutPositionSlices` | resume/src/FileUpload.tsx:60-62 | Filtering by position removes exactly the entry at an in-range index, keeping the others in order. An out-of-range index changes nothing. |
| `Upload.BuildFormData` | resume/src/FileUpload.tsx:79-83 | The request holds one `files` part per selected file, in list order, then exactly one `description` part with the untrimmed text. |
| `Upload.UploadFormDecodes` | resume/src/FileUpload.tsx:79-83 | A receiver reading that body gets back exactly the selected files, in order, and the description as typed. |
| `Upload.Settle` | resume/src/FileUpload.tsx:90-103 | Only an ok response whose payload has `success == true` navigates, to `/results`, with the payload unchanged. A non-ok response shows a truthy `detail`, else `"Server error: "` plus the status. An ok response with `success == false` shows `"Analysis failed"`. A network failure, or any exception raised while a body is read (including a `null` body), shows the engine's message. |
| `Upload.ReportedFailureIsVisible` | resume/src/FileUpload.tsx:90-98 | A failure reported by the server or by the payload always leaves a non-empty error, so the alert is shown. |
| `Upload.ServerErrorMessage` | resume/src/FileUpload.tsx:92 | `` `Server error: ${status}` `` is the prefix followed by decimal digits only. |
| `Upload.ServerErrorNamesStatus` | resume/src/FileUpload.tsx:92 | The fallback message is the prefix followed by the status code's digits, which read back as the status. |
| `Upload.FileUpload.constructor` | resume/src/FileUpload.tsx:39-42 | The form starts with no files, an empty description, not loading and no error. |
| `Upload.FileUpload.SetDescription` | resume/src/FileUpload.tsx:123 | The description is stored as typed, untrimmed. Nothing else changes, so every stored file stays a PDF. |
| `Upload.FileUpload.HandleFileChange` | resume/src/FileUpload.tsx:45-58 | The error is cleared first. With no file list, nothing else changes. A batch with any non-PDF file is rejected whole, leaving the list unchanged, and the error names the offenders in batch order. Otherwise the list becomes old list ++ batch. Every stored file stays a PDF. |
| `Upload.FileUpload.RemoveFile` | resume/src/FileUpload.tsx:60-62 | The list becomes `old[..i] + old[i+1..]` for an in-range `i`, and stays unchanged otherwise. |
| `Upload.FileUpload.BeginUpload` | resume/src/FileUpload.tsx:64-83 | An empty list gives "Please select at least one resume". This check comes before the description check, and `loading` stays false. A blank trimmed description gives "Please enter a job description". Otherwise `loading` is set, the error is cleared and the request parts are returned. The files and the description are never modified. |
| `Upload.FileUpload.FinishUpload` | resume/src/FileUpload.tsx:90-106 | `loading` ends false whatever the outcome, and every stored file stays a PDF. Navigation happens only on success, and the error then stays as it was. Every other outcome sets the error to `Settle`'s message. |
| `Upload.FileUpload.HandleUpload` | resume/src/FileUpload.tsx:64-107 | No request is made unless both checks pass. A request holds only PDF files, exactly the selected ones in order, plus the description. `loading` ends false, and the files and description are unchanged. On success the error is empty. |
| `Results.Tier` | resume/src/Results.tsx:82-85 | The colour is success iff score ≥ 80, warning iff 50 ≤ score < 80, and error iff score < 50. |
| `Results.TierMonotone` | resume/src/Results.tsx:82-85 | A higher score never gets a lower tier. |
| `Results.Chips` | resume/src/Results.tsx:103-105 | One chip per label, in order, each chip in the given colour. |
| `Results.CandidateCard` | resume/src/Results.tsx:72-134 | The card carries the candidate's name, ranking, recommendation, summary and score, with the score coloured by `Tier`. The strength chips equal `strengths` element for element and are green. The weakness chips equal `weaknesses` and are red. The suggestions section appears iff the field is present, so `[]` shows a heading with no items. |
| `Results.Cards` | resume/src/Results.tsx:62-66 | There are as many cards as candidates, and card k is built from candidate k. |
| `Results.Present` | resume/src/Results.tsx:19-70 | With no result, the view is the "No Analysis Data Found" notice, whose one button leads to `/`, and there are no cards. With a result, the summary panel appears iff `overall_summary` is a non-empty string, and there is one card per candidate in the order received. |
| `Results.PresentIgnoresRankingHint` | resume/src/Results.tsx:41-70 | `top_candidates` and `success` do not affect the view. |

## Left out

- Transport is not modelled. This covers `fetch`, `FormData`, `response.json()` and the endpoint address (`FileUpload.tsx:85`). The request appears as the list of form parts that `BeginUpload` returns. The response appears as the `Outcome` datatype. The message of a network failure or of an unparsable ok body is an opaque string.
- The `"An unknown error occurred"` branch (`FileUpload.tsx:103`) has no counterpart. Every failure the model can produce is a JavaScript `Error` carrying a message.
- `Upload.Outcome`: which bodies make the JavaScript engine throw while they are read is not computed. Examples are a non-JSON ok body, or a body of `null`, whose `detail` (`FileUpload.tsx:92`) or `success` (`FileUpload.tsx:96`) cannot be read. The caller states such a response as `BodyParseFailure` and supplies the engine's message. `Settle` then shows that message, as the catch at `FileUpload.tsx:101-103` does.
- `Upload.Outcome`: a non-ok body's `detail` is modelled as an optional string. A non-string `detail`, such as a list of validation errors, whose text JavaScript would produce with `String(...)`, is not modelled.
- `Upload.FileUpload.FinishUpload` requires `loading`. It models only the second half of an upload that `BeginUpload` started.
- `Upload.FileUpload.HandleUpload` and `BeginUpload` require `!loading`. This reflects the upload button being disabled while a request is in flight (`FileUpload.tsx:154`).
- React mechanics are not modelled: state batching, re-renders, the suspension inside `handleUpload`, and updates that arrive after the component is gone. The upload is two sequential method calls.
- Logging (`console.log`, `console.error`) is not modelled.
- The visual layout is not modelled. This covers Material UI components, styling, list keys and the progress spinner.
- `Strings.IsWhitespace` lists the space separators of the current Unicode version. An engine built on an older Unicode table may differ on U+180E.
- `Results.Tier`: the score is a `real`, so a score that is not a number is not modelled. In JavaScript a missing score, or one that does not convert to a number (NaN), compares as false and gets the error tier; a numeric string is compared as its number.
- `Results.CandidateCard`: the score label text (`Score: ${...}`) is not modelled. The card keeps the number itself.
- `Results.Present`: the timestamp is kept as received. Its locale formatting through `Date.toLocaleString` (`Results.tsx:56`) is not modelled.
- `Backend/main.py` is not part of this model. It serves a different, single-file endpoint and does disk, PDF-extraction and external-API I/O.
- `resume/src/App.tsx` is not part of this model. It is a two-entry route table.
