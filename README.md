# Audio and form submission backend — a Dafny model

The backend answers three routes and configures one upload middleware:

- `POST /submit-audio` takes a multipart body with one audio file and the text fields `email` and `isAgreed`. It mails a confirmation, with the file attached, to the email given in the form.
- `POST /submit-form` takes text fields. It mails them to the given `email`, under a heading built from `formName` (`patient-intake` becomes `Patient Intake Form Submission Details`).
- `GET /formdata` is a stub that always answers 404.
- The upload middleware stores files under `uploads/` as `<timestamp>-<original name>`. It has a 10 MiB limit and accepts only MIME types that start with `audio/`.

The model is made of pure functions over plain values. A handler becomes a function from what the request brings to the response and the mail handed to the mail relay. What the request brings is the outcome of the upload middleware, the body fields, and whether the relay accepted the mail. The handlers keep no state between requests, so the model has none.

Files:

- `wrappers.dfy`: `Option`, for JavaScript values that may be `undefined`.
- `js_string.dfy`: the JavaScript string operations the handlers use: `startsWith`, `split` on one character, `join`, capitalising a word (`charAt(0).toUpperCase() + slice(1)`), and a number's decimal string. It also proves split and join inverse to each other, and decimal printing and reading inverse to each other. `IndexOf` and `EndsWith` are not used by the handlers; the model needs them only to read a stored file name back and to state the file-name contract.
- `upload.dfy`: the multer configuration of `index.js` and what `upload.single('audio')` passes on to the route.
- `routes.dfy`: the title transform and the three handlers of `routes.js`.

Three behaviours of the code are easy to misread; the model follows the code as written:

- Missing `formName` in `/submit-form`: `.split` throws inside the handler's `try`. So the answer is a handled 500 `Internal server error`, not an unhandled crash.
- The 400 `Missing email field` answer of `/submit-audio` cannot happen. The email has already been defaulted to `No email provided` when it is tested.
- An upload error always gets status 400. `handleUpload` sets that status, so `error.status || 500` never falls back to 500. An error with an empty message is answered with `Internal server error`.

## Model

| member | source | states |
|---|---|---|
| `Upload.FileSizeLimitIsTenMiB` | index.js:38-40 | the upload size limit is 10 * 1024 * 1024 = 10485760 bytes |
| `Upload.FileFilter` | index.js:41-48 | a file is accepted iff its MIME type starts with `audio/`; an accepted file has no error; a rejected one has the error `Only audio files are allowed!` and the accept flag false |
| `Upload.FileFilterIsCaseSensitive` | index.js:43-44 | `Audio/mpeg` is rejected and `audio/mpeg` accepted: the prefix test is case-sensitive |
| `Upload.FileFilterAcceptsAudioTypes` | index.js:43-44 | acceptance holds iff the MIME type is `audio/` followed by some subtype |
| `JsString.StartsWithAt` | index.js:43 | `startsWith(p)` holds iff `p` is no longer than the string and each of its characters matches the string's character at the same position |
| `JsString.StartsWithIffPrefix` | index.js:43 | `startsWith(p)` holds iff the string is `p` followed by some rest |
| `Upload.Destination` | index.js:28-30 | the destination is `uploads/` whatever the file |
| `Upload.StoredFilename` | index.js:31-33 | the stored name ends with `-` plus the original name, and what comes before that is the decimal string of the timestamp |
| `Upload.StoredFilenameRoundTrip` | index.js:31-33 | the stored name can be read back into exactly the timestamp and the original name, even when the original name contains dashes |
| `JsString.NumberToString` | index.js:32 | the decimal string of a timestamp is non-empty, all digits, and has no leading zero unless the number is 0 |
| `JsString.ParseNumberToString` | index.js:32 | reading the decimal string back gives the number |
| `Upload.StoreSingle` | index.js:27-49 | the upload succeeds without a file iff there is no file part; an audio part always yields a file; a non-audio part fails with the filter's message; an audio part is stored with its name, type and size, under `uploads/`, with the generated file name and path |
| `Routes.GetFormData` | routes.js:19-26 | every request is answered 404 `No form data found` with no data |
| `JsString.Split` | routes.js:142 | `split('-')` gives one piece more than there are dashes, and no piece contains a dash |
| `JsString.JoinEnds` | routes.js:142 | `join` starts with the first piece, followed by the separator when there are two or more pieces, and ends with the last piece |
| `JsString.JoinSplit` | routes.js:142 | joining the pieces of a split with the separator gives back the original string |
| `JsString.SplitJoin` | routes.js:142 | splitting separator-free pieces joined by the separator gives back the pieces |
| `JsString.ToUpperChar` | routes.js:142 | an ASCII lower-case letter becomes its upper-case letter; every other character is kept |
| `JsString.ToUpperKeepsSeparators` | routes.js:142 | upper-casing maps a space or a dash only to itself and produces neither from any other character |
| `JsString.Capitalize` | routes.js:142 | a word keeps its length; its first character is upper-cased and the rest is unchanged; an empty word stays empty |
| `JsString.CapitalizeAll` | routes.js:142 | the map keeps the number of words and capitalises each one |
| `Routes.FormTitle` | routes.js:142 | the title has the form name's length; each dash becomes a space, a character at a word start (position 0 or after a dash) is upper-cased, and every other character is kept |
| `Routes.TitleHasNoDash` | routes.js:142 | the title contains no dash |
| `Routes.TitleSpaces` | routes.js:142 | the title has one space per dash of the form name, plus the spaces already in it |
| `Routes.Heading` | routes.js:142 | the heading is absent (the title throws) iff the form name is absent; otherwise it is the form name's title followed by ` Form Submission Details`, so it ends with ` Form Submission Details` and is that much longer than the form name |
| `Routes.HeadingOfPatientIntake` | routes.js:142 | `patient-intake` gives the heading `Patient Intake Form Submission Details` |
| `Routes.TitleOfPatientIntake` | routes.js:142 | `patient-intake` gives the title `Patient Intake` |
| `Routes.HeadingWithEmptyPiece` | routes.js:142 | `a--b` gives `A  B Form Submission Details`: an empty piece becomes an empty word between two spaces |
| `Routes.DefaultEmail` | routes.js:62 | the defaulted email is never empty; it is the body's email when that is non-empty, and `No email provided` otherwise |
| `Routes.IsAgreed` | routes.js:63 | agreement holds iff the body field is exactly `true` |
| `Routes.AudioMail` | routes.js:78-99 | the confirmation goes from the sender to the form's email with subject `Audio Submission Confirmation` and exactly one attachment, whose filename is the original name and whose path is the stored path |
| `Routes.SubmitAudio` | routes.js:29-120 | a mail is prepared iff the upload succeeded with a file; it goes to the defaulted email with exactly one attachment (original name, stored path); the answer is 201 iff that mail was sent; the status is 201, 400 or 500; `Missing email field` is answered only if an upload error carries that message |
| `Routes.SubmitAudioUploadError` | routes.js:113-118 | an upload error is answered 400 with its message, or `Internal server error` if the message is empty, and no mail is prepared |
| `Routes.SubmitAudioNoFile` | routes.js:54-59 | a successful upload without a file is answered 400 `No audio file uploaded` and no mail is prepared |
| `Routes.MissingEmailUnreachable` | routes.js:61-73 | with a file, the answer is never the 400 `Missing email field` |
| `Routes.SubmitAudioWithFile` | routes.js:100-111 | with a file, the confirmation mail is prepared; the answer is 201 `Form submitted successfully and email sent` with the form data when it is sent, and 500 `Internal server error` when the relay fails |
| `Routes.NonAudioUploadRejected` | index.js:41-48 | a non-audio part makes the audio route answer 400 `Only audio files are allowed!` with no mail |
| `Routes.AudioUploadMailed` | routes.js:95-98 | an audio part is mailed back to the defaulted email with one attachment named after the original file, at `uploads/<timestamp>-<original name>`; the answer is 201 iff the send succeeds |
| `Routes.FormMail` | routes.js:137-150 | the form mail goes from the sender to the body's email verbatim, with subject `Form Response` and no attachments |
| `Routes.SubmitForm` | routes.js:122-164 | a mail is prepared iff the form name is present; it is the form mail (from the sender, subject `Form Response`, no attachments) to the body's email, headed by the form name's title plus ` Form Submission Details`; the answer is 201 with the submitted fields iff the form name is present and the send succeeds, and 500 `Internal server error` otherwise |
| `Routes.SubmitFormWithoutName` | routes.js:160-163 | without a form name the heading throws before `sendMail`, so the answer is 500 `Internal server error` and no mail is prepared |
| `Routes.SubmitFormPatientIntake` | routes.js:142 | a form named `patient-intake` is mailed under the heading `Patient Intake Form Submission Details` |

## Left out

- Express routing, `req`/`res`, and the middleware stack (cors, helmet, compression, morgan, body-parser, the catch-all error handler): framework wiring. A handler's response is a returned value.
- Multer's multipart parsing and its byte counting against `fileSize`. These are library internals. Only the limit constant is modelled, so `Upload.StoreSingle` never fails for size. Multer's own errors (file too large, unexpected field) are not produced by the model. `Routes.SubmitAudio` still takes any upload error message as input.
- Nodemailer and its OAuth2 transport are a network call. The outcome of `sendMail` is an input (`Sent` or `SendFailed`). The sender account `process.env.EMAIL_USER` is a parameter.
- Creating `uploads/` at startup (`existsSync`/`mkdirSync`) is filesystem I/O. A stored file's path is modelled as the destination followed by the file name.
- `Date.now()` is a parameter, bounded by the largest value JavaScript's dates allow.
- `console.log`, and echoing `req.headers` in response bodies.
- The size in KB shown in the audio mail (`(size / 1024).toFixed(2)`) is floating-point formatting. The mail body carries the size in bytes instead. The rest of the HTML markup around the interpolated values is not represented.
- The `GET /` route, with mongoose's `readyState`, and the commented-out database code: foreign library state.
- In `handleUpload`, `resolve()` also runs after `reject`. The promise is already settled then, so this has no effect; the upload step is modelled as ending in an error or a success.
- Body fields that are not strings (arrays or objects from extended URL-encoded or JSON bodies). Every field is a string or absent. A non-string `formName` is among them; in the source it could also throw in `.split`.
- `Upload.FileFilter` sees a part's MIME type as multer passes it on. Whether the multipart parser changes its case first is not part of this model: the case-sensitivity that `Upload.FileFilterIsCaseSensitive` proves is that of the filter alone.
- `JsString.ToUpperChar`: upper-cases the ASCII range only. JavaScript's `toUpperCase` also maps non-ASCII letters, and some of them to several characters (`ß` becomes `SS`). So `Routes.FormTitle`'s length and character-by-character contract hold for the source only when the form name has no such letters.
