# Wedding photo upload page: a verified model of its two stateful pieces

The page lets a wedding guest stage photos (by dragging them onto a drop
area or through a file picker), unstage individual photos from a preview
grid, and submit the staged batch as one multipart request to a webhook.
Its UI text comes from a two-language translation provider.

This project models, in Dafny:

- **The upload component** (`src/components/PhotoUpload.tsx`), module
  `PhotoUpload`. A class `Component` holds the three state fields of the
  component (`selectedFiles`, `isDragOver`, `isUploading`); its methods are
  the event handlers: drag-over and drag-leave, drop (keeps only files whose
  MIME type has the top-level type `image`, section 4.2 of RFC 2046, tested
  as a `"image/"` prefix), picker select (keeps everything), remove by index,
  and upload. The new-list computations are functions (`ImagesOnly`,
  `RemoveAt`), the multipart body is a sequence of fields built by a loop
  (`BuildRequest`) against the reference `Request`, and the error
  classification of the inner `catch` is a function (`Classify`) over a
  modelled thrown error. The network outcome and the timestamp are
  parameters of `Upload`; the toasts it would show are returned as values.
- **The translation provider** (`src/contexts/LanguageContext.tsx`), module
  `LanguageContext`: the closed language set, the two constant tables, the
  lookup with its fall-back to the key (`Translate`), and a class
  `LanguageProvider` holding the current language with `SetLanguage` and `T`.
- Module `Text` holds the JavaScript string operations the component uses
  (`startsWith`, `includes`, and `toString` of a non-negative count) with
  their reference characterisations; module `Wrappers` holds `Option`.

A client method, `PhotoUpload.GuestSession`, strings the handlers together:
stage three photos and a text file by drop, remove one, fail with a 404,
keep both photos, then succeed with a count of 2.

Two behaviours of the code are worth stating on their own:

- The staged list can hold non-images. Only the drop handler filters by
  type; the picker path appends every picked file (`accept="image/*"` at
  `src/components/PhotoUpload.tsx:184` is only a hint to the browser's
  dialog). `Component.Select` therefore stages non-images, and the
  image-only property is proved for drop and remove only (`Component.Drop`,
  `RemoveAtKeepsImages`).
- The upload handler has no in-flight guard; only the disabled button
  (line 223) blocks a second click. The model runs `Upload` to completion
  in one step, so `isUploading` is true only inside the method body and is
  false after every handler.

## Model

| member | source | states |
|---|---|---|
| `PhotoUpload.ImagesOnly` | src/components/PhotoUpload.tsx:37-39 | the drop filter keeps no more files than were dropped, and only image-typed ones |
| `PhotoUpload.ImagesOnlyMembers` | src/components/PhotoUpload.tsx:37-39 | a file survives the drop filter exactly when it was dropped and its type starts with "image/" |
| `PhotoUpload.ImagesOnlyAppend` | src/components/PhotoUpload.tsx:37-39 | filtering a concatenation is the concatenation of the filtered parts, so drop order is preserved |
| `PhotoUpload.ImagesOnlyKeepsImages` | src/components/PhotoUpload.tsx:37-39 | a drop made only of images keeps every file, in order |
| `PhotoUpload.ImagesOnlyEmpty` | src/components/PhotoUpload.tsx:37-43 | the filter yields nothing exactly when no dropped file is an image (then the list is not touched) |
| `PhotoUpload.ImagesOnlyLength` | src/components/PhotoUpload.tsx:37-42 | the number of files staged by a drop equals the number of image-typed files dropped |
| `PhotoUpload.RemoveAt` | src/components/PhotoUpload.tsx:56 | the position filter never lengthens the list |
| `PhotoUpload.RemoveAtInRange` | src/components/PhotoUpload.tsx:55-57 | for 0 <= i < length, exactly entry i is removed and the rest keep their relative order |
| `PhotoUpload.RemoveAtOutOfRange` | src/components/PhotoUpload.tsx:55-57 | a negative or too large index leaves the list unchanged |
| `PhotoUpload.RemoveAtKeepsImages` | src/components/PhotoUpload.tsx:55-57 | removing a position keeps an image-only list image-only |
| `PhotoUpload.Request` | src/components/PhotoUpload.tsx:66-76 | the reference multipart body: length+3 fields, the first length of them file blobs and the last three text; `RequestCarriesFiles` and `RequestCountMatches` state what it carries |
| `PhotoUpload.BuildRequest` | src/components/PhotoUpload.tsx:66-76 | the request has length+3 fields: one 'file' field per staged file in list order, then timestamp, source "wedding_album" and totalFiles as the decimal count |
| `PhotoUpload.FilePartsAppend` | src/components/PhotoUpload.tsx:69-71 | the file parts of a concatenated body are the file parts of each part in order |
| `PhotoUpload.FilePartsOfFileFields` | src/components/PhotoUpload.tsx:69-71 | the per-file appends deliver exactly the staged files as file parts |
| `PhotoUpload.RequestCarriesFiles` | src/components/PhotoUpload.tsx:66-76 | the endpoint receives exactly the staged files, in order, under the field name 'file' |
| `PhotoUpload.RequestCountMatches` | src/components/PhotoUpload.tsx:76 | the last field is totalFiles, a digit string that reads back as the number of file parts sent |
| `PhotoUpload.HttpErrorMessage` | src/components/PhotoUpload.tsx:96 | the message of a non-ok response starts with "Upload failed: "; `HttpErrorMessageEmbeds` and `HttpErrorMessageLacks404` state what it contains |
| `PhotoUpload.HttpErrorMessageEmbeds` | src/components/PhotoUpload.tsx:96 | the message of a non-ok response starts with "Upload failed: " and contains the status, the status text and the body |
| `PhotoUpload.Raised` | src/components/PhotoUpload.tsx:93-96 | a non-ok response raises a plain Error (not a TypeError) whose message starts with "Upload failed: " and contains the status, status text and body; a fetch TypeError or another Error reaches the catch with its own kind and message |
| `PhotoUpload.Classify` | src/components/PhotoUpload.tsx:101-112 | the inner catch either rethrows the error unchanged or replaces it by one of the two fixed plain Errors, and it replaces it only when the message mentions "fetch" or "404"; the lemmas below state which case applies |
| `PhotoUpload.ConnectionFailureCannotConnect` | src/components/PhotoUpload.tsx:103-105 | a TypeError whose message contains "fetch" is reported as "Cannot connect to upload server…" |
| `PhotoUpload.FailedToFetchCannotConnect` | src/components/PhotoUpload.tsx:103-105 | the browser's "Failed to fetch" TypeError ends as "Cannot connect…" |
| `PhotoUpload.OtherError404Unavailable` | src/components/PhotoUpload.tsx:101-110 | any rejection that is not a TypeError mentioning "fetch" (a TypeError without "fetch" included) and whose message contains "404" is reported as "Upload service not available…" |
| `PhotoUpload.Http404Unavailable` | src/components/PhotoUpload.tsx:93-110 | every non-ok 404 response, whatever its status text and body, ends as "Upload service not available…" |
| `PhotoUpload.UnrecognisedErrorKeepsMessage` | src/components/PhotoUpload.tsx:101-112 | any rejection that is not a TypeError mentioning "fetch" and whose message lacks "404" is reported with its own message (a non-TypeError mentioning "fetch" included) |
| `PhotoUpload.HttpErrorMessageLacks404` | src/components/PhotoUpload.tsx:96 | when the printed status, the status text and the body each lack "404", so does the whole message: the separators between them hold no digit |
| `PhotoUpload.HttpErrorKeepsMessage` | src/components/PhotoUpload.tsx:93-112 | a non-ok response whose printed status, status text and body each lack "404" (a 400, 403, 413, 429 or 500 with any such text and body) is reported as "Upload failed: <status> <text> - <body>" |
| `PhotoUpload.HttpErrorMentioning404Unavailable` | src/components/PhotoUpload.tsx:93-110 | a non-ok response whose printed status, status text or body mentions "404" ends as "Upload service not available…", a non-404 status included |
| `PhotoUpload.StatusMentions404` | src/components/PhotoUpload.tsx:96-108 | a three-digit status prints as text that mentions "404" exactly when it is 404, so for real HTTP statuses the two lemmas above split on status 404 and on "404" in the text or body |
| `PhotoUpload.SuccessToast` | src/components/PhotoUpload.tsx:115-118 | the success toast is not destructive and its description starts with the decimal count; `SuccessToastCount` states that the count reads back |
| `PhotoUpload.FailureToast` | src/components/PhotoUpload.tsx:130-136 | the failure toast is destructive and its description is the connection message, the service message or the raised error's own message; the classification lemmas above state which |
| `PhotoUpload.ToastTitlesTranslated` | src/components/PhotoUpload.tsx:115-136 | both toast title keys are present in both translation tables, so the title never falls back to the key |
| `PhotoUpload.SuccessToastCount` | src/components/PhotoUpload.tsx:117 | the success description starts with the decimal count, which reads back as the count |
| `PhotoUpload.Component.constructor` | src/components/PhotoUpload.tsx:15-17 | the component starts with no staged files and both flags false |
| `PhotoUpload.Component.DragOver` | src/components/PhotoUpload.tsx:23-26 | sets isDragOver; nothing else changes |
| `PhotoUpload.Component.DragLeave` | src/components/PhotoUpload.tsx:28-31 | clears isDragOver; nothing else changes |
| `PhotoUpload.Component.Drop` | src/components/PhotoUpload.tsx:33-44 | the new list is the old list followed by the dropped images in drop order; its length grows by the image count; with no images the list is unchanged; isDragOver ends false; an image-only list stays image-only |
| `PhotoUpload.Component.Select` | src/components/PhotoUpload.tsx:46-53 | the new list is the old list followed by every picked file, unfiltered; the length grows by the number picked |
| `PhotoUpload.Component.RemoveFile` | src/components/PhotoUpload.tsx:55-57 | an in-range index removes exactly that entry keeping the order of the rest; any other index (negative included) changes nothing; flags unchanged |
| `PhotoUpload.Component.Upload` | src/components/PhotoUpload.tsx:59-140 | on an empty list nothing is sent and nothing changes; otherwise the request sent is Request(list, timestamp), isUploading ends false, success empties the list, clears isDragOver and reports the pre-upload count, and failure keeps the list exactly as it was and reports the classified message |
| `Text.ContainsIff` | src/components/PhotoUpload.tsx:103-108 | the left-to-right search of `includes` succeeds exactly when the pattern occurs at some index |
| `Text.ContainsInfix` | src/components/PhotoUpload.tsx:108 | a pattern surrounded by any text is found |
| `Text.ContainsTransitive` | src/components/PhotoUpload.tsx:108 | a pattern found inside a found part is found in the whole |
| `Text.ContainsNotAcrossSeparator` | src/components/PhotoUpload.tsx:108 | two strings lacking the pattern, joined by a separator with none of the pattern's characters, still lack it |
| `Text.MissingFirstChar` | src/components/PhotoUpload.tsx:108 | a string lacking the pattern's first character does not contain it |
| `Text.NatToString` | src/components/PhotoUpload.tsx:76 | the printed count is a non-empty digit string with no leading zero |
| `Text.NatToStringRoundTrip` | src/components/PhotoUpload.tsx:76 | reading the printed count back as decimal gives the count |
| `LanguageContext.Translate` | src/contexts/LanguageContext.tsx:47-49 | a key present in the table yields its entry; an absent key yields the key verbatim |
| `LanguageContext.EntriesNonEmpty` | src/contexts/LanguageContext.tsx:11-40 | every table entry is non-empty, so `|| key` only acts on misses |
| `LanguageContext.SameKeys` | src/contexts/LanguageContext.tsx:11-40 | the en and tr tables define the same keys |
| `LanguageContext.HitsAgree` | src/contexts/LanguageContext.tsx:11-48 | a key hits in one language exactly when it hits in the other |
| `LanguageContext.TranslateNonEmpty` | src/contexts/LanguageContext.tsx:48 | a non-empty key never translates to the empty string |
| `LanguageContext.UploadOrExample` | src/contexts/LanguageContext.tsx:16 | 'upload.or' reads "or" in English and "veya" in Turkish |
| `LanguageContext.ThemeToggleFallsBack` | src/components/Header.tsx:65 | 'theme.toggle', used by the header, is in neither table and falls back to itself |
| `LanguageContext.LookupAsWritten` | src/contexts/LanguageContext.tsx:48 | as written, a string result other than the key is always the table's entry for it |
| `LanguageContext.LookupAsWrittenLeaksPrototype` | src/contexts/LanguageContext.tsx:48 | as written, t('toString') returns the inherited function, not the key |
| `LanguageContext.TranslateAgreesOffPrototype` | src/contexts/LanguageContext.tsx:48 | off the inherited member names, the code as written and Translate agree |
| `LanguageContext.LanguageProvider.constructor` | src/contexts/LanguageContext.tsx:45 | the initial language is English |
| `LanguageContext.LanguageProvider.SetLanguage` | src/contexts/LanguageContext.tsx:45 | after setLanguage(l) the language is l and every lookup reads table l |
| `LanguageContext.LanguageProvider.T` | src/contexts/LanguageContext.tsx:47-49 | the corrected lookup of the Findings row against the current language: the entry on a hit and the key on a miss (as written, t('toString') returns an inherited function instead, see `LookupAsWritten`) |

## Findings

| source | as written | input that shows it | evidently intended | confidence | as-written member | corrected member |
|---|---|---|---|---|---|---|
| src/contexts/LanguageContext.tsx:48 | `translations[language][key] \|\| key` reads a property of a plain object literal, so names inherited from Object.prototype are found | `t('toString')` (also 'constructor', 'valueOf', '__proto__', …) returns a function or object instead of a string | a key without an own entry yields the key itself, as the `string` result type and the fall-back promise | medium (no call site in the repository passes such a key); not executed | `LanguageContext.LookupAsWritten`, `LanguageContext.LookupAsWrittenLeaksPrototype` | `LanguageContext.Translate`, `LanguageContext.TranslateAgreesOffPrototype` |

## Left out

- The `fetch` call, the webhook URL and its environment lookup, `response.json()` and `response.text()`, and the `console` logging (src/components/PhotoUpload.tsx:79-100): network and logging I/O. `Upload` takes the outcome as a `FetchOutcome` parameter; a JSON parsing failure is an `OtherError`, and the body of a non-ok response is part of `HttpError`.
- `new Date().toISOString()` (src/components/PhotoUpload.tsx:74): the clock. `Upload` takes the timestamp string as a parameter.
- Toast rendering and the `onUpload` callback (src/components/PhotoUpload.tsx:115-136, 129): foreign UI calls. The toasts are returned as `Toast` values holding the title key, the description and the destructive flag; the callback is not modelled.
- Async interleaving and re-entrancy: `handleUpload` has no `isUploading` guard of its own, and only `disabled={isUploading}` (line 223) blocks a second click. The model runs each handler to completion, so it states no re-entrancy property. It also does not model that the success path clears the list captured at the start, which would drop files staged while the request was in flight.
- Thrown values that are not `Error` objects are not modelled. `fetch` and `response.json()` reject only with `Error` objects, so the `'Please try again later.'` branch at line 134 cannot be taken in this model.
- Resetting the file input's value (src/components/PhotoUpload.tsx:52, 124-127), `URL.createObjectURL` previews, the `key` re-render trick, JSX and CSS: browser resources and presentation.
- `src/components/WeddingDecorations.tsx`, `src/components/Header.tsx` and `src/pages/Index.tsx`: presentation and provider wiring only; the theme provider they use is not part of this model.
- The missing-provider throw of `useLanguage` (src/contexts/LanguageContext.tsx:58-63): React context wiring.
- Case of MIME types: `startsWith('image/')` is case-sensitive, and so is `IsImage`; browsers report lower-case types.
