# Property upload: record assembly, file-list editing and the size gate

This project models, in Dafny, the part of the real-estate chatbot dashboard
that turns an uploaded CSV of property listings into rows of the `properties`
table, together with two small pieces beside it:

- **The upload route** (`app/api/upload/data/route.ts`, modules `RecordAssembly`
  and `UploadRoute`). The `POST` handler first parses the optional
  `uploadedFiles` field, then checks the required fields in the order `file`,
  `userId`, `routeName`, `systemInstruction`. It inserts the chatbot row,
  buckets the pre-uploaded file descriptors by `propertyIndex - 1`, and parses
  the CSV. It maps every row through `validateAndTransformRecord`, drops the
  `null` results, inserts the rest as one batch and reports their count.
  `validateAndTransformRecord` stamps the route on the record. It parses the
  `meta`, `ratings` and `features` cells as JSON, with an empty or absent cell
  giving `null`. It appends the uploaded images and videos after those already
  embedded in the row. Any parse failure turns the whole record into `null`.
  - The handler is a method, `UploadRoute.Post`, over a `Store` class holding
    the two tables. It is proved against the function `UploadRoute.Handle`,
    which gives the response and the ordered list of inserts that take effect.
  - The grouping loop is the method `UploadRoute.GroupByPropertyIndex`. It is
    proved against `Bucket`, an independent filter definition.
  - `JSON.parse`, the CSV parser and the database's answer to each insert are
    inputs: the function-valued and boolean fields of `UploadRoute.Env`.
- **The file-list editor** (`components/fileUpload.tsx`, module `FileUpload`).
  The component's handlers append, remove at an index and update one field at
  an index. The icon and preview are chosen from the MIME type.
- **The size gate** (`middleware.ts`, module `Middleware`): `parseInt` of the
  `content-length` header, which defaults to `'0'`, is compared against
  50 × 1024 × 1024 bytes.

Behaviour that follows from the code as written and is modelled as such:

- `uploadedFiles` is parsed before any field is checked. A malformed value gives
  500 even when a required field is also missing.
- The chatbot row is inserted before the CSV is parsed. An unreadable CSV or a
  rejected records insert gives 500 and leaves the chatbot row in place.
- The structured cells are not checked against any shape. Whatever
  `JSON.parse` returns is stored.
- A parsed `images`/`videos` cell is spread into the array. An array gives its
  items, a string gives its characters, and any other value throws, dropping the
  record.
- `uploadedFiles` that is JSON but not an array, or an array holding `null`,
  passes the parse and the field checks. The grouping loop then throws after
  the chatbot row is written, and the answer is 500.
- The route is stored exactly as received. The route code has no lowercasing,
  no uniqueness check and no model-assisted repair of malformed cells.

## Model

| member | source | states |
|---|---|---|
| `UploadRoute.GroupByPropertyIndex` | app/api/upload/data/route.ts:72-79 | The dictionary has a key exactly for each `propertyIndex - 1` some file carries. Each entry is that key's files in upload order. |
| `UploadRoute.GroupingContents` | app/api/upload/data/route.ts:72-79 | The dictionary after all pushes has the same keys and buckets as the filter definition. |
| `UploadRoute.FileInOwnBucketOnly` | app/api/upload/data/route.ts:74-78 | Every file lies in the bucket of its own key, as often as it was uploaded, and in no other bucket. |
| `UploadRoute.BucketsPermuteFiles` | app/api/upload/data/route.ts:72-79 | Concatenating the buckets, in any order of their keys, gives a permutation of the uploaded files. |
| `UploadRoute.RowReceivesItsBucket` | app/api/upload/data/route.ts:87 | Row `i` receives exactly the files whose `propertyIndex - 1` is `i`, or the empty list when there are none. |
| `UploadRoute.OrphanFileUnused` | app/api/upload/data/route.ts:85-88 | A file whose `propertyIndex - 1` is not a row index is given to no row. |
| `UploadRoute.AssembleRows` | app/api/upload/data/route.ts:85-88 | The map step yields one result per CSV row. |
| `UploadRoute.Somes` | app/api/upload/data/route.ts:89 | The null filter keeps no more elements than it is given, and only non-null ones. |
| `UploadRoute.SomesCount` | app/api/upload/data/route.ts:89 | The null filter keeps each non-null value exactly as often as it occurs, and nothing else. Its length is the number of non-null elements. |
| `UploadRoute.SomesConcat` | app/api/upload/data/route.ts:89 | The null filter keeps order: filtering a concatenation gives the filtered parts in the same order. |
| `UploadRoute.SomesComplete` | app/api/upload/data/route.ts:89 | Every non-null element survives the filter. Nothing is dropped exactly when no element is null. |
| `UploadRoute.RowAssembly` | app/api/upload/data/route.ts:85-88 | Result `i` of the map step is the record built from row `i` and bucket `i`. |
| `UploadRoute.ValidatedRecordsFacts` | app/api/upload/data/route.ts:85-89 | At most one record per row, and every non-null row record is kept. All rows are kept exactly when none is null. Each record occurs as often as rows produce it, and the batch length is the number of non-null row results. Every record carries the route. |
| `UploadRoute.ValidatedRecords` | app/api/upload/data/route.ts:85-89 | The batch: the row results with the nulls filtered out. Its properties are stated by `Somes`, `SomesConcat` and `ValidatedRecordsFacts`. |
| `UploadRoute.UnparsableFilesAnswer500` | app/api/upload/data/route.ts:45-49 | A present `uploadedFiles` that is not JSON gives 500 before any field check, and nothing is written. |
| `UploadRoute.UnwalkableFilesFailAfterChatbot` | app/api/upload/data/route.ts:49-79 | JSON `uploadedFiles` that the grouping loop cannot walk still gets the field checks first. With all fields present and the chatbot insert accepted, the answer is 500 with only the chatbot row written. |
| `UploadRoute.MissingFieldError` | app/api/upload/data/route.ts:52-55 | The 400 message of the first missing field. Its behaviour is stated by `RequiredFieldsInOrder`. |
| `UploadRoute.RequiredFieldsInOrder` | app/api/upload/data/route.ts:52-55 | The first missing field in the order file, userId, routeName, systemInstruction picks the 400 message, and nothing is written. A 400 happens only then. |
| `UploadRoute.ChatbotBeforeProperties` | app/api/upload/data/route.ts:57-96 | The inserts are a prefix of [chatbot, records]. The records are inserted only after the chatbot insert succeeded. Both are inserted exactly when the answer is 200. |
| `UploadRoute.PartialFailureKeepsChatbot` | app/api/upload/data/route.ts:70-105 | `uploadedFiles` the grouping loop cannot walk, an unreadable CSV or a rejected records insert gives 500 with the chatbot row already written. |
| `UploadRoute.SuccessReport` | app/api/upload/data/route.ts:85-102 | On 200, the message is 'Upload successful' and the route is `routeName` unchanged. The records inserted are the non-null row records, each built from its own bucket. `count` is their number, which is the number of rows whose record is not null. Each record carries the route. |
| `UploadRoute.Store.InsertChatbot` | app/api/upload/data/route.ts:58-70 | An accepted insert appends the chatbot row. A rejected one changes nothing. The properties table is untouched either way. |
| `UploadRoute.Store.InsertProperties` | app/api/upload/data/route.ts:92-96 | An accepted insert appends all records. A rejected one appends none. The chatbot table is untouched either way. |
| `UploadRoute.Handle` | app/api/upload/data/route.ts:35-107 | The response and the ordered inserts of one request. Its properties are stated by the handler lemmas above. |
| `UploadRoute.Post` | app/api/upload/data/route.ts:35-107 | The response and the new contents of both tables are those `Handle` gives for the request. |
| `RecordAssembly.ValidateAndTransform` | app/api/upload/data/route.ts:109-142 | Every produced record carries the route unchanged. |
| `RecordAssembly.DroppedIffBadCell` | app/api/upload/data/route.ts:114-141 | The record is `null` exactly when a non-empty JSON cell fails to parse, or when a parsed media cell is neither an array nor a string. Uploaded files never cause a drop. |
| `RecordAssembly.MissingColumnsKeepRecord` | app/api/upload/data/route.ts:115-132 | A row with none of the JSON columns is kept. Its `meta`, `ratings` and `features` are `null`, and its media are only the uploaded ones. |
| `RecordAssembly.StructuredFields` | app/api/upload/data/route.ts:129-132 | `meta`, `ratings` and `features` are the parsed cell when it has text, and `null` when it is empty or absent. |
| `RecordAssembly.LinkVerbatim` | app/api/upload/data/route.ts:133 | `link` is the cell text verbatim when it is non-empty, and `null` otherwise. |
| `RecordAssembly.MediaAppended` | app/api/upload/data/route.ts:115-134 | The row's own media come first, unchanged. After them comes one entry per uploaded file of type `'images'` (resp. `'videos'`), in upload order, built from that file. |
| `RecordAssembly.UploadedEntriesMatchFiles` | app/api/upload/data/route.ts:119-125 | An uploaded entry appears exactly for the files of the matching `fileType`. Files of other types appear in neither array. |
| `RecordAssembly.SelectsDisjoint` | app/api/upload/data/route.ts:119-125 | The image and video selections together hold each uploaded file at most as often as it was uploaded, so they take disjoint parts of the files. Together they are no longer than the upload list. |
| `RecordAssembly.JsonColumn` | app/api/upload/data/route.ts:129-132 | `row.c ? JSON.parse(row.c) : null`. Its behaviour is stated by `StructuredFields` and `DroppedIffBadCell`. |
| `RecordAssembly.EmbeddedMedia` | app/api/upload/data/route.ts:115-116 | `row.c ? JSON.parse(row.c) : []`, then spread. Its behaviour is stated by `MediaAppended` and `DroppedIffBadCell`. |
| `RecordAssembly.LinkColumn` | app/api/upload/data/route.ts:133 | `row.link || null`. Its behaviour is stated by `LinkVerbatim`. |
| `RecordAssembly.ImageEntries` | app/api/upload/data/route.ts:119-121 | The image entries of the uploaded files. Their contents are stated by `MediaAppended` and `UploadedEntriesMatchFiles`. |
| `RecordAssembly.VideoEntries` | app/api/upload/data/route.ts:123-125 | The video entries of the uploaded files. Their contents are stated by `MediaAppended` and `UploadedEntriesMatchFiles`. |
| `RecordAssembly.Select` | app/api/upload/data/route.ts:119-124 | A filter keeps only elements of its input whose key matches, and is no longer than its input. |
| `RecordAssembly.SelectConcat` | app/api/upload/data/route.ts:119-124 | Filtering distributes over concatenation, so relative order is kept. |
| `RecordAssembly.SelectCount` | app/api/upload/data/route.ts:119-124 | A filter keeps every occurrence of a matching element and drops all others. |
| `RecordAssembly.MediaCellSpread` | app/api/upload/data/route.ts:115-134 | A media cell with text is spread into the record's array ahead of the uploaded entries. A parsed array contributes its items. A parsed string contributes one one-character string per character. The record exists only when the cell parsed to one of the two. |
| `FileUpload.HandleFileChange` | components/fileUpload.tsx:16-24 | One entry per selected file is appended after the unchanged existing entries, each with empty description and property index. |
| `FileUpload.WithoutSpec` | components/fileUpload.tsx:27-29 | Filtering out position `index` equals the list with that position cut out. An index outside the list changes nothing. |
| `FileUpload.HandleRemoveFile` | components/fileUpload.tsx:27-29 | The length drops by one exactly when `index` is in range. The other entries keep their order. |
| `FileUpload.HandleDescriptionChange` | components/fileUpload.tsx:31-37 | Only entry `index`'s description changes. Length, other entries and entry `index`'s other fields are unchanged. |
| `FileUpload.HandlePropertyIndexChange` | components/fileUpload.tsx:39-45 | Only entry `index`'s property index changes. Everything else is unchanged. |
| `FileUpload.EditsCompose` | components/fileUpload.tsx:31-45 | A second description edit overrides the first, and edits of the two fields commute. |
| `FileUpload.FileIcon` | components/fileUpload.tsx:47-51 | `getFileIcon`. Its choice is stated by `FileIconByPrefix`. |
| `FileUpload.PreviewKinds` | components/fileUpload.tsx:84-92 | The previews rendered for an entry. Their choice is stated by `PreviewMatchesIcon`. |
| `FileUpload.FileIconByPrefix` | components/fileUpload.tsx:47-51 | An `image/` prefix gives the image icon. Otherwise a `video/` prefix gives the video icon. Otherwise the generic file icon is shown. |
| `FileUpload.PreviewMatchesIcon` | components/fileUpload.tsx:84-92 | At most one preview is shown. The PDF preview appears only for the exact type `application/pdf`. The image and video previews agree with the prefix icons. |
| `Middleware.Gate` | middleware.ts:5-17 | A rejection is always status 413 with `'Payload too large'`. |
| `Middleware.GateReadsLeadingDigits` | middleware.ts:6-16 | A header of white space, then digits, then text not starting with a digit is judged by the number its digits denote. It is rejected exactly when that number is above the limit. Leading white space, leading zeros and trailing text do not change the verdict. |
| `Middleware.ParseIntSkipsSpace` | middleware.ts:9 | `parseInt` skips leading ECMAScript white space and reads the digits up to the first non-digit. |
| `Middleware.LimitIsFiftyMiB` | middleware.ts:7 | The limit is 52 428 800 bytes. |
| `Middleware.MissingHeaderPasses` | middleware.ts:6-16 | A missing or empty header reads as `'0'` and the request passes. |
| `Middleware.DecimalLengthVerdict` | middleware.ts:9-14 | For a decimal length, the request is rejected exactly when the length is strictly above the limit. |
| `Middleware.LimitBoundary` | middleware.ts:7-14 | A length equal to the limit passes, and the limit plus one is rejected. |
| `Middleware.NonNumericHeaderPasses` | middleware.ts:9-16 | A header that parses to NaN lets the request through. |
| `Middleware.ContentLength` | middleware.ts:6 | The header, or `'0'` when it is missing or empty. Its effect is stated by `MissingHeaderPasses`. |
| `Middleware.ParseInt` | middleware.ts:9 | `parseInt(s, 10)`. Its behaviour is stated by `ParseIntOfDecimal` and `ParseIntNaN`. |
| `Middleware.ParseIntOfDecimal` | middleware.ts:9 | `parseInt` reads a decimal length back exactly, whatever non-digit text follows it. |
| `Middleware.ParseIntNaN` | middleware.ts:9 | `parseInt` gives NaN exactly when no digit follows the leading white space and optional sign. |

## Left out

- Database access is reduced to the `Store` class. Whether each insert succeeds is an input. The message text of a thrown database or parser error is reduced to which step failed (`UploadRoute.Failure`).
- The CSV parser (`csv-parse` with `columns: true`) and `JSON.parse` are library code. They are inputs that either yield a value or fail.
- Decoding `uploadedFiles` into descriptors is an input (`UploadRoute.Env.decodeFiles`). The model fixes only how it can end: not JSON, JSON the grouping loop cannot walk, or a list of descriptors. The decoder is taken to supply `url`, `description` and `fileType` as strings. A descriptor that reaches a row without a `url` or `description` builds an entry holding `undefined` in the source (route.ts:121, 125), which `UploadRoute.Env.decodeFiles` cannot express.
- `propertyIndex` is modelled as an integer. In the source, JavaScript's `-` converts a numeric string, so `"2" - 1` is `1` and row 1 receives the file. The model expects the decoder to yield that integer. An element whose `propertyIndex - 1` is fractional or `NaN` (`"1.5"`, `"abc"`, a missing field, or an element that is a number, a string or `{}`) gets a key that no row reads. The model expects the decoder to give such an element an index of 0 or below, which likewise reaches no row. The other fields of such an element are not modelled.
- A request body that is not form data is not modelled: `UploadRoute.Request` holds the fields already read. In the source `request.formData()` throws and the answer is 500.
- A `file` form field sent as non-empty text rather than as a file is not modelled. In the source it passes the field check and throws at `file.text()` after the chatbot insert (route.ts:58-82), so the answer is 500 and the chatbot row stays. An empty text `file` gets 400 "No file uploaded" (route.ts:52); the model gives that answer with `file` absent.
- Logging (`console.log`, `console.error`) is left out: it has no effect on results.
- `URL.createObjectURL` is left out because it is a browser API. A preview is the opaque value `ObjectUrl(file)`, so the model does not capture that each call mints a distinct URL.
- The component's rendering is left out: markup, styling, the "file(s) selected" text and the hidden input's click.
- `parseInt` is modelled over exact integers. Floating-point rounding of very long digit strings is left out. It cannot change a comparison against a limit far below 2^53.
- The video description, frame extraction, transcription, settings, builder and authentication routes, the helper in utils/fileHandler.ts and the UI pages are left out. They are external model calls, subprocess and file-system I/O, session handling or rendering.
