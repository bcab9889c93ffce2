# Card-image extraction workers, modelled in Dafny

The repository ingests scanned creature-card images. An upload API stores the
image file and creates one MongoDB document per card. Five polling services
then enrich that document, one field each:

- the name worker OCRs a region into `name`;
- the lore worker OCRs a region into `lore`;
- the moves, weakness and resistance workers crop a region, save it as a PNG,
  and record its path in `moves_filepath`, `weakness_filepath` or
  `resistance_filepath`.

Every worker loops forever. Each pass queries `{field: None}`, runs
`process_image` on every document yielded, and writes back only its own
field with `$set`.

This project models that pipeline as pure functions over an immutable store
(`map<ObjectId, Record>`). Everything the workers cannot compute is a
parameter (`Outcomes.Attempt`):

- whether the source path exists;
- whether open+crop succeeded;
- what OCR returned, text or engine error; an exception from anything after
  the OCR call in the same `try` block, such as the lore worker's `print` of
  the text, counts as an engine error;
- whether the crop was saved, and the `print` after the save in the same
  `try` block completed without raising;
- whether the `$set` took effect in the store.

A poll cycle takes three inputs:

- a scan order over the collection;
- an optional point at which the query or cursor raises;
- one attempt per record.

The `{field: None}` filter is applied to each document as the scan reaches
it. `Workers.CycleIsSnapshotFold` proves this
is the same as folding `process_image` over the records that were pending
when the cycle began, for any scan that lists each record once. The infinite
loop becomes any finite number of cycles (`Service.Serve`).

Modules follow the program. `NameOcr` and `LoreOcr` are the two text
workers. They are kept separate because their policies differ. `ImageCrop`
holds the one extraction step the three image workers share, instantiated by
`MovesSpec`, `WeaknessSpec` and `ResistanceSpec`. `Workers` holds
`process_image` and the cycle. `Service` holds the loop. `Api` holds record
creation and lookup. Three support modules model library behaviour the code
relies on:

- `Text`: Python's `str.strip`;
- `ObjectIds`: `str(ObjectId)` and `ObjectId(text)`;
- `Paths`: POSIX `os.path.join`.

The two text workers treat missing text differently:

- The name worker commits `"UNKNOWN"` when the OCR engine raises
  (name_ocr_service.py:50-52). It does not retry.
- The lore worker commits blank text as `""` (lore_ocr_service.py:49-61). It
  does not commit a sentinel. `""` is a value, not `None`, so the record is
  never selected again.

`Workers.TextPoliciesDiffer` states both behaviours side by side.

## Model

| member | source | states |
|---|---|---|
| Text.Strip | lore_ocr_service.py:50 | the result has no whitespace at either end and is the input with only leading and trailing whitespace removed |
| Text.StripUnique | name_ocr_service.py:47 | for any split of a string into whitespace, a trimmed middle and whitespace, `strip` returns that middle |
| Text.StripEmptyIff | name_ocr_service.py:47-49 | `strip` returns `""` exactly when the text is all whitespace, which is when the name sentinel applies |
| Text.StripIdempotent | lore_ocr_service.py:50 | stripping a stripped text changes nothing |
| ObjectIds.Parse | api.py:81-84 | `ObjectId(text)` accepts exactly 24 hexadecimal digits of either case, and the accepted id prints back as the lower-cased input |
| ObjectIds.Str | moves_ocr_service.py:42 | `str(doc["_id"])` is 24 characters, each a lower-case hexadecimal digit |
| ObjectIds.StrRoundTrip | api.py:33-35 | the text that `serialize_doc` gives an id parses back to the same id |
| ObjectIds.StrInjective | moves_ocr_service.py:42 | two different record ids never have the same text |
| Paths.Join | api.py:45 | `os.path.join` keeps an absolute second part as it is; otherwise it puts the directory and one separator in front |
| Paths.JoinInjective | weakness_ocr_service.py:43 | within one directory, two different relative names never join to the same path |
| Records.With | name_ocr_service.py:56-59 | a `{"$set": {f: v}}` update sets field `f` to `v` and leaves the other four fields, the file name, the path and the upload flag as they were |
| Records.WithCommutes | name_ocr_service.py:56-59 | single-field `$set` updates of two different fields give the same record in either order |
| NameOcr.NameText | name_ocr_service.py:46-52 | the committed name is never empty and never has whitespace at its ends; it is the stripped OCR text when that text has content, and "UNKNOWN" when the text is blank or the engine raised |
| NameOcr.Decide | name_ocr_service.py:32-52 | a record is skipped exactly when its path is missing, empty or absent on disk, or when open/crop fails; once the crop succeeds a value is always committed, so an OCR error is terminal |
| LoreOcr.DefaultBoxShape | lore_ocr_service.py:19 | with `LORE_CROP_BOX` unset the lore box is (228, 923, 699, 1016), 471 by 93 pixels; a set value is used as it is |
| LoreOcr.Decide | lore_ocr_service.py:36-54 | a value is committed exactly when the path exists and crop and OCR all succeed; that value is the stripped text with no sentinel, and it is `""` exactly for blank text |
| ImageCrop.OutputPath | moves_ocr_service.py:42-43 | the crop is saved as `<record id>.png` directly inside the worker's directory |
| ImageCrop.OutputPathInjective | weakness_ocr_service.py:42-43 | two different records never get the same output file |
| ImageCrop.Decide | moves_ocr_service.py:36-53 | a value is committed exactly when the path exists and crop and save both succeed; the value is the path the crop was saved to; each skip reports its cause |
| ImageCrop.CommittedPathIsPerRecord | resistance_ocr_service.py:42-49 | two committed paths are equal exactly when they are for the same record, whatever the source path or the I/O outcomes, so a retry overwrites the same file |
| ImageCrop.DefaultSpecs | moves_ocr_service.py:16-19 | without overrides: moves uses "moves" and box (50, 400, 500, 600), weakness uses "weaknesses" and (33, 882, 206, 911), resistance uses "resistances" and (126, 33, 546, 93); the three own different fields; all three boxes have positive width and height |
| ImageCrop.WeaknessBoxFixed | weakness_ocr_service.py:19 | no setting changes the weakness crop box, which gives a 173 by 29 pixel image |
| Workers.Apply | name_ocr_service.py:54-62 | processing a record changes only the worker's own field, and changes it only when extraction succeeded and the `$set` took effect; a `$set` that did not take effect leaves the record as it was |
| Workers.Process | moves_ocr_service.py:55-63 | `update_one` by id changes at most the one record, keeps every key, and does nothing for an id no longer stored |
| Workers.RunIsHandled | lore_ocr_service.py:74-76 | processing a scan in order equals handling each reached pending record on its own with its own outcomes, whatever the order |
| Workers.Cycle | name_ocr_service.py:69-75 | one pass keeps every key; each record the scan reached while its field was `None` is processed; every other record is unchanged |
| Workers.CycleFrame | resistance_ocr_service.py:57-60 | a cycle never writes `filepath` or any field other than the worker's own |
| Workers.CycleMonotone | name_ocr_service.py:71-73 | a record whose field holds any value, "UNKNOWN" and "" included, is never selected or rewritten |
| Workers.FailedQueryIsIdle | weakness_ocr_service.py:70-79 | a query that raises before yielding anything leaves the store unchanged |
| Workers.CycleIsolation | name_ocr_service.py:61-62 | a record's result depends only on its own attempt; no failure on another record changes it |
| Workers.ReachedSuccessIsDone | lore_ocr_service.py:57-62 | a pending record that the scan reaches, and whose own attempt succeeds, ends the cycle with the committed value |
| Workers.ApplyCommutes | weakness_ocr_service.py:57-60 | processing by two workers that own different fields gives the same record in either order |
| Workers.CyclesCommute | moves_ocr_service.py:71-75 | cycles of two workers that own different fields commute on the whole store |
| Workers.CycleIsSnapshotFold | moves_ocr_service.py:73-75 | for a scan listing each record once, the cycle equals folding `process_image` over the reached records that were `None` at cycle start |
| Workers.TextPoliciesDiffer | lore_ocr_service.py:45-54 | on the same outcome, blank OCR text gives name "UNKNOWN" but lore ""; an engine error gives name "UNKNOWN" but leaves the record as it was, so lore stays `None` for a retry |
| Service.Serve | resistance_ocr_service.py:68-79 | over any number of cycles, no key disappears; source fields and other workers' fields are unchanged; a field with a value keeps it |
| Service.ServeSplit | lore_ocr_service.py:69-81 | the loop carries on after any cycle, one whose query failed included; later cycles start from the store it left |
| Service.UnreadableSkips | resistance_ocr_service.py:37-40 | no worker writes a record whose source cannot be read |
| Service.UnreadableStaysPending | name_ocr_service.py:33-36 | a record whose source is unreadable in every cycle stays unchanged and `None` through every cycle |
| Service.NoSourcePathStaysPending | lore_ocr_service.py:37-40 | a record with a missing or empty `filepath` stays unchanged through any number of cycles |
| Service.NameSentinelIsTerminal | name_ocr_service.py:47-52 | blank OCR or an OCR error commits "UNKNOWN" in the first cycle that crops and updates; later cycles keep it |
| Service.BlankLoreIsTerminal | lore_ocr_service.py:49-61 | blank lore is committed as "" and later cycles keep it |
| Service.SavedButNotRecordedIsRetried | moves_ocr_service.py:42-63 | if the save succeeds but the `$set` does not take effect, the record is unchanged; the next successful cycle commits the same path |
| Api.NewRecord | api.py:53-62 | a new document has `filename` and `filepath` set, `uploaded` true, and all five extraction fields `None` |
| Api.UploadImage | api.py:40-76 | an empty or missing filename gives 400; a failed save, a raising insert or a duplicate id gives 500; 201 with the new id exactly when the file is saved and `insert_one` returns for a fresh id; the store changes exactly when the file is saved and the document reached the store under a fresh id, even if `insert_one` then raised, and then gains exactly one all-pending record at the joined path |
| Api.Serialize | api.py:33-35 | the returned document is the stored one, and its textual id parses back to the stored id |
| Api.GetImageMetadata | api.py:79-89 | a malformed id or a failing query gives 400; an absent record gives 404; otherwise the response is the stored record under its lower-case id text |
| Api.UploadThenLookup | api.py:64-89 | the id returned by a successful upload looks up the record just inserted |
| Api.UploadTwiceSharesPath | api.py:45-65 | two uploads with the same file name insert two records under different ids that share one `filepath` |
| Api.DefaultUploadPath | api.py:14 | with `UPLOAD_DIR` unset, a relative file name is stored as "uploaded_images/" followed by the name |
| Api.FailedResponseStillStored | api.py:64-67 | an `insert_one` that raises after storing answers 500, yet the all-pending record is in the collection for the workers to select |
| Api.AbsoluteFilenameEscapesUploadDir | api.py:45 | an absolute file name is stored as the path as it is, outside the upload directory |

## Left out

- MongoDB itself is not modelled: connections, cursor batching, and query
  semantics beyond "`null` or missing means pending". The store is a map. A
  query or cursor exception is the point in the scan where the cycle stops.
- PIL is not modelled: decoding, cropping, out-of-bounds boxes and PNG
  writing. Each is one success/failure outcome per attempt. The image
  workers carry their crop boxes as configuration data, and the lore box is
  a setting (`LoreOcr.BoxSetting`); no box influences those outcomes, so
  the text workers do not carry one.
- pytesseract is not modelled. OCR is an outcome: recognised text or an
  engine error.
- Configuration loading is not modelled: `load_dotenv`, `os.getenv`, and
  parsing crop boxes with `int`. This includes the name service's crash at
  start-up when `NAME_CROP_BOX` is unset. Directory creation with
  `os.makedirs` is left out too. Settings enter the model already parsed.
- The sleep between cycles, the `print` logging and the unbounded loop are
  not modelled. A `print` that raises inside a `try` block is folded into
  that block's outcome: `EngineError` for the lore worker, a failed save
  for the image workers. A crop file written before such a `print` raised
  stays on disk; the model has no file system. The loop is any finite sequence of cycles.
- Calls that never return are not modelled. The code sets no time-out on
  `Image.open`, `image_to_string`, `save`, `update_one` or the cursor, and
  each attempt here either returns or raises. A call that hangs on one
  record would block every later record and every later cycle, so
  `Workers.CycleIsolation` holds only for calls that return or raise.
- Races between two instances of the same worker are not modelled. The code
  has no claim or lease, and this is a concurrency concern. Different
  workers are covered by the commutation lemmas.
- Exceptions raised outside the `try` blocks of `process_image`, or inside
  one of its `except` handlers, are not modelled, for example by such a
  `print`. Such an exception reaches the query handler in `main` and ends
  the cycle early, which the model already allows.
- Service.Serve: a raise in `main` itself ends the worker process, and the
  model has no such ending. This covers the `print` in `main`'s query
  handler (name_ocr_service.py:75) and the `print` after the sleep
  (name_ocr_service.py:78), which is outside every `try`. The loop is
  modelled as running every cycle it is given.
- FastAPI routing, response encoding and `shutil` copying are not modelled.
  A file written before a failed insert stays on disk; the model has no file
  system.
- ObjectId generation is not modelled. The driver's new id is a parameter.
- ObjectIds.Parse: accepts only exactly 24 hexadecimal digits. `bytes.fromhex` would skip
  whitespace inside a 24-character id; bson's handling of that case lies
  outside this repository.
- Paths.Join: models POSIX `os.path.join` only, not the Windows rules.
- Workers.RunIsHandled: takes the cursor to yield each document at most
  once per cycle. The attempts are one per record per cycle, so for a
  repeated yield the model replays that record's attempt, whereas the code
  would call `process_image` again with fresh I/O outcomes.
