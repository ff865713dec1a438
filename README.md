# Partitioned document uploads and versioned records, in Dafny

This project models the persistence and upload core of a browser file-sharing
application that stores its data in a Gaia storage hub.

- **Records** (`records.dfy`, module `Records`). The generic record base has
  five lifecycle hook lists (`afterInitialize`, `beforeSave`, `afterSave`,
  `beforeDelete`, `afterDelete`), one registry shared by every record type.
  Records are built from an attribute bag, and the constructor turns a set
  `created_at` into a date. `save` runs the `beforeSave` hooks, then writes
  the attributes under the id. A new record gets a fresh six-character id and
  the current time as its creation time. The payload is then merged back onto
  the instance and the `afterSave` hooks run. `delete` removes the object
  named by the id. `get` reads an object, parses it and constructs an
  instance from it. Every backend call first needs a configured session, and
  a missing session throws.
- **Documents** (`gaia_document.dfy`, module `GaiaDocument`; examples in
  `document_examples.dfy`).
  - A payload without a version is *legacy* (version 1) when it has an id:
    its display name is what follows the url's last `/`.
  - Without an id it is a fresh version 2 document.
  - The part count defaults to one.
  - A document serializes to a fixed set of properties: `content_type`
    defaults to null and `localId` to the id.
  - Saving a document without a url gives it a new UUID as its url.
- **Partitioned upload** (`partitions.dfy`, module `Partitions`; `uploader.dfy`,
  modules `PartitionedUpload` and `UploadProperties`).
  - A document's file of `size` bytes is cut into `ceil(size / partSize)`
    parts. Each part is written as an object named `url + ".part" + n`.
  - Each stored part adds its byte length to a progress counter.
  - Once every part is stored, the document is marked with
    `storageType = "partitioned"`, `numParts` and `partSize`. It is then
    written as the manifest under its id.
  - The first rejected write ends the upload, and no manifest is written.

The storage backend (`storage.dfy`, module `Storage`) is a class holding a map
from object names to contents, plus the log of writes and deletes it received.
Each write or delete takes a flag saying whether the backend accepts it.
Randomness and the clock are parameters: the six-character id `hash`, the
UUID `uuid`, and the time `now`. JavaScript values, truthiness and `String(n)`
are in `values.dfy` (module `Values`).

The upload loop is sequential. The order in which the parts complete is a
parameter `order`, a permutation of the part numbers. The parts the backend
rejects are a set `failing`. The loop stops at the first rejected part in
that order, which is the rejection `Promise.all` reports.

The document entity's own source (`gaia_document.js`) is not part of this
model. Its behaviour is taken from its test file,
`assets/javascripts/lib/gaia_document.test.js`, alone. Where the tests leave a
rule open, the model assumes one; those assumptions are listed under "Left out".

## Model

| member | source | states |
|---|---|---|
| Records.HookRegistry.constructor | assets/javascripts/lib/records/record.js:8-14 | the five hook lists start empty |
| Records.HookRegistry.AddHook | assets/javascripts/lib/records/record.js:56-63 | a function is appended to the end of its own list and no other list changes; anything else throws `<name> hook must be of type 'function'` and changes nothing |
| Records.FirstThrow | assets/javascripts/lib/records/record.js:116-122 | the position of the first hook that throws: every hook before it passes, and the hook at it throws |
| Records.Called | assets/javascripts/lib/records/record.js:116-122 | the hooks a run calls are a prefix of the list: all of it when none throws, otherwise up to and including the first that throws, and only that last one throws |
| Records.RunOutcome | assets/javascripts/lib/records/record.js:116-122 | a run passes exactly when no hook throws; a failed run fails with a throwing hook none of whose predecessors throws |
| Records.HookRegistry.Run | assets/javascripts/lib/records/record.js:107-122 | the hooks are called in registration order up to and including the first that throws; the run fails with that hook, and it passes exactly when no hook throws |
| Records.Record.constructor | assets/javascripts/lib/records/record.js:85-93 | the instance holds exactly the given properties with `created_at` turned into a date (and, for a document, normalized) |
| Records.InitialFields | assets/javascripts/lib/records/record.js:85-93 | a truthy `created_at` becomes a date and an unset one stays, every other property is copied, and a document changes only its version, name and part count, after which it has both |
| Records.Record.New | assets/javascripts/lib/records/record.js:85-95 | construction succeeds exactly when no `afterInitialize` hook throws; the new instance holds the initial fields, and the called hooks are the events |
| Records.AttributesOf | assets/javascripts/lib/records/record.js:124-129 | the base attributes are exactly `id` and `created_at`, each the instance's value when truthy and null otherwise; no attribute is undefined |
| Records.Record.Attributes | assets/javascripts/lib/records/record.js:124-129 | `attributes()`/`toJSON()`: for the base exactly `id` and `created_at`, for a document its projection, and never an undefined value |
| Records.InitialFieldsDated | assets/javascripts/lib/records/record.js:85-93 | a bag whose creation time is already a date is copied as it is (and, for a document, normalized) |
| Records.StoredDocumentLoads | assets/javascripts/lib/gaia_document.test.js:38-62 | a stored document with a version, a part count and a dated creation time loads exactly as it was stored |
| Records.LegacyDocumentLoads | assets/javascripts/lib/gaia_document.test.js:99-136 | a stored document with an id and a url but no version loads as version 1, named after the end of its url, with every other property as stored |
| Records.SavePayload | assets/javascripts/lib/records/record.js:140-142 | the payload's id is the existing truthy id or the new six-character hash, and its `created_at` is the existing one or the current time; both are truthy |
| Records.SaveIsIdempotent | assets/javascripts/lib/records/record.js:140-151 | after one save is merged onto the instance, a second save keeps its id and creation time whatever new hash and time it is given |
| Records.SaveMakesPersisted | assets/javascripts/lib/records/record.js:103-105 | once a save's payload is merged onto the instance its id is truthy, so `isPersisted()` holds |
| Records.SaveKeepsDocumentFields | assets/javascripts/lib/gaia_document.test.js:21-35 | saving a document changes none of its plain properties but its id, its creation time and its url; the url is kept when set and becomes the new UUID otherwise |
| Records.SaveSetsUrl | assets/javascripts/lib/gaia_document.test.js:21-35 | a saved document keeps its url, or is given the new UUID when it had none |
| Records.SaveKeepsDocumentField | assets/javascripts/lib/records/record.js:140-151 | merging the save payload back keeps each plain document property other than the id, the creation time and the url |
| Records.Record.Save | assets/javascripts/lib/records/record.js:135-158 | a throwing `beforeSave` hook, a missing session or a rejected write each end the save with that error, and the instance and the backend are left unchanged; otherwise one write of the payload under its id with encryption and verification off, the payload merged onto the instance, which is then persisted whatever the `afterSave` hooks do, then those hooks; `skipHooks` runs neither list |
| Records.Record.Delete | assets/javascripts/lib/records/record.js:97-101 | the `beforeDelete` hooks, then one removal of the object named by the id, then the `afterDelete` hooks; a throwing hook, a missing session or a rejected removal each stop the operation there |
| Records.ResolveUsernameIdempotent | assets/javascripts/lib/records/record.js:35-37 | adding the `.id.blockstack` suffix to a username without a `.` happens at most once |
| Records.ResolveUsername | assets/javascripts/lib/records/record.js:35-37 | no username stays none; an empty username, or one that already contains a `.`, is left alone; any other gets the `.id.blockstack` suffix, so a non-empty result always contains a `.` |
| Records.Record.Load | assets/javascripts/lib/records/record.js:35-46 | a missing session throws before any read; a missing object, or one that is not JSON, is an error; otherwise the instance is constructed from the stored payload exactly as the constructor would build it, `afterInitialize` hooks included: the load succeeds exactly when none of them throws, and otherwise fails with the first that does |
| Values.ToDate | assets/javascripts/lib/records/record.js:90-92 | a date stays the same date, and a number of milliseconds becomes that date |
| Values.TruthyOr | assets/javascripts/lib/records/record.js:126-127 | `a \|\| b` is truthy exactly when one operand is, and is `b` when neither is |
| Values.NatTextInjective | assets/javascripts/lib/partitioned_document_uploader.js:96 | different part numbers have different decimal texts |
| Storage.Store.PutFile | assets/javascripts/lib/records/record.js:148 | an accepted write logs the write and stores the content under its key; a rejected one is a transport error and changes nothing |
| Storage.Store.DeleteFile | assets/javascripts/lib/records/record.js:99 | an accepted removal logs it and removes the key; a rejected one is a transport error and changes nothing |
| Storage.Store.GetFile | assets/javascripts/lib/records/record.js:41 | the stored content, or not-found when there is none |
| GaiaDocument.AfterLastSlash | assets/javascripts/lib/gaia_document.test.js:99-121 | the name derived from a url contains no `/`, is no longer than the url, and is preceded by a `/` unless it is the whole url |
| GaiaDocument.AfterLastSlashIsSuffix | assets/javascripts/lib/gaia_document.test.js:99-121 | the derived name is the end of the url |
| GaiaDocument.NoSlashIsWholeName | assets/javascripts/lib/gaia_document.test.js:124-135 | the legacy name rule shown there (the text after the url's last `/`), taken at its edge: a url without `/` is its own name |
| GaiaDocument.NameAfterDirectory | assets/javascripts/lib/gaia_document.test.js:99-121 | the url `dir/file`, where `file` has no `/`, is named `file` whatever `dir` is |
| GaiaDocument.LegacyExampleName | assets/javascripts/lib/gaia_document.test.js:100-115 | `abcdef/name.pdf` is named `name.pdf` |
| GaiaDocument.Normalize | assets/javascripts/lib/gaia_document.test.js:14-62 | after construction every document has a version: an explicit one with its name is kept, a fresh one is version 2 with its name, and a stored one without a version is version 1 named after its url |
| GaiaDocument.NormalizeFrame | assets/javascripts/lib/gaia_document.test.js:111-121 | normalization defaults the part count to one and changes nothing but the version, the name and the part count |
| GaiaDocument.Serialize | assets/javascripts/lib/gaia_document.test.js:65-95 | the projection holds only the fixed property set and no undefined value |
| GaiaDocument.SerializeKeysFixed | assets/javascripts/lib/gaia_document.test.js:65-95 | the projection's properties are among the fixed thirteen |
| GaiaDocument.SerializeAt | assets/javascripts/lib/gaia_document.test.js:65-95 | each fixed property of the projection reads as the document's value (or its default) and is absent when that is undefined; any other property is absent |
| GaiaDocument.SerializePlain | assets/javascripts/lib/gaia_document.test.js:65-95 | a document holding only plain properties, an id among them, serializes to exactly those properties plus a null content type and its id as local id |
| GaiaDocument.SerializeKeepsPlainFields | assets/javascripts/lib/gaia_document.test.js:81-92 | the projection carries id, version, creation time, part count, size, url, name, the uploaded flag and the transport properties as they are |
| GaiaDocument.SerializeDefaults | assets/javascripts/lib/gaia_document.test.js:81-92 | `content_type` defaults to null and `localId` to the id |
| GaiaDocument.SerializeIdempotent | assets/javascripts/lib/gaia_document.test.js:10-12 | serializing a serialized document changes nothing |
| GaiaDocument.ReloadIsIdentity | assets/javascripts/lib/gaia_document.test.js:139-160 | a document built from its own serialization serializes to the same properties |
| DocumentExamples.FreshDocumentIsCurrent | assets/javascripts/lib/gaia_document.test.js:14-17 | a document built from nothing is version 2 |
| DocumentExamples.NewDocumentSave | assets/javascripts/lib/gaia_document.test.js:21-35 | saving a new document with a name and a size leaves it version 2 with its name, and with a UUID as its url |
| DocumentExamples.CurrentPayloadLoads | assets/javascripts/lib/gaia_document.test.js:38-62 | a version 2 payload loads with every property as stored |
| DocumentExamples.CurrentDocumentSerializes | assets/javascripts/lib/gaia_document.test.js:65-95 | a version 2 document serializes to its properties plus a null content type and its id as local id |
| DocumentExamples.LegacyPayloadLoads | assets/javascripts/lib/gaia_document.test.js:109-136 | a legacy payload loads as version 1 named `name.pdf`, with every other property as stored |
| DocumentExamples.LegacyLoadedSerializes | assets/javascripts/lib/gaia_document.test.js:146-157 | the loaded legacy document serializes to the expected version 1 property set |
| DocumentExamples.LegacyDocumentSerializes | assets/javascripts/lib/gaia_document.test.js:139-191 | a legacy payload, loaded and serialized, gives version 1, its derived name, a null content type and its id as local id |
| Partitions.NumPartsFor | assets/javascripts/lib/partitioned_document_uploader.js:15 | an empty file has no parts; otherwise the parts are the fewest that hold the file: `(n-1)*partSize < size <= n*partSize` |
| Partitions.SliceLength | assets/javascripts/lib/partitioned_document_uploader.js:27-31 | a part holds at most `partSize` bytes, and exactly that many unless it reaches the end of the file |
| Partitions.SlicesInOrder | assets/javascripts/lib/partitioned_document_uploader.js:27-31 | parts do not overlap, and each starts where the previous one ends |
| Partitions.JoinedIsPrefix | assets/javascripts/lib/partitioned_document_uploader.js:27-31 | the first `k` parts joined are the file's first `k*partSize` bytes, clamped to its length |
| Partitions.PartsCoverFile | assets/javascripts/lib/partitioned_document_uploader.js:15-31 | all `numParts` parts joined are exactly the file |
| Partitions.SumLengthsConcat | assets/javascripts/lib/partitioned_document_uploader.js:68 | the bytes counted for two runs of parts add up |
| Partitions.SumOfRange | assets/javascripts/lib/partitioned_document_uploader.js:63-68 | parts `0..k-1` count as many bytes as their joined content |
| Partitions.SumLengthsPermutation | assets/javascripts/lib/partitioned_document_uploader.js:62-72 | the bytes counted do not depend on the order the parts complete in |
| Partitions.PrefixSumBounded | assets/javascripts/lib/partitioned_document_uploader.js:68 | the bytes counted for the parts completed so far never exceed those of all of them |
| Partitions.AllPartsSumToSize | assets/javascripts/lib/partitioned_document_uploader.js:62-72 | whatever order the parts complete in, all of them count the whole file |
| Partitions.PermutationIsDistinct | assets/javascripts/lib/partitioned_document_uploader.js:63-64 | each part number is uploaded once |
| Partitions.PartNamesDistinct | assets/javascripts/lib/partitioned_document_uploader.js:94-98 | different part numbers give different part names |
| Partitions.PartNameParts | assets/javascripts/lib/partitioned_document_uploader.js:96 | a part's name is the url, then `.part`, then the part number's decimal digits |
| PartitionedUpload.FirstFailure | assets/javascripts/lib/partitioned_document_uploader.js:72 | the upload fails with the first rejected part in completion order: none before it is rejected |
| PartitionedUpload.FirstFailureAt | assets/javascripts/lib/partitioned_document_uploader.js:72 | a position with no rejected part before it and a rejected part at it (or the end) is the first failure |
| PartitionedUpload.ProgressRegister.constructor | assets/javascripts/lib/partitioned_document_uploader.js:17 | the counter's total is the document's size, and nothing is completed yet |
| PartitionedUpload.ProgressRegister.Add | assets/javascripts/lib/partitioned_document_uploader.js:68 | the completed count grows by the given number of bytes |
| PartitionedUpload.PartitionedUploader.constructor | assets/javascripts/lib/partitioned_document_uploader.js:13-17 | the part size is the document's when set and the default otherwise; the part count is `ceil(size / partSize)`; progress counts towards the size from zero |
| PartitionedUpload.PartitionedUploader.FileSlice | assets/javascripts/lib/partitioned_document_uploader.js:27-31 | part `p` is the bytes from `p*partSize` to `(p+1)*partSize`, clamped to the file, and at most `partSize` of them |
| PartitionedUpload.PartitionedUploader.UploadPart | assets/javascripts/lib/partitioned_document_uploader.js:94-98 | part `n` is written as bytes under `url + ".part" + n` with encryption and verification off |
| PartitionedUpload.PartitionedUploader.UploadDocument | assets/javascripts/lib/partitioned_document_uploader.js:85-92 | the document is marked partitioned with its part count and part size, then its serialized form is written under its id |
| PartitionedUpload.PartitionedUploader.UploadParts | assets/javascripts/lib/partitioned_document_uploader.js:62-72 | the parts are written in completion order up to the first rejection; progress grows by each stored part's length, and only after that part is stored |
| PartitionedUpload.PartitionedUploader.Upload | assets/javascripts/lib/partitioned_document_uploader.js:62-79 | the manifest is written, after the parts, only when every part is stored; a rejected part leaves the document unmarked and writes no manifest; success returns the same document object |
| UploadProperties.StoredParts | assets/javascripts/lib/partitioned_document_uploader.js:94-98 | after distinct parts are written, each is stored under its own name with its own bytes |
| UploadProperties.EveryPartStored | assets/javascripts/lib/partitioned_document_uploader.js:62-72 | after all parts are written, in any order, each part `p` is stored under `url + ".part" + p` |
| UploadProperties.ReadBackJoins | assets/javascripts/lib/partitioned_document_uploader.js:27-31 | reading the stored parts back in part order joins them |
| UploadProperties.UploadedFileReadsBack | assets/javascripts/lib/partitioned_document_uploader.js:62-79 | after a complete upload, in any completion order, the stored parts read back in part order are exactly the file |
| UploadProperties.ManifestFollowsEveryPart | assets/javascripts/lib/partitioned_document_uploader.js:72-76 | the writes before the manifest include the write of every part |
| UploadProperties.ProgressWithinSize | assets/javascripts/lib/partitioned_document_uploader.js:62-72 | progress never exceeds the file's size, and reaches it once every part is stored |
| UploadProperties.SmallFileIsOnePart | assets/javascripts/lib/partitioned_document_uploader.js:15 | a non-empty file no larger than a part is a single part |
| UploadProperties.MarkedFrame | assets/javascripts/lib/partitioned_document_uploader.js:85-88 | `Marked`, the document as marked before the manifest write, sets `storageType`, `numParts` and `partSize` and changes no other property |
| UploadProperties.ManifestDescribesParts | assets/javascripts/lib/partitioned_document_uploader.js:85-91 | the manifest says the document is partitioned, with its part count and part size |
| UploadProperties.ManifestKeepsFields | assets/javascripts/lib/partitioned_document_uploader.js:85-91 | the manifest carries every other plain property of the document, its url, size and version among them, unchanged |

## Left out

- The Bottleneck limiters (read capacity 6, upload capacity 3, `disconnect`) and all concurrency. The part loop is sequential, and the completion order is an input.
- Parts that are still in flight when another part is rejected. In the source they may still be written and still add to the progress. The model stops at the first rejection in completion order.
- `FileReader`/`readFileSlice`: reading a slice is taken to give exactly its bytes, and a read error is not modelled.
- The `@stacks/storage` client is not part of this model. The backend is an object map and a write log, with an accepted/rejected flag on each call.
- `Constants.FILE_PART_SIZE` (constants.js is not part of this model): it is the positive constructor parameter `defaultPartSize`.
- ProgressRegister (progress_register.js is not part of this model): it is a counter of completed bytes, with no observers and no `onProgress` callbacks.
- PartitionedUpload.PartitionedUploader.constructor: a document without a numeric size, with a negative size, or with a part size that is set but is not a positive number, is outside the model. What the source does with such a document depends on the values: a part count that is NaN or negative makes `upload` throw a RangeError; a quotient above -1 and at most 0 (a negative size above `-partSize`, or, with a negative part size, a non-negative size below its magnitude, such as size 3 and part size -5) rounds up to `0` or `-0`, so no part is written and the manifest still is; and a part size given as a numeric string such as `"5"` is truthy and is turned into a number by `/` and `*`, so the upload runs with parts of that many bytes. A negative size with a negative part size gives a positive part count, and the slices are then taken with the negative offsets `file.slice` accepts.
- PartitionedUpload.PartitionedUploader.constructor: the local file is a separate parameter. `size` is not required to equal the file's length, so the progress lemmas assume it does.
- `uploadPart` hands an options object (`contentType: 'application/octet-stream'`) to `putPublicFile`, which takes no third argument. The parts are therefore written with the public options only, as modelled.
- `Record.config`: the session is a `Store?` parameter of each operation.
- `getStorage` building a storage client from the session: the session is the backend.
- The options handed to hooks, and a hook's effects on the instance: a hook is modelled by whether it throws. For the awaited hook lists (`beforeSave`, `afterSave`, `beforeDelete`, `afterDelete`) an asynchronous hook that rejects is modelled as a throw.
- Records.Record.New: an `afterInitialize` hook is modelled as throwing synchronously. The source calls these hooks with `forEach` and neither awaits nor catches a returned promise, so an asynchronous `afterInitialize` hook that rejects does not make construction (or `get`) fail, and the hooks after it still run. `New` and `Load` instead fail with that hook and call no later hook.
- `afterInitialize` hooks run synchronously in the constructor. `New` models them after the fields are built, and the hooks cannot change them.
- `parse` and `serialize` on the base record are the identity, so they do not appear.
- Records.Record.Load: in the source the username option selects whose bucket is read, and the suffix is added to the caller's own options object in place, which then goes on to `parse` and to the constructor. The model reads the one store whatever the username, does not model that update of the caller's object, and does not model decryption; `Load` only returns the options the read is made with.
- JSON text: a payload read back is the attribute bag that was written, and dates are not printed to and parsed from ISO text. `Values.Text` gives dates an empty text, because date formatting is not modelled.
- gaia_document.js is not part of this model, and its test file fixes only examples. The model makes these assumptions of its own where the tests leave the rule open:
  - A document without a version is legacy exactly when it has a truthy id; the tests show one payload of each kind.
  - A legacy document's name is the text after its url's last `/`, and the whole url when it has none; the tests show one url with a `/`.
  - A missing `num_parts` defaults to `1`.
  - The transport properties `storageType`, `numParts` and `partSize` are serialized when they are set.
  - `content_type` and `localId` are defaulted with `||`: a falsy value, such as an empty string, serializes as null and as the id respectively, not only a missing one.
  - A document without a url is given the new UUID as its url while it is saved; that url is what the saved document holds.
- The `uuid` parameter is assumed to be well formed only where a lemma says so, since the UUID generator is not part of this model.
- Floating point: `Math.ceil(size / partSize)` is integer ceiling division, which agrees with the source for every size below 2^53.
- NaN is not a value of the model.
