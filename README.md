# grunt-tentacles, modelled in Dafny

grunt-tentacles is a grunt task that syncs local files to an Amazon S3
bucket, upload only. It builds an inventory of the selected local files with
their MD5 digests. It lists every object of the bucket, page by page, and
reads each object's digest from its quoted ETag. It keeps the local files
that no remote object matches on both key and digest. It then puts those
files one after another, and the first failure ends the run.

This project models that pipeline in `tasks/tentacles.js` and proves its
properties. The I/O is a set of parameters:

- `Files.Host` holds `grunt.file.isFile`, `path.join`, `fs.readFileSync`,
  the hex MD5 of `crypto` and `mime.lookup` as fixed functions.
- `RemoteInventory.Backend` stands for listObjects: a function from a request
  (bucket and marker) to a page or an error.
- `Uploader.PutObject` stands for putObject: a function from a put request to
  success or an error.
- `Task.Environment` is a snapshot of `process.env`.

Modules:

- `Wrappers`: Option, Result and Outcome.
- `Files`: the data model (LocalFile, RemoteFile, FileGroup, Error, Host) and
  JavaScript truthiness of an optional string.
- `Sequences`: `filter` and `map` and their properties (membership,
  multiplicity, order, concatenation).
- `Reconciler`: `getUploadFiles`.
- `LocalInventory`: `getLocalFiles`. The flatten step is a pure function. The
  filter and digest passes are a method with loops.
- `RemoteInventory`: `listAllObjects` as a loop over the page oracle, the
  continuation marker, the ETag parse and the mapping of objects to remote
  files.
- `Uploader`: `uploadLocalFiles`, the sequential put chain.
- `Bucket`: the bucket's digests by key, and idempotence of a second run.
- `Task`: option defaulting and the task body's stage sequence.

In three places the model follows JavaScript semantics of `tasks/tentacles.js`
that are easy to miss:

- The code tests strings for truthiness. An empty `cwd` counts
  as absent, so the path is the key. An empty `NextMarker` counts as absent,
  so the marker is the last key. An empty `AWS_REGION` falls back to
  `ap-northeast-1`.
- The fallback marker is the last key of the current page, not of everything
  accumulated so far. A truncated page that is empty and has no `NextMarker`
  makes the code throw. The model gives `Err(TruncatedWithoutMarker)`.
- The remote inventory keeps the listing order, and a rejection is passed on
  unchanged: a failed listing or a bad ETag ends the run with that error.

## Model

| member | source | states |
|---|---|---|
| Reconciler.SameObject | tasks/tentacles.js:101 | a remote object matches a local file when key and digest are both equal; `AnyRemoteMatches` and `UploadFiles` state the upload list in its terms |
| Reconciler.AnyRemoteMatches | tasks/tentacles.js:100-102 | `some` is true exactly when some remote object has the local file's key and its digest |
| Reconciler.UploadFiles | tasks/tentacles.js:97-104 | a local file is in the upload list iff no remote object has its key and digest; each kept file occurs as often as locally, dropped ones not at all; the list is a subsequence of the local list in its order |
| Reconciler.AllInBucketUploadsNothing | tasks/tentacles.js:99-103 | when every local file is in the bucket with its digest, the upload list is empty |
| Reconciler.StaleFileIsUploaded | tasks/tentacles.js:100-102 | a local file whose key is in the bucket only with other digests is uploaded |
| Reconciler.SkippedFileIsInBucket | tasks/tentacles.js:99-103 | a local file is left out only if a remote object has its key and its digest |
| Reconciler.NewFileScenario | tasks/tentacles.js:97-104 | locals a.txt/d1 and b.txt/d2 against remote a.txt/d1 give the upload list [b.txt/d2] |
| Reconciler.ChangedFileScenario | tasks/tentacles.js:97-104 | local a.txt/d1 against remote a.txt/d9 is uploaded |
| LocalInventory.ResolvePath | tasks/tentacles.js:33 | the path of a key is `join(cwd, key)` for a truthy `cwd`, else the key; `KeysToCandidates` and `FlattenEntries` state it per entry |
| LocalInventory.Flatten | tasks/tentacles.js:31-36 | the reduce/concat of all groups' entries; `FlattenCons`, `FlattenKeys` and `FlattenEntries` state its order, keys and members |
| LocalInventory.KeysToCandidates | tasks/tentacles.js:32-35 | one entry per `src` key, in order, with the key unchanged and path `join(cwd, key)` for a truthy `cwd`, else the key |
| LocalInventory.FlattenCons | tasks/tentacles.js:31-36 | the reduce/concat flatten lists the first group's entries, then those of the remaining groups |
| LocalInventory.FlattenKeys | tasks/tentacles.js:31-36 | the flattened keys are the groups' `src` lists concatenated in group order |
| LocalInventory.FlattenEntries | tasks/tentacles.js:31-35 | an entry is in the flattened list iff its key is in some group's `src` and its path is that group's resolution of the key |
| LocalInventory.LocalFiles | tasks/tentacles.js:31-49 | the inventory: flattened entries whose path is a regular file, each with its digest; `LocalFilesAreFileEntries`, `LocalFileDigests` and `MissingFileIsSkipped` state it |
| LocalInventory.Warnings | tasks/tentacles.js:37-44 | the paths warned about: those of the flattened entries that are not regular files, in order; `MissingFileIsSkipped` and `KeepRegularFiles` state it |
| LocalInventory.LocalFilesAreFileEntries | tasks/tentacles.js:37-49 | with digests removed, the local inventory is exactly the flattened entries whose path is a regular file, in order, nothing added or repeated |
| LocalInventory.LocalFileDigests | tasks/tentacles.js:37-49 | every inventory entry is a regular file of the selection whose digest is the hex MD5 of the bytes at its path |
| LocalInventory.MissingFileIsSkipped | tasks/tentacles.js:37-44 | a selected path that is not a file is warned about and missing from the inventory, while every selected regular file is in it |
| LocalInventory.KeepRegularFiles | tasks/tentacles.js:37-44 | the filter loop keeps exactly the entries whose path is a regular file, in order, and warns about exactly the other paths, in order |
| LocalInventory.AttachDigests | tasks/tentacles.js:45-49 | the digest loop gives every kept entry, in order, the hex MD5 of the bytes at its path |
| LocalInventory.GetLocalFiles | tasks/tentacles.js:25-51 | the filter and digest loops return exactly the local inventory, and the warnings are the dropped paths in order |
| RemoteInventory.NextMarker | tasks/tentacles.js:77 | the marker after a truncated page: its non-empty `NextMarker`, else its last key, else the TypeError; `ContinuationMarker` states it for every fetch |
| RemoteInventory.ContinuationMarker | tasks/tentacles.js:76-79 | every request after the first follows a truncated page and carries its non-empty `NextMarker`, else the key of its last object, which then exists |
| RemoteInventory.FetchedAgree | tasks/tentacles.js:71-84 | two fetches from the same backend agree on every page both made |
| RemoteInventory.CompleteListingUnique | tasks/tentacles.js:71-84 | a backend has one complete listing: fetching stops at the first page that is not truncated |
| RemoteInventory.Objects | tasks/tentacles.js:75 | the contents of the pages concatenated in request order; `ObjectsAppend` states it for any split |
| RemoteInventory.ObjectsAppend | tasks/tentacles.js:75 | accumulating contents distributes over splitting the page sequence |
| RemoteInventory.ListAllObjects | tasks/tentacles.js:71-84 | the pages are the backend's answers to the marker chain; success iff the last page is not truncated, and the result is the pages' contents in request order; a failed request or a truncated page without marker rejects the listing |
| RemoteInventory.ParseETag | tasks/tentacles.js:91 | the digest inside a quoted ETag; `ParseQuote` and `QuoteParse` state that it parses exactly the quoted plain digests |
| RemoteInventory.ParseQuote | tasks/tentacles.js:90-91 | parsing a quoted plain digest gives back the digest |
| RemoteInventory.QuoteParse | tasks/tentacles.js:90-91 | an ETag that parses is the quoted form of its plain digest |
| RemoteInventory.ToRemoteFiles | tasks/tentacles.js:89-93 | one remote file per listed object, in order, with its key and its ETag without quotes; the first ETag that does not parse fails the mapping |
| RemoteInventory.GetRemoteFiles | tasks/tentacles.js:54-95 | success iff the listing is complete and every ETag parses, and then the result is the mapped listing; an incomplete listing rejects with the backend's own error, or with the TypeError of a truncated page without marker |
| Uploader.RequestFor | tasks/tentacles.js:115-120 | the put parameters of one file: bucket, key, bytes at its path, MIME type of its path; `RequestsAt` and `Task.UploadedBodyHasLocalDigest` state it |
| Uploader.RequestsAt | tasks/tentacles.js:115-120 | the i-th put request is for the i-th file: the bucket, the file's key, the bytes at its path and the MIME type of its path |
| Uploader.FirstFailure | tasks/tentacles.js:133-135 | the index of the first failing put is within the request list, and the put at it fails |
| Uploader.PassesBeforeFirstFailure | tasks/tentacles.js:133-135 | every put before the first failing one succeeds |
| Uploader.UploadLocalFiles | tasks/tentacles.js:106-136 | uploads are attempted in order; if the k-th fails, files 0..k-1 were put, none after k is attempted and the run fails with that error; otherwise every file was put and the run succeeds |
| Uploader.SecondOfThreeFails | tasks/tentacles.js:133-135 | of three uploads where the second fails, only the first two are attempted |
| Bucket.SecondRunUploadsNothing | tasks/tentacles.js:99-103 | after the upload list is put, a listing of the new bucket makes the next upload list empty, given that no key is selected twice with different contents |
| Bucket.ConflictingKeysUploadAgain | tasks/tentacles.js:31-36 | one key selected from two directories with different contents is put twice, and the next run uploads it again |
| Task.ResolveOptions | tasks/tentacles.js:143-148 | a given option wins; the keys default to the environment; the region defaults to a non-empty `AWS_REGION`, else `ap-northeast-1`, so it is always set |
| Task.UploadedBodyHasLocalDigest | tasks/tentacles.js:45-49 | the body a local file is put with hashes to that file's digest |
| Task.Sync | tasks/tentacles.js:154-177 | a failed listing fails the run with the listing's error and a bad ETag with that ETag's parse error, before any upload; otherwise the reconciled list is uploaded up to its first failure |

## Left out

- AWS SDK: `newS3Client` (lines 13-22) is not modelled. Credentials, region and API version do not reach the listObjects and putObject oracles.
- Q promises: the promise plumbing (lines 59-69, 114-129, 154-177) is modelled as the sequential loops and calls it stands for.
- Logging: the log and verbose output (lines 121, 132, 162-174) is left out. The warnings of line 39 are the `warnings` result of `GetLocalFiles`. The upload log lines match the `attempted` requests.
- Host calls: `isFile`, `path.join`, `readFileSync`, MD5 and `mime.lookup` are uninterpreted functions. MD5 and the MIME tables are not modelled.
- Read failures: reads are total functions. A file that vanishes between the `isFile` test and a `readFileSync` (lines 47, 118) does not make the model fail.
- The digest is set in place on the record built by the flatten step (line 48). The model builds a new record instead. That record is fresh and not shared, so no aliasing is lost.
- RemoteInventory.ParseETag: models `JSON.parse` only for a double-quoted string of plain characters. Any other ETag gives `MalformedETag`, while `JSON.parse` would unescape escapes, skip surrounding whitespace, or return a non-string value.
- RemoteInventory.ListAllObjects: requires that the backend ends the listing within some number of requests (`ListingEnds`). The source would recurse for ever on a backend that never stops returning truncated pages with markers.
- Bucket.SecondRunUploadsNothing: assumes that a stored object's ETag is the quoted MD5 of its body, so it carries the local digest. Multipart uploads break this. `Task.UploadedBodyHasLocalDigest` states the local half.
- Task registration: `grunt.registerMultiTask`, `this.async()` and the completion callback (lines 138-141, 177) are host plumbing. `Task.Sync` returns the outcome passed to `done`.
- Option merging: options come as the merged task options. Task-level and target-level merging is done by grunt and is not modelled.
