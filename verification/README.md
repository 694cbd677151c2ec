# grunt-webdav-sync synchronisation engine, modelled in Dafny

The `webdav_sync` Grunt task pushes a local folder to a WebDAV server. For
every entry below the local folder it builds one task keyed by the entry's
relative path. A folder task removes the remote folder (DELETE) and creates
it again (MKCOL). A file task uploads the file (PUT). Each task waits for the
task of its parent folder. The run fails exactly when some task reports an
error.

This project models that engine as pure functions and proves its contracts:

- `wrappers.dfy`: `Option`, standing for the source's `null`/`false`/`undefined`.
- `text.dfy` (module `Text`): JavaScript `split`/`join` on a one-character
  separator, with both round trips. It also holds the decimal rendering of a
  status code inside an error message, with its inverse.
- `remote.dfy` (module `Remote`): request options and HTTP Basic
  credentials (RFC 7617). It classifies the status code of DELETE, MKCOL
  and PUT (sections 9.6, 9.3 and 9.7 of RFC 4918) into success or an error
  record `{status, message}`.
- `keys.dfy` (module `Keys`): upload keys, parent keys, and the
  backslash-to-slash normalisation of the remote path.
- `tasks.dfy` (module `Tasks`): `createTask`, the task for each entry, the
  task map of a run, and what running a folder or a file task sends and
  reports.
- `scheduler.dfy` (module `Scheduler`): the dependency-driven run. It is
  given as a declarative status for each task (`StatusOf`) and as a
  sequential executor (`Sync`), proved to agree with it.

The duplicated `409` test in the MKCOL handler (tasks/webdav_sync.js:79) is
kept as written. Its message is the one RFC 4918 gives for 507 Insufficient
Storage, so the test was most likely meant for 507. As written it can never
fire: `MkcolOutcome` proves that its message is never produced, and a 507
reply falls through to the "Unknown error" record. The engine model uses the
classifier as written; `MkcolOutcomeIntended` is the corrected reading (see
"## Findings").

Inputs the engine receives from outside are parameters of the model (the
`Env` datatype): the file system's `isDir` and `read`, Node's `url.resolve`
and `url.parse`, the platform separator `path.sep`, and the server's reply
to each request.

## Model

| member | source | states |
|---|---|---|
| Text.JoinOfSplit | tasks/webdav_sync.js:115-118 | joining the parts of `split(c)` with `c` gives back the original string |
| Text.SplitOfJoin | tasks/webdav_sync.js:115-118 | splitting a join of separator-free parts gives back the parts |
| Text.SplitIsSingleIff | tasks/webdav_sync.js:115-116 | a string splits into one part exactly when it has no separator |
| Text.FirstPartIsTextBeforeSeparator | tasks/webdav_sync.js:22-24 | the first part of a split is the text before the first separator |
| Text.Decimal | tasks/webdav_sync.js:53 | the number printed into a message is a canonical numeral, one digit exactly for values below 10 |
| Text.NumeralValueOfDecimal | tasks/webdav_sync.js:53 | reading a printed status code back gives the code |
| Text.DecimalOfNumeralValue | tasks/webdav_sync.js:53 | printing the value of a canonical numeral gives the numeral back |
| Remote.BasicCredentials | tasks/webdav_sync.js:21-28 | the user is the text before the first ':'; the password exists iff there is a ':' and is the text up to the next ':' or the end, so later segments are dropped; credentials are not sent preemptively |
| Remote.CreateRequestOptions | tasks/webdav_sync.js:17-39 | with auth text the request carries its credentials, without it auth stays absent; the URI's auth becomes "" and the rest of the URI is unchanged |
| Remote.PutRequestOptions | tasks/webdav_sync.js:90-92 | a PUT carries the common options plus the file content as body |
| Remote.DeleteOutcome | tasks/webdav_sync.js:47-54 | DELETE succeeds iff 204 or 404, with the same outcome for both; 423 fails naming the URL; every failure carries its status, and any other code is printed in the message, readable back |
| Remote.MkcolOutcome | tasks/webdav_sync.js:65-83 | MKCOL succeeds iff 201 or 405, identically; 401, 403, 409 and 415 fail with their own status and message; 409 always gives the intermediate-collections message; other codes give "Unknown error"; the insufficient-storage message never occurs |
| Remote.MkcolInsufficientStorageIsUnknown | tasks/webdav_sync.js:79-82 | as written, a 507 reply to MKCOL yields the "Unknown error" record, not the insufficient-storage message |
| Remote.MkcolOutcomeIntended | tasks/webdav_sync.js:65-83 | the corrected classifier: success iff 201 or 405, every failure carries its status, 507 gives the insufficient-storage record, and codes outside 401, 403, 409, 415 and 507 give "Unknown error" |
| Remote.MkcolIntendedDiffersOnlyAt507 | tasks/webdav_sync.js:75-82 | the corrected classifier agrees with the written one on every code except 507 |
| Remote.PutOutcome | tasks/webdav_sync.js:95-104 | PUT fails iff 500 or 401; the 500 record has no status, the 401 record has status 401; both messages end with the URL |
| Remote.PutAcceptsOtherCodes | tasks/webdav_sync.js:101-104 | 200, 201, 204, 404 and every 3xx code count as a successful upload |
| Keys.UploadKey | tasks/webdav_sync.js:110-112 | the key is the entry's path with the root folder and one separator stripped: root + sep + key is the path |
| Keys.ParentKey | tasks/webdav_sync.js:114-121 | the parent key is absent ("false") exactly when the key has no separator |
| Keys.ParentKeyOfNested | tasks/webdav_sync.js:114-119 | a nested key's parent has exactly one segment fewer (the key's first segments), parent + sep + last segment is the key, and the parent is shorter |
| Keys.NormaliseSlashes | tasks/webdav_sync.js:160 | the remote relative path has the same length, no backslash, each backslash replaced by '/' and every other character kept |
| Keys.RemotePathSegments | tasks/webdav_sync.js:158-160 | with the Windows separator, the remote path has exactly the key's segments, separated by '/' |
| Tasks.CreateTask | tasks/webdav_sync.js:123-133 | with no parent the task has no dependency, otherwise exactly the parent key; the wrapped work is unchanged |
| Tasks.TaskFor | tasks/webdav_sync.js:157-190 | an entry's task targets the resolved, slash-normalised URL of its key, is a folder task iff the entry is a folder, uploads the file content, and depends on the key's parent iff the key is nested |
| Tasks.AssignCovers | tasks/webdav_sync.js:155-165 | each key assigned into the task object is one of its keys |
| Tasks.AssignLastWins | tasks/webdav_sync.js:155-185 | each key of the task object holds the value of the last assignment to that key: a later entry with the same key replaces an earlier one |
| Tasks.Plan | tasks/webdav_sync.js:147-191 | the first expanded path is the root and gets no task; every other path has a task under its key, and each task is the task of the last path with that key; no files means no tasks |
| Tasks.PlanTaskShape | tasks/webdav_sync.js:158-159 | a single-segment key's task has no dependency; a nested key's task depends on exactly its parent key, which is a shorter key of the run when parents are listed |
| Tasks.PlanClosed | tasks/webdav_sync.js:157-191 | when every nested entry's parent is listed, every dependency of the run is a task with a shorter key |
| Tasks.RunDirectory | tasks/webdav_sync.js:166-180 | DELETE is sent first; if it fails MKCOL is never sent and the task reports DELETE's error; otherwise MKCOL follows and the task reports the URL iff MKCOL returned 201 or 405, else MKCOL's error |
| Tasks.RunUpload | tasks/webdav_sync.js:184-188 | a file task sends one PUT with the file content and fails iff the reply is 500 or 401 |
| Tasks.Execute | tasks/webdav_sync.js:163-190 | every task sends at least one request, and a successful task reports its own URL |
| Scheduler.FailureBlocksDescendants | tasks/webdav_sync.js:129 | a task that did not succeed blocks every task below it along the dependency chain, however deep |
| Scheduler.RanOnlyAfterAncestors | tasks/webdav_sync.js:129 | a task that ran had every ancestor succeed first |
| Scheduler.NoFailureMeansSuccess | tasks/webdav_sync.js:194-201 | when no task failed, every task succeeded: skipping only follows a failure |
| Scheduler.ShortestFirstIsSchedule | tasks/webdav_sync.js:194 | listing the keys shortest first runs every task after its dependency |
| Scheduler.Sync | tasks/webdav_sync.js:194-201 | with the server's reply a fixed function of the request, running the tasks in any schedule gives each task the status `StatusOf` gives it, and reports success iff no task failed, iff every task succeeded |
| Scheduler.WebdavSync | tasks/webdav_sync.js:138-201 | the whole run succeeds iff every planned task succeeds; with no entries it succeeds at once |

## Left out

- The HTTP requests themselves, made by the `request` library: the server's reply is a parameter. A missing response object (a transport failure) and the unused `error` argument are not modelled.
- All `grunt.log` and `grunt.verbose` output, and `setMaxListeners`.
- File-system access (`grunt.file.expand`, `grunt.file.read`, `grunt.file.isDir`): the expanded path list, `isDir` and `read` are inputs.
- The internals of `url.parse`, `url.resolve` and `path.relative`. The parsed URL keeps only its auth text plus an opaque rest, and resolution is a parameter.
- Keys.UploadKey: only the case where the entry's path starts with the root folder and a separator is modelled, not the normalisation `path.relative` does for `..`, `.` or trailing separators.
- The concurrency and bookkeeping of `async.auto` and `async.series`. These are modelled sequentially: a task runs only after its dependency succeeded. `Sync` reports once every task has a status, whereas the final callback of `async.auto` fires at the first error while independent tasks may still be running; the success flag is the same, but the timing of `done(false)` is not modelled.
- Server state: the reply to a request (`Env.respond`) is a fixed function of the request alone. It does not depend on earlier requests (a MKCOL of a nested folder answering 409 until its parent exists, a DELETE removing the children of a folder) or on timing. That any run order listing each dependency first gives the same statuses (`Sync`) rests on this assumption, not on the engine alone.
- A dependency that is not a task: depending on the `async` version, `async.auto` waits forever or throws a missing-dependency error. The model excludes the case by requiring every parent folder to be listed (`ParentsListed`).
- Scheduler.WebdavSync: reports only the success flag. The message of the first error, which the source logs, is left out because with concurrent tasks "first" depends on timing.
- The commented-out block at the end of the task function.

## Findings

| source | as written | input that shows it | evidently intended | confidence | as-written member | corrected member |
|---|---|---|---|---|---|---|
| tasks/webdav_sync.js:79 | the second MKCOL test repeats `statusCode === 409`, so its branch is dead | a 507 reply: reported as "Unknown error while uploading a dir." | `statusCode === 507`, reporting the insufficient-storage message that RFC 4918 gives for 507 | high; not executed | Remote.MkcolInsufficientStorageIsUnknown | Remote.MkcolOutcomeIntended |
