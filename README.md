# Photo download pipeline, modelled in Dafny

This project models the sequential core of `threads/main.py`. That program fetches the
albums and photos of a JSON placeholder API and merges every photo into its album. It
checks the merged records against a schema, splits the album list into chunks, and gives
each chunk to a worker. A worker downloads every photo of its albums and saves it under
`<base>/<album title>/<photo title><extension>`. It never overwrites a file that already
exists.

Modules, leaf first:

- `Wrappers` (`wrappers.dfy`): `Option`, `Result` and `Bytes`.
- `Records` (`records.dfy`): the raw JSON records, the `Photo`/`Album` objects, and the
  all-or-nothing schema load.
- `Merge` (`merge.dfy`): the nested loop that attaches each album's photos in place,
  then the load.
- `Chunks` (`chunks.dfy`): `get_list_chunk_list`. `ChunkList` is the specification
  function. `GetListChunkList` computes the step and its error cases, then `Slices` runs the loop over
  `range(0, len, n)`. Both are proved equal to the specification.
- `Http` (`http.dfy`): the `Client` class. It caches one status-200 response and counts
  the requests it sends.
- `Store` (`store.dfy`): the filesystem as a `FileSystem` object. It holds a map from
  paths to bytes and a set of directories. `Storage.SaveFile` is `save_file`, and
  `SaveFileEffect` is its specification.
- `Download` (`download.dfy`): the `JsonPlaceholderCommand` class.
  `DownloadAndSavePhotos` is the nested download loop. `Run` and `Step` specify it.
  `RunJobs` runs the chunks one after another.

The effect of a download is stated on `Progress`. It holds the disk, the URLs tried so far,
and whether an exception escaped the loop. Exceptions are values. `FetchError`,
`ExtensionError`, `SaveOutcome.MkdirFailed` and `ChunkError` stand for what the Python
code raises.

The model follows the code, including three behaviours that a reader might not expect:

- A missing Content-Type does not mean "no extension". `mimetypes.guess_extension(None)`
  raises, because it lower-cases its argument. `get_file_extension()` and `save_file` are
  called outside the per-photo `try`. So a missing Content-Type, or a `mkdir` that fails
  because a file stands where a directory is needed, ends the worker's whole chunk. Only
  failures of `get_photo_raw` are isolated per photo (`FailedFetchIsSkipped`,
  `MissingContentTypeEndsChunk`).
- The worker count need not be positive. With a negative count `-K` and `N >= K` the step
  is negative, so `range` is empty and nothing is yielded. With `N < K` the step is 0 and
  `range` raises (`ChunkListFails`, `ChunkListNegative`).
- The album schema does not require `userId`, but `Album(**data)` does. Marshmallow runs
  the field checks of every record first and builds the albums only when none fails. So a
  field error anywhere is reported even when an earlier album lacks `userId`, and a missing
  `userId` fails the load (as a `TypeError`) only when every record passes its field checks
  (`Records.Validate`, `Records.FieldErrorsComeFirst`).

## Model

| member | source | states |
|---|---|---|
| `Chunks.CeilDiv` | threads/main.py:353 | `ceil(a/b)` for both signs of `b`, stated by its bounds `(q-1)*b < a <= q*b` (positive `b`) or `q*b <= a < (q-1)*b` (negative `b`) |
| `Chunks.GetListChunkList` | threads/main.py:345-358 | the loop over `range(0, len(lst), n)` that collects `lst[x:x+n]` equals `ChunkList`: ZeroDivision for `number == 0`, ZeroStep for `n == 0`, no chunks for a negative `n`, `Split(lst, n)` otherwise |
| `Chunks.Slices` | threads/main.py:355-358 | for a positive step, the loop over `range(0, len(lst), n)` yields exactly the slices of `Split(lst, n)`, in order |
| `Chunks.SplitFlatten` | threads/main.py:355-358 | concatenating the yielded slices gives back exactly the input list |
| `Chunks.SplitSizes` | threads/main.py:355-356 | no chunks exactly for an empty list; every chunk but the last has length `n`; the last has a length in `[1, n]` |
| `Chunks.SplitCount` | threads/main.py:355 | the number of chunks is `ceil(len/n)` |
| `Chunks.ChunkCountAtMostWorkers` | threads/main.py:353-355 | with `n = ceil(N/K)`, `n >= 1` and `ceil(N/n) <= K` |
| `Chunks.ChunkListFails` | threads/main.py:353-355 | the generator raises exactly when `number == 0`, the list is empty, or `number < 0` with `N < -number`; `number == 0` is the division error |
| `Chunks.ChunkListNegative` | threads/main.py:353-355 | a negative worker count with `N >= -number` yields nothing |
| `Chunks.ChunkListPartition` | threads/main.py:353-358 | for `number >= 1` and a non-empty list: the chunks concatenate to the list, there are `ceil(N/n)` of them, between 1 and `number`, all but the last of size `n = ceil(N/K)`, and the last of size in `[1, n]` |
| `Records.FieldError` | threads/main.py:67-103 | an album record has no field error exactly when `photos` is present and every photo's URL and thumbnail URL are valid; a missing `photos` is reported as such |
| `Records.FirstFieldError` | threads/main.py:315-316 | no field error exactly when every record from `from` on passes the field checks; otherwise the first record that fails them |
| `Records.FirstMissingUserId` | threads/main.py:95-103 | none exactly when every record from `from` on has `userId`; otherwise the first record without it |
| `Records.Validate` | threads/main.py:67-103 | the load succeeds exactly when every album record loads (all or nothing); on success it keeps order, ids, titles and user ids and converts each photo; on failure it names a field error, the first one, whenever any record has one, and otherwise the first record without `userId` |
| `Records.FieldErrorsComeFirst` | threads/main.py:87-103 | an album without `userId` followed by an album with a bad URL fails on the bad URL, not on the missing `userId` |
| `Merge.MergeAlbumsAndPhotos` | threads/main.py:309-313 | after the nested loop, each album record (same position, same other fields) has `photos == PhotosOf(photos, id)` |
| `Merge.PrepareValidData` | threads/main.py:309-318 | merges in place, then returns the load of the merged records |
| `Merge.PhotosOfConcat` | threads/main.py:311-313 | the selection distributes over concatenation, so photos keep their relative order |
| `Merge.PhotosOfCount` | threads/main.py:311-313 | each photo with `albumId == id` is selected as often as it occurs, and no other photo is selected |
| `Merge.PhotosOfMembers` | threads/main.py:311-313 | a photo is selected exactly when it is in the list and its `albumId` is the album's id |
| `Merge.PhotosOfEmpty` | threads/main.py:310-313 | an album gets an empty list exactly when no photo names it |
| `Merge.ValidDataOwnsItsPhotos` | threads/main.py:309-318 | after a successful load, album order, ids and titles are those of the input; each album's photos are the converted selection for its id, and each carries the album's id |
| `Http.ExtensionOf` | threads/main.py:192 | the extension lookup fails exactly when the Content-Type header is missing |
| `Http.IsTruthy` | threads/main.py:164-192 | `bool(response)` is `response.ok`: no response is falsy, a stored status-200 response is truthy, and a status from 400 to 599 is falsy, so `not self.response` asks again exactly while nothing is cached |
| `Http.Client.constructor` | threads/main.py:130-137 | a new client has its URL, no response and no request sent |
| `Http.Client.Get` | threads/main.py:139-157 | sends one request; only a status-200 response is stored and returned; a transport failure or any other status raises and leaves the cache as it was |
| `Http.Client.StreamGet` | threads/main.py:159-162 | `get` with the same status rule, keeping only whether it raised |
| `Http.Client.GetPhotoRaw` | threads/main.py:164-173 | with a cached response, no request and its raw body; without one, one request under the status rule |
| `Http.Client.GetFileExtension` | threads/main.py:186-192 | with a cached response, no request and the extension of its Content-Type; without one, one request under the status rule |
| `Store.Join` | threads/main.py:242-244 | `path / name` appends one component, or none when the name is empty |
| `Store.FileName` | threads/main.py:239-240 | the file name begins with the photo title, followed by the extension when it is truthy; with `None` or `""` it is the title alone |
| `Store.FileSystem.MakeDirs` | threads/main.py:243 | `mkdir(parents=True, exist_ok=True)` fails exactly when a file stands at the path or an ancestor, and otherwise adds the path and its ancestors as directories |
| `Store.FileSystem.PathExists` | threads/main.py:246 | `exists()` is true for a file or a directory |
| `Store.FileSystem.WriteFile` | threads/main.py:247-248 | the path now maps to the whole stream; nothing else changes |
| `Store.Storage.constructor` | threads/main.py:219-226 | a storage has the given base directory and works on the given filesystem |
| `Store.Storage.SaveFile` | threads/main.py:228-251 | the new filesystem and the outcome are those of `SaveFileEffect` |
| `Store.TargetPathShape` | threads/main.py:239-244 | a truthy extension targets `base/dir/name+ext`, even for an empty name; `None` or `""` with a non-empty name targets `base/dir/name` |
| `Store.SaveFileOnExistingPath` | threads/main.py:243-251 | on an existing destination, a file or a directory, nothing is saved and no file changes; at most the directory and its ancestors now exist |
| `Store.SaveFileOnAbsentPath` | threads/main.py:243-249 | on an absent destination below a directory that can be made, the destination holds the whole stream, every other file is unchanged, and the directories are added |
| `Store.SaveFileEmptyName` | threads/main.py:239-246 | an empty file name without extension targets the directory itself, so nothing is written |
| `Store.SaveFileIdempotent` | threads/main.py:243-251 | saving twice with the same arguments leaves the same filesystem as saving once; the second call ends 'already exists' (or fails as the first did) |
| `Store.SaveFileKeepsWellFormed` | threads/main.py:242-249 | `save_file` keeps the filesystem well formed: no path is both a file and a directory, and ancestors are directories |
| `Download.FetchPhoto` | threads/main.py:332-342 | a fresh client per photo sends exactly one request; the raw body and the extension come from that one response |
| `Download.AttemptOf` | threads/main.py:332-342 | a fetch fails exactly on a transport failure or a status other than 200; the extension lookup fails exactly on a 200 without Content-Type; otherwise the body is the response's and the extension is the guess for its Content-Type |
| `Download.JsonPlaceholderCommand.constructor` | threads/main.py:281-292 | the command holds the storage, worker count, loaded albums, network and extension table it was given |
| `Download.JsonPlaceholderCommand.Create` | threads/main.py:281-318 | merges the records in place, then yields a command exactly when the schema load succeeds, holding the loaded albums, or the load's error |
| `Download.JsonPlaceholderCommand.DownloadPhoto` | threads/main.py:332-342 | one iteration changes the disk as `Step` says, and reports whether an exception escaped |
| `Download.JsonPlaceholderCommand.DownloadAndSavePhotos` | threads/main.py:322-342 | the nested loop leaves the disk that `Run` gives over the chunk's photos, album by album, and reports whether it ended early |
| `Download.JsonPlaceholderCommand.RunJobs` | threads/main.py:360-396 | if the partition raises, the error is returned and the disk is unchanged; otherwise each chunk is downloaded in turn (`RunChunks`) |
| `Download.RunAttemptsInOrder` | threads/main.py:329-339 | the URLs tried are the chunk's photo URLs in order, up to the point where an exception escaped; all of them when none did |
| `Download.FailedFetchIsSkipped` | threads/main.py:334-339 | a photo whose fetch fails leaves the disk unchanged, and the rest of the chunk ends exactly as if that photo were absent |
| `Download.MissingContentTypeEndsChunk` | threads/main.py:341-342 | a 200 response without Content-Type ends the chunk: that photo saves nothing and no later photo is tried |
| `Download.StepGrows` | threads/main.py:341-342 | one photo only adds directories and new files, and keeps the disk sane |
| `Download.RunKeepsWellFormed` | threads/main.py:322-342 | a run on a well-formed filesystem leaves it well formed (and so sane), because each save does |
| `Download.RerunKeepsDisk` | threads/main.py:322-342 | re-running a chunk on a sane disk that holds everything the first run left changes nothing and ends the same way |
| `Download.DownloadTwiceIsOnce` | threads/main.py:322-342 | running a chunk again over what the first run left writes nothing and ends the same way |
| `Download.RunChunksSequential` | threads/main.py:369-375 | chunks run one after another, none ending early, leave the disk that one run over their concatenation leaves |
| `Download.RunJobsAsOneWorker` | threads/main.py:353-375 | with at least one worker and a non-empty list, and no early end, the partitioned job leaves the disk of one worker over all albums |
| `Download.ExampleRun` | threads/main.py:322-358 | one album "A" with photo "p1" served as JPEG and one worker: the run saves exactly `downloads/A/p1.jpg`, and a rerun changes nothing |
| `Download.ExampleLoad` | threads/main.py:309-318 | for any URL check that accepts the photo's two URLs (`http://x.com/...`), the raw album 1 "A" and its one photo merge and load into exactly the album that `ExampleRun` downloads |

## Left out

- Fetching the two JSON collections (`get_data_dict`, `response.json()`) and the
  `sys.exit` when that fails: the model starts from the decoded records.
- Download.JsonPlaceholderCommand.Create: starts from the decoded records, with the album
  list as an array; the `ValidationError` that Python raises out of `__init__` is an `Err`.
- Marshmallow's field checks: URL syntax is a caller-supplied predicate `isUrl` (marshmallow's
  default `fields.Url` also demands a dotted host, so it refuses `http://x/...`), and
  integer coercion from strings is not modelled, because the raw records are already
  typed.
- Merge records that lack `id` or `albumId` (a `KeyError` in the loop): the typed raw
  records always have them.
- Records.Validate: names one record, the first with a field error, while marshmallow's
  `ValidationError` lists every record with a field error. A missing `userId` is a
  `TypeError` in Python and appears here as `MissingUserId`.
- `requests.get` is a fixed reply per URL (`Network`). The model does not cover timeouts
  or a body that fails half-way through `shutil.copyfileobj`. The `stream=True` flag does
  not change the reply.
- `mimetypes.guess_extension` for a present header is an uninterpreted function
  (`ExtensionGuess`).
- Storage failures other than `mkdir` meeting a file (permissions, a full disk).
- pathlib normalisation beyond dropping an empty component: absolute titles, titles
  containing `/`, and `.` or `..` are treated as plain names.
- Chunks.CeilDiv: computes the ceiling exactly. Python goes through float division, which
  agrees with it only for lengths below 2^53.
- `run_threads_job` / `run_process_job`: threads and processes run at the same time. The
  model runs the chunks one after another and leaves out their interleaving on the shared
  disk. The timing decorator (wall-clock time and printing) is left out too.
- The class-level logger set-up in `__new__` and every log line: global logging state with
  no effect on the result.
- `Photo`/`Album` `__repr__`/`__str__` and `main`: formatting and process entry.
