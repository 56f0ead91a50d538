/** The download loop `JSONPlaceholderTreadCommand.download_and_save_photos` and the
    worker driver `run_threads_job` / `run_process_job`, run one chunk after another. */
module Download {
  import opened Wrappers
  import opened Records
  import opened Chunks
  import opened Http
  import opened Store
  import opened Merge

  /** What the loop needs besides the albums: the storage base directory, the network
      and the content-type-to-extension table. */
  datatype Env = Env(base: Path, net: Network, guess: ExtensionGuess)

  /** One photo to fetch, with the title of its album, which names its directory. */
  datatype Task = Task(directory: string, photo: Photo)

  function AlbumTasks(a: Album): seq<Task>
  {
    seq(|a.photos|, k requires 0 <= k < |a.photos| => Task(a.title, a.photos[k]))
  }

  /** The photos of the albums, album by album, each in album order. */
  function Tasks(albums: seq<Album>): seq<Task>
  {
    if albums == [] then [] else Tasks(albums[..|albums| - 1]) + AlbumTasks(albums[|albums| - 1])
  }

  function Urls(tasks: seq<Task>): seq<string>
  {
    seq(|tasks|, i requires 0 <= i < |tasks| => tasks[i].photo.url)
  }

  /** How fetching one photo ends. */
  datatype Attempt =
    | FetchFailed(cause: FetchError)          // `get_photo_raw` raised inside the `try`
    | ExtensionFailed(reason: ExtensionError)  // `get_file_extension` raised outside the `try`
    | Fetched(raw: Bytes, ext: Option<string>)

  /** The attempt for a given reply of the network. */
  function AttemptOf(reply: Reply, guess: ExtensionGuess): (a: Attempt)
    ensures a.FetchFailed? <==> reply.TransportFailure? || reply.response.statusCode != 200
    ensures a.ExtensionFailed? <==>
      reply.Replied? && reply.response.statusCode == 200 && reply.response.contentType.None?
    ensures a.Fetched? ==> a.raw == reply.response.raw
    ensures a.Fetched? ==> Some(a.ext) == (if reply.response.contentType.Some? then Some(guess(reply.response.contentType.value)) else None)
  {
    match reply
    case TransportFailure => FetchFailed(Transport)
    case Replied(resp) =>
      if resp.statusCode != 200 then FetchFailed(BadStatus(resp.statusCode))
      else
        match ExtensionOf(resp.contentType, guess)
        case Err(e) => ExtensionFailed(e)
        case Ok(ext) => Fetched(resp.raw, ext)
  }

  /** A fresh client per photo: the raw body first, then the extension of the same cached
      response. Exactly one request goes out. */
  method FetchPhoto(url: string, net: Network, guess: ExtensionGuess) returns (a: Attempt, requests: nat)
    ensures a == AttemptOf(net(url), guess)
    ensures requests == 1
  {
    var client := new Client(url);
    var raw := client.GetPhotoRaw(net);
    if raw.Err? {
      return FetchFailed(raw.error), client.requests;
    }
    var ext := client.GetFileExtension(net, guess);
    requests := client.requests;
    match ext
    case Err(e) =>
      a := ExtensionFailed(e);
    case Ok(e) =>
      a := Fetched(raw.value, e);
  }

  /** The state of one worker: the disk, the URLs it has tried, and whether an exception
      has escaped the loop and ended it. */
  datatype Progress = Progress(disk: Disk, attempted: seq<string>, aborted: bool)

  function Start(d: Disk): Progress
  {
    Progress(d, [], false)
  }

  /** One iteration of the inner loop. */
  function Step(p: Progress, env: Env, t: Task): Progress
  {
    if p.aborted then p
    else
      var p1 := p.(attempted := p.attempted + [t.photo.url]);
      match AttemptOf(env.net(t.photo.url), env.guess)
      case FetchFailed(_) => p1
      case ExtensionFailed(_) => p1.(aborted := true)
      case Fetched(raw, ext) =>
        var (d, o) := SaveFileEffect(p.disk, env.base, t.directory, t.photo.title, ext, raw);
        p1.(disk := d, aborted := o == MkdirFailed)
  }

  /** The loop over a sequence of tasks. */
  function Run(p: Progress, env: Env, tasks: seq<Task>): Progress
  {
    if tasks == [] then p
    else Step(Run(p, env, tasks[..|tasks| - 1]), env, tasks[|tasks| - 1])
  }

  /** The workers' effect on the disk when they run one after another. */
  function RunChunks(d: Disk, env: Env, chunks: seq<seq<Album>>): Disk
  {
    if chunks == [] then d
    else Run(Start(RunChunks(d, env, chunks[..|chunks| - 1])), env, Tasks(chunks[|chunks| - 1])).disk
  }

  /** `JSONPlaceholderTreadCommand` once its data is loaded. */
  class JsonPlaceholderCommand {
    const storage: Storage
    const threadCount: int
    const validData: seq<Album>
    /** The remote side (what `client_class` talks to) and the extension table. */
    const net: Network
    const guess: ExtensionGuess

    function Environment(): Env
    {
      Env(storage.baseDir, net, guess)
    }

    constructor (storage: Storage, threadCount: int, validData: seq<Album>, net: Network, guess: ExtensionGuess)
      ensures this.storage == storage && this.threadCount == threadCount && this.validData == validData
      ensures this.net == net && this.guess == guess
    {
      this.storage := storage;
      this.threadCount := threadCount;
      this.validData := validData;
      this.net := net;
      this.guess := guess;
    }

    /** `__init__` with the merge and the load of the decoded records: the command exists
        only when the schema load succeeds, and then holds the loaded albums. */
    static method Create(storage: Storage, threadCount: int, albums: array<RawAlbum>, photos: seq<RawPhoto>,
                         isUrl: string -> bool, net: Network, guess: ExtensionGuess)
      returns (r: Result<JsonPlaceholderCommand, ValidationError>)
      modifies albums
      ensures albums[..] == Merged(old(albums[..]), photos)
      ensures r.Err? ==> Validate(Merged(old(albums[..]), photos), isUrl) == Err(r.error)
      ensures r.Ok? ==> Validate(Merged(old(albums[..]), photos), isUrl) == Ok(r.value.validData)
      ensures r.Ok? ==> fresh(r.value) && r.value.storage == storage && r.value.threadCount == threadCount
      ensures r.Ok? ==> r.value.net == net && r.value.guess == guess
    {
      var data := PrepareValidData(albums, photos, isUrl);
      if data.Err? {
        return Err(data.error);
      }
      var command := new JsonPlaceholderCommand(storage, threadCount, data.value, net, guess);
      r := Ok(command);
    }

    /** `download_and_save_photos(album_list)`; `completed` is false when an exception
        escaped the loop. */
    method DownloadAndSavePhotos(albumList: seq<Album>) returns (completed: bool)
      modifies storage.disk
      ensures storage.disk.State() == Run(Start(old(storage.disk.State())), Environment(), Tasks(albumList)).disk
      ensures completed == !Run(Start(old(storage.disk.State())), Environment(), Tasks(albumList)).aborted
    {
      var env := Environment();
      ghost var p0 := Start(storage.disk.State());
      ghost var done: seq<Task> := [];
      ghost var progress := p0;
      for i := 0 to |albumList|
        invariant done == Tasks(albumList[..i])
        invariant progress == Run(p0, env, done) && !progress.aborted
        invariant storage.disk.State() == progress.disk
      {
        var album := albumList[i];
        for j := 0 to |album.photos|
          invariant done == Tasks(albumList[..i]) + AlbumTasks(album)[..j]
          invariant progress == Run(p0, env, done) && !progress.aborted
          invariant storage.disk.State() == progress.disk
        {
          var photo := album.photos[j];
          ghost var t := Task(album.title, photo);
          ghost var next := Step(progress, env, t);
          RunSnoc(p0, env, done, t);
          AlbumTasksPrefix(album, j);
          var ok := DownloadPhoto(album.title, photo, progress);
          if !ok {
            TasksAround(albumList, i, j);
            RunAfterAbort(p0, env, done + [t], AlbumTasks(album)[j + 1..] + Tasks(albumList[i + 1..]));
            return false;
          }
          done := done + [t];
          progress := next;
        }
        assert AlbumTasks(album)[..|album.photos|] == AlbumTasks(album);
        assert albumList[..i + 1][..i] == albumList[..i];
      }
      assert albumList[..|albumList|] == albumList;
      completed := true;
    }

    /** The body of the inner loop for one photo; `ok` is false when an exception escapes. */
    method DownloadPhoto(directory: string, photo: Photo, ghost p: Progress) returns (ok: bool)
      requires !p.aborted && p.disk == storage.disk.State()
      modifies storage.disk
      ensures storage.disk.State() == Step(p, Environment(), Task(directory, photo)).disk
      ensures ok == !Step(p, Environment(), Task(directory, photo)).aborted
    {
      var attempt, _ := FetchPhoto(photo.url, net, guess);
      match attempt {
        case FetchFailed(_) =>
          ok := true;  // logged, then `continue`
        case ExtensionFailed(_) =>
          ok := false;
        case Fetched(raw, ext) =>
          var o := storage.SaveFile(raw, directory, photo.title, ext);
          ok := o != MkdirFailed;
      }
    }

    /** `run_threads_job` / `run_process_job` with the workers run one after another: the
        partition's exception, or the number of chunks handed to workers. */
    method RunJobs() returns (r: Result<nat, ChunkError>)
      modifies storage.disk
      ensures ChunkList(validData, threadCount).Err? ==>
        r == Err(ChunkList(validData, threadCount).error) && storage.disk.State() == old(storage.disk.State())
      ensures ChunkList(validData, threadCount).Ok? ==>
        && r == Ok(|ChunkList(validData, threadCount).value|)
        && storage.disk.State() == RunChunks(old(storage.disk.State()), Environment(), ChunkList(validData, threadCount).value)
    {
      var chunks := GetListChunkList(validData, threadCount);
      if chunks.Err? {
        return Err(chunks.error);
      }
      var cs := chunks.value;
      for c := 0 to |cs|
        invariant storage.disk.State() == RunChunks(old(storage.disk.State()), Environment(), cs[..c])
      {
        assert cs[..c + 1][..c] == cs[..c];
        var _ := DownloadAndSavePhotos(cs[c]);
      }
      assert cs[..|cs|] == cs;
      r := Ok(|cs|);
    }
  }

  // ----- Helpers for the loop proofs -----

  lemma RunSnoc(p: Progress, env: Env, tasks: seq<Task>, t: Task)
    ensures Run(p, env, tasks + [t]) == Step(Run(p, env, tasks), env, t)
  {
    assert (tasks + [t])[..|tasks|] == tasks;
  }

  lemma AlbumTasksPrefix(a: Album, j: nat)
    requires j < |a.photos|
    ensures AlbumTasks(a)[..j + 1] == AlbumTasks(a)[..j] + [Task(a.title, a.photos[j])]
  {
  }

  lemma {:induction false} TasksConcat(a: seq<Album>, b: seq<Album>)
    ensures Tasks(a + b) == Tasks(a) + Tasks(b)
    decreases |b|
  {
    if b == [] {
      assert a + b == a;
    } else {
      var ab, b', last := a + b, b[..|b| - 1], b[|b| - 1];
      InitOfConcat(a, b);
      assert ab[|ab| - 1] == last;
      TasksConcat(a, b');
      calc {
        Tasks(ab);
        Tasks(a + b') + AlbumTasks(last);
        (Tasks(a) + Tasks(b')) + AlbumTasks(last);
        Tasks(a) + (Tasks(b') + AlbumTasks(last));
      }
    }
  }

  /** The tasks of a list split around photo `j` of album `i`. */
  lemma TasksAround(albums: seq<Album>, i: nat, j: nat)
    requires i < |albums| && j < |albums[i].photos|
    ensures Tasks(albums) ==
      Tasks(albums[..i]) + AlbumTasks(albums[i])[..j] + [Task(albums[i].title, albums[i].photos[j])]
      + (AlbumTasks(albums[i])[j + 1..] + Tasks(albums[i + 1..]))
  {
    TasksSplit(albums, i);
    SeqAround(Tasks(albums[..i]), AlbumTasks(albums[i]), Tasks(albums[i + 1..]), j);
  }

  /** The tasks of a list split around album `i`. */
  lemma TasksSplit(albums: seq<Album>, i: nat)
    requires i < |albums|
    ensures Tasks(albums) == Tasks(albums[..i]) + AlbumTasks(albums[i]) + Tasks(albums[i + 1..])
  {
    var left, right := albums[..i], albums[i + 1..];
    SeqSplit(albums, i);
    TasksConcat(left + [albums[i]], right);
    TasksConcat(left, [albums[i]]);
    TasksSingle(albums[i]);
  }

  lemma InitOfConcat<T>(a: seq<T>, b: seq<T>)
    requires b != []
    ensures (a + b)[..|a + b| - 1] == a + b[..|b| - 1]
  {
  }

  lemma SeqSplit<T>(s: seq<T>, i: nat)
    requires i < |s|
    ensures s == (s[..i] + [s[i]]) + s[i + 1..]
  {
  }

  lemma SeqAround<T>(x: seq<T>, s: seq<T>, y: seq<T>, j: nat)
    requires j < |s|
    ensures x + s + y == x + s[..j] + [s[j]] + (s[j + 1..] + y)
  {
    assert s == s[..j] + [s[j]] + s[j + 1..];
  }

  lemma TasksSingle(a: Album)
    ensures Tasks([a]) == AlbumTasks(a)
  {
    var one := [a];
    assert one[..0] == [];
  }

  /** Once an exception has escaped, nothing more happens. */
  lemma {:induction false} AbortedStays(p: Progress, env: Env, tasks: seq<Task>)
    requires p.aborted
    ensures Run(p, env, tasks) == p
    decreases |tasks|
  {
    if tasks != [] {
      AbortedStays(p, env, tasks[..|tasks| - 1]);
    }
  }

  /** Running `a` then `b` is running `a + b`. */
  lemma {:induction false} RunConcat(p: Progress, env: Env, a: seq<Task>, b: seq<Task>)
    ensures Run(p, env, a + b) == Run(Run(p, env, a), env, b)
    decreases |b|
  {
    if b == [] {
      assert a + b == a;
    } else {
      var b' := b[..|b| - 1];
      InitOfConcat(a, b);
      RunConcat(p, env, a, b');
    }
  }

  lemma RunAfterAbort(p: Progress, env: Env, a: seq<Task>, b: seq<Task>)
    requires Run(p, env, a).aborted
    ensures Run(p, env, a + b) == Run(p, env, a)
  {
    RunConcat(p, env, a, b);
    AbortedStays(Run(p, env, a), env, b);
  }

  // ----- Properties of the download loop -----

  /** Every photo is tried, in album order and photo order, until an exception escapes;
      the URLs tried are always a prefix of the chunk's photo URLs. */
  lemma {:induction false} RunAttemptsInOrder(p: Progress, env: Env, tasks: seq<Task>)
    requires !p.aborted
    ensures var q := Run(p, env, tasks);
      && |p.attempted| <= |q.attempted| <= |p.attempted| + |tasks|
      && q.attempted == p.attempted + Urls(tasks)[..|q.attempted| - |p.attempted|]
      && (!q.aborted ==> q.attempted == p.attempted + Urls(tasks))
    decreases |tasks|
  {
    if tasks != [] {
      var init, t := tasks[..|tasks| - 1], tasks[|tasks| - 1];
      RunAttemptsInOrder(p, env, init);
      var q0 := Run(p, env, init);
      var m := |q0.attempted| - |p.attempted|;
      UrlsSnoc(init, t);
      assert tasks == init + [t];
      assert Urls(tasks)[..m] == Urls(init)[..m];
      if !q0.aborted {
        assert Run(p, env, tasks).attempted == q0.attempted + [t.photo.url];
      }
    }
  }

  lemma UrlsSnoc(tasks: seq<Task>, t: Task)
    ensures Urls(tasks + [t]) == Urls(tasks) + [t.photo.url]
  {
  }

  /** Two progress states that agree on the disk and on whether the loop has ended. */
  predicate SameOutcome(p: Progress, q: Progress)
  {
    p.disk == q.disk && p.aborted == q.aborted
  }

  /** What the loop does to the disk does not depend on the URLs tried before. */
  lemma {:induction false} RunRespectsSameOutcome(p: Progress, q: Progress, env: Env, tasks: seq<Task>)
    requires SameOutcome(p, q)
    ensures SameOutcome(Run(p, env, tasks), Run(q, env, tasks))
    decreases |tasks|
  {
    if tasks != [] {
      RunRespectsSameOutcome(p, q, env, tasks[..|tasks| - 1]);
    }
  }

  /** Failure isolation: a photo whose fetch fails changes nothing, and the rest of the chunk
      (same album or later ones) ends exactly as if that photo were not there. */
  lemma FailedFetchIsSkipped(p: Progress, env: Env, before: seq<Task>, x: Task, after: seq<Task>)
    requires AttemptOf(env.net(x.photo.url), env.guess).FetchFailed?
    ensures SameOutcome(Run(p, env, before + [x]), Run(p, env, before))
    ensures SameOutcome(Run(p, env, before + [x] + after), Run(p, env, before + after))
  {
    RunSnoc(p, env, before, x);
    RunConcat(p, env, before + [x], after);
    RunConcat(p, env, before, after);
    RunRespectsSameOutcome(Run(p, env, before + [x]), Run(p, env, before), env, after);
  }

  /** As written, a 200 response without a Content-Type ends the whole chunk: the extension
      lookup raises outside the `try`, nothing is saved for that photo, and no later photo
      of the chunk is tried. */
  lemma MissingContentTypeEndsChunk(p: Progress, env: Env, before: seq<Task>, x: Task, after: seq<Task>)
    requires !Run(p, env, before).aborted
    requires env.net(x.photo.url).Replied?
    requires env.net(x.photo.url).response.statusCode == 200
    requires env.net(x.photo.url).response.contentType.None?
    ensures var q := Run(p, env, before + [x] + after);
      && q.aborted
      && q.disk == Run(p, env, before).disk
      && q.attempted == Run(p, env, before).attempted + [x.photo.url]
  {
    RunSnoc(p, env, before, x);
    RunAfterAbort(p, env, before + [x], after);
  }

  /** A disk on which nothing is both a file and a directory, and the working directory is
      not a file. */
  ghost predicate Sane(d: Disk)
  {
    [] !in d.files && d.files.Keys !! d.dirs
  }

  /** `e` has every directory and every file of `d`, with the same contents. */
  ghost predicate Grows(d: Disk, e: Disk)
  {
    && d.dirs <= e.dirs
    && d.files.Keys <= e.files.Keys
    && forall p :: p in d.files ==> e.files[p] == d.files[p]
  }

  /** A step only adds directories and new files and keeps the disk sane. */
  lemma StepGrows(p: Progress, env: Env, t: Task)
    requires Sane(p.disk)
    ensures Grows(p.disk, Step(p, env, t).disk) && Sane(Step(p, env, t).disk)
  {
    if !p.aborted && AttemptOf(env.net(t.photo.url), env.guess).Fetched? {
      var a := AttemptOf(env.net(t.photo.url), env.guess);
      var dp := DirPath(env.base, t.directory);
      var target := TargetPath(env.base, t.directory, t.photo.title, a.ext);
      if !MkdirFails(p.disk, dp) {
        var m := Mkdir(p.disk, dp);
        forall q | q in Ancestors(dp) ensures q !in p.disk.files {
          var k :| 0 <= k <= |dp| && q == dp[..k];
          if k == 0 { assert q == []; }
        }
        assert dp[..|dp|] == dp;
        assert dp in m.dirs;
      }
    }
  }

  lemma {:induction false} RunGrows(p: Progress, env: Env, tasks: seq<Task>)
    requires Sane(p.disk)
    ensures Grows(p.disk, Run(p, env, tasks).disk) && Sane(Run(p, env, tasks).disk)
    decreases |tasks|
  {
    if tasks != [] {
      var init := tasks[..|tasks| - 1];
      RunGrows(p, env, init);
      StepGrows(Run(p, env, init), env, tasks[|tasks| - 1]);
    }
  }

  /** A photo handled once on a smaller disk is a no-op on any sane disk that has grown
      from that step's result, and ends the same way. */
  lemma RerunStep(p: Progress, q: Progress, env: Env, t: Task)
    requires !p.aborted && !q.aborted
    requires Sane(q.disk) && Grows(p.disk, q.disk) && Grows(Step(p, env, t).disk, q.disk)
    ensures Step(q, env, t).disk == q.disk && Step(q, env, t).aborted == Step(p, env, t).aborted
  {
    var a := AttemptOf(env.net(t.photo.url), env.guess);
    if a.Fetched? {
      var dp := DirPath(env.base, t.directory);
      var target := TargetPath(env.base, t.directory, t.photo.title, a.ext);
      if MkdirFails(p.disk, dp) {
        var k :| 0 < k <= |dp| && dp[..k] in p.disk.files;
        assert MkdirFails(q.disk, dp);
      } else {
        var m := Mkdir(p.disk, dp);
        assert Ancestors(dp) <= q.disk.dirs;
        assert !MkdirFails(q.disk, dp) by {
          forall k | 0 < k <= |dp| ensures dp[..k] !in q.disk.files {
            assert dp[..k] in Ancestors(dp);
          }
        }
        assert Mkdir(q.disk, dp) == q.disk;
        assert Exists(q.disk, target);
      }
    }
  }

  /** Re-running a chunk on a sane disk that already holds everything the first run left
      changes nothing and ends the same way. */
  lemma {:induction false} RerunKeepsDisk(p: Progress, q: Progress, env: Env, tasks: seq<Task>)
    requires Sane(p.disk) && Sane(q.disk) && q.aborted == p.aborted
    requires Grows(Run(p, env, tasks).disk, q.disk)
    ensures Run(q, env, tasks).disk == q.disk
    ensures Run(q, env, tasks).aborted == Run(p, env, tasks).aborted
    decreases |tasks|
  {
    if tasks != [] {
      var init := tasks[..|tasks| - 1];
      var t := tasks[|tasks| - 1];
      var pi := Run(p, env, init);
      RunGrows(p, env, init);
      StepGrows(pi, env, t);
      assert Grows(pi.disk, q.disk);
      RerunKeepsDisk(p, q, env, init);
      if !pi.aborted {
        RerunStep(pi, Run(q, env, init), env, t);
      }
    }
  }

  /** Idempotence of a download: running a chunk a second time over what the first run
      left writes nothing and ends the same way. */
  lemma DownloadTwiceIsOnce(d: Disk, env: Env, albums: seq<Album>)
    requires Sane(d)
    ensures var first := Run(Start(d), env, Tasks(albums));
      var second := Run(Start(first.disk), env, Tasks(albums));
      second.disk == first.disk && second.aborted == first.aborted
  {
    var first := Run(Start(d), env, Tasks(albums));
    RunGrows(Start(d), env, Tasks(albums));
    RerunKeepsDisk(Start(d), Start(first.disk), env, Tasks(albums));
  }

  lemma {:induction false} FlattenSnoc<T>(chunks: seq<seq<T>>, c: seq<T>)
    ensures Flatten(chunks + [c]) == Flatten(chunks) + c
    decreases |chunks|
  {
    if chunks == [] {
      assert Flatten([c]) == c + Flatten([]);
    } else {
      assert (chunks + [c])[1..] == chunks[1..] + [c];
      FlattenSnoc(chunks[1..], c);
    }
  }

  /** Workers run one after another, none of them ending early, leave the disk that one
      worker over the concatenated chunks would leave. */
  lemma {:induction false} RunChunksSequential(d: Disk, env: Env, chunks: seq<seq<Album>>)
    requires !Run(Start(d), env, Tasks(Flatten(chunks))).aborted
    ensures RunChunks(d, env, chunks) == Run(Start(d), env, Tasks(Flatten(chunks))).disk
    decreases |chunks|
  {
    if chunks != [] {
      var init, c := chunks[..|chunks| - 1], chunks[|chunks| - 1];
      var a, b := Tasks(Flatten(init)), Tasks(c);
      assert chunks == init + [c];
      FlattenSnoc(init, c);
      TasksConcat(Flatten(init), c);
      assert Tasks(Flatten(chunks)) == a + b;
      RunConcat(Start(d), env, a, b);
      RunPrefixLive(Start(d), env, a, b);
      RunChunksSequential(d, env, init);
      RunRespectsSameOutcome(Start(RunChunks(d, env, init)), Run(Start(d), env, a), env, b);
    }
  }

  /** If no exception escapes over `a + b`, none escapes over `a`. */
  lemma RunPrefixLive(p: Progress, env: Env, a: seq<Task>, b: seq<Task>)
    requires !Run(p, env, a + b).aborted
    ensures !Run(p, env, a).aborted
  {
    if Run(p, env, a).aborted {
      RunAfterAbort(p, env, a, b);
    }
  }

  /** The partitioned job, run worker after worker with at least one worker on a non-empty
      album list, leaves the disk a single worker over the whole list leaves, as long as no
      worker ends early. */
  lemma RunJobsAsOneWorker(d: Disk, env: Env, data: seq<Album>, number: int)
    requires number >= 1 && |data| >= 1
    requires !Run(Start(d), env, Tasks(data)).aborted
    ensures ChunkList(data, number).Ok?
    ensures RunChunks(d, env, ChunkList(data, number).value) == Run(Start(d), env, Tasks(data)).disk
  {
    ChunkListPartition(data, number);
    RunChunksSequential(d, env, ChunkList(data, number).value);
  }

  /** A run keeps the filesystem well formed, since every save it makes does. */
  lemma {:induction false} RunKeepsWellFormed(p: Progress, env: Env, tasks: seq<Task>)
    requires WellFormed(p.disk)
    ensures WellFormed(Run(p, env, tasks).disk) && Sane(Run(p, env, tasks).disk)
    decreases |tasks|
  {
    if tasks != [] {
      var init, t := tasks[..|tasks| - 1], tasks[|tasks| - 1];
      RunKeepsWellFormed(p, env, init);
      var q := Run(p, env, init);
      var a := AttemptOf(env.net(t.photo.url), env.guess);
      if !q.aborted && a.Fetched? {
        SaveFileKeepsWellFormed(q.disk, env.base, t.directory, t.photo.title, a.ext, a.raw);
      }
    }
  }

  /** The raw records of the example: album 1 "A" without photos, and one photo of album 1.
      With a URL check that accepts the photo's two URLs, merging and loading them gives the
      album the example downloads. */
  lemma ExampleLoad(isUrl: string -> bool)
    requires isUrl("http://x.com/1.jpg") && isUrl("http://x.com/1t.jpg")
    ensures var raw := RawPhoto(1, 10, "p1", "http://x.com/1.jpg", "http://x.com/1t.jpg");
      Validate(Merged([RawAlbum(Some(1), 1, "A", None)], [raw]), isUrl)
      == Ok([Album(1, 1, "A", [Photo(1, 10, "p1", "http://x.com/1.jpg", "http://x.com/1t.jpg")])])
  {
    var raw := RawPhoto(1, 10, "p1", "http://x.com/1.jpg", "http://x.com/1t.jpg");
    var photos := [raw];
    assert photos[..0] == [];
    assert PhotosOf(photos, 1) == [raw];
    var merged := Merged([RawAlbum(Some(1), 1, "A", None)], photos);
    assert merged == [RawAlbum(Some(1), 1, "A", Some([raw]))];
    var r := Validate(merged, isUrl);
    assert AlbumLoads(merged[0], isUrl);
    assert r.Ok?;
    var p := Photo(1, 10, "p1", "http://x.com/1.jpg", "http://x.com/1t.jpg");
    assert r.value[0].photos == [p];
    assert r.value[0] == Album(1, 1, "A", [p]);
    assert r.value == [Album(1, 1, "A", [p])];
  }

  /** Saving "p1" with extension ".jpg" under "A" on an empty disk with base `downloads`. */
  lemma ExampleSave(body: Bytes)
    ensures SaveFileEffect(Disk(map[], {[]}), ["downloads"], "A", "p1", Some(".jpg"), body).0.files
      == map[["downloads", "A", "p1.jpg"] := body]
  {
    var d := Disk(map[], {[]});
    var dp: Path := ["downloads", "A"];
    assert DirPath(["downloads"], "A") == dp;
    assert !MkdirFails(d, dp);
    assert FileName("p1", Some(".jpg")) == "p1.jpg";
    assert TargetPath(["downloads"], "A", "p1", Some(".jpg")) == ["downloads", "A", "p1.jpg"];
    assert !Exists(Mkdir(d, dp), ["downloads", "A", "p1.jpg"]);
  }

  /** One album "A" with one photo "p1" served as JPEG, one worker, an empty disk with base
      `downloads`: the run saves `downloads/A/p1.jpg` once, and a rerun changes nothing. */
  lemma ExampleRun(body: Bytes)
    ensures var photo := Photo(1, 10, "p1", "http://x.com/1.jpg", "http://x.com/1t.jpg");
      var data := [Album(1, 1, "A", [photo])];
      var env := Env(["downloads"],
        (url: string) => Replied(Response(200, body, Some("image/jpeg"))),
        (t: string) => if t == "image/jpeg" then Some(".jpg") else None);
      var d := Disk(map[], {[]});
      && ChunkList(data, 1) == Ok([data])
      && var after := RunChunks(d, env, [data]);
      && after.files == map[["downloads", "A", "p1.jpg"] := body]
      && RunChunks(after, env, [data]) == after
  {
    var photo := Photo(1, 10, "p1", "http://x.com/1.jpg", "http://x.com/1t.jpg");
    var data := [Album(1, 1, "A", [photo])];
    var env := Env(["downloads"],
      (url: string) => Replied(Response(200, body, Some("image/jpeg"))),
      (t: string) => if t == "image/jpeg" then Some(".jpg") else None);
    var d := Disk(map[], {[]});
    assert Split(data, 1) == [data];
    var t := Task("A", photo);
    var chunks: seq<seq<Album>> := [data];
    assert chunks[..0] == [];
    TasksSingle(data[0]);
    var ts: seq<Task> := [t];
    assert Tasks(data) == ts;
    assert ts[..0] == [];
    assert AttemptOf(env.net(photo.url), env.guess) == Fetched(body, Some(".jpg"));
    var first := Step(Start(d), env, t);
    assert first.disk == SaveFileEffect(d, ["downloads"], "A", "p1", Some(".jpg"), body).0;
    ExampleSave(body);
    assert Run(Start(d), env, ts) == first;
    assert RunChunks(d, env, chunks) == first.disk;
    DownloadTwiceIsOnce(d, env, data);
    assert RunChunks(first.disk, env, chunks) == Run(Start(first.disk), env, ts).disk;
  }
}
