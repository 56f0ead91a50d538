/** Idempotent storage: `Storage.save_file` over a filesystem modelled as a map from
    paths to file contents plus a set of directories. */
module Store {
  import opened Wrappers

  /** A path as its components below the working directory; `[]` is the working directory. */
  type Path = seq<string>

  /** `path / name`: pathlib drops an empty component. */
  function Join(p: Path, name: string): (r: Path)
    ensures name == "" ==> r == p
    ensures name != "" ==> |r| == |p| + 1 && r[..|p|] == p && r[|p|] == name
  {
    if name == "" then p else p + [name]
  }

  /** The state of the filesystem. */
  datatype Disk = Disk(files: map<Path, Bytes>, dirs: set<Path>)

  /** A filesystem a real one could be: the working directory exists, nothing is both a
      file and a directory, and every proper ancestor of an entry is a directory. */
  ghost predicate WellFormed(d: Disk)
  {
    && [] in d.dirs
    && d.files.Keys !! d.dirs
    && (forall p, k :: p in d.files && 0 <= k < |p| ==> p[..k] in d.dirs)
    && (forall p, k :: p in d.dirs && 0 <= k < |p| ==> p[..k] in d.dirs)
  }

  /** `path.exists()`. */
  predicate Exists(d: Disk, p: Path)
  {
    p in d.files || p in d.dirs
  }

  /** `mkdir(parents=True, exist_ok=True)` raises when a file stands where a directory is needed. */
  predicate MkdirFails(d: Disk, p: Path)
  {
    exists k :: 0 < k <= |p| && p[..k] in d.files
  }

  /** `p` and all its ancestors. */
  function Ancestors(p: Path): set<Path>
  {
    set k | 0 <= k <= |p| :: p[..k]
  }

  /** What a successful `mkdir(parents=True, exist_ok=True)` leaves behind. */
  function Mkdir(d: Disk, p: Path): Disk
  {
    d.(dirs := d.dirs + Ancestors(p))
  }

  /** `file_name + file_extension` when the extension is truthy, `file_name` otherwise. */
  function FileName(name: string, ext: Option<string>): (r: string)
    ensures |name| <= |r| && r[..|name|] == name
    ensures ext.Some? && ext.value != "" ==> r[|name|..] == ext.value
    ensures ext.None? || ext.value == "" ==> r == name
  {
    if ext.Some? && ext.value != "" then name + ext.value else name
  }

  /** `base_dir / file_directory`. */
  function DirPath(base: Path, directory: string): Path
  {
    Join(base, directory)
  }

  /** `base_dir / file_directory / file_name[+ext]`. */
  function TargetPath(base: Path, directory: string, name: string, ext: Option<string>): Path
  {
    Join(DirPath(base, directory), FileName(name, ext))
  }

  /** How a `save_file` call ends. */
  datatype SaveOutcome =
    | Saved          // 'file(...) saved'
    | AlreadyExists  // 'file(...) already exists'
    | MkdirFailed    // `mkdir` raised out of `save_file`

  /** The filesystem after `save_file(data, directory, name, ext)`, and how it ended. */
  function SaveFileEffect(d: Disk, base: Path, directory: string, name: string, ext: Option<string>, data: Bytes): (Disk, SaveOutcome)
  {
    var dirPath := DirPath(base, directory);
    if MkdirFails(d, dirPath) then (d, MkdirFailed)
    else
      var d1 := Mkdir(d, dirPath);
      var target := TargetPath(base, directory, name, ext);
      if Exists(d1, target) then (d1, AlreadyExists)
      else (d1.(files := d1.files[target := data]), Saved)
  }

  /** The filesystem as a mutable object. */
  class FileSystem {
    var files: map<Path, Bytes>
    var dirs: set<Path>

    function State(): Disk
      reads this
    {
      Disk(files, dirs)
    }

    constructor (files: map<Path, Bytes>, dirs: set<Path>)
      ensures State() == Disk(files, dirs)
    {
      this.files := files;
      this.dirs := dirs;
    }

    method MakeDirs(p: Path) returns (ok: bool)
      modifies this
      ensures ok == !MkdirFails(old(State()), p)
      ensures State() == if ok then Mkdir(old(State()), p) else old(State())
    {
      ok := !MkdirFails(State(), p);
      if ok {
        dirs := dirs + Ancestors(p);
      }
    }

    method PathExists(p: Path) returns (b: bool)
      ensures b == Exists(State(), p)
    {
      b := p in files || p in dirs;
    }

    method WriteFile(p: Path, data: Bytes)
      modifies this
      ensures State() == old(State()).(files := old(files)[p := data])
    {
      files := files[p := data];
    }
  }

  /** `Storage`: a base directory on a shared filesystem. */
  class Storage {
    const baseDir: Path
    const disk: FileSystem

    constructor (baseDir: Path, disk: FileSystem)
      ensures this.baseDir == baseDir && this.disk == disk
    {
      this.baseDir := baseDir;
      this.disk := disk;
    }

    /** `save_file`: make the directory, then write the bytes unless the path exists. */
    method SaveFile(data: Bytes, directory: string, name: string, ext: Option<string>) returns (o: SaveOutcome)
      modifies disk
      ensures (disk.State(), o) == SaveFileEffect(old(disk.State()), baseDir, directory, name, ext, data)
    {
      var fileName := name;
      if ext.Some? && ext.value != "" {
        fileName := fileName + ext.value;
      }
      var dirPath := Join(baseDir, directory);
      var ok := disk.MakeDirs(dirPath);
      if !ok {
        return MkdirFailed;
      }
      var filePath := Join(dirPath, fileName);
      var present := disk.PathExists(filePath);
      if !present {
        disk.WriteFile(filePath, data);
        o := Saved;
      } else {
        o := AlreadyExists;
      }
    }
  }

  // ----- Properties of save_file -----

  /** The destination: `base/dir/name+ext` for a truthy extension, `base/dir/name` otherwise
      (for non-empty directory and file names). */
  lemma TargetPathShape(base: Path, directory: string, name: string, ext: Option<string>)
    requires directory != ""
    ensures ext.Some? && ext.value != "" ==> TargetPath(base, directory, name, ext) == base + [directory, name + ext.value]
    ensures name != "" && (ext.None? || ext.value == "") ==> TargetPath(base, directory, name, ext) == base + [directory, name]
  {
  }

  /** When the destination already exists, as a file or a directory, no file's contents change; at most the
      directories now exist. */
  lemma SaveFileOnExistingPath(d: Disk, base: Path, directory: string, name: string, ext: Option<string>, data: Bytes)
    requires Exists(d, TargetPath(base, directory, name, ext))
    ensures var (d', o) := SaveFileEffect(d, base, directory, name, ext, data);
      && o != Saved
      && d'.files == d.files
      && d'.dirs <= d.dirs + Ancestors(DirPath(base, directory))
  {
  }

  /** When the directory can be made and the destination (a name below the directory) is
      absent, the destination ends up holding the whole stream and every other file is
      unchanged. */
  lemma SaveFileOnAbsentPath(d: Disk, base: Path, directory: string, name: string, ext: Option<string>, data: Bytes)
    requires FileName(name, ext) != ""
    requires !MkdirFails(d, DirPath(base, directory))
    requires !Exists(d, TargetPath(base, directory, name, ext))
    ensures var (d', o) := SaveFileEffect(d, base, directory, name, ext, data);
      var target := TargetPath(base, directory, name, ext);
      && o == Saved
      && target in d'.files && d'.files[target] == data
      && (forall p :: p != target ==> (p in d'.files <==> p in d.files))
      && (forall p :: p in d.files && p != target ==> d'.files[p] == d.files[p])
      && d'.dirs == d.dirs + Ancestors(DirPath(base, directory))
  {
    var dirPath := DirPath(base, directory);
    var target := TargetPath(base, directory, name, ext);
    assert |target| == |dirPath| + 1;
    assert target !in Ancestors(dirPath);
  }

  /** With an empty file name and no extension the destination is the directory itself,
      which exists once `mkdir` ran: nothing is written. */
  lemma SaveFileEmptyName(d: Disk, base: Path, directory: string, ext: Option<string>, data: Bytes)
    requires FileName("", ext) == ""
    requires !MkdirFails(d, DirPath(base, directory))
    ensures var (d', o) := SaveFileEffect(d, base, directory, "", ext, data);
      o == AlreadyExists && d'.files == d.files
  {
    var dirPath := DirPath(base, directory);
    assert dirPath == dirPath[..|dirPath|];
    assert dirPath in Ancestors(dirPath);
  }

  /** Saving twice with the same arguments leaves the state of saving once; the second
      call writes nothing and ends as 'already exists' (or fails as the first did). */
  lemma SaveFileIdempotent(d: Disk, base: Path, directory: string, name: string, ext: Option<string>, data: Bytes)
    ensures var (d1, o1) := SaveFileEffect(d, base, directory, name, ext, data);
      var (d2, o2) := SaveFileEffect(d1, base, directory, name, ext, data);
      && d2 == d1
      && o2 == (if o1 == MkdirFailed then MkdirFailed else AlreadyExists)
  {
    var dirPath := DirPath(base, directory);
    var target := TargetPath(base, directory, name, ext);
    var (d1, o1) := SaveFileEffect(d, base, directory, name, ext, data);
    if o1 != MkdirFailed {
      var m := Mkdir(d, dirPath);
      assert Mkdir(d1, dirPath).dirs == m.dirs;
      if o1 == Saved {
        assert target != dirPath by {
          assert dirPath == dirPath[..|dirPath|];
          assert dirPath in m.dirs;
        }
        assert Join(dirPath, FileName(name, ext)) == target;
        assert |target| == |dirPath| + 1;
        assert !MkdirFails(d1, dirPath) by {
          forall k | 0 < k <= |dirPath| ensures dirPath[..k] !in d1.files {
            assert dirPath[..k] != target;
          }
        }
      }
    }
  }

  /** `save_file` keeps the filesystem well formed. */
  lemma SaveFileKeepsWellFormed(d: Disk, base: Path, directory: string, name: string, ext: Option<string>, data: Bytes)
    requires WellFormed(d)
    ensures WellFormed(SaveFileEffect(d, base, directory, name, ext, data).0)
  {
    var dirPath := DirPath(base, directory);
    var target := TargetPath(base, directory, name, ext);
    var (d1, o1) := SaveFileEffect(d, base, directory, name, ext, data);
    if o1 != MkdirFailed {
      var m := Mkdir(d, dirPath);
      assert m.files.Keys !! m.dirs by {
        forall p | p in Ancestors(dirPath) ensures p !in d.files {
          var k :| 0 <= k <= |dirPath| && p == dirPath[..k];
          if k == 0 { assert p == []; }
        }
      }
      assert forall p, k :: p in m.dirs && 0 <= k < |p| ==> p[..k] in m.dirs by {
        forall p, k | p in m.dirs && 0 <= k < |p| ensures p[..k] in m.dirs {
          if p !in d.dirs {
            var j :| 0 <= j <= |dirPath| && p == dirPath[..j];
            assert p[..k] == dirPath[..k];
          }
        }
      }
      if o1 == Saved {
        forall k | 0 <= k < |target| ensures target[..k] in m.dirs {
          assert target[..k] == dirPath[..k];
        }
      }
    }
  }
}
