/**
 * An abstract view of the worker's filesystem: the set of directories, the regular files
 * (with their size, or their members when the file is a zip archive) and the symbolic links.
 * The operations are the `os`/`shutil` calls the worker makes, with the exceptions they raise.
 */
module FileSystem {
  import opened Outcomes
  import opened PathNames

  /** An archive member: its name inside the archive and its uncompressed size. */
  datatype Member = Member(name: string, size: nat)

  /** File contents as far as the model sees them: a size, or the member list of a zip archive. */
  datatype Blob = Plain(size: nat) | Zip(members: seq<Member>)

  datatype Fs = Fs(dirs: set<Path>, files: map<Path, Blob>, links: map<Path, Path>)

  function TotalSize(ms: seq<Member>): nat {
    if ms == [] then 0 else TotalSize(ms[..|ms| - 1]) + ms[|ms| - 1].size
  }

  /** What `os.stat(p).st_size` reports; an archive is taken to be as large as its members together. */
  function SizeOf(b: Blob): nat {
    match b
    case Plain(size) => size
    case Zip(ms) => TotalSize(ms)
  }

  /** `os.path.isdir`: follows a symbolic link. */
  predicate IsDir(fs: Fs, p: Path) {
    p in fs.dirs || (p in fs.links && fs.links[p] in fs.dirs)
  }

  /** `os.path.isfile`: a regular file, possibly behind a symbolic link. */
  predicate IsFile(fs: Fs, p: Path) {
    p in fs.files || (p in fs.links && fs.links[p] in fs.files)
  }

  /** `os.path.exists`: false for a dangling link. */
  predicate Exists(fs: Fs, p: Path) {
    IsDir(fs, p) || IsFile(fs, p)
  }

  /** `os.path.lexists`: the name itself is taken. */
  predicate Lexists(fs: Fs, p: Path) {
    p in fs.dirs || p in fs.files || p in fs.links
  }

  /** `p` is `root` or lies below it. */
  predicate Under(p: Path, root: Path) {
    p == root || StartsWith(p, root + "/")
  }

  /** Nothing removed: every directory is still there and the links are untouched. */
  predicate Keeps(a: Fs, b: Fs) {
    a.dirs <= b.dirs && b.links == a.links
  }

  /** Nothing removed, and a link added only where the name was free. */
  predicate Extends(a: Fs, b: Fs) {
    a.dirs <= b.dirs && forall q :: q in b.links ==> (q in a.links && b.links[q] == a.links[q]) || !Lexists(a, q)
  }

  function Resolve(fs: Fs, p: Path): Path {
    if p !in fs.files && p in fs.links then fs.links[p] else p
  }

  /**
   * The directory a new name `p` goes into is there: `dirname(p)` is empty (the current
   * directory), only separators (the root), or a directory.
   */
  predicate ParentIsDir(fs: Fs, p: Path) {
    var d := Dirname(p);
    d == [] || AllSlashes(d) || IsDir(fs, d)
  }

  /**
   * Why `os.mkdir(p)` or `os.symlink(target, p)` refuses to create `p`, if it does: the
   * parent is looked up first (FileNotFoundError when it is missing, NotADirectoryError
   * when it is a file), then the name itself must be free (FileExistsError).
   */
  function CreateError(fs: Fs, p: Path): (r: Option<Error>)
    ensures r.None? <==> ParentIsDir(fs, p) && !Lexists(fs, p)
    ensures !ParentIsDir(fs, p) && !Exists(fs, Dirname(p)) ==> r == Some(FileNotFoundError(p))
    ensures !ParentIsDir(fs, p) && Exists(fs, Dirname(p)) ==> r == Some(NotADirectoryError(p))
    ensures ParentIsDir(fs, p) && Lexists(fs, p) ==> r == Some(FileExistsError(p))
  {
    if !ParentIsDir(fs, p) then
      if IsFile(fs, Dirname(p)) then Some(NotADirectoryError(p)) else Some(FileNotFoundError(p))
    else if Lexists(fs, p) then Some(FileExistsError(p))
    else None
  }

  /** `os.mkdir(p)`. */
  function Mkdir(fs: Fs, p: Path): (r: Result<Fs>)
    ensures r.Ok? <==> ParentIsDir(fs, p) && !Lexists(fs, p)
    ensures r.Ok? ==> r.value == fs.(dirs := fs.dirs + {p})
    ensures r.Err? ==> Some(r.error) == CreateError(fs, p)
  {
    match CreateError(fs, p)
    case Some(err) => Err(err)
    case None => Ok(fs.(dirs := fs.dirs + {p}))
  }

  /** `os.symlink(target, p)`: the target need not exist. */
  function Symlink(fs: Fs, target: Path, p: Path): (r: Result<Fs>)
    ensures r.Ok? <==> ParentIsDir(fs, p) && !Lexists(fs, p)
    ensures r.Ok? ==> r.value == fs.(links := fs.links[p := target])
    ensures r.Err? ==> Some(r.error) == CreateError(fs, p)
  {
    match CreateError(fs, p)
    case Some(err) => Err(err)
    case None => Ok(fs.(links := fs.links[p := target]))
  }

  /** Creating or truncating a file; writing through a link writes its target. */
  function Write(fs: Fs, p: Path, b: Blob): (r: Fs)
    ensures IsFile(r, p)
    ensures r.dirs == fs.dirs && r.links == fs.links
  {
    fs.(files := fs.files[Resolve(fs, p) := b])
  }

  /** `os.stat(p).st_size`; the size of a directory is not modelled and reads as 0. */
  function Stat(fs: Fs, p: Path): (r: Result<nat>)
    ensures r.Ok? <==> Exists(fs, p)
  {
    if IsFile(fs, p) then Ok(SizeOf(fs.files[Resolve(fs, p)]))
    else if IsDir(fs, p) then Ok(0)
    else Err(FileNotFoundError(p))
  }

  /** `os.remove(p)`: unlinks a file or a link (never its target); refuses a directory. */
  function Remove(fs: Fs, p: Path): (r: Result<Fs>)
    ensures r.Ok? <==> (p in fs.links || p in fs.files) && p !in fs.dirs
    ensures r.Ok? ==> !Lexists(r.value, p) && r.value.dirs == fs.dirs
    ensures r.Ok? ==> forall q :: q != p ==> (Lexists(r.value, q) <==> Lexists(fs, q))
  {
    if p in fs.dirs then Err(IsADirectoryError(p))
    else if p in fs.links then Ok(fs.(links := fs.links - {p}, files := fs.files - {p}))
    else if p in fs.files then Ok(fs.(files := fs.files - {p}))
    else Err(FileNotFoundError(p))
  }

  /** Everything at or below `root` removed, everything else kept. */
  function Prune(fs: Fs, root: Path): (r: Fs)
    ensures forall q :: Lexists(r, q) <==> Lexists(fs, q) && !Under(q, root)
    ensures forall q :: q in r.files ==> q in fs.files && r.files[q] == fs.files[q]
    ensures forall q :: q in r.links ==> q in fs.links && r.links[q] == fs.links[q]
  {
    Fs(set q | q in fs.dirs && !Under(q, root),
       map q | q in fs.files && !Under(q, root) :: fs.files[q],
       map q | q in fs.links && !Under(q, root) :: fs.links[q])
  }

  /**
   * `shutil.rmtree(root)`: refuses a symbolic link and anything that is not a directory;
   * otherwise removes the directory with everything below it, links below it included
   * (their targets stay).
   */
  function RmTree(fs: Fs, root: Path): (r: Result<Fs>)
    ensures r.Ok? <==> root in fs.dirs && root !in fs.links
    ensures r.Ok? ==> r.value == Prune(fs, root)
  {
    if root in fs.links || root !in fs.dirs then Err(OSError(root)) else Ok(Prune(fs, root))
  }
}
