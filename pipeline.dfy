/**
 * The Celery tasks of the worker (`app/worker/main.py`) as transformers of the job's `data`
 * dict, and the chain semantics that strings them together: each task gets the previous
 * task's result, the first exception ends the chain, and the chain's error hook (when one
 * is attached) runs once with the failing task's own input.
 */
module Pipeline {
  import opened Outcomes
  import opened PathNames
  import opened FileSystem
  import opened Timestamps
  import Tools

  const FILESTORE_PATH: Path := "/usr/src/filestore"

  /**
   * The job's `data` dict. A key is present exactly when its field is `Some`; the tasks only
   * ever read these keys with `get` (absent reads as `None`) or with `[]` (absent raises
   * `KeyError`).
   */
  datatype Context = Context(
    dbName: Option<string>,
    filename: Option<string>,
    workdir: Option<Path>,
    zipfile: Option<Path>,
    files: Option<seq<Path>>,
    dump: Option<Tools.FileInfo>,
    zip: Option<Tools.FileInfo>,
    download: Option<Path>,
    filestore: Option<Path>)

  /** The keys the tasks use; `KeyName` gives each one's spelling in the dict. */
  datatype Key = DbNameKey | FilenameKey | WorkdirKey | ZipfileKey | FilesKey | DumpKey | ZipKey | DownloadKey | FilestoreKey

  function KeyName(k: Key): string {
    match k
    case DbNameKey => "db_name"
    case FilenameKey => "filename"
    case WorkdirKey => "workdir"
    case ZipfileKey => "zipfile"
    case FilesKey => "files"
    case DumpKey => "dump"
    case ZipKey => "zip"
    case DownloadKey => "download"
    case FilestoreKey => "filestore"
  }

  /** Whether the dict holds the key. */
  predicate Has(c: Context, k: Key) {
    match k
    case DbNameKey => c.dbName.Some?
    case FilenameKey => c.filename.Some?
    case WorkdirKey => c.workdir.Some?
    case ZipfileKey => c.zipfile.Some?
    case FilesKey => c.files.Some?
    case DumpKey => c.dump.Some?
    case ZipKey => c.zip.Some?
    case DownloadKey => c.download.Some?
    case FilestoreKey => c.filestore.Some?
  }

  /** The two dicts hold the same value under `k`, or both lack it. */
  predicate Agrees(c: Context, d: Context, k: Key) {
    match k
    case DbNameKey => c.dbName == d.dbName
    case FilenameKey => c.filename == d.filename
    case WorkdirKey => c.workdir == d.workdir
    case ZipfileKey => c.zipfile == d.zipfile
    case FilesKey => c.files == d.files
    case DumpKey => c.dump == d.dump
    case ZipKey => c.zip == d.zip
    case DownloadKey => c.download == d.download
    case FilestoreKey => c.filestore == d.filestore
  }

  /** `d` holds every key of `ws` and agrees with `c` on every other key. */
  predicate Updates(c: Context, d: Context, ws: set<Key>) {
    (if DbNameKey in ws then d.dbName.Some? else d.dbName == c.dbName) &&
    (if FilenameKey in ws then d.filename.Some? else d.filename == c.filename) &&
    (if WorkdirKey in ws then d.workdir.Some? else d.workdir == c.workdir) &&
    (if ZipfileKey in ws then d.zipfile.Some? else d.zipfile == c.zipfile) &&
    (if FilesKey in ws then d.files.Some? else d.files == c.files) &&
    (if DumpKey in ws then d.dump.Some? else d.dump == c.dump) &&
    (if ZipKey in ws then d.zip.Some? else d.zip == c.zip) &&
    (if DownloadKey in ws then d.download.Some? else d.download == c.download) &&
    (if FilestoreKey in ws then d.filestore.Some? else d.filestore == c.filestore)
  }

  /** The dict with no keys. */
  const EmptyContext: Context := Context(None, None, None, None, None, None, None, None, None)

  /** `data.setdefault('files', [])`: the list so far, a new empty one when the key is absent. */
  function FilesOf(c: Context): seq<Path> {
    if c.files.Some? then c.files.value else []
  }

  /** How an optional string reads once formatted into a name or a command: `None` becomes "None". */
  function Text(s: Option<string>): string {
    if s.Some? then s.value else "None"
  }

  /**
   * What a task learns from outside the model: the fresh `uuid4()`, the clock, the outcome
   * of each database tool, the listing `os.walk` produces for the filestore, and the
   * directories `mkdtemp` and `TemporaryDirectory` hand out.
   */
  datatype Env = Env(
    uuid: string,
    now: Stamp,
    manifest: Tools.ToolRun,
    pgDump: Tools.ToolRun,
    createDb: Tools.ToolRun,
    psql: Tools.ToolRun,
    walk: seq<Tools.WalkEntry>,
    tmp: Path,
    scratch: Path)

  /** A task's effect on the process and its result: the returned dict, or the exception it raised. */
  type Step = Tools.Effect<Context>

  /** Tasks leave the process-wide state other than the filesystem as they find it, except `dump_db`. */
  predicate SameProcess(a: Tools.Host, b: Tools.Host) {
    b.dumpCmd == a.dumpCmd && b.events == a.events
  }

  /** `os.path.join(OUTPUT_DIR, str(uuid.uuid4()))`. */
  function Workdir(uuid: string): Path {
    Join(Tools.OUTPUT_DIR, uuid)
  }

  /** The dict `create_env` returns: the working directory, the stamped file name and the archive path inside the directory. */
  function WithEnv(c: Context, workdir: Path, filename: string, zipfile: Path): (d: Context)
    ensures Updates(c, d, Writes(CreateEnvTask))
    ensures d.workdir == Some(workdir) && d.files == c.files
  {
    c.(workdir := Some(workdir), filename := Some(filename), zipfile := Some(zipfile))
  }

  // Each task's returned dict is built by one of these; each states which keys it sets.

  /** `data['files'].append(path)` after `setdefault`. */
  function WithFile(c: Context, path: Path): (d: Context)
    ensures Updates(c, d, Writes(CreateOdooManifestTask)) && Updates(c, d, Writes(AddFilestoreTask))
  {
    c.(files := Some(FilesOf(c) + [path]))
  }

  /** The dump recorded under `dump` and its path appended to `files`. */
  function WithDumpFile(c: Context, info: Tools.FileInfo): (d: Context)
    ensures Updates(c, d, Writes(DumpDbTask))
  {
    c.(dump := Some(info), files := Some(FilesOf(c) + [info.path]))
  }

  /** The archive recorded under `zip` and its path under `download`. */
  function WithDownload(c: Context, info: Tools.FileInfo): (d: Context)
    ensures Updates(c, d, Writes(AddToZipTask))
  {
    c.(zip := Some(info), download := Some(info.path))
  }

  /** The filestore directory and the archive path a restore works with. */
  function WithRestorePaths(c: Context, filestore: Path, zipfile: Path): (d: Context)
    ensures Updates(c, d, Writes(InitRestoreTask))
  {
    c.(filestore := Some(filestore), zipfile := Some(zipfile))
  }

  /** A dump file recorded under `dump`. */
  function WithDump(c: Context, info: Tools.FileInfo): (d: Context)
    ensures Updates(c, d, Writes(UnzipDumpTask)) && Updates(c, d, Writes(RestoreDumpTask))
  {
    c.(dump := Some(info))
  }

  /** The extracted archive recorded under `zip`. */
  function WithZip(c: Context, info: Tools.FileInfo): (d: Context)
    ensures Updates(c, d, Writes(UnzipFilestoreTask)) && Updates(c, d, Writes(UnzipBackupTask))
  {
    c.(zip := Some(info))
  }

  // ---------------------------------------------------------------------------------------
  // The backup tasks

  /**
   * `create_env`: a working directory named by a fresh uuid (created unless it is already a
   * directory), the stamped file name and the archive path inside the working directory.
   */
  function CreateEnv(h: Tools.Host, c: Context, env: Env): (e: Step)
    ensures e.out.Ok? ==> Updates(c, e.out.value, Writes(CreateEnvTask))
    ensures e.out.Ok? ==> e.out.value.workdir == Some(Workdir(env.uuid)) && e.out.value.files == c.files
    ensures SameProcess(h, e.host) && Keeps(h.fs, e.host.fs)
    ensures e.out.Ok? <==> IsDir(h.fs, Workdir(env.uuid)) || CreateError(h.fs, Workdir(env.uuid)).None?
    ensures e.out.Ok? ==> IsDir(e.host.fs, Workdir(env.uuid))
    ensures e.out.Err? ==> e.host == h && Some(e.out.error) == CreateError(h.fs, Workdir(env.uuid))
  {
    var workdir := Workdir(env.uuid);
    var filename := GenerateFilename(Text(c.dbName), env.now);
    MakeWorkdir(h, workdir, WithEnv(c, workdir, filename, Join(workdir, filename)))
  }

  /** `if not os.path.isdir(workdir): os.mkdir(workdir)`, then the task returns `updated`. */
  function MakeWorkdir(h: Tools.Host, workdir: Path, updated: Context): (e: Step)
    ensures e.out.Ok? ==> e.out.value == updated
    ensures SameProcess(h, e.host) && Keeps(h.fs, e.host.fs)
    ensures e.out.Ok? <==> IsDir(h.fs, workdir) || CreateError(h.fs, workdir).None?
    ensures e.out.Ok? ==> IsDir(e.host.fs, workdir)
    ensures e.out.Err? ==> e.host == h && Some(e.out.error) == CreateError(h.fs, workdir)
  {
    if IsDir(h.fs, workdir) then Tools.Effect(h, Ok(updated))
    else
      match Mkdir(h.fs, workdir)
      case Err(err) => Tools.Effect(h, Err(err))
      case Ok(fs1) => Tools.Effect(h.(fs := fs1), Ok(updated))
  }

  /** `create_odoo_manifest`: writes `workdir/manifest.json` and appends its path to `files`. */
  function CreateOdooManifest(h: Tools.Host, c: Context, env: Env): (e: Step)
    ensures e.out.Ok? ==> Updates(c, e.out.value, Writes(CreateOdooManifestTask))
    ensures SameProcess(h, e.host) && Keeps(h.fs, e.host.fs)
    ensures c.workdir.None? ==> e == Tools.Effect(h, Err(TypeError))
    ensures e.out.Ok? <==>
      c.workdir.Some? && !IsDir(h.fs, Join(c.workdir.value, Tools.DEFAULT_MANIFEST_FILENAME)) && env.manifest.Succeeds?
    ensures e.out.Ok? ==>
      e.out.value == c.(files := Some(FilesOf(c) + [Join(c.workdir.value, Tools.DEFAULT_MANIFEST_FILENAME)]))
  {
    var r := Tools.CreateOdooManifest(h, c.workdir, env.manifest);
    match r.out
    case Err(err) => Tools.Effect(r.host, Err(err))
    case Ok(filepath) => Tools.Effect(r.host, Ok(WithFile(c, filepath)))
  }

  /**
   * `dump_db`: pg_dump writes `workdir/dump.sql`; the dump is recorded under `dump` and its
   * path appended to `files`. The shared argument list has grown by the database name
   * whatever happens next.
   */
  function DumpDb(h: Tools.Host, c: Context, env: Env): (e: Step)
    ensures e.out.Ok? ==> Updates(c, e.out.value, Writes(DumpDbTask))
    ensures e.host.dumpCmd == h.dumpCmd + [Text(c.dbName)] && e.host.events == h.events
    ensures Keeps(h.fs, e.host.fs)
    ensures e.out.Ok? <==>
      c.workdir.Some? && !IsDir(h.fs, Join(c.workdir.value, Tools.DEFAULT_DUMP_FILENAME)) && env.pgDump.Succeeds?
    ensures e.out.Ok? ==>
      var dump := Tools.FileInfo(Join(c.workdir.value, Tools.DEFAULT_DUMP_FILENAME), env.pgDump.size);
      e.out.value == c.(dump := Some(dump), files := Some(FilesOf(c) + [dump.path]))
  {
    var r := Tools.CreateDbDump(h, Text(c.dbName), c.workdir, [], env.pgDump);
    match r.out
    case Err(err) => Tools.Effect(r.host, Err(err))
    case Ok(info) => Tools.Effect(r.host, Ok(WithDumpFile(c, info)))
  }

  /**
   * `add_to_zip`: archives `files` at `zipfile` (with `.zip` appended when missing) and
   * records the archive under `zip` and its path under `download`. A missing `zipfile` fails
   * on `endswith` before anything is written; a missing `files` fails only after the empty
   * archive has been created.
   */
  function AddToZip(h: Tools.Host, c: Context, env: Env): (e: Step)
    ensures e.out.Ok? ==> Updates(c, e.out.value, Writes(AddToZipTask))
    ensures SameProcess(h, e.host) && Keeps(h.fs, e.host.fs)
    ensures c.zipfile.None? ==> e == Tools.Effect(h, Err(AttributeError))
    ensures e.out.Ok? <==> c.zipfile.Some? && c.files.Some? && !IsDir(h.fs, ZipName(c.zipfile.value))
    ensures e.out.Ok? ==> IsFile(e.host.fs, ZipName(c.zipfile.value))
    ensures e.out.Ok? ==>
      e.out.value.zip.Some? && e.out.value == c.(zip := e.out.value.zip, download := Some(ZipName(c.zipfile.value)))
  {
    if c.zipfile.None? then Tools.Effect(h, Err(AttributeError))
    else if c.files.None? then
      var z := ZipName(c.zipfile.value);
      if IsDir(h.fs, z) then Tools.Effect(h, Err(IsADirectoryError(z)))
      else Tools.Effect(h.(fs := Write(h.fs, z, Zip([]))), Err(TypeError))
    else
      var r := Tools.AddToZip(h, c.files.value, c.zipfile.value);
      match r.out
      case Err(err) => Tools.Effect(r.host, Err(err))
      case Ok(info) => Tools.Effect(r.host, Ok(WithDownload(c, info)))
  }

  /**
   * `add_filestore`: links the database's filestore into the working directory as
   * `filestore`, appends the linked folder to the archive recorded under `zip` (publishing
   * progress, as the task is bound) and appends the link's path to `files`.
   */
  function AddFilestore(h: Tools.Host, c: Context, env: Env): (e: Step)
    ensures e.out.Ok? ==> Updates(c, e.out.value, Writes(AddFilestoreTask))
    ensures e.host.dumpCmd == h.dumpCmd && Extends(h.fs, e.host.fs)
    ensures c.dbName.None? ==> e == Tools.Effect(h, Err(TypeError))
    ensures c.dbName.Some? && !Exists(h.fs, Join(FILESTORE_PATH, c.dbName.value)) ==>
      e == Tools.Effect(h, Err(FileNotFoundError(Join(FILESTORE_PATH, c.dbName.value))))
    ensures e.out.Ok? ==> c.dbName.Some? && c.workdir.Some? && c.zip.Some?
    ensures e.out.Ok? ==>
      var link := Join(c.workdir.value, "filestore");
      e.out.value == c.(files := Some(FilesOf(c) + [link])) &&
      link in e.host.fs.links && e.host.fs.links[link] == Join(FILESTORE_PATH, c.dbName.value) &&
      e.host.events == h.events + Tools.Emitted(Tools.KeptFlags(env.walk), |env.walk|, true)
  {
    if c.dbName.None? then Tools.Effect(h, Err(TypeError))
    else
      var path := Join(FILESTORE_PATH, c.dbName.value);
      match Tools.CheckPath(h.fs, path, true)
      case Some(err) => Tools.Effect(h, Err(err))
      case None =>
        if c.workdir.None? then Tools.Effect(h, Err(KeyError("workdir")))
        else LinkFilestore(h, c, path, Join(c.workdir.value, "filestore"), env)
  }

  /** The rest of `add_filestore` once both paths are known: link, archive, record. */
  function LinkFilestore(h: Tools.Host, c: Context, target: Path, link: Path, env: Env): (e: Step)
    ensures e.out.Ok? ==> Updates(c, e.out.value, Writes(AddFilestoreTask))
    ensures e.host.dumpCmd == h.dumpCmd && Extends(h.fs, e.host.fs)
    ensures e.out.Ok? ==> c.zip.Some? && e.out.value == c.(files := Some(FilesOf(c) + [link]))
    ensures e.out.Ok? ==> link in e.host.fs.links && e.host.fs.links[link] == target
    ensures e.out.Ok? ==> e.host.events == h.events + Tools.Emitted(Tools.KeptFlags(env.walk), |env.walk|, true)
  {
    match Symlink(h.fs, target, link)
    case Err(err) => Tools.Effect(h, Err(err))
    case Ok(fs1) =>
      if c.zip.None? then Tools.Effect(h.(fs := fs1), Err(KeyError("zip")))
      else
        var r := Tools.AddFolderToZip(h.(fs := fs1), link, c.zip.value.path, env.walk, true);
        match r.out
        case Err(err) => Tools.Effect(r.host, Err(err))
        case Ok(_) => Tools.Effect(r.host, Ok(WithFile(c, link)))
  }

  /** `clean_workdir`: tidies the working directory (the helper's verdict is dropped) and passes the dict on. */
  function CleanWorkdir(h: Tools.Host, c: Context, env: Env): (e: Step)
    ensures e.out.Ok? ==> Updates(c, e.out.value, Writes(CleanWorkdirTask))
    ensures SameProcess(h, e.host)
    ensures e.out.Ok? <==> c.workdir.Some?
    ensures e.out.Ok? ==> e.out.value == c
    ensures e.out.Err? ==> e == Tools.Effect(h, Err(TypeError))
  {
    if c.workdir.None? then Tools.Effect(h, Err(TypeError))
    else
      var (_, fs1) := Tools.CleanWorkdir(h.fs, c.workdir.value, FilesOf(c));
      Tools.Effect(h.(fs := fs1), Ok(c))
  }

  // ---------------------------------------------------------------------------------------
  // The restore tasks

  /**
   * `init_restore`: refuses a database whose filestore directory is already there, then
   * requires the archive in the input directory; records both paths.
   */
  function InitRestore(h: Tools.Host, c: Context, env: Env): (e: Step)
    ensures e.out.Ok? ==> Updates(c, e.out.value, Writes(InitRestoreTask))
    ensures e.host == h
    ensures e.out.Ok? ==> c.dbName.Some? && c.filename.Some?
    ensures e.out.Ok? ==>
      e.out.value == c.(filestore := Some(Join(FILESTORE_PATH, c.dbName.value)), zipfile := Some(Join(Tools.INPUT_DIR, c.filename.value)))
  {
    if c.dbName.None? then Tools.Effect(h, Err(TypeError))
    else
      var filestore := Join(FILESTORE_PATH, c.dbName.value);
      if IsDir(h.fs, filestore) then Tools.Effect(h, Err(FileExistsError(filestore)))
      else if c.filename.None? then Tools.Effect(h, Err(TypeError))
      else
        var zipfile := Join(Tools.INPUT_DIR, c.filename.value);
        if !IsFile(h.fs, zipfile) then Tools.Effect(h, Err(FileNotFoundError(zipfile)))
        else Tools.Effect(h, Ok(WithRestorePaths(c, filestore, zipfile)))
  }

  /** `unzip_dump`: extracts `dump.sql` from the archive into a fresh temporary directory and records it under `dump`. */
  function UnzipDump(h: Tools.Host, c: Context, env: Env): (e: Step)
    ensures e.out.Ok? ==> Updates(c, e.out.value, Writes(UnzipDumpTask))
    ensures SameProcess(h, e.host) && Keeps(h.fs, e.host.fs)
    ensures c.zipfile.None? ==> e == Tools.Effect(h, Err(TypeError))
    ensures e.out.Ok? ==> e.out.value.dump.Some? && e.out.value == c.(dump := e.out.value.dump)
  {
    if c.zipfile.None? then Tools.Effect(h, Err(TypeError))
    else
      var r := Tools.UnzipFiles(h, c.zipfile.value, [Tools.DEFAULT_DUMP_FILENAME], env.tmp);
      match r.out
      case Err(err) => Tools.Effect(r.host, Err(err))
      case Ok(extracted) =>
        if extracted == [] then Tools.Effect(r.host, Err(ValueError("No dump file found")))
        else Tools.Effect(r.host, Ok(WithDump(c, extracted[0])))
  }

  /** `restore_dump`: psql replays the dump recorded under `dump` into the database. */
  function RestoreDump(h: Tools.Host, c: Context, env: Env): (e: Step)
    ensures e.out.Ok? ==> Updates(c, e.out.value, Writes(RestoreDumpTask))
    ensures e.host == h
    ensures c.dump.None? ==> e.out == Err(KeyError("dump"))
    ensures e.out.Ok? <==> c.dump.Some? && IsFile(h.fs, c.dump.value.path) && env.psql.Succeeds?
    ensures e.out.Ok? ==>
      e.out.value == c.(dump := Some(Tools.FileInfo(c.dump.value.path, Tools.FileSize(h.fs, c.dump.value.path))))
  {
    if c.dump.None? then Tools.Effect(h, Err(KeyError("dump")))
    else
      var r := Tools.RestoreDbDump(h, Text(c.dbName), c.dump.value.path, env.psql);
      match r.out
      case Err(err) => Tools.Effect(r.host, Err(err))
      case Ok(info) => Tools.Effect(r.host, Ok(WithDump(c, info)))
  }

  /** `unzip_backup`: extracts the whole archive into the directory recorded under `filestore`. */
  function UnzipBackup(h: Tools.Host, c: Context, env: Env): (e: Step)
    ensures e.out.Ok? ==> Updates(c, e.out.value, Writes(UnzipBackupTask))
    ensures SameProcess(h, e.host) && Keeps(h.fs, e.host.fs)
    ensures e.out.Ok? ==> c.filestore.Some? && IsDir(e.host.fs, c.filestore.value)
    ensures e.out.Ok? ==> e.out.value.zip.Some? && e.out.value == c.(zip := e.out.value.zip)
  {
    if c.zipfile.None? then Tools.Effect(h, Err(TypeError))
    else
      match Tools.CheckPath(h.fs, c.zipfile.value, true)
      case Some(err) => Tools.Effect(h, Err(err))
      case None =>
        if c.filestore.None? then Tools.Effect(h, Err(TypeError))
        else
          var r := Tools.UnzipBackup(h, c.zipfile.value, c.filestore.value);
          match r.out
          case Err(err) => Tools.Effect(r.host, Err(err))
          case Ok(info) => Tools.Effect(r.host, Ok(WithZip(c, info)))
  }

  /** `unzip_filestore`: the archive's `filestore/` members become the database's filestore under FILESTORE_PATH. */
  function UnzipFilestore(h: Tools.Host, c: Context, env: Env): (e: Step)
    ensures e.out.Ok? ==> Updates(c, e.out.value, Writes(UnzipFilestoreTask))
    ensures SameProcess(h, e.host) && Keeps(h.fs, e.host.fs)
    ensures c.zipfile.None? ==> e == Tools.Effect(h, Err(TypeError))
    ensures e.out.Ok? ==>
      c.dbName.Some? && Tools.FilestoreDest(h.fs, FILESTORE_PATH, c.dbName.value) in e.host.fs.dirs
    ensures e.out.Ok? ==> e.out.value.zip.Some? && e.out.value == c.(zip := e.out.value.zip)
  {
    if c.zipfile.None? then Tools.Effect(h, Err(TypeError))
    else
      var r := Tools.UnzipFilestore(h, c.zipfile.value, c.dbName, FILESTORE_PATH, env.scratch);
      match r.out
      case Err(err) => Tools.Effect(r.host, Err(err))
      case Ok(info) => Tools.Effect(r.host, Ok(WithZip(c, info)))
  }

  /** `create_database`: issues `CREATE DATABASE` (the helper's verdict is dropped) and passes the dict on. */
  function CreateDatabase(h: Tools.Host, c: Context, env: Env): (e: Step)
    ensures e.out.Ok? ==> Updates(c, e.out.value, Writes(CreateDatabaseTask))
    ensures e.host == h
    ensures e.out.Ok? <==> env.createDb.Succeeds?
    ensures e.out.Ok? ==> e.out.value == c
  {
    var r := Tools.CreateDatabase(h, env.createDb);
    match r.out
    case Err(err) => Tools.Effect(r.host, Err(err))
    case Ok(_) => Tools.Effect(r.host, Ok(c))
  }

  // ---------------------------------------------------------------------------------------
  // The error hook

  /** Python truthiness of an optional string: present and not empty. */
  predicate Truthy(s: Option<string>) {
    s.Some? && s.value != []
  }

  /**
   * `error_handler`: reads `workdir` from the failing task's input and, when it is truthy,
   * removes the whole working directory. `clean_workdir` never raises, so neither does the
   * hook.
   */
  function ErrorHandler(h: Tools.Host, input: Context): (r: Tools.Host)
    ensures SameProcess(h, r)
    ensures !Truthy(input.workdir) ==> r == h
  {
    if Truthy(input.workdir) then h.(fs := Tools.CleanWorkdir(h.fs, input.workdir.value, []).1) else h
  }

  /**
   * The hook removes the working directory with everything below it when the failing
   * task's input names one that is a real directory; it leaves everything as it is when
   * the name is missing, empty, not a directory, or a symbolic link (which `rmtree`
   * refuses, a refusal the hook swallows).
   */
  lemma ErrorHandlerSpec(h: Tools.Host, input: Context)
    ensures var r := ErrorHandler(h, input);
      Truthy(input.workdir) && input.workdir.value in h.fs.dirs && input.workdir.value !in h.fs.links ==>
        forall q :: Lexists(r.fs, q) <==> Lexists(h.fs, q) && !Under(q, input.workdir.value)
    ensures Truthy(input.workdir) && (!IsDir(h.fs, input.workdir.value) || input.workdir.value in h.fs.links) ==>
      ErrorHandler(h, input) == h
  {
  }

  // ---------------------------------------------------------------------------------------
  // Chains

  datatype TaskName =
    | CreateEnvTask | CreateOdooManifestTask | DumpDbTask | AddToZipTask | AddFilestoreTask | CleanWorkdirTask
    | InitRestoreTask | UnzipDumpTask | RestoreDumpTask | UnzipBackupTask | UnzipFilestoreTask | CreateDatabaseTask

  /** The name each task is registered under. */
  function Name(t: TaskName): string {
    match t
    case CreateEnvTask => "create_env"
    case CreateOdooManifestTask => "create_odoo_manifest"
    case DumpDbTask => "dump_db"
    case AddToZipTask => "add_to_zip"
    case AddFilestoreTask => "add_filestore"
    case CleanWorkdirTask => "clean_workdir"
    case InitRestoreTask => "init_restore"
    case UnzipDumpTask => "unzip_dump"
    case RestoreDumpTask => "restore_dump"
    case UnzipBackupTask => "unzip_backup"
    case UnzipFilestoreTask => "unzip_filestore"
    case CreateDatabaseTask => "create_database"
  }

  function Apply(t: TaskName, h: Tools.Host, c: Context, env: Env): Step {
    match t
    case CreateEnvTask => CreateEnv(h, c, env)
    case CreateOdooManifestTask => CreateOdooManifest(h, c, env)
    case DumpDbTask => DumpDb(h, c, env)
    case AddToZipTask => AddToZip(h, c, env)
    case AddFilestoreTask => AddFilestore(h, c, env)
    case CleanWorkdirTask => CleanWorkdir(h, c, env)
    case InitRestoreTask => InitRestore(h, c, env)
    case UnzipDumpTask => UnzipDump(h, c, env)
    case RestoreDumpTask => RestoreDump(h, c, env)
    case UnzipBackupTask => UnzipBackup(h, c, env)
    case UnzipFilestoreTask => UnzipFilestore(h, c, env)
    case CreateDatabaseTask => CreateDatabase(h, c, env)
  }

  /**
   * How a chain ends: every task returned, or the task at index `at` raised `error` when
   * given `input`; `host` is the state after the hook.
   */
  datatype Run =
    | Completed(host: Tools.Host, result: Context)
    | Failed(host: Tools.Host, at: nat, error: Error, input: Context)

  /** What running a registered task does; the worker's registry is `Registry(env)`. */
  type Runner = (TaskName, Tools.Host, Context) -> Step

  function Registry(env: Env): Runner {
    (t: TaskName, h: Tools.Host, c: Context) => Apply(t, h, c, env)
  }

  /** A chain of `tasks` started on `c`, with the error hook attached when `hook` holds. */
  function RunChain(tasks: seq<TaskName>, hook: bool, h: Tools.Host, c: Context, run: Runner): (r: Run)
    ensures r.Failed? ==> r.at < |tasks|
    decreases |tasks|
  {
    if tasks == [] then Completed(h, c)
    else
      var e := run(tasks[0], h, c);
      match e.out
      case Err(err) => Failed(if hook then ErrorHandler(e.host, c) else e.host, 0, err, c)
      case Ok(c1) =>
        var r := RunChain(tasks[1..], hook, e.host, c1, run);
        if r.Failed? then r.(at := r.at + 1) else r
  }

  /** One step of a chain started at task `i`: that task runs, then either the hook or the rest of the chain. */
  lemma ChainStep(tasks: seq<TaskName>, i: nat, hook: bool, h: Tools.Host, c: Context, run: Runner)
    requires i < |tasks|
    ensures var e := run(tasks[i], h, c);
      RunChain(tasks[i..], hook, h, c, run) ==
        match e.out
        case Err(err) => Failed(if hook then ErrorHandler(e.host, c) else e.host, 0, err, c)
        case Ok(c1) => Shift(RunChain(tasks[i + 1..], hook, e.host, c1, run), 1)
  {
    assert tasks[i..][0] == tasks[i] && tasks[i..][1..] == tasks[i + 1..];
  }

  /** `r` with its failing index moved `n` tasks further along. */
  function Shift(r: Run, n: nat): Run {
    if r.Failed? then r.(at := r.at + n) else r
  }

  /**
   * Running two chains back to back is running their concatenation: the second starts on
   * the state and the dict the first ends with, and does not run when the first fails.
   */
  lemma {:induction false} RunChainAppend(t1: seq<TaskName>, t2: seq<TaskName>, hook: bool, h: Tools.Host, c: Context, run: Runner)
    ensures RunChain(t1 + t2, hook, h, c, run) ==
      match RunChain(t1, hook, h, c, run)
      case Completed(h1, c1) => Shift(RunChain(t2, hook, h1, c1, run), |t1|)
      case Failed(_, _, _, _) => RunChain(t1, hook, h, c, run)
    decreases |t1|
  {
    if t1 == [] {
      assert t1 + t2 == t2;
    } else {
      assert (t1 + t2)[0] == t1[0] && (t1 + t2)[1..] == t1[1..] + t2;
      var e := run(t1[0], h, c);
      if e.out.Ok? {
        RunChainAppend(t1[1..], t2, hook, e.host, e.out.value, run);
      }
    }
  }

  /**
   * A failed chain: the tasks before the failing one all returned and the last of them
   * produced the failing task's input; that task raised the reported error, and the hook
   * (if attached) ran exactly once, on the state the failing task left and with its input.
   */
  lemma {:induction false} FailedRun(tasks: seq<TaskName>, hook: bool, h: Tools.Host, c: Context, run: Runner)
    requires RunChain(tasks, hook, h, c, run).Failed?
    ensures var r := RunChain(tasks, hook, h, c, run);
      var before := RunChain(tasks[..r.at], hook, h, c, run);
      before.Completed? && before.result == r.input &&
      var e := run(tasks[r.at], before.host, r.input);
      e.out == Err(r.error) && r.host == (if hook then ErrorHandler(e.host, r.input) else e.host)
    decreases |tasks|
  {
    var r := RunChain(tasks, hook, h, c, run);
    var e := run(tasks[0], h, c);
    if e.out.Err? {
      assert tasks[..0] == [];
    } else {
      var rest := tasks[1..];
      FailedRun(rest, hook, e.host, e.out.value, run);
      var k := r.at - 1;
      var pre := tasks[..r.at];
      assert pre[0] == tasks[0] && pre[1..] == rest[..k];
      assert tasks[r.at] == rest[k];
    }
  }

  /** A chain that completes ends as its last task leaves things, after the rest completed. */
  lemma CompletedRun(tasks: seq<TaskName>, hook: bool, h: Tools.Host, c: Context, run: Runner)
    requires tasks != [] && RunChain(tasks, hook, h, c, run).Completed?
    ensures var r := RunChain(tasks, hook, h, c, run);
      var before := RunChain(tasks[..|tasks| - 1], hook, h, c, run);
      before.Completed? && run(tasks[|tasks| - 1], before.host, before.result) == Tools.Effect(r.host, Ok(r.result))
  {
    var n := |tasks| - 1;
    assert tasks == tasks[..n] + [tasks[n]];
    RunChainAppend(tasks[..n], [tasks[n]], hook, h, c, run);
  }

  // ---------------------------------------------------------------------------------------
  // What each task does to the dict

  /** The keys each task assigns. */
  function Writes(t: TaskName): set<Key> {
    match t
    case CreateEnvTask => {WorkdirKey, FilenameKey, ZipfileKey}
    case CreateOdooManifestTask => {FilesKey}
    case DumpDbTask => {DumpKey, FilesKey}
    case AddToZipTask => {ZipKey, DownloadKey}
    case AddFilestoreTask => {FilesKey}
    case CleanWorkdirTask => {}
    case InitRestoreTask => {FilestoreKey, ZipfileKey}
    case UnzipDumpTask => {DumpKey}
    case RestoreDumpTask => {DumpKey}
    case UnzipBackupTask => {ZipKey}
    case UnzipFilestoreTask => {ZipKey}
    case CreateDatabaseTask => {}
  }

  /**
   * No task deletes a key: a task that returns has added exactly the keys it assigns and
   * left every other key as it was.
   */
  lemma TaskWrites(t: TaskName, h: Tools.Host, c: Context, env: Env)
    requires Apply(t, h, c, env).out.Ok?
    ensures var d := Apply(t, h, c, env).out.value;
      (forall k :: Has(d, k) <==> Has(c, k) || k in Writes(t)) &&
      (forall k :: k !in Writes(t) ==> Agrees(c, d, k))
  {
    var d := Apply(t, h, c, env).out.value;
    assert Updates(c, d, Writes(t));
    KeysOfUpdate(c, d, Writes(t));
  }

  /** A dict that agrees with `c` off `ws` and holds every key of `ws` has exactly the keys of `c` and `ws`. */
  lemma KeysOfUpdate(c: Context, d: Context, ws: set<Key>)
    requires Updates(c, d, ws)
    ensures forall k :: Has(d, k) <==> Has(c, k) || k in ws
    ensures forall k :: k !in ws ==> Agrees(c, d, k)
  {
    forall k ensures Has(d, k) <==> Has(c, k) || k in ws {
      if k in ws {
        assert Has(d, k);
      } else {
        assert Agrees(c, d, k);
      }
    }
  }

  /** The tasks that append to `files`, and the name of what they append inside the working directory. */
  function Appended(t: TaskName): Option<string> {
    match t
    case CreateOdooManifestTask => Some(Tools.DEFAULT_MANIFEST_FILENAME)
    case DumpDbTask => Some(Tools.DEFAULT_DUMP_FILENAME)
    case AddFilestoreTask => Some("filestore")
    case _ => None
  }

  /**
   * `files` only grows at its end: `create_odoo_manifest`, `dump_db` and `add_filestore`
   * each append one path inside the working directory, and no other task changes the list.
   */
  lemma FilesAppendOnly(t: TaskName, h: Tools.Host, c: Context, env: Env)
    requires Apply(t, h, c, env).out.Ok?
    ensures var d := Apply(t, h, c, env).out.value;
      Appended(t).None? ==> FilesOf(d) == FilesOf(c)
    ensures var d := Apply(t, h, c, env).out.value;
      Appended(t).Some? ==> c.workdir.Some? && FilesOf(d) == FilesOf(c) + [Join(c.workdir.value, Appended(t).value)]
  {
    match t
    case CreateOdooManifestTask =>
    case DumpDbTask =>
    case AddFilestoreTask =>
    case _ => TaskWrites(t, h, c, env);
  }

  // ---------------------------------------------------------------------------------------
  // Properties of single tasks

  /** A uuid as `str(uuid4())` prints it: not empty and free of separators. */
  predicate UuidShaped(u: string) {
    u != [] && forall i :: 0 <= i < |u| ==> u[i] != '/'
  }

  /** Joining a name that does not start with a separator onto a directory that does not end with one puts one separator between them. */
  lemma JoinPlain(a: Path, b: Path)
    requires a != [] && a[|a| - 1] != '/' && (b == [] || b[0] != '/')
    ensures Join(a, b) == a + "/" + b
  {
    assert !EndsWith(a, "/") by {
      assert a[|a| - 1..] != "/";
    }
    if b != [] {
      assert !StartsWith(b, "/") by {
        assert b[..1] != "/";
      }
    }
  }

  /**
   * `create_env` sets `workdir` to OUTPUT_DIR/<uuid>, `filename` to `<db_name>_<stamp>` and
   * `zipfile` to `<workdir>/<filename>`, and leaves every other key of the dict, `db_name`
   * included, as it was.
   */
  lemma CreateEnvKeys(h: Tools.Host, c: Context, env: Env)
    requires CreateEnv(h, c, env).out.Ok?
    requires UuidShaped(env.uuid)
    ensures var d := CreateEnv(h, c, env).out.value;
      d == c.(workdir := d.workdir, filename := d.filename, zipfile := d.zipfile)
    ensures var d := CreateEnv(h, c, env).out.value;
      d.workdir == Some(Tools.OUTPUT_DIR + "/" + env.uuid) &&
      d.filename == Some(Text(c.dbName) + "_" + FormatStamp(env.now))
    ensures var d := CreateEnv(h, c, env).out.value;
      (Text(c.dbName) == [] || Text(c.dbName)[0] != '/') ==>
        d.zipfile == Some(Tools.OUTPUT_DIR + "/" + env.uuid + "/" + d.filename.value)
  {
    var w := Workdir(env.uuid);
    var f := GenerateFilename(Text(c.dbName), env.now);
    JoinPlain(Tools.OUTPUT_DIR, env.uuid);
    assert w == Tools.OUTPUT_DIR + "/" + env.uuid;
    assert w[|w| - 1] == env.uuid[|env.uuid| - 1];
    if Text(c.dbName) == [] || Text(c.dbName)[0] != '/' {
      assert f == [] || f[0] != '/' by {
        if Text(c.dbName) == [] {
          assert f[0] == '_';
        } else {
          assert f[0] == Text(c.dbName)[0];
        }
      }
      JoinPlain(w, f);
    }
  }

  /**
   * `create_env` depends on OUTPUT_DIR being there: when it is missing, `os.mkdir` of the
   * new working directory raises FileNotFoundError and nothing changes.
   */
  lemma CreateEnvNeedsOutputDir(h: Tools.Host, c: Context, env: Env)
    requires UuidShaped(env.uuid)
    requires !Exists(h.fs, Tools.OUTPUT_DIR) && !Lexists(h.fs, Workdir(env.uuid))
    ensures CreateEnv(h, c, env) == Tools.Effect(h, Err(FileNotFoundError(Workdir(env.uuid))))
  {
    var w := Workdir(env.uuid);
    JoinPlain(Tools.OUTPUT_DIR, env.uuid);
    RFindAfter(Tools.OUTPUT_DIR, '/', env.uuid);
    assert w == Tools.OUTPUT_DIR + "/" + env.uuid;
    assert w[|Tools.OUTPUT_DIR| - 1] == 't';
    DirnameOfNested(w);
    assert Dirname(w) == Tools.OUTPUT_DIR;
    assert !AllSlashes(Tools.OUTPUT_DIR) by { assert Tools.OUTPUT_DIR[1] != '/'; }
  }

  /**
   * `add_to_zip` records under `download` the very path of the archive it recorded under
   * `zip`: the `zipfile` name with `.zip` appended when it lacked it.
   */
  lemma AddToZipDownload(h: Tools.Host, c: Context, env: Env)
    requires AddToZip(h, c, env).out.Ok?
    ensures var d := AddToZip(h, c, env).out.value;
      c.zipfile.Some? && d.zip.Some? && d.download == Some(d.zip.value.path) &&
      d.zip.value.path == ZipName(c.zipfile.value) && EndsWith(d.zip.value.path, ".zip")
    ensures var d := AddToZip(h, c, env).out.value;
      EndsWith(c.zipfile.value, ".zip") ==> d.download == c.zipfile
  {
  }

  /**
   * `init_restore` looks at the filestore directory before the archive: an existing
   * filestore is refused with FileExistsError whether or not the archive is there; the task
   * returns exactly when the filestore directory is absent and the archive is a file.
   */
  lemma InitRestoreOrder(h: Tools.Host, c: Context, env: Env)
    ensures c.dbName.None? ==> InitRestore(h, c, env).out == Err(TypeError)
    ensures c.dbName.Some? && IsDir(h.fs, Join(FILESTORE_PATH, c.dbName.value)) ==>
      InitRestore(h, c, env).out == Err(FileExistsError(Join(FILESTORE_PATH, c.dbName.value)))
    ensures InitRestore(h, c, env).out.Ok? <==>
      c.dbName.Some? && !IsDir(h.fs, Join(FILESTORE_PATH, c.dbName.value)) &&
      c.filename.Some? && IsFile(h.fs, Join(Tools.INPUT_DIR, c.filename.value))
  {
  }

  /**
   * `unzip_dump` raises "No dump file found" exactly when the archive opens but holds no
   * `dump.sql`; when it returns, `dump` describes the member extracted into the temporary
   * directory.
   */
  lemma UnzipDumpSpec(h: Tools.Host, c: Context, env: Env)
    requires c.zipfile.Some?
    ensures var fs1 := h.fs.(dirs := h.fs.dirs + {env.tmp});
      var archive := Tools.OpenZip(fs1, c.zipfile.value);
      var e := UnzipDump(h, c, env);
      (e.out == Err(ValueError("No dump file found")) <==>
        archive.Ok? && Tools.FindMember(archive.value, Tools.DEFAULT_DUMP_FILENAME).None?) &&
      (e.out.Ok? <==> archive.Ok? && Tools.FindMember(archive.value, Tools.DEFAULT_DUMP_FILENAME).Some?) &&
      (e.out.Ok? ==>
        var m := Tools.FindMember(archive.value, Tools.DEFAULT_DUMP_FILENAME).value;
        e.out.value.dump == Some(Tools.FileInfo(Join(env.tmp, Tools.DEFAULT_DUMP_FILENAME), m.size)))
  {
    var fs1 := h.fs.(dirs := h.fs.dirs + {env.tmp});
    var z := c.zipfile.value;
    if Tools.OpenZip(fs1, z).Ok? {
      assert Exists(h.fs, z);
      Tools.ExtractOne(fs1, Tools.OpenZip(fs1, z).value, Tools.DEFAULT_DUMP_FILENAME, env.tmp);
    }
  }

  /**
   * The `clean_workdir` task removes, when `files` is set and no listed path is a
   * directory, every listed path and nothing else; when `files` is unset it removes the
   * working directory with everything below it (unless it is a link).
   */
  lemma CleanWorkdirRemoves(h: Tools.Host, c: Context, env: Env)
    requires c.workdir.Some? && IsDir(h.fs, c.workdir.value)
    ensures var fs := CleanWorkdir(h, c, env).host.fs;
      FilesOf(c) != [] ==>
        (forall q :: q !in FilesOf(c) ==> (Lexists(fs, q) <==> Lexists(h.fs, q))) &&
        ((forall f :: f in FilesOf(c) ==> f !in h.fs.dirs) ==> forall f :: f in FilesOf(c) ==> !Exists(fs, f))
    ensures var fs := CleanWorkdir(h, c, env).host.fs;
      FilesOf(c) == [] && c.workdir.value !in h.fs.links ==> fs == Prune(h.fs, c.workdir.value)
  {
    if FilesOf(c) != [] {
      Tools.RemoveListedSpec(h.fs, FilesOf(c));
    }
  }

  /**
   * The members `add_filestore` archives are named `filestore/...`: the link sits directly
   * in the working directory, so stripping the link's parent leaves its own name in front.
   * Whatever the archive held before, `unzip_filestore` later selects every one of them.
   */
  lemma FilestoreMembersSelected(w: Path, walk: seq<Tools.WalkEntry>, before: seq<Member>)
    requires w != [] && w[|w| - 1] != '/'
    requires forall i :: 0 <= i < |walk| ==> Tools.WalkedUnder(walk[i], Join(w, "filestore"))
    ensures var added := Tools.FolderMembers(walk, Tools.LenPrefix(Join(w, "filestore")));
      forall m :: m in added ==> StartsWith(m.name, Tools.FILESTORE_PREFIX) && m in Tools.SelectFilestore(before + added)
  {
    var link := Join(w, "filestore");
    JoinPlain(w, "filestore");
    assert link == w + ['/'] + "filestore";
    RFindAfter(w, '/', "filestore");
    assert link[|w| - 1] == w[|w| - 1];
    assert Basename(link) == "filestore";
    assert link[|link| - 1] == 'e';
    Tools.FolderMembersUnderRoot(link, walk);
  }

  // ---------------------------------------------------------------------------------------
  // Completed chains

  /** In a chain that completes, each task gets what the tasks before it produced and returns. */
  lemma CompletedStep(tasks: seq<TaskName>, hook: bool, h: Tools.Host, c: Context, run: Runner, i: nat)
    requires i < |tasks| && RunChain(tasks, hook, h, c, run).Completed?
    ensures var before := RunChain(tasks[..i], hook, h, c, run);
      var after := RunChain(tasks[..i + 1], hook, h, c, run);
      before.Completed? && after.Completed? &&
      run(tasks[i], before.host, before.result) == Tools.Effect(after.host, Ok(after.result))
  {
    assert tasks[..i + 1] + tasks[i + 1..] == tasks;
    RunChainAppend(tasks[..i + 1], tasks[i + 1..], hook, h, c, run);
    assert tasks[..i + 1][..i] == tasks[..i];
    CompletedRun(tasks[..i + 1], hook, h, c, run);
  }

  /** Running `t` through `run` leaves key `k` as it was unless `t` assigns it. */
  predicate KeepStep(run: Runner, t: TaskName, h: Tools.Host, c: Context, k: Key) {
    run(t, h, c).out.Ok? && k !in Writes(t) ==> Agrees(c, run(t, h, c).out.value, k)
  }

  /** Every registered task leaves alone the keys it does not assign. */
  lemma RegistryKeepStep(env: Env)
    ensures forall t, h, c, k :: KeepStep(Registry(env), t, h, c, k)
  {
    forall t, h, c, k ensures KeepStep(Registry(env), t, h, c, k) {
      if Apply(t, h, c, env).out.Ok? {
        TaskWrites(t, h, c, env);
      }
    }
  }

  /** Along a completed chain of a runner whose steps satisfy `KeepStep`, a key no task assigns keeps its value. */
  lemma {:induction false} KeptAlongRun(tasks: seq<TaskName>, hook: bool, h: Tools.Host, c: Context, run: Runner, k: Key)
    requires forall t, h', c' :: KeepStep(run, t, h', c', k)
    requires forall j :: 0 <= j < |tasks| ==> k !in Writes(tasks[j])
    requires RunChain(tasks, hook, h, c, run).Completed?
    ensures Agrees(c, RunChain(tasks, hook, h, c, run).result, k)
    decreases |tasks|
  {
    if tasks != [] {
      var e := run(tasks[0], h, c);
      assert KeepStep(run, tasks[0], h, c, k);
      KeptAlongRun(tasks[1..], hook, e.host, e.out.value, run, k);
      AgreesTrans(c, e.out.value, RunChain(tasks, hook, h, c, run).result, k);
    }
  }

  /** A key no task of the chain assigns keeps, all along a completed chain, the value it started with. */
  lemma KeptAlongChain(tasks: seq<TaskName>, hook: bool, h: Tools.Host, c: Context, env: Env, k: Key)
    requires forall j :: 0 <= j < |tasks| ==> k !in Writes(tasks[j])
    requires RunChain(tasks, hook, h, c, Registry(env)).Completed?
    ensures Agrees(c, RunChain(tasks, hook, h, c, Registry(env)).result, k)
  {
    RegistryKeepStep(env);
    KeptAlongRun(tasks, hook, h, c, Registry(env), k);
  }

  /**
   * What `create_env` does as seen through `run`: the working directory is OUTPUT_DIR/<uuid>
   * and `files` and `db_name` are left alone; a failure changes nothing and is the error
   * `os.mkdir` raises for that directory.
   */
  predicate EnvStep(run: Runner, h: Tools.Host, c: Context, uuid: string) {
    var e := run(CreateEnvTask, h, c);
    (e.out.Ok? ==> e.out.value.workdir == Some(Workdir(uuid)) && e.out.value.files == c.files) &&
    (e.out.Err? ==> e.host == h && Some(e.out.error) == CreateError(h.fs, Workdir(uuid)))
  }

  lemma RegistryEnvStep(env: Env)
    ensures forall h, c :: EnvStep(Registry(env), h, c, env.uuid)
  {
    forall h, c ensures EnvStep(Registry(env), h, c, env.uuid) {
      assert Registry(env)(CreateEnvTask, h, c) == CreateEnv(h, c, env);
    }
  }

  /** What `add_to_zip` does as seen through `run`: `download` is the archive path, `zipfile` with `.zip` ensured. */
  predicate ZipStep(run: Runner, h: Tools.Host, c: Context) {
    var e := run(AddToZipTask, h, c);
    e.out.Ok? ==>
      c.zipfile.Some? && e.out.value.zipfile == c.zipfile && e.out.value.zip.Some? &&
      e.out.value.download == Some(ZipName(c.zipfile.value)) && e.out.value.download.value == e.out.value.zip.value.path
  }

  lemma RegistryZipStep(env: Env)
    ensures forall h, c :: ZipStep(Registry(env), h, c)
  {
    forall h, c ensures ZipStep(Registry(env), h, c) {
      if AddToZip(h, c, env).out.Ok? {
        AddToZipDownload(h, c, env);
      }
    }
  }

  /** What `init_restore` does as seen through `run`: the filestore directory and the archive path are recorded. */
  predicate InitStep(run: Runner, h: Tools.Host, c: Context) {
    var e := run(InitRestoreTask, h, c);
    e.out.Ok? ==>
      c.dbName.Some? && c.filename.Some? &&
      e.out.value == c.(filestore := Some(Join(FILESTORE_PATH, c.dbName.value)), zipfile := Some(Join(Tools.INPUT_DIR, c.filename.value)))
  }

  lemma RegistryInitStep(env: Env)
    ensures forall h, c :: InitStep(Registry(env), h, c)
  {
    forall h, c ensures InitStep(Registry(env), h, c) {
      assert Registry(env)(InitRestoreTask, h, c) == InitRestore(h, c, env);
    }
  }

  /** `unzip_filestore`, as seen through `run`, records the extracted filestore under `zip`. */
  predicate FilestoreStep(run: Runner, h: Tools.Host, c: Context) {
    run(UnzipFilestoreTask, h, c).out.Ok? ==> run(UnzipFilestoreTask, h, c).out.value.zip.Some?
  }

  lemma RegistryFilestoreStep(env: Env)
    ensures forall h, c :: FilestoreStep(Registry(env), h, c)
  {
    forall h, c ensures FilestoreStep(Registry(env), h, c) {
      assert Registry(env)(UnzipFilestoreTask, h, c) == UnzipFilestore(h, c, env);
    }
  }

  lemma AgreesTrans(c: Context, d: Context, f: Context, k: Key)
    requires Agrees(c, d, k) && Agrees(d, f, k)
    ensures Agrees(c, f, k)
  {
  }

  /** The path task `t` appends to `files`, `w` being the working directory. */
  function StepPaths(w: Path, t: TaskName): seq<Path> {
    if Appended(t).Some? then [Join(w, Appended(t).value)] else []
  }

  /** The paths `tasks` append to `files` one after the other, `w` being the working directory. */
  function AppendedPaths(w: Path, tasks: seq<TaskName>): seq<Path> {
    if tasks == [] then [] else StepPaths(w, tasks[0]) + AppendedPaths(w, tasks[1..])
  }

  /** Running `t` through `run` keeps the working directory and appends `StepPaths` to `files`. */
  predicate FilesStep(run: Runner, t: TaskName, h: Tools.Host, c: Context) {
    t != CreateEnvTask && c.workdir.Some? && run(t, h, c).out.Ok? ==>
      run(t, h, c).out.value.workdir == c.workdir &&
      FilesOf(run(t, h, c).out.value) == FilesOf(c) + StepPaths(c.workdir.value, t)
  }

  /** Every task the worker registers grows `files` as `FilesStep` says. */
  lemma RegistryFilesStep(env: Env)
    ensures forall t, h, c :: FilesStep(Registry(env), t, h, c)
  {
    forall t, h, c ensures FilesStep(Registry(env), t, h, c) {
      if t != CreateEnvTask && c.workdir.Some? && Apply(t, h, c, env).out.Ok? {
        TaskWrites(t, h, c, env);
        assert Agrees(c, Apply(t, h, c, env).out.value, WorkdirKey);
        FilesAppendOnly(t, h, c, env);
      }
    }
  }

  lemma AppendAssoc(a: seq<Path>, b: seq<Path>, c: seq<Path>)
    ensures (a + b) + c == a + (b + c)
  {
  }

  /** Along a completed chain, a runner whose every step satisfies `FilesStep` appends `AppendedPaths`. */
  lemma {:induction false} FilesAlongRun(tasks: seq<TaskName>, hook: bool, h: Tools.Host, c: Context, run: Runner)
    requires forall t, h', c' :: FilesStep(run, t, h', c')
    requires forall j :: 0 <= j < |tasks| ==> tasks[j] != CreateEnvTask
    requires c.workdir.Some?
    requires RunChain(tasks, hook, h, c, run).Completed?
    ensures var d := RunChain(tasks, hook, h, c, run).result;
      d.workdir == c.workdir && FilesOf(d) == FilesOf(c) + AppendedPaths(c.workdir.value, tasks)
    decreases |tasks|
  {
    if tasks != [] {
      var t := tasks[0];
      var e := run(t, h, c);
      assert FilesStep(run, t, h, c);
      var w := c.workdir.value;
      FilesAlongRun(tasks[1..], hook, e.host, e.out.value, run);
      AppendAssoc(FilesOf(c), StepPaths(w, t), AppendedPaths(w, tasks[1..]));
    }
  }

  /**
   * Along a completed chain that does not create a new environment, `files` grows by
   * exactly the paths its tasks append, in task order, all inside the same working directory.
   */
  lemma FilesAlongChain(tasks: seq<TaskName>, hook: bool, h: Tools.Host, c: Context, env: Env)
    requires forall j :: 0 <= j < |tasks| ==> tasks[j] != CreateEnvTask
    requires c.workdir.Some?
    requires RunChain(tasks, hook, h, c, Registry(env)).Completed?
    ensures var d := RunChain(tasks, hook, h, c, Registry(env)).result;
      d.workdir == c.workdir && FilesOf(d) == FilesOf(c) + AppendedPaths(c.workdir.value, tasks)
  {
    RegistryFilesStep(env);
    FilesAlongRun(tasks, hook, h, c, Registry(env));
  }
}
