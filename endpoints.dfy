/**
 * The HTTP side (`app/api/v1/endpoints/odoo.py` and `tasks.py`): the two chains the API
 * launches and the dicts they start from, the ids a launch replies with, the download
 * endpoint's choice of response and the status record of a task. A launched chain is
 * described by the records Celery keeps for it, one per task, each naming the task
 * before it as its parent.
 */
module Endpoints {
  import opened Outcomes
  import opened PathNames
  import opened FileSystem
  import Tools
  import Pipeline
  import ResultTree

  // ---------------------------------------------------------------------------------------
  // The chains

  /** `POST /dump`: create the environment, write the manifest, dump, archive, add the filestore, tidy up. */
  const BACKUP: seq<Pipeline.TaskName> := [
    Pipeline.CreateEnvTask, Pipeline.CreateOdooManifestTask, Pipeline.DumpDbTask,
    Pipeline.AddToZipTask, Pipeline.AddFilestoreTask, Pipeline.CleanWorkdirTask]

  /** The backup chain carries `error_handler` as its error hook. */
  const BACKUP_HOOK: bool := true

  /** `POST /restore`: check the inputs, extract the dump, create the database, replay the dump, restore the filestore. */
  const RESTORE: seq<Pipeline.TaskName> := [
    Pipeline.InitRestoreTask, Pipeline.UnzipDumpTask, Pipeline.CreateDatabaseTask,
    Pipeline.RestoreDumpTask, Pipeline.UnzipFilestoreTask]

  /** The restore chain has no error hook. */
  const RESTORE_HOOK: bool := false

  /** The JSON body of a launch request; an absent key is `None`. */
  datatype Payload = Payload(name: Option<string>, filename: Option<string>, filestore: Option<string>, dump: Option<string>)

  /**
   * The dict the backup chain starts from: only `db_name`, read with `payload["name"]`. The
   * `filestore` and `dump` options are read (with their defaults) and then not used.
   */
  function BackupInput(p: Payload): (r: Result<Pipeline.Context>)
    ensures r.Ok? <==> p.name.Some?
    ensures r.Err? ==> r.error == KeyError("name")
    ensures r.Ok? ==> r.value == Pipeline.EmptyContext.(dbName := p.name)
  {
    if p.name.None? then Err(KeyError("name"))
    else Ok(Pipeline.EmptyContext.(dbName := p.name))
  }

  /** Two requests that name the same database start the same backup, whatever else they ask for. */
  lemma BackupIgnoresOptions(p: Payload, q: Payload)
    requires p.name == q.name
    ensures BackupInput(p) == BackupInput(q)
  {
  }

  /** The dict the restore chain starts from: `db_name` and `filename`, read with `[]` in that order. */
  function RestoreInput(p: Payload): (r: Result<Pipeline.Context>)
    ensures r.Ok? <==> p.name.Some? && p.filename.Some?
    ensures p.name.None? ==> r == Err(KeyError("name"))
    ensures p.name.Some? && p.filename.None? ==> r == Err(KeyError("filename"))
    ensures r.Ok? ==> r.value == Pipeline.EmptyContext.(dbName := p.name, filename := p.filename)
  {
    if p.name.None? then Err(KeyError("name"))
    else if p.filename.None? then Err(KeyError("filename"))
    else Ok(Pipeline.EmptyContext.(dbName := p.name, filename := p.filename))
  }

  // ---------------------------------------------------------------------------------------
  // What the chains do

  /** `tasks` lists, position by position, the tasks of the backup chain. */
  predicate BackupShaped(tasks: seq<Pipeline.TaskName>) {
    |tasks| == 6 &&
    tasks[0] == Pipeline.CreateEnvTask && tasks[1] == Pipeline.CreateOdooManifestTask &&
    tasks[2] == Pipeline.DumpDbTask && tasks[3] == Pipeline.AddToZipTask &&
    tasks[4] == Pipeline.AddFilestoreTask && tasks[5] == Pipeline.CleanWorkdirTask
  }

  /** `tasks` lists, position by position, the tasks of the restore chain. */
  predicate RestoreShaped(tasks: seq<Pipeline.TaskName>) {
    |tasks| == 5 &&
    tasks[0] == Pipeline.InitRestoreTask && tasks[1] == Pipeline.UnzipDumpTask &&
    tasks[2] == Pipeline.CreateDatabaseTask && tasks[3] == Pipeline.RestoreDumpTask &&
    tasks[4] == Pipeline.UnzipFilestoreTask
  }

  lemma ChainsShaped()
    ensures BackupShaped(BACKUP) && RestoreShaped(RESTORE)
  {
  }

  /** The paths the backup tasks after `create_env` append to `files`, in working directory `w`. */
  lemma BackupPaths(w: Path, tasks: seq<Pipeline.TaskName>)
    requires BackupShaped(tasks)
    ensures Pipeline.AppendedPaths(w, tasks[1..]) ==
      [Join(w, Tools.DEFAULT_MANIFEST_FILENAME), Join(w, Tools.DEFAULT_DUMP_FILENAME), Join(w, "filestore")]
  {
    assert Pipeline.AppendedPaths(w, tasks[5..]) == [] by {
      assert tasks[5..][1..] == [];
    }
    assert Pipeline.AppendedPaths(w, tasks[4..]) == [Join(w, "filestore")] by {
      assert tasks[4..][0] == Pipeline.AddFilestoreTask && tasks[4..][1..] == tasks[5..];
    }
    assert Pipeline.AppendedPaths(w, tasks[3..]) == [Join(w, "filestore")] by {
      assert tasks[3..][0] == Pipeline.AddToZipTask && tasks[3..][1..] == tasks[4..];
    }
    assert Pipeline.AppendedPaths(w, tasks[2..]) == [Join(w, Tools.DEFAULT_DUMP_FILENAME), Join(w, "filestore")] by {
      assert tasks[2..][0] == Pipeline.DumpDbTask && tasks[2..][1..] == tasks[3..];
    }
    assert tasks[1..][0] == Pipeline.CreateOdooManifestTask && tasks[1..][1..] == tasks[2..];
  }

  /** The backup chain run by any runner whose tasks behave as `FilesStep` and `EnvStep` say: the files it lists. */
  lemma BackupFilesRun(tasks: seq<Pipeline.TaskName>, hook: bool, h: Tools.Host, c: Pipeline.Context, run: Pipeline.Runner, uuid: string)
    requires BackupShaped(tasks)
    requires forall t, h', c' :: Pipeline.FilesStep(run, t, h', c')
    requires forall h', c' :: Pipeline.EnvStep(run, h', c', uuid)
    requires c.files.None?
    requires Pipeline.RunChain(tasks, hook, h, c, run).Completed?
    ensures var d := Pipeline.RunChain(tasks, hook, h, c, run).result;
      var w := Pipeline.Workdir(uuid);
      d.workdir == Some(w) &&
      Pipeline.FilesOf(d) == [Join(w, Tools.DEFAULT_MANIFEST_FILENAME), Join(w, Tools.DEFAULT_DUMP_FILENAME), Join(w, "filestore")]
  {
    var rest := tasks[1..];
    var e := run(Pipeline.CreateEnvTask, h, c);
    assert e.out.Ok? && Pipeline.RunChain(tasks, hook, h, c, run) == Pipeline.RunChain(rest, hook, e.host, e.out.value, run);
    assert Pipeline.EnvStep(run, h, c, uuid);
    BackupRestNotEnv(tasks);
    Pipeline.FilesAlongRun(rest, hook, e.host, e.out.value, run);
    BackupPaths(Pipeline.Workdir(uuid), tasks);
  }

  /** `create_env` runs only first in the backup chain. */
  lemma BackupRestNotEnv(tasks: seq<Pipeline.TaskName>)
    requires BackupShaped(tasks)
    ensures forall j :: 0 <= j < |tasks[1..]| ==> tasks[1..][j] != Pipeline.CreateEnvTask
  {
    forall j | 0 <= j < |tasks[1..]| ensures tasks[1..][j] != Pipeline.CreateEnvTask {
      assert tasks[1..][j] == tasks[j + 1];
    }
  }

  /** The first four backup tasks, run by a runner whose `add_to_zip` behaves as `ZipStep` says, record the archive. */
  lemma BackupArchiveRun(tasks: seq<Pipeline.TaskName>, hook: bool, h: Tools.Host, c: Pipeline.Context, run: Pipeline.Runner)
    requires BackupShaped(tasks)
    requires forall h', c' :: Pipeline.ZipStep(run, h', c')
    requires Pipeline.RunChain(tasks, hook, h, c, run).Completed?
    ensures var d := Pipeline.RunChain(tasks[..4], hook, h, c, run);
      d.Completed? && d.result.zipfile.Some? && d.result.zip.Some? &&
      d.result.download == Some(ZipName(d.result.zipfile.value)) && d.result.download.value == d.result.zip.value.path
  {
    Pipeline.CompletedStep(tasks, hook, h, c, run, 3);
    var before := Pipeline.RunChain(tasks[..3], hook, h, c, run);
    assert Pipeline.ZipStep(run, before.host, before.result);
  }

  /** The backup tasks after `add_to_zip` assign none of `download`, `zipfile` and `zip`. */
  lemma BackupArchiveKept(tasks: seq<Pipeline.TaskName>, hook: bool, h: Tools.Host, c: Pipeline.Context, run: Pipeline.Runner)
    requires BackupShaped(tasks)
    requires forall t, h', c', k :: Pipeline.KeepStep(run, t, h', c', k)
    requires Pipeline.RunChain(tasks, hook, h, c, run).Completed?
    ensures var a := Pipeline.RunChain(tasks[..4], hook, h, c, run);
      var d := Pipeline.RunChain(tasks, hook, h, c, run).result;
      a.Completed? && d.download == a.result.download && d.zipfile == a.result.zipfile && d.zip == a.result.zip
  {
    var after := Pipeline.RunChain(tasks[..4], hook, h, c, run);
    assert tasks[..4] + tasks[4..] == tasks;
    Pipeline.RunChainAppend(tasks[..4], tasks[4..], hook, h, c, run);
    var tail := tasks[4..];
    assert tail[0] == Pipeline.AddFilestoreTask && tail[1] == Pipeline.CleanWorkdirTask;
    Pipeline.KeptAlongRun(tail, hook, after.host, after.result, run, Pipeline.DownloadKey);
    Pipeline.KeptAlongRun(tail, hook, after.host, after.result, run, Pipeline.ZipfileKey);
    Pipeline.KeptAlongRun(tail, hook, after.host, after.result, run, Pipeline.ZipKey);
  }

  /** The backup chain run by any runner whose tasks behave as `ZipStep` and `KeepStep` say: its download. */
  lemma BackupDownloadRun(tasks: seq<Pipeline.TaskName>, hook: bool, h: Tools.Host, c: Pipeline.Context, run: Pipeline.Runner)
    requires BackupShaped(tasks)
    requires forall h', c' :: Pipeline.ZipStep(run, h', c')
    requires forall t, h', c', k :: Pipeline.KeepStep(run, t, h', c', k)
    requires Pipeline.RunChain(tasks, hook, h, c, run).Completed?
    ensures var d := Pipeline.RunChain(tasks, hook, h, c, run).result;
      d.zipfile.Some? && d.zip.Some? && d.download == Some(ZipName(d.zipfile.value)) && d.download.value == d.zip.value.path
  {
    BackupArchiveRun(tasks, hook, h, c, run);
    BackupArchiveKept(tasks, hook, h, c, run);
  }

  /** No task assigns `db_name`: every chain carries the database name it started with. */
  lemma NameKept(tasks: seq<Pipeline.TaskName>, hook: bool, h: Tools.Host, c: Pipeline.Context, run: Pipeline.Runner)
    requires forall t, h', c', k :: Pipeline.KeepStep(run, t, h', c', k)
    requires Pipeline.RunChain(tasks, hook, h, c, run).Completed?
    ensures Pipeline.RunChain(tasks, hook, h, c, run).result.dbName == c.dbName
  {
    forall j | 0 <= j < |tasks| ensures Pipeline.DbNameKey !in Pipeline.Writes(tasks[j]) {
    }
    Pipeline.KeptAlongRun(tasks, hook, h, c, run, Pipeline.DbNameKey);
  }

  /** Two strings that end with suffixes whose last characters differ are different. */
  lemma SuffixesDiffer(x: string, sx: string, y: string, sy: string)
    requires sx != [] && EndsWith(x, sx) && sy != [] && EndsWith(y, sy)
    requires sx[|sx| - 1] != sy[|sy| - 1]
    ensures x != y
  {
    assert x[|x| - |sx|..][|sx| - 1] == x[|x| - 1];
    assert y[|y| - |sy|..][|sy| - 1] == y[|y| - 1];
  }

  /**
   * Whatever the working directory, the archive path is none of the listed files: it ends
   * in `.zip`, and they end in `manifest.json`, `dump.sql` and `filestore`.
   */
  lemma ArchiveNotListed(w: Path, z: Path)
    requires EndsWith(z, ".zip")
    ensures z !in [Join(w, Tools.DEFAULT_MANIFEST_FILENAME), Join(w, Tools.DEFAULT_DUMP_FILENAME), Join(w, "filestore")]
  {
    var m, d, f := Join(w, Tools.DEFAULT_MANIFEST_FILENAME), Join(w, Tools.DEFAULT_DUMP_FILENAME), Join(w, "filestore");
    SuffixesDiffer(z, ".zip", m, Tools.DEFAULT_MANIFEST_FILENAME);
    SuffixesDiffer(z, ".zip", d, Tools.DEFAULT_DUMP_FILENAME);
    SuffixesDiffer(z, ".zip", f, "filestore");
  }

  /** A completed backup, for any runner whose tasks behave as the step predicates say. */
  lemma BackupCompletedRun(tasks: seq<Pipeline.TaskName>, hook: bool, h: Tools.Host, c: Pipeline.Context, run: Pipeline.Runner, uuid: string)
    requires BackupShaped(tasks)
    requires forall t, h', c' :: Pipeline.FilesStep(run, t, h', c')
    requires forall h', c' :: Pipeline.EnvStep(run, h', c', uuid)
    requires forall h', c' :: Pipeline.ZipStep(run, h', c')
    requires forall t, h', c', k :: Pipeline.KeepStep(run, t, h', c', k)
    requires c.files.None?
    requires Pipeline.RunChain(tasks, hook, h, c, run).Completed?
    ensures var d := Pipeline.RunChain(tasks, hook, h, c, run).result;
      var w := Pipeline.Workdir(uuid);
      d.workdir == Some(w) && d.dbName == c.dbName &&
      Pipeline.FilesOf(d) == [Join(w, Tools.DEFAULT_MANIFEST_FILENAME), Join(w, Tools.DEFAULT_DUMP_FILENAME), Join(w, "filestore")] &&
      d.zipfile.Some? && d.download == Some(ZipName(d.zipfile.value)) && d.download.value !in Pipeline.FilesOf(d)
  {
    BackupFilesRun(tasks, hook, h, c, run, uuid);
    BackupDownloadRun(tasks, hook, h, c, run);
    NameKept(tasks, hook, h, c, run);
    var d := Pipeline.RunChain(tasks, hook, h, c, run).result;
    ArchiveNotListed(Pipeline.Workdir(uuid), d.download.value);
  }

  /**
   * A backup started from a payload that runs to the end: `files` lists the manifest, the
   * dump and the filestore link in the job's working directory, the download is the
   * archive, and the archive is not in `files`, so the final `clean_workdir` (which
   * removes only listed paths) leaves it in place.
   */
  lemma BackupCompleted(h: Tools.Host, p: Payload, env: Pipeline.Env)
    requires BackupInput(p).Ok?
    requires Pipeline.RunChain(BACKUP, BACKUP_HOOK, h, BackupInput(p).value, Pipeline.Registry(env)).Completed?
    ensures var d := Pipeline.RunChain(BACKUP, BACKUP_HOOK, h, BackupInput(p).value, Pipeline.Registry(env)).result;
      var w := Pipeline.Workdir(env.uuid);
      d.workdir == Some(w) && d.dbName == p.name &&
      Pipeline.FilesOf(d) == [Join(w, Tools.DEFAULT_MANIFEST_FILENAME), Join(w, Tools.DEFAULT_DUMP_FILENAME), Join(w, "filestore")] &&
      d.zipfile.Some? && d.download == Some(ZipName(d.zipfile.value)) && d.download.value !in Pipeline.FilesOf(d)
  {
    ChainsShaped();
    Pipeline.RegistryFilesStep(env);
    Pipeline.RegistryEnvStep(env);
    Pipeline.RegistryZipStep(env);
    Pipeline.RegistryKeepStep(env);
    BackupCompletedRun(BACKUP, BACKUP_HOOK, h, BackupInput(p).value, Pipeline.Registry(env), env.uuid);
  }

  /** A failed backup, for any runner whose tasks behave as `EnvStep` and `KeepStep` say. */
  lemma BackupFailureRun(tasks: seq<Pipeline.TaskName>, h: Tools.Host, c: Pipeline.Context, run: Pipeline.Runner, uuid: string)
    requires BackupShaped(tasks)
    requires forall h', c' :: Pipeline.EnvStep(run, h', c', uuid)
    requires forall t, h', c', k :: Pipeline.KeepStep(run, t, h', c', k)
    requires c.workdir.None?
    requires Pipeline.RunChain(tasks, true, h, c, run).Failed?
    ensures var r := Pipeline.RunChain(tasks, true, h, c, run);
      r.at == 0 ==> r.host == h && Some(r.error) == CreateError(h.fs, Pipeline.Workdir(uuid))
    ensures var r := Pipeline.RunChain(tasks, true, h, c, run);
      r.at > 0 ==> r.input.workdir == Some(Pipeline.Workdir(uuid))
  {
    var r := Pipeline.RunChain(tasks, true, h, c, run);
    Pipeline.FailedRun(tasks, true, h, c, run);
    if r.at == 0 {
      assert tasks[..0] == [];
      assert Pipeline.EnvStep(run, h, c, uuid);
    } else {
      BackupWorkdirKept(tasks, h, c, run, uuid, r.at);
    }
  }

  /** No backup task after `create_env` assigns `workdir`. */
  lemma BackupLaterWrites(tasks: seq<Pipeline.TaskName>)
    requires BackupShaped(tasks)
    ensures forall j :: 1 <= j < |tasks| ==> Pipeline.WorkdirKey !in Pipeline.Writes(tasks[j])
  {
  }

  /** Once `create_env` has run, every later backup task gets the job's working directory. */
  lemma BackupWorkdirKept(tasks: seq<Pipeline.TaskName>, h: Tools.Host, c: Pipeline.Context, run: Pipeline.Runner, uuid: string, n: nat)
    requires BackupShaped(tasks) && 0 < n <= |tasks|
    requires forall h', c' :: Pipeline.EnvStep(run, h', c', uuid)
    requires forall t, h', c', k :: Pipeline.KeepStep(run, t, h', c', k)
    requires Pipeline.RunChain(tasks[..n], true, h, c, run).Completed?
    ensures Pipeline.RunChain(tasks[..n], true, h, c, run).result.workdir == Some(Pipeline.Workdir(uuid))
  {
    var pre := tasks[..n];
    assert pre == [tasks[0]] + pre[1..];
    Pipeline.RunChainAppend([tasks[0]], pre[1..], true, h, c, run);
    var e := run(Pipeline.CreateEnvTask, h, c);
    assert Pipeline.EnvStep(run, h, c, uuid);
    assert [tasks[0]][1..] == [];
    BackupLaterWrites(tasks);
    forall j | 0 <= j < |pre[1..]| ensures Pipeline.WorkdirKey !in Pipeline.Writes(pre[1..][j]) {
      assert pre[1..][j] == tasks[j + 1];
    }
    Pipeline.KeptAlongRun(pre[1..], true, e.host, e.out.value, run, Pipeline.WorkdirKey);
  }

  /**
   * When a backup task fails, the error hook gets the failing task's input. If `create_env`
   * itself failed, nothing has changed and the hook finds no working directory; if a
   * later task failed, the hook finds the job's working directory, a non-empty path, and
   * removes it as `ErrorHandlerSpec` describes.
   */
  lemma BackupFailure(h: Tools.Host, p: Payload, env: Pipeline.Env)
    requires BackupInput(p).Ok?
    requires Pipeline.RunChain(BACKUP, BACKUP_HOOK, h, BackupInput(p).value, Pipeline.Registry(env)).Failed?
    ensures var r := Pipeline.RunChain(BACKUP, BACKUP_HOOK, h, BackupInput(p).value, Pipeline.Registry(env));
      r.at == 0 ==> r.host == h && Some(r.error) == CreateError(h.fs, Pipeline.Workdir(env.uuid))
    ensures var r := Pipeline.RunChain(BACKUP, BACKUP_HOOK, h, BackupInput(p).value, Pipeline.Registry(env));
      r.at > 0 ==> r.input.workdir == Some(Pipeline.Workdir(env.uuid)) && Pipeline.Truthy(r.input.workdir)
  {
    ChainsShaped();
    Pipeline.RegistryEnvStep(env);
    Pipeline.RegistryKeepStep(env);
    BackupFailureRun(BACKUP, h, BackupInput(p).value, Pipeline.Registry(env), env.uuid);
    var w := Pipeline.Workdir(env.uuid);
    assert w != [] by {
      if !StartsWith(env.uuid, "/") {
        assert StartsWith(w, Tools.OUTPUT_DIR);
      }
    }
  }

  /** The restore tasks after `init_restore` assign neither `filestore` nor `zipfile`. */
  lemma RestoreTailWrites(tasks: seq<Pipeline.TaskName>)
    requires RestoreShaped(tasks)
    ensures forall j :: 0 <= j < |tasks[1..]| ==>
      Pipeline.FilestoreKey !in Pipeline.Writes(tasks[1..][j]) && Pipeline.ZipfileKey !in Pipeline.Writes(tasks[1..][j])
  {
    forall j | 0 <= j < |tasks[1..]|
      ensures Pipeline.FilestoreKey !in Pipeline.Writes(tasks[1..][j]) && Pipeline.ZipfileKey !in Pipeline.Writes(tasks[1..][j])
    {
      assert tasks[1..][j] == tasks[j + 1];
    }
  }

  /** After `init_restore`, no restore task assigns `filestore` or `zipfile`: the values it derived reach the end. */
  lemma RestoreDerivedRun(tasks: seq<Pipeline.TaskName>, hook: bool, h: Tools.Host, c: Pipeline.Context, run: Pipeline.Runner)
    requires RestoreShaped(tasks)
    requires forall h', c' :: Pipeline.InitStep(run, h', c')
    requires forall t, h', c', k :: Pipeline.KeepStep(run, t, h', c', k)
    requires Pipeline.RunChain(tasks, hook, h, c, run).Completed?
    ensures var d := Pipeline.RunChain(tasks, hook, h, c, run).result;
      c.dbName.Some? && c.filename.Some? &&
      d.filestore == Some(Join(Pipeline.FILESTORE_PATH, c.dbName.value)) &&
      d.zipfile == Some(Join(Tools.INPUT_DIR, c.filename.value))
  {
    var tail := tasks[1..];
    assert tasks == [tasks[0]] + tail;
    Pipeline.RunChainAppend([tasks[0]], tail, hook, h, c, run);
    assert [tasks[0]][1..] == [];
    var e := run(Pipeline.InitRestoreTask, h, c);
    assert Pipeline.InitStep(run, h, c);
    RestoreTailWrites(tasks);
    Pipeline.KeptAlongRun(tail, hook, e.host, e.out.value, run, Pipeline.FilestoreKey);
    Pipeline.KeptAlongRun(tail, hook, e.host, e.out.value, run, Pipeline.ZipfileKey);
  }

  /** No restore task assigns `filename`, `workdir`, `files` or `download`. */
  lemma RestoreKeptRun(tasks: seq<Pipeline.TaskName>, hook: bool, h: Tools.Host, c: Pipeline.Context, run: Pipeline.Runner)
    requires RestoreShaped(tasks)
    requires forall t, h', c', k :: Pipeline.KeepStep(run, t, h', c', k)
    requires Pipeline.RunChain(tasks, hook, h, c, run).Completed?
    ensures var d := Pipeline.RunChain(tasks, hook, h, c, run).result;
      d.filename == c.filename && d.workdir == c.workdir && d.files == c.files && d.download == c.download
  {
    forall j, k | 0 <= j < |tasks| && k in {Pipeline.FilenameKey, Pipeline.WorkdirKey, Pipeline.FilesKey, Pipeline.DownloadKey}
      ensures k !in Pipeline.Writes(tasks[j])
    {
    }
    Pipeline.KeptAlongRun(tasks, hook, h, c, run, Pipeline.FilenameKey);
    Pipeline.KeptAlongRun(tasks, hook, h, c, run, Pipeline.WorkdirKey);
    Pipeline.KeptAlongRun(tasks, hook, h, c, run, Pipeline.FilesKey);
    Pipeline.KeptAlongRun(tasks, hook, h, c, run, Pipeline.DownloadKey);
  }

  /** A completed restore, for any runner whose tasks behave as `InitStep`, `FilestoreStep` and `KeepStep` say. */
  lemma RestoreCompletedRun(tasks: seq<Pipeline.TaskName>, hook: bool, h: Tools.Host, c: Pipeline.Context, run: Pipeline.Runner)
    requires RestoreShaped(tasks)
    requires forall h', c' :: Pipeline.InitStep(run, h', c')
    requires forall h', c' :: Pipeline.FilestoreStep(run, h', c')
    requires forall t, h', c', k :: Pipeline.KeepStep(run, t, h', c', k)
    requires Pipeline.RunChain(tasks, hook, h, c, run).Completed?
    ensures var d := Pipeline.RunChain(tasks, hook, h, c, run).result;
      c.dbName.Some? && c.filename.Some? &&
      d.dbName == c.dbName && d.filename == c.filename &&
      d.filestore == Some(Join(Pipeline.FILESTORE_PATH, c.dbName.value)) &&
      d.zipfile == Some(Join(Tools.INPUT_DIR, c.filename.value)) &&
      d.zip.Some? && d.workdir == c.workdir && d.files == c.files && d.download == c.download
  {
    RestoreDerivedRun(tasks, hook, h, c, run);
    RestoreKeptRun(tasks, hook, h, c, run);
    NameKept(tasks, hook, h, c, run);
    Pipeline.CompletedRun(tasks, hook, h, c, run);
    var last := Pipeline.RunChain(tasks[..4], hook, h, c, run);
    assert Pipeline.FilestoreStep(run, last.host, last.result);
  }

  /**
   * A restore started from a payload that runs to the end keeps the database name and the
   * file name it was given, records the filestore directory and the archive path that
   * `init_restore` derived from them, and the extracted filestore under `zip`; it never
   * acquires a working directory, a `files` list or a download.
   */
  lemma RestoreCompleted(h: Tools.Host, p: Payload, env: Pipeline.Env)
    requires RestoreInput(p).Ok?
    requires Pipeline.RunChain(RESTORE, RESTORE_HOOK, h, RestoreInput(p).value, Pipeline.Registry(env)).Completed?
    ensures var d := Pipeline.RunChain(RESTORE, RESTORE_HOOK, h, RestoreInput(p).value, Pipeline.Registry(env)).result;
      d.dbName == p.name && d.filename == p.filename &&
      d.filestore == Some(Join(Pipeline.FILESTORE_PATH, p.name.value)) &&
      d.zipfile == Some(Join(Tools.INPUT_DIR, p.filename.value)) &&
      d.zip.Some? && d.workdir.None? && d.files.None? && d.download.None?
  {
    ChainsShaped();
    Pipeline.RegistryInitStep(env);
    Pipeline.RegistryFilestoreStep(env);
    Pipeline.RegistryKeepStep(env);
    RestoreCompletedRun(RESTORE, RESTORE_HOOK, h, RestoreInput(p).value, Pipeline.Registry(env));
  }

  // ---------------------------------------------------------------------------------------
  // What the launch replies

  /** The names tasks are registered under, in chain order. */
  function Names(tasks: seq<Pipeline.TaskName>): (r: seq<string>)
    ensures |r| == |tasks| && forall k :: 0 <= k < |tasks| ==> r[k] == Pipeline.Name(tasks[k])
  {
    seq(|tasks|, k requires 0 <= k < |tasks| => Pipeline.Name(tasks[k]))
  }

  /**
   * The records of a freshly launched chain, one per task in chain order: record `k` has
   * the `k`-th id and name, has the record before it as parent and the one after it as
   * only child. None has a result yet.
   */
  function ChainRecords(names: seq<string>, ids: seq<string>): (a: ResultTree.Arena)
    requires |names| == |ids|
    ensures |a| == |ids| && ResultTree.WellFormed(a)
    ensures forall k :: 0 <= k < |a| ==> a[k].id == ids[k] && a[k].name == names[k]
    ensures forall k :: 0 <= k < |a| ==> a[k].parent == if k == 0 then None else Some(k - 1)
  {
    seq(|ids|, k requires 0 <= k < |ids| =>
      ResultTree.Node(ids[k], names[k], "PENDING", ResultTree.Nothing, "None", None,
        if k == 0 then None else Some(k - 1), if k + 1 < |ids| then [k + 1] else []))
  }

  /** The names of the records `p`, in order. */
  function NamesOf(a: ResultTree.Arena, p: seq<nat>): (names: seq<string>)
    requires forall k :: 0 <= k < |p| ==> p[k] < |a|
    ensures |names| == |p| && forall k :: 0 <= k < |p| ==> names[k] == a[p[k]].name
  {
    seq(|p|, k requires 0 <= k < |p| => a[p[k]].name)
  }

  datatype DumpReply = DumpReply(taskId: string, parentId: string)

  datatype RestoreReply = RestoreReply(taskId: string, parentId: string, names: seq<string>)

  /**
   * The reply to `POST /dump` for the chain whose last record is `last`: its id, and the
   * last id `unpack_parents` yields, which is the id of the chain's first task.
   */
  function DumpLaunchReply(a: ResultTree.Arena, last: nat): (r: DumpReply)
    requires ResultTree.WellFormed(a) && last < |a|
    ensures r.taskId == a[last].id && r.parentId == a[ResultTree.Root(a, last)].id
  {
    var ps := ResultTree.Parents(a, last);
    var ids := ResultTree.IdsOf(a, ps);
    ResultTree.ParentsShape(a, last);
    ResultTree.IdsOfAt(a, ps);
    DumpReply(a[last].id, ids[|ids| - 1])
  }

  /** The reply to `POST /restore`: as for a dump, plus the names of the records `unpack_parents` yields. */
  function RestoreLaunchReply(a: ResultTree.Arena, last: nat): (r: RestoreReply)
    requires ResultTree.WellFormed(a) && last < |a|
    ensures r.taskId == a[last].id && r.parentId == a[ResultTree.Root(a, last)].id
    ensures r.names == NamesOf(a, ResultTree.Parents(a, last))
  {
    var d := DumpLaunchReply(a, last);
    RestoreReply(d.taskId, d.parentId, NamesOf(a, ResultTree.Parents(a, last)))
  }

  /** `[n-1, ..., 1, 0]` */
  function Countdown(n: nat): (r: seq<nat>)
    ensures |r| == n && forall k :: 0 <= k < n ==> r[k] == n - 1 - k
  {
    if n == 0 then [] else [n - 1] + Countdown(n - 1)
  }

  /**
   * In a launched chain, `unpack_parents` from record `k` yields every earlier record from
   * the nearest back to the first, and then the first once more.
   */
  lemma {:induction false} ChainParents(names: seq<string>, ids: seq<string>, k: nat)
    requires |names| == |ids| && k < |ids|
    ensures ResultTree.Parents(ChainRecords(names, ids), k) == Countdown(k) + [0]
    decreases k
  {
    var a := ChainRecords(names, ids);
    if k > 0 {
      ChainParents(names, ids, k - 1);
      assert a[k].parent == Some(k - 1);
      assert ResultTree.Parents(a, k) == [k - 1] + ResultTree.Parents(a, k - 1);
    }
  }

  /**
   * For a launched chain the dump reply carries the last task's id and the first task's
   * id, and the restore reply's names run from the next-to-last task back to the first,
   * which is named twice; the last task is not named.
   */
  lemma LaunchedChainReply(names: seq<string>, ids: seq<string>)
    requires |names| == |ids| && 2 <= |ids|
    ensures var n := |ids|;
      var r := RestoreLaunchReply(ChainRecords(names, ids), n - 1);
      r.taskId == ids[n - 1] && r.parentId == ids[0] &&
      |r.names| == n && r.names[n - 1] == names[0] &&
      forall k :: 0 <= k < n - 1 ==> r.names[k] == names[n - 2 - k]
  {
    var a := ChainRecords(names, ids);
    var n := |ids|;
    ChainParents(names, ids, n - 1);
    ResultTree.ParentsShape(a, n - 1);
  }

  /**
   * The names the restore launch replies with: `restore_dump`, `create_database`,
   * `unzip_dump`, then `init_restore` twice; `unzip_filestore` is missing.
   */
  lemma RestoreReplyNames(ids: seq<string>)
    requires |ids| == |RESTORE|
    ensures RestoreLaunchReply(ChainRecords(Names(RESTORE), ids), 4).names ==
      [Pipeline.Name(Pipeline.RestoreDumpTask), Pipeline.Name(Pipeline.CreateDatabaseTask),
       Pipeline.Name(Pipeline.UnzipDumpTask), Pipeline.Name(Pipeline.InitRestoreTask),
       Pipeline.Name(Pipeline.InitRestoreTask)]
  {
    var names := Names(RESTORE);
    LaunchedChainReply(names, ids);
  }

  // ---------------------------------------------------------------------------------------
  // The download endpoint

  /** What `fast_download` hands back: a JSON body `{"status": ...}`, a streamed file or a whole file. */
  datatype Response = JsonStatus(status: string) | Stream(path: Path) | WholeFile(path: Path)

  /** The value put under `status` in a JSON body. */
  datatype StatusValue = Message(text: string) | ExceptionObject(error: Error)

  /** Rendering a JSON body: an exception object is not JSON-serialisable, so rendering raises TypeError. */
  function JsonResponse(v: StatusValue): (r: Result<Response>)
    ensures r.Ok? <==> v.Message?
    ensures v.Message? ==> r == Ok(JsonStatus(v.text))
    ensures v.ExceptionObject? ==> r == Err(TypeError)
  {
    match v
    case Message(text) => Ok(JsonStatus(text))
    case ExceptionObject(_) => Err(TypeError)
  }

  /** `method == "stream"` streams the file; any other method, or none, sends it whole. */
  function FileReply(path: Path, via: Option<string>): (r: Response)
    ensures !r.JsonStatus? && r.path == path
    ensures r.Stream? <==> via == Some("stream")
  {
    if via == Some("stream") then Stream(path) else WholeFile(path)
  }

  /**
   * `fast_download` as written: the ValueError of the lookup is put itself under `status`,
   * which the JSON response cannot render; any other exception of the lookup propagates.
   */
  function FastDownload(stored: ResultTree.Stored, fs: Fs, via: Option<string>): (r: Result<Response>)
    ensures var found := ResultTree.GetFileFromTask(stored, fs);
      (found.Ok? ==> r == Ok(FileReply(found.value, via))) &&
      (found.Err? && found.error.ValueError? ==> r == Err(TypeError)) &&
      (found.Err? && !found.error.ValueError? ==> r == Err(found.error))
  {
    match ResultTree.GetFileFromTask(stored, fs)
    case Ok(path) => Ok(FileReply(path, via))
    case Err(err) =>
      if err.ValueError? then JsonResponse(ExceptionObject(err)) else Err(err)
  }

  /** As written, the download endpoint never answers with a JSON status: a missing file makes it fail instead. */
  lemma FastDownloadNeverReports(stored: ResultTree.Stored, fs: Fs, via: Option<string>)
    ensures var r := FastDownload(stored, fs, via);
      r.Ok? ==> !r.value.JsonStatus?
    ensures FastDownload(ResultTree.Nothing, fs, via) == Err(TypeError)
  {
  }

  /**
   * `fast_download` with the lookup's message under `status`: a failed lookup is reported
   * as a JSON status and never as a file; a found file is sent as the method asks.
   */
  function FastDownloadReported(stored: ResultTree.Stored, fs: Fs, via: Option<string>): (r: Result<Response>)
    ensures var found := ResultTree.GetFileFromTask(stored, fs);
      (found.Ok? ==> r == Ok(FileReply(found.value, via))) &&
      (found.Err? && found.error.ValueError? ==> r == Ok(JsonStatus(found.error.message))) &&
      (found.Err? && !found.error.ValueError? ==> r == Err(found.error))
    ensures r.Ok? && r.value.JsonStatus? <==> ResultTree.GetFileFromTask(stored, fs).Err? && ResultTree.GetFileFromTask(stored, fs).error.ValueError?
    ensures !ResultTree.StoredTruthy(stored) ==> r == Ok(JsonStatus(ResultTree.NO_TASK_MESSAGE))
  {
    match ResultTree.GetFileFromTask(stored, fs)
    case Ok(path) => Ok(FileReply(path, via))
    case Err(err) =>
      if err.ValueError? then JsonResponse(Message(err.message)) else Err(err)
  }

  // ---------------------------------------------------------------------------------------
  // The status endpoint

  /** The `result` of a status record: the stored result itself, or its `str()` form when there is a traceback. */
  datatype Shown = Raw(stored: ResultTree.Stored) | AsText(text: string)

  datatype StatusRecord = StatusRecord(
    id: string,
    result: Shown,
    traceback: string,
    status: string,
    tasks: seq<(string, string)>)

  /** The `(name, state)` pairs of the records `w`, in order. */
  function Pairs(a: ResultTree.Arena, w: seq<nat>): (r: seq<(string, string)>)
    requires forall k :: 0 <= k < |w| ==> w[k] < |a|
    ensures |r| == |w| && forall k :: 0 <= k < |w| ==> r[k] == (a[w[k]].name, a[w[k]].state)
  {
    seq(|w|, k requires 0 <= k < |w| => (a[w[k]].name, a[w[k]].state))
  }

  /**
   * `get_status(task_id)`, where record `i` is what the backend holds for `task_id`: the
   * queried id echoed, the result (as text when a traceback is present), the traceback
   * or "", the state, and the `(name, state)` pairs of the post-order walk from `i`.
   */
  function GetStatus(taskId: string, a: ResultTree.Arena, i: nat): (r: StatusRecord)
    requires ResultTree.WellFormed(a) && i < |a|
    ensures r.id == taskId
    ensures Pipeline.Truthy(a[i].traceback) ==> r.result == AsText(a[i].shown) && r.traceback == a[i].traceback.value
    ensures !Pipeline.Truthy(a[i].traceback) ==> r.result == Raw(a[i].result) && r.traceback == ""
    ensures r.status == a[i].state
    ensures var w := ResultTree.PostOrder(a, i);
      |r.tasks| == |w| && forall k :: 0 <= k < |w| ==> r.tasks[k] == (a[w[k]].name, a[w[k]].state)
    ensures r.tasks[|r.tasks| - 1] == (a[i].name, a[i].state)
  {
    var w := ResultTree.PostOrder(a, i);
    ResultTree.PostOrderEnds(a, i);
    var shown := Pipeline.Truthy(a[i].traceback);
    StatusRecord(
      taskId,
      if shown then AsText(a[i].shown) else Raw(a[i].result),
      if shown then a[i].traceback.value else "",
      a[i].state,
      Pairs(a, w))
  }
}
