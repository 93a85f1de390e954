/**
 * The Celery tasks of `app/worker/main.py` as they run: each task takes the job's `data`
 * dict, calls the helpers on the worker process and updates the dict in place (with
 * `update`, item assignment or `setdefault('files', []).append`) before returning it. A
 * `Job` holds that dict; its methods are the tasks and are proved to leave the process
 * and the dict exactly as the task functions of `Pipeline` describe. Every task raises,
 * if at all, before its first update, so a task that raises leaves the dict as it was.
 */
module Jobs {
  import opened Outcomes
  import opened PathNames
  import opened FileSystem
  import opened Timestamps
  import Tools
  import Process
  import Pipeline

  class Job {
    var data: Pipeline.Context

    constructor (c: Pipeline.Context)
      ensures data == c
    {
      data := c;
    }

    /** `create_env` */
    method CreateEnv(w: Process.Worker, env: Pipeline.Env) returns (out: Result<Pipeline.Context>)
      modifies this, w
      ensures Tools.Effect(w.State(), out) == Pipeline.CreateEnv(old(w.State()), old(data), env)
      ensures data == if out.Ok? then out.value else old(data)
    {
      var workdir := Pipeline.Workdir(env.uuid);
      var filename := GenerateFilename(Pipeline.Text(data.dbName), env.now);
      var zipfile := Join(workdir, filename);
      if !IsDir(w.fs, workdir) {
        var made := Mkdir(w.fs, workdir);
        if made.Err? {
          return Err(made.error);
        }
        w.fs := made.value;
      }
      data := data.(workdir := Some(workdir), filename := Some(filename), zipfile := Some(zipfile));
      return Ok(data);
    }

    /** `create_odoo_manifest` */
    method CreateOdooManifest(w: Process.Worker, env: Pipeline.Env) returns (out: Result<Pipeline.Context>)
      modifies this, w
      ensures Tools.Effect(w.State(), out) == Pipeline.CreateOdooManifest(old(w.State()), old(data), env)
      ensures data == if out.Ok? then out.value else old(data)
    {
      var r := w.Commit(Tools.CreateOdooManifest(w.State(), data.workdir, env.manifest));
      if r.Err? {
        return Err(r.error);
      }
      data := data.(files := Some(Pipeline.FilesOf(data) + [r.value]));
      return Ok(data);
    }

    /** `dump_db` */
    method DumpDb(w: Process.Worker, env: Pipeline.Env) returns (out: Result<Pipeline.Context>)
      modifies this, w
      ensures Tools.Effect(w.State(), out) == Pipeline.DumpDb(old(w.State()), old(data), env)
      ensures data == if out.Ok? then out.value else old(data)
    {
      var r := w.CreateDbDump(Pipeline.Text(data.dbName), data.workdir, [], env.pgDump);
      if r.Err? {
        return Err(r.error);
      }
      data := data.(dump := Some(r.value), files := Some(Pipeline.FilesOf(data) + [r.value.path]));
      return Ok(data);
    }

    /** `add_to_zip` */
    method AddToZip(w: Process.Worker, env: Pipeline.Env) returns (out: Result<Pipeline.Context>)
      modifies this, w
      ensures Tools.Effect(w.State(), out) == Pipeline.AddToZip(old(w.State()), old(data), env)
      ensures data == if out.Ok? then out.value else old(data)
    {
      if data.zipfile.None? {
        return Err(AttributeError);
      }
      if data.files.None? {
        var z := ZipName(data.zipfile.value);
        if IsDir(w.fs, z) {
          return Err(IsADirectoryError(z));
        }
        w.fs := Write(w.fs, z, Zip([]));
        return Err(TypeError);
      }
      var r := w.AddToZip(data.files.value, data.zipfile.value);
      if r.Err? {
        return Err(r.error);
      }
      data := data.(zip := Some(r.value), download := Some(r.value.path));
      return Ok(data);
    }

    /** `add_filestore` */
    method AddFilestore(w: Process.Worker, env: Pipeline.Env) returns (out: Result<Pipeline.Context>)
      modifies this, w
      ensures Tools.Effect(w.State(), out) == Pipeline.AddFilestore(old(w.State()), old(data), env)
      ensures data == if out.Ok? then out.value else old(data)
    {
      if data.dbName.None? {
        return Err(TypeError);
      }
      var path := Join(Pipeline.FILESTORE_PATH, data.dbName.value);
      var problem := Tools.CheckPath(w.fs, path, true);
      if problem.Some? {
        return Err(problem.value);
      }
      if data.workdir.None? {
        return Err(KeyError("workdir"));
      }
      var link := Join(data.workdir.value, "filestore");
      var linked := Symlink(w.fs, path, link);
      if linked.Err? {
        return Err(linked.error);
      }
      w.fs := linked.value;
      if data.zip.None? {
        return Err(KeyError("zip"));
      }
      var r := w.AddFolderToZip(link, data.zip.value.path, env.walk, true);
      if r.Err? {
        return Err(r.error);
      }
      data := data.(files := Some(Pipeline.FilesOf(data) + [link]));
      return Ok(data);
    }

    /** `clean_workdir` */
    method CleanWorkdir(w: Process.Worker, env: Pipeline.Env) returns (out: Result<Pipeline.Context>)
      modifies w
      ensures Tools.Effect(w.State(), out) == Pipeline.CleanWorkdir(old(w.State()), data, env)
      ensures out.Ok? ==> out.value == data
    {
      if data.workdir.None? {
        return Err(TypeError);
      }
      var _ := w.CleanWorkdir(data.workdir.value, Pipeline.FilesOf(data));
      return Ok(data);
    }

    /** `init_restore` */
    method InitRestore(w: Process.Worker, env: Pipeline.Env) returns (out: Result<Pipeline.Context>)
      modifies this
      ensures Tools.Effect(w.State(), out) == Pipeline.InitRestore(w.State(), old(data), env)
      ensures data == if out.Ok? then out.value else old(data)
    {
      if data.dbName.None? {
        return Err(TypeError);
      }
      var filestore := Join(Pipeline.FILESTORE_PATH, data.dbName.value);
      if IsDir(w.fs, filestore) {
        return Err(FileExistsError(filestore));
      }
      if data.filename.None? {
        return Err(TypeError);
      }
      var zipfile := Join(Tools.INPUT_DIR, data.filename.value);
      if !IsFile(w.fs, zipfile) {
        return Err(FileNotFoundError(zipfile));
      }
      data := data.(filestore := Some(filestore), zipfile := Some(zipfile));
      return Ok(data);
    }

    /** `unzip_dump` */
    method UnzipDump(w: Process.Worker, env: Pipeline.Env) returns (out: Result<Pipeline.Context>)
      modifies this, w
      ensures Tools.Effect(w.State(), out) == Pipeline.UnzipDump(old(w.State()), old(data), env)
      ensures data == if out.Ok? then out.value else old(data)
    {
      if data.zipfile.None? {
        return Err(TypeError);
      }
      var r := w.UnzipFiles(data.zipfile.value, [Tools.DEFAULT_DUMP_FILENAME], env.tmp);
      if r.Err? {
        return Err(r.error);
      }
      if r.value == [] {
        return Err(ValueError("No dump file found"));
      }
      data := data.(dump := Some(r.value[0]));
      return Ok(data);
    }

    /** `restore_dump` */
    method RestoreDump(w: Process.Worker, env: Pipeline.Env) returns (out: Result<Pipeline.Context>)
      modifies this, w
      ensures Tools.Effect(w.State(), out) == Pipeline.RestoreDump(old(w.State()), old(data), env)
      ensures data == if out.Ok? then out.value else old(data)
    {
      if data.dump.None? {
        return Err(KeyError("dump"));
      }
      var r := w.Commit(Tools.RestoreDbDump(w.State(), Pipeline.Text(data.dbName), data.dump.value.path, env.psql));
      if r.Err? {
        return Err(r.error);
      }
      data := data.(dump := Some(r.value));
      return Ok(data);
    }

    /** `unzip_backup` */
    method UnzipBackup(w: Process.Worker, env: Pipeline.Env) returns (out: Result<Pipeline.Context>)
      modifies this, w
      ensures Tools.Effect(w.State(), out) == Pipeline.UnzipBackup(old(w.State()), old(data), env)
      ensures data == if out.Ok? then out.value else old(data)
    {
      if data.zipfile.None? {
        return Err(TypeError);
      }
      var problem := Tools.CheckPath(w.fs, data.zipfile.value, true);
      if problem.Some? {
        return Err(problem.value);
      }
      if data.filestore.None? {
        return Err(TypeError);
      }
      var r := w.Commit(Tools.UnzipBackup(w.State(), data.zipfile.value, data.filestore.value));
      if r.Err? {
        return Err(r.error);
      }
      data := data.(zip := Some(r.value));
      return Ok(data);
    }

    /** `unzip_filestore` */
    method UnzipFilestore(w: Process.Worker, env: Pipeline.Env) returns (out: Result<Pipeline.Context>)
      modifies this, w
      ensures Tools.Effect(w.State(), out) == Pipeline.UnzipFilestore(old(w.State()), old(data), env)
      ensures data == if out.Ok? then out.value else old(data)
    {
      if data.zipfile.None? {
        return Err(TypeError);
      }
      var r := w.Commit(Tools.UnzipFilestore(w.State(), data.zipfile.value, data.dbName, Pipeline.FILESTORE_PATH, env.scratch));
      if r.Err? {
        return Err(r.error);
      }
      data := data.(zip := Some(r.value));
      return Ok(data);
    }

    /** `create_database` */
    method CreateDatabase(w: Process.Worker, env: Pipeline.Env) returns (out: Result<Pipeline.Context>)
      modifies w
      ensures Tools.Effect(w.State(), out) == Pipeline.CreateDatabase(old(w.State()), data, env)
      ensures out.Ok? ==> out.value == data
    {
      var r := w.Commit(Tools.CreateDatabase(w.State(), env.createDb));
      if r.Err? {
        return Err(r.error);
      }
      return Ok(data);
    }

    /** Runs the task registered as `t` on this job. */
    method Dispatch(t: Pipeline.TaskName, w: Process.Worker, env: Pipeline.Env) returns (out: Result<Pipeline.Context>)
      modifies this, w
      ensures Tools.Effect(w.State(), out) == Pipeline.Apply(t, old(w.State()), old(data), env)
      ensures data == if out.Ok? then out.value else old(data)
    {
      match t
      case CreateEnvTask => out := CreateEnv(w, env);
      case CreateOdooManifestTask => out := CreateOdooManifest(w, env);
      case DumpDbTask => out := DumpDb(w, env);
      case AddToZipTask => out := AddToZip(w, env);
      case AddFilestoreTask => out := AddFilestore(w, env);
      case CleanWorkdirTask => out := CleanWorkdir(w, env);
      case InitRestoreTask => out := InitRestore(w, env);
      case UnzipDumpTask => out := UnzipDump(w, env);
      case RestoreDumpTask => out := RestoreDump(w, env);
      case UnzipBackupTask => out := UnzipBackup(w, env);
      case UnzipFilestoreTask => out := UnzipFilestore(w, env);
      case CreateDatabaseTask => out := CreateDatabase(w, env);
    }
  }

  /**
   * `error_handler(request, exc, traceback)`, given the failing task's first argument: the
   * working directory it names is removed when the name is truthy; whatever `clean_workdir`
   * reports is only logged.
   */
  method ErrorHandler(w: Process.Worker, input: Pipeline.Context)
    modifies w
    ensures w.State() == Pipeline.ErrorHandler(old(w.State()), input)
  {
    if Pipeline.Truthy(input.workdir) {
      var _ := w.CleanWorkdir(input.workdir.value, []);
    }
  }

  /**
   * Celery's chain, as the worker sees it: the tasks run one after another on the job, each
   * on the dict the previous one returned; the first task that raises ends the chain, after
   * the error hook (when attached) has run on that task's input.
   */
  method RunChain(job: Job, tasks: seq<Pipeline.TaskName>, hook: bool, w: Process.Worker, env: Pipeline.Env) returns (r: Pipeline.Run)
    modifies job, w
    ensures r == Pipeline.RunChain(tasks, hook, old(w.State()), old(job.data), Pipeline.Registry(env))
    ensures w.State() == r.host
    ensures r.Completed? ==> job.data == r.result
  {
    var i := 0;
    while i < |tasks|
      invariant 0 <= i <= |tasks|
      invariant Pipeline.RunChain(tasks, hook, old(w.State()), old(job.data), Pipeline.Registry(env)) ==
        Pipeline.Shift(Pipeline.RunChain(tasks[i..], hook, w.State(), job.data, Pipeline.Registry(env)), i)
    {
      ghost var h := w.State();
      var input := job.data;
      var out := job.Dispatch(tasks[i], w, env);
      Pipeline.ChainStep(tasks, i, hook, h, input, Pipeline.Registry(env));
      assert Pipeline.Registry(env)(tasks[i], h, input) == Tools.Effect(w.State(), out);
      if out.Err? {
        ghost var failedHost := w.State();
        if hook {
          ErrorHandler(w, input);
        }
        assert w.State() == if hook then Pipeline.ErrorHandler(failedHost, input) else failedHost;
        return Pipeline.Failed(w.State(), i, out.error, input);
      }
      i := i + 1;
    }
    return Pipeline.Completed(w.State(), job.data);
  }
}
