# odoo_saas_backend: backup and restore chains

The backend backs up and restores Odoo databases. A FastAPI service (`POST /dump`,
`POST /restore`, `GET /download/{task_id}`, `GET /{task_id}`) launches Celery chains and
reports on them. A worker runs each chain's tasks.

- Every task receives the job's `data` dict. It calls helpers that touch the disk, pg_dump,
  psql or the database, updates the dict in place, and returns it to the next task.
- The backup chain does the following:
  - creates a working directory named by a fresh uuid;
  - writes an Odoo manifest and a SQL dump into it;
  - zips them into an archive;
  - appends the database's filestore to the archive through a symbolic link;
  - removes the listed files.

  An error hook removes the working directory when a task raises.
- The restore chain does the following:
  - checks the archive and the target filestore;
  - extracts the dump and replays it into a freshly created database;
  - unpacks the filestore.

The Dafny modules follow the program's structure:

| module | file | what it holds |
|---|---|---|
| `Outcomes` | outcomes.dfy | `Option`, `Result`, and the exceptions the code raises |
| `PathNames` | pathnames.dfy | `os.path.join`, `dirname`, `basename` and `splitext`; the archive member name; the `.zip` suffix; the ignore list |
| `FileSystem` | filesystem.dfy | An abstract filesystem: directories, files (plain, or zip archives with members), and symbolic links. Also `mkdir`, `symlink`, `remove`, `stat` and `rmtree` over it |
| `Timestamps` | timestamps.dfy | `generate_filename` with the clock reading passed in, and the round trip of its stamp |
| `Tools` | tools.dfy | The helpers of `app/worker/tools.py`, as functions from the process state (`Host`: filesystem, the shared `DEFAULT_DUMP_CMD` list, published progress values) to a new state and a result or an exception |
| `Process` | process.dfy | The worker process as a class `Worker` whose fields are that state. The loops of `tools.py` are methods on it, proved equal to their `Tools` counterparts |
| `Pipeline` | pipeline.dfy | The data dict (`Context`); the twelve tasks as functions; the error hook; Celery's chain semantics (`RunChain`); the per-key bookkeeping lemmas |
| `Jobs` | jobs.dfy | The tasks as methods of a class `Job` holding the dict, updated in place; the hook and the chain as methods over a `Worker` |
| `ResultTree` | resulttree.dfy | The result backend's records as an arena with parent and children indices; `unpack_parents`, `store`, `iter_children`, `_get_file_from_task` |
| `Endpoints` | endpoints.dfy | The two chains and their initial dicts; the launch replies; `fast_download`; `get_status`; whole-chain properties of completed and failed runs |

Several things outside the code become parameters (`Pipeline.Env`). These are the fresh
uuid, the clock, whether each database tool succeeds and the size of what it writes, the
listing `os.walk` produces, and the directories `mkdtemp` and `TemporaryDirectory` return.
Celery's chain runner is not part of the repository. It is modelled with its documented
semantics:

- each task receives the previous task's return value;
- the first exception ends the chain;
- a hook attached with `on_error` runs once, with the failing task's input.

## Model

| member | source | states |
|---|---|---|
| PathNames.Join | app/worker/main.py:72-74 | `os.path.join`: the result ends with the second part. For a relative second part it starts with the first part; with one separator between them when the first part does not end in one |
| PathNames.Basename | app/worker/tools.py:227 | The basename holds no separator and is a suffix of the path |
| PathNames.DirnameOfNested | app/worker/tools.py:227 | For a path with a real directory part, `dirname` is everything before the last separator |
| PathNames.MemberNameIsBasename | app/worker/tools.py:226-227 | For a nested path, the member name `filepath[len(dirname)+1:]` is the basename and holds no separator |
| PathNames.MemberNameOfBareName | app/worker/tools.py:227 | For a bare file name the `+1` skips a separator that is not there: the member name loses the first character and differs from the basename |
| PathNames.MemberNameUnderRoot | app/worker/tools.py:227 | For a file directly under `/` the member name also loses its first character |
| PathNames.ZipName | app/worker/tools.py:214-216 | The archive path ends in `.zip` and extends the given name; it is the name itself when that already ends in `.zip` |
| PathNames.ZipNameIdempotent | app/worker/tools.py:214-216 | Appending the suffix is idempotent and adds exactly four characters when it is added |
| PathNames.SplitExt | app/worker/tools.py:264 | `splitext`: the two parts concatenate to the name, and the extension is empty or a dot followed by no dot and no separator |
| PathNames.SkippedIff | app/worker/tools.py:264-266 | A file name is skipped if and only if it is one of the ignored names itself, or ends with one after a stem that is not only dots. Both directions are proved |
| PathNames.SkipKeyOfIgnored | app/worker/tools.py:264-265 | A name ending in an ignored extension (or equal to one) has that extension as its `ext or bname` key |
| Timestamps.Decimal | app/worker/tools.py:47 | `str(n)` is a non-empty string of decimal digits |
| Timestamps.DecimalRoundTrip | app/worker/tools.py:47 | Reading a printed number back gives the number |
| Timestamps.DecimalLength | app/worker/tools.py:47 | A number printed with k digits lies in [10^(k-1), 10^k) |
| Timestamps.PadRoundTrip | app/worker/tools.py:47 | A zero-padded field has the field width and reads back as its value |
| Timestamps.YearDigits | app/worker/tools.py:47 | A four-digit year prints as four characters |
| Timestamps.StampRoundTrip | app/worker/tools.py:47 | `%Y%m%d_%H%M` of a time with a four-digit year has 13 characters, an underscore at index 8, and reads back as the same time |
| Timestamps.FilenameRoundTrip | app/worker/tools.py:46-47 | `generate_filename` is the database name, `_`, and a 13-character stamp from which the clock reading is recovered |
| FileSystem.CreateError | app/worker/main.py:77-78 | Why a new name cannot be created: FileNotFoundError when its parent directory is missing, NotADirectoryError when the parent is a file, FileExistsError when the name is taken, and nothing when the parent is a directory and the name is free |
| FileSystem.Mkdir | app/worker/main.py:77-78 | `os.mkdir` succeeds exactly when the parent directory is there and nothing exists at the path, and then adds exactly that directory; otherwise it raises the `CreateError` of the path |
| FileSystem.Symlink | app/worker/main.py:108 | `os.symlink` succeeds exactly when the link's parent directory is there and nothing exists at the link path, and then adds exactly that link; otherwise it raises the `CreateError` of the link path |
| FileSystem.Write | app/worker/tools.py:136 | Creating or truncating a file leaves a regular file there and changes no directory or link |
| FileSystem.Stat | app/worker/tools.py:139 | `os.stat` succeeds exactly when the path exists |
| FileSystem.Remove | app/worker/tools.py:58-59 | `os.remove` succeeds exactly on a file or link that is not a directory. The name is then gone, every other name is unchanged, and no directory changes |
| FileSystem.Prune | app/worker/tools.py:55 | After pruning, a name exists if and only if it existed and is not at or below the root; what remains is unchanged |
| FileSystem.RmTree | app/worker/tools.py:55 | `shutil.rmtree` succeeds exactly on a directory that is not a link, and then prunes everything at or below it |
| Tools.CheckPath | app/worker/tools.py:158-161 | `_check_path` raises exactly when asked to and the path does not exist, and the error is FileNotFoundError of the path |
| Tools.PostgresEnv | app/worker/tools.py:121-127 | The environment passed to pg_dump and psql has exactly the keys PGHOST, PGPORT, PGUSER and PGPASSWORD |
| Tools.RemoveListed | app/worker/tools.py:57-59 | The removal loop never changes the directories |
| Tools.CleanWorkdir | app/worker/tools.py:50-62 | `clean_workdir` covers three cases: True with nothing changed for a non-directory; for an empty list, the whole tree pruned or False for a link; otherwise the loop over the listed files |
| Tools.RemoveListedSpec | app/worker/tools.py:57-61 | The loop returns True if and only if no listed path is a directory. On True no listed path exists any more, and no unlisted name is removed or added |
| Tools.RemovedStaysAbsent | app/worker/tools.py:57-59 | A name absent before the loop is absent after it |
| Tools.NonexistentStaysAbsent | app/worker/tools.py:57-59 | A name that does not resolve to anything before the loop does not afterwards |
| Tools.ZipMembers | app/worker/tools.py:225-230 | `add_to_zip` stores at most one member per listed path |
| Tools.ZipMembersSpec | app/worker/tools.py:225-230 | Every listed regular file becomes a member under its member name with its size, and every member comes from such a file. Non-regular paths are passed over |
| Tools.ZipMembersAreBasenames | app/worker/tools.py:226-230 | For nested paths, every member is named by the basename of a listed path |
| Tools.AddToZip | app/worker/tools.py:213-234 | `add_to_zip` returns the `.zip`-suffixed path, where a regular file now exists. The dump list and progress are untouched, and existing names are kept |
| Tools.TruncDiv | app/worker/tools.py:273 | `int(a / b)` truncates toward zero: floor division for a non-negative `a`, and a non-positive result for a negative one |
| Tools.KeptFlags | app/worker/tools.py:264-266 | One flag per walked entry, true exactly when the name is not skipped |
| Tools.AddFolderToZip | app/worker/tools.py:249-282 | `add_folder_to_zip` on success appends exactly the emitted decile values to the published events and returns the archive path, now a file. A failure changes nothing, the dump list is untouched, and existing names are kept |
| Tools.FolderStep | app/worker/tools.py:263-276 | One walk entry: the counter moves by +1 for a kept name and -1 for a skipped one. A kept regular file adds the member `path[len_prefix:]`. The new progress is published when it is a decile and a task is attached |
| Tools.EmittedAreDeciles | app/worker/tools.py:275-276 | Only decile values are ever published, and nothing is published without a task |
| Tools.EmittedValues | app/worker/tools.py:273-276 | Every published value is `int(count*100/total)` after some entry |
| Tools.CountBound | app/worker/tools.py:268-272 | The counter never exceeds the number of entries seen, and equals it when no name is skipped |
| Tools.CountWithSkip | app/worker/tools.py:268-272 | One skipped name keeps the counter at least two below the number of entries |
| Tools.ProgressBelowFull | app/worker/tools.py:273 | A counter below the total gives a progress below 100 |
| Tools.ProgressFull | app/worker/tools.py:273 | A counter equal to the total gives exactly 100 |
| Tools.NoSkipProgress | app/worker/tools.py:258-276 | With no skipped names, progress after the k-th of n files is floor(100k/n); it never decreases and is 100 after the last file |
| Tools.HundredIffAllKept | app/worker/tools.py:258-276 | With a task attached, 100 is published if and only if no name of the walk is skipped (the total counts skipped names too) |
| Tools.RepeatedDecile | app/worker/tools.py:268-276 | The same decile can be published twice: with ten entries where the second is skipped, 10 is published after the first and after the third |
| Tools.IgnoredExtensionSkipped | app/worker/tools.py:264-266 | Every name made of a stem that is not only dots followed by an ignored extension is skipped |
| Tools.FolderMemberName | app/worker/tools.py:253-270 | With the root's parent stripped, a walked path's member name begins with the root folder's own name and a separator |
| Tools.FolderMembersUnderRoot | app/worker/tools.py:253-270 | Every member the walk adds begins with `basename(root) + "/"` |
| Tools.OpenZip | app/worker/tools.py:171 | Opening an archive succeeds exactly on a regular file that holds a zip |
| Tools.FindMember | app/worker/tools.py:174 | `extract(name)` finds a member exactly when one carries that name |
| Tools.ExtractNamed | app/worker/tools.py:172-180 | The `unzip_files` loop lists at most one entry per requested name and creates no directory or link |
| Tools.UnzipFiles | app/worker/tools.py:163-182 | `unzip_files` raises FileNotFoundError without any change when the archive is missing. On success it lists what the extraction loop lists, in the fresh temporary directory |
| Tools.PresentNames | app/worker/tools.py:172-180 | The requested names the archive holds, stated independently |
| Tools.ExtractNamedSpec | app/worker/tools.py:172-182 | `unzip_files` lists exactly the requested names the archive holds, in request order. Each entry is under the temporary directory with its member's size, and missing names are skipped silently |
| Tools.ExtractOne | app/worker/tools.py:172-180 | One requested name yields one entry if the archive holds it and none otherwise |
| Tools.SelectFilestore | app/worker/tools.py:190 | The members `unzip_filestore` extracts are exactly those whose names start with `filestore/` |
| Tools.Extracted | app/worker/tools.py:191-194 | Extraction only adds: directories, files and links that existed remain |
| Tools.UnzipFilestore | app/worker/tools.py:185-197 | On success the result path is `path`, and the filestore directory `path/<db_name>` (or `path` itself) exists. A failure changes nothing and existing names are kept |
| Tools.UnzipBackup | app/worker/tools.py:199-210 | `unzip_backup` raises FileNotFoundError without any change for a missing archive. On success the target is a directory and the result is its path |
| Tools.DumpArgs | app/worker/tools.py:131-133 | The argument list is the shared list, then the optional option, then the database name last |
| Tools.CreateDbDump | app/worker/tools.py:129-141 | A `cmd` of two or more words raises TypeError with no change. Otherwise the shared list grows by the arguments whatever follows. The call succeeds exactly when the path is set, `dump.sql` is not a directory and pg_dump succeeds; the result is that file and its size |
| Tools.DumpArgsAccumulate | app/worker/tools.py:129-133 | Two dumps in one process: `DEFAULT_DUMP_CMD` (line 22) is not copied, so the second pg_dump receives both database names |
| Tools.FreshDumpArgs | app/worker/tools.py:131-133 | The corrected list `DEFAULT_DUMP_CMD + cmd + [db_name]` has the database name last |
| Tools.FreshDumpArgsOneDatabase | app/worker/tools.py:131-133 | With a fresh list, pg_dump always receives exactly one database name |
| Tools.RestoreDbDump | app/worker/tools.py:144-155 | `restore_db_dump` changes nothing. It raises FileNotFoundError when the dump is not a regular file, and succeeds exactly when the dump is a file and psql succeeds, returning the dump's path and size |
| Tools.CreateOdooManifest | app/worker/tools.py:237-246 | `create_odoo_manifest` raises TypeError for a missing path. It leaves `manifest.json` behind even when the connection fails, and succeeds exactly when that file could be opened and the query ran, returning its path |
| Tools.CreateDatabase | app/worker/tools.py:85-93 | `create_database` changes no modelled state and returns True exactly when the statement goes through |
| Process.Worker.constructor | app/worker/tools.py:22 | A started process has the initial dump list and nothing published |
| Process.Worker.CleanWorkdir | app/worker/tools.py:50-62 | The loop leaves the process and the verdict as `Tools.CleanWorkdir` says |
| Process.Worker.AddToZip | app/worker/tools.py:213-234 | The member-writing loop leaves the process and the result as `Tools.AddToZip` says |
| Process.Worker.AddFolderToZip | app/worker/tools.py:249-282 | The walk over the open archive leaves the process and the result as `Tools.AddFolderToZip` says |
| Process.Worker.UnzipFiles | app/worker/tools.py:163-182 | The extraction loop leaves the process and the list as `Tools.UnzipFiles` says |
| Process.Worker.CreateDbDump | app/worker/tools.py:129-141 | The shared list grows in place, and the process and the result are as `Tools.CreateDbDump` says |
| Process.WalkFolder | app/worker/tools.py:258-276 | The counting loop adds exactly `FolderMembers` and publishes exactly `Emitted` |
| Pipeline.WithEnv | app/worker/main.py:80-84 | `data.update` assigns exactly `workdir`, `filename` and `zipfile`, keeps every other key, and leaves `files` as it was |
| Pipeline.WithFile | app/worker/main.py:63-64 | `setdefault('files').append` (also in `add_filestore`) changes only `files` |
| Pipeline.WithDumpFile | app/worker/main.py:91-93 | `dump_db` changes only `dump` and `files` |
| Pipeline.WithDownload | app/worker/main.py:50-51 | `add_to_zip` changes only `zip` and `download` |
| Pipeline.WithRestorePaths | app/worker/main.py:135-138 | `init_restore` changes only `filestore` and `zipfile` |
| Pipeline.WithDump | app/worker/main.py:149-159 | `unzip_dump` and `restore_dump` change only `dump` |
| Pipeline.WithZip | app/worker/main.py:166-173 | `unzip_backup` and `unzip_filestore` change only `zip` |
| Pipeline.CreateEnv | app/worker/main.py:69-85 | `create_env` succeeds exactly when `OUTPUT_DIR/<uuid>` is already a directory or `os.mkdir` can create it, and then that directory exists. Otherwise it raises `os.mkdir`'s error (FileNotFoundError for a missing OUTPUT_DIR, FileExistsError for a taken name) with nothing changed. It assigns only its three keys and keeps `files` |
| Pipeline.CreateEnvNeedsOutputDir | app/worker/main.py:77-78 | With OUTPUT_DIR missing, `create_env` raises FileNotFoundError for the new working directory and changes nothing |
| Pipeline.MakeWorkdir | app/worker/main.py:77-78 | `if not isdir: mkdir` succeeds exactly when the path is a directory or `os.mkdir` can create it, leaving a directory, and otherwise raises `os.mkdir`'s error with nothing changed |
| Pipeline.CreateOdooManifest | app/worker/main.py:56-66 | The task raises TypeError with no change when `workdir` is missing. It succeeds exactly when `manifest.json` can be written and the query runs, and then appends its path to `files` and nothing else |
| Pipeline.DumpDb | app/worker/main.py:87-95 | The shared dump list grows by the database name whatever happens. The task succeeds exactly when `workdir` is set, `dump.sql` is writable and pg_dump succeeds, and then records the dump and appends its path to `files` |
| Pipeline.AddToZip | app/worker/main.py:47-53 | The task raises AttributeError with no change when `zipfile` is missing. It succeeds exactly when `zipfile` and `files` are set and the archive path is not a directory. It then records the archive under `zip` and its path under `download` |
| Pipeline.AddFilestore | app/worker/main.py:97-115 | The task raises FileNotFoundError when the filestore is missing. On success `workdir/filestore` is a link to it, the walk's deciles are published, and the link path is appended to `files` |
| Pipeline.LinkFilestore | app/worker/main.py:107-113 | After the checks: link, archive, and append the link, publishing the walk's deciles |
| Pipeline.CleanWorkdir | app/worker/main.py:117-121 | The task returns its input unchanged exactly when `workdir` is set; the helper's verdict is dropped. It raises TypeError otherwise |
| Pipeline.InitRestore | app/worker/main.py:124-140 | On success `filestore = FILESTORE_PATH/db_name` and `zipfile = INPUT_DIR/filename`, and nothing else changes |
| Pipeline.UnzipDump | app/worker/main.py:142-151 | The task raises TypeError for a missing `zipfile`, and on success changes only `dump` |
| Pipeline.RestoreDump | app/worker/main.py:154-161 | `data['dump']` raises KeyError when unset. The task succeeds exactly when the dump is a file and psql succeeds, and re-records the dump with its current size |
| Pipeline.UnzipBackup | app/worker/main.py:163-168 | On success the `filestore` directory exists and only `zip` changes |
| Pipeline.UnzipFilestore | app/worker/main.py:170-175 | On success the database's filestore directory exists under FILESTORE_PATH and only `zip` changes |
| Pipeline.CreateDatabase | app/worker/main.py:177-181 | The task returns its input unchanged exactly when `CREATE DATABASE` goes through |
| Pipeline.ErrorHandler | app/worker/main.py:27-35 | The hook never touches the dump list or progress, and changes nothing when `workdir` is not truthy |
| Pipeline.ErrorHandlerSpec | app/worker/main.py:32-34 | For a truthy `workdir` that is a real directory, exactly the names at or below it disappear. For a link or a non-directory, nothing changes |
| Pipeline.RunChain | app/api/v1/endpoints/odoo.py:28-36 | A failed chain fails at one of its tasks |
| Pipeline.ChainStep | app/api/v1/endpoints/odoo.py:28-36 | A chain runs its first task. On an exception it stops and runs the hook (if attached) with that task's input; otherwise it continues with the returned dict |
| Pipeline.RunChainAppend | app/api/v1/endpoints/odoo.py:28-36 | Running two chains back to back is running their concatenation |
| Pipeline.FailedRun | app/api/v1/endpoints/odoo.py:28-36 | In a failed chain every earlier task returned, and the last of them produced the failing task's input. That task raised the reported error, and the hook ran exactly once on its input |
| Pipeline.CompletedRun | app/api/v1/endpoints/odoo.py:28-36 | A completed chain ends as its last task leaves it, after the others completed |
| Pipeline.CompletedStep | app/api/v1/endpoints/odoo.py:28-36 | In a completed chain each task receives what the tasks before it produced |
| Pipeline.TaskWrites | app/worker/main.py:47-181 | No task deletes a key: a returning task adds exactly the keys it assigns and keeps every other key's value |
| Pipeline.FilesAppendOnly | app/worker/main.py:63-113 | `files` only grows at its end: the manifest, dump and filestore tasks each append one path inside `workdir`, and the other tasks leave it unchanged |
| Pipeline.CreateEnvKeys | app/worker/main.py:72-84 | `create_env` sets `workdir = OUTPUT_DIR/<uuid>`, `filename = <db_name>_<stamp>` and `zipfile = workdir/filename`, and keeps every other key, `db_name` included |
| Pipeline.AddToZipDownload | app/worker/main.py:49-51 | `download` is the path recorded in `zip`: the `zipfile` name with `.zip` appended when it lacked it, and unchanged when it had it |
| Pipeline.InitRestoreOrder | app/worker/main.py:126-133 | An existing filestore raises FileExistsError even when the archive is missing. The task succeeds exactly when the filestore is absent and the archive is a file |
| Pipeline.UnzipDumpSpec | app/worker/main.py:144-149 | `unzip_dump` raises "No dump file found" exactly when the archive opens but lacks `dump.sql`. On success `dump` is the extracted entry with the member's size |
| Pipeline.CleanWorkdirRemoves | app/worker/main.py:117-121 | With `files` set, the task removes the listed paths (when none is a directory) and nothing else. Without `files`, it prunes the whole working directory |
| Pipeline.FilestoreMembersSelected | app/worker/main.py:107-110 | The members `add_filestore` adds are named `filestore/...`, so `unzip_filestore` selects every one of them |
| Pipeline.RegistryKeepStep | app/worker/main.py:47-181 | Every registered task keeps the keys it does not assign |
| Pipeline.KeptAlongRun | app/api/v1/endpoints/odoo.py:28-36 | Along a completed chain, a key that no task assigns keeps its initial value |
| Pipeline.KeptAlongChain | app/api/v1/endpoints/odoo.py:28-36 | The same, for the worker's registered tasks |
| Pipeline.RegistryEnvStep | app/worker/main.py:72-84 | A returning `create_env` sets `workdir` to the job's directory and keeps `files` |
| Pipeline.RegistryZipStep | app/worker/main.py:49-51 | A returning `add_to_zip` records `download` as the suffixed `zipfile`, equal to the `zip` path |
| Pipeline.RegistryInitStep | app/worker/main.py:126-138 | A returning `init_restore` records the two derived paths |
| Pipeline.RegistryFilestoreStep | app/worker/main.py:170-175 | A returning `unzip_filestore` records `zip` |
| Pipeline.RegistryFilesStep | app/worker/main.py:63-113 | Every registered task grows `files` by its own appended path, or not at all |
| Pipeline.FilesAlongRun | app/api/v1/endpoints/odoo.py:28-36 | Along a completed chain without `create_env`, `files` grows by exactly the tasks' appended paths, in task order |
| Pipeline.FilesAlongChain | app/api/v1/endpoints/odoo.py:28-36 | The same, for the worker's registered tasks |
| ResultTree.PathToRoot | app/api/v1/endpoints/utils.py:37-40 | The records from a node up to its chain root: each record's parent follows it, and the last has no parent |
| ResultTree.Root | app/api/v1/endpoints/utils.py:17-20 | The root has no parent |
| ResultTree.Parents | app/api/v1/endpoints/utils.py:16-20 | `unpack_parents` yields a non-empty list of records |
| ResultTree.UnpackParents | app/api/v1/endpoints/utils.py:16-20 | The generator's loop yields exactly `Parents` |
| ResultTree.Store | app/api/v1/endpoints/utils.py:32-41 | The loop collects exactly the ids along the path to the root |
| ResultTree.PathDecreasing | app/api/v1/endpoints/utils.py:37-39 | The walk up never repeats a record |
| ResultTree.ParentsShape | app/api/v1/endpoints/utils.py:16-20 | `unpack_parents` yields the ancestors nearest first and then the root. The start appears only when it is the root; otherwise the root is yielded twice. The length is depth+1 and the last element is the root |
| ResultTree.StoreShape | app/api/v1/endpoints/utils.py:36-41 | `store` returns depth+1 distinct ids, the start first and the root last |
| ResultTree.PostOrder | app/api/v1/endpoints/utils.py:23-29 | `iter_children` yields only records of the arena |
| ResultTree.Walks | app/api/v1/endpoints/utils.py:25-27 | The concatenated child walks yield only records of the arena |
| ResultTree.PostOrderEnds | app/api/v1/endpoints/utils.py:23-29 | The start comes last and only there; every other record yielded sits at a later index of the arena |
| ResultTree.PostOrderMembers | app/api/v1/endpoints/utils.py:23-29 | A record is yielded by `iter_children(i)` exactly when it is `i` or a descendant of `i` through `children` links: every descendant appears, and nothing else does |
| ResultTree.ChildrenFirst | app/api/v1/endpoints/utils.py:24-29 | Every record of a child's walk is yielded before the node itself |
| ResultTree.GetFileFromTask | app/api/v1/endpoints/utils.py:44-54 | A falsy result raises ValueError "No task found…". A returned dict yields `download` exactly when that path is a regular file, and raises ValueError otherwise. A stored exception raises AttributeError |
| Jobs.Job.constructor | app/api/v1/endpoints/odoo.py:23 | A job holds the dict it was started with |
| Jobs.Job.CreateEnv | app/worker/main.py:69-85 | The process and the dict end as `Pipeline.CreateEnv` says; the dict is updated only when the task returns |
| Jobs.Job.CreateOdooManifest | app/worker/main.py:56-66 | As `Pipeline.CreateOdooManifest`, with `files` appended in place |
| Jobs.Job.DumpDb | app/worker/main.py:87-95 | As `Pipeline.DumpDb`, with the dict updated in place |
| Jobs.Job.AddToZip | app/worker/main.py:47-53 | As `Pipeline.AddToZip`, with the dict updated in place |
| Jobs.Job.AddFilestore | app/worker/main.py:97-115 | As `Pipeline.AddFilestore`, with the dict updated in place |
| Jobs.Job.CleanWorkdir | app/worker/main.py:117-121 | As `Pipeline.CleanWorkdir`, returning the dict unchanged |
| Jobs.Job.InitRestore | app/worker/main.py:124-140 | As `Pipeline.InitRestore`, with the dict updated in place |
| Jobs.Job.UnzipDump | app/worker/main.py:142-151 | As `Pipeline.UnzipDump`, with the dict updated in place |
| Jobs.Job.RestoreDump | app/worker/main.py:154-161 | As `Pipeline.RestoreDump`, with the dict updated in place |
| Jobs.Job.UnzipBackup | app/worker/main.py:163-168 | As `Pipeline.UnzipBackup`, with the dict updated in place |
| Jobs.Job.UnzipFilestore | app/worker/main.py:170-175 | As `Pipeline.UnzipFilestore`, with the dict updated in place |
| Jobs.Job.CreateDatabase | app/worker/main.py:177-181 | As `Pipeline.CreateDatabase`, returning the dict unchanged |
| Jobs.Job.Dispatch | app/worker/main.py:47-181 | The task registered under a name acts as its `Pipeline` counterpart |
| Jobs.ErrorHandler | app/worker/main.py:27-35 | The hook leaves the process as `Pipeline.ErrorHandler` says |
| Jobs.RunChain | app/api/v1/endpoints/odoo.py:28-36 | Running the tasks one after another on the job gives `Pipeline.RunChain` and leaves the process in its final state. On completion the job holds the final dict |
| Endpoints.BackupInput | app/api/v1/endpoints/odoo.py:23 | The backup starts from `{db_name}` exactly when the payload has `name`, and raises KeyError('name') otherwise |
| Endpoints.BackupIgnoresOptions | app/api/v1/endpoints/odoo.py:23-26 | The `filestore` and `dump` options do not influence the chain |
| Endpoints.RestoreInput | app/api/v1/endpoints/odoo.py:63-66 | The restore starts from `{db_name, filename}`; KeyError('name') is raised before KeyError('filename') |
| Endpoints.BackupPaths | app/api/v1/endpoints/odoo.py:28-36 | The backup tasks after `create_env` append `manifest.json`, `dump.sql` and `filestore` in the working directory, in that order |
| Endpoints.BackupFilesRun | app/api/v1/endpoints/odoo.py:28-36 | A completed backup lists exactly those three paths in the job's working directory |
| Endpoints.BackupArchiveRun | app/api/v1/endpoints/odoo.py:28-32 | After `add_to_zip`, the download is the suffixed `zipfile` and equals the `zip` path |
| Endpoints.BackupArchiveKept | app/api/v1/endpoints/odoo.py:32-35 | The tasks after `add_to_zip` keep `download`, `zipfile` and `zip` |
| Endpoints.BackupDownloadRun | app/api/v1/endpoints/odoo.py:28-36 | A completed backup's download is the archive path |
| Endpoints.NameKept | app/api/v1/endpoints/odoo.py:28-36 | Every completed chain carries its initial `db_name` |
| Endpoints.ArchiveNotListed | app/worker/main.py:47-113 | The archive path (ending in `.zip`) is none of the three listed files |
| Endpoints.BackupCompletedRun | app/api/v1/endpoints/odoo.py:28-36 | A completed backup has the job's working directory, the initial name, the three files, and the archive as download, which is not in `files` |
| Endpoints.BackupCompleted | app/api/v1/endpoints/odoo.py:23-36 | The same for a backup started from a payload: the final `clean_workdir`, which removes only listed paths, leaves the archive |
| Endpoints.BackupFailureRun | app/api/v1/endpoints/odoo.py:28-36 | A failing `create_env` changes nothing and reports `os.mkdir`'s error for the working directory. A later failure hands the hook the job's working directory |
| Endpoints.BackupWorkdirKept | app/api/v1/endpoints/odoo.py:28-36 | After `create_env`, every backup task receives the job's working directory |
| Endpoints.BackupFailure | app/api/v1/endpoints/odoo.py:23-36 | For a payload-started backup: a failing `create_env` changes nothing and reports `os.mkdir`'s error for the working directory (FileNotFoundError when OUTPUT_DIR is missing); on a failure after `create_env`, the hook gets a truthy `workdir` and so removes it |
| Endpoints.RestoreDerivedRun | app/api/v1/endpoints/odoo.py:68-74 | A completed restore keeps the `filestore` and `zipfile` paths `init_restore` derived |
| Endpoints.RestoreKeptRun | app/api/v1/endpoints/odoo.py:68-74 | No restore task assigns `filename`, `workdir`, `files` or `download` |
| Endpoints.RestoreCompletedRun | app/api/v1/endpoints/odoo.py:68-74 | A completed restore keeps name and filename, records the derived paths and `zip`, and keeps the other keys |
| Endpoints.RestoreCompleted | app/api/v1/endpoints/odoo.py:63-74 | A payload-started restore ends with its name, its file name, `FILESTORE_PATH/<name>`, `INPUT_DIR/<filename>` and `zip`, and with no `workdir`, `files` or `download` |
| Endpoints.Names | app/api/v1/endpoints/odoo.py:80 | The registered names of the tasks, in chain order |
| Endpoints.ChainRecords | app/api/v1/endpoints/odoo.py:28-74 | A launched chain's records: one per task in order, each the child of the one before it |
| Endpoints.DumpLaunchReply | app/api/v1/endpoints/odoo.py:38-42 | `task_id` is the last record's id and `parent_id` is the id of its chain root |
| Endpoints.RestoreLaunchReply | app/api/v1/endpoints/odoo.py:76-82 | The same ids, plus the names of what `unpack_parents` yields |
| Endpoints.ChainParents | app/api/v1/endpoints/utils.py:16-20 | In a launched chain, `unpack_parents` from record k yields k-1, …, 0 and then 0 again |
| Endpoints.LaunchedChainReply | app/api/v1/endpoints/odoo.py:38-82 | `task_id` is the last task's id and `parent_id` is the first task's id. The names run from the next-to-last task back to the first, which is named twice, and the last task is not named |
| Endpoints.RestoreReplyNames | app/api/v1/endpoints/odoo.py:80 | The restore reply names `restore_dump`, `create_database`, `unzip_dump`, `init_restore`, `init_restore`; `unzip_filestore` is missing |
| Endpoints.JsonResponse | app/api/v1/endpoints/odoo.py:53 | A JSON body renders exactly when it holds no exception object; otherwise rendering raises TypeError |
| Endpoints.FileReply | app/api/v1/endpoints/odoo.py:55-58 | `method == "stream"` streams the file; anything else sends it whole |
| Endpoints.FastDownload | app/api/v1/endpoints/odoo.py:47-58 | As written: a found file is sent, a lookup ValueError becomes TypeError at rendering, and other exceptions propagate |
| Endpoints.FastDownloadNeverReports | app/api/v1/endpoints/odoo.py:50-53 | As written, the endpoint never answers with a JSON status. An unknown task makes it fail |
| Endpoints.FastDownloadReported | app/api/v1/endpoints/odoo.py:50-58 | Corrected: a JSON status is returned if and only if the lookup raised ValueError, and an unknown task reports the no-task message |
| Endpoints.GetStatus | app/api/v1/endpoints/tasks.py:16-28 | The status record has the following fields: `id` echoes the query; `result` is text exactly when a traceback is present; `traceback` is that traceback or ""; `status` is passed through; `tasks` is the post-order walk's (name, state) pairs, ending with the queried task's own pair |

## Left out

- pg_dump, psql and the psycopg connection (including the manifest query, `dump_db_manifest`, `guess_odoo_version` and its float formatting) are not executed. Each call is a `ToolRun` parameter: it succeeds with the size of what it wrote, or it fails. The manifest's content and the dump's bytes are not modelled.
- Zip and gzip byte formats and compression are not modelled: an archive is a list of (name, size) members. Opening an existing non-zip file in append mode is modelled as starting an empty archive. The leading bytes that file keeps are not modelled.
- `shutil.move`, `TemporaryDirectory` cleanup and `mkdtemp` are not modelled beyond their effect on names: the temporary directories are parameters and leave no trace. `os.path.normpath` is taken as the identity. Missing parent directories are not checked when a file is written or an archive member is extracted; `os.mkdir` and `os.symlink` do check them.
- `uuid.uuid4()`, `datetime.now()` and the `os.walk` listing are parameters (`Pipeline.Env`). The walk listing is not derived from the filesystem.
- The Celery runtime is not modelled: broker and result backend, `rate_limit`, `max_retries`, `soft_time_limit`, concurrency between jobs, and the transport of `update_state`. Published progress is a list of values, not the `meta` dict.
- `create_task` (a sleep) and `unpack_chain` (unused) are not modelled.
- `copy_filestore` is not modelled: no task calls it.
- The FastAPI wiring (`app/main.py`, `app/api/v1/api.py`, `app/core/config.py`), `iterfile` and the streaming of bytes are I/O and are not modelled. A response is the path it sends.
- Tools.TruncDiv: `int(count * 100 / total)` divides in floating point before truncating. The model divides exactly, which agrees with Python while `count * 100` stays below 2^53.
- Endpoints.ChainRecords: a freshly launched record is taken to carry its registered task name already. Celery reads `AsyncResult.name` from the result backend's extended meta, which may hold nothing for a task that has not run yet; the `names` of the restore reply could then hold `None`s, which the model does not produce.
- Logging (`_logger`) and the `print` in `unzip_files` are not modelled.
- The result backend is an arena whose parent links point to earlier records (`WellFormed`); cycles are excluded. The `result` and the string form of a stored value are abstract.
- `ResultTree.GetFileFromTask`: only the default key `download` is modelled. A missing key reads as `False`, and `os.path.isfile(False)` is taken to be false.
- JSON `null` values in the payload and dict values of the wrong type cannot be expressed: `Payload` and `Context` fields are optional strings and records.
- The extra `cmd` argument of `restore_db_dump` and the `**options` of `unzip_files` (the `prefix`) have no effect in the model.

## Findings

| source | as written | input that shows it | evidently intended | confidence | as-written member | corrected member |
|---|---|---|---|---|---|---|
| app/worker/tools.py:129-133 | `args = DEFAULT_DUMP_CMD` binds the module-level list itself, and every call appends the database name to it for good | two backups of databases `a` then `b` in the same worker process: the second pg_dump receives `--no-owner a b` | a fresh list per call, `DEFAULT_DUMP_CMD + cmd + [db_name]`, so pg_dump receives exactly one database name | high; not executed | Tools.DumpArgsAccumulate | Tools.FreshDumpArgsOneDatabase |
| app/api/v1/endpoints/odoo.py:50-53 | `JSONResponse({'status': error})` puts the ValueError object itself in the body, which JSON rendering refuses with TypeError | `GET /download/<id>` for a task with no result: the request fails instead of answering with a status | `{'status': str(error)}`, a JSON status carrying the lookup's message | high; not executed | Endpoints.FastDownloadNeverReports | Endpoints.FastDownloadReported |

The pipeline keeps the first row as written: `Pipeline.DumpDb` grows the shared list. Nothing else in the model reads that list, so the corrected definition changes no other outcome.
