/**
 * The helpers of the worker (`tools.py`) as functions of the process state they touch: the
 * filesystem, the module-level `pg_dump` argument list and the progress updates a task
 * publishes. Each helper yields the new process state together with its return value or the
 * exception it raises; a helper that raises part-way keeps the effects made before the raise.
 * External programs (pg_dump, psql, the PostgreSQL driver) are inputs: a `ToolRun` says how
 * the call ended.
 */
module Tools {
  import opened Outcomes
  import opened PathNames
  import opened FileSystem

  const OUTPUT_DIR: Path := "/usr/src/output"
  const INPUT_DIR: Path := "/usr/src/input"
  const DEFAULT_DUMP_FILENAME: string := "dump.sql"
  const DEFAULT_MANIFEST_FILENAME: string := "manifest.json"
  /** The initial value of the module-level list `DEFAULT_DUMP_CMD`. */
  const DEFAULT_DUMP_CMD: seq<string> := ["--no-owner"]
  /** The progress values `add_folder_to_zip` publishes. */
  const DECILES: seq<int> := [10, 20, 30, 40, 50, 60, 70, 80, 90, 100]
  /** The top-level folder name `unzip_filestore` extracts. */
  const FILESTORE_PREFIX: string := "filestore/"

  /** The `{'path': ..., 'size': ...}` dictionaries the helpers return. */
  datatype FileInfo = FileInfo(path: Path, size: nat)

  /** How a call into an external program ended; `size` is the size of what it wrote. */
  datatype ToolRun = Succeeds(size: nat) | Fails

  /**
   * One file name as `os.walk` lists it: the directory it was found in, the name, whether
   * `os.path.isfile` holds for it, and its size.
   */
  datatype WalkEntry = WalkEntry(dir: Path, name: string, regular: bool, size: nat)

  /**
   * The state the helpers change: the filesystem, the module-level `DEFAULT_DUMP_CMD` list
   * and the progress values published with `task.update_state`.
   */
  datatype Host = Host(fs: Fs, dumpCmd: seq<string>, events: seq<int>)

  /** The new process state and the return value or exception of a helper. */
  datatype Effect<T> = Effect(host: Host, out: Result<T>)

  function FileSize(fs: Fs, p: Path): nat
    requires IsFile(fs, p)
  {
    SizeOf(fs.files[Resolve(fs, p)])
  }

  // ---------------------------------------------------------------------------------------
  // _check_path, _get_postgres_env

  /** `_check_path(path, raise_if_not_found)`: the exception it raises, if any. */
  function CheckPath(fs: Fs, path: Path, raiseIfNotFound: bool): (r: Option<Error>)
    ensures r.Some? <==> raiseIfNotFound && !Exists(fs, path)
    ensures r.Some? ==> r.value == FileNotFoundError(path)
  {
    if !Exists(fs, path) && raiseIfNotFound then Some(FileNotFoundError(path)) else None
  }

  /** `_get_postgres_env()`: the connection settings handed to pg_dump and psql. */
  function PostgresEnv(host: string, port: string, user: string, password: string): (r: map<string, string>)
    ensures r.Keys == {"PGHOST", "PGPORT", "PGUSER", "PGPASSWORD"}
    ensures r["PGHOST"] == host && r["PGPORT"] == port && r["PGUSER"] == user && r["PGPASSWORD"] == password
  {
    map["PGHOST" := host, "PGPORT" := port, "PGUSER" := user, "PGPASSWORD" := password]
  }

  // ---------------------------------------------------------------------------------------
  // clean_workdir

  /**
   * The loop of `clean_workdir` over a non-empty `files`: each listed path that exists is
   * removed; the first removal that raises ends the loop with `False`, keeping the earlier
   * removals.
   */
  function RemoveListed(fs: Fs, files: seq<Path>): (r: (bool, Fs))
    ensures r.1.dirs == fs.dirs
    decreases |files|
  {
    if files == [] then (true, fs)
    else if Exists(fs, files[0]) then
      match Remove(fs, files[0])
      case Err(_) => (false, fs)
      case Ok(fs1) => RemoveListed(fs1, files[1..])
    else RemoveListed(fs, files[1..])
  }

  /**
   * `clean_workdir(path, files)`: `True` with nothing changed when `path` is not a
   * directory; otherwise the whole tree when `files` is empty, else the listed files.
   * It never raises: a failure reads as `False`.
   */
  function CleanWorkdir(fs: Fs, path: Path, files: seq<Path>): (r: (bool, Fs))
    ensures !IsDir(fs, path) ==> r == (true, fs)
    ensures IsDir(fs, path) && files == [] ==>
      r == if path in fs.links then (false, fs) else (true, Prune(fs, path))
  {
    if !IsDir(fs, path) then (true, fs)
    else if files == [] then
      match RmTree(fs, path)
      case Ok(fs1) => (true, fs1)
      case Err(_) => (false, fs)
    else RemoveListed(fs, files)
  }

  /**
   * Removing listed files fails exactly when a listed path is a directory; on success no
   * listed path exists any more and no other name has been removed or added.
   */
  lemma {:induction false} RemoveListedSpec(fs: Fs, files: seq<Path>)
    ensures RemoveListed(fs, files).0 <==> forall f :: f in files ==> f !in fs.dirs
    ensures RemoveListed(fs, files).0 ==> forall f :: f in files ==> !Exists(RemoveListed(fs, files).1, f)
    ensures forall q :: q !in files ==> (Lexists(RemoveListed(fs, files).1, q) <==> Lexists(fs, q))
    decreases |files|
  {
    if files != [] {
      var f := files[0];
      assert forall q :: q in files[1..] ==> q in files;
      if Exists(fs, f) {
        match Remove(fs, f)
        case Err(_) => {
          assert f in fs.dirs;
        }
        case Ok(fs1) => {
          RemoveListedSpec(fs1, files[1..]);
          var fin := RemoveListed(fs1, files[1..]).1;
          assert fin == RemoveListed(fs, files).1;
          forall q | q !in files ensures Lexists(fin, q) <==> Lexists(fs, q) {
            assert q !in files[1..];
          }
          if RemoveListed(fs, files).0 {
            assert !Lexists(fs1, f);
            RemovedStaysAbsent(fs1, files[1..], f);
          }
        }
      } else {
        assert f !in fs.dirs;
        RemoveListedSpec(fs, files[1..]);
        var fin := RemoveListed(fs, files[1..]).1;
        forall q | q !in files ensures Lexists(fin, q) <==> Lexists(fs, q) {
          assert q !in files[1..];
        }
        if RemoveListed(fs, files).0 {
          NonexistentStaysAbsent(fs, files[1..], f);
        }
      }
    }
  }

  lemma {:induction false} RemovedStaysAbsent(fs: Fs, files: seq<Path>, f: Path)
    requires !Lexists(fs, f)
    ensures !Lexists(RemoveListed(fs, files).1, f)
    decreases |files|
  {
    if files != [] && Exists(fs, files[0]) {
      match Remove(fs, files[0])
      case Err(_) =>
      case Ok(fs1) => RemovedStaysAbsent(fs1, files[1..], f);
    } else if files != [] {
      RemovedStaysAbsent(fs, files[1..], f);
    }
  }

  /** A name that does not exist cannot come to exist by removals. */
  lemma {:induction false} NonexistentStaysAbsent(fs: Fs, files: seq<Path>, f: Path)
    requires !Exists(fs, f)
    ensures !Exists(RemoveListed(fs, files).1, f)
    decreases |files|
  {
    if files != [] && Exists(fs, files[0]) {
      match Remove(fs, files[0])
      case Err(_) =>
      case Ok(fs1) => {
        assert fs1.dirs == fs.dirs;
        assert forall q :: q in fs1.files ==> q in fs.files;
        assert !Exists(fs1, f);
        NonexistentStaysAbsent(fs1, files[1..], f);
      }
    } else if files != [] {
      NonexistentStaysAbsent(fs, files[1..], f);
    }
  }

  // ---------------------------------------------------------------------------------------
  // add_to_zip

  /** The members `add_to_zip` writes: every listed regular file, under its member name, in list order. */
  function ZipMembers(fs: Fs, files: seq<Path>): (ms: seq<Member>)
    ensures |ms| <= |files|
  {
    if files == [] then []
    else
      var f := files[|files| - 1];
      ZipMembers(fs, files[..|files| - 1]) +
        (if IsFile(fs, f) then [Member(MemberName(f), FileSize(fs, f))] else [])
  }

  /**
   * `add_to_zip(files, zipfile)`: writes a new archive at `zipfile` (with `.zip` appended
   * when missing) holding the listed regular files; other paths are passed over.
   */
  function AddToZip(h: Host, files: seq<Path>, zipfile: Path): (e: Effect<FileInfo>)
    ensures e.out.Ok? ==> e.out.value.path == ZipName(zipfile) && EndsWith(e.out.value.path, ".zip")
    ensures e.out.Ok? ==> IsFile(e.host.fs, e.out.value.path)
    ensures e.host.dumpCmd == h.dumpCmd && e.host.events == h.events
    ensures Keeps(h.fs, e.host.fs)
  {
    var z := ZipName(zipfile);
    if IsDir(h.fs, z) then Effect(h, Err(IsADirectoryError(z)))
    else
      var fs1 := Write(h.fs, z, Zip([]));
      var ms := ZipMembers(fs1, files);
      Effect(h.(fs := Write(fs1, z, Zip(ms))), Ok(FileInfo(z, TotalSize(ms))))
  }

  /** Each listed regular file becomes a member under its member name, and every member comes from one. */
  lemma {:induction false} ZipMembersSpec(fs: Fs, files: seq<Path>)
    ensures forall f :: f in files && IsFile(fs, f) ==> Member(MemberName(f), FileSize(fs, f)) in ZipMembers(fs, files)
    ensures forall m :: m in ZipMembers(fs, files) ==>
      exists f :: f in files && IsFile(fs, f) && m == Member(MemberName(f), FileSize(fs, f))
    decreases |files|
  {
    if files != [] {
      var init := files[..|files| - 1];
      ZipMembersSpec(fs, init);
      assert files == init + [files[|files| - 1]];
      assert forall f :: f in init ==> f in files;
    }
  }

  /** For absolute, nested paths (as the backup stages produce) the members are the files' basenames. */
  lemma ZipMembersAreBasenames(fs: Fs, files: seq<Path>)
    requires forall f :: f in files ==> HasParentDir(f)
    ensures forall m :: m in ZipMembers(fs, files) ==> exists f :: f in files && m.name == Basename(f)
  {
    ZipMembersSpec(fs, files);
    forall m | m in ZipMembers(fs, files) ensures exists f :: f in files && m.name == Basename(f) {
      var f :| f in files && IsFile(fs, f) && m == Member(MemberName(f), FileSize(fs, f));
      MemberNameIsBasename(f);
    }
  }

  // ---------------------------------------------------------------------------------------
  // add_folder_to_zip


  /** `int(a / b)` for a positive `b`: division truncated toward zero, also for a negative `a`. */
  function TruncDiv(a: int, b: int): (q: int)
    requires b > 0
    ensures a >= 0 ==> q == a / b
    ensures a < 0 ==> q <= 0 && q * b >= a
  {
    if a >= 0 then a / b else -((-a) / b)
  }

  /** `progress = int((count * 100) / total)`. */
  function Progress(count: int, total: int): int
    requires total > 0
  {
    TruncDiv(count * 100, total)
  }

  /** For each walked entry, whether its name is kept, that is, not on the ignore list. */
  function KeptFlags(w: seq<WalkEntry>): (kept: seq<bool>)
    ensures |kept| == |w|
    ensures forall i :: 0 <= i < |w| ==> kept[i] == !Skipped(w[i].name)
  {
    seq(|w|, i requires 0 <= i < |w| => !Skipped(w[i].name))
  }

  /** The counter after the given entries: one up for a kept name, one down for a skipped one. */
  function Count(kept: seq<bool>): int {
    if kept == [] then 0
    else Count(kept[..|kept| - 1]) + (if kept[|kept| - 1] then 1 else -1)
  }

  /** The progress values published after the given entries, when a task is attached. */
  function Emitted(kept: seq<bool>, total: nat, reporting: bool): seq<int>
    requires |kept| <= total
  {
    if kept == [] then []
    else
      var p := Progress(Count(kept), total);
      Emitted(kept[..|kept| - 1], total, reporting) + (if reporting && p in DECILES then [p] else [])
  }

  /** The `len_prefix` of `add_folder_to_zip`: the length of the root's dirname, plus one for the separator when non-zero. */
  function LenPrefix(root: Path): nat {
    var n := |Dirname(root)|;
    if n != 0 then n + 1 else 0
  }

  /** The members the walk adds: kept names that are regular files, stored as `path[len_prefix:]`. */
  function FolderMembers(w: seq<WalkEntry>, lenPrefix: nat): seq<Member> {
    if w == [] then []
    else
      var e := w[|w| - 1];
      FolderMembers(w[..|w| - 1], lenPrefix) +
        (if !Skipped(e.name) && e.regular then [Member(Drop(Join(e.dir, e.name), lenPrefix), e.size)] else [])
  }

  /**
   * `add_folder_to_zip(root, zipfile, task)`: appends the walked files to the archive at
   * `zipfile` and, when a task is attached (`reporting`), publishes the decile progress
   * values. Opening in append mode creates a missing archive, and starts a new archive
   * behind the bytes of a file that is not one.
   */
  function AddFolderToZip(h: Host, root: Path, zipfile: Path, walk: seq<WalkEntry>, reporting: bool): (e: Effect<FileInfo>)
    ensures e.host.dumpCmd == h.dumpCmd
    ensures e.out.Ok? ==> e.host.events == h.events + Emitted(KeptFlags(walk), |walk|, reporting)
    ensures e.out.Ok? ==> e.out.value.path == zipfile && IsFile(e.host.fs, zipfile)
    ensures e.out.Err? ==> e.host == h
    ensures Keeps(h.fs, e.host.fs)
  {
    if IsDir(h.fs, zipfile) then Effect(h, Err(IsADirectoryError(zipfile)))
    else
      var before := ArchivedMembers(h.fs, zipfile);
      var ms := before + FolderMembers(walk, LenPrefix(root));
      Effect(Host(Write(h.fs, zipfile, Zip(ms)), h.dumpCmd, h.events + Emitted(KeptFlags(walk), |walk|, reporting)),
             Ok(FileInfo(zipfile, TotalSize(ms))))
  }

  /** The members already in the archive at `z`: none when it is missing or not an archive. */
  function ArchivedMembers(fs: Fs, z: Path): seq<Member> {
    if IsFile(fs, z) && fs.files[Resolve(fs, z)].Zip? then fs.files[Resolve(fs, z)].members else []
  }

  predicate AllKept(kept: seq<bool>) {
    forall i :: 0 <= i < |kept| ==> kept[i]
  }

  /** One more entry of the walk: how the counter, the members and the published values move. */
  lemma FolderStep(w: seq<WalkEntry>, kept: seq<bool>, i: nat, lenPrefix: nat, total: nat, reporting: bool)
    requires kept == KeptFlags(w) && i < |w| <= total
    ensures Count(kept[..i + 1]) == Count(kept[..i]) + (if Skipped(w[i].name) then -1 else 1)
    ensures FolderMembers(w[..i + 1], lenPrefix) == FolderMembers(w[..i], lenPrefix) +
      (if !Skipped(w[i].name) && w[i].regular then [Member(Drop(Join(w[i].dir, w[i].name), lenPrefix), w[i].size)] else [])
    ensures Emitted(kept[..i + 1], total, reporting) == Emitted(kept[..i], total, reporting) +
      (var p := Progress(Count(kept[..i + 1]), total); if reporting && p in DECILES then [p] else [])
  {
    assert w[..i + 1][..i] == w[..i] && kept[..i + 1][..i] == kept[..i];
  }

  /** Only decile values are ever published, and nothing without a task. */
  lemma {:induction false} EmittedAreDeciles(kept: seq<bool>, total: nat, reporting: bool)
    requires |kept| <= total
    ensures forall p :: p in Emitted(kept, total, reporting) ==> p in DECILES
    ensures !reporting ==> Emitted(kept, total, reporting) == []
    decreases |kept|
  {
    if kept != [] {
      EmittedAreDeciles(kept[..|kept| - 1], total, reporting);
    }
  }

  /** Every published value is the progress after some entry. */
  lemma {:induction false} EmittedValues(kept: seq<bool>, total: nat, reporting: bool)
    requires |kept| <= total
    ensures forall p :: p in Emitted(kept, total, reporting) ==>
      exists k :: 1 <= k <= |kept| && p == Progress(Count(kept[..k]), total)
    decreases |kept|
  {
    if kept != [] {
      var init := kept[..|kept| - 1];
      EmittedValues(init, total, reporting);
      forall p | p in Emitted(kept, total, reporting)
        ensures exists k :: 1 <= k <= |kept| && p == Progress(Count(kept[..k]), total)
      {
        if p in Emitted(init, total, reporting) {
          var k :| 1 <= k <= |init| && p == Progress(Count(init[..k]), total);
          assert init[..k] == kept[..k];
        } else {
          assert kept[..|kept|] == kept;
        }
      }
    }
  }

  /** The counter never exceeds the number of entries seen, and equals it when every name is kept. */
  lemma {:induction false} CountBound(kept: seq<bool>)
    ensures Count(kept) <= |kept|
    ensures AllKept(kept) ==> Count(kept) == |kept|
    decreases |kept|
  {
    if kept != [] {
      var init := kept[..|kept| - 1];
      CountBound(init);
      if AllKept(kept) {
        assert AllKept(init) by {
          forall i | 0 <= i < |init| ensures init[i] { assert init[i] == kept[i]; }
        }
      }
    }
  }

  /** Each skipped name costs the counter two: the step it does not take and the step back. */
  lemma {:induction false} CountWithSkip(kept: seq<bool>, j: nat)
    requires j < |kept| && !kept[j]
    ensures Count(kept) <= |kept| - 2
    decreases |kept|
  {
    var init := kept[..|kept| - 1];
    if j < |init| {
      assert init[j] == kept[j];
      CountWithSkip(init, j);
    } else {
      CountBound(init);
    }
  }

  lemma MulMonotone(x: int, y: int, n: nat)
    requires x <= y
    ensures x * n <= y * n
  {
    assert y * n == x * n + (y - x) * n;
  }

  /** Multiplying by a positive number preserves a strict order in both directions. */
  lemma MulStrict(x: int, y: int, n: nat)
    requires n > 0 && x * n < y * n
    ensures x < y
  {
    if x >= y {
      MulMonotone(y, x, n);
    }
  }

  lemma DivMonotone(a: nat, b: nat, n: nat)
    requires a <= b && n > 0
    ensures a / n <= b / n
  {
    var qa, qb := a / n, b / n;
    assert qa * n <= a;
    assert b < (qb + 1) * n;
    MulStrict(qa, qb + 1, n);
  }

  /** A counter below the total gives a progress below 100. */
  lemma ProgressBelowFull(c: int, n: int)
    requires 0 < n && c < n
    ensures Progress(c, n) < 100
  {
    if c >= 0 {
      var q := (c * 100) / n;
      assert q * n <= c * 100;
      assert c * 100 < 100 * n;
      MulStrict(q, 100, n);
    }
  }

  /** The whole walk counted gives exactly 100. */
  lemma ProgressFull(n: int)
    requires 0 < n
    ensures Progress(n, n) == 100
  {
    DivExact(100, n);
    assert n * 100 == 100 * n;
  }

  lemma DivExact(q: int, n: nat)
    requires n > 0
    ensures (q * n) / n == q
  {
    var d := q - (q * n) / n;
    assert d * n == q * n - ((q * n) / n) * n;
    assert 0 <= d * n < 1 * n;
    MulStrict(d, 1, n);
    MulStrict(-1, d, n);
  }

  /**
   * With no skipped names, the progress after the k-th of n files is floor(100k/n):
   * it never decreases and reaches 100 at the last file.
   */
  lemma NoSkipProgress(kept: seq<bool>, j: nat, k: nat)
    requires AllKept(kept) && 1 <= j <= k <= |kept|
    ensures Progress(Count(kept[..k]), |kept|) == (100 * k) / |kept|
    ensures Progress(Count(kept[..j]), |kept|) <= Progress(Count(kept[..k]), |kept|)
    ensures Progress(Count(kept), |kept|) == 100
  {
    assert AllKept(kept[..j]) by {
      forall i | 0 <= i < j ensures kept[..j][i] { assert kept[..j][i] == kept[i]; }
    }
    assert AllKept(kept[..k]) by {
      forall i | 0 <= i < k ensures kept[..k][i] { assert kept[..k][i] == kept[i]; }
    }
    CountBound(kept[..j]);
    CountBound(kept[..k]);
    CountBound(kept);
    assert Count(kept[..j]) * 100 == 100 * j;
    assert Count(kept[..k]) * 100 == 100 * k;
    MulMonotone(j, k, 100);
    DivMonotone(100 * j, 100 * k, |kept|);
    ProgressFull(|kept|);
  }

  /** With a task attached, 100 is published exactly when no name in the walk is skipped. */
  lemma HundredIffAllKept(kept: seq<bool>)
    requires |kept| > 0
    ensures 100 in Emitted(kept, |kept|, true) <==> AllKept(kept)
  {
    var n := |kept|;
    assert kept[..n] == kept;
    if AllKept(kept) {
      NoSkipProgress(kept, n, n);
    } else {
      var j :| 0 <= j < n && !kept[j];
      EmittedValues(kept, n, true);
      forall k | 1 <= k <= n ensures Progress(Count(kept[..k]), n) < 100 {
        CountBound(kept[..k]);
        if k == n {
          CountWithSkip(kept, j);
        }
        ProgressBelowFull(Count(kept[..k]), n);
      }
    }
  }

  /**
   * The same decile can be published twice: a skipped name pulls the counter back, so with
   * ten entries of which the second is skipped, 10 is published after the first and the third.
   */
  lemma RepeatedDecile(kept: seq<bool>)
    requires |kept| == 10 && kept[0] && !kept[1] && kept[2]
    ensures Emitted(kept[..3], 10, true) == [10, 10]
  {
    var k1, k2, k3 := kept[..1], kept[..2], kept[..3];
    assert k2[..1] == k1 && k3[..2] == k2 && k1[..0] == [];
    assert Count(k1) == 1;
    assert Count(k2) == 0;
    assert Count(k3) == 1;
    assert Emitted(k1, 10, true) == [10];
    assert Emitted(k2, 10, true) == [10];
  }

  /**
   * Any file name made of a stem that is not only dots and an ignored extension (`b.pyc`,
   * `notes.txt.swp`) is skipped.
   */
  lemma IgnoredExtensionSkipped(stem: string, e: string)
    requires '/' !in stem && !AllDots(stem)
    requires e in IGNORED_EXTENSIONS
    ensures Skipped(stem + e)
  {
    var f := stem + e;
    assert f[|f| - |e|..] == e;
    assert f[..|f| - |e|] == stem;
    assert '/' !in f by {
      assert forall j :: 0 <= j < |f| ==> f[j] == if j < |stem| then stem[j] else e[j - |stem|];
    }
    SkipKeyOfIgnored(f, e);
  }

  /** A walk entry found under the folder being archived: in the folder itself or below it. */
  predicate WalkedUnder(e: WalkEntry, root: Path) {
    Under(e.dir, root) && !StartsWith(e.name, "/")
  }

  /**
   * Member names keep the archived folder's own name: with the root's parent stripped,
   * a path under the root begins with `<basename(root)>/`, e.g. `filestore/...`.
   */
  lemma FolderMemberName(root: Path, e: WalkEntry)
    requires HasParentDir(root) && !EndsWith(root, "/")
    requires WalkedUnder(e, root)
    ensures StartsWith(Drop(Join(e.dir, e.name), LenPrefix(root)), Basename(root) + "/")
  {
    DirnameOfNested(root);
    var k := RFind(root, '/');
    JoinUnder(e.dir, e.name, root);
    DropPrefix(Join(e.dir, e.name), root + "/", k + 1);
    assert (root + "/")[k + 1..] == Basename(root) + "/";
  }

  lemma JoinUnder(dir: Path, name: Path, root: Path)
    requires root != [] && !EndsWith(root, "/") && Under(dir, root) && !StartsWith(name, "/")
    ensures StartsWith(Join(dir, name), root + "/")
  {
    var path := Join(dir, name);
    if dir == root {
      assert path == root + "/" + name;
    } else {
      assert StartsWith(path, dir);
      assert path[..|root| + 1] == dir[..|root| + 1];
    }
  }

  lemma DropPrefix(s: string, pre: string, n: nat)
    requires StartsWith(s, pre) && n <= |pre|
    ensures StartsWith(Drop(s, n), pre[n..])
  {
    assert Drop(s, n)[..|pre| - n] == s[n..|pre|];
  }

  /** Every member the walk adds begins with the folder's name and a separator. */
  lemma {:induction false} FolderMembersUnderRoot(root: Path, w: seq<WalkEntry>)
    requires HasParentDir(root) && !EndsWith(root, "/")
    requires forall i :: 0 <= i < |w| ==> WalkedUnder(w[i], root)
    ensures forall m :: m in FolderMembers(w, LenPrefix(root)) ==> StartsWith(m.name, Basename(root) + "/")
    decreases |w|
  {
    if w != [] {
      var e := w[|w| - 1];
      FolderMembersUnderRoot(root, w[..|w| - 1]);
      FolderMemberName(root, e);
    }
  }

  // ---------------------------------------------------------------------------------------
  // Reading archives: unzip_files, unzip_filestore, unzip_backup

  /** `ZipFile(zipfile, 'r')`: the archive's members, or the exception opening it raises. */
  function OpenZip(fs: Fs, z: Path): (r: Result<seq<Member>>)
    ensures r.Ok? <==> !IsDir(fs, z) && IsFile(fs, z) && fs.files[Resolve(fs, z)].Zip?
  {
    if IsDir(fs, z) then Err(IsADirectoryError(z))
    else if !IsFile(fs, z) then Err(FileNotFoundError(z))
    else match fs.files[Resolve(fs, z)]
      case Plain(_) => Err(BadZipFile(z))
      case Zip(ms) => Ok(ms)
  }

  /** The member `extract(name)` reads: the last one stored under that name, if any. */
  function FindMember(ms: seq<Member>, name: string): (r: Option<Member>)
    ensures r.Some? ==> r.value in ms && r.value.name == name
    ensures r.None? <==> forall i :: 0 <= i < |ms| ==> ms[i].name != name
  {
    if ms == [] then None
    else if ms[|ms| - 1].name == name then Some(ms[|ms| - 1])
    else FindMember(ms[..|ms| - 1], name)
  }

  /** The loop of `unzip_files`: each requested name found in the archive is extracted into `tmp` and listed. */
  function ExtractNamed(fs: Fs, ms: seq<Member>, names: seq<string>, tmp: Path): (r: (Fs, seq<FileInfo>))
    ensures |r.1| <= |names|
    ensures r.0.dirs == fs.dirs && r.0.links == fs.links
  {
    if names == [] then (fs, [])
    else
      var (fs1, infos) := ExtractNamed(fs, ms, names[..|names| - 1], tmp);
      var n := names[|names| - 1];
      match FindMember(ms, n)
      case None => (fs1, infos)
      case Some(m) => (Write(fs1, Join(tmp, n), Plain(m.size)), infos + [FileInfo(Join(tmp, n), m.size)])
  }

  /**
   * `unzip_files(zipfile, names)`: a fresh temporary directory `tmp` (from `mkdtemp`)
   * receives the requested members; the result lists the extracted files.
   */
  function UnzipFiles(h: Host, zipfile: Path, names: seq<string>, tmp: Path): (e: Effect<seq<FileInfo>>)
    ensures !Exists(h.fs, zipfile) ==> e == Effect(h, Err(FileNotFoundError(zipfile)))
    ensures e.out.Ok? ==>
      var fs1 := h.fs.(dirs := h.fs.dirs + {tmp});
      OpenZip(fs1, zipfile).Ok? && e.out.value == ExtractNamed(fs1, OpenZip(fs1, zipfile).value, names, tmp).1
    ensures e.host.dumpCmd == h.dumpCmd && e.host.events == h.events
    ensures Keeps(h.fs, e.host.fs)
  {
    match CheckPath(h.fs, zipfile, true)
    case Some(err) => Effect(h, Err(err))
    case None =>
      var fs1 := h.fs.(dirs := h.fs.dirs + {tmp});
      match OpenZip(fs1, zipfile)
      case Err(err) => Effect(h.(fs := fs1), Err(err))
      case Ok(ms) =>
        var (fs2, infos) := ExtractNamed(fs1, ms, names, tmp);
        Effect(h.(fs := fs2), Ok(infos))
  }

  /** The requested names the archive holds, in request order: an independent statement of what `unzip_files` lists. */
  function PresentNames(ms: seq<Member>, names: seq<string>): (r: seq<string>)
    ensures forall n :: n in r <==> n in names && FindMember(ms, n).Some?
  {
    if names == [] then []
    else
      var n := names[|names| - 1];
      PresentNames(ms, names[..|names| - 1]) + (if FindMember(ms, n).Some? then [n] else [])
  }

  /**
   * `unzip_files` lists exactly the requested names present in the archive, in request
   * order and each under `tmp`, with the size of the member it was extracted from.
   */
  lemma {:induction false} ExtractNamedSpec(fs: Fs, ms: seq<Member>, names: seq<string>, tmp: Path)
    ensures |ExtractNamed(fs, ms, names, tmp).1| == |PresentNames(ms, names)|
    ensures forall i :: 0 <= i < |PresentNames(ms, names)| ==>
      var n := PresentNames(ms, names)[i];
      FindMember(ms, n).Some? && ExtractNamed(fs, ms, names, tmp).1[i] == FileInfo(Join(tmp, n), FindMember(ms, n).value.size)
    decreases |names|
  {
    if names != [] {
      var init := names[..|names| - 1];
      var n := names[|names| - 1];
      ExtractNamedSpec(fs, ms, init, tmp);
      var before := ExtractNamed(fs, ms, init, tmp).1;
      var after := ExtractNamed(fs, ms, names, tmp).1;
      var p := PresentNames(ms, init);
      var q := PresentNames(ms, names);
      if FindMember(ms, n).Some? {
        assert q == p + [n];
        assert after == before + [FileInfo(Join(tmp, n), FindMember(ms, n).value.size)];
        forall i | 0 <= i < |q|
          ensures FindMember(ms, q[i]).Some? && after[i] == FileInfo(Join(tmp, q[i]), FindMember(ms, q[i]).value.size)
        {
          if i < |p| {
            assert q[i] == p[i] && after[i] == before[i];
          }
        }
      } else {
        assert q == p && after == before;
      }
    }
  }

  /** Asking for one name yields one entry when the archive holds it and none otherwise. */
  lemma ExtractOne(fs: Fs, ms: seq<Member>, name: string, tmp: Path)
    ensures FindMember(ms, name).None? ==> ExtractNamed(fs, ms, [name], tmp).1 == []
    ensures FindMember(ms, name).Some? ==>
      ExtractNamed(fs, ms, [name], tmp).1 == [FileInfo(Join(tmp, name), FindMember(ms, name).value.size)]
  {
    assert [name][..0] == [];
  }

  /** The members `unzip_filestore` extracts: those under `filestore/`, in archive order. */
  function SelectFilestore(ms: seq<Member>): (r: seq<Member>)
    ensures forall m :: m in r <==> m in ms && StartsWith(m.name, FILESTORE_PREFIX)
    ensures |r| <= |ms|
  {
    if ms == [] then []
    else
      var m := ms[|ms| - 1];
      SelectFilestore(ms[..|ms| - 1]) + (if StartsWith(m.name, FILESTORE_PREFIX) then [m] else [])
  }

  /** Extracting members below `dest` with the first `strip` characters of their names removed; a name ending in `/` is a directory. */
  function Extracted(fs: Fs, dest: Path, ms: seq<Member>, strip: nat): (r: Fs)
    ensures fs.dirs <= r.dirs && fs.files.Keys <= r.files.Keys && r.links == fs.links
    ensures forall q :: Exists(fs, q) ==> Exists(r, q)
  {
    if ms == [] then fs
    else
      var fs1 := Extracted(fs, dest, ms[..|ms| - 1], strip);
      var m := ms[|ms| - 1];
      var target := Join(dest, Drop(m.name, strip));
      if EndsWith(m.name, "/") then fs1.(dirs := fs1.dirs + {target})
      else Write(fs1, target, Plain(m.size))
  }

  /**
   * `unzip_filestore(zipfile, db_name, path)`: the `filestore/` members become the directory
   * `path/<db_name>` when `path` is a directory, or `path` itself otherwise. The temporary
   * directory they pass through (`scratch`) leaves no trace.
   */
  function UnzipFilestore(h: Host, zipfile: Path, dbName: Option<string>, path: Path, scratch: Path): (e: Effect<FileInfo>)
    ensures e.host.dumpCmd == h.dumpCmd && e.host.events == h.events
    ensures e.out.Err? ==> e.host == h
    ensures e.out.Ok? ==> dbName.Some? && e.out.value.path == path
    ensures e.out.Ok? ==> FilestoreDest(h.fs, path, dbName.value) in e.host.fs.dirs
    ensures Keeps(h.fs, e.host.fs)
  {
    match CheckPath(h.fs, zipfile, true)
    case Some(err) => Effect(h, Err(err))
    case None =>
      match OpenZip(h.fs, zipfile)
      case Err(err) => Effect(h, Err(err))
      case Ok(ms) =>
        var selected := SelectFilestore(ms);
        if dbName.None? then Effect(h, Err(TypeError))
        else if selected == [] then Effect(h, Err(FileNotFoundError(Join(scratch, "filestore"))))
        else
          var dest := FilestoreDest(h.fs, path, dbName.value);
          if Lexists(h.fs, dest) then Effect(h, Err(OSError(dest)))
          else
            var fs1 := Extracted(h.fs.(dirs := h.fs.dirs + {dest}), dest, selected, |FILESTORE_PREFIX|);
            assert Exists(fs1, zipfile);
            Effect(h.(fs := fs1), Ok(FileInfo(path, Stat(fs1, zipfile).value)))
  }

  /** Where `shutil.move` puts the extracted folder: inside `path` when it is a directory. */
  function FilestoreDest(fs: Fs, path: Path, dbName: string): Path {
    if IsDir(fs, path) then Join(path, dbName) else path
  }

  /** `unzip_backup(zipfile, path)`: every member extracted below `path`, which is created when it is not a directory. */
  function UnzipBackup(h: Host, zipfile: Path, path: Path): (e: Effect<FileInfo>)
    ensures e.host.dumpCmd == h.dumpCmd && e.host.events == h.events
    ensures e.out.Ok? ==> e.out.value.path == path && IsDir(e.host.fs, path)
    ensures !Exists(h.fs, zipfile) ==> e == Effect(h, Err(FileNotFoundError(zipfile)))
    ensures Keeps(h.fs, e.host.fs)
  {
    match CheckPath(h.fs, zipfile, true)
    case Some(err) => Effect(h, Err(err))
    case None =>
      var made := if IsDir(h.fs, path) then Ok(h.fs) else Mkdir(h.fs, path);
      match made
      case Err(err) => Effect(h, Err(err))
      case Ok(fs1) =>
        match OpenZip(fs1, zipfile)
        case Err(err) => Effect(h.(fs := fs1), Err(err))
        case Ok(ms) =>
          var fs2 := Extracted(fs1, path, ms, 0);
          assert Exists(fs2, zipfile);
          Effect(h.(fs := fs2), Ok(FileInfo(path, Stat(fs2, zipfile).value)))
  }

  // ---------------------------------------------------------------------------------------
  // Database helpers: create_db_dump, restore_db_dump, create_odoo_manifest, create_database

  /**
   * The list `create_db_dump` hands to pg_dump: `args` is the shared module-level list
   * itself, extended by the optional extra option and the database name.
   */
  function DumpArgs(shared: seq<string>, cmd: seq<string>, dbName: string): (args: seq<string>)
    requires |cmd| <= 1
    ensures |args| == |shared| + |cmd| + 1
    ensures args[..|shared|] == shared && args[|args| - 1] == dbName
  {
    shared + cmd + [dbName]
  }

  /** The arguments that are not options: pg_dump takes at most one, the database name. */
  function Positional(args: seq<string>): (n: nat)
    ensures n <= |args|
  {
    if args == [] then 0
    else Positional(args[..|args| - 1]) + (if StartsWith(args[|args| - 1], "-") then 0 else 1)
  }

  /**
   * `create_db_dump(db_name, path)`: extends the shared argument list, creates the gzip
   * file `path/dump.sql` and lets pg_dump fill it. A `cmd` of two or more words makes
   * `list.append` raise `TypeError` before anything happens; the list keeps its growth even
   * when a later step raises.
   */
  function CreateDbDump(h: Host, dbName: string, path: Option<Path>, cmd: seq<string>, run: ToolRun): (e: Effect<FileInfo>)
    ensures |cmd| > 1 ==> e == Effect(h, Err(TypeError))
    ensures |cmd| <= 1 ==> e.host.dumpCmd == DumpArgs(h.dumpCmd, cmd, dbName)
    ensures e.host.events == h.events
    ensures e.out.Ok? <==> |cmd| <= 1 && path.Some? && !IsDir(h.fs, Join(path.value, DEFAULT_DUMP_FILENAME)) && run.Succeeds?
    ensures e.out.Ok? ==>
      e.out.value == FileInfo(Join(path.value, DEFAULT_DUMP_FILENAME), run.size) && IsFile(e.host.fs, e.out.value.path)
    ensures Keeps(h.fs, e.host.fs)
  {
    if |cmd| > 1 then Effect(h, Err(TypeError))
    else
      var h1 := h.(dumpCmd := DumpArgs(h.dumpCmd, cmd, dbName));
      if path.None? then Effect(h1, Err(TypeError))
      else
        var filepath := Join(path.value, DEFAULT_DUMP_FILENAME);
        if IsDir(h.fs, filepath) then Effect(h1, Err(IsADirectoryError(filepath)))
        else
          var fs1 := Write(h.fs, filepath, Plain(0));
          match run
          case Fails => Effect(h1.(fs := fs1), Err(ToolError("pg_dump")))
          case Succeeds(size) => Effect(h1.(fs := Write(fs1, filepath, Plain(size))), Ok(FileInfo(filepath, size)))
  }

  /**
   * Two dumps in one worker process: the second pg_dump call receives both database names,
   * the first one left in the shared list by the first call.
   */
  lemma DumpArgsAccumulate(h: Host, first: string, second: string, path: Path, run1: ToolRun, run2: ToolRun)
    requires h.dumpCmd == DEFAULT_DUMP_CMD
    requires !StartsWith(first, "-") && !StartsWith(second, "-")
    ensures var h1 := CreateDbDump(h, first, Some(path), [], run1).host;
      CreateDbDump(h1, second, Some(path), [], run2).host.dumpCmd == ["--no-owner", first, second]
      && Positional(["--no-owner", first, second]) == 2
  {
    assert StartsWith("--no-owner", "-");
    PositionalSnoc([], "--no-owner");
    PositionalSnoc(["--no-owner"], first);
    PositionalSnoc(["--no-owner", first], second);
  }

  lemma PositionalSnoc(args: seq<string>, a: string)
    ensures Positional(args + [a]) == Positional(args) + (if StartsWith(a, "-") then 0 else 1)
  {
    assert (args + [a])[..|args|] == args;
  }

  /** The corrected argument list: a fresh list per call, `DEFAULT_DUMP_CMD + cmd + [db_name]`. */
  function FreshDumpArgs(cmd: seq<string>, dbName: string): (args: seq<string>)
    requires |cmd| <= 1
    ensures |args| == |DEFAULT_DUMP_CMD| + |cmd| + 1 && args[|args| - 1] == dbName
  {
    DEFAULT_DUMP_CMD + cmd + [dbName]
  }

  /** With a fresh list, every call passes pg_dump exactly one database name, whatever ran before. */
  lemma FreshDumpArgsOneDatabase(cmd: seq<string>, dbName: string)
    requires |cmd| <= 1 && (forall i :: 0 <= i < |cmd| ==> StartsWith(cmd[i], "-"))
    requires !StartsWith(dbName, "-")
    ensures Positional(FreshDumpArgs(cmd, dbName)) == 1
  {
    var base: seq<string> := ["--no-owner"];
    assert Positional(base) == 0 by {
      assert base[..0] == [];
      assert StartsWith(base[0], "-");
    }
    var mid := base + cmd;
    assert Positional(mid) == 0 by {
      if cmd != [] {
        assert mid == base + [cmd[0]];
        PositionalSnoc(base, cmd[0]);
      } else {
        assert mid == base;
      }
    }
    PositionalSnoc(mid, dbName);
  }

  /** The psql arguments of `restore_db_dump`: a fresh list built on each call. */
  function RestoreArgs(user: string, dbName: string, filepath: Path): seq<string> {
    ["-U", user, "-d", dbName, "-f", filepath]
  }

  /** `restore_db_dump(db_name, filepath)`: the dump must be a regular file; psql replays it into the database. */
  function RestoreDbDump(h: Host, dbName: string, filepath: Path, run: ToolRun): (e: Effect<FileInfo>)
    ensures e.host == h
    ensures e.out.Ok? <==> IsFile(h.fs, filepath) && run.Succeeds?
    ensures e.out.Ok? ==> e.out.value == FileInfo(filepath, FileSize(h.fs, filepath))
    ensures !IsFile(h.fs, filepath) ==> e.out == Err(FileNotFoundError(filepath))
  {
    if !IsFile(h.fs, filepath) then Effect(h, Err(FileNotFoundError(filepath)))
    else
      match run
      case Fails => Effect(h, Err(ToolError("psql")))
      case Succeeds(_) => Effect(h, Ok(FileInfo(filepath, FileSize(h.fs, filepath))))
  }

  /**
   * `create_odoo_manifest(path, db_name)`: opens `path/manifest.json` for writing before
   * connecting to the database, so the empty file stays behind when the connection fails.
   */
  function CreateOdooManifest(h: Host, path: Option<Path>, run: ToolRun): (e: Effect<Path>)
    ensures e.host.dumpCmd == h.dumpCmd && e.host.events == h.events
    ensures path.None? ==> e == Effect(h, Err(TypeError))
    ensures path.Some? && !IsDir(h.fs, Join(path.value, DEFAULT_MANIFEST_FILENAME)) ==>
      IsFile(e.host.fs, Join(path.value, DEFAULT_MANIFEST_FILENAME))
    ensures e.out.Ok? <==> path.Some? && !IsDir(h.fs, Join(path.value, DEFAULT_MANIFEST_FILENAME)) && run.Succeeds?
    ensures e.out.Ok? ==> e.out.value == Join(path.value, DEFAULT_MANIFEST_FILENAME)
    ensures Keeps(h.fs, e.host.fs)
  {
    if path.None? then Effect(h, Err(TypeError))
    else
      var filepath := Join(path.value, DEFAULT_MANIFEST_FILENAME);
      if IsDir(h.fs, filepath) then Effect(h, Err(IsADirectoryError(filepath)))
      else
        var fs1 := Write(h.fs, filepath, Plain(0));
        match run
        case Fails => Effect(h.(fs := fs1), Err(ToolError("postgres")))
        case Succeeds(size) => Effect(h.(fs := Write(fs1, filepath, Plain(size))), Ok(filepath))
  }

  /** `create_database(db_name)`: `True` when the `CREATE DATABASE` statement went through. */
  function CreateDatabase(h: Host, run: ToolRun): (e: Effect<bool>)
    ensures e.host == h
    ensures e.out.Ok? <==> run.Succeeds?
    ensures e.out.Ok? ==> e.out.value
  {
    match run
    case Fails => Effect(h, Err(ToolError("postgres")))
    case Succeeds(_) => Effect(h, Ok(true))
  }
}
