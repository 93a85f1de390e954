/**
 * The worker process as an object: its filesystem, the module-level `DEFAULT_DUMP_CMD` list
 * it shares between calls, and the progress values its tasks have published. The loops of
 * `tools.py` run here as methods that update these fields step by step; each is proved to
 * end in the state and with the result its functional counterpart in `Tools` describes.
 */
module Process {
  import opened Outcomes
  import opened PathNames
  import opened FileSystem
  import opened Tools

  class Worker {
    var fs: Fs
    var dumpCmd: seq<string>
    var events: seq<int>

    /** A freshly started process: the given filesystem, the initial dump arguments, nothing published. */
    constructor (fs0: Fs)
      ensures fs == fs0 && dumpCmd == DEFAULT_DUMP_CMD && events == []
    {
      fs := fs0;
      dumpCmd := DEFAULT_DUMP_CMD;
      events := [];
    }

    function State(): Host
      reads this
    {
      Host(fs, dumpCmd, events)
    }

    /** Takes on the state a straight-line helper leaves behind and hands back its outcome. */
    method Commit<T>(e: Effect<T>) returns (out: Result<T>)
      modifies this
      ensures State() == e.host && out == e.out
    {
      fs, dumpCmd, events := e.host.fs, e.host.dumpCmd, e.host.events;
      out := e.out;
    }

    /** `tools.clean_workdir(path, files)`. */
    method CleanWorkdir(path: Path, files: seq<Path>) returns (ok: bool)
      modifies this
      ensures (ok, fs) == Tools.CleanWorkdir(old(fs), path, files)
      ensures dumpCmd == old(dumpCmd) && events == old(events)
    {
      if !IsDir(fs, path) {
        return true;
      }
      if files == [] {
        match RmTree(fs, path)
        case Ok(fs1) =>
          fs := fs1;
          return true;
        case Err(_) =>
          return false;
      }
      var i := 0;
      while i < |files|
        invariant 0 <= i <= |files|
        invariant RemoveListed(fs, files[i..]) == RemoveListed(old(fs), files)
        invariant dumpCmd == old(dumpCmd) && events == old(events)
      {
        var f := files[i];
        assert files[i..][0] == f && files[i..][1..] == files[i + 1..];
        if Exists(fs, f) {
          match Remove(fs, f)
          case Err(_) =>
            return false;
          case Ok(fs1) =>
            fs := fs1;
        }
        i := i + 1;
      }
      return true;
    }

    /** `tools.add_to_zip(files, zipfile)`: the archive is opened, filled one listed file at a time, and closed. */
    method AddToZip(files: seq<Path>, zipfile: Path) returns (out: Result<FileInfo>)
      modifies this
      ensures Effect(State(), out) == Tools.AddToZip(old(State()), files, zipfile)
    {
      var z := ZipName(zipfile);
      if IsDir(fs, z) {
        return Err(IsADirectoryError(z));
      }
      fs := Write(fs, z, Zip([]));
      var members: seq<Member> := [];
      var i := 0;
      while i < |files|
        invariant 0 <= i <= |files|
        invariant members == ZipMembers(fs, files[..i])
      {
        var f := files[i];
        assert files[..i + 1][..i] == files[..i];
        if IsFile(fs, f) {
          members := members + [Member(MemberName(f), FileSize(fs, f))];
        }
        i := i + 1;
      }
      assert files[..|files|] == files;
      fs := Write(fs, z, Zip(members));
      return Ok(FileInfo(z, TotalSize(members)));
    }

    /**
     * `tools.add_folder_to_zip(root, zipfile, task)` over the listing `walk`: the archive is
     * opened in append mode, the walk adds its members and the progress values, and the
     * archive is closed.
     */
    method AddFolderToZip(root: Path, zipfile: Path, walk: seq<WalkEntry>, reporting: bool) returns (out: Result<FileInfo>)
      modifies this
      ensures Effect(State(), out) == Tools.AddFolderToZip(old(State()), root, zipfile, walk, reporting)
    {
      if IsDir(fs, zipfile) {
        return Err(IsADirectoryError(zipfile));
      }
      var before := ArchivedMembers(fs, zipfile);
      var added, published := WalkFolder(LenPrefix(root), walk, reporting);
      events := events + published;
      var ms := before + added;
      fs := Write(fs, zipfile, Zip(ms));
      return Ok(FileInfo(zipfile, TotalSize(ms)));
    }

    /** `tools.unzip_files(zipfile, names)`, with `tmp` the directory `mkdtemp` creates. */
    method UnzipFiles(zipfile: Path, names: seq<string>, tmp: Path) returns (out: Result<seq<FileInfo>>)
      modifies this
      ensures Effect(State(), out) == Tools.UnzipFiles(old(State()), zipfile, names, tmp)
    {
      if !Exists(fs, zipfile) {
        return Err(FileNotFoundError(zipfile));
      }
      fs := fs.(dirs := fs.dirs + {tmp});
      var archive := OpenZip(fs, zipfile);
      if archive.Err? {
        return Err(archive.error);
      }
      var ms := archive.value;
      ghost var fs1 := fs;
      var extracted: seq<FileInfo> := [];
      var i := 0;
      while i < |names|
        invariant 0 <= i <= |names|
        invariant (fs, extracted) == ExtractNamed(fs1, ms, names[..i], tmp)
        invariant dumpCmd == old(dumpCmd) && events == old(events)
      {
        var n := names[i];
        assert names[..i + 1][..i] == names[..i];
        var found := FindMember(ms, n);
        if found.Some? {
          var target := Join(tmp, n);
          fs := Write(fs, target, Plain(found.value.size));
          extracted := extracted + [FileInfo(target, found.value.size)];
        }
        i := i + 1;
      }
      assert names[..|names|] == names;
      return Ok(extracted);
    }

    /** `tools.create_db_dump(db_name, path)`: the shared argument list grows in place. */
    method CreateDbDump(dbName: string, path: Option<Path>, cmd: seq<string>, run: ToolRun) returns (out: Result<FileInfo>)
      modifies this
      ensures Effect(State(), out) == Tools.CreateDbDump(old(State()), dbName, path, cmd, run)
    {
      if |cmd| > 1 {
        return Err(TypeError);
      }
      if |cmd| == 1 {
        dumpCmd := dumpCmd + [cmd[0]];
      }
      dumpCmd := dumpCmd + [dbName];
      assert dumpCmd == DumpArgs(old(dumpCmd), cmd, dbName);
      ghost var h1 := old(State()).(dumpCmd := dumpCmd);
      assert State() == h1;
      if path.None? {
        return Err(TypeError);
      }
      var filepath := Join(path.value, DEFAULT_DUMP_FILENAME);
      if IsDir(fs, filepath) {
        return Err(IsADirectoryError(filepath));
      }
      fs := Write(fs, filepath, Plain(0));
      match run
      case Fails =>
        return Err(ToolError("pg_dump"));
      case Succeeds(size) =>
        fs := Write(fs, filepath, Plain(size));
        return Ok(FileInfo(filepath, size));
    }
  }

  /**
   * The loop of `add_folder_to_zip`: the counter goes up for a kept name and down for a
   * skipped one, a kept regular file becomes a member named `path[len_prefix:]`, and after
   * every entry the progress `int(count * 100 / total)` is published when it is a decile.
   */
  method WalkFolder(lenPrefix: nat, walk: seq<WalkEntry>, reporting: bool) returns (added: seq<Member>, published: seq<int>)
    ensures added == FolderMembers(walk, lenPrefix)
    ensures published == Emitted(KeptFlags(walk), |walk|, reporting)
  {
    var total := |walk|;
    var count := 0;
    added, published := [], [];
    ghost var kept := KeptFlags(walk);
    var i := 0;
    while i < total
      invariant 0 <= i <= total
      invariant count == Count(kept[..i])
      invariant added == FolderMembers(walk[..i], lenPrefix)
      invariant published == Emitted(kept[..i], total, reporting)
    {
      var e := walk[i];
      var skip := Skipped(e.name);
      FolderStep(walk, kept, i, lenPrefix, total, reporting);
      if !skip {
        var path := Join(e.dir, e.name);
        count := count + 1;
        if e.regular {
          added := added + [Member(Drop(path, lenPrefix), e.size)];
        }
      } else {
        count := count - 1;
      }
      assert count == Count(kept[..i + 1]);
      assert added == FolderMembers(walk[..i + 1], lenPrefix);
      var progress := TruncDiv(count * 100, total);
      assert progress == Progress(count, total);
      if reporting && progress in DECILES {
        published := published + [progress];
      }
      i := i + 1;
    }
    assert walk[..total] == walk && kept[..total] == kept;
  }
}
