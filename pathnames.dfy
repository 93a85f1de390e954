/**
 * The part of POSIX path handling (Python's `posixpath`) that the worker relies on:
 * joining, `dirname`/`basename`, `splitext`, and the names the archive helpers derive
 * from a path. Paths are strings; `os.path.normpath` is taken to be the identity, that
 * is, every path the model handles is already normalised.
 */
module PathNames {

  type Path = string

  predicate StartsWith(s: string, prefix: string) {
    |prefix| <= |s| && s[..|prefix|] == prefix
  }

  predicate EndsWith(s: string, suffix: string) {
    |suffix| <= |s| && s[|s| - |suffix|..] == suffix
  }

  /** Python's slice `s[n:]`, which is empty when `n` is past the end. */
  function Drop(s: string, n: nat): string {
    if n <= |s| then s[n..] else []
  }

  /** `os.path.join(a, b)`: an absolute `b` replaces `a`; otherwise a single separator is put between them. */
  function Join(a: Path, b: Path): (r: Path)
    ensures EndsWith(r, b)
    ensures !StartsWith(b, "/") ==> StartsWith(r, a)
    ensures a != [] && !EndsWith(a, "/") && !StartsWith(b, "/") ==> r == a + "/" + b
  {
    if StartsWith(b, "/") then b
    else if a == [] || EndsWith(a, "/") then a + b
    else a + "/" + b
  }

  /** `s.rfind(c)`: the index of the last `c` in `s`, or -1. */
  function RFind(s: string, c: char): (i: int)
    ensures -1 <= i < |s|
    ensures 0 <= i ==> s[i] == c
    ensures forall j :: i < j < |s| ==> s[j] != c
  {
    if s == [] then -1
    else if s[|s| - 1] == c then |s| - 1
    else RFind(s[..|s| - 1], c)
  }

  predicate AllSlashes(s: string) {
    forall j :: 0 <= j < |s| ==> s[j] == '/'
  }

  function RStripSlashes(s: string): (r: string)
    ensures StartsWith(s, r)
    ensures r == [] || r[|r| - 1] != '/'
  {
    if s != [] && s[|s| - 1] == '/' then RStripSlashes(s[..|s| - 1]) else s
  }

  /** `os.path.dirname(p)`: everything up to the last separator, trailing separators removed unless only separators are left. */
  function Dirname(p: Path): Path {
    var head := p[..RFind(p, '/') + 1];
    if head != [] && !AllSlashes(head) then RStripSlashes(head) else head
  }

  /** `os.path.basename(p)`: everything after the last separator. */
  function Basename(p: Path): (r: Path)
    ensures '/' !in r
    ensures EndsWith(p, r)
  {
    p[RFind(p, '/') + 1..]
  }

  /** The path has a directory part that is neither empty nor the root: `a/b`, `/a/b`, not `b` or `/b`. */
  predicate HasParentDir(p: Path) {
    var k := RFind(p, '/');
    1 <= k && p[k - 1] != '/'
  }

  /** The last `c` of `s + [c] + t` is the one put there when `t` holds none. */
  lemma {:induction false} RFindAfter(s: string, c: char, t: string)
    requires c !in t
    ensures RFind(s + [c] + t, c) == |s|
    decreases |t|
  {
    var u := s + [c] + t;
    if t == [] {
      assert u[|u| - 1] == c;
    } else {
      assert u[|u| - 1] == t[|t| - 1];
      assert u[..|u| - 1] == s + [c] + t[..|t| - 1];
      RFindAfter(s, c, t[..|t| - 1]);
    }
  }

  lemma DirnameOfNested(p: Path)
    requires HasParentDir(p)
    ensures Dirname(p) == p[..RFind(p, '/')]
  {
    var k := RFind(p, '/');
    var head := p[..k + 1];
    assert head[k - 1] == p[k - 1];
    assert !AllSlashes(head);
    assert head[..k] == p[..k];
    assert RStripSlashes(head) == RStripSlashes(head[..k]);
    assert head[..k][k - 1] != '/';
  }

  /**
   * The archive member name `add_to_zip` stores a file under:
   * `filepath[len(os.path.dirname(filepath)) + 1:]`.
   */
  function MemberName(p: Path): Path {
    Drop(p, |Dirname(p)| + 1)
  }

  /** For a path with a real directory part the member name is the file's basename. */
  lemma MemberNameIsBasename(p: Path)
    requires HasParentDir(p)
    ensures MemberName(p) == Basename(p)
    ensures '/' !in MemberName(p)
  {
    DirnameOfNested(p);
  }

  /** A bare file name loses its first character: the `+ 1` skips a separator that is not there. */
  lemma MemberNameOfBareName(p: Path)
    requires p != [] && '/' !in p
    ensures MemberName(p) == p[1..]
    ensures MemberName(p) != Basename(p)
  {
    assert RFind(p, '/') == -1;
    assert Dirname(p) == [];
    assert Basename(p) == p;
    assert |MemberName(p)| < |p|;
  }

  /** A file directly under the root loses its first character too: the dirname `/` is not stripped. */
  lemma MemberNameUnderRoot(name: Path)
    requires name != [] && '/' !in name
    ensures MemberName("/" + name) == name[1..]
  {
    var p := "/" + name;
    assert p[0] == '/';
    assert forall j :: 0 < j < |p| ==> p[j] == name[j - 1];
    assert RFind(p, '/') == 0;
    assert p[..1] == "/";
    assert AllSlashes(p[..1]);
    assert Dirname(p) == "/";
    assert p[2..] == name[1..];
  }

  /** The archive path `add_to_zip` writes to: `.zip` is appended when the name lacks it. */
  function ZipName(z: Path): (r: Path)
    ensures EndsWith(r, ".zip")
    ensures StartsWith(r, z)
    ensures EndsWith(z, ".zip") ==> r == z
  {
    if EndsWith(z, ".zip") then z else z + ".zip"
  }

  lemma ZipNameIdempotent(z: Path)
    ensures ZipName(ZipName(z)) == ZipName(z)
    ensures !EndsWith(z, ".zip") ==> |ZipName(z)| == |z| + 4
  {
  }

  predicate AllDots(s: string) {
    forall j :: 0 <= j < |s| ==> s[j] == '.'
  }

  /**
   * `os.path.splitext(p)`: the extension runs from the last dot of the last path component,
   * provided some character before that dot (in the component) is not itself a dot; leading
   * dots, as in `.bashrc`, do not start an extension.
   */
  function SplitExt(p: Path): (r: (Path, string))
    ensures r.0 + r.1 == p
    ensures IsExtension(r.1)
  {
    var sep := RFind(p, '/');
    var dot := RFind(p, '.');
    if dot > sep && !AllDots(p[sep + 1..dot]) then
      ExtensionAfter(p, sep, dot);
      (p[..dot], p[dot..])
    else (p, [])
  }

  /** What follows the last dot of the last component is a dot and then neither dots nor separators. */
  lemma ExtensionAfter(p: Path, sep: int, dot: int)
    requires sep == RFind(p, '/') && dot == RFind(p, '.') && sep < dot
    ensures p[..dot] + p[dot..] == p
    ensures IsExtension(p[dot..])
  {
    var e := p[dot..];
    forall j | 0 <= j < |e| ensures e[j] != '/' && (j == 0 || e[j] != '.') {
      assert e[j] == p[dot + j];
    }
  }

  /** Empty, or a dot followed by characters that are neither dots nor separators. */
  predicate IsExtension(e: string) {
    e == [] || (e[0] == '.' && forall j :: 0 <= j < |e| ==> e[j] != '/' && (j == 0 || e[j] != '.'))
  }

  const IGNORED_EXTENSIONS: seq<string> := [".pyc", ".pyo", ".swp", ".DS_Store"]

  /** The key `add_folder_to_zip` tests against the ignore list: `ext or bname`. */
  function SkipKey(fname: string): string {
    var (root, ext) := SplitExt(fname);
    if ext != [] then ext else root
  }

  /** Whether `add_folder_to_zip` leaves a file name out of the archive. */
  predicate Skipped(fname: string) {
    SkipKey(fname) in IGNORED_EXTENSIONS
  }

  /**
   * A file name (no separator) is skipped exactly when it is one of the ignored names itself
   * (`.DS_Store`, `.pyc`, ...) or ends with one after a stem that is not only dots.
   */
  lemma SkippedIff(fname: string)
    requires '/' !in fname
    ensures Skipped(fname) <==>
      exists e :: e in IGNORED_EXTENSIONS && IgnoredByName(fname, e)
  {
    if Skipped(fname) {
      var (root, ext) := SplitExt(fname);
      var e := SkipKey(fname);
      if ext != [] {
        assert RFind(fname, '/') == -1;
        var dot := RFind(fname, '.');
        assert root == fname[..dot] && ext == fname[dot..];
        assert fname[..|fname| - |ext|] == root;
        assert IgnoredByName(fname, e);
      } else {
        assert IgnoredByName(fname, e);
      }
    }
    forall e | e in IGNORED_EXTENSIONS && IgnoredByName(fname, e)
      ensures Skipped(fname)
    {
      SkipKeyOfIgnored(fname, e);
    }
  }

  predicate IgnoredByName(fname: string, e: string) {
    fname == e || (EndsWith(fname, e) && !AllDots(fname[..|fname| - |e|]))
  }

  lemma SkipKeyOfIgnored(fname: string, e: string)
    requires '/' !in fname
    requires e in IGNORED_EXTENSIONS && IgnoredByName(fname, e)
    ensures SkipKey(fname) == e
  {
    assert e != [] && IsExtension(e);
    assert RFind(fname, '/') == -1;
    var dot := |fname| - |e|;
    assert fname[dot..] == e;
    assert forall j :: dot <= j < |fname| ==> fname[j] == e[j - dot];
    assert RFind(fname, '.') == dot;
    if fname == e {
      assert AllDots(fname[0..0]);
    } else {
      assert fname[..dot] == fname[0..dot];
    }
  }
}
