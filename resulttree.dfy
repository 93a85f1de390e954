/**
 * The result records Celery keeps for a chain, and the walks `app/api/v1/endpoints/utils.py`
 * makes over them: up the `parent` links (`unpack_parents`, `store`), down the `children`
 * (`iter_children`), and the lookup of a finished job's download path
 * (`_get_file_from_task`). The records form an arena addressed by index; each record
 * names its parent and its children by index.
 */
module ResultTree {
  import opened Outcomes
  import opened FileSystem
  import Pipeline

  /** What the result backend holds for a task: nothing yet, the dict it returned, or the exception it raised. */
  datatype Stored = Nothing | Returned(data: Pipeline.Context) | Raised(error: Error)

  /**
   * One task's record: its id, registered name and state, its stored result with that
   * result's `str()` form, the traceback text when it failed, and its links.
   */
  datatype Node = Node(
    id: string,
    name: string,
    state: string,
    result: Stored,
    shown: string,
    traceback: Option<string>,
    parent: Option<nat>,
    children: seq<nat>)

  type Arena = seq<Node>

  /**
   * Links point inside the arena, a parent sits before its child and children after their
   * parent, so that neither walk can go round in a circle.
   */
  predicate WellFormed(a: Arena) {
    forall i :: 0 <= i < |a| ==>
      (a[i].parent.Some? ==> a[i].parent.value < i) &&
      (forall k :: 0 <= k < |a[i].children| ==> i < a[i].children[k] < |a|)
  }

  // ---------------------------------------------------------------------------------------
  // Up the parent links

  /** The records from `i` up to the root of its chain, `i` first: each one's parent follows it. */
  function PathToRoot(a: Arena, i: nat): (p: seq<nat>)
    requires WellFormed(a) && i < |a|
    ensures p != [] && p[0] == i
    ensures forall k :: 0 <= k < |p| ==> p[k] <= i
    ensures forall k :: 0 <= k < |p| - 1 ==> a[p[k]].parent == Some(p[k + 1])
    ensures a[p[|p| - 1]].parent.None?
    decreases i
  {
    match a[i].parent
    case None => [i]
    case Some(j) => [i] + PathToRoot(a, j)
  }

  /** The root of `i`'s chain: the record reached by following parents until there is none. */
  function Root(a: Arena, i: nat): (r: nat)
    requires WellFormed(a) && i < |a|
    ensures r <= i && a[r].parent.None?
  {
    var p := PathToRoot(a, i);
    p[|p| - 1]
  }

  /** The number of parent links between `i` and its root. */
  function Depth(a: Arena, i: nat): nat
    requires WellFormed(a) && i < |a|
  {
    |PathToRoot(a, i)| - 1
  }

  /** What `unpack_parents(i)` yields: each parent in turn from the nearest, then once more the record the walk stopped at. */
  function Parents(a: Arena, i: nat): (r: seq<nat>)
    requires WellFormed(a) && i < |a|
    ensures r != [] && forall k :: 0 <= k < |r| ==> r[k] <= i
    decreases i
  {
    match a[i].parent
    case None => [i]
    case Some(j) => [j] + Parents(a, j)
  }

  /** The ids of the records `p`, in order. */
  function IdsOf(a: Arena, p: seq<nat>): (ids: seq<string>)
    requires forall k :: 0 <= k < |p| ==> p[k] < |a|
    ensures |ids| == |p|
  {
    if p == [] then [] else [a[p[0]].id] + IdsOf(a, p[1..])
  }

  /** The `k`-th id listed is the id of the `k`-th record. */
  lemma {:induction false} IdsOfAt(a: Arena, p: seq<nat>)
    requires forall k :: 0 <= k < |p| ==> p[k] < |a|
    ensures forall k :: 0 <= k < |p| ==> IdsOf(a, p)[k] == a[p[k]].id
  {
    if p != [] {
      IdsOfAt(a, p[1..]);
    }
  }

  /** `unpack_parents(nodes)`: the generator's loop, collecting what it yields. */
  method UnpackParents(a: Arena, start: nat) returns (out: seq<nat>)
    requires WellFormed(a) && start < |a|
    ensures out == Parents(a, start)
  {
    var nodes: nat := start;
    out := [];
    while a[nodes].parent.Some?
      invariant nodes < |a|
      invariant out + Parents(a, nodes) == Parents(a, start)
      decreases nodes
    {
      var p := a[nodes].parent.value;
      assert Parents(a, nodes) == [p] + Parents(a, p);
      out := out + [p];
      nodes := p;
    }
    out := out + [nodes];
  }

  /** `store(node)`: the ids met on the way from `start` up to the root, the root's included. */
  method Store(a: Arena, start: nat) returns (idChain: seq<string>)
    requires WellFormed(a) && start < |a|
    ensures idChain == IdsOf(a, PathToRoot(a, start))
  {
    var node: nat := start;
    idChain := [];
    while a[node].parent.Some?
      invariant node < |a|
      invariant idChain + IdsOf(a, PathToRoot(a, node)) == IdsOf(a, PathToRoot(a, start))
      decreases node
    {
      var up := a[node].parent.value;
      var rest := PathToRoot(a, up);
      assert PathToRoot(a, node) == [node] + rest;
      assert ([node] + rest)[1..] == rest;
      assert IdsOf(a, [node] + rest) == [a[node].id] + IdsOf(a, rest);
      AppendOne(idChain, a[node].id, IdsOf(a, rest));
      idChain := idChain + [a[node].id];
      node := up;
    }
    assert PathToRoot(a, node) == [node];
    idChain := idChain + [a[node].id];
  }

  lemma AppendOne(xs: seq<string>, x: string, ys: seq<string>)
    ensures (xs + [x]) + ys == xs + ([x] + ys)
  {
  }

  /** Each step up goes to an earlier record, so the path from `i` to its root never repeats a record. */
  lemma {:induction false} PathDecreasing(a: Arena, i: nat)
    requires WellFormed(a) && i < |a|
    ensures var p := PathToRoot(a, i);
      forall k, l :: 0 <= k < l < |p| ==> p[l] < p[k]
    decreases i
  {
    if a[i].parent.Some? {
      var j := a[i].parent.value;
      PathDecreasing(a, j);
      var p := PathToRoot(a, i);
      assert p[1..] == PathToRoot(a, j);
    }
  }

  /**
   * `unpack_parents` yields the ancestors of `i` nearest first and ends on the root: the
   * start record itself comes out only when it is the root, and otherwise the root comes
   * out twice, once as a parent and once as the record the loop stopped at.
   */
  lemma {:induction false} ParentsShape(a: Arena, i: nat)
    requires WellFormed(a) && i < |a|
    ensures a[i].parent.None? ==> Parents(a, i) == [i]
    ensures a[i].parent.Some? ==>
      Parents(a, i) == PathToRoot(a, i)[1..] + [Root(a, i)] && i !in Parents(a, i)
    ensures |Parents(a, i)| == if a[i].parent.None? then 1 else Depth(a, i) + 1
    ensures Parents(a, i)[|Parents(a, i)| - 1] == Root(a, i)
    decreases i
  {
    if a[i].parent.Some? {
      var j := a[i].parent.value;
      ParentsShape(a, j);
      if a[j].parent.Some? {
        assert PathToRoot(a, i)[1..] == PathToRoot(a, j);
        assert PathToRoot(a, j)[1..] + [Root(a, j)] == PathToRoot(a, j)[1..] + [Root(a, i)];
        assert PathToRoot(a, j) == [j] + PathToRoot(a, j)[1..];
      } else {
        assert PathToRoot(a, i) == [i, j];
      }
      assert forall x :: x in Parents(a, i) ==> x <= j;
    }
  }

  /** `store` lists depth+1 distinct records: the start first, the root last, each parent after its child. */
  lemma StoreShape(a: Arena, i: nat)
    requires WellFormed(a) && i < |a|
    ensures var p := PathToRoot(a, i);
      |IdsOf(a, p)| == Depth(a, i) + 1 &&
      IdsOf(a, p)[0] == a[i].id && IdsOf(a, p)[|p| - 1] == a[Root(a, i)].id &&
      forall k, l :: 0 <= k < l < |p| ==> p[k] != p[l]
  {
    PathDecreasing(a, i);
    IdsOfAt(a, PathToRoot(a, i));
  }

  // ---------------------------------------------------------------------------------------
  // Down the children

  /** What `iter_children(i)` yields: each child's walk in order, then `i` itself. */
  function PostOrder(a: Arena, i: nat): (w: seq<nat>)
    requires WellFormed(a) && i < |a|
    ensures forall k :: 0 <= k < |w| ==> w[k] < |a|
    decreases |a| - i, |a[i].children| + 1
  {
    Walks(a, a[i].children, i) + [i]
  }

  /** The walks of the records `cs`, children of `owner`, one after the other. */
  function Walks(a: Arena, cs: seq<nat>, owner: nat): (w: seq<nat>)
    requires WellFormed(a) && owner < |a|
    requires forall k :: 0 <= k < |cs| ==> owner < cs[k] < |a|
    ensures forall k :: 0 <= k < |w| ==> w[k] < |a|
    decreases |a| - owner, |cs|
  {
    if cs == [] then []
    else Walks(a, cs[..|cs| - 1], owner) + PostOrder(a, cs[|cs| - 1])
  }

  /** Every record a walk from `i` yields lies in the arena at or after `i`; `i` comes last and only there. */
  lemma {:induction false} PostOrderEnds(a: Arena, i: nat)
    requires WellFormed(a) && i < |a|
    ensures var w := PostOrder(a, i);
      w[|w| - 1] == i && forall k :: 0 <= k < |w| - 1 ==> i < w[k] < |a|
    decreases |a| - i, |a[i].children| + 1
  {
    WalksAfter(a, a[i].children, i);
    var ws := Walks(a, a[i].children, i);
    assert forall k :: 0 <= k < |ws| ==> ws[k] in ws;
  }

  lemma {:induction false} WalksAfter(a: Arena, cs: seq<nat>, owner: nat)
    requires WellFormed(a) && owner < |a|
    requires forall k :: 0 <= k < |cs| ==> owner < cs[k] < |a|
    ensures forall x :: x in Walks(a, cs, owner) ==> owner < x < |a|
    decreases |a| - owner, |cs|
  {
    if cs != [] {
      var c := cs[|cs| - 1];
      WalksAfter(a, cs[..|cs| - 1], owner);
      PostOrderEnds(a, c);
      var w := PostOrder(a, c);
      assert forall x :: x in w ==> c <= x < |a| by {
        forall x | x in w ensures c <= x < |a| {
          var k :| 0 <= k < |w| && w[k] == x;
          if k < |w| - 1 { assert c < w[k]; }
        }
      }
    }
  }

  /**
   * A child's whole walk comes out before its parent: everything `iter_children` yields for
   * a child of `i` is yielded for `i` ahead of `i` itself.
   */
  lemma ChildrenFirst(a: Arena, i: nat, k: nat)
    requires WellFormed(a) && i < |a| && k < |a[i].children|
    ensures var w := PostOrder(a, i);
      forall x :: x in PostOrder(a, a[i].children[k]) ==> x in w[..|w| - 1]
  {
    var w := PostOrder(a, i);
    assert w[..|w| - 1] == Walks(a, a[i].children, i);
    WalksContain(a, a[i].children, i, k);
  }

  lemma {:induction false} WalksContain(a: Arena, cs: seq<nat>, owner: nat, k: nat)
    requires WellFormed(a) && owner < |a| && k < |cs|
    requires forall j :: 0 <= j < |cs| ==> owner < cs[j] < |a|
    ensures forall x :: x in PostOrder(a, cs[k]) ==> x in Walks(a, cs, owner)
    decreases |cs|
  {
    if k < |cs| - 1 {
      WalksContain(a, cs[..|cs| - 1], owner, k);
    }
  }

  /** `x` is reached from `i` by following one or more `children` links. */
  predicate Descendant(a: Arena, i: nat, x: nat)
    requires WellFormed(a) && i < |a|
    decreases |a| - i
  {
    exists k :: 0 <= k < |a[i].children| && (a[i].children[k] == x || Descendant(a, a[i].children[k], x))
  }

  /**
   * `iter_children(i)` yields `i` and every record below it, and nothing else: a record
   * appears in the walk exactly when it is `i` or one of `i`'s descendants.
   */
  lemma {:induction false} PostOrderMembers(a: Arena, i: nat)
    requires WellFormed(a) && i < |a|
    ensures forall x :: x in PostOrder(a, i) <==> x == i || Descendant(a, i, x)
    decreases |a| - i, |a[i].children| + 1
  {
    WalksMembers(a, a[i].children, i);
  }

  /** The walks of `cs` together yield exactly the records of `cs` and their descendants. */
  lemma {:induction false} WalksMembers(a: Arena, cs: seq<nat>, owner: nat)
    requires WellFormed(a) && owner < |a|
    requires forall k :: 0 <= k < |cs| ==> owner < cs[k] < |a|
    ensures forall x :: x in Walks(a, cs, owner) <==>
      exists k :: 0 <= k < |cs| && (cs[k] == x || Descendant(a, cs[k], x))
    decreases |a| - owner, |cs|
  {
    if cs != [] {
      var init, c := cs[..|cs| - 1], cs[|cs| - 1];
      WalksMembers(a, init, owner);
      PostOrderMembers(a, c);
      forall x ensures x in Walks(a, cs, owner) <==>
        exists k :: 0 <= k < |cs| && (cs[k] == x || Descendant(a, cs[k], x))
      {
        if exists k :: 0 <= k < |cs| && (cs[k] == x || Descendant(a, cs[k], x)) {
          var k :| 0 <= k < |cs| && (cs[k] == x || Descendant(a, cs[k], x));
          if k < |cs| - 1 {
            assert init[k] == cs[k];
          }
        }
        if x in Walks(a, init, owner) {
          var k :| 0 <= k < |init| && (init[k] == x || Descendant(a, init[k], x));
          assert cs[k] == init[k];
        }
      }
    }
  }

  // ---------------------------------------------------------------------------------------
  // The download lookup

  /** Python truthiness of a stored result: `None` and the empty dict are false, a raised exception is true. */
  predicate StoredTruthy(s: Stored) {
    match s
    case Nothing => false
    case Returned(c) => c != Pipeline.EmptyContext
    case Raised(_) => true
  }

  const NO_TASK_MESSAGE: string := "No task found motherf****r !"

  /**
   * `_get_file_from_task(task_id)` with the default key `download`, given the stored result
   * of the task: the path recorded under `download` when it names a regular file. A missing
   * key reads as `False`, which is taken not to name a file; a stored exception has no
   * `get` and raises AttributeError.
   */
  function GetFileFromTask(stored: Stored, fs: Fs): (r: Result<string>)
    ensures !StoredTruthy(stored) ==> r == Err(ValueError(NO_TASK_MESSAGE))
    ensures stored.Raised? ==> r == Err(AttributeError)
    ensures stored.Returned? && r.Err? ==> r.error.ValueError?
    ensures r.Ok? <==>
      stored.Returned? && stored.data.download.Some? && IsFile(fs, stored.data.download.value)
    ensures r.Ok? ==> r.value == stored.data.download.value
  {
    match stored
    case Nothing => Err(ValueError(NO_TASK_MESSAGE))
    case Raised(_) => Err(AttributeError)
    case Returned(c) =>
      if c == Pipeline.EmptyContext then Err(ValueError(NO_TASK_MESSAGE))
      else if c.download.None? || !IsFile(fs, c.download.value) then Err(ValueError(NoFileMessage(c.download)))
      else Ok(c.download.value)
  }

  /** `'No file found at {}'.format(filepath)`, where a missing key formats as `False`. */
  function NoFileMessage(download: Option<string>): string {
    "No file found at " + (if download.Some? then download.value else "False")
  }
}
