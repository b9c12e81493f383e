/**
 * The directory tree the core scans, and Python's `os.walk` over it.
 *
 * The order of a directory's children is the order the operating system lists
 * them in; it is part of the tree. Paths are sequences of names; `Sep` joins
 * them into the strings the source prints.
 */
module FileSystem {
  import opened Wrappers
  import opened Strings
  import opened Parsers

  /** The path separator (`os.sep`, `path.sep`). */
  const Sep: char := '/'

  /**
   * An entry of the tree:
   * - `File`: a regular file and what each tool extracts from it;
   * - `Dir`: a directory whose listing succeeds, with its children in listing order;
   * - `Unreadable`: a directory whose listing fails (say, permission denied);
   * - `Special`: an entry that is neither a regular file nor a directory (a socket,
   *   a device); `openError` is the text of the exception opening it raises.
   */
  datatype Node =
    | File(name: string, data: FileData)
    | Dir(name: string, children: seq<Node>)
    | Unreadable(name: string)
    | Special(name: string, openError: string)

  /** Python `os.path.isdir` (and `DirEntry.is_dir`). */
  predicate IsDirectory(n: Node)
  {
    n.Dir? || n.Unreadable?
  }

  /** The string form of a path relative to some directory (`os.path.relpath`). */
  function PathString(path: seq<string>): string
  {
    Join(path, [Sep])
  }

  /** The first child of `n` called `name` (`os.path.exists(os.path.join(n, name))`). */
  function Child(n: Node, name: string): (r: Option<Node>)
    ensures r.Some? ==> n.Dir? && r.value in n.children && r.value.name == name
    ensures r.None? ==> !n.Dir? || forall c :: c in n.children ==> c.name != name
  {
    if !n.Dir? then None else FirstNamed(n.children, name)
  }

  function FirstNamed(children: seq<Node>, name: string): (r: Option<Node>)
    ensures r.Some? ==> r.value in children && r.value.name == name
    ensures r.None? ==> forall c :: c in children ==> c.name != name
  {
    if children == [] then None
    else if children[0].name == name then Some(children[0])
    else FirstNamed(children[1..], name)
  }

  /**
   * What `os.path.join(n, *path)` names: each step resolves its name to the first
   * child so called.
   */
  function Lookup(n: Node, path: seq<string>): Option<Node>
    decreases path
  {
    if path == [] then Some(n)
    else match Child(n, path[0])
      case None => None
      case Some(c) => Lookup(c, path[1..])
  }

  /** The first step of a successful lookup: the child named `path[0]` exists and the rest of the path leads from it. */
  lemma LookupStep(n: Node, path: seq<string>, sub: Node) returns (c: Node)
    requires path != [] && Lookup(n, path) == Some(sub)
    ensures Child(n, path[0]) == Some(c) && n.Dir? && Lookup(c, path[1..]) == Some(sub)
    ensures |path| == 1 ==> c == sub
    ensures |path| > 1 ==> c.Dir?
  {
    c := Child(n, path[0]).value;
    if |path| > 1 {
      assert Child(c, path[1..][0]).Some?;
    }
  }

  /** `sub` is found from `n` by following `path`, one child name at a time. */
  ghost predicate Reaches(n: Node, path: seq<string>, sub: Node)
    decreases path
  {
    if path == [] then sub == n
    else n.Dir? && exists c :: c in n.children && c.name == path[0] && Reaches(c, path[1..], sub)
  }

  /** No name along `path` is in `pruned`. */
  predicate AvoidsAll(path: seq<string>, pruned: set<string>)
  {
    forall k :: 0 <= k < |path| ==> path[k] !in pruned
  }

  // ---------------------------------------------------------------- os.walk

  /** One triple `os.walk` yields: the directory's path below the top, and the directory itself. */
  datatype WalkStep = WalkStep(path: seq<string>, dir: Node)

  /** The `filenames` of a listing: every child `os.walk` does not classify as a directory. */
  function NonDirectories(children: seq<Node>): seq<Node>
  {
    if children == [] then []
    else (if IsDirectory(children[0]) then [] else [children[0]]) + NonDirectories(children[1..])
  }

  /** The `filenames` are exactly the children that are not directories. */
  lemma {:induction false} NonDirectoriesIff(children: seq<Node>, f: Node)
    ensures f in NonDirectories(children) <==> f in children && !IsDirectory(f)
  {
    if children != [] {
      NonDirectoriesIff(children[1..], f);
      assert children == [children[0]] + children[1..];
    }
  }

  /** The `filenames` of one step. */
  function StepFiles(step: WalkStep): seq<Node>
  {
    if step.dir.Dir? then NonDirectories(step.dir.children) else []
  }

  /**
   * `os.walk(top)` top-down, where every step removes the names in `pruned` from
   * its `dirnames` before the walk descends (`dirs[:] = [...]`). A directory whose
   * listing fails yields nothing (the default `onerror=None`); so does a top that
   * is not a directory.
   */
  function Walk(path: seq<string>, n: Node, pruned: set<string>): seq<WalkStep>
    decreases n, 1
  {
    if n.Dir? then [WalkStep(path, n)] + WalkChildren(path, n, 0, pruned) else []
  }

  /** The steps contributed by the children of `n` from index `i` on, in listing order. */
  function WalkChildren(path: seq<string>, n: Node, i: nat, pruned: set<string>): seq<WalkStep>
    requires n.Dir?
    decreases n, 0, |n.children| - i
  {
    if i >= |n.children| then []
    else
      var c := n.children[i];
      (if c.Dir? && c.name !in pruned then Walk(path + [c.name], c, pruned) else [])
      + WalkChildren(path, n, i + 1, pruned)
  }

  /** Every step of a walk from `path` lies below `path` and avoids the pruned names there. */
  lemma {:induction false} WalkStaysBelow(path: seq<string>, n: Node, pruned: set<string>)
    ensures forall s :: s in Walk(path, n, pruned) ==>
              |path| <= |s.path| && s.path[..|path|] == path && AvoidsAll(s.path[|path|..], pruned)
              && s.dir.Dir?
    decreases n, 1
  {
    if n.Dir? {
      WalkChildrenStaysBelow(path, n, 0, pruned);
    }
  }

  lemma {:induction false} WalkChildrenStaysBelow(path: seq<string>, n: Node, i: nat, pruned: set<string>)
    requires n.Dir?
    ensures forall s :: s in WalkChildren(path, n, i, pruned) ==>
              |path| < |s.path| && s.path[..|path|] == path && AvoidsAll(s.path[|path|..], pruned)
              && s.dir.Dir?
    decreases n, 0, |n.children| - i
  {
    if i < |n.children| {
      var c := n.children[i];
      WalkChildrenStaysBelow(path, n, i + 1, pruned);
      if c.Dir? && c.name !in pruned {
        var p' := path + [c.name];
        WalkStaysBelow(p', c, pruned);
        forall s | s in Walk(p', c, pruned)
          ensures |path| < |s.path| && s.path[..|path|] == path && AvoidsAll(s.path[|path|..], pruned)
        {
          assert s.path[..|p'|] == p';
          assert s.path[..|path|] == p'[..|path|] == path;
          assert s.path[|path|..] == [c.name] + s.path[|p'|..];
        }
      }
    }
  }

  /** Soundness: every step of `os.walk(top)` is a readable directory found under `top` along its path. */
  lemma {:induction false} WalkSound(path: seq<string>, n: Node, pruned: set<string>, s: WalkStep)
    requires s in Walk(path, n, pruned)
    ensures |path| <= |s.path| && s.path[..|path|] == path
    ensures Reaches(n, s.path[|path|..], s.dir) && s.dir.Dir?
    decreases n, 1
  {
    WalkStaysBelow(path, n, pruned);
    if s != WalkStep(path, n) {
      WalkChildrenSound(path, n, 0, pruned, s);
    }
  }

  lemma {:induction false} WalkChildrenSound(path: seq<string>, n: Node, i: nat, pruned: set<string>, s: WalkStep)
    requires n.Dir?
    requires s in WalkChildren(path, n, i, pruned)
    ensures |path| < |s.path| && s.path[..|path|] == path
    ensures Reaches(n, s.path[|path|..], s.dir)
    decreases n, 0, |n.children| - i
  {
    var c := n.children[i];
    var here := if c.Dir? && c.name !in pruned then Walk(path + [c.name], c, pruned) else [];
    if s in here {
      var p' := path + [c.name];
      WalkSound(p', c, pruned, s);
      assert s.path[..|path|] == p'[..|path|] == path;
      assert s.path[|path|..] == [c.name] + s.path[|p'|..];
      assert s.path[|path|..][1..] == s.path[|p'|..];
    } else {
      WalkChildrenSound(path, n, i + 1, pruned, s);
    }
  }

  /** Completeness: every readable directory reachable from `top` through unpruned names is a step. */
  lemma {:induction false} WalkComplete(path: seq<string>, n: Node, pruned: set<string>, rel: seq<string>, sub: Node)
    requires Reaches(n, rel, sub) && sub.Dir? && AvoidsAll(rel, pruned)
    ensures WalkStep(path + rel, sub) in Walk(path, n, pruned)
    decreases n, 1
  {
    if rel == [] {
      assert path + rel == path;
    } else {
      var c :| c in n.children && c.name == rel[0] && Reaches(c, rel[1..], sub);
      assert AvoidsAll(rel[1..], pruned);
      assert c.Dir?;
      WalkComplete(path + [c.name], c, pruned, rel[1..], sub);
      assert path + [c.name] + rel[1..] == path + rel;
      var k :| 0 <= k < |n.children| && n.children[k] == c;
      WalkChildrenComplete(path, n, 0, k, pruned, WalkStep(path + rel, sub));
    }
  }

  lemma {:induction false} WalkChildrenComplete(path: seq<string>, n: Node, i: nat, k: nat, pruned: set<string>, s: WalkStep)
    requires n.Dir? && i <= k < |n.children|
    requires n.children[k].Dir? && n.children[k].name !in pruned
    requires s in Walk(path + [n.children[k].name], n.children[k], pruned)
    ensures s in WalkChildren(path, n, i, pruned)
    decreases |n.children| - i
  {
    if i < k {
      WalkChildrenComplete(path, n, i + 1, k, pruned, s);
    }
  }
}
