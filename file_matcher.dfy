/**
 * Path-based relevance ranking (utils/file_matcher.py): every `.py` file below the
 * root is scored by how many keywords occur in its lower-cased relative path, the
 * files that score are sorted by `(score, path)` from greatest to least, and their
 * paths are returned.
 */
module FileMatcher {
  import opened Strings
  import opened Seqs
  import opened Sorting
  import opened FileSystem

  // ---------------------------------------------------------------- scoring

  /** `sum(1 for kw in keywords if kw in pathLower)`: every entry of the list counts, repeats included. */
  function Score(keywords: seq<string>, pathLower: string): (n: nat)
    ensures n <= |keywords|
    ensures n == 0 <==> forall k :: 0 <= k < |keywords| ==> !Contains(pathLower, keywords[k])
  {
    if keywords == [] then 0
    else
      var init := keywords[..|keywords| - 1];
      assert forall k :: 0 <= k < |init| ==> init[k] == keywords[k];
      Score(init, pathLower) + (if Contains(pathLower, keywords[|keywords| - 1]) then 1 else 0)
  }

  lemma {:induction false} ScoreAppend(a: seq<string>, b: seq<string>, p: string)
    ensures Score(a + b, p) == Score(a, p) + Score(b, p)
    decreases |b|
  {
    if b == [] {
      assert a + b == a;
    } else {
      var n := |b| - 1;
      assert (a + b)[..|a + b| - 1] == a + b[..n];
      ScoreAppend(a, b[..n], p);
    }
  }

  /** The score depends on how often each keyword occurs in the list, not on the list's order. */
  lemma {:induction false} ScorePermutation(a: seq<string>, b: seq<string>, p: string)
    requires multiset(a) == multiset(b)
    ensures Score(a, p) == Score(b, p)
    decreases |a|
  {
    if a != [] {
      var x, init := a[|a| - 1], a[..|a| - 1];
      var k := MultisetIndex(b, x);
      var rest := b[..k] + b[k + 1..];
      MultisetRemove(b, k);
      MultisetRemove(a, |a| - 1);
      assert a[..|a| - 1] + a[|a|..] == init;
      ScorePermutation(init, rest, p);
      ScoreRemove(a, |a| - 1, p);
      ScoreRemove(b, k, p);
    }
  }

  /** A keyword list scores what it scores without its `k`-th keyword, plus what that keyword scores. */
  lemma ScoreRemove(keywords: seq<string>, k: nat, p: string)
    requires k < |keywords|
    ensures Score(keywords, p) == Score(keywords[..k] + keywords[k + 1..], p) + Score([keywords[k]], p)
  {
    var l, r := keywords[..k], keywords[k + 1..];
    assert keywords == l + [keywords[k]] + r;
    ScoreAppend(l + [keywords[k]], r, p);
    ScoreAppend(l, [keywords[k]], p);
    ScoreAppend(l, r, p);
  }

  /**
   * Keywords are not lower-cased: one that holds an ASCII capital never occurs in a
   * lower-cased path.
   */
  lemma UppercaseNeverMatches(keyword: string, path: string, i: nat)
    requires i < |keyword| && 'A' <= keyword[i] <= 'Z'
    ensures !Contains(PyLower(path), keyword)
  {
    var low := PyLower(path);
    forall o | 0 <= o && o + |keyword| <= |low| ensures !OccursAt(low, keyword, o) {
      assert low[o..o + |keyword|][i] == low[o + i];
    }
    ContainsIff(low, keyword);
  }

  /** A list of keywords each holding an ASCII capital scores nothing anywhere. */
  lemma {:induction false} UppercaseKeywordsScoreZero(keywords: seq<string>, path: string)
    requires forall k :: 0 <= k < |keywords| ==> exists i :: 0 <= i < |keywords[k]| && 'A' <= keywords[k][i] <= 'Z'
    ensures Score(keywords, PyLower(path)) == 0
  {
    forall k | 0 <= k < |keywords| ensures !Contains(PyLower(path), keywords[k]) {
      var i :| 0 <= i < |keywords[k]| && 'A' <= keywords[k][i] <= 'Z';
      UppercaseNeverMatches(keywords[k], path, i);
    }
  }

  // ---------------------------------------------------------------- candidates

  /** The relative path of a file `name` found in the directory at `dir`. */
  function RelPath(dir: seq<string>, name: string): string
  {
    PathString(dir + [name])
  }

  /** A relative path ends with the name of the file it leads to. */
  lemma RelPathEndsWithName(dir: seq<string>, name: string, suffix: string)
    requires EndsWith(name, suffix)
    ensures EndsWith(RelPath(dir, name), suffix)
  {
    if dir == [] {
      assert dir + [name] == [name];
    } else {
      JoinSnoc(dir, name, [Sep]);
      var p := Join(dir, [Sep]) + [Sep] + name;
      assert p[|p| - |suffix|..] == name[|name| - |suffix|..];
    }
  }

  /** The relative paths of the `.py` files among `files`, in order. */
  function DirPyPaths(dir: seq<string>, files: seq<Node>): seq<string>
  {
    if files == [] then []
    else
      var name := files[|files| - 1].name;
      var init := DirPyPaths(dir, files[..|files| - 1]);
      if EndsWith(name, ".py") then init + [RelPath(dir, name)] else init
  }

  lemma DirPyPathsSnoc(dir: seq<string>, files: seq<Node>, j: nat)
    requires j < |files|
    ensures DirPyPaths(dir, files[..j + 1]) == DirPyPaths(dir, files[..j])
              + if EndsWith(files[j].name, ".py") then [RelPath(dir, files[j].name)] else []
  {
    assert files[..j + 1][..j] == files[..j];
  }

  /** The relative paths of the `.py` files the walk `steps` lists, in walk order. */
  function PyPaths(steps: seq<WalkStep>): seq<string>
  {
    if steps == [] then []
    else
      var last := steps[|steps| - 1];
      PyPaths(steps[..|steps| - 1]) + DirPyPaths(last.path, StepFiles(last))
  }

  lemma PyPathsStep(steps: seq<WalkStep>, i: nat)
    requires i < |steps|
    ensures PyPaths(steps[..i + 1]) == PyPaths(steps[..i]) + DirPyPaths(steps[i].path, StepFiles(steps[i]))
  {
    assert steps[..i + 1][..i] == steps[..i];
  }

  /** Only `.py` files are candidates. */
  lemma PyPathsEndWithPy(steps: seq<WalkStep>, p: string)
    requires p in PyPaths(steps)
    ensures EndsWith(p, ".py")
  {
    PyPathsIff(steps, p);
    var s, f :| s in steps && PyFileOf(s, f, p);
    RelPathEndsWithName(s.path, f.name, ".py");
  }

  /** `f` is a `.py` file one step of the walk lists, and `p` its relative path. */
  predicate PyFileOf(s: WalkStep, f: Node, p: string)
  {
    f in StepFiles(s) && EndsWith(f.name, ".py") && p == RelPath(s.path, f.name)
  }

  lemma {:induction false} DirPyPathsIff(dir: seq<string>, files: seq<Node>, p: string)
    ensures p in DirPyPaths(dir, files) <==>
              exists f :: f in files && EndsWith(f.name, ".py") && p == RelPath(dir, f.name)
  {
    if files != [] {
      var last := files[|files| - 1];
      DirPyPathsIff(dir, files[..|files| - 1], p);
      assert files == files[..|files| - 1] + [last];
    }
  }

  /** The candidates are exactly the relative paths of the `.py` files the walk lists. */
  lemma {:induction false} PyPathsIff(steps: seq<WalkStep>, p: string)
    ensures p in PyPaths(steps) <==> exists s, f :: s in steps && PyFileOf(s, f, p)
  {
    if steps != [] {
      var last := steps[|steps| - 1];
      var init := steps[..|steps| - 1];
      assert steps == init + [last];
      PyPathsIff(init, p);
      DirPyPathsIff(last.path, StepFiles(last), p);
      if p in PyPaths(steps) {
        if p in PyPaths(init) {
          var s, f :| s in init && PyFileOf(s, f, p);
          assert s in steps;
        } else {
          var f :| f in StepFiles(last) && EndsWith(f.name, ".py") && p == RelPath(last.path, f.name);
          assert PyFileOf(last, f, p);
        }
      }
      if exists s, f :: s in steps && PyFileOf(s, f, p) {
        var s, f :| s in steps && PyFileOf(s, f, p);
        if s in init {
          assert p in PyPaths(init);
        } else {
          assert s == last;
        }
      }
    }
  }

  // ---------------------------------------------------------------- ranking

  /** One entry of `matched_files`. */
  type Match = (nat, string)

  /** The `(score, path)` pairs of the candidates that score, in candidate order. */
  function Matches(keywords: seq<string>, paths: seq<string>): (r: seq<Match>)
    ensures |r| <= |paths|
  {
    if paths == [] then []
    else
      var p := paths[|paths| - 1];
      var init := Matches(keywords, paths[..|paths| - 1]);
      var score := Score(keywords, PyLower(p));
      if score > 0 then init + [(score, p)] else init
  }

  /** Every pair holds its path's own score, and that score is at least one. */
  lemma {:induction false} MatchesScored(keywords: seq<string>, paths: seq<string>)
    ensures forall m :: m in Matches(keywords, paths) ==> m.0 == Score(keywords, PyLower(m.1)) >= 1
    decreases |paths|
  {
    if paths != [] {
      var init, p := paths[..|paths| - 1], paths[|paths| - 1];
      MatchesScored(keywords, init);
      var score := Score(keywords, PyLower(p));
      var mi := Matches(keywords, init);
      assert Matches(keywords, paths) == if score > 0 then mi + [(score, p)] else mi;
    }
  }

  lemma MatchesSnoc(keywords: seq<string>, paths: seq<string>, p: string)
    ensures Matches(keywords, paths + [p]) == Matches(keywords, paths)
              + if Score(keywords, PyLower(p)) > 0 then [(Score(keywords, PyLower(p)), p)] else []
  {
    assert (paths + [p])[..|paths|] == paths;
  }

  lemma {:induction false} MatchesAppend(keywords: seq<string>, a: seq<string>, b: seq<string>)
    ensures Matches(keywords, a + b) == Matches(keywords, a) + Matches(keywords, b)
    decreases |b|
  {
    if b == [] {
      assert a + b == a;
    } else {
      var n := |b| - 1;
      assert (a + b)[..|a + b| - 1] == a + b[..n];
      MatchesAppend(keywords, a, b[..n]);
    }
  }

  /** A candidate has a pair exactly when it scores. */
  lemma {:induction false} MatchesIff(keywords: seq<string>, paths: seq<string>, p: string)
    ensures p in paths && Score(keywords, PyLower(p)) >= 1 <==> p in PathsOf(Matches(keywords, paths))
  {
    if paths != [] {
      var last := paths[|paths| - 1];
      var init := paths[..|paths| - 1];
      MatchesIff(keywords, init, p);
      assert paths == init + [last];
      var score := Score(keywords, PyLower(last));
      if score > 0 {
        PathsOfAppend(Matches(keywords, init), [(score, last)]);
        assert PathsOf([(score, last)]) == [last];
      }
    }
  }

  /** The order of `sort(reverse=True)` on pairs: greater score first, greater path first on a tie. */
  predicate RankLe(a: Match, b: Match)
  {
    a.0 > b.0 || (a.0 == b.0 && StrLe(b.1, a.1))
  }

  lemma RankLeTotal()
    ensures Total(RankLe)
  {
    forall a: Match, b: Match ensures RankLe(a, b) || RankLe(b, a) {
      StrLtTotal(a.1, b.1);
    }
  }

  lemma RankLeTransitive()
    ensures Transitive(RankLe)
  {
    forall a: Match, b: Match, c: Match | RankLe(a, b) && RankLe(b, c) ensures RankLe(a, c) {
      if a.0 == b.0 == c.0 && c.1 != b.1 && b.1 != a.1 {
        StrLtTransitive(c.1, b.1, a.1);
      }
    }
  }

  lemma RankLeAntisymmetric()
    ensures Antisymmetric(RankLe)
  {
    forall a: Match, b: Match | RankLe(a, b) && RankLe(b, a) ensures a == b {
      if a.1 != b.1 {
        StrLtAsymmetric(a.1, b.1);
      }
    }
  }

  /** The paths of a list of pairs, in order. */
  function PathsOf(ms: seq<Match>): seq<string>
  {
    seq(|ms|, k requires 0 <= k < |ms| => ms[k].1)
  }

  lemma {:induction false} PathsOfAppend(a: seq<Match>, b: seq<Match>)
    ensures PathsOf(a + b) == PathsOf(a) + PathsOf(b)
  {
    assert |PathsOf(a + b)| == |PathsOf(a) + PathsOf(b)|;
    forall k | 0 <= k < |a + b| ensures PathsOf(a + b)[k] == (PathsOf(a) + PathsOf(b))[k] {
      if k >= |a| {
        assert (a + b)[k] == b[k - |a|];
      }
    }
  }

  /** The result of `find_related_files` on the candidates `paths`. */
  function Ranked(keywords: seq<string>, paths: seq<string>): seq<string>
  {
    PathsOf(Sort(Matches(keywords, paths), RankLe))
  }

  /**
   * Python sorts with Timsort; any sorted permutation of the pairs is the one the model
   * computes, because equal pairs are identical.
   */
  lemma RankingIsUnique(ms: seq<Match>, other: seq<Match>)
    requires SortedBy(other, RankLe) && multiset(other) == multiset(ms)
    ensures other == Sort(ms, RankLe)
  {
    RankLeTotal();
    RankLeTransitive();
    RankLeAntisymmetric();
    SortSorted(ms, RankLe);
    SortedUnique(other, Sort(ms, RankLe), RankLe);
  }

  /** The ranked pairs are sorted and are a permutation of the pairs of the candidates that score. */
  lemma RankedPairs(keywords: seq<string>, paths: seq<string>)
    ensures var sorted := Sort(Matches(keywords, paths), RankLe);
      && SortedBy(sorted, RankLe)
      && (forall k :: 0 <= k < |sorted| ==> sorted[k].0 == Score(keywords, PyLower(sorted[k].1)) >= 1)
      && multiset(PathsOf(sorted)) == multiset(PathsOf(Matches(keywords, paths)))
  {
    var ms := Matches(keywords, paths);
    var sorted := Sort(ms, RankLe);
    RankLeTotal();
    RankLeTransitive();
    SortSorted(ms, RankLe);
    MatchesScored(keywords, paths);
    forall k | 0 <= k < |sorted| ensures sorted[k].0 == Score(keywords, PyLower(sorted[k].1)) >= 1 {
      assert sorted[k] in multiset(ms);
      assert sorted[k] in ms;
    }
    MapPreservesMultiset(sorted, ms);
  }

  /**
   * What the ranking promises: exactly the candidates that score, each once per pair
   * of its own, by non-increasing score and, on equal scores, by descending path.
   */
  lemma RankedProperties(keywords: seq<string>, paths: seq<string>)
    ensures var r := Ranked(keywords, paths);
      && (forall p :: p in r <==> p in paths && Score(keywords, PyLower(p)) >= 1)
      && multiset(r) == multiset(PathsOf(Matches(keywords, paths)))
      && (forall i, j :: 0 <= i < j < |r| ==>
            Score(keywords, PyLower(r[i])) >= Score(keywords, PyLower(r[j])))
      && (forall i, j :: 0 <= i < j < |r| && Score(keywords, PyLower(r[i])) == Score(keywords, PyLower(r[j])) ==>
            StrLe(r[j], r[i]))
  {
    var r := Ranked(keywords, paths);
    RankedPairs(keywords, paths);
    forall p ensures p in r <==> p in paths && Score(keywords, PyLower(p)) >= 1 {
      MatchesIff(keywords, paths, p);
      assert p in r <==> p in multiset(r);
    }
    forall i, j | 0 <= i < j < |r|
      ensures Score(keywords, PyLower(r[i])) >= Score(keywords, PyLower(r[j]))
      ensures Score(keywords, PyLower(r[i])) == Score(keywords, PyLower(r[j])) ==> StrLe(r[j], r[i])
    {
      RankedPair(keywords, paths, i, j);
    }
  }

  /** Two ranked paths in order: the first scores at least as much, and on a tie is not smaller. */
  lemma RankedPair(keywords: seq<string>, paths: seq<string>, i: nat, j: nat)
    requires i < j < |Ranked(keywords, paths)|
    ensures var r := Ranked(keywords, paths);
            && Score(keywords, PyLower(r[i])) >= Score(keywords, PyLower(r[j]))
            && (Score(keywords, PyLower(r[i])) == Score(keywords, PyLower(r[j])) ==> StrLe(r[j], r[i]))
  {
    var sorted := Sort(Matches(keywords, paths), RankLe);
    RankedPairs(keywords, paths);
    assert RankLe(sorted[i], sorted[j]);
    assert sorted[i].0 == Score(keywords, PyLower(sorted[i].1));
    assert sorted[j].0 == Score(keywords, PyLower(sorted[j].1));
  }

  /** Projecting two permutations of pairs onto their paths gives two permutations. */
  lemma {:induction false} MapPreservesMultiset(a: seq<Match>, b: seq<Match>)
    requires multiset(a) == multiset(b)
    ensures multiset(PathsOf(a)) == multiset(PathsOf(b))
    decreases |a|
  {
    if a != [] {
      var x, init := a[|a| - 1], a[..|a| - 1];
      var k := MultisetIndex(b, x);
      var rest := b[..k] + b[k + 1..];
      MultisetRemove(b, k);
      MultisetRemove(a, |a| - 1);
      assert a[..|a| - 1] + a[|a|..] == init;
      MapPreservesMultiset(init, rest);
      PathsRemove(a, |a| - 1);
      PathsRemove(b, k);
    }
  }

  /** The paths of `ms` are those of `ms` without its `k`-th pair, and that pair's path. */
  lemma PathsRemove(ms: seq<Match>, k: nat)
    requires k < |ms|
    ensures multiset(PathsOf(ms)) == multiset(PathsOf(ms[..k] + ms[k + 1..])) + multiset{ms[k].1}
  {
    var l, m, r := ms[..k], ms[k], ms[k + 1..];
    var pl, pr := PathsOf(l), PathsOf(r);
    assert PathsOf(ms) == pl + [m.1] + pr by {
      forall i | 0 <= i < |ms| ensures PathsOf(ms)[i] == (pl + [m.1] + pr)[i] {
        if i < k {
          assert ms[i] == l[i];
        } else if i > k {
          assert ms[i] == r[i - k - 1];
        }
      }
    }
    PathsOfAppend(l, r);
    assert multiset(pl + [m.1] + pr) == multiset(pl + pr) + multiset{m.1};
  }

  /** No keywords, no related files. */
  lemma NoKeywordsNothingRelated(paths: seq<string>)
    ensures Ranked([], paths) == []
  {
    MatchesScored([], paths);
  }

  /** Ranking treats the keyword list as a bag: reordering it changes nothing. */
  lemma {:induction false} RankedKeywordOrder(k1: seq<string>, k2: seq<string>, paths: seq<string>)
    requires multiset(k1) == multiset(k2)
    ensures Ranked(k1, paths) == Ranked(k2, paths)
  {
    MatchesKeywordOrder(k1, k2, paths);
  }

  lemma {:induction false} MatchesKeywordOrder(k1: seq<string>, k2: seq<string>, paths: seq<string>)
    requires multiset(k1) == multiset(k2)
    ensures Matches(k1, paths) == Matches(k2, paths)
    decreases |paths|
  {
    if paths != [] {
      MatchesKeywordOrder(k1, k2, paths[..|paths| - 1]);
      ScorePermutation(k1, k2, PyLower(paths[|paths| - 1]));
    }
  }

  // ---------------------------------------------------------------- find_related_files

  /** The candidates of `find_related_files(root, ...)`: the `.py` files `os.walk(root)` lists. */
  function Candidates(root: Node): seq<string>
  {
    PyPaths(Walk([], root, {}))
  }

  /**
   * The inner `for fname in filenames` loop of `find_related_files` for one step of
   * the walk: the `(score, rel_path)` pairs it appends, in order.
   */
  method ScanDirectory(keywords: seq<string>, step: WalkStep) returns (found: seq<Match>)
    ensures found == Matches(keywords, DirPyPaths(step.path, StepFiles(step)))
  {
    var files := StepFiles(step);
    found := [];
    var j := 0;
    while j < |files|
      invariant 0 <= j <= |files|
      invariant found == Matches(keywords, DirPyPaths(step.path, files[..j]))
    {
      var name := files[j].name;
      DirPyPathsSnoc(step.path, files, j);
      if EndsWith(name, ".py") {
        var rel := RelPath(step.path, name);
        var score := Score(keywords, PyLower(rel));
        MatchesSnoc(keywords, DirPyPaths(step.path, files[..j]), rel);
        if score > 0 {
          found := found + [(score, rel)];
        }
      } else {
        assert DirPyPaths(step.path, files[..j + 1]) == DirPyPaths(step.path, files[..j]);
      }
      j := j + 1;
    }
    assert files[..j] == files;
  }

  /**
   * `find_related_files(root_path, keywords)`: walks the tree, scores every `.py`
   * file, keeps those that score and ranks them.
   */
  method FindRelatedFiles(root: Node, keywords: seq<string>) returns (r: seq<string>)
    ensures r == Ranked(keywords, Candidates(root))
    ensures forall p :: p in r ==> EndsWith(p, ".py") && Score(keywords, PyLower(p)) >= 1
    ensures forall i, j :: 0 <= i < j < |r| ==>
              Score(keywords, PyLower(r[i])) >= Score(keywords, PyLower(r[j]))
    ensures keywords == [] ==> r == []
  {
    var steps := Walk([], root, {});
    var matched: seq<Match> := [];
    var i := 0;
    while i < |steps|
      invariant 0 <= i <= |steps|
      invariant matched == Matches(keywords, PyPaths(steps[..i]))
    {
      var found := ScanDirectory(keywords, steps[i]);
      PyPathsStep(steps, i);
      MatchesAppend(keywords, PyPaths(steps[..i]), DirPyPaths(steps[i].path, StepFiles(steps[i])));
      matched := matched + found;
      i := i + 1;
    }
    assert steps[..i] == steps;
    matched := Sort(matched, RankLe);
    r := PathsOf(matched);
    RankedProperties(keywords, Candidates(root));
    forall p | p in r ensures EndsWith(p, ".py") {
      PyPathsEndWithPy(steps, p);
    }
    if keywords == [] {
      NoKeywordsNothingRelated(Candidates(root));
    }
  }
}
