/**
 * The context builders of utils/context_builder.py: the indented structure
 * summary of a tree, the two function-name extractors, the per-file function
 * summary and the three-section context template.
 */
module ContextBuilder {
  import opened Wrappers
  import opened Strings
  import opened Seqs
  import opened Sorting
  import opened Parsers
  import opened FileSystem
  import opened FileMatcher

  // ---------------------------------------------------------------- generate_structure_summary

  /** The default `max_depth`. */
  const DefaultMaxDepth: int := 3

  const FolderIcon: char := '\U{1F4C1}'
  const PageIcon: char := '\U{1F4C4}'

  /** `"  " * depth`. */
  function Indent(depth: nat): (r: string)
    ensures |r| == 2 * depth && forall k :: 0 <= k < |r| ==> r[k] == ' '
  {
    if depth == 0 then "" else "  " + Indent(depth - 1)
  }

  /** The line of a directory entry: `f"{prefix}📁 {entry}/"`. */
  function DirLine(depth: nat, name: string): string
  {
    Indent(depth) + [FolderIcon, ' '] + name + "/"
  }

  /** The line of a file entry: `f"{prefix}📄 {entry}"`. */
  function FileLine(depth: nat, name: string): string
  {
    Indent(depth) + [PageIcon, ' '] + name
  }

  /** The line an entry that is a directory or a file gets at `depth`. */
  function HeadLine(depth: nat, e: Node): string
  {
    if IsDirectory(e) then DirLine(depth, e.name) else FileLine(depth, e.name)
  }

  /** `os.listdir`: the names of the children, in listing order. */
  function Names(children: seq<Node>): (r: seq<string>)
    ensures |r| == |children| && forall k :: 0 <= k < |r| ==> r[k] == children[k].name
  {
    seq(|children|, k requires 0 <= k < |children| => children[k].name)
  }

  /** `sorted(os.listdir(path))`. */
  function SortedNames(n: Node): seq<string>
    requires n.Dir?
  {
    Sort(Names(n.children), StrLe)
  }

  /**
   * The lines `walk(path, depth)` appends for `n`: nothing beyond the depth bound or
   * when the listing fails (an unreadable directory, or not a directory at all);
   * otherwise the lines of its entries in sorted name order.
   */
  function StructureLines(n: Node, depth: nat, maxDepth: int): seq<string>
    decreases n, 1
  {
    if depth > maxDepth || !n.Dir? then []
    else ListingLines(n, SortedNames(n), depth, maxDepth)
  }

  /** The lines of the entries `names` of the directory `n`, in the order given. */
  function ListingLines(n: Node, names: seq<string>, depth: nat, maxDepth: int): seq<string>
    requires n.Dir?
    decreases n, 0, |names|
  {
    if names == [] then []
    else ListingLines(n, names[..|names| - 1], depth, maxDepth) + EntryLines(n, names[|names| - 1], depth, maxDepth)
  }

  lemma ListingLinesStep(n: Node, names: seq<string>, i: nat, depth: nat, maxDepth: int)
    requires n.Dir? && i < |names|
    ensures ListingLines(n, names[..i + 1], depth, maxDepth) ==
              ListingLines(n, names[..i], depth, maxDepth) + EntryLines(n, names[i], depth, maxDepth)
  {
    assert names[..i + 1][..i] == names[..i];
  }

  /**
   * One iteration of `for entry in entries`: a directory gets its line followed by the
   * lines of its own walk one level deeper, a file gets its line, anything else nothing.
   */
  function EntryLines(n: Node, name: string, depth: nat, maxDepth: int): seq<string>
    requires n.Dir?
    decreases n, 0, 0
  {
    match Child(n, name)
    case None => []
    case Some(e) =>
      if IsDirectory(e) then [DirLine(depth, name)] + StructureLines(e, depth + 1, maxDepth)
      else if e.File? then [FileLine(depth, name)]
      else []
  }

  /** The `walk` closure: appends the lines of `n` at `depth` to `lines`. */
  method WalkStructure(n: Node, depth: nat, maxDepth: int, lines: seq<string>) returns (out: seq<string>)
    ensures out == lines + StructureLines(n, depth, maxDepth)
    decreases n
  {
    if depth > maxDepth || !n.Dir? {
      return lines;
    }
    var entries := SortedNames(n);
    out := lines;
    var i := 0;
    while i < |entries|
      invariant 0 <= i <= |entries|
      invariant out == lines + ListingLines(n, entries[..i], depth, maxDepth)
    {
      var name := entries[i];
      ListingLinesStep(n, entries, i, depth, maxDepth);
      AppendAssociative(lines, ListingLines(n, entries[..i], depth, maxDepth), EntryLines(n, name, depth, maxDepth));
      match Child(n, name) {
        case Some(e) =>
          if IsDirectory(e) {
            AppendAssociative(out, [DirLine(depth, name)], StructureLines(e, depth + 1, maxDepth));
            out := out + [DirLine(depth, name)];
            out := WalkStructure(e, depth + 1, maxDepth, out);
          } else if e.File? {
            out := out + [FileLine(depth, name)];
          }
        case None =>
      }
      i := i + 1;
    }
    assert entries[..i] == entries;
  }

  /** `generate_structure_summary(root_path, max_depth)`. */
  method GenerateStructureSummary(root: Node, maxDepth: int) returns (r: string)
    ensures r == Join(StructureLines(root, 0, maxDepth), "\n")
  {
    var lines := WalkStructure(root, 0, maxDepth, []);
    assert [] + StructureLines(root, 0, maxDepth) == StructureLines(root, 0, maxDepth);
    r := Join(lines, "\n");
  }

  // ---- the order of the entries

  lemma StrLeTotal()
    ensures Total(StrLe)
  {
    forall a: string, b: string ensures StrLe(a, b) || StrLe(b, a) {
      StrLtTotal(a, b);
    }
  }

  lemma StrLeTransitive()
    ensures Transitive(StrLe)
  {
    forall a: string, b: string, c: string | StrLe(a, b) && StrLe(b, c) ensures StrLe(a, c) {
      if a != b && b != c {
        StrLtTransitive(a, b, c);
      }
    }
  }

  lemma StrLeAntisymmetric()
    ensures Antisymmetric(StrLe)
  {
    forall a: string, b: string | StrLe(a, b) && StrLe(b, a) ensures a == b {
      if a != b {
        StrLtAsymmetric(a, b);
      }
    }
  }

  /**
   * The entries are visited in ascending code-point order of their names, each name
   * once per listing entry; this is the one order Python's `sorted` can produce.
   */
  lemma SortedNamesOrder(n: Node, other: seq<string>)
    requires n.Dir?
    ensures SortedBy(SortedNames(n), StrLe)
    ensures multiset(SortedNames(n)) == multiset(Names(n.children))
    ensures SortedBy(other, StrLe) && multiset(other) == multiset(Names(n.children)) ==> other == SortedNames(n)
  {
    StrLeTotal();
    StrLeTransitive();
    StrLeAntisymmetric();
    SortSorted(Names(n.children), StrLe);
    if SortedBy(other, StrLe) && multiset(other) == multiset(Names(n.children)) {
      SortedUnique(other, SortedNames(n), StrLe);
    }
  }

  // ---- indentation and depth

  /** The number of spaces a line starts with. */
  function LeadingSpaces(s: string): (w: nat)
    ensures w <= |s|
  {
    if s == [] || s[0] != ' ' then 0 else 1 + LeadingSpaces(s[1..])
  }

  /**
   * A line indented by exactly two spaces per level, at a level between `lo` and `hi`,
   * with a folder or page icon right after the indent.
   */
  predicate IndentedWithin(line: string, lo: nat, hi: int)
  {
    var w := LeadingSpaces(line);
    w % 2 == 0 && 2 * lo <= w && w <= 2 * hi && w < |line| && (line[w] == FolderIcon || line[w] == PageIcon)
  }

  lemma {:induction false} LeadingSpacesIndent(depth: nat, rest: string)
    requires rest != [] && rest[0] != ' '
    ensures LeadingSpaces(Indent(depth) + rest) == 2 * depth
  {
    if depth > 0 {
      LeadingSpacesIndent(depth - 1, rest);
      var s := Indent(depth) + rest;
      assert s == "  " + (Indent(depth - 1) + rest);
      assert s[1..][1..] == Indent(depth - 1) + rest;
    }
  }

  lemma HeadLineIndented(depth: nat, name: string, maxDepth: int, isDir: bool)
    requires depth <= maxDepth
    ensures IndentedWithin(if isDir then DirLine(depth, name) else FileLine(depth, name), depth, maxDepth)
  {
    var icon := if isDir then FolderIcon else PageIcon;
    var rest := if isDir then [FolderIcon, ' '] + name + "/" else [PageIcon, ' '] + name;
    assert (if isDir then DirLine(depth, name) else FileLine(depth, name)) == Indent(depth) + rest;
    LeadingSpacesIndent(depth, rest);
  }

  /**
   * Every line of the summary of `n` at `depth` belongs to an entry at a depth between
   * `depth` and `max_depth`, indented by exactly two spaces per level and starting
   * with its icon; so nothing is listed beyond the depth bound.
   */
  lemma {:induction false} StructureIndented(n: Node, depth: nat, maxDepth: int)
    ensures forall k :: 0 <= k < |StructureLines(n, depth, maxDepth)| ==>
              IndentedWithin(StructureLines(n, depth, maxDepth)[k], depth, maxDepth)
    decreases n, 1
  {
    if depth <= maxDepth && n.Dir? {
      ListingIndented(n, SortedNames(n), depth, maxDepth);
    }
  }

  lemma {:induction false} ListingIndented(n: Node, names: seq<string>, depth: nat, maxDepth: int)
    requires n.Dir? && depth <= maxDepth
    ensures forall k :: 0 <= k < |ListingLines(n, names, depth, maxDepth)| ==>
              IndentedWithin(ListingLines(n, names, depth, maxDepth)[k], depth, maxDepth)
    decreases n, 0, |names|
  {
    if names != [] {
      ListingIndented(n, names[..|names| - 1], depth, maxDepth);
      EntryIndented(n, names[|names| - 1], depth, maxDepth);
    }
  }

  lemma {:induction false} EntryIndented(n: Node, name: string, depth: nat, maxDepth: int)
    requires n.Dir? && depth <= maxDepth
    ensures forall k :: 0 <= k < |EntryLines(n, name, depth, maxDepth)| ==>
              IndentedWithin(EntryLines(n, name, depth, maxDepth)[k], depth, maxDepth)
    decreases n, 0, 0
  {
    match Child(n, name)
    case None =>
    case Some(e) =>
      if IsDirectory(e) {
        HeadLineIndented(depth, name, maxDepth, true);
        StructureIndented(e, depth + 1, maxDepth);
        var sub := StructureLines(e, depth + 1, maxDepth);
        assert forall k :: 0 <= k < |sub| ==> IndentedWithin(sub[k], depth, maxDepth);
      } else if e.File? {
        HeadLineIndented(depth, name, maxDepth, false);
      }
  }

  // ---- completeness and the block of a directory

  lemma {:induction false} ListingInfix(n: Node, names: seq<string>, k: nat, depth: nat, maxDepth: int)
    requires n.Dir? && k < |names|
    ensures Infix(EntryLines(n, names[k], depth, maxDepth), ListingLines(n, names, depth, maxDepth))
    decreases |names|
  {
    var init := names[..|names| - 1];
    var front := ListingLines(n, init, depth, maxDepth);
    var last := EntryLines(n, names[|names| - 1], depth, maxDepth);
    assert ListingLines(n, names, depth, maxDepth) == front + last;
    if k == |names| - 1 {
      InfixLast(front, last);
    } else {
      ListingInfix(n, init, k, depth, maxDepth);
      assert init[k] == names[k];
      InfixExtend(EntryLines(n, names[k], depth, maxDepth), front, last);
    }
  }

  /** The lines of the entry `name` of `n` form one contiguous block of the summary of `n`. */
  lemma EntryBlock(n: Node, name: string, depth: nat, maxDepth: int)
    requires n.Dir? && depth <= maxDepth && Child(n, name).Some?
    ensures Infix(EntryLines(n, name, depth, maxDepth), StructureLines(n, depth, maxDepth))
  {
    var c := Child(n, name).value;
    var k :| 0 <= k < |n.children| && n.children[k] == c;
    assert Names(n.children)[k] == name;
    SortedNamesOrder(n, []);
    assert name in multiset(SortedNames(n));
    var j := MultisetIndex(SortedNames(n), name);
    ListingInfix(n, SortedNames(n), j, depth, maxDepth);
  }

  /**
   * Depth first: a listed directory's own line is followed immediately by the lines of
   * its contents; for an unreadable directory those are none, and its line remains.
   */
  lemma DirectoryBlock(n: Node, name: string, depth: nat, maxDepth: int)
    requires n.Dir? && depth <= maxDepth
    requires Child(n, name).Some? && IsDirectory(Child(n, name).value)
    ensures Infix([DirLine(depth, name)] + StructureLines(Child(n, name).value, depth + 1, maxDepth),
                  StructureLines(n, depth, maxDepth))
    ensures Child(n, name).value.Unreadable? ==> StructureLines(Child(n, name).value, depth + 1, maxDepth) == []
  {
    EntryBlock(n, name, depth, maxDepth);
  }

  /**
   * No exclusions: every directory or file that a path of names leads to from `n` is
   * listed, at one level per name (`level`, the depth of its line), as long as that level
   * is within the bound.
   */
  lemma {:induction false} StructureComplete(n: Node, depth: nat, maxDepth: int, path: seq<string>, sub: Node, level: nat)
    requires path != [] && Lookup(n, path) == Some(sub) && level == depth + |path| - 1 && level <= maxDepth
    requires IsDirectory(sub) || sub.File?
    ensures HeadLine(level, sub) in StructureLines(n, depth, maxDepth)
    decreases path
  {
    var c := LookupStep(n, path, sub);
    if |path| == 1 {
      HeadInStructure(n, path[0], depth, maxDepth);
    } else {
      StructureComplete(c, depth + 1, maxDepth, path[1..], sub, level);
      InDirectoryInStructure(n, path[0], depth, maxDepth, HeadLine(level, sub));
    }
  }

  /** A listed entry's own line is in the summary of its directory. */
  lemma HeadInStructure(n: Node, name: string, depth: nat, maxDepth: int)
    requires n.Dir? && depth <= maxDepth && Child(n, name).Some?
    requires IsDirectory(Child(n, name).value) || Child(n, name).value.File?
    ensures HeadLine(depth, Child(n, name).value) in StructureLines(n, depth, maxDepth)
  {
    EntryBlock(n, name, depth, maxDepth);
    EntryHead(n, name, depth, maxDepth);
    InfixMember(EntryLines(n, name, depth, maxDepth), StructureLines(n, depth, maxDepth), HeadLine(depth, Child(n, name).value));
  }

  /** A line of a listed directory's own walk is in the summary of its parent. */
  lemma InDirectoryInStructure(n: Node, name: string, depth: nat, maxDepth: int, line: string)
    requires n.Dir? && depth <= maxDepth && Child(n, name).Some? && Child(n, name).value.Dir?
    requires line in StructureLines(Child(n, name).value, depth + 1, maxDepth)
    ensures line in StructureLines(n, depth, maxDepth)
  {
    EntryBlock(n, name, depth, maxDepth);
    EntryOfDirectory(n, name, depth, maxDepth, line);
    InfixMember(EntryLines(n, name, depth, maxDepth), StructureLines(n, depth, maxDepth), line);
  }

  /** A listed entry's lines start with its own line. */
  lemma EntryHead(n: Node, name: string, depth: nat, maxDepth: int)
    requires n.Dir? && Child(n, name).Some?
    requires IsDirectory(Child(n, name).value) || Child(n, name).value.File?
    ensures EntryLines(n, name, depth, maxDepth) != []
    ensures EntryLines(n, name, depth, maxDepth)[0] == HeadLine(depth, Child(n, name).value)
  {
  }

  /** The lines of a listed directory's own walk are among its entry's lines. */
  lemma EntryOfDirectory(n: Node, name: string, depth: nat, maxDepth: int, line: string)
    requires n.Dir? && Child(n, name).Some? && Child(n, name).value.Dir?
    requires line in StructureLines(Child(n, name).value, depth + 1, maxDepth)
    ensures line in EntryLines(n, name, depth, maxDepth)
  {
  }


  // ---------------------------------------------------------------- extractors

  /**
   * `extract_functions_from_file`: the names of the `FunctionDef` nodes in `ast.walk`
   * order, or `[]` when reading or parsing fails.
   */
  function ExtractFunctionsFromFile(f: Node): seq<string>
  {
    if f.File? && f.data.python.Ok? then
      var defs := f.data.python.value;
      seq(|defs|, k requires 0 <= k < |defs| => defs[k].name)
    else []
  }

  /**
   * The names `extract_functions_from_js_file` returns: each match of any pattern, once.
   * `list(set(...))` leaves their order unspecified; the model fixes first-occurrence order.
   */
  function JsFunctionNames(f: Node): seq<string>
  {
    if f.File? && f.data.jsMatches.Some? then Dedup(Flatten(f.data.jsMatches.value)) else []
  }

  /**
   * `extract_functions_from_js_file`: concatenates the matches of the patterns and
   * drops the repeats, keeping first occurrences.
   */
  method ExtractFunctionsFromJsFile(f: Node) returns (r: seq<string>)
    ensures r == JsFunctionNames(f)
  {
    if !f.File? || f.data.jsMatches.None? {
      return [];
    }
    var found := f.data.jsMatches.value;
    var matches: seq<string> := [];
    var i := 0;
    while i < |found|
      invariant 0 <= i <= |found|
      invariant matches == Flatten(found[..i])
    {
      assert found[..i + 1][..i] == found[..i];
      matches := matches + found[i];
      i := i + 1;
    }
    assert found[..i] == found;
    r := Dedup(matches);
  }

  /** The Python extractor: one name per definition, in order; nothing when the file cannot be parsed. */
  lemma PythonNames(f: Node)
    ensures !(f.File? && f.data.python.Ok?) ==> ExtractFunctionsFromFile(f) == []
    ensures f.File? && f.data.python.Ok? ==>
              |ExtractFunctionsFromFile(f)| == |f.data.python.value|
              && forall k :: 0 <= k < |f.data.python.value| ==>
                   ExtractFunctionsFromFile(f)[k] == f.data.python.value[k].name
  {
  }

  /**
   * The JavaScript extractor returns no name twice, exactly the names some pattern
   * matched, and nothing when the file cannot be read.
   */
  lemma JsNamesSet(f: Node, x: string)
    ensures NoDup(JsFunctionNames(f))
    ensures x in JsFunctionNames(f) <==>
              f.File? && f.data.jsMatches.Some?
              && exists k :: 0 <= k < |f.data.jsMatches.value| && x in f.data.jsMatches.value[k]
  {
    if f.File? && f.data.jsMatches.Some? {
      var all := Flatten(f.data.jsMatches.value);
      FlattenMember(f.data.jsMatches.value, x);
      DedupMembers(all, x);
      DedupNoDup(all);
    }
  }

  // ---------------------------------------------------------------- generate_function_summary

  /** The default `include_exts`. */
  const DefaultIncludeExts: seq<string> := [".py", ".js", ".jsx"]

  /** `any(filename.endswith(ext) for ext in include_exts)`. */
  predicate Included(name: string, exts: seq<string>)
  {
    exts != [] && (EndsWith(name, exts[0]) || Included(name, exts[1..]))
  }

  /** The names the summary lists for an included file: `.py` goes to the Python extractor, the rest to the JavaScript one. */
  function FunctionsOf(f: Node): seq<string>
  {
    if EndsWith(f.name, ".py") then ExtractFunctionsFromFile(f) else JsFunctionNames(f)
  }

  /** `f"- {rel_path} :"`. */
  function Header(rel: string): string
  {
    "- " + rel + " :"
  }

  /** `f"  - {fn}()"`. */
  function FunctionLine(fn: string): string
  {
    "  - " + fn + "()"
  }

  /** The lines of the names `fns`, in order. */
  function FunctionLines(fns: seq<string>): seq<string>
  {
    seq(|fns|, k requires 0 <= k < |fns| => FunctionLine(fns[k]))
  }

  lemma FunctionLinesStep(fns: seq<string>, k: nat)
    requires k < |fns|
    ensures FunctionLines(fns[..k + 1]) == FunctionLines(fns[..k]) + [FunctionLine(fns[k])]
  {
    var a, b := FunctionLines(fns[..k + 1]), FunctionLines(fns[..k]) + [FunctionLine(fns[k])];
    assert |a| == |b|;
    forall j | 0 <= j < |a| ensures a[j] == b[j] {
      assert fns[..k + 1][j] == fns[j];
    }
  }

  /** What one file found in the directory at `dir` adds to the summary. */
  function FileBlock(dir: seq<string>, f: Node, exts: seq<string>): seq<string>
  {
    if !Included(f.name, exts) || FunctionsOf(f) == [] then []
    else [Header(RelPath(dir, f.name))] + FunctionLines(FunctionsOf(f))
  }

  /** What the files `files` of the directory at `dir` add, in order. */
  function DirBlocks(dir: seq<string>, files: seq<Node>, exts: seq<string>): seq<string>
  {
    if files == [] then []
    else DirBlocks(dir, files[..|files| - 1], exts) + FileBlock(dir, files[|files| - 1], exts)
  }

  lemma DirBlocksSnoc(dir: seq<string>, files: seq<Node>, j: nat, exts: seq<string>)
    requires j < |files|
    ensures DirBlocks(dir, files[..j + 1], exts) == DirBlocks(dir, files[..j], exts) + FileBlock(dir, files[j], exts)
  {
    assert files[..j + 1][..j] == files[..j];
  }

  /** What the steps `steps` of the walk add, in walk order. */
  function SummaryLines(steps: seq<WalkStep>, exts: seq<string>): seq<string>
  {
    if steps == [] then []
    else
      var last := steps[|steps| - 1];
      SummaryLines(steps[..|steps| - 1], exts) + DirBlocks(last.path, StepFiles(last), exts)
  }

  lemma SummaryLinesStep(steps: seq<WalkStep>, i: nat, exts: seq<string>)
    requires i < |steps|
    ensures SummaryLines(steps[..i + 1], exts) == SummaryLines(steps[..i], exts) + DirBlocks(steps[i].path, StepFiles(steps[i]), exts)
  {
    assert steps[..i + 1][..i] == steps[..i];
  }

  /** The lines of `generate_function_summary(root, include_exts)`, before joining. */
  function FunctionSummaryLines(root: Node, exts: seq<string>): seq<string>
  {
    SummaryLines(Walk([], root, {}), exts)
  }

  /** `for fn in functions: summary.append(f"  - {fn}()")`. */
  method AppendFunctionLines(summary: seq<string>, functions: seq<string>) returns (out: seq<string>)
    ensures out == summary + FunctionLines(functions)
  {
    out := summary;
    var k := 0;
    while k < |functions|
      invariant 0 <= k <= |functions|
      invariant out == summary + FunctionLines(functions[..k])
    {
      FunctionLinesStep(functions, k);
      out := out + [FunctionLine(functions[k])];
      k := k + 1;
    }
    assert functions[..k] == functions;
  }

  /** One iteration of `for filename in filenames`: appends what the file `f` adds. */
  method SummarizeFile(dir: seq<string>, f: Node, exts: seq<string>, summary: seq<string>) returns (out: seq<string>)
    ensures out == summary + FileBlock(dir, f, exts)
  {
    if !Included(f.name, exts) {
      return summary;
    }
    var functions;
    if EndsWith(f.name, ".py") {
      functions := ExtractFunctionsFromFile(f);
    } else {
      functions := ExtractFunctionsFromJsFile(f);
    }
    assert functions == FunctionsOf(f);
    if functions == [] {
      return summary;
    }
    out := AppendFunctionLines(summary + [Header(RelPath(dir, f.name))], functions);
  }

  /** The inner loop of `generate_function_summary` for one step of the walk. */
  method SummarizeDirectory(step: WalkStep, exts: seq<string>, summary: seq<string>) returns (out: seq<string>)
    ensures out == summary + DirBlocks(step.path, StepFiles(step), exts)
  {
    var files := StepFiles(step);
    out := summary;
    var j := 0;
    while j < |files|
      invariant 0 <= j <= |files|
      invariant out == summary + DirBlocks(step.path, files[..j], exts)
    {
      DirBlocksSnoc(step.path, files, j, exts);
      AppendAssociative(summary, DirBlocks(step.path, files[..j], exts), FileBlock(step.path, files[j], exts));
      out := SummarizeFile(step.path, files[j], exts, out);
      j := j + 1;
    }
    assert files[..j] == files;
  }

  /** `generate_function_summary(root_path, include_exts)`. */
  method GenerateFunctionSummary(root: Node, exts: seq<string>) returns (r: string)
    ensures r == Join(FunctionSummaryLines(root, exts), "\n")
  {
    var steps := Walk([], root, {});
    var summary: seq<string> := [];
    var i := 0;
    while i < |steps|
      invariant 0 <= i <= |steps|
      invariant summary == SummaryLines(steps[..i], exts)
    {
      SummaryLinesStep(steps, i, exts);
      summary := SummarizeDirectory(steps[i], exts, summary);
      i := i + 1;
    }
    assert steps[..i] == steps;
    r := Join(summary, "\n");
  }

  // ---- which files get a header

  /** `f`, found in the directory at `dir`, is included and yields a name, and `rel` is its relative path. */
  predicate Summarized(dir: seq<string>, f: Node, exts: seq<string>, rel: string)
  {
    Included(f.name, exts) && FunctionsOf(f) != [] && rel == RelPath(dir, f.name)
  }

  /** `f` is a file of step `s` that is summarised under the relative path `rel`. */
  predicate SummarizedFile(s: WalkStep, f: Node, exts: seq<string>, rel: string)
  {
    f in StepFiles(s) && Summarized(s.path, f, exts, rel)
  }

  lemma HeaderInjective(a: string, b: string)
    requires Header(a) == Header(b)
    ensures a == b
  {
    assert a == Header(a)[2..|Header(a)| - 2];
    assert b == Header(b)[2..|Header(b)| - 2];
  }

  lemma FileBlockHeader(dir: seq<string>, f: Node, exts: seq<string>, rel: string)
    ensures Header(rel) in FileBlock(dir, f, exts) <==> Summarized(dir, f, exts, rel)
  {
    var fl := FunctionLines(FunctionsOf(f));
    forall k | 0 <= k < |fl| ensures fl[k] != Header(rel) {
      assert fl[k][0] == ' ' && Header(rel)[0] == '-';
    }
    if Header(rel) == Header(RelPath(dir, f.name)) {
      HeaderInjective(rel, RelPath(dir, f.name));
    }
  }

  lemma {:induction false} DirBlocksHeader(dir: seq<string>, files: seq<Node>, exts: seq<string>, rel: string)
    ensures Header(rel) in DirBlocks(dir, files, exts) <==> exists f :: f in files && Summarized(dir, f, exts, rel)
  {
    if Header(rel) in DirBlocks(dir, files, exts) {
      DirBlocksHeaderSound(dir, files, exts, rel);
    }
    if exists f :: f in files && Summarized(dir, f, exts, rel) {
      var f :| f in files && Summarized(dir, f, exts, rel);
      var k :| 0 <= k < |files| && files[k] == f;
      var j := DirBlocksHeaderComplete(dir, files, exts, rel, k);
    }
  }

  lemma {:induction false} DirBlocksHeaderSound(dir: seq<string>, files: seq<Node>, exts: seq<string>, rel: string)
    requires Header(rel) in DirBlocks(dir, files, exts)
    ensures exists f :: f in files && Summarized(dir, f, exts, rel)
  {
    var n := |files| - 1;
    var init := files[..n];
    DirBlocksSnoc(dir, files, n, exts);
    assert files[..n + 1] == files;
    if Header(rel) in DirBlocks(dir, init, exts) {
      DirBlocksHeaderSound(dir, init, exts, rel);
      var f :| f in init && Summarized(dir, f, exts, rel);
      assert f in files;
    } else {
      FileBlockHeader(dir, files[n], exts, rel);
      assert files[n] in files;
    }
  }

  /** A summarised file's block starts with its header. */
  lemma FileBlockFirst(dir: seq<string>, f: Node, exts: seq<string>, rel: string)
    requires Summarized(dir, f, exts, rel)
    ensures FileBlock(dir, f, exts) != [] && FileBlock(dir, f, exts)[0] == Header(rel)
  {
  }

  /** A summarised file's header is in its directory's block, at index `j`. */
  lemma {:induction false} DirBlocksHeaderComplete(dir: seq<string>, files: seq<Node>, exts: seq<string>, rel: string, k: nat)
    returns (j: nat)
    requires k < |files| && Summarized(dir, files[k], exts, rel)
    ensures j < |DirBlocks(dir, files, exts)| && DirBlocks(dir, files, exts)[j] == Header(rel)
  {
    var n := |files| - 1;
    DirBlocksSnoc(dir, files, n, exts);
    assert files[..n + 1] == files;
    var front := DirBlocks(dir, files[..n], exts);
    var back := FileBlock(dir, files[n], exts);
    if k < n {
      assert files[..n][k] == files[k];
      var i := DirBlocksHeaderComplete(dir, files[..n], exts, rel, k);
      j := IndexInFront(front, back, i);
    } else {
      assert k == n;
      FileBlockFirst(dir, files[n], exts, rel);
      j := IndexOfBack(front, back);
    }
  }

  /**
   * A file gets a `- rel :` line exactly when the walk lists it, its name ends with one
   * of `include_exts` and its extractor yields at least one name.
   */
  lemma {:induction false} SummaryHeaderIff(steps: seq<WalkStep>, exts: seq<string>, rel: string)
    ensures Header(rel) in SummaryLines(steps, exts) <==> exists s, f :: s in steps && SummarizedFile(s, f, exts, rel)
  {
    if steps != [] {
      var last := steps[|steps| - 1];
      var init := steps[..|steps| - 1];
      assert steps == init + [last];
      SummaryHeaderIff(init, exts, rel);
      DirBlocksHeader(last.path, StepFiles(last), exts, rel);
      if Header(rel) in SummaryLines(steps, exts) {
        if Header(rel) in SummaryLines(init, exts) {
          var s, f :| s in init && SummarizedFile(s, f, exts, rel);
          assert s in steps;
        } else {
          var f :| f in StepFiles(last) && Summarized(last.path, f, exts, rel);
          assert SummarizedFile(last, f, exts, rel);
        }
      }
      if exists s, f :: s in steps && SummarizedFile(s, f, exts, rel) {
        var s, f :| s in steps && SummarizedFile(s, f, exts, rel);
        if s in init {
          assert Header(rel) in SummaryLines(init, exts);
        } else {
          assert s == last;
        }
      }
    }
  }

  /** A summarised file's header is followed by one line per extracted name, in order. */
  lemma FileBlockShape(dir: seq<string>, f: Node, exts: seq<string>)
    requires Included(f.name, exts) && FunctionsOf(f) != []
    ensures var b := FileBlock(dir, f, exts);
      && |b| == 1 + |FunctionsOf(f)| && b[0] == Header(RelPath(dir, f.name))
      && forall k :: 0 <= k < |FunctionsOf(f)| ==> b[k + 1] == FunctionLine(FunctionsOf(f)[k])
  {
    var b, fl := FileBlock(dir, f, exts), FunctionLines(FunctionsOf(f));
    assert b == [Header(RelPath(dir, f.name))] + fl;
    forall k | 0 <= k < |FunctionsOf(f)| ensures b[k + 1] == FunctionLine(FunctionsOf(f)[k]) {
      assert b[k + 1] == fl[k];
    }
  }

  // ---------------------------------------------------------------- combine_context

  const ContextTitle: string := "### \U{1F527} 프로젝트 컨텍스트\n"
  const StructureTitle: string := "\n\n### \U{1F4C1} 프로젝트 구조\n"
  const FunctionsTitle: string := "\n\n### \U{1F9E0} 함수 요약\n"

  /** `combine_context(project_context, structure, functions)`. */
  function CombineContext(projectContext: string, structure: string, functions: string): string
  {
    ContextTitle + projectContext + StructureTitle + structure + FunctionsTitle + functions + "\n"
  }

  /**
   * The combined context is the context title and the project context, the structure title
   * and the structure, then the function title and the functions with a final newline:
   * each argument verbatim at its own place.
   */
  lemma CombineContextLayout(projectContext: string, structure: string, functions: string)
    ensures var r := CombineContext(projectContext, structure, functions);
            var a := |ContextTitle| + |projectContext|;
            var b := a + |StructureTitle| + |structure|;
            && |r| == b + |FunctionsTitle| + |functions| + 1
            && r[..|ContextTitle|] == ContextTitle
            && r[|ContextTitle|..a] == projectContext
            && r[a..a + |StructureTitle|] == StructureTitle
            && r[a + |StructureTitle|..b] == structure
            && r[b..b + |FunctionsTitle|] == FunctionsTitle
            && r[b + |FunctionsTitle|..|r| - 1] == functions
            && r[|r| - 1] == '\n'
  {
    var r := CombineContext(projectContext, structure, functions);
    var p1 := ContextTitle + projectContext;
    var p2 := p1 + StructureTitle;
    var p3 := p2 + structure;
    var p4 := p3 + FunctionsTitle;
    var p5 := p4 + functions;
    assert r == p5 + "\n";
    assert r[..|p5|] == p5;
    PieceAt(r, p4, functions);
    PieceAt(r, p3, FunctionsTitle);
    PieceAt(r, p2, structure);
    PieceAt(r, p1, StructureTitle);
    PieceAt(r, ContextTitle, projectContext);
  }
}
