/**
 * The Python-only summarisers of utils/parser_utils.py: the per-file function
 * summary, the pruned project tree, the docstring-annotated function listing and
 * the rendering of `project.gptconfig.json`.
 */
module ParserUtils {
  import opened Wrappers
  import opened Strings
  import opened Seqs
  import opened Parsers
  import opened FileSystem
  import opened FileMatcher

  // ---------------------------------------------------------------- summarize_functions

  const NoDocstring: string := "(설명 없음)"
  const NothingToSummarize: string := "요약할 함수가 없습니다."

  /** `ast.get_docstring(node) or "(설명 없음)"`. */
  function DocOrDefault(doc: Option<string>): string
  {
    if doc.None? || doc.value == "" then NoDocstring else doc.value
  }

  /** `f"🔹 {name}({args})\n    {doc.strip()}\n"`. */
  function FunctionEntry(fn: PyFunction): string
  {
    "\U{1F539} " + fn.name + "(" + Join(fn.args, ", ") + ")\n    " + PyStrip(DocOrDefault(fn.doc)) + "\n"
  }

  /** The entries of the definitions `defs`, in order. */
  function FunctionEntries(defs: seq<PyFunction>): seq<string>
  {
    seq(|defs|, k requires 0 <= k < |defs| => FunctionEntry(defs[k]))
  }

  lemma FunctionEntriesStep(defs: seq<PyFunction>, i: nat)
    requires i < |defs|
    ensures FunctionEntries(defs[..i + 1]) == FunctionEntries(defs[..i]) + [FunctionEntry(defs[i])]
  {
    var a, b := FunctionEntries(defs[..i + 1]), FunctionEntries(defs[..i]) + [FunctionEntry(defs[i])];
    assert |a| == |b|;
    forall k | 0 <= k < |a| ensures a[k] == b[k] {
      assert defs[..i + 1][k] == defs[k];
    }
  }

  /**
   * What `summarize_functions(path)` returns for the outcome of reading and parsing
   * the file: the exception it raises, or the entries joined by newlines, or the
   * placeholder when there are none.
   */
  function SummaryText(outcome: Result<seq<PyFunction>, string>): Result<string, string>
  {
    match outcome
    case Err(e) => Err(e)
    case Ok(defs) =>
      var joined := Join(FunctionEntries(defs), "\n");
      Ok(if joined == "" then NothingToSummarize else joined)
  }

  /** `summarize_functions(file_path)`. */
  method SummarizeFunctions(outcome: Result<seq<PyFunction>, string>) returns (r: Result<string, string>)
    ensures r == SummaryText(outcome)
  {
    if outcome.Err? {
      return Err(outcome.error);
    }
    var defs := outcome.value;
    var lines: seq<string> := [];
    var i := 0;
    while i < |defs|
      invariant 0 <= i <= |defs|
      invariant lines == FunctionEntries(defs[..i])
    {
      FunctionEntriesStep(defs, i);
      lines := lines + [FunctionEntry(defs[i])];
      i := i + 1;
    }
    assert defs[..i] == defs;
    var joined := Join(lines, "\n");
    r := Ok(if joined == "" then NothingToSummarize else joined);
  }

  /**
   * The placeholder appears exactly when the file defines no function; otherwise the
   * summary opens with the first definition's entry and holds every entry.
   */
  lemma SummaryTextCases(defs: seq<PyFunction>, k: nat)
    ensures SummaryText(Ok(defs)) == Ok(NothingToSummarize) <==> defs == []
    ensures k < |defs| ==> Infix(FunctionEntry(defs[k]), SummaryText(Ok(defs)).value)
  {
    var es := FunctionEntries(defs);
    if defs != [] {
      JoinStartsWithFirst(es, "\n");
      var joined := Join(es, "\n");
      assert joined[0] == FunctionEntry(defs[0])[0] == '\U{1F539}';
      assert joined != "" && joined != NothingToSummarize;
      if k < |defs| {
        JoinInfix(es, k, "\n");
      }
    }
  }

  /** A function without a docstring (or with an empty one) is described by the placeholder. */
  lemma MissingDocstring(fn: PyFunction)
    requires fn.doc.None? || fn.doc.value == ""
    ensures FunctionEntry(fn) == "\U{1F539} " + fn.name + "(" + Join(fn.args, ", ") + ")\n    " + NoDocstring + "\n"
  {
    PyStripUnchanged(NoDocstring);
  }

  // ---------------------------------------------------------------- get_project_tree

  /** The directory names both walks of this file prune. */
  const Pruned: set<string> := {"__pycache__", ".venv", "venv", ".git", ".idea", ".gptcache"}

  /** `"    " * n`. */
  function Indent4(n: nat): (r: string)
    ensures |r| == 4 * n && forall k :: 0 <= k < |r| ==> r[k] == ' '
  {
    if n == 0 then "" else "    " + Indent4(n - 1)
  }

  /**
   * The line of a visited directory: four spaces per separator between it and the
   * base, then `📁 basename/`. The step's path has one name per separator.
   */
  function FolderLine(s: WalkStep): string
  {
    Indent4(|s.path|) + "\U{1F4C1} " + s.dir.name + "/"
  }

  /** The line of a `.py` file of that directory: `f"{indent}    📄 {file}"`. */
  function TreeFileLine(s: WalkStep, name: string): string
  {
    Indent4(|s.path|) + "    \U{1F4C4} " + name
  }

  /** The lines of the `.py` files among `files`, in order. */
  function PyFileLines(s: WalkStep, files: seq<Node>): seq<string>
  {
    if files == [] then []
    else
      var name := files[|files| - 1].name;
      PyFileLines(s, files[..|files| - 1]) + if EndsWith(name, ".py") then [TreeFileLine(s, name)] else []
  }

  /** What one step of the walk appends. */
  function StepTreeLines(s: WalkStep): seq<string>
  {
    [FolderLine(s)] + PyFileLines(s, StepFiles(s))
  }

  function TreeLines(steps: seq<WalkStep>): seq<string>
  {
    if steps == [] then [] else TreeLines(steps[..|steps| - 1]) + StepTreeLines(steps[|steps| - 1])
  }

  /** `tree_lines` of `get_project_tree(base)`. */
  function ProjectTreeLines(root: Node): seq<string>
  {
    TreeLines(Walk([], root, Pruned))
  }

  /** One iteration of the walk loop of `get_project_tree`. */
  method TreeStep(s: WalkStep, lines: seq<string>) returns (out: seq<string>)
    ensures out == lines + StepTreeLines(s)
  {
    var files := StepFiles(s);
    out := lines + [FolderLine(s)];
    var j := 0;
    while j < |files|
      invariant 0 <= j <= |files|
      invariant out == lines + [FolderLine(s)] + PyFileLines(s, files[..j])
    {
      assert files[..j + 1][..j] == files[..j];
      if EndsWith(files[j].name, ".py") {
        out := out + [TreeFileLine(s, files[j].name)];
      }
      j := j + 1;
    }
    assert files[..j] == files;
    AppendAssociative(lines, [FolderLine(s)], PyFileLines(s, files));
  }

  /** `get_project_tree(base_path)`. */
  method GetProjectTree(root: Node) returns (r: string)
    ensures r == Join(ProjectTreeLines(root), "\n")
  {
    var steps := Walk([], root, Pruned);
    var lines: seq<string> := [];
    var i := 0;
    while i < |steps|
      invariant 0 <= i <= |steps|
      invariant lines == TreeLines(steps[..i])
    {
      assert steps[..i + 1][..i] == steps[..i];
      lines := TreeStep(steps[i], lines);
      i := i + 1;
    }
    assert steps[..i] == steps;
    r := Join(lines, "\n");
  }

  /** `L` is a line that step `s` emits: its folder line or the line of one of its `.py` files. */
  predicate TreeLineOf(s: WalkStep, line: string)
  {
    line == FolderLine(s) || exists f :: f in StepFiles(s) && EndsWith(f.name, ".py") && line == TreeFileLine(s, f.name)
  }

  lemma {:induction false} PyFileLinesIff(s: WalkStep, files: seq<Node>, line: string)
    ensures line in PyFileLines(s, files) <==>
              exists f :: f in files && EndsWith(f.name, ".py") && line == TreeFileLine(s, f.name)
  {
    if files != [] {
      var last := files[|files| - 1];
      PyFileLinesIff(s, files[..|files| - 1], line);
      assert files == files[..|files| - 1] + [last];
    }
  }

  lemma {:induction false} TreeLinesSound(steps: seq<WalkStep>, line: string)
    requires line in TreeLines(steps)
    ensures exists s :: s in steps && TreeLineOf(s, line)
  {
    var last := steps[|steps| - 1];
    var init := steps[..|steps| - 1];
    if line in TreeLines(init) {
      TreeLinesSound(init, line);
      var s :| s in init && TreeLineOf(s, line);
      assert s in steps;
    } else {
      PyFileLinesIff(last, StepFiles(last), line);
      assert TreeLineOf(last, line);
    }
  }

  lemma {:induction false} TreeLinesComplete(steps: seq<WalkStep>, k: nat, line: string)
    requires k < |steps| && TreeLineOf(steps[k], line)
    ensures line in TreeLines(steps)
  {
    var n := |steps| - 1;
    var init := steps[..n];
    assert TreeLines(steps) == TreeLines(init) + StepTreeLines(steps[n]);
    if k < n {
      assert init[k] == steps[k];
      TreeLinesComplete(init, k, line);
      assert line in TreeLines(init);
    } else {
      assert k == n;
      StepLinesComplete(steps[n], line);
    }
  }

  lemma StepLinesComplete(s: WalkStep, line: string)
    requires TreeLineOf(s, line)
    ensures line in StepTreeLines(s)
  {
    PyFileLinesIff(s, StepFiles(s), line);
    if line != FolderLine(s) {
      assert line in PyFileLines(s, StepFiles(s));
    }
  }

  /**
   * Soundness and pruning: every line of the tree belongs to a directory the walk
   * reaches from the base through names none of which is pruned, and is that
   * directory's folder line or the line of one of its `.py` files.
   */
  lemma ProjectTreeSound(root: Node, line: string)
    requires line in ProjectTreeLines(root)
    ensures exists s: WalkStep :: Reaches(root, s.path, s.dir) && AvoidsAll(s.path, Pruned) && TreeLineOf(s, line)
  {
    var steps := Walk([], root, Pruned);
    TreeLinesSound(steps, line);
    var s :| s in steps && TreeLineOf(s, line);
    WalkSound([], root, Pruned, s);
    WalkStaysBelow([], root, Pruned);
    assert s.path[0..] == s.path;
  }

  /**
   * Completeness, at any depth: every readable directory reached through unpruned names
   * gets its folder line, indented four spaces per level, and every `.py` file in it
   * gets its file line.
   */
  lemma ProjectTreeComplete(root: Node, rel: seq<string>, sub: Node, line: string)
    requires Reaches(root, rel, sub) && sub.Dir? && AvoidsAll(rel, Pruned)
    requires TreeLineOf(WalkStep(rel, sub), line)
    ensures line in ProjectTreeLines(root)
  {
    WalkComplete([], root, Pruned, rel, sub);
    assert [] + rel == rel;
    var steps := Walk([], root, Pruned);
    var k :| 0 <= k < |steps| && steps[k] == WalkStep(rel, sub);
    TreeLinesComplete(steps, k, line);
  }

  /** The base directory comes first, with no indent; a base that cannot be listed gives nothing. */
  lemma ProjectTreeStart(root: Node)
    ensures root.Dir? ==> ProjectTreeLines(root) != [] && ProjectTreeLines(root)[0] == "\U{1F4C1} " + root.name + "/"
    ensures !root.Dir? ==> ProjectTreeLines(root) == []
  {
    if root.Dir? {
      var steps := Walk([], root, Pruned);
      assert steps[0] == WalkStep([], root);
      TreeLinesHead(steps);
    }
  }

  lemma {:induction false} TreeLinesHead(steps: seq<WalkStep>)
    requires steps != []
    ensures TreeLines(steps) != [] && TreeLines(steps)[0] == FolderLine(steps[0])
  {
    if |steps| > 1 {
      TreeLinesHead(steps[..|steps| - 1]);
    }
  }

  // ---------------------------------------------------------------- extract_functions

  /**
   * Reading and parsing a file of a listing: a regular file has the outcome of its
   * `ast.parse`, an entry that cannot be opened has the exception of `open`.
   * Directories are never among the file names of a walk step.
   */
  function Parsed(f: Node): Result<seq<PyFunction>, string>
  {
    match f
    case File(_, data) => data.python
    case Special(_, e) => Err(e)
    case _ => Ok([])
  }

  /** `f"      {line.strip()}\n"`. */
  function DocLine(line: string): string
  {
    "      " + PyStrip(line) + "\n"
  }

  function DocLinesText(lines: seq<string>): string
  {
    if lines == [] then "" else DocLinesText(lines[..|lines| - 1]) + DocLine(lines[|lines| - 1])
  }

  /** The docstring lines of a definition: none unless the docstring is non-empty. */
  function DocText(doc: Option<string>): string
  {
    if doc.None? || doc.value == "" then "" else DocLinesText(SplitLines(PyStrip(doc.value)))
  }

  /** What one definition adds: `f"  - def {func.name}()\n"` and its docstring lines. */
  function DefText(fn: PyFunction): string
  {
    "  - def " + fn.name + "()\n" + DocText(fn.doc)
  }

  function DefsText(defs: seq<PyFunction>): string
  {
    if defs == [] then "" else DefsText(defs[..|defs| - 1]) + DefText(defs[|defs| - 1])
  }

  /** The marker of a file that fails to open or parse: `f"\n[⚠️ Error parsing {fname}: {e}]\n"`. */
  function ErrorMarker(name: string, e: string): string
  {
    "\n[\U{26A0}\U{FE0F} Error parsing " + name + ": " + e + "]\n"
  }

  /** The file header: `f"\n📄 {rel_path}\n"`. */
  function FileHeader(rel: string): string
  {
    "\n\U{1F4C4} " + rel + "\n"
  }

  /** What one file of the directory at `dir` adds. */
  function FileText(dir: seq<string>, f: Node): string
  {
    if !EndsWith(f.name, ".py") then ""
    else match Parsed(f)
      case Err(e) => ErrorMarker(f.name, e)
      case Ok(defs) => if defs == [] then "" else FileHeader(RelPath(dir, f.name)) + DefsText(defs)
  }

  function DirText(dir: seq<string>, files: seq<Node>): string
  {
    if files == [] then "" else DirText(dir, files[..|files| - 1]) + FileText(dir, files[|files| - 1])
  }

  lemma DirTextStep(dir: seq<string>, files: seq<Node>, j: nat)
    requires j < |files|
    ensures DirText(dir, files[..j + 1]) == DirText(dir, files[..j]) + FileText(dir, files[j])
  {
    assert files[..j + 1][..j] == files[..j];
  }

  lemma ExtractTextStep(steps: seq<WalkStep>, i: nat)
    requires i < |steps|
    ensures ExtractText(steps[..i + 1]) == ExtractText(steps[..i]) + DirText(steps[i].path, StepFiles(steps[i]))
  {
    assert steps[..i + 1][..i] == steps[..i];
  }

  function ExtractText(steps: seq<WalkStep>): string
  {
    if steps == [] then ""
    else
      var last := steps[|steps| - 1];
      ExtractText(steps[..|steps| - 1]) + DirText(last.path, StepFiles(last))
  }

  /** `extract_functions(root_dir)`. */
  function ExtractFunctionsText(root: Node): string
  {
    ExtractText(Walk([], root, Pruned))
  }

  /** `for line in doc.strip().splitlines(): result += ...`. */
  method AppendDocLines(acc: string, lines: seq<string>) returns (out: string)
    ensures out == acc + DocLinesText(lines)
  {
    out := acc;
    var i := 0;
    while i < |lines|
      invariant 0 <= i <= |lines|
      invariant out == acc + DocLinesText(lines[..i])
    {
      assert lines[..i + 1][..i] == lines[..i];
      AppendAssociative(acc, DocLinesText(lines[..i]), DocLine(lines[i]));
      out := out + DocLine(lines[i]);
      i := i + 1;
    }
    assert lines[..i] == lines;
  }

  /** `for func in funcs: ...`. */
  method AppendDefs(acc: string, defs: seq<PyFunction>) returns (out: string)
    ensures out == acc + DefsText(defs)
  {
    out := acc;
    var i := 0;
    while i < |defs|
      invariant 0 <= i <= |defs|
      invariant out == acc + DefsText(defs[..i])
    {
      assert defs[..i + 1][..i] == defs[..i];
      var fn := defs[i];
      AppendAssociative(acc, DefsText(defs[..i]), DefText(fn));
      var before := out;
      out := out + ("  - def " + fn.name + "()\n");
      if fn.doc.Some? && fn.doc.value != "" {
        out := AppendDocLines(out, SplitLines(PyStrip(fn.doc.value)));
      }
      AppendAssociative(before, "  - def " + fn.name + "()\n", DocText(fn.doc));
      i := i + 1;
    }
    assert defs[..i] == defs;
  }

  /** One iteration of `for fname in filenames`. */
  method AppendFile(acc: string, dir: seq<string>, f: Node) returns (out: string)
    ensures out == acc + FileText(dir, f)
  {
    if !EndsWith(f.name, ".py") {
      return acc;
    }
    match Parsed(f) {
      case Err(e) =>
        out := acc + ErrorMarker(f.name, e);
      case Ok(defs) =>
        if defs == [] {
          return acc;
        }
        AppendAssociative(acc, FileHeader(RelPath(dir, f.name)), DefsText(defs));
        out := AppendDefs(acc + FileHeader(RelPath(dir, f.name)), defs);
    }
  }

  /** The inner loop of `extract_functions` for one step of the walk. */
  method AppendDirectory(acc: string, step: WalkStep) returns (out: string)
    ensures out == acc + DirText(step.path, StepFiles(step))
  {
    var files := StepFiles(step);
    out := acc;
    var j := 0;
    while j < |files|
      invariant 0 <= j <= |files|
      invariant out == acc + DirText(step.path, files[..j])
    {
      DirTextStep(step.path, files, j);
      AppendAssociative(acc, DirText(step.path, files[..j]), FileText(step.path, files[j]));
      out := AppendFile(out, step.path, files[j]);
      j := j + 1;
    }
    assert files[..j] == files;
  }

  /** `extract_functions(root_dir)`. */
  method ExtractFunctions(root: Node) returns (result: string)
    ensures result == ExtractFunctionsText(root)
  {
    var steps := Walk([], root, Pruned);
    result := "";
    var i := 0;
    while i < |steps|
      invariant 0 <= i <= |steps|
      invariant result == ExtractText(steps[..i])
    {
      ExtractTextStep(steps, i);
      result := AppendDirectory(result, steps[i]);
      i := i + 1;
    }
    assert steps[..i] == steps;
  }

  // ---- what the listing holds

  lemma {:induction false} DirTextInfix(dir: seq<string>, files: seq<Node>, k: nat)
    requires k < |files|
    ensures Infix(FileText(dir, files[k]), DirText(dir, files))
  {
    var n := |files| - 1;
    var init, last := DirText(dir, files[..n]), FileText(dir, files[n]);
    assert DirText(dir, files) == init + last;
    if k == n {
      InfixLast(init, last);
    } else {
      assert files[..n][k] == files[k];
      DirTextInfix(dir, files[..n], k);
      InfixExtend(FileText(dir, files[k]), init, last);
    }
  }

  lemma {:induction false} ExtractTextInfix(steps: seq<WalkStep>, k: nat, f: Node)
    requires k < |steps| && f in StepFiles(steps[k])
    ensures Infix(FileText(steps[k].path, f), ExtractText(steps))
  {
    var n := |steps| - 1;
    var init, last := ExtractText(steps[..n]), DirText(steps[n].path, StepFiles(steps[n]));
    ExtractTextStep(steps, n);
    assert steps[..n + 1] == steps;
    if k == n {
      var j := MemberIndex(StepFiles(steps[k]), f);
      DirTextInfix(steps[k].path, StepFiles(steps[k]), j);
      InfixPrepend(FileText(steps[k].path, f), last, init);
    } else {
      assert steps[..n][k] == steps[k];
      ExtractTextInfix(steps[..n], k, f);
      InfixExtend(FileText(steps[k].path, f), init, last);
    }
  }

  /**
   * Every `.py` file the pruned walk lists has its own block in the listing, so a
   * failure in one file does not stop the others: a file that fails to open or parse
   * leaves the error marker with its bare name, a file with definitions leaves its
   * header followed by the entries of its definitions, and any other file leaves nothing.
   */
  lemma ExtractFunctionsBlocks(root: Node, s: WalkStep, f: Node)
    requires s in Walk([], root, Pruned) && f in StepFiles(s) && EndsWith(f.name, ".py")
    ensures Parsed(f).Err? ==> Infix(ErrorMarker(f.name, Parsed(f).error), ExtractFunctionsText(root))
    ensures Parsed(f).Ok? && Parsed(f).value != [] ==>
              Infix(FileHeader(RelPath(s.path, f.name)) + DefsText(Parsed(f).value), ExtractFunctionsText(root))
    ensures Parsed(f) == Ok([]) ==> FileText(s.path, f) == ""
  {
    var steps := Walk([], root, Pruned);
    var k :| 0 <= k < |steps| && steps[k] == s;
    ExtractTextInfix(steps, k, f);
  }

  /** A file whose name does not end with `.py` adds nothing, whatever it holds. */
  lemma NonPythonSilent(dir: seq<string>, f: Node)
    requires !EndsWith(f.name, ".py")
    ensures FileText(dir, f) == ""
  {
  }

  lemma {:induction false} DefsTextInfix(defs: seq<PyFunction>, k: nat)
    requires k < |defs|
    ensures Infix(DefText(defs[k]), DefsText(defs))
  {
    var n := |defs| - 1;
    var init, last := DefsText(defs[..n]), DefText(defs[n]);
    assert DefsText(defs) == init + last;
    if k == n {
      InfixLast(init, last);
    } else {
      assert defs[..n][k] == defs[k];
      DefsTextInfix(defs[..n], k);
      InfixExtend(DefText(defs[k]), init, last);
    }
  }

  lemma {:induction false} DocLinesInfix(lines: seq<string>, k: nat)
    requires k < |lines|
    ensures Infix(DocLine(lines[k]), DocLinesText(lines))
  {
    var n := |lines| - 1;
    var init, last := DocLinesText(lines[..n]), DocLine(lines[n]);
    assert DocLinesText(lines) == init + last;
    if k == n {
      InfixLast(init, last);
    } else {
      assert lines[..n][k] == lines[k];
      DocLinesInfix(lines[..n], k);
      InfixExtend(DocLine(lines[k]), init, last);
    }
  }

  /**
   * Each definition opens with its `def` line, and each line of its stripped, non-empty
   * docstring follows stripped and indented six spaces; without a docstring nothing follows.
   */
  lemma DefTextShape(fn: PyFunction, k: nat)
    ensures StartsWith(DefText(fn), "  - def " + fn.name + "()\n")
    ensures fn.doc.None? || fn.doc.value == "" ==> DefText(fn) == "  - def " + fn.name + "()\n"
    ensures fn.doc.Some? && fn.doc.value != "" && k < |SplitLines(PyStrip(fn.doc.value))| ==>
              Infix(DocLine(SplitLines(PyStrip(fn.doc.value))[k]), DefText(fn))
  {
    var head := "  - def " + fn.name + "()\n";
    assert DefText(fn)[..|head|] == head;
    if fn.doc.Some? && fn.doc.value != "" && k < |SplitLines(PyStrip(fn.doc.value))| {
      var lines := SplitLines(PyStrip(fn.doc.value));
      DocLinesInfix(lines, k);
      InfixAppend(DocLine(lines[k]), DocText(fn.doc), head, "");
      assert head + DocText(fn.doc) + "" == DefText(fn);
    }
  }

  // ---------------------------------------------------------------- load_config

  const ConfigFileName: string := "project.gptconfig.json"
  const NoConfig: string := "(설정 파일 없음)"
  const FunctionsLabel: string := "- 주요 함수:"

  /** Why `load_config` raises: the config path names a directory, or opening or decoding it fails. */
  datatype ConfigFailure = IsADirectory | Raised(message: string)

  /** `f"- 디자인 패턴: {data.get('design_pattern', '없음')}"`. */
  function DesignPatternLine(cfg: GptConfig): string
  {
    "- 디자인 패턴: " + (if cfg.designPattern.Some? then cfg.designPattern.value else "없음")
  }

  /** `f"  - {k} → {v}"`, without the newline `load_config` puts before it. */
  function EntryLine(e: (string, string)): string
  {
    "  - " + e.0 + " \U{2192} " + e.1
  }

  function EntriesText(es: seq<(string, string)>): string
  {
    if es == [] then "" else EntriesText(es[..|es| - 1]) + ("\n" + EntryLine(es[|es| - 1]))
  }

  /** The summary of a decoded config. */
  function ConfigText(cfg: GptConfig): string
  {
    DesignPatternLine(cfg) + "\n" + FunctionsLabel + EntriesText(cfg.functionList)
  }

  /** `load_config(project_root)`: the summary, the placeholder when there is no config file, or what it raises. */
  function ConfigOutcome(root: Node): Result<string, ConfigFailure>
  {
    match Child(root, ConfigFileName)
    case None => Ok(NoConfig)
    case Some(c) =>
      match c
      case File(_, data) => if data.config.Ok? then Ok(ConfigText(data.config.value)) else Err(Raised(data.config.error))
      case Special(_, e) => Err(Raised(e))
      case _ => Err(IsADirectory)
  }

  /** `load_config(project_root)`. */
  method LoadConfig(root: Node) returns (r: Result<string, ConfigFailure>)
    ensures r == ConfigOutcome(root)
  {
    var found := Child(root, ConfigFileName);
    if found.None? {
      return Ok(NoConfig);
    }
    match found.value {
      case File(_, data) =>
        if data.config.Err? {
          return Err(Raised(data.config.error));
        }
        var cfg := data.config.value;
        var result := DesignPatternLine(cfg) + "\n" + FunctionsLabel;
        var es := cfg.functionList;
        var i := 0;
        while i < |es|
          invariant 0 <= i <= |es|
          invariant result == DesignPatternLine(cfg) + "\n" + FunctionsLabel + EntriesText(es[..i])
        {
          assert es[..i + 1][..i] == es[..i];
          result := result + ("\n" + EntryLine(es[i]));
          i := i + 1;
        }
        assert es[..i] == es;
        r := Ok(result);
      case Special(_, e) =>
        r := Err(Raised(e));
      case _ =>
        r := Err(IsADirectory);
    }
  }

  /** The lines of a config summary: the design pattern, the label, then one line per entry in order. */
  function ConfigLines(cfg: GptConfig): seq<string>
  {
    [DesignPatternLine(cfg), FunctionsLabel] + EntryLines(cfg.functionList)
  }

  function EntryLines(es: seq<(string, string)>): (r: seq<string>)
    ensures |r| == |es| && forall k :: 0 <= k < |es| ==> r[k] == EntryLine(es[k])
  {
    seq(|es|, k requires 0 <= k < |es| => EntryLine(es[k]))
  }

  lemma {:induction false} EntriesTextJoin(head: seq<string>, es: seq<(string, string)>)
    requires head != []
    ensures Join(head, "\n") + EntriesText(es) == Join(head + EntryLines(es), "\n")
    decreases |es|
  {
    if es == [] {
      assert head + EntryLines(es) == head;
    } else {
      var init, last := es[..|es| - 1], es[|es| - 1];
      EntriesTextJoin(head, init);
      EntriesTextStep(head, init, last);
      assert init + [last] == es;
    }
  }

  lemma EntriesTextStep(head: seq<string>, init: seq<(string, string)>, e: (string, string))
    requires head != []
    requires Join(head, "\n") + EntriesText(init) == Join(head + EntryLines(init), "\n")
    ensures Join(head, "\n") + EntriesText(init + [e]) == Join(head + EntryLines(init + [e]), "\n")
  {
    var lines, line := EntryLines(init), EntryLine(e);
    assert (init + [e])[..|init|] == init;
    assert EntriesText(init + [e]) == EntriesText(init) + ("\n" + line);
    assert EntryLines(init + [e]) == lines + [line];
    assert head + (lines + [line]) == (head + lines) + [line];
    AppendAssociative(Join(head, "\n"), EntriesText(init), "\n" + line);
    JoinSnoc(head + lines, line, "\n");
    AppendAssociative(Join(head + lines, "\n"), "\n", line);
  }

  /**
   * Splitting the summary at its newlines gives back the design-pattern line, the label and
   * one `k → v` line per `function_list` entry, in the map's order (as long as no key or
   * value holds a newline itself).
   */
  lemma ConfigLinesRoundTrip(cfg: GptConfig)
    requires cfg.designPattern.Some? ==> '\n' !in cfg.designPattern.value
    requires forall k :: 0 <= k < |cfg.functionList| ==> '\n' !in cfg.functionList[k].0 && '\n' !in cfg.functionList[k].1
    ensures Split(ConfigText(cfg), '\n') == ConfigLines(cfg)
  {
    ConfigTextJoin(cfg);
    ConfigLinesSingle(cfg);
    JoinSplit(ConfigLines(cfg), '\n');
  }

  /** The summary is its lines joined by newlines. */
  lemma ConfigTextJoin(cfg: GptConfig)
    ensures ConfigText(cfg) == Join(ConfigLines(cfg), "\n")
  {
    var head := [DesignPatternLine(cfg), FunctionsLabel];
    assert Join(head, "\n") == DesignPatternLine(cfg) + "\n" + FunctionsLabel by {
      assert head[..1] == [DesignPatternLine(cfg)];
    }
    EntriesTextJoin(head, cfg.functionList);
  }

  /** No line of the summary holds a newline when no key or value does. */
  lemma ConfigLinesSingle(cfg: GptConfig)
    requires cfg.designPattern.Some? ==> '\n' !in cfg.designPattern.value
    requires forall k :: 0 <= k < |cfg.functionList| ==> '\n' !in cfg.functionList[k].0 && '\n' !in cfg.functionList[k].1
    ensures forall k :: 0 <= k < |ConfigLines(cfg)| ==> '\n' !in ConfigLines(cfg)[k]
  {
    var lines := ConfigLines(cfg);
    forall k | 0 <= k < |lines| ensures '\n' !in lines[k] {
      if k >= 2 {
        var e := cfg.functionList[k - 2];
        assert lines[k] == "  - " + e.0 + " \U{2192} " + e.1;
      }
    }
  }

  /** The placeholder is returned exactly when the root holds no entry named `project.gptconfig.json`. */
  lemma ConfigMissing(root: Node)
    ensures ConfigOutcome(root) == Ok(NoConfig) <==> Child(root, ConfigFileName).None?
  {
    match Child(root, ConfigFileName)
    case None =>
    case Some(c) =>
      if c.File? && c.data.config.Ok? {
        assert ConfigText(c.data.config.value)[0] == '-' != NoConfig[0];
      }
  }
}
