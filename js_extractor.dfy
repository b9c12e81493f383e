/**
 * extract_js_functions.js: the command-line extractor that walks a directory, hands every
 * JavaScript or TypeScript file to `@babel/parser` and `@babel/traverse`, records the
 * function-like nodes once per (name, start line), and prints one line per function.
 *
 * Babel's answer for a file is an input (`Parsers.BabelOutcome`); the tree the extractor
 * walks is a `FileSystem.Node`; an exception nothing catches (`readdirSync` on an
 * unreadable directory, `readFileSync` on an unreadable file) ends the whole run, which
 * the model records as a crash.
 */
module JsExtractor {
  import opened Wrappers
  import opened Strings
  import opened Seqs
  import opened Parsers
  import opened FileSystem

  const AllowedExtensions: seq<string> := [".js", ".jsx", ".ts", ".tsx"]
  const IgnoredDirs: seq<string> := ["node_modules", ".git", "dist", "build", ".next", ".out", ".cache"]

  /** The names given to function-like nodes that have none. */
  const AnonymousFunction: string := "익명 함수"
  const DefaultExport: string := "defaultExport"
  const AnonymousMember: string := "(anonymous)"

  const NoResults: string := "\U{26A0}\U{FE0F} 함수 요약 결과가 없습니다."
  const FailurePrefix: string := "  \U{274C} 파싱 실패: "
  const ParseErrorPrefix: string := "\U{274C} [파싱 오류] "

  // ---------------------------------------------------------------- extractDocSummary

  predicate IsMark(c: char)
  {
    c == '*' || c == '/'
  }

  /** The regular-expression replacement that deletes every `*` and every `/`: the other characters stay, in order. */
  function RemoveMarks(s: string): (r: string)
    ensures |r| <= |s|
    ensures forall k :: 0 <= k < |r| ==> !IsMark(r[k]) && r[k] in s
  {
    if s == [] then []
    else
      var init := RemoveMarks(s[..|s| - 1]);
      assert forall k :: 0 <= k < |init| ==> init[k] in s by {
        forall k | 0 <= k < |init| ensures init[k] in s {
          var j :| 0 <= j < |s| - 1 && s[..|s| - 1][j] == init[k];
          assert s[j] == init[k];
        }
      }
      init + if IsMark(s[|s| - 1]) then [] else [s[|s| - 1]]
  }

  /** Removal works character by character, so it distributes over concatenation. */
  lemma {:induction false} RemoveMarksAppend(a: string, b: string)
    ensures RemoveMarks(a + b) == RemoveMarks(a) + RemoveMarks(b)
    decreases |b|
  {
    if b == [] {
      assert a + b == a;
    } else {
      var n := |b| - 1;
      RemoveMarksAppend(a, b[..n]);
      assert (a + b)[..|a + b| - 1] == a + b[..n];
      AppendAssociative(RemoveMarks(a), RemoveMarks(b[..n]), if IsMark(b[n]) then [] else [b[n]]);
    }
  }

  /** A text without marks is left as it is. */
  lemma {:induction false} RemoveMarksOfPlain(s: string)
    requires forall k :: 0 <= k < |s| ==> !IsMark(s[k])
    ensures RemoveMarks(s) == s
  {
    if s != [] {
      RemoveMarksOfPlain(s[..|s| - 1]);
    }
  }

  /** `extractDocSummary(node)` over the `value`s of the node's leading comments. */
  function DocSummary(comments: seq<string>): string
  {
    if comments == [] then ""
    else JsTrim(RemoveMarks(Split(JsTrim(comments[|comments| - 1]), '\n')[0]))
  }

  /** The characters of `Trim(s, space)` are characters of `s`. */
  lemma TrimKeeps(s: string, space: char -> bool)
    ensures forall k :: 0 <= k < |Trim(s, space)| ==> Trim(s, space)[k] in s
  {
    var i := LeadingSpace(s, space);
    var r := Trim(s, space);
    forall k | 0 <= k < |r| ensures r[k] in s {
      assert r[k] == s[i + k];
    }
  }

  /**
   * Without leading comments the summary is empty. Otherwise only the last comment counts,
   * and the summary is a single line: no `*`, no `/`, no newline, no white space at its ends,
   * and every character comes from that last comment.
   */
  lemma DocSummaryShape(comments: seq<string>)
    ensures comments == [] ==> DocSummary(comments) == ""
    ensures comments != [] ==> DocSummary(comments) == DocSummary([comments[|comments| - 1]])
    ensures var r := DocSummary(comments);
            && (forall k :: 0 <= k < |r| ==> !IsMark(r[k]) && r[k] != '\n' && r[k] in comments[|comments| - 1])
            && (r != [] ==> !IsJsSpace(r[0]) && !IsJsSpace(r[|r| - 1]))
  {
    if comments != [] {
      var c := comments[|comments| - 1];
      var t := JsTrim(c);
      var line := Split(t, '\n')[0];
      var m := RemoveMarks(line);
      var r := JsTrim(m);
      TrimKeeps(m, IsJsSpace);
      TrimKeeps(c, IsJsSpace);
      SplitPieceKeeps(t, '\n');
      forall k | 0 <= k < |r| ensures !IsMark(r[k]) && r[k] != '\n' && r[k] in c {
        assert r[k] in m;
        var j :| 0 <= j < |m| && m[j] == r[k];
        assert m[j] in line;
        assert line[..] == line;
      }
    }
  }

  /** The characters of the first piece of a split are characters of the text, and none is the separator. */
  lemma SplitPieceKeeps(s: string, sep: char)
    ensures forall k :: 0 <= k < |Split(s, sep)[0]| ==> Split(s, sep)[0][k] in s && Split(s, sep)[0][k] != sep
  {
    var i := IndexOf(s, sep);
    if i < |s| {
      assert Split(s, sep)[0] == s[..i];
    } else {
      assert s[..i] == s;
    }
    forall k | 0 <= k < |Split(s, sep)[0]| ensures Split(s, sep)[0][k] in s {
      assert Split(s, sep)[0][k] == s[k];
    }
  }

  /**
   * A conventional multi-line block comment, whose text starts with a `*` on its own line
   * (an opening line, then lines such as ` * text`), gives an empty summary: the first line of its text is that
   * lone `*`, and removing the marks leaves nothing.
   */
  lemma {:induction false} BlockCommentHasNoSummary(comments: seq<string>, rest: string)
    ensures DocSummary(comments + ["*\n" + rest]) == ""
  {
    var cs := comments + ["*\n" + rest];
    var c := "*\n" + rest;
    var t := JsTrim(c);
    assert LeadingSpace(c, IsJsSpace) == 0;
    assert |t| >= 1 && t[0] == '*';
    assert |t| == 1 || t[1] == '\n' by {
      if |t| > 1 {
        assert t == c[..|t|];
      }
    }
    var i := IndexOf(t, '\n');
    assert i == 1 by {
      if |t| > 1 {
        assert t[1] == '\n';
      }
    }
    assert Split(t, '\n')[0] == "*" by {
      if i < |t| {
        assert Split(t, '\n')[0] == t[..1];
      } else {
        assert t == t[..1];
      }
    }
    assert RemoveMarks("*") == "" by {
      assert "*"[..0] == [];
    }
    assert cs[|cs| - 1] == c;
  }

  // ---------------------------------------------------------------- addFunction

  /** One entry of `functions`: the name, `loc?.start.line`, and the summary. */
  datatype JsFunction = JsFunction(name: string, line: Option<nat>, summary: string)

  /** How `${loc?.start.line}` renders: the decimal line number, or `undefined` without a location. */
  function LineText(line: Option<nat>): string
  {
    if line.Some? then NatToString(line.value) else "undefined"
  }

  /** The `seen` key `${name}:${loc?.start.line}`. */
  function Key(f: JsFunction): string
  {
    f.name + ":" + LineText(f.line)
  }

  lemma LineTextInjective(a: Option<nat>, b: Option<nat>)
    requires LineText(a) == LineText(b)
    ensures a == b
  {
    if a.Some? && b.Some? {
      NatToStringRoundTrip(a.value);
      NatToStringRoundTrip(b.value);
    }
  }

  lemma NoColonInLineText(line: Option<nat>)
    ensures ':' !in LineText(line)
  {
  }

  /** In `front + ":" + back` with no colon in `back`, the last colon is the one after `front`. */
  lemma {:induction false} LastColon(front: string, back: string)
    requires ':' !in back
    ensures LastIndexOf(front + ":" + back, ':') == Some(|front|)
    decreases |back|
  {
    var s := front + ":" + back;
    if back != [] {
      var n := |back| - 1;
      assert back[n] in back;
      assert s[..|s| - 1] == front + ":" + back[..n];
      assert ':' !in back[..n];
      LastColon(front, back[..n]);
    }
  }

  /**
   * Two entries with the same key have the same name and the same line: the line text holds
   * no colon, so the key's last colon is the one after the name, even for a name holding colons.
   */
  lemma KeyInjective(a: JsFunction, b: JsFunction)
    requires Key(a) == Key(b)
    ensures a.name == b.name && a.line == b.line
  {
    var s := Key(a);
    NoColonInLineText(a.line);
    NoColonInLineText(b.line);
    LastColon(a.name, LineText(a.line));
    LastColon(b.name, LineText(b.line));
    assert |a.name| == |b.name|;
    assert a.name == s[..|a.name|] == b.name;
    assert LineText(a.line) == s[|a.name| + 1..] == LineText(b.line);
    LineTextInjective(a.line, b.line);
  }

  /** The keys of `fs`, in order. */
  function KeyList(fs: seq<JsFunction>): (r: seq<string>)
    ensures |r| == |fs| && forall k :: 0 <= k < |fs| ==> r[k] == Key(fs[k])
  {
    seq(|fs|, k requires 0 <= k < |fs| => Key(fs[k]))
  }

  lemma KeyListSnoc(fs: seq<JsFunction>, f: JsFunction)
    ensures KeyList(fs + [f]) == KeyList(fs) + [Key(f)]
  {
  }

  /**
   * What `addFunction` leaves in `functions` after it is called with `candidates` in order:
   * a candidate is appended unless an entry with its key is already there.
   */
  function Recorded(candidates: seq<JsFunction>): seq<JsFunction>
  {
    if candidates == [] then []
    else
      var r := Recorded(candidates[..|candidates| - 1]);
      var last := candidates[|candidates| - 1];
      if Key(last) in KeyList(r) then r else r + [last]
  }

  /**
   * The closure state of one `extractFunctionsFromFile` call: the `seen` set and the
   * `functions` array; `offered` is every entry passed to `addFunction` so far.
   */
  class Collector {
    var seen: set<string>
    var functions: seq<JsFunction>
    ghost var offered: seq<JsFunction>

    /** `seen` holds exactly the keys of the recorded functions, which are those `Recorded` keeps of the offers. */
    ghost predicate Valid()
      reads this
    {
      && seen == (set key | key in KeyList(functions))
      && functions == Recorded(offered)
    }

    constructor ()
      ensures Valid() && offered == [] && functions == []
    {
      seen := {};
      functions := [];
      offered := [];
    }

    /** `addFunction(name, loc, summary)`. */
    method AddFunction(name: string, line: Option<nat>, summary: string)
      requires Valid()
      modifies this
      ensures Valid()
      ensures var f := JsFunction(name, line, summary);
              && offered == old(offered) + [f]
              && (Key(f) in old(seen) ==> functions == old(functions) && seen == old(seen))
              && (Key(f) !in old(seen) ==> functions == old(functions) + [f] && seen == old(seen) + {Key(f)})
    {
      var f := JsFunction(name, line, summary);
      var key := Key(f);
      assert (offered + [f])[..|offered|] == offered;
      if key !in seen {
        KeyListSnoc(functions, f);
        functions := functions + [f];
        seen := seen + {key};
      }
      offered := offered + [f];
    }

    /** The `addFunction` calls of one visitor, in order (`forEach` over the declarators of an export). */
    method Offer(offers: seq<JsFunction>)
      requires Valid()
      modifies this
      ensures Valid() && offered == old(offered) + offers
    {
      ghost var start := offered;
      var j := 0;
      while j < |offers|
        invariant 0 <= j <= |offers|
        invariant Valid()
        invariant offered == start + offers[..j]
      {
        var o := offers[j];
        ghost var before := offered;
        AddFunction(o.name, o.line, o.summary);
        assert offered == before + [o];
        OfferedStep(start, offers, j);
        j := j + 1;
      }
      assert offers[..j] == offers;
    }
  }

  lemma OfferedStep(start: seq<JsFunction>, offers: seq<JsFunction>, j: nat)
    requires j < |offers|
    ensures start + offers[..j] + [offers[j]] == start + offers[..j + 1]
  {
    assert offers[..j + 1] == offers[..j] + [offers[j]];
  }

  /** The keys recorded are the keys offered, each once, in order of first offer. */
  lemma {:induction false} RecordedKeys(candidates: seq<JsFunction>)
    ensures KeyList(Recorded(candidates)) == Dedup(KeyList(candidates))
  {
    if candidates != [] {
      var init, last := candidates[..|candidates| - 1], candidates[|candidates| - 1];
      assert candidates == init + [last];
      RecordedKeys(init);
      RecordedSnoc(init, last);
      KeyListSnoc(init, last);
      DedupSnoc(KeyList(init), Key(last));
      KeyListSnoc(Recorded(init), last);
    }
  }

  lemma RecordedSnoc(candidates: seq<JsFunction>, f: JsFunction)
    ensures var r := Recorded(candidates);
            Recorded(candidates + [f]) == if Key(f) in KeyList(r) then r else r + [f]
  {
    assert (candidates + [f])[..|candidates|] == candidates;
  }

  /** Every recorded entry is the first candidate offered with its key; `i` is where it was offered. */
  lemma {:induction false} RecordedFirst(candidates: seq<JsFunction>, k: nat) returns (i: nat)
    requires k < |Recorded(candidates)|
    ensures i < |candidates| && candidates[i] == Recorded(candidates)[k]
    ensures forall j :: 0 <= j < i ==> Key(candidates[j]) != Key(candidates[i])
  {
    var init, last := candidates[..|candidates| - 1], candidates[|candidates| - 1];
    var r := Recorded(init);
    assert Recorded(candidates) == if Key(last) in KeyList(r) then r else r + [last];
    if k < |r| {
      assert Recorded(candidates)[k] == r[k];
      i := RecordedFirst(init, k);
      FirstInPrefix(candidates, init, i);
    } else {
      assert Recorded(candidates) == r + [last] && k == |r|;
      i := |candidates| - 1;
      NewKey(init, last);
      forall j | 0 <= j < i ensures Key(candidates[j]) != Key(candidates[i]) {
        assert candidates[j] == init[j];
      }
    }
  }

  /** A candidate no earlier candidate shares a key with stays so when more candidates follow. */
  lemma FirstInPrefix(candidates: seq<JsFunction>, init: seq<JsFunction>, i: nat)
    requires |init| <= |candidates| && init == candidates[..|init|] && i < |init|
    requires forall j :: 0 <= j < i ==> Key(init[j]) != Key(init[i])
    ensures candidates[i] == init[i]
    ensures forall j :: 0 <= j < i ==> Key(candidates[j]) != Key(candidates[i])
  {
    forall j | 0 <= j < i ensures Key(candidates[j]) != Key(candidates[i]) {
      assert candidates[j] == init[j];
    }
  }

  /** A candidate whose key nothing recorded so far carries has a key no earlier candidate carries. */
  lemma NewKey(init: seq<JsFunction>, f: JsFunction)
    requires Key(f) !in KeyList(Recorded(init))
    ensures forall j :: 0 <= j < |init| ==> Key(init[j]) != Key(f)
  {
    RecordedKeys(init);
    DedupMembers(KeyList(init), Key(f));
    forall j | 0 <= j < |init| ensures Key(init[j]) != Key(f) {
      assert KeyList(init)[j] == Key(init[j]);
    }
  }

  /** `addFunction` keeps at most one entry per (name, start line). */
  lemma RecordedDistinct(candidates: seq<JsFunction>)
    ensures var r := Recorded(candidates);
            forall i, j :: 0 <= i < j < |r| ==> r[i].name != r[j].name || r[i].line != r[j].line
  {
    var r := Recorded(candidates);
    RecordedKeys(candidates);
    DedupNoDup(KeyList(candidates));
    forall i, j | 0 <= i < j < |r| ensures r[i].name != r[j].name || r[i].line != r[j].line {
      assert KeyList(r)[i] != KeyList(r)[j];
    }
  }

  /** Every offered (name, start line) pair is recorded; `k` is where. */
  lemma RecordedCovers(candidates: seq<JsFunction>, i: nat) returns (k: nat)
    requires i < |candidates|
    ensures var r := Recorded(candidates);
            k < |r| && r[k].name == candidates[i].name && r[k].line == candidates[i].line
  {
    var r := Recorded(candidates);
    var c := candidates[i];
    RecordedKeys(candidates);
    assert KeyList(candidates)[i] == Key(c);
    DedupMembers(KeyList(candidates), Key(c));
    k :| 0 <= k < |r| && KeyList(r)[k] == Key(c);
    KeyInjective(r[k], c);
  }

  /** What is recorded was offered. */
  lemma RecordedOffered(candidates: seq<JsFunction>)
    ensures forall k :: 0 <= k < |Recorded(candidates)| ==> Recorded(candidates)[k] in candidates
  {
    forall k | 0 <= k < |Recorded(candidates)| ensures Recorded(candidates)[k] in candidates {
      var i := RecordedFirst(candidates, k);
    }
  }

  // ---------------------------------------------------------------- the visitors

  /** `id?.name || fallback`: an absent or empty name takes the default. */
  function NameOr(name: Option<string>, fallback: string): string
  {
    if name.Some? && name.value != "" then name.value else fallback
  }

  /** The entry a visitor offers for `node` under `name`: its start line and doc summary. */
  function Entry(name: string, node: JsNode): JsFunction
  {
    JsFunction(name, node.line, DocSummary(node.comments))
  }

  /** A declarator offers its identifier's name when it initialises a function expression or an arrow. */
  function DeclaratorCandidates(d: Declarator): seq<JsFunction>
  {
    if d.identifier.Some? && d.init.Some? then [Entry(d.identifier.value, d.init.value)] else []
  }

  /** `decl.declarations.forEach(...)`. */
  function DeclarationCandidates(ds: seq<Declarator>): seq<JsFunction>
  {
    if ds == [] then [] else DeclarationCandidates(ds[..|ds| - 1]) + DeclaratorCandidates(ds[|ds| - 1])
  }

  /** The `addFunction` calls one visitor makes, in order. */
  function VisitCandidates(v: Visit): seq<JsFunction>
  {
    match v
    case VisitFunctionDeclaration(node) => [Entry(NameOr(node.id, AnonymousFunction), node)]
    case VisitVariableDeclarator(d) => DeclaratorCandidates(d)
    case VisitExportNamed(decl) =>
      (match decl
       case Variables(ds) => DeclarationCandidates(ds)
       case FunctionDecl(node) => [Entry(NameOr(node.id, AnonymousFunction), node)]
       case NoDeclaration => []
       case OtherDeclaration => [])
    case VisitExportDefault(fn) => if fn.Some? then [Entry(NameOr(fn.value.id, DefaultExport), fn.value)] else []
    case VisitObjectProperty(key, value) => if value.Some? then [Entry(NameOr(key, AnonymousMember), value.value)] else []
    case VisitObjectMethod(key, node) => [Entry(NameOr(key, AnonymousMember), node)]
  }

  /** The `addFunction` calls of a whole traversal, visitor after visitor. */
  function VisitsCandidates(visits: seq<Visit>): seq<JsFunction>
  {
    if visits == [] then [] else VisitsCandidates(visits[..|visits| - 1]) + VisitCandidates(visits[|visits| - 1])
  }

  /**
   * The default names: a function declaration whose name is missing or empty (falsy) is
   * `익명 함수`, such a default export is `defaultExport`, and an object member whose key has
   * no name is `(anonymous)`.
   */
  lemma DefaultNames(node: JsNode, key: Option<string>)
    ensures node.id.None? || node.id == Some("") ==>
              VisitCandidates(VisitFunctionDeclaration(node)) == [Entry(AnonymousFunction, node)] &&
              VisitCandidates(VisitExportNamed(FunctionDecl(node))) == [Entry(AnonymousFunction, node)] &&
              VisitCandidates(VisitExportDefault(Some(node))) == [Entry(DefaultExport, node)]
    ensures key.None? || key == Some("") ==>
              VisitCandidates(VisitObjectProperty(key, Some(node))) == [Entry(AnonymousMember, node)] &&
              VisitCandidates(VisitObjectMethod(key, node)) == [Entry(AnonymousMember, node)]
  {
  }

  /** A node with a non-empty name keeps it, whichever visitor meets it. */
  lemma GivenNames(node: JsNode, key: Option<string>)
    ensures node.id.Some? && node.id.value != "" ==>
              VisitCandidates(VisitFunctionDeclaration(node)) == [Entry(node.id.value, node)] &&
              VisitCandidates(VisitExportNamed(FunctionDecl(node))) == [Entry(node.id.value, node)] &&
              VisitCandidates(VisitExportDefault(Some(node))) == [Entry(node.id.value, node)]
    ensures key.Some? && key.value != "" ==>
              VisitCandidates(VisitObjectProperty(key, Some(node))) == [Entry(key.value, node)] &&
              VisitCandidates(VisitObjectMethod(key, node)) == [Entry(key.value, node)]
  {
  }

  /** The object `extractFunctionsFromFile` returns: `error` (`null` as `None`) and `functions`. */
  datatype Extraction = Extraction(error: Option<string>, functions: seq<JsFunction>)

  /**
   * `extractFunctionsFromFile(filePath)`: `Err` when `readFileSync` throws (nothing catches
   * it), the parser's message with no functions when parsing fails, and otherwise every
   * offered entry once per key.
   */
  function Extract(babel: BabelOutcome): Result<Extraction, string>
  {
    match babel
    case ReadFailed(message) => Err(message)
    case SyntaxError(message) => Ok(Extraction(Some(message), []))
    case Traversed(visits) => Ok(Extraction(None, Recorded(VisitsCandidates(visits))))
  }

  /** The traversal, feeding each visitor's offers to one collector. */
  method ExtractFunctionsFromFile(babel: BabelOutcome) returns (r: Result<Extraction, string>)
    ensures r == Extract(babel)
  {
    match babel
    case ReadFailed(message) => r := Err(message);
    case SyntaxError(message) => r := Ok(Extraction(Some(message), []));
    case Traversed(visits) =>
      var collector := new Collector();
      var i := 0;
      while i < |visits|
        invariant 0 <= i <= |visits|
        invariant collector.Valid()
        invariant collector.offered == VisitsCandidates(visits[..i])
      {
        assert visits[..i + 1][..i] == visits[..i];
        collector.Offer(VisitCandidates(visits[i]));
        i := i + 1;
      }
      assert visits[..i] == visits;
      r := Ok(Extraction(None, collector.functions));
  }

  /**
   * A parse failure gives its message and no functions; a file that cannot be read ends the
   * run; a traversed file lists each (name, line) once, and never fails.
   */
  lemma ExtractCases(babel: BabelOutcome)
    ensures babel.SyntaxError? ==> Extract(babel) == Ok(Extraction(Some(babel.message), []))
    ensures babel.ReadFailed? <==> Extract(babel).Err?
    ensures babel.Traversed? ==>
              var fs := Extract(babel).value.functions;
              Extract(babel).value.error.None? &&
              forall i, j :: 0 <= i < j < |fs| ==> fs[i].name != fs[j].name || fs[i].line != fs[j].line
  {
    if babel.Traversed? {
      var fs := Extract(babel).value.functions;
      RecordedDistinct(VisitsCandidates(babel.visits));
      assert fs == Recorded(VisitsCandidates(babel.visits));
    }
  }

  lemma DistinctNamesDistinctKeys(a: JsFunction, b: JsFunction)
    requires a.name != b.name
    ensures Key(a) != Key(b)
  {
    if Key(a) == Key(b) {
      KeyInjective(a, b);
    }
  }

  lemma DeclarationOne(d: Declarator)
    ensures DeclarationCandidates([d]) == DeclaratorCandidates(d)
  {
    assert [d][..0] == [];
  }

  lemma VisitsTwo(v: Visit, w: Visit)
    ensures VisitsCandidates([v, w]) == VisitCandidates(v) + VisitCandidates(w)
  {
    assert [v, w][..1] == [v];
    assert [v][..0] == [];
    assert VisitsCandidates([v]) == VisitCandidates(v);
  }

  /** Two candidates are both recorded exactly when their keys differ. */
  lemma RecordedTwo(x: JsFunction, y: JsFunction)
    ensures Recorded([x, y]) == if Key(x) == Key(y) then [x] else [x, y]
  {
    assert [x, y][..1] == [x];
    assert [x][..0] == [];
    assert KeyList([]) == [];
    assert Recorded([x]) == [x];
    assert KeyList([x]) == [Key(x)];
  }

  /**
   * `export const f = () => ...` is met twice, by the export visitor and by the declarator
   * visitor, with the same name and the same initialiser: it is recorded once.
   */
  lemma ExportedConstRecordedOnce(name: string, init: JsNode)
    ensures var d := Declarator(Some(name), Some(init));
            Extract(Traversed([VisitExportNamed(Variables([d])), VisitVariableDeclarator(d)])) ==
              Ok(Extraction(None, [Entry(name, init)]))
  {
    var d := Declarator(Some(name), Some(init));
    var v, w := VisitExportNamed(Variables([d])), VisitVariableDeclarator(d);
    DeclarationOne(d);
    SameOfferTwice(v, w, Entry(name, init));
  }

  /** Two visits that offer the same one function record it once. */
  lemma SameOfferTwice(v: Visit, w: Visit, e: JsFunction)
    requires VisitCandidates(v) == [e] && VisitCandidates(w) == [e]
    ensures Extract(Traversed([v, w])) == Ok(Extraction(None, [e]))
  {
    VisitsTwo(v, w);
    assert VisitsCandidates([v, w]) == [e, e];
    RecordedTwo(e, e);
    assert Recorded([e, e]) == [e];
  }

  lemma AnonymousDefaultExportCandidates(node: JsNode)
    requires node.id.None?
    ensures VisitsCandidates([VisitExportDefault(Some(node)), VisitFunctionDeclaration(node)]) ==
              [Entry(DefaultExport, node), Entry(AnonymousFunction, node)]
  {
    var visits := [VisitExportDefault(Some(node)), VisitFunctionDeclaration(node)];
    assert VisitCandidates(visits[0]) == [Entry(DefaultExport, node)];
    assert VisitCandidates(visits[1]) == [Entry(AnonymousFunction, node)];
    VisitsTwo(visits[0], visits[1]);
  }

  lemma DistinctNamesRecordedTwo(a: JsFunction, b: JsFunction)
    requires a.name != b.name
    ensures Recorded([a, b]) == [a, b]
  {
    DistinctNamesDistinctKeys(a, b);
    RecordedTwo(a, b);
  }

  /**
   * `export default function () {}` is met by the default-export visitor as `defaultExport`
   * and by the declaration visitor as `익명 함수`: the keys differ, so it is recorded twice.
   */
  lemma AnonymousDefaultExportRecordedTwice(node: JsNode)
    requires node.id.None?
    ensures Extract(Traversed([VisitExportDefault(Some(node)), VisitFunctionDeclaration(node)])) ==
              Ok(Extraction(None, [Entry(DefaultExport, node), Entry(AnonymousFunction, node)]))
  {
    var visits := [VisitExportDefault(Some(node)), VisitFunctionDeclaration(node)];
    var a := Entry(DefaultExport, node);
    var b := Entry(AnonymousFunction, node);
    AnonymousDefaultExportCandidates(node);
    assert |DefaultExport| != |AnonymousFunction|;
    DistinctNamesRecordedTwo(a, b);
  }

  // ---------------------------------------------------------------- paths

  /** One segment's effect on the resolved segments in `path.normalize`. */
  function ResolveStep(stack: seq<string>, segment: string, absolute: bool): seq<string>
  {
    if segment == "" || segment == "." then stack
    else if segment == ".." then
      if stack != [] && stack[|stack| - 1] != ".." then stack[..|stack| - 1]
      else if absolute then stack
      else stack + [".."]
    else stack + [segment]
  }

  function Resolve(segments: seq<string>, absolute: bool): seq<string>
  {
    if segments == [] then []
    else ResolveStep(Resolve(segments[..|segments| - 1], absolute), segments[|segments| - 1], absolute)
  }

  /** `path.normalize(p)` on POSIX, for a path that does not end in a separator. */
  function Normalize(p: string): string
  {
    if p == "" then "."
    else
      var absolute := p[0] == Sep;
      var body := Join(Resolve(Split(p, Sep), absolute), [Sep]);
      if absolute then [Sep] + body
      else if body == "" then "."
      else body
  }

  /** `path.join(dir, name)`. */
  function JoinPath(dir: string, name: string): string
  {
    Normalize(if dir == "" then name else dir + [Sep] + name)
  }

  /** A name `readdirSync` can list: not empty, no separator, neither `.` nor `..`. */
  predicate PlainSegment(s: string)
  {
    s != "" && s != "." && s != ".." && Sep !in s
  }

  predicate PlainSegments(parts: seq<string>)
  {
    forall k :: 0 <= k < |parts| ==> PlainSegment(parts[k])
  }

  lemma {:induction false} ResolvePlain(parts: seq<string>, absolute: bool)
    requires PlainSegments(parts)
    ensures Resolve(parts, absolute) == parts
  {
    if parts != [] {
      ResolvePlain(parts[..|parts| - 1], absolute);
    }
  }

  /**
   * A relative path made of listable names is already normal, and joining a listable name
   * to it only puts a separator between them.
   */
  lemma JoinPathPlain(parts: seq<string>, name: string)
    requires parts != [] && PlainSegments(parts) && PlainSegment(name)
    ensures Normalize(Join(parts, [Sep])) == Join(parts, [Sep])
    ensures JoinPath(Join(parts, [Sep]), name) == Join(parts, [Sep]) + [Sep] + name
  {
    var p := Join(parts, [Sep]);
    NormalizePlain(parts);
    JoinSnoc(parts, name, [Sep]);
    var full := parts + [name];
    assert PlainSegments(full) by {
      forall k | 0 <= k < |full| ensures PlainSegment(full[k]) {
        if k < |parts| { assert full[k] == parts[k]; }
      }
    }
    NormalizePlain(full);
    assert p != "";
  }

  /** Plain segments joined by separators are already normal, and the result is not empty. */
  lemma NormalizePlain(parts: seq<string>)
    requires parts != [] && PlainSegments(parts)
    ensures Join(parts, [Sep]) != "" && Normalize(Join(parts, [Sep])) == Join(parts, [Sep])
  {
    var p := Join(parts, [Sep]);
    JoinSplit(parts, Sep);
    ResolvePlain(parts, false);
    JoinStartsWithFirst(parts, [Sep]);
    assert p[0] == parts[0][0] != Sep;
  }

  /** The last segment of a path that does not end in a separator (`path.basename`). */
  function Basename(p: string): string
  {
    match LastIndexOf(p, Sep)
    case None => p
    case Some(i) => p[i + 1..]
  }

  /**
   * `path.extname(p)`: from the last `.` of the last segment to its end; empty when the
   * segment has no `.`, starts with its only relevant `.` (a dot file), or is `..`.
   */
  function Extname(p: string): string
  {
    var b := Basename(p);
    match LastIndexOf(b, '.')
    case None => ""
    case Some(i) => if i == 0 || b == ".." then "" else b[i..]
  }

  /** An extension is empty or a suffix of the path. */
  lemma ExtnameSuffix(p: string, e: string)
    requires e == Extname(p)
    ensures e == "" || EndsWith(p, e)
  {
    ExtnameShape(p);
  }

  /** An extension is empty or a final `.`-suffix of the path with no other `.` and no separator. */
  lemma ExtnameShape(p: string)
    ensures var e := Extname(p);
            e == "" || (e[0] == '.' && EndsWith(p, e) && '.' !in e[1..] && Sep !in e)
  {
    var b := Basename(p);
    var e := Extname(p);
    if e != "" {
      var i := LastIndexOf(b, '.').value;
      assert e == b[i..];
      assert e[1..] == b[i + 1..];
      BasenameShape(p);
      SuffixOfSuffix(p, b, i);
      assert EndsWith(p, e);
    }
  }

  /** The last segment of `p` ends `p` and holds no separator. */
  lemma BasenameShape(p: string)
    ensures EndsWith(p, Basename(p)) && Sep !in Basename(p)
  {
    match LastIndexOf(p, Sep)
    case None =>
      assert p[|p| - |p|..] == p;
    case Some(j) =>
      assert p[|p| - |p[j + 1..]|..] == p[j + 1..];
  }

  /** A suffix of a suffix of `p` is a suffix of `p`. */
  lemma SuffixOfSuffix(p: string, b: string, i: nat)
    requires EndsWith(p, b) && i <= |b|
    ensures EndsWith(p, b[i..])
  {
    assert p[|p| - |b[i..]|..] == p[|p| - |b|..][i..];
  }

  /** `allowedExtensions.includes(path.extname(currentPath).toLowerCase())`. */
  predicate AllowedFile(p: string)
  {
    AsciiLower(Extname(p)) in AllowedExtensions
  }

  /** `ignoredDirs.some(dir => currentPath.includes(sep + dir + sep))`. */
  predicate Ignored(p: string)
  {
    exists k :: 0 <= k < |IgnoredDirs| && Contains(p, [Sep] + IgnoredDirs[k] + [Sep])
  }

  /** A path with at most one separator holds no `sep + dir + sep`, so it is never ignored. */
  lemma OneSeparatorNotIgnored(p: string)
    requires forall i, j :: 0 <= i < j < |p| && p[i] == Sep ==> p[j] != Sep
    ensures !Ignored(p)
  {
    forall k | 0 <= k < |IgnoredDirs| ensures !Contains(p, [Sep] + IgnoredDirs[k] + [Sep]) {
      var needle := [Sep] + IgnoredDirs[k] + [Sep];
      var m := |needle|;
      forall i | 0 <= i && i + m <= |p| ensures !OccursAt(p, needle, i) {
        var slice := p[i..i + m];
        if p[i] == Sep {
          assert slice[m - 1] == p[i + m - 1] != Sep == needle[m - 1];
        } else {
          assert slice[0] == p[i] != Sep == needle[0];
        }
      }
      ContainsIff(p, needle);
    }
  }

  // ---------------------------------------------------------------- walkDir with main's callback

  /** One element of `allFunctions`. */
  datatype FileRecord = FileRecord(file: string, result: Extraction)

  /** What a walk gives: the records main's callback pushed, and whether an exception ended the run. */
  datatype WalkOutcome = WalkOutcome(records: seq<FileRecord>, crashed: bool)

  /** The callback on one file: its record, or the crash `readFileSync` causes. */
  function FileOutcome(path: string, babel: BabelOutcome): WalkOutcome
  {
    match Extract(babel)
    case Err(_) => WalkOutcome([], true)
    case Ok(x) => WalkOutcome([FileRecord(path, x)], false)
  }

  /**
   * `walkDir(path, callback)` on the entry `n` at `path`. An ignored path ends the call
   * (after its `statSync`, which succeeds on an existing entry); a directory is read and its
   * entries walked in listing order; an unreadable directory throws; a regular file with an
   * allowed extension goes to the callback; anything else is skipped.
   */
  function JsWalk(path: string, n: Node): WalkOutcome
    decreases n, 1
  {
    if Ignored(path) then WalkOutcome([], false)
    else
      match n
      case Dir(_, _) => JsWalkFrom(path, n, 0)
      case Unreadable(_) => WalkOutcome([], true)
      case File(_, data) => if AllowedFile(path) then FileOutcome(path, data.babel) else WalkOutcome([], false)
      case Special(_, _) => WalkOutcome([], false)
  }

  /** The entries of a directory from index `i` on, in listing order; a crash ends the walk. */
  function JsWalkFrom(path: string, n: Node, i: nat): WalkOutcome
    requires n.Dir? && i <= |n.children|
    decreases n, 0, |n.children| - i
  {
    if i == |n.children| then WalkOutcome([], false)
    else
      var c := n.children[i];
      var w := JsWalk(JoinPath(path, c.name), c);
      if w.crashed then w
      else
        var rest := JsWalkFrom(path, n, i + 1);
        WalkOutcome(w.records + rest.records, rest.crashed)
  }

  lemma JsWalkFromStep(path: string, n: Node, i: nat)
    requires n.Dir? && i < |n.children|
    ensures var c := n.children[i];
            var w := JsWalk(JoinPath(path, c.name), c);
            JsWalkFrom(path, n, i) ==
              if w.crashed then w
              else WalkOutcome(w.records + JsWalkFrom(path, n, i + 1).records, JsWalkFrom(path, n, i + 1).crashed)
  {
  }

  /**
   * The lines the callback prints while the walk runs: `extractFunctionsFromFile` prints one
   * for every file the parser rejects, at the moment it rejects it, and nothing else is printed
   * before `printResults`; so they are a function of the records, in record order.
   */
  function ParseLog(records: seq<FileRecord>): seq<string>
  {
    if records == [] then []
    else ParseLog(records[..|records| - 1]) + ErrorLog(records[|records| - 1])
  }

  /** The line printed for one parsed file: one when the parser rejected it. */
  function ErrorLog(r: FileRecord): seq<string>
  {
    if r.result.error.Some? then [ErrorLine(r)] else []
  }

  function ErrorLine(r: FileRecord): string
    requires r.result.error.Some?
  {
    ParseErrorPrefix + r.file + ": " + r.result.error.value
  }

  lemma {:induction false} ParseLogAppend(a: seq<FileRecord>, b: seq<FileRecord>)
    ensures ParseLog(a + b) == ParseLog(a) + ParseLog(b)
    decreases |b|
  {
    if b == [] {
      assert a + b == a;
    } else {
      var init, last := b[..|b| - 1], b[|b| - 1];
      var ab := a + b;
      ParseLogAppend(a, init);
      assert ab[..|ab| - 1] == a + init;
      assert ab[|ab| - 1] == last;
      ParseLogLast(ab);
      ParseLogLast(b);
      AppendAssociative(ParseLog(a), ParseLog(init), ErrorLog(last));
    }
  }

  lemma ParseLogLast(rs: seq<FileRecord>)
    requires rs != []
    ensures ParseLog(rs) == ParseLog(rs[..|rs| - 1]) + ErrorLog(rs[|rs| - 1])
  {
  }

  /** The records of files the parser rejected, in order. */
  function ErrorRecords(records: seq<FileRecord>): (r: seq<FileRecord>)
    ensures forall k :: 0 <= k < |r| ==> r[k].result.error.Some?
  {
    if records == [] then [] else ErrorRecords(records[..|records| - 1]) + Rejected(records[|records| - 1])
  }

  function Rejected(r: FileRecord): seq<FileRecord>
  {
    if r.result.error.Some? then [r] else []
  }

  /** The log has one line per rejected file, in order, naming the file and the parser's message. */
  lemma {:induction false} ParseLogLines(records: seq<FileRecord>)
    ensures |ParseLog(records)| == |ErrorRecords(records)|
    ensures forall k :: 0 <= k < |ParseLog(records)| ==> ParseLog(records)[k] == ErrorLine(ErrorRecords(records)[k])
  {
    if records != [] {
      ParseLogLines(records[..|records| - 1]);
    }
  }

  /** Nothing is printed during the walk exactly when no file was rejected. */
  lemma {:induction false} ParseLogQuiet(records: seq<FileRecord>)
    ensures ParseLog(records) == [] <==> forall k :: 0 <= k < |records| ==> records[k].result.error.None?
  {
    if records != [] {
      var init := records[..|records| - 1];
      ParseLogQuiet(init);
      assert forall k :: 0 <= k < |init| ==> init[k] == records[k];
    }
  }

  /** The state of one run of `main`: its `allFunctions`. */
  class Run {
    var records: seq<FileRecord>

    constructor ()
      ensures records == []
    {
      records := [];
    }

    /** The callback `main` passes to `walkDir`, on the file at `path`; `crashed` when it throws. */
    method Callback(path: string, babel: BabelOutcome) returns (crashed: bool)
      modifies this
      ensures var w := FileOutcome(path, babel);
              crashed == w.crashed && records == old(records) + w.records
    {
      var r := ExtractFunctionsFromFile(babel);
      if r.Err? {
        return true;
      }
      records := records + [FileRecord(path, r.value)];
      crashed := false;
    }
  }

  /** `walkDir(path, callback)` with `main`'s callback, on the entry `n` at `path`. */
  method WalkDir(path: string, n: Node, run: Run) returns (crashed: bool)
    modifies run
    ensures crashed == JsWalk(path, n).crashed
    ensures run.records == old(run.records) + JsWalk(path, n).records
    decreases n, 1
  {
    if Ignored(path) {
      return false;
    }
    match n
    case Dir(_, _) =>
      crashed := WalkEntries(path, n, run);
    case Unreadable(_) =>
      crashed := true;
    case File(_, data) =>
      if AllowedFile(path) {
        crashed := run.Callback(path, data.babel);
      } else {
        crashed := false;
      }
    case Special(_, _) =>
      crashed := false;
  }

  /** The loop of `walkDir` over the entries `readdirSync` lists, each walked at `path.join(path, name)`. */
  method WalkEntries(path: string, n: Node, run: Run) returns (crashed: bool)
    requires n.Dir?
    modifies run
    ensures crashed == JsWalkFrom(path, n, 0).crashed
    ensures run.records == old(run.records) + JsWalkFrom(path, n, 0).records
    decreases n, 0
  {
    ghost var start := run.records;
    ghost var done: seq<FileRecord> := [];
    var children := n.children;
    var i := 0;
    while i < |children|
      invariant 0 <= i <= |children|
      invariant run.records == start + done
      invariant WalkResumes(path, n, i, done)
    {
      var c := children[i];
      var childPath := JoinPath(path, c.name);
      ghost var w := JsWalk(childPath, c);
      ghost var before := run.records;
      var sub := WalkDir(childPath, c, run);
      assert run.records == before + w.records;
      AppendAssociative(start, done, w.records);
      WalkResumesStep(path, n, i, done);
      if sub {
        return true;
      }
      done := done + w.records;
      i := i + 1;
    }
    WalkResumesEnd(path, n, done);
    crashed := false;
  }

  /** The walk of `n`'s entries has produced `done` and resumes at entry `i`. */
  ghost predicate WalkResumes(path: string, n: Node, i: nat, done: seq<FileRecord>)
    requires n.Dir? && i <= |n.children|
  {
    var rest := JsWalkFrom(path, n, i);
    JsWalkFrom(path, n, 0) == WalkOutcome(done + rest.records, rest.crashed)
  }

  lemma WalkResumesStep(path: string, n: Node, i: nat, done: seq<FileRecord>)
    requires n.Dir? && i < |n.children| && WalkResumes(path, n, i, done)
    ensures var c := n.children[i];
            var w := JsWalk(JoinPath(path, c.name), c);
            && (w.crashed ==> JsWalkFrom(path, n, 0) == WalkOutcome(done + w.records, true))
            && (!w.crashed ==> WalkResumes(path, n, i + 1, done + w.records))
  {
    JsWalkFromStep(path, n, i);
    var c := n.children[i];
    var w := JsWalk(JoinPath(path, c.name), c);
    if !w.crashed {
      AppendAssociative(done, w.records, JsWalkFrom(path, n, i + 1).records);
    }
  }

  lemma WalkResumesEnd(path: string, n: Node, done: seq<FileRecord>)
    requires n.Dir? && WalkResumes(path, n, |n.children|, done)
    ensures JsWalkFrom(path, n, 0) == WalkOutcome(done, false)
  {
    assert done + [] == done;
  }


  /**
   * Every file the callback receives has an allowed extension (compared in lower case) and a
   * path that contains no `sep + dir + sep` for any ignored directory.
   */
  lemma {:induction false} WalkSound(path: string, n: Node)
    ensures forall k :: 0 <= k < |JsWalk(path, n).records| ==>
              var p := JsWalk(path, n).records[k].file;
              AllowedFile(p) && !Ignored(p)
    decreases n, 1
  {
    if !Ignored(path) && n.Dir? {
      WalkFromSound(path, n, 0);
    }
  }

  lemma {:induction false} WalkFromSound(path: string, n: Node, i: nat)
    requires n.Dir? && i <= |n.children|
    ensures forall k :: 0 <= k < |JsWalkFrom(path, n, i).records| ==>
              var p := JsWalkFrom(path, n, i).records[k].file;
              AllowedFile(p) && !Ignored(p)
    decreases n, 0, |n.children| - i
  {
    if i < |n.children| {
      var c := n.children[i];
      WalkSound(JoinPath(path, c.name), c);
      if !JsWalk(JoinPath(path, c.name), c).crashed {
        WalkFromSound(path, n, i + 1);
      }
    }
  }

  /** An allowed file's path ends, in lower case, with one of the four extensions. */
  lemma AllowedEndsWithExtension(p: string) returns (k: nat)
    requires AllowedFile(p)
    ensures k < |AllowedExtensions| && |AllowedExtensions[k]| <= |p|
    ensures AsciiLower(p[|p| - |AllowedExtensions[k]|..]) == AllowedExtensions[k]
  {
    k := ListedSuffix(p, AllowedExtensions);
  }

  /** A path whose lower-cased extension is listed in `exts` ends with a listed extension, up to case. */
  lemma ListedSuffix(p: string, exts: seq<string>) returns (k: nat)
    requires AsciiLower(Extname(p)) in exts
    ensures k < |exts| && |exts[k]| <= |p| && AsciiLower(p[|p| - |exts[k]|..]) == exts[k]
  {
    var e := Extname(p);
    k := MemberIndex(exts, AsciiLower(e));
    ExtnameSuffix(p, e);
    assert e == "" || EndsWith(p, e);
    LowerOfSuffix(p, e, exts[k]);
  }

  /** Lower-casing commutes with taking a suffix. */
  lemma LowerOfSuffix(p: string, e: string, x: string)
    requires e == "" || EndsWith(p, e)
    requires x == AsciiLower(e)
    ensures |x| <= |p| && AsciiLower(p[|p| - |x|..]) == x
  {
    if e != "" {
      assert p[|p| - |e|..] == e;
    }
  }



  /**
   * The ignore rule looks for a separator on both sides of the name, so the entries of an
   * ignored directory are skipped but the directory itself is still read: one that cannot be
   * read ends the run.
   */
  lemma UnreadableIgnoredDirectoryCrashes(base: string)
    requires PlainSegment(base)
    ensures JsWalk(base, Dir(base, [Unreadable("node_modules")])).crashed
  {
    var n := Dir(base, [Unreadable("node_modules")]);
    ChildNotIgnored(base, "node_modules");
    JsWalkFromStep(base, n, 0);
  }

  /** Below a plain directory name, neither the directory nor a plain child name is ignored. */
  lemma ChildNotIgnored(base: string, name: string)
    requires PlainSegment(base) && PlainSegment(name)
    ensures !Ignored(base) && !Ignored(JoinPath(base, name))
  {
    JoinPathPlain([base], name);
    assert JoinPath(base, name) == base + [Sep] + name;
    OneSeparator(base, name);
    OneSeparatorNotIgnored(JoinPath(base, name));
    OneSeparatorNotIgnored(base);
  }

  /** `a + sep + b` has its only separator between the two. */
  lemma OneSeparator(a: string, b: string)
    requires Sep !in a && Sep !in b
    ensures forall k :: 0 <= k < |a + [Sep] + b| ==> ((a + [Sep] + b)[k] == Sep <==> k == |a|)
  {
    var p := a + [Sep] + b;
    forall k | 0 <= k < |p| ensures p[k] == Sep <==> k == |a| {
      if k < |a| {
        assert p[k] == a[k];
      } else if k > |a| {
        assert p[k] == b[k - |a| - 1];
      }
    }
  }

  // ---------------------------------------------------------------- printResults

  /** ` (Line n)` when the function has a location, nothing otherwise. */
  function Location(line: Option<nat>): string
  {
    if line.Some? then " (Line " + NatToString(line.value) + ")" else ""
  }

  /** ` // summary` when the summary is truthy (non-empty), nothing otherwise. */
  function SummarySuffix(summary: string): string
  {
    if summary != "" then " // " + summary else ""
  }

  /** The line printed for one function; its `chalk.green` colouring is not modelled. */
  function FunctionLine(f: JsFunction): string
  {
    f.name + Location(f.line) + SummarySuffix(f.summary)
  }

  function FunctionLines(fs: seq<JsFunction>): seq<string>
  {
    seq(|fs|, k requires 0 <= k < |fs| => FunctionLine(fs[k]))
  }

  lemma FunctionLinesStep(fs: seq<JsFunction>, j: nat)
    requires j < |fs|
    ensures FunctionLines(fs[..j + 1]) == FunctionLines(fs[..j]) + [FunctionLine(fs[j])]
  {
    var a, b := FunctionLines(fs[..j + 1]), FunctionLines(fs[..j]) + [FunctionLine(fs[j])];
    assert |a| == |b|;
    forall k | 0 <= k < |a| ensures a[k] == b[k] {
      assert fs[..j + 1][k] == fs[k];
    }
  }

  lemma AllRecordLinesStep(records: seq<FileRecord>, i: nat)
    requires i < |records|
    ensures AllRecordLines(records[..i + 1]) == AllRecordLines(records[..i]) + RecordLines(records[i])
  {
    assert records[..i + 1][..i] == records[..i];
  }

  /** A record with a truthy error prints its failure line alone; otherwise one line per function. */
  function RecordLines(r: FileRecord): seq<string>
  {
    if r.result.error.Some? && r.result.error.value != "" then [FailurePrefix + r.result.error.value]
    else FunctionLines(r.result.functions)
  }

  function AllRecordLines(records: seq<FileRecord>): seq<string>
  {
    if records == [] then [] else AllRecordLines(records[..|records| - 1]) + RecordLines(records[|records| - 1])
  }

  /** `printResults(allFunctions)`: the warning for an empty list, else each record's lines in order. */
  function ResultLines(records: seq<FileRecord>): seq<string>
  {
    if records == [] then [NoResults] else AllRecordLines(records)
  }

  /** The loops of `printResults`, collecting the lines it prints. */
  method PrintResults(records: seq<FileRecord>) returns (out: seq<string>)
    ensures out == ResultLines(records)
  {
    if |records| == 0 {
      return [NoResults];
    }
    out := [];
    for i := 0 to |records|
      invariant out == AllRecordLines(records[..i])
    {
      AllRecordLinesStep(records, i);
      var r := records[i];
      if r.result.error.Some? && r.result.error.value != "" {
        out := out + [FailurePrefix + r.result.error.value];
        continue;
      }
      out := PrintFunctions(out, r.result.functions);
    }
    assert records[..|records|] == records;
  }

  /** The inner `forEach` of `printResults`: one line per function of a record, after `out`. */
  method PrintFunctions(out: seq<string>, fs: seq<JsFunction>) returns (lines: seq<string>)
    ensures lines == out + FunctionLines(fs)
  {
    lines := out;
    for j := 0 to |fs|
      invariant lines == out + FunctionLines(fs[..j])
    {
      FunctionLinesStep(fs, j);
      AppendAssociative(out, FunctionLines(fs[..j]), [FunctionLine(fs[j])]);
      lines := lines + [FunctionLine(fs[j])];
    }
    assert fs[..|fs|] == fs;
  }

  /** The location part is present exactly when the function has a location, and gives its line back. */
  lemma LocationFormat(line: Option<nat>)
    ensures Location(line) == "" <==> line.None?
    ensures line.Some? ==> StartsWith(Location(line), " (Line ") &&
                           DecimalValue(Location(line)[7..|Location(line)| - 1]) == line.value
  {
    if line.Some? {
      var t := Location(line);
      assert t[..7] == " (Line ";
      assert t[7..|t| - 1] == NatToString(line.value);
      NatToStringRoundTrip(line.value);
    }
  }

  /** A function's line starts with its name, and is only its name when it has neither location nor summary. */
  lemma FunctionLineFormat(f: JsFunction)
    ensures StartsWith(FunctionLine(f), f.name)
    ensures FunctionLine(f) == f.name <==> f.line.None? && f.summary == ""
    ensures f.summary != "" ==> EndsWith(FunctionLine(f), " // " + f.summary)
  {
    var t := FunctionLine(f);
    assert t[..|f.name|] == f.name;
    LocationFormat(f.line);
    if f.summary != "" {
      assert t[|t| - |" // " + f.summary|..] == " // " + f.summary;
    }
    if t == f.name {
      assert |Location(f.line)| + |SummarySuffix(f.summary)| == 0;
    }
  }

  lemma {:induction false} FunctionLinesAppend(a: seq<JsFunction>, b: seq<JsFunction>)
    ensures FunctionLines(a + b) == FunctionLines(a) + FunctionLines(b)
  {
  }

  /** The functions of all records, in record order. */
  function AllFunctions(records: seq<FileRecord>): seq<JsFunction>
  {
    if records == [] then [] else AllFunctions(records[..|records| - 1]) + records[|records| - 1].result.functions
  }

  /**
   * When no record carries a truthy error, every recorded function is printed exactly once, in
   * walk order and, within a file, in the order it was recorded.
   */
  lemma {:induction false} PrintedInOrder(records: seq<FileRecord>)
    requires forall k :: 0 <= k < |records| ==> records[k].result.error.None? || records[k].result.error.value == ""
    ensures AllRecordLines(records) == FunctionLines(AllFunctions(records))
  {
    if records != [] {
      var init := records[..|records| - 1];
      assert forall k :: 0 <= k < |init| ==> init[k] == records[k];
      PrintedInOrder(init);
      FunctionLinesAppend(AllFunctions(init), records[|records| - 1].result.functions);
    }
  }

  /**
   * An errored file prints its failure line and none of its functions; a record whose error
   * message is empty is not treated as errored. The warning appears only for an empty list: a
   * non-empty list without any function prints nothing at all.
   */
  lemma ResultCases(r: FileRecord, records: seq<FileRecord>)
    ensures r.result.error.Some? && r.result.error.value != "" ==> RecordLines(r) == [FailurePrefix + r.result.error.value]
    ensures r.result.error == Some("") ==> RecordLines(r) == FunctionLines(r.result.functions)
    ensures ResultLines([]) == [NoResults]
    ensures records != [] && AllFunctions(records) == [] &&
            (forall k :: 0 <= k < |records| ==> records[k].result.error.None? || records[k].result.error.value == "") ==>
              ResultLines(records) == []
  {
    if records != [] && AllFunctions(records) == [] &&
       (forall k :: 0 <= k < |records| ==> records[k].result.error.None? || records[k].result.error.value == "") {
      PrintedInOrder(records);
    }
  }

  // ---------------------------------------------------------------- main

  /** What a run of `main(targetDir)` prints, and whether an uncaught exception ended it. */
  datatype MainOutcome = MainOutcome(lines: seq<string>, crashed: bool)

  /**
   * `main(target)` where `root` is the entry at `target` (`None` when there is none, and the
   * first `statSync` throws): the walk's parse-error lines, then, unless the walk threw,
   * `printResults` over all the records.
   */
  function MainRun(target: string, root: Option<Node>): MainOutcome
  {
    if root.None? then MainOutcome([], true)
    else
      var w := JsWalk(target, root.value);
      if w.crashed then MainOutcome(ParseLog(w.records), true)
      else MainOutcome(ParseLog(w.records) + ResultLines(w.records), false)
  }

  /** `main(targetDir)`: walk with the collecting callback, then print the results. */
  method RunMain(target: string, root: Option<Node>) returns (lines: seq<string>, crashed: bool)
    ensures MainOutcome(lines, crashed) == MainRun(target, root)
  {
    if root.None? {
      return [], true;
    }
    var run := new Run();
    ghost var w := JsWalk(target, root.value);
    crashed := WalkDir(target, root.value, run);
    assert [] + w.records == w.records;
    assert run.records == w.records;
    lines := ParseLog(run.records);
    if crashed {
      return;
    }
    var results := PrintResults(run.records);
    lines := lines + results;
  }

  /**
   * A missing target ends the run at once; otherwise it ends early exactly when the walk throws,
   * and a completed run prints the parse-error lines first and the results after them; one that
   * finds no allowed file prints only the warning.
   */
  lemma MainCases(target: string, root: Option<Node>)
    ensures root.None? ==> MainRun(target, root) == MainOutcome([], true)
    ensures root.Some? ==> (MainRun(target, root).crashed <==> JsWalk(target, root.value).crashed)
    ensures root.Some? && !JsWalk(target, root.value).crashed && JsWalk(target, root.value).records == [] ==>
              MainRun(target, root).lines == [NoResults]
  {
  }
}
