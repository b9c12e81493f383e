/**
 * What the foreign tools the core calls (Python's `ast` and `json`, the
 * JavaScript extractor's `@babel/parser` with `@babel/traverse`, and the `re`
 * patterns of the regex extractor) hand back for one file. The model takes these
 * outcomes as given instead of modelling the grammars.
 */
module Parsers {
  import opened Wrappers

  /**
   * One `ast.FunctionDef` node as `ast.walk` meets it: its name, the names of its
   * positional parameters (`args.args`), and `ast.get_docstring(node)`.
   */
  datatype PyFunction = PyFunction(name: string, args: seq<string>, doc: Option<string>)

  /**
   * A function-like Babel node: `id?.name`, `loc?.start.line`, and the `value`
   * of each of its `leadingComments`, in order.
   */
  datatype JsNode = JsNode(id: Option<string>, line: Option<nat>, comments: seq<string>)

  /**
   * A `VariableDeclarator`: `identifier` is the id's name when the id is an
   * `Identifier`; `init` is present when the initialiser is an
   * `ArrowFunctionExpression` or a `FunctionExpression`.
   */
  datatype Declarator = Declarator(identifier: Option<string>, init: Option<JsNode>)

  /** The `declaration` of an `ExportNamedDeclaration` (absent for `export { a, b }`). */
  datatype NamedDeclaration =
    | NoDeclaration
    | Variables(declarators: seq<Declarator>)
    | FunctionDecl(node: JsNode)
    | OtherDeclaration

  /** One visitor call of the traversal, in the order `traverse` makes them. */
  datatype Visit =
    | VisitFunctionDeclaration(node: JsNode)
    | VisitVariableDeclarator(declarator: Declarator)
    | VisitExportNamed(declaration: NamedDeclaration)
      /** `fn` is present when the default export is a function declaration, expression or arrow. */
    | VisitExportDefault(fn: Option<JsNode>)
      /** `key` is `key.name`; `value` is present when the value is function-like. */
    | VisitObjectProperty(key: Option<string>, value: Option<JsNode>)
    | VisitObjectMethod(key: Option<string>, node: JsNode)

  /** The JavaScript extractor's view of a file: unreadable, rejected by the parser, or traversed. */
  datatype BabelOutcome =
    | ReadFailed(message: string)
    | SyntaxError(message: string)
    | Traversed(visits: seq<Visit>)

  /**
   * A decoded `project.gptconfig.json`: `str()` of its `design_pattern` entry, if
   * any, and its `function_list` entries in the object's order.
   */
  datatype GptConfig = GptConfig(designPattern: Option<string>, functionList: seq<(string, string)>)

  /**
   * Everything the core can learn from one regular file, one entry per tool:
   * - `python`: reading it and `ast.parse` + `ast.walk`: the `FunctionDef` nodes, or `str(e)` of the exception;
   * - `jsMatches`: the regex extractor's `re.findall` result for each of its five patterns, in
   *   pattern order, or `None` when reading fails;
   * - `babel`: what the JavaScript extractor sees;
   * - `config`: `json.load`, or the text of its exception.
   */
  datatype FileData = FileData(
    python: Result<seq<PyFunction>, string>,
    jsMatches: Option<seq<seq<string>>>,
    babel: BabelOutcome,
    config: Result<GptConfig, string>)
}
