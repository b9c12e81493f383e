/**
 * viewmodels/prompt_viewmodel.py: loading a project folder into the context, and
 * composing the prompt from the context, the request and the related files.
 */
module PromptViewModel {
  import opened Wrappers
  import opened Strings
  import opened FileSystem
  import opened ProjectModel
  import opened ParserUtils
  import opened KeywordUtils
  import opened FileMatcher
  import opened Seqs

  const SourceFolder: string := "src"
  const NoSourceFolder: string := "src 폴더가 존재하지 않습니다."
  const Loaded: string := "로드 성공"
  const EmptyRequest: string := "요청 내용을 입력하세요."
  const NoRelatedFiles: string := "(없음)"
  /** How many related files the prompt lists at most. */
  const RelatedLimit: nat := 5

  const ContextHeading: string := "### \U{1F527} 프로젝트 컨텍스트\n"
  const StructureHeading: string := "\n\n### \U{1F4C1} 프로젝트 구조\n"
  const RelatedHeading: string := "\n\n### \U{1F4C2} 관련된 파일 (자동 추천)\n"
  const FunctionsHeading: string := "\n\n### \U{1F9E0} 함수 요약\n"
  const RequestHeading: string := "\n\n### \U{1F5E3}\U{FE0F} 내 요청:\n"

  /** `"- " + path` for each of the first five related files. */
  function RelatedLines(related: seq<string>): (r: seq<string>)
    ensures |r| == if |related| < RelatedLimit then |related| else RelatedLimit
    ensures forall k :: 0 <= k < |r| ==> r[k] == "- " + related[k]
  {
    var n := if |related| < RelatedLimit then |related| else RelatedLimit;
    seq(n, k requires 0 <= k < n => "- " + related[k])
  }

  /** `related_files_text`. */
  function RelatedFilesText(related: seq<string>): string
  {
    if related == [] then NoRelatedFiles else Join(RelatedLines(related), "\n")
  }

  /** The f-string of `generate_prompt`, its five sections in fixed order. */
  function PromptText(config: string, tree: string, related: string, functions: string, request: string): string
  {
    ContextHeading + config + StructureHeading + tree + RelatedHeading + related
      + FunctionsHeading + functions + RequestHeading + request + "\n"
  }

  /**
   * The prompt is the context heading and the config summary, the structure heading and the
   * tree, the related-files heading and that section, the function heading and the function
   * listing, then the request heading and the request with a final newline: every argument
   * verbatim at its own place, whether empty or not.
   */
  lemma PromptLayout(config: string, tree: string, related: string, functions: string, request: string)
    ensures var r := PromptText(config, tree, related, functions, request);
            var a := |ContextHeading| + |config|;
            var b := a + |StructureHeading| + |tree|;
            var c := b + |RelatedHeading| + |related|;
            var d := c + |FunctionsHeading| + |functions|;
            && |r| == d + |RequestHeading| + |request| + 1
            && r[..|ContextHeading|] == ContextHeading
            && r[|ContextHeading|..a] == config
            && r[a..a + |StructureHeading|] == StructureHeading
            && r[a + |StructureHeading|..b] == tree
            && r[b..b + |RelatedHeading|] == RelatedHeading
            && r[b + |RelatedHeading|..c] == related
            && r[c..c + |FunctionsHeading|] == FunctionsHeading
            && r[c + |FunctionsHeading|..d] == functions
            && r[d..d + |RequestHeading|] == RequestHeading
            && r[d + |RequestHeading|..|r| - 1] == request
            && r[|r| - 1] == '\n'
  {
    var r := PromptText(config, tree, related, functions, request);
    var p1 := ContextHeading + config;
    var p2 := p1 + StructureHeading;
    var p3 := p2 + tree;
    var p4 := p3 + RelatedHeading;
    var p5 := p4 + related;
    var p6 := p5 + FunctionsHeading;
    var p7 := p6 + functions;
    var p8 := p7 + RequestHeading;
    var p9 := p8 + request;
    assert r == p9 + "\n";
    assert r[..|p9|] == p9;
    PieceAt(r, p8, request);
    PieceAt(r, p7, RequestHeading);
    PieceAt(r, p6, functions);
    PieceAt(r, p5, FunctionsHeading);
    PieceAt(r, p4, related);
    PieceAt(r, p3, RelatedHeading);
    PieceAt(r, p2, tree);
    PieceAt(r, p1, StructureHeading);
    PieceAt(r, ContextHeading, config);
  }

  lemma PromptTextTail(config: string, tree: string, related: string, functions: string, request: string)
    ensures EndsWith(PromptText(config, tree, related, functions, request), RequestHeading + request + "\n")
  {
    var front := ContextHeading + config + StructureHeading + tree + RelatedHeading + related + FunctionsHeading + functions;
    EndsWithLastThree(front, RequestHeading, request, "\n");
  }

  /**
   * `generate_prompt(user_request)` over the context's summaries; `src` is the tree
   * that `os.path.join(project_path, "src")` names when the prompt is generated
   * (a missing folder walks like an unreadable one: it yields nothing).
   */
  function Prompt(config: string, tree: string, functions: string, request: string, src: Node): string
  {
    if request == "" then EmptyRequest
    else
      var related := Ranked(ExtractKeywords(request), Candidates(src));
      PromptText(config, tree, RelatedFilesText(related), functions, request)
  }

  class PromptViewModel {
    var context: ProjectContext

    constructor ()
      ensures fresh(context)
      ensures context.projectPath == "" && context.treeStructure == ""
      ensures context.functionSummary == "" && context.configSummary == ""
    {
      context := new ProjectContext();
    }

    /**
     * `load_project(folder_path)`, where `folder` is the tree at `folder_path`. Without a
     * `src` entry nothing changes. Otherwise the path, the tree and the function listing
     * are assigned one after another before `load_config` runs; when it raises, the
     * exception propagates and those three assignments stay.
     */
    method LoadProject(folderPath: string, folder: Node) returns (r: Result<(bool, string), ConfigFailure>)
      modifies context
      ensures Child(folder, SourceFolder).None? ==> r == Ok((false, NoSourceFolder)) && unchanged(context)
      ensures Child(folder, SourceFolder).Some? ==>
                var src := Child(folder, SourceFolder).value;
                && context.projectPath == folderPath
                && context.treeStructure == Join(ProjectTreeLines(src), "\n")
                && context.functionSummary == ExtractFunctionsText(src)
                && (ConfigOutcome(folder).Ok? ==> context.configSummary == ConfigOutcome(folder).value && r == Ok((true, Loaded)))
                && (ConfigOutcome(folder).Err? ==> context.configSummary == old(context.configSummary) && r == Err(ConfigOutcome(folder).error))
    {
      var found := Child(folder, SourceFolder);
      if found.None? {
        return Ok((false, NoSourceFolder));
      }
      var src := found.value;
      context.projectPath := folderPath;
      var tree := GetProjectTree(src);
      context.treeStructure := tree;
      var functions := ExtractFunctions(src);
      context.functionSummary := functions;
      var config := LoadConfig(folder);
      if config.Err? {
        return Err(config.error);
      }
      context.configSummary := config.value;
      r := Ok((true, Loaded));
    }

    /** `generate_prompt(user_request)`; it reads the context and changes nothing. */
    method GeneratePrompt(request: string, src: Node) returns (r: string)
      ensures r == Prompt(context.configSummary, context.treeStructure, context.functionSummary, request, src)
    {
      if request == "" {
        return EmptyRequest;
      }
      var keywords := ExtractKeywords(request);
      var related := FindRelatedFiles(src, keywords);
      var relatedText := RelatedFilesText(related);
      r := PromptText(context.configSummary, context.treeStructure, relatedText, context.functionSummary, request);
    }
  }

  /**
   * The related-files section is the sentinel exactly when nothing is related; otherwise,
   * split at its newlines (paths hold none), it is one `- path` line for each of the first
   * five related files, in ranking order.
   */
  lemma RelatedFilesSection(related: seq<string>)
    requires forall k :: 0 <= k < |related| ==> '\n' !in related[k]
    ensures RelatedFilesText(related) == NoRelatedFiles <==> related == []
    ensures related != [] ==>
              var lines := Split(RelatedFilesText(related), '\n');
              && |lines| == (if |related| < RelatedLimit then |related| else RelatedLimit)
              && forall k :: 0 <= k < |lines| ==> lines[k] == "- " + related[k]
  {
    if related != [] {
      var lines := RelatedLines(related);
      forall k | 0 <= k < |lines| ensures '\n' !in lines[k] {
        assert lines[k] == "- " + related[k];
      }
      JoinSplit(lines, '\n');
      JoinStartsWithFirst(lines, "\n");
      assert RelatedFilesText(related)[0] == '-' != NoRelatedFiles[0];
    }
  }

  /**
   * An empty request gets the reminder whatever the context and the tree hold; any other
   * request ends the prompt, after the request heading, followed by one newline.
   */
  lemma PromptCases(config: string, tree: string, functions: string, request: string, src: Node)
    ensures request == "" ==> Prompt(config, tree, functions, request, src) == EmptyRequest
    ensures request != "" ==> EndsWith(Prompt(config, tree, functions, request, src), RequestHeading + request + "\n")
  {
    if request != "" {
      var related := RelatedFilesText(Ranked(ExtractKeywords(request), Candidates(src)));
      assert Prompt(config, tree, functions, request, src) == PromptText(config, tree, related, functions, request);
      PromptTextTail(config, tree, related, functions, request);
    }
  }
}
