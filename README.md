# gpt_prompt_assistant, modelled in Dafny

gpt_prompt_assistant is a desktop helper that reads a Python project and builds a prompt for a
language model. The prompt holds the project's configuration, its folder tree, its functions and
the files related to the user's request. The helper then streams the prompt to a local Ollama
server and collects the answer. A small Node.js tool, `extract_js_functions.js`, lists the
functions found in a JavaScript or TypeScript tree.

This project models the helper's core in Dafny and proves properties of that model. The core is:

- the keyword extractor (`utils/keyword_utils.py`);
- the related-file ranking (`utils/file_matcher.py`);
- the folder-tree, function-summary and configuration renderers (`utils/parser_utils.py`,
  `utils/context_builder.py`);
- the project model and the prompt view model (`models/project_model.py`,
  `viewmodels/prompt_viewmodel.py`);
- the streaming client and its token and completion callbacks (`utils/ollama_client.py`,
  `controllers/output_handler.py`);
- model listing and selection (`utils/ollama_manager.py`, `controllers/model_controller.py`);
- the JavaScript function extractor (`extract_js_functions.js`).

The model's inputs stand in for the world outside:

- The directory tree is `FileSystem.Node`. A file carries what the foreign parsers would answer
  for it: Python's `ast`, the JavaScript regular expression, Babel, and the JSON decoder.
- `os.walk` is `FileSystem.Walk`. It visits directories top-down in the order the tree lists
  them, skips pruned names, and skips a directory it cannot list, as `os.walk` does by default.
- An HTTP reply or a subprocess result is a datatype value.
- The streaming callee is the sequence of calls it makes into the handler's closures.

Where the source mutates an object (the project context, the model controller, the
`seen`/`functions` collector of the JavaScript extractor, the accumulator shared by the
`on_token`/`on_done` closures, the record list of a walk), the model uses a class with those
fields. A method that loops in the source is a Dafny method with a loop. Each such method is
proved equal to a specification function, and the properties are proved about that function.

Library modules:

- `Seqs`: flattening, first-occurrence deduplication, infix.
- `Strings`: joining and splitting, stripping, Python `lower()` on the relevant characters, decimal
  printing.
- `Sorting`: insertion sort, proved sorted, a permutation, and unique for an antisymmetric order.
  It is the model of Python's `sorted`.

## Model

| member | source | states |
|---|---|---|
| ProjectModel.ProjectContext.constructor | models/project_model.py:2-6 | a new context has an empty path, tree, function summary and configuration, and is not loaded |
| ProjectModel.LoadedByPathOnly | models/project_model.py:8-9 | whether a context is loaded depends on its project path alone, and holds exactly when that path is non-empty |
| KeywordUtils.RunLength | utils/keyword_utils.py:15 | the length of the longest prefix made of Hangul syllables and ASCII letters: every character before it is one of those, and the next one is not |
| KeywordUtils.TokensSound | utils/keyword_utils.py:15 | every token `findall` returns is a maximal run of word characters, at least two long |
| KeywordUtils.TokensComplete | utils/keyword_utils.py:15 | every maximal run of at least two word characters is among the tokens |
| KeywordUtils.NoPairNoTokens | utils/keyword_utils.py:15 | a text with no two adjacent word characters has no tokens |
| KeywordUtils.WithoutStopwordsMembers | utils/keyword_utils.py:17 | a word survives the stop-word filter exactly when it is a token and not a stop-word |
| KeywordUtils.ExtractKeywords | utils/keyword_utils.py:9-18 | the keywords contain no duplicate, as `list(set(...))` promises |
| KeywordUtils.KeywordsMembers | utils/keyword_utils.py:9-18 | a word is a keyword exactly when it is a token of the lower-cased text and not a stop-word |
| KeywordUtils.KeywordShape | utils/keyword_utils.py:4-18 | every keyword is at least two characters long, is not a stop-word, and is made of Hangul syllables and lower-case ASCII letters only |
| KeywordUtils.KeywordsComplete | utils/keyword_utils.py:9-18 | every maximal run of at least two word characters in the lower-cased text that is not a stop-word is a keyword |
| KeywordUtils.KeywordsSound | utils/keyword_utils.py:9-18 | every keyword is a maximal run of the lower-cased text |
| KeywordUtils.NoRunNoKeywords | utils/keyword_utils.py:9-18 | a text that contains no two adjacent word characters has no keywords |
| KeywordUtils.StopwordsWholeTokensOnly | utils/keyword_utils.py:4-18 | stop-words remove whole tokens only: "트리 구조 보여줘" gives exactly ["트리", "구조", "보여줘"], though the stop-word "줘" occurs inside "보여줘" |
| KeywordUtils.KeywordsOfPlainTokens | utils/keyword_utils.py:9-18 | a text that lower-casing leaves unchanged, whose distinct tokens are all kept, has exactly those tokens as keywords, in text order |
| KeywordUtils.PyLowerUnchanged | utils/keyword_utils.py:15 | lower-casing leaves a text unchanged when it has no upper-case letter |
| FileMatcher.Score | utils/file_matcher.py:19 | the score is at most the number of keywords, and it is zero exactly when the lower-cased path contains no keyword |
| FileMatcher.ScoreAppend | utils/file_matcher.py:19 | the score of a concatenation of keyword lists is the sum of their scores |
| FileMatcher.ScorePermutation | utils/file_matcher.py:19 | the score does not depend on the order of the keywords |
| FileMatcher.UppercaseKeywordsScoreZero | utils/file_matcher.py:14-19 | keywords that each hold an upper-case letter never match a lower-cased path, so they score zero |
| FileMatcher.RelPathEndsWithName | utils/file_matcher.py:14-16 | a relative path ends with whatever the file name ends with |
| FileMatcher.PyPathsEndWithPy | utils/file_matcher.py:10-16 | every candidate path ends in `.py` |
| FileMatcher.PyPathsIff | utils/file_matcher.py:10-16 | a path is a candidate exactly when it is the relative path of a `.py` file in a visited directory |
| FileMatcher.DirPyPathsIff | utils/file_matcher.py:12-16 | one directory yields exactly the relative paths of its `.py` files |
| FileMatcher.Matches | utils/file_matcher.py:11-22 | no more matches than candidate paths |
| FileMatcher.MatchesScored | utils/file_matcher.py:19-22 | every recorded pair holds the path's true score, and that score is at least one |
| FileMatcher.MatchesAppend | utils/file_matcher.py:11-22 | matching a concatenation of path lists concatenates their matches, so each directory can be scanned on its own |
| FileMatcher.MatchesIff | utils/file_matcher.py:11-22 | a path is matched exactly when it is a candidate with score at least one |
| FileMatcher.RankLeTotal | utils/file_matcher.py:25 | the sort order (score, then path, descending) is total |
| FileMatcher.RankLeTransitive | utils/file_matcher.py:25 | the sort order is transitive |
| FileMatcher.RankLeAntisymmetric | utils/file_matcher.py:25 | the sort order is antisymmetric, so the sorted result is unique |
| FileMatcher.RankingIsUnique | utils/file_matcher.py:25 | every ordering of the matches that is sorted by the ranking and is a permutation of them equals the computed ranking |
| FileMatcher.RankedProperties | utils/file_matcher.py:3-26 | a path is returned exactly when it is a candidate scoring at least one; the result is a permutation of the matched paths; scores never increase; equal scores come in descending path order |
| FileMatcher.RankedPair | utils/file_matcher.py:25-26 | of two positions in the result, the earlier has a score at least as high, and breaks a tie with a greater path |
| FileMatcher.NoKeywordsNothingRelated | utils/file_matcher.py:3-26 | with no keywords no file is related |
| FileMatcher.RankedKeywordOrder | utils/file_matcher.py:3-26 | the ranking does not depend on the order of the keywords, so the order `list(set(...))` gives them is harmless |
| FileMatcher.MatchesKeywordOrder | utils/file_matcher.py:11-22 | the matches do not depend on the order of the keywords |
| FileMatcher.ScanDirectory | utils/file_matcher.py:11-22 | the loop over one directory's files records exactly the matches of that directory's `.py` paths |
| FileMatcher.FindRelatedFiles | utils/file_matcher.py:3-26 | the result is the ranking of the walked candidates: `.py` paths only, each scoring at least one, scores non-increasing, and nothing when there are no keywords |
| FileSystem.Child | utils/context_builder.py:15-26 | looking up a name in a directory finds a child with that name, or says no child has it |
| FileSystem.NonDirectoriesIff | utils/file_matcher.py:10 | the `filenames` of a walk step are exactly the children that are not directories |
| FileSystem.WalkStaysBelow | utils/parser_utils.py:29-35 | every directory a pruned walk visits lies under the start, is a directory, and is reached through no pruned name |
| FileSystem.WalkSound | utils/parser_utils.py:29-35 | every visited path leads from the root to the visited directory |
| FileSystem.WalkComplete | utils/parser_utils.py:29-35 | every directory reachable through unpruned names is visited |
| ParserUtils.SummarizeFunctions | utils/parser_utils.py:4-18 | the loop yields the specified summary text, or the parse error |
| ParserUtils.SummaryTextCases | utils/parser_utils.py:4-18 | the fallback "요약할 함수가 없습니다." appears exactly when there is no function, and otherwise every function's entry occurs in the summary |
| ParserUtils.MissingDocstring | utils/parser_utils.py:14-16 | a function without a docstring is listed with its arguments and "(설명 없음)" |
| ParserUtils.Indent4 | utils/parser_utils.py:37 | the tree indent for depth n is 4n spaces |
| ParserUtils.GetProjectTree | utils/parser_utils.py:21-45 | the walk produces the lines of the specified tree, joined by newlines |
| ParserUtils.TreeLinesSound | utils/parser_utils.py:29-45 | every tree line is the folder line or a `.py` file line of a visited directory |
| ParserUtils.TreeLinesComplete | utils/parser_utils.py:29-45 | every folder line and every `.py` file line of a visited directory is in the tree |
| ParserUtils.PyFileLinesIff | utils/parser_utils.py:40-43 | a directory's file lines are exactly those of its `.py` files |
| ParserUtils.ProjectTreeSound | utils/parser_utils.py:21-45 | every line of the project tree belongs to a directory reachable from the root through no pruned name |
| ParserUtils.ProjectTreeComplete | utils/parser_utils.py:21-45 | every such directory contributes all its lines to the project tree |
| ParserUtils.ProjectTreeStart | utils/parser_utils.py:29-38 | the tree starts with the root's folder line; a root that is not a directory gives no lines |
| ParserUtils.ExtractFunctions | utils/parser_utils.py:48-86 | the walk builds the specified extraction text |
| ParserUtils.ExtractFunctionsBlocks | utils/parser_utils.py:66-85 | for each visited `.py` file: a file that fails to parse leaves its error marker in the result, a file with functions leaves its header and definitions, and a file without functions adds nothing |
| ParserUtils.NonPythonSilent | utils/parser_utils.py:66-67 | a file not ending in `.py` adds nothing |
| ParserUtils.DefTextShape | utils/parser_utils.py:78-83 | each definition starts with its `def` line, has nothing more without a docstring, and otherwise holds every stripped docstring line |
| ParserUtils.ExtractTextInfix | utils/parser_utils.py:58-86 | the text of every file of every visited directory occurs in the result |
| ParserUtils.LoadConfig | utils/parser_utils.py:120-129 | the method returns the specified configuration outcome |
| ParserUtils.ConfigMissing | utils/parser_utils.py:121-123 | "(설정 파일 없음)" is returned exactly when the root has no `project.gptconfig.json` |
| ParserUtils.ConfigTextJoin | utils/parser_utils.py:126-128 | the configuration text is its lines joined by newlines |
| ParserUtils.ConfigLinesRoundTrip | utils/parser_utils.py:126-128 | when no value holds a newline, splitting the configuration text at newlines gives back its lines |
| ParserUtils.EntryLines | utils/parser_utils.py:127-128 | one line per function-list entry, in order |
| ContextBuilder.Indent | utils/context_builder.py:21 | the structure indent for depth n is 2n spaces |
| ContextBuilder.Names | utils/context_builder.py:16 | the listed names are the children's names, in order |
| ContextBuilder.SortedNamesOrder | utils/context_builder.py:16 | a directory's names are listed in sorted order, as a permutation of its children's names, and no other sorted permutation exists |
| ContextBuilder.WalkStructure | utils/context_builder.py:12-26 | the recursive walk appends the specified structure lines |
| ContextBuilder.GenerateStructureSummary | utils/context_builder.py:6-29 | the structure summary is the structure lines joined by newlines |
| ContextBuilder.StructureIndented | utils/context_builder.py:12-26 | every line is indented by an even width between two spaces per its depth and two spaces per the maximum depth |
| ContextBuilder.LeadingSpacesIndent | utils/context_builder.py:21-26 | a line's indent measures exactly twice its depth |
| ContextBuilder.EntryBlock | utils/context_builder.py:19-26 | each child's lines form a block of the listing |
| ContextBuilder.DirectoryBlock | utils/context_builder.py:15-24 | a subdirectory's line is followed by its own structure; an unreadable subdirectory adds nothing below its line |
| ContextBuilder.StructureComplete | utils/context_builder.py:12-26 | every file or readable directory reachable within the depth limit appears with its indent |
| ContextBuilder.HeadInStructure | utils/context_builder.py:22-26 | every child of a listed directory has its own line |
| ContextBuilder.InDirectoryInStructure | utils/context_builder.py:22-24 | every line of a subdirectory's structure is in its parent's |
| ContextBuilder.ExtractFunctionsFromJsFile | utils/context_builder.py:47-69 | the JavaScript file's function names, without duplicates |
| ContextBuilder.JsNamesSet | utils/context_builder.py:47-69 | the names contain no duplicate, and a name is there exactly when one of the regular expression's matches captured it |
| ContextBuilder.PythonNames | utils/context_builder.py:32-44 | the Python names are the parsed functions' names, in order, and nothing for a file that does not parse |
| ContextBuilder.GenerateFunctionSummary | utils/context_builder.py:72-93 | the walk produces the specified summary lines, joined by newlines |
| ContextBuilder.SummaryHeaderIff | utils/context_builder.py:79-93 | a file's header appears exactly when a visited file with an included extension and at least one function has that relative path |
| ContextBuilder.FileBlockShape | utils/context_builder.py:80-93 | a summarised file's block is its header followed by one line per function, in order |
| ContextBuilder.HeaderInjective | utils/context_builder.py:90 | different relative paths give different headers |
| ContextBuilder.CombineContextLayout | utils/context_builder.py:96-108 | the combined context is the three titles each followed by its section, closed by a newline, each piece at its stated offset |
| PromptViewModel.PromptViewModel.constructor | viewmodels/prompt_viewmodel.py:8-9 | a fresh, empty project context |
| PromptViewModel.PromptViewModel.LoadProject | viewmodels/prompt_viewmodel.py:11-20 | without `src` nothing changes and the missing-folder message is returned; otherwise the path, tree and function summary are stored, and then either the configuration is stored and success is returned, or its error propagates with the old configuration left in place |
| PromptViewModel.PromptViewModel.GeneratePrompt | viewmodels/prompt_viewmodel.py:22-49 | the prompt built from the stored context and the request |
| PromptViewModel.RelatedLines | viewmodels/prompt_viewmodel.py:30-32 | at most five related files, the first ones, each as a "- " line |
| PromptViewModel.RelatedFilesSection | viewmodels/prompt_viewmodel.py:30-32 | the "none" text appears exactly when no file is related; otherwise the section splits into one "- " line per listed file |
| PromptViewModel.PromptLayout | viewmodels/prompt_viewmodel.py:35-49 | the prompt is the five headings each followed by its section, in template order, closed by a newline |
| PromptViewModel.PromptCases | viewmodels/prompt_viewmodel.py:22-49 | an empty request gives the reminder; any other request ends the prompt, after its heading |
| OutputHandler.Analysis.constructor | controllers/output_handler.py:22 | the accumulator starts empty and the stream has started |
| OutputHandler.Analysis.OnTokenCalled | controllers/output_handler.py:24-26 | a token is appended to the accumulator and then forwarded |
| OutputHandler.Analysis.OnDoneCalled | controllers/output_handler.py:28-32 | the joined accumulator is stored and then passed to the completion callback |
| OutputHandler.StartOllamaAnalysis | controllers/output_handler.py:9-43 | with the streaming call made with the four accepted arguments, the closures' accumulator and effects follow the callee's calls: the two rejections, then the stream start, each token forwarded, and each `on_done` storing and completing the joined tokens |
| OutputHandler.Rejections | controllers/output_handler.py:13-20 | an empty request completes with the reminder; a request with no model, or a model with an empty name (falsy), completes with the model error; otherwise the stream starts first |
| OutputHandler.AsWrittenNeverStreams | controllers/output_handler.py:9-43 | once the module is imported, the two rejections behave as intended, and every other request raises at the streaming call: no effects, set against the stream start of the intended handler |
| OutputHandler.TokensForwardedInOrder | controllers/output_handler.py:24-26 | each delivered token is forwarded once, in arrival order, and nothing else is forwarded |
| OutputHandler.StoredBeforeCompleted | controllers/output_handler.py:28-32 | every completion is immediately preceded by storing the same result |
| OutputHandler.DoneResult | controllers/output_handler.py:22-32 | each `on_done` stores and completes with the concatenation of exactly the tokens delivered before it |
| OutputHandler.DoneArgumentsIgnored | controllers/output_handler.py:28 | the arguments given to `on_done` change nothing |
| OllamaClient.MakePayload | utils/ollama_client.py:16-39 | the payload names the model, asks for streaming, and its prompt is the rules preamble followed by the user's prompt |
| OllamaClient.ConsumeLines | utils/ollama_client.py:40-50 | the streaming loop yields the specified tokens and the error that stops it, and the full text is their concatenation |
| OllamaClient.AskOllamaStream | utils/ollama_client.py:14-56 | the request payload, the callback calls and the exception that escapes are the specified ones |
| OllamaClient.EscapeCases | utils/ollama_client.py:53-56 | only an unprotected completion call can let an exception escape: nothing escapes while the completion callback does not raise; after a failed loop or connection the single, error-text completion's exception escapes; on a clean stream the first completion's exception is caught, and only the second call's escapes |
| OllamaClient.Ending | utils/ollama_client.py:54-56 | a stream ends with one or two completion calls and nothing else |
| OllamaClient.BlankLinesIgnored | utils/ollama_client.py:43-44 | blank lines of the stream change nothing |
| OllamaClient.OneTokenPerRecord | utils/ollama_client.py:43-50 | without a callback failure, each record yields exactly one token, in order |
| OllamaClient.StreamOutcome | utils/ollama_client.py:14-56 | tokens are forwarded first; a clean stream completes once with the stripped full text; a failure in the loop or the connection completes once with the error text; a failing completion callback is called again with the error |
| OllamaClient.NoCompletionsInTokens | utils/ollama_client.py:45-50 | token calls are never completions |
| OllamaManager.EntryNames | utils/ollama_manager.py:21 | the comprehension fails exactly when some entry has no name, and otherwise lists every name in order |
| OllamaManager.AnyNamedIff | utils/ollama_manager.py:43 | `any` is true exactly when some entry names the model and every entry before it has a name |
| OllamaManager.ReadyIffListed | utils/ollama_manager.py:8-45 | a failed request or un-decodable reply means not ready; with a well-formed reply, a model is ready exactly when it is listed |
| OllamaManager.NamelessEntryHidesLaterMatch | utils/ollama_manager.py:39-45 | an entry without a name before the match makes the model look not ready, and one after it has no effect |
| OllamaManager.FirstFields | utils/ollama_manager.py:116-118 | the first-field loop fails exactly when some row is blank, and otherwise yields each row's first field in order |
| OllamaManager.GetInstalledModels | utils/ollama_manager.py:110-125 | the method's result is the specified installed-model list |
| OllamaManager.InstalledModelsCases | utils/ollama_manager.py:110-125 | a raised or failed run gives nothing, empty output gives nothing, a blank row gives nothing, and otherwise each row after the header gives its first field |
| ModelController.FindModel | controllers/model_controller.py:43 | the first model with the name, or the information that none has it |
| ModelController.ModelController.constructor | controllers/model_controller.py:14-16 | no models and no selection |
| ModelController.ModelController.LoadModels | controllers/model_controller.py:18-22 | one model per listed name, in order, returned; the selection is untouched |
| ModelController.ModelController.SelectFastestModel | controllers/model_controller.py:24-28 | the first model is selected when there is one, the old selection is kept otherwise, and the selection is returned |
| ModelController.ModelController.ApplySelectedModel | controllers/model_controller.py:42-56 | nothing runs when no model has the name; otherwise `ollama run` is run on the first model with the name; success means it ran and the command succeeded |
| ModelController.RunsRequestedName | controllers/model_controller.py:50 | the command run is `ollama run` followed by the requested name |
| JsExtractor.RemoveMarks | extract_js_functions.js:133-135 | removing marks leaves no `*` or `/`, only characters of the input |
| JsExtractor.RemoveMarksAppend | extract_js_functions.js:133-135 | mark removal works piece by piece |
| JsExtractor.DocSummaryShape | extract_js_functions.js:131-137 | only the last leading comment counts; the summary holds no mark and no newline, only characters of that comment, and is trimmed |
| JsExtractor.BlockCommentHasNoSummary | extract_js_functions.js:131-137 | a JSDoc comment whose text starts with "*" and a newline gives an empty summary |
| JsExtractor.KeyInjective | extract_js_functions.js:22 | two entries with the same key have the same name and line |
| JsExtractor.KeyList | extract_js_functions.js:22 | one key per entry, in order |
| JsExtractor.Collector.constructor | extract_js_functions.js:19-40 | nothing offered, nothing recorded |
| JsExtractor.Collector.AddFunction | extract_js_functions.js:21-27 | an entry whose key was seen changes nothing recorded; a new one is recorded and its key is marked seen |
| JsExtractor.Collector.Offer | extract_js_functions.js:21-27 | the collector keeps its invariant: what it records is the first-occurrence deduplication of everything offered |
| JsExtractor.RecordedKeys | extract_js_functions.js:21-27 | the recorded keys are the offered keys with later repeats dropped |
| JsExtractor.RecordedDistinct | extract_js_functions.js:21-27 | no two recorded entries share both name and line |
| JsExtractor.RecordedCovers | extract_js_functions.js:21-27 | every offered (name, line) is recorded |
| JsExtractor.RecordedOffered | extract_js_functions.js:21-27 | everything recorded was offered |
| JsExtractor.RecordedFirst | extract_js_functions.js:21-27 | each recorded entry is the first offer with its key |
| JsExtractor.DefaultNames | extract_js_functions.js:43-123 | what names a nameless node gets: "익명 함수" for a declaration, "defaultExport" for a default export, "(anonymous)" for an object member |
| JsExtractor.GivenNames | extract_js_functions.js:43-123 | a node with a non-empty name keeps it whichever visitor meets it |
| JsExtractor.ExtractFunctionsFromFile | extract_js_functions.js:15-128 | the method's result is the specified extraction of the file |
| JsExtractor.ExtractCases | extract_js_functions.js:15-128 | a read failure is a crash; a syntax error gives the message and no functions; a traversal gives no error and entries that are distinct by (name, line) |
| JsExtractor.ExportedConstRecordedOnce | extract_js_functions.js:50-89 | an exported `const f = () => …`, met by both visitors, is recorded once |
| JsExtractor.SameOfferTwice | extract_js_functions.js:21-27 | two visits offering the same entry record it once |
| JsExtractor.DistinctNamesRecordedTwo | extract_js_functions.js:21-27 | two entries with different names are both recorded |
| JsExtractor.AnonymousDefaultExportRecordedTwice | extract_js_functions.js:43-49 | an anonymous `export default function` is recorded twice, as "defaultExport" and as "익명 함수", because the two names make different keys |
| JsExtractor.ResolvePlain | extract_js_functions.js:154 | resolving segments without "." or ".." changes nothing |
| JsExtractor.JoinPathPlain | extract_js_functions.js:154 | joining a plain directory path and a plain name inserts exactly one separator |
| JsExtractor.ExtnameShape | extract_js_functions.js:158 | an extension is empty, or a dot-led suffix of the path with no other dot and no separator |
| JsExtractor.BasenameShape | extract_js_functions.js:158 | the base name is a suffix of the path without separators |
| JsExtractor.OneSeparatorNotIgnored | extract_js_functions.js:144-149 | a path with at most one separator is never ignored, since an ignored name must sit between two separators |
| JsExtractor.ParseLogAppend | extract_js_functions.js:29-38 | the parse-error log of a concatenation is the concatenation of the logs |
| JsExtractor.ErrorRecords | extract_js_functions.js:29-38 | only records with an error |
| JsExtractor.ParseLogLines | extract_js_functions.js:29-38 | one log line per file with a parse error, in order |
| JsExtractor.ParseLogQuiet | extract_js_functions.js:29-38 | the log is empty exactly when no file had a parse error |
| JsExtractor.Run.constructor | extract_js_functions.js:190 | no records |
| JsExtractor.Run.Callback | extract_js_functions.js:192-195 | the callback appends exactly the file's records and reports its crash |
| JsExtractor.WalkDir | extract_js_functions.js:140-163 | the recursive walk appends the specified records and crashes exactly when the specification does |
| JsExtractor.WalkEntries | extract_js_functions.js:151-162 | the loop over a directory's entries appends their records in order and stops at the first crash |
| JsExtractor.WalkSound | extract_js_functions.js:140-163 | every recorded file has an allowed extension and a path outside the ignored directories |
| JsExtractor.AllowedEndsWithExtension | extract_js_functions.js:12-159 | an allowed file ends, ignoring ASCII case, in one of the four allowed extensions |
| JsExtractor.UnreadableIgnoredDirectoryCrashes | extract_js_functions.js:141-152 | an unreadable `node_modules` below the root still crashes the walk: its own path has no separator after the name, so the ignore test misses it and `readdirSync` throws |
| JsExtractor.ChildNotIgnored | extract_js_functions.js:144-149 | a plain root and its plain child are not ignored |
| JsExtractor.PrintResults | extract_js_functions.js:166-186 | the printing loop writes the specified lines |
| JsExtractor.LocationFormat | extract_js_functions.js:179 | the location is empty exactly without a line, and otherwise reads ` (Line n)` with the line number in decimal |
| JsExtractor.FunctionLineFormat | extract_js_functions.js:178-182 | a function line starts with the name, is the bare name exactly without line or summary, and ends with ` // summary` when there is a summary |
| JsExtractor.FunctionLinesAppend | extract_js_functions.js:178-183 | the lines of a concatenation are the concatenation of the lines |
| JsExtractor.PrintedInOrder | extract_js_functions.js:172-185 | without errors, the output lists every recorded function, file after file, in order |
| JsExtractor.ResultCases | extract_js_functions.js:166-186 | a non-empty error is printed as a failure; an empty error message counts as no error; no records give the "no results" line; records without functions print nothing |
| JsExtractor.RunMain | extract_js_functions.js:189-198 | the main routine's lines and crash are the specified ones |
| JsExtractor.MainCases | extract_js_functions.js:189-198 | a missing target crashes; otherwise main crashes exactly when the walk does; a clean walk with no records prints the "no results" line |

## Left out

- Chalk colours and console printing are not modelled. Printed text is a sequence of lines. `print` calls whose only effect is logging are dropped.
- The command-line entry of `extract_js_functions.js` (lines 201-209) is not modelled: reading `process.argv`, the usage message and the exit code. `RunMain` takes the target path and the tree found there.
- Symbolic links are not modelled. Neither are `statSync` failures other than an unreadable directory or file.
- Paths use `/` as the only separator.
- The parse-error console log of `extractFunctionsFromFile` (lines 29-38) is modelled as a function of the walk's records (`ParseLog`), not as output interleaved with the walk.
- Not modelled, because they are network or process management with no logic to prove: `is_ollama_installed`, `is_ollama_running`, `stop_ollama_process`, `start_ollama_model_background`, `pull_model_if_needed`, `install_ollama_model`, `apply_ollama_model`, `ask_ollama`, and the HTTP transport itself.
- Directory listing order is an input. The tree lists its children in the order the operating system would return them.
- `list(set(...))` has an unspecified order. `ExtractKeywords` keeps first occurrences, in text order. `RankedKeywordOrder` and `MatchesKeywordOrder` prove that the related-file ranking does not depend on that order.
- Python's `ast`, Babel, the JSON decoder and the function regular expression of `extract_functions_from_js_file` are foreign parsers. Their answers are inputs carried by each file, and the model does not parse source code.
- `OllamaModel.speed_score` is a float that nothing in the core reads. It is not modelled.
- Threads and GUI callbacks are not modelled. `start_ollama_analysis` is modelled as the sequence of calls the streaming callee makes.
- The view model's `get_current_model`, prompt builder and result store are not part of this model. Their answers are parameters of `StartOllamaAnalysis`.
- ContextBuilder.ExtractFunctionsFromJsFile: `list(set(matches))` (`utils/context_builder.py:67`) has an unspecified order, because string hashing is randomised. The model picks one admissible order, the first occurrence of each name. `JsNamesSet` states the content independently of order. `GenerateFunctionSummary` fixes the order of the `  - name()` lines of a JavaScript file accordingly.
- OllamaManager.ReadyIffListed: the `TagsReply` carries no HTTP status code, and one reply is shared by `list_ollama_models` and `is_model_ready`. The source makes two requests, and only `list_ollama_models` calls `raise_for_status` (lines 16-17 against 41-42). An error status with a JSON body would count as decoded in `is_model_ready` and as a failure in `list_ollama_models`, and the model does not capture that.
- `KeywordUtils.KeywordShape`: lower-casing is modelled for ASCII letters and a few other characters only (`Strings.PyLower`). Other upper-case non-ASCII letters are left unchanged, where Python would lower them.
- `FileMatcher.Score`: the path is lower-cased with the same `Strings.PyLower` (`utils/file_matcher.py:16`). So the keyword "é" scores 0 against the path "É.py" in the model and 1 in Python. The keywords `ExtractKeywords` yields hold only Hangul syllables and lower-case ASCII letters, which this does not affect.
- `OutputHandler.AnalysisAsWritten`: the model starts once the module is loaded, so it assumes the import at `controllers/output_handler.py:6` succeeds. As written it does not: `utils/context_builder.py` defines no `infer_project_context`, so importing the module raises `ImportError` and `start_ollama_analysis` cannot be reached at all. The `TypeError` at the call is the second failure, met only once the import is repaired.
- `OllamaClient.AskOllamaStream`: the exception it lets escape (`escaped`) is returned as a value, and what the caller then does is not modelled. In `start_ollama_analysis` such an exception ends the handler after the listed calls.

Behaviour found while proving the model, as the code is written:

- An unreadable `node_modules` still ends the run. The ignore test (line 147) looks for the name with a separator on each side, and the directory's own path, such as `base/node_modules`, has none after the name. The test misses it, and `readdirSync` (line 152) throws (`UnreadableIgnoredDirectoryCrashes`).
- For the same reason the ignored directory itself is always listed, and only the entries below it are skipped. A path with at most one separator is never ignored (`OneSeparatorNotIgnored`). So a walk started at a bare `node_modules` does not skip the entries directly under it. It still skips deeper paths that contain an ignored name between two separators, such as `node_modules/a/.git/x`.
- An anonymous `export default function` is recorded twice (`AnonymousDefaultExportRecordedTwice`).
- A JSDoc comment whose text starts with `*` on its own line, as in `/**` followed by a newline, gives an empty summary. The summary is the first line of the comment with the marks removed, and that line holds only the `*` (`BlockCommentHasNoSummary`). A comment with its summary on the opening line, such as `/** Summary` followed by more lines, keeps it.
- An empty error message is printed as if there were no error (`ResultCases`). A non-empty run that found no function prints nothing at all, not the "no results" line.
- `load_project` sets `project_path`, `tree_structure` and `function_summary` (lines 16-18) before `load_config` can raise (line 19). A malformed configuration then raises, and leaves the context partly updated (`PromptViewModel.LoadProject`).
- `controllers/output_handler.py` cannot be imported as written: line 6 imports `infer_project_context` from `utils.context_builder`, which does not define it (the only other mention, line 77, is commented out). The handler is therefore unreachable until that import is removed, and the points below describe it once it is.
- `start_ollama_analysis` passes `should_stop_callback` to `ask_ollama_stream`, whose signature (`utils/ollama_client.py:14`) has no such parameter. The call raises `TypeError` once the prompt is built, so it never streams. `OutputHandler.AnalysisAsWritten` models it as written. `OutputHandler.AsWrittenNeverStreams` proves that every request passing the two rejections raises, with no stream started, no token forwarded, nothing stored and nothing completed. `StartOllamaAnalysis` and the lemmas about it model the handler with the call made with the four accepted arguments. Each side follows its own source text. See "## Findings".

## Findings

| source | as written | input that shows it | evidently intended | confidence | as-written member | corrected member |
|---|---|---|---|---|---|---|
| controllers/output_handler.py:37-43 | `ask_ollama_stream` is called with the keyword `should_stop_callback`, which its signature at `utils/ollama_client.py:14` does not accept, so the call raises `TypeError` | any non-empty request with a selected model | the stream starts with the four accepted arguments, and tokens and the result flow through `on_token` and `on_done` | high; not executed | OutputHandler.AsWrittenNeverStreams | OutputHandler.StartOllamaAnalysis |
