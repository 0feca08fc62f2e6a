# filesummarize in Dafny

A Dafny model of the core of *filesummarize*, a set of Python tools that
turn source files into prompts for a local language model and render the
model's answer as console text or as a Word document.

The model covers:

- **code_analysis_tool/analyzer.py** (modules `FileTypes`, `LineScanner`,
  `Extractors`, `Analyzer`):
  - classifying a file by its extension;
  - which files a directory walk analyses;
  - the per-category dispatch to the element extractors;
  - the line-based scanner for non-Python code;
  - the text, markdown and data extractors with their 1000-character
    preview;
  - the prompt built for one file and the result record.
- **src/code_explainer/llm_integration.py** and its byte-identical copy
  **src/code_analyzer_ai/llm_integration.py** (module `Explanation`):
  - grouping the elements by file;
  - the section of each element;
  - the prompt and the error wrapping of `generate_explanation`.
- **src/code_explainer/document_generator.py** (module `Document`):
  - the per-file and per-type counts;
  - the summary lines;
  - the per-element blocks;
  - the block sequence of `create_document`.

  The Word document is a `Docx` class whose only state is the list of
  heading and paragraph blocks appended so far.
- **src/action.py** (module `RepositoryAction`):
  - the file annotation of `parse_python_file`;
  - `format_element` and `build_prompt`;
  - how `analyze_repository` accumulates elements and decides whether a
    prompt is sent.
- **code_analysis_tool/cli.py** (module `Cli`): the text report of
  `print_analysis` and the exit status of `main`.
- **main.py** (module `ExplainerApp`): `extract_elements` over the
  top-level definitions, and the `combined` listing of `llama_explain`
  placed in its prompt.

Shared pieces:

- `Wrappers`: Option and Result.
- `Text`: Python string operations.
- `CodeElement`: an element dictionary as a record of optional fields, where
  an absent key is `None`.
- `Grouping`: insertion-ordered dictionaries built in a loop.
- `Pieces`: the ordered optional lines of a section.
- `Results`: the first `KeyError` of a sequence of lookups.
- `Prompts`: the fixed prompt text shared by three of the tools.
- `PythonAst`: the parsed module body as a list of nodes.

### Two behaviours of the code worth knowing

The model follows the code as written in both:

- `analyze_file` passes the category `document`, not the sub-type, to the
  text extractor (code_analysis_tool/analyzer.py:107-108). The extractor
  has a markdown section splitter behind `content_type == 'markdown'`
  (code_analysis_tool/analyzer.py:325-338), but `analyze_file` never
  reaches it. A `.md` file therefore yields one `Content` record; see
  `Extractors.DocumentsAreOneContentRecord`. The splitter itself is
  modelled too.
- A line's label is `Function` only when its lower-cased text contains
  `function`, `def ` or `fn ` (code_analysis_tool/analyzer.py:246). A Go
  `func f()` line contains none of these, so it is labelled `Class`; see
  `LineScanner.GoFuncIsClass`.

## Model

| member | source | states |
|---|---|---|
| FileTypes.DetectFileType | code_analysis_tool/analyzer.py:11-71 | A listed extension yields its table's category and label. The category is unknown exactly when the lower-cased suffix is in no table; then the label is the suffix without its dot, or `text` when there is no suffix. |
| FileTypes.Suffix | code_analysis_tool/analyzer.py:13-14 | When the last dot of the name is neither its first nor its last character, the suffix is the name from that dot on; otherwise it is empty. A non-empty suffix is a proper ending of the name: a dot, then at least one character and no further dot. |
| FileTypes.TablesDisjoint | code_analysis_tool/analyzer.py:17-62 | No extension is listed in two of the three tables, so the order of the tests does not matter. |
| FileTypes.DetectIgnoresCase | code_analysis_tool/analyzer.py:11-71 | Two paths whose names agree up to case are classified alike. |
| FileTypes.NormalizeExtension | code_analysis_tool/analyzer.py:148 | A requested extension becomes one dot followed by the extension with its leading dots dropped and lower-cased: the dropped head is all dots, no second dot follows the first, and no upper-case letter is left. |
| FileTypes.NormalizeDropsLeadingDot | code_analysis_tool/analyzer.py:148 | A leading dot on a requested extension does not change it after normalisation. |
| FileTypes.NormalizeIgnoresCase | code_analysis_tool/analyzer.py:148 | Requested extensions that agree up to case normalise alike. |
| FileTypes.NormalizeIdempotent | code_analysis_tool/analyzer.py:148 | A normalised extension normalises to itself. |
| FileTypes.DefaultExtensionsAreTableKeys | code_analysis_tool/analyzer.py:135-148 | The default extension list normalises to exactly the 36 keys of the three classification tables. |
| CodeElement.Preview | code_analysis_tool/analyzer.py:199 | The preview is the whole text when it has at most 1000 characters; otherwise it is the first 1000 characters followed by `...`, 1003 in all. |
| Extractors.Take | code_analysis_tool/analyzer.py:281 | A slice `[:n]` is a prefix of the string: the whole string when it has at most `n` characters, otherwise exactly its first `n`. |
| PythonAst.KindNames | code_analysis_tool/analyzer.py:178 | Removing `Def` from the node class names gives `Function`, `AsyncFunction` and `Class`. |
| PythonAst.DefinitionsSpec | code_analysis_tool/analyzer.py:176-177 | The definitions are exactly the function, async function and class statements of the body, each once and in body order: they come from strictly increasing positions of the body, and every definition position is among them. No other statement is kept. |
| Extractors.PythonElementsSpec | code_analysis_tool/analyzer.py:170-202 | A parse error yields one record carrying the error and the preview of the code. Otherwise the `k`-th record describes the `k`-th top-level definition: its kind without `Def`, its name, its docstring and source segment (empty when absent), its start and end lines (0 when absent), the language `python`, and no error. |
| Extractors.DataElementsSpec | code_analysis_tool/analyzer.py:272-321 | A data file always yields one record with a source of at most 1003 characters, carrying an error exactly when a JSON or YAML load fails. A parsed JSON or YAML file has the name `root`, its language, and the first 1000 characters of its re-serialisation as source. An XML or CSV file has the name `xml_content` or `csv_content` and the preview of the content. A rejected file has the name `content`, the data type as language, the parser's message as error and in its docstring, and the preview as source. Any other data type gives the plain `data` content record. |
| Extractors.CollectSections | code_analysis_tool/analyzer.py:330-338 | The loop over the odd indices builds exactly the sections. |
| Extractors.ExtractTextElements | code_analysis_tool/analyzer.py:323-358 | The text extractor returns the markdown sections, or the markdown fallback, or the single content record. |
| Extractors.MarkdownNeverEmpty | code_analysis_tool/analyzer.py:340-347 | The markdown branch never returns an empty list. It returns the single document record exactly when the split found no heading. |
| Extractors.MarkdownSections | code_analysis_tool/analyzer.py:330-338 | Section `k` is named after heading `2k+1` with `#` and spaces stripped, and its source starts with that heading. |
| Extractors.SectionsCoverText | code_analysis_tool/analyzer.py:327-338 | The text before the first heading, followed by the sections' sources, joined by newlines, gives back the whole split text. |
| Extractors.CapitalizeDocument | code_analysis_tool/analyzer.py:355 | The category `document` is described as `Document content`. |
| Extractors.ExtractFileElements | code_analysis_tool/analyzer.py:98-108 | The dispatch sends Python to the AST path, other code to the scanner with its sub-type, data to the data extractor, and everything else to the text extractor with its category. |
| Extractors.DocumentContent | code_analysis_tool/analyzer.py:350-358 | A document-category file yields exactly one `Content` record described as `Document content`. |
| Extractors.DocumentsAreOneContentRecord | code_analysis_tool/analyzer.py:98-108 | Every file classified as a document, `.md` included, yields exactly one `Content` record. |
| Extractors.NoSectionRecords | code_analysis_tool/analyzer.py:98-108 | No file analysed through the dispatch yields a `Section` record: the markdown branch is unreachable. |
| Extractors.NoSectionFor | code_analysis_tool/analyzer.py:100-108 | Whatever the file type, the dispatch produces no `Section` record. |
| Extractors.NoSectionInPython | code_analysis_tool/analyzer.py:170-202 | The Python extractor never produces a `Section` record. |
| Extractors.NoSectionInData | code_analysis_tool/analyzer.py:272-321 | The data extractor never produces a `Section` record. |
| Extractors.OnlyPythonCanBeEmpty | code_analysis_tool/analyzer.py:98-108 | Only a Python file that parses and has no top-level definition yields no elements. |
| LineScanner.SkippedFivePrefixes | code_analysis_tool/analyzer.py:235-237 | A stripped line is skipped exactly when it is empty or starts with `//`, `/*`, `*`, `--` or `#`; the two Lua markers add nothing. |
| LineScanner.KeptFromTexts | code_analysis_tool/analyzer.py:234-237 | Every kept line carries its 1-based number and its text, and is not a skipped line. |
| LineScanner.KeptIncreasing | code_analysis_tool/analyzer.py:234-237 | Kept lines are in strictly increasing line order. |
| LineScanner.KeptComplete | code_analysis_tool/analyzer.py:234-237 | Every line that is not skipped is kept. |
| LineScanner.BlocksSnoc | code_analysis_tool/analyzer.py:239-256 | A matching line opens a new element. Any other line extends the element in progress, or is dropped when there is none. |
| LineScanner.BlocksLines | code_analysis_tool/analyzer.py:239-256 | The lines owned by elements are a suffix of the kept lines. |
| LineScanner.BlocksLead | code_analysis_tool/analyzer.py:239-256 | The kept lines before the first element are lines the pattern does not match: they belong to no element. |
| LineScanner.BlocksHeads | code_analysis_tool/analyzer.py:239-253 | Each element opens on a line the pattern matches, with that match's groups. |
| LineScanner.BlocksBodies | code_analysis_tool/analyzer.py:254-256 | No line inside an element's body matches the pattern. |
| LineScanner.ElementOfExtend | code_analysis_tool/analyzer.py:254-256 | Extending an element appends a newline and the line to its source and moves its end line; nothing else changes. |
| LineScanner.ScanLine | code_analysis_tool/analyzer.py:235-256 | One turn of the loop is the reference step on the stripped line. |
| LineScanner.ScanPrefixSource | code_analysis_tool/analyzer.py:254-256 | The element in progress always has a source for `+=` to extend. |
| LineScanner.ScanLines | code_analysis_tool/analyzer.py:234-257 | The loop over the stripped lines reaches the reference scan state. |
| LineScanner.ScanPrefixState | code_analysis_tool/analyzer.py:234-257 | After any number of lines, the closed elements and the one in progress are exactly the elements of the blocks seen so far. |
| LineScanner.ScanPrefixBlocks | code_analysis_tool/analyzer.py:234-259 | Closing the scan gives one element per block, in order. |
| LineScanner.ScanPrefixResult | code_analysis_tool/analyzer.py:204-270 | The extractor's result is the closed scan, or the single fallback record when the scan found nothing. |
| LineScanner.ExtractGenericCodeElements | code_analysis_tool/analyzer.py:204-270 | The imperative scanner computes the reference element list. |
| LineScanner.GenericElements | code_analysis_tool/analyzer.py:258-268 | The scanner's result is never empty. |
| LineScanner.BlocksOrdered | code_analysis_tool/analyzer.py:239-259 | Each block starts no later than it ends and ends before the next one starts. |
| LineScanner.ScanOrder | code_analysis_tool/analyzer.py:239-259 | Emitted elements are in line order, with `start_line <= end_line`, and do not overlap. |
| LineScanner.FallbackIffNoMatch | code_analysis_tool/analyzer.py:261-268 | The result is the single `File` fallback exactly when no kept line matches the pattern. |
| LineScanner.GenericKinds | code_analysis_tool/analyzer.py:246-268 | Every scanned element is a `Function`, a `Class` or the `File` fallback. |
| LineScanner.GoFuncIsClass | code_analysis_tool/analyzer.py:218-246 | An example of the labelling rule `KindOf`: a Go `func f` line is labelled `Class`. |
| LineScanner.FnAndDefAreFunctions | code_analysis_tool/analyzer.py:246 | Examples of the labelling rule `KindOf`: a line with `fn ` or `def ` is labelled `Function`. |
| Analyzer.ElementPiecesSpec | code_analysis_tool/analyzer.py:378-388 | Each element's prompt opens with its heading. It has a Description exactly when the docstring is truthy and a Content part exactly when the source is truthy, in that order. |
| Analyzer.ElementPromptSteps | code_analysis_tool/analyzer.py:379-388 | An element's prompt is its heading, then the optional Description, then the optional Content block. |
| Analyzer.PromptAt | code_analysis_tool/analyzer.py:366-388 | The prompt is the header followed by every element's part in input order. |
| Analyzer.AppendElement | code_analysis_tool/analyzer.py:378-388 | One turn of the prompt loop appends exactly that element's part. |
| Analyzer.AppendElements | code_analysis_tool/analyzer.py:377-388 | The prompt loop appends every element's part in order. |
| Analyzer.AnalysisOfSpec | code_analysis_tool/analyzer.py:360-410 | No elements gives the empty result. Otherwise the result carries the elements, file type and sub-type, plus the reply as `analysis` or the failure as `error`, never both. |
| Analyzer.AnalyzeElements | code_analysis_tool/analyzer.py:360-410 | The method computes that result. It sends no prompt for an empty list and the full prompt otherwise. |
| Analyzer.AnalyzeFile | code_analysis_tool/analyzer.py:94-111 | Analysing a file classifies it, dispatches, and analyses the extracted elements. |
| Analyzer.FileAnalysisSpec | code_analysis_tool/analyzer.py:98-111 | An empty result comes only from a Python file that parses. Any other result is labelled with the detected category and sub-type. |
| Analyzer.VisitEntry | code_analysis_tool/analyzer.py:151-166 | A walked entry is analysed and stored under its path exactly when it is a file, lies outside the excluded directories and has a selected suffix. |
| Analyzer.Walk | code_analysis_tool/analyzer.py:150-166 | The walk loop builds the reference results dictionary. |
| Analyzer.ReportsSnoc | code_analysis_tool/analyzer.py:162-166 | One more walked entry updates the results only when it is analysed. |
| Analyzer.AnalysedPathsSpec | code_analysis_tool/analyzer.py:150-160 | A path is analysed exactly when some walked entry with that path passes all three tests. |
| Analyzer.ReportKeys | code_analysis_tool/analyzer.py:150-163 | The reports are keyed, in walk order, by the analysed paths. |
| Analyzer.DirectoryResultsSpec | code_analysis_tool/analyzer.py:150-168 | The results hold each analysed path once, in walk order, and no other path. Under each path sits the analysis of the last analysed file with that path. |
| Analyzer.DirectoryValues | code_analysis_tool/analyzer.py:150-168 | Each result's value is `analyze_file` of the last analysed walk entry with that path. |
| Analyzer.ReportValues | code_analysis_tool/analyzer.py:150-166 | Whatever the analysis function, the dictionary built by the walk holds under each path the analysis of the last analysed entry with that path. |
| Analyzer.AnalyzeDirectory | code_analysis_tool/analyzer.py:127-168 | A path that is not a directory raises `ValueError`. Otherwise the results are computed with the default exclusions and extensions filled in. |
| Grouping.UpdSpec | src/code_explainer/llm_integration.py:26-29 | Adding to an existing key changes only that entry; a new key is appended at the end. Keys stay distinct. |
| Grouping.Accumulate | src/code_explainer/document_generator.py:61-79 | The loop builds a dictionary whose keys are the distinct keys in first-occurrence order, each mapped to the fold of its own elements. |
| Grouping.GroupBySpec | src/code_explainer/llm_integration.py:24-29 | Groups appear in order of the first occurrence of their key, and each holds exactly its key's elements in input order. |
| Grouping.GroupByPermutation | src/code_explainer/llm_integration.py:24-29 | The groups together are a permutation of the input: every element appears exactly once. |
| Grouping.CountBySpec | src/code_explainer/document_generator.py:76-79 | Each distinct key counts the elements with that key. |
| Grouping.CountByTotal | src/code_explainer/document_generator.py:95-96 | The counts add up to the number of elements. |
| Explanation.FieldsOfSpec | src/code_explainer/llm_integration.py:37-51 | A section raises `KeyError` exactly when a key it reads is absent; `has_return` is read only for a non-class. Otherwise every field read is the element's own value: type, name, start and end lines, docstring, args and source. |
| Explanation.LayoutSpec | src/code_explainer/llm_integration.py:37-51 | A section opens with heading and location and ends with the code. Each optional line is present exactly when given, in the fixed order. |
| Explanation.SectionPiecesSpec | src/code_explainer/llm_integration.py:37-51 | Documentation appears iff the docstring is non-empty, Arguments iff the list is non-empty, Returns iff `has_return` holds on a non-class. The fenced code ends the section. |
| Explanation.SectionSteps | src/code_explainer/llm_integration.py:37-51 | A section's text is its lines concatenated in order, the absent ones contributing nothing. |
| Explanation.BuildElementSection | src/code_explainer/llm_integration.py:37-51 | The `+=` steps build exactly the section text, or the first missing key. |
| Explanation.FileSectionSpec | src/code_explainer/llm_integration.py:34-52 | A file section can be built exactly when every element in it has its keys. |
| Explanation.BuildFileSection | src/code_explainer/llm_integration.py:34-52 | The loop over a file's elements builds the file header and then their sections. |
| Explanation.GroupsSpec | src/code_explainer/llm_integration.py:24-29 | Files (default `main.py`) appear in first-occurrence order. Each group holds its file's elements in order, and every element is in exactly one group. |
| Explanation.CombinedSucceeds | src/code_explainer/llm_integration.py:31-56 | The listing is built exactly when every element has the keys its section reads. |
| Explanation.BuildCombined | src/code_explainer/llm_integration.py:24-56 | The two loops build the grouped listing joined by newlines. |
| Explanation.GenerateExplanation | src/code_explainer/llm_integration.py:19-112 | The method computes the reference explanation. It sends no prompt for an empty list or a listing that raises, and otherwise sends the fixed prompt around the listing. The same lines of src/code_analyzer_ai/llm_integration.py are identical. |
| Explanation.FailuresAreRuntimeErrors | src/code_explainer/llm_integration.py:111-112 | Every failure, a missing key or a client error, is reported as `Error generating explanation: ...`, in both copies of the file. |
| Prompts.SystemPromptInjective | src/code_explainer/llm_integration.py:58-100 | The fixed prompt text determines the listing inside it: different listings give different prompts. |
| Document.Docx.constructor | src/code_explainer/document_generator.py:43 | A new document has no blocks. |
| Document.Docx.AddHeading | src/code_explainer/document_generator.py:46-55 | Adding a heading appends exactly one heading block at that level. |
| Document.Docx.AddParagraph | src/code_explainer/document_generator.py:92-98 | Adding a paragraph appends exactly one paragraph block in that style. |
| Document.FoldTally | src/code_explainer/document_generator.py:66-74 | The per-file counters count exactly the elements of type `Function`, `Class` and `AsyncFunction`; other types touch none. |
| Document.FileCountsSpec | src/code_explainer/document_generator.py:58-75 | Files (default `unknown.py`) are listed in first-occurrence order, each with the counts of its own elements. |
| Document.TypeCountsSpec | src/code_explainer/document_generator.py:76-79 | Types (default `Unknown`) are listed in first-occurrence order with their counts, which add up to the number of elements. |
| Document.CountElements | src/code_explainer/document_generator.py:58-79 | The counting loop computes both dictionaries. |
| Document.FileLineSpec | src/code_explainer/document_generator.py:84-92 | A file line reads `No elements found` exactly when all three counters are zero. |
| Document.CountPartsSize | src/code_explainer/document_generator.py:85-91 | A file line lists one part per non-zero counter. |
| Document.AddFileLines | src/code_explainer/document_generator.py:84-92 | The loop appends one bullet line per file. |
| Document.AddTypeLines | src/code_explainer/document_generator.py:97-98 | The loop appends one list-bullet line per type. |
| Document.AddCounts | src/code_explainer/document_generator.py:81-98 | The summary appends the files heading and lines, then the total and the type lines, each part only when its dictionary is non-empty. |
| Document.SummaryTotal | src/code_explainer/document_generator.py:81-98 | The summary blocks are empty exactly when there are no elements. Otherwise they include `Total elements found: n` with `n` the number of elements. |
| Document.FieldsOfSpec | src/code_explainer/document_generator.py:116-134 | An element raises `KeyError` exactly when a key it reads is absent; `has_return` is read only for a non-class. Otherwise every field read is the element's own value: type, name, start and end lines, docstring, args and source. |
| Document.SeparatorSpec | src/code_explainer/document_generator.py:138 | The separator is forty dashes. |
| Document.BlocksOfShape | src/code_explainer/document_generator.py:116-139 | An element's blocks open with its level-3 header and end with the source label, source, and separator paragraphs. |
| Document.ArgumentsShown | src/code_explainer/document_generator.py:122-123 | The Arguments paragraph appears exactly when the argument list is non-empty. |
| Document.ReturnsShown | src/code_explainer/document_generator.py:125-126 | `Returns: Yes` appears exactly when `has_return` holds on a non-class. |
| Document.DocstringShown | src/code_explainer/document_generator.py:128-130 | The quoted docstring appears exactly when the docstring is non-empty. |
| Document.AddArguments | src/code_explainer/document_generator.py:122-123 | Appends the arguments paragraph only for a non-empty list. |
| Document.AddReturns | src/code_explainer/document_generator.py:125-126 | Appends the returns paragraph only when set. |
| Document.AddDocstring | src/code_explainer/document_generator.py:128-130 | Appends the two documentation paragraphs only for a non-empty docstring. |
| Document.AddSource | src/code_explainer/document_generator.py:132-139 | Always appends the source label, the source and the separator between blank paragraphs. |
| Document.AddElement | src/code_explainer/document_generator.py:116-139 | Appends the element's blocks, or fails with the first missing key. |
| Document.GroupsSpec | src/code_explainer/document_generator.py:103-109 | Files appear in first-occurrence order, each with its elements in input order, and every element is in exactly one group. |
| Document.StructureSucceeds | src/code_explainer/document_generator.py:111-139 | The structure section can be built exactly when every element has the keys it reads. |
| Document.AddFile | src/code_explainer/document_generator.py:112-139 | Appends a file's heading and then its elements' blocks, or fails with the first missing key. |
| Document.AddStructure | src/code_explainer/document_generator.py:111-139 | Appends every file's blocks in order, or fails with the first missing key. |
| Document.CreateDocument | src/code_explainer/document_generator.py:15-153 | The method computes the reference outcome. |
| Document.DocumentOutline | src/code_explainer/document_generator.py:42-143 | The top-level headings are title, Summary, Code Structure and AI Explanation, in that order, and the explanation paragraph is last. |
| Document.DocumentOutcomeSpec | src/code_explainer/document_generator.py:28-153 | No document when python-docx is unavailable. Otherwise it fails exactly when some element lacks a key it reads, with a `RuntimeError` message. |
| RepositoryAction.AnnotateSpec | src/action.py:32-33 | Every element gets `file` set to the path and nothing else changes. |
| RepositoryAction.ParsedFiles | src/action.py:28-43 | Every returned element carries the file's path; any exception yields the empty list. |
| RepositoryAction.ParsePythonFile | src/action.py:28-43 | The annotation loop computes the reference result. |
| RepositoryAction.HeaderOfSpec | src/action.py:56-59 | Formatting raises `KeyError` exactly when `file`, `type`, `name`, `start_line` or `end_line` is absent, `file` first. |
| RepositoryAction.LayoutSpec | src/action.py:56-72 | File, heading, location and documentation always open the element, and each optional part is present exactly when given, in order. |
| RepositoryAction.ElementPartsSpec | src/action.py:54-72 | Arguments appear iff `args` is truthy, Returns iff `has_return` is truthy on a non-class, Code iff the source is truthy. |
| RepositoryAction.FormatElement | src/action.py:54-72 | The conditional appends build exactly the reference element text. |
| RepositoryAction.ListingSucceeds | src/action.py:75 | The listing is built exactly when every element has the five keys `format_element` subscripts. |
| RepositoryAction.ListingParts | src/action.py:75 | The listing is the element texts in input order, joined by a blank line. |
| RepositoryAction.ListingFails | src/action.py:75 | A failing listing reports the missing key of the first element that lacks one. |
| RepositoryAction.BuildPromptFails | src/action.py:45-117 | Building the prompt fails exactly when the listing does, with the same key. |
| RepositoryAction.BuildPromptInjective | src/action.py:78-117 | Equal prompts hold equal listings. |
| RepositoryAction.GatheredSpec | src/action.py:206-212 | All elements are the per-file results concatenated in file order. |
| RepositoryAction.GatheredFiles | src/action.py:206-212 | Every gathered element names one of the collected files. |
| RepositoryAction.GatherFile | src/action.py:207-212 | One turn of the loop extends the accumulated elements with that file's results. |
| RepositoryAction.PromptSentSpec | src/action.py:199-218 | A prompt is sent exactly when there are files, elements and a buildable prompt, and it is that prompt. |
| RepositoryAction.ListingNeverMissesFile | src/action.py:206-218 | Gathered elements never lack `file`, so the listing cannot fail on that key. |
| RepositoryAction.NeverMissesFile | src/action.py:195-229 | A run never stops on a missing `file` key. |
| RepositoryAction.AnalyzeRepository | src/action.py:195-229 | The run computes the reference outcome and sends exactly the reference prompt. |
| Cli.RuleSpec | code_analysis_tool/cli.py:79-81 | The rule is one hundred `=` characters. |
| Cli.ResultLinesSpec | code_analysis_tool/cli.py:75-97 | Each result opens with its three header lines. An error result adds only its error line. Any other adds its analysis (default `No analysis available`) and, only for more than one element, `Elements found:` with one line per element. |
| Cli.TextLinesSpec | code_analysis_tool/cli.py:74-99 | The report is the blocks of the results one after the other, in the order of the results. |
| Cli.TextLinesLength | code_analysis_tool/cli.py:75-99 | Every result contributes at least four lines. |
| Cli.AppendElementLines | code_analysis_tool/cli.py:94-97 | The inner loop appends one summary line per element. |
| Cli.AppendResult | code_analysis_tool/cli.py:75-98 | One turn of the outer loop, `continue` included, appends exactly that result's lines. |
| Cli.RenderText | code_analysis_tool/cli.py:69-99 | The text output is all results' lines joined by newlines. |
| Cli.MainExitSpec | code_analysis_tool/cli.py:168-230 | `main` returns 0 or 1 unless argparse exits itself. It returns 1 exactly when, past the version and list flags, the path is missing, the analysis raises, or printing a non-empty report raises. |
| Cli.VersionFirst | code_analysis_tool/cli.py:173-177 | `--version` or `-v` anywhere in the arguments returns 0 before anything is parsed. |
| ExplainerApp.ExtractElementsSpec | main.py:14-47 | The `k`-th record describes the `k`-th top-level definition: its type without `Def`, its name, its docstring and source segment (empty when absent), its start line, its end line, and whether a `return` occurs in it. An argument list is stored exactly when the function has a parameter, so classes and parameterless functions store `None`. The end line falls back to the start line as written; nodes from `ast.parse` always carry an end line, so the fallback is not reached for them. |
| ExplainerApp.ElementPiecesSpec | main.py:87-93 | Each element opens with heading and location and always has its Documentation line, even for an empty docstring. Arguments appear iff the list is non-empty, Returns iff `has_return` holds on a non-class, and the code ends it. |
| ExplainerApp.ElementTextLines | main.py:87-93 | An element's text is its lines in order, the absent ones contributing nothing. |
| ExplainerApp.CombinedSpec | main.py:87-95 | The listing is built exactly when every element has its eight keys. It is then the element texts in input order, joined by a blank line. |
| ExplainerApp.ExtractedListing | main.py:14-95 | Records produced by `extract_elements` never make the listing raise. |
| ExplainerApp.LlamaExplainTotal | main.py:49-148 | On extracted records `llama_explain` never raises: a failed chat call comes back as text. |
| ExplainerApp.LlamaExplainOutcome | main.py:142-148 | Once the listing is built, a successful chat call's reply is returned as it is, and a failed call returns `Error generating explanation: ` followed by the error. |

## Left out

- Network calls to the model server are parameters, a function from the prompt to a reply or a failure text: `generate`, `client.chat`, and `run_ollama_analysis` with its client from src/utils. src/utils is not part of this model.
- Python parsing (`ast.parse`, `ast.get_docstring`, `ast.get_source_segment`, `ast.walk`) is not modelled. A parsed body is a list of nodes whose docstring, source segment, line numbers, parameter names and return flag are given.
- A Python docstring or source segment of `None` is not modelled separately from the `or ""` fallback. Element values are strings, numbers, argument lists or absent keys; other Python value types are not modelled.
- JSON and YAML loading and dumping are parameters of the data extractor.
- Regular expression semantics are parameters: the per-language search returns the match groups or nothing. The markdown split is a function from the text to its parts.
- Lower-casing covers ASCII letters only; Unicode case mapping is not modelled.
- The filesystem is not modelled (`open`, `rglob`, `is_file`, `exists`, `resolve`, `mkdir`, `read_file_safely`). Directory walks, file contents and path tests are inputs.
- `Path.parts` is given with each walked entry.
- src/analyzer.py (the `extract_elements` imported by src/action.py) is not part of this model: its result is the loader parameter of `RepositoryAction`.
- Logging, console output and the `print` calls are not modelled. This covers the report banner of `analyze_repository`, the messages in `main` and the `Error analyzing` line of the directory walk.
- `print_analysis`'s JSON branch and its writing to an output file are not modelled; the model covers the text it would print or write.
- argparse's own behaviour is abstracted: `main` receives what parsing produced, either the two flags or argparse's own exit status.
- `list_supported_extensions` prints a fixed table and is not modelled.
- `analyze_code` is not part of this model. `main` receives the number of results or the exception it raised.
- The Streamlit user interface of main.py and app.py is not modelled.
- python-docx styles, fonts, alignment, the `Code` style set-up and saving to a `BytesIO` buffer are not modelled; the document is its list of blocks.
- `save_document` in src/action.py is not modelled. It passes keyword arguments `create_document` does not accept, so the call raises `TypeError`; the surrounding handler turns that into a `None` result. `analyze_repository` is modelled up to the report.
- Lines 35-40 of src/action.py follow an unconditional `return` and are unreachable; they are not modelled.
- The fixed prompt texts are modelled as constants. Only the listing inside them is reasoned about.
- The facts `main` acts on (whether the path exists, how many results came back, whether printing raised) are independent inputs; they are not tied to an actual directory walk.
