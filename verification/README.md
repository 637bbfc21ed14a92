# kg_generator core, modelled in Dafny

kg_generator turns a text into a knowledge graph by asking a chat model for JSON, audits the
graph against the text ("verify"), and asks the model to improve it ("optimize"). The front end
(React, TypeScript) and a FastAPI back end (Python) each contain their own copy of the pure
logic around the model calls. This project models that logic and proves properties of it:

- pulling the JSON out of a model reply: the fenced-block search, then the brace-depth scan.
  There is one model for the TypeScript `extractFirstJson` and one for the Python
  `extract_first_json`, sharing a regex engine for the lazy fence patterns (`Extraction`).
- validating a parsed graph. Both validators keep the nodes and drop every edge whose endpoints
  are not node ids. The Python one also resolves object endpoints, defaults missing keys and
  keeps the edge `id`.
- normalising a parsed verification report to a record with defaults, in both languages.
- choosing a file reader from MIME type and name, and assembling the text of a PDF from its
  pages' text items (`FileService`).
- the view controller of App.tsx as a transition system over its seven pieces of state (`App`).

Modules: `Base` (Option, Result), `Text` (trim over a whitespace predicate, search, decimal
printing, join, lower-casing), `Seqs` (filter-then-map with the indices it keeps), `Extraction`,
`Types` (the records of types.ts and the already-parsed JSON shapes), `AiService`, `Backend`,
`FileService`, `App`.

The fence patterns are modelled as a search: at each start position, try the opener, then take
the first "```" after it (the lazy body). `Extraction.MatchIsFirstBlock` proves this equals "the
first opener that has a later fence, closed by the first such fence". Case-insensitive matching
of `json` differs between the two regex engines. JavaScript's non-Unicode `/i` never folds a
non-ASCII character onto an ASCII letter, so only A-Z can match the letters of `json`. Python's
`re.IGNORECASE` on `str` also folds U+017F (long s) onto `s`. The model keeps both (`Folding`).

Where the two twins part ways, the model proves it for these cases:
- text without a brace: Python strips it, TypeScript returns it unchanged;
- the "```jſon" tag;
- object endpoints;
- `null` scores;
- non-list feedback.

The list is not exhaustive. The model carries other differences, stated separately for each
twin but with no lemma that compares the two:
- a missing `nodes` or `edges` key: TypeScript fails (`AiService.ParseAndValidateGraph`), Python
  reads it as an empty list (`Backend.MissingKeys`);
- the whitespace trimmed from a fenced block: Python's `strip` also removes U+0085 and
  U+001C-U+001F, and only JavaScript's `trim` removes U+FEFF;
- a kept edge: Python keeps its `id` and defaults a missing `relation` to "", while TypeScript
  keeps only source, target and relation (`AiService.ValidatedEdges`, `Backend.ValidatedEdges`).

`types.ts` declares four statuses (IDLE, PROCESSING, SUCCESS, ERROR), but App.tsx also sets
VERIFYING and OPTIMIZING. The model has all six. `types.ts` has no `VerificationResult`
declaration; its shape is taken from the record that aiService.ts builds.

Three behaviours of the controller that the model exhibits (see `App.VerifyDuringGenerate`,
`App.GenerateTwiceInFlight`, `App.VerifyTwiceInFlight` and `App.StaleConfirmDialog`):
- While a graph is being generated, the verify button stays enabled if the old graph has nodes.
  Pressing it sends the new text with the old graph.
- A control is disabled only right after its own call is issued. Another handler can enable it
  again while that call is still outstanding. Verifying during a generation leaves the
  processing status, so the form accepts a second generation. A generation during a
  verification clears the report, so the verify button issues a second verification.
- A generation submitted while the re-verify dialog is open clears the report but leaves the
  dialog open. Its "show report" button then opens a panel that is not drawn.

## Model

| member | source | states |
|---|---|---|
| `Extraction.MatchFrom` | services/aiService.ts:92 | The lazy search `/```json[\s\S]*?```/i` or `/```[\s\S]*?```/` (and `re.search` at backend/app.py:99 and 102): a match starts at or after the given position with the opener, ends with a "```", and has no "```" between the opener and that fence |
| `Extraction.MatchIsFirstBlock` | services/aiService.ts:92 | The lazy fence pattern's match is the first opener (json-tagged or bare) that has a later "```", ending at the first such "```"; no match exactly when no opener has one |
| `Extraction.RemoveMarkers` | services/aiService.ts:94 | The global removal of "```json" and "```" (and the `re.sub` calls at backend/app.py:101 and 104, the second removing only "```") never lengthens the text; `Extraction.RemoveMarkersKeepsPlainPrefix` and `Extraction.BlockInterior` state what it leaves |
| `Extraction.RemoveMarkersKeepsPlainPrefix` | backend/app.py:101 | Removing the markers leaves a stretch of text without any "```" unchanged |
| `Extraction.BlockInterior` | services/aiService.ts:94 | Removing the markers from a matched block leaves exactly the text strictly between the opener and the closing fence |
| `Extraction.FenceStage` | services/aiService.ts:92-96 | The fenced stage of both extractors (backend/app.py:99-104): a result, when there is one, is no longer than the reply; the `Extract*` lemmas of each twin state which block it comes from |
| `Extraction.CloseFrom` | services/aiService.ts:99-109 | The depth scan from a position stops at the first later position where the brace depth returns to 0, or runs to the end when it never does |
| `Extraction.BalancedObject` | services/aiService.ts:99-110 | The scan's result starts at the first `{`; every proper non-empty prefix has depth above 0, and it either ends where the depth is 0 or is the whole rest of the text |
| `Extraction.BraceStage` | services/aiService.ts:97-110 | The scan yields nothing exactly when the text has no `{`, and otherwise starts at the first `{` |
| `Extraction.BraceStageOfObject` | services/aiService.ts:99-107 | A balanced object given on its own is returned whole by the scan |
| `Text.Trim` | services/aiService.ts:94 | The trimmed text starts and ends with non-whitespace, and is empty exactly when the text is all whitespace |
| `Text.TrimIsSlice` | backend/app.py:101 | Trimming only cuts whitespace off the two ends: the result is a slice of the text with only whitespace before and after it |
| `Text.TrimPadded` | backend/app.py:101 | Trimming whitespace padding around a core that starts and ends with non-whitespace gives the core |
| `Text.IsJsWhitespace` | services/aiService.ts:94 | The characters `String.prototype.trim` removes: tab to carriage return (U+0009-U+000D), space, U+00A0, U+1680, U+2000-U+200A, U+2028, U+2029, U+202F, U+205F, U+3000 and U+FEFF |
| `Text.IsPyWhitespace` | backend/app.py:101 | The characters `str.strip()` removes (`str.isspace()`): tab to carriage return, U+001C-U+001F, space, U+0085, U+00A0, U+1680, U+2000-U+200A, U+2028, U+2029, U+202F, U+205F and U+3000, but not U+FEFF |
| `AiService.ExtractFirstJson` | services/aiService.ts:91-111 | The extracted JSON is never longer than the reply |
| `AiService.ExtractTagged` | services/aiService.ts:92-96 | With a json-tagged block (ASCII case-insensitive), the result is the trimmed text between the first such tag and the first "```" after it |
| `AiService.ExtractBare` | services/aiService.ts:92-96 | Without a json-tagged block, the first bare "```" block is used the same way |
| `AiService.ExtractPlain` | services/aiService.ts:97-98 | With no block and no `{`, the reply is returned unchanged |
| `AiService.ExtractBraces` | services/aiService.ts:97-110 | With no block, the result is the text from the first `{`: the first balanced object, or the whole rest of the text when the depth never returns to 0 |
| `AiService.ExtractWrappedObject` | services/aiService.ts:92-107 | A balanced object without backticks, wrapped in a json-tagged block on lines of its own, is returned whole |
| `AiService.ExtractBareObject` | services/aiService.ts:97-107 | The same object on its own is also returned whole |
| `AiService.ParseAndValidateGraph` | services/aiService.ts:210-222 | A missing `nodes` or `edges` key is an error; otherwise the nodes are returned unchanged and every edge joins two node ids |
| `AiService.ValidatedEdges` | services/aiService.ts:213-219 | The kept edges are exactly the raw edges whose endpoints are both node-id strings, in their original order, each reduced to source, target and relation |
| `AiService.ValidateIdempotent` | services/aiService.ts:210-222 | Validating a validated graph again gives the same graph |
| `AiService.RevalidateClean` | services/aiService.ts:210-222 | A graph whose edges all join node ids and carry no `id` passes validation unchanged |
| `AiService.JsString` | services/aiService.ts:173 | `String()` of a string is the string itself, and of an empty array is "" |
| `AiService.NormalizeVerification` | services/aiService.ts:168-174 | Missing or `null` scores become 0 and an integer score is kept; non-array feedback and missing entities become empty and array fields pass through; a missing or `null` suggestion becomes "", a string suggestion is kept and any other value is converted by `String` |
| `AiService.NormalizeRoundTrip` | services/aiService.ts:168-174 | A report written out in full normalises back to itself |
| `AiService.NormalizeEmpty` | services/aiService.ts:168-174 | An empty reply object gives the all-default report |
| `Backend.ExtractFirstJson` | backend/app.py:98-117 | The extracted JSON is never longer than the reply |
| `Backend.ExtractTagged` | backend/app.py:99-101 | A json-tagged block takes priority; the result is its interior, stripped |
| `Backend.ExtractBare` | backend/app.py:102-104 | Without one, the first bare block's interior, stripped |
| `Backend.ExtractPlain` | backend/app.py:105-107 | With no block and no `{`, the result is the stripped reply |
| `Backend.ExtractBraces` | backend/app.py:108-117 | With no block, the first balanced object from the first `{`, or the rest of the text when the depth never returns to 0 |
| `Backend.TwinsAgreeOnBraces` | backend/app.py:105-117 | On a reply without backticks that holds a `{`, both implementations give the same result |
| `Backend.TwinsDifferOnPlainText` | backend/app.py:105-107 | Without backticks and braces, the two differ exactly when the reply has Python whitespace at either end |
| `Backend.TwinsDifferOnLongS` | backend/app.py:99-101 | A block tagged "```jſon" is json-tagged for Python, which returns the object, but bare for TypeScript, which keeps the tag's letters in front of it |
| `Backend.Resolve` | backend/app.py:124-129 | A string endpoint stays, an object endpoint becomes its `id` (absent when it has none), and anything else is absent; what this means for the edges kept is stated by `Backend.ObjectEndpointsResolve` and `Backend.ValidatedEdges` |
| `Backend.ValidateGraph` | backend/app.py:119-132 | Missing keys read as empty lists; the nodes are kept, every kept edge joins two node ids and carries a relation |
| `Backend.ValidatedEdges` | backend/app.py:123-131 | The kept edges are exactly those whose resolved endpoints are both node ids, in order, with the relation defaulting to "" and the `id` kept |
| `Backend.MissingKeys` | backend/app.py:120-123 | Without a `nodes` key every edge is dropped; without an `edges` key there are no edges |
| `Backend.ValidateIdempotent` | backend/app.py:119-132 | Validating a validated graph again gives the same graph |
| `Backend.RevalidateClean` | backend/app.py:119-132 | A graph whose edges all join node ids and carry a relation passes validation unchanged |
| `Backend.ObjectEndpointsResolve` | backend/app.py:126-130 | An edge given with object endpoints is kept exactly when the same edge given with strings is, and yields the same edge |
| `Backend.TwinsDifferOnObjectEndpoints` | backend/app.py:126-130 | An edge with object endpoints naming two node ids is kept by Python and dropped by TypeScript |
| `Backend.IntOrZero` | backend/app.py:227-228 | A missing score gives 0, an integer score gives itself, and a `null` score is an error |
| `Backend.Truthy` | backend/app.py:229-231 | Python truthiness as `or` reads it: `None`, `False`, 0, the empty string, the empty list and the empty dict are falsy, everything else truthy |
| `Backend.OrDefault` | backend/app.py:229-231 | A truthy value passes through; a missing or falsy one becomes the default; `Backend.NormalizeDefaults` states this field by field for the report |
| `Backend.NormalizeVerify` | backend/app.py:226-232 | The request fails exactly when a score is `null` |
| `Backend.NormalizeDefaults` | backend/app.py:226-232 | Missing scores become 0 and present integer scores are kept; falsy or missing lists become `[]` and a falsy or missing suggestion ""; truthy feedback, missing entities and suggestions pass through |
| `Backend.TwinsAgreeOnFullReport` | backend/app.py:226-232 | On a report written out in full, both normalisations give the same report back |
| `Backend.TwinsDifferOnNullScore` | backend/app.py:227 | A `null` score reads as 0 in TypeScript and fails the request in Python |
| `Backend.TwinsDifferOnTextFeedback` | backend/app.py:229 | A non-empty string as feedback becomes `[]` in TypeScript and passes through in Python |
| `Types.NodeIds` | services/aiService.ts:212 | The id set holds exactly the ids of the nodes; `AiService.ValidatedEdges` and `Backend.ValidatedEdges` state the membership test against it |
| `FileService.Classify` | services/fileService.ts:65-85 | PDF when the MIME type is `application/pdf` or the lower-cased name ends in `.pdf`; HTML only when not PDF and the type is `text/html` or the name ends in `.html`/`.htm`; plain only when neither and the type is `text/markdown`, the name ends in `.md`/`.markdown`, or the type starts with `text/`; otherwise unsupported |
| `FileService.ClassifyIgnoresCase` | services/fileService.ts:65 | Upper-casing the name never changes the file's kind |
| `FileService.TxtNeedsTextMime` | services/fileService.ts:76-85 | A `.txt` name with a MIME type that is neither a text type nor PDF is rejected |
| `FileService.PdfText` | services/fileService.ts:12-23 | Zero pages give the empty text |
| `FileService.ExtractTextFromPdf` | services/fileService.ts:9-24 | The loop over pages 1..n builds the text that page-by-page assembly defines |
| `FileService.PdfTextPrefix` | services/fileService.ts:14-21 | The text of the first k pages begins the whole text, and page k+1's block, "\n--- Page k+1 ---\n" and its items joined by spaces, follows it directly |
| `FileService.ProcessFile` | services/fileService.ts:63-90 | Every failure carries the same message; an unsupported file fails; each kind succeeds exactly when its reader does, with the reader's text |
| `FileService.ProcessFileIgnoresCase` | services/fileService.ts:63-90 | Upper-casing the file name changes neither the reader chosen nor the outcome, since the name is lower-cased before every test |
| `App.OrElse` | components/InputSection.tsx:41 | JavaScript's logical or of a string and a fallback is the fallback when the string is empty and the string itself otherwise, so it is never empty when the fallback is not; the form's focus and a failed generation's message both default this way |
| `App.BeginVerify` | App.tsx:34-38 | Verifying without source text or nodes changes nothing and makes no call; otherwise it calls with the text and graph, in the verifying status, with dialog and panel closed |
| `App.Begin` | App.tsx:18-84 | A handler that issues a call leaves the state processing, verifying or optimizing; one that does not leaves the status alone, except dismissing the error, which sets it idle |
| `App.Finish` | App.tsx:24-48 | A returning call ends in success or error; error exactly when the call failed, and then with a message, the graph and the report unchanged |
| `App.Enabled` | App.tsx:105-186 | Which control can be used: the form's submit button unless generating or optimising or the text is blank (components/InputSection.tsx:129), the verify button when the graph has nodes and no verification or optimisation runs (line 119), the dialog's buttons while it is open (line 142), the panel's while it is shown with a report, the error overlay's in the error status (line 185); an overlay that only covers a control does not disable it here |
| `App.Step` | App.tsx:18-84 | One whole handler, its call answered: a status is never left busy when a call was made (success or error), and otherwise it is idle, success, error or unchanged |
| `App.GenerateOutcome` | App.tsx:18-31 | Generate records the text and clears the report and panel; success installs the graph, failure keeps the old graph and shows the message |
| `App.VerifyWithReportAsks` | App.tsx:51-58 | With a report present, the verify button only opens the confirm dialog and makes no call |
| `App.VerifyGuard` | App.tsx:35 | Verifying without source text or nodes does nothing |
| `App.VerifyOutcome` | App.tsx:34-48 | A verification that runs stores the report and opens the panel on success; on failure it ends in error with the "验证失败: " prefix, graph and previous report unchanged |
| `App.OptimizeGuard` | App.tsx:66 | Optimizing without source text, without a report, or while optimizing does nothing |
| `App.OptimizeOutcome` | App.tsx:65-84 | Optimizing sends the report's suggestions; success installs the graph and drops report and panel; failure ends in error with the "优化失败: " prefix, graph and report unchanged |
| `App.LocalActions` | App.tsx:60-63 | Showing the report, cancelling the dialog, closing the panel and dismissing the error change only the fields they name |
| `App.StepInv` | App.tsx:18-84 | Every whole action keeps a settled status, a message when in error and none when idle, and a report only with a non-empty text and graph |
| `App.InFlightBlocksRepeat` | App.tsx:105 | Right after a handler issues its call, the control that started it is disabled or hidden |
| `App.GenerateTwiceInFlight` | App.tsx:18-20 | With a graph that has nodes and no report, a generation, then a verification, leave the form enabled, and a second generation is issued while the first is outstanding |
| `App.VerifyTwiceInFlight` | App.tsx:34-36 | With a graph that has nodes and no report, a verification, then a generation, leave the verify button enabled, and a second verification is issued with the new text |
| `App.VerifyDuringGenerate` | App.tsx:119 | During a generation started with no dialog open, the verify button stays enabled when the old graph has nodes, and it sends the new text with the old graph |
| `App.StaleConfirmDialog` | App.tsx:18-23 | Pressing verify over a report opens the confirm dialog while the form still accepts a submission; a generation submitted then leaves the dialog open with no report, and its "show" button opens a panel that is not drawn |

## Left out

- The network: the chat-completion calls, the prompts, the FastAPI routes, the OpenAI client and the environment loading. The model starts from the reply text or from the parsed value.
- `JSON.parse` and `json.loads`. Replies are modelled as already-parsed values (`Types.RawGraph`, `Types.RawVerification`, `Types.Value`).
- `Number()` and `int()` of strings and floats. Scores are integers or `null`. Numbers inside arrays are integers.
- Pydantic's validation of node records. A `null` or non-string `relation` on an edge fails validation in Python and is not modelled; the model's edge relations are strings or absent. An edge `id` is a string or absent, and an absent or `null` one is kept as absent, as `Optional[str]` allows.
- Node ids other than strings. `GraphNode.id` is a string, so an edge whose endpoints are numbers is always dropped (`AiService.IsNodeRef`); TypeScript's `Set.has` would keep numeric endpoints that equal numeric node ids.
- JSON numbers beyond what both runtimes hold exactly. Numbers are unbounded integers shared by both twins; JavaScript reads JSON numbers as doubles, which lose precision beyond 2^53 and which `String` writes in exponent form from 1e21, while Python keeps them exact. `Backend.TwinsAgreeOnFullReport` holds under this shared reading.
- A `null` `nodes` or `edges` value, and a list given as an edge endpoint (unhashable in Python's `in` test). Keys are either present with the expected shape or missing.
- The D3 fields of nodes and edges, and an edge endpoint that the force layout has replaced by a node object. components/ForceGraph.tsx is not part of this model.
- The readers themselves: pdfjs, DOMParser with `textContent`, and FileReader. Their outcomes are parameters of `FileService.ProcessFile`, and a PDF is given as its pages' text items.
- The JSON download, the rendering and vite.config.ts.
- Overlapping calls beyond what the two-part handlers (`App.Begin`, `App.Finish`) express. Whole actions are `App.Step`; the file reader's busy flag on the input form is not modelled.
- `App.Finish`: the error branches of verify and optimize set the success status and then the error status in the same handler; only the final status is modelled.
- `Text.Lower`: JavaScript's `toLowerCase` is modelled only for the characters whose lower case is ASCII (A-Z and the Kelvin sign). No other character can change whether a name ends in one of the extensions `processFile` looks for.
- An error object without a `message`. The error's message is always a string here.
