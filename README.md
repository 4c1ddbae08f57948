# Medical report analysis — a verified model

This project models the logic of a medical-report analyser in Dafny. That logic lives in two AWS Lambda functions and a React client:

- **PDF-to-Markdown lambda.** It sends an uploaded PDF to AWS Textract. It then rewrites Textract's `Blocks` as a Markdown document: a title, a "Form Data" section with one line per key/value pair, and a "Tables" section with each table rebuilt as a grid. Its handler answers CORS preflights and rejects content that is not base64.
- **Analysis lambda.** It validates a JSON request and builds two prompts from the report and the patient's details. It asks Gemini for each, and reads the answer out of Gemini's reply. When the answer cannot be read, it falls back to the dump of the whole reply.
- **Home page.** It keeps the uploaded file, the converted report, the patient form, two analysis results and two busy flags. Analysis is gated on the report and the age.
- **Form and upload components.** The patient form updates one field at a time. The upload component decides which dropped or picked file is handed on.
- **Chatbot.** Its transcript only grows, it has a loading flag, and it builds a fixed prompt around the summary and the question.

Modules:

- `Wrappers`: `Option` and `Result`.
- `Strings`: Python's `strip`, JavaScript's `trim`, `join`, and number rendering.
- `TextractSpec`: blocks, and the converter as functions. Each exception the modelled code can raise is an `Err` carrying its `str(e)`.
- `TextractParse`: the converter's loops as methods, each proved equal to `TextractSpec`.
- `TableProperties` and `TextractProperties`: what the converter guarantees.
- `PdfHandler`: the first lambda's handler.
- `Gemini`: JSON values, `call_gemini`'s request and reply paths.
- `ReportAnalysis`: the second lambda.
- `PatientForm`, `FileUpload`.
- `Home`: class `HomePage`.
- `Chat`: class `Chatbot`.
- `LambdaEvents`: the event fields the handlers read.

The services are parameters: the base64 decoder, Textract, `json.loads`, and the HTTP exchange with Gemini. Each returns `Ok` or `Err(str(e))`. "The service is not called" is stated as "the reply is the same for any two services". The client's network requests are split at their `await`. A start method returns the request it would post. A completion method takes the outcome as a parameter.

## Model

| member | source | states |
|---|---|---|
| TextractParse.GetTextFromRelationships | lambda/process-pdf-with-textract/lambda_function.py:116-125 | The loop computes the words-of-children text as specified (`WordText`), including its `KeyError('Text')`. |
| TextractProperties.WordTextIs | lambda/process-pdf-with-textract/lambda_function.py:116-125 | The text is the `Text` of the CHILD-related WORD blocks, in id order, joined by single spaces and stripped. Missing ids and non-WORD children are skipped. |
| TextractProperties.WordTextWithoutRelationships | lambda/process-pdf-with-textract/lambda_function.py:119 | A block without `Relationships` has the text "". |
| TextractParse.GetValueText | lambda/process-pdf-with-textract/lambda_function.py:106-114 | The loop computes `ValueText`, including the exceptions of a missing or wordless value block. |
| TextractProperties.ValueTextIs | lambda/process-pdf-with-textract/lambda_function.py:106-114 | The value text is the texts of the VALUE-related blocks, in id order, joined by spaces and stripped. |
| TextractProperties.ValueTextMissingId | lambda/process-pdf-with-textract/lambda_function.py:112-113 | A VALUE id naming no block raises the `None.get` AttributeError. |
| TextractProperties.ValueTextWordError | lambda/process-pdf-with-textract/lambda_function.py:112-113 | A VALUE block whose own words raise makes `get_value_text` raise that same exception. |
| TextractProperties.BlockMapLaterWins | lambda/process-pdf-with-textract/lambda_function.py:73 | A block is in `block_map` under its id unless a later block has the same id. |
| TextractProperties.BlockMapDomain | lambda/process-pdf-with-textract/lambda_function.py:73 | The keys of `block_map` are exactly the blocks' ids. |
| TextractParse.CollectRows | lambda/process-pdf-with-textract/lambda_function.py:129-138 | The first loop of `reconstruct_table` builds the `rows` dict of the resolved cells, or raises what the step raises. |
| TextractParse.FillGrid | lambda/process-pdf-with-textract/lambda_function.py:142-144 | The write loop computes `Fill`, including the IndexError for an index outside the grid. |
| TextractParse.ReconstructTable | lambda/process-pdf-with-textract/lambda_function.py:127-145 | The method returns exactly `Table(t, m)`. |
| TableProperties.RowsOfCells | lambda/process-pdf-with-textract/lambda_function.py:136-138 | `rows` holds a text at (r, c) exactly when some resolved cell is at (r, c). |
| TableProperties.PutCellWrites | lambda/process-pdf-with-textract/lambda_function.py:136-144 | Storing a cell in the dict and then filling equals filling and then writing that cell. So a later cell at the same (r, c) wins. |
| TableProperties.PutTwice | lambda/process-pdf-with-textract/lambda_function.py:144 | Of two writes to one position the later wins. |
| TableProperties.PutCommute | lambda/process-pdf-with-textract/lambda_function.py:144 | Writes to different positions commute. |
| TableProperties.ReconstructedGrid | lambda/process-pdf-with-textract/lambda_function.py:127-145 | With 1-based indices: no cell gives `[]`. Otherwise the grid has max RowIndex rows of max ColumnIndex cells, (r, c) holds the last cell's text at `[r-1][c-1]`, and every other position is "". |
| TableProperties.ReconstructedRectangular | lambda/process-pdf-with-textract/lambda_function.py:140-141 | Every row of a rebuilt table has as many cells as the first. |
| TableProperties.MaxRowKey | lambda/process-pdf-with-textract/lambda_function.py:141 | `max(rows.keys())` is the largest RowIndex among the cells. |
| TableProperties.BlankShape | lambda/process-pdf-with-textract/lambda_function.py:141 | The pre-sized grid has the given number of rows, each a row of "" of the given width. |
| TextractParse.AppendFormData | lambda/process-pdf-with-textract/lambda_function.py:78-84 | The loop appends exactly the form section `FormLines`, or raises its exception. |
| TextractProperties.FormLinesLayout | lambda/process-pdf-with-textract/lambda_function.py:78-84 | The form section is "## Form Data\n", then one `- **key:** value` line per key block in order, then "\n". |
| TextractParse.AppendGrid | lambda/process-pdf-with-textract/lambda_function.py:95-102 | The lines a non-empty table adds are the header, the separator, the remaining rows and "\n". |
| TextractProperties.GridLinesLayout | lambda/process-pdf-with-textract/lambda_function.py:95-102 | The separator has one `---` cell per header cell, then the rows follow, then "\n". |
| TextractParse.AppendSection | lambda/process-pdf-with-textract/lambda_function.py:91-102 | A table adds `### Table n`, and its rows only when the grid and its first row are non-empty. |
| TextractParse.AppendTables | lambda/process-pdf-with-textract/lambda_function.py:87-102 | The loop appends exactly the tables section `TableLines`, or raises its exception. |
| TextractProperties.SectionsHeadings | lambda/process-pdf-with-textract/lambda_function.py:90-91 | The table headings are `### Table 1` … `### Table n`, in block order, one per TABLE block, empty tables included. |
| TextractParse.ParseTextractResponse | lambda/process-pdf-with-textract/lambda_function.py:68-104 | The imperative converter returns exactly `Markdown(blocks)`. |
| TextractProperties.MarkdownStartsWithTitle | lambda/process-pdf-with-textract/lambda_function.py:74-104 | A converted document begins with "# Document Analysis\n". |
| TextractProperties.FormHeadingPresent | lambda/process-pdf-with-textract/lambda_function.py:77-79 | "## Form Data\n" is a line exactly when some KEY_VALUE_SET block lists KEY. |
| TextractProperties.TablesHeadingPresent | lambda/process-pdf-with-textract/lambda_function.py:87-89 | "## Tables\n" is a line exactly when some TABLE block exists. |
| TextractProperties.DocumentHeadings | lambda/process-pdf-with-textract/lambda_function.py:74-104 | The first line is the title, and the document's `### ` lines are exactly the numbered table headings. |
| TextractProperties.DocumentParts | lambda/process-pdf-with-textract/lambda_function.py:72-104 | The document is the title, then the form section, then the tables section. |
| TextractProperties.KeysInNonEmpty | lambda/process-pdf-with-textract/lambda_function.py:77 | There is a key block exactly when some block is a KEY_VALUE_SET with KEY. |
| TextractProperties.TableBlocksNonEmpty | lambda/process-pdf-with-textract/lambda_function.py:87 | There is a table block exactly when some block has type TABLE. |
| TextractSpec.CollectErrAt | lambda/process-pdf-with-textract/lambda_function.py:80-83 | The first element that raises decides the exception of the whole loop. |
| TextractSpec.PyIndex | lambda/process-pdf-with-textract/lambda_function.py:144 | Python list indexing accepts exactly `-len <= k < len`. It gives `k` for a non-negative index and `k + len` for a negative one, so a negative index counts from the end. |
| Strings.TrimBoth | lambda/process-pdf-with-textract/lambda_function.py:114-125 | `strip()` gives a result that neither begins nor ends with whitespace. The result is "" exactly when the input is all whitespace. |
| Strings.TrimBothSlice | lambda/process-pdf-with-textract/lambda_function.py:114-125 | `strip()` gives a slice of the input, and everything outside the slice is whitespace. |
| PdfHandler.Handle | lambda/process-pdf-with-textract/lambda_function.py:12-66 | Preflight gives 200 and "". Non-base64 gives 500 with the ValueError. A missing body gives 500 with KeyError 'body'. Otherwise the status is 200 or 500, and 500 exactly with an error body. |
| PdfHandler.ServicesNotCalled | lambda/process-pdf-with-textract/lambda_function.py:15-32 | Preflight, non-base64 content and a missing body never reach the decoder or Textract. |
| PdfHandler.ConvertedReply | lambda/process-pdf-with-textract/lambda_function.py:32-53 | 200 exactly when every step succeeds, with the Markdown as plain body. |
| PdfHandler.FailureReplies | lambda/process-pdf-with-textract/lambda_function.py:32-66 | Each failing step (decode, Textract, missing `Blocks`, each converter exception) gives 500 with its own `str(e)`. |
| Gemini.Request | lambda/medical-report-analysis/lambda_function.py:99-107 | The posted body holds the prompt at `contents[0].parts[0].text`. |
| Gemini.RequestInjective | lambda/medical-report-analysis/lambda_function.py:99-107 | The body determines the prompt. |
| Gemini.FollowNest | lambda/medical-report-analysis/lambda_function.py:99-112 | Reading back a nested value along its path returns it. |
| Gemini.CallGemini | lambda/medical-report-analysis/lambda_function.py:98-114 | An HTTP or status error propagates. A successful reply always gives an answer. |
| Gemini.AnswerOf | lambda/medical-report-analysis/lambda_function.py:111-114 | The answer is the value at `candidates[0].content.parts[0].text`, or the dump of the whole reply when that path raises. |
| Gemini.CandidateText | lambda/medical-report-analysis/lambda_function.py:112 | A reply with text `t` at the path answers `t`. |
| Gemini.NoCandidates | lambda/medical-report-analysis/lambda_function.py:113-114 | A reply with an empty candidate list falls back to the dump. |
| ReportAnalysis.Get | lambda/medical-report-analysis/lambda_function.py:133-134 | `.get` succeeds only on a dict and returns the value or the default. |
| ReportAnalysis.Lookup | lambda/medical-report-analysis/lambda_function.py:37-40 | `d[key]` succeeds exactly for a dict holding the key. A missing key raises `KeyError(key)`. |
| ReportAnalysis.FillEmbeds | lambda/medical-report-analysis/lambda_function.py:34-40 | Each value of an f-string sits verbatim in its hole. |
| ReportAnalysis.FillInjective | lambda/medical-report-analysis/lambda_function.py:34-40 | The filled text and the values' lengths determine the values. |
| ReportAnalysis.DollarBeforeHole | lambda/medical-report-analysis/lambda_function.py:34-40 | Every hole is preceded by the literal `$` of `${...}`. |
| ReportAnalysis.PromptValues | lambda/medical-report-analysis/lambda_function.py:34-40 | The five values are the report, age, gender, weight and symptoms. A missing key raises its KeyError, checked in the order age, gender, weight, symptoms. |
| ReportAnalysis.SummaryParts | lambda/medical-report-analysis/lambda_function.py:33-40 | The summary prompt's text between the values is exact, and "kg" follows the weight. |
| ReportAnalysis.BiomarkerParts | lambda/medical-report-analysis/lambda_function.py:55-62 | The same for the biomarker prompt's text. |
| ReportAnalysis.SummaryEmbedsInputs | lambda/medical-report-analysis/lambda_function.py:8-44 | The summary prompt holds each input verbatim after a `$`, with "kg" after the weight. |
| ReportAnalysis.BiomarkerEmbedsInputs | lambda/medical-report-analysis/lambda_function.py:46-96 | The biomarker prompt holds each input verbatim after a `$`, with "kg" after the weight. |
| ReportAnalysis.PromptsFailTogether | lambda/medical-report-analysis/lambda_function.py:8-96 | Both prompts succeed or fail together, with the same KeyError. |
| ReportAnalysis.Handle | lambda/medical-report-analysis/lambda_function.py:116-165 | Preflight gives 200 and a blank body. The status is 200, 400 or 500. 400 always carries "Missing report_content or patient_details". 500 carries an error. A non-preflight 200 carries the two analyses. |
| ReportAnalysis.GeminiNotCalled | lambda/medical-report-analysis/lambda_function.py:120-141 | Preflight and empty inputs never reach Gemini. Empty inputs give the 400 reply. |
| ReportAnalysis.BadRequestExactly | lambda/medical-report-analysis/lambda_function.py:132-141 | 400 exactly when the body decodes to a dict whose `report_content` or `patient_details` is missing or falsy. |
| ReportAnalysis.AnalysisReply | lambda/medical-report-analysis/lambda_function.py:143-153 | A 200 reply carries `patient_summary` from the summary prompt and `patient_biomakers_trends` from the biomarker prompt. |
| ReportAnalysis.ErrorReplies | lambda/medical-report-analysis/lambda_function.py:131-165 | A body that does not parse, a non-dict body, a missing patient key and a Gemini failure each give 500 with that exception's message. |
| PatientForm.Set | web/src/components/PatientForm.tsx:15-18 | The edited field holds the value and the other fields are copied. |
| PatientForm.HandleInputChange | web/src/components/PatientForm.tsx:14-19 | `onDataChange` is called exactly once, with field `f` set to the value verbatim and the other three copied. |
| PatientForm.ChangeIdempotent | web/src/components/PatientForm.tsx:14-19 | Applying the same change twice gives the record that applying it once gives. |
| PatientForm.ChangeToSameValue | web/src/components/PatientForm.tsx:14-19 | Re-typing a field's current value changes nothing. |
| PatientForm.ChangesCommute | web/src/components/PatientForm.tsx:14-19 | Edits of different fields commute. For one field, the later edit wins. |
| FileUpload.HandleDrop | web/src/components/FileUpload.tsx:12-18 | At most one upload. It happens exactly when the first dropped file's type is exactly `application/pdf`, and the file passed is that first file. |
| FileUpload.HandleFileSelect | web/src/components/FileUpload.tsx:20-25 | A null or empty list forwards nothing. Otherwise `files[0]` is forwarded with no type check. |
| FileUpload.DropLooksAtFirstOnly | web/src/components/FileUpload.tsx:15 | Files after the first never affect a drop. |
| FileUpload.LaterPdfIgnored | web/src/components/FileUpload.tsx:15 | A non-PDF first file blocks the drop even when a later file is a PDF. |
| FileUpload.DropIgnoresProcessing | web/src/components/FileUpload.tsx:12-47 | The picker is disabled while processing, but a drop does not consult `isProcessing`. |
| FileUpload.SelectSkipsTypeCheck | web/src/components/FileUpload.tsx:15-23 | The picker forwards what a drop would, without the type check. |
| Home.HomePage.constructor | web/src/pages/home.tsx:15-26 | No file, an empty patient record, an empty report and results, and both flags false. |
| Home.GateIgnoresOtherFields | web/src/pages/home.tsx:106 | Gender, weight and symptoms never open or close the analysis gate. |
| Home.GateFollowsAge | web/src/pages/home.tsx:106 | With a report present, the gate is open exactly when the age is non-empty. |
| Home.HomePage.EditPatientField | web/src/pages/home.tsx:101 | Only `patientData` changes, to the form's updated record. |
| Home.HomePage.StartUpload | web/src/pages/home.tsx:29-30 | The file is stored and `isProcessing` is set. Nothing else changes. |
| Home.HomePage.CompleteUpload | web/src/pages/home.tsx:43-54 | A success replaces the report text and a failure keeps it. `isProcessing` ends false. Results and patient data are unchanged. |
| Home.HomePage.StartAnalysis | web/src/pages/home.tsx:57-71 | With the gate closed, nothing changes and nothing is posted. Otherwise `isAnalyzing` is set and the report and patient data are posted verbatim. |
| Home.HomePage.CompleteAnalysis | web/src/pages/home.tsx:72-85 | A reply sets both results together, and a failure sets neither. `isAnalyzing` ends false. |
| Home.UploadThenAnalyse | web/src/pages/home.tsx:28-106 | After an upload and an age edit, a request is posted exactly when the converted text and the age are non-empty, and it carries them. |
| Home.ResultsSurviveReupload | web/src/pages/home.tsx:28-85 | A second upload whose analysis fails leaves the first results in place next to the new report. |
| Chat.ChatPrompt | web/src/components/chatbot.tsx:46 | The prompt is the fixed instruction text with the summary and then the question, each verbatim at a fixed place. |
| Chat.ChatPromptInjective | web/src/components/chatbot.tsx:46 | For one summary, different questions give different prompts. |
| Chat.ChatBody | web/src/components/chatbot.tsx:41-51 | The posted body holds the prompt at `contents[0].parts[0].text`. |
| Chat.ChatBodyInjective | web/src/components/chatbot.tsx:41-51 | For one summary, the posted body determines the question. |
| Chat.JsSubscript | web/src/components/chatbot.tsx:59 | An optional link yields a key's value only on an object holding the key. |
| Chat.JsFollowExtendsPython | web/src/components/chatbot.tsx:59 | Wherever Python's subscripts find a value, the optional chain finds the same one. |
| Chat.ReplyText | web/src/components/chatbot.tsx:58-73 | The shown text is never falsy. It is the value at the path, or "Sorry, I could not generate a response.". A truthy value at the path is always shown itself. A `null` reply throws and gives the error message. |
| Chat.ReplyOfCandidate | web/src/components/chatbot.tsx:59 | A reply with text `t` shows `t`, or the fallback when `t` is empty. |
| Chat.ReplyAgreesWithLambda | web/src/components/chatbot.tsx:59 | The client shows what `call_gemini` would extract from the same reply, whenever that text is non-empty. |
| Chat.BotMessage | web/src/components/chatbot.tsx:54-77 | The appended entry is a bot entry, never blank. Any failure gives the API-key error text. |
| Chat.Chatbot.Send | web/src/components/chatbot.tsx:21-52 | Blank input after trimming changes nothing. Otherwise exactly the untrimmed text is appended as a user entry, the input is cleared and loading starts. The transcript stays alternating. |
| Chat.Chatbot.Complete | web/src/components/chatbot.tsx:54-80 | Exactly one bot entry is appended and loading ends. The transcript stays alternating, with a pending reply exactly while loading. |
| Chat.Chatbot.TypeInput | web/src/components/chatbot.tsx:141-146 | Typing, possible only while the input is enabled, changes only the input. |
| Chat.Exchange | web/src/components/chatbot.tsx:21-150 | One serialised send adds the user entry and then its reply. |
| Chat.Conversation | web/src/components/chatbot.tsx:17-150 | Serialised sends from an empty chat produce exactly `Transcript(questions, outcomes)`. |
| Chat.TranscriptShape | web/src/components/chatbot.tsx:24-77 | Entry 2i is question i and entry 2i+1 is its reply, so the transcript alternates user, bot, … starting with a user entry. |
| Chat.AlternatesSnoc | web/src/components/chatbot.tsx:31-77 | Appending an entry of the party whose turn it is keeps the alternation. |

## Left out

- Network, AWS and clock: `fetch`, `requests.post`, Textract and `file.arrayBuffer()` are parameters or outcomes. `alert`, `console.error`, `print`, `Date.now()` ids and timestamps are not modelled.
- Library code: base64 decoding, `json.loads`, `response.json()` and `JSON.stringify`. Each is modelled only as success, or failure with its message. `json.dumps` output is a symbolic datatype (`Dumped`, `ErrorObject`, `Analysis`), not text.
- `str()` of a non-string JSON value in the analysis prompts is the parameter `show`, because Python's repr of dicts and lists is not modelled.
- Prompt wording: the instruction prose of the two analysis prompts is a parameter (`ReportAnalysis.Prose`). Only the text between the inserted values is exact. The chatbot prompt is exact.
- CORS headers, `Content-Type` headers, environment URLs and the API key are not modelled.
- The `requestContext.http.method` lookup is reduced to one optional method field of the event.
- An event whose `body` key is present but `None` is not modelled, because `Event.body` is absent or a string. Python would raise a TypeError in `json.loads(None)` or `b64decode(None)` there.
- JSON numbers are integers. Floating-point values and NaN are not modelled.
- Rendering: ReportDisplay.tsx, AnalysisSection.tsx, main.tsx and all JSX/Markdown display branches are not part of this model. The Chatbot component is not mounted by any file that is part of this model.
- Async interleaving and React batching are not modelled. Each handler is a start step and a completion step. `Chat.Chatbot.Complete` requires a pending send, and overlapping sends are not modelled, because the disabled input and button prevent them.
- Home.HomePage.CompleteAnalysis: the reply's `patient_summary` and `patient_biomakers_trends` are taken as strings. A reply missing them, which would store `undefined`, is not modelled.
- The page does not discard stale responses, keep the two results independent, or clear results on a new upload. The model follows the code and states what it does instead (`Home.ResultsSurviveReupload`).
- Chat.Chatbot.Send: its result is the request's data (`ChatRequest`). The JSON body it posts is `ChatBody` of that data.
- `handleKeyPress` is modelled as the same `Send`. The Enter/Shift key test is not modelled.
- Textract blocks always carry `Id`, `BlockType` and, on each relationship, `Type` and `Ids`, and a `Text` is always a string. So these exceptions of lambda/process-pdf-with-textract/lambda_function.py are not modelled: `KeyError('Id')` at line 73, `KeyError('BlockType')` at line 77, `KeyError('Type')` at lines 110 and 121, `KeyError('Ids')` at lines 111 and 122, and the TypeError of a non-string `Text` at line 124.
- Both handlers read the method with `event.get(...).get(...)` before their `try`. An event whose `requestContext` is not a dict would crash the handler instead of giving a reply. Events of that shape are not modelled.
