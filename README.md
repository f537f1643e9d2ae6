# BRSR report search: a verified model of its core

The system lets a user upload companies' BRSR (Business Responsibility and
Sustainability Report) PDFs and search them. A React page keeps the tab,
documents, results, loading flag, query, error and back-end status, and
changes them in its handlers. The page's upload form validates the chosen
file and the two text inputs. A FastAPI back end does the rest:

- it reads a catalogue CSV of companies, reporting years and attachment URLs;
- it matches uploaded PDFs to catalogue rows;
- it extracts the text (with OCR when there is none), splits it into chunks
  and embeds each chunk with its company and years;
- it stores the vectors in batches;
- it answers searches by embedding the query, fetching candidates, reranking
  them and returning the best few.

This project models that logic in Dafny, one module per source file:

- `app.dfy` and `file_upload.dfy` are the two front-end components.
- `csv_processor.dfy`, `pdf_processor.dfy`, `embed.dfy`, `vector_db.dfy` and
  `api.dfy` are the back-end files.
- `text.dfy`, `ordering.dfy`, `dicts.dfy` and `wrappers.dfy` hold the Python
  and JavaScript library behaviour those files rely on:
  - `str.strip`, `str.join`, `str(int)`, `os.path.join` and `os.path.basename`;
  - slicing with a possibly negative bound;
  - the stable `sort(reverse=True)` and `sorted(set(...))` of strings;
  - insertion-ordered dictionaries;
  - Python and JavaScript whitespace.

Anything outside the code's reach is a parameter of the model:

- the back end's replies to the page;
- the PDF text extraction, OCR and text splitter;
- the embedding model, the cross-encoder and the vector index's query;
- the catalogue's company similarities;
- `os.path.exists`.

Each handler of the two React components is modelled twice:

- a step function on a state record, whose `ensures` states what the handler
  does;
- a method of a class with the component's fields, which performs the
  handler's setter sequence and is proved to produce that step.

A ghost log records what the page sends to the back end, and what the form
passes to `onUpload`. For the page, each logged request also keeps the
loading flag and error at the moment it was sent.

Where a source function works by loops, the model has a method with that
loop, proved equal to a specification function. The lemmas about that
function state what the source promises. This covers text accumulation,
record building, batching, dictionary filling and result building.

## Behaviour of the page's handlers

Three facts about App.js that the model keeps:

- **Retry and status.** `handleRetry` (brsr-frontend/src/App.js:95-98)
  clears the error and reruns the health check. It never sets the status to
  `checking`, so the status keeps its old value until the health reply sets
  it to connected or disconnected.
- **Disconnected back end.** `handleFileUpload`, `handleSearch` and
  `loadDocuments` make no check of the status. Only the views are disabled
  while the back end is disconnected (App.js:148,157,167). `App.Upload` and
  `App.Search` therefore send their request whatever the status is.
- **Upload errors.** `handleFileUpload` rethrows the upload error
  (App.js:70), and the form shows it (FileUpload.js:83). `App.Upload`
  returns the rethrown message, and `App.UploadThroughForm` follows it into
  the form.

## Model

| member | source | states |
|---|---|---|
| App.HealthCheck | brsr-frontend/src/App.js:19-29 | a healthy reply sets status connected and clears the error; a failure sets disconnected and the fixed "Backend server is not available…" message; one health request is logged; nothing else changes |
| App.DocumentLoad | brsr-frontend/src/App.js:31-41 | the error is cleared before the request; an array reply becomes the documents, a non-array gives none; a failure empties the documents and sets "Failed to load documents. Please try again."; nothing else changes |
| App.Startup | brsr-frontend/src/App.js:46-50 | health check then document load: the status reflects the health reply, while the error reflects only the load reply; the log gains exactly the health request (with the error shown before) and then the document request (with no error), after the earlier entries; the documents follow the load reply (none on failure); the tab, results, loading flag and query are unchanged |
| App.Upload | brsr-frontend/src/App.js:60-74 | the upload is sent with loading on and no error; loading ends off whatever the outcome; success shows the documents tab, reloads the documents (the reload request follows the upload in the log, sent with loading on) and rethrows nothing, even when the reload fails; failure keeps the tab and documents, shows the message, rethrows it and sends nothing else; earlier log entries, results, query and status are untouched |
| App.Search | brsr-frontend/src/App.js:76-93 | a query that is blank after JavaScript trim changes nothing and sends nothing; otherwise the query is recorded and sent with loading on and no error; success replaces the results (non-array gives none) and shows the search tab; failure empties the results, shows the message and keeps the tab; loading ends off; documents and status are untouched |
| App.Retry | brsr-frontend/src/App.js:95-98 | the error is cleared before the health request is sent; afterwards the status is connected or disconnected as the health reply says, and the error is the health check's; only status, error and the log change |
| App.UploadThroughForm | brsr-frontend/src/App.js:60-74 | submitting a complete form logs one onUpload call; a back-end failure with a non-empty message leaves the form complete and showing that message; a success empties it |
| App.Controller.constructor | brsr-frontend/src/App.js:11-17 | tab upload, no documents or results, not loading, empty query, no error, status checking |
| App.Controller.CheckApiHealth | brsr-frontend/src/App.js:19-29 | the fields change as App.HealthCheck says |
| App.Controller.LoadDocuments | brsr-frontend/src/App.js:31-41 | the fields change as App.DocumentLoad says |
| App.Controller.Initialize | brsr-frontend/src/App.js:43-53 | the start-up effect changes the fields as App.Startup says |
| App.Controller.HandleFileUpload | brsr-frontend/src/App.js:60-74 | the fields and the rethrown message are as App.Upload says |
| App.Controller.HandleSearch | brsr-frontend/src/App.js:76-93 | the fields change as App.Search says |
| App.Controller.HandleRetry | brsr-frontend/src/App.js:95-98 | the fields change as App.Retry says |
| App.Controller.DismissError | brsr-frontend/src/App.js:125 | only the error changes, to none |
| App.Controller.SelectTab | brsr-frontend/src/App.js:134 | only the tab changes |
| FileUpload.FileCheck | brsr-frontend/src/components/FileUpload.js:47-56 | a file is accepted iff its type is application/pdf and its size is at most 52428800 bytes (so exactly 50 MiB is accepted); a wrong type gives "Please select a PDF file" whatever the size (the type is checked first); an oversized PDF gives "File size must be less than 50MB" |
| FileUpload.ValidateAndSet | brsr-frontend/src/components/FileUpload.js:47-60 | a rejected file only sets the error and keeps the chosen file; an accepted one becomes the chosen file and clears the error |
| FileUpload.Drag | brsr-frontend/src/components/FileUpload.js:13-23 | only the drag flag can change; disabled changes nothing; dragenter and dragover set it, dragleave clears it, any other event type leaves it |
| FileUpload.Drop | brsr-frontend/src/components/FileUpload.js:25-36 | the drag flag is always off afterwards, also when disabled; disabled or no files changes nothing else; otherwise the first file is validated |
| FileUpload.FileInput | brsr-frontend/src/components/FileUpload.js:38-45 | disabled or no files changes nothing; otherwise the first file is validated |
| FileUpload.FailureMessage | brsr-frontend/src/components/FileUpload.js:83 | the shown message is never empty: the thrown message, or "Upload failed" when it has none |
| FileUpload.Submit | brsr-frontend/src/components/FileUpload.js:62-85 | disabled changes nothing; a missing file, company or year only sets "Please fill in all fields" and calls no onUpload; otherwise onUpload is called once with the inputs; success resets file, company, year and error; failure keeps every input and shows the message |
| FileUpload.SubmitEnabled | brsr-frontend/src/components/FileUpload.js:218 | the button is enabled when a file, a company and a year are given and the form is neither loading nor disabled |
| FileUpload.EnabledSubmitUploads | brsr-frontend/src/components/FileUpload.js:62-85 | a click on the enabled button calls onUpload exactly once and never takes the missing-fields branch: the error is empty on success and the failure message otherwise |
| FileUpload.RemoveFile | brsr-frontend/src/components/FileUpload.js:87-95 | disabled changes nothing; otherwise only the file and the error are cleared, company and year stay |
| FileUpload.Form.constructor | brsr-frontend/src/components/FileUpload.js:6-10 | no file, empty inputs, no drag highlight, no error |
| FileUpload.Form.HandleDrag | brsr-frontend/src/components/FileUpload.js:13-23 | the fields change as FileUpload.Drag says |
| FileUpload.Form.ValidateAndSetFile | brsr-frontend/src/components/FileUpload.js:47-60 | the fields change as FileUpload.ValidateAndSet says |
| FileUpload.Form.HandleDrop | brsr-frontend/src/components/FileUpload.js:25-36 | the fields change as FileUpload.Drop says |
| FileUpload.Form.HandleFileInput | brsr-frontend/src/components/FileUpload.js:38-45 | the fields change as FileUpload.FileInput says |
| FileUpload.Form.HandleSubmit | brsr-frontend/src/components/FileUpload.js:62-85 | the fields and the onUpload log change as FileUpload.Submit says |
| FileUpload.Form.HandleRemoveFile | brsr-frontend/src/components/FileUpload.js:87-95 | the fields change as FileUpload.RemoveFile says |
| FileUpload.Form.SetCompanyName | brsr-frontend/src/components/FileUpload.js:185 | only the company input changes |
| FileUpload.Form.SetReportingYear | brsr-frontend/src/components/FileUpload.js:201 | only the year input changes |
| Text.LStrip | csv_processor.py:17-19 | the result is a suffix of the input that starts with no whitespace, and everything removed is whitespace |
| Text.RStrip | csv_processor.py:17-19 | the result is a prefix of the input that ends with no whitespace, and everything removed is whitespace |
| Text.PyStrip | pdf_processor.py:27 | str.strip() is empty exactly when the text is blank |
| Text.PyStripSlice | csv_processor.py:17-19 | str.strip() is a contiguous piece of its argument |
| Text.PyStripCut | csv_processor.py:17-19 | everything str.strip() cuts off on either side is whitespace |
| Text.PyStripEnds | csv_processor.py:17-19 | a stripped value has no whitespace at either end |
| Text.PyStripIdempotent | csv_processor.py:17-19 | stripping twice is stripping once |
| Text.PyStripUnpadded | csv_processor.py:17-19 | a stripped value is unpadded and a fixed point of strip |
| Text.JoinWith | embed.py:27 | joining one part gives that part |
| Text.WordPrefix | csv_processor.py:73 | the longest prefix without whitespace, followed by whitespace or the end |
| Text.Words | csv_processor.py:73 | `str.split()`: the maximal runs without whitespace; WordsBlank and WordsShape state it |
| Text.WordsBlank | csv_processor.py:73 | text has no words iff it is blank |
| Text.WordsShape | csv_processor.py:73 | every word is non-empty and holds no whitespace |
| Text.RStripBlankTail | csv_processor.py:73 | a blank tail does not survive rstrip |
| Text.RStripAppend | csv_processor.py:73 | rstrip of a concatenation with a non-blank right part strips only that part |
| Text.LStripBlankHead | csv_processor.py:73 | lstrip removes exactly a blank head in front of text that starts without whitespace |
| Text.ReplaceChar | pdf_processor.py:51 | same length; each occurrence of the character is replaced and every other character kept |
| Text.NatToString | pdf_processor.py:51 | str(i) is non-empty decimal digits, two or more exactly from 10 on, without a leading zero |
| Text.NatToStringInjective | pdf_processor.py:51 | different numbers print differently |
| Text.PathJoin | api.py:25 | an absolute name replaces the directory; otherwise a '/' separates a non-empty directory not ending in '/' from the name |
| Text.BasenameNoSlash | api.py:36 | the base name contains no '/' |
| Text.BasenameSuffix | api.py:40 | the base name is a suffix of the path, the whole path or preceded by '/' |
| Text.BasenameSnoc | api.py:36 | appending a character other than '/' to a path appends it to the base name |
| Text.BasenameAfterSlash | api.py:25-36 | a name without '/' after nothing or after a '/' is its own base name |
| Text.BasenameOfJoin | api.py:25 | the base name of a plain file name joined under a directory is that name |
| Ordering.PyTake | csv_processor.py:44 | `s[:k]` is a prefix of s of length min(k, len) for k ≥ 0 and len + k (at least 0) for negative k |
| Ordering.InsertDesc | csv_processor.py:43 | inserting into a list sorted by decreasing key keeps it sorted and adds exactly the element |
| Ordering.SortDesc | csv_processor.py:43 | the sorted list is a permutation of the input with non-increasing keys |
| Ordering.InsertDescStable | csv_processor.py:43 | insertion puts the element ahead of those with an equal key and keeps their order |
| Ordering.SortDescStable | csv_processor.py:43 | the sort is stable: elements with equal keys keep their input order |
| Ordering.PrefixDominates | csv_processor.py:43-44 | in a list sorted by decreasing key, nothing outside a prefix has a larger key than anything in it |
| Ordering.StrLessIrreflexive | csv_processor.py:77 | no string is less than itself |
| Ordering.StrLessTransitive | csv_processor.py:77 | the string order is transitive |
| Ordering.StrLessTotal | csv_processor.py:77 | of two different strings one is less |
| Ordering.InsertUnique | csv_processor.py:77 | inserting into a strictly increasing list keeps it strictly increasing and adds exactly the element's value |
| Ordering.SortedDistinct | csv_processor.py:77 | `sorted(set(xs))` is strictly increasing and holds exactly the values of xs |
| Dicts.Keys | api.py:65 | one key per entry, in order |
| Dicts.Get | csv_processor.py:62 | reading back a dictionary built by assignments: a lookup finds nothing iff the key is absent, and otherwise the value stored under the key |
| Dicts.Put | csv_processor.py:62 | assigning an existing key keeps the key order; a new key goes last |
| Dicts.PutGet | csv_processor.py:62 | after `d[k] = v`, k maps to v and every other key to its old value |
| Dicts.PutEntries | csv_processor.py:62 | every entry after `d[k] = v` is the new one or an entry from before |
| Dicts.PutDistinct | api.py:49 | assignment keeps the keys distinct |
| CsvProcessor.TrimRows | csv_processor.py:14-19 | one row per input row, each with its company and both years stripped as str.strip() does and its attachment unchanged |
| CsvProcessor.TrimRowClean | csv_processor.py:17-19 | a trimmed row's company and years have no surrounding whitespace, and trimming again changes nothing |
| CsvProcessor.TrimRowsClean | csv_processor.py:17-19 | after load_csv no company or year value has surrounding whitespace, and loading the loaded rows again changes nothing |
| CsvProcessor.EnhancedCsvProcessor.constructor | csv_processor.py:9-10 | no frame is loaded |
| CsvProcessor.EnhancedCsvProcessor.LoadCsv | csv_processor.py:14-20 | the processor holds and returns the trimmed rows |
| CsvProcessor.KeepAlnumAndSpace | csv_processor.py:72 | only ASCII letters, digits and whitespace remain, and every letter and digit is kept in order |
| CsvProcessor.KeepAlnumAndSpaceKeeps | csv_processor.py:72 | text made only of letters, digits and whitespace passes whole, so whitespace is kept |
| CsvProcessor.KeepAlnumAndSpaceDrops | csv_processor.py:72 | text with no letter, digit or whitespace is removed entirely, so (with KeepAlnumAndSpaceAppend) every other character is deleted, not replaced |
| CsvProcessor.KeepAlnumAndSpaceAppend | csv_processor.py:72 | the filter distributes over concatenation: it decides character by character |
| CsvProcessor.AlnumOfAppend | csv_processor.py:72 | the letters and digits of a concatenation are those of its parts |
| CsvProcessor.AlnumOfSpaces | csv_processor.py:73 | whitespace has no letters or digits |
| CsvProcessor.CollapseSpacesChars | csv_processor.py:73 | collapsing whitespace runs gives letters, digits and single '_'s, starting with '_' only when the text starts with whitespace |
| CsvProcessor.CollapseSpacesLast | csv_processor.py:73 | text that does not end in whitespace keeps its last character |
| CsvProcessor.CollapseSpacesAlnum | csv_processor.py:73 | collapsing keeps every letter and digit, in order |
| CsvProcessor.LStripKeepsAlnum | csv_processor.py:73 | lstrip keeps every letter and digit |
| CsvProcessor.RStripKeepsAlnum | csv_processor.py:73 | rstrip keeps every letter and digit |
| CsvProcessor.StripKeepsAlnum | csv_processor.py:73 | strip keeps every letter and digit |
| CsvProcessor.StripKeepsAlphabet | csv_processor.py:72-73 | stripping text made of letters, digits and whitespace leaves such text |
| CsvProcessor.CleanCompanySafe | csv_processor.py:71-74 | the company part of a generated file name holds only ASCII letters, digits and '_', has no '_' at either end, never two in a row, and keeps every letter and digit of the company in order |
| CsvProcessor.CleanCompany | csv_processor.py:72-73 | the two substitutions of generate_filename in order; CleanCompanyWords and CleanCompanySafe state what they give |
| CsvProcessor.CollapseSpaces | csv_processor.py:73 | `re.sub(r'\s+', '_', s)`; its properties are the CollapseSpaces lemmas and CollapseStripWords |
| CsvProcessor.CollapseSpacesWord | csv_processor.py:73 | text without whitespace in front passes unchanged |
| CsvProcessor.CollapseBlankHead | csv_processor.py:73 | a whitespace run in front of a word becomes exactly one '_' |
| CsvProcessor.CollapseAfterSpace | csv_processor.py:73 | rstrip then collapse of non-blank text starting with whitespace is '_' then the collapse of its strip |
| CsvProcessor.CollapseStripWords | csv_processor.py:73 | strip then collapse is the words of `str.split()` joined with single '_'s |
| CsvProcessor.CleanCompanyWords | csv_processor.py:71-73 | the company part of a file name is `"_".join(s.split())` of the company with every character other than letters, digits and whitespace removed |
| CsvProcessor.GenerateFilename | csv_processor.py:71-74 | the clean company, the two years and ".pdf", separated by '_'; its company part is described by CleanCompanyWords and CleanCompanySafe |
| CsvProcessor.Companies | csv_processor.py:76-77 | a company is listed iff some row has it |
| CsvProcessor.AllCompanies | csv_processor.py:76-77 | strictly increasing (sorted, no duplicates), and exactly the companies of the frame |
| CsvProcessor.YearsOf | csv_processor.py:79-81 | a year is listed iff it is the FROM YEAR or TO YEAR of a row of the company |
| CsvProcessor.YearsForCompany | csv_processor.py:79-82 | strictly increasing, and exactly the union of the company's FROM YEAR and TO YEAR values |
| CsvProcessor.AboveThreshold | csv_processor.py:39-42 | a pair is kept iff it is in the input and its similarity is at least the threshold |
| CsvProcessor.KeepAboveThreshold | csv_processor.py:38-42 | the loop keeps exactly the pairs at or above the threshold, in their order |
| CsvProcessor.FindBestMatchingCompanies | csv_processor.py:36-44 | at most top_k pairs, each from the input with similarity at least the threshold, in non-increasing similarity; equal to the stable sort of the kept pairs cut by `[:top_k]` |
| CsvProcessor.BestMatchesDominate | csv_processor.py:43-44 | no company at or above the threshold that was left out is more similar than one returned |
| CsvProcessor.GetPdfMetadataForCompanies | csv_processor.py:46-69 | the dictionary the loop builds over the frame's rows |
| CsvProcessor.MetadataOfSound | csv_processor.py:47-68 | every entry comes from a selected row (company requested, year filter matched when one is given) whose file exists, under that row's generated file name and with its company, years, URL and path; every such row has an entry; no name twice; among rows sharing a name the last one wins (MetadataOfLast) |
| CsvProcessor.MetadataOfLast | csv_processor.py:54-68 | the last stored row with a given file name wins: the dictionary maps that name to this row's entry, even when earlier rows had the same name |
| CsvProcessor.MetadataOf | csv_processor.py:46-69 | the dictionary after the row loop; MetadataOfSound and MetadataOfLast state what it holds |
| PdfProcessor.AccumulatePages | pdf_processor.py:20-24 | the page loop yields every non-empty page text, each followed by a newline |
| PdfProcessor.AppendOcr | pdf_processor.py:29-33 | the OCR loop appends each image's text and a newline |
| PdfProcessor.AppendChunks | pdf_processor.py:48-59 | the record loop appends, for piece i of n, a record with that text, index i, total n, the file's company, years and name, and the chunk id |
| PdfProcessor.ProcessPdfsWithMetadata | pdf_processor.py:15-60 | the records of every entry, in the dictionary's order, with OCR only for blank text and blank files skipped |
| PdfProcessor.PageTextBlank | pdf_processor.py:21-27 | the accumulated text is blank (so OCR runs) exactly when every page text is blank |
| PdfProcessor.OcrTextBlank | pdf_processor.py:29-35 | blank OCR texts leave the text blank |
| PdfProcessor.BlankFileSkipped | pdf_processor.py:42-44 | a file with only blank page and OCR texts contributes no record |
| PdfProcessor.ChunkIdsDistinct | pdf_processor.py:51 | two pieces of one file never share a chunk id |
| PdfProcessor.AllChunksFromEntries | pdf_processor.py:48-59 | every record carries the file name, company and years of one entry, an index below its total, and the chunk id of that index |
| PdfProcessor.PageText | pdf_processor.py:20-24 | each non-empty page text followed by a newline; PageTextBlank states when it is blank |
| PdfProcessor.OcrText | pdf_processor.py:29-33 | each OCR text followed by a newline; OcrTextBlank states when it stays blank |
| PdfProcessor.FullText | pdf_processor.py:20-35 | the page text, with the OCR text added only when the page text is blank |
| PdfProcessor.ChunkId | pdf_processor.py:51 | company with spaces replaced by '_', the years and "chunk_i"; ChunkIdsDistinct states that ids of one file differ |
| PdfProcessor.FileChunks | pdf_processor.py:42-59 | no records for a blank text, otherwise one record per piece; BlankFileSkipped and AllChunksFromEntries state their shape |
| PdfProcessor.AllChunks | pdf_processor.py:15-60 | the records of every entry in dictionary order; AllChunksFromEntries states where each comes from |
| Embed.NonBlankMembers | embed.py:27 | a part is kept iff it is one of the parts and not blank after stripping |
| Embed.QueryParts | embed.py:15-20 | the query parts; QueryTextShape states the composed text |
| Embed.DocumentParts | embed.py:22-26 | the document parts, failing on the first missing key; DocumentTextShape states the composed text |
| Embed.ComposeText | embed.py:15-27 | the non-blank parts joined by spaces; QueryTextShape and DocumentTextShape state its result |
| Embed.ComposeTexts | embed.py:12-27 | succeeds iff every record composes; then exactly one text per record, in order; otherwise fails with the KeyError of the first record that does not compose |
| Embed.EncodeWithContext | embed.py:12-36 | succeeds iff every record composes, and then returns the model's encoding of the composed texts, one per record in order; otherwise fails with the KeyError of the first record that does not compose |
| Embed.NewEmbeddingModel | embed.py:6-10 | construction succeeds iff the model's dimension equals the configured one, and fails with a dimension-mismatch error otherwise |
| Embed.JoinNonBlank3 | embed.py:27 | joining the non-blank parts of three parts with a non-blank first gives the first, then a space and each later non-blank part |
| Embed.QueryTextShape | embed.py:15-19 | a query text is "Company: " plus the company or nothing, then " Year: y" only when the year is truthy, then the text unless blank; it fails only when the text is missing |
| Embed.DocumentTextShape | embed.py:21-27 | a document text is "Company: c Years: f-t", then the text unless blank; it fails exactly when a key is missing |
| VectorDb.Vectors | vector_db.py:33-48 | one vector per zipped pair, as many as the shorter list; vector i has chunk i's id, embedding i and the seven metadata fields of chunk i |
| VectorDb.BuildVectors | vector_db.py:33-48 | the zip loop builds exactly those vectors |
| VectorDb.BatchesFlatten | vector_db.py:50-52 | the batches concatenated in order are the vector list |
| VectorDb.BatchSizes | vector_db.py:50-52 | every batch is non-empty with at most the batch size, and all but the last have exactly that many |
| VectorDb.BatchCount | vector_db.py:50-52 | there are ceil(n / size) batches: (count - 1)·size < n ≤ count·size, so no vectors means no upsert call |
| VectorDb.Batches | vector_db.py:50-52 | the slices `vectors[i:i+size]` for i in range(0, n, size); BatchesFlatten, BatchSizes and BatchCount state their shape |
| VectorDb.SplitBatches | vector_db.py:50-52 | the range loop produces exactly those batches |
| VectorDb.VectorDatabase.constructor | vector_db.py:12-30 | the index is created iff no index of that name exists; nothing has been sent |
| VectorDb.VectorDatabase.UpsertWithMetadata | vector_db.py:32-52 | the batches of the zipped vectors are sent, in order, after those sent before |
| VectorDb.SentVectors | vector_db.py:34-52 | one call sends min(len(chunks), len(embeddings)) vectors, the i-th with chunk i's id and embedding i |
| Api.UploadPaths | api.py:21-28 | each upload is saved at the upload directory joined with its file name, in order |
| Api.SavePaths | api.py:23-28 | the loop records exactly those paths |
| Api.FirstMatchSpec | api.py:38-43 | the matching finds nothing iff no attachment has the file's base name, and otherwise the first row that has it |
| Api.FindMatch | api.py:38-43 | the loop with `break` finds that first row |
| Api.FirstMatch | api.py:38-43 | the first row whose attachment has the name as base name; FirstMatchSpec states it |
| Api.MatchUploads | api.py:35-57 | the dictionary the matching loop builds over the saved paths |
| Api.MatchMetadata | api.py:35-55 | the dictionary the matching loop builds; MatchMetadataSound and MatchMetadataLast state what it holds |
| Api.MatchMetadataSound | api.py:35-55 | every entry is under the base name of an uploaded path and holds the first matching row's company, years and attachment URL and a path with that name; every matched upload has an entry; unmatched ones are skipped; no name twice; among uploads sharing a base name the last one wins (MatchMetadataLast) |
| Api.MatchMetadataLast | api.py:35-55 | the last upload with a given base name wins: its entry holds that upload's path and the first row whose attachment has that base name |
| Api.UploadMatched | api.py:25 | an upload whose plain file name is some attachment's base name is listed in the response's files |
| Api.ChunkRecordText | api.py:60 | composing a stored chunk's text never raises |
| Api.ChunkRecords | api.py:60 | one dictionary per chunk, in order |
| Api.ChunkTexts | api.py:60 | one embedded text per chunk, in order |
| Api.EmbedChunks | api.py:60 | embedding the chunks cannot fail and encodes their texts |
| Api.IndexPdfs | api.py:19-66 | fails iff an attachment repeats, storing nothing; otherwise stores the batches of the chunks' vectors and answers "Indexed n chunks from m PDFs." with the matched names as files |
| Api.QueryData | api.py:78-82 | the query data holds the query text; a company iff the matcher returned one, and then the best; a year iff one is given; no other key |
| Api.MatchCompanies | api.py:73-76 | the companies are those of the best matches when the request names a company, and none otherwise |
| Api.MatchedCompanies | api.py:73-76 | the companies of find_best_matching_companies with its default top_k of 5; QueryCompanyIsBest states the best one reaches the query |
| Api.EmbedQuery | api.py:78-84 | composing the query never raises, so the query embedding is the model's encoding of exactly the one composed query text |
| Api.CandidateCount | api.py:85 | max(top_k·4, 20) |
| Api.Zip | api.py:93 | as many pairs as the shorter list, pair i from element i of each |
| Api.Pairs | api.py:88 | one (query, stored text) pair per candidate |
| Api.BuildResults | api.py:96-107 | the loop over `reranked[:top_k]` appends exactly the entries of the zipped candidates and scores, stably sorted by decreasing rerank score and cut by `[:top_k]`, in that order |
| Api.FinalResultsOrdered | api.py:92-97 | the answer has exactly min(top_k, n) entries, n the number of candidates with a score (n + top_k, at least 0, for a negative top_k), in non-increasing rerank score |
| Api.FinalResultsFromCandidates | api.py:97-106 | every entry is built from one candidate and its own score: the stored text cut to its first 500 characters, the company, years, file name and vector score of that candidate |
| Api.RerankedFromZip | api.py:93-96 | the reranked entries are taken from the zipped candidates and scores without repetition (a sub-multiset), so different entries come from different candidate positions |
| Api.RerankedDominates | api.py:95-96 | a candidate left out ranks no higher than any returned entry |
| Api.Reranked | api.py:93-96 | the zipped candidates and scores, stably sorted by decreasing score and cut by `[:top_k]`; the lemmas above state its properties |
| Api.ToResult | api.py:98-106 | one answer entry; ResultFromPair states its fields |
| Api.FinalResults | api.py:92-107 | the answer entries of the reranked candidates; FinalResultsOrdered, FinalResultsFromCandidates and RerankedDominates state them |
| Api.ResultFromPair | api.py:98-106 | a result carries its candidate's fields and scores |
| Api.Search | api.py:69-107 | no candidates gives "No relevant results found."; otherwise the reranked results; a null top_k or an empty encoding fails |
| Api.QueryCompanyIsBest | api.py:74-80 | with a company given and some company at or above the threshold, the query carries a company of the highest similarity |

## Left out

- The back end's HTTP replies to the page (apiService.js) are parameters
  (`App.Reply`). The fixed messages that service throws ('API not healthy',
  'Upload failed' and so on) are values of that parameter.
- Rendering, animation and CSS of every component are not modelled, and the
  views other than the upload form (SearchSection.js, SearchResults.js,
  DocumentList.js and Header.js) are left out.
- The `mounted` flag of the start-up effect is left out, and so is
  everything asynchronous. Each handler is one atomic step, so overlapping
  searches or uploads that resolve out of order are not modelled. React's
  batching of state updates is not modelled either.
- The form's `fileInputRef` reset only clears a DOM input's value, so it is
  left out. The `disabled` attribute of the inputs is also left out: the
  browser enforces it, not the code.
- Everything numeric or learned is a parameter: sentence embeddings, cosine
  similarity, the cross-encoder and the vector index's ranking. Scores are
  `real`, not 32- or 64-bit floats. initialize_company_embeddings and the
  query embedding of find_best_matching_companies are left out; their
  result is the list of companies with their similarities.
- `EnhancedEmbeddingModel.encode` (embed.py:38-39) only forwards to the model,
  so it is not modelled.
- File I/O is left out:
  - saving uploads and `os.makedirs`;
  - `pd.read_csv`, whose rows arrive as strings, so `astype(str)` of missing
    values is not modelled;
  - PyPDF2, pdf2image, pytesseract and the text splitter, whose results are
    parameters (a page whose extract_text is None is the empty string);
  - an OCR failure, which the source catches and prints, is an OCR
    parameter giving the texts read before the failure;
  - `os.path.exists`, which is a predicate parameter.
- Printing and logging are left out.
- Pinecone client setup, index creation and the readiness poll
  (vector_db.py:6-30) are reduced to whether the index had to be created.
- The `/companies` and `/company-info` endpoints and main.py are not part of
  this model. They only wrap get_all_companies and the matcher, which are
  modelled.
- Api.ChunkRecord: the chunk dictionary given to encode_with_context lacks
  the integer chunk_index and total_chunks, which the composition never
  reads.
- VectorDb.Batches, VectorDb.SplitBatches, VectorDb.VectorDatabase.UpsertWithMetadata
  and the batch lemmas require a positive batch size. The batch size is a
  configuration constant, so two cases are not modelled: a size of 0, where
  `range(0, n, 0)` raises ValueError, and a negative size, where nothing is
  upserted.
- pandas' `set_index(...).to_dict(orient='index')` is modelled only by its
  outcome: it fails on a repeated attachment, and otherwise lists the rows in
  order.
