/** The two back-end endpoints that shape data (api.py): `/index`, which
    matches uploaded reports to CSV rows, chunks, embeds and stores them,
    and `/search`, which builds the query, asks the vector index for
    candidates, reranks them and returns the best few. The embedding model,
    the vector index query and the cross-encoder are parameters. */
module Api {
  import opened Wrappers
  import opened Text
  import opened Ordering
  import opened Dicts
  import opened CsvProcessor
  import opened PdfProcessor
  import opened Embed
  import opened VectorDb

  /** The directory uploaded files are saved in. */
  const UploadDir := "uploaded_pdfs"

  /** The request body of `/search` (models.py); a `top_k` sent as null is
      None. */
  datatype SearchRequest = SearchRequest(query: string, company: Option<string>, year: Option<string>,
                                         topK: Option<int>)

  /** The answer of `/index`. */
  datatype IndexResponse = IndexResponse(message: string, files: seq<string>)

  /** One candidate the vector index returns: its similarity score and the
      stored metadata. */
  datatype Candidate = Candidate(score: real, metadata: VectorMetadata)

  /** One entry of the `/search` answer. */
  datatype SearchResult = SearchResult(text: string, company: string, fromYear: string, toYear: string,
                                       filename: string, score: real, rerankScore: real)

  datatype SearchResponse = NoResults(message: string) | Results(results: seq<SearchResult>)

  // ---------------------------------------------------------------- /index

  /** The path each upload is saved under. */
  function UploadPaths(names: seq<string>): (paths: seq<string>)
    ensures |paths| == |names|
    ensures forall i :: 0 <= i < |names| ==> paths[i] == PathJoin(UploadDir, names[i])
  {
    seq(|names|, i requires 0 <= i < |names| => PathJoin(UploadDir, names[i]))
  }

  /** `set_index('ATTACHMENT').to_dict(orient='index')` succeeds only when
      no attachment repeats; the dictionary then lists the rows in order. */
  predicate DistinctAttachments(df: seq<Row>) {
    forall i, j :: 0 <= i < j < |df| ==> df[i].attachment != df[j].attachment
  }

  /** The first row whose attachment has the given base name. */
  function FirstMatch(entries: seq<Row>, fileName: string): Option<Row> {
    if entries == [] then None
    else if Basename(entries[0].attachment) == fileName then Some(entries[0])
    else FirstMatch(entries[1..], fileName)
  }

  /** FirstMatch finds nothing exactly when no attachment has the name, and
      otherwise a row with the name that no earlier row has. */
  lemma {:induction false} FirstMatchSpec(entries: seq<Row>, fileName: string)
    ensures FirstMatch(entries, fileName).None?
      <==> forall i :: 0 <= i < |entries| ==> Basename(entries[i].attachment) != fileName
    ensures FirstMatch(entries, fileName).Some? ==>
      exists i :: 0 <= i < |entries| && entries[i] == FirstMatch(entries, fileName).value
        && Basename(entries[i].attachment) == fileName
        && forall j :: 0 <= j < i ==> Basename(entries[j].attachment) != fileName
  {
    if entries != [] && Basename(entries[0].attachment) != fileName {
      var rest := entries[1..];
      FirstMatchSpec(rest, fileName);
      assert forall i :: 0 < i < |entries| ==> entries[i] == rest[i - 1];
      if FirstMatch(rest, fileName).Some? {
        var i :| 0 <= i < |rest| && rest[i] == FirstMatch(rest, fileName).value
          && Basename(rest[i].attachment) == fileName
          && forall j :: 0 <= j < i ==> Basename(rest[j].attachment) != fileName;
        assert entries[i + 1] == rest[i];
      }
    }
  }

  /** The metadata of a matched upload. */
  function MatchedMeta(row: Row, path: string): PdfMeta {
    PdfMeta(row.company, row.fromYear, row.toYear, row.attachment, path)
  }

  /** The dictionary after the matching loop has seen the given paths: each
      path whose base name matches an attachment is stored under that name;
      a later upload with the same name replaces the earlier one. */
  function MatchMetadata(filePaths: seq<string>, entries: seq<Row>): Dict<string, PdfMeta> {
    if filePaths == [] then []
    else
      var path := filePaths[|filePaths| - 1];
      var before := MatchMetadata(filePaths[..|filePaths| - 1], entries);
      var name := Basename(path);
      var matched := FirstMatch(entries, name);
      if matched.Some? then Put(before, name, MatchedMeta(matched.value, path)) else before
  }

  /** The inner loop of index_pdfs: the first entry whose attachment has the
      file's name, found with `break`. */
  method FindMatch(entries: seq<Row>, fileName: string) returns (matched: Option<Row>)
    ensures matched == FirstMatch(entries, fileName)
  {
    matched := None;
    var k := 0;
    while k < |entries|
      invariant 0 <= k <= |entries|
      invariant FirstMatch(entries, fileName) == FirstMatch(entries[k..], fileName)
    {
      if Basename(entries[k].attachment) == fileName {
        matched := Some(entries[k]);
        break;
      }
      assert entries[k..][1..] == entries[k + 1..];
      k := k + 1;
    }
  }

  /** The outer loop of index_pdfs over the saved paths. */
  method MatchUploads(filePaths: seq<string>, entries: seq<Row>) returns (pdfMetadata: Dict<string, PdfMeta>)
    ensures pdfMetadata == MatchMetadata(filePaths, entries)
  {
    pdfMetadata := [];
    for p := 0 to |filePaths|
      invariant pdfMetadata == MatchMetadata(filePaths[..p], entries)
    {
      var filePath := filePaths[p];
      var fileName := Basename(filePath);
      var matchedMeta := FindMatch(entries, fileName);
      if matchedMeta.Some? {
        pdfMetadata := Put(pdfMetadata, fileName, MatchedMeta(matchedMeta.value, filePath));
      }
      assert filePaths[..p + 1][..p] == filePaths[..p];
    }
    assert filePaths[..|filePaths|] == filePaths;
  }

  /** Every entry is stored under the name of an uploaded path, matched to
      the first row with that attachment name and carries that row's
      company, years and attachment and a path with that name; every upload
      whose name matches some attachment has an entry; no name is stored
      twice. */
  lemma {:induction false} MatchMetadataSound(filePaths: seq<string>, entries: seq<Row>)
    ensures var d := MatchMetadata(filePaths, entries);
      && DistinctKeys(d)
      && (forall e :: e in d ==>
            exists path :: path in filePaths && Basename(path) == e.0
              && FirstMatch(entries, e.0).Some?
              && e.1 == MatchedMeta(FirstMatch(entries, e.0).value, path))
      && (forall path :: path in filePaths && FirstMatch(entries, Basename(path)).Some?
            ==> Basename(path) in Keys(d))
  {
    if filePaths != [] {
      var init := filePaths[..|filePaths| - 1];
      var path := filePaths[|filePaths| - 1];
      MatchMetadataSound(init, entries);
      var before := MatchMetadata(init, entries);
      var d := MatchMetadata(filePaths, entries);
      var name := Basename(path);
      assert forall x :: x in filePaths <==> x == path || x in init;
      var matched := FirstMatch(entries, name);
      if matched.Some? {
        var meta := MatchedMeta(matched.value, path);
        PutDistinct(before, name, meta);
        forall e | e in d
          ensures exists x :: (x in filePaths && Basename(x) == e.0
            && FirstMatch(entries, e.0).Some?
            && e.1 == MatchedMeta(FirstMatch(entries, e.0).value, x))
        {
          PutEntries(before, name, meta, e);
        }
      }
    }
  }

  /** The last upload with a given base name wins: when a path matches an
      attachment and no later path has the same base name, the entry under
      that name holds this path and the first matching row. */
  lemma {:induction false} MatchMetadataLast(filePaths: seq<string>, entries: seq<Row>, i: nat)
    requires i < |filePaths| && FirstMatch(entries, Basename(filePaths[i])).Some?
    requires forall j :: i < j < |filePaths| ==> Basename(filePaths[j]) != Basename(filePaths[i])
    ensures Get(MatchMetadata(filePaths, entries), Basename(filePaths[i]))
      == Some(MatchedMeta(FirstMatch(entries, Basename(filePaths[i])).value, filePaths[i]))
    decreases |filePaths|
  {
    var init := filePaths[..|filePaths| - 1];
    var last := filePaths[|filePaths| - 1];
    var name := Basename(filePaths[i]);
    var before := MatchMetadata(init, entries);
    if i < |filePaths| - 1 {
      assert init[i] == filePaths[i];
      forall j | i < j < |init|
        ensures Basename(init[j]) != Basename(init[i])
      {
        assert init[j] == filePaths[j];
      }
      MatchMetadataLast(init, entries, i);
      var matched := FirstMatch(entries, Basename(last));
      if matched.Some? {
        PutGet(before, Basename(last), MatchedMeta(matched.value, last), name);
      }
    } else {
      PutGet(before, name, MatchedMeta(FirstMatch(entries, name).value, last), name);
    }
  }

  /** The upload with a plain file name is found under that name when some
      attachment has it as its base name. */
  lemma UploadMatched(names: seq<string>, entries: seq<Row>, i: nat)
    requires i < |names| && '/' !in names[i]
    requires exists row :: row in entries && Basename(row.attachment) == names[i]
    ensures names[i] in Keys(MatchMetadata(UploadPaths(names), entries))
  {
    var paths := UploadPaths(names);
    BasenameOfJoin(UploadDir, names[i]);
    assert paths[i] in paths;
    var row :| row in entries && Basename(row.attachment) == names[i];
    var k :| 0 <= k < |entries| && entries[k] == row;
    FirstMatchSpec(entries, names[i]);
    MatchMetadataSound(paths, entries);
  }

  /** The response message of `/index`. */
  function IndexMessage(chunkCount: nat, fileCount: nat): string {
    "Indexed " + NatToString(chunkCount) + " chunks from " + NatToString(fileCount) + " PDFs."
  }

  /** A chunk as the dictionary encode_with_context reads; the integer
      fields are not read there and are left out. */
  function ChunkRecord(c: Chunk): Record {
    map["text" := c.text, "chunk_id" := c.chunkId, "company" := c.company,
        "from_year" := c.fromYear, "to_year" := c.toYear, "filename" := c.filename]
  }

  /** The text embedded for a stored chunk. */
  function ChunkText(c: Chunk): string {
    "Company: " + c.company + " Years: " + c.fromYear + "-" + c.toYear
    + (if IsPyBlank(c.text) then "" else " " + c.text)
  }

  /** Composing a chunk record never raises, and gives ChunkText. */
  lemma ChunkRecordText(c: Chunk)
    ensures ComposeText(ChunkRecord(c), false) == Success(ChunkText(c))
  {
    DocumentTextShape(ChunkRecord(c));
  }

  /** The record of each chunk of a list. */
  function ChunkRecords(chunks: seq<Chunk>): (rs: seq<Record>)
    ensures |rs| == |chunks|
    ensures forall i :: 0 <= i < |chunks| ==> rs[i] == ChunkRecord(chunks[i])
  {
    seq(|chunks|, i requires 0 <= i < |chunks| => ChunkRecord(chunks[i]))
  }

  /** The texts embedded for a list of chunks. */
  function ChunkTexts(chunks: seq<Chunk>): (ts: seq<string>)
    ensures |ts| == |chunks|
    ensures forall i :: 0 <= i < |chunks| ==> ts[i] == ChunkText(chunks[i])
  {
    seq(|chunks|, i requires 0 <= i < |chunks| => ChunkText(chunks[i]))
  }

  /** index_pdfs(files), for uploads with the given file names. The CSV is
      read as `rawCsv`; `extract`, `ocr` and `split` stand for the PDF
      libraries and `encode` for the embedding model. The call fails when an
      attachment repeats, before anything is stored. */
  method IndexPdfs(csv: EnhancedCsvProcessor, db: VectorDatabase, rawCsv: seq<Row>, uploadNames: seq<string>,
                   extract: string -> seq<string>, ocr: string -> seq<string>, split: string -> seq<string>,
                   encode: seq<string> -> seq<Embedding>)
    returns (r: Result<IndexResponse, string>)
    requires db.batchSize > 0
    modifies csv, db
    ensures csv.df == Some(TrimRows(rawCsv))
    ensures r.Success? <==> DistinctAttachments(TrimRows(rawCsv))
    ensures r.Failure? ==> db.upserted == old(db.upserted)
    ensures r.Success? ==>
      var meta := MatchMetadata(UploadPaths(uploadNames), TrimRows(rawCsv));
      var chunks := AllChunks(meta, extract, ocr, split);
      && r.value == IndexResponse(IndexMessage(|chunks|, |uploadNames|), Keys(meta))
      && db.upserted == old(db.upserted) + Batches(Vectors(chunks, encode(ChunkTexts(chunks))), db.batchSize)
  {
    var filePaths := SavePaths(uploadNames);
    var df := csv.LoadCsv(rawCsv);
    if !DistinctAttachments(df) {
      return Failure("DataFrame index must be unique for orient='index'.");
    }
    var pdfMetadata := MatchUploads(filePaths, df);
    var chunks := ProcessPdfsWithMetadata(pdfMetadata, extract, ocr, split);
    var embeddings := EmbedChunks(chunks, encode);
    db.UpsertWithMetadata(chunks, embeddings);
    r := Success(IndexResponse(IndexMessage(|chunks|, |filePaths|), Keys(pdfMetadata)));
  }

  /** The loop of index_pdfs that saves each upload and records its path;
      the file writes are not modelled. */
  method SavePaths(uploadNames: seq<string>) returns (filePaths: seq<string>)
    ensures filePaths == UploadPaths(uploadNames)
  {
    filePaths := [];
    for i := 0 to |uploadNames|
      invariant filePaths == UploadPaths(uploadNames[..i])
    {
      filePaths := filePaths + [PathJoin(UploadDir, uploadNames[i])];
    }
    assert uploadNames[..|uploadNames|] == uploadNames;
  }

  /** `encode_with_context(chunks)` on the chunk records: it cannot raise,
      and embeds the chunks' texts. */
  method EmbedChunks(chunks: seq<Chunk>, encode: seq<string> -> seq<Embedding>) returns (embeddings: seq<Embedding>)
    ensures embeddings == encode(ChunkTexts(chunks))
  {
    var records := ChunkRecords(chunks);
    forall i | 0 <= i < |records| ensures ComposeText(records[i], false) == Success(ChunkText(chunks[i])) {
      ChunkRecordText(chunks[i]);
    }
    var encoded := EncodeWithContext(records, false, encode);
    if encoded.Failure? {
      assert false;
      return [];
    }
    ghost var texts :| |texts| == |records| && encoded.value == encode(texts)
      && forall i :: 0 <= i < |records| ==> texts[i] == ComposeText(records[i], false).value;
    assert texts == ChunkTexts(chunks);
    embeddings := encoded.value;
  }

  // --------------------------------------------------------------- /search

  /** The names of the companies the matcher returns for the request's
      company: none when the request has no company. */
  function MatchedCompanies(company: Option<string>, companySims: seq<CompanyMatch>, threshold: real): seq<string> {
    if Truthy(company) then
      var ms := PyTake(SortDesc(AboveThreshold(companySims, threshold), Similarity), 5);
      seq(|ms|, i requires 0 <= i < |ms| => ms[i].company)
    else []
  }

  /** query_data: the query text, the best matching company when there is
      one, and the year when it is given. */
  function QueryData(query: string, companies: seq<string>, year: Option<string>): (d: Record)
    ensures "text" in d && d["text"] == query
    ensures "company" in d <==> companies != []
    ensures companies != [] ==> d["company"] == companies[0]
    ensures "year" in d <==> Truthy(year)
    ensures Truthy(year) ==> d["year"] == year.value
    ensures forall k :: k in d ==> k == "text" || k == "company" || k == "year"
  {
    var withText := map["text" := query];
    var withCompany := if companies != [] then withText["company" := companies[0]] else withText;
    if Truthy(year) then withCompany["year" := year.value] else withCompany
  }

  /** The number of candidates asked of the vector index: four times top_k,
      but never fewer than 20. */
  function CandidateCount(topK: int): (n: int)
    ensures n >= 20 && n >= topK * 4
    ensures n == 20 || n == topK * 4
  {
    if topK * 4 >= 20 then topK * 4 else 20
  }

  /** `zip(a, b)`: stops at the end of the shorter list. */
  function Zip<A, B>(a: seq<A>, b: seq<B>): (r: seq<(A, B)>)
    ensures |r| == Min(|a|, |b|)
    ensures forall i :: 0 <= i < |r| ==> r[i] == (a[i], b[i])
  {
    if a == [] || b == [] then [] else [(a[0], b[0])] + Zip(a[1..], b[1..])
  }

  /** The pairs given to the cross-encoder. */
  function Pairs(query: string, candidates: seq<Candidate>): (ps: seq<(string, string)>)
    ensures |ps| == |candidates|
    ensures forall i :: 0 <= i < |ps| ==> ps[i] == (query, candidates[i].metadata.text)
  {
    seq(|candidates|, i requires 0 <= i < |candidates| => (query, candidates[i].metadata.text))
  }

  function RerankScore(p: (Candidate, real)): real { p.1 }

  /** One answer entry: the stored text cut to 500 characters and the two
      scores. */
  function ToResult(p: (Candidate, real)): SearchResult {
    var m := p.0.metadata;
    SearchResult(PyTake(m.text, 500), m.company, m.fromYear, m.toYear, m.filename, p.0.score, p.1)
  }

  /** The candidates with their rerank scores, best first and stable among
      equal scores, cut to top_k. */
  function Reranked(candidates: seq<Candidate>, scores: seq<real>, topK: int): seq<(Candidate, real)> {
    PyTake(SortDesc(Zip(candidates, scores), RerankScore), topK)
  }

  /** The answer entries for the reranked candidates. */
  function FinalResults(candidates: seq<Candidate>, scores: seq<real>, topK: int): seq<SearchResult> {
    var top := Reranked(candidates, scores, topK);
    seq(|top|, i requires 0 <= i < |top| => ToResult(top[i]))
  }

  /** The entry a candidate with a given rerank score yields. */
  ghost predicate FromCandidate(r: SearchResult, c: Candidate, score: real) {
    && |r.text| <= 500 && |r.text| <= |c.metadata.text| && r.text == c.metadata.text[..|r.text|]
    && (|c.metadata.text| <= 500 ==> r.text == c.metadata.text)
    && r.company == c.metadata.company && r.fromYear == c.metadata.fromYear
    && r.toYear == c.metadata.toYear && r.filename == c.metadata.filename
    && r.score == c.score && r.rerankScore == score
  }

  /** The final loop of search over reranked[:top_k]. */
  method BuildResults(candidates: seq<Candidate>, scores: seq<real>, topK: int)
    returns (finalResults: seq<SearchResult>)
    ensures finalResults == FinalResults(candidates, scores, topK)
  {
    var zipped := Zip(candidates, scores);
    var reranked := SortDesc(zipped, RerankScore);
    var top := PyTake(reranked, topK);
    finalResults := [];
    for i := 0 to |top|
      invariant |finalResults| == i
      invariant forall j :: 0 <= j < i ==> finalResults[j] == ToResult(top[j])
    {
      finalResults := finalResults + [ToResult(top[i])];
    }
  }

  /** The answer has min(top_k, n) entries, where n is the number of
      candidates that have a score (n + top_k, but at least none, for a
      negative top_k, as `[:top_k]` counts from the end), in non-increasing
      rerank score. */
  lemma FinalResultsOrdered(candidates: seq<Candidate>, scores: seq<real>, topK: int)
    ensures var rs := FinalResults(candidates, scores, topK); var n := Min(|candidates|, |scores|);
      && (topK >= 0 ==> |rs| == if topK <= n then topK else n)
      && (topK < 0 ==> |rs| == if n + topK >= 0 then n + topK else 0)
      && (forall i, j :: 0 <= i < j < |rs| ==> rs[i].rerankScore >= rs[j].rerankScore)
  {
    var zipped := Zip(candidates, scores);
    var reranked := SortDesc(zipped, RerankScore);
    var top := PyTake(reranked, topK);
    var rs := FinalResults(candidates, scores, topK);
    assert |reranked| == |zipped| by {
      assert |multiset(reranked)| == |multiset(zipped)|;
    }
    forall i, j | 0 <= i < j < |rs| ensures rs[i].rerankScore >= rs[j].rerankScore {
      assert top[i] == reranked[i] && top[j] == reranked[j];
      assert rs[i].rerankScore == RerankScore(reranked[i]);
      assert rs[j].rerankScore == RerankScore(reranked[j]);
    }
  }

  /** Each entry of the answer is made from one candidate and its score. */
  lemma FinalResultsFromCandidates(candidates: seq<Candidate>, scores: seq<real>, topK: int)
    ensures var rs := FinalResults(candidates, scores, topK);
      forall i :: 0 <= i < |rs| ==>
        exists k :: 0 <= k < |candidates| && k < |scores| && FromCandidate(rs[i], candidates[k], scores[k])
  {
    var zipped := Zip(candidates, scores);
    var reranked := SortDesc(zipped, RerankScore);
    var top := PyTake(reranked, topK);
    var rs := FinalResults(candidates, scores, topK);
    forall i | 0 <= i < |rs|
      ensures exists k :: 0 <= k < |candidates| && k < |scores| && FromCandidate(rs[i], candidates[k], scores[k])
    {
      assert top[i] == reranked[i];
      assert top[i] in multiset(zipped) by { assert reranked[i] in multiset(reranked); }
      var k :| 0 <= k < |zipped| && zipped[k] == top[i];
      ResultFromPair(top[i], candidates[k], scores[k]);
    }
  }

  /** The reranked entries are taken from the zipped candidates without
      repetition: each (candidate, score) pair occurs among them at most as
      often as it occurs among the zipped pairs. */
  lemma RerankedFromZip(candidates: seq<Candidate>, scores: seq<real>, topK: int)
    ensures multiset(Reranked(candidates, scores, topK)) <= multiset(Zip(candidates, scores))
  {
    var reranked := SortDesc(Zip(candidates, scores), RerankScore);
    var top := Reranked(candidates, scores, topK);
    assert reranked == top + reranked[|top|..];
    assert multiset(reranked) == multiset(top) + multiset(reranked[|top|..]);
  }

  /** A candidate that was left out ranks no higher than any returned one. */
  lemma RerankedDominates(candidates: seq<Candidate>, scores: seq<real>, topK: int, q: (Candidate, real))
    requires q in Zip(candidates, scores) && q !in Reranked(candidates, scores, topK)
    ensures var rs := FinalResults(candidates, scores, topK);
      forall i :: 0 <= i < |rs| ==> q.1 <= rs[i].rerankScore
  {
    var reranked := SortDesc(Zip(candidates, scores), RerankScore);
    var top := Reranked(candidates, scores, topK);
    var rs := FinalResults(candidates, scores, topK);
    assert q in multiset(reranked) by {
      assert q in multiset(Zip(candidates, scores));
    }
    forall i | 0 <= i < |rs| ensures q.1 <= rs[i].rerankScore {
      assert top == reranked[..|top|];
      assert top[i] in reranked[..|top|];
      PrefixDominates(reranked, RerankScore, |top|, top[i], q);
    }
  }

  lemma ResultFromPair(p: (Candidate, real), c: Candidate, score: real)
    requires p == (c, score)
    ensures FromCandidate(ToResult(p), c, score)
  {
  }

  /** The text embedded for the query of a request with the given matched
      companies. */
  function QueryText(req: SearchRequest, companies: seq<string>): string {
    var composed := ComposeText(QueryData(req.query, companies, req.year), true);
    QueryTextShape(QueryData(req.query, companies, req.year));
    composed.value
  }

  /** The company matching of search: the names of the best matching
      companies when the request names one. */
  method MatchCompanies(company: Option<string>, companySims: seq<CompanyMatch>, threshold: real)
    returns (companies: seq<string>)
    ensures companies == MatchedCompanies(company, companySims, threshold)
  {
    companies := [];
    if Truthy(company) {
      var matches := FindBestMatchingCompanies(companySims, threshold, 5);
      companies := seq(|matches|, i requires 0 <= i < |matches| => matches[i].company);
    }
  }

  /** The query embedding of search: composing the query data never raises,
      so the result is the model's encoding of the one query text. */
  method EmbedQuery(req: SearchRequest, companies: seq<string>, encode: seq<string> -> seq<Embedding>)
    returns (embeddings: seq<Embedding>)
    ensures embeddings == encode([QueryText(req, companies)])
  {
    var queryData := QueryData(req.query, companies, req.year);
    var encoded := EncodeWithContext([queryData], true, encode);
    QueryTextShape(queryData);
    if encoded.Failure? {
      assert false;
      return [];
    }
    ghost var texts :| |texts| == 1 && encoded.value == encode(texts)
      && texts[0] == ComposeText(queryData, true).value;
    assert texts == [QueryText(req, companies)];
    embeddings := encoded.value;
  }

  /** search(req). `companySims` are the similarities of the loaded
      companies to the request's company, `encode` is the embedding model,
      `queryIndex(vector, n)` the vector index's n best candidates and
      `crossEncoder` the rerank scores of the pairs. A top_k of None fails
      on the multiplication, and an empty encoding on taking its first
      vector. */
  method Search(csv: EnhancedCsvProcessor, rawCsv: seq<Row>, req: SearchRequest,
                companySims: seq<CompanyMatch>, threshold: real, encode: seq<string> -> seq<Embedding>,
                queryIndex: (Embedding, int) -> seq<Candidate>, crossEncoder: seq<(string, string)> -> seq<real>)
    returns (r: Result<SearchResponse, string>)
    modifies csv
    ensures csv.df == Some(TrimRows(rawCsv))
    ensures var companies := MatchedCompanies(req.company, companySims, threshold);
      var embedded := encode([QueryText(req, companies)]);
      && (r.Failure? <==> embedded == [] || req.topK.None?)
      && (r.Success? ==>
            var candidates := queryIndex(embedded[0], CandidateCount(req.topK.value));
            r.value == if candidates == [] then NoResults("No relevant results found.")
                       else Results(FinalResults(candidates, crossEncoder(Pairs(req.query, candidates)),
                                                 req.topK.value)))
  {
    var df := csv.LoadCsv(rawCsv);
    var companies := MatchCompanies(req.company, companySims, threshold);
    var embeddings := EmbedQuery(req, companies, encode);
    if |embeddings| == 0 {
      return Failure("IndexError: list index out of range");
    }
    var queryEmbedding := embeddings[0];
    if req.topK.None? {
      return Failure("TypeError: unsupported operand type(s) for *: 'NoneType' and 'int'");
    }
    var topK := req.topK.value;
    var matches := queryIndex(queryEmbedding, CandidateCount(topK));
    var pairs := Pairs(req.query, matches);
    if |pairs| == 0 {
      return Success(NoResults("No relevant results found."));
    }
    var scores := crossEncoder(pairs);
    var finalResults := BuildResults(matches, scores, topK);
    r := Success(Results(finalResults));
  }

  /** The query carries the best matching company exactly when the matcher
      found one, and that company has the highest similarity of all
      companies at or above the threshold. */
  lemma QueryCompanyIsBest(company: Option<string>, companySims: seq<CompanyMatch>, threshold: real, m: CompanyMatch)
    requires Truthy(company)
    requires m in companySims && m.similarity >= threshold
    ensures var companies := MatchedCompanies(company, companySims, threshold);
      && companies != []
      && exists best :: best in companySims && best.company == companies[0] && best.similarity >= m.similarity
  {
    var above := AboveThreshold(companySims, threshold);
    var sorted := SortDesc(above, Similarity);
    assert m in above;
    assert m in multiset(sorted) by { assert m in multiset(above); }
    var ms := PyTake(sorted, 5);
    assert ms[0] == sorted[0];
    assert sorted[0] in multiset(above) by { assert sorted[0] in multiset(sorted); }
    var j :| 0 <= j < |sorted| && sorted[j] == m;
    assert sorted[0].similarity >= m.similarity by {
      if j > 0 { assert Similarity(sorted[0]) >= Similarity(sorted[j]); }
    }
  }
}
