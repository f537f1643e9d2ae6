/** The text that is embedded for a chunk or a query (embed.py). Records are
    Python dictionaries with string values; reading a key the dictionary
    lacks with `[]` raises KeyError, with `.get` gives the default. The
    sentence-embedding model itself is outside the model: `encode` stands
    for it. */
module Embed {
  import opened Wrappers
  import opened Text

  /** A dictionary record with string values. */
  type Record = map<string, string>

  type Embedding = seq<real>

  /** The two errors embed.py raises: a missing dictionary key, and a model
      whose dimension is not the configured one. */
  datatype EmbedError = KeyError(key: string) | DimensionMismatch(message: string)

  /** `chunk.get(key, "")`. */
  function GetOrEmpty(chunk: Record, key: string): string {
    if key in chunk then chunk[key] else ""
  }

  /** Python truthiness of `chunk.get(key)`: present and not "". */
  predicate TruthyKey(chunk: Record, key: string) {
    key in chunk && chunk[key] != ""
  }

  /** `[p for p in parts if p.strip()]`. */
  function NonBlank(parts: seq<string>): seq<string> {
    if parts == [] then []
    else (if IsPyBlank(parts[0]) then [] else [parts[0]]) + NonBlank(parts[1..])
  }

  /** The filter keeps exactly the parts that are not blank. */
  lemma {:induction false} NonBlankMembers(parts: seq<string>)
    ensures forall p :: p in NonBlank(parts) <==> p in parts && !IsPyBlank(p)
  {
    if parts != [] {
      NonBlankMembers(parts[1..]);
      assert forall p :: p in parts <==> p == parts[0] || p in parts[1..];
    }
  }

  /** The parts of a query record: its company (or ""), its year when that
      is truthy, and its text. */
  function QueryParts(chunk: Record): Result<seq<string>, EmbedError> {
    var company := "Company: " + GetOrEmpty(chunk, "company");
    var year := if TruthyKey(chunk, "year") then "Year: " + chunk["year"] else "";
    if "text" !in chunk then Failure(KeyError("text"))
    else Success([company, year, chunk["text"]])
  }

  /** The parts of a document record; Python reads company, from_year,
      to_year and text in that order and raises on the first one missing. */
  function DocumentParts(chunk: Record): Result<seq<string>, EmbedError> {
    if "company" !in chunk then Failure(KeyError("company"))
    else if "from_year" !in chunk then Failure(KeyError("from_year"))
    else if "to_year" !in chunk then Failure(KeyError("to_year"))
    else if "text" !in chunk then Failure(KeyError("text"))
    else Success(["Company: " + chunk["company"],
                  "Years: " + chunk["from_year"] + "-" + chunk["to_year"],
                  chunk["text"]])
  }

  /** The text of one record: the non-blank parts joined by single spaces. */
  function ComposeText(chunk: Record, isQuery: bool): Result<string, EmbedError> {
    var parts := if isQuery then QueryParts(chunk) else DocumentParts(chunk);
    if parts.Failure? then Failure(parts.error)
    else Success(JoinWith(" ", NonBlank(parts.value)))
  }

  /** The loop of encode_with_context: one text per record, in order; the
      first record that lacks a key ends it with that record's KeyError. */
  method ComposeTexts(chunks: seq<Record>, isQuery: bool) returns (r: Result<seq<string>, EmbedError>)
    ensures r.Success? <==> forall i :: 0 <= i < |chunks| ==> ComposeText(chunks[i], isQuery).Success?
    ensures r.Success? ==> (|r.value| == |chunks|
      && forall i :: 0 <= i < |chunks| ==> r.value[i] == ComposeText(chunks[i], isQuery).value)
    ensures r.Failure? ==> exists i :: (0 <= i < |chunks| && ComposeText(chunks[i], isQuery) == Failure(r.error)
      && forall j :: 0 <= j < i ==> ComposeText(chunks[j], isQuery).Success?)
  {
    var texts: seq<string> := [];
    for i := 0 to |chunks|
      invariant |texts| == i
      invariant forall j :: 0 <= j < i ==> ComposeText(chunks[j], isQuery).Success?
                                            && texts[j] == ComposeText(chunks[j], isQuery).value
    {
      var text := ComposeText(chunks[i], isQuery);
      if text.Failure? {
        return Failure(text.error);
      }
      texts := texts + [text.value];
    }
    r := Success(texts);
  }

  /** encode_with_context(chunks, is_query): the composed texts, given to
      the model in one call. */
  method EncodeWithContext(chunks: seq<Record>, isQuery: bool, encode: seq<string> -> seq<Embedding>)
    returns (r: Result<seq<Embedding>, EmbedError>)
    ensures r.Success? <==> forall i :: 0 <= i < |chunks| ==> ComposeText(chunks[i], isQuery).Success?
    ensures r.Success? ==> (exists texts :: (|texts| == |chunks| && r.value == encode(texts)
      && forall i :: 0 <= i < |chunks| ==> texts[i] == ComposeText(chunks[i], isQuery).value))
    ensures r.Failure? ==> exists i :: (0 <= i < |chunks| && ComposeText(chunks[i], isQuery) == Failure(r.error)
      && forall j :: 0 <= j < i ==> ComposeText(chunks[j], isQuery).Success?)
  {
    var texts := ComposeTexts(chunks, isQuery);
    if texts.Failure? {
      return Failure(texts.error);
    }
    r := Success(encode(texts.value));
  }

  /** The embedding model after construction: it remembers its dimension. */
  datatype EmbeddingModel = EmbeddingModel(dimension: nat)

  /** The check in EnhancedEmbeddingModel.__init__: construction succeeds
      exactly when the model's dimension is the configured one, and fails
      with a message naming both otherwise. */
  function NewEmbeddingModel(modelDim: nat, configDim: nat): (r: Result<EmbeddingModel, EmbedError>)
    ensures r.Success? <==> modelDim == configDim
    ensures r.Success? ==> r.value.dimension == configDim
    ensures r.Failure? ==> r.error.DimensionMismatch?
  {
    if modelDim != configDim then
      Failure(DimensionMismatch("Model dimension mismatch! Model: " + NatToString(modelDim)
                                + ", Config: " + NatToString(configDim)))
    else Success(EmbeddingModel(modelDim))
  }

  /** The non-blank parts of three parts whose first is not blank, joined
      by spaces: the first, then a space and each later part that is not
      blank. */
  lemma JoinNonBlank3(a: string, b: string, c: string)
    requires !IsPyBlank(a)
    ensures JoinWith(" ", NonBlank([a, b, c]))
      == a + (if IsPyBlank(b) then "" else " " + b) + (if IsPyBlank(c) then "" else " " + c)
  {
    var fb: seq<string> := if IsPyBlank(b) then [] else [b];
    var fc: seq<string> := if IsPyBlank(c) then [] else [c];
    NonBlankOfThree(a, b, c);
    JoinFront(a, fb + fc);
    if fb != [] {
      assert fb + fc == [b] + fc;
      JoinFront(b, fc);
    }
  }

  /** Filtering three parts whose first is not blank. */
  lemma NonBlankOfThree(a: string, b: string, c: string)
    requires !IsPyBlank(a)
    ensures NonBlank([a, b, c])
      == [a] + ((if IsPyBlank(b) then [] else [b]) + (if IsPyBlank(c) then [] else [c]))
  {
    var fb: seq<string> := if IsPyBlank(b) then [] else [b];
    var fc: seq<string> := if IsPyBlank(c) then [] else [c];
    assert NonBlank([c]) == fc by { assert [c][1..] == []; }
    assert NonBlank([b, c]) == fb + fc by { assert [b, c][1..] == [c]; }
    assert [a, b, c][1..] == [b, c];
  }

  /** Joining a part in front of the others. */
  lemma JoinFront(a: string, rest: seq<string>)
    ensures JoinWith(" ", [a] + rest) == a + (if rest == [] then "" else " " + JoinWith(" ", rest))
  {
    assert ([a] + rest)[1..] == rest;
  }

  /** A query text is "Company: " and the company (or nothing), then
      " Year: " and the year when the year is truthy, then a space and the
      query text unless that is blank. It fails only without a text. */
  lemma QueryTextShape(chunk: Record)
    ensures ComposeText(chunk, true).Success? <==> "text" in chunk
    ensures "text" in chunk ==> (ComposeText(chunk, true).value
      == "Company: " + GetOrEmpty(chunk, "company")
         + (if TruthyKey(chunk, "year") then " Year: " + chunk["year"] else "")
         + (if IsPyBlank(chunk["text"]) then "" else " " + chunk["text"]))
  {
    if "text" in chunk {
      var company := "Company: " + GetOrEmpty(chunk, "company");
      var year := if TruthyKey(chunk, "year") then "Year: " + chunk["year"] else "";
      assert !IsPyBlank(company) by { assert company[0] == 'C'; }
      if TruthyKey(chunk, "year") {
        assert !IsPyBlank(year) by { assert year[0] == 'Y'; }
        assert " " + year == " Year: " + chunk["year"];
      } else {
        assert year == "";
      }
      assert QueryParts(chunk) == Success([company, year, chunk["text"]]);
      JoinNonBlank3(company, year, chunk["text"]);
    }
  }

  /** A document text is "Company: c Years: f-t", then a space and the
      chunk text unless that is blank. It fails exactly when one of the four
      keys is missing. */
  lemma DocumentTextShape(chunk: Record)
    ensures ComposeText(chunk, false).Success?
      <==> "company" in chunk && "from_year" in chunk && "to_year" in chunk && "text" in chunk
    ensures ComposeText(chunk, false).Success? ==> (ComposeText(chunk, false).value
      == "Company: " + chunk["company"] + " Years: " + chunk["from_year"] + "-" + chunk["to_year"]
         + (if IsPyBlank(chunk["text"]) then "" else " " + chunk["text"]))
  {
    if DocumentParts(chunk).Success? {
      var company := "Company: " + chunk["company"];
      var years := "Years: " + chunk["from_year"] + "-" + chunk["to_year"];
      assert DocumentParts(chunk) == Success([company, years, chunk["text"]]);
      assert !IsPyBlank(company) by { assert company[0] == 'C'; }
      assert !IsPyBlank(years) by { assert years[0] == 'Y'; }
      JoinNonBlank3(company, years, chunk["text"]);
      assert company + " " + years
        == "Company: " + chunk["company"] + " Years: " + chunk["from_year"] + "-" + chunk["to_year"];
    }
  }
}
