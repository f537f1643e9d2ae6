/** The report catalogue (csv_processor.py): the CSV rows with their
    COMPANY, FROM YEAR, TO YEAR and ATTACHMENT columns, the canonical file
    name of a downloaded report, the listings of companies and years, the
    choice of the companies most similar to a query, and the metadata of the
    reports that exist on disk. Reading the CSV file and computing
    similarities are outside the model: their results are parameters. */
module CsvProcessor {
  import opened Wrappers
  import opened Text
  import opened Ordering
  import opened Dicts

  /** One row of the catalogue, restricted to the four columns the back end
      reads; every cell is already a string (the source applies astype(str)). */
  datatype Row = Row(company: string, fromYear: string, toYear: string, attachment: string)

  /** The metadata recorded for one report file. */
  datatype PdfMeta = PdfMeta(company: string, fromYear: string, toYear: string, url: string, filepath: string)

  /** One (company, similarity) pair as the matcher produces it. */
  datatype CompanyMatch = CompanyMatch(company: string, similarity: real)

  // ---------------------------------------------------------------------------
  // load_csv

  function TrimRow(r: Row): Row {
    Row(PyStrip(r.company), PyStrip(r.fromYear), PyStrip(r.toYear), r.attachment)
  }

  /** What load_csv leaves in the data frame: COMPANY, FROM YEAR and TO YEAR
      stripped, one row per row read, ATTACHMENT as read. */
  function TrimRows(raw: seq<Row>): (df: seq<Row>)
    ensures |df| == |raw|
    ensures forall i :: 0 <= i < |df| ==> df[i].attachment == raw[i].attachment
    ensures forall i :: 0 <= i < |df| ==>
      && df[i].company == PyStrip(raw[i].company)
      && df[i].fromYear == PyStrip(raw[i].fromYear)
      && df[i].toYear == PyStrip(raw[i].toYear)
  {
    seq(|raw|, i requires 0 <= i < |raw| => TrimRow(raw[i]))
  }

  lemma TrimRowClean(r: Row)
    ensures Unpadded(TrimRow(r).company) && Unpadded(TrimRow(r).fromYear) && Unpadded(TrimRow(r).toYear)
    ensures TrimRow(TrimRow(r)) == TrimRow(r)
  {
    PyStripUnpadded(r.company);
    PyStripUnpadded(r.fromYear);
    PyStripUnpadded(r.toYear);
  }

  /** Every value of the three stripped columns is unpadded after load_csv,
      and loading what was loaded changes nothing. */
  lemma TrimRowsClean(raw: seq<Row>)
    ensures forall i :: 0 <= i < |raw| ==> var r := TrimRows(raw)[i];
      Unpadded(r.company) && Unpadded(r.fromYear) && Unpadded(r.toYear)
    ensures TrimRows(TrimRows(raw)) == TrimRows(raw)
  {
    var once := TrimRows(raw);
    forall i | 0 <= i < |raw|
      ensures Unpadded(once[i].company) && Unpadded(once[i].fromYear) && Unpadded(once[i].toYear)
      ensures TrimRows(once)[i] == once[i]
    {
      TrimRowClean(raw[i]);
    }
  }

  /** The processor object; its one field is the data frame that load_csv
      replaces. Before the first load there is no frame (Python's None). */
  class EnhancedCsvProcessor {
    var df: Option<seq<Row>>

    constructor ()
      ensures df == None
    {
      df := None;
    }

    /** load_csv, given the rows pd.read_csv produced. */
    method LoadCsv(raw: seq<Row>) returns (loaded: seq<Row>)
      modifies this
      ensures df == Some(loaded)
      ensures loaded == TrimRows(raw)
    {
      loaded := TrimRows(raw);
      df := Some(loaded);
    }
  }

  // ---------------------------------------------------------------------------
  // generate_filename

  predicate IsAsciiAlnum(c: char) {
    ('a' <= c <= 'z') || ('A' <= c <= 'Z') || ('0' <= c <= '9')
  }

  /** The letters and digits of s, in order. */
  function AlnumOf(s: string): string {
    if s == [] then "" else (if IsAsciiAlnum(s[0]) then [s[0]] else "") + AlnumOf(s[1..])
  }

  lemma {:induction false} AlnumOfAppend(a: string, b: string)
    ensures AlnumOf(a + b) == AlnumOf(a) + AlnumOf(b)
  {
    if a == [] {
      assert a + b == b;
    } else {
      var head := if IsAsciiAlnum(a[0]) then [a[0]] else "";
      assert (a + b)[0] == a[0];
      assert (a + b)[1..] == a[1..] + b;
      assert AlnumOf(a + b) == head + AlnumOf(a[1..] + b);
      assert AlnumOf(a) == head + AlnumOf(a[1..]);
      AlnumOfAppend(a[1..], b);
    }
  }

  lemma {:induction false} AlnumOfSpaces(s: string)
    requires IsPyBlank(s)
    ensures AlnumOf(s) == ""
  {
    if s != [] {
      assert IsPySpace(s[0]);
      AlnumOfSpaces(s[1..]);
    }
  }

  /** `re.sub(r'[^a-zA-Z0-9\s]', '', s)`: keeps ASCII letters, digits and
      whitespace. */
  function KeepAlnumAndSpace(s: string): (r: string)
    ensures forall i :: 0 <= i < |r| ==> IsAsciiAlnum(r[i]) || IsPySpace(r[i])
    ensures AlnumOf(r) == AlnumOf(s)
  {
    if s == [] then ""
    else
      var rest := KeepAlnumAndSpace(s[1..]);
      var r := (if IsAsciiAlnum(s[0]) || IsPySpace(s[0]) then [s[0]] else "") + rest;
      AlnumOfAppend(if IsAsciiAlnum(s[0]) || IsPySpace(s[0]) then [s[0]] else "", rest);
      r
  }

  /** Text made only of letters, digits and whitespace passes whole. */
  lemma {:induction false} KeepAlnumAndSpaceKeeps(s: string)
    requires forall i :: 0 <= i < |s| ==> IsAsciiAlnum(s[i]) || IsPySpace(s[i])
    ensures KeepAlnumAndSpace(s) == s
  {
    if s != [] {
      KeepAlnumAndSpaceKeeps(s[1..]);
      assert s == [s[0]] + s[1..];
    }
  }

  /** Text with no letter, digit or whitespace is removed entirely. */
  lemma {:induction false} KeepAlnumAndSpaceDrops(s: string)
    requires forall i :: 0 <= i < |s| ==> !(IsAsciiAlnum(s[i]) || IsPySpace(s[i]))
    ensures KeepAlnumAndSpace(s) == ""
  {
    if s != [] {
      KeepAlnumAndSpaceDrops(s[1..]);
    }
  }

  /** The filter works character by character, so it distributes over
      concatenation. */
  lemma {:induction false} KeepAlnumAndSpaceAppend(a: string, b: string)
    ensures KeepAlnumAndSpace(a + b) == KeepAlnumAndSpace(a) + KeepAlnumAndSpace(b)
  {
    if a == [] {
      assert a + b == b;
    } else {
      assert (a + b)[0] == a[0] && (a + b)[1..] == a[1..] + b;
      KeepAlnumAndSpaceAppend(a[1..], b);
    }
  }

  /** `re.sub(r'\s+', '_', s)`: every maximal run of whitespace becomes one '_'. */
  function CollapseSpaces(s: string): string
    decreases |s|
  {
    if s == [] then ""
    else if IsPySpace(s[0]) then "_" + CollapseSpaces(LStrip(s[1..]))
    else [s[0]] + CollapseSpaces(s[1..])
  }

  /** The company part of a generated file name. */
  function CleanCompany(company: string): string {
    CollapseSpaces(PyStrip(KeepAlnumAndSpace(company)))
  }

  /** generate_filename(company, from_year, to_year). */
  function GenerateFilename(company: string, fromYear: string, toYear: string): string {
    CleanCompany(company) + "_" + fromYear + "_" + toYear + ".pdf"
  }

  /** Only ASCII letters, digits and '_'; no '_' at either end; never two
      '_' in a row. */
  ghost predicate SafeName(s: string) {
    && (forall i :: 0 <= i < |s| ==> IsAsciiAlnum(s[i]) || s[i] == '_')
    && (s != [] ==> s[0] != '_' && s[|s| - 1] != '_')
    && (forall i :: 0 <= i < |s| - 1 ==> !(s[i] == '_' && s[i + 1] == '_'))
  }

  /** Only ASCII letters, digits and '_', never two '_' in a row. */
  ghost predicate UnderscoreRuns(r: string) {
    && (forall i :: 0 <= i < |r| ==> IsAsciiAlnum(r[i]) || r[i] == '_')
    && (forall i :: 0 <= i < |r| - 1 ==> !(r[i] == '_' && r[i + 1] == '_'))
  }

  /** Prepending one letter, digit or '_' keeps UnderscoreRuns unless it
      puts two '_' side by side. */
  lemma UnderscoreRunsCons(c: char, u: string)
    requires IsAsciiAlnum(c) || c == '_'
    requires UnderscoreRuns(u)
    requires c == '_' && u != [] ==> u[0] != '_'
    ensures UnderscoreRuns([c] + u)
  {
    var r := [c] + u;
    assert forall i :: 1 <= i < |r| ==> r[i] == u[i - 1];
  }

  /** On text made of letters, digits and whitespace, collapsing the runs of
      whitespace yields letters, digits and single '_'s, and starts with '_'
      exactly when the text starts with whitespace. */
  lemma {:induction false} CollapseSpacesChars(s: string)
    requires forall i :: 0 <= i < |s| ==> IsAsciiAlnum(s[i]) || IsPySpace(s[i])
    ensures var r := CollapseSpaces(s);
      && (forall i :: 0 <= i < |r| ==> IsAsciiAlnum(r[i]) || r[i] == '_')
      && (r == [] <==> s == [])
      && (r != [] ==> (r[0] == '_' <==> IsPySpace(s[0])))
      && (forall i :: 0 <= i < |r| - 1 ==> !(r[i] == '_' && r[i + 1] == '_'))
    decreases |s|
  {
    if s == [] {
    } else if IsPySpace(s[0]) {
      var t := LStrip(s[1..]);
      assert forall i :: 0 <= i < |t| ==> t[i] == s[1..][|s[1..]| - |t| + i];
      CollapseSpacesChars(t);
      var u := CollapseSpaces(t);
      assert UnderscoreRuns(u);
      UnderscoreRunsCons('_', u);
      assert CollapseSpaces(s) == ['_'] + u;
    } else {
      CollapseSpacesChars(s[1..]);
      var u := CollapseSpaces(s[1..]);
      assert UnderscoreRuns(u);
      UnderscoreRunsCons(s[0], u);
      assert CollapseSpaces(s) == [s[0]] + u;
    }
  }

  /** When the text does not end in whitespace, the collapsed text ends with
      the same character. */
  lemma {:induction false} CollapseSpacesLast(s: string)
    requires s != [] && !IsPySpace(s[|s| - 1])
    ensures var r := CollapseSpaces(s); r != [] && r[|r| - 1] == s[|s| - 1]
    decreases |s|
  {
    if IsPySpace(s[0]) {
      var t := LStrip(s[1..]);
      assert t != [] && t[|t| - 1] == s[|s| - 1];
      CollapseSpacesLast(t);
    } else if |s| > 1 {
      CollapseSpacesLast(s[1..]);
    }
  }

  /** The letters and digits of a string with one more character in front. */
  lemma AlnumOfCons(c: char, x: string)
    ensures AlnumOf([c] + x) == (if IsAsciiAlnum(c) then [c] else "") + AlnumOf(x)
  {
    assert ([c] + x)[0] == c && ([c] + x)[1..] == x;
  }

  /** Collapsing whitespace keeps the letters and digits, in order. */
  lemma {:induction false} CollapseSpacesAlnum(s: string)
    ensures AlnumOf(CollapseSpaces(s)) == AlnumOf(s)
    decreases |s|
  {
    if s != [] {
      assert s == [s[0]] + s[1..];
      AlnumOfCons(s[0], s[1..]);
      if IsPySpace(s[0]) {
        var t := LStrip(s[1..]);
        CollapseSpacesAlnum(t);
        LStripKeepsAlnum(s[1..]);
        AlnumOfCons('_', CollapseSpaces(t));
      } else {
        CollapseSpacesAlnum(s[1..]);
        AlnumOfCons(s[0], CollapseSpaces(s[1..]));
      }
    }
  }

  lemma {:induction false} LStripKeepsAlnum(s: string)
    ensures AlnumOf(LStrip(s)) == AlnumOf(s)
  {
    if s != [] && IsPySpace(s[0]) {
      assert !IsAsciiAlnum(s[0]);
      assert AlnumOf(s) == AlnumOf(s[1..]);
      assert LStrip(s) == LStrip(s[1..]);
      LStripKeepsAlnum(s[1..]);
    }
  }

  lemma {:induction false} RStripKeepsAlnum(s: string)
    ensures AlnumOf(RStrip(s)) == AlnumOf(s)
  {
    if s != [] && IsPySpace(s[|s| - 1]) {
      var init := s[..|s| - 1];
      RStripKeepsAlnum(init);
      assert s == init + [s[|s| - 1]];
      AlnumOfAppend(init, [s[|s| - 1]]);
    }
  }

  /** Stripping removes only whitespace, so it keeps the letters and digits. */
  lemma StripKeepsAlnum(s: string)
    ensures AlnumOf(PyStrip(s)) == AlnumOf(s)
  {
    LStripKeepsAlnum(s);
    RStripKeepsAlnum(LStrip(s));
  }

  /** Stripping keeps only characters of its argument. */
  lemma StripKeepsAlphabet(s: string)
    requires forall i :: 0 <= i < |s| ==> IsAsciiAlnum(s[i]) || IsPySpace(s[i])
    ensures var st := PyStrip(s); forall i :: 0 <= i < |st| ==> IsAsciiAlnum(st[i]) || IsPySpace(st[i])
  {
    var l := LStrip(s);
    var st := RStrip(l);
    assert PyStrip(s) == st;
    forall i | 0 <= i < |st| ensures IsAsciiAlnum(st[i]) || IsPySpace(st[i]) {
      assert st[i] == l[i];
      assert l[i] == s[|s| - |l| + i];
    }
  }

  /** Collapsing never changes a run without whitespace in front. */
  lemma {:induction false} CollapseSpacesWord(w: string, y: string)
    requires forall i :: 0 <= i < |w| ==> !IsPySpace(w[i])
    ensures CollapseSpaces(w + y) == w + CollapseSpaces(y)
  {
    if w == [] {
      assert w + y == y;
    } else {
      assert (w + y)[0] == w[0] && (w + y)[1..] == w[1..] + y;
      CollapseSpacesWord(w[1..], y);
    }
  }

  /** A run of whitespace in front of text that starts with no whitespace
      collapses to one '_'. */
  lemma CollapseBlankHead(sp: string, u: string)
    requires sp != [] && IsPyBlank(sp) && (u == [] || !IsPySpace(u[0]))
    ensures CollapseSpaces(sp + u) == "_" + CollapseSpaces(u)
  {
    ConsTail(sp, u);
    LStripBlankHead(sp[1..], u);
  }

  lemma ConsTail(a: string, b: string)
    requires a != []
    ensures (a + b)[0] == a[0] && (a + b)[1..] == a[1..] + b
  {
  }

  /** Non-blank text that starts with whitespace: rstrip and collapse give
      one '_' followed by the collapse of the stripped text. */
  lemma CollapseAfterSpace(y: string)
    requires y != [] && IsPySpace(y[0]) && !IsPyBlank(y)
    ensures CollapseSpaces(RStrip(y)) == "_" + CollapseSpaces(PyStrip(y))
  {
    var z := LStrip(y);
    var sp := y[..|y| - |z|];
    LStripSplit(y);
    assert z != [] && !IsPySpace(z[0]);
    assert !IsPyBlank(z);
    RStripAppend(sp, z);
    var u := RStrip(z);
    assert u != [] && u[0] == z[0];
    assert sp != [] && sp[0] == y[0];
    CollapseBlankHead(sp, u);
  }

  /** Stripping and collapsing the whitespace runs joins the words of
      str.split() with single '_'s. */
  lemma {:induction false} CollapseStripWords(x: string)
    ensures CollapseSpaces(PyStrip(x)) == JoinWith("_", Words(x))
    decreases |x|
  {
    var t := LStrip(x);
    if t != [] {
      var w := WordPrefix(t);
      var rest := t[|w|..];
      assert t == w + rest;
      assert Words(x) == [w] + Words(rest);
      if IsPyBlank(rest) {
        LastWord(w, rest);
      } else {
        assert rest[0] == t[|w|];
        CollapseStripWords(rest);
        InnerWord(w, rest);
      }
    }
  }

  /** The last word: what follows it is blank. */
  lemma LastWord(w: string, rest: string)
    requires IsWord(w) && IsPyBlank(rest)
    ensures CollapseSpaces(RStrip(w + rest)) == JoinWith("_", [w] + Words(rest))
  {
    WordsBlank(rest);
    assert [w] + Words(rest) == [w];
    RStripBlankTail(w, rest);
    assert RStrip(w) == w;
    CollapseSpacesWord(w, "");
    assert w + "" == w;
  }

  /** A word followed by whitespace and more words. */
  lemma InnerWord(w: string, rest: string)
    requires IsWord(w) && rest != [] && IsPySpace(rest[0]) && !IsPyBlank(rest)
    requires CollapseSpaces(PyStrip(rest)) == JoinWith("_", Words(rest))
    ensures CollapseSpaces(RStrip(w + rest)) == JoinWith("_", [w] + Words(rest))
  {
    InnerWordCollapse(w, rest);
    WordsBlank(rest);
    JoinCons("_", w, Words(rest));
  }

  /** rstrip and collapse of a word followed by non-blank text that starts
      with whitespace. */
  lemma InnerWordCollapse(w: string, rest: string)
    requires IsWord(w) && rest != [] && IsPySpace(rest[0]) && !IsPyBlank(rest)
    ensures CollapseSpaces(RStrip(w + rest)) == w + "_" + CollapseSpaces(PyStrip(rest))
  {
    var c := CollapseSpaces(PyStrip(rest));
    assert RStrip(w + rest) == w + RStrip(rest) by {
      RStripAppend(w, rest);
    }
    assert CollapseSpaces(w + RStrip(rest)) == w + CollapseSpaces(RStrip(rest)) by {
      CollapseSpacesWord(w, RStrip(rest));
    }
    assert CollapseSpaces(RStrip(rest)) == "_" + c by {
      CollapseAfterSpace(rest);
    }
    ConcatAssoc(w, "_", c);
  }

  lemma ConcatAssoc(a: string, b: string, c: string)
    ensures a + (b + c) == a + b + c
  {
  }

  lemma JoinCons(sep: string, w: string, ws: seq<string>)
    requires ws != []
    ensures JoinWith(sep, [w] + ws) == w + sep + JoinWith(sep, ws)
  {
    assert ([w] + ws)[1..] == ws;
  }

  /** The company part of a generated file name is the words of the company,
      after dropping every character other than letters, digits and
      whitespace, joined with '_'. */
  lemma CleanCompanyWords(company: string)
    ensures CleanCompany(company) == JoinWith("_", Words(KeepAlnumAndSpace(company)))
  {
    CollapseStripWords(KeepAlnumAndSpace(company));
  }

  /** The company part of every generated file name is a safe name holding
      exactly the ASCII letters and digits of the company, in order: other
      characters, including '_', are dropped, and each whitespace run
      between words becomes a single '_'. */
  lemma CleanCompanySafe(company: string)
    ensures SafeName(CleanCompany(company))
    ensures AlnumOf(CleanCompany(company)) == AlnumOf(company)
  {
    var kept := KeepAlnumAndSpace(company);
    var st := PyStrip(kept);
    StripKeepsAlnum(kept);
    StripKeepsAlphabet(kept);
    PyStripEnds(kept);
    CollapseSpacesChars(st);
    CollapseSpacesAlnum(st);
    if st != [] {
      CollapseSpacesLast(st);
    }
  }

  // ---------------------------------------------------------------------------
  // get_all_companies, get_years_for_company

  function Companies(df: seq<Row>): (cs: seq<string>)
    ensures forall c :: c in cs <==> exists r :: r in df && r.company == c
  {
    if df == [] then []
    else
      var rest := Companies(df[1..]);
      assert forall r :: r in df <==> r == df[0] || r in df[1..];
      [df[0].company] + rest
  }

  /** get_all_companies(): each company of the frame once, in increasing
      order. */
  function AllCompanies(df: seq<Row>): (r: seq<string>)
    ensures StrictlySorted(r)
    ensures forall c :: c in r <==> exists row :: row in df && row.company == c
  {
    SortedDistinct(Companies(df))
  }

  /** The FROM YEAR and TO YEAR values of the company's rows. */
  function YearsOf(df: seq<Row>, company: string): (ys: seq<string>)
    ensures forall y :: y in ys <==>
      exists r :: r in df && r.company == company && (r.fromYear == y || r.toYear == y)
  {
    if df == [] then []
    else
      var rest := YearsOf(df[1..], company);
      assert forall r :: r in df <==> r == df[0] || r in df[1..];
      (if df[0].company == company then [df[0].fromYear, df[0].toYear] else []) + rest
  }

  /** get_years_for_company(company): the union of the company's FROM YEAR
      and TO YEAR values, each once, in increasing order; empty for a company
      the frame does not hold. */
  function YearsForCompany(df: seq<Row>, company: string): (r: seq<string>)
    ensures StrictlySorted(r)
    ensures forall y :: y in r <==>
      exists row :: row in df && row.company == company && (row.fromYear == y || row.toYear == y)
  {
    SortedDistinct(YearsOf(df, company))
  }

  // ---------------------------------------------------------------------------
  // find_best_matching_companies (the selection; similarities are given)

  function Similarity(m: CompanyMatch): real { m.similarity }

  /** The pairs at or above the threshold, in their original order. */
  function AboveThreshold(sims: seq<CompanyMatch>, threshold: real): (r: seq<CompanyMatch>)
    ensures forall m :: m in r <==> m in sims && m.similarity >= threshold
  {
    if sims == [] then []
    else
      var last := sims[|sims| - 1];
      var rest := AboveThreshold(sims[..|sims| - 1], threshold);
      assert forall m :: m in sims <==> m == last || m in sims[..|sims| - 1];
      rest + (if last.similarity >= threshold then [last] else [])
  }

  /** The loop of find_best_matching_companies that keeps the pairs at or
      above the threshold, in their order. */
  method KeepAboveThreshold(sims: seq<CompanyMatch>, threshold: real) returns (found: seq<CompanyMatch>)
    ensures found == AboveThreshold(sims, threshold)
  {
    found := [];
    for i := 0 to |sims|
      invariant found == AboveThreshold(sims[..i], threshold)
    {
      if sims[i].similarity >= threshold {
        found := found + [sims[i]];
      }
      assert sims[..i + 1][..i] == sims[..i];
    }
    assert sims[..|sims|] == sims;
  }

  /** find_best_matching_companies: `sims` holds each catalogue company with
      its similarity to the query (in the order of company_embeddings). The
      loop keeps the pairs at or above the threshold, the stable sort puts
      them in decreasing similarity, and at most top_k are returned. */
  method FindBestMatchingCompanies(sims: seq<CompanyMatch>, threshold: real, topK: int)
    returns (matches: seq<CompanyMatch>)
    ensures matches == PyTake(SortDesc(AboveThreshold(sims, threshold), Similarity), topK)
    ensures topK >= 0 ==> |matches| <= topK
    ensures forall m :: m in matches ==> m in sims && m.similarity >= threshold
    ensures forall i, j :: 0 <= i < j < |matches| ==> matches[i].similarity >= matches[j].similarity
  {
    var found := KeepAboveThreshold(sims, threshold);
    var sorted := SortDesc(found, Similarity);
    matches := PyTake(sorted, topK);
    forall m | m in matches ensures m in sims && m.similarity >= threshold {
      assert m in multiset(sorted);
    }
  }

  /** No company left out of the result is more similar than one in it. */
  lemma BestMatchesDominate(sims: seq<CompanyMatch>, threshold: real, topK: int, m: CompanyMatch, n: CompanyMatch)
    requires var ms := PyTake(SortDesc(AboveThreshold(sims, threshold), Similarity), topK);
      m in ms && n in sims && n.similarity >= threshold && n !in ms
    ensures n.similarity <= m.similarity
  {
    var sorted := SortDesc(AboveThreshold(sims, threshold), Similarity);
    var ms := PyTake(sorted, topK);
    assert n in multiset(sorted);
    PrefixDominates(sorted, Similarity, |ms|, m, n);
  }

  // ---------------------------------------------------------------------------
  // get_pdf_metadata_for_companies

  /** Python truthiness of an optional string: None and "" are false. */
  predicate Truthy(s: Option<string>) {
    s.Some? && s.value != ""
  }

  /** The company and year masks of get_pdf_metadata_for_companies. */
  predicate Selected(r: Row, companies: seq<string>, yearFilter: Option<string>) {
    r.company in companies
    && (Truthy(yearFilter) ==> r.fromYear == yearFilter.value || r.toYear == yearFilter.value)
  }

  /** The metadata entry a selected row yields. */
  function MetaOf(r: Row, downloadDir: string): PdfMeta {
    PdfMeta(r.company, r.fromYear, r.toYear, r.attachment,
            PathJoin(downloadDir, GenerateFilename(r.company, r.fromYear, r.toYear)))
  }

  /** The dictionary after the loop has seen the rows of df: each selected
      row whose file exists is stored under its generated name, a later row
      replacing an earlier one with the same name. */
  function MetadataOf(df: seq<Row>, companies: seq<string>, yearFilter: Option<string>,
                      downloadDir: string, exists_: string -> bool): Dict<string, PdfMeta>
  {
    if df == [] then []
    else
      var r := df[|df| - 1];
      var before := MetadataOf(df[..|df| - 1], companies, yearFilter, downloadDir, exists_);
      var meta := MetaOf(r, downloadDir);
      if Selected(r, companies, yearFilter) && exists_(meta.filepath)
      then Put(before, GenerateFilename(r.company, r.fromYear, r.toYear), meta)
      else before
  }

  /** get_pdf_metadata_for_companies(companies, year_filter); `exists_`
      stands for os.path.exists. */
  method GetPdfMetadataForCompanies(df: seq<Row>, companies: seq<string>, yearFilter: Option<string>,
                                    downloadDir: string, exists_: string -> bool)
    returns (pdfMetadata: Dict<string, PdfMeta>)
    ensures pdfMetadata == MetadataOf(df, companies, yearFilter, downloadDir, exists_)
  {
    pdfMetadata := [];
    for i := 0 to |df|
      invariant pdfMetadata == MetadataOf(df[..i], companies, yearFilter, downloadDir, exists_)
    {
      var row := df[i];
      assert df[..i + 1][..i] == df[..i] && df[..i + 1][i] == row;
      var filename := GenerateFilename(row.company, row.fromYear, row.toYear);
      var filepath := PathJoin(downloadDir, filename);
      if Selected(row, companies, yearFilter) && exists_(filepath) {
        pdfMetadata := Put(pdfMetadata, filename, PdfMeta(row.company, row.fromYear, row.toYear, row.attachment, filepath));
      }
    }
    assert df[..|df|] == df;
  }

  /** A row that the loop stores: selected, and its file exists. */
  predicate Stored(r: Row, companies: seq<string>, yearFilter: Option<string>,
                   downloadDir: string, exists_: string -> bool) {
    Selected(r, companies, yearFilter) && exists_(MetaOf(r, downloadDir).filepath)
  }

  /** The generated file name of a row. */
  function FileNameOf(r: Row): string {
    GenerateFilename(r.company, r.fromYear, r.toYear)
  }

  /** The last stored row with a given file name wins: when no later row is
      stored under the same name, the dictionary maps the name to that
      row's entry. */
  lemma {:induction false} MetadataOfLast(df: seq<Row>, companies: seq<string>, yearFilter: Option<string>,
                                          downloadDir: string, exists_: string -> bool, i: nat)
    requires i < |df| && Stored(df[i], companies, yearFilter, downloadDir, exists_)
    requires forall j :: i < j < |df| && Stored(df[j], companies, yearFilter, downloadDir, exists_) ==>
      FileNameOf(df[j]) != FileNameOf(df[i])
    ensures Get(MetadataOf(df, companies, yearFilter, downloadDir, exists_), FileNameOf(df[i]))
      == Some(MetaOf(df[i], downloadDir))
  {
    var init := df[..|df| - 1];
    if i < |df| - 1 {
      LaterNamesDiffer(df, companies, yearFilter, downloadDir, exists_, i);
      MetadataOfLast(init, companies, yearFilter, downloadDir, exists_, i);
    }
    MetadataOfStep(df, companies, yearFilter, downloadDir, exists_, i);
  }

  /** One step of the row loop keeps or stores the entry of row i. */
  lemma MetadataOfStep(df: seq<Row>, companies: seq<string>, yearFilter: Option<string>,
                       downloadDir: string, exists_: string -> bool, i: nat)
    requires i < |df| && Stored(df[i], companies, yearFilter, downloadDir, exists_)
    requires i < |df| - 1 ==>
      Get(MetadataOf(df[..|df| - 1], companies, yearFilter, downloadDir, exists_), FileNameOf(df[i]))
        == Some(MetaOf(df[i], downloadDir))
    requires i < |df| - 1 && Stored(df[|df| - 1], companies, yearFilter, downloadDir, exists_) ==>
      FileNameOf(df[|df| - 1]) != FileNameOf(df[i])
    ensures Get(MetadataOf(df, companies, yearFilter, downloadDir, exists_), FileNameOf(df[i]))
      == Some(MetaOf(df[i], downloadDir))
  {
    var r := df[|df| - 1];
    var before := MetadataOf(df[..|df| - 1], companies, yearFilter, downloadDir, exists_);
    if Stored(r, companies, yearFilter, downloadDir, exists_) {
      PutGet(before, FileNameOf(r), MetaOf(r, downloadDir), FileNameOf(df[i]));
    }
  }

  lemma LaterNamesDiffer(df: seq<Row>, companies: seq<string>, yearFilter: Option<string>,
                         downloadDir: string, exists_: string -> bool, i: nat)
    requires i < |df| - 1
    requires forall j :: i < j < |df| && Stored(df[j], companies, yearFilter, downloadDir, exists_) ==>
      FileNameOf(df[j]) != FileNameOf(df[i])
    ensures var init := df[..|df| - 1];
      && init[i] == df[i]
      && forall j :: i < j < |init| && Stored(init[j], companies, yearFilter, downloadDir, exists_) ==>
           FileNameOf(init[j]) != FileNameOf(init[i])
  {
    var init := df[..|df| - 1];
    forall j | i < j < |init| && Stored(init[j], companies, yearFilter, downloadDir, exists_)
      ensures FileNameOf(init[j]) != FileNameOf(init[i])
    {
      assert init[j] == df[j] && init[i] == df[i];
    }
  }

  /** Every entry comes from a selected row whose file exists and is stored
      under that row's generated name; every such row has an entry under its
      name; and no name is stored twice. */
  lemma MetadataOfSound(df: seq<Row>, companies: seq<string>, yearFilter: Option<string>,
                        downloadDir: string, exists_: string -> bool)
    ensures var d := MetadataOf(df, companies, yearFilter, downloadDir, exists_);
      && DistinctKeys(d)
      && (forall e :: e in d ==>
            exists r :: r in df && Selected(r, companies, yearFilter)
              && e.0 == GenerateFilename(r.company, r.fromYear, r.toYear)
              && e.1 == MetaOf(r, downloadDir) && exists_(e.1.filepath))
      && (forall r :: r in df && Selected(r, companies, yearFilter) && exists_(MetaOf(r, downloadDir).filepath)
            ==> GenerateFilename(r.company, r.fromYear, r.toYear) in Keys(d))
  {
    MetadataOfDistinct(df, companies, yearFilter, downloadDir, exists_);
    MetadataOfEntries(df, companies, yearFilter, downloadDir, exists_);
    MetadataOfCovers(df, companies, yearFilter, downloadDir, exists_);
  }

  lemma {:induction false} MetadataOfDistinct(df: seq<Row>, companies: seq<string>, yearFilter: Option<string>,
                                              downloadDir: string, exists_: string -> bool)
    ensures DistinctKeys(MetadataOf(df, companies, yearFilter, downloadDir, exists_))
  {
    if df != [] {
      var init := df[..|df| - 1];
      var r := df[|df| - 1];
      MetadataOfDistinct(init, companies, yearFilter, downloadDir, exists_);
      var before := MetadataOf(init, companies, yearFilter, downloadDir, exists_);
      if Stored(r, companies, yearFilter, downloadDir, exists_) {
        PutDistinct(before, FileNameOf(r), MetaOf(r, downloadDir));
      }
    }
  }

  lemma {:induction false} MetadataOfEntries(df: seq<Row>, companies: seq<string>, yearFilter: Option<string>,
                                             downloadDir: string, exists_: string -> bool)
    ensures forall e :: e in MetadataOf(df, companies, yearFilter, downloadDir, exists_) ==>
      exists r :: r in df && Selected(r, companies, yearFilter)
        && e.0 == GenerateFilename(r.company, r.fromYear, r.toYear)
        && e.1 == MetaOf(r, downloadDir) && exists_(e.1.filepath)
  {
    if df != [] {
      var init := df[..|df| - 1];
      var r := df[|df| - 1];
      MetadataOfEntries(init, companies, yearFilter, downloadDir, exists_);
      var before := MetadataOf(init, companies, yearFilter, downloadDir, exists_);
      var d := MetadataOf(df, companies, yearFilter, downloadDir, exists_);
      assert forall x :: x in init ==> x in df;
      assert r in df;
      if Stored(r, companies, yearFilter, downloadDir, exists_) {
        forall e | e in d
          ensures exists x :: (x in df && Selected(x, companies, yearFilter)
            && e.0 == GenerateFilename(x.company, x.fromYear, x.toYear)
            && e.1 == MetaOf(x, downloadDir) && exists_(e.1.filepath))
        {
          PutEntries(before, FileNameOf(r), MetaOf(r, downloadDir), e);
        }
      }
    }
  }

  lemma {:induction false} MetadataOfCovers(df: seq<Row>, companies: seq<string>, yearFilter: Option<string>,
                                            downloadDir: string, exists_: string -> bool)
    ensures forall r :: r in df && Stored(r, companies, yearFilter, downloadDir, exists_) ==>
      FileNameOf(r) in Keys(MetadataOf(df, companies, yearFilter, downloadDir, exists_))
  {
    if df != [] {
      var init := df[..|df| - 1];
      var r := df[|df| - 1];
      MetadataOfCovers(init, companies, yearFilter, downloadDir, exists_);
      var before := MetadataOf(init, companies, yearFilter, downloadDir, exists_);
      var d := MetadataOf(df, companies, yearFilter, downloadDir, exists_);
      if Stored(r, companies, yearFilter, downloadDir, exists_) {
        PutKeys(before, FileNameOf(r), MetaOf(r, downloadDir));
      }
      forall x | x in df && Stored(x, companies, yearFilter, downloadDir, exists_)
        ensures FileNameOf(x) in Keys(d)
      {
        assert x == r || x in init;
      }
    }
  }

}
