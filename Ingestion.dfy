/**
  The front end of `initIndexing`: which loader an input string goes to, the
  filter that keeps only documents with meaningful content, and the receipt
  the call returns. The loaders, the text splitter and the vector store are
  outside the model: what the chosen loader returns is an input, the splitter
  is a parameter, and storing the chunks is not modelled.
*/
module Ingestion {
  import opened Wrappers
  import opened JsStrings
  import opened PageModel
  import opened Sequences

  /** A LangChain document: `pageContent` may be missing, and the loader's metadata. */
  datatype Document = Document(pageContent: Option<string>, metadata: map<string, string>)

  /** The loader an input is sent to. */
  datatype InputKind = Pdf | Csv | YouTubeVideo | WebPage | PlainText

  /** `/^https?:\/\//.test(s)` */
  predicate HasHttpScheme(s: string) {
    StartsWith(s, "http://") || StartsWith(s, "https://")
  }

  /** `/^https?:\/\/(www\.)?youtu/.test(s)`: the four prefixes the pattern accepts. */
  predicate IsYouTubeUrl(s: string) {
    StartsWith(s, "http://youtu") || StartsWith(s, "https://youtu")
    || StartsWith(s, "http://www.youtu") || StartsWith(s, "https://www.youtu")
  }

  lemma LongerPrefix(s: string, p: string, q: string)
    requires StartsWith(s, p + q)
    ensures StartsWith(s, p)
  {
    assert s[..|p|] == (p + q)[..|p|];
  }

  /** Every input the YouTube pattern accepts also has an http(s) scheme. */
  lemma YouTubeUrlHasHttpScheme(s: string)
    requires IsYouTubeUrl(s)
    ensures HasHttpScheme(s)
  {
    if StartsWith(s, "http://youtu") {
      LongerPrefix(s, "http://", "youtu");
    } else if StartsWith(s, "https://youtu") {
      LongerPrefix(s, "https://", "youtu");
    } else if StartsWith(s, "http://www.youtu") {
      LongerPrefix(s, "http://", "www.youtu");
    } else {
      LongerPrefix(s, "https://", "www.youtu");
    }
  }

  /**
    The dispatch chain of `initIndexing`: the first test that succeeds wins,
    in the order ".pdf" suffix, ".csv" suffix, YouTube URL, http(s) URL,
    plain text. The suffix tests are case-sensitive and come before the URL
    tests, so a URL ending in ".pdf" goes to the PDF loader.
  */
  function Classify(input: string): (k: InputKind)
    ensures k == Pdf <==> EndsWith(input, ".pdf")
    ensures k == Csv <==> !EndsWith(input, ".pdf") && EndsWith(input, ".csv")
    ensures k == YouTubeVideo <==> !EndsWith(input, ".pdf") && !EndsWith(input, ".csv") && IsYouTubeUrl(input)
    ensures k == WebPage <==>
              !EndsWith(input, ".pdf") && !EndsWith(input, ".csv") && !IsYouTubeUrl(input) && HasHttpScheme(input)
    ensures k == PlainText <==> !EndsWith(input, ".pdf") && !EndsWith(input, ".csv") && !HasHttpScheme(input)
  {
    if EndsWith(input, ".pdf") then Pdf
    else if EndsWith(input, ".csv") then Csv
    else if IsYouTubeUrl(input) then YouTubeUrlHasHttpScheme(input); YouTubeVideo
    else if HasHttpScheme(input) then WebPage
    else PlainText
  }

  /** A suffix test beats the URL tests: a URL naming a PDF goes to the PDF loader. */
  lemma ClassifyPdfUrl()
    ensures Classify("https://example.com/report.pdf") == Pdf
  {
    var pdfUrl := "https://example.com/report.pdf";
    assert pdfUrl[|pdfUrl| - 4..] == ".pdf";
  }

  /** The suffix test is case-sensitive: an upper-case ".PDF" name is treated as plain text. */
  lemma ClassifyUpperCaseSuffix()
    ensures Classify("REPORT.PDF") == PlainText
  {
    var upper := "REPORT.PDF";
    LastDiffers(upper, ".pdf");
    LastDiffers(upper, ".csv");
    DiffersAt(upper, "http://", 0);
    DiffersAt(upper, "https://", 0);
  }

  /** The long YouTube host form goes to the YouTube loader. */
  lemma ClassifyYouTubeWatch()
    ensures Classify("https://www.youtube.com/watch?v=x") == YouTubeVideo
  {
    var yt := "https://www.youtube.com/watch?v=x";
    LastDiffers(yt, ".pdf");
    LastDiffers(yt, ".csv");
    assert yt[..17] == "https://www.youtu";
  }

  /** The short YouTube host form goes to the YouTube loader. */
  lemma ClassifyYouTubeShort()
    ensures Classify("https://youtu.be/x") == YouTubeVideo
  {
    var short := "https://youtu.be/x";
    LastDiffers(short, ".pdf");
    LastDiffers(short, ".csv");
    assert short[..13] == "https://youtu";
  }

  lemma DiffersAt(s: string, p: string, i: nat)
    requires i < |p| && i < |s| && s[i] != p[i]
    ensures !StartsWith(s, p)
  {
    if |p| <= |s| {
      assert s[..|p|][i] == s[i];
    }
  }

  lemma LastDiffers(s: string, suffix: string)
    requires s != [] && suffix != [] && s[|s| - 1] != suffix[|suffix| - 1]
    ensures !EndsWith(s, suffix)
  {
    if |suffix| <= |s| {
      assert s[|s| - |suffix|..][|suffix| - 1] == s[|s| - 1];
    }
  }

  /** Other YouTube hosts are ordinary web pages. */
  lemma ClassifyOtherYouTubeHost()
    ensures Classify("https://m.youtube.com/watch?v=x") == WebPage
  {
    var mobile := "https://m.youtube.com/watch?v=x";
    LastDiffers(mobile, ".pdf");
    LastDiffers(mobile, ".csv");
    MobileHostNotYouTube(mobile);
  }

  /** "m.youtube.com" starts with neither "youtu" nor "www.". */
  lemma MobileHostNotYouTube(mobile: string)
    requires mobile == "https://m.youtube.com/watch?v=x"
    ensures HasHttpScheme(mobile) && !IsYouTubeUrl(mobile)
  {
    assert mobile[..8] == "https://";
    var host := AfterScheme(mobile);
    assert host == mobile[8..];
    assert host[0] == 'm';
    DiffersAt(host, "youtu", 0);
    DiffersAt(host, "www.", 0);
    NotYouTubePattern(mobile);
  }

  /** What follows "http://" or "https://": the host and the rest of the URL. */
  function AfterScheme(s: string): (rest: string)
    requires HasHttpScheme(s)
    ensures s == (if StartsWith(s, "https://") then "https://" else "http://") + rest
  {
    if StartsWith(s, "https://") then
      assert s == s[..8] + s[8..];
      s[8..]
    else
      assert s == s[..7] + s[7..];
      s[7..]
  }

  lemma PrefixRest(s: string, p: string, q: string)
    requires StartsWith(s, p + q)
    ensures StartsWith(s[|p|..], q)
  {
    assert s[|p|..][..|q|] == (p + q)[|p|..];
  }

  /** After "http://" + `q`, the host starts with `q`. */
  lemma HttpHost(s: string, q: string)
    ensures StartsWith(s, "http://" + q) ==> HasHttpScheme(s) && StartsWith(AfterScheme(s), q)
  {
    if StartsWith(s, "http://" + q) {
      LongerPrefix(s, "http://", q);
      assert s[4] == s[..7][4] == ':';
      assert !StartsWith(s, "https://");
      PrefixRest(s, "http://", q);
    }
  }

  /** After "https://" + `q`, the host starts with `q`. */
  lemma HttpsHost(s: string, q: string)
    ensures StartsWith(s, "https://" + q) ==> HasHttpScheme(s) && StartsWith(AfterScheme(s), q)
  {
    if StartsWith(s, "https://" + q) {
      LongerPrefix(s, "https://", q);
      PrefixRest(s, "https://", q);
    }
  }

  /** A host starting with "www.youtu" starts with "www.". */
  lemma WwwHost(host: string)
    ensures StartsWith(host, "www.youtu") ==> StartsWith(host, "www.")
  {
    if StartsWith(host, "www.youtu") {
      LongerPrefix(host, "www.", "youtu");
    }
  }

  /** What the YouTube pattern asks of the host: it starts with "youtu" or "www.". */
  lemma YouTubeHost(s: string)
    requires HasHttpScheme(s)
    ensures IsYouTubeUrl(s) ==> StartsWith(AfterScheme(s), "youtu") || StartsWith(AfterScheme(s), "www.")
  {
    HttpHost(s, "youtu");
    HttpsHost(s, "youtu");
    HttpHost(s, "www.youtu");
    HttpsHost(s, "www.youtu");
    WwwHost(AfterScheme(s));
  }

  /** An http(s) URL whose host starts with neither "youtu" nor "www." fails the YouTube pattern. */
  lemma NotYouTubePattern(s: string)
    requires HasHttpScheme(s)
    requires !StartsWith(AfterScheme(s), "youtu") && !StartsWith(AfterScheme(s), "www.")
    ensures !IsYouTubeUrl(s)
  {
    YouTubeHost(s);
  }

  /** Other schemes are plain text. */
  lemma ClassifyOtherScheme()
    ensures Classify("ftp://example.com") == PlainText
  {
    var ftp := "ftp://example.com";
    LastDiffers(ftp, ".pdf");
    LastDiffers(ftp, ".csv");
    DiffersAt(ftp, "http://", 0);
    DiffersAt(ftp, "https://", 0);
  }

  /**
    What each loader returns for this input, given rather than computed: the
    PDF, CSV and YouTube loaders' documents, and for a web page the rendered
    page the browser script scans plus the metadata the page loader attaches.
  */
  datatype LoaderResults = LoaderResults(
    pdfDocs: seq<Document>,
    csvDocs: seq<Document>,
    videoDocs: seq<Document>,
    page: Page,
    pageMetadata: map<string, string>)

  /** `docs` after the dispatch: the chosen loader's documents, or the input itself as one document. */
  function LoadDocuments(input: string, loaded: LoaderResults): (docs: seq<Document>)
    ensures Classify(input) == Pdf ==> docs == loaded.pdfDocs
    ensures Classify(input) == Csv ==> docs == loaded.csvDocs
    ensures Classify(input) == YouTubeVideo ==> docs == loaded.videoDocs
    ensures Classify(input) == PlainText ==> docs == [Document(Some(input), map[])]
    ensures Classify(input) == WebPage ==>
              |docs| == 1 && docs[0].pageContent == Some(PageText(loaded.page))
  {
    match Classify(input)
    case Pdf => loaded.pdfDocs
    case Csv => loaded.csvDocs
    case YouTubeVideo => loaded.videoDocs
    case WebPage => [Document(Some(PageText(loaded.page)), loaded.pageMetadata)]
    case PlainText => [Document(Some(input), map[])]
  }

  /** Content must be strictly longer than this many UTF-16 units after trimming. */
  const MIN_CONTENT_LENGTH: nat := 200

  /** The filter's test: `doc.pageContent && doc.pageContent.trim().length > 200`. */
  predicate Meaningful(d: Document) {
    d.pageContent.Some? && JsLength(Trim(d.pageContent.value)) > MIN_CONTENT_LENGTH
  }

  /** `docs.filter(Meaningful)`: exactly the meaningful documents, in their loaded order (see FilterAppend). */
  function FilterDocs(docs: seq<Document>): (kept: seq<Document>)
    ensures |kept| <= |docs|
    ensures forall d :: d in kept <==> d in docs && Meaningful(d)
  {
    FilterMembers(docs, Meaningful);
    Filter(docs, Meaningful)
  }

  /** A document's own filter result: itself when meaningful, nothing otherwise. */
  lemma FilterDocsSingle(d: Document)
    ensures FilterDocs([d]) == if Meaningful(d) then [d] else []
  {
    FilterSnoc([], d, Meaningful);
    assert [] + [d] == [d];
  }

  /** The receipt `initIndexing` returns. */
  datatype Receipt = Receipt(documentsProcessed: nat, chunksCreated: nat)

  const NO_CONTENT_ERROR: string := "No meaningful content extracted from the website."

  /**
    `initIndexing(userInput)` up to the vector store: load, filter, fail when
    nothing is left, otherwise split the kept documents with `split` and
    report how many documents and chunks there were.
  */
  function InitIndexing(input: string, loaded: LoaderResults, split: seq<Document> -> seq<Document>): (r: Result<Receipt, string>)
    ensures r.Failure? <==> forall d :: d in LoadDocuments(input, loaded) ==> !Meaningful(d)
    ensures r.Failure? ==> r.error == NO_CONTENT_ERROR
    ensures r.Success? ==>
              r.value.documentsProcessed == |FilterDocs(LoadDocuments(input, loaded))|
              && r.value.documentsProcessed > 0
              && r.value.chunksCreated == |split(FilterDocs(LoadDocuments(input, loaded)))|
  {
    var docs := LoadDocuments(input, loaded);
    var filteredDocs := FilterDocs(docs);
    if |filteredDocs| == 0 then
      Failure(NO_CONTENT_ERROR)
    else
      assert filteredDocs[0] in filteredDocs;
      var splitDocs := split(filteredDocs);
      Success(Receipt(|filteredDocs|, |splitDocs|))
  }

  /** Plain text is indexed as exactly one document, and only when its trimmed text is longer than 200 units. */
  lemma PlainTextIndexing(input: string, loaded: LoaderResults, split: seq<Document> -> seq<Document>)
    requires Classify(input) == PlainText
    ensures InitIndexing(input, loaded, split).Success? <==> JsLength(Trim(input)) > MIN_CONTENT_LENGTH
    ensures InitIndexing(input, loaded, split).Success? ==>
              InitIndexing(input, loaded, split).value.documentsProcessed == 1
  {
    var d := Document(Some(input), map[]);
    assert LoadDocuments(input, loaded) == [d];
    assert d in [d];
    FilterDocsSingle(d);
  }

  /** A web page is indexed as the one document holding its page text, when that text is long enough. */
  lemma WebPageIndexing(input: string, loaded: LoaderResults, split: seq<Document> -> seq<Document>)
    requires Classify(input) == WebPage
    ensures InitIndexing(input, loaded, split).Success? <==> JsLength(Trim(PageText(loaded.page))) > MIN_CONTENT_LENGTH
    ensures InitIndexing(input, loaded, split).Success? ==>
              InitIndexing(input, loaded, split).value.documentsProcessed == 1
  {
    var docs := LoadDocuments(input, loaded);
    assert docs == [docs[0]];
    assert docs[0] in docs;
    FilterDocsSingle(docs[0]);
  }
}
