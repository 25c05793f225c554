/**
 * `NuclearScanner` (main.py): one downloaded attachment, its extension, the
 * text the document readers extract from it, and the risk state that
 * `analyze_results` accumulates. The PDF renderer, OCR engine and DOCX reader
 * are foreign; what they produce for the file's bytes is given as a
 * `FileReadings` value, fixed when the scanner is created.
 */
module Scanner {
  import opened Strings
  import opened Scoring

  /** What rendering, OCR and the text layer give for a PDF. */
  datatype PdfReading =
    | PdfRendered(ocrText: string, pageTexts: seq<string>)
    | PdfRenderFailed(error: string)

  /**
   * What the DOCX reader gives: paragraph texts, every table cell's text in
   * table/row/cell order, and the OCR text of the embedded images ("" when
   * there are none). On an exception, the text appended before it.
   */
  datatype DocxReading =
    | DocxRead(paragraphs: seq<string>, cellTexts: seq<string>, imageOcr: string)
    | DocxFailed(partialText: string, error: string)

  /** The readings of one file's bytes; `utf8Text` is `decode('utf-8', errors='ignore')`. */
  datatype FileReadings = FileReadings(pdf: PdfReading, docx: DocxReading, utf8Text: string)

  const WordScanAlert := "[SKAN W WORDZIE]"
  const PdfErrorPrefix := "PDF Render Error: "
  const DocxErrorPrefix := "DOCX Error: "

  /** `s.split('.')[-1]`: what follows the last dot, or all of `s` when it has none. */
  function LastSegment(s: string): string
  {
    if |s| == 0 || s[|s| - 1] == '.' then ""
    else LastSegment(s[..|s| - 1]) + [s[|s| - 1]]
  }

  /** The last segment is a dot-free suffix, preceded by a dot unless it is the whole name. */
  lemma {:induction false} LastSegmentShape(s: string)
    ensures var r := LastSegment(s);
      && '.' !in r
      && |r| <= |s| && r == s[|s| - |r|..]
      && (|r| < |s| ==> s[|s| - |r| - 1] == '.')
  {
    if |s| > 0 && s[|s| - 1] != '.' {
      var init := s[..|s| - 1];
      LastSegmentShape(init);
      var r0 := LastSegment(init);
      assert s[|s| - |r0| - 1..] == init[|init| - |r0|..] + [s[|s| - 1]];
      if |r0| < |init| {
        assert s[|s| - |r0| - 2] == init[|init| - |r0| - 1];
      }
    }
  }

  /** `filename.split('.')[-1].lower()` */
  function Extension(filename: string): string
  {
    Lower(LastSegment(filename))
  }

  /** A name with a dot has as its extension exactly what follows the last dot. */
  lemma {:induction false} ExtensionOfDotted(stem: string, ext: string)
    requires '.' !in ext
    ensures LastSegment(stem + "." + ext) == ext
    decreases |ext|
  {
    var s := stem + "." + ext;
    if |ext| > 0 {
      var init := ext[..|ext| - 1];
      assert s[..|s| - 1] == stem + "." + init;
      assert s[|s| - 1] == ext[|ext| - 1];
      ExtensionOfDotted(stem, init);
      assert ext == init + [ext[|ext| - 1]];
    } else {
      assert s[|s| - 1] == '.';
    }
  }

  predicate IsDocx(ext: string) { ext == "docx" || ext == "doc" }

  /** `t + " "` for every part, concatenated. */
  function Spaced(parts: seq<string>): string
  {
    if |parts| == 0 then "" else Spaced(parts[..|parts| - 1]) + parts[|parts| - 1] + " "
  }

  /** The text cache after the extraction step of `run`, given the cache before it. */
  function ExtractedText(r: FileReadings, ext: string, cache: string): string
  {
    if ext == "pdf" then
      match r.pdf
      case PdfRendered(ocr, pages) => ocr + Spaced(pages)
      case PdfRenderFailed(_) => cache
    else if IsDocx(ext) then
      match r.docx
      case DocxRead(pars, cells, ocr) =>
        cache + Join(pars, " ") + Spaced(cells) + (if ocr != "" then " " + ocr else "")
      case DocxFailed(partial, _) => cache + partial
    else r.utf8Text
  }

  /** The alerts the extraction step of `run` appends. */
  function ExtractionAlerts(r: FileReadings, ext: string): seq<string>
  {
    if ext == "pdf" then
      match r.pdf
      case PdfRendered(_, _) => []
      case PdfRenderFailed(err) => [PdfErrorPrefix + err]
    else if IsDocx(ext) then
      match r.docx
      case DocxRead(_, _, ocr) => if ocr != "" then [WordScanAlert] else []
      case DocxFailed(_, err) => [DocxErrorPrefix + err]
    else []
  }

  /** The alert `analyze_results` appends, if any. */
  function CorrelationAlerts(mt: Matcher, clean: string): seq<string>
  {
    if Correlated(FoundCats(mt, clean, SemanticTriggers)) then [CorrelationAlert] else []
  }

  /** What a fresh scanner's `run` yields: the returned risk, `vectors` and `alerts`. */
  datatype Report = Report(score: int, vectors: seq<string>, alerts: seq<string>)

  function ScanReport(r: FileReadings, filename: string, mt: Matcher): (rep: Report)
    ensures 0 <= rep.score <= MaxRisk && rep.score % 2 == 0
  {
    var ext := Extension(filename);
    var clean := Normalise(mt, ExtractedText(r, ext, ""));
    Report(Score(mt, clean, SemanticTriggers),
           Vectors(mt, clean, SemanticTriggers),
           ExtractionAlerts(r, ext) + CorrelationAlerts(mt, clean))
  }

  /**
   * What a scan reports: the correlation alert exactly when both categories
   * were found, and only trigger terms as vectors.
   */
  lemma ScanReportFacts(r: FileReadings, filename: string, mt: Matcher)
    ensures var rep := ScanReport(r, filename, mt);
      && (CorrelationAlert in rep.alerts <==>
          Correlated(FoundCats(mt, Normalise(mt, ExtractedText(r, Extension(filename), "")), SemanticTriggers)))
      && (forall v :: v in rep.vectors ==> exists c :: 0 <= c < |SemanticTriggers| && v in SemanticTriggers[c].1)
  {
    var ext := Extension(filename);
    var clean := Normalise(mt, ExtractedText(r, ext, ""));
    var rep := ScanReport(r, filename, mt);
    ExtractionAlertsAreNotCorrelation(r, ext);
    forall v | v in rep.vectors
      ensures exists c :: 0 <= c < |SemanticTriggers| && v in SemanticTriggers[c].1
    {
      VectorsExact(mt, clean, SemanticTriggers, v);
    }
  }

  lemma ExtractionAlertsAreNotCorrelation(r: FileReadings, ext: string)
    ensures CorrelationAlert !in ExtractionAlerts(r, ext)
  {
    var a := ExtractionAlerts(r, ext);
    if |a| == 1 {
      assert a[0][0] != CorrelationAlert[0];
    }
  }

  class NuclearScanner {
    const fileBytes: FileReadings
    const filename: string
    const ext: string
    var risk: int
    var vectors: seq<string>
    var alerts: seq<string>
    var fullTextCache: string

    /** Whether the scanner is as `__init__` leaves it. */
    predicate Fresh()
      reads this
    {
      risk == 0 && vectors == [] && alerts == [] && fullTextCache == ""
    }

    constructor (fileBytes: FileReadings, filename: string)
      ensures this.fileBytes == fileBytes && this.filename == filename
      ensures ext == Extension(filename)
      ensures Fresh()
    {
      this.fileBytes := fileBytes;
      this.filename := filename;
      ext := Lower(LastSegment(filename));
      risk := 0;
      vectors := [];
      alerts := [];
      fullTextCache := "";
    }

    /** `scan_pdf`: the OCR text, then each page's text layer followed by a space. */
    method ScanPdf()
      modifies this
      ensures risk == old(risk) && vectors == old(vectors)
      ensures fullTextCache == ExtractedText(fileBytes, "pdf", old(fullTextCache))
      ensures alerts == old(alerts) + ExtractionAlerts(fileBytes, "pdf")
    {
      match fileBytes.pdf {
        case PdfRenderFailed(err) =>
          alerts := alerts + [PdfErrorPrefix + err];
        case PdfRendered(ocr, pages) =>
          fullTextCache := ocr;
          var k := 0;
          while k < |pages|
            invariant 0 <= k <= |pages|
            invariant fullTextCache == ocr + Spaced(pages[..k])
            invariant risk == old(risk) && vectors == old(vectors) && alerts == old(alerts)
          {
            assert pages[..k + 1][..k] == pages[..k];
            fullTextCache := fullTextCache + pages[k] + " ";
            k := k + 1;
          }
          assert pages[..k] == pages;
      }
    }

    /** `scan_docx`: paragraphs joined by spaces, then every cell followed by a space, then image OCR. */
    method ScanDocx()
      modifies this
      ensures risk == old(risk) && vectors == old(vectors)
      ensures fullTextCache == ExtractedText(fileBytes, "docx", old(fullTextCache))
      ensures alerts == old(alerts) + ExtractionAlerts(fileBytes, "docx")
    {
      match fileBytes.docx {
        case DocxFailed(partial, err) =>
          fullTextCache := fullTextCache + partial;
          alerts := alerts + [DocxErrorPrefix + err];
        case DocxRead(pars, cells, ocr) =>
          fullTextCache := fullTextCache + Join(pars, " ");
          var before := fullTextCache;
          var k := 0;
          while k < |cells|
            invariant 0 <= k <= |cells|
            invariant fullTextCache == before + Spaced(cells[..k])
            invariant risk == old(risk) && vectors == old(vectors) && alerts == old(alerts)
          {
            assert cells[..k + 1][..k] == cells[..k];
            fullTextCache := fullTextCache + cells[k] + " ";
            k := k + 1;
          }
          assert cells[..k] == cells;
          if ocr != "" {
            fullTextCache := fullTextCache + " " + ocr;
            alerts := alerts + [WordScanAlert];
          }
      }
    }

    /**
     * `analyze_results`: every hitting trigger term is appended to `vectors`
     * and adds 2 to `risk`; both categories found add 10 and the correlation
     * alert; the result is the risk clamped to 10.
     */
    method AnalyzeResults(mt: Matcher) returns (score: int)
      modifies this
      ensures fullTextCache == old(fullTextCache)
      ensures var clean := Normalise(mt, old(fullTextCache));
        && vectors == old(vectors) + Vectors(mt, clean, SemanticTriggers)
        && risk == old(risk) + RawRisk(mt, clean, SemanticTriggers)
        && alerts == old(alerts) + CorrelationAlerts(mt, clean)
      ensures score == if risk < MaxRisk then risk else MaxRisk
    {
      var clean := KeepAllowed(Lower(mt.unidecode(fullTextCache)));
      var foundCats := ScanCategories(mt, clean, SemanticTriggers);
      if Services in foundCats && Finance in foundCats {
        risk := risk + CorrelationBonus;
        alerts := alerts + [CorrelationAlert];
      }
      score := if risk < MaxRisk then risk else MaxRisk;
    }

    /** The outer loop of `analyze_results`, over the categories of `triggers`. */
    method ScanCategories(mt: Matcher, clean: string, triggers: Triggers) returns (foundCats: set<string>)
      modifies this
      ensures vectors == old(vectors) + Vectors(mt, clean, triggers)
      ensures risk == old(risk) + RiskPerMatch * |Vectors(mt, clean, triggers)|
      ensures foundCats == FoundCats(mt, clean, triggers)
      ensures alerts == old(alerts) && fullTextCache == old(fullTextCache)
    {
      foundCats := {};
      var c := 0;
      while c < |triggers|
        invariant 0 <= c <= |triggers|
        invariant vectors == old(vectors) + Vectors(mt, clean, triggers[..c])
        invariant risk == old(risk) + RiskPerMatch * |Vectors(mt, clean, triggers[..c])|
        invariant foundCats == FoundCats(mt, clean, triggers[..c])
        invariant alerts == old(alerts) && fullTextCache == old(fullTextCache)
      {
        var cat, terms := triggers[c].0, triggers[c].1;
        ghost var found := Vectors(mt, clean, triggers[..c]);
        ghost var hits := MatchedTerms(mt, clean, terms);
        var hit := ScanCategory(mt, clean, terms);
        if hit {
          foundCats := foundCats + {cat};
        }
        assert triggers[..c + 1][..c] == triggers[..c];
        assert Vectors(mt, clean, triggers[..c + 1]) == found + hits;
        assert |found + hits| == |found| + |hits|;
        c := c + 1;
      }
      assert triggers[..c] == triggers;
    }

    /** The inner loop of `analyze_results` over one category's terms. */
    method ScanCategory(mt: Matcher, clean: string, terms: seq<string>) returns (hit: bool)
      modifies this
      ensures hit <==> MatchedTerms(mt, clean, terms) != []
      ensures vectors == old(vectors) + MatchedTerms(mt, clean, terms)
      ensures risk == old(risk) + RiskPerMatch * |MatchedTerms(mt, clean, terms)|
      ensures alerts == old(alerts) && fullTextCache == old(fullTextCache)
    {
      hit := false;
      var t := 0;
      while t < |terms|
        invariant 0 <= t <= |terms|
        invariant hit <==> MatchedTerms(mt, clean, terms[..t]) != []
        invariant vectors == old(vectors) + MatchedTerms(mt, clean, terms[..t])
        invariant risk == old(risk) + RiskPerMatch * |MatchedTerms(mt, clean, terms[..t])|
        invariant alerts == old(alerts) && fullTextCache == old(fullTextCache)
      {
        assert terms[..t + 1][..t] == terms[..t];
        var termClean := Lower(mt.unidecode(terms[t]));
        if IsSubstring(termClean, clean) || mt.partialRatio(termClean, clean) > FuzzyThreshold {
          vectors := vectors + [terms[t]];
          hit := true;
          risk := risk + RiskPerMatch;
        }
        t := t + 1;
      }
      assert terms[..t] == terms;
    }

    /** `run`: extract text by extension, then analyse it. */
    method Run(mt: Matcher) returns (score: int)
      modifies this
      ensures fullTextCache == ExtractedText(fileBytes, ext, old(fullTextCache))
      ensures var clean := Normalise(mt, fullTextCache);
        && vectors == old(vectors) + Vectors(mt, clean, SemanticTriggers)
        && risk == old(risk) + RawRisk(mt, clean, SemanticTriggers)
        && alerts == old(alerts) + ExtractionAlerts(fileBytes, ext) + CorrelationAlerts(mt, clean)
      ensures score == if risk < MaxRisk then risk else MaxRisk
    {
      if ext == "pdf" {
        ScanPdf();
      } else if ext == "docx" || ext == "doc" {
        ScanDocx();
      } else {
        fullTextCache := fileBytes.utf8Text;
      }
      score := AnalyzeResults(mt);
    }
  }

  /**
   * A fresh scanner run over a file, as the worker uses it: what `run`
   * returns, and the scanner's `vectors` and `alerts` afterwards, are the
   * scan report of the file.
   */
  method Scan(readings: FileReadings, filename: string, mt: Matcher) returns (score: int, vectors: seq<string>, alerts: seq<string>)
    ensures Report(score, vectors, alerts) == ScanReport(readings, filename, mt)
  {
    var scanner := new NuclearScanner(readings, filename);
    score := scanner.Run(mt);
    vectors, alerts := scanner.vectors, scanner.alerts;
    assert vectors == Vectors(mt, Normalise(mt, ExtractedText(readings, Extension(filename), "")), SemanticTriggers);
  }
}
