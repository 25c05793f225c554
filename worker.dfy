/**
 * `worker_process_full_tree` (main.py): the report rows of one legislative
 * process. The root row comes first, then for every print its own row and,
 * when the print's metadata arrives, one scanned row per attachment. The
 * Sejm API is a `Network`: a function from URL to the outcome of the
 * request, so that the rows are a function of the process, the term, its
 * ordinal and the network.
 */
module Worker {
  import opened Strings
  import opened TreeIds
  import opened Scoring
  import opened Scanner

  const ApiUrl := "https://api.sejm.gov.pl/sejm"

  /** The report columns; `ColumnName` gives each one's header text. */
  datatype Column =
    | TreeIdCol | StructureCol | FileNameCol | LinkCol | RiskCol
    | AlertsCol | AuthorCol | DateCol | WordsCol

  function ColumnName(c: Column): string
  {
    match c
    case TreeIdCol => "TREE_ID"
    case StructureCol => "DRZEWO STRUKTURY"
    case FileNameCol => "Nazwa Pliku"
    case LinkCol => "Link"
    case RiskCol => "RYZYKO"
    case AlertsCol => "Alerty"
    case AuthorCol => "Autor"
    case DateCol => "Data Pliku"
    case WordsCol => "Słowa"
  }

  /** The nine report columns, in file order. */
  const Columns: seq<Column> := [TreeIdCol, StructureCol, FileNameCol, LinkCol, RiskCol, AlertsCol, AuthorCol, DateCol, WordsCol]

  const Unknown := "?"
  const HttpErrorAlert := "Błąd 404/500"
  const CrashPrefix := "CRASH: "
  const TitleLimit := 150

  /** A cell of the report: the risk column holds a number in attachment rows, text elsewhere. */
  datatype Cell = Text(s: string) | Number(n: int)

  /**
   * A report row. Every row the worker builds sets all nine columns, so a
   * row is a record with one field per column.
   */
  datatype Row = Row(treeId: Cell, structure: Cell, fileName: Cell, link: Cell, risk: Cell,
                     alerts: Cell, author: Cell, date: Cell, words: Cell)

  /** The cell of a row in a column. */
  function Get(r: Row, c: Column): Cell
  {
    match c
    case TreeIdCol => r.treeId
    case StructureCol => r.structure
    case FileNameCol => r.fileName
    case LinkCol => r.link
    case RiskCol => r.risk
    case AlertsCol => r.alerts
    case AuthorCol => r.author
    case DateCol => r.date
    case WordsCol => r.words
  }

  /** The fields of one process record the worker reads; `prints` is `[]` when absent. */
  datatype Proc = Proc(num: Option<string>, title: Option<string>, prints: seq<string>)

  /** The outcome of fetching a print's metadata. */
  datatype MetaFetch = MetaFailed(error: string) | MetaFetched(attachments: seq<string>)

  /**
   * The outcome of downloading an attachment: an exception, or a response
   * with its status, what the document readers make of its body, and the
   * author and date its metadata gives ("?" when absent).
   */
  datatype Download =
    | Raised(error: string)
    | Response(status: int, readings: FileReadings, author: string, date: string)

  datatype Network = Network(meta: string -> MetaFetch, download: string -> Download)

  function PrintUrl(term: int, printNr: string): string
  {
    ApiUrl + "/term" + IntToString(term) + "/prints/" + printNr
  }

  function ProcessLink(term: int, num: string): string
  {
    "https://sejm.gov.pl/Sejm" + IntToString(term) + ".nsf/przebieg.xsp?id=" + num
  }

  function StructureLine(num: string, title: string): string
  {
    "📂 [" + num + "] " + Prefix(title, TitleLimit) + "..."
  }

  function PrintLine(printNr: string): string
  {
    "    ├── 📁 Druk nr " + printNr
  }

  function AttachmentLine(att: string): string
  {
    "        └── 📄 " + att
  }

  const Empty := Text("")

  function RootRow(idx: nat, term: int, num: string, title: string): Row
  {
    Row(Text(RootId(idx)), Text(StructureLine(num, title)), Empty, Text(ProcessLink(term, num)),
        Empty, Empty, Empty, Empty, Empty)
  }

  function PrintRow(idx: nat, p: nat, printNr: string): Row
  {
    Row(Text(PrintId(RootId(idx), p)), Text(PrintLine(printNr)), Empty, Empty,
        Empty, Empty, Empty, Empty, Empty)
  }

  /** The row of attachment number `f` (from 0) of a print, given its download outcome. */
  function AttachmentRow(printId: string, f: nat, att: string, url: string, d: Download, mt: Matcher): Row
  {
    var pending := Row(Text(AttachmentId(printId, f)), Text(AttachmentLine(att)), Text(att), Text(url),
                       Number(0), Empty, Text(Unknown), Text(Unknown), Empty);
    match d
    case Raised(e) => pending.(alerts := Text(CrashPrefix + e))
    case Response(status, readings, author, date) =>
      if status == 200 then
        var rep := ScanReport(readings, att, mt);
        pending.(author := Text(author), date := Text(date), risk := Number(rep.score),
                 words := Text(Join(Dedup(rep.vectors), ", ")), alerts := Text(Join(rep.alerts, " | ")))
      else
        pending.(alerts := Text(HttpErrorAlert))
  }

  /**
   * What an attachment row records: a crash or a non-200 status leave the
   * risk at 0 and the author and date unknown; a 200 response carries the
   * scan's score, its alerts and its distinct trigger words.
   */
  lemma AttachmentRowContents(printId: string, f: nat, att: string, url: string, d: Download, mt: Matcher)
    ensures var r := AttachmentRow(printId, f, att, url, d, mt);
      && r.treeId == Text(AttachmentId(printId, f)) && r.fileName == Text(att) && r.link == Text(url)
      && (d.Raised? ==>
            r.alerts == Text(CrashPrefix + d.error) && r.risk == Number(0)
            && r.author == Text(Unknown) && r.date == Text(Unknown) && r.words == Empty)
      && (d.Response? && d.status != 200 ==>
            r.alerts == Text(HttpErrorAlert) && r.risk == Number(0)
            && r.author == Text(Unknown) && r.date == Text(Unknown) && r.words == Empty)
      && (d.Response? && d.status == 200 ==>
            var rep := ScanReport(d.readings, att, mt);
            && r.risk == Number(rep.score)
            && r.words == Text(Join(Dedup(rep.vectors), ", "))
            && r.alerts == Text(Join(rep.alerts, " | "))
            && r.author == Text(d.author) && r.date == Text(d.date))
  {
  }

  /** The rows of a print's attachments, lettered from `A`. */
  function AttachmentRows(printId: string, printUrl: string, atts: seq<string>, net: Network, mt: Matcher): (rows: seq<Row>)
    ensures |rows| == |atts|
  {
    if |atts| == 0 then []
    else
      var f := |atts| - 1;
      var url := printUrl + "/" + atts[f];
      AttachmentRows(printId, printUrl, atts[..f], net, mt) + [AttachmentRow(printId, f, atts[f], url, net.download(url), mt)]
  }

  /** The attachments the loop walks: none when the metadata request failed. */
  function Walked(m: MetaFetch): seq<string>
  {
    match m
    case MetaFailed(_) => []
    case MetaFetched(atts) => atts
  }

  /** The rows of print number `p` (from 1): its own row, then its attachments' rows if the metadata came. */
  function PrintBlock(idx: nat, term: int, p: nat, printNr: string, net: Network, mt: Matcher): seq<Row>
  {
    var url := PrintUrl(term, printNr);
    [PrintRow(idx, p, printNr)] + AttachmentRows(PrintId(RootId(idx), p), url, Walked(net.meta(url)), net, mt)
  }

  function PrintBlocks(idx: nat, term: int, prints: seq<string>, net: Network, mt: Matcher): seq<Row>
  {
    if |prints| == 0 then []
    else
      var n := |prints|;
      PrintBlocks(idx, term, prints[..n - 1], net, mt) + PrintBlock(idx, term, n, prints[n - 1], net, mt)
  }

  /** What the worker returns for a process; `None` is the `KeyError` of a record without `num` or `title`. */
  function WorkerResult(proc: Proc, term: int, idx: nat, net: Network, mt: Matcher): Option<seq<Row>>
  {
    if proc.num.None? || proc.title.None? then None
    else Some([RootRow(idx, term, proc.num.value, proc.title.value)] + PrintBlocks(idx, term, proc.prints, net, mt))
  }

  // ---------------------------------------------------------------------------
  // The worker
  // ---------------------------------------------------------------------------

  /** `worker_process_full_tree` */
  method WorkerProcessFullTree(proc: Proc, term: int, procIdx: nat, net: Network, mt: Matcher)
    returns (res: Option<seq<Row>>)
    ensures res == WorkerResult(proc, term, procIdx, net, mt)
  {
    var romanId := GetRoman(procIdx);
    if proc.num.None? || proc.title.None? {
      return None;
    }
    var num, title := proc.num.value, proc.title.value;
    var rows := [Row(Text(romanId), Text(StructureLine(num, title)), Empty, Text(ProcessLink(term, num)),
                     Empty, Empty, Empty, Empty, Empty)];
    ghost var root := rows;
    var prints := proc.prints;
    var p := 1;
    while p <= |prints|
      invariant 1 <= p <= |prints| + 1
      invariant root == [RootRow(procIdx, term, num, title)]
      invariant rows == root + PrintBlocks(procIdx, term, prints[..p - 1], net, mt)
    {
      var printRows := ScanPrint(procIdx, romanId, term, p, prints[p - 1], net, mt);
      PrintBlocksStep(procIdx, term, prints, p, net, mt);
      Assoc(root, PrintBlocks(procIdx, term, prints[..p - 1], net, mt), printRows);
      rows := rows + printRows;
      p := p + 1;
    }
    assert prints[..p - 1] == prints;
    return Some(rows);
  }

  lemma PrintBlocksStep(idx: nat, term: int, prints: seq<string>, p: nat, net: Network, mt: Matcher)
    requires 1 <= p <= |prints|
    ensures PrintBlocks(idx, term, prints[..p], net, mt)
      == PrintBlocks(idx, term, prints[..p - 1], net, mt) + PrintBlock(idx, term, p, prints[p - 1], net, mt)
  {
    assert prints[..p][..p - 1] == prints[..p - 1];
  }

  lemma AttachmentRowsStep(printId: string, printUrl: string, atts: seq<string>, f: nat, net: Network, mt: Matcher)
    requires f < |atts|
    ensures var url := printUrl + "/" + atts[f];
      AttachmentRows(printId, printUrl, atts[..f + 1], net, mt)
        == AttachmentRows(printId, printUrl, atts[..f], net, mt) + [AttachmentRow(printId, f, atts[f], url, net.download(url), mt)]
  {
    assert atts[..f + 1][..f] == atts[..f];
  }

  /** One pass of the print loop: the print's row, then, when its metadata arrives, its attachments' rows. */
  method ScanPrint(procIdx: nat, romanId: string, term: int, p: nat, printNr: string, net: Network, mt: Matcher)
    returns (printRows: seq<Row>)
    requires romanId == RootId(procIdx)
    ensures printRows == PrintBlock(procIdx, term, p, printNr, net, mt)
  {
    var printId := romanId + "." + NatToString(p);
    printRows := [Row(Text(printId), Text(PrintLine(printNr)), Empty, Empty, Empty, Empty, Empty, Empty, Empty)];
    match net.meta(PrintUrl(term, printNr)) {
      case MetaFailed(_) =>
      case MetaFetched(atts) =>
        var attRows := BuildAttachmentRows(printId, PrintUrl(term, printNr), atts, net, mt);
        printRows := printRows + attRows;
    }
  }

  /** The loop over one print's attachments. */
  method BuildAttachmentRows(printId: string, printUrl: string, atts: seq<string>, net: Network, mt: Matcher)
    returns (rows: seq<Row>)
    ensures rows == AttachmentRows(printId, printUrl, atts, net, mt)
  {
    rows := [];
    var f := 0;
    while f < |atts|
      invariant 0 <= f <= |atts|
      invariant rows == AttachmentRows(printId, printUrl, atts[..f], net, mt)
    {
      var att := atts[f];
      var url := printUrl + "/" + att;
      var row := ScanAttachment(printId, f, att, url, net.download(url), mt);
      AttachmentRowsStep(printId, printUrl, atts, f, net, mt);
      rows := rows + [row];
      f := f + 1;
    }
    assert atts[..f] == atts;
  }

  /** One attachment: the pending row, then the download and scan outcome written into it. */
  method ScanAttachment(printId: string, f: nat, att: string, url: string, d: Download, mt: Matcher)
    returns (row: Row)
    ensures row == AttachmentRow(printId, f, att, url, d, mt)
  {
    row := Row(Text(printId + "." + IndexToChar(f)), Text(AttachmentLine(att)), Text(att), Text(url),
               Number(0), Empty, Text(Unknown), Text(Unknown), Empty);
    match d {
      case Raised(e) =>
        row := row.(alerts := Text(CrashPrefix + e));
      case Response(status, readings, author, date) =>
        if status == 200 {
          row := row.(author := Text(author));
          row := row.(date := Text(date));
          var risk, vectors, alerts := Scan(readings, att, mt);
          row := row.(risk := Number(risk));
          row := row.(words := Text(Join(Dedup(vectors), ", ")));
          row := row.(alerts := Text(Join(alerts, " | ")));
        } else {
          row := row.(alerts := Text(HttpErrorAlert));
        }
    }
  }

  // ---------------------------------------------------------------------------
  // Properties of the rows
  // ---------------------------------------------------------------------------

  /** The worker fails exactly on a record without `num` or without `title`. */
  lemma WorkerFailsIff(proc: Proc, term: int, idx: nat, net: Network, mt: Matcher)
    ensures WorkerResult(proc, term, idx, net, mt).None? <==> proc.num.None? || proc.title.None?
    ensures WorkerResult(proc, term, idx, net, mt).Some? ==>
      var rows := WorkerResult(proc, term, idx, net, mt).value;
      |rows| >= 1 + |proc.prints| && rows[0].treeId == Text(Roman(idx))
  {
    if proc.num.Some? && proc.title.Some? {
      BlocksShape(idx, term, proc.prints, net, mt);
    }
  }

  /** The tree nodes of one print's rows, in row order. */
  function BlockNodes(term: int, p: nat, printNr: string, net: Network): seq<Node>
  {
    [PrintNode(p)] + AttachmentNodes(p, |Walked(net.meta(PrintUrl(term, printNr)))|)
  }

  function AttachmentNodes(p: nat, k: nat): (nodes: seq<Node>)
    ensures |nodes| == k && forall f :: 0 <= f < k ==> nodes[f] == AttachmentNode(p, f)
  {
    seq(k, f requires 0 <= f => AttachmentNode(p, f))
  }

  function BlocksNodes(term: int, prints: seq<string>, net: Network): seq<Node>
  {
    if |prints| == 0 then []
    else BlocksNodes(term, prints[..|prints| - 1], net) + BlockNodes(term, |prints|, prints[|prints| - 1], net)
  }

  /** `rows` carry the TREE_IDs of `nodes`, one for one. */
  predicate Labelled(idx: nat, rows: seq<Row>, nodes: seq<Node>)
  {
    && |rows| == |nodes|
    && forall i :: 0 <= i < |rows| ==> rows[i].treeId == Text(NodeId(idx, nodes[i]))
  }

  /** Every node lies under a print numbered from `lo` to `hi`. */
  predicate UnderPrints(nodes: seq<Node>, lo: int, hi: int)
  {
    forall i :: 0 <= i < |nodes| ==> !nodes[i].RootNode? && lo <= nodes[i].p <= hi
  }

  lemma LabelledAppend(idx: nat, ra: seq<Row>, a: seq<Node>, rb: seq<Row>, b: seq<Node>)
    requires Labelled(idx, ra, a) && Labelled(idx, rb, b)
    ensures Labelled(idx, ra + rb, a + b)
  {
    forall i | 0 <= i < |ra + rb|
      ensures (ra + rb)[i].treeId == Text(NodeId(idx, (a + b)[i]))
    {
      if i >= |ra| {
        assert (ra + rb)[i] == rb[i - |ra|] && (a + b)[i] == b[i - |a|];
      }
    }
  }

  lemma DistinctAppend(a: seq<Node>, b: seq<Node>, n: nat)
    requires n >= 1
    requires Distinct(a) && Distinct(b)
    requires UnderPrints(a, 1, n - 1) && UnderPrints(b, n, n)
    ensures Distinct(a + b) && UnderPrints(a + b, 1, n)
  {
    forall i, j | 0 <= i < j < |a + b|
      ensures (a + b)[i] != (a + b)[j]
    {
      if j >= |a| && i < |a| {
        assert (a + b)[i].p < n == (a + b)[j].p;
      }
    }
    forall i | 0 <= i < |a + b|
      ensures !(a + b)[i].RootNode? && 1 <= (a + b)[i].p <= n
    {
      if i >= |a| {
        assert (a + b)[i] == b[i - |a|];
      }
    }
  }

  /** The rows of print number `p` are its print node followed by its attachment nodes. */
  lemma BlockShape(idx: nat, term: int, p: nat, printNr: string, net: Network, mt: Matcher)
    ensures Labelled(idx, PrintBlock(idx, term, p, printNr, net, mt), BlockNodes(term, p, printNr, net))
  {
    var head := [PrintRow(idx, p, printNr)];
    assert Labelled(idx, head, [PrintNode(p)]);
    var url := PrintUrl(term, printNr);
    var atts := Walked(net.meta(url));
    AttachmentsLabelled(idx, p, url, atts, net, mt);
    LabelledAppend(idx, head, [PrintNode(p)], AttachmentRows(PrintId(RootId(idx), p), url, atts, net, mt), AttachmentNodes(p, |atts|));
  }

  /** A print's nodes are pairwise different and all lie under that print. */
  lemma BlockNodesShape(term: int, p: nat, printNr: string, net: Network)
    ensures var nodes := BlockNodes(term, p, printNr, net);
      Distinct(nodes) && UnderPrints(nodes, p, p)
  {
    var nodes := BlockNodes(term, p, printNr, net);
    var atts := AttachmentNodes(p, |Walked(net.meta(PrintUrl(term, printNr)))|);
    assert forall i :: 1 <= i < |nodes| ==> nodes[i] == atts[i - 1];
  }

  lemma AttachmentsLabelled(idx: nat, p: nat, printUrl: string, atts: seq<string>, net: Network, mt: Matcher)
    ensures Labelled(idx, AttachmentRows(PrintId(RootId(idx), p), printUrl, atts, net, mt), AttachmentNodes(p, |atts|))
  {
    AttachmentRowsIds(PrintId(RootId(idx), p), printUrl, atts, net, mt);
  }

  /** The attachment rows of a print are lettered from `A` in attachment order. */
  lemma {:induction false} AttachmentRowsIds(printId: string, printUrl: string, atts: seq<string>, net: Network, mt: Matcher)
    ensures forall f :: 0 <= f < |atts| ==> AttachmentRows(printId, printUrl, atts, net, mt)[f].treeId == Text(AttachmentId(printId, f))
  {
    if |atts| > 0 {
      var n := |atts| - 1;
      AttachmentRowsIds(printId, printUrl, atts[..n], net, mt);
      AttachmentRowsStep(printId, printUrl, atts, n, net, mt);
      AttachmentRowContents(printId, n, atts[n], printUrl + "/" + atts[n], net.download(printUrl + "/" + atts[n]), mt);
      assert atts[..n + 1] == atts;
    }
  }

  /** The print rows of a process are labelled by pairwise different nodes under prints 1 to `|prints|`. */
  lemma {:induction false} BlocksShape(idx: nat, term: int, prints: seq<string>, net: Network, mt: Matcher)
    ensures Labelled(idx, PrintBlocks(idx, term, prints, net, mt), BlocksNodes(term, prints, net))
    ensures |BlocksNodes(term, prints, net)| >= |prints|
    ensures Distinct(BlocksNodes(term, prints, net)) && UnderPrints(BlocksNodes(term, prints, net), 1, |prints|)
  {
    if |prints| > 0 {
      var n := |prints|;
      var init := prints[..n - 1];
      BlocksShape(idx, term, init, net, mt);
      BlockShape(idx, term, n, prints[n - 1], net, mt);
      BlockNodesShape(term, n, prints[n - 1], net);
      LabelledAppend(idx, PrintBlocks(idx, term, init, net, mt), BlocksNodes(term, init, net),
                     PrintBlock(idx, term, n, prints[n - 1], net, mt), BlockNodes(term, n, prints[n - 1], net));
      DistinctAppend(BlocksNodes(term, init, net), BlockNodes(term, n, prints[n - 1], net), n);
    }
  }

  /** The nodes of a whole worker result: the root, then the print blocks' nodes. */
  function ResultNodes(proc: Proc, term: int, net: Network): seq<Node>
  {
    [RootNode] + BlocksNodes(term, proc.prints, net)
  }

  lemma ResultShape(proc: Proc, term: int, idx: nat, net: Network, mt: Matcher)
    requires WorkerResult(proc, term, idx, net, mt).Some?
    ensures Labelled(idx, WorkerResult(proc, term, idx, net, mt).value, ResultNodes(proc, term, net))
    ensures Distinct(ResultNodes(proc, term, net))
  {
    BlocksShape(idx, term, proc.prints, net, mt);
    var root := [RootRow(idx, term, proc.num.value, proc.title.value)];
    assert Labelled(idx, root, [RootNode]);
    LabelledAppend(idx, root, [RootNode], PrintBlocks(idx, term, proc.prints, net, mt), BlocksNodes(term, proc.prints, net));
    RootAppendDistinct(BlocksNodes(term, proc.prints, net), |proc.prints|);
  }

  lemma RootAppendDistinct(blocks: seq<Node>, n: int)
    requires Distinct(blocks) && UnderPrints(blocks, 1, n)
    ensures Distinct([RootNode] + blocks)
  {
    var nodes := [RootNode] + blocks;
    forall i, j | 0 <= i < j < |nodes|
      ensures nodes[i] != nodes[j]
    {
      assert nodes[j] == blocks[j - 1];
      if i > 0 {
        assert nodes[i] == blocks[i - 1];
      }
    }
  }

  /** All TREE_IDs of one worker result are different. */
  lemma WorkerIdsDistinct(proc: Proc, term: int, idx: nat, net: Network, mt: Matcher)
    requires WorkerResult(proc, term, idx, net, mt).Some?
    ensures var rows := WorkerResult(proc, term, idx, net, mt).value;
      forall i, j :: 0 <= i < j < |rows| ==> rows[i].treeId != rows[j].treeId
  {
    var rows := WorkerResult(proc, term, idx, net, mt).value;
    var nodes := ResultNodes(proc, term, net);
    ResultShape(proc, term, idx, net, mt);
    forall i, j | 0 <= i < j < |rows|
      ensures rows[i].treeId != rows[j].treeId
    {
      if rows[i].treeId == rows[j].treeId {
        NodeIdInjective(idx, nodes[i], idx, nodes[j]);
      }
    }
  }

  /** Rows of two processes with different ordinals never share a TREE_ID. */
  lemma WorkerIdsDisjoint(p1: Proc, i1: nat, p2: Proc, i2: nat, term1: int, term2: int, net: Network, mt: Matcher)
    requires i1 != i2
    requires WorkerResult(p1, term1, i1, net, mt).Some? && WorkerResult(p2, term2, i2, net, mt).Some?
    ensures var r1, r2 := WorkerResult(p1, term1, i1, net, mt).value, WorkerResult(p2, term2, i2, net, mt).value;
      forall a, b :: 0 <= a < |r1| && 0 <= b < |r2| ==>
        r1[a].treeId != r2[b].treeId
  {
    var r1, r2 := WorkerResult(p1, term1, i1, net, mt).value, WorkerResult(p2, term2, i2, net, mt).value;
    var n1, n2 := ResultNodes(p1, term1, net), ResultNodes(p2, term2, net);
    ResultShape(p1, term1, i1, net, mt);
    ResultShape(p2, term2, i2, net, mt);
    forall a, b | 0 <= a < |r1| && 0 <= b < |r2|
      ensures r1[a].treeId != r2[b].treeId
    {
      if r1[a].treeId == r2[b].treeId {
        NodeIdInjective(i1, n1[a], i2, n2[b]);
      }
    }
  }

  lemma PrintBlockHead(idx: nat, term: int, p: nat, printNr: string, net: Network, mt: Matcher)
    ensures |PrintBlock(idx, term, p, printNr, net, mt)| >= 1
    ensures PrintBlock(idx, term, p, printNr, net, mt)[0] == PrintRow(idx, p, printNr)
  {
  }

  /**
   * Every print has its row, with its 1-based number and its print number,
   * whatever its metadata fetch did.
   */
  lemma {:induction false} PrintRowPresent(idx: nat, term: int, prints: seq<string>, net: Network, mt: Matcher, p: nat)
    requires 1 <= p <= |prints|
    ensures var before := |PrintBlocks(idx, term, prints[..p - 1], net, mt)|;
      before < |PrintBlocks(idx, term, prints, net, mt)|
      && PrintBlocks(idx, term, prints, net, mt)[before] == PrintRow(idx, p, prints[p - 1])
  {
    var n := |prints|;
    var init := prints[..n - 1];
    var front := PrintBlocks(idx, term, init, net, mt);
    var block := PrintBlock(idx, term, n, prints[n - 1], net, mt);
    PrintBlocksStep(idx, term, prints, n, net, mt);
    assert prints[..n] == prints;
    PrintBlockHead(idx, term, n, prints[n - 1], net, mt);
    if p < n {
      assert init[p - 1] == prints[p - 1] && init[..p - 1] == prints[..p - 1];
      PrintRowPresent(idx, term, init, net, mt, p);
    }
  }
}
