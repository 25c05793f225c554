/**
 * The data of `SejmProcessDownloader` (sejm_process_downloader.py): process
 * records as the Sejm API lists them, print details, and the
 * process → print → attachment tree that `build_tree` assembles, with the
 * specification functions for the process lookup and the tree.
 */
module ProcessTree {
  import opened Strings

  const ApiUrl := "https://api.sejm.gov.pl/sejm"
  const NoTitle := "Brak tytułu"

  /**
   * A JSON value in a `prints` list: `text` is its `str()`, and `asInt` the
   * integer it equals under Python's `==`, if any (an int, an integral float,
   * a bool).
   */
  datatype PrintValue = PrintValue(text: string, asInt: Option<int>)

  /** The value is a JSON integer: its `str()` is its decimal form. */
  predicate IsIntValue(v: PrintValue)
  {
    v.asInt.Some? ==> v.text == IntToString(v.asInt.value)
  }

  /** The keys of a process record the downloader reads; a missing `prints` is `[]`. */
  datatype ProcessRecord = ProcessRecord(
    number: Option<PrintValue>, title: Option<string>, description: Option<string>,
    documentType: Option<string>, state: Option<string>, prints: seq<PrintValue>)

  /**
   * The JSON object of a print's details; `otherKeys` says whether it has
   * keys besides these, which only matters for its truth value.
   */
  datatype PrintDetails = PrintDetails(
    title: Option<string>, documentDate: Option<string>, deliveryDate: Option<string>,
    changeDate: Option<string>, attachments: Option<seq<string>>, otherKeys: bool)

  /** `if print_details:` — a non-empty object. */
  predicate Truthy(d: PrintDetails)
  {
    d.title.Some? || d.documentDate.Some? || d.deliveryDate.Some? || d.changeDate.Some?
      || d.attachments.Some? || d.otherKeys
  }

  function OrElse(o: Option<string>, default: string): string
  {
    if o.Some? then o.value else default
  }

  /**
   * The API as the downloader sees it: a print's details by `str(print)`
   * (`None` for a failed request or a non-200 status), and the path a download
   * of an attachment was saved under (`None` when it failed).
   */
  datatype Api = Api(details: string -> Option<PrintDetails>, download: (string, string) -> Option<string>)

  datatype AttachmentNode = AttachmentNode(filename: string, downloadUrl: string, localPath: Option<string>)

  datatype PrintNode = PrintNode(
    number: PrintValue, title: string, documentDate: string, deliveryDate: string,
    changeDate: string, attachments: seq<AttachmentNode>)

  datatype ProcessNode = ProcessNode(
    id: PrintValue, title: string, description: string, documentType: string,
    state: string, term: int, children: seq<PrintNode>)

  // ---------------------------------------------------------------------------
  // fetch_process_info
  // ---------------------------------------------------------------------------

  /** The first loop's test: `str(n) in [str(p) for p in prints]`. */
  predicate Mentions(prints: seq<PrintValue>, n: int)
  {
    exists k :: 0 <= k < |prints| && prints[k].text == IntToString(n)
  }

  /** The fallback loop's test: `n in prints or str(n) in [str(p) for p in prints]`. */
  predicate MentionsLoosely(prints: seq<PrintValue>, n: int)
  {
    (exists k :: 0 <= k < |prints| && prints[k].asInt == Some(n)) || Mentions(prints, n)
  }

  predicate Matches(p: ProcessRecord, n: int, loose: bool)
  {
    if loose then MentionsLoosely(p.prints, n) else Mentions(p.prints, n)
  }

  /** The position of the first process that the given loop accepts. */
  function FirstMatch(procs: seq<ProcessRecord>, n: int, loose: bool): (r: Option<nat>)
    ensures r.Some? ==> r.value < |procs| && Matches(procs[r.value], n, loose)
    ensures r.Some? ==> forall j :: 0 <= j < r.value ==> !Matches(procs[j], n, loose)
    ensures r.None? ==> forall j :: 0 <= j < |procs| ==> !Matches(procs[j], n, loose)
  {
    if |procs| == 0 then None
    else if Matches(procs[0], n, loose) then Some(0)
    else
      match FirstMatch(procs[1..], n, loose)
      case None => None
      case Some(i) => Some(i + 1)
  }

  /**
   * The process `fetch_process_info` settles on, given the process list
   * (`None` when it could not be fetched): the first one the first loop
   * accepts, otherwise the first one the fallback loop accepts.
   */
  function Lookup(processes: Option<seq<ProcessRecord>>, n: int): Option<ProcessRecord>
  {
    match processes
    case None => None
    case Some(procs) =>
      match FirstMatch(procs, n, false)
      case Some(i) => Some(procs[i])
      case None =>
        match FirstMatch(procs, n, true)
        case Some(i) => Some(procs[i])
        case None => None
  }

  /** A process is found exactly when the list arrived and one of its processes lists the print loosely. */
  lemma LookupIff(processes: Option<seq<ProcessRecord>>, n: int)
    ensures Lookup(processes, n).Some? <==>
      processes.Some? && exists i :: 0 <= i < |processes.value| && MentionsLoosely(processes.value[i].prints, n)
  {
    if processes.Some? {
      var procs := processes.value;
      if exists i :: 0 <= i < |procs| && MentionsLoosely(procs[i].prints, n) {
        var i :| 0 <= i < |procs| && MentionsLoosely(procs[i].prints, n);
        assert Matches(procs[i], n, true);
      }
    }
  }

  /** When every print value is a JSON int or string, the fallback loop accepts exactly what the first loop accepts. */
  lemma FallbackAddsNothing(prints: seq<PrintValue>, n: int)
    requires forall k :: 0 <= k < |prints| ==> IsIntValue(prints[k])
    ensures MentionsLoosely(prints, n) <==> Mentions(prints, n)
  {
    if exists k :: 0 <= k < |prints| && prints[k].asInt == Some(n) {
      var k :| 0 <= k < |prints| && prints[k].asInt == Some(n);
      assert prints[k].text == IntToString(n);
    }
  }

  /** With JSON int or string prints only, the found process is the first one whose prints mention the number. */
  lemma LookupIsFirstMention(procs: seq<ProcessRecord>, n: int)
    requires forall i, k :: 0 <= i < |procs| && 0 <= k < |procs[i].prints| ==> IsIntValue(procs[i].prints[k])
    ensures Lookup(Some(procs), n).Some? ==>
      exists i :: 0 <= i < |procs| && Lookup(Some(procs), n) == Some(procs[i]) && Mentions(procs[i].prints, n)
        && forall j :: 0 <= j < i ==> !Mentions(procs[j].prints, n)
  {
    match FirstMatch(procs, n, false)
    case Some(i) =>
      assert Lookup(Some(procs), n) == Some(procs[i]) && Matches(procs[i], n, false);
    case None =>
      forall j | 0 <= j < |procs|
        ensures !Matches(procs[j], n, true)
      {
        FallbackAddsNothing(procs[j].prints, n);
      }
  }

  // ---------------------------------------------------------------------------
  // build_tree
  // ---------------------------------------------------------------------------

  function AttachmentUrl(term: int, printText: string, att: string): string
  {
    ApiUrl + "/term" + IntToString(term) + "/prints/" + printText + "/" + att
  }

  /** `if local_path:` — a path was returned and it is not empty. */
  function SavedPath(download: Option<string>): (r: Option<string>)
    ensures r.Some? <==> download.Some? && download.value != ""
    ensures r.Some? ==> r == download
  {
    if download.Some? && download.value != "" then download else None
  }

  function AttachmentNodeOf(term: int, printNum: PrintValue, att: string, api: Api): AttachmentNode
  {
    AttachmentNode(att, AttachmentUrl(term, printNum.text, att), SavedPath(api.download(printNum.text, att)))
  }

  /** The attachment nodes of a print, in the order of its `attachments` list. */
  function AttachmentNodes(term: int, printNum: PrintValue, atts: seq<string>, api: Api): (nodes: seq<AttachmentNode>)
    ensures |nodes| == |atts|
  {
    if |atts| == 0 then []
    else
      var n := |atts| - 1;
      AttachmentNodes(term, printNum, atts[..n], api) + [AttachmentNodeOf(term, printNum, atts[n], api)]
  }

  function PrintNodeOf(term: int, printNum: PrintValue, d: PrintDetails, api: Api): PrintNode
  {
    PrintNode(printNum, OrElse(d.title, ""), OrElse(d.documentDate, ""), OrElse(d.deliveryDate, ""),
              OrElse(d.changeDate, ""),
              AttachmentNodes(term, printNum, if d.attachments.Some? then d.attachments.value else [], api))
  }

  /** The details of a print that `build_tree` keeps: fetched and non-empty. */
  function Kept(api: Api, printNum: PrintValue): Option<PrintDetails>
  {
    var d := api.details(printNum.text);
    if d.Some? && Truthy(d.value) then d else None
  }

  /** The print nodes of a process: one per print whose details were kept, in print order. */
  function ChildNodes(term: int, prints: seq<PrintValue>, api: Api): seq<PrintNode>
  {
    if |prints| == 0 then []
    else
      var n := |prints| - 1;
      var k := Kept(api, prints[n]);
      ChildNodes(term, prints[..n], api) + (if k.Some? then [PrintNodeOf(term, prints[n], k.value, api)] else [])
  }

  /** The process node `build_tree` makes for the found process. */
  function ProcessNodeOf(term: int, processNumber: int, p: ProcessRecord, api: Api): ProcessNode
  {
    ProcessNode(if p.number.Some? then p.number.value else PrintValue(IntToString(processNumber), Some(processNumber)),
                OrElse(p.title, NoTitle), OrElse(p.description, ""), OrElse(p.documentType, ""),
                OrElse(p.state, ""), term, ChildNodes(term, p.prints, api))
  }

  /** Every print node's attachment nodes, print after print. */
  function AllAttachments(children: seq<PrintNode>): seq<AttachmentNode>
  {
    if |children| == 0 then []
    else AllAttachments(children[..|children| - 1]) + children[|children| - 1].attachments
  }

  /** The prints whose details were kept, in order. */
  function KeptPrints(prints: seq<PrintValue>, api: Api): seq<PrintValue>
  {
    if |prints| == 0 then []
    else
      var n := |prints| - 1;
      KeptPrints(prints[..n], api) + (if Kept(api, prints[n]).Some? then [prints[n]] else [])
  }

  function Numbers(children: seq<PrintNode>): (r: seq<PrintValue>)
    ensures |r| == |children| && forall k :: 0 <= k < |children| ==> r[k] == children[k].number
  {
    seq(|children|, k requires 0 <= k < |children| => children[k].number)
  }

  /**
   * The children are exactly the prints whose details came back non-empty, in
   * print order: a print whose fetch failed has no node.
   */
  lemma {:induction false} ChildrenAreKeptPrints(term: int, prints: seq<PrintValue>, api: Api)
    ensures Numbers(ChildNodes(term, prints, api)) == KeptPrints(prints, api)
  {
    if |prints| > 0 {
      var n := |prints| - 1;
      ChildrenAreKeptPrints(term, prints[..n], api);
      var k := Kept(api, prints[n]);
      var init := ChildNodes(term, prints[..n], api);
      var extra := if k.Some? then [PrintNodeOf(term, prints[n], k.value, api)] else [];
      assert Numbers(init + extra) == Numbers(init) + Numbers(extra);
    }
  }

  /** A kept print is one in the list whose details arrived non-empty. */
  lemma {:induction false} KeptPrintsExact(prints: seq<PrintValue>, api: Api, v: PrintValue)
    ensures v in KeptPrints(prints, api) <==> v in prints && Kept(api, v).Some?
  {
    if |prints| > 0 {
      var n := |prints| - 1;
      KeptPrintsExact(prints[..n], api, v);
      assert prints == prints[..n] + [prints[n]];
    }
  }

  /**
   * Each attachment node records the download: its `local_path` is set
   * exactly when the download returned a non-empty path, and is that path.
   */
  lemma AttachmentLocalPath(term: int, printNum: PrintValue, atts: seq<string>, api: Api, f: nat)
    requires f < |atts|
    ensures var a := AttachmentNodes(term, printNum, atts, api)[f];
      var dl := api.download(printNum.text, atts[f]);
      && a.filename == atts[f]
      && (a.localPath.Some? <==> dl.Some? && dl.value != "")
      && (a.localPath.Some? ==> a.localPath == dl)
  {
    AttachmentNodesAt(term, printNum, atts, api, f);
  }

  lemma {:induction false} AttachmentNodesAt(term: int, printNum: PrintValue, atts: seq<string>, api: Api, f: nat)
    requires f < |atts|
    ensures AttachmentNodes(term, printNum, atts, api)[f] == AttachmentNodeOf(term, printNum, atts[f], api)
  {
    var n := |atts| - 1;
    if f < n {
      AttachmentNodesAt(term, printNum, atts[..n], api, f);
    }
  }
}
