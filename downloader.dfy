/**
 * `SejmProcessDownloader` (sejm_process_downloader.py) as a class: the
 * process it found, the attachment nodes it collected and the tree it built
 * are fields its methods update. The HTTP requests and the files it writes
 * are the `processes` list and the `Api` passed in.
 */
module Downloader {
  import opened Strings
  import opened ProcessTree
  import opened TreeViews

  class SejmProcessDownloader {
    const term: int
    const processNumber: int
    const outputDir: string
    /** `process_data`; `None` is the empty dict it starts as. */
    var processData: Option<ProcessRecord>
    var attachments: seq<AttachmentNode>
    var treeStructure: seq<ProcessNode>

    constructor (term: int, processNumber: int, outputDir: string)
      ensures this.term == term && this.processNumber == processNumber && this.outputDir == outputDir
      ensures processData == None && attachments == [] && treeStructure == []
    {
      this.term := term;
      this.processNumber := processNumber;
      this.outputDir := outputDir;
      processData := None;
      attachments := [];
      treeStructure := [];
    }

    /**
     * `fetch_process_info`, given the process list (`None` when the request
     * failed): the first process whose prints mention the number, else the
     * first the fallback loop accepts; nothing changes when there is none.
     */
    method FetchProcessInfo(processes: Option<seq<ProcessRecord>>) returns (found: bool)
      modifies this
      ensures found <==> Lookup(processes, processNumber).Some?
      ensures processData == if found then Lookup(processes, processNumber) else old(processData)
      ensures attachments == old(attachments) && treeStructure == old(treeStructure)
    {
      if processes.None? {
        return false;
      }
      var procs := processes.value;
      for i := 0 to |procs|
        invariant unchanged(this)
        invariant forall j :: 0 <= j < i ==> !Matches(procs[j], processNumber, false)
      {
        var hit := ListsPrint(procs[i].prints, processNumber, false);
        if hit {
          processData := Some(procs[i]);
          return true;
        }
      }
      for i := 0 to |procs|
        invariant unchanged(this)
        invariant forall j :: 0 <= j < i ==> !Matches(procs[j], processNumber, true)
      {
        var hit := ListsPrint(procs[i].prints, processNumber, true);
        if hit {
          processData := Some(procs[i]);
          return true;
        }
      }
      return false;
    }

    /**
     * `build_tree`: without a process, an empty tree and nothing changes;
     * otherwise the one process node with a child per print whose details
     * were fetched, every attachment node also appended to `attachments`.
     */
    method BuildTree(api: Api) returns (tree: seq<ProcessNode>)
      modifies this
      ensures processData == old(processData)
      ensures processData.None? ==>
        tree == [] && attachments == old(attachments) && treeStructure == old(treeStructure)
      ensures processData.Some? ==>
        && tree == [ProcessNodeOf(term, processNumber, processData.value, api)]
        && treeStructure == tree
        && attachments == old(attachments) + AllAttachments(tree[0].children)
    {
      if processData.None? {
        return [];
      }
      var p := processData.value;
      var children := BuildChildren(p.prints, api);
      var id := if p.number.Some? then p.number.value else PrintValue(IntToString(processNumber), Some(processNumber));
      var node := ProcessNode(id, OrElse(p.title, NoTitle), OrElse(p.description, ""),
                              OrElse(p.documentType, ""), OrElse(p.state, ""), term, children);
      tree := [node];
      treeStructure := tree;
    }

    /** The loop of `build_tree` over the process's prints: a node for each print whose details came back non-empty. */
    method BuildChildren(prints: seq<PrintValue>, api: Api) returns (children: seq<PrintNode>)
      modifies this
      ensures children == ChildNodes(term, prints, api)
      ensures attachments == old(attachments) + AllAttachments(children)
      ensures processData == old(processData) && treeStructure == old(treeStructure)
    {
      children := [];
      for idx := 0 to |prints|
        invariant processData == old(processData) && treeStructure == old(treeStructure)
        invariant children == ChildNodes(term, prints[..idx], api)
        invariant attachments == old(attachments) + AllAttachments(children)
      {
        var printNum := prints[idx];
        var details := api.details(printNum.text);
        ChildNodesStep(term, prints, api, idx);
        if details.Some? && Truthy(details.value) {
          var pn := BuildPrintNode(printNum, details.value, api);
          AllAttachmentsAppend(children, pn);
          Assoc(old(attachments), AllAttachments(children), pn.attachments);
          children := children + [pn];
        }
      }
      assert prints[..|prints|] == prints;
    }

    /** The print node of one fetched print, its attachment nodes also appended to `attachments`. */
    method BuildPrintNode(printNum: PrintValue, d: PrintDetails, api: Api) returns (pn: PrintNode)
      modifies this
      ensures pn == PrintNodeOf(term, printNum, d, api)
      ensures attachments == old(attachments) + pn.attachments
      ensures processData == old(processData) && treeStructure == old(treeStructure)
    {
      var atts := if d.attachments.Some? then d.attachments.value else [];
      var nodes: seq<AttachmentNode> := [];
      for f := 0 to |atts|
        invariant processData == old(processData) && treeStructure == old(treeStructure)
        invariant nodes == AttachmentNodes(term, printNum, atts[..f], api)
        invariant attachments == old(attachments) + nodes
      {
        var att := atts[f];
        var node := AttachmentNode(att, AttachmentUrl(term, printNum.text, att), None);
        var localPath := api.download(printNum.text, att);
        if localPath.Some? && localPath.value != "" {
          node := node.(localPath := localPath);
        }
        assert atts[..f + 1][..f] == atts[..f];
        nodes := nodes + [node];
        attachments := attachments + [node];
      }
      assert atts[..|atts|] == atts;
      pn := PrintNode(printNum, OrElse(d.title, ""), OrElse(d.documentDate, ""), OrElse(d.deliveryDate, ""),
                      OrElse(d.changeDate, ""), nodes);
    }

    /** `print_tree_ascii`: the lines of every node of the tree, joined by newlines. */
    method PrintTreeAscii() returns (text: string)
      ensures text == AsciiTree(treeStructure)
    {
      var lines: seq<string> := [];
      for i := 0 to |treeStructure|
        invariant lines == TreeLines(treeStructure, i)
      {
        lines := AddProcessNode(lines, treeStructure[i]);
      }
      text := Join(lines, "\n");
    }

    /** `generate_chronological_tree`: the header, then the events of every print in date order. */
    method GenerateChronologicalTree() returns (text: string)
      ensures text == ChronoText(SortByDate(TreeEvents(treeStructure, |treeStructure|)))
    {
      var events := CollectEvents(treeStructure);
      events := SortByDate(events);
      var lines := RenderEvents(events);
      text := Join(lines, "\n");
    }
  }

  /** The membership test of one of the lookup loops over a process's prints. */
  method ListsPrint(prints: seq<PrintValue>, n: int, loose: bool) returns (hit: bool)
    ensures hit <==> if loose then MentionsLoosely(prints, n) else Mentions(prints, n)
  {
    var key := IntToString(n);
    hit := false;
    if loose {
      for k := 0 to |prints|
        invariant hit <==> exists j :: 0 <= j < k && prints[j].asInt == Some(n)
      {
        if prints[k].asInt == Some(n) {
          hit := true;
        }
      }
      if hit {
        return;
      }
    }
    for k := 0 to |prints|
      invariant !loose || forall j :: 0 <= j < |prints| ==> prints[j].asInt != Some(n)
      invariant hit <==> exists j :: 0 <= j < k && prints[j].text == key
    {
      if prints[k].text == key {
        hit := true;
      }
    }
  }

  lemma ChildNodesStep(term: int, prints: seq<PrintValue>, api: Api, idx: nat)
    requires idx < |prints|
    ensures var k := Kept(api, prints[idx]);
      ChildNodes(term, prints[..idx + 1], api)
        == ChildNodes(term, prints[..idx], api) + (if k.Some? then [PrintNodeOf(term, prints[idx], k.value, api)] else [])
  {
    assert prints[..idx + 1][..idx] == prints[..idx];
  }

  lemma AllAttachmentsAppend(children: seq<PrintNode>, pn: PrintNode)
    ensures AllAttachments(children + [pn]) == AllAttachments(children) + pn.attachments
  {
    assert (children + [pn])[..|children|] == children;
  }

  /** `add_node` on a process node: its header, then each print, the last one drawn as such. */
  method AddProcessNode(out: seq<string>, node: ProcessNode) returns (out': seq<string>)
    ensures out' == out + NodeLines(node)
  {
    out' := out + ProcessHeader(node);
    var cs := node.children;
    for k := 0 to |cs|
      invariant out' == out + ProcessHeader(node) + ChildrenLines(cs, k)
    {
      var isLastChild := k == |cs| - 1;
      var before := out';
      out' := AddPrintNode(out', cs[k], isLastChild);
      Assoc(out + ProcessHeader(node), ChildrenLines(cs, k), PrintLines(cs[k], isLastChild));
    }
    Assoc(out, ProcessHeader(node), ChildrenLines(cs, |cs|));
  }

  /** `add_node` on a print node: its four lines, one line per attachment, a blank line. */
  method AddPrintNode(out: seq<string>, pn: PrintNode, isLast: bool) returns (out': seq<string>)
    ensures out' == out + PrintLines(pn, isLast)
  {
    var connector := if isLast then "└── " else "├── ";
    var pad := if isLast then "    " else "│   ";
    var head := [connector + "📄 DRUK NR " + pn.number.text,
                 pad + "   Tytuł: " + Prefix(pn.title, 60) + "...",
                 pad + "   Data dokumentu: " + pn.documentDate,
                 pad + "   Data dostarczenia: " + pn.deliveryDate];
    var atts := pn.attachments;
    var attLines: seq<string> := [];
    for j := 0 to |atts|
      invariant attLines == AttachmentLines(atts, pad, j)
    {
      var attConnector := if j == |atts| - 1 then "└── " else "├── ";
      var status := if atts[j].localPath.Some? && atts[j].localPath.value != "" then "✅" else "🔗";
      attLines := attLines + [pad + attConnector + status + " " + atts[j].filename];
    }
    out' := out + (head + attLines + [""]);
  }

  /** The collection loop of `generate_chronological_tree`: every print's events, node by node. */
  method CollectEvents(tree: seq<ProcessNode>) returns (events: seq<Event>)
    ensures events == TreeEvents(tree, |tree|)
  {
    events := [];
    for i := 0 to |tree|
      invariant events == TreeEvents(tree, i)
    {
      var more := CollectChildEvents(tree[i].children);
      events := events + more;
    }
  }

  method CollectChildEvents(cs: seq<PrintNode>) returns (events: seq<Event>)
    ensures events == ChildrenEvents(cs, |cs|)
  {
    events := [];
    for k := 0 to |cs|
      invariant events == ChildrenEvents(cs, k)
    {
      var more := CollectPrintEvents(cs[k]);
      events := events + more;
    }
  }

  /** The output loop of `generate_chronological_tree`: the header, then each event's lines. */
  method RenderEvents(events: seq<Event>) returns (lines: seq<string>)
    ensures lines == ChronoHeader() + EventsLines(events, |events|)
  {
    lines := ChronoHeader();
    for e := 0 to |events|
      invariant lines == ChronoHeader() + EventsLines(events, e)
    {
      var more := EventBlock(events[e]);
      Assoc(ChronoHeader(), EventsLines(events, e), more);
      lines := lines + more;
    }
  }

  /**
   * The imperative rendering of `PrintEvents`: the appends of the collection
   * loop for one print node, step by step. What the events mean is stated
   * about the function, in `PrintEventsIff`.
   */
  method CollectPrintEvents(c: PrintNode) returns (events: seq<Event>)
    ensures events == PrintEvents(c)
  {
    events := [];
    var docDate, deliveryDate := c.documentDate, c.deliveryDate;
    if docDate != "" {
      events := events + [Event(docDate, Document, "Druk nr " + c.number.text + ": " + Prefix(c.title, 50) + "...",
                                |c.attachments|)];
    }
    if deliveryDate != "" && deliveryDate != docDate {
      events := events + [Event(deliveryDate, Delivery, "Dostarczenie druku nr " + c.number.text, 0)];
    }
  }

  /**
   * The imperative rendering of `EventLines`: the appends for one event in
   * the chronological view. Its line count is stated about the function, in
   * `EventsLinesCount`.
   */
  method EventBlock(e: Event) returns (lines: seq<string>)
    ensures lines == EventLines(e)
  {
    lines := ["📆 " + e.date, "   [" + KindName(e.kind) + "] " + e.description];
    if e.attachments > 0 {
      lines := lines + ["   📎 Załączniki: " + NatToString(e.attachments)];
    }
    lines := lines + [""];
  }
}
