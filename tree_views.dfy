/**
 * The two text views of the tree in sejm_process_downloader.py, as
 * specification functions: the ASCII tree of `print_tree_ascii` and the
 * dated events of `generate_chronological_tree`, with the stable sort by
 * date string that orders them.
 */
module TreeViews {
  import opened Strings
  import opened ProcessTree

  // ---------------------------------------------------------------------------
  // print_tree_ascii
  // ---------------------------------------------------------------------------

  function Connector(isLast: bool): string
  {
    if isLast then "└── " else "├── "
  }

  /** What continues a branch under a node: blank under the last one, a bar otherwise. */
  function Indent(isLast: bool): string
  {
    if isLast then "    " else "│   "
  }

  /** `att.get("local_path")` is truthy: a non-empty path. */
  predicate Saved(a: AttachmentNode)
  {
    a.localPath.Some? && a.localPath.value != ""
  }

  function Status(a: AttachmentNode): string
  {
    if Saved(a) then "✅" else "🔗"
  }

  function ProcessHeader(node: ProcessNode): (lines: seq<string>)
  {
    ["📂 PROCES: " + Prefix(node.title, 80) + "...", "   Stan: " + node.state,
     "   Typ dokumentu: " + node.documentType, ""]
  }

  /** The line of attachment `j` of a print drawn under `indent`. */
  function AttachmentLineAt(atts: seq<AttachmentNode>, indent: string, j: nat): string
    requires j < |atts|
  {
    indent + Connector(j == |atts| - 1) + Status(atts[j]) + " " + atts[j].filename
  }

  /** The attachment lines of a print, the first `k` of them. */
  function AttachmentLines(atts: seq<AttachmentNode>, indent: string, k: nat): (lines: seq<string>)
    requires k <= |atts|
    ensures |lines| == k && forall j :: 0 <= j < k ==> lines[j] == AttachmentLineAt(atts, indent, j)
  {
    if k == 0 then [] else AttachmentLines(atts, indent, k - 1) + [AttachmentLineAt(atts, indent, k - 1)]
  }

  /** The lines `add_node` appends for a print node. */
  function PrintLines(pn: PrintNode, isLast: bool): (lines: seq<string>)
    ensures |lines| == 5 + |pn.attachments|
  {
    var indent := Indent(isLast);
    [Connector(isLast) + "📄 DRUK NR " + pn.number.text,
     indent + "   Tytuł: " + Prefix(pn.title, 60) + "...",
     indent + "   Data dokumentu: " + pn.documentDate,
     indent + "   Data dostarczenia: " + pn.deliveryDate]
      + AttachmentLines(pn.attachments, indent, |pn.attachments|) + [""]
  }

  /** The lines of the first `k` children of a process node. */
  function ChildrenLines(cs: seq<PrintNode>, k: nat): seq<string>
    requires k <= |cs|
  {
    if k == 0 then [] else ChildrenLines(cs, k - 1) + PrintLines(cs[k - 1], k - 1 == |cs| - 1)
  }

  /** The lines `add_node` appends for a process node. */
  function NodeLines(node: ProcessNode): seq<string>
  {
    ProcessHeader(node) + ChildrenLines(node.children, |node.children|)
  }

  /** The lines of the first `k` nodes of the tree. */
  function TreeLines(tree: seq<ProcessNode>, k: nat): seq<string>
    requires k <= |tree|
  {
    if k == 0 then [] else TreeLines(tree, k - 1) + NodeLines(tree[k - 1])
  }

  /** What `print_tree_ascii` returns. */
  function AsciiTree(tree: seq<ProcessNode>): string
  {
    Join(TreeLines(tree, |tree|), "\n")
  }

  lemma {:induction false} ChildrenLinesCount(cs: seq<PrintNode>, k: nat)
    requires k <= |cs|
    ensures |ChildrenLines(cs, k)| == 5 * k + |AllAttachments(cs[..k])|
  {
    if k > 0 {
      ChildrenLinesCount(cs, k - 1);
      assert cs[..k][..k - 1] == cs[..k - 1];
    }
  }

  /** A process node takes its 4 header lines, then 5 lines per print plus one per attachment. */
  lemma NodeLineCount(node: ProcessNode)
    ensures |NodeLines(node)| == 4 + 5 * |node.children| + |AllAttachments(node.children)|
  {
    ChildrenLinesCount(node.children, |node.children|);
    assert node.children[..|node.children|] == node.children;
  }

  /** The lines of the first `k` children begin the lines of the first `m`. */
  lemma {:induction false} ChildrenLinesPrefix(cs: seq<PrintNode>, k: nat, m: nat)
    requires k <= m <= |cs|
    ensures ChildrenLines(cs, k) <= ChildrenLines(cs, m)
    decreases m
  {
    if k < m {
      ChildrenLinesPrefix(cs, k, m - 1);
    }
  }

  /**
   * Where print `k` of a process node is drawn: its whole block follows the
   * 4 header lines and the blocks of the prints before it, 5 lines per print
   * and one per attachment.
   */
  lemma PrintDrawnAt(node: ProcessNode, k: nat)
    requires k < |node.children|
    ensures var cs := node.children;
      var at := 4 + 5 * k + |AllAttachments(cs[..k])|;
      var block := PrintLines(cs[k], k == |cs| - 1);
      && at + |block| <= |NodeLines(node)|
      && forall i :: 0 <= i < |block| ==> NodeLines(node)[at + i] == block[i]
  {
    var cs := node.children;
    var at := 4 + 5 * k + |AllAttachments(cs[..k])|;
    var block := PrintLines(cs[k], k == |cs| - 1);
    var lines := NodeLines(node);
    LineOfPrint(node, k, |block| - 1);
    forall i | 0 <= i < |block|
      ensures lines[at + i] == block[i]
    {
      LineOfPrint(node, k, i);
    }
  }

  /**
   * A print's block opens with the last-child connector exactly when it is the
   * last print, draws each attachment under the matching indent marked saved
   * or linked, and ends with a blank line.
   */
  lemma PrintBlockShape(pn: PrintNode, isLast: bool)
    ensures var lines := PrintLines(pn, isLast);
      && lines[0] == Connector(isLast) + "📄 DRUK NR " + pn.number.text
      && (lines[0][..4] == "└── " <==> isLast)
      && (forall j :: 0 <= j < |pn.attachments| ==>
            lines[4 + j] == AttachmentLineAt(pn.attachments, Indent(isLast), j))
      && lines[4 + |pn.attachments|] == ""
  {
    var lines := PrintLines(pn, isLast);
    assert lines[0][..4] == Connector(isLast);
  }

  /** Line `i` of the block of print `k`, at its place among the node's lines. */
  lemma LineOfPrint(node: ProcessNode, k: nat, i: nat)
    requires k < |node.children| && i < 5 + |node.children[k].attachments|
    ensures var cs := node.children;
      var at := 4 + 5 * k + |AllAttachments(cs[..k])|;
      && at + i < |NodeLines(node)|
      && NodeLines(node)[at + i] == PrintLines(cs[k], k == |cs| - 1)[i]
  {
    ChildrenLinesCount(node.children, k);
    BlockAt(node.children, k, i);
  }

  /** Line `i` of print `k`'s block sits right after the lines of the prints before it. */
  lemma BlockAt(cs: seq<PrintNode>, k: nat, i: nat)
    requires k < |cs| && i < 5 + |cs[k].attachments|
    ensures |ChildrenLines(cs, k)| + i < |ChildrenLines(cs, |cs|)|
    ensures ChildrenLines(cs, |cs|)[|ChildrenLines(cs, k)| + i] == PrintLines(cs[k], k == |cs| - 1)[i]
  {
    ChildrenLinesPrefix(cs, k + 1, |cs|);
    var upTo := ChildrenLines(cs, k + 1);
    assert upTo == ChildrenLines(cs, k) + PrintLines(cs[k], k == |cs| - 1);
    assert upTo[|ChildrenLines(cs, k)| + i] == PrintLines(cs[k], k == |cs| - 1)[i];
  }

  /** In a built tree an attachment is drawn ✅ exactly when its download returned a non-empty path. */
  lemma SavedMarkIffDownloaded(term: int, printNum: PrintValue, atts: seq<string>, api: Api, f: nat)
    requires f < |atts|
    ensures var dl := api.download(printNum.text, atts[f]);
      Status(AttachmentNodes(term, printNum, atts, api)[f]) == "✅" <==> dl.Some? && dl.value != ""
  {
    AttachmentLocalPath(term, printNum, atts, api, f);
  }

  // ---------------------------------------------------------------------------
  // generate_chronological_tree
  // ---------------------------------------------------------------------------

  datatype EventKind = Document | Delivery

  function KindName(k: EventKind): string
  {
    match k
    case Document => "Dokument"
    case Delivery => "Dostarczenie"
  }

  datatype Event = Event(date: string, kind: EventKind, description: string, attachments: nat)

  /** The events of one print node: its document date, then its delivery date if that differs. */
  function PrintEvents(c: PrintNode): seq<Event>
  {
    (if c.documentDate != "" then
       [Event(c.documentDate, Document, "Druk nr " + c.number.text + ": " + Prefix(c.title, 50) + "...", |c.attachments|)]
     else [])
    + (if c.deliveryDate != "" && c.deliveryDate != c.documentDate then
         [Event(c.deliveryDate, Delivery, "Dostarczenie druku nr " + c.number.text, 0)]
       else [])
  }

  /**
   * A print yields a document event exactly when its document date is set,
   * and a delivery event exactly when its delivery date is set and differs;
   * a delivery event never counts attachments.
   */
  lemma PrintEventsIff(c: PrintNode)
    ensures (exists e :: e in PrintEvents(c) && e.kind == Document) <==> c.documentDate != ""
    ensures (exists e :: e in PrintEvents(c) && e.kind == Delivery) <==>
      c.deliveryDate != "" && c.deliveryDate != c.documentDate
    ensures forall e :: e in PrintEvents(c) && e.kind == Delivery ==> e.attachments == 0 && e.date == c.deliveryDate
    ensures forall e :: e in PrintEvents(c) && e.kind == Document ==> e.attachments == |c.attachments| && e.date == c.documentDate
  {
    var ev := PrintEvents(c);
    if c.documentDate != "" {
      assert ev[0].kind == Document;
    }
    if c.deliveryDate != "" && c.deliveryDate != c.documentDate {
      assert ev[|ev| - 1].kind == Delivery;
    }
  }

  /** The events of the first `k` children, in child order. */
  function ChildrenEvents(cs: seq<PrintNode>, k: nat): seq<Event>
    requires k <= |cs|
  {
    if k == 0 then [] else ChildrenEvents(cs, k - 1) + PrintEvents(cs[k - 1])
  }

  /** The events of the first `k` tree nodes, before sorting. */
  function TreeEvents(tree: seq<ProcessNode>, k: nat): seq<Event>
    requires k <= |tree|
  {
    if k == 0 then [] else TreeEvents(tree, k - 1) + ChildrenEvents(tree[k - 1].children, |tree[k - 1].children|)
  }

  /** Python's `<=` on strings: code point by code point, a prefix first. */
  predicate LexLe(a: string, b: string)
  {
    |a| == 0 || (|b| > 0 && (a[0] < b[0] || (a[0] == b[0] && LexLe(a[1..], b[1..]))))
  }

  lemma {:induction false} LexLeRefl(a: string)
    ensures LexLe(a, a)
  {
    if |a| > 0 {
      LexLeRefl(a[1..]);
    }
  }

  lemma {:induction false} LexLeTotal(a: string, b: string)
    ensures LexLe(a, b) || LexLe(b, a)
  {
    if |a| > 0 && |b| > 0 && a[0] == b[0] {
      LexLeTotal(a[1..], b[1..]);
    }
  }

  lemma {:induction false} LexLeTrans(a: string, b: string, c: string)
    requires LexLe(a, b) && LexLe(b, c)
    ensures LexLe(a, c)
  {
    if |a| > 0 && a[0] == b[0] && b[0] == c[0] {
      LexLeTrans(a[1..], b[1..], c[1..]);
    }
  }

  predicate SortedByDate(s: seq<Event>)
  {
    forall i, j :: 0 <= i < j < |s| ==> LexLe(s[i].date, s[j].date)
  }

  /** Place `x` after every event of `t` not later than it, scanning from the back. */
  function Insert(t: seq<Event>, x: Event): seq<Event>
  {
    if |t| == 0 then [x]
    else if LexLe(t[|t| - 1].date, x.date) then t + [x]
    else Insert(t[..|t| - 1], x) + [t[|t| - 1]]
  }

  /** `events.sort(key=date)`: a stable sort, by insertion. */
  function SortByDate(s: seq<Event>): seq<Event>
  {
    if |s| == 0 then [] else Insert(SortByDate(s[..|s| - 1]), s[|s| - 1])
  }

  /** The events of `s` with date `d`, in order. */
  function WithDate(s: seq<Event>, d: string): seq<Event>
  {
    if |s| == 0 then []
    else WithDate(s[..|s| - 1], d) + (if s[|s| - 1].date == d then [s[|s| - 1]] else [])
  }

  lemma {:induction false} InsertPermutes(t: seq<Event>, x: Event)
    ensures multiset(Insert(t, x)) == multiset(t) + multiset{x}
  {
    if |t| > 0 && !LexLe(t[|t| - 1].date, x.date) {
      var n := |t| - 1;
      InsertPermutes(t[..n], x);
      assert t == t[..n] + [t[n]];
    }
  }

  /** Every event of `t` stays not later than the last event of `Insert(t, x)`, or `x` takes the end. */
  lemma {:induction false} InsertSorted(t: seq<Event>, x: Event)
    requires SortedByDate(t)
    ensures SortedByDate(Insert(t, x))
    ensures |Insert(t, x)| == |t| + 1
    ensures forall i :: 0 <= i < |Insert(t, x)| ==> Insert(t, x)[i] == x || Insert(t, x)[i] in t
  {
    var r := Insert(t, x);
    if |t| == 0 {
    } else if LexLe(t[|t| - 1].date, x.date) {
      forall i, j | 0 <= i < j < |r|
        ensures LexLe(r[i].date, r[j].date)
      {
        if j == |t| && i < |t| - 1 {
          LexLeTrans(t[i].date, t[|t| - 1].date, x.date);
        }
      }
    } else {
      var n := |t| - 1;
      var last := t[n];
      InsertSorted(t[..n], x);
      var front := Insert(t[..n], x);
      LexLeTotal(last.date, x.date);
      forall i | 0 <= i < |front|
        ensures LexLe(front[i].date, last.date)
      {
        if front[i] != x {
          assert front[i] in t[..n];
          var m :| 0 <= m < n && t[m] == front[i];
        }
      }
      forall i, j | 0 <= i < j < |r|
        ensures LexLe(r[i].date, r[j].date)
      {
        if j < |front| {
          assert r[i] == front[i] && r[j] == front[j];
        }
      }
      forall i | 0 <= i < |r|
        ensures r[i] == x || r[i] in t
      {
        if i < |front| && front[i] != x {
          assert front[i] in t[..n];
        }
      }
    }
  }

  lemma {:induction false} InsertStable(t: seq<Event>, x: Event, d: string)
    ensures WithDate(Insert(t, x), d) == WithDate(t, d) + (if x.date == d then [x] else [])
  {
    var tail := if x.date == d then [x] else [];
    if |t| == 0 {
    } else if LexLe(t[|t| - 1].date, x.date) {
      assert (t + [x])[..|t|] == t;
    } else {
      var n := |t| - 1;
      var last := t[n];
      LexLeRefl(x.date);
      InsertStable(t[..n], x, d);
      var front := Insert(t[..n], x);
      assert (front + [last])[..|front|] == front;
      WithDateLast(t);
    }
  }

  lemma WithDateLast(t: seq<Event>)
    requires |t| > 0
    ensures forall d :: WithDate(t, d) == WithDate(t[..|t| - 1], d) + (if t[|t| - 1].date == d then [t[|t| - 1]] else [])
  {
  }

  /** The sorted events are ordered by date and are a permutation of the collected ones. */
  lemma {:induction false} SortByDateCorrect(s: seq<Event>)
    ensures SortedByDate(SortByDate(s))
    ensures multiset(SortByDate(s)) == multiset(s)
  {
    if |s| > 0 {
      var n := |s| - 1;
      SortByDateCorrect(s[..n]);
      InsertSorted(SortByDate(s[..n]), s[n]);
      InsertPermutes(SortByDate(s[..n]), s[n]);
      assert s == s[..n] + [s[n]];
    }
  }

  /** The sort is stable: events with the same date keep the order they were collected in. */
  lemma {:induction false} SortByDateStable(s: seq<Event>, d: string)
    ensures WithDate(SortByDate(s), d) == WithDate(s, d)
  {
    if |s| > 0 {
      var n := |s| - 1;
      SortByDateStable(s[..n], d);
      InsertStable(SortByDate(s[..n]), s[n], d);
    }
  }

  const Rule := "================================================================================"

  function ChronoHeader(): seq<string>
  {
    [Rule, "📅 DRZEWO CHRONOLOGICZNE", Rule, ""]
  }

  /** The lines of one event: date, type and description, the attachment count when positive, a blank. */
  function EventLines(e: Event): seq<string>
  {
    ["📆 " + e.date, "   [" + KindName(e.kind) + "] " + e.description]
      + (if e.attachments > 0 then ["   📎 Załączniki: " + NatToString(e.attachments)] else [])
      + [""]
  }

  /** The lines of the first `k` events. */
  function EventsLines(events: seq<Event>, k: nat): seq<string>
    requires k <= |events|
  {
    if k == 0 then [] else EventsLines(events, k - 1) + EventLines(events[k - 1])
  }

  /** The events with a positive attachment count. */
  function WithAttachments(events: seq<Event>): nat
  {
    if |events| == 0 then 0
    else WithAttachments(events[..|events| - 1]) + (if events[|events| - 1].attachments > 0 then 1 else 0)
  }

  /** What `generate_chronological_tree` returns, given the sorted events. */
  function ChronoText(sorted: seq<Event>): string
  {
    Join(ChronoHeader() + EventsLines(sorted, |sorted|), "\n")
  }

  lemma {:induction false} EventsLinesCount(events: seq<Event>, k: nat)
    requires k <= |events|
    ensures |EventsLines(events, k)| == 3 * k + WithAttachments(events[..k])
  {
    if k > 0 {
      EventsLinesCount(events, k - 1);
      assert events[..k][..k - 1] == events[..k - 1];
    }
  }

  lemma {:induction false} WithAttachmentsInsert(t: seq<Event>, x: Event)
    ensures WithAttachments(Insert(t, x)) == WithAttachments(t) + (if x.attachments > 0 then 1 else 0)
  {
    if |t| > 0 && !LexLe(t[|t| - 1].date, x.date) {
      var n := |t| - 1;
      WithAttachmentsInsert(t[..n], x);
      assert (Insert(t[..n], x) + [t[n]])[..|Insert(t[..n], x)|] == Insert(t[..n], x);
    } else if |t| > 0 {
      assert (t + [x])[..|t|] == t;
    }
  }

  lemma {:induction false} WithAttachmentsSort(s: seq<Event>)
    ensures |SortByDate(s)| == |s|
    ensures WithAttachments(SortByDate(s)) == WithAttachments(s)
  {
    if |s| > 0 {
      var n := |s| - 1;
      WithAttachmentsSort(s[..n]);
      WithAttachmentsInsert(SortByDate(s[..n]), s[n]);
      InsertLength(SortByDate(s[..n]), s[n]);
    }
  }

  lemma {:induction false} InsertLength(t: seq<Event>, x: Event)
    ensures |Insert(t, x)| == |t| + 1
  {
    if |t| > 0 && !LexLe(t[|t| - 1].date, x.date) {
      InsertLength(t[..|t| - 1], x);
    }
  }

  /**
   * The chronological view has a 4-line header, then 3 lines per event and
   * one more for each event that counts attachments.
   */
  lemma ChronoLineCount(events: seq<Event>)
    ensures var sorted := SortByDate(events);
      |ChronoHeader() + EventsLines(sorted, |sorted|)| == 4 + 3 * |events| + WithAttachments(events)
  {
    var sorted := SortByDate(events);
    WithAttachmentsSort(events);
    EventsLinesCount(sorted, |sorted|);
    assert sorted[..|sorted|] == sorted;
  }
}
