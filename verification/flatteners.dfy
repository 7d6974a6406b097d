/**
 * What the three exporters hand to their writer libraries. The PDF
 * exporter writes one text line per node (`printNode`), the Excel exporter
 * adds one `(level, label)` row per node (`addRows`), and the XML exporter
 * builds a nested object per node (`buildXML`). All three walk the plain
 * tree in pre-order, a node before its children and its children before
 * its next sibling.
 */
module Flatteners {

  import opened PlainTree

  function Spaces(n: nat): (s: string)
    ensures |s| == n
    ensures forall k :: 0 <= k < n ==> s[k] == ' '
  {
    seq(n, _ => ' ')
  }

  /*** PDF ***/

  const PdfTitle: string := "Структура сайта"

  /** `printNode` over a list of siblings at depth `indent`: `4 * indent` spaces, then the label. */
  function PdfLines(nodes: seq<PlainNode>, indent: nat): (lines: seq<string>)
    ensures |lines| == NodeCount(nodes)
    decreases nodes
  {
    if nodes == [] then []
    else [Spaces(4 * indent) + nodes[0].caption] + PdfLines(nodes[0].children, indent + 1) + PdfLines(nodes[1..], indent)
  }

  /**
   * The text of the PDF: the title line, then one line per node in
   * pre-order, the node's label indented by four spaces per level of depth.
   */
  function PdfText(treeData: seq<PlainNode>): (text: seq<string>)
    ensures |text| == NodeCount(treeData) + 1 && text[0] == PdfTitle
    ensures |ExcelRows(treeData, 0)| == |text| - 1
    ensures forall i :: 0 <= i < |text| - 1 ==>
      text[i + 1] == Spaces(4 * ExcelRows(treeData, 0)[i].level) + ExcelRows(treeData, 0)[i].caption
  {
    PdfLinesAreIndentedRows(treeData, 0);
    RowCountIsNodeCount(treeData, 0);
    [PdfTitle] + PdfLines(treeData, 0)
  }

  /*** Excel ***/

  datatype Row = Row(level: nat, caption: string)

  const SheetName: string := "Структура сайта"
  const ColumnHeaders: seq<string> := ["Уровень", "Название"]

  /** `addRows(nodes, level)`. */
  function ExcelRows(nodes: seq<PlainNode>, level: nat): (rows: seq<Row>)
    ensures nodes == [] <==> rows == []
    ensures nodes != [] ==> rows[0] == Row(level, nodes[0].caption)
    decreases nodes
  {
    if nodes == [] then []
    else [Row(level, nodes[0].caption)] + ExcelRows(nodes[0].children, level + 1) + ExcelRows(nodes[1..], level)
  }

  datatype Sheet = Sheet(name: string, headers: seq<string>, rows: seq<Row>)

  /** The worksheet: its name, the two column headers, and the rows from level 0. */
  function ExcelSheet(treeData: seq<PlainNode>): (sheet: Sheet)
    ensures sheet.headers == ColumnHeaders
    ensures treeData == [] <==> sheet.rows == []
  {
    Sheet(SheetName, ColumnHeaders, ExcelRows(treeData, 0))
  }

  /*** XML ***/

  /** One `{ '@label': ..., node?: [...] }` object; `node` is absent for a childless node. */
  datatype XmlNode = XmlNode(caption: string, node: NestedNodes)

  /** The optional `node` property of an object. */
  datatype NestedNodes = Absent | Present(objs: seq<XmlNode>)

  /** The document root `{ siteStructure: { node: [...] } }`. */
  datatype XmlRoot = SiteStructure(node: seq<XmlNode>)

  /** `buildXML`. */
  function BuildXml(nodes: seq<PlainNode>): (objs: seq<XmlNode>)
    ensures |objs| == |nodes|
    ensures forall i :: 0 <= i < |nodes| ==>
      && objs[i].caption == nodes[i].caption
      && (objs[i].node.Present? <==> nodes[i].children != [])
      && (objs[i].node.Present? ==> |objs[i].node.objs| == |nodes[i].children|)
    decreases nodes
  {
    if nodes == [] then []
    else
      var n := nodes[0];
      [XmlNode(n.caption, if n.children != [] then Present(BuildXml(n.children)) else Absent)] + BuildXml(nodes[1..])
  }

  function XmlDocument(treeData: seq<PlainNode>): (doc: XmlRoot)
    ensures |doc.node| == |treeData|
  {
    SiteStructure(BuildXml(treeData))
  }

  /*** Cross-format properties ***/

  /** The PDF line of a row: its level's indentation, then its label. */
  function Indented(rows: seq<Row>): (lines: seq<string>)
    ensures |lines| == |rows|
  {
    seq(|rows|, i requires 0 <= i < |rows| => Spaces(4 * rows[i].level) + rows[i].caption)
  }

  lemma IndentedAppend(a: seq<Row>, b: seq<Row>)
    ensures Indented(a + b) == Indented(a) + Indented(b)
  {
    assert forall i :: 0 <= i < |a| ==> (a + b)[i] == a[i];
    assert forall i :: |a| <= i < |a| + |b| ==> (a + b)[i] == b[i - |a|];
  }

  /** The PDF listing is the Excel rows, each written as indentation followed by the label. */
  lemma {:induction false} PdfLinesAreIndentedRows(nodes: seq<PlainNode>, level: nat)
    ensures PdfLines(nodes, level) == Indented(ExcelRows(nodes, level))
    decreases nodes
  {
    if nodes != [] {
      var head := [Row(level, nodes[0].caption)];
      var kids := ExcelRows(nodes[0].children, level + 1);
      var sibs := ExcelRows(nodes[1..], level);
      PdfLinesAreIndentedRows(nodes[0].children, level + 1);
      PdfLinesAreIndentedRows(nodes[1..], level);
      IndentedAppend(head + kids, sibs);
      IndentedAppend(head, kids);
    }
  }

  /** One row per node. */
  lemma {:induction false} RowCountIsNodeCount(nodes: seq<PlainNode>, level: nat)
    ensures |ExcelRows(nodes, level)| == NodeCount(nodes)
    decreases nodes
  {
    if nodes != [] {
      RowCountIsNodeCount(nodes[0].children, level + 1);
      RowCountIsNodeCount(nodes[1..], level);
    }
  }

  /** Number of objects in a `buildXML` result, nested ones included. */
  function XmlCount(objs: seq<XmlNode>): (n: nat)
    decreases objs
  {
    if objs == [] then 0
    else
      var nested := match objs[0].node case Present(kids) => XmlCount(kids) case Absent => 0;
      1 + nested + XmlCount(objs[1..])
  }

  /** One XML element per node. */
  lemma {:induction false} XmlCountIsNodeCount(nodes: seq<PlainNode>)
    ensures XmlCount(BuildXml(nodes)) == NodeCount(nodes)
    decreases nodes
  {
    if nodes != [] {
      XmlCountIsNodeCount(nodes[0].children);
      XmlCountIsNodeCount(nodes[1..]);
      assert BuildXml(nodes)[1..] == BuildXml(nodes[1..]);
    }
  }

  /**
   * The three exports agree: the PDF has one line per node after its title,
   * the sheet one row per node, the XML one element per node; and each PDF
   * line with its row's indentation removed is that row's label.
   */
  lemma ExportsAgree(treeData: seq<PlainNode>)
    ensures |PdfText(treeData)| - 1 == |ExcelSheet(treeData).rows| == XmlCount(XmlDocument(treeData).node) == NodeCount(treeData)
    ensures forall i :: 0 <= i < |ExcelSheet(treeData).rows| ==>
      var row := ExcelSheet(treeData).rows[i];
      && PdfText(treeData)[i + 1] == Spaces(4 * row.level) + row.caption
      && 4 * row.level <= |PdfText(treeData)[i + 1]|
      && PdfText(treeData)[i + 1][4 * row.level..] == row.caption
  {
    PdfLinesAreIndentedRows(treeData, 0);
    RowCountIsNodeCount(treeData, 0);
    XmlCountIsNodeCount(treeData);
    var rows := ExcelRows(treeData, 0);
    forall i | 0 <= i < |rows|
      ensures PdfText(treeData)[i + 1] == Spaces(4 * rows[i].level) + rows[i].caption
    {
      assert PdfText(treeData)[i + 1] == PdfLines(treeData, 0)[i];
    }
  }

  /*** Reading the exports back ***/

  /**
   * Rebuilds a label forest at depth `level` from pre-order rows: a row at
   * `level` opens a node, the rows right after it that are deeper are its
   * subtree, and the first row shallower than `level` ends the forest.
   */
  function ParseRows(rows: seq<Row>, level: nat): (r: (seq<LabelTree>, seq<Row>))
    ensures |r.1| <= |rows|
    decreases |rows|
  {
    if rows == [] || rows[0].level != level then ([], rows)
    else
      var (kids, afterKids) := ParseRows(rows[1..], level + 1);
      var (sibs, rest) := ParseRows(afterKids, level);
      ([LabelTree(rows[0].caption, kids)] + sibs, rest)
  }

  /** The rows of a forest, followed by shallower rows, parse back to the forest's labels. */
  lemma {:induction false} ParseRowsInvertsExcelRows(nodes: seq<PlainNode>, level: nat, tail: seq<Row>)
    requires tail == [] || tail[0].level < level
    ensures ParseRows(ExcelRows(nodes, level) + tail, level) == (Labels(nodes), tail)
    decreases nodes
  {
    if nodes == [] {
      assert ExcelRows(nodes, level) + tail == tail;
    } else {
      var n := nodes[0];
      var rest := ExcelRows(nodes[1..], level) + tail;
      SiblingRowsStartAt(nodes[1..], level, tail);
      ParseRowsInvertsExcelRows(n.children, level + 1, rest);
      ParseRowsInvertsExcelRows(nodes[1..], level, tail);
      var rows := ExcelRows(nodes, level) + tail;
      RowsOfFirstNode(nodes, level, tail);
      ParseRowsStep(rows, level, Labels(n.children), rest, Labels(nodes[1..]), tail);
      assert Labels(nodes) == [LabelTree(n.caption, Labels(n.children))] + Labels(nodes[1..]);
    }
  }

  /** What follows a node's subtree rows starts no deeper than the node's own level. */
  lemma SiblingRowsStartAt(sibs: seq<PlainNode>, level: nat, tail: seq<Row>)
    requires tail == [] || tail[0].level < level
    ensures var rest := ExcelRows(sibs, level) + tail;
      rest == [] || rest[0].level < level + 1
  {
    if sibs != [] {
      assert (ExcelRows(sibs, level) + tail)[0] == ExcelRows(sibs, level)[0];
    }
  }

  /** The rows of a non-empty forest: the first node's row, its subtree's rows, then its siblings' rows. */
  lemma RowsOfFirstNode(nodes: seq<PlainNode>, level: nat, tail: seq<Row>)
    requires nodes != []
    ensures var rows := ExcelRows(nodes, level) + tail;
      && rows != []
      && rows[0] == Row(level, nodes[0].caption)
      && rows[1..] == ExcelRows(nodes[0].children, level + 1) + (ExcelRows(nodes[1..], level) + tail)
  {
    var kids := ExcelRows(nodes[0].children, level + 1);
    var sibs := ExcelRows(nodes[1..], level);
    var head := [Row(level, nodes[0].caption)];
    assert ExcelRows(nodes, level) + tail == head + (kids + (sibs + tail));
  }

  /** One unfolding of the parser: a node row, its subtree, then its siblings. */
  lemma ParseRowsStep(rows: seq<Row>, level: nat, kids: seq<LabelTree>, afterKids: seq<Row>, sibs: seq<LabelTree>, rest: seq<Row>)
    requires rows != [] && rows[0].level == level
    requires ParseRows(rows[1..], level + 1) == (kids, afterKids)
    requires ParseRows(afterKids, level) == (sibs, rest)
    ensures ParseRows(rows, level) == ([LabelTree(rows[0].caption, kids)] + sibs, rest)
  {
  }

  /** The spreadsheet alone determines the labelled tree: levels are depths in pre-order. */
  lemma SheetRoundTrip(treeData: seq<PlainNode>)
    ensures ParseRows(ExcelSheet(treeData).rows, 0) == (Labels(treeData), [])
  {
    ParseRowsInvertsExcelRows(treeData, 0, []);
    assert ExcelRows(treeData, 0) + [] == ExcelRows(treeData, 0);
  }

  /** Reads the XML objects back into a label forest; a missing `node` means no children. */
  function ReadXml(objs: seq<XmlNode>): (forest: seq<LabelTree>)
    ensures |forest| == |objs|
    decreases objs
  {
    if objs == [] then []
    else
      var kids := match objs[0].node case Present(k) => ReadXml(k) case Absent => [];
      [LabelTree(objs[0].caption, kids)] + ReadXml(objs[1..])
  }

  /** Reading the XML objects back gives the labels, shape and order of the tree. */
  lemma {:induction false} XmlRoundTrip(nodes: seq<PlainNode>)
    ensures ReadXml(BuildXml(nodes)) == Labels(nodes)
    decreases nodes
  {
    if nodes != [] {
      XmlRoundTrip(nodes[0].children);
      XmlRoundTrip(nodes[1..]);
      assert BuildXml(nodes)[1..] == BuildXml(nodes[1..]);
    }
  }

  /*** addRows with an explicit stack ***/

  /** A pending list of siblings and the level they sit at. */
  datatype Frame = Frame(pending: seq<PlainNode>, level: nat)

  /** The rows a stack of frames still owes, top of the stack (the last frame) first. */
  function OwedRows(stack: seq<Frame>): (rows: seq<Row>)
    decreases |stack|
  {
    if stack == [] then []
    else ExcelRows(stack[|stack| - 1].pending, stack[|stack| - 1].level) + OwedRows(stack[..|stack| - 1])
  }

  function OwedNodes(stack: seq<Frame>): (n: nat)
    decreases |stack|
  {
    if stack == [] then 0 else NodeCount(stack[|stack| - 1].pending) + OwedNodes(stack[..|stack| - 1])
  }

  lemma OwedAfterPush(below: seq<Frame>, f: Frame)
    ensures OwedRows(below + [f]) == ExcelRows(f.pending, f.level) + OwedRows(below)
    ensures OwedNodes(below + [f]) == NodeCount(f.pending) + OwedNodes(below)
  {
    assert (below + [f])[..|below|] == below;
  }

  /** Emitting the first pending node and pushing its children leaves the owed rows in the same order. */
  lemma EmitStep(rows: seq<Row>, stack: seq<Frame>)
    requires stack != [] && stack[|stack| - 1].pending != []
    ensures var top := stack[|stack| - 1];
      var n := top.pending[0];
      var stack' := stack[..|stack| - 1] + [Frame(top.pending[1..], top.level), Frame(n.children, top.level + 1)];
      && (rows + [Row(top.level, n.caption)]) + OwedRows(stack') == rows + OwedRows(stack)
      && OwedNodes(stack') < OwedNodes(stack)
  {
    var top := stack[|stack| - 1];
    var below := stack[..|stack| - 1];
    var n := top.pending[0];
    var next := Frame(top.pending[1..], top.level);
    var child := Frame(n.children, top.level + 1);
    var stack' := below + [next, child];
    assert stack' == (below + [next]) + [child];
    OwedAfterPush(below, next);
    OwedAfterPush(below + [next], child);
    var kids := ExcelRows(n.children, top.level + 1);
    var sibs := ExcelRows(top.pending[1..], top.level);
    var row := [Row(top.level, n.caption)];
    var owed := OwedRows(below);
    assert OwedRows(stack') == kids + (sibs + owed);
    assert OwedRows(stack) == (row + kids + sibs) + owed;
    SeqAssoc(rows, row, kids, sibs, owed);
  }

  /** Dropping an exhausted frame changes neither the owed rows nor the owed nodes. */
  lemma PopStep(stack: seq<Frame>)
    requires stack != [] && stack[|stack| - 1].pending == []
    ensures OwedRows(stack[..|stack| - 1]) == OwedRows(stack)
    ensures OwedNodes(stack[..|stack| - 1]) == OwedNodes(stack)
  {
    assert ExcelRows([], stack[|stack| - 1].level) == [];
  }

  lemma SeqAssoc<T>(a: seq<T>, b: seq<T>, c: seq<T>, d: seq<T>, e: seq<T>)
    ensures (a + b) + (c + (d + e)) == a + ((b + c + d) + e)
  {
  }

  /**
   * `addRows(treeData, 0)` computed with a work-list instead of recursion,
   * so that deep trees need no deep call stack.
   */
  method ExcelRowsIterative(treeData: seq<PlainNode>) returns (rows: seq<Row>)
    ensures rows == ExcelRows(treeData, 0)
  {
    rows := [];
    var stack := [Frame(treeData, 0)];
    OwedAfterPush([], Frame(treeData, 0));
    while stack != []
      invariant rows + OwedRows(stack) == ExcelRows(treeData, 0)
      decreases OwedNodes(stack), |stack|
    {
      var top := stack[|stack| - 1];
      if top.pending == [] {
        PopStep(stack);
        stack := stack[..|stack| - 1];
      } else {
        var n := top.pending[0];
        EmitStep(rows, stack);
        rows := rows + [Row(top.level, n.caption)];
        stack := stack[..|stack| - 1] + [Frame(top.pending[1..], top.level), Frame(n.children, top.level + 1)];
      }
    }
  }
}
