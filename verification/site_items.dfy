/**
 * The tree items shown in the side bar: a caption, the full path, the
 * collapsible state, the children, and the presentation fields the
 * constructor fills in (tooltip, description, icon).
 */
module SiteItems {

  import opened Paths
  import opened PlainTree

  /** The editor's TreeItemCollapsibleState; `NotCollapsible` is its `None`. */
  datatype CollapsibleState = NotCollapsible | Collapsed | Expanded

  datatype Icon = NoIcon | ThemeIcon(id: string)

  const FolderIcon := ThemeIcon("folder")
  const HtmlIcon := ThemeIcon("file-code")
  const CssIcon := ThemeIcon("symbol-color")
  const JsIcon := ThemeIcon("symbol-event")

  datatype SiteItem = SiteItem(
    caption: string,
    fullPath: string,
    collapsibleState: CollapsibleState,
    children: seq<SiteItem>,
    tooltip: string,
    description: string,
    icon: Icon)

  /**
   * The icon the constructor picks. Anything collapsible is a folder; a leaf
   * gets an icon only when its full path ends in one of the three dotted
   * extensions, which cannot hold of two of them at once.
   */
  function IconFor(fullPath: string, state: CollapsibleState): (icon: Icon)
    ensures state != NotCollapsible ==> icon == FolderIcon
    ensures state == NotCollapsible && EndsWith(fullPath, ".html") ==> icon == HtmlIcon
    ensures state == NotCollapsible && EndsWith(fullPath, ".css") ==> icon == CssIcon
    ensures state == NotCollapsible && EndsWith(fullPath, ".js") ==> icon == JsIcon
    ensures icon == NoIcon <==>
      state == NotCollapsible && !EndsWith(fullPath, ".html") && !EndsWith(fullPath, ".css") && !EndsWith(fullPath, ".js")
  {
    ExtensionsExclusive(fullPath);
    if state == NotCollapsible then
      if EndsWith(fullPath, ".html") then HtmlIcon
      else if EndsWith(fullPath, ".css") then CssIcon
      else if EndsWith(fullPath, ".js") then JsIcon
      else NoIcon
    else FolderIcon
  }

  /** A path ends in at most one of the three dotted extensions. */
  lemma ExtensionsExclusive(s: string)
    ensures EndsWith(s, ".html") ==> !EndsWith(s, ".css") && !EndsWith(s, ".js")
    ensures EndsWith(s, ".css") ==> !EndsWith(s, ".js")
  {
    if EndsWith(s, ".html") {
      assert s[|s| - 1] == ".html"[4];
    } else if EndsWith(s, ".css") {
      assert s[|s| - 3] == ".css"[1];
    }
  }

  /** The item constructor; a leaf is created with the default, empty children. */
  function NewSiteItem(caption: string, fullPath: string, state: CollapsibleState, children: seq<SiteItem>): (item: SiteItem)
    ensures item.caption == caption && item.fullPath == fullPath
    ensures item.collapsibleState == state && item.children == children
    ensures item.tooltip == fullPath && item.description == ""
    ensures item.icon == IconFor(fullPath, state)
  {
    SiteItem(caption, fullPath, state, children, fullPath, "", IconFor(fullPath, state))
  }

  /** The invariant every constructed item keeps: presentation fields follow from the data. */
  ghost predicate Presented(item: SiteItem) {
    item.tooltip == item.fullPath && item.description == "" && item.icon == IconFor(item.fullPath, item.collapsibleState)
  }

  /** Number of items in a forest. */
  function ItemCount(items: seq<SiteItem>): (n: nat)
    decreases items
  {
    if items == [] then 0 else 1 + ItemCount(items[0].children) + ItemCount(items[1..])
  }

  /** `toObject` mapped over a list of items: a deep copy into plain nodes. */
  function ToObjects(items: seq<SiteItem>): (nodes: seq<PlainNode>)
    ensures |nodes| == |items|
    ensures forall i :: 0 <= i < |items| ==>
      nodes[i].caption == items[i].caption && nodes[i].fullPath == items[i].fullPath &&
      |nodes[i].children| == |items[i].children|
    decreases items
  {
    if items == [] then []
    else [PlainNode(items[0].caption, items[0].fullPath, ToObjects(items[0].children))] + ToObjects(items[1..])
  }

  /** `SiteItem.toObject`. */
  function ToObject(item: SiteItem): (node: PlainNode)
    ensures node.caption == item.caption && node.fullPath == item.fullPath
    ensures |node.children| == |item.children|
  {
    PlainNode(item.caption, item.fullPath, ToObjects(item.children))
  }

  /** The copy is deep: element i of the copy is the copy of element i. */
  lemma {:induction false} ToObjectsPointwise(items: seq<SiteItem>, i: nat)
    requires i < |items|
    ensures ToObjects(items)[i] == ToObject(items[i])
    decreases items
  {
    if i > 0 {
      ToObjectsPointwise(items[1..], i - 1);
    }
  }

  /** Copying keeps the number of nodes. */
  lemma {:induction false} ToObjectsKeepsCount(items: seq<SiteItem>)
    ensures NodeCount(ToObjects(items)) == ItemCount(items)
    decreases items
  {
    if items != [] {
      ToObjectsKeepsCount(items[0].children);
      ToObjectsKeepsCount(items[1..]);
    }
  }

  /** Labels of an item forest, for comparison with the copy. */
  function ItemLabels(items: seq<SiteItem>): (r: seq<LabelTree>)
    ensures |r| == |items|
    decreases items
  {
    if items == [] then [] else [LabelTree(items[0].caption, ItemLabels(items[0].children))] + ItemLabels(items[1..])
  }

  /** Copying keeps every caption, the shape and the order of children. */
  lemma {:induction false} ToObjectsKeepsLabels(items: seq<SiteItem>)
    ensures Labels(ToObjects(items)) == ItemLabels(items)
    decreases items
  {
    if items != [] {
      ToObjectsKeepsLabels(items[0].children);
      ToObjectsKeepsLabels(items[1..]);
    }
  }
}
