/**
 * The tree data provider: the configured workspace root, the stored tree,
 * and the change notifications it fires. The file system is read afresh on
 * every refresh; each operation takes the listing found at the root at that
 * moment as a parameter.
 */
module TreeProvider {

  import opened Wrappers
  import opened FileSystem
  import opened PlainTree
  import opened SiteItems
  import opened TreeBuilder

  /** `changeEvents` counts the tree-changed notifications fired so far. */
  datatype Provider = Provider(workspaceRoot: string, treeData: seq<SiteItem>, changeEvents: nat)

  /** `refresh`: rebuild the whole tree from the root and notify once; nothing else changes. */
  function Refresh(p: Provider, root: Option<seq<Entry>>): (q: Provider)
    ensures q.treeData == Build(p.workspaceRoot, root)
    ensures q.workspaceRoot == p.workspaceRoot
    ensures q.changeEvents == p.changeEvents + 1
  {
    p.(treeData := Build(p.workspaceRoot, root), changeEvents := p.changeEvents + 1)
  }

  /** The constructor: an empty tree, then one refresh. */
  function NewProvider(workspaceRoot: string, root: Option<seq<Entry>>): (p: Provider)
    ensures p.workspaceRoot == workspaceRoot
    ensures p.treeData == Build(workspaceRoot, root)
    ensures p.changeEvents == 1
  {
    Refresh(Provider(workspaceRoot, [], 0), root)
  }

  /** A watched file was created, changed or deleted: the provider refreshes. */
  function OnFileChange(p: Provider, root: Option<seq<Entry>>): (q: Provider)
    ensures q.treeData == Build(p.workspaceRoot, root)
    ensures q.workspaceRoot == p.workspaceRoot
    ensures q.changeEvents == p.changeEvents + 1
  {
    Refresh(p, root)
  }

  /** `getTreeData`: one plain object per top-level item, deep-copied. */
  function GetTreeData(p: Provider): (objs: seq<PlainNode>)
    ensures |objs| == |p.treeData|
    ensures forall i :: 0 <= i < |objs| ==> objs[i] == ToObject(p.treeData[i])
    ensures NodeCount(objs) == ItemCount(p.treeData)
    ensures Labels(objs) == ItemLabels(p.treeData)
  {
    var objs := ToObjects(p.treeData);
    forall i | 0 <= i < |objs|
      ensures objs[i] == ToObject(p.treeData[i])
    {
      ToObjectsPointwise(p.treeData, i);
    }
    ToObjectsKeepsCount(p.treeData);
    ToObjectsKeepsLabels(p.treeData);
    objs
  }

  /**
   * `getChildren`: nothing without a workspace root; an element's own
   * children when one is given; the stored top-level list otherwise.
   */
  function GetChildren(p: Provider, element: Option<SiteItem>): (children: seq<SiteItem>)
    ensures p.workspaceRoot == "" ==> children == []
    ensures p.workspaceRoot != "" && element.Some? ==> children == element.value.children
    ensures p.workspaceRoot != "" && element.None? ==> children == p.treeData
  {
    if p.workspaceRoot == "" then []
    else match element
      case Some(item) => item.children
      case None => p.treeData
  }

  /**
   * After a refresh, expanding the view walks the file system: the top
   * level is the walk of the root, and expanding a folder gives the walk of
   * the directory it stands for.
   */
  lemma ChildrenAfterRefresh(p: Provider, es: seq<Entry>, i: nat)
    requires p.workspaceRoot != ""
    requires i < |Kept(es)| && Kept(es)[i].Dir?
    ensures GetChildren(Refresh(p, Some(es)), None) == BuildEntries(p.workspaceRoot, es)
    ensures GetChildren(Refresh(p, Some(es)), Some(GetChildren(Refresh(p, Some(es)), None)[i]))
         == BuildEntries(Paths.Join(p.workspaceRoot, Kept(es)[i].name), Kept(es)[i].entries)
  {
    FolderChildren(p.workspaceRoot, es, i);
  }
}
