/**
 * `buildTree`: the recursive walk that turns a directory into tree items.
 * Every directory becomes a collapsed folder item holding the walk of its
 * own entries; any other entry becomes a leaf item when its name passes the
 * name test, and is dropped otherwise.
 */
module TreeBuilder {

  import opened Wrappers
  import opened Paths
  import opened NameFilter
  import opened FileSystem
  import opened PlainTree
  import opened SiteItems

  /** Whether an entry yields an item: directories always, anything else by its name. */
  predicate Admitted(e: Entry) {
    e.Dir? || IsWebFileName(e.name)
  }

  /** The admitted entries of a listing, in listing order. */
  function Kept(es: seq<Entry>): (r: seq<Entry>)
    ensures |r| <= |es|
  {
    if es == [] then [] else (if Admitted(es[0]) then [es[0]] else []) + Kept(es[1..])
  }

  /** The kept entries are exactly the admitted entries of the listing. */
  lemma {:induction false} KeptIsAdmitted(es: seq<Entry>)
    ensures forall e :: e in Kept(es) <==> e in es && Admitted(e)
    decreases es
  {
    if es != [] {
      KeptIsAdmitted(es[1..]);
      assert es == [es[0]] + es[1..];
    }
  }

  /** The item one entry of `dir` contributes: none, or exactly one. */
  function BuildEntry(dir: string, e: Entry): (items: seq<SiteItem>)
    ensures |items| == if Admitted(e) then 1 else 0
    ensures |items| == 1 ==>
      && items[0].caption == e.name
      && items[0].fullPath == Join(dir, e.name)
      && Presented(items[0])
      && (e.Dir? <==> items[0].collapsibleState == Collapsed)
      && (!e.Dir? ==> items[0].collapsibleState == NotCollapsible && items[0].children == [])
    decreases e
  {
    var fullPath := Join(dir, e.name);
    if e.Dir? then [NewSiteItem(e.name, fullPath, Collapsed, BuildEntries(fullPath, e.entries))]
    else if IsWebFileName(e.name) then [NewSiteItem(e.name, fullPath, NotCollapsible, [])]
    else []
  }

  /** The walk of one directory listing, entry by entry in listing order. */
  function BuildEntries(dir: string, es: seq<Entry>): (items: seq<SiteItem>)
    ensures |items| == |Kept(es)|
    decreases es
  {
    if es == [] then [] else BuildEntry(dir, es[0]) + BuildEntries(dir, es[1..])
  }

  /**
   * `buildTree(root)`: nothing when no directory exists at the root path
   * (`existsSync("")` is false, so an empty root path is such a path),
   * otherwise the walk of the root's listing.
   */
  function Build(dir: string, root: Option<seq<Entry>>): (items: seq<SiteItem>)
    ensures dir == "" || root.None? ==> items == []
    ensures dir != "" && root.Some? ==> |items| == |Kept(root.value)|
  {
    if dir == "" || root.None? then [] else BuildEntries(dir, root.value)
  }

  /** Listing order is output order: the walk of two listings is the concatenation of their walks. */
  lemma {:induction false} BuildEntriesAppend(dir: string, a: seq<Entry>, b: seq<Entry>)
    ensures BuildEntries(dir, a + b) == BuildEntries(dir, a) + BuildEntries(dir, b)
    decreases a
  {
    if a == [] {
      assert a + b == b;
    } else {
      assert (a + b)[0] == a[0];
      assert (a + b)[1..] == a[1..] + b;
      BuildEntriesAppend(dir, a[1..], b);
    }
  }

  /**
   * One entry yields an item exactly when it is admitted; a directory yields
   * a folder item holding the walk of its own entries, even when that walk
   * is empty.
   */
  lemma EntryIncludedIff(dir: string, e: Entry)
    ensures BuildEntries(dir, [e]) != [] <==> Admitted(e)
    ensures e.Dir? ==> BuildEntries(dir, [e])[0].children == BuildEntries(Join(dir, e.name), e.entries)
  {
    assert [e][1..] == [];
    assert BuildEntries(dir, [e]) == BuildEntry(dir, e) + [];
  }

  /**
   * Item i of the walk is the item that admitted entry i yields: its label
   * and joined path, a collapsed folder holding the walk of that directory,
   * or a leaf without children.
   */
  lemma {:induction false} BuildEntriesPointwise(dir: string, es: seq<Entry>, i: nat)
    requires i < |Kept(es)|
    ensures Admitted(Kept(es)[i])
    ensures BuildEntries(dir, es)[i] == BuildEntry(dir, Kept(es)[i])[0]
    decreases es
  {
    var rest := BuildEntries(dir, es[1..]);
    if Admitted(es[0]) {
      var first := BuildEntry(dir, es[0]);
      assert Kept(es) == [es[0]] + Kept(es[1..]);
      assert BuildEntries(dir, es) == [first[0]] + rest;
      if i > 0 {
        assert Kept(es)[i] == Kept(es[1..])[i - 1];
        BuildEntriesPointwise(dir, es[1..], i - 1);
      }
    } else {
      assert Kept(es) == Kept(es[1..]);
      assert BuildEntries(dir, es) == rest;
      BuildEntriesPointwise(dir, es[1..], i);
    }
  }

  /** A folder item at any position holds the walk of the directory it stands for. */
  lemma FolderChildren(dir: string, es: seq<Entry>, i: nat)
    requires i < |Kept(es)| && Kept(es)[i].Dir?
    ensures BuildEntries(dir, es)[i].collapsibleState == Collapsed
    ensures BuildEntries(dir, es)[i].children == BuildEntries(Join(dir, Kept(es)[i].name), Kept(es)[i].entries)
  {
    BuildEntriesPointwise(dir, es, i);
  }

  /** A symbolic link is kept or dropped by its name alone, like a regular file. */
  lemma LinkClassifiedByName(dir: string, name: string)
    ensures BuildEntry(dir, Link(name)) == BuildEntry(dir, Reg(name))
    ensures BuildEntry(dir, Link(name)) != [] <==> IsWebFileName(name)
  {
  }

  /** The reference tree: admitted entries only, folders keep their own pruned entries. */
  function Pruned(es: seq<Entry>): (trees: seq<LabelTree>)
    decreases es
  {
    if es == [] then []
    else
      var e := es[0];
      var head := if e.Dir? then [LabelTree(e.name, Pruned(e.entries))]
                  else if IsWebFileName(e.name) then [LabelTree(e.name, [])]
                  else [];
      head + Pruned(es[1..])
  }

  lemma {:induction false} ItemLabelsAppend(a: seq<SiteItem>, b: seq<SiteItem>)
    ensures ItemLabels(a + b) == ItemLabels(a) + ItemLabels(b)
    decreases a
  {
    if a == [] {
      assert a + b == b;
    } else {
      assert (a + b)[0] == a[0];
      assert (a + b)[1..] == a[1..] + b;
      ItemLabelsAppend(a[1..], b);
    }
  }

  /**
   * The walk contains exactly the directories and the admitted files of the
   * listing, with the listing's shape and order.
   */
  lemma {:induction false} BuildMatchesPruned(dir: string, es: seq<Entry>)
    ensures ItemLabels(BuildEntries(dir, es)) == Pruned(es)
    decreases es
  {
    if es != [] {
      var e := es[0];
      ItemLabelsAppend(BuildEntry(dir, e), BuildEntries(dir, es[1..]));
      BuildMatchesPruned(dir, es[1..]);
      if e.Dir? {
        BuildMatchesPruned(Join(dir, e.name), e.entries);
      }
    }
  }

  /** Number of entries, at any depth, that the walk keeps. */
  function AdmittedCount(es: seq<Entry>): (n: nat)
    decreases es
  {
    if es == [] then 0
    else
      var e := es[0];
      (if e.Dir? then 1 + AdmittedCount(e.entries) else if IsWebFileName(e.name) then 1 else 0)
      + AdmittedCount(es[1..])
  }

  lemma {:induction false} ItemCountAppend(a: seq<SiteItem>, b: seq<SiteItem>)
    ensures ItemCount(a + b) == ItemCount(a) + ItemCount(b)
    decreases a
  {
    if a == [] {
      assert a + b == b;
    } else {
      assert (a + b)[0] == a[0];
      assert (a + b)[1..] == a[1..] + b;
      ItemCountAppend(a[1..], b);
    }
  }

  /** The tree has one node per directory and per admitted file, at every depth. */
  lemma {:induction false} BuildCountsAdmitted(dir: string, es: seq<Entry>)
    ensures ItemCount(BuildEntries(dir, es)) == AdmittedCount(es)
    decreases es
  {
    if es != [] {
      var e := es[0];
      ItemCountAppend(BuildEntry(dir, e), BuildEntries(dir, es[1..]));
      BuildCountsAdmitted(dir, es[1..]);
      if e.Dir? {
        BuildCountsAdmitted(Join(dir, e.name), e.entries);
        assert BuildEntry(dir, e)[1..] == [];
      } else if IsWebFileName(e.name) {
        assert BuildEntry(dir, e)[1..] == [];
      }
    }
  }

  /** Every item, at every depth, has its presentation fields set from its data, and leaves have no children. */
  ghost predicate WellFormed(items: seq<SiteItem>)
    decreases items
  {
    forall i :: 0 <= i < |items| ==>
      && Presented(items[i])
      && (items[i].collapsibleState == NotCollapsible ==> items[i].children == [])
      && WellFormed(items[i].children)
  }

  lemma {:induction false} WellFormedAppend(a: seq<SiteItem>, b: seq<SiteItem>)
    requires WellFormed(a) && WellFormed(b)
    ensures WellFormed(a + b)
  {
    forall i | 0 <= i < |a + b|
      ensures Presented((a + b)[i])
      ensures (a + b)[i].collapsibleState == NotCollapsible ==> (a + b)[i].children == []
      ensures WellFormed((a + b)[i].children)
    {
      if i < |a| {
        assert (a + b)[i] == a[i];
      } else {
        assert (a + b)[i] == b[i - |a|];
      }
    }
  }

  lemma {:induction false} BuildIsWellFormed(dir: string, es: seq<Entry>)
    ensures WellFormed(BuildEntries(dir, es))
    decreases es
  {
    if es != [] {
      assert BuildEntries(dir, es) == BuildEntry(dir, es[0]) + BuildEntries(dir, es[1..]);
      EntryIsWellFormed(dir, es[0]);
      BuildIsWellFormed(dir, es[1..]);
      WellFormedAppend(BuildEntry(dir, es[0]), BuildEntries(dir, es[1..]));
    }
  }

  lemma {:induction false} EntryIsWellFormed(dir: string, e: Entry)
    ensures WellFormed(BuildEntry(dir, e))
    decreases e
  {
    if e.Dir? {
      var fullPath := Join(dir, e.name);
      BuildIsWellFormed(fullPath, e.entries);
      var item := BuildEntry(dir, e)[0];
      assert item.children == BuildEntries(fullPath, e.entries);
      assert BuildEntry(dir, e) == [item];
    }
  }

  /**
   * A leaf item's icon follows from the entry's own name: an admitted name
   * without one of the three dotted extensions, such as `a.mjs`, gets none.
   */
  lemma LeafIconByName(dir: string, e: Entry)
    requires !e.Dir? && IsWebFileName(e.name)
    ensures EndsWith(e.name, ".html") ==> BuildEntry(dir, e)[0].icon == HtmlIcon
    ensures EndsWith(e.name, ".css") ==> BuildEntry(dir, e)[0].icon == CssIcon
    ensures EndsWith(e.name, ".js") ==> BuildEntry(dir, e)[0].icon == JsIcon
    ensures BuildEntry(dir, e)[0].icon == NoIcon <==>
      !EndsWith(e.name, ".html") && !EndsWith(e.name, ".css") && !EndsWith(e.name, ".js")
  {
    var fullPath := Join(dir, e.name);
    assert BuildEntry(dir, e) == [NewSiteItem(e.name, fullPath, NotCollapsible, [])];
    LeafIconOfJoin(dir, e.name);
  }

  /** The icon of a leaf depends on its name only, not on the directory it was found in. */
  lemma LeafIconOfJoin(dir: string, name: string)
    ensures IconFor(Join(dir, name), NotCollapsible) == IconFor(name, NotCollapsible)
  {
    JoinKeepsSuffix(dir, name, ".html");
    JoinKeepsSuffix(dir, name, ".css");
    JoinKeepsSuffix(dir, name, ".js");
  }

  /** A directory always becomes a folder item with the folder icon. */
  lemma FolderGetsFolderIcon(dir: string, e: Entry)
    requires e.Dir?
    ensures BuildEntry(dir, e)[0].icon == FolderIcon
  {
  }

  /** The module-style script `a.mjs` passes the name test but gets no icon. */
  lemma ModuleScriptHasNoIcon(dir: string)
    ensures |BuildEntry(dir, Reg("a.mjs"))| == 1
    ensures BuildEntry(dir, Reg("a.mjs"))[0].icon == NoIcon
  {
    assert "a.mjs"[3..] == "js";
    assert "a.mjs"[1..] != ".html";
    assert "a.mjs"[1..] != ".css";
    assert "a.mjs"[2..] != ".js";
    LeafIconByName(dir, Reg("a.mjs"));
  }

  /**
   * A site root holding two web files, a file that fails the name test and
   * a folder holding only such a file gives the two files and the folder,
   * empty, in listing order.
   */
  lemma SampleSite(root: string, page: string, sheet: string, notes: string, folder: string, image: string)
    requires root != ""
    requires IsWebFileName(page) && IsWebFileName(sheet)
    requires !IsWebFileName(notes) && !IsWebFileName(image)
    ensures ItemLabels(Build(root, Some([Reg(page), Reg(sheet), Reg(notes), Dir(folder, [Reg(image)])])))
         == [LabelTree(page, []), LabelTree(sheet, []), LabelTree(folder, [])]
  {
    var es := [Reg(page), Reg(sheet), Reg(notes), Dir(folder, [Reg(image)])];
    SamplePruned(es, page, sheet, notes, folder, image);
    BuildMatchesPruned(root, es);
    assert Build(root, Some(es)) == BuildEntries(root, es);
  }

  lemma SamplePruned(es: seq<Entry>, page: string, sheet: string, notes: string, folder: string, image: string)
    requires es == [Reg(page), Reg(sheet), Reg(notes), Dir(folder, [Reg(image)])]
    requires IsWebFileName(page) && IsWebFileName(sheet)
    requires !IsWebFileName(notes) && !IsWebFileName(image)
    ensures Pruned(es) == [LabelTree(page, []), LabelTree(sheet, []), LabelTree(folder, [])]
  {
    var assets := Dir(folder, [Reg(image)]);
    assert Pruned([Reg(image)]) == [];
    assert Pruned([assets]) == [LabelTree(folder, [])];
    assert es[3..] == [assets];
    assert Pruned(es[2..]) == Pruned(es[3..]);
    assert Pruned(es[1..]) == [LabelTree(sheet, [])] + Pruned(es[2..]);
  }

  /** The sample site `index.html`, `style.css`, `readme.md` and `assets/logo.png`. */
  lemma IndexSite()
    ensures ItemLabels(Build("/w", Some([Reg("index.html"), Reg("style.css"), Reg("readme.md"), Dir("assets", [Reg("logo.png")])])))
         == [LabelTree("index.html", []), LabelTree("style.css", []), LabelTree("assets", [])]
  {
    DottedExtensionIsAdmitted("index.html");
    DottedExtensionIsAdmitted("style.css");
    StrictRejects();
    SampleSite("/w", "index.html", "style.css", "readme.md", "assets", "logo.png");
  }

}
