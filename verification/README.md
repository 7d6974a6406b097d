# Site Structure Mapper — a Dafny model of its tree core

Site Structure Mapper is an editor extension that scans a workspace for web
files (HTML, CSS, JavaScript), shows them as a tree in a side bar, and exports
that tree as a PDF listing, an XML document or an Excel sheet. This project
models the two parts of it that carry logic, and proves properties of them:

1. **Tree construction and projection** (`src/treeDataProvider.ts`). The
   recursive directory walk `buildTree`, its entry-name test, the `SiteItem`
   constructor (default children, tooltip, icon choice), the deep copy
   `toObject` / `getTreeData`, and the provider operations `getChildren` and
   `refresh`.
2. **Export flatteners** (`src/extension.ts`). The format dispatch and file
   names of `exportTree`, and the exact sequences handed to the writer
   libraries: the PDF lines of `printNode`, the Excel rows of `addRows`, and
   the nested objects of `buildXML`.

The file system is an immutable value: a directory listing is a sequence of
`Entry = Dir(name, entries) | Reg(name) | Link(name)` in listing order, each
classified the way `lstat` classifies it. `Reg` is any entry that is neither a
directory nor a link. What exists at the workspace root is an
`Option<seq<Entry>>` passed to each operation that reads the disk. The walk is
then a total pure function. Provider state is an immutable `Provider` value.
The change notification is a counter of events fired.

The source's `label` field is called `caption` here, because `label` is a
reserved word in Dafny.

Modules, one per concept, in the order they build on each other:

| file | module | contents |
|---|---|---|
| wrappers.dfy | `Wrappers` | `Option` |
| paths.dfy | `Paths` | `Join` (the model of `path.join`), `EndsWith` |
| name_filter.dfy | `NameFilter` | the entry-name regular expression and its characterisation |
| filesystem.dfy | `FileSystem` | `Entry` |
| plain_tree.dfy | `PlainTree` | the `{label, fullPath, children}` objects, label-only trees, node counts |
| site_items.dfy | `SiteItems` | `SiteItem`, its constructor and icon choice, `toObject` |
| tree_builder.dfy | `TreeBuilder` | `buildTree` and its lemmas |
| provider.dfy | `TreeProvider` | `refresh`, `getTreeData`, `getChildren`, the file-change handler |
| flatteners.dfy | `Flatteners` | PDF lines, Excel rows, XML objects, the parsers that read them back, and a work-list version of `addRows` |
| exporter.dfy | `Exporter` | `exportTree` |

### Behaviour easy to misread

- The name test (src/treeDataProvider.ts:60) is the regular expression
  `/(.html|.css|.js)$/`. Its dot is unescaped and it is anchored only at
  the end. So it admits `xhtml`, `foo.mjs` and `style_css`. It rejects a
  name that is only `js` or `html`, and one with a line terminator before
  the extension (`NameFilter.LooseMatches`, `NameFilter.StrictRejects`).
- Entries are classified with `lstatSync` (src/treeDataProvider.ts:54),
  which does not follow symbolic links. A link is therefore never a
  folder, and it is kept as a file when its name passes the test
  (`TreeBuilder.LinkClassifiedByName`).
- `lstatSync` (src/treeDataProvider.ts:54) throws for an entry that
  vanished after the listing was read. The model's listing is a fixed
  value, so that case does not arise in it.
- The export directory is created by `mkdirSync` before the `switch` on the
  format (src/extension.ts:70-74). So an unknown format still leaves the
  directory behind.
- An unknown format only shows the error message `Неверный формат экспорта`
  and writes no file (src/extension.ts:84-85). The model returns `Rejected`
  carrying that message.
- Icons are chosen from the full path with proper dotted suffixes
  (src/treeDataProvider.ts:83-93). So a file admitted only through the loose
  test, such as `a.mjs`, gets no icon (`TreeBuilder.ModuleScriptHasNoIcon`).

## Model

| member | source | states |
|---|---|---|
| Paths.Join | src/treeDataProvider.ts:53 | the joined path ends with the entry name; with a non-empty directory it is the directory, one `/`, then the name |
| Paths.JoinKeepsSuffix | src/treeDataProvider.ts:53 | a suffix with no `/` in it ends the joined path exactly when it ends the entry name |
| NameFilter.IsWebFileNameMatchesRegex | src/treeDataProvider.ts:60 | the three-way suffix check accepts a name exactly when the source's regular expression finds a match in it (any character, then `html`, `css` or `js`), starting anywhere and ending at the end, with `.` matching any character but a line terminator |
| NameFilter.DottedExtensionIsAdmitted | src/treeDataProvider.ts:60 | every name ending in `.html`, `.css` or `.js` passes the test |
| NameFilter.LooseMatches | src/treeDataProvider.ts:60 | the test is looser than an extension check: `xhtml`, `foo.mjs` and `style_css` pass |
| NameFilter.StrictRejects | src/treeDataProvider.ts:60 | `js`, `html`, a name with a newline before `js`, `readme.md`, `logo.png` and `index.HTML` do not pass |
| SiteItems.IconFor | src/treeDataProvider.ts:83-93 | collapsible items get `folder`; a leaf whose path ends in `.html`, `.css` or `.js` gets `file-code`, `symbol-color` or `symbol-event`; a leaf has no icon exactly when its path has none of those suffixes |
| SiteItems.NewSiteItem | src/treeDataProvider.ts:72-94 | the item keeps label, path, state and children; its tooltip is the full path, its description empty, its icon the one `IconFor` picks |
| SiteItems.ToObjects | src/treeDataProvider.ts:96-102 | the copy has one object per item, each with the item's label, path and number of children |
| SiteItems.ToObject | src/treeDataProvider.ts:96-102 | the object carries the item's label and path and as many children as the item |
| SiteItems.ToObjectsPointwise | src/treeDataProvider.ts:100 | element i of a copied list is the copy of item i, so the copy is deep and keeps child order |
| SiteItems.ToObjectsKeepsCount | src/treeDataProvider.ts:96-102 | the copy has exactly as many nodes as the item tree |
| SiteItems.ToObjectsKeepsLabels | src/treeDataProvider.ts:96-102 | the copy has the same labels, shape and order as the item tree |
| TreeBuilder.BuildEntry | src/treeDataProvider.ts:53-63 | an entry yields one item if it is a directory or its name passes the test, none otherwise; the item is labelled with the entry name and has path `join(dir, name)`; it is collapsed exactly for a directory; a leaf has no children; its presentation fields follow from its data |
| TreeBuilder.BuildEntries | src/treeDataProvider.ts:50-65 | the walk of a listing has exactly as many items as the listing has admitted entries |
| TreeBuilder.KeptIsAdmitted | src/treeDataProvider.ts:54-60 | an entry of the listing is among the admitted entries exactly when it is a directory or its name passes the test |
| TreeBuilder.BuildEntriesPointwise | src/treeDataProvider.ts:52-64 | item i of the walk is the item that admitted entry i yields, so the walk keeps listing order and drops only rejected files |
| TreeBuilder.Build | src/treeDataProvider.ts:45-48 | a root that does not exist, or an empty root path, yields the empty list; otherwise one item per admitted entry of the root |
| TreeBuilder.BuildEntriesAppend | src/treeDataProvider.ts:52-64 | walking two listings one after the other concatenates their walks, so output order is listing order |
| TreeBuilder.EntryIncludedIff | src/treeDataProvider.ts:54-63 | a single entry yields an item if and only if it is admitted; a directory's item holds the walk of that directory, even when the walk is empty |
| TreeBuilder.FolderChildren | src/treeDataProvider.ts:56-59 | the folder item at any position is collapsed and holds the walk of the directory it stands for, under its joined path |
| TreeBuilder.LinkClassifiedByName | src/treeDataProvider.ts:54-60 | a symbolic link is treated exactly as a regular file with the same name: kept if and only if its name passes the test |
| TreeBuilder.BuildMatchesPruned | src/treeDataProvider.ts:52-64 | the label tree of the walk equals the listing pruned to directories and admitted files, at every depth, keeping order |
| TreeBuilder.BuildCountsAdmitted | src/treeDataProvider.ts:45-66 | the walk has exactly one node per directory and per admitted file at any depth |
| TreeBuilder.BuildIsWellFormed | src/treeDataProvider.ts:56-94 | at every depth, leaves have no children and each item's tooltip, description and icon follow from its path and state |
| TreeBuilder.LeafIconByName | src/treeDataProvider.ts:83-90 | a kept file gets `file-code`, `symbol-color` or `symbol-event` according to its name's dotted suffix, and no icon exactly when its name has none of them |
| TreeBuilder.LeafIconOfJoin | src/treeDataProvider.ts:83-90 | a leaf's icon depends only on its base name, not on the directory it is joined to |
| TreeBuilder.FolderGetsFolderIcon | src/treeDataProvider.ts:91-92 | a directory's item has the `folder` icon |
| TreeBuilder.ModuleScriptHasNoIcon | src/treeDataProvider.ts:60-90 | `a.mjs` is kept as a file but gets no icon |
| TreeBuilder.SampleSite | src/treeDataProvider.ts:45-66 | for any names, a root holding a page and a stylesheet that pass the test, a file that does not, and a folder holding only a rejected file yields the two files and the empty folder, in listing order |
| TreeBuilder.IndexSite | src/treeDataProvider.ts:45-66 | the root `index.html`, `style.css`, `readme.md`, `assets/logo.png` yields `index.html`, `style.css` and an empty `assets` folder, in that order |
| TreeProvider.Refresh | src/treeDataProvider.ts:17-20 | after a refresh the stored tree is the walk of the workspace root, the root is unchanged, and one change event has been fired |
| TreeProvider.NewProvider | src/treeDataProvider.ts:12-15 | a new provider stores its root and the walk of it, after exactly one change event |
| TreeProvider.OnFileChange | src/extension.ts:59-63 | a file change rebuilds the stored tree from the root and fires one change event |
| TreeProvider.GetTreeData | src/treeDataProvider.ts:22-25 | one plain object per top-level item, each the deep copy of that item; same node count and label tree as the stored tree |
| TreeProvider.GetChildren | src/treeDataProvider.ts:31-42 | an empty workspace root gives no children; given an element, its own children; otherwise the stored top-level list |
| TreeProvider.ChildrenAfterRefresh | src/treeDataProvider.ts:37-41 | after a refresh, the top level is the walk of the root, and expanding a folder gives the walk of the directory it stands for |
| Flatteners.PdfLines | src/extension.ts:96-104 | `printNode` over a list of siblings writes one line per node, children included |
| Flatteners.PdfText | src/extension.ts:93-104 | the PDF text is the title line, then one line per node; line i+1 is the label of the i-th node in pre-order, indented by four spaces per level of depth |
| Flatteners.ExcelRows | src/extension.ts:135-144 | no rows exactly for no nodes; the first row is the first node's label at the starting level |
| Flatteners.ExcelSheet | src/extension.ts:130-144 | the sheet has the two column headers and no rows exactly when the tree is empty |
| Flatteners.BuildXml | src/extension.ts:111-118 | one object per node, object i labelled as node i, with a nested `node` list present if and only if node i has children, and then of the same length |
| Flatteners.XmlDocument | src/extension.ts:120 | the root object holds one element per top-level node |
| Flatteners.PdfLinesAreIndentedRows | src/extension.ts:96-104 | the PDF listing is the Excel rows in the same order, each written as `4 * level` spaces followed by the label |
| Flatteners.RowCountIsNodeCount | src/extension.ts:135-144 | one row per node |
| Flatteners.XmlCountIsNodeCount | src/extension.ts:111-118 | one XML object per node, nested objects included |
| Flatteners.ExportsAgree | src/extension.ts:96-144 | PDF lines after the title, Excel rows, XML objects and tree nodes are equally many, and each PDF line with its row's indentation removed is that row's label |
| Flatteners.ParseRowsInvertsExcelRows | src/extension.ts:135-144 | the rows of a forest, followed by shallower rows, parse back to the forest's labels and leave the following rows untouched |
| Flatteners.SheetRoundTrip | src/extension.ts:135-144 | the Excel rows alone determine the label tree: levels are pre-order depths from 0 |
| Flatteners.XmlRoundTrip | src/extension.ts:111-120 | reading labels and nested lists back from the XML objects reconstructs the label tree |
| Flatteners.ExcelRowsIterative | src/extension.ts:135-144 | an explicit-stack traversal produces exactly the rows of `addRows(treeData, 0)` |
| Exporter.ExportDir | src/extension.ts:67-68 | the export directory is `site-structure-export` directly inside the workspace root, after one `/`; with no workspace root it is that relative name alone |
| Exporter.ExportTree | src/extension.ts:65-87 | the export directory is created when it did not exist, whatever the format; only `PDF`, `XML` and `Excel` export, to `site_structure.pdf`, `.xml` and `.xlsx` under `<root>/site-structure-export`, with the tree data the provider returns; any other string gives the invalid-format message and no file |
| Exporter.ExportPathsDistinct | src/extension.ts:74-83 | the three formats write three different files |
| Exporter.ExportSizeIsTreeSize | src/extension.ts:65-87 | for every accepted format the export has one line, row or element per node of the stored tree, plus the PDF title line |
| Exporter.SheetRecoversWorkspace | src/extension.ts:126-144 | after a refresh, the exported rows parse back to exactly the directories and admitted files of the workspace, in listing order |
| Exporter.XmlRecoversWorkspace | src/extension.ts:109-124 | after a refresh, reading the exported XML objects back gives exactly the directories and admitted files of the workspace |

## Left out

- Editor integration is not modelled: activation, command registration, the tree view, the quick pick, the information and error pop-ups, and `getTreeItem` (it returns its argument). It is user-interface plumbing.
- The simulated remote connection is not modelled. It only prompts for values and shows a message.
- The file-system watcher is not modelled. Its glob `**/*.{html,css,js}` decides which changes reach `onFileChange`. That handler is modelled only as "refresh", by `TreeProvider.OnFileChange`, and its message is dropped.
- The rendering by pdfkit, xmlbuilder2 and exceljs is not modelled. This covers font size, underline, `moveDown`, pagination, the XML declaration and pretty-printing, and column widths. Only the lines, rows and objects handed to these libraries are modelled.
- File writes and their failures are not modelled: `createWriteStream`, `writeFileSync`, `mkdirSync` and the asynchronous `writeFile` promise. The model records which directory is created and which file is produced with what content.
- The file system calls `existsSync`, `readdirSync` and `lstatSync` are replaced by the `Entry` value. Exceptions they can throw are not modelled. This covers an entry that vanishes before `lstat`, an unreadable directory, and a root that exists but is not a directory.
- `path.join` normalisation is not modelled. This covers `..`, repeated separators and trailing separators. `Join` concatenates with `/`.
- JavaScript strings are UTF-16. Dafny characters are Unicode scalar values. The name test gives the same answer under both, because `.` matches a lone surrogate just as it matches a whole character.
- Event listeners are not modelled. The change event is a counter.
- Concurrency is not modelled. The source has none: refresh runs synchronously.
- Exporter.ExportTree: the export reads the workspace root from the editor again. The model uses the provider's stored root, which comes from the same setting at activation.
