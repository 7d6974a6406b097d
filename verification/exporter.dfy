/**
 * `exportTree`: makes sure the export directory exists under the workspace
 * root, then dispatches on the chosen format name. The three writers
 * receive the provider's deep-copied tree data and a fixed file name.
 */
module Exporter {

  import opened Wrappers
  import opened Paths
  import opened PlainTree
  import opened SiteItems
  import opened FileSystem
  import opened TreeBuilder
  import opened TreeProvider
  import opened Flatteners

  const ExportDirName: string := "site-structure-export"
  const PdfFileName: string := "site_structure.pdf"
  const XmlFileName: string := "site_structure.xml"
  const ExcelFileName: string := "site_structure.xlsx"
  const InvalidFormatMessage: string := "Неверный формат экспорта"

  /** The formats offered to the user. */
  predicate IsKnownFormat(format: string) {
    format == "PDF" || format == "XML" || format == "Excel"
  }

  /** A file handed to a writer library: where it goes and what it holds. */
  datatype Artifact =
    | PdfFile(path: string, text: seq<string>)
    | XmlFile(path: string, document: XmlRoot)
    | ExcelFile(path: string, sheet: Sheet)

  datatype Outcome = Exported(artifact: Artifact) | Rejected(message: string)

  /** One export: the directory it had to create, if any, and what it produced. */
  datatype ExportRun = ExportRun(createdDir: Option<string>, outcome: Outcome)

  /**
   * `path.join(workspaceFolder, 'site-structure-export')`: a directory named
   * `site-structure-export` directly inside the workspace root, or that name
   * alone, relative, when there is no workspace root.
   */
  function ExportDir(workspaceRoot: string): (d: string)
    ensures EndsWith(d, ExportDirName)
    ensures workspaceRoot == "" ==> d == ExportDirName
    ensures workspaceRoot != "" ==>
      && |d| == |workspaceRoot| + 1 + |ExportDirName|
      && d[..|workspaceRoot|] == workspaceRoot
      && d[|workspaceRoot|] == Separator
      && d[|workspaceRoot| + 1..] == ExportDirName
  {
    Join(workspaceRoot, ExportDirName)
  }

  /**
   * `exportTree(format)`. `exportDirExists` is what the file system answers
   * for the export directory. The directory is created before the format is
   * looked at, so an unknown format still leaves it behind, but writes no
   * file and reports the invalid-format message.
   */
  function ExportTree(p: Provider, format: string, exportDirExists: bool): (run: ExportRun)
    ensures run.createdDir == if exportDirExists then None else Some(ExportDir(p.workspaceRoot))
    ensures run.outcome.Exported? <==> IsKnownFormat(format)
    ensures run.outcome.Rejected? ==> run.outcome.message == InvalidFormatMessage
    ensures format == "PDF" ==> run.outcome == Exported(PdfFile(Join(ExportDir(p.workspaceRoot), PdfFileName), PdfText(GetTreeData(p))))
    ensures format == "XML" ==> run.outcome == Exported(XmlFile(Join(ExportDir(p.workspaceRoot), XmlFileName), XmlDocument(GetTreeData(p))))
    ensures format == "Excel" ==> run.outcome == Exported(ExcelFile(Join(ExportDir(p.workspaceRoot), ExcelFileName), ExcelSheet(GetTreeData(p))))
  {
    var treeData := GetTreeData(p);
    var dir := ExportDir(p.workspaceRoot);
    var created := if exportDirExists then None else Some(dir);
    var outcome :=
      match format
      case "PDF" => Exported(PdfFile(Join(dir, PdfFileName), PdfText(treeData)))
      case "XML" => Exported(XmlFile(Join(dir, XmlFileName), XmlDocument(treeData)))
      case "Excel" => Exported(ExcelFile(Join(dir, ExcelFileName), ExcelSheet(treeData)))
      case _ => Rejected(InvalidFormatMessage);
    ExportRun(created, outcome)
  }

  /** Each format writes its own file, directly inside the export directory. */
  lemma ExportPathsDistinct(p: Provider, dirExists: bool)
    ensures ExportTree(p, "PDF", dirExists).outcome.artifact.path != ExportTree(p, "XML", dirExists).outcome.artifact.path
    ensures ExportTree(p, "PDF", dirExists).outcome.artifact.path != ExportTree(p, "Excel", dirExists).outcome.artifact.path
    ensures ExportTree(p, "XML", dirExists).outcome.artifact.path != ExportTree(p, "Excel", dirExists).outcome.artifact.path
  {
    var dir := ExportDir(p.workspaceRoot);
    var pdf := Join(dir, PdfFileName);
    var xml := Join(dir, XmlFileName);
    var xlsx := Join(dir, ExcelFileName);
    assert pdf[|pdf| - 1] == 'f' && xml[|xml| - 1] == 'l' && xlsx[|xlsx| - 1] == 'x';
  }

  /** Whatever the format, the size of the export is the number of nodes in the stored tree. */
  lemma ExportSizeIsTreeSize(p: Provider, format: string, dirExists: bool)
    requires IsKnownFormat(format)
    ensures var a := ExportTree(p, format, dirExists).outcome.artifact;
      && (a.PdfFile? ==> |a.text| == ItemCount(p.treeData) + 1)
      && (a.ExcelFile? ==> |a.sheet.rows| == ItemCount(p.treeData))
      && (a.XmlFile? ==> XmlCount(a.document.node) == ItemCount(p.treeData))
  {
    ExportsAgree(GetTreeData(p));
  }

  /**
   * From the file system to the spreadsheet and back: after a refresh, the
   * exported rows parse back to exactly the directories and admitted files
   * of the workspace, in listing order.
   */
  lemma SheetRecoversWorkspace(p: Provider, es: seq<Entry>, dirExists: bool)
    requires p.workspaceRoot != ""
    ensures var q := Refresh(p, Some(es));
      ParseRows(ExportTree(q, "Excel", dirExists).outcome.artifact.sheet.rows, 0) == (Pruned(es), [])
  {
    var q := Refresh(p, Some(es));
    SheetRoundTrip(GetTreeData(q));
    BuildMatchesPruned(p.workspaceRoot, es);
  }

  /** Likewise, reading the XML export of a refreshed provider back gives the workspace's pruned tree. */
  lemma XmlRecoversWorkspace(p: Provider, es: seq<Entry>, dirExists: bool)
    requires p.workspaceRoot != ""
    ensures var q := Refresh(p, Some(es));
      ReadXml(ExportTree(q, "XML", dirExists).outcome.artifact.document.node) == Pruned(es)
  {
    var q := Refresh(p, Some(es));
    XmlRoundTrip(GetTreeData(q));
    BuildMatchesPruned(p.workspaceRoot, es);
  }
}
