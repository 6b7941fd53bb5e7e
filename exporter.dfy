/**
 * The export of a repository subtree to the local filesystem: every folder
 * first becomes a directory, then every document becomes a content file (one
 * per path it is filed under) and, when it has properties, a metadata sidecar.
 *
 * The remote repository is given as a value: the folder a path resolves to
 * and the resolved objects each query text yields. The state the export
 * changes is a FileSystem object; each method is specified by a function on
 * filesystem snapshots, and the properties of those functions are proved in
 * module ExportProperties.
 */
module Exporter {

  import opened Optional
  import opened Paths
  import opened Metadata
  import opened FileSystems

  datatype Folder = Folder(name: string, path: string)

  /**
   * A resolved document: its name, every repository path it is filed under
   * (none for an unfiled document), its content stream's bytes when it has
   * one, and its property list (None when the list itself is null).
   */
  datatype Document = Document(
    name: string,
    paths: seq<string>,
    content: Option<seq<byte>>,
    properties: Option<seq<Property>>)

  /** Every path contains a '/', so cutting it back to its parent folder cannot fail. */
  predicate Fileable(doc: Document) {
    forall p :: p in doc.paths ==> RepoSep in p
  }

  /** A metadata file is written when the property list is neither null nor empty. */
  predicate WritesMetadata(doc: Document) {
    doc.properties.Some? && doc.properties.value != []
  }

  function PropertyList(doc: Document): seq<Property> {
    if doc.properties.Some? then doc.properties.value else []
  }

  /** The export and metadata paths, spelled as the exporter concatenates them. */
  lemma ExportPathSpelled(root: string, path: string, name: string)
    requires RepoSep in path
    ensures var initialSep := if EndsWith(root, Sep) then "" else [Sep];
            && ExportPath(root, path, name) == root + initialSep + ParentOf(path) + [Sep] + name
            && MetadataPath(root, path, name) == root + initialSep + ParentOf(path) + [Sep] + name + MetadataSuffix
  {
  }

  /** file.getParentFile() of the export file: the directory export makes sure of. */
  function ParentDirectory(root: string, path: string, name: string): string
    requires RepoSep in path
  {
    DirOf(ExportPath(root, path, name))
  }

  /**
   * One pass of the loop over a document's paths, given its targets: the
   * parent directory `dir` is made when missing, the export file `exportPath`
   * is created when missing and receives the content bytes when there are
   * any, and `meta`, when present, names the metadata file and its text.
   */
  function Pass(s: State, doc: Document, dir: string, exportPath: string, meta: Option<(string, Contents)>): State {
    var s1 := if dir in s.dirs then s else MkDirsState(s, dir);
    // The explicit exists() check before createNewFile(), kept as the exporter writes it.
    var s2 := if exportPath in s1.files then s1 else CreateNewFileState(s1, exportPath);
    var s3 := if doc.content.Some? then WriteState(s2, exportPath, Bytes(doc.content.value)) else s2;
    if meta.Some? then WriteState(CreateNewFileState(s3, meta.value.0), meta.value.0, meta.value.1) else s3
  }

  /** The metadata file a pass writes and its text, when the document has properties. */
  function MetadataWrite(root: string, doc: Document, path: string): Option<(string, Contents)>
    requires RepoSep in path
  {
    if WritesMetadata(doc)
    then Some((MetadataPath(root, path, doc.name), Text(MetadataXml(ParentOf(path), doc.properties.value))))
    else None
  }

  /** The snapshot after one pass of the loop over a document's paths. */
  function PathStep(s: State, root: string, doc: Document, path: string): State
    requires RepoSep in path
  {
    Pass(s, doc, ParentDirectory(root, path, doc.name), ExportPath(root, path, doc.name), MetadataWrite(root, doc, path))
  }

  /** The snapshot after the passes for `paths`, in order. */
  function PathSteps(s: State, root: string, doc: Document, paths: seq<string>): State
    requires forall p :: p in paths ==> RepoSep in p
  {
    if paths == [] then s
    else PathStep(PathSteps(s, root, doc, paths[..|paths| - 1]), root, doc, paths[|paths| - 1])
  }

  function AfterDocument(s: State, root: string, doc: Document): State
    requires Fileable(doc)
  {
    PathSteps(s, root, doc, doc.paths)
  }

  function AfterFolder(s: State, root: string, folder: Folder): State {
    MkDirsState(s, FolderPath(root, folder.path))
  }

  function AfterFolders(s: State, root: string, folders: seq<Folder>): State {
    if folders == [] then s
    else AfterFolder(AfterFolders(s, root, folders[..|folders| - 1]), root, folders[|folders| - 1])
  }

  /** One more folder on the prefix is one more folder pass. */
  lemma AfterFoldersStep(s: State, root: string, folders: seq<Folder>, i: nat)
    requires i < |folders|
    ensures AfterFolders(s, root, folders[..i + 1]) == AfterFolder(AfterFolders(s, root, folders[..i]), root, folders[i])
  {
    assert folders[..i + 1][..i] == folders[..i];
  }

  predicate AllFileable(docs: seq<Document>) {
    forall i :: 0 <= i < |docs| ==> Fileable(docs[i])
  }

  function AfterDocuments(s: State, root: string, docs: seq<Document>): State
    requires AllFileable(docs)
  {
    if docs == [] then s
    else AfterDocument(AfterDocuments(s, root, docs[..|docs| - 1]), root, docs[|docs| - 1])
  }

  /**
   * One pass of the loop over a document's paths: the document filed under
   * `repoPath` gets its parent directories, its file and its metadata file.
   */
  method ExportUnderPath(fs: FileSystem, doc: Document, root: string, repoPath: string)
    requires fs.Valid() && RepoSep in repoPath
    modifies fs
    ensures fs.Valid()
    ensures fs.Snapshot() == PathStep(old(fs.Snapshot()), root, doc, repoPath)
  {
    var initialSep := if EndsWith(root, Sep) then "" else [Sep];
    var sep := [Sep];
    var path := ParentOf(repoPath);
    var exportPath := root + initialSep + path + sep + doc.name;
    var exportMetadataPath := root + initialSep + path + sep + doc.name + MetadataSuffix;
    ExportPathSpelled(root, repoPath, doc.name);
    var parent := DirOf(exportPath);
    ghost var s0 := fs.Snapshot();
    ghost var meta := MetadataWrite(root, doc, repoPath);
    if !fs.DirExists(parent) {
      fs.MkDirs(parent);
    }
    if !fs.FileExists(exportPath) {
      fs.CreateNewFile(exportPath);
    }
    if doc.content.Some? {
      fs.Write(exportPath, Bytes(doc.content.value));
    }
    if doc.properties.Some? && doc.properties.value != [] {
      fs.CreateNewFile(exportMetadataPath);
      var text := BuildMetadata(path, doc.properties.value);
      fs.Write(exportMetadataPath, Text(text));
      assert meta == Some((exportMetadataPath, Text(text)));
    }
    assert fs.Snapshot() == Pass(s0, doc, parent, exportPath, meta);
  }

  /** Exports one document under every path it is filed under, in order. */
  method ExportSingleDocument(fs: FileSystem, doc: Document, root: string)
    requires fs.Valid() && Fileable(doc)
    modifies fs
    ensures fs.Valid()
    ensures fs.Snapshot() == AfterDocument(old(fs.Snapshot()), root, doc)
  {
    ghost var s0 := fs.Snapshot();
    for i := 0 to |doc.paths|
      invariant fs.Valid()
      invariant fs.Snapshot() == PathSteps(s0, root, doc, doc.paths[..i])
    {
      assert doc.paths[..i + 1][..i] == doc.paths[..i];
      ExportUnderPath(fs, doc, root, doc.paths[i]);
    }
    assert doc.paths[..|doc.paths|] == doc.paths;
  }

  /** Makes sure the directory of one folder exists. */
  method ExportSingleFolder(fs: FileSystem, folder: Folder, root: string)
    requires fs.Valid()
    modifies fs
    ensures fs.Valid()
    ensures fs.Snapshot() == AfterFolder(old(fs.Snapshot()), root, folder)
  {
    var sep := if EndsWith(root, Sep) then "" else [Sep];
    var exportPath := root + sep + folder.path;
    assert exportPath == FolderPath(root, folder.path);
    fs.MkDirs(exportPath);
  }

  /** The folder query: every folder in the tree under the starting folder. */
  function FolderQuery(idQueryName: string, startId: string): string {
    "SELECT " + idQueryName + " FROM cmis:folder F WHERE IN_TREE(F, '" + startId + "')"
  }

  /** The document query: every document in the tree under the starting folder. */
  function DocumentQuery(idQueryName: string, startId: string): string {
    "SELECT " + idQueryName + " FROM cmis:document F WHERE IN_TREE(F, '" + startId + "')"
  }

  /**
   * The remote repository, as far as the export sees it: the query name of the
   * object-id property, the id of the folder a path resolves to (None when the
   * path does not resolve to a folder), and the objects each query text yields,
   * already resolved by id, in result order.
   */
  datatype Repository = Repository(
    idQueryName: string,
    folderAt: string -> Option<string>,
    folders: string -> seq<Folder>,
    documents: string -> seq<Document>)

  /** Runs the folder query and exports every folder it yields. */
  method ExportFolders(fs: FileSystem, root: string, repo: Repository, startId: string)
    requires fs.Valid()
    modifies fs
    ensures fs.Valid()
    ensures fs.Snapshot()
         == AfterFolders(old(fs.Snapshot()), root, repo.folders(FolderQuery(repo.idQueryName, startId)))
  {
    var results := repo.folders(FolderQuery(repo.idQueryName, startId));
    ghost var s0 := fs.Snapshot();
    for i := 0 to |results|
      invariant fs.Valid()
      invariant fs.Snapshot() == AfterFolders(s0, root, results[..i])
    {
      AfterFoldersStep(s0, root, results, i);
      ExportSingleFolder(fs, results[i], root);
    }
    assert results[..|results|] == results;
  }

  /** Runs the document query and exports every document it yields. */
  method ExportDocuments(fs: FileSystem, root: string, repo: Repository, startId: string)
    requires fs.Valid()
    requires AllFileable(repo.documents(DocumentQuery(repo.idQueryName, startId)))
    modifies fs
    ensures fs.Valid()
    ensures fs.Snapshot()
         == AfterDocuments(old(fs.Snapshot()), root, repo.documents(DocumentQuery(repo.idQueryName, startId)))
  {
    var results := repo.documents(DocumentQuery(repo.idQueryName, startId));
    ghost var s0 := fs.Snapshot();
    for i := 0 to |results|
      invariant fs.Valid()
      invariant fs.Snapshot() == AfterDocuments(s0, root, results[..i])
    {
      assert results[..i + 1][..i] == results[..i];
      ExportSingleDocument(fs, results[i], root);
    }
    assert results[..|results|] == results;
  }

  datatype ExportOutcome = Exported | NotFound

  /** The documents the export would write, fileable whenever the start resolves. */
  predicate StartFileable(repo: Repository, startingPath: string) {
    repo.folderAt(startingPath).Some? ==>
      AllFileable(repo.documents(DocumentQuery(repo.idQueryName, repo.folderAt(startingPath).value)))
  }

  /** The snapshot after a whole export from a starting folder with id `startId`. */
  function AfterExport(s: State, root: string, repo: Repository, startId: string): State
    requires AllFileable(repo.documents(DocumentQuery(repo.idQueryName, startId)))
  {
    AfterDocuments(
      AfterFolders(s, root, repo.folders(FolderQuery(repo.idQueryName, startId))),
      root,
      repo.documents(DocumentQuery(repo.idQueryName, startId)))
  }

  /**
   * Resolves the starting folder, then exports all folders, then all documents.
   * `maxLevels` is accepted and ignored.
   */
  method Export(fs: FileSystem, repo: Repository, startingPath: string, root: string, maxLevels: int)
    returns (outcome: ExportOutcome)
    requires fs.Valid() && StartFileable(repo, startingPath)
    modifies fs
    ensures fs.Valid()
    ensures repo.folderAt(startingPath).None? ==>
              outcome == NotFound && fs.Snapshot() == old(fs.Snapshot())
    ensures repo.folderAt(startingPath).Some? ==>
              outcome == Exported &&
              fs.Snapshot() == AfterExport(old(fs.Snapshot()), root, repo, repo.folderAt(startingPath).value)
  {
    var startingFolder := repo.folderAt(startingPath);
    if startingFolder.None? {
      return NotFound;
    }
    ExportFolders(fs, root, repo, startingFolder.value);
    ExportDocuments(fs, root, repo, startingFolder.value);
    outcome := Exported;
  }
}
