# CMIS export: a verified model of the exporter

This project models the core of a tool that copies a subtree of a remote
CMIS content repository to a local directory. Every folder under the
starting folder becomes a directory. Every document becomes one content file
per repository path it is filed under. A document with properties also gets a
metadata sidecar, `<name>_metadata.xml`, next to each content file.

The model has six modules:

- `Optional` (optional.dfy): the `Option` datatype, for Java's nullable
  values.
- `Paths` (paths.dfy): the string arithmetic. It covers root normalisation,
  cutting a repository path back to its parent folder (`lastIndexOf('/')`),
  the export, metadata and folder target paths, `getParentFile()`, and the
  directories `mkdirs()` creates.
- `Metadata` (metadata.dfy): the metadata text, as a recursive function and as
  the `StringBuilder` loop `BuildMetadata`, proved equal.
- `FileSystems` (filesystem.dfy): the destination filesystem. It is a class
  holding a set of directory paths and a map from file paths to contents,
  with the `mkdirs`, `createNewFile` and write operations. Each operation's new
  state is given by a function on snapshots (`State`).
- `Exporter` (exporter.dfy): `exportSingleDocument`, `exportSingleFolder`,
  `exportFolders`, `exportDocuments` and `export`. These are imperative methods
  on a `FileSystem`, each specified by a snapshot function (`PathStep`,
  `AfterDocument`, `AfterFolder`, `AfterFolders`, `AfterDocuments`,
  `AfterExport`). The remote repository is a `Repository` value that gives the
  id of the folder a path resolves to and the resolved objects each query text
  yields.
- `ExportProperties` (exporter_props.dfy): what those snapshot functions
  guarantee. It covers which files and directories change, what each file
  holds, folder idempotence, and the folders-before-documents ordering.

Two consequences of the code are easy to miss, and the model keeps both:

- The layout repeats the full repository path under the root. Folder
  `/site/docs/sub` exported to `/out` becomes `/out//site/docs/sub`, and a
  document filed in `/site/docs` becomes `/out//site/docs/report.pdf`.
  java.io.File then collapses the `//`, but the model keeps raw strings.
  `ReportScenario` proves this layout.
- A metadata file is written whenever the property list is non-null and
  non-empty, even if every value is null. In that case the file holds only
  the prolog, the wrapper and `<sourcePath>` (`AllNullIsSkeleton`).

## Model

| member | source | states |
|---|---|---|
| Paths.LastIndexOf | src/main/java/com/metasys/Exporter.java:42 | `lastIndexOf('/')` returns -1 exactly when there is no `/`. Otherwise it returns a position holding `/` with no `/` after it. |
| Paths.CutAtLast | src/main/java/com/metasys/Exporter.java:42 | The parent is a proper prefix of the path and is followed by a `/`. No `/` occurs after that one. |
| Paths.CutAtLastOfJoin | src/main/java/com/metasys/Exporter.java:42 | Cutting `a + "/" + b` gives back `a` whenever `b` has no `/`. Cutting is the inverse of joining. |
| Paths.Normalised | src/main/java/com/metasys/Exporter.java:30-34 | The normalised root always ends in the separator. It is the root itself when the root already ends in one, and otherwise adds exactly one character. |
| Paths.EndsWith | src/main/java/com/metasys/Exporter.java:32 | `endsWith(File.separator)`: the string is non-empty and its last character is the separator. |
| Paths.ParentOf | src/main/java/com/metasys/Exporter.java:42 | The parent folder of a document path is `substring(0, lastIndexOf('/'))`, as characterised by `CutAtLast`. |
| Paths.ExportDir | src/main/java/com/metasys/Exporter.java:44 | The directory part of the export path: the normalised root followed by the parent folder. |
| Paths.ExportPath | src/main/java/com/metasys/Exporter.java:44 | The export path is root, `initialSep`, the parent folder, `/` and the name, so it always contains a separator for `getParentFile()`. |
| Paths.MetadataPath | src/main/java/com/metasys/Exporter.java:45 | The metadata path is the export path followed by `_metadata.xml`. |
| Paths.FolderPath | src/main/java/com/metasys/Exporter.java:91-97 | A folder's directory is root, `sep` (empty when the root already ends in `/`) and the folder's full repository path. |
| Paths.DirOf | src/main/java/com/metasys/Exporter.java:46-47 | `getParentFile()` on a raw path: everything before its last separator, as characterised by `CutAtLast`. |
| Exporter.ParentDirectory | src/main/java/com/metasys/Exporter.java:46-47 | `file.getParentFile()` of the export file: `DirOf` of the export path. |
| Paths.NormalisedIdempotent | src/main/java/com/metasys/Exporter.java:91-95 | Normalising twice adds nothing. A root with and without its trailing separator normalise to the same string, so the separator is never doubled from the root side. |
| Paths.ExportFileInFolder | src/main/java/com/metasys/Exporter.java:44-47 | For a name without `/`, `getParentFile()` of the export path equals root + initial separator + parent. This is the directory folder export makes for the parent folder. |
| Paths.MetadataNeverExportPath | src/main/java/com/metasys/Exporter.java:44-45 | For any name, no path's metadata file is ever another (or the same) path's content file. After its last separator, a metadata path has exactly 13 (`_metadata.xml`) more characters than an export path. |
| Paths.ExportPathsAgree | src/main/java/com/metasys/Exporter.java:44-45 | Two paths of a document share a content file exactly when they share a parent folder, and likewise for the metadata file. |
| Paths.DirChain | src/main/java/com/metasys/Exporter.java:101 | The directories `mkdirs` creates for `d` are `d` and non-empty prefixes of `d`. |
| Paths.DirChainClosed | src/main/java/com/metasys/Exporter.java:48 | The directories `mkdirs` creates already contain all their own ancestors. |
| Paths.AddChainClosed | src/main/java/com/metasys/Exporter.java:48 | `mkdirs` keeps a directory tree closed under ancestors. |
| Metadata.Valued | src/main/java/com/metasys/Exporter.java:75-80 | The properties that have a value. Every element has a value, and a property is kept exactly when it has one. `ValuedAppend` and `ValuedSingle` fix the list order and the multiplicity. |
| Metadata.ValuedLines | src/main/java/com/metasys/Exporter.java:75-82 | The property lines of a list equal those of its valued properties alone. |
| Metadata.ValuedSingle | src/main/java/com/metasys/Exporter.java:78-80 | A single property is kept exactly when its value is not null. |
| Metadata.ValuedAppend | src/main/java/com/metasys/Exporter.java:75-80 | Filtering a concatenation filters each part, in order. With `ValuedSingle` this fixes `Valued` as the valued properties in list order, each once per occurrence. |
| Metadata.PropertyLines | src/main/java/com/metasys/Exporter.java:75-82 | The property lines are one `<q>v</q>\n` element per property with a non-null value, in list order. |
| Metadata.MetadataXml | src/main/java/com/metasys/Exporter.java:71-83 | The metadata text is the `<?xml>` prolog, `<metadata>`, the `<sourcePath>` line, the property lines and `</metadata>`. |
| Metadata.Header | src/main/java/com/metasys/Exporter.java:72-74 | The first three lines: `<?xml>`, `<metadata>` and `<sourcePath>p</sourcePath>`, each ending in a newline. |
| Metadata.Element | src/main/java/com/metasys/Exporter.java:81 | One property line: `<q>v</q>` and a newline, with neither part escaped. |
| Metadata.PropertyLinesAppend | src/main/java/com/metasys/Exporter.java:75-82 | The property lines of a concatenated list are the lines of each part, in order. |
| Metadata.NullPropertiesIgnored | src/main/java/com/metasys/Exporter.java:78-80 | The metadata text is unchanged when the null-valued properties are dropped, so a null value never yields an element. |
| Metadata.AllNullIsSkeleton | src/main/java/com/metasys/Exporter.java:71-83 | When every value is null, the text is exactly `<?xml>\n<metadata>\n<sourcePath>p</sourcePath>\n</metadata>\n`. |
| Metadata.ElementInPlace | src/main/java/com/metasys/Exporter.java:81 | Each valued property appears verbatim as `<q>v</q>\n`, after the header and the lines of the properties before it. |
| Metadata.BuildMetadata | src/main/java/com/metasys/Exporter.java:71-83 | The `StringBuilder` loop yields exactly the metadata text: prolog, wrapper, `<sourcePath>`, then one line per valued property in order, then `</metadata>`. |
| FileSystems.FileSystem.MkDirs | src/main/java/com/metasys/Exporter.java:48 | `mkdirs` adds the directory and all its ancestors, changes no file, and keeps the tree closed. |
| FileSystems.FileSystem.CreateNewFile | src/main/java/com/metasys/Exporter.java:53 | `createNewFile` adds an empty file only when none is there. Otherwise nothing changes. |
| FileSystems.FileSystem.Write | src/main/java/com/metasys/Exporter.java:58-60 | Writing a file replaces its contents with exactly the given contents. Nothing else changes. |
| FileSystems.FileSystem.DirExists | src/main/java/com/metasys/Exporter.java:47 | `exists()` on the parent directory: the path is one of the directories. |
| FileSystems.FileSystem.FileExists | src/main/java/com/metasys/Exporter.java:51 | `exists()` on the export file: the path is one of the files. |
| FileSystems.MkDirsState | src/main/java/com/metasys/Exporter.java:48 | After `mkdirs(d)`, the directories are the old ones plus `DirChain(d)`, and the files are unchanged. |
| FileSystems.CreateNewFileState | src/main/java/com/metasys/Exporter.java:53 | After `createNewFile(p)`, an empty file exists at `p` if no file was there; otherwise nothing changes. |
| FileSystems.WriteState | src/main/java/com/metasys/Exporter.java:58-60 | After writing `c` to `p`, the file at `p` holds exactly `c`, and nothing else changes. |
| Exporter.ExportUnderPath | src/main/java/com/metasys/Exporter.java:42-85 | One pass of the path loop leaves the filesystem in the state `PathStep` describes. |
| Exporter.Pass | src/main/java/com/metasys/Exporter.java:46-85 | One pass: make the parent directory if missing, create the export file if missing, write the content bytes if there is a stream, then create and write the metadata file if one is due. |
| Exporter.PathStep | src/main/java/com/metasys/Exporter.java:41-85 | A pass for one repository path: the targets are its parent directory, export path and metadata path, with the metadata text of its parent folder. |
| Exporter.WritesMetadata | src/main/java/com/metasys/Exporter.java:64 | A metadata file is due exactly when the property list is non-null and non-empty. |
| Exporter.MetadataWrite | src/main/java/com/metasys/Exporter.java:64-84 | When metadata is due, the metadata path and the metadata text of the parent folder. Otherwise nothing. |
| Exporter.PathSteps | src/main/java/com/metasys/Exporter.java:41 | The passes for a list of paths: one `PathStep` per path, in list order. |
| Exporter.AfterDocument | src/main/java/com/metasys/Exporter.java:41-86 | A document's export is one pass per path, in list order. |
| Exporter.AfterFolder | src/main/java/com/metasys/Exporter.java:97-101 | A folder's export is `mkdirs` of its directory. |
| Exporter.AfterFolders | src/main/java/com/metasys/Exporter.java:123-128 | The folder pass exports each folder in result order. |
| Exporter.AfterDocuments | src/main/java/com/metasys/Exporter.java:135-140 | The document pass exports each document in result order. |
| Exporter.AfterExport | src/main/java/com/metasys/Exporter.java:114-116 | A whole export is the folder pass, then the document pass. |
| Exporter.FolderQuery | src/main/java/com/metasys/Exporter.java:120 | The folder query text: `SELECT <id> FROM cmis:folder F WHERE IN_TREE(F, '<start id>')`. |
| Exporter.DocumentQuery | src/main/java/com/metasys/Exporter.java:132 | The document query text: `SELECT <id> FROM cmis:document F WHERE IN_TREE(F, '<start id>')`. |
| Exporter.ExportPathSpelled | src/main/java/com/metasys/Exporter.java:44-45 | The export and metadata paths are root, the separator unless the root already ends in one, the parent folder, `/`, the name, and for the metadata path the `_metadata.xml` suffix. |
| Exporter.ExportSingleDocument | src/main/java/com/metasys/Exporter.java:29-88 | The loop runs `PathStep` once per path, in list order, and keeps the directory tree closed. |
| Exporter.ExportSingleFolder | src/main/java/com/metasys/Exporter.java:90-102 | The new state is the old one plus root + separator + folder path and its ancestors. |
| Exporter.ExportFolders | src/main/java/com/metasys/Exporter.java:119-129 | Every folder the `IN_TREE` folder query yields is exported, in result order. |
| Exporter.ExportDocuments | src/main/java/com/metasys/Exporter.java:131-141 | Every document the `IN_TREE` document query yields is exported, in result order. |
| Exporter.Export | src/main/java/com/metasys/Exporter.java:105-117 | If the starting path does not resolve to a folder, nothing changes. Otherwise all folders are exported first, then all documents. `maxLevels` has no effect. |
| ExportProperties.PathStepDirs | src/main/java/com/metasys/Exporter.java:46-49 | After a pass, the parent directory and all its ancestors exist. Only directories on that parent path are added, and the tree stays closed. |
| ExportProperties.PassDirs | src/main/java/com/metasys/Exporter.java:46-49 | Whatever the target paths, a pass adds exactly the missing parent directory chain, or nothing when the parent exists, and keeps the tree closed. |
| ExportProperties.PathStepFiles | src/main/java/com/metasys/Exporter.java:51-85 | After a pass, the content file exists. It holds the stream's bytes if there is a stream; otherwise its previous contents, or is empty if it is new. The metadata file holds the metadata text if the property list is non-null and non-empty, and is untouched otherwise. `PathStepFrame` covers the other files. |
| ExportProperties.ExpectedFile | src/main/java/com/metasys/Exporter.java:51-60 | What the content file holds after a pass: the stream's bytes when there is a stream. Otherwise its earlier contents, or empty when it was just created. |
| ExportProperties.PassFiles | src/main/java/com/metasys/Exporter.java:51-85 | Whatever the target paths, as long as the metadata file is not the export file: the export file holds the bytes, or its earlier contents, or is empty; the metadata file holds its text; every other file is untouched. |
| ExportProperties.PathStepFrame | src/main/java/com/metasys/Exporter.java:41-86 | A pass changes no file other than its export and metadata files. |
| ExportProperties.PathStepGrows | src/main/java/com/metasys/Exporter.java:41-86 | A pass removes no directory and no file. |
| ExportProperties.PathStepsDirs | src/main/java/com/metasys/Exporter.java:41-49 | The passes add exactly the directories on their parent paths and keep the tree closed. |
| ExportProperties.PathStepsFiles | src/main/java/com/metasys/Exporter.java:41-86 | The passes remove no file. Any file that is not one of their content or metadata files keeps its presence and contents. |
| ExportProperties.TargetsSnoc | src/main/java/com/metasys/Exporter.java:41-86 | The files a list of paths may touch are those of its prefix plus the two files of its last path. |
| ExportProperties.SettledKept | src/main/java/com/metasys/Exporter.java:41-86 | A later pass of the same document never disturbs what an earlier pass wrote. |
| ExportProperties.SettledKeptExport | src/main/java/com/metasys/Exporter.java:51-61 | A later pass leaves an earlier path's export file holding what it was settled to. This holds even when both paths share the file, because the stream bytes are the same. |
| ExportProperties.SettledKeptMetadata | src/main/java/com/metasys/Exporter.java:63-85 | A later pass leaves an earlier path's metadata file as settled. A shared metadata file gets the same text, because the two paths share their parent folder. |
| ExportProperties.SettledNew | src/main/java/com/metasys/Exporter.java:41-86 | A pass settles its own path, even when an earlier pass already wrote to the same content file. |
| ExportProperties.ExportFileBefore | src/main/java/com/metasys/Exporter.java:51-61 | Before a pass, the earlier passes of the same document have left its export file so that writing it (or not) yields what ExpectedFile says relative to the filesystem before the document. |
| ExportProperties.MetadataFileBefore | src/main/java/com/metasys/Exporter.java:63-85 | When no metadata is written, the earlier passes have left the pass's metadata path as it was before the document. |
| ExportProperties.PathStepsSettled | src/main/java/com/metasys/Exporter.java:41-86 | After all passes, every path of the document is settled: its directories, content file and metadata file hold the final values. |
| ExportProperties.DocumentExported | src/main/java/com/metasys/Exporter.java:29-88 | For every path: its parent directories exist, its content file holds the stream bytes (or the earlier contents, or empty), and its metadata file exists with the exact text iff the property list is non-null and non-empty. Only those files and directories change, and a document with no paths changes nothing. |
| ExportProperties.PathStepsCreate | src/main/java/com/metasys/Exporter.java:41-86 | After the passes, each path's content file exists under existing directories, and so does its metadata file when one is written. |
| ExportProperties.FolderExported | src/main/java/com/metasys/Exporter.java:90-102 | Folder export adds the folder's directory and its ancestors and changes no file. Running it twice gives the same state as running it once. |
| ExportProperties.FoldersExported | src/main/java/com/metasys/Exporter.java:119-129 | The folder pass adds exactly the union of all folders' directories and their ancestors, and no file. |
| Exporter.AfterFoldersStep | src/main/java/com/metasys/Exporter.java:124-128 | Exporting one more folder of the result list is one more folder pass on the state so far. |
| ExportProperties.FoldersIdempotent | src/main/java/com/metasys/Exporter.java:119-129 | Running the folder pass twice gives the same state as running it once. |
| ExportProperties.FolderChainsUnion | src/main/java/com/metasys/Exporter.java:119-129 | The directories the folder pass adds are the union of the folder chains over the set of its folders. |
| ExportProperties.FoldersOrderFree | src/main/java/com/metasys/Exporter.java:119-129 | Two folder lists with the same elements give the same state, whatever their order or repetitions. |
| ExportProperties.DocumentsKeep | src/main/java/com/metasys/Exporter.java:131-141 | The document pass removes no directory and no file, and keeps the tree closed. |
| ExportProperties.EveryDocumentHasItsFiles | src/main/java/com/metasys/Exporter.java:135-140 | After the document pass, every document has a content file for each of its paths, a metadata file there when it writes one, and the parent directories. |
| ExportProperties.FoldersBeforeDocuments | src/main/java/com/metasys/Exporter.java:114-116 | The export is the document pass run on the state after the folder pass. Every folder's directory exists before any document is processed and is still there at the end. No earlier file is removed. |
| ExportProperties.DocumentInExportedFolder | src/main/java/com/metasys/Exporter.java:44-49 | For a name without `/`: a document whose parent folder's directory already exists creates no directory. |
| ExportProperties.ReportScenario | src/main/java/com/metasys/Exporter.java:105-141 | Exporting /site/docs (folder sub; report.pdf with ten bytes, title Q1 and a null-valued property) to /out gives `/out//site/docs/sub`, `/out//site/docs/report.pdf` with the ten bytes, and a metadata file with `<sourcePath>/site/docs</sourcePath>`, `<title>Q1</title>` and no other element. |

## Left out

- Remote access through the CMIS client is a `Repository` value. The model does
  not include the session, the type-definition lookup of the object-id query
  name, `getObjectByPath`, running a query and resolving each row with
  `getObject`. The query texts are built literally, but the query engine and
  the `IN_TREE` predicate are not modelled. The hard-coded column name
  `F.cmis:objectId` read from each result row is folded into the resolved
  results.
- The starting path's failure modes: a missing object and a non-folder object
  (a `ClassCastException`) both abort before anything is written. The model
  gives both as the single `NotFound` outcome.
- I/O failures are not modelled. These include a directory that cannot be
  created, a write to a path where a directory exists, and failures halfway
  through a run. Files and directories are kept apart: the parent directory
  check looks only at directories, and the file check looks only at files.
- Path normalisation by `java.io.File` is not modelled. Paths are raw strings,
  so `/out//a` and `/out/a` are different entries. `File.separator` is fixed
  to `/`.
- Only the final contents of the chunked stream copy (`IOUtils.copy`) are
  modelled. The UTF-8 encoding done by `Files.writeString` is not modelled; a
  metadata file holds its text.
- The content stream is fetched once, before the loop over paths, and closed
  after the first copy. Whether later paths can read it again depends on the
  CMIS client library, which is not part of this model. The model gives every
  path the full bytes, which is what the loop evidently intends.
- Document paths without a `/` (where `substring` would throw) are excluded
  by the precondition `Fileable`.
- Logging has no effect on the output and is left out.
- `maxLevels` is accepted by `Export` and never read, as in the code.
- DocumentInExportedFolder: holds only for document names without `/`. CMIS
  names cannot contain one. With a `/` in the name, `getParentFile()` cuts
  inside the name, and the directory made is not the folder's.
