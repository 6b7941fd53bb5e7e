/**
 * What an export does to the filesystem, proved about the snapshot functions
 * that specify the methods of module Exporter.
 */
module ExportProperties {

  import opened Optional
  import opened Paths
  import opened Metadata
  import opened FileSystems
  import opened Exporter

  /** `f` is present in `t` exactly when it is in `s`, with the same contents. */
  ghost predicate Untouched(s: State, t: State, f: string) {
    (f in s.files <==> f in t.files) && (f in s.files ==> t.files[f] == s.files[f])
  }

  /**
   * What a document's export file holds once exported, given the filesystem
   * before: the content bytes when there is a content stream; otherwise the
   * earlier file unchanged, or an empty placeholder when there was none.
   */
  function ExpectedFile(s: State, doc: Document, exportPath: string): Contents {
    if doc.content.Some? then Bytes(doc.content.value)
    else if exportPath in s.files then s.files[exportPath]
    else Bytes([])
  }

  /** A pass adds the directories on `dir` when `dir` is missing, and no others. */
  lemma PassDirs(s: State, doc: Document, dir: string, exportPath: string, meta: Option<(string, Contents)>)
    requires AncestorClosed(s.dirs)
    ensures var t := Pass(s, doc, dir, exportPath, meta);
            && AncestorClosed(t.dirs)
            && s.dirs <= t.dirs <= s.dirs + DirChain(dir)
            && DirChain(dir) <= t.dirs
  {
    var t := Pass(s, doc, dir, exportPath, meta);
    assert t.dirs == if dir in s.dirs then s.dirs else s.dirs + DirChain(dir);
    if dir !in s.dirs {
      AddChainClosed(s.dirs, dir);
    }
  }

  /** A pass writes its export file and its metadata file, when there is one, and nothing else. */
  lemma PassFiles(s: State, doc: Document, dir: string, exportPath: string, meta: Option<(string, Contents)>)
    requires meta.Some? ==> meta.value.0 != exportPath
    ensures var t := Pass(s, doc, dir, exportPath, meta);
            && exportPath in t.files
            && t.files[exportPath] == ExpectedFile(s, doc, exportPath)
            && (meta.Some? ==> meta.value.0 in t.files && t.files[meta.value.0] == meta.value.1)
            && forall f :: f != exportPath && (meta.None? || f != meta.value.0) ==> Untouched(s, t, f)
  {
  }

  /** A pass removes no directory and no file. */
  lemma PassGrows(s: State, doc: Document, dir: string, exportPath: string, meta: Option<(string, Contents)>)
    ensures var t := Pass(s, doc, dir, exportPath, meta);
            s.dirs <= t.dirs && s.files.Keys <= t.files.Keys
  {
  }

  /** One pass only adds the directories on its parent path, all of them, and keeps the tree closed. */
  lemma PathStepDirs(s: State, root: string, doc: Document, path: string)
    requires RepoSep in path && AncestorClosed(s.dirs)
    ensures var t := PathStep(s, root, doc, path);
            var dir := ParentDirectory(root, path, doc.name);
            && AncestorClosed(t.dirs)
            && s.dirs <= t.dirs <= s.dirs + DirChain(dir)
            && DirChain(dir) <= t.dirs
  {
    PassDirs(s, doc, ParentDirectory(root, path, doc.name), ExportPath(root, path, doc.name), MetadataWrite(root, doc, path));
  }

  /** One pass writes its export file and, when there are properties, its metadata file, and nothing else. */
  lemma PathStepFiles(s: State, root: string, doc: Document, path: string)
    requires RepoSep in path
    ensures var t := PathStep(s, root, doc, path);
            var ep := ExportPath(root, path, doc.name);
            && ep in t.files
            && t.files[ep] == ExpectedFile(s, doc, ep)
    ensures var t := PathStep(s, root, doc, path);
            var mp := MetadataPath(root, path, doc.name);
            && (WritesMetadata(doc) ==>
                  mp in t.files && t.files[mp] == Text(MetadataXml(ParentOf(path), PropertyList(doc))))
            && (!WritesMetadata(doc) ==> Untouched(s, t, mp))
  {
    var ep, mp := ExportPath(root, path, doc.name), MetadataPath(root, path, doc.name);
    assert |ep| < |mp|;
    PassFiles(s, doc, ParentDirectory(root, path, doc.name), ep, MetadataWrite(root, doc, path));
  }

  /** Directories are never removed by a pass. */
  lemma PathStepGrows(s: State, root: string, doc: Document, path: string)
    requires RepoSep in path
    ensures s.dirs <= PathStep(s, root, doc, path).dirs
    ensures s.files.Keys <= PathStep(s, root, doc, path).files.Keys
  {
    PassGrows(s, doc, ParentDirectory(root, path, doc.name), ExportPath(root, path, doc.name), MetadataWrite(root, doc, path));
  }

  /** A pass changes no file other than its export and metadata files. */
  lemma PathStepFrame(s: State, root: string, doc: Document, path: string)
    requires RepoSep in path
    ensures var t := PathStep(s, root, doc, path);
            forall f :: f != ExportPath(root, path, doc.name) && f != MetadataPath(root, path, doc.name) ==>
              Untouched(s, t, f)
  {
    var ep, mp := ExportPath(root, path, doc.name), MetadataPath(root, path, doc.name);
    assert |ep| < |mp|;
    PassFiles(s, doc, ParentDirectory(root, path, doc.name), ep, MetadataWrite(root, doc, path));
  }

  /** The files the passes over `paths` may write: an export and a metadata path per path. */
  function Targets(root: string, doc: Document, paths: seq<string>): set<string>
    requires forall p :: p in paths ==> RepoSep in p
  {
    (set p | p in paths :: ExportPath(root, p, doc.name))
      + (set p | p in paths :: MetadataPath(root, p, doc.name))
  }

  /** The targets of a longer list are those of its prefix and the two files of its last path. */
  lemma TargetsSnoc(root: string, doc: Document, paths: seq<string>)
    requires paths != [] && forall p :: p in paths ==> RepoSep in p
    ensures var pre, q := paths[..|paths| - 1], paths[|paths| - 1];
            Targets(root, doc, paths)
            == Targets(root, doc, pre) + {ExportPath(root, q, doc.name), MetadataPath(root, q, doc.name)}
  {
    var pre, q := paths[..|paths| - 1], paths[|paths| - 1];
    assert paths == pre + [q];
    assert forall p :: p in paths <==> p in pre || p == q;
  }

  /** The directories on the parent paths of the export files for `paths`. */
  function ParentChains(root: string, doc: Document, paths: seq<string>): set<string>
    requires forall p :: p in paths ==> RepoSep in p
  {
    if paths == [] then {}
    else ParentChains(root, doc, paths[..|paths| - 1]) + DirChain(ParentDirectory(root, paths[|paths| - 1], doc.name))
  }

  /**
   * The passes over `paths` add exactly the directories on their parent paths
   * and keep the directory tree closed.
   */
  lemma {:induction false} PathStepsDirs(s: State, root: string, doc: Document, paths: seq<string>)
    requires forall p :: p in paths ==> RepoSep in p
    requires AncestorClosed(s.dirs)
    ensures AncestorClosed(PathSteps(s, root, doc, paths).dirs)
    ensures PathSteps(s, root, doc, paths).dirs == s.dirs + ParentChains(root, doc, paths)
  {
    if paths != [] {
      var pre, q := paths[..|paths| - 1], paths[|paths| - 1];
      assert forall p :: p in pre ==> p in paths;
      PathStepsDirs(s, root, doc, pre);
      var t := PathSteps(s, root, doc, pre);
      PathStepDirs(t, root, doc, q);
    }
  }

  /**
   * The passes over `paths` remove no file and leave every file that is not
   * one of their export or metadata files as it was.
   */
  lemma {:induction false} PathStepsFiles(s: State, root: string, doc: Document, paths: seq<string>)
    requires forall p :: p in paths ==> RepoSep in p
    ensures s.files.Keys <= PathSteps(s, root, doc, paths).files.Keys
    ensures forall f :: f !in Targets(root, doc, paths) ==> Untouched(s, PathSteps(s, root, doc, paths), f)
  {
    if paths != [] {
      var pre, q := paths[..|paths| - 1], paths[|paths| - 1];
      assert forall p :: p in pre ==> p in paths;
      PathStepsFiles(s, root, doc, pre);
      var t := PathSteps(s, root, doc, pre);
      var t' := PathStep(t, root, doc, q);
      assert PathSteps(s, root, doc, paths) == t';
      PathStepGrows(t, root, doc, q);
      PathStepFrame(t, root, doc, q);
      TargetsSnoc(root, doc, paths);
      forall f | f !in Targets(root, doc, paths) ensures Untouched(s, t', f) {
        assert Untouched(s, t, f) && Untouched(t, t', f);
      }
    }
  }

  /**
   * How a path `path` of `doc` is left in `t`, relative to the filesystem `s`
   * before the document's export: its parent directory and all of that
   * directory's ancestors exist; its export file exists and holds what
   * ExpectedFile says; its metadata file holds the metadata text when the
   * property list is non-null and non-empty, and is untouched otherwise.
   */
  ghost predicate Settled(s: State, t: State, root: string, doc: Document, path: string)
    requires RepoSep in path
  {
    var ep, mp := ExportPath(root, path, doc.name), MetadataPath(root, path, doc.name);
    && DirChain(ParentDirectory(root, path, doc.name)) <= t.dirs
    && ep in t.files && t.files[ep] == ExpectedFile(s, doc, ep)
    && (WritesMetadata(doc) ==>
          mp in t.files && t.files[mp] == Text(MetadataXml(ParentOf(path), PropertyList(doc))))
    && (!WritesMetadata(doc) ==> Untouched(s, t, mp))
  }

  /** A later pass leaves an earlier path's export file as it was settled. */
  lemma SettledKeptExport(s: State, t: State, root: string, doc: Document, p: string, q: string)
    requires RepoSep in p && RepoSep in q
    requires Settled(s, t, root, doc, p)
    ensures var t' := PathStep(t, root, doc, q);
            var ep := ExportPath(root, p, doc.name);
            ep in t'.files && t'.files[ep] == ExpectedFile(s, doc, ep)
  {
    var ep := ExportPath(root, p, doc.name);
    PathStepFiles(t, root, doc, q);
    PathStepFrame(t, root, doc, q);
    if ep == ExportPath(root, q, doc.name) {
      assert ep in t.files;
    } else {
      MetadataNeverExportPath(root, q, p, doc.name);
      assert Untouched(t, PathStep(t, root, doc, q), ep);
    }
  }

  /** A later pass leaves an earlier path's metadata file as it was settled. */
  lemma SettledKeptMetadata(s: State, t: State, root: string, doc: Document, p: string, q: string)
    requires RepoSep in p && RepoSep in q
    requires Settled(s, t, root, doc, p)
    ensures var t' := PathStep(t, root, doc, q);
            var mp := MetadataPath(root, p, doc.name);
            && (WritesMetadata(doc) ==>
                  mp in t'.files && t'.files[mp] == Text(MetadataXml(ParentOf(p), PropertyList(doc))))
            && (!WritesMetadata(doc) ==> Untouched(s, t', mp))
  {
    var mp := MetadataPath(root, p, doc.name);
    PathStepFiles(t, root, doc, q);
    PathStepFrame(t, root, doc, q);
    if mp == MetadataPath(root, q, doc.name) {
      ExportPathsAgree(root, p, q, doc.name);
      assert ParentOf(p) == ParentOf(q);
    } else {
      MetadataNeverExportPath(root, p, q, doc.name);
      assert Untouched(t, PathStep(t, root, doc, q), mp);
    }
  }

  /** A later pass never disturbs what an earlier pass settled. */
  lemma SettledKept(s: State, t: State, root: string, doc: Document, p: string, q: string)
    requires RepoSep in p && RepoSep in q
    requires Settled(s, t, root, doc, p)
    ensures Settled(s, PathStep(t, root, doc, q), root, doc, p)
  {
    PathStepGrows(t, root, doc, q);
    SettledKeptExport(s, t, root, doc, p, q);
    SettledKeptMetadata(s, t, root, doc, p, q);
  }

  /** Before a pass over `q`, the earlier passes have left its export file as ExpectedFile says. */
  lemma ExportFileBefore(s: State, t: State, root: string, doc: Document, pre: seq<string>, q: string)
    requires forall p :: p in pre ==> RepoSep in p
    requires RepoSep in q
    requires forall p :: p in pre ==> Settled(s, t, root, doc, p)
    requires forall f :: f !in Targets(root, doc, pre) ==> Untouched(s, t, f)
    ensures ExpectedFile(t, doc, ExportPath(root, q, doc.name)) == ExpectedFile(s, doc, ExportPath(root, q, doc.name))
  {
    var ep := ExportPath(root, q, doc.name);
    if p :| p in pre && ep == ExportPath(root, p, doc.name) {
      assert Settled(s, t, root, doc, p);
    } else {
      forall p | p in pre ensures ep != MetadataPath(root, p, doc.name) {
        MetadataNeverExportPath(root, p, q, doc.name);
      }
      assert ep !in Targets(root, doc, pre);
    }
  }

  /** Before a pass over `q`, a metadata file that is never written is still as it was. */
  lemma MetadataFileBefore(s: State, t: State, root: string, doc: Document, pre: seq<string>, q: string)
    requires forall p :: p in pre ==> RepoSep in p
    requires RepoSep in q && !WritesMetadata(doc)
    requires forall p :: p in pre ==> Settled(s, t, root, doc, p)
    requires forall f :: f !in Targets(root, doc, pre) ==> Untouched(s, t, f)
    ensures Untouched(s, t, MetadataPath(root, q, doc.name))
  {
    var mp := MetadataPath(root, q, doc.name);
    if mp in Targets(root, doc, pre) {
      var p :| p in pre && (mp == ExportPath(root, p, doc.name) || mp == MetadataPath(root, p, doc.name));
      MetadataNeverExportPath(root, q, p, doc.name);
      assert Settled(s, t, root, doc, p);
    }
  }

  /** A pass settles its own path, given what the passes before it did. */
  lemma SettledNew(s: State, t: State, root: string, doc: Document, pre: seq<string>, q: string)
    requires forall p :: p in pre ==> RepoSep in p
    requires RepoSep in q && AncestorClosed(t.dirs)
    requires forall p :: p in pre ==> Settled(s, t, root, doc, p)
    requires forall f :: f !in Targets(root, doc, pre) ==> Untouched(s, t, f)
    ensures Settled(s, PathStep(t, root, doc, q), root, doc, q)
  {
    PathStepDirs(t, root, doc, q);
    PathStepFiles(t, root, doc, q);
    ExportFileBefore(s, t, root, doc, pre, q);
    if !WritesMetadata(doc) {
      MetadataFileBefore(s, t, root, doc, pre, q);
    }
  }

  lemma {:induction false} PathStepsSettled(s: State, root: string, doc: Document, paths: seq<string>)
    requires forall p :: p in paths ==> RepoSep in p
    requires AncestorClosed(s.dirs)
    ensures forall p :: p in paths ==> Settled(s, PathSteps(s, root, doc, paths), root, doc, p)
  {
    if paths != [] {
      var pre, q := paths[..|paths| - 1], paths[|paths| - 1];
      assert forall p :: p in pre ==> p in paths;
      PathStepsSettled(s, root, doc, pre);
      PathStepsDirs(s, root, doc, pre);
      PathStepsFiles(s, root, doc, pre);
      var t := PathSteps(s, root, doc, pre);
      assert PathSteps(s, root, doc, paths) == PathStep(t, root, doc, q);
      forall p | p in paths ensures Settled(s, PathStep(t, root, doc, q), root, doc, p) {
        if p == q {
          SettledNew(s, t, root, doc, pre, q);
        } else {
          assert p in pre;
          SettledKept(s, t, root, doc, p, q);
        }
      }
    }
  }

  /**
   * Exporting a document, for a name without a separator: every path it is
   * filed under ends up Settled; the files written are only its export and
   * metadata files; the directories added are exactly those on its parent
   * paths; a document filed nowhere changes nothing.
   */
  lemma DocumentExported(s: State, root: string, doc: Document)
    requires Fileable(doc) && AncestorClosed(s.dirs)
    ensures var t := AfterDocument(s, root, doc);
            forall p :: p in doc.paths ==> Settled(s, t, root, doc, p)
    ensures var t := AfterDocument(s, root, doc);
            && AncestorClosed(t.dirs)
            && t.dirs == s.dirs + ParentChains(root, doc, doc.paths)
            && forall f :: f !in Targets(root, doc, doc.paths) ==> Untouched(s, t, f)
    ensures doc.paths == [] ==> AfterDocument(s, root, doc) == s
  {
    PathStepsSettled(s, root, doc, doc.paths);
    PathStepsDirs(s, root, doc, doc.paths);
    PathStepsFiles(s, root, doc, doc.paths);
  }

  /** Every export and metadata file of the passes over `paths` exists afterwards, under existing directories. */
  lemma {:induction false} PathStepsCreate(s: State, root: string, doc: Document, paths: seq<string>)
    requires forall p :: p in paths ==> RepoSep in p
    requires AncestorClosed(s.dirs)
    ensures var t := PathSteps(s, root, doc, paths);
            forall p :: p in paths ==>
              && DirChain(ParentDirectory(root, p, doc.name)) <= t.dirs
              && ExportPath(root, p, doc.name) in t.files
              && (WritesMetadata(doc) ==> MetadataPath(root, p, doc.name) in t.files)
  {
    if paths != [] {
      var pre, q := paths[..|paths| - 1], paths[|paths| - 1];
      assert forall p :: p in pre ==> p in paths;
      PathStepsCreate(s, root, doc, pre);
      PathStepsDirs(s, root, doc, pre);
      var t := PathSteps(s, root, doc, pre);
      var t' := PathStep(t, root, doc, q);
      assert PathSteps(s, root, doc, paths) == t';
      PathStepGrows(t, root, doc, q);
      PathStepDirs(t, root, doc, q);
      PathStepFiles(t, root, doc, q);
      forall p | p in paths
        ensures && DirChain(ParentDirectory(root, p, doc.name)) <= t'.dirs
                && ExportPath(root, p, doc.name) in t'.files
                && (WritesMetadata(doc) ==> MetadataPath(root, p, doc.name) in t'.files)
      {
        if p != q {
          assert p in pre;
        }
      }
    }
  }

  /**
   * Exporting a folder adds its directory and all that directory's ancestors,
   * changes no file, keeps the directory tree closed, and exporting it a
   * second time changes nothing.
   */
  lemma FolderExported(s: State, root: string, folder: Folder)
    requires AncestorClosed(s.dirs)
    ensures var t := AfterFolder(s, root, folder);
            && FolderPath(root, folder.path) in t.dirs
            && t.dirs == s.dirs + DirChain(FolderPath(root, folder.path))
            && t.files == s.files
            && AncestorClosed(t.dirs)
    ensures AfterFolder(AfterFolder(s, root, folder), root, folder) == AfterFolder(s, root, folder)
  {
    AddChainClosed(s.dirs, FolderPath(root, folder.path));
  }

  /** The directories folder export makes sure of for all of `folders`. */
  function FolderChains(root: string, folders: seq<Folder>): set<string> {
    if folders == [] then {}
    else FolderChains(root, folders[..|folders| - 1]) + DirChain(FolderPath(root, folders[|folders| - 1].path))
  }

  /** The chains of a set of folders: every directory on the path of one of them. */
  function ChainsOf(root: string, folders: set<Folder>): set<string> {
    set f, d | f in folders && d in DirChain(FolderPath(root, f.path)) :: d
  }

  /** One more folder adds its chain to the union. */
  lemma ChainsOfAdd(root: string, folders: set<Folder>, last: Folder)
    ensures ChainsOf(root, folders + {last}) == ChainsOf(root, folders) + DirChain(FolderPath(root, last.path))
  {
    forall d | d in ChainsOf(root, folders + {last})
      ensures d in ChainsOf(root, folders) + DirChain(FolderPath(root, last.path))
    {
      var f :| f in folders + {last} && d in DirChain(FolderPath(root, f.path));
      if f != last {
        assert f in folders;
      }
    }
  }

  lemma FolderSetSnoc(folders: seq<Folder>, pre: seq<Folder>, last: Folder)
    requires folders == pre + [last]
    ensures (set f | f in folders) == (set f | f in pre) + {last}
  {
  }

  /** The directories of the folder pass are the union of the chains over the set of its folders. */
  lemma {:induction false} FolderChainsUnion(root: string, folders: seq<Folder>)
    ensures FolderChains(root, folders) == ChainsOf(root, set f | f in folders)
  {
    if folders == [] {
      assert (set f | f in folders) == {};
    } else {
      var pre, last := folders[..|folders| - 1], folders[|folders| - 1];
      var elements := set f | f in pre;
      FolderChainsUnion(root, pre);
      assert folders == pre + [last];
      FolderSetSnoc(folders, pre, last);
      ChainsOfAdd(root, elements, last);
      assert FolderChains(root, folders) == ChainsOf(root, elements) + DirChain(FolderPath(root, last.path));
    }
  }

  /** The folder pass does not depend on the order, or the repetitions, of the folders it is given. */
  lemma FoldersOrderFree(s: State, root: string, a: seq<Folder>, b: seq<Folder>)
    requires forall f :: f in a <==> f in b
    ensures AfterFolders(s, root, a) == AfterFolders(s, root, b)
  {
    FoldersExported(s, root, a);
    FoldersExported(s, root, b);
    FolderChainsUnion(root, a);
    FolderChainsUnion(root, b);
    assert (set f | f in a) == (set f | f in b);
  }

  /**
   * The folder pass adds exactly the directories of all folders and their
   * ancestors and changes no file.
   */
  lemma {:induction false} FoldersExported(s: State, root: string, folders: seq<Folder>)
    ensures AfterFolders(s, root, folders) == State(s.dirs + FolderChains(root, folders), s.files)
    ensures forall i :: 0 <= i < |folders| ==>
              DirChain(FolderPath(root, folders[i].path)) <= AfterFolders(s, root, folders).dirs
  {
    if folders != [] {
      var pre, last := folders[..|folders| - 1], folders[|folders| - 1];
      FoldersExported(s, root, pre);
      var mid := AfterFolders(s, root, pre);
      var t := AfterFolders(s, root, folders);
      assert t.dirs == mid.dirs + DirChain(FolderPath(root, last.path));
      forall i | 0 <= i < |folders|
        ensures DirChain(FolderPath(root, folders[i].path)) <= t.dirs
      {
        if i < |folders| - 1 {
          assert folders[i] == pre[i];
          assert DirChain(FolderPath(root, pre[i].path)) <= mid.dirs;
        }
      }
    }
  }

  /** Running the folder pass a second time changes nothing. */
  lemma FoldersIdempotent(s: State, root: string, folders: seq<Folder>)
    ensures AfterFolders(AfterFolders(s, root, folders), root, folders) == AfterFolders(s, root, folders)
  {
    FoldersExported(s, root, folders);
    FoldersExported(AfterFolders(s, root, folders), root, folders);
  }

  /** The document pass removes no directory and no file, and keeps the tree closed. */
  lemma {:induction false} DocumentsKeep(s: State, root: string, docs: seq<Document>)
    requires AllFileable(docs) && AncestorClosed(s.dirs)
    ensures var t := AfterDocuments(s, root, docs);
            AncestorClosed(t.dirs) && s.dirs <= t.dirs && s.files.Keys <= t.files.Keys
  {
    if docs != [] {
      var pre := docs[..|docs| - 1];
      DocumentsKeep(s, root, pre);
      var t := AfterDocuments(s, root, pre);
      PathStepsDirs(t, root, docs[|docs| - 1], docs[|docs| - 1].paths);
      PathStepsFiles(t, root, docs[|docs| - 1], docs[|docs| - 1].paths);
    }
  }

  /**
   * After the document pass, every document has an export file for each path
   * it is filed under, a metadata file there when it writes one, and the
   * parent directories of those files.
   */
  lemma {:induction false} EveryDocumentHasItsFiles(s: State, root: string, docs: seq<Document>)
    requires AllFileable(docs) && AncestorClosed(s.dirs)
    ensures var t := AfterDocuments(s, root, docs);
            forall i, p :: 0 <= i < |docs| && p in docs[i].paths ==>
              && DirChain(ParentDirectory(root, p, docs[i].name)) <= t.dirs
              && ExportPath(root, p, docs[i].name) in t.files
              && (WritesMetadata(docs[i]) ==> MetadataPath(root, p, docs[i].name) in t.files)
  {
    if docs != [] {
      var pre, d := docs[..|docs| - 1], docs[|docs| - 1];
      EveryDocumentHasItsFiles(s, root, pre);
      DocumentsKeep(s, root, pre);
      var t := AfterDocuments(s, root, pre);
      PathStepsDirs(t, root, d, d.paths);
      PathStepsFiles(t, root, d, d.paths);
      PathStepsCreate(t, root, d, d.paths);
      forall i, p | 0 <= i < |docs| - 1 && p in docs[i].paths
        ensures var t' := AfterDocuments(s, root, docs);
                && DirChain(ParentDirectory(root, p, docs[i].name)) <= t'.dirs
                && ExportPath(root, p, docs[i].name) in t'.files
                && (WritesMetadata(docs[i]) ==> MetadataPath(root, p, docs[i].name) in t'.files)
      {
        assert docs[i] == pre[i];
      }
    }
  }

  /**
   * In a whole export every folder's directory, with its ancestors, is made
   * by the folder pass before any document is processed, and it is still
   * there when the export ends; no file that existed before is removed.
   */
  lemma FoldersBeforeDocuments(s: State, root: string, repo: Repository, startId: string)
    requires AllFileable(repo.documents(DocumentQuery(repo.idQueryName, startId)))
    requires AncestorClosed(s.dirs)
    ensures var folders := repo.folders(FolderQuery(repo.idQueryName, startId));
            var mid := AfterFolders(s, root, folders);
            && AfterExport(s, root, repo, startId)
               == AfterDocuments(mid, root, repo.documents(DocumentQuery(repo.idQueryName, startId)))
            && (forall i :: 0 <= i < |folders| ==> DirChain(FolderPath(root, folders[i].path)) <= mid.dirs)
            && mid.dirs <= AfterExport(s, root, repo, startId).dirs
            && s.files.Keys <= AfterExport(s, root, repo, startId).files.Keys
  {
    var folders := repo.folders(FolderQuery(repo.idQueryName, startId));
    FoldersExported(s, root, folders);
    var mid := AfterFolders(s, root, folders);
    DirChainsClosed(s.dirs, root, folders);
    DocumentsKeep(mid, root, repo.documents(DocumentQuery(repo.idQueryName, startId)));
  }

  lemma {:induction false} DirChainsClosed(dirs: set<string>, root: string, folders: seq<Folder>)
    requires AncestorClosed(dirs)
    ensures AncestorClosed(dirs + FolderChains(root, folders))
  {
    if folders != [] {
      var pre := folders[..|folders| - 1];
      DirChainsClosed(dirs, root, pre);
      assert dirs + FolderChains(root, folders)
          == (dirs + FolderChains(root, pre)) + DirChain(FolderPath(root, folders[|folders| - 1].path));
      AddChainClosed(dirs + FolderChains(root, pre), FolderPath(root, folders[|folders| - 1].path));
    }
  }

  /**
   * A document filed in a folder whose directory already exists (as the
   * folder pass guarantees) creates no directory: its export file goes into
   * the folder's own directory.
   */
  lemma DocumentInExportedFolder(s: State, root: string, doc: Document, path: string)
    requires RepoSep in path && Sep !in doc.name
    requires FolderPath(root, ParentOf(path)) in s.dirs
    ensures PathStep(s, root, doc, path).dirs == s.dirs
    ensures ParentDirectory(root, path, doc.name) == FolderPath(root, ParentOf(path))
  {
    ExportFileInFolder(root, path, doc.name);
  }

  // A worked example: the helpers below compute each piece of it separately.

  function ReportBytes(): seq<byte> {
    [0, 1, 2, 3, 4, 5, 6, 7, 8, 9]
  }

  function ReportDocument(): Document {
    Document("report.pdf", ["/site/docs/report.pdf"], Some(ReportBytes()),
             Some([Property("title", Some("Q1")), Property("empty", None)]))
  }

  lemma ReportFolderPass()
    ensures var mid := AfterFolders(State({}, map[]), "/out", [Folder("sub", "/site/docs/sub")]);
            AncestorClosed(mid.dirs) && "/out//site/docs/sub" in mid.dirs
  {
    var s0, folder := State({}, map[]), Folder("sub", "/site/docs/sub");
    assert [folder][..|[folder]| - 1] == [];
    assert AfterFolders(s0, "/out", []) == s0;
    FolderExported(s0, "/out", folder);
    ReportFolderPath();
    var d := FolderPath("/out", folder.path);
    assert d in DirChain(d);
  }

  lemma ReportFolderPath()
    ensures FolderPath("/out", "/site/docs/sub") == "/out//site/docs/sub"
  {
  }

  lemma ReportSettled(mid: State)
    requires AncestorClosed(mid.dirs)
    ensures var t := AfterDocuments(mid, "/out", [ReportDocument()]);
            && mid.dirs <= t.dirs
            && RepoSep in "/site/docs/report.pdf"
            && Settled(mid, t, "/out", ReportDocument(), "/site/docs/report.pdf")
  {
    var doc, root := ReportDocument(), "/out";
    assert [doc][..|[doc]| - 1] == [];
    assert AfterDocuments(mid, root, []) == mid;
    assert AfterDocuments(mid, root, [doc]) == AfterDocument(mid, root, doc);
    assert doc.paths[0] in doc.paths;
    DocumentExported(mid, root, doc);
  }

  lemma ReportContentFile(mid: State)
    requires AncestorClosed(mid.dirs)
    ensures var t := AfterDocuments(mid, "/out", [ReportDocument()]);
            && "/out//site/docs" in t.dirs
            && "/out//site/docs/report.pdf" in t.files
            && t.files["/out//site/docs/report.pdf"] == Bytes(ReportBytes())
  {
    var doc, root, path := ReportDocument(), "/out", "/site/docs/report.pdf";
    ReportSettled(mid);
    ReportPaths();
    var dir := ParentDirectory(root, path, doc.name);
    assert dir in DirChain(dir);
  }

  lemma ReportMetadataFile(mid: State)
    requires AncestorClosed(mid.dirs)
    ensures var t := AfterDocuments(mid, "/out", [ReportDocument()]);
            && "/out//site/docs/report.pdf_metadata.xml" in t.files
            && t.files["/out//site/docs/report.pdf_metadata.xml"]
               == Text("<?xml>\n<metadata>\n<sourcePath>/site/docs</sourcePath>\n<title>Q1</title>\n</metadata>\n")
  {
    var doc := ReportDocument();
    ReportSettled(mid);
    ReportPaths();
    ReportMetadataText();
    assert PropertyList(doc) == [Property("title", Some("Q1")), Property("empty", None)];
  }

  lemma ReportDocumentPass(mid: State)
    requires AncestorClosed(mid.dirs)
    ensures var t := AfterDocuments(mid, "/out", [ReportDocument()]);
            && mid.dirs <= t.dirs
            && "/out//site/docs" in t.dirs
            && "/out//site/docs/report.pdf" in t.files
            && t.files["/out//site/docs/report.pdf"] == Bytes(ReportBytes())
            && "/out//site/docs/report.pdf_metadata.xml" in t.files
            && t.files["/out//site/docs/report.pdf_metadata.xml"]
               == Text("<?xml>\n<metadata>\n<sourcePath>/site/docs</sourcePath>\n<title>Q1</title>\n</metadata>\n")
  {
    ReportSettled(mid);
    ReportContentFile(mid);
    ReportMetadataFile(mid);
  }

  lemma ReportPaths()
    ensures var root, path, name := "/out", "/site/docs/report.pdf", "report.pdf";
            && ParentOf(path) == "/site/docs"
            && ParentDirectory(root, path, name) == "/out//site/docs"
            && ExportPath(root, path, name) == "/out//site/docs/report.pdf"
            && MetadataPath(root, path, name) == "/out//site/docs/report.pdf_metadata.xml"
  {
    var root, path, name := "/out", "/site/docs/report.pdf", "report.pdf";
    ReportParent();
    ReportExportDir();
    assert ExportPath(root, path, name) == "/out//site/docs" + [Sep] + "report.pdf";
    ReportJoin();
    ExportFileInFolder(root, path, name);
  }

  lemma ReportParent()
    ensures RepoSep in "/site/docs/report.pdf" && ParentOf("/site/docs/report.pdf") == "/site/docs"
  {
    assert "/site/docs" + [RepoSep] + "report.pdf" == "/site/docs/report.pdf";
    CutAtLastOfJoin("/site/docs", RepoSep, "report.pdf");
  }

  lemma ReportExportDir()
    ensures ExportDir("/out", "/site/docs/report.pdf") == "/out//site/docs"
  {
    ReportParent();
    assert Normalised("/out") == "/out" + [Sep] == "/out/";
    assert "/out/" + "/site/docs" == "/out//site/docs";
  }

  lemma ReportJoin()
    ensures "/out//site/docs" + [Sep] + "report.pdf" == "/out//site/docs/report.pdf"
    ensures "/out//site/docs/report.pdf" + MetadataSuffix == "/out//site/docs/report.pdf_metadata.xml"
  {
  }

  lemma ReportLines()
    ensures PropertyLines([Property("title", Some("Q1")), Property("empty", None)]) == "<title>Q1</title>\n"
  {
  }

  lemma ReportMetadataText()
    ensures MetadataXml("/site/docs", [Property("title", Some("Q1")), Property("empty", None)])
         == "<?xml>\n<metadata>\n<sourcePath>/site/docs</sourcePath>\n<title>Q1</title>\n</metadata>\n"
  {
    ReportLines();
    ReportHeader();
    ReportBody();
  }

  lemma ReportBody()
    ensures "<?xml>\n<metadata>\n<sourcePath>/site/docs</sourcePath>\n" + "<title>Q1</title>\n" + "</metadata>\n"
         == "<?xml>\n<metadata>\n<sourcePath>/site/docs</sourcePath>\n<title>Q1</title>\n</metadata>\n"
  {
  }

  lemma ReportHeader()
    ensures Header("/site/docs") == "<?xml>\n<metadata>\n<sourcePath>/site/docs</sourcePath>\n"
  {
    assert Header("/site/docs") == "<?xml>\n" + "<metadata>\n" + "<sourcePath>" + "/site/docs" + "</sourcePath>\n";
    assert "<?xml>\n" + "<metadata>\n" == "<?xml>\n<metadata>\n";
    assert "<?xml>\n<metadata>\n" + "<sourcePath>" == "<?xml>\n<metadata>\n<sourcePath>";
    assert "<?xml>\n<metadata>\n<sourcePath>" + "/site/docs" == "<?xml>\n<metadata>\n<sourcePath>/site/docs";
  }

  /**
   * A starting folder /site/docs holding folder /site/docs/sub and a document
   * report.pdf (ten content bytes, a title and a null-valued property), filed
   * only in /site/docs, exported to /out. The layout mirrors the full
   * repository path under the root, and the null-valued property leaves no
   * element in the metadata text.
   */
  lemma ReportScenario()
    ensures var repo := Repository("cmis:objectId",
                                   p => if p == "/site/docs" then Some("docs-id") else None,
                                   q => [Folder("sub", "/site/docs/sub")],
                                   q => [ReportDocument()]);
            var t := AfterExport(State({}, map[]), "/out", repo, "docs-id");
            && "/out//site/docs/sub" in t.dirs
            && "/out//site/docs" in t.dirs
            && "/out//site/docs/report.pdf" in t.files
            && t.files["/out//site/docs/report.pdf"] == Bytes(ReportBytes())
            && "/out//site/docs/report.pdf_metadata.xml" in t.files
            && t.files["/out//site/docs/report.pdf_metadata.xml"]
               == Text("<?xml>\n<metadata>\n<sourcePath>/site/docs</sourcePath>\n<title>Q1</title>\n</metadata>\n")
  {
    var mid := AfterFolders(State({}, map[]), "/out", [Folder("sub", "/site/docs/sub")]);
    ReportFolderPass();
    ReportDocumentPass(mid);
  }
}
