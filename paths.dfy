/**
 * Path arithmetic of the exporter: how the destination root is normalised,
 * how a repository path is cut back to its parent folder, and how the target
 * paths of a folder, a document and its metadata sidecar are assembled.
 * Paths are plain strings; no operating-system normalisation is applied.
 */
module Paths {

  /** The platform file separator (File.separator), fixed to its POSIX value. */
  const Sep: char := '/'

  /** The separator of repository paths, at which a document path is cut. */
  const RepoSep: char := '/'

  /** Suffix that turns a document's export path into its metadata path. */
  const MetadataSuffix: string := "_metadata.xml"

  predicate EndsWith(s: string, c: char) {
    |s| > 0 && s[|s| - 1] == c
  }

  /** String.lastIndexOf(char): the last position holding c, or -1 when there is none. */
  function LastIndexOf(s: string, c: char): (r: int)
    ensures -1 <= r < |s|
    ensures r == -1 ==> c !in s
    ensures 0 <= r ==> s[r] == c
    ensures forall i :: r < i < |s| ==> s[i] != c
  {
    if |s| == 0 then -1
    else if s[|s| - 1] == c then |s| - 1
    else LastIndexOf(s[..|s| - 1], c)
  }

  /** s.substring(0, s.lastIndexOf(c)): everything before the last c. */
  function CutAtLast(s: string, c: char): (r: string)
    requires c in s
    ensures |r| < |s| && s[..|r|] == r
    ensures s[|r|] == c
    ensures forall i :: |r| < i < |s| ==> s[i] != c
  {
    s[..LastIndexOf(s, c)]
  }

  /** Cutting is the inverse of joining with a last separator. */
  lemma {:induction false} CutAtLastOfJoin(a: string, c: char, b: string)
    requires c !in b
    ensures c in a + [c] + b
    ensures CutAtLast(a + [c] + b, c) == a
  {
    var s := a + [c] + b;
    assert s[|a|] == c;
    assert s[..|a|] == a;
  }

  /** The destination root followed by one separator unless it already ends in one. */
  function Normalised(root: string): (r: string)
    ensures EndsWith(r, Sep)
    ensures |root| <= |r| <= |root| + 1 && r[..|root|] == root
    ensures EndsWith(root, Sep) ==> r == root
  {
    if EndsWith(root, Sep) then root else root + [Sep]
  }

  /** The parent folder of a document path (the path up to its last '/'). */
  function ParentOf(path: string): string
    requires RepoSep in path
  {
    CutAtLast(path, RepoSep)
  }

  /** The directory a document filed under `path` is exported into. */
  function ExportDir(root: string, path: string): string
    requires RepoSep in path
  {
    Normalised(root) + ParentOf(path)
  }

  /** root + initialSep + parent + sep + name; it always has a separator for getParentFile() to cut at. */
  function ExportPath(root: string, path: string, name: string): (r: string)
    requires RepoSep in path
    ensures Sep in r
  {
    var r := ExportDir(root, path) + [Sep] + name;
    assert r[|ExportDir(root, path)|] == Sep;
    r
  }

  /** The export path followed by the metadata suffix. */
  function MetadataPath(root: string, path: string, name: string): string
    requires RepoSep in path
  {
    ExportPath(root, path, name) + MetadataSuffix
  }

  /** root + sep + folderPath. */
  function FolderPath(root: string, folderPath: string): string {
    Normalised(root) + folderPath
  }

  /** File.getParentFile() on a raw path: everything before its last separator. */
  function DirOf(file: string): string
    requires Sep in file
  {
    CutAtLast(file, Sep)
  }

  /**
   * The directories File.mkdirs() makes sure of for `d`: `d` itself and every
   * non-empty prefix of it that ends just before a separator.
   */
  function DirChain(d: string): (r: set<string>)
    ensures d != [] ==> d in r
    ensures forall a :: a in r ==> a != [] && |a| <= |d| && d[..|a|] == a
  {
    assert d[..|d|] == d;
    set i | 0 < i <= |d| && (i == |d| || d[i] == Sep) :: d[..i]
  }

  /** Every directory's ancestors are directories too, as in a real file tree. */
  ghost predicate AncestorClosed(dirs: set<string>) {
    forall d {:trigger DirChain(d)} :: d in dirs ==> DirChain(d) <= dirs
  }

  /** Normalising twice adds nothing: the separator is never doubled from the root side. */
  lemma NormalisedIdempotent(root: string)
    ensures Normalised(Normalised(root)) == Normalised(root)
    ensures !EndsWith(root, Sep) ==> Normalised(root + [Sep]) == Normalised(root)
  {
  }

  /** A document's export file sits in the directory folder export makes for its parent folder. */
  lemma ExportFileInFolder(root: string, path: string, name: string)
    requires RepoSep in path && Sep !in name
    ensures DirOf(ExportPath(root, path, name)) == ExportDir(root, path)
    ensures ExportDir(root, path) == FolderPath(root, ParentOf(path))
  {
    CutAtLastOfJoin(ExportDir(root, path), Sep, name);
  }

  /** The last position holding `c` is the one after which no `c` follows. */
  lemma LastIndexOfIs(s: string, c: char, k: int)
    requires -1 <= k < |s| && (0 <= k ==> s[k] == c)
    requires forall i :: k < i < |s| ==> s[i] != c
    ensures LastIndexOf(s, c) == k
  {
  }

  /** Every character of `y` sits |d| + 1 further on in `d + "/" + y`. */
  lemma JoinTail(d: string, y: string)
    ensures forall j :: 0 <= j < |y| ==> (d + [Sep] + y)[|d| + 1 + j] == y[j]
  {
  }

  /** The last separator of `d + "/" + y`: the last one of `y`, or the joining one when `y` has none. */
  lemma LastIndexOfJoin(d: string, y: string)
    ensures LastIndexOf(d + [Sep] + y, Sep)
         == if Sep in y then |d| + 1 + LastIndexOf(y, Sep) else |d|
  {
    var s := d + [Sep] + y;
    JoinTail(d, y);
    var l := LastIndexOf(y, Sep);
    forall i | |d| + 1 + l < i < |s| ensures s[i] != Sep {
      assert s[i] == y[i - |d| - 1];
    }
    LastIndexOfIs(s, Sep, |d| + 1 + l);
  }

  /** Appending text without a separator leaves the last separator where it was. */
  lemma LastIndexOfAppendFree(y: string, z: string)
    requires Sep !in z
    ensures LastIndexOf(y + z, Sep) == LastIndexOf(y, Sep)
  {
    var k := LastIndexOf(y, Sep);
    forall i | k < i < |y + z| ensures (y + z)[i] != Sep {
      if i >= |y| {
        assert (y + z)[i] == z[i - |y|];
      }
    }
    LastIndexOfIs(y + z, Sep, k);
  }

  /**
   * No document path's metadata file is ever another (or the same) path's
   * export file, whatever the name: after its last separator a metadata path
   * has exactly |MetadataSuffix| more characters than an export path.
   */
  lemma MetadataNeverExportPath(root: string, p: string, q: string, name: string)
    requires RepoSep in p && RepoSep in q
    ensures MetadataPath(root, p, name) != ExportPath(root, q, name)
  {
    var dp, dq := ExportDir(root, p), ExportDir(root, q);
    var m, e := MetadataPath(root, p, name), ExportPath(root, q, name);
    assert Sep !in MetadataSuffix;
    assert m == dp + [Sep] + (name + MetadataSuffix);
    LastIndexOfJoin(dp, name + MetadataSuffix);
    LastIndexOfJoin(dq, name);
    LastIndexOfAppendFree(name, MetadataSuffix);
    assert Sep in name + MetadataSuffix <==> Sep in name;
    assert |m| - LastIndexOf(m, Sep) == |e| - LastIndexOf(e, Sep) + |MetadataSuffix|;
  }

  /** Two paths of one document share an export file exactly when they share a parent folder. */
  lemma ExportPathsAgree(root: string, p: string, q: string, name: string)
    requires RepoSep in p && RepoSep in q
    ensures ExportPath(root, p, name) == ExportPath(root, q, name) <==> ParentOf(p) == ParentOf(q)
    ensures MetadataPath(root, p, name) == MetadataPath(root, q, name) <==> ParentOf(p) == ParentOf(q)
  {
    var n := Normalised(root);
    var ep, eq := ExportPath(root, p, name), ExportPath(root, q, name);
    if ep == eq {
      assert ep[|n|..|ep| - |name| - 1] == ParentOf(p);
      assert eq[|n|..|eq| - |name| - 1] == ParentOf(q);
    }
    var mp, mq := MetadataPath(root, p, name), MetadataPath(root, q, name);
    if mp == mq {
      assert mp[..|mp| - |MetadataSuffix|] == ep;
      assert mq[..|mq| - |MetadataSuffix|] == eq;
    }
  }

  /** The directories mkdirs creates for one path form a closed family by themselves. */
  lemma DirChainClosed(d: string)
    ensures AncestorClosed(DirChain(d))
  {
    forall a | a in DirChain(d) ensures DirChain(a) <= DirChain(d) {
      forall x | x in DirChain(a) ensures x in DirChain(d) {
        var i := |x|;
        assert x == d[..i];
        assert i == |d| || d[i] == Sep;
      }
    }
  }

  /** Adding a path's directory chain keeps a closed set of directories closed. */
  lemma AddChainClosed(dirs: set<string>, d: string)
    requires AncestorClosed(dirs)
    ensures AncestorClosed(dirs + DirChain(d))
  {
    DirChainClosed(d);
  }
}
