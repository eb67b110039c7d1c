/**
 Local backup bundles and their restore, at the level of archive entries. Compression is an
 identity pair; the database dump is one opaque content.
 */
module Backup {
  import opened Common
  import opened Seqs
  import opened Paths

  /** What stands at a path below the media directory; `Special` is anything that is neither folder nor regular file. */
  datatype Node = Dir | File(content: string) | Special

  type Tree = map<Path, Node>

  datatype Entry = Entry(name: string, content: string)

  const DATABASE := "database.sql.gz"
  const MANIFEST := "manifest.json"
  const MEDIA := "media/"

  // ---- Backup ----

  /** Every node has a valid path whose parent is the root or a folder. */
  ghost predicate WellFormed(t: Tree) {
    forall p :: p in t ==> ValidPath(p) && (|p| > 1 ==> p[..|p| - 1] in t && t[p[..|p| - 1]].Dir?)
  }

  /** An order in which a walk may visit the tree. */
  ghost predicate Visits(walk: seq<Path>, t: Tree) {
    Distinct(walk) && forall p :: p in walk <==> p in t
  }

  ghost predicate StaysIn(walk: seq<Path>, t: Tree) {
    forall i :: 0 <= i < |walk| ==> walk[i] in t && walk[i] != []
  }

  function MediaEntry(p: Path, content: string): Entry
    requires p != []
  {
    Entry(MEDIA + Join(p), content)
  }

  /** The regular files among the visited paths. */
  function MediaEntries(t: Tree, walk: seq<Path>): seq<Entry>
    requires StaysIn(walk, t)
  {
    if walk == [] then []
    else
      var p := walk[|walk| - 1];
      MediaEntries(t, walk[..|walk| - 1]) + if t[p].File? then [MediaEntry(p, t[p].content)] else []
  }

  function Bundle(dump: string, media: seq<Entry>, manifest: string): seq<Entry> {
    [Entry(DATABASE, dump)] + media + [Entry(MANIFEST, manifest)]
  }

  method WriteMediaTree(archive: seq<Entry>, t: Tree, walk: seq<Path>) returns (r: seq<Entry>)
    requires StaysIn(walk, t)
    ensures r == archive + MediaEntries(t, walk)
  {
    r := archive;
    for i := 0 to |walk|
      invariant r == archive + MediaEntries(t, walk[..i])
    {
      assert walk[..i + 1][..i] == walk[..i];
      if t[walk[i]].File? {
        r := r + [Entry(MEDIA + Join(walk[i]), t[walk[i]].content)];
      }
    }
    assert walk[..|walk|] == walk;
  }

  /** `media` is the tree at the media path and a walk of it, when the path is set and exists. */
  method BackupLocal(dump: string, media: Option<(Tree, seq<Path>)>, manifest: string) returns (archive: seq<Entry>)
    requires media.Some? ==> StaysIn(media.value.1, media.value.0)
    ensures archive == Bundle(dump, if media.None? then [] else MediaEntries(media.value.0, media.value.1), manifest)
  {
    archive := [Entry(DATABASE, dump)];
    if media.Some? {
      archive := WriteMediaTree(archive, media.value.0, media.value.1);
    }
    archive := archive + [Entry(MANIFEST, manifest)];
  }

  // ---- Restore ----

  /** Whether restoring still goes on, the media directory, and the dumps fed to the database. */
  datatype Progress = Progress(ok: bool, nodes: Tree, dumps: seq<string>)

  /** Creates the folder and its missing parents; an existing non-folder stops it. */
  function MakeDirs(nodes: Tree, dir: Path): (bool, Tree) {
    if dir == [] then (true, nodes)
    else if dir in nodes then (nodes[dir].Dir?, nodes)
    else
      var (ok, n) := MakeDirs(nodes, dir[..|dir| - 1]);
      if ok then (true, n[dir := Dir]) else (false, n)
  }

  function WriteFile(s: Progress, p: Path, content: string): Progress {
    if p == [] then s.(ok := false)
    else
      var (made, n) := MakeDirs(s.nodes, p[..|p| - 1]);
      if !made || (p in n && !n[p].File?) then Progress(false, n, s.dumps)
      else Progress(true, n[p := File(content)], s.dumps)
  }

  predicate IsMedia(name: string) {
    MEDIA <= name
  }

  /** One entry; `toMedia` says whether a media path is given and `accepts` whether the database takes the dump. */
  function RestoreEntry(s: Progress, e: Entry, toMedia: bool, accepts: bool): Progress {
    if e.name == DATABASE then
      if accepts then s.(dumps := s.dumps + [e.content]) else s.(ok := false)
    else if IsMedia(e.name) then
      var rel := e.name[|MEDIA|..];
      if !toMedia || rel == "" then s
      else if HasDotDot(rel) then s.(ok := false)
      else WriteFile(s, Clean(rel), e.content)
    else s
  }

  function RestoreAll(s: Progress, entries: seq<Entry>, toMedia: bool, accepts: bool): Progress {
    if entries == [] then s
    else
      var before := RestoreAll(s, entries[..|entries| - 1], toMedia, accepts);
      if before.ok then RestoreEntry(before, entries[|entries| - 1], toMedia, accepts) else before
  }

  /** The machine a bundle is restored on. */
  class Host {
    var nodes: Tree
    var dumps: seq<string>

    constructor (nodes: Tree)
      ensures this.nodes == nodes && dumps == []
    {
      this.nodes := nodes;
      this.dumps := [];
    }

    method MkdirAll(dir: Path) returns (ok: bool)
      modifies this`nodes
      ensures (ok, nodes) == MakeDirs(old(nodes), dir)
      decreases |dir|
    {
      if dir == [] {
        return true;
      }
      if dir in nodes {
        return nodes[dir].Dir?;
      }
      ok := MkdirAll(dir[..|dir| - 1]);
      if ok {
        nodes := nodes[dir := Dir];
      }
    }

    method Extract(p: Path, content: string) returns (ok: bool)
      modifies this`nodes
      ensures Progress(ok, nodes, dumps) == WriteFile(Progress(true, old(nodes), dumps), p, content)
    {
      if p == [] {
        return false;
      }
      ok := MkdirAll(p[..|p| - 1]);
      if !ok {
        return;
      }
      if p in nodes && !nodes[p].File? {
        return false;
      }
      nodes := nodes[p := File(content)];
    }

    /** One entry of the bundle; false stops the restore. */
    method Restore(e: Entry, toMedia: bool, accepts: bool) returns (ok: bool)
      modifies this
      ensures Progress(ok, nodes, dumps) == RestoreEntry(Progress(true, old(nodes), old(dumps)), e, toMedia, accepts)
    {
      ok := true;
      if e.name == DATABASE {
        if !accepts {
          return false;
        }
        dumps := dumps + [e.content];
      } else if IsMedia(e.name) {
        var rel := e.name[|MEDIA|..];
        if !toMedia || rel == "" {
          return;
        }
        if HasDotDot(rel) {
          return false;
        }
        ok := Extract(Clean(rel), e.content);
      }
    }

    method RestoreLocal(bundle: seq<Entry>, toMedia: bool, accepts: bool) returns (ok: bool)
      modifies this
      ensures Progress(ok, nodes, dumps) == RestoreAll(Progress(true, old(nodes), old(dumps)), bundle, toMedia, accepts)
    {
      ghost var start := Progress(true, nodes, dumps);
      ok := true;
      for i := 0 to |bundle|
        invariant ok && Progress(true, nodes, dumps) == RestoreAll(start, bundle[..i], toMedia, accepts)
      {
        assert bundle[..i + 1][..i] == bundle[..i];
        ok := Restore(bundle[i], toMedia, accepts);
        if !ok {
          StoppedStays(start, bundle, i + 1, toMedia, accepts);
          return;
        }
      }
      assert bundle[..|bundle|] == bundle;
    }
  }

  lemma {:induction false} StoppedStays(s: Progress, entries: seq<Entry>, i: nat, toMedia: bool, accepts: bool)
    requires i <= |entries| && !RestoreAll(s, entries[..i], toMedia, accepts).ok
    ensures RestoreAll(s, entries, toMedia, accepts) == RestoreAll(s, entries[..i], toMedia, accepts)
  {
    if i == |entries| {
      assert entries[..i] == entries;
    } else {
      assert entries[..|entries| - 1][..i] == entries[..i];
      StoppedStays(s, entries[..|entries| - 1], i, toMedia, accepts);
    }
  }
}
