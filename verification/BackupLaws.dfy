/** Restoring a bundle: when it succeeds, and exactly what it leaves. */
module BackupLaws {
  import opened Common
  import opened Seqs
  import opened Paths
  import opened Backup

  function Look(t: Tree, p: Path): Option<Node> {
    if p in t then Some(t[p]) else None
  }

  predicate Below(q: Path, p: Path) {
    q != [] && q < p
  }

  // ---- Folders ----

  /** Nothing at `dir` or above it is other than a folder. */
  ghost predicate Open(nodes: Tree, dir: Path) {
    forall q :: q != [] && q <= dir && q in nodes ==> nodes[q].Dir?
  }

  /** Folders reach down: below something that is not a folder there is nothing. */
  ghost predicate Nested(nodes: Tree) {
    forall p, q :: p in nodes && Below(q, p) ==> q in nodes && nodes[q].Dir?
  }

  lemma PrefixOfParent(q: Path, dir: Path)
    requires dir != []
    ensures q <= dir <==> q == dir || q <= dir[..|dir| - 1]
    ensures Below(q, dir) <==> q != [] && q <= dir[..|dir| - 1]
  {
  }

  /** Creating a folder succeeds exactly when nothing is in the way, and then adds the missing folders only. */
  lemma {:induction false} MakeDirsIff(nodes: Tree, dir: Path)
    requires Nested(nodes)
    ensures var (ok, n) := MakeDirs(nodes, dir);
      && (ok <==> Open(nodes, dir))
      && (ok ==> forall q :: Look(n, q) == if q != [] && q <= dir then Some(Dir) else Look(nodes, q))
    decreases |dir|
  {
    if dir == [] {
    } else if dir in nodes {
      forall q | q != [] && q <= dir && q != dir ensures q in nodes && nodes[q].Dir? {
        PrefixOfParent(q, dir);
        assert Below(q, dir);
      }
    } else {
      var parent := dir[..|dir| - 1];
      MakeDirsIff(nodes, parent);
      OpenAbove(nodes, dir);
      var (ok, n) := MakeDirs(nodes, parent);
      if ok {
        var after := MakeDirs(nodes, dir).1;
        assert after == n[dir := Dir];
        forall q ensures Look(after, q) == if q != [] && q <= dir then Some(Dir) else Look(nodes, q) {
          PrefixOfParent(q, dir);
          assert Look(n, q) == if q != [] && q <= parent then Some(Dir) else Look(nodes, q);
        }
      }
    }
  }

  lemma OpenAbove(nodes: Tree, dir: Path)
    requires dir != []
    ensures Open(nodes, dir) <==> Open(nodes, dir[..|dir| - 1]) && (dir in nodes ==> nodes[dir].Dir?)
  {
    forall q | q != [] && q in nodes ensures q <= dir <==> q == dir || q <= dir[..|dir| - 1] {
      PrefixOfParent(q, dir);
    }
    if Open(nodes, dir[..|dir| - 1]) && (dir in nodes ==> nodes[dir].Dir?) {
      forall q | q != [] && q <= dir && q in nodes ensures nodes[q].Dir? {
        PrefixOfParent(q, dir);
      }
    }
    if Open(nodes, dir) {
      forall q | q != [] && q <= dir[..|dir| - 1] && q in nodes ensures nodes[q].Dir? {
        PrefixOfParent(q, dir);
      }
    }
  }

  // ---- Files ----

  /** What a path holds after the regular files among `done` were written over `base`. */
  ghost function Overlaid(base: Tree, t: Tree, done: seq<Path>, q: Path): Option<Node>
    requires StaysIn(done, t)
  {
    if q in done && q in t && t[q].File? then Some(t[q])
    else if exists p :: p in done && IsFile(t, p) && Below(q, p) then Some(Dir)
    else Look(base, q)
  }

  predicate IsFile(t: Tree, p: Path) {
    p in t && t[p].File?
  }

  /** The file can be written over `base`: nothing but folders above it, and no folder or special node in its place. */
  ghost predicate Fits(base: Tree, p: Path)
    requires p != []
  {
    Open(base, p[..|p| - 1]) && (p in base ==> base[p].File?)
  }

  ghost predicate IsOverlay(nodes: Tree, base: Tree, t: Tree, done: seq<Path>)
    requires StaysIn(done, t)
  {
    forall q :: Look(nodes, q) == Overlaid(base, t, done, q)
  }

  lemma {:induction false} FilesHaveFoldersAbove(t: Tree, p: Path, q: Path)
    requires WellFormed(t) && p in t && Below(q, p)
    ensures q in t && t[q].Dir?
    decreases |p|
  {
    PrefixOfParent(q, p);
    var parent := p[..|p| - 1];
    if q != parent {
      FilesHaveFoldersAbove(t, parent, q);
    }
  }

  /** Writing a file succeeds exactly when it fits, and touches nothing but it and the folders above it. */
  lemma WriteFileIff(s: Progress, p: Path, content: string)
    requires s.ok && p != [] && Nested(s.nodes)
    ensures var r := WriteFile(s, p, content);
      && (r.ok <==> Fits(s.nodes, p))
      && r.dumps == s.dumps
      && (r.ok ==> forall q ::
            Look(r.nodes, q) == if q == p then Some(File(content)) else if Below(q, p) then Some(Dir) else Look(s.nodes, q))
  {
    var parent := p[..|p| - 1];
    MakeDirsIff(s.nodes, parent);
    var (made, n) := MakeDirs(s.nodes, parent);
    if made {
      assert Look(n, p) == Look(s.nodes, p);
      forall q ensures Look(n, q) == if Below(q, p) then Some(Dir) else Look(s.nodes, q) {
        PrefixOfParent(q, p);
      }
    }
  }

  lemma WriteFileStaysNested(before: Tree, after: Tree, p: Path, content: string)
    requires Nested(before) && p != [] && (p in before ==> before[p].File?)
    requires forall q ::
      Look(after, q) == if q == p then Some(File(content)) else if Below(q, p) then Some(Dir) else Look(before, q)
    ensures Nested(after)
  {
    forall r, q | r in after && Below(q, r) ensures q in after && after[q].Dir? {
      assert Look(after, r).Some? && Look(after, q) == Look(after, q);
      if r == p || Below(r, p) {
        assert Below(q, p) && q != p;
      } else {
        assert r in before && Below(q, r);
        assert before[q].Dir?;
      }
    }
  }

  // ---- The media entries ----

  ghost predicate AllFit(base: Tree, t: Tree, done: seq<Path>) {
    forall p :: p in done && p != [] && IsFile(t, p) ==> Fits(base, p)
  }

  lemma FitsLater(nodes: Tree, base: Tree, t: Tree, done: seq<Path>, p: Path)
    requires WellFormed(t) && StaysIn(done, t) && IsOverlay(nodes, base, t, done) && AllFit(base, t, done)
    requires p != [] && IsFile(t, p) && p !in done
    ensures Fits(nodes, p) <==> Fits(base, p)
  {
    forall q | Below(q, p) ensures (q in nodes ==> nodes[q].Dir?) <==> (q in base ==> base[q].Dir?) {
      FilesHaveFoldersAbove(t, p, q);
      assert Look(nodes, q) == Overlaid(base, t, done, q);
      if d :| d in done && IsFile(t, d) && Below(q, d) {
        assert Fits(base, d);
        PrefixOfParent(q, d);
      }
    }
    forall q ensures Below(q, p) <==> q != [] && q <= p[..|p| - 1] {
      PrefixOfParent(q, p);
    }
    assert Look(nodes, p) == Overlaid(base, t, done, p);
    forall d | d in done && IsFile(t, d) ensures !Below(p, d) {
      if Below(p, d) {
        FilesHaveFoldersAbove(t, d, p);
        assert false;
      }
    }
  }

  lemma OverlayGrows(nodes: Tree, after: Tree, base: Tree, t: Tree, done: seq<Path>, p: Path)
    requires WellFormed(t) && StaysIn(done, t) && IsOverlay(nodes, base, t, done) && p in t && p != []
    requires if IsFile(t, p)
      then forall q :: Look(after, q) == if q == p then Some(t[p]) else if Below(q, p) then Some(Dir) else Look(nodes, q)
      else after == nodes
    ensures IsOverlay(after, base, t, done + [p])
  {
    forall q ensures Look(after, q) == Overlaid(base, t, done + [p], q) {
      assert Look(nodes, q) == Overlaid(base, t, done, q);
      if IsFile(t, p) && Below(q, p) {
        FilesHaveFoldersAbove(t, p, q);
        assert p in done + [p];
      } else if d :| d in done && IsFile(t, d) && Below(q, d) {
        assert d in done + [p];
      }
    }
  }

  lemma MediaEntryIsWritten(s: Progress, p: Path, content: string)
    requires ValidPath(p)
    ensures RestoreEntry(s, MediaEntry(p, content), true, true)
      == if HasDotDot(Join(p)) then s.(ok := false) else WriteFile(s, p, content)
  {
    CleanJoin(p);
    var name := MEDIA + Join(p);
    assert name[0] != DATABASE[0];
    assert name[|MEDIA|..] == Join(p);
  }

  /** Every regular file of the walk can be restored over `base`. */
  ghost predicate Restorable(base: Tree, t: Tree, walk: seq<Path>) {
    forall p :: p in walk && p != [] && IsFile(t, p) ==> !HasDotDot(Join(p)) && Fits(base, p)
  }

  function Start(base: Tree): Progress {
    Progress(true, base, [])
  }

  /** The database entry followed by the media entries of a walk. */
  function Body(dump: string, t: Tree, walk: seq<Path>): seq<Entry>
    requires StaysIn(walk, t)
  {
    [Entry(DATABASE, dump)] + MediaEntries(t, walk)
  }

  lemma BodyStep(dump: string, t: Tree, walk: seq<Path>)
    requires StaysIn(walk, t) && walk != []
    ensures var (init, p) := (walk[..|walk| - 1], walk[|walk| - 1]);
      && (IsFile(t, p) ==>
            var body := Body(dump, t, walk);
            && body != []
            && body[..|body| - 1] == Body(dump, t, init)
            && body[|body| - 1] == MediaEntry(p, t[p].content))
      && (!IsFile(t, p) ==> Body(dump, t, walk) == Body(dump, t, init))
  {
  }

  /** After any part of the walk: restored so far exactly if all of it was restorable, and then an overlay. */
  lemma {:induction false} BodyRestores(base: Tree, t: Tree, walk: seq<Path>, dump: string)
    requires WellFormed(t) && Nested(base) && StaysIn(walk, t) && Distinct(walk)
    ensures var s := RestoreAll(Start(base), Body(dump, t, walk), true, true);
      && (s.ok <==> Restorable(base, t, walk))
      && s.dumps == [dump]
      && (s.ok ==> Nested(s.nodes) && IsOverlay(s.nodes, base, t, walk))
  {
    if walk == [] {
      DumpFirst(base, t, dump);
    } else {
      var init, p := walk[..|walk| - 1], walk[|walk| - 1];
      var s := RestoreAll(Start(base), Body(dump, t, init), true, true);
      assert walk == init + [p];
      BodyRestores(base, t, init, dump);
      BodyStep(dump, t, walk);
      RestorableGrows(base, t, init, p);
      if s.ok && IsFile(t, p) {
        FileRestores(s, base, t, init, p);
        assert RestoreAll(Start(base), Body(dump, t, walk), true, true) == RestoreEntry(s, MediaEntry(p, t[p].content), true, true);
      } else if s.ok {
        OverlayGrows(s.nodes, s.nodes, base, t, init, p);
      }
    }
  }

  lemma DumpFirst(base: Tree, t: Tree, dump: string)
    ensures RestoreAll(Start(base), Body(dump, t, []), true, true) == Progress(true, base, [dump])
    ensures IsOverlay(base, base, t, [])
  {
  }

  lemma RestorableGrows(base: Tree, t: Tree, init: seq<Path>, p: Path)
    requires p != []
    ensures Restorable(base, t, init + [p])
      <==> Restorable(base, t, init) && (IsFile(t, p) ==> !HasDotDot(Join(p)) && Fits(base, p))
  {
  }

  lemma FileRestores(s: Progress, base: Tree, t: Tree, init: seq<Path>, p: Path)
    requires WellFormed(t) && StaysIn(init, t) && p != [] && IsFile(t, p) && p !in init
    requires s.ok && Nested(s.nodes) && IsOverlay(s.nodes, base, t, init) && Restorable(base, t, init)
    ensures var r := RestoreEntry(s, MediaEntry(p, t[p].content), true, true);
      && (r.ok <==> !HasDotDot(Join(p)) && Fits(base, p))
      && r.dumps == s.dumps
      && (r.ok ==> Nested(r.nodes) && IsOverlay(r.nodes, base, t, init + [p]))
  {
    var r := WriteFile(s, p, t[p].content);
    MediaEntryIsWritten(s, p, t[p].content);
    FitsLater(s.nodes, base, t, init, p);
    WriteFileIff(s, p, t[p].content);
    if r.ok {
      WriteFileStaysNested(s.nodes, r.nodes, p, t[p].content);
      OverlayGrows(s.nodes, r.nodes, base, t, init, p);
    }
  }

  lemma ManifestLast(s: Progress, body: seq<Entry>, manifest: string)
    ensures RestoreAll(s, body + [Entry(MANIFEST, manifest)], true, true) == RestoreAll(s, body, true, true)
  {
    assert (body + [Entry(MANIFEST, manifest)])[..|body|] == body;
    assert MANIFEST[0] != DATABASE[0] && MANIFEST[1] != MEDIA[1];
  }

  // ---- The laws ----

  ghost predicate HoldsFileBelow(t: Tree, q: Path) {
    exists p :: IsFile(t, p) && Below(q, p)
  }

  /**
   Restoring a bundle over a media directory succeeds if and only if every regular file of the tree has no
   ".." in its path, only folders above it and no folder in its place. Then the directory is the old one
   with the regular files, and the folders above them, laid over it; whatever happens to the media, the
   dump has been fed to the database exactly once.
   */
  lemma RestoreOverlays(base: Tree, t: Tree, walk: seq<Path>, dump: string, manifest: string)
    requires WellFormed(t) && Nested(base) && Visits(walk, t) && StaysIn(walk, t)
    ensures var r := RestoreAll(Start(base), Bundle(dump, MediaEntries(t, walk), manifest), true, true);
      && (r.ok <==> forall p :: p != [] && IsFile(t, p) ==> !HasDotDot(Join(p)) && Fits(base, p))
      && r.dumps == [dump]
      && (r.ok ==> forall q ::
            Look(r.nodes, q) == if IsFile(t, q) then Some(t[q]) else if HoldsFileBelow(t, q) then Some(Dir) else Look(base, q))
  {
    BodyRestores(base, t, walk, dump);
    ManifestLast(Start(base), Body(dump, t, walk), manifest);
    var r := RestoreAll(Start(base), Body(dump, t, walk), true, true);
    if r.ok {
      forall q ensures Look(r.nodes, q)
          == if IsFile(t, q) then Some(t[q]) else if HoldsFileBelow(t, q) then Some(Dir) else Look(base, q)
      {
        assert Look(r.nodes, q) == Overlaid(base, t, walk, q);
        if HoldsFileBelow(t, q) {
          var p :| IsFile(t, p) && Below(q, p);
          assert p in walk;
        }
      }
    }
  }

  /** Nothing but regular files and folders that lead to one. */
  ghost predicate OnlyFilesAndTheirFolders(t: Tree) {
    forall p :: p in t ==> IsFile(t, p) || (t[p].Dir? && HoldsFileBelow(t, p))
  }

  /**
   Round trip into an empty directory: it succeeds if and only if no file or folder on the way to a
   regular file has ".." in its name, and the result is the original tree if and only if that held
   nothing but regular files and folders leading to one.
   */
  lemma RoundTrip(t: Tree, walk: seq<Path>, dump: string, manifest: string)
    requires WellFormed(t) && Visits(walk, t) && StaysIn(walk, t)
    ensures var r := RestoreAll(Start(map[]), Bundle(dump, MediaEntries(t, walk), manifest), true, true);
      && (r.ok <==> forall p, name :: IsFile(t, p) && name in p ==> !HasDotDot(name))
      && r.dumps == [dump]
      && (r.ok ==> (r.nodes == t <==> OnlyFilesAndTheirFolders(t)))
  {
    RestoreOverlays(map[], t, walk, dump, manifest);
    var r := RestoreAll(Start(map[]), Bundle(dump, MediaEntries(t, walk), manifest), true, true);
    forall p | IsFile(t, p) ensures p != [] && (HasDotDot(Join(p)) <==> exists name :: name in p && HasDotDot(name)) {
      DotDotIsInAName(p);
    }
    if r.ok {
      SameAsOriginalIff(t, r.nodes);
    }
  }

  lemma SameAsOriginalIff(t: Tree, nodes: Tree)
    requires WellFormed(t)
    requires forall q ::
      Look(nodes, q) == if IsFile(t, q) then Some(t[q]) else if HoldsFileBelow(t, q) then Some(Dir) else None
    ensures nodes == t <==> OnlyFilesAndTheirFolders(t)
  {
    forall q | HoldsFileBelow(t, q) ensures q in t && t[q].Dir? {
      var p :| IsFile(t, p) && Below(q, p);
      FilesHaveFoldersAbove(t, p, q);
    }
    if OnlyFilesAndTheirFolders(t) {
      forall q ensures Look(nodes, q) == Look(t, q) {
      }
      SameLooksSameTree(nodes, t);
    }
    if nodes == t {
      forall p | p in t ensures IsFile(t, p) || (t[p].Dir? && HoldsFileBelow(t, p)) {
        assert Look(nodes, p) == Some(t[p]);
      }
    }
  }

  lemma SameLooksSameTree(a: Tree, b: Tree)
    requires forall q :: Look(a, q) == Look(b, q)
    ensures a == b
  {
    forall q ensures q in a <==> q in b {
      assert Look(a, q) == Look(b, q);
    }
    forall q | q in a ensures a[q] == b[q] {
      assert Look(a, q) == Look(b, q);
    }
  }

  /** Without a media path only the database is restored, whatever the names in the bundle. */
  lemma DatabaseOnly(base: Tree, dump: string, media: seq<Entry>, manifest: string)
    requires forall e :: e in media ==> IsMedia(e.name)
    ensures RestoreAll(Start(base), Bundle(dump, media, manifest), false, true) == Progress(true, base, [dump])
  {
    MediaIsSkipped(base, dump, media);
    var body := [Entry(DATABASE, dump)] + media;
    assert (body + [Entry(MANIFEST, manifest)])[..|body|] == body;
    assert MANIFEST[0] != DATABASE[0] && MANIFEST[1] != MEDIA[1];
  }

  lemma {:induction false} MediaIsSkipped(base: Tree, dump: string, media: seq<Entry>)
    requires forall e :: e in media ==> IsMedia(e.name)
    ensures RestoreAll(Start(base), [Entry(DATABASE, dump)] + media, false, true) == Progress(true, base, [dump])
  {
    var entries := [Entry(DATABASE, dump)] + media;
    if media == [] {
      assert entries == [Entry(DATABASE, dump)] && entries[..0] == [];
    } else {
      MediaIsSkipped(base, dump, media[..|media| - 1]);
      assert entries[..|entries| - 1] == [Entry(DATABASE, dump)] + media[..|media| - 1];
      assert media[|media| - 1] in media;
      assert media[|media| - 1].name[0] == MEDIA[0] && MEDIA[0] != DATABASE[0];
    }
  }

  lemma {:induction false} MediaEntriesAreMedia(t: Tree, walk: seq<Path>)
    requires StaysIn(walk, t)
    ensures forall e :: e in MediaEntries(t, walk) ==> IsMedia(e.name)
  {
    if walk != [] {
      MediaEntriesAreMedia(t, walk[..|walk| - 1]);
    }
  }

  /** So a backup taken with media can be restored on a host without a media path, for its database alone. */
  lemma OwnBundleDatabaseOnly(base: Tree, dump: string, t: Tree, walk: seq<Path>, manifest: string)
    requires StaysIn(walk, t)
    ensures RestoreAll(Start(base), Bundle(dump, MediaEntries(t, walk), manifest), false, true) == Progress(true, base, [dump])
  {
    MediaEntriesAreMedia(t, walk);
    DatabaseOnly(base, dump, MediaEntries(t, walk), manifest);
  }

  /** A file with two dots in a row in its name is backed up but cannot be restored. */
  lemma TwoDotsCannotBeRestored()
    ensures var t: Tree := map[["v1..2.png"] := File("x")];
      && WellFormed(t)
      && !RestoreAll(Start(map[]), Bundle("", MediaEntries(t, [["v1..2.png"]]), ""), true, true).ok
  {
    var name := "v1..2.png";
    var t: Tree := map[[name] := File("x")];
    RoundTrip(t, [[name]], "", "");
    assert IsFile(t, [name]) && name in [name] && name[2] == '.' && name[3] == '.';
  }

  /** A database that refuses the dump stops the restore before any file is written. */
  lemma {:induction false} RefusedDumpStops(base: Tree, dump: string, media: seq<Entry>, manifest: string, toMedia: bool)
    ensures RestoreAll(Start(base), Bundle(dump, media, manifest), toMedia, false) == Progress(false, base, [])
  {
    var bundle := Bundle(dump, media, manifest);
    assert bundle[..1] == [Entry(DATABASE, dump)] && bundle[..1][..0] == [];
    StoppedStays(Start(base), bundle, 1, toMedia, false);
  }

  /** Entries with names of neither kind are passed over, wherever they stand in a bundle. */
  lemma {:induction false} ForeignEntriesAreIgnored(s: Progress, a: seq<Entry>, e: Entry, b: seq<Entry>, toMedia: bool, accepts: bool)
    requires e.name != "database.sql.gz" && (!("media/" <= e.name) || e.name == "media/")
    ensures RestoreAll(s, a + [e] + b, toMedia, accepts) == RestoreAll(s, a + b, toMedia, accepts)
  {
    if b == [] {
      assert a + [e] + b == a + [e] && (a + [e])[..|a|] == a && a + b == a;
    } else {
      var init := b[..|b| - 1];
      assert (a + [e] + b)[..|a + [e] + b| - 1] == a + [e] + init && (a + b)[..|a + b| - 1] == a + init;
      ForeignEntriesAreIgnored(s, a, e, init, toMedia, accepts);
    }
  }

  /** The names in a bundle: the dump first, the manifest last, and the files of the walk below "media/" in between. */
  lemma {:induction false} BundleNames(t: Tree, walk: seq<Path>, dump: string, manifest: string)
    requires StaysIn(walk, t)
    ensures var bundle := Bundle(dump, MediaEntries(t, walk), manifest);
      && |bundle| >= 2
      && bundle[0] == Entry("database.sql.gz", dump) && bundle[|bundle| - 1] == Entry("manifest.json", manifest)
      && forall i :: 0 < i < |bundle| - 1 ==> IsEntryOfWalk(bundle[i], t, walk)
  {
    if walk != [] {
      var init := walk[..|walk| - 1];
      BundleNames(t, init, dump, manifest);
      var before, bundle := Bundle(dump, MediaEntries(t, init), manifest), Bundle(dump, MediaEntries(t, walk), manifest);
      forall i | 0 < i < |bundle| - 1 ensures IsEntryOfWalk(bundle[i], t, walk) {
        if i < |before| - 1 {
          assert bundle[i] == before[i] && IsEntryOfWalk(before[i], t, init);
          var k :| 0 <= k < |init| && IsFile(t, init[k]) && before[i] == Entry("media/" + Join(init[k]), t[init[k]].content);
          assert walk[k] == init[k];
        } else {
          assert walk[|walk| - 1] == walk[|init|];
        }
      }
    }
  }

  ghost predicate IsEntryOfWalk(e: Entry, t: Tree, walk: seq<Path>)
    requires StaysIn(walk, t)
  {
    exists k :: 0 <= k < |walk| && IsFile(t, walk[k]) && e == Entry("media/" + Join(walk[k]), t[walk[k]].content)
  }

  /** Empty components and single dots in a name do not matter: the file goes where the other components say. */
  lemma ReservedComponentsDoNotMatter(s: Progress, a: string, skipped: string, b: string, content: string)
    requires skipped == "" || skipped == "."
    requires !HasDotDot(a + "/" + b) && !HasDotDot(a + "/" + skipped + "/" + b)
    ensures RestoreEntry(s, Entry("media/" + (a + "/" + skipped + "/" + b), content), true, true)
         == RestoreEntry(s, Entry("media/" + (a + "/" + b), content), true, true)
  {
    var long, short := a + "/" + skipped + "/" + b, a + "/" + b;
    CleanSkips(a, skipped, b);
    assert (MEDIA + long)[|MEDIA|..] == long && (MEDIA + short)[|MEDIA|..] == short;
    assert (MEDIA + long)[0] != DATABASE[0] && (MEDIA + short)[0] != DATABASE[0];
  }

  /** A media entry that names nothing but the media directory itself stops the restore with nothing written. */
  lemma NamelessEntryFails(s: Progress, rel: string, content: string)
    requires rel != "" && Clean(rel) == []
    ensures RestoreEntry(s, Entry("media/" + rel, content), true, true) == s.(ok := false)
    ensures Clean(".") == [] && Clean("/.") == []
  {
    assert (MEDIA + rel)[|MEDIA|..] == rel && (MEDIA + rel)[0] != DATABASE[0];
    SplitName(".", "");
    FilterOne(".", Real);
    CleanParts("", ".");
    SplitName("", "");
    FilterOne("", Real);
    assert "" + "/" + "." == "/.";
  }

  /** The dumps in a list of entries, in order. */
  function DumpsIn(entries: seq<Entry>): seq<string> {
    if entries == [] then []
    else
      var e := entries[|entries| - 1];
      DumpsIn(entries[..|entries| - 1]) + if e.name == "database.sql.gz" then [e.content] else []
  }

  /** A restore that succeeds has fed every dump there is to the database, in order and once each. */
  lemma {:induction false} DumpsAreFedInOrder(s: Progress, entries: seq<Entry>, toMedia: bool, accepts: bool)
    ensures var r := RestoreAll(s, entries, toMedia, accepts);
      && (r.ok && (s.ok || entries != []) ==> r.dumps == s.dumps + DumpsIn(entries))
      && (r.ok && DumpsIn(entries) != [] ==> accepts)
  {
    if entries == [] {
      assert s.dumps + [] == s.dumps;
    } else {
      var init, e := entries[..|entries| - 1], entries[|entries| - 1];
      var before := RestoreAll(s, init, toMedia, accepts);
      DumpsAreFedInOrder(s, init, toMedia, accepts);
      assert init == [] ==> before == s && s.dumps + [] == s.dumps;
      if before.ok && e.name == DATABASE {
        assert s.dumps + DumpsIn(init) + [e.content] == s.dumps + (DumpsIn(init) + [e.content]);
      } else {
        assert DumpsIn(init) + [] == DumpsIn(init);
      }
    }
  }

  lemma FailedFoldersAreNotMade(nodes: Tree, dir: Path)
    requires Nested(nodes)
    ensures !MakeDirs(nodes, dir).0 ==> MakeDirs(nodes, dir).1 == nodes
    decreases |dir|
  {
    if dir != [] && dir !in nodes {
      FailedFoldersAreNotMade(nodes, dir[..|dir| - 1]);
    }
  }

  /** An entry that fails leaves the directory and the database as they were. */
  lemma FailedEntryChangesNothing(s: Progress, e: Entry, toMedia: bool, accepts: bool)
    requires s.ok && Nested(s.nodes)
    ensures var r := RestoreEntry(s, e, toMedia, accepts); !r.ok ==> r.nodes == s.nodes && r.dumps == s.dumps
  {
    if e.name != DATABASE && IsMedia(e.name) {
      var p := Clean(e.name[|MEDIA|..]);
      if p != [] {
        var parent := p[..|p| - 1];
        FailedFoldersAreNotMade(s.nodes, parent);
        MakeDirsIff(s.nodes, parent);
        var (made, n) := MakeDirs(s.nodes, parent);
        if made && p in n && !n[p].File? {
          assert Look(n, p) == Look(s.nodes, p);
          forall q | q != [] && q <= parent ensures q in s.nodes && s.nodes[q].Dir? {
            assert Below(q, p);
          }
          forall q ensures Look(n, q) == Look(s.nodes, q) {
          }
          SameLooksSameTree(n, s.nodes);
        }
      }
    }
  }
}
