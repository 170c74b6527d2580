/** The disk writer: an object over the tree whose methods remove and write files in place. */
module DiskWriter {
  import opened Wrappers
  import opened Models
  import opened DiskTree

  /** `d` is at or above a directory that is still there and still to be processed. */
  ghost predicate Covered(nodes: Tree, todo: set<Path>, d: Path) {
    exists q :: q in todo && q in nodes && d <= q
  }

  /** `nodes` is `t` without the doomed files and without some dead directories. */
  ghost predicate Between(t: Tree, doomed: set<Path>, nodes: Tree) {
    && WellFormed(nodes)
    && (forall n :: n in nodes ==> n in t && n !in doomed && nodes[n] == t[n])
    && (forall n :: n in t && n !in doomed && n !in nodes ==> Dead(t, doomed, n))
  }

  ghost predicate AllCovered(t: Tree, doomed: set<Path>, nodes: Tree, todo: set<Path>, at: Path) {
    forall d :: d in nodes && Dead(t, doomed, d) ==> Covered(nodes, todo, d) || d <= at
  }

  /** Before any directory is removed. */
  lemma FilesGone(t: Tree, doomed: set<Path>, parents: set<Path>)
    requires WellFormed(t) && doomed <= FilesOf(t).Keys
    requires forall f :: f in doomed ==> Parent(f) in parents
    ensures Between(t, doomed, t - doomed)
    ensures AllCovered(t, doomed, t - doomed, parents, [])
  {
    var nodes := t - doomed;
    forall p | p in nodes ensures IsDir(nodes, Parent(p)) {
      assert IsDir(t, Parent(p));
    }
    forall d | d in nodes && Dead(t, doomed, d) ensures Covered(nodes, parents, d) {
      var f :| f in doomed && Above(d, f);
      assert d <= Parent(f);
      if d != Parent(f) { AncestorsAreDirs(t, Parent(f), f); }
      assert IsDir(t, Parent(f));
    }
  }

  /** A directory reached while walking up that is empty by now is dead. */
  lemma EmptyIsDead(t: Tree, doomed: set<Path>, nodes: Tree, d: Path)
    requires WellFormed(t) && Between(t, doomed, nodes) && doomed <= FilesOf(t).Keys
    requires d in nodes && nodes[d].Directory? && LeadsTo(d, doomed) && !HasChild(nodes, d)
    ensures Dead(t, doomed, d)
  {
    forall n | n in t && Above(d, n) ensures n in doomed || LeadsTo(n, doomed) {
      if n in nodes { NoChildNothingBelow(nodes, d, n); }
    }
  }

  /** A directory that stays leaves everything above it covered by what is still to come. */
  lemma NonEmptyCovers(t: Tree, doomed: set<Path>, nodes: Tree, todo: set<Path>, at: Path)
    requires WellFormed(t) && Between(t, doomed, nodes) && doomed <= FilesOf(t).Keys
    requires AllCovered(t, doomed, nodes, todo, at)
    requires at in nodes && nodes[at].Directory? && LeadsTo(at, doomed) && HasChild(nodes, at)
    ensures AllCovered(t, doomed, nodes, todo, [])
  {
    forall d | d in nodes && Dead(t, doomed, d) ensures Covered(nodes, todo, d) {
      if d <= at {
        var n :| n in nodes && n != [] && Parent(n) == at;
        assert Above(d, n);
        DeadBelow(t, doomed, d, n);
        assert !(n <= at);
        var q :| q in todo && q in nodes && n <= q;
        assert d <= q;
      }
    }
  }

  lemma RemoveLeaf(nodes: Tree, at: Path)
    requires WellFormed(nodes) && at in nodes && !HasChild(nodes, at)
    ensures WellFormed(nodes - {at}) && IsDir(nodes - {at}, Parent(at))
  {
    var next := nodes - {at};
    forall p | p in next ensures IsDir(next, Parent(p)) {
      assert IsDir(nodes, Parent(p)) && Parent(p) != at;
    }
    assert IsDir(nodes, Parent(at)) && Parent(at) != at;
  }

  lemma RemovalCovers(t: Tree, doomed: set<Path>, nodes: Tree, todo: set<Path>, at: Path)
    requires at != [] && AllCovered(t, doomed, nodes, todo, at)
    ensures AllCovered(t, doomed, nodes - {at}, todo, Parent(at))
  {
    var next := nodes - {at};
    forall d | d in next && Dead(t, doomed, d) ensures Covered(next, todo, d) || d <= Parent(at) {
      if d <= at {
        assert d != at && |d| < |at|;
        assert d <= Parent(at);
      } else {
        var q :| q in todo && q in nodes && d <= q;
        assert q in next;
      }
    }
  }

  /** Removing an empty directory and moving to its parent. */
  lemma RemovalKeeps(t: Tree, doomed: set<Path>, nodes: Tree, todo: set<Path>, at: Path)
    requires WellFormed(t) && Between(t, doomed, nodes) && AllCovered(t, doomed, nodes, todo, at)
    requires at in nodes && Dead(t, doomed, at) && !HasChild(nodes, at)
    ensures Between(t, doomed, nodes - {at})
    ensures AllCovered(t, doomed, nodes - {at}, todo, Parent(at))
    ensures IsDir(nodes - {at}, Parent(at))
  {
    hide Dead;
    RemoveLeaf(nodes, at);
    RemovalCovers(t, doomed, nodes, todo, at);
  }

  lemma StartCovers(t: Tree, doomed: set<Path>, nodes: Tree, todo: set<Path>, start: Path)
    requires WellFormed(t) && doomed <= FilesOf(t).Keys && Between(t, doomed, nodes)
    requires start != [] ==> LeadsTo(start, doomed)
    requires AllCovered(t, doomed, nodes, todo + {start}, [])
    ensures AllCovered(t, doomed, nodes, todo, start)
    ensures !IsDir(nodes, start) ==> AllCovered(t, doomed, nodes, todo, [])
  {
    if start in nodes && start != [] {
      var f :| f in doomed && Above(start, f);
      AncestorsAreDirs(t, start, f);
    }
    forall d | d in nodes && Dead(t, doomed, d)
      ensures Covered(nodes, todo, d) || d <= start
      ensures !IsDir(nodes, start) ==> Covered(nodes, todo, d) || d <= []
    {
      if !(d <= []) {
        var q :| q in todo + {start} && q in nodes && d <= q;
      }
    }
  }

  /** Once nothing is left to process, every dead directory is gone. */
  lemma AllProcessed(t: Tree, doomed: set<Path>, nodes: Tree)
    requires Between(t, doomed, nodes) && AllCovered(t, doomed, nodes, {}, [])
    ensures nodes == Survivors(t, doomed)
  {
    forall d | d in nodes ensures !Dead(t, doomed, d) {
      assert d != [] && !(d <= []);
      assert !Covered(nodes, {}, d);
    }
  }

  lemma LeadsUp(d: Path, doomed: set<Path>)
    requires d != [] && LeadsTo(d, doomed)
    ensures LeadsTo(Parent(d), doomed)
  {
    var f :| f in doomed && Above(d, f);
    assert Above(Parent(d), f);
  }

  function ListedUpTo(listed: seq<Path>, i: nat): set<Path>
    requires i <= |listed|
  {
    set p | p in listed[..i]
  }

  ghost function ParentsOf(files: set<Path>): set<Path> {
    set f | f in files && f != [] :: Parent(f)
  }

  lemma DoomedNext(t: Tree, listed: seq<Path>, i: nat)
    requires i < |listed| && [] !in t
    ensures var before, after := Doomed(t, ListedUpTo(listed, i)), Doomed(t, ListedUpTo(listed, i + 1));
            after == (if IsFile(t, listed[i]) then before + {listed[i]} else before)
    ensures IsFile(t, listed[i]) ==>
              ParentsOf(Doomed(t, ListedUpTo(listed, i + 1))) == ParentsOf(Doomed(t, ListedUpTo(listed, i)))
                + {Parent(listed[i])}
  {
    assert ListedUpTo(listed, i + 1) == ListedUpTo(listed, i) + {listed[i]};
  }

  /** Orders directories by depth, deepest first. */
  method DeepestFirst(dirs: set<Path>) returns (sorted: seq<Path>)
    ensures forall d :: d in sorted <==> d in dirs
    ensures forall i, j :: 0 <= i < j < |sorted| ==> |sorted[i]| >= |sorted[j]|
  {
    sorted := [];
    var todo := dirs;
    while todo != {}
      invariant todo <= dirs
      invariant forall d :: d in sorted <==> d in dirs - todo
      invariant forall i, j :: 0 <= i < j < |sorted| ==> |sorted[i]| >= |sorted[j]|
      invariant forall i, d :: 0 <= i < |sorted| && d in todo ==> |sorted[i]| >= |d|
      decreases |todo|
    {
      var deepest := Deepest(todo);
      sorted := sorted + [deepest];
      todo := todo - {deepest};
    }
  }

  method Deepest(dirs: set<Path>) returns (deepest: Path)
    requires dirs != {}
    ensures deepest in dirs && forall d :: d in dirs ==> |d| <= |deepest|
  {
    deepest :| deepest in dirs;
    var todo := dirs - {deepest};
    while todo != {}
      invariant deepest in dirs && todo <= dirs
      invariant forall d :: d in dirs && d !in todo ==> |d| <= |deepest|
      decreases |todo|
    {
      var d :| d in todo;
      if |d| > |deepest| {
        deepest := d;
      }
      todo := todo - {d};
    }
  }

  class Disk {
    var nodes: Tree

    constructor (nodes: Tree)
      ensures this.nodes == nodes
    {
      this.nodes := nodes;
    }

    /** Climbs from `start`, removing directories as long as they are empty.  With `mayFail` any
        read or removal may end it with an error. */
    method RemoveEmptyUpwards(start: Path, mayFail: bool, ghost t: Tree, ghost doomed: set<Path>, ghost todo: set<Path>)
        returns (ok: bool)
      requires WellFormed(t) && doomed <= FilesOf(t).Keys
      requires Between(t, doomed, nodes) && AllCovered(t, doomed, nodes, todo + {start}, [])
      requires start != [] ==> LeadsTo(start, doomed)
      modifies this
      ensures Between(t, doomed, nodes) && (ok ==> AllCovered(t, doomed, nodes, todo, []))
      ensures !mayFail ==> ok
    {
      hide Dead, LeadsTo, WellFormed;
      var current := start;
      StartCovers(t, doomed, nodes, todo, start);
      while current != []
        invariant Between(t, doomed, nodes)
        invariant AllCovered(t, doomed, nodes, todo, current)
        invariant !IsDir(nodes, current) ==> AllCovered(t, doomed, nodes, todo, [])
        invariant current != [] ==> LeadsTo(current, doomed)
        decreases |current|
      {
        if !IsDir(nodes, current) {
          return true;
        }
        if mayFail {
          if * { return false; }
        }
        if exists n :: n in nodes && n != [] && Parent(n) == current {
          NonEmptyCovers(t, doomed, nodes, todo, current);
          return true;
        }
        EmptyIsDead(t, doomed, nodes, current);
        RemovalKeeps(t, doomed, nodes, todo, current);
        nodes := nodes - {current};
        LeadsUp(current, doomed);
        current := Parent(current);
      }
      ok := true;
    }

    /** Deletes the listed files, then the directories that this leaves empty, deepest first;
        what it leaves does not depend on that order. */
    method Cleanup(filesToDelete: seq<Path>, mayFail: bool) returns (ok: bool)
      requires WellFormed(nodes)
      modifies this
      ensures WellFormed(nodes) && (!mayFail ==> ok)
      ensures var doomed := Doomed(old(nodes), ListedUpTo(filesToDelete, |filesToDelete|));
              if ok then nodes == Survivors(old(nodes), doomed) else PartlyCleaned(old(nodes), doomed, nodes)
    {
      ghost var t := nodes;
      ghost var doomed := Doomed(t, ListedUpTo(filesToDelete, |filesToDelete|));
      var parents;
      ok, parents := DeleteFiles(filesToDelete, mayFail);
      if !ok {
        return;
      }
      FilesGone(t, doomed, parents);
      var dirs := DeepestFirst(parents);
      ok := RemoveEmptyDirs(dirs, mayFail, t, doomed);
      if ok {
        AllProcessed(t, doomed, nodes);
        SurvivorsWellFormed(t, doomed);
      } else {
        BetweenIsPartly(t, doomed, nodes);
      }
    }

    method DeleteFiles(filesToDelete: seq<Path>, mayFail: bool) returns (ok: bool, parents: set<Path>)
      requires WellFormed(nodes)
      modifies this
      ensures !mayFail ==> ok
      ensures var doomed := Doomed(old(nodes), ListedUpTo(filesToDelete, |filesToDelete|));
              if ok then nodes == old(nodes) - doomed && parents == ParentsOf(doomed)
              else PartlyCleaned(old(nodes), doomed, nodes)
    {
      ghost var t := nodes;
      parents := {};
      for i := 0 to |filesToDelete|
        invariant nodes == t - Doomed(t, ListedUpTo(filesToDelete, i))
        invariant parents == ParentsOf(Doomed(t, ListedUpTo(filesToDelete, i)))
      {
        var path := filesToDelete[i];
        DoomedNext(t, filesToDelete, i);
        if IsFile(nodes, path) {
          if mayFail {
            if * {
              SomeFilesGone(t, Doomed(t, ListedUpTo(filesToDelete, i)),
                            Doomed(t, ListedUpTo(filesToDelete, |filesToDelete|)));
              return false, parents;
            }
          }
          nodes := nodes - {path};
          parents := parents + {Parent(path)};
        }
      }
      ok := true;
    }

    method RemoveEmptyDirs(dirs: seq<Path>, mayFail: bool, ghost t: Tree, ghost doomed: set<Path>) returns (ok: bool)
      requires WellFormed(t) && doomed <= FilesOf(t).Keys
      requires Between(t, doomed, nodes) && AllCovered(t, doomed, nodes, Rest(dirs, 0), [])
      requires forall d :: d in dirs ==> d in ParentsOf(doomed)
      modifies this
      ensures Between(t, doomed, nodes) && (ok ==> AllCovered(t, doomed, nodes, {}, []))
      ensures !mayFail ==> ok
    {
      hide Between, AllCovered, WellFormed, LeadsTo;
      for i := 0 to |dirs|
        invariant Between(t, doomed, nodes)
        invariant AllCovered(t, doomed, nodes, Rest(dirs, i), [])
      {
        assert Rest(dirs, i) == Rest(dirs, i + 1) + {dirs[i]};
        assert dirs[i] in dirs;
        ParentLeads(doomed, dirs[i]);
        ok := RemoveEmptyUpwards(dirs[i], mayFail, t, doomed, Rest(dirs, i + 1));
        if !ok {
          return;
        }
      }
      assert Rest(dirs, |dirs|) == {};
      ok := true;
    }

    /** Creates the directories on the way to `p`; fails without effect when a file is in the
        way.  With `mayFail` it may also stop before any of those that are missing. */
    method CreateDirAll(p: Path, mayFail: bool) returns (ok: bool)
      requires WellFormed(nodes)
      modifies this
      ensures ok ==> WithDirs(old(nodes), p) == Some(nodes)
      ensures !ok && !mayFail ==> WithDirs(old(nodes), p).None? && nodes == old(nodes)
      ensures !ok ==> exists d :: d <= p && WithDirs(old(nodes), d) == Some(nodes)
      ensures !ok ==> CreationStops(old(nodes), p, mayFail, nodes)
    {
      hide MadeDirs, FileOnTheWay, WellFormed, CreationStops;
      ghost var t := nodes;
      NoDirsYet(t, p);
      for n := 0 to |p|
        invariant nodes == MadeDirs(t, p, n) && !FileOnTheWay(t, p, n)
      {
        NextDir(t, p, n);
        DirsSoFar(t, p, n);
        if IsFile(nodes, p[..n + 1]) {
          return false;
        }
        if p[..n + 1] !in nodes {
          if mayFail {
            if * {
              StopsAtMissing(t, p, n);
              return false;
            }
          }
          nodes := nodes[p[..n + 1] := Directory];
        }
      }
      return true;
    }

    /** Writes one file.  With `mayFail` it may also stop after some of the directories or in the
        middle of the file. */
    method WriteFile(p: Path, content: Bytes, mayFail: bool) returns (ok: bool)
      requires WellFormed(nodes)
      modifies this
      ensures WellFormed(nodes)
      ensures ok ==> Written(old(nodes), p, content) == Some(nodes)
      ensures !ok && !mayFail ==> Written(old(nodes), p, content).None? && nodes == old(nodes)
      ensures !ok ==> PartlyWritten(old(nodes), p, content, nodes)
    {
      hide WithDirs, WellFormed;
      ghost var t := nodes;
      WrittenIsWellFormed(t, p, content);
      if IsDir(nodes, p) {
        return true;
      }
      ok := CreateDirAll(Parent(p), mayFail);
      if !ok {
        ghost var d :| d <= Parent(p) && WithDirs(t, d) == Some(nodes);
        WithDirsIsWellFormed(t, d);
        assert DirsDownTo(t, p, d, nodes);
        return false;
      }
      if mayFail {
        var torn: bool, k: nat := *, *;
        if torn && k <= |content| {
          WrittenIsWellFormed(t, p, content[..k]);
          nodes := nodes[p := File(content[..k])];
          assert TornFile(t, p, content, k, nodes);
          return false;
        }
      }
      nodes := nodes[p := File(content)];
    }

    /** Writes all files, in hash order, until one fails; those already written stay. */
    method Write(files: map<Path, Bytes>, mayFail: bool)
        returns (ok: bool, ghost order: seq<Path>, ghost written: seq<Path>)
      requires WellFormed(nodes)
      modifies this
      ensures WellFormed(nodes)
      ensures Covers(order, files) && written <= order
      ensures WrittenAll(old(nodes), files, written).Some?
      ensures ok ==> written == order && WrittenAll(old(nodes), files, order) == Some(nodes)
      ensures !ok ==> exists p ::
                p in files && PartlyWritten(WrittenAll(old(nodes), files, written).value, p, files[p], nodes)
      ensures !ok && !mayFail ==>
                WrittenAll(old(nodes), files, order).None? && WrittenAll(old(nodes), files, written) == Some(nodes)
    {
      hide Written, WellFormed, PartlyWritten;
      order := [];
      var todo := files.Keys;
      while todo != {}
        invariant todo <= files.Keys && WellFormed(nodes)
        invariant forall p :: p in order <==> p in files.Keys - todo
        invariant WrittenAll(old(nodes), files, order) == Some(nodes)
        decreases |todo|
      {
        var p :| p in todo;
        todo := todo - {p};
        assert (order + [p])[..|order|] == order;
        written := order;
        order := order + [p];
        ok := WriteFile(p, files[p], mayFail);
        if !ok {
          order := Pad(old(nodes), files, order, todo);
          return false, order, written;
        }
      }
      return true, order, order;
    }

    /** Removes the files that the merge dropped and returns them. */
    method CleanupDeletedFiles(local: map<Path, Bytes>, merged: map<Path, Bytes>, mayFail: bool)
        returns (ok: bool, deleted: seq<Path>)
      requires WellFormed(nodes)
      modifies this
      ensures forall p :: p in deleted <==> p in local && p !in merged
      ensures WellFormed(nodes) && (!mayFail ==> ok)
      ensures var doomed := Doomed(old(nodes), local.Keys - merged.Keys);
              if ok then nodes == Survivors(old(nodes), doomed) else PartlyCleaned(old(nodes), doomed, nodes)
    {
      deleted := ListPaths(local.Keys - merged.Keys);
      if deleted != [] {
        ok := Cleanup(deleted, mayFail);
      } else {
        assert Doomed(nodes, local.Keys - merged.Keys) == {};
        NothingDoomed(nodes);
        ok := true;
      }
    }
  }

  /** `order` is an order in which all files are visited. */
  ghost predicate Covers(order: seq<Path>, files: map<Path, Bytes>) {
    forall p :: p in order <==> p in files
  }

  lemma BetweenIsPartly(t: Tree, doomed: set<Path>, nodes: Tree)
    requires Between(t, doomed, nodes)
    ensures PartlyCleaned(t, doomed, nodes)
  {
    hide Dead, WellFormed;
  }

  lemma SomeFilesGone(t: Tree, gone: set<Path>, doomed: set<Path>)
    requires WellFormed(t) && gone <= doomed && doomed <= FilesOf(t).Keys
    ensures PartlyCleaned(t, doomed, t - gone)
  {
    var nodes := t - gone;
    forall p | p in nodes ensures IsDir(nodes, Parent(p)) {
      assert IsDir(t, Parent(p));
    }
  }

  lemma ParentLeads(doomed: set<Path>, d: Path)
    requires d in ParentsOf(doomed)
    ensures d != [] ==> LeadsTo(d, doomed)
  {
    var f :| f in doomed && f != [] && Parent(f) == d;
    assert Above(Parent(f), f);
  }

  /** Having made the first directories is having made those down to one of them. */
  lemma DirsSoFar(t: Tree, p: Path, n: nat)
    requires n <= |p| && !FileOnTheWay(t, p, n)
    ensures p[..n] <= p && WithDirs(t, p[..n]) == Some(MadeDirs(t, p, n))
  {
    var d := p[..n];
    forall k | 0 < k <= n ensures d[..k] == p[..k] {}
    assert (map k | 0 < k <= n :: d[..k] := Directory) == (map k | 0 < k <= n :: p[..k] := Directory);
  }

  lemma SurvivorsWellFormed(t: Tree, doomed: set<Path>)
    requires WellFormed(t) && doomed <= FilesOf(t).Keys
    ensures WellFormed(Survivors(t, doomed))
    ensures FilesOf(Survivors(t, doomed)) == FilesOf(t) - doomed
  {
    var s := Survivors(t, doomed);
    forall n | n in s ensures IsDir(s, Parent(n)) {
      var d := Parent(n);
      assert IsDir(t, d);
      if d != [] && Dead(t, doomed, d) {
        assert Above(d, n);
        DeadBelow(t, doomed, d, n);
      }
    }
  }

  /** The members of a set in hash order. */
  method ListPaths(paths: set<Path>) returns (listed: seq<Path>)
    ensures forall p :: p in listed <==> p in paths
    ensures ListedUpTo(listed, |listed|) == paths
  {
    listed := [];
    var todo := paths;
    while todo != {}
      invariant todo <= paths
      invariant forall p :: p in listed <==> p in paths - todo
      decreases |todo|
    {
      var p :| p in todo;
      listed := listed + [p];
      todo := todo - {p};
    }
    assert listed[..|listed|] == listed;
  }

  lemma NothingDoomed(t: Tree)
    ensures Survivors(t, {}) == t
  {
  }

  function Rest(dirs: seq<Path>, i: nat): set<Path>
    requires i <= |dirs|
  {
    set d | d in dirs[i..]
  }

  lemma NoDirsYet(t: Tree, p: Path)
    ensures MadeDirs(t, p, 0) == t && !FileOnTheWay(t, p, 0)
  {
  }

  /** One step of `create_dir_all`. */
  lemma NextDir(t: Tree, p: Path, n: nat)
    requires WellFormed(t) && n < |p| && !FileOnTheWay(t, p, n)
    ensures var nodes := MadeDirs(t, p, n);
            if IsFile(nodes, p[..n + 1]) then
              nodes == t && WithDirs(t, p).None? && forall mayFail :: CreationStops(t, p, mayFail, t)
            else !FileOnTheWay(t, p, n + 1) && MadeDirs(t, p, n + 1) == nodes[p[..n + 1] := Directory]
    ensures p[..n + 1] in MadeDirs(t, p, n) && !IsFile(MadeDirs(t, p, n), p[..n + 1]) ==>
              MadeDirs(t, p, n + 1) == MadeDirs(t, p, n)
    ensures p[..n + 1] in MadeDirs(t, p, n) <==> p[..n + 1] in t
  {
    hide MadeDirs, FileOnTheWay, WellFormed;
    var nodes := MadeDirs(t, p, n);
    MadeDirsStep(t, p, n);
    FileOnTheWayStep(t, p, n);
    if IsFile(nodes, p[..n + 1]) {
      FileNeedsNoDirs(t, p, n);
      assert WithDirs(t, p).None?;
    } else if p[..n + 1] in nodes {
      assert nodes[p[..n + 1] := Directory] == nodes;
    }
  }

  /** Where the next component is missing, so is everything below it. */
  lemma StopsAtMissing(t: Tree, p: Path, n: nat)
    requires WellFormed(t) && n < |p| && p[..n + 1] !in t && !FileOnTheWay(t, p, n)
    ensures CreationStops(t, p, true, MadeDirs(t, p, n))
  {
    hide MadeDirs;
    DirsSoFar(t, p, n);
    if k :| 0 < k <= |p| && IsFile(t, p[..k]) {
      assert p[..n + 1] <= p[..k];
      if p[..n + 1] != p[..k] { AncestorsAreDirs(t, p[..n + 1], p[..k]); }
    }
    assert Above(p[..n], p) && StopsBelow(t, p, p[..n], MadeDirs(t, p, n));
  }

  lemma FileOnTheWayStep(t: Tree, p: Path, n: nat)
    requires n < |p|
    ensures FileOnTheWay(t, p, n + 1) <==> FileOnTheWay(t, p, n) || IsFile(t, p[..n + 1])
    ensures IsFile(t, p[..n + 1]) ==> FileOnTheWay(t, p, |p|)
  {
    if FileOnTheWay(t, p, n + 1) {
      var k :| 0 < k <= n + 1 && IsFile(t, p[..k]);
    }
  }

  /** Where a file is in the way, the directories above it were there already. */
  lemma FileNeedsNoDirs(t: Tree, p: Path, n: nat)
    requires WellFormed(t) && n < |p| && IsFile(t, p[..n + 1])
    ensures MadeDirs(t, p, n) == t
  {
    forall k | 0 < k <= n ensures IsDir(t, p[..k]) {
      assert p[..n + 1][..k] == p[..k];
      AncestorsAreDirs(t, p[..k], p[..n + 1]);
    }
  }

  lemma WithDirsIsWellFormed(t: Tree, p: Path)
    requires WellFormed(t) && WithDirs(t, p).Some?
    ensures WellFormed(WithDirs(t, p).value) && IsDir(WithDirs(t, p).value, p)
  {
    var t' := WithDirs(t, p).value;
    forall q | q in t' ensures IsDir(t', Parent(q)) && q != [] {
      MadeDirsAt(t, p, |p|, q);
      MadeDirsAt(t, p, |p|, Parent(q));
      if !(0 < |q| && q <= p) { assert IsDir(t, Parent(q)); }
    }
    MadeDirsAt(t, p, |p|, p);
    MadeDirsAt(t, p, |p|, []);
  }

  lemma WrittenIsWellFormed(t: Tree, p: Path, content: Bytes)
    requires WellFormed(t)
    ensures Written(t, p, content).Some? ==> WellFormed(Written(t, p, content).value)
  {
    if !IsDir(t, p) && WithDirs(t, Parent(p)).Some? {
      WithDirsIsWellFormed(t, Parent(p));
      var t' := WithDirs(t, Parent(p)).value;
      MadeDirsAt(t, Parent(p), |Parent(p)|, p);
      forall q | q in t'[p := File(content)] ensures IsDir(t'[p := File(content)], Parent(q)) {
        assert IsDir(t', Parent(q));
      }
    }
  }

  /** A list of files extended by the rest; a failed write fails whatever files remain. */
  lemma {:induction false} Pad(t: Tree, files: map<Path, Bytes>, order: seq<Path>, todo: set<Path>)
      returns (whole: seq<Path>)
    requires forall p :: p in order ==> p in files
    requires todo <= files.Keys
    ensures forall p :: p in whole <==> p in order || p in todo
    ensures order <= whole
    ensures WrittenAll(t, files, order).None? ==> WrittenAll(t, files, whole).None?
    decreases |todo|
  {
    if todo == {} {
      whole := order;
    } else {
      var p :| p in todo;
      assert (order + [p])[..|order|] == order;
      whole := Pad(t, files, order + [p], todo - {p});
    }
  }
}
