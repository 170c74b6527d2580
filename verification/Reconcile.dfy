/** What cleanup followed by write leaves on disk, for every order in which the two maps are
    walked, with files turning into directories and back. */
module Reconcile {
  import opened Wrappers
  import opened Models
  import opened DiskTree
  import opened DiskWriter

  ghost predicate PrefixFree(files: map<Path, Bytes>) {
    forall p, q :: p in files && q in files ==> !Above(p, q)
  }

  /** A file lies on the way to `p`. */
  ghost predicate Blocked(t: Tree, p: Path) { exists f :: IsFile(t, f) && Above(f, p) }

  ghost predicate AnyBlocked(t: Tree, files: map<Path, Bytes>) { exists p :: p in files && Blocked(t, p) }

  /** The files that no directory stands in for. */
  function Writable(t: Tree, files: map<Path, Bytes>): map<Path, Bytes> {
    map p | p in files && !IsDir(t, p) :: files[p]
  }

  function Only(files: map<Path, Bytes>, order: seq<Path>): map<Path, Bytes> {
    map p | p in files && p in order :: files[p]
  }

  /** `files` put into `t` with all directories they need. */
  function Planted(t: Tree, files: map<Path, Bytes>): Tree {
    t + (map d | d in Ancestors(files) :: Directory) + (map p | p in files :: File(files[p]))
  }

  function Ancestors(files: map<Path, Bytes>): set<Path> {
    set p, k | p in files && 0 < k < |p| :: p[..k]
  }

  lemma AncestorsAre(files: map<Path, Bytes>, d: Path)
    ensures d in Ancestors(files) <==> d != [] && exists p :: p in files && Above(d, p)
  {
    if d != [] && exists p :: p in files && Above(d, p) {
      var p :| p in files && Above(d, p);
      assert d == p[..|d|];
    }
  }

  /** Nothing stands in the way of any file, on disk or in `files` itself. */
  ghost predicate NoClash(t: Tree, files: map<Path, Bytes>) {
    PrefixFree(files) && !AnyBlocked(t, files) && forall p :: p in files ==> !IsDir(t, p)
  }

  // ------------------------------------------------------------ one write

  lemma BlockedMeansNone(t: Tree, p: Path)
    requires [] !in t && p != []
    ensures WithDirs(t, Parent(p)).None? <==> Blocked(t, p)
  {
    if FileOnTheWay(t, Parent(p), |Parent(p)|) {
      var k :| 0 < k <= |Parent(p)| && IsFile(t, Parent(p)[..k]);
      assert Parent(p)[..k] == p[..k] && Above(p[..k], p);
    }
    if Blocked(t, p) {
      var f :| IsFile(t, f) && Above(f, p);
      assert Parent(p)[..|f|] == f;
    }
  }

  lemma WithDirsAt(t: Tree, p: Path, q: Path)
    requires p != [] && WithDirs(t, Parent(p)).Some?
    ensures var made := WithDirs(t, Parent(p)).value;
            && (q in made <==> q in t || (q != [] && Above(q, p)))
            && (q in made ==> made[q] == if q != [] && Above(q, p) then Directory else t[q])
  {
    MadeDirsAt(t, Parent(p), |Parent(p)|, q);
    assert q <= Parent(p) <==> Above(q, p);
  }

  /** A write never removes a file or a directory. */
  lemma WriteKeeps(t: Tree, p: Path, content: Bytes)
    requires WellFormed(t) && Written(t, p, content).Some?
    ensures WellFormed(Written(t, p, content).value)
    ensures forall n :: IsFile(t, n) ==> IsFile(Written(t, p, content).value, n)
    ensures forall n :: IsDir(t, n) ==> IsDir(Written(t, p, content).value, n)
  {
    WrittenIsWellFormed(t, p, content);
    if !IsDir(t, p) {
      BlockedMeansNone(t, p);
      forall n | n in t ensures n in Written(t, p, content).value
        && (n == p || Written(t, p, content).value[n] == t[n]) {
        WithDirsAt(t, p, n);
        if n != [] && Above(n, p) { assert !IsFile(t, n); }
      }
    }
  }

  lemma {:induction false} WritesKeep(t: Tree, files: map<Path, Bytes>, order: seq<Path>)
    requires WellFormed(t) && forall p :: p in order ==> p in files
    requires WrittenAll(t, files, order).Some?
    ensures WellFormed(WrittenAll(t, files, order).value)
    ensures forall n :: IsFile(t, n) ==> IsFile(WrittenAll(t, files, order).value, n)
    ensures forall n :: IsDir(t, n) ==> IsDir(WrittenAll(t, files, order).value, n)
  {
    if order != [] {
      var n := |order| - 1;
      WritesKeep(t, files, order[..n]);
      WriteKeeps(WrittenAll(t, files, order[..n]).value, order[n], files[order[n]]);
    }
  }

  // ------------------------------------------------------------ all writes

  /** A file on the way to some path makes the whole write fail. */
  lemma {:induction false} BlockedFails(t: Tree, files: map<Path, Bytes>, order: seq<Path>, p: Path)
    requires WellFormed(t) && forall q :: q in order ==> q in files
    requires p in order && Blocked(t, p)
    ensures WrittenAll(t, files, order).None?
  {
    var n := |order| - 1;
    var before := WrittenAll(t, files, order[..n]);
    if before.Some? {
      if order[n] == p {
        WritesKeep(t, files, order[..n]);
        var f :| IsFile(t, f) && Above(f, p);
        assert IsFile(before.value, f);
        if IsDir(before.value, p) { AncestorsAreDirs(before.value, f, p); }
        BlockedMeansNone(before.value, p);
      } else {
        assert order == order[..n] + [order[n]];
        BlockedFails(t, files, order[..n], p);
      }
    }
  }

  lemma PlantedAt(t: Tree, files: map<Path, Bytes>, n: Path)
    ensures n in Planted(t, files) <==> n in t || n in files || n in Ancestors(files)
    ensures n in Planted(t, files) ==>
              Planted(t, files)[n] == if n in files then File(files[n])
                                      else if n in Ancestors(files) then Directory else t[n]
  {
  }

  /** Writing a further file meets no obstacle among those already written. */
  lemma PlantClear(t: Tree, files: map<Path, Bytes>, done: map<Path, Bytes>, p: Path)
    requires WellFormed(t) && PrefixFree(files) && !AnyBlocked(t, files)
    requires p in files && !IsDir(t, p)
    requires [] !in done && forall q :: q in done ==> q in files && done[q] == files[q]
    ensures !IsDir(Planted(t, done), p) && !Blocked(Planted(t, done), p) && [] !in Planted(t, done)
  {
    hide Planted, Ancestors;
    var planted := Planted(t, done);
    PlantedAt(t, done, p);
    AncestorsAre(done, p);
    PlantedAt(t, done, []);
    AncestorsAre(done, []);
    forall f | Above(f, p) ensures !IsFile(planted, f) {
      PlantedAt(t, done, f);
      assert IsFile(t, f) ==> Blocked(t, p);
    }
  }

  lemma PlantOne(t: Tree, files: map<Path, Bytes>, done: map<Path, Bytes>, p: Path)
    requires WellFormed(t) && PrefixFree(files) && !AnyBlocked(t, files)
    requires p in files && !IsDir(t, p)
    requires [] !in done && forall q :: q in done ==> q in files && done[q] == files[q]
    ensures Written(Planted(t, done), p, files[p]) == Some(Planted(t, done[p := files[p]]))
  {
    hide Planted, Ancestors, WithDirs, WellFormed, AnyBlocked, Blocked;
    var planted, after := Planted(t, done), Planted(t, done[p := files[p]]);
    PlantClear(t, files, done, p);
    BlockedMeansNone(planted, p);
    var stepped := WithDirs(planted, Parent(p)).value[p := File(files[p])];
    forall n ensures n in stepped <==> n in after {
      PlantOneAt(t, files, done, p, n);
    }
    forall n | n in after ensures stepped[n] == after[n] {
      PlantOneAt(t, files, done, p, n);
    }
    assert stepped == after;
  }

  lemma PlantOneAt(t: Tree, files: map<Path, Bytes>, done: map<Path, Bytes>, p: Path, n: Path)
    requires p != [] && PrefixFree(files) && p in files
    requires [] !in done && forall q :: q in done ==> q in files && done[q] == files[q]
    requires WithDirs(Planted(t, done), Parent(p)).Some?
    ensures var stepped := WithDirs(Planted(t, done), Parent(p)).value[p := File(files[p])];
            var after := Planted(t, done[p := files[p]]);
            (n in stepped <==> n in after) && (n in after ==> stepped[n] == after[n])
  {
    hide Planted, WithDirs, Ancestors;
    var more := done[p := files[p]];
    WithDirsAt(Planted(t, done), p, n);
    PlantedAt(t, done, n);
    PlantedAt(t, more, n);
    AncestorsAre(done, n);
    AncestorsAre(more, n);
    if n in Ancestors(more) && n !in Ancestors(done) {
      var q :| q in more && Above(n, q);
      assert q == p;
    }
    if n in Ancestors(done) {
      var q :| q in done && Above(n, q);
      assert q in more;
    }
  }

  /** In every order, the writable files end up planted. */
  lemma {:induction false} WritesPlant(t: Tree, files: map<Path, Bytes>, order: seq<Path>)
    requires WellFormed(t) && PrefixFree(files) && !AnyBlocked(t, files)
    requires forall p :: p in order ==> p in files
    ensures WrittenAll(t, files, order) == Some(Planted(t, Writable(t, Only(files, order))))
  {
    hide Planted, Ancestors, Writable, Only, Blocked;
    if order == [] {
      PlantedNothing(t, files);
    } else {
      var n := |order| - 1;
      WritesPlant(t, files, order[..n]);
      WritableNext(t, files, order);
      if !IsDir(t, order[n]) {
        PlantOne(t, files, Writable(t, Only(files, order[..n])), order[n]);
      }
    }
  }

  lemma PlantedNothing(t: Tree, files: map<Path, Bytes>)
    ensures Planted(t, Writable(t, Only(files, []))) == t
  {
    assert Writable(t, Only(files, [])) == map[];
  }

  lemma WritableNext(t: Tree, files: map<Path, Bytes>, order: seq<Path>)
    requires order != [] && forall p :: p in order ==> p in files
    ensures var p := order[|order| - 1];
            var done, more := Writable(t, Only(files, order[..|order| - 1])), Writable(t, Only(files, order));
            && more == (if IsDir(t, p) then done else done[p := files[p]])
            && [] !in done && (forall q :: q in done ==> q in files && done[q] == files[q])
            && (IsDir(t, p) ==> IsDir(Planted(t, done), p))
  {
    var n := |order| - 1;
    assert order == order[..n] + [order[n]];
    PlantedAt(t, Writable(t, Only(files, order[..n])), order[n]);
  }

  lemma PlantedFiles(t: Tree, files: map<Path, Bytes>)
    requires !AnyBlocked(t, files) && PrefixFree(files)
    requires forall p :: p in files ==> !IsDir(t, p)
    ensures FilesOf(Planted(t, files)) == FilesOf(t) + files
  {
    var planted := Planted(t, files);
    forall n ensures IsFile(planted, n) <==> IsFile(t, n) || n in files {
      PlantedAt(t, files, n);
      AncestorsAre(files, n);
      forall p | p in files && Above(n, p) ensures !IsFile(t, n) {
        assert IsFile(t, n) ==> Blocked(t, p);
      }
    }
    forall n | n in FilesOf(planted) ensures FilesOf(planted)[n] == (FilesOf(t) + files)[n] {
      PlantedAt(t, files, n);
    }
  }

  /** For prefix-free files, in every order: writing fails exactly when a file on disk is on
      the way to one of them, and otherwise adds exactly the files that no directory stands in
      for; those are skipped without an error. */
  lemma {:induction false} WriteOutcome(t: Tree, files: map<Path, Bytes>, order: seq<Path>)
    requires WellFormed(t) && PrefixFree(files)
    requires Covers(order, files)
    ensures WrittenAll(t, files, order).None? <==> AnyBlocked(t, files)
    ensures !AnyBlocked(t, files) ==>
              FilesOf(WrittenAll(t, files, order).value) == FilesOf(t) + Writable(t, files)
  {
    if AnyBlocked(t, files) {
      var p :| p in files && Blocked(t, p);
      BlockedFails(t, files, order, p);
    } else {
      WritesPlant(t, files, order);
      assert Only(files, order) == files;
      PlantedFiles(t, Writable(t, files));
    }
  }

  /** Every file is written, and nothing else changes, exactly when nothing clashes. */
  lemma {:induction false} WriteExact(t: Tree, files: map<Path, Bytes>, order: seq<Path>)
    requires WellFormed(t)
    requires Covers(order, files)
    ensures (WrittenAll(t, files, order).Some? && FilesOf(WrittenAll(t, files, order).value) == FilesOf(t) + files)
            <==> NoClash(t, files)
    ensures NoClash(t, files) ==> WrittenAll(t, files, order) == Some(Planted(t, files))
  {
    if NoClash(t, files) {
      WriteOutcome(t, files, order);
      WritesPlant(t, files, order);
      assert Only(files, order) == files && Writable(t, files) == files;
    } else if WrittenAll(t, files, order).Some? {
      var r := WrittenAll(t, files, order).value;
      if FilesOf(r) == FilesOf(t) + files {
        WritesKeep(t, files, order);
        AllThereMeansNoClash(t, files, r);
      }
    }
  }

  lemma AllThereMeansNoClash(t: Tree, files: map<Path, Bytes>, r: Tree)
    requires WellFormed(r)
    requires forall n :: IsDir(t, n) ==> IsDir(r, n)
    requires FilesOf(r) == FilesOf(t) + files
    ensures NoClash(t, files)
  {
    assert forall n :: IsFile(r, n) <==> n in FilesOf(r);
    forall p | p in files ensures !IsDir(t, p) && IsFile(r, p) {
      assert p in FilesOf(r);
    }
    forall f, p | IsFile(r, f) && p in files ensures !Above(f, p) {
      if Above(f, p) { AncestorsAreDirs(r, f, p); }
    }
    assert forall f :: IsFile(t, f) ==> f in FilesOf(t) && IsFile(r, f);
  }

  // ------------------------------------------------------------ after cleanup

  /** A directory that is not dead holds a file that survives. */
  lemma SurvivingFileBelow(t: Tree, doomed: set<Path>, d: Path) returns (f: Path)
    requires Tight(t) && d in t && t[d].Directory? && !Dead(t, doomed, d)
    ensures IsFile(t, f) && f !in doomed && Above(d, f)
  {
    hide WellFormed;
    if LeadsTo(d, doomed) {
      var n :| n in t && Above(d, n) && n !in doomed && !LeadsTo(n, doomed);
      f := n;
      if t[n].Directory? {
        f :| IsFile(t, f) && Above(n, f);
      }
    } else {
      f :| IsFile(t, f) && Above(d, f);
    }
  }

  /** Cleanup creates no empty directory. */
  lemma SurvivorsTight(t: Tree, doomed: set<Path>)
    requires Tight(t) && doomed <= FilesOf(t).Keys
    ensures Tight(Survivors(t, doomed))
  {
    SurvivorsWellFormed(t, doomed);
    hide WellFormed;
    var s := Survivors(t, doomed);
    forall d | d in s && s[d].Directory? ensures exists f :: IsFile(s, f) && Above(d, f) {
      var f := SurvivingFileBelow(t, doomed, d);
      assert IsFile(s, f);
    }
  }

  lemma PlantedTight(t: Tree, files: map<Path, Bytes>)
    requires Tight(t) && NoClash(t, files) && WellFormed(Planted(t, files))
    ensures Tight(Planted(t, files))
  {
    var planted := Planted(t, files);
    PlantedFiles(t, files);
    assert forall n :: n in FilesOf(t) + files ==> IsFile(planted, n) by {
      assert forall n :: n in FilesOf(planted) ==> IsFile(planted, n);
    }
    forall d | d in planted && planted[d].Directory? ensures exists f :: IsFile(planted, f) && Above(d, f) {
      PlantedAt(t, files, d);
      AncestorsAre(files, d);
      if d in Ancestors(files) {
        var p :| p in files && Above(d, p);
        assert IsFile(planted, p);
      } else {
        var f :| IsFile(t, f) && Above(d, f);
        assert f in FilesOf(t) && IsFile(planted, f);
      }
    }
  }

  // ------------------------------------------------------------ reconcile

  /** The files on disk that are not tracked as local. */
  ghost function Untracked(t: Tree, local: map<Path, Bytes>): set<Path> { FilesOf(t).Keys - local.Keys }

  /** The merged paths are proper and prefix-free, and no untracked file lies above or below one of them. */
  ghost predicate ClashFree(t: Tree, local: map<Path, Bytes>, merged: map<Path, Bytes>) {
    && [] !in merged && PrefixFree(merged)
    && forall u, p :: u in Untracked(t, local) && p in merged ==> !Above(u, p) && !Above(p, u)
  }

  ghost function CleanedUp(t: Tree, local: map<Path, Bytes>, merged: map<Path, Bytes>): Tree {
    Survivors(t, Doomed(t, local.Keys - merged.Keys))
  }

  /** What the run is meant to leave: the dropped files gone, the merged files in place. */
  function Intended(t: Tree, local: map<Path, Bytes>, merged: map<Path, Bytes>): map<Path, Bytes> {
    FilesOf(t) - (local.Keys - merged.Keys) + merged
  }

  /** In a tree without empty directories, clashes are visible in the file paths alone. */
  lemma ClashesAreFiles(t: Tree, local: map<Path, Bytes>, merged: map<Path, Bytes>)
    requires Tight(t)
    ensures NoClash(CleanedUp(t, local, merged), merged) <==> ClashFree(t, local, merged)
  {
    hide Survivors, WellFormed;
    var s := CleanedUp(t, local, merged);
    var doomed := Doomed(t, local.Keys - merged.Keys);
    SurvivorsTight(t, doomed);
    assert forall f :: IsFile(s, f) <==> f in FilesOf(s);
    SurvivorFiles(t, local, merged);
    if ClashFree(t, local, merged) {
      forall f, p | IsFile(s, f) && p in merged ensures !Above(f, p) && !Above(p, f) {
        assert f in Untracked(t, local) || f in merged;
      }
    }
    if NoClash(s, merged) {
      forall u, p | u in Untracked(t, local) && p in merged ensures !Above(u, p) && !Above(p, u) {
        assert IsFile(s, u);
        if Above(p, u) { AboveFileIsDir(s, p, u); }
      }
    }
  }

  lemma AboveFileIsDir(t: Tree, d: Path, f: Path)
    requires WellFormed(t) && IsFile(t, f) && Above(d, f)
    ensures IsDir(t, d)
  {
    AncestorsAreDirs(t, d, f);
  }

  lemma SurvivorFiles(t: Tree, local: map<Path, Bytes>, merged: map<Path, Bytes>)
    requires WellFormed(t)
    ensures FilesOf(CleanedUp(t, local, merged)) == FilesOf(t) - (local.Keys - merged.Keys)
    ensures Untracked(t, local) <= FilesOf(CleanedUp(t, local, merged)).Keys <= Untracked(t, local) + merged.Keys
  {
    SurvivorsWellFormed(t, Doomed(t, local.Keys - merged.Keys));
  }

  /** Cleanup then write, in every order: the disk holds exactly the intended files if and only
      if nothing clashes, and then no directory is left empty. */
  lemma {:induction false} ReconcileExact(t: Tree, local: map<Path, Bytes>, merged: map<Path, Bytes>, order: seq<Path>)
    requires Tight(t)
    requires Covers(order, merged)
    ensures var result := WrittenAll(CleanedUp(t, local, merged), merged, order);
            && ((result.Some? && FilesOf(result.value) == Intended(t, local, merged)) <==> ClashFree(t, local, merged))
            && (ClashFree(t, local, merged) ==> Tight(result.value))
  {
    hide Survivors, Tight, WrittenAll;
    var s := CleanedUp(t, local, merged);
    TightIsWellFormed(t);
    SurvivorsTight(t, Doomed(t, local.Keys - merged.Keys));
    TightIsWellFormed(s);
    SurvivorFiles(t, local, merged);
    ClashesAreFiles(t, local, merged);
    WriteExact(s, merged, order);
    if ClashFree(t, local, merged) {
      WritesKeep(s, merged, order);
      PlantedTight(s, merged);
    }
  }

  lemma TightIsWellFormed(t: Tree)
    requires Tight(t)
    ensures WellFormed(t)
  {
  }

  /** An untracked file below a merged path: the write reports success and the merged file is
      not there. */
  lemma SilentSkip(content: Bytes, other: Bytes)
    ensures var t: Tree := map[["path"] := Directory, ["path", "ignored"] := File(other)];
            var merged: map<Path, Bytes> := map[["path"] := content];
            && Tight(t) && !ClashFree(t, map[], merged)
            && WrittenAll(CleanedUp(t, map[], merged), merged, [["path"]]) == Some(t)
  {
    var t: Tree := map[["path"] := Directory, ["path", "ignored"] := File(other)];
    var merged: map<Path, Bytes> := map[["path"] := content];
    assert Parent(["path"]) == [] && Parent(["path", "ignored"]) == ["path"];
    assert IsFile(t, ["path", "ignored"]) && Above(["path"], ["path", "ignored"]);
    assert ["path", "ignored"] in Untracked(t, map[]);
    NothingDoomed(t);
    var local: map<Path, Bytes>, order: seq<Path> := map[], [["path"]];
    assert Doomed(t, local.Keys - merged.Keys) == {} && CleanedUp(t, local, merged) == t;
    assert order[..0] == [] && WrittenAll(t, merged, order[..0]) == Some(t);
    assert WrittenAll(t, merged, order) == Written(t, ["path"], content);
  }

  /** A file in the way of one path makes the write fail with another file already on disk. */
  lemma FailedWriteLeavesFiles(content: Bytes, other: Bytes)
    ensures var t: Tree := map[["a"] := File(other)];
            var merged: map<Path, Bytes> := map[["c"] := content, ["a", "b"] := content];
            && Tight(t) && PrefixFree(merged)
            && WrittenAll(t, merged, [["c"], ["a", "b"]]).None?
            && WrittenAll(t, merged, [["c"]]) == Some(t[["c"] := File(content)])
  {
    var t: Tree := map[["a"] := File(other)];
    var merged: map<Path, Bytes> := map[["c"] := content, ["a", "b"] := content];
    var order: seq<Path> := [["c"]];
    assert Parent(["a"]) == [] && Parent(["c"]) == [];
    assert ["a"] != ["c"] && ["a", "b"][..1] == ["a"];
    assert IsFile(t, ["a"]) && Above(["a"], ["a", "b"]);
    BlockedFails(t, merged, [["c"], ["a", "b"]], ["a", "b"]);
    assert order[..0] == [] && WrittenAll(t, merged, order[..0]) == Some(t);
    assert MadeDirs(t, [], 0) == t;
    assert WrittenAll(t, merged, order) == Written(t, ["c"], content);
  }

  /** Cleanup, then write, when no I/O call fails. */
  method Reconciled(disk: Disk, local: map<Path, Bytes>, merged: map<Path, Bytes>) returns (ok: bool)
    requires Tight(disk.nodes)
    modifies disk
    ensures WellFormed(disk.nodes)
    ensures ok && FilesOf(disk.nodes) == Intended(old(disk.nodes), local, merged)
            <==> ClashFree(old(disk.nodes), local, merged)
    ensures ClashFree(old(disk.nodes), local, merged) ==> Tight(disk.nodes)
  {
    ghost var t := disk.nodes;
    var deleted;
    ok, deleted := disk.CleanupDeletedFiles(local, merged, false);
    ghost var order, written;
    ok, order, written := disk.Write(merged, false);
    ReconcileExact(t, local, merged, order);
  }

  // ------------------------------------------------------------ small trees

  /** The tree with the new file. */
  function Named(t: Tree, name: string): Tree { t[[name] := File([])] }

  lemma CleanedNothing(t: Tree, merged: map<Path, Bytes>)
    ensures CleanedUp(t, map[], merged) == t
  {
    var local: map<Path, Bytes> := map[];
    assert Doomed(t, local.Keys - merged.Keys) == {};
    NothingDoomed(t);
  }

  lemma NameDoesNotClash(t: Tree, name: string)
    requires WellFormed(t) && [name] !in t
    ensures NoClash(t, map[[name] := []])
  {
    forall f | Above(f, [name]) ensures f == [] && !IsFile(t, f) {
      assert |f| < 1;
    }
  }

  lemma PlantedName(t: Tree, name: string)
    ensures Planted(t, map[[name] := []]) == t[[name] := File([])]
  {
    var files: map<Path, Bytes> := map[[name] := []];
    assert Ancestors(files) == {};
  }

  /** Writing one new file next to everything else, in any order. */
  lemma {:induction false} WritesOneName(t: Tree, name: string, order: seq<Path>)
    requires WellFormed(t) && [name] !in t && Covers(order, map[[name] := []])
    ensures WrittenAll(t, map[[name] := []], order) == Some(t[[name] := File([])])
  {
    hide WellFormed, WrittenAll, Planted, NoClash, Covers;
    NameDoesNotClash(t, name);
    WriteExact(t, map[[name] := []], order);
    PlantedName(t, name);
  }

  const UNTRACKED: Path := ["a"]
  const TRACKED: Path := ["d"]

  function TwoFiles(x: Bytes, y: Bytes): Tree { map[UNTRACKED := File(x), TRACKED := File(y)] }

  lemma TwoFilesCleaned(x: Bytes, y: Bytes)
    ensures WellFormed(TwoFiles(x, y))
    ensures CleanedUp(TwoFiles(x, y), map[TRACKED := y], map[["a", "b"] := []]) == map[UNTRACKED := File(x)]
    ensures WellFormed(map[UNTRACKED := File(x)]) && Blocked(map[UNTRACKED := File(x)], ["a", "b"])
  {
    var t := TwoFiles(x, y);
    var local: map<Path, Bytes>, merged: map<Path, Bytes> := map[TRACKED := y], map[["a", "b"] := []];
    assert Parent(UNTRACKED) == [] && Parent(TRACKED) == [];
    assert TRACKED != UNTRACKED && TRACKED != ["a", "b"];
    assert local.Keys - merged.Keys == {TRACKED};
    assert Doomed(t, {TRACKED}) == {TRACKED};
    forall n ensures !Dead(t, {TRACKED}, n) {}
    var left: Tree := map[UNTRACKED := File(x)];
    assert Survivors(t, {TRACKED}) == left;
    assert IsFile(left, UNTRACKED) && ["a", "b"][..1] == UNTRACKED && Above(UNTRACKED, ["a", "b"]);
  }

  lemma {:induction false} NothingWritten(t: Tree, files: map<Path, Bytes>)
    ensures WrittenAll(t, files, []) == Some(t)
  {
  }
}
