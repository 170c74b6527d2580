/** The directory tree that a run creates for its target, and its removal.  Here a tree is the
    file system below the directory the target path starts from. */
module CreatedDir {
  import opened Wrappers
  import opened DiskTree
  import opened DiskWriter

  predicate Exists(t: Tree, p: Path) { p == [] || p in t }

  /** `d` is the first component on the way to `target` that does not exist. */
  ghost predicate IsFirstUncreated(t: Tree, target: Path, d: Path) {
    && d <= target && !Exists(t, d)
    && forall a :: Above(a, d) ==> Exists(t, a)
  }

  /** Walks from the target up and keeps the last ancestor that does not exist. */
  method ShallowestUncreatedAncestor(t: Tree, target: Path) returns (first: Option<Path>)
    requires WellFormed(t)
    ensures first.None? <==> Exists(t, target)
    ensures first.Some? ==> IsFirstUncreated(t, target, first.value)
  {
    first := None;
    var n := |target|;
    while n > 0
      invariant 0 <= n <= |target|
      invariant first.None? ==> forall k :: n < k <= |target| ==> Exists(t, target[..k])
      invariant first.Some? ==>
                  n < |first.value| <= |target| && first.value == target[..|first.value|] && !Exists(t, first.value)
      invariant first.Some? ==> forall k :: n < k < |first.value| ==> Exists(t, target[..k])
    {
      if !Exists(t, target[..n]) {
        first := Some(target[..n]);
      }
      n := n - 1;
    }
    if first.Some? {
      assert !Exists(t, target[..|first.value|]);
      MissingBelowMissing(t, first.value, target);
      forall a | Above(a, first.value) ensures Exists(t, a) {
        assert a == target[..|a|];
      }
    } else {
      assert target[..|target|] == target;
    }
  }

  lemma MissingBelowMissing(t: Tree, d: Path, p: Path)
    requires WellFormed(t) && d <= p && !Exists(t, d)
    ensures !Exists(t, p)
  {
    if p in t && d != p { AncestorsAreDirs(t, d, p); }
  }

  // ---------------------------------------------------------------- target

  /** The tree below `target`. */
  function View(t: Tree, target: Path): Tree {
    map n | n in Below(t, target) && target + n in t :: t[target + n]
  }

  function Below(t: Tree, target: Path): set<Path> {
    set n | n in t && Above(target, n) :: n[|target|..]
  }

  /** `t` with everything below `target` replaced. */
  function Mounted(t: Tree, target: Path, inner: Tree): Tree {
    (map n | n in t && !Above(target, n) :: t[n]) + map n | n in Under(target, inner) :: inner[n[|target|..]]
  }

  function Under(target: Path, inner: Tree): set<Path> {
    set n | n in inner :: target + n
  }

  lemma UnderAre(target: Path, inner: Tree, n: Path)
    requires [] !in inner
    ensures n in Under(target, inner) <==> Above(target, n) && n[|target|..] in inner
  {
    if Above(target, n) { assert n == target + n[|target|..]; }
  }

  lemma BelowAre(t: Tree, target: Path, n: Path)
    ensures n in Below(t, target) <==> n != [] && target + n in t
  {
    if n != [] && target + n in t {
      assert (target + n)[|target|..] == n && Above(target, target + n);
    }
    if n in Below(t, target) {
      var m :| m in t && Above(target, m) && m[|target|..] == n;
      assert m == target + n;
    }
  }

  lemma MountedAt(t: Tree, target: Path, inner: Tree, n: Path)
    requires [] !in inner
    ensures n in Mounted(t, target, inner) <==> if Above(target, n) then n[|target|..] in inner else n in t
    ensures n in Mounted(t, target, inner) ==>
              Mounted(t, target, inner)[n] == if Above(target, n) then inner[n[|target|..]] else t[n]
  {
    UnderAre(target, inner, n);
  }

  lemma MountedView(t: Tree, target: Path)
    ensures [] !in View(t, target) && Mounted(t, target, View(t, target)) == t
  {
    var view := View(t, target);
    BelowAre(t, target, []);
    forall n ensures n in Mounted(t, target, view) <==> n in t {
      ViewBack(t, target, n);
    }
    forall n | n in t ensures Mounted(t, target, view)[n] == t[n] {
      ViewBack(t, target, n);
    }
  }

  lemma ViewBack(t: Tree, target: Path, n: Path)
    requires [] !in View(t, target)
    ensures n in Mounted(t, target, View(t, target)) <==> n in t
    ensures n in t ==> Mounted(t, target, View(t, target))[n] == t[n]
  {
    MountedAt(t, target, View(t, target), n);
    if Above(target, n) {
      BelowAre(t, target, n[|target|..]);
      assert target + n[|target|..] == n;
    }
  }

  lemma ViewIsWellFormed(t: Tree, target: Path)
    requires WellFormed(t)
    ensures WellFormed(View(t, target))
  {
    var view := View(t, target);
    BelowAre(t, target, []);
    forall n | n in view ensures IsDir(view, Parent(n)) {
      BelowAre(t, target, n);
      BelowAre(t, target, Parent(n));
      assert Parent(target + n) == target + Parent(n);
      assert IsDir(t, Parent(target + n));
    }
  }

  // ------------------------------------------------------------------ undo

  /** `remove_dir_all`. */
  function WithoutTree(t: Tree, d: Path): Tree {
    map n | n in t && !(d <= n) :: t[n]
  }

  /** Removing the first uncreated ancestor undoes `create_dir_all` and everything put below
      the target since. */
  lemma RemovalUndoesCreation(t: Tree, target: Path, first: Path, inner: Tree)
    requires WellFormed(t) && IsFirstUncreated(t, target, first)
    requires WithDirs(t, target).Some? && [] !in inner
    ensures WithoutTree(Mounted(WithDirs(t, target).value, target, inner), first) == t
  {
    hide WithDirs, Mounted, WellFormed;
    var removed := WithoutTree(Mounted(WithDirs(t, target).value, target, inner), first);
    forall n ensures n in removed <==> n in t {
      UndoneAt(t, target, first, inner, n);
    }
    forall n | n in t ensures removed[n] == t[n] {
      UndoneAt(t, target, first, inner, n);
    }
  }

  lemma UndoneAt(t: Tree, target: Path, first: Path, inner: Tree, n: Path)
    requires WellFormed(t) && IsFirstUncreated(t, target, first)
    requires WithDirs(t, target).Some? && [] !in inner
    ensures var removed := WithoutTree(Mounted(WithDirs(t, target).value, target, inner), first);
            (n in removed <==> n in t) && (n in t ==> removed[n] == t[n])
  {
    hide Mounted;
    var made := WithDirs(t, target).value;
    MountedAt(made, target, inner, n);
    MadeDirsAt(t, target, |target|, n);
    if n in t && first <= n {
      MissingBelowMissing(t, first, n);
    } else if !(first <= n) {
      if n <= target && n != [] {
        assert |n| < |first| && Above(n, first) && Exists(t, n);
        assert n == target[..|n|];
        assert !IsFile(t, n);
      }
    }
  }

  /** When the target exists already, nothing is created. */
  lemma NothingToCreate(t: Tree, target: Path)
    requires WellFormed(t) && Exists(t, target) && WithDirs(t, target).Some?
    ensures WithDirs(t, target).value == t
  {
    var made := WithDirs(t, target).value;
    forall n ensures (n in made <==> n in t) && (n in t ==> made[n] == t[n]) {
      MadeDirsAt(t, target, |target|, n);
      if n != [] && n <= target {
        if n != target { AncestorsAreDirs(t, n, target); }
        assert n == target[..|n|];
      }
    }
  }

  /** Removes the created tree when it goes out of scope armed, in a headless run. */
  class CreatedDirGuard {
    const firstCreated: Option<Path>
    const headless: bool
    var armed: bool

    constructor (firstCreated: Option<Path>, headless: bool)
      ensures this.firstCreated == firstCreated && this.headless == headless && armed
    {
      this.firstCreated, this.headless, armed := firstCreated, headless, true;
    }

    method Disarm()
      modifies this
      ensures !armed
    {
      armed := false;
    }

    /** Best effort: with `mayFail` the removal may stop after some of the tree, which is
        ignored. */
    method Drop(disk: Disk, mayFail: bool)
      modifies disk
      ensures !(headless && armed && firstCreated.Some?) ==> disk.nodes == old(disk.nodes)
      ensures headless && armed && firstCreated.Some? ==>
                && (!mayFail ==> disk.nodes == WithoutTree(old(disk.nodes), firstCreated.value))
                && BetweenTrees(WithoutTree(old(disk.nodes), firstCreated.value), disk.nodes, old(disk.nodes))
    {
      if headless && armed && firstCreated.Some? {
        var stays: set<Path> := *;
        disk.nodes := WithoutTree(disk.nodes, firstCreated.value)
          + if mayFail then map n | n in disk.nodes && n in stays :: disk.nodes[n] else map[];
      }
    }
  }

  /** `low` is part of `t`, which is part of `high`. */
  ghost predicate BetweenTrees(low: Tree, t: Tree, high: Tree) {
    && (forall n :: n in low ==> n in t && t[n] == low[n])
    && (forall n :: n in t ==> n in high && high[n] == t[n])
  }

  // ------------------------------------------------------ what may remain

  /** The file system after a headless run with this tree in its target has dropped the guard of
      the created directory, still armed; some of the removal may fail. */
  ghost predicate DropsTo(before: Tree, target: Path, made: Tree, inner: Tree, mayFail: bool, after: Tree) {
    var mounted := Mounted(made, target, inner);
    if Exists(before, target) then after == mounted
    else exists first :: RemovesFrom(before, target, first, mounted, mayFail, after)
  }

  ghost predicate RemovesFrom(before: Tree, target: Path, first: Path, mounted: Tree, mayFail: bool, after: Tree) {
    && IsFirstUncreated(before, target, first)
    && BetweenTrees(WithoutTree(mounted, first), after, mounted)
    && (!mayFail ==> after == WithoutTree(mounted, first))
  }

  /** Nothing outside the target changes, except that directories leading to it may appear. */
  ghost predicate OnlyTargetChanges(before: Tree, after: Tree, target: Path) {
    && (forall n :: n in before && !Above(target, n) ==> n in after && after[n] == before[n])
    && (forall n :: n in after && !Above(target, n) && n !in before ==> n <= target && after[n] == Directory)
  }

  lemma MountChangesOnlyTarget(t: Tree, target: Path, inner: Tree)
    requires WellFormed(t) && WithDirs(t, target).Some? && [] !in inner
    ensures OnlyTargetChanges(t, Mounted(WithDirs(t, target).value, target, inner), target)
  {
    hide Mounted, WithDirs;
    var made := WithDirs(t, target).value;
    var after := Mounted(made, target, inner);
    forall n | !Above(target, n)
      ensures n in t ==> n in after && after[n] == t[n]
      ensures n in after && n !in t ==> n <= target && after[n] == Directory
    {
      MountedAt(made, target, inner, n);
      CreatedAt(t, target, n);
    }
  }

  lemma CreatedAt(t: Tree, target: Path, n: Path)
    requires WithDirs(t, target).Some?
    ensures n in t ==> n in WithDirs(t, target).value && WithDirs(t, target).value[n] == t[n]
    ensures n in WithDirs(t, target).value && n !in t ==> n <= target && WithDirs(t, target).value[n] == Directory
  {
    MadeDirsAt(t, target, |target|, n);
    if n in t && 0 < |n| <= |target| && n <= target {
      assert n == target[..|n|];
      assert !IsFile(t, n);
    }
  }

  /** A creation that stops part-way stays within that bound. */
  lemma StoppedCreationStaysInside(t: Tree, target: Path, mayFail: bool, after: Tree)
    requires CreationStops(t, target, mayFail, after)
    ensures OnlyTargetChanges(t, after, target)
  {
    hide WithDirs;
    if WithDirs(t, target).Some? {
      var d :| StopsBelow(t, target, d, after);
      forall n
        ensures n in t ==> n in after && after[n] == t[n]
        ensures n in after && n !in t ==> n <= target && after[n] == Directory
      {
        CreatedAt(t, d, n);
      }
    }
  }

  /** Removing any part of the created tree, but nothing else, stays within that bound. */
  lemma PartialRemovalStaysInside(t: Tree, target: Path, first: Path, mounted: Tree, after: Tree)
    requires WellFormed(t) && IsFirstUncreated(t, target, first)
    requires OnlyTargetChanges(t, mounted, target) && BetweenTrees(WithoutTree(mounted, first), after, mounted)
    ensures OnlyTargetChanges(t, after, target)
  {
    forall n | n in t && !Above(target, n) ensures n in after && after[n] == t[n] {
      if first <= n { MissingBelowMissing(t, first, n); }
      assert n in WithoutTree(mounted, first);
    }
  }

  /** What dropping the guard amounts to. */
  lemma GuardDropped(t: Tree, target: Path, made: Tree, inner: Tree, first: Option<Path>, active: bool, mayFail: bool,
                     after: Tree)
    requires (first.None? <==> Exists(t, target)) && (first.Some? ==> IsFirstUncreated(t, target, first.value))
    requires var mounted := Mounted(made, target, inner);
             if active && first.Some? then
               && (!mayFail ==> after == WithoutTree(mounted, first.value))
               && BetweenTrees(WithoutTree(mounted, first.value), after, mounted)
             else after == mounted
    ensures active ==> DropsTo(t, target, made, inner, mayFail, after)
    ensures !active ==> after == Mounted(made, target, inner)
  {
    hide Mounted, WithoutTree, BetweenTrees, IsFirstUncreated, Exists;
    if active && first.Some? {
      assert RemovesFrom(t, target, first.value, Mounted(made, target, inner), mayFail, after);
    }
  }

  /** Nothing outside the target has changed then; and nothing at all where the removal works and
      the target is new or has not changed. */
  lemma DropRestores(t: Tree, target: Path, made: Tree, inner: Tree, mayFail: bool, after: Tree)
    requires WellFormed(t) && WithDirs(t, target) == Some(made) && [] !in inner
    requires DropsTo(t, target, made, inner, mayFail, after)
    ensures OnlyTargetChanges(t, after, target)
    ensures !mayFail && (!Exists(t, target) || inner == View(made, target)) ==> after == t
  {
    hide WithDirs, Mounted, View, WithoutTree, OnlyTargetChanges, WellFormed, BetweenTrees, IsFirstUncreated, Exists;
    MountChangesOnlyTarget(t, target, inner);
    if Exists(t, target) {
      NothingToCreate(t, target);
      MountedView(t, target);
    } else {
      var mounted := Mounted(made, target, inner);
      var first :| RemovesFrom(t, target, first, mounted, mayFail, after);
      PartialRemovalStaysInside(t, target, first, mounted, after);
      RemovalUndoesCreation(t, target, first, inner);
    }
  }

  lemma MountChanges(t: Tree, target: Path, inner: Tree)
    requires [] !in inner && inner != View(t, target)
    ensures Mounted(t, target, inner) != t
  {
    hide Mounted, View;
    var view := View(t, target);
    MountedView(t, target);
    if Mounted(t, target, inner) == t {
      forall n ensures (n in inner <==> n in view) && (n in inner ==> inner[n] == view[n]) {
        MountedAt(t, target, inner, target + n);
        MountedAt(t, target, view, target + n);
        assert (target + n)[|target|..] == n;
      }
    }
  }

  lemma {:induction false} BoundLengths(names: set<string>) returns (bound: nat)
    ensures forall s :: s in names ==> |s| < bound
    decreases |names|
  {
    if names == {} {
      bound := 0;
    } else {
      var s :| s in names;
      var rest := BoundLengths(names - {s});
      bound := if |s| < rest then rest else |s| + 1;
    }
  }

  lemma FreshName(t: Tree) returns (name: string)
    ensures [name] !in t
  {
    var names := set n | n in t && |n| == 1 :: n[0];
    var bound := BoundLengths(names);
    name := seq(bound, _ => 'x');
    forall n | n in t ensures n != [name] {
      if |n| == 1 { assert n[0] in names; }
    }
  }

  /** A headless run that does not commit can be relied on to leave the file system as it was:
      a file is in the way of the target, or nothing but the last component of the target is missing. */
  predicate LeavesNoTrace(before: Tree, target: Path) {
    WithDirs(before, target).None? || (!Exists(before, target) && Exists(before, Parent(target)))
  }

  /** When only the last component is missing, no directory above it is created. */
  lemma StoppedAtParent(before: Tree, target: Path, mayFail: bool, after: Tree)
    requires WellFormed(before) && LeavesNoTrace(before, target)
    requires CreationStops(before, target, mayFail, after)
    ensures after == before
  {
    hide WithDirs;
    if WithDirs(before, target).Some? {
      var d :| StopsBelow(before, target, d, after);
      assert d <= Parent(target);
      if d != [] && d != Parent(target) { AncestorsAreDirs(before, d, Parent(target)); }
      NothingToCreate(before, d);
    }
  }

  lemma ParentCreated(before: Tree, target: Path)
    requires target != [] && WithDirs(before, target).Some?
    ensures WithDirs(before, Parent(target)).Some?
  {
    var parent := Parent(target);
    forall k | 0 < k <= |parent| ensures !IsFile(before, parent[..k]) {
      assert parent[..k] == target[..k];
    }
  }

  lemma {:induction false} FirstMissing(t: Tree, target: Path, n: nat) returns (first: Path)
    requires n <= |target| && !Exists(t, target[..n])
    ensures IsFirstUncreated(t, target, first)
  {
    if k :| 0 < k < n && !Exists(t, target[..k]) {
      first := FirstMissing(t, target, k);
    } else {
      first := target[..n];
      forall a | Above(a, first) ensures Exists(t, a) {
        assert a == target[..|a|];
      }
    }
  }

  /** After the commit nothing is taken back: an error leaves a new target behind. */
  lemma CommittedNeverRestores(before: Tree, target: Path, inner: Tree)
    requires WithDirs(before, target).Some? && !Exists(before, target) && [] !in inner
    ensures Mounted(WithDirs(before, target).value, target, inner) != before
  {
    hide Mounted;
    MountedAt(WithDirs(before, target).value, target, inner, target);
    MadeDirsAt(before, target, |target|, target);
  }
}
