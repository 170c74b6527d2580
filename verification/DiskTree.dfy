/** A directory tree below a target directory.  A path is its list of components; the target
    itself is the empty path and always a directory. */
module DiskTree {
  import opened Wrappers
  import opened Models

  type Path = seq<string>

  datatype Node = File(content: Bytes) | Directory

  type Tree = map<Path, Node>

  function Parent(p: Path): Path
    requires p != []
  {
    p[..|p| - 1]
  }

  predicate IsFile(t: Tree, p: Path) { p in t && t[p].File? }
  predicate IsDir(t: Tree, p: Path) { p == [] || (p in t && t[p].Directory?) }

  /** Everything but the target lies in a directory of the tree. */
  ghost predicate WellFormed(t: Tree) {
    [] !in t && forall p :: p in t ==> IsDir(t, Parent(p))
  }

  function FilesOf(t: Tree): map<Path, Bytes> {
    map p | p in t && t[p].File? :: t[p].content
  }

  /** `d` lies strictly above `p`. */
  predicate Above(d: Path, p: Path) { d < p }

  lemma {:induction false} AncestorsAreDirs(t: Tree, d: Path, p: Path)
    requires WellFormed(t) && p in t && Above(d, p)
    ensures IsDir(t, d)
    decreases |p|
  {
    assert p != [];
    if d != Parent(p) {
      assert Above(d, Parent(p));
      AncestorsAreDirs(t, d, Parent(p));
    }
  }

  predicate HasChild(t: Tree, d: Path) { exists n :: n in t && n != [] && Parent(n) == d }

  /** A directory without children has nothing below it. */
  lemma {:induction false} NoChildNothingBelow(t: Tree, d: Path, n: Path)
    requires WellFormed(t) && n in t && Above(d, n)
    ensures HasChild(t, d)
    decreases |n|
  {
    if Parent(n) != d {
      assert Above(d, Parent(n));
      NoChildNothingBelow(t, d, Parent(n));
    }
  }

  /** No empty directory: every directory leads to a file. */
  ghost predicate Tight(t: Tree) {
    WellFormed(t) && forall d :: d in t && t[d].Directory? ==> exists f :: IsFile(t, f) && Above(d, f)
  }

  // ------------------------------------------------------------ cleanup

  /** The listed paths that are files. */
  ghost function Doomed(t: Tree, listed: set<Path>): set<Path> { set p | p in listed && IsFile(t, p) }

  ghost predicate LeadsTo(d: Path, doomed: set<Path>) { exists f :: f in doomed && Above(d, f) }

  /** A directory that holds nothing but doomed files and directories leading to them. */
  ghost predicate Dead(t: Tree, doomed: set<Path>, d: Path) {
    && d in t && t[d].Directory? && LeadsTo(d, doomed)
    && forall n :: n in t && Above(d, n) ==> n in doomed || LeadsTo(n, doomed)
  }

  /** What remains after the doomed files and the directories they empty are removed. */
  ghost function Survivors(t: Tree, doomed: set<Path>): Tree {
    map n | n in t && n !in doomed && !Dead(t, doomed, n) :: t[n]
  }

  /** Below a dead directory every remaining node is a dead directory. */
  lemma DeadBelow(t: Tree, doomed: set<Path>, d: Path, n: Path)
    requires WellFormed(t) && doomed <= FilesOf(t).Keys
    requires Dead(t, doomed, d) && n in t && n !in doomed && Above(d, n)
    ensures Dead(t, doomed, n)
  {
    var f :| f in doomed && Above(n, f);
    AncestorsAreDirs(t, n, f);
    forall m | m in t && Above(n, m) ensures m in doomed || LeadsTo(m, doomed) {
      assert Above(d, m);
    }
  }

  // ------------------------------------------------------------ writing

  /** `t` with the first `n` components of `p` as directories. */
  function MadeDirs(t: Tree, p: Path, n: nat): Tree
    requires n <= |p|
  {
    t + map k | 0 < k <= n :: p[..k] := Directory
  }

  /** `create_dir_all`: None when a component is a file. */
  function WithDirs(t: Tree, p: Path): Option<Tree> {
    if FileOnTheWay(t, p, |p|) then None else Some(MadeDirs(t, p, |p|))
  }

  /** What a failing `create_dir_all` leaves: no change where a component is a file; else, with
      `mayFail`, the directories above a component that could not be created. */
  ghost predicate CreationStops(t: Tree, p: Path, mayFail: bool, nodes: Tree) {
    if WithDirs(t, p).None? then nodes == t else mayFail && exists d :: StopsBelow(t, p, d, nodes)
  }

  ghost predicate StopsBelow(t: Tree, p: Path, d: Path, nodes: Tree) {
    Above(d, p) && p[..|d| + 1] !in t && WithDirs(t, d) == Some(nodes)
  }

  predicate FileOnTheWay(t: Tree, p: Path, n: nat)
    requires n <= |p|
  {
    exists k :: 0 < k <= n && IsFile(t, p[..k])
  }

  lemma MadeDirsAt(t: Tree, p: Path, n: nat, q: Path)
    requires n <= |p|
    ensures q in MadeDirs(t, p, n) <==> q in t || (0 < |q| <= n && q <= p)
    ensures q in MadeDirs(t, p, n) ==>
              MadeDirs(t, p, n)[q] == if 0 < |q| <= n && q <= p then Directory else t[q]
  {
    if 0 < |q| <= n && q <= p { assert q == p[..|q|]; }
  }

  lemma MadeDirsStepAt(t: Tree, p: Path, n: nat, q: Path)
    requires n < |p|
    ensures q in MadeDirs(t, p, n + 1) <==> q in MadeDirs(t, p, n)[p[..n + 1] := Directory]
    ensures q in MadeDirs(t, p, n + 1) ==>
              MadeDirs(t, p, n + 1)[q] == MadeDirs(t, p, n)[p[..n + 1] := Directory][q]
  {
    MadeDirsAt(t, p, n, q);
    MadeDirsAt(t, p, n + 1, q);
    if |q| == n + 1 && q <= p { assert q == p[..n + 1]; }
  }

  lemma MadeDirsStep(t: Tree, p: Path, n: nat)
    requires n < |p|
    ensures IsFile(MadeDirs(t, p, n), p[..n + 1]) <==> IsFile(t, p[..n + 1])
    ensures p[..n + 1] in MadeDirs(t, p, n) <==> p[..n + 1] in t
    ensures MadeDirs(t, p, n + 1) == MadeDirs(t, p, n)[p[..n + 1] := Directory]
  {
    var next := p[..n + 1];
    var made, stepped := MadeDirs(t, p, n + 1), MadeDirs(t, p, n)[next := Directory];
    MadeDirsAt(t, p, n, next);
    forall q ensures q in made <==> q in stepped {
      MadeDirsStepAt(t, p, n, q);
    }
    forall q | q in made ensures made[q] == stepped[q] {
      MadeDirsStepAt(t, p, n, q);
    }
  }

  /** Writing one file: skipped when a directory is in the way, None on an I/O error. */
  function Written(t: Tree, p: Path, content: Bytes): Option<Tree> {
    if IsDir(t, p) then Some(t)
    else match WithDirs(t, Parent(p))
      case None => None
      case Some(t') => Some(t'[p := File(content)])
  }

  /** Writing files one after the other. */
  function WrittenAll(t: Tree, files: map<Path, Bytes>, order: seq<Path>): Option<Tree>
    requires forall p :: p in order ==> p in files
  {
    if order == [] then Some(t)
    else
      var n := |order| - 1;
      match WrittenAll(t, files, order[..n])
      case None => None
      case Some(t') => Written(t', order[n], files[order[n]])
  }

  // ---------------------------------------------------- stopped part-way

  /** What a cleanup stopped by an I/O error leaves: nothing is missing but listed files and
      directories they leave empty. */
  ghost predicate PartlyCleaned(t: Tree, doomed: set<Path>, nodes: Tree) {
    && WellFormed(nodes)
    && (forall n :: n in nodes ==> n in t && nodes[n] == t[n])
    && (forall n :: n in t && n !in nodes ==> n in doomed || Dead(t, doomed, n))
  }

  /** What writing one file leaves when an I/O error stops it: some of the directories on the
      way, or all of them and the beginning of the file. */
  ghost predicate PartlyWritten(t: Tree, p: Path, content: Bytes, nodes: Tree) {
    !IsDir(t, p) && ((exists d :: DirsDownTo(t, p, d, nodes)) || (exists k: nat :: TornFile(t, p, content, k, nodes)))
  }

  ghost predicate DirsDownTo(t: Tree, p: Path, d: Path, nodes: Tree)
    requires p != []
  {
    d <= Parent(p) && WithDirs(t, d) == Some(nodes)
  }

  ghost predicate TornFile(t: Tree, p: Path, content: Bytes, k: nat, nodes: Tree)
    requires !IsDir(t, p)
  {
    k <= |content| && Written(t, p, content[..k]) == Some(nodes)
  }

  // -------------------------------------------------- files that stay

  /** Every file but those named is still there with its contents. */
  ghost predicate KeepsFiles(t: Tree, nodes: Tree, named: set<Path>) {
    forall f :: IsFile(t, f) && f !in named ==> f in nodes && nodes[f] == t[f]
  }

  lemma KeepsFilesChain(t: Tree, u: Tree, nodes: Tree, first: set<Path>, second: set<Path>)
    requires KeepsFiles(t, u, first) && KeepsFiles(u, nodes, second)
    ensures KeepsFiles(t, nodes, first + second)
  {
    forall f | IsFile(t, f) && f !in first + second ensures f in nodes && nodes[f] == t[f] {
      assert IsFile(u, f);
    }
  }

  lemma WithDirsKeepsFiles(t: Tree, d: Path)
    requires WithDirs(t, d).Some?
    ensures KeepsFiles(t, WithDirs(t, d).value, {})
  {
    forall f | IsFile(t, f) ensures f in WithDirs(t, d).value && WithDirs(t, d).value[f] == t[f] {
      MadeDirsAt(t, d, |d|, f);
      assert f <= d ==> f == d[..|f|];
    }
  }

  lemma WrittenKeepsFiles(t: Tree, p: Path, content: Bytes)
    requires Written(t, p, content).Some?
    ensures KeepsFiles(t, Written(t, p, content).value, {p})
  {
    if !IsDir(t, p) {
      WithDirsKeepsFiles(t, Parent(p));
    }
  }

  lemma {:induction false} WrittenAllKeepsFiles(t: Tree, files: map<Path, Bytes>, order: seq<Path>)
    requires (forall p :: p in order ==> p in files) && WrittenAll(t, files, order).Some?
    ensures KeepsFiles(t, WrittenAll(t, files, order).value, files.Keys)
  {
    hide Written;
    if order != [] {
      var n := |order| - 1;
      WrittenAllKeepsFiles(t, files, order[..n]);
      var before := WrittenAll(t, files, order[..n]).value;
      WrittenKeepsFiles(before, order[n], files[order[n]]);
      KeepsFilesChain(t, before, WrittenAll(t, files, order).value, files.Keys, {order[n]});
      assert files.Keys + {order[n]} == files.Keys;
    }
  }

  lemma PartlyWrittenKeepsFiles(t: Tree, p: Path, content: Bytes, nodes: Tree)
    requires PartlyWritten(t, p, content, nodes)
    ensures KeepsFiles(t, nodes, {p})
  {
    if d :| DirsDownTo(t, p, d, nodes) {
      WithDirsKeepsFiles(t, d);
    } else {
      var k: nat :| TornFile(t, p, content, k, nodes);
      WrittenKeepsFiles(t, p, content[..k]);
    }
  }

  lemma PartlyCleanedKeepsFiles(t: Tree, doomed: set<Path>, nodes: Tree)
    requires PartlyCleaned(t, doomed, nodes)
    ensures KeepsFiles(t, nodes, doomed)
  {
  }

  lemma SurvivorsKeepFiles(t: Tree, doomed: set<Path>)
    ensures KeepsFiles(t, Survivors(t, doomed), doomed)
  {
  }
}
