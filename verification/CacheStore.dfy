/** The store: one directory of entry files named by their digests, an ownership marker and
    temporary files.  Reads never fail; writes go to a temporary file that is renamed. */
module CacheStore {
  import opened Wrappers
  import opened Models
  import opened EntryCodec

  datatype Node = FileNode(bytes: Bytes) | DirNode

  /** The cache directory: whether it exists, and its entries by name. */
  datatype Dir = Dir(present: bool, nodes: map<string, Node>)

  predicate IsHexDigit(c: char) { '0' <= c <= '9' || 'a' <= c <= 'f' }

  /** A 64-character lowercase hex digest: the only names entries may have. */
  predicate IsCacheKey(key: string) {
    |key| == 64 && forall i :: 0 <= i < |key| ==> IsHexDigit(key[i])
  }

  /** Two lowercase hex digits a byte. */
  function Hex(bytes: Bytes): string {
    if bytes == [] then "" else [HexChar(bytes[0] / 16), HexChar(bytes[0] % 16)] + Hex(bytes[1..])
  }

  function HexChar(n: nat): char
    requires n < 16
  {
    if n < 10 then '0' + n as char else 'a' + (n - 10) as char
  }

  /** Cache keys are exactly the hex renderings of 32-byte digests: every digest can be stored. */
  lemma CacheKeysAreDigests(key: string)
    ensures IsCacheKey(key) <==> exists bytes: Bytes :: |bytes| == 32 && Hex(bytes) == key
  {
    if IsCacheKey(key) {
      var bytes := Unhex(key);
    }
    if bytes: Bytes :| |bytes| == 32 && Hex(bytes) == key {
      HexDigits(bytes);
    }
  }

  lemma {:induction false} HexDigits(bytes: Bytes)
    ensures |Hex(bytes)| == 2 * |bytes| && forall i :: 0 <= i < |Hex(bytes)| ==> IsHexDigit(Hex(bytes)[i])
  {
    if bytes != [] { HexDigits(bytes[1..]); }
  }

  lemma {:induction false} Unhex(key: string) returns (bytes: Bytes)
    requires |key| % 2 == 0 && forall i :: 0 <= i < |key| ==> IsHexDigit(key[i])
    ensures 2 * |bytes| == |key| && Hex(bytes) == key
  {
    if key == "" {
      bytes := [];
    } else {
      var rest := Unhex(key[2..]);
      bytes := [16 * Nibble(key[0]) + Nibble(key[1])] + rest;
      assert key == [key[0], key[1]] + key[2..] && bytes[1..] == rest;
    }
  }

  function Nibble(c: char): (n: nat)
    requires IsHexDigit(c)
    ensures n < 16 && HexChar(n) == c
  {
    if c <= '9' then c as int - '0' as int else c as int - 'a' as int + 10
  }

  const MARKER := "CACHEDIR.TAG"

  function Ascii(s: string): Bytes { seq(|s|, i requires 0 <= i < |s| => s[i] as int % 256) }

  const MARKER_CONTENTS: Bytes := Ascii(
    "Signature: 8a477f597d28d172789f06886806bc55\n" +
    "# This file marks this directory as a cyanprint execution-output cache.\n" +
    "# For information about cache directory tags see https://bford.info/cachedir/\n")

  function ReadEntry(codec: Codec, nodes: map<string, Node>, key: string): Option<CacheEntry> {
    if IsCacheKey(key) && key in nodes && nodes[key].FileNode? then Decode(codec, nodes[key].bytes) else None
  }

  /** The directory seen as a map from digest to entry. */
  function Entries(codec: Codec, nodes: map<string, Node>): map<string, CacheEntry> {
    map k | k in nodes && ReadEntry(codec, nodes, k).Some? :: ReadEntry(codec, nodes, k).value
  }

  // ------------------------------------------------------ writing one entry

  /** The directory carries this cache's own marker, contents included. */
  predicate IsOwned(d: Dir) {
    d.present && MARKER in d.nodes && d.nodes[MARKER] == FileNode(MARKER_CONTENTS)
  }

  /** How far a put has come.  A partial write has put its first `written` bytes on disk. */
  datatype PutPoint =
    | Untouched
    | DirMade
    | MarkerPartial(written: nat)
    | Owned                       // directory and marker in place, no temporary file
    | TempPartial(written: nat)
    | Renamed

  function Prefix(bytes: Bytes, n: nat): Bytes { if n <= |bytes| then bytes[..n] else bytes }

  function MadeDir(d: Dir): Dir { d.(present := true) }

  function MarkedDir(d: Dir): Dir {
    if MARKER in d.nodes then MadeDir(d) else Dir(true, d.nodes[MARKER := FileNode(MARKER_CONTENTS)])
  }

  /** What is on disk at each point of a put of `bytes` under `key` through `temp`. */
  function DirAt(d: Dir, key: string, bytes: Bytes, temp: string, point: PutPoint): Dir {
    match point
    case Untouched => d
    case DirMade => MadeDir(d)
    case MarkerPartial(n) =>
      if MARKER in d.nodes then MadeDir(d) else Dir(true, d.nodes[MARKER := FileNode(Prefix(MARKER_CONTENTS, n))])
    case Owned => MarkedDir(d)
    case TempPartial(n) => MarkedDir(d).(nodes := MarkedDir(d).nodes[temp := FileNode(Prefix(bytes, n))])
    case Renamed => MarkedDir(d).(nodes := MarkedDir(d).nodes[key := FileNode(bytes)])
  }

  /** Temporary names start with a dot, so they are never digests or the marker. */
  predicate IsTempName(name: string) { |name| > 0 && name[0] == '.' }

  /** Nothing that is there already prevents renaming `name` over `key`. */
  predicate CanPublish(nodes: map<string, Node>, key: string, name: string) {
    IsTempName(name) && name !in nodes && !(key in nodes && nodes[key].DirNode?)
  }

  /** No call of `EnsureDir` that is needed fails. */
  predicate DirBecomesReady(d: Dir, fails: set<IoCall>) {
    && (!d.present ==> fails !! {CreateDir, RestrictDir})
    && (MARKER !in d.nodes ==> fails !! {CreateMarker, WriteMarker})
  }

  /** No call of a put that is needed fails. */
  predicate PutCompletes(d: Dir, key: string, name: string, fails: set<IoCall>) {
    && IsCacheKey(key) && DirBecomesReady(d, fails)
    && fails !! {CreateTemp, WriteTemp, Persist} && CanPublish(d.nodes, key, name)
  }

  /** Stopping a put anywhere, by failure or crash, leaves every other entry as it was and
      this key with its old entry or the complete new one. */
  lemma PutIsAtomic(codec: Codec, d: Dir, key: string, entry: CacheEntry, temp: string, point: PutPoint)
    requires codec.Valid() && Fits(Encoded(codec, entry))
    requires IsCacheKey(key) && IsTempName(temp)
    ensures var d' := DirAt(d, key, Encoded(codec, entry), temp, point);
            Entries(codec, d'.nodes) == if point.Renamed? then Entries(codec, d.nodes)[key := entry]
              else Entries(codec, d.nodes)
  {
    hide Decode, Encoded, DirAt;
    var d' := DirAt(d, key, Encoded(codec, entry), temp, point);
    forall k ensures ReadEntry(codec, d'.nodes, k) ==
      (if point.Renamed? && k == key then Some(entry) else ReadEntry(codec, d.nodes, k)) {
      PutReads(codec, d, key, entry, temp, point, k);
    }
    EntriesByRead(codec, d'.nodes, if point.Renamed? then Entries(codec, d.nodes)[key := entry]
                  else Entries(codec, d.nodes));
  }

  /** A map of entries is what reading every key gives. */
  lemma EntriesByRead(codec: Codec, nodes: map<string, Node>, m: map<string, CacheEntry>)
    requires forall k :: ReadEntry(codec, nodes, k) == if k in m then Some(m[k]) else None
    ensures Entries(codec, nodes) == m
  {
    hide Decode;
    forall k ensures k in Entries(codec, nodes) <==> k in m {
      assert ReadEntry(codec, nodes, k).Some? <==> k in m;
    }
  }

  lemma PutReads(codec: Codec, d: Dir, key: string, entry: CacheEntry, temp: string, point: PutPoint, k: string)
    requires codec.Valid() && Fits(Encoded(codec, entry))
    requires IsCacheKey(key) && IsTempName(temp)
    ensures ReadEntry(codec, DirAt(d, key, Encoded(codec, entry), temp, point).nodes, k) ==
            if point.Renamed? && k == key then Some(entry) else ReadEntry(codec, d.nodes, k)
  {
    hide Decode, Encoded;
    assert !IsCacheKey(MARKER) && !IsCacheKey(temp);
    DecodeEncode(codec, entry);
  }

  // ------------------------------------------------------------- the store

  datatype PutOutcome = Stored | Failed | Crashed

  /** The calls of a put that may fail. */
  datatype IoCall = CreateDir | RestrictDir | CreateMarker | WriteMarker | CreateTemp | WriteTemp | Persist

  class Store {
    const codec: Codec
    var present: bool
    var nodes: map<string, Node>

    constructor (codec: Codec, dir: Dir)
      ensures this.codec == codec && Snapshot() == dir
    {
      this.codec := codec;
      this.present, this.nodes := dir.present, dir.nodes;
    }

    function Snapshot(): Dir
      reads this
    {
      Dir(present, nodes)
    }

    function View(): map<string, CacheEntry>
      reads this
    {
      Entries(codec, nodes)
    }

    /** Any I/O error or decode failure is a miss; `readable` says that opening and reading the
        file succeed when it is there. */
    method Get(key: string, readable: bool) returns (entry: Option<CacheEntry>)
      ensures entry == if readable && key in View() then Some(View()[key]) else None
    {
      if !IsCacheKey(key) {
        return None;
      }
      if !readable || key !in nodes || nodes[key].DirNode? {
        return None;
      }
      entry := Decode(codec, nodes[key].bytes);
    }

    /** Creates the directory and the ownership marker where they are missing. */
    method EnsureDir(fails: set<IoCall>, mayCrash: bool) returns (outcome: PutOutcome, ghost point: PutPoint)
      modifies this
      ensures point in {Untouched, DirMade, Owned} || point.MarkerPartial?
      ensures Snapshot() == DirAt(old(Snapshot()), "", [], "", point)
      ensures outcome.Stored? ==> point == Owned
      ensures outcome.Crashed? ==> mayCrash
      ensures outcome.Stored? <==> DirBecomesReady(old(Snapshot()), fails)
    {
      point := Untouched;
      if !present {
        if CreateDir in fails { return Failed, point; }
        present, point := true, DirMade;
        if RestrictDir in fails { return if mayCrash then Crashed else Failed, point; }
      }
      if MARKER !in nodes {
        if CreateMarker in fails { return Failed, DirMade; }
        var written: nat := *;
        nodes := nodes[MARKER := FileNode(Prefix(MARKER_CONTENTS, written))];
        point := MarkerPartial(written);
        if WriteMarker in fails { return if mayCrash then Crashed else Failed, point; }
        nodes := nodes[MARKER := FileNode(MARKER_CONTENTS)];
      }
      return Stored, Owned;
    }

    /** `name` is the random name of the temporary file and `fails` the calls that do not
        complete; with `mayCrash` the process stops there, in which case the temporary file
        stays behind. */
    method PutInner(key: string, entry: CacheEntry, name: string, fails: set<IoCall>, mayCrash: bool)
        returns (outcome: PutOutcome, ghost temp: string, ghost point: PutPoint)
      modifies this
      ensures !IsCacheKey(key) ==> outcome == Failed && Snapshot() == old(Snapshot())
      ensures IsTempName(temp)
      ensures Snapshot() == DirAt(old(Snapshot()), key, Encoded(codec, entry), temp, point)
      ensures outcome.Stored? <==> point.Renamed?
      ensures outcome.Crashed? ==> mayCrash
      ensures point.TempPartial? ==> outcome.Crashed?
      ensures outcome.Stored? <==> PutCompletes(old(Snapshot()), key, name, fails)
    {
      temp, point := ".tmp", Untouched;
      if !IsCacheKey(key) {
        return Failed, temp, point;
      }
      outcome, point := EnsureDir(fails, mayCrash);
      if !outcome.Stored? {
        return outcome, temp, point;
      }
      var encoded := Encode(codec, entry);
      outcome, temp, point := Publish(key, encoded, name, fails, mayCrash);
    }

    /** Writes a temporary file and renames it over the entry. */
    method Publish(key: string, encoded: Bytes, name: string, fails: set<IoCall>, mayCrash: bool)
        returns (outcome: PutOutcome, ghost temp: string, ghost point: PutPoint)
      modifies this`nodes
      ensures IsTempName(temp) && (point.Owned? || point.TempPartial? || point.Renamed?)
      ensures nodes == match point
                       case TempPartial(n) => old(nodes)[temp := FileNode(Prefix(encoded, n))]
                       case Renamed => old(nodes)[key := FileNode(encoded)]
                       case _ => old(nodes)
      ensures outcome.Stored? <==> point.Renamed?
      ensures point.TempPartial? <==> outcome.Crashed?
      ensures outcome.Crashed? ==> mayCrash
      ensures outcome.Stored? <==> fails !! {CreateTemp, WriteTemp, Persist} && CanPublish(old(nodes), key, name)
    {
      temp, point := ".tmp", Owned;
      if CreateTemp in fails || !IsTempName(name) || name in nodes {
        return Failed, temp, point;
      }
      temp := name;
      var written: nat := *;
      ghost var before := nodes;
      nodes := nodes[name := FileNode(Prefix(encoded, written))];
      if WriteTemp in fails {
        if mayCrash { return Crashed, temp, TempPartial(written); }
        nodes := nodes - {name};
        assert nodes == before;
        return Failed, temp, Owned;
      }
      nodes := nodes[name := FileNode(encoded)];
      if Persist in fails || (key in nodes && nodes[key].DirNode?) {
        assert Prefix(encoded, |encoded|) == encoded;
        if mayCrash { return Crashed, temp, TempPartial(|encoded|); }
        nodes := nodes - {name};
        assert nodes == before;
        return Failed, temp, Owned;
      }
      nodes := (nodes - {name})[key := FileNode(encoded)];
      assert nodes == before[key := FileNode(encoded)];
      return Stored, temp, Renamed;
    }

    /** Best effort: an error is swallowed.  Stores exactly when every call that the put makes
        completes. */
    method Put(key: string, entry: CacheEntry, name: string, fails: set<IoCall>)
      requires codec.Valid() && Fits(Encoded(codec, entry))
      modifies this
      ensures View() == if PutCompletes(old(Snapshot()), key, name, fails) then old(View())[key := entry]
              else old(View())
    {
      var outcome;
      ghost var temp, point;
      outcome, temp, point := PutInner(key, entry, name, fails, false);
      if IsCacheKey(key) {
        PutIsAtomic(codec, old(Snapshot()), key, entry, temp, point);
      }
    }

    /** `removable` says that removing the file succeeds when it is there. */
    method Remove(key: string, removable: bool)
      modifies this`nodes
      ensures View() == if removable then old(View()) - {key} else old(View())
      ensures forall name :: name != key ==>
                (name in nodes <==> name in old(nodes)) && (name in nodes ==> nodes[name] == old(nodes)[name])
    {
      RemovalReads(codec, nodes, key);
      if !IsCacheKey(key) {
        return;
      }
      if key in nodes && nodes[key].FileNode? && removable {
        nodes := nodes - {key};
      }
    }

    /** Removes entry files in directory order, which is arbitrary.  `unreadable` are the files
        that cannot be read or inspected: a marker among them counts as none, and entries among
        them are passed over.  With `mayFail` the listing or a removal may fail. */
    method Clear(unreadable: set<string>, mayFail: bool) returns (ok: bool)
      modifies this
      ensures present == old(present) && (!mayFail ==> ok)
      ensures !IsOwned(old(Snapshot())) || MARKER in unreadable ==> ok && nodes == old(nodes)
      ensures nodes.Keys <= old(nodes).Keys && forall n :: n in nodes ==> nodes[n] == old(nodes)[n]
      ensures forall n :: n in old(nodes) && (n in unreadable || !IsEntry(n, old(nodes)[n])) ==> n in nodes
      ensures ok && IsOwned(old(Snapshot())) && MARKER !in unreadable ==>
                (forall n :: n in nodes && IsEntry(n, nodes[n]) ==> n in unreadable)
                && EntryBytes(nodes - unreadable) == 0
      ensures ok && IsOwned(old(Snapshot())) && unreadable == {} ==>
                EntryBytes(nodes) == 0 && Entries(codec, nodes) == map[]
    {
      if !present {
        return true;
      }
      if MARKER in unreadable || MARKER !in nodes || nodes[MARKER] != FileNode(MARKER_CONTENTS) {
        return true;
      }
      if mayFail {
        if * { return false; }
      }
      var listing := nodes.Keys;
      while listing != {}
        invariant present == old(present)
        invariant listing <= old(nodes).Keys
        invariant nodes.Keys <= old(nodes).Keys && forall n :: n in nodes ==> nodes[n] == old(nodes)[n]
        invariant forall n :: n in old(nodes) && (n in listing || n in unreadable || !IsEntry(n, old(nodes)[n])) ==>
                    n in nodes
        invariant forall n :: n in nodes && n !in listing ==> !IsEntry(n, nodes[n]) || n in unreadable
        decreases |listing|
      {
        var name :| name in listing;
        listing := listing - {name};
        if name !in unreadable && IsEntry(name, nodes[name]) {
          if mayFail {
            if * { return false; }
          }
          nodes := nodes - {name};
        }
      }
      NoEntriesNoBytes(nodes - unreadable);
      if unreadable == {} { assert nodes - {} == nodes; }
      return true;
    }

    /** Bytes held by entry files; those that cannot be inspected count nothing. */
    method Size(unreadable: set<string>, listable: bool) returns (total: nat)
      ensures total == if present && listable then EntryBytes(nodes - unreadable) else 0
    {
      total := 0;
      if !present || !listable {
        return;
      }
      ghost var readable := nodes - unreadable;
      var listing := nodes.Keys;
      ghost var seen: map<string, Node> := map[];
      while listing != {}
        invariant listing <= nodes.Keys
        invariant seen == readable - listing
        invariant total == EntryBytes(seen)
        decreases |listing|
      {
        var name :| name in listing;
        listing := listing - {name};
        if name !in unreadable {
          ghost var next := seen[name := nodes[name]];
          EntryBytesWithout(next, name);
          assert next - {name} == seen;
          seen := next;
          if IsEntry(name, nodes[name]) {
            total := total + |nodes[name].bytes|;
          }
        }
      }
      assert seen == readable;
    }
  }

  /** A file with the name of an entry. */
  predicate IsEntry(name: string, node: Node) { IsCacheKey(name) && node.FileNode? }

  function NodeBytes(name: string, node: Node): nat {
    if IsEntry(name, node) then |node.bytes| else 0
  }

  ghost function EntryBytes(nodes: map<string, Node>): nat
    decreases |nodes|
  {
    if nodes == map[] then 0
    else
      var n :| n in nodes;
      NodeBytes(n, nodes[n]) + EntryBytes(nodes - {n})
  }

  lemma {:induction false} EntryBytesWithout(nodes: map<string, Node>, name: string)
    requires name in nodes
    ensures EntryBytes(nodes) == NodeBytes(name, nodes[name]) + EntryBytes(nodes - {name})
    decreases |nodes|
  {
    var n :| n in nodes && EntryBytes(nodes) == NodeBytes(n, nodes[n]) + EntryBytes(nodes - {n});
    if n != name {
      EntryBytesWithout(nodes - {n}, name);
      EntryBytesWithout(nodes - {name}, n);
      assert nodes - {n} - {name} == nodes - {name} - {n};
    }
  }

  /** A new file adds its length when it has the name of an entry; nothing else adds anything. */
  lemma SizeCountsEntryFiles(nodes: map<string, Node>, name: string, node: Node)
    requires name !in nodes
    ensures EntryBytes(map[]) == 0
    ensures EntryBytes(nodes[name := node])
            == EntryBytes(nodes) + if IsCacheKey(name) && node.FileNode? then |node.bytes| else 0
  {
    EntryBytesWithout(nodes[name := node], name);
    assert nodes[name := node] - {name} == nodes;
  }

  /** After a successful clear of an owned directory nothing counts toward the size. */
  lemma {:induction false} NoEntriesNoBytes(nodes: map<string, Node>)
    requires forall n :: n in nodes ==> !IsEntry(n, nodes[n])
    ensures EntryBytes(nodes) == 0
    decreases |nodes|
  {
    if nodes != map[] {
      var n :| n in nodes;
      EntryBytesWithout(nodes, n);
      NoEntriesNoBytes(nodes - {n});
    }
  }

  // ------------------------------------------- any sequence of operations

  datatype StoreOp =
    | PutOp(key: string, entry: CacheEntry, temp: string, point: PutPoint)
    | RemoveOp(name: string, done: bool)

  ghost predicate ProperOp(codec: Codec, op: StoreOp) {
    match op
    case PutOp(key, entry, temp, point) =>
      IsTempName(temp) && Fits(Encoded(codec, entry)) && (IsCacheKey(key) || point.Untouched?)
    case RemoveOp(name, done) => true
  }

  function DirAfter(codec: Codec, d: Dir, ops: seq<StoreOp>): Dir {
    if ops == [] then d
    else
      var before := DirAfter(codec, d, ops[..|ops| - 1]);
      match ops[|ops| - 1]
      case PutOp(key, entry, temp, point) => DirAt(before, key, Encoded(codec, entry), temp, point)
      case RemoveOp(name, done) =>
        if done && IsCacheKey(name) && name in before.nodes && before.nodes[name].FileNode?
        then before.(nodes := before.nodes - {name}) else before
  }

  /** The same history on an abstract map: a put that reached its rename replaces the entry,
      any other put does nothing. */
  function MapAfter(m: map<string, CacheEntry>, ops: seq<StoreOp>): map<string, CacheEntry> {
    if ops == [] then m
    else
      var before := MapAfter(m, ops[..|ops| - 1]);
      match ops[|ops| - 1]
      case PutOp(key, entry, temp, point) => if point.Renamed? then before[key := entry] else before
      case RemoveOp(name, done) => if done then before - {name} else before
  }

  lemma RemovalReads(codec: Codec, nodes: map<string, Node>, name: string)
    ensures Entries(codec, nodes - {name}) == Entries(codec, nodes) - {name}
    ensures !(IsCacheKey(name) && name in nodes && nodes[name].FileNode?) ==>
              Entries(codec, nodes) == Entries(codec, nodes) - {name}
  {
    hide Decode;
    forall k ensures ReadEntry(codec, nodes - {name}, k) == (if k == name then None else ReadEntry(codec, nodes, k)) {}
    EntriesByRead(codec, nodes - {name}, Entries(codec, nodes) - {name});
  }

  /** Over any history of puts and removals, each stopped anywhere, the directory reads as an
      atomic map. */
  lemma {:induction false} StoreRefinesMap(codec: Codec, d: Dir, ops: seq<StoreOp>)
    requires codec.Valid() && forall i :: 0 <= i < |ops| ==> ProperOp(codec, ops[i])
    ensures Entries(codec, DirAfter(codec, d, ops).nodes) == MapAfter(Entries(codec, d.nodes), ops)
  {
    if ops != [] {
      var prefix := ops[..|ops| - 1];
      var last := ops[|ops| - 1];
      StoreRefinesMap(codec, d, prefix);
      var before := DirAfter(codec, d, prefix);
      if last.PutOp? {
        if IsCacheKey(last.key) {
          PutIsAtomic(codec, before, last.key, last.entry, last.temp, last.point);
        }
      } else {
        RemovalReads(codec, before.nodes, last.name);
      }
    }
  }

  // ------------------------------------------------------------- ownership

  /** The put got as far as creating the marker where there is none. */
  predicate Marks(point: PutPoint) { !point.Untouched? && !point.DirMade? }

  /** The put stopped before the whole marker was written. */
  predicate CutsMarkerShort(point: PutPoint) {
    point.MarkerPartial? && point.written < |MARKER_CONTENTS|
  }

  /** Where the first put that created the marker stopped. */
  function FirstMark(ops: seq<StoreOp>): Option<PutPoint> {
    if ops == [] then None
    else
      var before, last := FirstMark(ops[..|ops| - 1]), ops[|ops| - 1];
      if before.Some? then before
      else if last.PutOp? && Marks(last.point) then Some(last.point)
      else None
  }

  lemma {:induction false} OpKeepsMarker(codec: Codec, d: Dir, op: StoreOp)
    requires MARKER in d.nodes && ProperOp(codec, op)
    ensures DirAfter(codec, d, [op]).nodes.Keys >= {MARKER}
    ensures DirAfter(codec, d, [op]).nodes[MARKER] == d.nodes[MARKER]
    ensures d.present ==> DirAfter(codec, d, [op]).present
  {
    assert [op][..0] == [] && !IsCacheKey(MARKER);
  }

  /** A marker is never completed or repaired: the directory is owned after a history exactly
      when the put that created the marker wrote all of it. */
  lemma {:induction false} OwnedIffMarkerCompleted(codec: Codec, d: Dir, ops: seq<StoreOp>)
    requires MARKER !in d.nodes && forall i :: 0 <= i < |ops| ==> ProperOp(codec, ops[i])
    ensures MARKER in DirAfter(codec, d, ops).nodes <==> FirstMark(ops).Some?
    ensures FirstMark(ops).Some? ==> DirAfter(codec, d, ops).present
    ensures IsOwned(DirAfter(codec, d, ops)) <==> FirstMark(ops).Some? && !CutsMarkerShort(FirstMark(ops).value)
  {
    if ops != [] {
      hide Encoded;
      var prefix, last := ops[..|ops| - 1], ops[|ops| - 1];
      OwnedIffMarkerCompleted(codec, d, prefix);
      var before := DirAfter(codec, d, prefix);
      assert [last][..0] == [] && DirAfter(codec, before, []) == before;
      assert DirAfter(codec, d, ops) == DirAfter(codec, before, [last]);
      if MARKER in before.nodes {
        OpKeepsMarker(codec, before, last);
      } else {
        FirstMarker(codec, before, last);
      }
    }
  }

  lemma {:induction false} FirstMarker(codec: Codec, d: Dir, op: StoreOp)
    requires MARKER !in d.nodes && ProperOp(codec, op)
    ensures var after := DirAfter(codec, d, [op]);
            && (MARKER in after.nodes <==> op.PutOp? && Marks(op.point))
            && (MARKER in after.nodes ==> after.present)
            && (IsOwned(after) <==> op.PutOp? && Marks(op.point) && !CutsMarkerShort(op.point))
  {
    hide Encoded;
    assert [op][..0] == [] && DirAfter(codec, d, []) == d && !IsCacheKey(MARKER);
    if op.PutOp? && op.point.MarkerPartial? {
      var n := op.point.written;
      assert n < |MARKER_CONTENTS| ==> |Prefix(MARKER_CONTENTS, n)| == n;
      assert n == |MARKER_CONTENTS| ==> Prefix(MARKER_CONTENTS, n) == MARKER_CONTENTS;
    }
  }

  /** A crash in the middle of the first marker write: whatever puts and removals follow, the
      directory is never this cache's again. */
  lemma {:induction false} ShortMarkerIsForever(codec: Codec, d: Dir, key: string, entry: CacheEntry, temp: string,
                                                n: nat, later: seq<StoreOp>)
    requires MARKER !in d.nodes && n < |MARKER_CONTENTS|
    requires ProperOp(codec, PutOp(key, entry, temp, MarkerPartial(n)))
    requires forall i :: 0 <= i < |later| ==> ProperOp(codec, later[i])
    ensures !IsOwned(DirAfter(codec, d, [PutOp(key, entry, temp, MarkerPartial(n))] + later))
  {
    var crashed := PutOp(key, entry, temp, MarkerPartial(n));
    FirstMarkStays([crashed], later);
    assert [crashed][..0] == [];
    OwnedIffMarkerCompleted(codec, d, [crashed] + later);
  }

  lemma {:induction false} FirstMarkStays(ops: seq<StoreOp>, later: seq<StoreOp>)
    requires FirstMark(ops).Some?
    ensures FirstMark(ops + later) == FirstMark(ops)
    decreases |later|
  {
    if later == [] {
      assert ops + later == ops;
    } else {
      FirstMarkStays(ops, later[..|later| - 1]);
      assert (ops + later)[..|ops + later| - 1] == ops + later[..|later| - 1];
    }
  }
}
