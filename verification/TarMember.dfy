/**
 The check of the archive that ships to the guest.

 The checker works on member names; the guest's `tar -xf` works on a file tree.
 The main result connects the two: an accepted archive extracts, member by member
 in any order, without one member touching another, and leaves the pinned bytes
 and the checked record in place.
 */
module TarMember {
  import opened PyJson

  type Bytes = seq<bv8>
  type Path = seq<string>

  // ----- member names -----

  function JoinSlash(parts: seq<string>): string {
    if parts == [] then ""
    else if |parts| == 1 then parts[0]
    else parts[0] + "/" + JoinSlash(parts[1..])
  }

  function Meaningful(parts: seq<string>): (r: seq<string>)
    ensures forall p :: p in r ==> p in parts && p != "" && p != "."
  {
    if parts == [] then []
    else if parts[0] == "" || parts[0] == "." then Meaningful(parts[1..])
    else [parts[0]] + Meaningful(parts[1..])
  }

  /** The path a member name stands for, or none when the name is refused. */
  function PathOf(raw: string): Option<Path> {
    if raw == "" || '\0' in raw || '\\' in raw || raw[0] == '/' then None
    else
      var parts := Meaningful(SplitOn(raw, '/'));
      if parts == [] || ".." in parts then None else Some(parts)
  }

  function NormalName(raw: string): Option<string> {
    match PathOf(raw)
    case None => None
    case Some(parts) => Some(JoinSlash(parts))
  }

  ghost predicate PlainPart(p: string) {
    p != "" && p != "." && p != ".." && '/' !in p && '\0' !in p && '\\' !in p
  }

  ghost predicate PlainPath(parts: Path) {
    parts != [] && forall i | 0 <= i < |parts| :: PlainPart(parts[i])
  }

  lemma {:induction false} SplitParts(s: string)
    ensures forall p | p in SplitOn(s, '/') :: '/' !in p && forall c | c in p :: c in s
  {
    if s != "" {
      SplitParts(s[1..]);
      var rest := SplitOn(s[1..], '/');
      forall p | p in SplitOn(s, '/') ensures '/' !in p && forall c | c in p :: c in s {
        if s[0] != '/' && p == [s[0]] + rest[0] {
          assert rest[0] in rest;
          assert forall c | c in p :: c == s[0] || c in rest[0];
        } else if p in rest {
        } else {
          assert p == "";
        }
      }
    }
  }

  lemma PathIsPlain(raw: string)
    requires PathOf(raw).Some?
    ensures PlainPath(PathOf(raw).value)
  {
    SplitParts(raw);
    var parts := PathOf(raw).value;
    forall i | 0 <= i < |parts| ensures PlainPart(parts[i]) {
      assert parts[i] in parts;
    }
  }

  lemma {:induction false} SplitSlash(p: string, rest: string)
    requires '/' !in p
    ensures SplitOn(p + "/" + rest, '/') == [p] + SplitOn(rest, '/')
  {
    var s := p + "/" + rest;
    if p == "" {
      assert s[1..] == rest;
    } else {
      SplitSlash(p[1..], rest);
      assert s[1..] == p[1..] + "/" + rest;
      assert [p[0]] + p[1..] == p;
    }
  }

  /** Splitting undoes joining. */
  lemma {:induction false} SplitJoin(parts: Path)
    requires parts != [] && forall i | 0 <= i < |parts| :: '/' !in parts[i]
    ensures SplitOn(JoinSlash(parts), '/') == parts
  {
    if |parts| == 1 {
      SplitWhole(parts[0], '/');
    } else {
      SplitJoin(parts[1..]);
      SplitSlash(parts[0], JoinSlash(parts[1..]));
    }
  }

  lemma {:induction false} MeaningfulPlain(parts: Path)
    requires forall i | 0 <= i < |parts| :: PlainPart(parts[i])
    ensures Meaningful(parts) == parts
  {
    if parts != [] {
      MeaningfulPlain(parts[1..]);
    }
  }

  lemma {:induction false} JoinChars(parts: Path, c: char)
    requires c != '/' && forall i | 0 <= i < |parts| :: c !in parts[i]
    ensures c !in JoinSlash(parts)
  {
    if |parts| > 1 {
      JoinChars(parts[1..], c);
    }
  }

  /** A canonical name reads back as the path it was made from. */
  lemma JoinReadsBack(parts: Path)
    requires PlainPath(parts)
    ensures PathOf(JoinSlash(parts)) == Some(parts)
  {
    var raw := JoinSlash(parts);
    SplitJoin(parts);
    MeaningfulPlain(parts);
    JoinChars(parts, '\0');
    JoinChars(parts, '\\');
    assert PlainPart(parts[0]);
    assert |parts| > 1 ==> raw == parts[0] + "/" + JoinSlash(parts[1..]);
    assert raw[0] == parts[0][0];
    assert parts[0][0] in parts[0];
  }

  /** Normalising a name twice is normalising it once. */
  lemma NormalIdempotent(raw: string)
    requires NormalName(raw).Some?
    ensures NormalName(NormalName(raw).value) == NormalName(raw)
  {
    PathIsPlain(raw);
    JoinReadsBack(PathOf(raw).value);
  }

  /** Two names get the same canonical spelling exactly when they are the same path. */
  lemma NormalIdentifiesPath(a: string, b: string)
    requires PathOf(a).Some? && PathOf(b).Some?
    ensures NormalName(a) == NormalName(b) <==> PathOf(a) == PathOf(b)
  {
    PathIsPlain(a);
    PathIsPlain(b);
    JoinReadsBack(PathOf(a).value);
    JoinReadsBack(PathOf(b).value);
  }

  // ----- the check -----

  datatype Kind = Regular | Dir | Special

  datatype Member = Member(name: string, kind: Kind, data: Bytes)

  datatype Pins = Pins(archiveName: string, archiveSha: string)

  datatype Verdict =
    | Accepted
    | BadMember
    | DuplicateMember
    | BadMemberType
    | BadParent
    | MemberMismatch
    | SignatureMismatch

  function ArchiveName(pins: Pins): string {
    "bundle/artifacts/phantom-engine/" + pins.archiveName
  }

  /** A member the guest would write: its path and what goes there. */
  datatype Placed = Placed(path: Path, name: string, file: bool, data: Bytes)

  predicate Writable(m: Member) {
    PathOf(m.name).Some? && (m.kind == Regular || m.kind == Dir)
  }

  function Place(m: Member): Placed
    requires Writable(m)
  {
    Placed(PathOf(m.name).value, NormalName(m.name).value, m.kind == Regular, m.data)
  }

  /** `ps` lists what the members write, one for one. */
  ghost predicate Places(ms: seq<Member>, ps: seq<Placed>) {
    |ps| <= |ms| && forall i | 0 <= i < |ps| :: Writable(ms[i]) && ps[i] == Place(ms[i])
  }

  ghost predicate ProperPrefix(p: Path, q: Path) {
    p < q && p != []
  }

  ghost predicate DistinctPaths(ps: seq<Placed>) {
    forall i, j | 0 <= i < |ps| && 0 <= j < |ps| && i != j :: ps[i].path != ps[j].path
  }

  /** Nothing above the path of `p`, at a depth below `depth`, is written as a file. */
  ghost predicate ClearAbove(ps: seq<Placed>, p: Placed, depth: nat) {
    forall i | 0 <= i < |ps| && ProperPrefix(ps[i].path, p.path) && |ps[i].path| < depth :: !ps[i].file
  }

  /** No two members share a path and no member sits under one that is not a directory. */
  ghost predicate Compatible(ps: seq<Placed>) {
    DistinctPaths(ps) && forall j | 0 <= j < |ps| :: ClearAbove(ps, ps[j], |ps[j].path|)
  }

  ghost predicate HoldsFile(ps: seq<Placed>, name: string, good: Bytes -> bool) {
    exists i | 0 <= i < |ps| :: ps[i].name == name && ps[i].file && good(ps[i].data)
  }

  /** What the check promises about an archive whose members write `ps`. */
  ghost predicate Acceptable<R>(ms: seq<Member>, ps: seq<Placed>, pins: Pins, record: R,
                                sha: Bytes -> string, parse: Bytes -> Option<R>) {
    && Places(ms, ps) && |ps| == |ms|
    && Compatible(ps)
    && HoldsFile(ps, "bundle/artifacts/phantom-engine/" + pins.archiveName, b => sha(b) == pins.archiveSha)
    && HoldsFile(ps, "signature.json", b => parse(b) == Some(record))
  }

  /** The names are canonical spellings of plain paths. */
  ghost predicate Spelled(ps: seq<Placed>) {
    forall i | 0 <= i < |ps| :: PlainPath(ps[i].path) && ps[i].name == JoinSlash(ps[i].path)
  }

  lemma PlacesSpelled(ms: seq<Member>, ps: seq<Placed>)
    requires Places(ms, ps)
    ensures Spelled(ps)
  {
    forall i | 0 <= i < |ps| ensures PlainPath(ps[i].path) && ps[i].name == JoinSlash(ps[i].path) {
      PathIsPlain(ms[i].name);
    }
  }

  /** `index` sends each name that was collected to the position of its member. */
  ghost predicate Indexed(index: map<string, nat>, ps: seq<Placed>) {
    && (forall i | 0 <= i < |ps| :: ps[i].name in index && index[ps[i].name] == i)
    && (forall k | k in index :: index[k] < |ps| && ps[index[k]].name == k)
  }

  lemma SameNameSamePath(a: Placed, b: Placed)
    requires PlainPath(a.path) && a.name == JoinSlash(a.path)
    requires PlainPath(b.path) && b.name == JoinSlash(b.path)
    ensures a.name == b.name <==> a.path == b.path
  {
    JoinReadsBack(a.path);
    JoinReadsBack(b.path);
  }

  lemma IndexedDistinct(index: map<string, nat>, ps: seq<Placed>)
    requires Indexed(index, ps) && Spelled(ps)
    ensures DistinctPaths(ps)
  {
    forall i, j | 0 <= i < |ps| && 0 <= j < |ps| && i != j ensures ps[i].path != ps[j].path {
      SameNameSamePath(ps[i], ps[j]);
    }
  }

  ghost predicate Collectable(ms: seq<Member>) {
    exists ps :: Places(ms, ps) && |ps| == |ms| && DistinctPaths(ps)
  }

  lemma DuplicateRefuses(ms: seq<Member>, ps: seq<Placed>, i: nat, k: nat)
    requires Places(ms, ps) && Spelled(ps) && i < |ps| < |ms| && k == |ps|
    requires Writable(ms[k]) ==> Place(ms[k]).name == ps[i].name
    ensures !Collectable(ms)
  {
    forall qs | Places(ms, qs) && |qs| == |ms| ensures !DistinctPaths(qs) {
      PlacesSpelled(ms, qs);
      assert qs[i] == ps[i];
      SameNameSamePath(qs[i], qs[k]);
    }
  }

  /** Collects one entry per member, refusing a name that is malformed or met before. */
  method Collect(ms: seq<Member>) returns (verdict: Verdict, index: map<string, nat>, ghost ps: seq<Placed>)
    ensures verdict == Accepted <==> Collectable(ms)
    ensures verdict == Accepted ==> Places(ms, ps) && |ps| == |ms| && Indexed(index, ps) && Spelled(ps) && DistinctPaths(ps)
  {
    index, ps := map[], [];
    for i := 0 to |ms|
      invariant |ps| == i && Places(ms, ps) && Indexed(index, ps) && Spelled(ps)
    {
      var name := NormalName(ms[i].name);
      if name == None {
        assert !Writable(ms[i]);
        return BadMember, index, ps;
      }
      if name.value in index {
        DuplicateRefuses(ms, ps, index[name.value], i);
        return DuplicateMember, index, ps;
      }
      if ms[i].kind != Regular && ms[i].kind != Dir {
        assert !Writable(ms[i]);
        return BadMemberType, index, ps;
      }
      index := index[name.value := i];
      ps := ps + [Place(ms[i])];
      PlacesSpelled(ms, ps);
    }
    IndexedDistinct(index, ps);
    return Accepted, index, ps;
  }

  /** Looks every parent of one member up in the collected names. */
  method ParentsAreDirs(ms: seq<Member>, index: map<string, nat>, ghost ps: seq<Placed>, j: nat) returns (ok: bool)
    requires Places(ms, ps) && |ps| == |ms| && Indexed(index, ps) && Spelled(ps) && j < |ms|
    ensures ok <==> ClearAbove(ps, ps[j], |ps[j].path|)
  {
    assert Writable(ms[j]) && ps[j] == Place(ms[j]);
    var parts := PathOf(ms[j].name).value;
    for d := 1 to |parts|
      invariant ClearAbove(ps, ps[j], d)
    {
      var parent := JoinSlash(parts[..d]);
      ParentLookup(ps, index, ps[j], d);
      if parent in index && ms[index[parent]].kind != Dir {
        assert ps[index[parent]] == Place(ms[index[parent]]);
        return false;
      }
      assert parent in index ==> ps[index[parent]] == Place(ms[index[parent]]);
    }
    return true;
  }

  lemma ParentLookup(ps: seq<Placed>, index: map<string, nat>, p: Placed, d: nat)
    requires Indexed(index, ps) && Spelled(ps) && PlainPath(p.path) && 0 < d < |p.path|
    ensures var parent := JoinSlash(p.path[..d]);
            && (parent in index ==> ps[index[parent]].path == p.path[..d])
            && forall i | 0 <= i < |ps| && ProperPrefix(ps[i].path, p.path) && |ps[i].path| == d ::
                 parent in index && index[parent] == i
  {
    var prefix := p.path[..d];
    var parent := JoinSlash(prefix);
    assert PlainPath(prefix);
    JoinReadsBack(prefix);
    if parent in index {
      JoinReadsBack(ps[index[parent]].path);
    }
    forall i | 0 <= i < |ps| && ProperPrefix(ps[i].path, p.path) && |ps[i].path| == d
      ensures parent in index && index[parent] == i
    {
      assert ps[i].path == prefix;
    }
  }

  lemma FileLookup(ps: seq<Placed>, index: map<string, nat>, name: string, good: Bytes -> bool)
    requires Indexed(index, ps)
    ensures HoldsFile(ps, name, good) <==> name in index && ps[index[name]].file && good(ps[index[name]].data)
  {
  }

  /** The check of the source; it accepts exactly the archives it promises something about. */
  method CheckTarMember<R(==)>(ms: seq<Member>, pins: Pins, record: R, sha: Bytes -> string, parse: Bytes -> Option<R>)
    returns (verdict: Verdict)
    ensures verdict == Accepted <==> exists ps :: Acceptable(ms, ps, pins, record, sha, parse)
  {
    var index;
    ghost var ps;
    verdict, index, ps := Collect(ms);
    if verdict != Accepted {
      assert forall qs :: Acceptable(ms, qs, pins, record, sha, parse) ==> Collectable(ms);
      return;
    }
    PlacesUnique(ms, ps);
    for j := 0 to |ms|
      invariant forall k | 0 <= k < j :: ClearAbove(ps, ps[k], |ps[k].path|)
    {
      var ok := ParentsAreDirs(ms, index, ps, j);
      if !ok {
        return BadParent;
      }
    }
    var archive := ArchiveName(pins);
    FileLookup(ps, index, archive, b => sha(b) == pins.archiveSha);
    FileLookup(ps, index, "signature.json", b => parse(b) == Some(record));
    if archive !in index || ms[index[archive]].kind != Regular
       || "signature.json" !in index || ms[index["signature.json"]].kind != Regular {
      assert archive in index ==> ps[index[archive]] == Place(ms[index[archive]]);
      assert "signature.json" in index ==> ps[index["signature.json"]] == Place(ms[index["signature.json"]]);
      return MemberMismatch;
    }
    assert ps[index[archive]] == Place(ms[index[archive]]);
    assert ps[index["signature.json"]] == Place(ms[index["signature.json"]]);
    if sha(ms[index[archive]].data) != pins.archiveSha {
      return MemberMismatch;
    }
    if parse(ms[index["signature.json"]].data) != Some(record) {
      return SignatureMismatch;
    }
    assert Acceptable(ms, ps, pins, record, sha, parse);
    return Accepted;
  }

  lemma PlacesUnique(ms: seq<Member>, ps: seq<Placed>)
    requires Places(ms, ps) && |ps| == |ms|
    ensures forall qs | Places(ms, qs) && |qs| == |ms| :: qs == ps
  {
    forall qs | Places(ms, qs) && |qs| == |ms| ensures qs == ps {
      forall i | 0 <= i < |ps| ensures qs[i] == ps[i] {
      }
    }
  }

  // ----- extraction -----

  /** A file tree: the bytes of each file, and the directories. */
  datatype Tree = Tree(files: map<Path, Bytes>, folders: set<Path>)

  datatype Extraction = Clash | Extracted(tree: Tree)

  function Above(p: Path): set<Path> {
    set k | 0 < k < |p| :: p[..k]
  }

  lemma AboveIsPrefix(p: Path, q: Path)
    requires q in Above(p)
    ensures ProperPrefix(q, p)
  {
  }

  /**
   One member written to the tree, with the directories above it. Passing through a
   file, or landing on something another member put there, is a clash.
   */
  function ExtractOne(t: Tree, p: Placed): Extraction {
    if Above(p.path) * t.files.Keys != {} then Clash
    else if p.path in t.files then Clash
    else if p.file then
      if p.path in t.folders then Clash
      else Extracted(Tree(t.files[p.path := p.data], t.folders + Above(p.path)))
    else Extracted(Tree(t.files, t.folders + Above(p.path) + {p.path}))
  }

  ghost predicate InRange(order: seq<nat>, n: nat) {
    forall t | 0 <= t < |order| :: order[t] < n
  }

  function ExtractAll(ps: seq<Placed>, order: seq<nat>): Extraction
    requires InRange(order, |ps|)
  {
    if order == [] then Extracted(Tree(map[], {}))
    else
      match ExtractAll(ps, order[..|order| - 1])
      case Clash => Clash
      case Extracted(tree) => ExtractOne(tree, ps[order[|order| - 1]])
  }

  /** A file in the tree was written by one of the members extracted so far. */
  lemma {:induction false} FileHasWriter(ps: seq<Placed>, order: seq<nat>, q: Path) returns (i: nat)
    requires InRange(order, |ps|) && ExtractAll(ps, order).Extracted? && q in ExtractAll(ps, order).tree.files
    ensures i in order && i < |ps| && ps[i].file && ps[i].path == q
  {
    var n := |order| - 1;
    var before := ExtractAll(ps, order[..n]).tree;
    if q in before.files {
      i := FileHasWriter(ps, order[..n], q);
      assert i in order[..n];
    } else {
      i := order[n];
    }
  }

  /** A directory in the tree is a directory member or lies above some member. */
  lemma {:induction false} FolderHasWriter(ps: seq<Placed>, order: seq<nat>, q: Path) returns (i: nat)
    requires InRange(order, |ps|) && ExtractAll(ps, order).Extracted? && q in ExtractAll(ps, order).tree.folders
    ensures i in order && i < |ps| && (ProperPrefix(q, ps[i].path) || (ps[i].path == q && !ps[i].file))
  {
    var n := |order| - 1;
    var before := ExtractAll(ps, order[..n]).tree;
    if q in before.folders {
      i := FolderHasWriter(ps, order[..n], q);
      assert i in order[..n];
    } else {
      i := order[n];
      if q in Above(ps[i].path) {
        AboveIsPrefix(ps[i].path, q);
      }
    }
  }

  lemma FileNotAbove(ps: seq<Placed>, i: nat, j: nat)
    requires Compatible(ps) && i < |ps| && j < |ps| && ProperPrefix(ps[i].path, ps[j].path)
    ensures !ps[i].file
  {
    assert ClearAbove(ps, ps[j], |ps[j].path|);
  }

  /** A compatible member finds its place free and nothing but directories on the way. */
  lemma NoClash(ps: seq<Placed>, order: seq<nat>, j: nat)
    requires Compatible(ps) && InRange(order, |ps|) && ExtractAll(ps, order).Extracted?
    requires j < |ps| && j !in order
    ensures ExtractOne(ExtractAll(ps, order).tree, ps[j]).Extracted?
  {
    var t, p := ExtractAll(ps, order).tree, ps[j];
    if q :| q in Above(p.path) * t.files.Keys {
      var i := FileHasWriter(ps, order, q);
      AboveIsPrefix(p.path, q);
      FileNotAbove(ps, i, j);
    }
    if p.path in t.files {
      var i := FileHasWriter(ps, order, p.path);
    }
    if p.path in t.folders {
      var i := FolderHasWriter(ps, order, p.path);
      FileNotAbove(ps, j, i);
    }
  }

  /** Extraction of compatible members succeeds in every order. */
  lemma {:induction false} ExtractsCleanly(ps: seq<Placed>, order: seq<nat>)
    requires Compatible(ps) && InRange(order, |ps|)
    requires forall s, t | 0 <= s < t < |order| :: order[s] != order[t]
    ensures ExtractAll(ps, order).Extracted?
  {
    if order != [] {
      var n := |order| - 1;
      ExtractsCleanly(ps, order[..n]);
      NoClash(ps, order[..n], order[n]);
    }
  }

  /** What a member wrote is still there at the end: no later member overwrites it. */
  lemma {:induction false} WriteStays(ps: seq<Placed>, order: seq<nat>, i: nat)
    requires InRange(order, |ps|) && ExtractAll(ps, order).Extracted? && i in order
    ensures var t := ExtractAll(ps, order).tree;
            if ps[i].file then ps[i].path in t.files && t.files[ps[i].path] == ps[i].data else ps[i].path in t.folders
  {
    var n := |order| - 1;
    if order[n] != i {
      assert i in order[..n];
      WriteStays(ps, order[..n], i);
    }
  }

  /** Some order of all `n` members. */
  ghost predicate IsOrder(order: seq<nat>, n: nat) {
    && InRange(order, n)
    && (forall s, t | 0 <= s < t < |order| :: order[s] != order[t])
    && (forall i: nat | i < n :: i in order)
  }

  ghost predicate Holds(t: Tree, p: Placed) {
    if p.file then p.path in t.files && t.files[p.path] == p.data else p.path in t.folders
  }

  /**
   An accepted archive, extracted in any order, never clashes, and every member is
   there at the end with its own content.
   */
  lemma AcceptedExtracts<R>(ms: seq<Member>, ps: seq<Placed>, pins: Pins, record: R, sha: Bytes -> string,
                            parse: Bytes -> Option<R>, order: seq<nat>)
    requires Acceptable(ms, ps, pins, record, sha, parse) && IsOrder(order, |ms|)
    ensures ExtractAll(ps, order).Extracted?
    ensures forall i: nat | i < |ps| :: Holds(ExtractAll(ps, order).tree, ps[i])
  {
    ExtractsCleanly(ps, order);
    forall i: nat | i < |ps| ensures Holds(ExtractAll(ps, order).tree, ps[i]) {
      WriteStays(ps, order, i);
    }
  }

  /** Nothing is written besides the members and the directories above them. */
  lemma NothingElseExtracted(ps: seq<Placed>, order: seq<nat>, q: Path)
    requires InRange(order, |ps|) && ExtractAll(ps, order).Extracted?
    requires var t := ExtractAll(ps, order).tree; q in t.files || q in t.folders
    ensures exists i: nat | i < |ps| :: q == ps[i].path || ProperPrefix(q, ps[i].path)
  {
    if q in ExtractAll(ps, order).tree.files {
      var i := FileHasWriter(ps, order, q);
    } else {
      var i := FolderHasWriter(ps, order, q);
    }
  }

  ghost predicate FileAt(t: Tree, name: string, good: Bytes -> bool) {
    var p := PathOf(name);
    p.Some? && p.value in t.files && good(t.files[p.value])
  }

  /** The extracted tree holds the archive with the pinned digest and the record that was checked. */
  lemma AcceptedHoldsPinnedBytes<R>(ms: seq<Member>, ps: seq<Placed>, pins: Pins, record: R, sha: Bytes -> string,
                                    parse: Bytes -> Option<R>, order: seq<nat>)
    requires Acceptable(ms, ps, pins, record, sha, parse) && IsOrder(order, |ms|)
    ensures ExtractAll(ps, order).Extracted?
    ensures FileAt(ExtractAll(ps, order).tree, "bundle/artifacts/phantom-engine/" + pins.archiveName, b => sha(b) == pins.archiveSha)
    ensures FileAt(ExtractAll(ps, order).tree, "signature.json", b => parse(b) == Some(record))
  {
    AcceptedExtracts(ms, ps, pins, record, sha, parse, order);
    PlacesSpelled(ms, ps);
    var tree := ExtractAll(ps, order).tree;
    FileInTree(ps, tree, ArchiveName(pins), b => sha(b) == pins.archiveSha);
    FileInTree(ps, tree, "signature.json", b => parse(b) == Some(record));
  }

  lemma FileInTree(ps: seq<Placed>, tree: Tree, name: string, good: Bytes -> bool)
    requires Spelled(ps) && HoldsFile(ps, name, good)
    requires forall i: nat | i < |ps| :: Holds(tree, ps[i])
    ensures FileAt(tree, name, good)
  {
    var i: nat :| 0 <= i < |ps| && ps[i].name == name && ps[i].file && good(ps[i].data);
    JoinReadsBack(ps[i].path);
    assert Holds(tree, ps[i]);
  }
}
