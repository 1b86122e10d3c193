/**
 The iterative removal of an evidence path.

 The walk keeps a worklist instead of recursing, then removes what it met in
 reverse order. The file system may refuse any removal and any listing, and it
 follows links: a link to a directory lists that directory's entries. Only the
 source's own tests keep the walk from crossing one. What is left is exactly
 what a recursive delete that skips errors would leave, and nothing outside the
 tree is touched.
 */
module TreeRemoval {
  import opened PyJson

  type Path = seq<string>

  /** A link names the path it leads to. */
  datatype Kind = File | Symlink(target: Path) | Directory

  function Parent(p: Path): Path
    requires p != []
  {
    p[..|p| - 1]
  }

  predicate ChildOf(c: Path, p: Path) {
    c != [] && Parent(c) == p
  }

  /** A tree below `root`: whatever is not the root sits in a directory of the tree. */
  ghost predicate WellFormed(nodes: map<Path, Kind>, root: Path) {
    forall p | p in nodes :: root <= p && (p != root ==> Parent(p) in nodes && nodes[Parent(p)] == Directory)
  }

  /** What the operating system refuses: `denied` to unlink or rmdir, `unreadable` to list. */
  datatype Refusals = Refusals(denied: set<Path>, unreadable: set<Path>)

  /** The walk from `root` can reach `p`: no directory above it refuses to be listed. */
  ghost predicate Reached(nodes: map<Path, Kind>, refused: Refusals, root: Path, p: Path) {
    && root <= p
    && (p == root || p in nodes)
    && forall k | |root| <= k < |p| :: p[..k] !in refused.unreadable
  }

  /** `p` cannot be removed itself. */
  ghost predicate Stuck(nodes: map<Path, Kind>, refused: Refusals, root: Path, p: Path) {
    p in refused.denied || !Reached(nodes, refused, root, p)
  }

  /** `p` is left behind: it, or something under it, cannot be removed. */
  ghost predicate Survives(nodes: map<Path, Kind>, refused: Refusals, root: Path, p: Path) {
    exists q | q in nodes :: p <= q && Stuck(nodes, refused, root, q)
  }

  lemma {:induction false} AncestorsExist(nodes: map<Path, Kind>, root: Path, q: Path, k: nat)
    requires WellFormed(nodes, root) && q in nodes && |root| <= k <= |q|
    ensures q[..k] in nodes
    ensures k < |q| ==> nodes[q[..k]] == Directory
    decreases |q|
  {
    if k < |q| {
      AncestorsExist(nodes, root, Parent(q), k);
      assert Parent(q)[..k] == q[..k];
    } else {
      assert q[..k] == q;
    }
  }

  /**
   The recursion of a recursive delete: a node stays if it refuses to go, or if it
   holds children and cannot be listed, or if one of its children stays.
   */
  lemma SurvivesUnfolds(nodes: map<Path, Kind>, refused: Refusals, root: Path, p: Path)
    requires WellFormed(nodes, root) && p in nodes && Reached(nodes, refused, root, p)
    ensures Survives(nodes, refused, root, p) <==>
            || p in refused.denied
            || exists c | c in nodes && ChildOf(c, p) :: p in refused.unreadable || Survives(nodes, refused, root, c)
  {
    if Survives(nodes, refused, root, p) && p !in refused.denied {
      var c := SurvivorBelow(nodes, refused, root, p);
      assert c in nodes && ChildOf(c, p) && Survives(nodes, refused, root, c);
    }
    forall c | c in nodes && ChildOf(c, p) && (p in refused.unreadable || Survives(nodes, refused, root, c))
      ensures Survives(nodes, refused, root, p)
    {
      SurvivorAbove(nodes, refused, root, p, c);
    }
    assert p <= p;
  }

  lemma SurvivorBelow(nodes: map<Path, Kind>, refused: Refusals, root: Path, p: Path) returns (c: Path)
    requires WellFormed(nodes, root) && p in nodes && Reached(nodes, refused, root, p)
    requires Survives(nodes, refused, root, p) && p !in refused.denied
    ensures c in nodes && ChildOf(c, p) && Survives(nodes, refused, root, c)
  {
    var q :| q in nodes && p <= q && Stuck(nodes, refused, root, q);
    assert q != p;
    c := q[..|p| + 1];
    AncestorsExist(nodes, root, q, |p| + 1);
    assert c <= q && Parent(c) == p;
  }

  lemma SurvivorAbove(nodes: map<Path, Kind>, refused: Refusals, root: Path, p: Path, c: Path)
    requires c in nodes && ChildOf(c, p) && Reached(nodes, refused, root, p)
    requires p in refused.unreadable || Survives(nodes, refused, root, c)
    ensures Survives(nodes, refused, root, p)
  {
    assert c[..|p|] == p && p <= c;
    if Survives(nodes, refused, root, c) {
      var q :| q in nodes && c <= q && Stuck(nodes, refused, root, q);
      assert p <= q;
    } else {
      assert Stuck(nodes, refused, root, c);
    }
  }

  /** With nothing refused the whole tree goes. */
  lemma NothingRefusedNothingLeft(nodes: map<Path, Kind>, refused: Refusals, root: Path, p: Path)
    requires WellFormed(nodes, root) && p in nodes && refused.denied == {} && refused.unreadable == {}
    ensures !Survives(nodes, refused, root, p)
  {
  }

  ghost predicate Before(ordered: seq<Path>, a: Path, b: Path) {
    forall i, j | 0 <= i < |ordered| && 0 <= j < |ordered| && ordered[i] == a && ordered[j] == b :: i < j
  }

  ghost predicate ParentsFirst(ordered: seq<Path>, root: Path) {
    forall i | 0 <= i < |ordered| :: ParentBefore(ordered, root, i)
  }

  ghost predicate ParentBefore(ordered: seq<Path>, root: Path, i: int)
    requires 0 <= i < |ordered|
  {
    ordered[i] == root || (ordered[i] != [] && Parent(ordered[i]) in ordered[..i])
  }

  ghost predicate Distinct(ordered: seq<Path>) {
    forall i, j | 0 <= i < j < |ordered| :: ordered[i] != ordered[j]
  }

  /** If every parent precedes its children, every ancestor precedes its descendants. */
  lemma {:induction false} AncestorsFirst(ordered: seq<Path>, root: Path, a: Path, j: nat)
    requires Distinct(ordered) && ParentsFirst(ordered, root)
    requires j < |ordered| && root <= a <= ordered[j] && a != ordered[j]
    ensures exists i | 0 <= i < j :: ordered[i] == a
    decreases j
  {
    assert ParentBefore(ordered, root, j);
    var k :| 0 <= k < j && ordered[..j][k] == Parent(ordered[j]);
    assert ordered[k] == Parent(ordered[j]);
    if ordered[k] != a {
      assert a <= Parent(ordered[j]);
      AncestorsFirst(ordered, root, a, k);
    }
  }

  /** The state of the walk between two pops. */
  ghost predicate Walking(nodes: map<Path, Kind>, refused: Refusals, root: Path, ordered: seq<Path>, pending: seq<Path>) {
    && Distinct(ordered) && ParentsFirst(ordered, root)
    && (forall p | p in ordered :: Reached(nodes, refused, root, p))
    && (forall p | p in pending :: Pushed(nodes, refused, root, ordered, p))
    && (root in ordered || root in pending)
    && (forall p, c | p in ordered && p !in refused.unreadable && c in nodes && ChildOf(c, p) ::
          c in ordered || c in pending)
  }

  lemma Popped<T>(s: seq<T>)
    requires s != []
    ensures forall x :: x in s <==> x == s[|s| - 1] || x in s[..|s| - 1]
  {
    assert s == s[..|s| - 1] + [s[|s| - 1]];
  }

  /** Popping a node already met loses nothing. */
  lemma SkipsSeen(nodes: map<Path, Kind>, refused: Refusals, root: Path, ordered: seq<Path>, pending: seq<Path>)
    requires pending != [] && Walking(nodes, refused, root, ordered, pending)
    requires pending[|pending| - 1] in ordered
    ensures Walking(nodes, refused, root, ordered, pending[..|pending| - 1])
  {
    Popped(pending);
  }

  /** Recording a new node and pushing its listing keeps the walk going. */
  lemma Records(nodes: map<Path, Kind>, refused: Refusals, root: Path, ordered: seq<Path>, pending: seq<Path>, children: seq<Path>)
    requires WellFormed(nodes, root) && pending != [] && Walking(nodes, refused, root, ordered, pending)
    requires pending[|pending| - 1] !in ordered
    requires forall c | c in children :: c in nodes && ChildOf(c, pending[|pending| - 1]) && pending[|pending| - 1] !in refused.unreadable
    requires pending[|pending| - 1] !in refused.unreadable ==>
               forall c | c in nodes && ChildOf(c, pending[|pending| - 1]) :: c in children
    ensures Walking(nodes, refused, root, ordered + [pending[|pending| - 1]], pending[..|pending| - 1] + children)
    ensures Reached(nodes, refused, root, pending[|pending| - 1])
  {
    var current := pending[|pending| - 1];
    var rest := pending[..|pending| - 1];
    Popped(pending);
    PushedReached(nodes, refused, root, ordered, current);
    StepKeepsOrder(ordered, root, current);
    var longer, waiting := ordered + [current], rest + children;
    assert forall p :: p in longer <==> p == current || p in ordered;
    assert forall p :: p in waiting <==> p in rest || p in children;
    forall p | p in waiting ensures Pushed(nodes, refused, root, longer, p) {
      assert p in rest ==> Pushed(nodes, refused, root, ordered, p);
    }
    forall p, c | p in longer && p !in refused.unreadable && c in nodes && ChildOf(c, p)
      ensures c in longer || c in waiting
    {
      assert p in ordered ==> c in ordered || c in pending;
    }
  }

  lemma Shrinks(universe: set<Path>, seen: set<Path>, p: Path)
    requires p in universe && p !in seen
    ensures |universe - (seen + {p})| < |universe - seen|
  {
    assert universe - (seen + {p}) == (universe - seen) - {p};
  }

  /** An empty worklist means everything that can be reached has been met. */
  lemma WalkEnds(nodes: map<Path, Kind>, refused: Refusals, root: Path, ordered: seq<Path>)
    requires WellFormed(nodes, root) && Walking(nodes, refused, root, ordered, [])
    ensures forall p :: p in ordered <==> Reached(nodes, refused, root, p)
  {
    forall p | Reached(nodes, refused, root, p) ensures p in ordered {
      ReachedIsOrdered(nodes, refused, root, ordered, p);
    }
  }

  /** Whatever waits on the worklist is the root or a child of a listable directory already met. */
  ghost predicate Pushed(nodes: map<Path, Kind>, refused: Refusals, root: Path, ordered: seq<Path>, p: Path) {
    || p == root
    || (p in nodes && p != [] && Parent(p) in ordered && Parent(p) !in refused.unreadable)
  }

  lemma PushedReached(nodes: map<Path, Kind>, refused: Refusals, root: Path, ordered: seq<Path>, p: Path)
    requires Pushed(nodes, refused, root, ordered, p)
    requires forall q | q in ordered :: Reached(nodes, refused, root, q)
    ensures Reached(nodes, refused, root, p)
    ensures p != root ==> p != [] && Parent(p) in ordered
  {
    if p != root {
      var q := Parent(p);
      assert Reached(nodes, refused, root, q);
      forall k | |root| <= k < |p| ensures p[..k] !in refused.unreadable {
        if k < |q| {
          assert p[..k] == q[..k];
        }
      }
    }
  }

  lemma StepKeepsOrder(ordered: seq<Path>, root: Path, p: Path)
    requires Distinct(ordered) && ParentsFirst(ordered, root) && p !in ordered
    requires p != root ==> p != [] && Parent(p) in ordered
    ensures Distinct(ordered + [p]) && ParentsFirst(ordered + [p], root)
  {
    var longer := ordered + [p];
    forall i | 0 <= i < |longer| ensures ParentBefore(longer, root, i) {
      assert longer[..i] == ordered[..i];
      if i < |ordered| {
        assert ParentBefore(ordered, root, i);
      } else {
        assert ordered[..i] == ordered;
      }
    }
  }

  lemma NoChildren(nodes: map<Path, Kind>, root: Path, p: Path)
    requires WellFormed(nodes, root) && !(p in nodes && nodes[p] == Directory)
    requires root <= p
    ensures forall c | c in nodes :: !ChildOf(c, p)
  {
  }

  lemma {:induction false} ReachedIsOrdered(nodes: map<Path, Kind>, refused: Refusals, root: Path, ordered: seq<Path>, p: Path)
    requires WellFormed(nodes, root) && Reached(nodes, refused, root, p) && root in ordered
    requires forall q, c | q in ordered && q !in refused.unreadable && c in nodes && ChildOf(c, q) :: c in ordered
    ensures p in ordered
    decreases |p|
  {
    if p != root {
      var q := Parent(p);
      assert q == p[..|p| - 1];
      forall k | |root| <= k < |q| ensures q[..k] !in refused.unreadable {
        assert q[..k] == p[..k];
      }
      ReachedIsOrdered(nodes, refused, root, ordered, q);
      assert ChildOf(p, q);
    }
  }

  /** What is still there when the nodes of `done` have been attempted. */
  ghost predicate Progress(now: map<Path, Kind>, nodes: map<Path, Kind>, refused: Refusals, root: Path, done: seq<Path>) {
    && (forall p :: p in now <==> p in nodes && (p !in done || Survives(nodes, refused, root, p)))
    && (forall p | p in now :: now[p] == nodes[p])
  }

  /** One attempt moves the boundary between settled and unsettled nodes by one. */
  lemma Attempted(now: map<Path, Kind>, next: map<Path, Kind>, nodes: map<Path, Kind>, refused: Refusals, root: Path,
                  ordered: seq<Path>, i: nat)
    requires WellFormed(nodes, root) && i < |ordered|
    requires Distinct(ordered) && ParentsFirst(ordered, root)
    requires forall p :: p in ordered <==> Reached(nodes, refused, root, p)
    requires Progress(now, nodes, refused, root, ordered[i + 1..])
    requires var p := ordered[i];
             next == if p in refused.denied || (p in now && now[p] == Directory && exists c :: c in now && ChildOf(c, p))
                     then now else now - {p}
    ensures Progress(next, nodes, refused, root, ordered[i..])
  {
    ChildrenSettled(now, nodes, refused, root, ordered, i);
    assert ordered[i..] == [ordered[i]] + ordered[i + 1..];
    assert forall p :: p in ordered[i..] <==> p == ordered[i] || p in ordered[i + 1..];
  }

  /** When a node's turn comes, it can be removed exactly if it does not survive. */
  lemma ChildrenSettled(now: map<Path, Kind>, nodes: map<Path, Kind>, refused: Refusals, root: Path, ordered: seq<Path>, i: nat)
    requires WellFormed(nodes, root) && i < |ordered|
    requires Distinct(ordered) && ParentsFirst(ordered, root)
    requires forall p :: p in ordered <==> Reached(nodes, refused, root, p)
    requires Progress(now, nodes, refused, root, ordered[i + 1..])
    ensures var p := ordered[i];
            && (p in now <==> p in nodes)
            && (p in nodes ==>
                (Survives(nodes, refused, root, p) <==> p in refused.denied || exists c :: c in now && ChildOf(c, p)))
            && (!(p in nodes && nodes[p] == Directory) ==> forall c :: c in now ==> !ChildOf(c, p))
  {
    var p := ordered[i];
    assert p in ordered;
    assert p !in ordered[i + 1..];
    if p in nodes {
      SurvivesUnfolds(nodes, refused, root, p);
      forall c | c in nodes && ChildOf(c, p)
        ensures c in now <==> p in refused.unreadable || Survives(nodes, refused, root, c)
      {
        ChildSettled(now, nodes, refused, root, ordered, i, c);
      }
    }
    if !(p in nodes && nodes[p] == Directory) {
      NoChildren(nodes, root, p);
    }
  }

  lemma ChildSettled(now: map<Path, Kind>, nodes: map<Path, Kind>, refused: Refusals, root: Path, ordered: seq<Path>, i: nat, c: Path)
    requires WellFormed(nodes, root) && i < |ordered| && c in nodes && ChildOf(c, ordered[i])
    requires Distinct(ordered) && ParentsFirst(ordered, root)
    requires forall p :: p in ordered <==> Reached(nodes, refused, root, p)
    requires Progress(now, nodes, refused, root, ordered[i + 1..])
    ensures c in now <==> ordered[i] in refused.unreadable || Survives(nodes, refused, root, c)
  {
    var p := ordered[i];
    assert p in ordered;
    assert c[..|p|] == p && p <= c;
    if p in refused.unreadable {
      assert !Reached(nodes, refused, root, c);
      assert c !in ordered[i + 1..];
    } else if Reached(nodes, refused, root, c) {
      assert c in ordered;
      var j :| 0 <= j < |ordered| && ordered[j] == c;
      AncestorsFirst(ordered, root, p, j);
      assert i < j;
      assert ordered[i + 1..][j - i - 1] == c;
    } else {
      assert c !in ordered[i + 1..];
      assert c <= c && Stuck(nodes, refused, root, c);
    }
  }

  lemma Unreached(nodes: map<Path, Kind>, refused: Refusals, root: Path, ordered: seq<Path>)
    requires forall p :: p in ordered <==> Reached(nodes, refused, root, p)
    ensures forall p | p in nodes && p !in ordered :: Survives(nodes, refused, root, p)
  {
    forall p | p in nodes && p !in ordered ensures Survives(nodes, refused, root, p) {
      assert p <= p && Stuck(nodes, refused, root, p);
    }
  }

  lemma LaterDescendant(ordered: seq<Path>, root: Path, a: Path, i: nat, j: nat)
    requires Distinct(ordered) && ParentsFirst(ordered, root)
    requires i < |ordered| && j < |ordered| && ordered[i] == a
    requires root <= a && a <= ordered[j] && a != ordered[j]
    ensures i < j
  {
    AncestorsFirst(ordered, root, a, j);
    var k :| 0 <= k < j && ordered[k] == a;
    assert k == i;
  }

  ghost predicate Reverses(ordered: seq<Path>, attempts: seq<Path>) {
    |attempts| == |ordered| && forall k | 0 <= k < |attempts| :: attempts[k] == ordered[|ordered| - 1 - k]
  }

  lemma ReverseMembers(ordered: seq<Path>, attempts: seq<Path>)
    requires Reverses(ordered, attempts) && Distinct(ordered)
    ensures Distinct(attempts)
    ensures forall p :: p in attempts <==> p in ordered
  {
    forall p | p in ordered ensures p in attempts {
      var j :| 0 <= j < |ordered| && ordered[j] == p;
      assert attempts[|ordered| - 1 - j] == p;
    }
  }

  lemma ReverseOrder(ordered: seq<Path>, attempts: seq<Path>, root: Path, a: Path, b: Path)
    requires Distinct(ordered) && ParentsFirst(ordered, root) && Reverses(ordered, attempts)
    requires root <= a && a <= b && a != b
    ensures Before(attempts, b, a)
  {
    var n := |ordered|;
    forall i, j | 0 <= i < n && 0 <= j < n && attempts[i] == b && attempts[j] == a ensures i < j {
      LaterDescendant(ordered, root, a, n - 1 - j, n - 1 - i);
    }
  }

  // ----- a file system with links -----

  /** Every node but the top sits in a directory; a link has nothing under it, whatever it leads to. */
  ghost predicate Sound(nodes: map<Path, Kind>) {
    forall p | p in nodes && p != [] :: Parent(p) in nodes && nodes[Parent(p)] == Directory
  }

  /**
   Where a path leads when links are followed, the last name included, and how many more links
   may be followed after it. None is a path with too many links.
   */
  function Follow(nodes: map<Path, Kind>, p: Path, links: nat): (r: Option<(Path, nat)>)
    ensures r.Some? ==> r.value.1 <= links
    decreases links, |p|
  {
    if p == [] then Some(([], links))
    else
      var dir := Follow(nodes, Parent(p), links);
      if dir.None? then None
      else
        var here, left := dir.value.0 + [p[|p| - 1]], dir.value.1;
        if here !in nodes || !nodes[here].Symlink? then Some((here, left))
        else if left == 0 then None
        else Follow(nodes, nodes[here].target, left - 1)
  }

  /** The node a path names: links are followed on the way to it, the last name is not. */
  function Entry(nodes: map<Path, Kind>, p: Path, links: nat): Option<Path> {
    if p == [] then Some([])
    else
      var dir := Follow(nodes, Parent(p), links);
      if dir.None? then None else Some(dir.value.0 + [p[|p| - 1]])
  }

  /** The links followed on the way. */
  function Trail(nodes: map<Path, Kind>, p: Path, links: nat): set<Path>
    decreases links, |p|
  {
    if p == [] then {}
    else
      var dir := Follow(nodes, Parent(p), links);
      Trail(nodes, Parent(p), links) +
      if dir.None? then {}
      else
        var here, left := dir.value.0 + [p[|p| - 1]], dir.value.1;
        if here !in nodes || !nodes[here].Symlink? then {}
        else if left == 0 then {here}
        else {here} + Trail(nodes, nodes[here].target, left - 1)
  }

  /** One name that is no link. */
  lemma FollowStops(nodes: map<Path, Kind>, p: Path, links: nat, up: Path, dir: (Path, nat))
    requires p != [] && up == Parent(p) && Follow(nodes, up, links) == Some(dir)
    requires var here := dir.0 + [p[|p| - 1]]; here in nodes ==> !nodes[here].Symlink?
    ensures Follow(nodes, p, links) == Some((dir.0 + [p[|p| - 1]], dir.1))
    ensures Trail(nodes, p, links) == Trail(nodes, up, links)
  {
  }

  /** One name that is a link. */
  lemma FollowLinks(nodes: map<Path, Kind>, p: Path, links: nat, up: Path, dir: (Path, nat), here: Path)
    requires p != [] && up == Parent(p) && Follow(nodes, up, links) == Some(dir)
    requires here == dir.0 + [p[|p| - 1]] && here in nodes && nodes[here].Symlink? && dir.1 > 0
    ensures Follow(nodes, p, links) == Follow(nodes, nodes[here].target, dir.1 - 1)
    ensures Trail(nodes, p, links) == Trail(nodes, up, links) + {here} + Trail(nodes, nodes[here].target, dir.1 - 1)
  {
  }

  /** `c` is an entry of the directory at `dir`, listed under the path `p`. */
  predicate Lists(nodes: map<Path, Kind>, dir: Path, p: Path, c: Path) {
    c != [] && Parent(c) == p && dir + [c[|c| - 1]] in nodes
  }

  /** The names in a directory, in some order. */
  method Names(nodes: map<Path, Kind>, dir: Path) returns (names: seq<string>)
    ensures forall n :: n in names <==> dir + [n] in nodes
  {
    names := [];
    var todo := nodes.Keys;
    while todo != {}
      invariant todo <= nodes.Keys
      invariant forall n :: n in names <==> dir + [n] in nodes && dir + [n] !in todo
    {
      var q :| q in todo;
      todo := todo - {q};
      if ChildOf(q, dir) {
        assert q == dir + [q[|q| - 1]];
        names := names + [q[|q| - 1]];
      }
    }
  }

  lemma ListedChildren(nodes: map<Path, Kind>, dir: Path, p: Path, names: seq<string>, children: seq<Path>)
    requires forall n :: n in names <==> dir + [n] in nodes
    requires |children| == |names| && forall i | 0 <= i < |names| :: children[i] == p + [names[i]]
    ensures forall c :: c in children <==> Lists(nodes, dir, p, c)
  {
    forall c ensures c in children <==> Lists(nodes, dir, p, c) {
      if c in children {
        var i :| 0 <= i < |children| && children[i] == c;
        assert names[i] in names;
      }
      if Lists(nodes, dir, p, c) {
        var n := c[|c| - 1];
        assert c == p + [n] && n in names;
        var i :| 0 <= i < |names| && names[i] == n;
        assert children[i] == c;
      }
    }
  }

  class FileSystem {
    var nodes: map<Path, Kind>
    const refused: Refusals
    const links: nat

    constructor (nodes: map<Path, Kind>, refused: Refusals, links: nat)
      ensures this.nodes == nodes && this.refused == refused && this.links == links
    {
      this.nodes := nodes;
      this.refused := refused;
      this.links := links;
    }

    predicate IsSymlink(p: Path)
      reads this
    {
      var e := Entry(nodes, p, links);
      e.Some? && e.value in nodes && nodes[e.value].Symlink?
    }

    /** Follows links: a link to a directory is a directory. */
    predicate IsDir(p: Path)
      reads this
    {
      var r := Follow(nodes, p, links);
      r.Some? && r.value.0 in nodes && nodes[r.value.0] == Directory
    }

    /** Lists the directory a path leads to, in some order, under the names of the path itself. */
    method IterDir(p: Path) returns (ok: bool, children: seq<Path>)
      requires IsDir(p)
      ensures ok <==> Follow(nodes, p, links).value.0 !in refused.unreadable
      ensures !ok ==> children == []
      ensures ok ==> forall c :: c in children <==> Lists(nodes, Follow(nodes, p, links).value.0, p, c)
    {
      children := [];
      var dir := Follow(nodes, p, links).value.0;
      ok := dir !in refused.unreadable;
      if ok {
        var names := Names(nodes, dir);
        children := seq(|names|, i requires 0 <= i < |names| => p + [names[i]]);
        ListedChildren(nodes, dir, p, names, children);
      }
    }

    /** unlink with missing_ok: removes the named node itself, a link too, but no directory. */
    method Unlink(p: Path)
      modifies this
      ensures nodes == if Unlinks(old(nodes), p) then old(nodes) - {Entry(old(nodes), p, links).value} else old(nodes)
    {
      var e := Entry(nodes, p, links);
      if e.Some? && e.value in nodes && nodes[e.value] != Directory && e.value !in refused.denied {
        nodes := nodes - {e.value};
      }
    }

    predicate Unlinks(now: map<Path, Kind>, p: Path) {
      var e := Entry(now, p, links);
      e.Some? && e.value in now && now[e.value] != Directory && e.value !in refused.denied
    }

    /** rmdir refuses a link, a file, and a directory that is not empty. */
    method RmDir(p: Path)
      modifies this
      ensures nodes == if RmDirs(old(nodes), p) then old(nodes) - {Entry(old(nodes), p, links).value} else old(nodes)
    {
      var e := Entry(nodes, p, links);
      if e.Some? && e.value in nodes && nodes[e.value] == Directory && e.value !in refused.denied {
        var children := set c | c in nodes && ChildOf(c, e.value);
        if children == {} {
          assert forall c | c in nodes :: ChildOf(c, e.value) ==> c in children;
          nodes := nodes - {e.value};
        } else {
          var c :| c in children;
        }
      }
    }

    ghost predicate RmDirs(now: map<Path, Kind>, p: Path) {
      var e := Entry(now, p, links);
      && e.Some? && e.value in now && now[e.value] == Directory && e.value !in refused.denied
      && forall c | c in now :: !ChildOf(c, e.value)
    }
  }

  // ----- the tree as the walk names it -----

  /** `q` below `home`, spelled from `root`. */
  function Rebase(q: Path, home: Path, root: Path): Path
    requires home <= q
  {
    root + q[|home|..]
  }

  lemma RebaseBack(q: Path, home: Path, root: Path)
    requires home <= q
    ensures root <= Rebase(q, home, root) && Rebase(Rebase(q, home, root), root, home) == q
  {
    var p := Rebase(q, home, root);
    assert p[|root|..] == q[|home|..] && home + q[|home|..] == q;
  }

  function Spelled(qs: set<Path>, home: Path, root: Path): set<Path> {
    set q | q in qs && home <= q :: Rebase(q, home, root)
  }

  lemma SpelledIff(qs: set<Path>, home: Path, root: Path, p: Path)
    ensures p in Spelled(qs, home, root) <==> root <= p && Rebase(p, root, home) in qs
  {
    if root <= p && Rebase(p, root, home) in qs {
      RebaseBack(p, root, home);
    }
    if p in Spelled(qs, home, root) {
      var q :| q in qs && home <= q && Rebase(q, home, root) == p;
      RebaseBack(q, home, root);
    }
  }

  /** The nodes at and below `home`, under the paths the walk has for them. */
  ghost function View(nodes: map<Path, Kind>, home: Path, root: Path): (v: map<Path, Kind>)
    ensures forall p :: p in v <==> root <= p && Rebase(p, root, home) in nodes
    ensures forall p | p in v :: v[p] == nodes[Rebase(p, root, home)]
  {
    var keys := Spelled(nodes.Keys, home, root);
    assert forall p :: p in keys <==> root <= p && Rebase(p, root, home) in nodes by {
      forall p ensures p in keys <==> root <= p && Rebase(p, root, home) in nodes {
        SpelledIff(nodes.Keys, home, root, p);
      }
    }
    map p | p in keys :: nodes[Rebase(p, root, home)]
  }

  ghost function ViewRefused(refused: Refusals, home: Path, root: Path): Refusals {
    Refusals(Spelled(refused.denied, home, root), Spelled(refused.unreadable, home, root))
  }

  lemma RebaseParent(p: Path, root: Path, home: Path)
    requires root <= p && p != root
    ensures root <= Parent(p) && Rebase(p, root, home) != [] && Parent(Rebase(p, root, home)) == Rebase(Parent(p), root, home)
    ensures var q := Rebase(p, root, home); q[|q| - 1] == p[|p| - 1] && Parent(q) + [p[|p| - 1]] == q
  {
  }

  lemma ViewWellFormed(nodes: map<Path, Kind>, home: Path, root: Path)
    requires Sound(nodes)
    ensures WellFormed(View(nodes, home, root), root)
  {
    var v := View(nodes, home, root);
    forall p | p in v && p != root ensures Parent(p) in v && v[Parent(p)] == Directory {
      RebaseParent(p, root, home);
    }
  }

  /** Below a node that is there, the paths of the walk name the nodes below it, and lead to them unless they are links. */
  lemma {:induction false} NamesBelow(nodes: map<Path, Kind>, links: nat, root: Path, home: Path, p: Path)
    requires Sound(nodes) && Entry(nodes, root, links) == Some(home) && root <= p && Rebase(p, root, home) in nodes
    ensures Entry(nodes, p, links) == Some(Rebase(p, root, home))
    ensures !nodes[Rebase(p, root, home)].Symlink? ==>
              Follow(nodes, p, links).Some? && Follow(nodes, p, links).value.0 == Rebase(p, root, home)
    decreases |p|
  {
    var q := Rebase(p, root, home);
    if p == root {
      assert q == home;
    } else {
      RebaseParent(p, root, home);
      NamesBelow(nodes, links, root, home, Parent(p));
    }
  }

  // ----- the walk -----

  /** What `current` lists: nothing for a link or anything that is no directory. */
  ghost predicate ListedFrom(v: map<Path, Kind>, refused: Refusals, p: Path, children: seq<Path>) {
    forall c :: c in children <==> p !in refused.unreadable && c in v && ChildOf(c, p)
  }

  lemma RefusedView(refused: Refusals, home: Path, root: Path, p: Path)
    requires root <= p
    ensures p in ViewRefused(refused, home, root).denied <==> Rebase(p, root, home) in refused.denied
    ensures p in ViewRefused(refused, home, root).unreadable <==> Rebase(p, root, home) in refused.unreadable
  {
    SpelledIff(refused.denied, home, root, p);
    SpelledIff(refused.unreadable, home, root, p);
  }

  lemma ListsView(nodes: map<Path, Kind>, home: Path, root: Path, p: Path, c: Path)
    requires root <= p
    ensures Lists(nodes, Rebase(p, root, home), p, c) <==> c in View(nodes, home, root) && ChildOf(c, p)
  {
    if ChildOf(c, p) {
      assert root <= c && Rebase(c, root, home) == Rebase(p, root, home) + [c[|c| - 1]];
    }
  }

  /** The tree below a root path, empty when the path leads nowhere. */
  ghost function Tree(nodes: map<Path, Kind>, root: Path, links: nat): map<Path, Kind> {
    var home := Entry(nodes, root, links);
    if home.Some? then View(nodes, home.value, root) else map[]
  }

  ghost function TreeRefused(nodes: map<Path, Kind>, refused: Refusals, root: Path, links: nat): Refusals {
    var home := Entry(nodes, root, links);
    if home.Some? then ViewRefused(refused, home.value, root) else Refusals({}, {})
  }

  lemma TreeWellFormed(nodes: map<Path, Kind>, root: Path, links: nat)
    requires Sound(nodes)
    ensures WellFormed(Tree(nodes, root, links), root)
  {
    var home := Entry(nodes, root, links);
    if home.Some? {
      ViewWellFormed(nodes, home.value, root);
    }
  }

  lemma NowhereToLook(nodes: map<Path, Kind>, root: Path, links: nat)
    requires Entry(nodes, root, links).None?
    ensures Follow(nodes, root, links).None?
  {
  }

  /** One look at a node of the walk: the two tests of the source, then the listing. */
  method Look(fs: FileSystem, root: Path, current: Path) returns (children: seq<Path>)
    requires Sound(fs.nodes) && root <= current
    requires current == root || current in Tree(fs.nodes, root, fs.links)
    ensures ListedFrom(Tree(fs.nodes, root, fs.links), TreeRefused(fs.nodes, fs.refused, root, fs.links), current, children)
  {
    children := [];
    ghost var home := Entry(fs.nodes, root, fs.links);
    if fs.IsSymlink(current) || !fs.IsDir(current) {
      if home.Some? {
        NothingListed(fs, root, home.value, current);
      }
      return;
    }
    if home.None? {
      NowhereToLook(fs.nodes, root, fs.links);
    }
    var ok;
    ok, children := fs.IterDir(current);
    AllListed(fs, root, home.value, current, ok, children);
  }

  lemma NothingListed(fs: FileSystem, root: Path, home: Path, current: Path)
    requires Sound(fs.nodes) && Entry(fs.nodes, root, fs.links) == Some(home) && root <= current
    requires current == root || current in View(fs.nodes, home, root)
    requires fs.IsSymlink(current) || !fs.IsDir(current)
    ensures forall c | c in View(fs.nodes, home, root) :: !ChildOf(c, current)
  {
    var v := View(fs.nodes, home, root);
    if current in v {
      NamesBelow(fs.nodes, fs.links, root, home, current);
    }
    ViewWellFormed(fs.nodes, home, root);
    NoChildren(v, root, current);
  }

  lemma AllListed(fs: FileSystem, root: Path, home: Path, current: Path, ok: bool, children: seq<Path>)
    requires Sound(fs.nodes) && Entry(fs.nodes, root, fs.links) == Some(home) && root <= current
    requires current == root || current in View(fs.nodes, home, root)
    requires !fs.IsSymlink(current) && fs.IsDir(current)
    requires ok <==> Follow(fs.nodes, current, fs.links).value.0 !in fs.refused.unreadable
    requires if ok then forall c :: c in children <==> Lists(fs.nodes, Follow(fs.nodes, current, fs.links).value.0, current, c) else children == []
    ensures ListedFrom(View(fs.nodes, home, root), ViewRefused(fs.refused, home, root), current, children)
  {
    var v, place := View(fs.nodes, home, root), Rebase(current, root, home);
    RefusedView(fs.refused, home, root, current);
    assert current !in v ==> place == home;
    NamesBelow(fs.nodes, fs.links, root, home, current);
    forall c ensures Lists(fs.nodes, place, current, c) <==> c in v && ChildOf(c, current) {
      ListsView(fs.nodes, home, root, current, c);
    }
  }

  ghost predicate Visiting(tree: map<Path, Kind>, refused: Refusals, root: Path, ordered: seq<Path>, pending: seq<Path>,
                           seen: set<Path>, universe: set<Path>) {
    (forall p :: p in ordered <==> p in seen) && seen <= universe && Walking(tree, refused, root, ordered, pending)
  }

  lemma Visits(tree: map<Path, Kind>, refused: Refusals, root: Path, ordered: seq<Path>, pending: seq<Path>,
               seen: set<Path>, universe: set<Path>, children: seq<Path>)
    requires WellFormed(tree, root) && universe == tree.Keys + {root}
    requires pending != [] && Visiting(tree, refused, root, ordered, pending, seen, universe)
    requires pending[|pending| - 1] !in seen && ListedFrom(tree, refused, pending[|pending| - 1], children)
    ensures var current := pending[|pending| - 1];
            && Visiting(tree, refused, root, ordered + [current], pending[..|pending| - 1] + children, seen + {current}, universe)
            && |universe - (seen + {current})| < |universe - seen|
  {
    var current := pending[|pending| - 1];
    Records(tree, refused, root, ordered, pending, children);
    Shrinks(universe, seen, current);
  }

  /** The walk: pop, record, and push what the node lists. */
  method Walk(fs: FileSystem, root: Path) returns (ordered: seq<Path>)
    requires Sound(fs.nodes)
    ensures Distinct(ordered) && ParentsFirst(ordered, root)
    ensures forall p :: p in ordered <==>
              Reached(Tree(fs.nodes, root, fs.links), TreeRefused(fs.nodes, fs.refused, root, fs.links), root, p)
  {
    ghost var tree, refused := Tree(fs.nodes, root, fs.links), TreeRefused(fs.nodes, fs.refused, root, fs.links);
    TreeWellFormed(fs.nodes, root, fs.links);
    var pending := [root];
    ordered := [];
    var seen: set<Path> := {};
    ghost var universe := tree.Keys + {root};
    while pending != []
      invariant Visiting(tree, refused, root, ordered, pending, seen, universe)
      decreases |universe - seen|, |pending|
    {
      var current := pending[|pending| - 1];
      var rest := pending[..|pending| - 1];
      if current in seen {
        SkipsSeen(tree, refused, root, ordered, pending);
        pending := rest;
        continue;
      }
      PushedReached(tree, refused, root, ordered, current);
      var children := Look(fs, root, current);
      Visits(tree, refused, root, ordered, pending, seen, universe, children);
      seen := seen + {current};
      ordered := ordered + [current];
      pending := rest + children;
    }
    WalkEnds(tree, refused, root, ordered);
  }

  // ----- removal while the tree shrinks -----

  ghost predicate Within(now: map<Path, Kind>, nodes: map<Path, Kind>) {
    forall q | q in now :: q in nodes && now[q] == nodes[q]
  }

  /** Nothing is at or below `q`. */
  ghost predicate Dead(now: map<Path, Kind>, q: Path) { forall x | x in now :: !(q <= x) }

  /**
   Removing nodes changes where a path leads only by breaking a link on its trail, and then
   the path leads to nothing: it never starts to lead anywhere else.
   */
  lemma {:induction false} FollowStable(now: map<Path, Kind>, nodes: map<Path, Kind>, p: Path, links: nat)
    requires Within(now, nodes) && Sound(now) && Follow(nodes, p, links).Some?
    ensures StableAt(now, Trail(nodes, p, links), Follow(nodes, p, links), Follow(now, p, links))
    decreases links, |p|
  {
    if p != [] {
      var up := Parent(p);
      FollowStable(now, nodes, up, links);
      var dir := Follow(nodes, up, links).value;
      var here := dir.0 + [p[|p| - 1]];
      if here in nodes && nodes[here].Symlink? {
        var target := nodes[here].target;
        FollowLinks(nodes, p, links, up, dir, here);
        if here in now && Trail(nodes, up, links) <= now.Keys {
          FollowStable(now, nodes, target, dir.1 - 1);
          FollowLinks(now, p, links, up, dir, here);
        } else {
          Broken(now, p, links, up, dir, Trail(nodes, up, links));
        }
      } else {
        FollowStops(nodes, p, links, up, dir);
        if Trail(nodes, up, links) <= now.Keys {
          FollowStops(now, p, links, up, dir);
        } else {
          DeadStays(now, p, links, up, Follow(now, up, links).value);
        }
      }
    }
  }

  /** A path that led to `was` over these links leads there still, or to nothing once one of them is gone. */
  ghost predicate StableAt(now: map<Path, Kind>, trail: set<Path>, was: Option<(Path, nat)>, leads: Option<(Path, nat)>) {
    if trail <= now.Keys then leads == was else leads.Some? && Dead(now, leads.value.0)
  }

  lemma Broken(now: map<Path, Kind>, p: Path, links: nat, up: Path, dir: (Path, nat), trail: set<Path>)
    requires Sound(now) && p != [] && up == Parent(p) && StableAt(now, trail, Some(dir), Follow(now, up, links))
    requires !(trail <= now.Keys && dir.0 + [p[|p| - 1]] in now)
    ensures Follow(now, p, links).Some? && Dead(now, Follow(now, p, links).value.0)
  {
    if trail <= now.Keys {
      FollowStops(now, p, links, up, dir);
      MissingIsDead(now, dir.0 + [p[|p| - 1]]);
    } else {
      DeadStays(now, p, links, up, Follow(now, up, links).value);
    }
  }

  lemma DeadStays(now: map<Path, Kind>, p: Path, links: nat, up: Path, dir: (Path, nat))
    requires p != [] && up == Parent(p) && Follow(now, up, links) == Some(dir) && Dead(now, dir.0)
    ensures Follow(now, p, links).Some? && Dead(now, Follow(now, p, links).value.0)
  {
    DeadBelow(now, dir.0, p[|p| - 1]);
    FollowStops(now, p, links, up, dir);
  }

  lemma DeadBelow(now: map<Path, Kind>, q: Path, name: string)
    requires Dead(now, q)
    ensures Dead(now, q + [name]) && q + [name] !in now
  {
    forall x | x in now ensures !(q + [name] <= x) {
      assert q + [name] <= x ==> q <= x;
    }
    assert q <= q + [name];
  }

  lemma {:induction false} MissingIsDead(now: map<Path, Kind>, q: Path)
    requires Sound(now) && q !in now
    ensures Dead(now, q)
  {
    forall x | x in now ensures !(q <= x) {
      NothingBelow(now, q, x);
    }
  }

  lemma {:induction false} NothingBelow(now: map<Path, Kind>, q: Path, x: Path)
    requires Sound(now) && q !in now && x in now
    ensures !(q <= x)
    decreases |x|
  {
    if x != [] && q != x {
      assert q <= x ==> q <= Parent(x);
      NothingBelow(now, q, Parent(x));
    }
  }

  /** The links followed to reach a root. */
  function TrailTo(nodes: map<Path, Kind>, root: Path, links: nat): set<Path> {
    if root == [] then {} else Trail(nodes, Parent(root), links)
  }

  /** The way to the root does not lead through the tree below it. */
  ghost predicate Anchored(nodes: map<Path, Kind>, root: Path, links: nat) {
    var home := Entry(nodes, root, links);
    home.Some? ==> forall l | l in TrailTo(nodes, root, links) :: home.value <= l ==> l == home.value
  }

  lemma {:induction false} TrailIsLinks(nodes: map<Path, Kind>, p: Path, links: nat)
    ensures forall l | l in Trail(nodes, p, links) :: l in nodes && nodes[l].Symlink?
    decreases links, |p|
  {
    if p != [] {
      TrailIsLinks(nodes, Parent(p), links);
      var dir := Follow(nodes, Parent(p), links);
      if dir.Some? {
        var here := dir.value.0 + [p[|p| - 1]];
        if here in nodes && nodes[here].Symlink? && dir.value.1 > 0 {
          TrailIsLinks(nodes, nodes[here].target, dir.value.1 - 1);
        }
      }
    }
  }

  /** Below the root no further link is followed. */
  lemma {:induction false} TrailBelow(nodes: map<Path, Kind>, links: nat, root: Path, home: Path, p: Path)
    requires Sound(nodes) && Entry(nodes, root, links) == Some(home) && root <= p
    requires p == root || Rebase(p, root, home) in nodes
    ensures TrailTo(nodes, p, links) == TrailTo(nodes, root, links)
    ensures Entry(nodes, p, links) == Some(Rebase(p, root, home))
    decreases |p|
  {
    if p == root {
      assert Rebase(p, root, home) == home;
    } else {
      var q := Parent(p);
      var place := Rebase(p, root, home);
      RebaseParent(p, root, home);
      NamesBelow(nodes, links, root, home, p);
      TrailBelow(nodes, links, root, home, q);
      if q != [] {
        assert Follow(nodes, Parent(q), links).value.0 + [q[|q| - 1]] == Rebase(q, root, home);
      }
    }
  }

  /** While the tree shrinks, a path of the walk names its own node or nothing. */
  lemma EntrySafe(now: map<Path, Kind>, nodes: map<Path, Kind>, p: Path, links: nat)
    requires Within(now, nodes) && Sound(now) && Entry(nodes, p, links).Some?
    ensures Entry(now, p, links).Some?
    ensures TrailTo(nodes, p, links) <= now.Keys ==> Entry(now, p, links) == Entry(nodes, p, links)
    ensures !(TrailTo(nodes, p, links) <= now.Keys) ==> Entry(now, p, links).value !in now
  {
    if p != [] {
      FollowStable(now, nodes, Parent(p), links);
      if !(TrailTo(nodes, p, links) <= now.Keys) {
        DeadBelow(now, Follow(now, Parent(p), links).value.0, p[|p| - 1]);
      }
    }
  }

  /** What one attempt does to the node a path names. */
  ghost predicate Attempt(now: map<Path, Kind>, next: map<Path, Kind>, refused: Refusals, e: Option<Path>) {
    next == if e.Some? && e.value in now && e.value !in refused.denied
               && (now[e.value] == Directory ==> forall c | c in now :: !ChildOf(c, e.value))
            then now - {e.value} else now
  }

  lemma AttemptSafe(now: map<Path, Kind>, next: map<Path, Kind>, refused: Refusals, e: Option<Path>)
    requires Sound(now) && Attempt(now, next, refused, e)
    ensures Sound(next) && Within(next, now) && forall q | q in now && q !in next :: e == Some(q)
  {
  }

  /** The body of the removal loop: the same two tests, then unlink or rmdir. */
  method AttemptOne(fs: FileSystem, current: Path)
    requires Sound(fs.nodes)
    modifies fs
    ensures Attempt(old(fs.nodes), fs.nodes, fs.refused, Entry(old(fs.nodes), current, fs.links))
  {
    ghost var e := Entry(fs.nodes, current, fs.links);
    if e.Some? && e.value in fs.nodes && !fs.nodes[e.value].Symlink? {
      NamedIsReached(fs.nodes, current, fs.links);
    }
    if fs.IsSymlink(current) || !fs.IsDir(current) {
      fs.Unlink(current);
    } else {
      fs.RmDir(current);
    }
  }

  lemma NamedIsReached(nodes: map<Path, Kind>, p: Path, links: nat)
    requires Entry(nodes, p, links).Some? && Entry(nodes, p, links).value in nodes && !nodes[Entry(nodes, p, links).value].Symlink?
    ensures Follow(nodes, p, links).Some? && Follow(nodes, p, links).value.0 == Entry(nodes, p, links).value
  {
  }

  lemma ViewMinus(now: map<Path, Kind>, home: Path, root: Path, p: Path)
    requires root <= p
    ensures View(now - {Rebase(p, root, home)}, home, root) == View(now, home, root) - {p}
  {
    var place := Rebase(p, root, home);
    forall q | root <= q ensures Rebase(q, root, home) == place <==> q == p {
      RebaseBack(q, root, home);
      RebaseBack(p, root, home);
    }
  }

  lemma ChildrenInView(now: map<Path, Kind>, home: Path, root: Path, p: Path)
    requires root <= p
    ensures (exists c | c in now :: ChildOf(c, Rebase(p, root, home))) <==> exists c | c in View(now, home, root) :: ChildOf(c, p)
  {
    var place, v := Rebase(p, root, home), View(now, home, root);
    forall c | c in v && ChildOf(c, p) ensures Rebase(c, root, home) in now && ChildOf(Rebase(c, root, home), place) {
      assert Rebase(c, root, home) == place + [c[|c| - 1]];
    }
    forall q | q in now && ChildOf(q, place) ensures p + [q[|q| - 1]] in v && ChildOf(p + [q[|q| - 1]], p) {
      var c := p + [q[|q| - 1]];
      assert root <= c && Rebase(c, root, home) == place + [q[|q| - 1]] == q;
    }
  }

  /** An attempt at a node of the tree, seen in the tree. */
  lemma AttemptInView(now: map<Path, Kind>, next: map<Path, Kind>, refused: Refusals, home: Path, root: Path, p: Path)
    requires root <= p && Attempt(now, next, refused, Some(Rebase(p, root, home)))
    ensures var v, w := View(now, home, root), View(next, home, root);
            w == if p in ViewRefused(refused, home, root).denied || (p in v && v[p] == Directory && exists c :: c in v && ChildOf(c, p))
                 then v else v - {p}
  {
    var place, v := Rebase(p, root, home), View(now, home, root);
    RefusedView(refused, home, root, p);
    ChildrenInView(now, home, root, p);
    ViewMinus(now, home, root, p);
    assert p in v <==> place in now;
    assert place !in now ==> v - {p} == v;
  }

  /** What holds between two attempts, whatever the links are. */
  ghost predicate Confined(now: map<Path, Kind>, nodes: map<Path, Kind>, home: Path) {
    Within(now, nodes) && Sound(now) && forall q | q in nodes && !(home <= q) :: q in now
  }

  /** A path of the walk, and the place of its node. */
  ghost predicate OnWalk(nodes: map<Path, Kind>, links: nat, root: Path, home: Path, p: Path) {
    Entry(nodes, root, links) == Some(home) && root <= p && (p == root || Rebase(p, root, home) in nodes)
  }

  lemma ConfinedStep(now: map<Path, Kind>, next: map<Path, Kind>, nodes: map<Path, Kind>, refused: Refusals, links: nat,
                     root: Path, home: Path, p: Path)
    requires Sound(nodes) && Confined(now, nodes, home) && OnWalk(nodes, links, root, home, p)
    requires Attempt(now, next, refused, Entry(now, p, links))
    ensures Confined(next, nodes, home)
    ensures forall q | q in now && q !in next :: q == Rebase(p, root, home)
  {
    TrailBelow(nodes, links, root, home, p);
    EntrySafe(now, nodes, p, links);
    AttemptSafe(now, next, refused, Entry(now, p, links));
  }

  /** A link on the way that lies inside the tree keeps its top alive: once it is gone the top cannot be named. */
  lemma TopStays(now: map<Path, Kind>, next: map<Path, Kind>, nodes: map<Path, Kind>, refused: Refusals, links: nat,
                 root: Path, home: Path, p: Path, l: Path)
    requires Sound(nodes) && Confined(now, nodes, home) && OnWalk(nodes, links, root, home, p)
    requires Attempt(now, next, refused, Entry(now, p, links))
    requires l in TrailTo(nodes, root, links) && home <= l && l != home && home in now
    ensures home in next
  {
    ConfinedStep(now, next, nodes, refused, links, root, home, p);
    if Rebase(p, root, home) == home {
      RebaseBack(p, root, home);
      assert p == root;
      EntrySafe(now, nodes, root, links);
      if l in now {
        ChildTowards(now, home, l);
      }
    }
  }

  lemma ChildTowards(now: map<Path, Kind>, q: Path, x: Path)
    requires Sound(now) && x in now && q <= x && q != x
    ensures q in now && now[q] == Directory && exists c :: c in now && ChildOf(c, q)
  {
    PrefixesExist(now, x, |q| + 1);
    PrefixesExist(now, x, |q|);
    var c := x[..|q| + 1];
    assert Parent(c) == x[..|q|] == q;
  }

  lemma {:induction false} PrefixesExist(now: map<Path, Kind>, x: Path, k: nat)
    requires Sound(now) && x in now && k <= |x|
    ensures x[..k] in now && (k < |x| ==> now[x[..k]] == Directory)
    decreases |x|
  {
    if k < |x| {
      PrefixesExist(now, Parent(x), k);
      assert Parent(x)[..k] == x[..k];
    } else {
      assert x[..k] == x;
    }
  }

  /** On an anchored root every attempt finds its node by its path. */
  lemma AnchoredEntry(now: map<Path, Kind>, nodes: map<Path, Kind>, links: nat, root: Path, home: Path, p: Path)
    requires Sound(nodes) && Confined(now, nodes, home) && OnWalk(nodes, links, root, home, p)
    requires Anchored(nodes, root, links) && (home in nodes ==> home in now)
    ensures Entry(now, p, links) == Some(Rebase(p, root, home))
  {
    TrailBelow(nodes, links, root, home, p);
    EntrySafe(now, nodes, p, links);
    if root != [] {
      TrailIsLinks(nodes, Parent(root), links);
    }
    assert TrailTo(nodes, root, links) <= now.Keys;
  }

  lemma RootIsFirst(ordered: seq<Path>, root: Path, i: nat)
    requires Distinct(ordered) && ParentsFirst(ordered, root) && i < |ordered| && root <= ordered[i]
    ensures root !in ordered[i + 1..]
  {
    if root in ordered[i + 1..] {
      var k :| 0 <= k < |ordered[i + 1..]| && ordered[i + 1..][k] == root;
      var j := i + 1 + k;
      assert ordered[j] == root;
      if ordered[i] != root {
        AncestorsFirst(ordered, root, root, i);
      }
      assert false;
    }
  }

  /** Between two attempts: `done` has been tried. */
  ghost predicate Removing(now: map<Path, Kind>, nodes: map<Path, Kind>, refused: Refusals, links: nat, root: Path, done: seq<Path>) {
    var home := Entry(nodes, root, links);
    if home.None? then now == nodes
    else
      && Confined(now, nodes, home.value)
      && (Anchored(nodes, root, links) ==>
            Progress(View(now, home.value, root), Tree(nodes, root, links), TreeRefused(nodes, refused, root, links), root, done))
      && (!Anchored(nodes, root, links) ==> home.value in now)
  }

  lemma RemovingStarts(nodes: map<Path, Kind>, refused: Refusals, links: nat, root: Path)
    requires Sound(nodes)
    ensures Removing(nodes, nodes, refused, links, root, [])
  {
    var home := Entry(nodes, root, links);
    if home.Some? && !Anchored(nodes, root, links) {
      var l :| l in TrailTo(nodes, root, links) && home.value <= l && l != home.value;
      TrailIsLinks(nodes, Parent(root), links);
      ChildTowards(nodes, home.value, l);
    }
  }

  lemma AnchoredStep(now: map<Path, Kind>, next: map<Path, Kind>, nodes: map<Path, Kind>, refused: Refusals, links: nat, root: Path,
                     home: Path, ordered: seq<Path>, i: nat)
    requires Sound(nodes) && i < |ordered| && Distinct(ordered) && ParentsFirst(ordered, root)
    requires Entry(nodes, root, links) == Some(home) && Anchored(nodes, root, links) && Confined(now, nodes, home)
    requires forall p :: p in ordered <==> Reached(View(nodes, home, root), ViewRefused(refused, home, root), root, p)
    requires Progress(View(now, home, root), View(nodes, home, root), ViewRefused(refused, home, root), root, ordered[i + 1..])
    requires OnWalk(nodes, links, root, home, ordered[i]) && Attempt(now, next, refused, Entry(now, ordered[i], links))
    ensures Progress(View(next, home, root), View(nodes, home, root), ViewRefused(refused, home, root), root, ordered[i..])
  {
    var p, tree, tref := ordered[i], View(nodes, home, root), ViewRefused(refused, home, root);
    RootIsFirst(ordered, root, i);
    RootUntried(View(now, home, root), tree, tref, root, ordered[i + 1..]);
    assert Rebase(root, root, home) == home;
    AnchoredEntry(now, nodes, links, root, home, p);
    AttemptInView(now, next, refused, home, root, p);
    ViewWellFormed(nodes, home, root);
    Attempted(View(now, home, root), View(next, home, root), tree, tref, root, ordered, i);
  }

  lemma RemovingStep(now: map<Path, Kind>, next: map<Path, Kind>, nodes: map<Path, Kind>, refused: Refusals, links: nat, root: Path,
                     ordered: seq<Path>, i: nat)
    requires Sound(nodes) && i < |ordered| && Met(nodes, refused, links, root, ordered)
    requires Removing(now, nodes, refused, links, root, ordered[i + 1..])
    requires Attempt(now, next, refused, Entry(now, ordered[i], links))
    ensures Removing(next, nodes, refused, links, root, ordered[i..])
  {
    var p := ordered[i];
    assert p in ordered;
    var e := Entry(nodes, root, links);
    if e.None? {
      assert p == root;
    } else {
      var home := e.value;
      ConfinedStep(now, next, nodes, refused, links, root, home, p);
      if Anchored(nodes, root, links) {
        AnchoredStep(now, next, nodes, refused, links, root, home, ordered, i);
      } else {
        var l :| l in TrailTo(nodes, root, links) && home <= l && l != home;
        TopStays(now, next, nodes, refused, links, root, home, p, l);
      }
    }
  }

  lemma RootUntried(v: map<Path, Kind>, tree: map<Path, Kind>, tref: Refusals, root: Path, done: seq<Path>)
    requires Progress(v, tree, tref, root, done) && root !in done
    ensures root in v <==> root in tree
  {
  }

  /** What is left when all attempts are made. */
  ghost predicate LeftBehind(now: map<Path, Kind>, nodes: map<Path, Kind>, refused: Refusals, links: nat, root: Path) {
    var home := Entry(nodes, root, links);
    && Within(now, nodes)
    && (forall q | q in nodes && !(home.Some? && home.value <= q) :: q in now)
    && (home.Some? && Anchored(nodes, root, links) ==>
          forall q | q in nodes && home.value <= q ::
            q in now <==> Survives(Tree(nodes, root, links), TreeRefused(nodes, refused, root, links), root, Rebase(q, home.value, root)))
    && (!Anchored(nodes, root, links) ==> home.value in now)
  }

  lemma RemovingEnds(now: map<Path, Kind>, nodes: map<Path, Kind>, refused: Refusals, links: nat, root: Path, ordered: seq<Path>)
    requires Sound(nodes) && Removing(now, nodes, refused, links, root, ordered)
    requires forall p :: p in ordered <==> Reached(Tree(nodes, root, links), TreeRefused(nodes, refused, root, links), root, p)
    ensures LeftBehind(now, nodes, refused, links, root)
  {
    var e, tree, tref := Entry(nodes, root, links), Tree(nodes, root, links), TreeRefused(nodes, refused, root, links);
    if e.Some? && Anchored(nodes, root, links) {
      Unreached(tree, tref, root, ordered);
      forall q | q in nodes && e.value <= q ensures q in now <==> Survives(tree, tref, root, Rebase(q, e.value, root)) {
        RebaseBack(q, e.value, root);
        var p := Rebase(q, e.value, root);
        assert p in tree && (p in View(now, e.value, root) <==> q in now);
      }
    }
  }

  /** The nodes the walk met. */
  ghost predicate Met(nodes: map<Path, Kind>, refused: Refusals, links: nat, root: Path, ordered: seq<Path>) {
    && Distinct(ordered) && ParentsFirst(ordered, root)
    && forall p :: p in ordered <==> Reached(Tree(nodes, root, links), TreeRefused(nodes, refused, root, links), root, p)
  }

  /** The removal loop, over the walk backwards. */
  method RemoveAll(fs: FileSystem, root: Path, ordered: seq<Path>) returns (attempts: seq<Path>)
    requires Sound(fs.nodes) && Met(fs.nodes, fs.refused, fs.links, root, ordered)
    modifies fs
    ensures Removing(fs.nodes, old(fs.nodes), fs.refused, fs.links, root, ordered) && Reverses(ordered, attempts)
  {
    ghost var nodes := fs.nodes;
    attempts := [];
    var i := |ordered|;
    RemovingStarts(nodes, fs.refused, fs.links, root);
    while i > 0
      invariant 0 <= i <= |ordered|
      invariant Reverses(ordered[i..], attempts)
      invariant Sound(fs.nodes) && Removing(fs.nodes, nodes, fs.refused, fs.links, root, ordered[i..])
    {
      i := i - 1;
      var current := ordered[i];
      ReverseStep(ordered, i, attempts);
      ghost var now := fs.nodes;
      attempts := attempts + [current];
      AttemptOne(fs, current);
      AttemptSafe(now, fs.nodes, fs.refused, Entry(now, current, fs.links));
      RemovingStep(now, fs.nodes, nodes, fs.refused, fs.links, root, ordered, i);
    }
    assert ordered[0..] == ordered;
  }

  lemma ReverseStep(ordered: seq<Path>, i: nat, attempts: seq<Path>)
    requires i < |ordered| && Reverses(ordered[i + 1..], attempts)
    ensures Reverses(ordered[i..], attempts + [ordered[i]])
  {
    assert ordered[i..] == [ordered[i]] + ordered[i + 1..];
  }

  /**
   Removes the path, whatever links there are. Every reached node is tried once, each after
   everything under it. Nothing outside the tree at the root's own place is touched. What is
   left of the tree is what survives the recursion when the way to the root does not lead
   through the tree; when it does, the top of the tree always stays.
   */
  method RemoveEvidencePath(fs: FileSystem, root: Path) returns (attempts: seq<Path>)
    requires Sound(fs.nodes)
    modifies fs
    ensures LeftBehind(fs.nodes, old(fs.nodes), fs.refused, fs.links, root)
    ensures Distinct(attempts)
    ensures forall p :: p in attempts <==>
              Reached(Tree(old(fs.nodes), root, fs.links), TreeRefused(old(fs.nodes), fs.refused, root, fs.links), root, p)
    ensures forall a, b | a in attempts && b in attempts && a <= b && a != b :: Before(attempts, b, a)
  {
    ghost var nodes := fs.nodes;
    var ordered := Walk(fs, root);
    attempts := RemoveAll(fs, root, ordered);
    RemovingEnds(fs.nodes, nodes, fs.refused, fs.links, root, ordered);
    ReverseMembers(ordered, attempts);
    forall a, b | a in attempts && b in attempts && a <= b && a != b ensures Before(attempts, b, a) {
      ReverseOrder(ordered, attempts, root, a, b);
    }
  }

  /** With nothing refused in the tree, it is gone and the rest untouched exactly when the root is anchored. */
  lemma NothingRefusedRemovesAll(now: map<Path, Kind>, nodes: map<Path, Kind>, refused: Refusals, links: nat, root: Path)
    requires Sound(nodes) && LeftBehind(now, nodes, refused, links, root) && Entry(nodes, root, links).Some?
    requires forall q | Entry(nodes, root, links).value <= q :: q !in refused.denied && q !in refused.unreadable
    ensures var home := Entry(nodes, root, links).value;
            && (Anchored(nodes, root, links) ==> forall q :: q in now <==> q in nodes && !(home <= q))
            && (!Anchored(nodes, root, links) ==> home in now)
  {
    var home, tree := Entry(nodes, root, links).value, Tree(nodes, root, links);
    var tref := TreeRefused(nodes, refused, root, links);
    if Anchored(nodes, root, links) {
      TreeWellFormed(nodes, root, links);
      assert Spelled(refused.denied, home, root) == {} && Spelled(refused.unreadable, home, root) == {};
      forall q | q in nodes && home <= q ensures q !in now {
        RebaseBack(q, home, root);
        NothingRefusedNothingLeft(tree, tref, root, Rebase(q, home, root));
      }
    }
  }

  /** No link at the path or above it. */
  ghost predicate Plain(nodes: map<Path, Kind>, p: Path)
    decreases |p|
  {
    p == [] || ((p in nodes ==> !nodes[p].Symlink?) && Plain(nodes, Parent(p)))
  }

  lemma {:induction false} PlainFollow(nodes: map<Path, Kind>, p: Path, links: nat)
    requires Plain(nodes, p)
    ensures Follow(nodes, p, links) == Some((p, links)) && Trail(nodes, p, links) == {}
    decreases |p|
  {
    if p != [] {
      var up := Parent(p);
      assert up + [p[|p| - 1]] == p;
      PlainFollow(nodes, up, links);
      FollowStops(nodes, p, links, up, (up, links));
    }
  }

  /** A root without links above it is anchored at its own place, wherever the links below it lead. */
  lemma PlainRootAnchored(nodes: map<Path, Kind>, root: Path, links: nat)
    requires root != [] ==> Plain(nodes, Parent(root))
    ensures Entry(nodes, root, links) == Some(root) && Anchored(nodes, root, links)
  {
    if root != [] {
      PlainFollow(nodes, Parent(root), links);
      assert Parent(root) + [root[|root| - 1]] == root;
    }
  }

  /** A root that is not anchored: a directory named through a link in it that leads back up. */
  lemma UnanchoredRoot(nodes: map<Path, Kind>, dir: string, up: string, links: nat)
    requires links > 0 && [dir] in nodes && nodes[[dir]] == Directory
    requires [dir, up] in nodes && nodes[[dir, up]] == Symlink([])
    ensures Entry(nodes, [dir, up, dir], links) == Some([dir]) && !Anchored(nodes, [dir, up, dir], links)
  {
    var top: Path := [];
    assert Parent([dir]) == top && top + [dir] == [dir];
    assert Parent([dir, up]) == [dir] && [dir] + [up] == [dir, up];
    assert Parent([dir, up, dir]) == [dir, up];
    assert Follow(nodes, [dir], links) == Some(([dir], links));
    assert Follow(nodes, [dir, up], links) == Follow(nodes, top, links - 1);
    var root: Path := [dir, up, dir];
    assert TrailTo(nodes, root, links) == Trail(nodes, [dir, up], links);
    assert [dir, up] in TrailTo(nodes, root, links) && [dir] <= [dir, up] && [dir, up] != [dir];
  }

  /** Such a tree exists, and its removal leaves the directory behind although nothing is refused. */
  method UnanchoredStays() returns (fs: FileSystem, ghost nodes: map<Path, Kind>)
    ensures Sound(nodes) && !Anchored(nodes, ["d", "up", "d"], fs.links)
    ensures LeftBehind(fs.nodes, nodes, fs.refused, fs.links, ["d", "up", "d"])
    ensures ["d"] in fs.nodes && fs.refused == Refusals({}, {}) && fs.links == 40
  {
    nodes := map[[] := Directory, ["d"] := Directory, ["d", "up"] := Symlink([])];
    fs := new FileSystem(map[[] := Directory, ["d"] := Directory, ["d", "up"] := Symlink([])], Refusals({}, {}), 40);
    assert Parent(["d"]) == [] && Parent(["d", "up"]) == ["d"];
    UnanchoredRoot(nodes, "d", "up", 40);
    var attempts := RemoveEvidencePath(fs, ["d", "up", "d"]);
  }
}
