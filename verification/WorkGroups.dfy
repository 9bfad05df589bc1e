/** Independent work groups of a session (`buildWorkGroups`).

A union-find with path compression over developers, testers and task ids. The
groups it returns are exactly the connected components of the graph

    developer --owns--> task <--verifies-- tester

and come back in strictly increasing rank.
*/
module WorkGroups {
  import opened Sorting

  datatype Node = Dev(i: nat) | Tester(i: nat) | Task(id: string)

  /** The task ids of each developer and of each tester, by assignment index. */
  datatype Assignments = Assignments(devs: seq<seq<string>>, testers: seq<seq<string>>)

  datatype Group = Group(devs: seq<nat>, testers: seq<nat>)

  type Edges = set<(Node, Node)>

  // ---------------------------------------------------------------- the graph

  ghost predicate Adjacent(E: Edges, a: Node, b: Node) {
    (a, b) in E || (b, a) in E
  }

  ghost predicate Chain(E: Edges, p: seq<Node>) {
    |p| > 0 && forall k | 0 <= k < |p| - 1 :: Adjacent(E, p[k], p[k + 1])
  }

  ghost predicate Via(E: Edges, a: Node, b: Node, p: seq<Node>) {
    Chain(E, p) && p[0] == a && p[|p| - 1] == b
  }

  ghost predicate Linked(E: Edges, a: Node, b: Node) {
    exists p :: Via(E, a, b, p)
  }

  predicate IsMember(g: Assignments, x: Node) {
    match x
    case Dev(i) => i < |g.devs|
    case Tester(i) => i < |g.testers|
    case Task(_) => false
  }

  function TasksOf(g: Assignments, x: Node): seq<string>
    requires IsMember(g, x)
  {
    if x.Dev? then g.devs[x.i] else g.testers[x.i]
  }

  function RowEdges(x: Node, tasks: seq<string>): Edges {
    if tasks == [] then {} else RowEdges(x, tasks[..|tasks| - 1]) + {(x, Task(tasks[|tasks| - 1]))}
  }

  function DevEdges(rows: seq<seq<string>>): Edges {
    if rows == [] then {}
    else DevEdges(rows[..|rows| - 1]) + RowEdges(Dev(|rows| - 1), rows[|rows| - 1])
  }

  function TesterEdges(rows: seq<seq<string>>): Edges {
    if rows == [] then {}
    else TesterEdges(rows[..|rows| - 1]) + RowEdges(Tester(|rows| - 1), rows[|rows| - 1])
  }

  function AllEdges(g: Assignments): Edges {
    DevEdges(g.devs) + TesterEdges(g.testers)
  }

  /** Two nodes hang together through a chain of shared task ids. */
  ghost predicate Connected(g: Assignments, a: Node, b: Node) {
    Linked(AllEdges(g), a, b)
  }

  lemma {:induction false} RowEdge(x: Node, tasks: seq<string>, e: (Node, Node))
    ensures e in RowEdges(x, tasks) <==> e.0 == x && e.1.Task? && e.1.id in tasks
  {
    if tasks != [] {
      RowEdge(x, tasks[..|tasks| - 1], e);
      assert tasks == tasks[..|tasks| - 1] + [tasks[|tasks| - 1]];
    }
  }

  lemma {:induction false} DevEdge(rows: seq<seq<string>>, e: (Node, Node))
    ensures e in DevEdges(rows) <==> e.0.Dev? && e.0.i < |rows| && e.1.Task? && e.1.id in rows[e.0.i]
  {
    if rows != [] {
      DevEdge(rows[..|rows| - 1], e);
      RowEdge(Dev(|rows| - 1), rows[|rows| - 1], e);
    }
  }

  lemma {:induction false} TesterEdge(rows: seq<seq<string>>, e: (Node, Node))
    ensures e in TesterEdges(rows) <==> e.0.Tester? && e.0.i < |rows| && e.1.Task? && e.1.id in rows[e.0.i]
  {
    if rows != [] {
      TesterEdge(rows[..|rows| - 1], e);
      RowEdge(Tester(|rows| - 1), rows[|rows| - 1], e);
    }
  }

  /** The graph joins exactly each developer or tester to each task it carries. */
  lemma EdgeMeansCarries(g: Assignments, e: (Node, Node))
    ensures e in AllEdges(g) <==> IsMember(g, e.0) && e.1.Task? && e.1.id in TasksOf(g, e.0)
  {
    DevEdge(g.devs, e);
    TesterEdge(g.testers, e);
  }

  lemma LinkedRefl(E: Edges, a: Node)
    ensures Linked(E, a, a)
  {
    assert Via(E, a, a, [a]);
  }

  lemma LinkedSym(E: Edges, a: Node, b: Node)
    requires Linked(E, a, b)
    ensures Linked(E, b, a)
  {
    var p :| Via(E, a, b, p);
    var q := seq(|p|, k requires 0 <= k < |p| => p[|p| - 1 - k]);
    forall k | 0 <= k < |q| - 1 ensures Adjacent(E, q[k], q[k + 1]) {
      assert Adjacent(E, p[|p| - 2 - k], p[|p| - 2 - k + 1]);
    }
    assert Via(E, b, a, q);
  }

  lemma LinkedTrans(E: Edges, a: Node, b: Node, c: Node)
    requires Linked(E, a, b) && Linked(E, b, c)
    ensures Linked(E, a, c)
  {
    var p :| Via(E, a, b, p);
    var q :| Via(E, b, c, q);
    var r := p + q[1..];
    forall k | 0 <= k < |r| - 1 ensures Adjacent(E, r[k], r[k + 1]) {
      if k >= |p| - 1 {
        assert Adjacent(E, q[k - |p| + 1], q[k - |p| + 2]);
        assert r[k] == q[k - |p| + 1];
      }
    }
    assert Via(E, a, c, r);
  }

  lemma LinkedMono(E: Edges, F: Edges, a: Node, b: Node)
    requires E <= F && Linked(E, a, b)
    ensures Linked(F, a, b)
  {
    var p :| Via(E, a, b, p);
    forall k | 0 <= k < |p| - 1 ensures Adjacent(F, p[k], p[k + 1]) {
      assert Adjacent(E, p[k], p[k + 1]);
    }
    assert Via(F, a, b, p);
  }

  lemma LinkedEdge(E: Edges, a: Node, b: Node)
    requires (a, b) in E
    ensures Linked(E, a, b)
  {
    var p := [a, b];
    assert Adjacent(E, p[0], p[1]);
    assert Via(E, a, b, p);
  }

  lemma HasNeighbour(E: Edges, a: Node, b: Node)
    requires Linked(E, a, b) && a != b
    ensures exists c :: Adjacent(E, a, c)
  {
    var p :| Via(E, a, b, p);
    assert Adjacent(E, p[0], p[0 + 1]);
  }

  // ------------------------------------------------------- labelled partitions

  /** `root` labels every node so that equal labels mean linked, and only that. */
  ghost predicate Labels(E: Edges, root: map<Node, Node>) {
    && (forall e | e in E :: e.0 in root && e.1 in root)
    && (forall x, y {:trigger Linked(E, x, y)} | x in root && y in root ::
          root[x] == root[y] <==> Linked(E, x, y))
  }

  /** Along a chain of edges that respect the labels, the label never changes. */
  lemma {:induction false} ChainKeepsLabel(E: Edges, root: map<Node, Node>, p: seq<Node>)
    requires forall e | e in E :: e.0 in root && e.1 in root && root[e.0] == root[e.1]
    requires Chain(E, p) && p[0] in root
    ensures p[|p| - 1] in root && root[p[|p| - 1]] == root[p[0]]
  {
    if |p| > 1 {
      assert Adjacent(E, p[0], p[0 + 1]);
      var q := p[1..];
      forall k | 0 <= k < |q| - 1 ensures Adjacent(E, q[k], q[k + 1]) {
        assert Adjacent(E, p[k + 1], p[k + 1 + 1]);
      }
      ChainKeepsLabel(E, root, q);
    }
  }

  /** Adding a node without edges keeps the labelling exact. */
  lemma AddNodeLabels(E: Edges, root: map<Node, Node>, x: Node)
    requires Labels(E, root) && x !in root
    requires forall y | y in root :: root[y] in root
    ensures Labels(E, root[x := x])
  {
    var root' := root[x := x];
    forall a, b | a in root' && b in root' ensures root'[a] == root'[b] <==> Linked(E, a, b) {
      if a == b {
        LinkedRefl(E, a);
      } else if a == x || b == x {
        if Linked(E, a, b) {
          HasNeighbour(E, a, b);
          LinkedSym(E, a, b);
          HasNeighbour(E, b, a);
          assert false;
        }
      }
    }
  }

  function Relabel(root: map<Node, Node>, ra: Node, rb: Node): map<Node, Node> {
    map x | x in root :: if root[x] == ra then rb else root[x]
  }

  lemma RelabelSame(root: map<Node, Node>, r: Node)
    ensures Relabel(root, r, r) == root
  {
  }

  /** Renaming one class to another is exactly the effect of one new edge. */
  lemma UnionLabels(E: Edges, root: map<Node, Node>, a: Node, b: Node)
    requires Labels(E, root) && a in root && b in root
    ensures Labels(E + {(a, b)}, Relabel(root, root[a], root[b]))
  {
    var F := E + {(a, b)};
    var root' := Relabel(root, root[a], root[b]);
    forall e | e in F ensures e.0 in root' && e.1 in root' && root'[e.0] == root'[e.1] {
      if e in E { LinkedEdge(E, e.0, e.1); }
    }
    forall x, y | x in root' && y in root' ensures root'[x] == root'[y] <==> Linked(F, x, y) {
      if Linked(F, x, y) {
        var p :| Via(F, x, y, p);
        ChainKeepsLabel(F, root', p);
      }
      if root'[x] == root'[y] {
        ToAnchor(E, root, a, b, x);
        ToAnchor(E, root, a, b, y);
        if root[x] == root[y] {
          LinkedMono(E, F, x, y);
        } else {
          LinkedSym(F, y, b);
          LinkedTrans(F, x, b, y);
        }
      }
    }
  }

  /** After the edge is added, the members of both classes reach `b`. */
  lemma ToAnchor(E: Edges, root: map<Node, Node>, a: Node, b: Node, x: Node)
    requires Labels(E, root) && a in root && b in root && x in root
    ensures root[x] == root[a] || root[x] == root[b] ==> Linked(E + {(a, b)}, x, b)
  {
    var F := E + {(a, b)};
    if root[x] == root[b] {
      LinkedMono(E, F, x, b);
    } else if root[x] == root[a] {
      LinkedMono(E, F, x, a);
      LinkedEdge(F, a, b);
      LinkedTrans(F, x, a, b);
    }
  }

  // ---------------------------------------------------------------- union-find

  /** `x` points to itself, or to a node strictly nearer to the same root. */
  ghost predicate Hangs(parent: map<Node, Node>, root: map<Node, Node>, height: map<Node, nat>, x: Node)
    requires x in parent && parent.Keys == root.Keys == height.Keys
  {
    && parent[x] in parent && root[x] in parent
    && parent[root[x]] == root[x]
    && (parent[x] == x <==> root[x] == x)
    && root[parent[x]] == root[x]
    && (parent[x] != x ==> height[parent[x]] < height[x])
    && (root[x] != x ==> height[root[x]] < height[x])
  }

  ghost predicate Forest(parent: map<Node, Node>, root: map<Node, Node>, height: map<Node, nat>) {
    && parent.Keys == root.Keys == height.Keys
    && (forall x {:trigger Hangs(parent, root, height, x)} | x in parent :: Hangs(parent, root, height, x))
  }

  lemma AddKeepsForest(parent: map<Node, Node>, root: map<Node, Node>, height: map<Node, nat>, x: Node)
    requires Forest(parent, root, height) && x !in parent
    ensures Forest(parent[x := x], root[x := x], height[x := 0])
    ensures forall y | y in root :: root[y] in root
  {
    var p', r', h' := parent[x := x], root[x := x], height[x := 0];
    forall y | y in parent ensures root[y] in root { assert Hangs(parent, root, height, y); }
    assert p'.Keys == r'.Keys == h'.Keys;
    forall y | y in p' ensures Hangs(p', r', h', y) {
      if y != x {
        assert Hangs(parent, root, height, y);
        assert r'[y] == root[y] && p'[y] == parent[y];
      }
    }
  }

  /** Pointing `x` straight at its root keeps the forest and every root. */
  lemma {:induction false} CompressKeepsForest(parent: map<Node, Node>, root: map<Node, Node>, height: map<Node, nat>, x: Node)
    requires Forest(parent, root, height) && x in parent && root[x] != x
    requires Hangs(parent, root, height, x)
    ensures Forest(parent[x := root[x]], root, height)
  {
    var r := root[x];
    assert Hangs(parent, root, height, r);
    forall y | y in parent ensures Hangs(parent[x := r], root, height, y) {
      assert Hangs(parent, root, height, y);
      assert Hangs(parent, root, height, root[y]);
    }
  }

  /** Hanging one root under another moves its whole class there. */
  lemma LinkKeepsForest(parent: map<Node, Node>, root: map<Node, Node>, height: map<Node, nat>, ra: Node, rb: Node)
    requires Forest(parent, root, height) && ra in parent && rb in parent
    requires root[ra] == ra && root[rb] == rb && ra != rb
    ensures Forest(parent[ra := rb], Relabel(root, ra, rb), Raised(root, height, ra, rb))
  {
    var p', r', h' := parent[ra := rb], Relabel(root, ra, rb), Raised(root, height, ra, rb);
    assert Hangs(parent, root, height, ra) && Hangs(parent, root, height, rb);
    forall x | x in p' ensures Hangs(p', r', h', x) {
      assert Hangs(parent, root, height, x);
      assert Hangs(parent, root, height, parent[x]);
      assert Hangs(parent, root, height, root[x]);
    }
  }

  ghost function Raised(root: map<Node, Node>, height: map<Node, nat>, ra: Node, rb: Node): map<Node, nat>
    requires root.Keys == height.Keys && rb in height
  {
    map x | x in root :: if root[x] == ra then height[x] + height[rb] + 1 else height[x]
  }

  ghost predicate Consistent(parent: map<Node, Node>, root: map<Node, Node>, height: map<Node, nat>, E: Edges) {
    Forest(parent, root, height) && Labels(E, root)
  }

  /** What `union(a, b)` leaves behind is consistent with one more edge. */
  lemma UnionKeepsConsistent(parent: map<Node, Node>, root: map<Node, Node>, height: map<Node, nat>, E: Edges, a: Node, b: Node)
    requires Consistent(parent, root, height, E) && a in parent && b in parent
    requires root[a] in root && root[b] in root && root[root[a]] == root[a] && root[root[b]] == root[b]
    ensures root[a] != root[b] ==>
              Consistent(parent[root[a] := root[b]], Relabel(root, root[a], root[b]), Raised(root, height, root[a], root[b]), E + {(a, b)})
    ensures root[a] == root[b] ==> Consistent(parent, root, height, E + {(a, b)})
  {
    UnionLabels(E, root, a, b);
    if root[a] != root[b] {
      LinkKeepsForest(parent, root, height, root[a], root[b]);
    } else {
      RelabelSame(root, root[a]);
    }
  }

  /** The `parent` map of `buildWorkGroups` and the operations on it. */
  class UnionFind {
    var parent: map<Node, Node>
    /** The root every node reaches. */
    ghost var root: map<Node, Node>
    /** A bound on the distance to the root, strictly decreasing along `parent`. */
    ghost var height: map<Node, nat>
    /** The pairs that were united. */
    ghost var edges: Edges

    ghost predicate Valid()
      reads this
    {
      Consistent(parent, root, height, edges)
    }

    constructor ()
      ensures Valid() && parent == map[] && edges == {}
    {
      parent, root, height, edges := map[], map[], map[], {};
    }

    method Add(x: Node)
      requires Valid()
      modifies this
      ensures Valid() && edges == old(edges)
      ensures parent.Keys == old(parent.Keys) + {x}
    {
      if x !in parent {
        AddKeepsForest(parent, root, height, x);
        AddNodeLabels(edges, root, x);
        parent := parent[x := x];
        root := root[x := x];
        height := height[x := 0];
      }
    }

    /** Returns the root and points every node on the way straight at it; no
        node's root changes (`root` is not in the frame). */
    method Find(x: Node) returns (r: Node)
      requires Valid() && x in parent
      modifies this`parent
      ensures Valid() && parent.Keys == old(parent.Keys)
      ensures r in parent && r == root[x] == root[r] && parent[x] == r
      ensures forall y | y in parent :: parent[y] == old(parent)[y] || parent[y] == root[y]
    {
      r := x;
      while parent[r] != r
        invariant r in parent && root[r] == root[x]
        decreases height[r]
      {
        assert Hangs(parent, root, height, r);
        r := parent[r];
      }
      assert Hangs(parent, root, height, r);
      var y := x;
      while parent[y] != r
        invariant Valid() && parent.Keys == old(parent.Keys)
        invariant y in parent && root[y] == r == root[x]
        invariant y != x ==> parent[x] == r
        invariant forall z | z in parent :: parent[z] == old(parent)[z] || parent[z] == root[z]
        decreases height[y]
      {
        var next := parent[y];
        assert Hangs(parent, root, height, y);
        CompressKeepsForest(parent, root, height, y);
        parent := parent[y := r];
        y := next;
      }
    }

    method Union(a: Node, b: Node)
      requires Valid()
      modifies this
      ensures Valid() && edges == old(edges) + {(a, b)}
      ensures parent.Keys == old(parent.Keys) + {a, b}
    {
      Add(a);
      Add(b);
      var ra := Find(a);
      var rb := Find(b);
      Link(a, b, ra, rb);
    }

    /** `if (ra !== rb) parent.set(ra, rb)`. */
    method Link(ghost a: Node, ghost b: Node, ra: Node, rb: Node)
      requires Valid() && a in parent && b in parent && ra in parent && rb in parent
      requires root[a] == ra == root[ra] && root[b] == rb == root[rb]
      modifies this
      ensures Valid() && edges == old(edges) + {(a, b)} && parent.Keys == old(parent.Keys)
    {
      UnionKeepsConsistent(parent, root, height, edges, a, b);
      edges := edges + {(a, b)};
      if ra != rb {
        parent := parent[ra := rb];
        height := Raised(root, height, ra, rb);
        root := Relabel(root, ra, rb);
      }
    }
  }

  // ------------------------------------------------------------------- groups

  function Holds(g: Group, x: Node): bool {
    (x.Dev? && x.i in g.devs) || (x.Tester? && x.i in g.testers)
  }

  /** Lowest developer index, else the developer count plus the lowest tester. */
  function Rank(devCount: nat, g: Group): nat
    requires g.devs != [] || g.testers != []
  {
    if g.devs != [] then g.devs[0] else devCount + g.testers[0]
  }

  ghost predicate Increasing(s: seq<nat>) {
    forall i, j | 0 <= i < j < |s| :: s[i] < s[j]
  }

  /** `byRoot` in insertion order: `groups[k]` collects the members labelled `roots[k]`. */
  datatype Slots = Slots(roots: seq<Node>, groups: seq<Group>)

  function PositionOf(roots: seq<Node>, r: Node): (k: nat)
    ensures k <= |roots|
    ensures k < |roots| <==> r in roots
    ensures k < |roots| ==> roots[k] == r
  {
    if roots == [] then 0 else if roots[0] == r then 0 else 1 + PositionOf(roots[1..], r)
  }

  function With(g: Group, x: Node): Group {
    match x
    case Dev(i) => g.(devs := g.devs + [i])
    case Tester(i) => g.(testers := g.testers + [i])
    case Task(_) => g
  }

  /** `slot(find(x)).push(i)`. */
  function File(s: Slots, r: Node, x: Node): Slots
    requires |s.roots| == |s.groups|
  {
    var k := PositionOf(s.roots, r);
    if k < |s.roots| then s.(groups := s.groups[k := With(s.groups[k], x)])
    else Slots(s.roots + [r], s.groups + [With(Group([], []), x)])
  }

  /** Developers below `nd` and testers below `nt` have been filed. */
  predicate Seen(x: Node, nd: nat, nt: nat) {
    (x.Dev? && x.i < nd) || (x.Tester? && x.i < nt)
  }

  /** Each slot holds exactly the seen members with its root. */
  ghost predicate Collected(root: map<Node, Node>, s: Slots, nd: nat, nt: nat) {
    && |s.roots| == |s.groups|
    && (forall j, k | 0 <= j < k < |s.roots| :: s.roots[j] != s.roots[k])
    && (forall x {:trigger Seen(x, nd, nt)} | Seen(x, nd, nt) :: x in root && root[x] in s.roots)
    && (forall k, x {:trigger Holds(s.groups[k], x)} | 0 <= k < |s.groups| && Holds(s.groups[k], x) ::
          Seen(x, nd, nt) && x in root && root[x] == s.roots[k])
    && (forall k, x {:trigger Holds(s.groups[k], x)} | 0 <= k < |s.groups| && Seen(x, nd, nt) && root[x] == s.roots[k] ::
          Holds(s.groups[k], x))
  }

  ghost predicate Ordered(groups: seq<Group>, devCount: nat) {
    && (forall k | 0 <= k < |groups| :: Increasing(groups[k].devs) && Increasing(groups[k].testers))
    && (forall k | 0 <= k < |groups| :: groups[k].devs != [] || groups[k].testers != [])
    && (forall j, k | 0 <= j < k < |groups| :: Rank(devCount, groups[j]) < Rank(devCount, groups[k]))
  }

  ghost predicate Filed(root: map<Node, Node>, s: Slots, nd: nat, nt: nat, devCount: nat) {
    Collected(root, s, nd, nt) && Ordered(s.groups, devCount)
  }

  /** Only members seen so far sit in a group, so the next index is new and larger. */
  lemma NextIsLargest(root: map<Node, Node>, s: Slots, nd: nat, nt: nat, k: nat)
    requires Collected(root, s, nd, nt) && k < |s.groups|
    ensures forall i | i in s.groups[k].devs :: i < nd
    ensures forall i | i in s.groups[k].testers :: i < nt
  {
    forall i | i in s.groups[k].devs ensures i < nd { assert Holds(s.groups[k], Dev(i)); }
    forall i | i in s.groups[k].testers ensures i < nt { assert Holds(s.groups[k], Tester(i)); }
  }

  lemma WithHolds(g: Group, x: Node, y: Node)
    requires !x.Task?
    ensures Holds(With(g, x), y) <==> Holds(g, y) || y == x
  {
  }

  lemma AppendIncreasing(s: seq<nat>, n: nat)
    requires Increasing(s) && forall i | i in s :: i < n
    ensures Increasing(s + [n])
  {
    forall k | 0 <= k < |s| ensures s[k] < n { assert s[k] in s; }
  }

  predicate NextUp(x: Node, nd: nat, nt: nat, devCount: nat) {
    (x == Dev(nd) && nt == 0 && nd < devCount) || (x == Tester(nt) && nd == devCount)
  }

  function NextDevs(x: Node, nd: nat): nat { if x.Dev? then nd + 1 else nd }
  function NextTesters(x: Node, nt: nat): nat { if x.Dev? then nt else nt + 1 }

  lemma FileNext(root: map<Node, Node>, s: Slots, nd: nat, nt: nat, devCount: nat, x: Node)
    requires Filed(root, s, nd, nt, devCount) && x in root && NextUp(x, nd, nt, devCount)
    ensures Filed(root, File(s, root[x], x), NextDevs(x, nd), NextTesters(x, nt), devCount)
  {
    FileCollects(root, s, nd, nt, x);
    FileOrders(root, s, nd, nt, devCount, x);
  }

  lemma FileCollects(root: map<Node, Node>, s: Slots, nd: nat, nt: nat, x: Node)
    requires Collected(root, s, nd, nt) && x in root && (x == Dev(nd) || x == Tester(nt))
    ensures Collected(root, File(s, root[x], x), NextDevs(x, nd), NextTesters(x, nt))
  {
    var n, k, t := |s.groups|, PositionOf(s.roots, root[x]), File(s, root[x], x);
    var nd', nt' := NextDevs(x, nd), NextTesters(x, nt);
    forall y ensures Seen(y, nd', nt') <==> Seen(y, nd, nt) || y == x {}
    forall j, y | 0 <= j < |t.groups|
      ensures Holds(t.groups[j], y) ==> Seen(y, nd', nt') && y in root && root[y] == t.roots[j]
      ensures Seen(y, nd', nt') && y in root && root[y] == t.roots[j] ==> Holds(t.groups[j], y)
    {
      WithHolds(if j < n then s.groups[j] else Group([], []), x, y);
      if j < n { assert Holds(s.groups[j], y) ==> Seen(y, nd, nt); }
      if j == n && Seen(y, nd, nt) { assert root[y] in s.roots; }
    }
  }

  lemma FileOrders(root: map<Node, Node>, s: Slots, nd: nat, nt: nat, devCount: nat, x: Node)
    requires Filed(root, s, nd, nt, devCount) && x in root && NextUp(x, nd, nt, devCount)
    ensures Ordered(File(s, root[x], x).groups, devCount)
  {
    var n, k := |s.groups|, PositionOf(s.roots, root[x]);
    var t := File(s, root[x], x).groups;
    if k < n {
      var g := s.groups[k];
      NextIsLargest(root, s, nd, nt, k);
      if x.Dev? { AppendIncreasing(g.devs, x.i); } else { AppendIncreasing(g.testers, x.i); }
      assert g.testers == [] || g.testers[0] in g.testers;
      assert Rank(devCount, t[k]) == Rank(devCount, g);
    } else {
      forall j | 0 <= j < n ensures Rank(devCount, t[j]) < Rank(devCount, t[n]) {
        NextIsLargest(root, s, nd, nt, j);
        var g := s.groups[j];
        assert if g.devs != [] then g.devs[0] in g.devs else g.testers[0] in g.testers;
      }
    }
  }

  /** What `buildWorkGroups` promises of the groups it returns. */
  ghost predicate ExactGroups(g: Assignments, groups: seq<Group>) {
    // every index is in a group, and only indices of the assignments are
    && (forall x | IsMember(g, x) :: exists k :: 0 <= k < |groups| && Holds(groups[k], x))
    && (forall k, x | 0 <= k < |groups| && Holds(groups[k], x) :: IsMember(g, x))
    // two members share a group exactly when a chain of shared tasks joins them
    && (forall j, k, x, y | 0 <= j < |groups| && 0 <= k < |groups| && Holds(groups[j], x) && Holds(groups[k], y) ::
          j == k <==> Connected(g, x, y))
    // no index repeats inside a group, and groups come in strictly increasing rank
    && Ordered(groups, |g.devs|)
  }

  lemma {:induction false} FiledIsExact(g: Assignments, root: map<Node, Node>, s: Slots)
    requires Labels(AllEdges(g), root)
    requires Filed(root, s, |g.devs|, |g.testers|, |g.devs|)
    ensures ExactGroups(g, s.groups)
  {
    forall x | IsMember(g, x) ensures exists k :: 0 <= k < |s.groups| && Holds(s.groups[k], x) {
      assert Seen(x, |g.devs|, |g.testers|);
      var k := PositionOf(s.roots, root[x]);
      assert Holds(s.groups[k], x);
    }
    forall j, k, x, y | 0 <= j < |s.groups| && 0 <= k < |s.groups| && Holds(s.groups[j], x) && Holds(s.groups[k], y)
      ensures j == k <==> Connected(g, x, y)
    {
      assert root[x] == root[y] <==> Linked(AllEdges(g), x, y);
    }
  }

  method UniteDevs(uf: UnionFind, rows: seq<seq<string>>)
    requires uf.Valid() && uf.edges == {}
    modifies uf
    ensures uf.Valid() && uf.edges == DevEdges(rows)
    ensures forall j | 0 <= j < |rows| :: Dev(j) in uf.parent
  {
    for i := 0 to |rows|
      invariant uf.Valid() && uf.edges == DevEdges(rows[..i])
      invariant forall j | 0 <= j < i :: Dev(j) in uf.parent
    {
      uf.Add(Dev(i));
      assert rows[..i + 1][..i] == rows[..i];
      UniteRow(uf, Dev(i), rows[i]);
    }
    assert rows[..|rows|] == rows;
  }

  method UniteTesters(uf: UnionFind, rows: seq<seq<string>>)
    requires uf.Valid()
    modifies uf
    ensures uf.Valid() && uf.edges == old(uf.edges) + TesterEdges(rows)
    ensures uf.parent.Keys >= old(uf.parent.Keys)
    ensures forall j | 0 <= j < |rows| :: Tester(j) in uf.parent
  {
    for i := 0 to |rows|
      invariant uf.Valid() && uf.edges == old(uf.edges) + TesterEdges(rows[..i])
      invariant uf.parent.Keys >= old(uf.parent.Keys)
      invariant forall j | 0 <= j < i :: Tester(j) in uf.parent
    {
      uf.Add(Tester(i));
      assert rows[..i + 1][..i] == rows[..i];
      UniteRow(uf, Tester(i), rows[i]);
    }
    assert rows[..|rows|] == rows;
  }

  method FileDevs(uf: UnionFind, n: nat) returns (byRoot: Slots)
    requires uf.Valid() && forall j | 0 <= j < n :: Dev(j) in uf.parent
    modifies uf`parent
    ensures uf.Valid() && uf.parent.Keys == old(uf.parent.Keys)
    ensures Filed(uf.root, byRoot, n, 0, n)
  {
    byRoot := Slots([], []);
    for i := 0 to n
      invariant uf.Valid() && uf.parent.Keys == old(uf.parent.Keys)
      invariant Filed(uf.root, byRoot, i, 0, n)
    {
      var r := uf.Find(Dev(i));
      FileNext(uf.root, byRoot, i, 0, n, Dev(i));
      byRoot := File(byRoot, r, Dev(i));
    }
  }

  method FileTesters(uf: UnionFind, slots: Slots, devCount: nat, n: nat) returns (byRoot: Slots)
    requires uf.Valid() && forall j | 0 <= j < n :: Tester(j) in uf.parent
    requires Filed(uf.root, slots, devCount, 0, devCount)
    modifies uf`parent
    ensures uf.Valid() && Filed(uf.root, byRoot, devCount, n, devCount)
  {
    byRoot := slots;
    for i := 0 to n
      invariant uf.Valid() && uf.parent.Keys == old(uf.parent.Keys)
      invariant Filed(uf.root, byRoot, devCount, i, devCount)
    {
      var r := uf.Find(Tester(i));
      FileNext(uf.root, byRoot, devCount, i, devCount, Tester(i));
      byRoot := File(byRoot, r, Tester(i));
    }
  }

  method BuildWorkGroups(g: Assignments) returns (groups: seq<Group>)
    ensures ExactGroups(g, groups)
  {
    var uf := new UnionFind();
    UniteDevs(uf, g.devs);
    UniteTesters(uf, g.testers);
    var byRoot := FileDevs(uf, |g.devs|);
    byRoot := FileTesters(uf, byRoot, |g.devs|, |g.testers|);
    FiledIsExact(g, uf.root, byRoot);
    groups := SortByRank(byRoot.groups, |g.devs|);
  }

  /** Insertion order is rank order already, so the final sort moves nothing. */
  method SortByRank(s: seq<Group>, devCount: nat) returns (t: seq<Group>)
    requires forall k | 0 <= k < |s| :: s[k].devs != [] || s[k].testers != []
    requires forall j, k | 0 <= j < k < |s| :: Rank(devCount, s[j]) < Rank(devCount, s[k])
    ensures t == s
  {
    var key := x => RankKey(devCount, x);
    SortOfSorted(s, key);
    t := Sort(s, key);
  }

  function RankKey(devCount: nat, g: Group): real {
    if g.devs == [] && g.testers == [] then 0.0 else Rank(devCount, g) as real
  }

  method UniteRow(uf: UnionFind, x: Node, tasks: seq<string>)
    requires uf.Valid()
    modifies uf
    ensures uf.Valid() && uf.edges == old(uf.edges) + RowEdges(x, tasks)
    ensures uf.parent.Keys >= old(uf.parent.Keys)
  {
    for k := 0 to |tasks|
      invariant uf.Valid() && uf.edges == old(uf.edges) + RowEdges(x, tasks[..k])
      invariant uf.parent.Keys >= old(uf.parent.Keys)
    {
      uf.Union(x, Task(tasks[k]));
      assert tasks[..k + 1][..k] == tasks[..k];
    }
    assert tasks[..|tasks|] == tasks;
  }
}
