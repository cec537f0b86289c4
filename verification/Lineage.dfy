/** The append-only history behind the node graph: per branch a fork point and
    the list of nodes committed since. */
module Lineage {
  import opened Wrappers
  import opened Graph

  datatype Lineage = Lineage(root: Option<Id>, nodes: seq<Id>)

  type History = map<Id, Lineage>

  function Tip(l: Lineage): Option<Id> {
    if l.nodes == [] then l.root else Some(l.nodes[|l.nodes| - 1])
  }

  /** The only ways a history changes: a branch is born, at the tip of another
      one or at nothing, or one branch grows by one node. */
  datatype Event = Still | Born(branch: Id, from: Option<Id>) | Grown(branch: Id, node: Id)

  ghost predicate Possible(h: History, e: Event) {
    match e
    case Still => true
    case Born(b, from) => b !in h && (from.Some? ==> from.value in h)
    case Grown(b, n) => b in h && forall c :: c in h ==> n !in h[c].nodes
  }

  ghost function Evolve(h: History, e: Event): History
    requires Possible(h, e)
  {
    match e
    case Still => h
    case Born(b, from) => h[b := Lineage(if from.Some? then Tip(h[from.value]) else None, [])]
    case Grown(b, n) => h[b := h[b].(nodes := h[b].nodes + [n])]
  }

  // ------------------------------------------------------------ abstraction

  ghost function Parent(g: Graph, n: Id): (r: Option<Id>)
    ensures r.Some? ==> HasEdge(g, r.value, n)
    ensures r.None? ==> forall e :: e in g.edges ==> g.edges[e].down != n
  {
    ParentIn(g.edges, n)
  }

  ghost function ParentIn(edges: map<Id, Edge>, n: Id): (r: Option<Id>)
    ensures r.Some? ==> exists e :: e in edges && edges[e].up == r.value && edges[e].down == n
    ensures r.None? ==> forall e :: e in edges ==> edges[e].down != n
  {
    if exists e :: e in edges && edges[e].down == n then
      var e :| e in edges && edges[e].down == n;
      Some(edges[e].up)
    else None
  }

  lemma OneParent(g: Graph, x: Id, n: Id)
    requires Forest(g) && HasEdge(g, x, n)
    ensures Parent(g, n) == Some(x)
  {
    var e :| e in g.edges && g.edges[e].up == x && g.edges[e].down == n;
    var p := Parent(g, n);
    var f :| f in g.edges && g.edges[f].up == p.value && g.edges[f].down == n;
  }

  ghost function LineageOf(g: Graph, b: Id): Lineage
    requires b in g.branches
  {
    var ns := NodesOf(g, b);
    Lineage(if ns == [] then g.branches[b].head else Parent(g, ns[0]), ns)
  }

  ghost function HistoryOf(g: Graph): History {
    map b | b in g.branches :: LineageOf(g, b)
  }

  function EventOf(g: Graph, op: Op): Event {
    if Attempt(g, op).None? then Still
    else
      match op
      case Keep => Still
      case NewLattice(_, _, b) => Born(b, None)
      case NewBranch(b, l, from) =>
        Born(b, if from.Some? && from.value in g.branches && g.branches[from.value].lattice == l then from else None)
      case Realise(a) => Grown(a.branch, a.node)
  }

  lemma HeadIsTip(g: Graph, b: Id)
    requires Sound(g) && b in g.branches
    ensures g.branches[b].head == Tip(LineageOf(g, b))
    ensures g.branches[b].version == 1 + |LineageOf(g, b).nodes|
  {
    assert Counted(g, b);
  }

  lemma OldParentsStay(g: Graph, h: Graph, edge: Id, head: Option<Id>, node: Id, n: Id)
    requires Forest(g) && Forest(h) && n != node
    requires h.edges == Link(g.edges, edge, head, node) && (head.Some? ==> edge !in g.edges)
    ensures Parent(h, n) == Parent(g, n)
  {
    var p := Parent(g, n);
    if p.Some? {
      LinkKeepsEdge(g, h, edge, head, node, p.value, n);
      OneParent(h, p.value, n);
    }
  }

  lemma NewNodesParent(g: Graph, h: Graph, edge: Id, head: Option<Id>, node: Id)
    requires Forest(h) && forall e :: e in g.edges ==> g.edges[e].down != node
    requires h.edges == Link(g.edges, edge, head, node) && (head.Some? ==> edge !in g.edges)
    ensures Parent(h, node) == head
  {
    if head.Some? {
      LinkKeepsEdge(g, h, edge, head, node, head.value, node);
      OneParent(h, head.value, node);
    }
  }

  lemma UnlistedHasNoParent(g: Graph, n: Id)
    requires EdgesForward(g) && n !in g.order
    ensures forall e :: e in g.edges ==> g.edges[e].down != n
  {
    forall e | e in g.edges ensures g.edges[e].down != n {
      BeforeListed(g.order, g.edges[e].up, g.edges[e].down);
    }
  }

  lemma AdvanceKeepsRoot(g: Graph, a: Advance, h: Graph, b: Id)
    requires Sound(g) && AdvanceBranch(g, a) == Some(h) && b in g.branches && b in h.branches
    requires NodesOf(h, b) == NodesOf(g, b) + if b == a.branch then [a.node] else []
    ensures LineageOf(h, b).root == LineageOf(g, b).root
  {
    var head, ns := g.branches[a.branch].head, NodesOf(g, b);
    AdvanceShape(g, a);
    AdvanceKeepsEdges(g, a);
    if ns != [] {
      RealisedMembers(g.nodes, g.order, b);
      assert ns[0] in ns;
      OldParentsStay(g, h, a.edge, head, a.node, ns[0]);
    } else if b == a.branch {
      UnlistedHasNoParent(g, a.node);
      NewNodesParent(g, h, a.edge, head, a.node);
    }
  }

  lemma AdvanceLineage(g: Graph, a: Advance, h: Graph, b: Id)
    requires Sound(g) && AdvanceBranch(g, a) == Some(h) && b in g.branches && b in h.branches
    ensures LineageOf(h, b) == LineageOf(g, b).(nodes := LineageOf(g, b).nodes + if b == a.branch then [a.node] else [])
  {
    AdvanceAddsOneNode(g, a, b);
    AdvanceKeepsRoot(g, a, h, b);
  }

  lemma AdvanceIsPossible(g: Graph, a: Advance)
    requires Sound(g) && AdvanceBranch(g, a).Some?
    ensures Possible(HistoryOf(g), Grown(a.branch, a.node))
  {
    AdvanceShape(g, a);
    forall c | c in g.branches ensures a.node !in LineageOf(g, c).nodes {
      RealisedMembers(g.nodes, g.order, c);
    }
  }

  lemma GrownHistory(before: History, after: History, b: Id, n: Id)
    requires Possible(before, Grown(b, n)) && after.Keys == before.Keys
    requires forall c :: c in before ==> after[c] == before[c].(nodes := before[c].nodes + if c == b then [n] else [])
    ensures after == Evolve(before, Grown(b, n))
  {
    forall c | c in before && c != b ensures after[c] == before[c] {
      assert before[c].nodes + [] == before[c].nodes;
    }
  }

  lemma BornHistory(before: History, after: History, b: Id, from: Option<Id>)
    requires Possible(before, Born(b, from)) && after.Keys == before.Keys + {b}
    requires forall c :: c in before ==> after[c] == before[c]
    requires after[b] == Lineage(if from.Some? then Tip(before[from.value]) else None, [])
    ensures after == Evolve(before, Born(b, from))
  {
  }

  lemma SameLineages(g: Graph, a: Advance, h: Graph)
    requires Sound(g) && AdvanceBranch(g, a) == Some(h)
    ensures HistoryOf(h).Keys == HistoryOf(g).Keys
    ensures forall c :: c in HistoryOf(g) ==>
              HistoryOf(h)[c] == HistoryOf(g)[c].(nodes := HistoryOf(g)[c].nodes + if c == a.branch then [a.node] else [])
  {
    assert h.branches.Keys == g.branches.Keys by {
      AdvanceShape(g, a);
    }
    forall c | c in g.branches
      ensures LineageOf(h, c) == LineageOf(g, c).(nodes := LineageOf(g, c).nodes + if c == a.branch then [a.node] else [])
    {
      AdvanceLineage(g, a, h, c);
    }
  }

  lemma AdvanceRefines(g: Graph, a: Advance, h: Graph)
    requires Sound(g) && AdvanceBranch(g, a) == Some(h)
    ensures Possible(HistoryOf(g), Grown(a.branch, a.node))
    ensures HistoryOf(h) == Evolve(HistoryOf(g), Grown(a.branch, a.node))
  {
    AdvanceIsPossible(g, a);
    SameLineages(g, a, h);
    GrownHistory(HistoryOf(g), HistoryOf(h), a.branch, a.node);
  }

  lemma AddingBranchRefines(g: Graph, h: Graph, b: Id, row: Branch, from: Option<Id>)
    requires Sound(g) && b !in g.branches
    requires h == g.(lattices := h.lattices, branches := g.branches[b := row])
    requires from.Some? ==> from.value in g.branches
    requires row.head == if from.Some? then g.branches[from.value].head else None
    ensures Possible(HistoryOf(g), Born(b, from))
    ensures HistoryOf(h) == Evolve(HistoryOf(g), Born(b, from))
  {
    var before, after := HistoryOf(g), HistoryOf(h);
    assert after.Keys == before.Keys + {b};
    assert after[b] == Lineage(if from.Some? then Tip(before[from.value]) else None, []) by {
      NewLineage(g, h, b, row, from);
    }
    forall c | c in before ensures after[c] == before[c] {
      SameTablesSameLineage(g, h, c);
    }
    BornHistory(before, after, b, from);
  }

  lemma NewLineage(g: Graph, h: Graph, b: Id, row: Branch, from: Option<Id>)
    requires Sound(g) && b !in g.branches && h.nodes == g.nodes && h.order == g.order
    requires b in h.branches && h.branches[b] == row && (from.Some? ==> from.value in g.branches)
    requires row.head == if from.Some? then g.branches[from.value].head else None
    ensures LineageOf(h, b) == Lineage(if from.Some? then Tip(LineageOf(g, from.value)) else None, [])
  {
    NoneRealised(g.nodes, g.order, b);
    if from.Some? {
      HeadIsTip(g, from.value);
    }
  }

  lemma SameTablesSameLineage(g: Graph, h: Graph, b: Id)
    requires h.nodes == g.nodes && h.order == g.order && h.edges == g.edges
    requires b in g.branches && b in h.branches && g.branches[b] == h.branches[b]
    ensures LineageOf(h, b) == LineageOf(g, b)
  {
  }

  /** Refinement: every operation on the tables is, seen as a history, nothing,
      the birth of a branch or the growth of one branch by one node. */
  lemma PerformRefines(g: Graph, op: Op)
    requires Sound(g)
    ensures Possible(HistoryOf(g), EventOf(g, op))
    ensures HistoryOf(Perform(g, op)) == Evolve(HistoryOf(g), EventOf(g, op))
  {
    if Attempt(g, op).Some? {
      match op
      case Keep =>
      case NewLattice(_, l, b) =>
        AddingBranchRefines(g, Perform(g, op), b, Branch(l, None, 1), None);
      case NewBranch(b, l, from) =>
        AddingBranchRefines(g, Perform(g, op), b, Branch(l, ForkHead(g, l, from), 1), EventOf(g, op).from);
      case Realise(a) => AdvanceRefines(g, a, Perform(g, op));
    }
  }

  // ------------------------------------------------------------ append only

  /** Every branch of the earlier history is still there, forked from the same
      node, and has kept its nodes in place. */
  ghost predicate Extends(h: History, k: History) {
    forall b :: b in h ==> b in k && k[b].root == h[b].root && h[b].nodes <= k[b].nodes
  }

  lemma EvolvingExtends(h: History, e: Event)
    requires Possible(h, e)
    ensures Extends(h, Evolve(h, e))
  {
  }

  lemma ExtendsIsTransitive(h: History, k: History, m: History)
    requires Extends(h, k) && Extends(k, m)
    ensures Extends(h, m)
  {
    forall b | b in h ensures b in m && m[b].root == h[b].root && h[b].nodes <= m[b].nodes {
      assert b in k;
    }
  }

  // ------------------------------------------------------------ walking back

  function Position(order: seq<Id>, n: Id): (i: nat)
    requires n in order
    ensures i < |order| && order[i] == n
  {
    if order[0] == n then 0 else 1 + Position(order[1..], n)
  }

  lemma BeforeIsByPosition(order: seq<Id>, x: Id, y: Id)
    requires forall i, j :: 0 <= i < j < |order| ==> order[i] != order[j]
    requires Before(order, x, y)
    ensures x in order && y in order && Position(order, x) < Position(order, y)
  {
    var i, j :| 0 <= i < j < |order| && order[i] == x && order[j] == y;
    assert Position(order, x) == i && Position(order, y) == j;
  }

  lemma ParentIsEarlier(g: Graph, n: Id)
    requires Resolved(g) && EdgesForward(g) && Parent(g, n).Some?
    ensures Before(g.order, Parent(g, n).value, n)
    ensures Parent(g, n).value in g.order && n in g.order
    ensures Position(g.order, Parent(g, n).value) < Position(g.order, n)
  {
    var p := Parent(g, n).value;
    var e :| e in g.edges && g.edges[e].up == p && g.edges[e].down == n;
    BeforeIsByPosition(g.order, p, n);
  }

  datatype Walk = Walk(visited: seq<Id>, stop: Option<Id>)

  /** Follow dependency edges back from n for as long as the node carries the
      branch id. */
  ghost function WalkBack(g: Graph, b: Id, n: Option<Id>): Walk
    requires Sound(g) && (n.Some? ==> n.value in g.order)
    decreases if n.Some? then 1 + Position(g.order, n.value) else 0
  {
    if n.None? || g.nodes[n.value].branch != b then Walk([], n)
    else
      var p := Parent(g, n.value);
      var rest := if p.None? then Walk([], None) else (ParentIsEarlier(g, n.value); WalkBack(g, b, p));
      rest.(visited := [n.value] + rest.visited)
  }

  function Reversed(s: seq<Id>): seq<Id> {
    if s == [] then [] else [s[|s| - 1]] + Reversed(s[..|s| - 1])
  }

  lemma {:induction false} RealisedInOrder(nodes: map<Id, Node>, order: seq<Id>, b: Id, i: nat, j: nat)
    requires i < j < |Realised(nodes, order, b)|
    ensures Before(order, Realised(nodes, order, b)[i], Realised(nodes, order, b)[j])
  {
    var n := |order| - 1;
    var ns := Realised(nodes, order[..n], b);
    var all := Realised(nodes, order, b);
    assert order[..n] + [order[n]] == order;
    if j < |ns| {
      RealisedInOrder(nodes, order[..n], b, i, j);
      BeforeGrows(order[..n], ns[i], ns[j], order[n]);
    } else {
      RealisedMembers(nodes, order[..n], b);
      assert ns[i] in ns;
      BeforeLast(order[..n], ns[i], order[n]);
    }
  }

  /** The fork point of a branch is not one of its own nodes. */
  lemma RootIsForeign(g: Graph, b: Id)
    requires Sound(g) && b in g.branches && LineageOf(g, b).root.Some?
    ensures LineageOf(g, b).root.value in g.nodes
    ensures g.nodes[LineageOf(g, b).root.value].branch != b
  {
    var l := LineageOf(g, b);
    var root := l.root.value;
    RealisedMembers(g.nodes, g.order, b);
    assert Counted(g, b);
    if l.nodes != [] {
      ParentIsEarlier(g, l.nodes[0]);
      if g.nodes[root].branch == b {
        var i :| 0 <= i < |l.nodes| && l.nodes[i] == root;
        if i > 0 {
          RealisedInOrder(g.nodes, g.order, b, 0, i);
          BeforeIsByPosition(g.order, l.nodes[0], root);
        }
      }
    }
  }

  lemma WalkStopsAtRoot(g: Graph, b: Id)
    requires Sound(g) && b in g.branches
    ensures var root := LineageOf(g, b).root;
            (root.Some? ==> root.value in g.order) && WalkBack(g, b, root) == Walk([], root)
  {
    if LineageOf(g, b).root.Some? {
      RootIsForeign(g, b);
    }
  }

  lemma WalkStep(g: Graph, b: Id, n: Id, p: Option<Id>, rest: Walk)
    requires Sound(g) && n in g.nodes && g.nodes[n].branch == b && Parent(g, n) == p
    requires (p.Some? ==> p.value in g.order) && WalkBack(g, b, p) == rest
    ensures WalkBack(g, b, Some(n)) == Walk([n] + rest.visited, rest.stop)
  {
  }

  lemma {:induction false} WalkFrom(g: Graph, b: Id, k: nat)
    requires Sound(g) && b in g.branches && 0 < k <= |NodesOf(g, b)|
    ensures NodesOf(g, b)[k - 1] in g.nodes
    ensures WalkBack(g, b, Some(NodesOf(g, b)[k - 1])) == Walk(Reversed(NodesOf(g, b)[..k]), LineageOf(g, b).root)
  {
    var ns, root := NodesOf(g, b), LineageOf(g, b).root;
    var n := ns[k - 1];
    RealisedMembers(g.nodes, g.order, b);
    assert n in ns;
    if k == 1 {
      WalkStopsAtRoot(g, b);
      WalkStep(g, b, n, root, Walk([], root));
    } else {
      WalkFrom(g, b, k - 1);
      assert Chained(g, b);
      OneParent(g, ns[k - 2], n);
      WalkStep(g, b, n, Some(ns[k - 2]), Walk(Reversed(ns[..k - 1]), root));
    }
    ReversedLast(ns, k);
  }

  lemma ReversedLast(s: seq<Id>, k: nat)
    requires 0 < k <= |s|
    ensures Reversed(s[..k]) == [s[k - 1]] + Reversed(s[..k - 1])
  {
    assert s[..k][..k - 1] == s[..k - 1];
  }

  /** Walking dependency edges back from a branch head visits exactly the nodes
      of that branch, last commit first, and stops at the fork point or at
      nothing. */
  lemma WalkFromHeadVisitsTheLineage(g: Graph, b: Id)
    requires Sound(g) && b in g.branches
    ensures g.branches[b].head.Some? ==> g.branches[b].head.value in g.nodes
    ensures WalkBack(g, b, g.branches[b].head) == Walk(Reversed(LineageOf(g, b).nodes), LineageOf(g, b).root)
  {
    var ns := NodesOf(g, b);
    assert Counted(g, b);
    if ns == [] {
      WalkStopsAtRoot(g, b);
    } else {
      WalkFrom(g, b, |ns|);
      assert ns[..|ns|] == ns;
    }
  }

  // ------------------------------------------------------------ acyclic

  ghost predicate Path(g: Graph, p: seq<Id>) {
    |p| >= 2 && forall i :: 0 < i < |p| ==> HasEdge(g, p[i - 1], p[i])
  }

  lemma EdgeRunsForward(g: Graph, x: Id, y: Id)
    requires Resolved(g) && EdgesForward(g) && HasEdge(g, x, y)
    ensures x in g.order && y in g.order && Position(g.order, x) < Position(g.order, y)
  {
    var e :| e in g.edges && g.edges[e].up == x && g.edges[e].down == y;
    BeforeIsByPosition(g.order, x, y);
  }

  lemma PathPrefix(g: Graph, p: seq<Id>)
    requires Path(g, p) && |p| > 2
    ensures Path(g, p[..|p| - 1])
  {
    var q := p[..|p| - 1];
    forall i | 0 < i < |q| ensures HasEdge(g, q[i - 1], q[i]) {
      assert HasEdge(g, p[i - 1], p[i]);
    }
  }

  lemma {:induction false} PathsRunForward(g: Graph, p: seq<Id>)
    requires Resolved(g) && EdgesForward(g) && Path(g, p)
    ensures p[0] in g.order && p[|p| - 1] in g.order
    ensures Position(g.order, p[0]) < Position(g.order, p[|p| - 1])
  {
    var n := |p| - 1;
    EdgeRunsForward(g, p[n - 1], p[n]);
    if n > 1 {
      PathPrefix(g, p);
      PathsRunForward(g, p[..n]);
    }
  }

  /** No node reaches itself. */
  lemma NoCycles(g: Graph, p: seq<Id>)
    requires Sound(g) && Path(g, p)
    ensures p[0] != p[|p| - 1]
  {
    PathsRunForward(g, p);
  }
}
