/** Lattices, branches, nodes and dependency edges: the tables that record what
    was realised, and the three operations that change them. None stands for a
    raised error, after which the enclosing transaction is rolled back. */
module Graph {
  import opened Wrappers

  datatype Branch = Branch(lattice: Id, head: Option<Id>, version: int)

  datatype NodeStatus = Committed | Superseded

  datatype Node = Node(branch: Id, agent: Id, description: string, status: NodeStatus)

  datatype Edge = Edge(up: Id, down: Id, kind: string)

  /** lattices maps each lattice to its project; order lists the node ids in the
      order of insertion. */
  datatype Graph = Graph(
    lattices: map<Id, Id>,
    branches: map<Id, Branch>,
    nodes: map<Id, Node>,
    order: seq<Id>,
    edges: map<Id, Edge>)

  const EMPTY := Graph(map[], map[], map[], [], map[])

  /** A project gets one lattice with one branch. */
  function AddLattice(g: Graph, project: Id, lattice: Id, branch: Id): Option<Graph> {
    if lattice in g.lattices || branch in g.branches || project in g.lattices.Values then None
    else Some(g.(lattices := g.lattices[lattice := project], branches := g.branches[branch := Branch(lattice, None, 1)]))
  }

  /** The head a new branch starts from: that of the parent branch if the
      lattice has it, and otherwise nothing. */
  function ForkHead(g: Graph, lattice: Id, from: Option<Id>): Option<Id> {
    if from.Some? && from.value in g.branches && g.branches[from.value].lattice == lattice then g.branches[from.value].head
    else None
  }

  function Fork(g: Graph, branch: Id, lattice: Id, from: Option<Id>): Option<Graph> {
    if lattice !in g.lattices || branch in g.branches then None
    else Some(g.(branches := g.branches[branch := Branch(lattice, ForkHead(g, lattice, from), 1)]))
  }

  /** What a commit carries for the graph. */
  datatype Advance = Advance(
    branch: Id,
    expectedHead: Option<Id>,
    expectedVersion: int,
    node: Id,
    edge: Id,
    agent: Id,
    description: string)

  predicate HeadIsStale(g: Graph, a: Advance) {
    || a.branch !in g.branches
    || (a.expectedHead.Some? && g.branches[a.branch].head != a.expectedHead)
    || g.branches[a.branch].version != a.expectedVersion
  }

  /** Whether an insertion collides with a key or misses what it refers to. */
  predicate RowsClash(g: Graph, a: Advance)
    requires a.branch in g.branches
  {
    var head := g.branches[a.branch].head;
    || a.node in g.nodes
    || (head.Some? && (a.edge in g.edges || head.value !in g.nodes))
  }

  function Supersede(nodes: map<Id, Node>, head: Option<Id>): map<Id, Node> {
    if head.Some? && head.value in nodes then nodes[head.value := nodes[head.value].(status := Superseded)] else nodes
  }

  function Link(edges: map<Id, Edge>, edge: Id, head: Option<Id>, node: Id): map<Id, Edge> {
    if head.Some? then edges[edge := Edge(head.value, node, "dependency")] else edges
  }

  function AdvanceBranch(g: Graph, a: Advance): Option<Graph> {
    if HeadIsStale(g, a) || RowsClash(g, a) then None
    else
      var row := g.branches[a.branch];
      Some(g.(
        nodes := Supersede(g.nodes[a.node := Node(a.branch, a.agent, a.description, Committed)], row.head),
        order := g.order + [a.node],
        edges := Link(g.edges, a.edge, row.head, a.node),
        branches := g.branches[a.branch := row.(head := Some(a.node), version := row.version + 1)]))
  }

  /** The operations together; a failing one changes nothing. */
  datatype Op =
    | Keep
    | NewLattice(project: Id, lattice: Id, branch: Id)
    | NewBranch(branch: Id, lattice: Id, from: Option<Id>)
    | Realise(advance: Advance)

  function Attempt(g: Graph, op: Op): Option<Graph> {
    match op
    case Keep => Some(g)
    case NewLattice(p, l, b) => AddLattice(g, p, l, b)
    case NewBranch(b, l, from) => Fork(g, b, l, from)
    case Realise(a) => AdvanceBranch(g, a)
  }

  function Perform(g: Graph, op: Op): Graph {
    Attempt(g, op).GetOr(g)
  }

  /** The project a branch belongs to, found through its lattice. */
  function ProjectOf(g: Graph, branch: Id): Option<Id> {
    if branch in g.branches && g.branches[branch].lattice in g.lattices then Some(g.lattices[g.branches[branch].lattice])
    else None
  }

  // ------------------------------------------------------------ invariant

  /** Every reference resolves, and the insertion order lists each node once. */
  ghost predicate Resolved(g: Graph) {
    && (forall b :: b in g.branches ==> g.branches[b].lattice in g.lattices)
    && (forall n :: n in g.nodes ==> g.nodes[n].branch in g.branches)
    && (forall n :: n in g.order <==> n in g.nodes)
    && (forall i, j :: 0 <= i < j < |g.order| ==> g.order[i] != g.order[j])
  }

  function LatticeOf(g: Graph, n: Id): Option<Id> {
    if n in g.nodes && g.nodes[n].branch in g.branches then Some(g.branches[g.nodes[n].branch].lattice) else None
  }

  ghost predicate Before(order: seq<Id>, x: Id, y: Id) {
    exists i, j :: 0 <= i < j < |order| && order[i] == x && order[j] == y
  }

  /** Edges run forward in insertion order and stay inside one lattice. */
  ghost predicate EdgesForward(g: Graph) {
    forall e :: e in g.edges ==>
      && Before(g.order, g.edges[e].up, g.edges[e].down)
      && LatticeOf(g, g.edges[e].up) == LatticeOf(g, g.edges[e].down)
  }

  /** No two edges enter one node. */
  ghost predicate Forest(g: Graph) {
    forall e, f :: e in g.edges && f in g.edges && g.edges[e].down == g.edges[f].down ==> e == f
  }

  ghost predicate HasEdge(g: Graph, x: Id, y: Id) {
    exists e :: e in g.edges && g.edges[e].up == x && g.edges[e].down == y
  }

  ghost predicate HasSuccessor(g: Graph, x: Id) {
    exists e :: e in g.edges && g.edges[e].up == x
  }

  ghost predicate SupersededExactly(g: Graph) {
    forall n :: n in g.nodes ==> (g.nodes[n].status.Superseded? <==> HasSuccessor(g, n))
  }

  /** The nodes that carry one branch id, in the order they were committed. */
  function Realised(nodes: map<Id, Node>, order: seq<Id>, b: Id): seq<Id> {
    if order == [] then []
    else
      var n := |order| - 1;
      Realised(nodes, order[..n], b) + if order[n] in nodes && nodes[order[n]].branch == b then [order[n]] else []
  }

  function NodesOf(g: Graph, b: Id): seq<Id> {
    Realised(g.nodes, g.order, b)
  }

  /** A branch counts its nodes, points at the last of them, and before the first
      one at a node of its own lattice or nothing. */
  ghost predicate Counted(g: Graph, b: Id)
    requires b in g.branches
  {
    var row, ns := g.branches[b], NodesOf(g, b);
    && row.version == 1 + |ns|
    && (ns != [] ==> row.head == Some(ns[|ns| - 1]))
    && (row.head.Some? ==> row.head.value in g.nodes && LatticeOf(g, row.head.value) == Some(row.lattice))
  }

  /** Consecutive nodes of a branch are joined by an edge. */
  ghost predicate Chained(g: Graph, b: Id) {
    var ns := NodesOf(g, b);
    forall i :: 0 < i < |ns| ==> HasEdge(g, ns[i - 1], ns[i])
  }

  ghost predicate BranchesSound(g: Graph) {
    forall b :: b in g.branches ==> Counted(g, b) && Chained(g, b)
  }

  ghost predicate Sound(g: Graph) {
    Resolved(g) && EdgesForward(g) && Forest(g) && SupersededExactly(g) && BranchesSound(g)
  }

  // ------------------------------------------------------------ preservation

  lemma {:induction false} RealisedMembers(nodes: map<Id, Node>, order: seq<Id>, b: Id)
    ensures forall n :: n in Realised(nodes, order, b) <==> n in order && n in nodes && nodes[n].branch == b
  {
    if order != [] {
      RealisedMembers(nodes, order[..|order| - 1], b);
    }
  }

  /** Only which branch each listed node carries matters. */
  lemma {:induction false} RealisedDependsOnBranches(nodes: map<Id, Node>, others: map<Id, Node>, order: seq<Id>, b: Id)
    requires forall n :: n in order ==> n in nodes && n in others && nodes[n].branch == others[n].branch
    ensures Realised(nodes, order, b) == Realised(others, order, b)
  {
    if order != [] {
      var n := |order| - 1;
      assert order[n] in order && forall x :: x in order[..n] ==> x in order;
      RealisedDependsOnBranches(nodes, others, order[..n], b);
    }
  }

  lemma {:induction false} NoneRealised(nodes: map<Id, Node>, order: seq<Id>, b: Id)
    requires forall n :: n in order && n in nodes ==> nodes[n].branch != b
    ensures Realised(nodes, order, b) == []
  {
    if order != [] {
      assert order[|order| - 1] in order && forall x :: x in order[..|order| - 1] ==> x in order;
      NoneRealised(nodes, order[..|order| - 1], b);
    }
  }

  lemma SameEdgesSameLinks(g: Graph, h: Graph)
    requires g.edges == h.edges
    ensures forall n :: HasSuccessor(h, n) <==> HasSuccessor(g, n)
    ensures forall x, y :: HasEdge(h, x, y) <==> HasEdge(g, x, y)
  {
  }

  lemma AddingBranchKeepsLattices(g: Graph, h: Graph, b: Id, row: Branch)
    requires Resolved(g) && b !in g.branches && g.lattices.Keys <= h.lattices.Keys && row.lattice in h.lattices
    requires h == g.(lattices := h.lattices, branches := g.branches[b := row])
    ensures Resolved(h) && forall n :: n in g.nodes ==> LatticeOf(h, n) == LatticeOf(g, n)
  {
  }

  lemma BeforeListed(order: seq<Id>, x: Id, y: Id)
    requires Before(order, x, y)
    ensures x in order && y in order
  {
  }

  lemma SameLatticesSameEdges(g: Graph, h: Graph)
    requires Resolved(g) && EdgesForward(g) && h.edges == g.edges && h.order == g.order
    requires forall n :: n in g.nodes ==> LatticeOf(h, n) == LatticeOf(g, n)
    ensures EdgesForward(h)
  {
    forall e | e in h.edges
      ensures Before(h.order, h.edges[e].up, h.edges[e].down)
      ensures LatticeOf(h, h.edges[e].up) == LatticeOf(h, h.edges[e].down)
    {
      BeforeListed(g.order, g.edges[e].up, g.edges[e].down);
    }
  }

  /** A new branch whose head, if any, is a node of its lattice. */
  lemma AddingBranchKeepsSound(g: Graph, h: Graph, b: Id, row: Branch)
    requires Sound(g) && b !in g.branches && g.lattices.Keys <= h.lattices.Keys
    requires h == g.(lattices := h.lattices, branches := g.branches[b := row])
    requires row.lattice in h.lattices && row.version == 1
    requires row.head.Some? ==> row.head.value in g.nodes && LatticeOf(g, row.head.value) == Some(row.lattice)
    ensures Sound(h)
  {
    AddingBranchKeepsLattices(g, h, b, row);
    SameLatticesSameEdges(g, h);
    SameEdgesSameLinks(g, h);
    NoneRealised(g.nodes, g.order, b);
    forall c | c in h.branches ensures Counted(h, c) && Chained(h, c) {
      if c != b {
        assert Counted(g, c) && Chained(g, c);
      }
    }
  }

  lemma AddLatticeKeepsSound(g: Graph, project: Id, lattice: Id, branch: Id)
    requires Sound(g) && AddLattice(g, project, lattice, branch).Some?
    ensures Sound(AddLattice(g, project, lattice, branch).value)
  {
    AddingBranchKeepsSound(g, AddLattice(g, project, lattice, branch).value, branch, Branch(lattice, None, 1));
  }

  lemma ForkKeepsSound(g: Graph, branch: Id, lattice: Id, from: Option<Id>)
    requires Sound(g) && Fork(g, branch, lattice, from).Some?
    ensures Sound(Fork(g, branch, lattice, from).value)
  {
    if from.Some? && from.value in g.branches {
      assert Counted(g, from.value);
    }
    var row := Branch(lattice, ForkHead(g, lattice, from), 1);
    AddingBranchKeepsSound(g, Fork(g, branch, lattice, from).value, branch, row);
  }

  /** One node inserted, and the prior head superseded. */
  ghost predicate Inserted(before: map<Id, Node>, after: map<Id, Node>, a: Advance, head: Option<Id>) {
    && a.node in after && after[a.node] == Node(a.branch, a.agent, a.description, Committed)
    && (forall n :: n in after <==> n in before || n == a.node)
    && (forall n :: n in before ==>
          after[n] == before[n].(status := if head == Some(n) then Superseded else before[n].status))
  }

  /** The shape of a successful advance, field by field. */
  lemma AdvanceShape(g: Graph, a: Advance)
    requires AdvanceBranch(g, a).Some?
    ensures var h, row := AdvanceBranch(g, a).value, g.branches[a.branch];
            && h.lattices == g.lattices && h.order == g.order + [a.node]
            && h.edges == Link(g.edges, a.edge, row.head, a.node)
            && h.branches == g.branches[a.branch := row.(head := Some(a.node), version := row.version + 1)]
            && a.node !in g.nodes && (row.head.Some? ==> a.edge !in g.edges && row.head.value in g.nodes)
            && Inserted(g.nodes, h.nodes, a, row.head)
  {
  }

  lemma AdvanceAddsOneNode(g: Graph, a: Advance, b: Id)
    requires Resolved(g) && AdvanceBranch(g, a).Some?
    ensures NodesOf(AdvanceBranch(g, a).value, b) == NodesOf(g, b) + if b == a.branch then [a.node] else []
  {
    AdvanceShape(g, a);
    var h := AdvanceBranch(g, a).value;
    assert h.order[..|g.order|] == g.order;
    RealisedDependsOnBranches(g.nodes, h.nodes, g.order, b);
  }

  lemma AdvanceKeepsLattices(g: Graph, a: Advance, h: Graph)
    requires Resolved(g) && AdvanceBranch(g, a) == Some(h)
    ensures forall n :: n in g.nodes ==> LatticeOf(h, n) == LatticeOf(g, n)
    ensures LatticeOf(h, a.node) == Some(g.branches[a.branch].lattice)
  {
    AdvanceShape(g, a);
  }

  lemma AdvanceKeepsResolved(g: Graph, a: Advance, h: Graph)
    requires Resolved(g) && AdvanceBranch(g, a) == Some(h)
    ensures Resolved(h)
  {
    AdvanceShape(g, a);
    assert forall b :: b in h.branches <==> b in g.branches;
  }

  lemma BeforeGrows(order: seq<Id>, x: Id, y: Id, n: Id)
    requires Before(order, x, y)
    ensures Before(order + [n], x, y)
  {
    var i, j :| 0 <= i < j < |order| && order[i] == x && order[j] == y;
    assert (order + [n])[i] == x && (order + [n])[j] == y;
  }

  lemma BeforeLast(order: seq<Id>, x: Id, n: Id)
    requires x in order
    ensures Before(order + [n], x, n)
  {
    var i :| 0 <= i < |order| && order[i] == x;
    assert (order + [n])[i] == x && (order + [n])[|order|] == n;
  }

  lemma LinkedForward(g: Graph, h: Graph, edge: Id, head: Option<Id>, node: Id)
    requires EdgesForward(g) && Forest(g) && node !in g.order && h.order == g.order + [node]
    requires head.Some? ==> edge !in g.edges && head.value in g.order && LatticeOf(h, head.value) == LatticeOf(h, node)
    requires h.edges == Link(g.edges, edge, head, node)
    requires forall n :: n in g.order ==> LatticeOf(h, n) == LatticeOf(g, n)
    ensures EdgesForward(h) && Forest(h)
  {
    forall e | e in h.edges
      ensures Before(h.order, h.edges[e].up, h.edges[e].down)
      ensures LatticeOf(h, h.edges[e].up) == LatticeOf(h, h.edges[e].down)
      ensures e in g.edges ==> h.edges[e] == g.edges[e] && h.edges[e].down != node
    {
      if e in g.edges {
        BeforeListed(g.order, g.edges[e].up, g.edges[e].down);
        BeforeGrows(g.order, g.edges[e].up, g.edges[e].down, node);
      } else {
        BeforeLast(g.order, head.value, node);
      }
    }
  }

  lemma AdvanceKeepsEdges(g: Graph, a: Advance)
    requires Sound(g) && AdvanceBranch(g, a).Some?
    ensures EdgesForward(AdvanceBranch(g, a).value) && Forest(AdvanceBranch(g, a).value)
  {
    AdvanceShape(g, a);
    AdvanceKeepsLattices(g, a, AdvanceBranch(g, a).value);
    assert Counted(g, a.branch);
    LinkedForward(g, AdvanceBranch(g, a).value, a.edge, g.branches[a.branch].head, a.node);
  }

  lemma LinkSuccessors(g: Graph, h: Graph, edge: Id, head: Option<Id>, node: Id, n: Id)
    requires h.edges == Link(g.edges, edge, head, node) && (head.Some? ==> edge !in g.edges)
    ensures HasSuccessor(h, n) <==> HasSuccessor(g, n) || head == Some(n)
  {
    if HasSuccessor(g, n) {
      var e :| e in g.edges && g.edges[e].up == n;
      assert e in h.edges && h.edges[e].up == n;
    }
    if head == Some(n) {
      assert edge in h.edges && h.edges[edge].up == n;
    }
  }

  lemma LinkKeepsEdge(g: Graph, h: Graph, edge: Id, head: Option<Id>, node: Id, x: Id, y: Id)
    requires h.edges == Link(g.edges, edge, head, node) && (head.Some? ==> edge !in g.edges)
    ensures HasEdge(g, x, y) ==> HasEdge(h, x, y)
    ensures head.Some? ==> HasEdge(h, head.value, node)
  {
    if HasEdge(g, x, y) {
      var e :| e in g.edges && g.edges[e].up == x && g.edges[e].down == y;
      assert e in h.edges && h.edges[e].up == x && h.edges[e].down == y;
    }
    if head.Some? {
      assert edge in h.edges && h.edges[edge].up == head.value && h.edges[edge].down == node;
    }
  }

  lemma UnlistedHasNoSuccessor(g: Graph, n: Id)
    requires EdgesForward(g) && n !in g.order
    ensures !HasSuccessor(g, n)
  {
    forall e | e in g.edges ensures g.edges[e].up != n {
      BeforeListed(g.order, g.edges[e].up, g.edges[e].down);
    }
  }

  lemma AdvanceKeepsStatus(g: Graph, a: Advance)
    requires Sound(g) && AdvanceBranch(g, a).Some?
    ensures SupersededExactly(AdvanceBranch(g, a).value)
  {
    var h, head := AdvanceBranch(g, a).value, g.branches[a.branch].head;
    AdvanceShape(g, a);
    UnlistedHasNoSuccessor(g, a.node);
    forall n | n in h.nodes ensures h.nodes[n].status.Superseded? <==> HasSuccessor(h, n) {
      LinkSuccessors(g, h, a.edge, head, a.node, n);
      if n in g.nodes {
        assert g.nodes[n].status.Superseded? <==> HasSuccessor(g, n);
      }
    }
  }

  lemma AdvanceKeepsCounts(g: Graph, a: Advance, b: Id)
    requires Sound(g) && AdvanceBranch(g, a).Some? && b in g.branches
    ensures Counted(AdvanceBranch(g, a).value, b)
  {
    assert Counted(g, b);
    AdvanceShape(g, a);
    AdvanceAddsOneNode(g, a, b);
    AdvanceKeepsLattices(g, a, AdvanceBranch(g, a).value);
  }

  lemma AdvanceKeepsChains(g: Graph, a: Advance, b: Id)
    requires Sound(g) && AdvanceBranch(g, a).Some? && b in g.branches
    ensures Chained(AdvanceBranch(g, a).value, b)
  {
    var h, head := AdvanceBranch(g, a).value, g.branches[a.branch].head;
    var ns, ms := NodesOf(g, b), NodesOf(h, b);
    assert Counted(g, b) && Chained(g, b);
    AdvanceShape(g, a);
    AdvanceAddsOneNode(g, a, b);
    forall i | 0 < i < |ms| ensures HasEdge(h, ms[i - 1], ms[i]) {
      LinkKeepsEdge(g, h, a.edge, head, a.node, ms[i - 1], ms[i]);
      if i < |ns| {
        assert HasEdge(g, ns[i - 1], ns[i]);
      }
    }
  }

  lemma AdvanceKeepsSound(g: Graph, a: Advance)
    requires Sound(g) && AdvanceBranch(g, a).Some?
    ensures Sound(AdvanceBranch(g, a).value)
  {
    AdvanceKeepsResolved(g, a, AdvanceBranch(g, a).value);
    AdvanceKeepsEdges(g, a);
    AdvanceKeepsStatus(g, a);
    forall b | b in AdvanceBranch(g, a).value.branches
      ensures Counted(AdvanceBranch(g, a).value, b) && Chained(AdvanceBranch(g, a).value, b)
    {
      AdvanceKeepsCounts(g, a, b);
      AdvanceKeepsChains(g, a, b);
    }
  }

  /** Every operation keeps the node graph a forest that its branches describe. */
  lemma PerformKeepsSound(g: Graph, op: Op)
    requires Sound(g)
    ensures Sound(Perform(g, op))
  {
    if Attempt(g, op).Some? {
      match op
      case Keep =>
      case NewLattice(p, l, b) => AddLatticeKeepsSound(g, p, l, b);
      case NewBranch(b, l, from) => ForkKeepsSound(g, b, l, from);
      case Realise(a) => AdvanceKeepsSound(g, a);
    }
  }
}
