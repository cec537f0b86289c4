/** An imported lattice is an isomorphic copy of the package. */
module TransferTheorems {
  import opened Wrappers
  import opened G = Graph
  import Lin = Lineage
  import opened Transfer

  // ------------------------------------------------------------ packages

  ghost predicate DistinctIds(s: seq<Id>) {
    forall i, j :: 0 <= i < j < |s| ==> s[i] != s[j]
  }

  ghost predicate DistinctNodes(ns: seq<PackedNode>) {
    forall i, j :: 0 <= i < j < |ns| ==> ns[i].id != ns[j].id
  }

  /** Distinct ids, and every node lies in a branch of the package. */
  ghost predicate WellFormed(p: Package) {
    && DistinctIds(p.branches) && DistinctNodes(p.nodes)
    && forall i :: 0 <= i < |p.nodes| ==> p.nodes[i].branch in p.branches
  }

  /** Edges of a graph join nodes of it, as its foreign keys demand. */
  ghost predicate Anchored(g: Graph) {
    forall e :: e in g.edges ==> g.edges[e].up in g.nodes && g.edges[e].down in g.nodes
  }

  ghost predicate Injective(m: map<Id, Id>) {
    forall x, y :: x in m && y in m && m[x] == m[y] ==> x == y
  }

  // ------------------------------------------------------------ branches

  /** The branches of h are those of g and one new, empty branch of the lattice
      per listed id. */
  ghost predicate BranchesCopied(g: Graph, lattice: Id, olds: seq<Id>, w: Work) {
    && (forall o :: o in w.branches <==> o in olds)
    && Injective(w.branches)
    && (forall o :: o in w.branches ==>
          w.branches[o] !in g.branches && w.branches[o] in w.graph.branches
          && w.graph.branches[w.branches[o]] == Branch(lattice, None, 1))
    && (forall b :: b in w.graph.branches && b !in g.branches ==> exists o :: o in w.branches && w.branches[o] == b)
  }

  lemma {:induction false} BranchesAreCopied(w: Work, lattice: Id, olds: seq<Id>, ids: seq<Id>)
    requires |olds| <= |ids| && DistinctIds(olds) && w.branches == map[]
    requires AddBranches(w, lattice, olds, ids).Some?
    ensures var after := AddBranches(w, lattice, olds, ids).value;
            && BranchesCopied(w.graph, lattice, olds, after)
            && after.nodes == w.nodes && after.graph == w.graph.(branches := after.graph.branches)
            && Within(w.graph, after.graph)
  {
    if olds != [] {
      var n := |olds| - 1;
      BranchesAreCopied(w, lattice, olds[..n], ids);
      var prev := AddBranches(w, lattice, olds[..n], ids).value;
      OneBranchCopied(w.graph, lattice, olds[..n], prev, olds[n], ids[n], AddBranches(w, lattice, olds, ids).value);
      assert olds[..n] + [olds[n]] == olds;
    }
  }

  lemma OneBranchCopied(g: Graph, lattice: Id, olds: seq<Id>, w: Work, o: Id, id: Id, after: Work)
    requires BranchesCopied(g, lattice, olds, w) && o !in olds && Within(g, w.graph)
    requires AddBranch(w, lattice, o, id) == Some(after)
    ensures BranchesCopied(g, lattice, olds + [o], after) && Within(g, after.graph)
    ensures after.nodes == w.nodes && after.graph == w.graph.(branches := after.graph.branches)
  {
    forall b | b in after.graph.branches && b !in g.branches
      ensures exists x :: x in after.branches && after.branches[x] == b
    {
      if b == id {
        assert after.branches[o] == b;
      } else {
        var x :| x in w.branches && w.branches[x] == b;
        assert after.branches[x] == b;
      }
    }
  }

  // ------------------------------------------------------------ nodes

  predicate Listed(ns: seq<PackedNode>, x: Id) {
    exists i :: 0 <= i < |ns| && ns[i].id == x
  }

  /** The row made for a packed node. */
  ghost predicate NodeCopied(w: Work, agent: Option<Id>, n: PackedNode) {
    && n.id in w.nodes && w.nodes[n.id] in w.graph.nodes && n.branch in w.branches
    && w.graph.nodes[w.nodes[n.id]] == Node(w.branches[n.branch], agent.GetOr(n.agent), n.description, Committed)
  }

  ghost predicate NodesCopied(g: Graph, ns: seq<PackedNode>, agent: Option<Id>, w: Work) {
    && (forall x :: x in w.nodes <==> Listed(ns, x))
    && Injective(w.nodes)
    && (forall x :: x in w.nodes ==> w.nodes[x] !in g.nodes)
    && (forall i :: 0 <= i < |ns| ==> NodeCopied(w, agent, ns[i]))
    && (forall n :: n in w.graph.nodes && n !in g.nodes ==> exists x :: x in w.nodes && w.nodes[x] == n)
  }

  lemma ListedGrows(ns: seq<PackedNode>, n: PackedNode, x: Id)
    ensures Listed(ns + [n], x) <==> Listed(ns, x) || n.id == x
  {
    if Listed(ns, x) {
      var i :| 0 <= i < |ns| && ns[i].id == x;
      assert (ns + [n])[i].id == x;
    }
    if n.id == x {
      assert (ns + [n])[|ns|].id == x;
    }
  }

  /** The shape of a node insertion whose branch is known. */
  lemma NodeShape(w: Work, n: PackedNode, agent: Option<Id>, id: Id, after: Work)
    requires n.branch in w.branches && AddNode(w, n, agent, id) == Some(after)
    ensures id !in w.graph.nodes && after.branches == w.branches && after.nodes == w.nodes[n.id := id]
    ensures after.graph.nodes
         == w.graph.nodes[id := Node(w.branches[n.branch], agent.GetOr(n.agent), n.description, Committed)]
    ensures after.graph.branches == w.graph.branches && after.graph.edges == w.graph.edges
    ensures after.graph.lattices == w.graph.lattices
  {
  }

  lemma EarlierCopiesStay(g: Graph, ns: seq<PackedNode>, agent: Option<Id>, w: Work, n: PackedNode, id: Id, after: Work)
    requires NodesCopied(g, ns, agent, w) && !Listed(ns, n.id) && id !in w.graph.nodes
    requires after.branches == w.branches && after.nodes == w.nodes[n.id := id]
    requires n.branch in w.branches
    requires after.graph.nodes
          == w.graph.nodes[id := Node(w.branches[n.branch], agent.GetOr(n.agent), n.description, Committed)]
    ensures forall i :: 0 <= i < |ns| + 1 ==> NodeCopied(after, agent, (ns + [n])[i])
  {
    forall i | 0 <= i < |ns| + 1 ensures NodeCopied(after, agent, (ns + [n])[i]) {
      if i < |ns| {
        assert NodeCopied(w, agent, ns[i]) && Listed(ns, ns[i].id);
      }
    }
  }

  lemma CopiesStayApart(g: Graph, ns: seq<PackedNode>, agent: Option<Id>, w: Work, n: PackedNode, id: Id)
    requires NodesCopied(g, ns, agent, w) && id !in w.graph.nodes
    ensures Injective(w.nodes[n.id := id])
  {
    forall x | x in w.nodes ensures w.nodes[x] != id {
      var i :| 0 <= i < |ns| && ns[i].id == x;
      assert NodeCopied(w, agent, ns[i]);
    }
  }

  lemma NewNodesAreCopies(g: Graph, w: Work, n: PackedNode, id: Id, after: Work)
    requires forall m :: m in w.graph.nodes && m !in g.nodes ==> exists x :: x in w.nodes && w.nodes[x] == m
    requires n.id !in w.nodes && after.nodes == w.nodes[n.id := id]
    requires forall m :: m in after.graph.nodes ==> m in w.graph.nodes || m == id
    ensures forall m :: m in after.graph.nodes && m !in g.nodes ==> exists x :: x in after.nodes && after.nodes[x] == m
  {
    forall m | m in after.graph.nodes && m !in g.nodes ensures exists x :: x in after.nodes && after.nodes[x] == m {
      if m == id {
        assert after.nodes[n.id] == m;
      } else {
        var x :| x in w.nodes && w.nodes[x] == m;
        assert after.nodes[x] == m;
      }
    }
  }

  lemma OneNodeCopied(g: Graph, ns: seq<PackedNode>, agent: Option<Id>, w: Work, n: PackedNode, id: Id, after: Work)
    requires NodesCopied(g, ns, agent, w) && !Listed(ns, n.id) && n.branch in w.branches && Within(g, w.graph)
    requires AddNode(w, n, agent, id) == Some(after)
    ensures NodesCopied(g, ns + [n], agent, after) && Within(g, after.graph)
    ensures after.branches == w.branches && after.graph.branches == w.graph.branches && after.graph.edges == w.graph.edges
  {
    NodeShape(w, n, agent, id, after);
    EarlierCopiesStay(g, ns, agent, w, n, id, after);
    CopiesStayApart(g, ns, agent, w, n, id);
    NewNodesAreCopies(g, w, n, id, after);
    forall x ensures x in after.nodes <==> Listed(ns + [n], x) {
      ListedGrows(ns, n, x);
    }
  }

  lemma {:induction false} NodesAreCopied(w: Work, ns: seq<PackedNode>, agent: Option<Id>, ids: seq<Id>)
    requires |ns| <= |ids| && DistinctNodes(ns) && w.nodes == map[]
    requires forall i :: 0 <= i < |ns| ==> ns[i].branch in w.branches
    requires AddNodes(w, ns, agent, ids).Some?
    ensures var after := AddNodes(w, ns, agent, ids).value;
            && NodesCopied(w.graph, ns, agent, after) && Within(w.graph, after.graph)
            && after.branches == w.branches && after.graph.branches == w.graph.branches && after.graph.edges == w.graph.edges
  {
    if ns != [] {
      var n := |ns| - 1;
      NodesAreCopied(w, ns[..n], agent, ids);
      var prev := AddNodes(w, ns[..n], agent, ids).value;
      assert !Listed(ns[..n], ns[n].id) && prev.branches == w.branches;
      OneNodeCopied(w.graph, ns[..n], agent, prev, ns[n], ids[n], AddNodes(w, ns, agent, ids).value);
      assert ns[..n] + [ns[n]] == ns;
    }
  }

  // ------------------------------------------------------------ edges

  /** A listed edge whose two ends were given new ids. */
  predicate Inside(w: Work, e: Edge) {
    e.up in w.nodes && e.down in w.nodes
  }

  function Image(w: Work, e: Edge): Edge
    requires Inside(w, e)
  {
    Edge(w.nodes[e.up], w.nodes[e.down], e.kind)
  }

  ghost predicate Stored(g: Graph, e: Edge) {
    exists id :: id in g.edges && g.edges[id] == e
  }

  ghost predicate EdgesCopied(g: Graph, es: seq<Edge>, w: Work) {
    && (forall i :: 0 <= i < |es| && Inside(w, es[i]) ==> Stored(w.graph, Image(w, es[i])))
    && (forall id :: id in w.graph.edges && id !in g.edges ==>
          exists i :: 0 <= i < |es| && Inside(w, es[i]) && w.graph.edges[id] == Image(w, es[i]))
  }

  lemma ImagesStayStored(es: seq<Edge>, w: Work, e: Edge, id: Id, after: Work, i: nat)
    requires AddEdge(w, e, id) == Some(after) && i <= |es| && Inside(w, (es + [e])[i])
    requires i < |es| ==> Stored(w.graph, Image(w, es[i]))
    ensures after.nodes == w.nodes && Stored(after.graph, Image(w, (es + [e])[i]))
  {
    if i < |es| {
      var x :| x in w.graph.edges && w.graph.edges[x] == Image(w, es[i]);
      assert x in after.graph.edges && after.graph.edges[x] == Image(w, es[i]);
    } else {
      assert id in after.graph.edges && after.graph.edges[id] == Image(w, e);
    }
  }

  lemma StoredAreImages(g: Graph, es: seq<Edge>, w: Work, e: Edge, id: Id, after: Work, x: Id) returns (i: nat)
    requires EdgesCopied(g, es, w) && AddEdge(w, e, id) == Some(after) && x in after.graph.edges && x !in g.edges
    ensures i <= |es| && Inside(after, (es + [e])[i]) && after.graph.edges[x] == Image(after, (es + [e])[i])
  {
    if x in w.graph.edges {
      i :| 0 <= i < |es| && Inside(w, es[i]) && w.graph.edges[x] == Image(w, es[i]);
    } else {
      i := |es|;
    }
  }

  lemma OneEdgeCopied(g: Graph, es: seq<Edge>, w: Work, e: Edge, id: Id, after: Work)
    requires EdgesCopied(g, es, w) && Within(g, w.graph) && AddEdge(w, e, id) == Some(after)
    ensures EdgesCopied(g, es + [e], after) && Within(g, after.graph)
    ensures after.branches == w.branches && after.nodes == w.nodes && after.graph == w.graph.(edges := after.graph.edges)
  {
    var all := es + [e];
    forall i | 0 <= i < |all| && Inside(after, all[i]) ensures Stored(after.graph, Image(after, all[i])) {
      assert i < |es| ==> all[i] == es[i];
      ImagesStayStored(es, w, e, id, after, i);
    }
    forall x | x in after.graph.edges && x !in g.edges
      ensures exists i :: 0 <= i < |all| && Inside(after, all[i]) && after.graph.edges[x] == Image(after, all[i])
    {
      var i := StoredAreImages(g, es, w, e, id, after, x);
    }
  }

  lemma {:induction false} EdgesAreCopied(w: Work, es: seq<Edge>, ids: seq<Id>)
    requires |es| <= |ids| && AddEdges(w, es, ids).Some?
    ensures var after := AddEdges(w, es, ids).value;
            && EdgesCopied(w.graph, es, after) && Within(w.graph, after.graph)
            && after.branches == w.branches && after.nodes == w.nodes
            && after.graph == w.graph.(edges := after.graph.edges)
  {
    if es != [] {
      var n := |es| - 1;
      EdgesAreCopied(w, es[..n], ids);
      var prev := AddEdges(w, es[..n], ids).value;
      OneEdgeCopied(w.graph, es[..n], prev, es[n], ids[n], AddEdges(w, es, ids).value);
      assert es[..n] + [es[n]] == es;
    }
  }

  // ------------------------------------------------------------ the copy

  /** The package has this edge. */
  predicate Packed(p: Package, x: Id, y: Id, kind: string) {
    Edge(x, y, kind) in p.edges
  }

  /** What an import that goes through leaves, for a well-formed package. The
      ids are mapped one to one to ids that were not in use; branch membership
      is kept; and between copies there are exactly the edges of the package. */
  ghost predicate Isomorphic(g: Graph, lattice: Id, p: Package, w: Work) {
    && Injective(w.branches) && Injective(w.nodes)
    && (forall b :: b in w.branches <==> b in p.branches)
    && (forall x :: x in w.nodes <==> Listed(p.nodes, x))
    && (forall b :: b in w.branches ==>
          && w.branches[b] !in g.branches && w.branches[b] in w.graph.branches
          && w.graph.branches[w.branches[b]] == Branch(lattice, None, 1))
    && (forall x :: x in w.nodes ==> w.nodes[x] !in g.nodes && w.nodes[x] in w.graph.nodes)
    && (forall i :: 0 <= i < |p.nodes| ==> RowKept(p, w, i))
    && (forall x, y, kind :: x in w.nodes && y in w.nodes ==>
          (Stored(w.graph, Edge(w.nodes[x], w.nodes[y], kind)) <==> Packed(p, x, y, kind)))
  }

  ghost predicate RowKept(p: Package, w: Work, i: nat)
    requires i < |p.nodes|
  {
    var n := p.nodes[i];
    && n.id in w.nodes && w.nodes[n.id] in w.graph.nodes && n.branch in w.branches
    && var row := w.graph.nodes[w.nodes[n.id]];
       row.branch == w.branches[n.branch] && row.description == n.description && row.status.Committed?
  }

  /** What leaves a new node is a new edge. */
  lemma NewNodesHaveNewEdges(g: Graph, h: Graph, x: Id, id: Id)
    requires Within(g, h) && Anchored(g) && x !in g.nodes && id in h.edges && h.edges[id].up == x
    ensures id !in g.edges
  {
    assert forall e :: e in g.edges ==> h.edges[e].up in g.nodes;
  }

  /** A new edge is the image of a listed one. */
  lemma SourceOfEdge(g: Graph, p: Package, w: Work, x: Id, id: Id) returns (i: nat)
    requires EdgesCopied(g, p.edges, w) && Within(g, w.graph) && Anchored(g) && Injective(w.nodes)
    requires x in w.nodes && w.nodes[x] !in g.nodes && id in w.graph.edges && w.graph.edges[id].up == w.nodes[x]
    ensures i < |p.edges| && Inside(w, p.edges[i]) && w.graph.edges[id] == Image(w, p.edges[i]) && p.edges[i].up == x
  {
    NewNodesHaveNewEdges(g, w.graph, w.nodes[x], id);
    i :| 0 <= i < |p.edges| && Inside(w, p.edges[i]) && w.graph.edges[id] == Image(w, p.edges[i]);
  }

  lemma EdgesCorrespond(g: Graph, p: Package, w: Work, x: Id, y: Id, kind: string)
    requires EdgesCopied(g, p.edges, w) && Within(g, w.graph) && Anchored(g) && Injective(w.nodes)
    requires x in w.nodes && y in w.nodes && w.nodes[x] !in g.nodes
    ensures Stored(w.graph, Edge(w.nodes[x], w.nodes[y], kind)) <==> Packed(p, x, y, kind)
  {
    var e := Edge(x, y, kind);
    if Packed(p, x, y, kind) {
      var i :| 0 <= i < |p.edges| && p.edges[i] == e;
      assert Inside(w, p.edges[i]) && Image(w, p.edges[i]) == Edge(w.nodes[x], w.nodes[y], kind);
    }
    if Stored(w.graph, Edge(w.nodes[x], w.nodes[y], kind)) {
      var id :| id in w.graph.edges && w.graph.edges[id] == Edge(w.nodes[x], w.nodes[y], kind);
      var i := SourceOfEdge(g, p, w, x, id);
      assert p.edges[i] == e;
    }
  }

  /** Import as a fork makes an isomorphic copy, in which every node is committed
      and has the importing agent or else its own, and changes no row that was
      there. */
  lemma ImportIsIsomorphic(g: Graph, project: Id, lattice: Id, p: Package, agent: Option<Id>, ids: NewIds, w: Work)
    requires Enough(p, ids) && WellFormed(p) && Anchored(g)
    requires Import(g, project, lattice, p, agent, ids) == Some(w)
    ensures Isomorphic(g, lattice, p, w) && Within(g, w.graph)
    ensures EdgesCopied(g, p.edges, w)
    ensures forall i :: 0 <= i < |p.nodes| ==> NodeCopied(w, agent, p.nodes[i])
  {
    var start := Work(g.(lattices := g.lattices[lattice := project]), map[], map[]);
    var w1 := AddBranches(start, lattice, p.branches, ids.branches).value;
    var w2 := AddNodes(w1, p.nodes, agent, ids.nodes).value;
    BranchesAreCopied(start, lattice, p.branches, ids.branches);
    NodesAreCopied(w1, p.nodes, agent, ids.nodes);
    EdgesAreCopied(w2, p.edges, ids.edges);
    CopiesAreIsomorphic(g, lattice, p, agent, w1, w2, w);
    forall i | 0 <= i < |p.nodes| ensures NodeCopied(w, agent, p.nodes[i]) {
      assert NodeCopied(w2, agent, p.nodes[i]);
    }
  }

  lemma CopiesAreIsomorphic(g: Graph, lattice: Id, p: Package, agent: Option<Id>, w1: Work, w2: Work, w: Work)
    requires Anchored(g) && Within(g, w1.graph) && Within(w1.graph, w2.graph) && Within(w2.graph, w.graph)
    requires w1.graph.nodes == g.nodes && w2.graph.edges == g.edges
    requires BranchesCopied(g, lattice, p.branches, w1)
    requires NodesCopied(w1.graph, p.nodes, agent, w2)
    requires w2.branches == w1.branches && w2.graph.branches == w1.graph.branches
    requires EdgesCopied(w2.graph, p.edges, w) && w.branches == w2.branches && w.nodes == w2.nodes
    requires w.graph == w2.graph.(edges := w.graph.edges)
    ensures Isomorphic(g, lattice, p, w) && Within(g, w.graph) && EdgesCopied(g, p.edges, w)
  {
    forall x | x in w.nodes ensures w.nodes[x] !in g.nodes && w.nodes[x] in w.graph.nodes {
      var i :| 0 <= i < |p.nodes| && p.nodes[i].id == x;
      assert NodeCopied(w2, agent, p.nodes[i]);
    }
    forall i | 0 <= i < |p.nodes| ensures RowKept(p, w, i) {
      assert NodeCopied(w2, agent, p.nodes[i]);
    }
    forall x, y, kind | x in w.nodes && y in w.nodes
      ensures Stored(w.graph, Edge(w.nodes[x], w.nodes[y], kind)) <==> Packed(p, x, y, kind)
    {
      EdgesCorrespond(g, p, w, x, y, kind);
    }
  }

  // ------------------------------------------------------------ paths

  predicate PackedEdge(p: Package, x: Id, y: Id) {
    exists i :: 0 <= i < |p.edges| && p.edges[i].up == x && p.edges[i].down == y
  }

  predicate PackedPath(p: Package, q: seq<Id>) {
    |q| >= 2 && forall i :: 0 <= i < |q| - 1 ==> PackedEdge(p, q[i], q[i + 1])
  }

  ghost predicate IsCopyOf(w: Work, q: seq<Id>, r: seq<Id>) {
    |q| == |r| && forall i :: 0 <= i < |q| ==> r[i] in w.nodes && w.nodes[r[i]] == q[i]
  }

  /** An edge that leaves a copy is the copy of an edge. */
  lemma EdgeFromCopy(g: Graph, p: Package, w: Work, x: Id, y: Id) returns (z: Id)
    requires EdgesCopied(g, p.edges, w) && Within(g, w.graph) && Anchored(g) && Injective(w.nodes)
    requires x in w.nodes && w.nodes[x] !in g.nodes && HasEdge(w.graph, w.nodes[x], y)
    ensures z in w.nodes && w.nodes[z] == y && PackedEdge(p, x, z)
  {
    var id :| id in w.graph.edges && w.graph.edges[id].up == w.nodes[x] && w.graph.edges[id].down == y;
    var i := SourceOfEdge(g, p, w, x, id);
    z := p.edges[i].down;
  }

  ghost predicate Follows(p: Package, w: Work, x: Id, y: Id) {
    exists z :: z in w.nodes && w.nodes[z] == y && PackedEdge(p, x, z)
  }

  /** Edges that leave copies are copies. */
  ghost predicate Closed(p: Package, w: Work) {
    forall x, y :: x in w.nodes && HasEdge(w.graph, w.nodes[x], y) ==> Follows(p, w, x, y)
  }

  lemma CopiesAreClosed(g: Graph, p: Package, w: Work)
    requires EdgesCopied(g, p.edges, w) && Within(g, w.graph) && Anchored(g) && Injective(w.nodes)
    requires forall x :: x in w.nodes ==> w.nodes[x] !in g.nodes
    ensures Closed(p, w)
  {
    forall x, y | x in w.nodes && HasEdge(w.graph, w.nodes[x], y) ensures Follows(p, w, x, y) {
      var z := EdgeFromCopy(g, p, w, x, y);
    }
  }

  lemma {:induction false} PathFromCopy(p: Package, w: Work, x: Id, q: seq<Id>) returns (r: seq<Id>)
    requires Closed(p, w) && Lin.Path(w.graph, q) && x in w.nodes && w.nodes[x] == q[0]
    ensures PackedPath(p, r) && IsCopyOf(w, q, r)
  {
    var n := |q| - 1;
    assert HasEdge(w.graph, q[n - 1], q[n]);
    if n == 1 {
      assert Follows(p, w, x, q[1]);
      var z :| z in w.nodes && w.nodes[z] == q[1] && PackedEdge(p, x, z);
      r := [x, z];
    } else {
      Lin.PathPrefix(w.graph, q);
      var r0 := PathFromCopy(p, w, x, q[..n]);
      LastCopied(w, q, r0);
      var last := r0[|r0| - 1];
      assert Follows(p, w, last, q[n]);
      var z :| z in w.nodes && w.nodes[z] == q[n] && PackedEdge(p, last, z);
      r := r0 + [z];
      ExtendCopy(p, w, q, r0, z);
    }
  }

  lemma LastCopied(w: Work, q: seq<Id>, r: seq<Id>)
    requires |q| >= 2 && IsCopyOf(w, q[..|q| - 1], r)
    ensures r != [] && r[|r| - 1] in w.nodes && w.nodes[r[|r| - 1]] == q[|q| - 2]
  {
  }

  lemma ExtendCopy(p: Package, w: Work, q: seq<Id>, r: seq<Id>, z: Id)
    requires |q| >= 3 && PackedPath(p, r) && IsCopyOf(w, q[..|q| - 1], r)
    requires z in w.nodes && w.nodes[z] == q[|q| - 1] && PackedEdge(p, r[|r| - 1], z)
    ensures PackedPath(p, r + [z]) && IsCopyOf(w, q, r + [z])
  {
    var all := r + [z];
    forall i | 0 <= i < |all| - 1 ensures PackedEdge(p, all[i], all[i + 1]) {
      if i < |r| - 1 {
        assert PackedEdge(p, r[i], r[i + 1]);
      }
    }
    forall i | 0 <= i < |q| ensures all[i] in w.nodes && w.nodes[all[i]] == q[i] {
      if i < |r| {
        assert w.nodes[r[i]] == q[..|q| - 1][i];
      }
    }
  }

  ghost predicate Acyclic(p: Package) {
    forall r :: PackedPath(p, r) ==> r[0] != r[|r| - 1]
  }

  /** An acyclic package stays acyclic: no path through the imported graph that
      begins at a copy returns to where it began. */
  lemma ImportKeepsAcyclic(g: Graph, lattice: Id, p: Package, w: Work, x: Id, q: seq<Id>)
    requires Isomorphic(g, lattice, p, w) && EdgesCopied(g, p.edges, w) && Within(g, w.graph) && Anchored(g)
    requires Acyclic(p) && Lin.Path(w.graph, q) && x in w.nodes && w.nodes[x] == q[0]
    ensures q[0] != q[|q| - 1]
  {
    CopiesAreClosed(g, p, w);
    var r := PathFromCopy(p, w, x, q);
    assert w.nodes[r[0]] == q[0] && w.nodes[r[|r| - 1]] == q[|q| - 1];
  }

  // ------------------------------------------------------------ a whole lattice

  /** The rows that an export of a lattice collects, in any order: its branches,
      their nodes, and every edge that touches one of those nodes. */
  ghost predicate Exported(g: Graph, lattice: Id, p: Package) {
    && DistinctIds(p.branches) && DistinctNodes(p.nodes)
    && (forall b :: b in p.branches <==> b in g.branches && g.branches[b].lattice == lattice)
    && (forall i :: 0 <= i < |p.nodes| ==>
          p.nodes[i].id in g.nodes && p.nodes[i].branch == g.nodes[p.nodes[i].id].branch && p.nodes[i].branch in p.branches)
    && (forall x :: x in g.nodes && g.nodes[x].branch in p.branches ==> Listed(p.nodes, x))
    && (forall e :: e in p.edges <==> Stored(g, e) && (Listed(p.nodes, e.up) || Listed(p.nodes, e.down)))
  }

  lemma ListedMeansInLattice(g: Graph, lattice: Id, p: Package, x: Id)
    requires Resolved(g) && Exported(g, lattice, p)
    ensures Listed(p.nodes, x) <==> LatticeOf(g, x) == Some(lattice)
  {
    if Listed(p.nodes, x) {
      var i :| 0 <= i < |p.nodes| && p.nodes[i].id == x;
    }
  }

  /** In a sound graph edges stay inside a lattice, so an export has both ends
      of every edge it has. */
  lemma ExportHasBothEnds(g: Graph, lattice: Id, p: Package, e: Edge)
    requires Resolved(g) && EdgesForward(g) && Exported(g, lattice, p) && e in p.edges
    ensures Stored(g, e) && Listed(p.nodes, e.up) && Listed(p.nodes, e.down)
  {
    var id :| id in g.edges && g.edges[id] == e;
    ListedMeansInLattice(g, lattice, p, e.up);
    ListedMeansInLattice(g, lattice, p, e.down);
  }

  lemma ExportIsAcyclic(g: Graph, lattice: Id, p: Package)
    requires Sound(g) && Exported(g, lattice, p)
    ensures Acyclic(p)
  {
    forall r | PackedPath(p, r) ensures r[0] != r[|r| - 1] {
      forall i | 0 < i < |r| ensures HasEdge(g, r[i - 1], r[i]) {
        assert PackedEdge(p, r[i - 1], r[i - 1 + 1]);
        var k :| 0 <= k < |p.edges| && p.edges[k].up == r[i - 1] && p.edges[k].down == r[i];
        ExportHasBothEnds(g, lattice, p, p.edges[k]);
        var id :| id in g.edges && g.edges[id] == p.edges[k];
        assert g.edges[id].up == r[i - 1] && g.edges[id].down == r[i];
      }
      assert Lin.Path(g, r);
      Lin.NoCycles(g, r);
    }
  }

  /** Exporting a lattice of a sound graph and importing it, into this database
      or another, copies it whole: between any two nodes of the lattice there is
      an edge exactly when there is one between their copies, and the copy has
      no cycle. */
  lemma ForkCopiesTheWholeLattice(source: Graph, from: Id, g: Graph, project: Id, lattice: Id, p: Package,
                                  agent: Option<Id>, ids: NewIds, w: Work)
    requires Sound(source) && Exported(source, from, p) && Anchored(g) && Enough(p, ids)
    requires Import(g, project, lattice, p, agent, ids) == Some(w)
    ensures Isomorphic(g, lattice, p, w) && Within(g, w.graph) && Acyclic(p)
    ensures forall x :: x in w.nodes <==> LatticeOf(source, x) == Some(from)
    ensures forall x, y, kind :: x in w.nodes && y in w.nodes ==>
              (Stored(w.graph, Edge(w.nodes[x], w.nodes[y], kind)) <==> Stored(source, Edge(x, y, kind)))
  {
    ImportIsIsomorphic(g, project, lattice, p, agent, ids, w);
    ExportIsAcyclic(source, from, p);
    forall x ensures x in w.nodes <==> LatticeOf(source, x) == Some(from) {
      ListedMeansInLattice(source, from, p, x);
    }
    forall x, y, kind | x in w.nodes && y in w.nodes
      ensures Stored(w.graph, Edge(w.nodes[x], w.nodes[y], kind)) <==> Stored(source, Edge(x, y, kind))
    {
      assert Packed(p, x, y, kind) <==> Edge(x, y, kind) in p.edges;
    }
  }
}
