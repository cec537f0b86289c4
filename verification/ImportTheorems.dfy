/** What an import leaves beside the copy: the lattices that were there are as
    sound as before, while versions and status are not carried over. */
module ImportTheorems {
  import opened Wrappers
  import opened G = Graph
  import Lin = Lineage
  import opened Transfer
  import opened TransferTheorems

  // ------------------------------------------------------------ when it goes through

  /** The first n ids are unused and pairwise different. */
  ghost predicate Unused(ids: seq<Id>, n: nat, used: set<Id>)
    requires n <= |ids|
  {
    (forall i :: 0 <= i < n ==> ids[i] !in used) && (forall i, j :: 0 <= i < j < n ==> ids[i] != ids[j])
  }

  lemma OneMoreUnused(ids: seq<Id>, n: nat, used: set<Id>)
    requires n < |ids|
    ensures Unused(ids, n + 1, used) <==> Unused(ids, n, used) && ids[n] !in used && ids[n] !in ids[..n]
  {
    if ids[n] in ids[..n] {
      var i :| 0 <= i < n && ids[..n][i] == ids[n];
      assert ids[i] == ids[n];
    } else {
      assert forall i :: 0 <= i < n ==> ids[..n][i] == ids[i] && ids[i] in ids[..n];
    }
  }

  lemma {:induction false} BranchesGoThroughExactlyWhen(w: Work, lattice: Id, olds: seq<Id>, ids: seq<Id>)
    requires |olds| <= |ids| && lattice in w.graph.lattices
    ensures AddBranches(w, lattice, olds, ids).Some? <==> Unused(ids, |olds|, w.graph.branches.Keys)
    ensures AddBranches(w, lattice, olds, ids).Some? ==>
              var after := AddBranches(w, lattice, olds, ids).value;
              && after.graph.lattices == w.graph.lattices
              && forall b :: b in after.graph.branches <==> b in w.graph.branches || b in ids[..|olds|]
  {
    if olds != [] {
      var n := |olds| - 1;
      BranchesGoThroughExactlyWhen(w, lattice, olds[..n], ids);
      OneMoreUnused(ids, n, w.graph.branches.Keys);
      assert ids[..n + 1] == ids[..n] + [ids[n]];
    }
  }

  lemma {:induction false} NodesGoThroughExactlyWhen(w: Work, ns: seq<PackedNode>, agent: Option<Id>, ids: seq<Id>)
    requires |ns| <= |ids|
    requires forall i :: 0 <= i < |ns| ==> ns[i].branch in w.branches && w.branches[ns[i].branch] in w.graph.branches
    ensures AddNodes(w, ns, agent, ids).Some? <==> Unused(ids, |ns|, w.graph.nodes.Keys)
    ensures AddNodes(w, ns, agent, ids).Some? ==>
              var after := AddNodes(w, ns, agent, ids).value;
              && after.branches == w.branches && after.graph.branches == w.graph.branches
              && forall n :: n in after.graph.nodes <==> n in w.graph.nodes || n in ids[..|ns|]
  {
    if ns != [] {
      var n := |ns| - 1;
      NodesGoThroughExactlyWhen(w, ns[..n], agent, ids);
      OneMoreUnused(ids, n, w.graph.nodes.Keys);
      assert ids[..n + 1] == ids[..n] + [ids[n]];
    }
  }

  /** An edge between two packed nodes must be of a known kind and not a loop. */
  ghost predicate EdgeAllowed(e: Edge) {
    e.up != e.down && e.kind in {"dependency", "establishes", "requires", "conflicts_with"}
  }

  /** Of the edges between packed nodes, each is allowed and its id is unused. */
  ghost predicate EdgesAllowed(w: Work, es: seq<Edge>, ids: seq<Id>, used: set<Id>)
    requires |es| <= |ids|
  {
    && (forall i :: 0 <= i < |es| && Inside(w, es[i]) ==> EdgeAllowed(es[i]) && ids[i] !in used)
    && (forall i, j :: 0 <= i < j < |es| && Inside(w, es[i]) && Inside(w, es[j]) ==> ids[i] != ids[j])
  }

  ghost predicate TakenBy(w: Work, es: seq<Edge>, ids: seq<Id>, id: Id)
    requires |es| <= |ids|
  {
    exists i :: 0 <= i < |es| && Inside(w, es[i]) && ids[i] == id
  }

  lemma OneMoreEdge(w: Work, es: seq<Edge>, ids: seq<Id>, used: set<Id>)
    requires es != [] && |es| <= |ids|
    ensures var n := |es| - 1;
            && (EdgesAllowed(w, es, ids, used) <==>
                  && EdgesAllowed(w, es[..n], ids, used)
                  && (Inside(w, es[n]) ==> EdgeAllowed(es[n]) && ids[n] !in used && !TakenBy(w, es[..n], ids, ids[n])))
            && forall id :: TakenBy(w, es, ids, id) <==> TakenBy(w, es[..n], ids, id) || (Inside(w, es[n]) && ids[n] == id)
  {
    var n := |es| - 1;
    assert forall i :: 0 <= i < n ==> es[..n][i] == es[i];
    forall id ensures TakenBy(w, es, ids, id) <==> TakenBy(w, es[..n], ids, id) || (Inside(w, es[n]) && ids[n] == id) {
      if TakenBy(w, es[..n], ids, id) {
        var i :| 0 <= i < n && Inside(w, es[..n][i]) && ids[i] == id;
        assert Inside(w, es[i]);
      }
      if TakenBy(w, es, ids, id) {
        var i :| 0 <= i < |es| && Inside(w, es[i]) && ids[i] == id;
        assert i < n ==> Inside(w, es[..n][i]);
      }
    }
    if EdgesAllowed(w, es[..n], ids, used) && Inside(w, es[n]) && !TakenBy(w, es[..n], ids, ids[n]) {
      assert forall i :: 0 <= i < n && Inside(w, es[i]) ==> Inside(w, es[..n][i]) && ids[i] != ids[n];
    }
  }

  lemma OneEdgeGoesThroughExactlyWhen(w: Work, e: Edge, id: Id)
    requires Injective(w.nodes) && forall x :: x in w.nodes ==> w.nodes[x] in w.graph.nodes
    ensures AddEdge(w, e, id).Some? <==> (Inside(w, e) ==> id !in w.graph.edges && EdgeAllowed(e))
    ensures AddEdge(w, e, id).Some? ==>
              var after := AddEdge(w, e, id).value;
              && after.nodes == w.nodes && after.graph.nodes == w.graph.nodes
              && forall x :: x in after.graph.edges <==> x in w.graph.edges || (Inside(w, e) && x == id)
  {
  }

  lemma {:induction false} EdgesGoThroughExactlyWhen(w: Work, es: seq<Edge>, ids: seq<Id>)
    requires |es| <= |ids| && Injective(w.nodes) && forall x :: x in w.nodes ==> w.nodes[x] in w.graph.nodes
    ensures AddEdges(w, es, ids).Some? <==> EdgesAllowed(w, es, ids, w.graph.edges.Keys)
    ensures AddEdges(w, es, ids).Some? ==>
              var after := AddEdges(w, es, ids).value;
              && after.nodes == w.nodes && after.graph.nodes == w.graph.nodes
              && forall id :: id in after.graph.edges <==> id in w.graph.edges || TakenBy(w, es, ids, id)
  {
    if es != [] {
      var n := |es| - 1;
      EdgesGoThroughExactlyWhen(w, es[..n], ids);
      OneMoreEdge(w, es, ids, w.graph.edges.Keys);
      if AddEdges(w, es[..n], ids).Some? {
        var prev := AddEdges(w, es[..n], ids).value;
        OneEdgeGoesThroughExactlyWhen(prev, es[n], ids[n]);
        assert Inside(prev, es[n]) <==> Inside(w, es[n]);
      }
    }
  }

  /** The package has both ends of the edge. */
  predicate Inner(p: Package, e: Edge) {
    Listed(p.nodes, e.up) && Listed(p.nodes, e.down)
  }

  /** Of the package's edges between its own nodes, each is of a known kind, no
      loop, and given an unused id of its own. */
  ghost predicate PackageEdgesAllowed(p: Package, ids: seq<Id>, used: set<Id>)
    requires |p.edges| <= |ids|
  {
    && (forall i :: 0 <= i < |p.edges| && Inner(p, p.edges[i]) ==> EdgeAllowed(p.edges[i]) && ids[i] !in used)
    && (forall i, j :: 0 <= i < j < |p.edges| && Inner(p, p.edges[i]) && Inner(p, p.edges[j]) ==> ids[i] != ids[j])
  }

  lemma AllowedAlike(p: Package, w: Work, ids: seq<Id>, used: set<Id>)
    requires |p.edges| <= |ids| && forall x :: x in w.nodes <==> Listed(p.nodes, x)
    ensures EdgesAllowed(w, p.edges, ids, used) <==> PackageEdgesAllowed(p, ids, used)
  {
    forall e: Edge ensures Inside(w, e) <==> Inner(p, e) {
    }
  }

  lemma LastPartGoesThroughExactlyWhen(g: Graph, p: Package, agent: Option<Id>, ids: seq<Id>, w: Work)
    requires |p.edges| <= |ids| && NodesCopied(g, p.nodes, agent, w)
    ensures AddEdges(w, p.edges, ids).Some? <==> PackageEdgesAllowed(p, ids, w.graph.edges.Keys)
  {
    forall x | x in w.nodes ensures w.nodes[x] in w.graph.nodes {
      var i :| 0 <= i < |p.nodes| && p.nodes[i].id == x;
      assert NodeCopied(w, agent, p.nodes[i]);
    }
    AllowedAlike(p, w, ids, w.graph.edges.Keys);
    EdgesGoThroughExactlyWhen(w, p.edges, ids);
  }

  lemma NodePartGoesThroughExactlyWhen(g: Graph, lattice: Id, p: Package, agent: Option<Id>, ids: NewIds, w: Work)
    requires Enough(p, ids) && WellFormed(p) && BranchesCopied(g, lattice, p.branches, w) && w.nodes == map[]
    ensures AddNodes(w, p.nodes, agent, ids.nodes).Some? <==> Unused(ids.nodes, |p.nodes|, w.graph.nodes.Keys)
    ensures AddNodes(w, p.nodes, agent, ids.nodes).Some? ==>
              var after := AddNodes(w, p.nodes, agent, ids.nodes).value;
              NodesCopied(w.graph, p.nodes, agent, after) && after.graph.edges == w.graph.edges
  {
    NodesGoThroughExactlyWhen(w, p.nodes, agent, ids.nodes);
    if AddNodes(w, p.nodes, agent, ids.nodes).Some? {
      NodesAreCopied(w, p.nodes, agent, ids.nodes);
    }
  }

  lemma BranchPartGoesThroughExactlyWhen(start: Work, lattice: Id, p: Package, ids: NewIds)
    requires Enough(p, ids) && WellFormed(p) && lattice in start.graph.lattices && start.branches == map[]
    ensures AddBranches(start, lattice, p.branches, ids.branches).Some?
       <==> Unused(ids.branches, |p.branches|, start.graph.branches.Keys)
    ensures AddBranches(start, lattice, p.branches, ids.branches).Some? ==>
              var after := AddBranches(start, lattice, p.branches, ids.branches).value;
              && BranchesCopied(start.graph, lattice, p.branches, after) && after.nodes == start.nodes
              && after.graph == start.graph.(branches := after.graph.branches)
  {
    BranchesGoThroughExactlyWhen(start, lattice, p.branches, ids.branches);
    if AddBranches(start, lattice, p.branches, ids.branches).Some? {
      BranchesAreCopied(start, lattice, p.branches, ids.branches);
    }
  }

  /** A well-formed package is imported exactly if the project has no lattice yet,
      the new ids are unused and different, and its inner edges are allowed. */
  lemma ImportGoesThroughExactlyWhen(g: Graph, project: Id, lattice: Id, p: Package, agent: Option<Id>, ids: NewIds)
    requires Enough(p, ids) && WellFormed(p)
    ensures Import(g, project, lattice, p, agent, ids).Some? <==>
              && (forall l :: l in g.lattices ==> l != lattice && g.lattices[l] != project)
              && Unused(ids.branches, |p.branches|, g.branches.Keys) && Unused(ids.nodes, |p.nodes|, g.nodes.Keys)
              && PackageEdgesAllowed(p, ids.edges, g.edges.Keys)
  {
    if lattice !in g.lattices && project !in g.lattices.Values {
      var start := Work(g.(lattices := g.lattices[lattice := project]), map[], map[]);
      BranchPartGoesThroughExactlyWhen(start, lattice, p, ids);
      if AddBranches(start, lattice, p.branches, ids.branches).Some? {
        var w1 := AddBranches(start, lattice, p.branches, ids.branches).value;
        NodePartGoesThroughExactlyWhen(start.graph, lattice, p, agent, ids, w1);
        if AddNodes(w1, p.nodes, agent, ids.nodes).Some? {
          LastPartGoesThroughExactlyWhen(w1.graph, p, agent, ids.edges, AddNodes(w1, p.nodes, agent, ids.nodes).value);
        }
      }
    }
  }

  // ------------------------------------------------------------ insertion order

  /** The copies are listed after everything else, in the order of the package. */
  ghost predicate Appended(order: seq<Id>, ns: seq<PackedNode>, w: Work) {
    && |w.graph.order| == |order| + |ns| && w.graph.order[..|order|] == order
    && forall i :: 0 <= i < |ns| ==> ns[i].id in w.nodes && w.graph.order[|order| + i] == w.nodes[ns[i].id]
  }

  lemma OneMoreAppended(order: seq<Id>, ns: seq<PackedNode>, w: Work, n: PackedNode, agent: Option<Id>, id: Id, after: Work)
    requires Appended(order, ns, w) && !Listed(ns, n.id) && n.branch in w.branches && AddNode(w, n, agent, id) == Some(after)
    ensures Appended(order, ns + [n], after)
  {
    assert after.graph.order[..|order|] == w.graph.order[..|order|];
    forall i | 0 <= i < |ns| ensures ns[i].id in after.nodes && after.nodes[ns[i].id] == w.nodes[ns[i].id] {
      assert Listed(ns, ns[i].id);
    }
  }

  lemma {:induction false} NodesAreAppended(w: Work, ns: seq<PackedNode>, agent: Option<Id>, ids: seq<Id>)
    requires |ns| <= |ids| && DistinctNodes(ns)
    requires forall i :: 0 <= i < |ns| ==> ns[i].branch in w.branches
    requires AddNodes(w, ns, agent, ids).Some?
    ensures var after := AddNodes(w, ns, agent, ids).value;
            Appended(w.graph.order, ns, after) && after.branches == w.branches
  {
    if ns != [] {
      var n := |ns| - 1;
      NodesAreAppended(w, ns[..n], agent, ids);
      var prev := AddNodes(w, ns[..n], agent, ids).value;
      assert !Listed(ns[..n], ns[n].id);
      OneMoreAppended(w.graph.order, ns[..n], prev, ns[n], agent, ids[n], AddNodes(w, ns, agent, ids).value);
      assert ns[..n] + [ns[n]] == ns;
    }
  }

  lemma ImportAppends(g: Graph, project: Id, lattice: Id, p: Package, agent: Option<Id>, ids: NewIds, w: Work)
    requires Enough(p, ids) && WellFormed(p)
    requires Import(g, project, lattice, p, agent, ids) == Some(w)
    ensures Appended(g.order, p.nodes, w)
  {
    var start := Work(g.(lattices := g.lattices[lattice := project]), map[], map[]);
    var w1 := AddBranches(start, lattice, p.branches, ids.branches).value;
    var w2 := AddNodes(w1, p.nodes, agent, ids.nodes).value;
    BranchesAreCopied(start, lattice, p.branches, ids.branches);
    NodesAreAppended(w1, p.nodes, agent, ids.nodes);
    EdgesAreCopied(w2, p.edges, ids.edges);
  }

  // ------------------------------------------------------------ the nodes of a branch

  /** The copies of the packed nodes of one branch, in the order of the package. */
  ghost function CopiesIn(w: Work, ns: seq<PackedNode>, b: Id): seq<Id>
    requires forall i :: 0 <= i < |ns| ==> ns[i].id in w.nodes
  {
    if ns == [] then []
    else
      var n := |ns| - 1;
      CopiesIn(w, ns[..n], b) + if ns[n].branch == b then [w.nodes[ns[n].id]] else []
  }

  lemma {:induction false} NoCopiesExactlyWhen(w: Work, ns: seq<PackedNode>, b: Id)
    requires forall i :: 0 <= i < |ns| ==> ns[i].id in w.nodes
    ensures CopiesIn(w, ns, b) == [] <==> forall i :: 0 <= i < |ns| ==> ns[i].branch != b
  {
    if ns != [] {
      var n := |ns| - 1;
      NoCopiesExactlyWhen(w, ns[..n], b);
      assert forall i :: 0 <= i < n ==> ns[..n][i] == ns[i];
    }
  }

  lemma {:induction false} RealisedCopies(p: Package, order: seq<Id>, w: Work, b: Id, k: nat)
    requires Appended(order, p.nodes, w) && k <= |p.nodes| && b in w.branches && Injective(w.branches)
    requires forall i :: 0 <= i < |p.nodes| ==> RowKept(p, w, i)
    requires Realised(w.graph.nodes, order, w.branches[b]) == []
    ensures Realised(w.graph.nodes, w.graph.order[..|order| + k], w.branches[b]) == CopiesIn(w, p.nodes[..k], b)
  {
    if k > 0 {
      RealisedCopies(p, order, w, b, k - 1);
      var listed := w.graph.order[..|order| + k];
      assert listed[..|listed| - 1] == w.graph.order[..|order| + k - 1];
      assert p.nodes[..k][..k - 1] == p.nodes[..k - 1];
      assert RowKept(p, w, k - 1);
    }
  }

  lemma OldNodesAreElsewhere(g: Graph, h: Graph, b: Id)
    requires Resolved(g) && Within(g, h) && b !in g.branches
    ensures Realised(h.nodes, g.order, b) == []
  {
    forall n | n in g.order && n in h.nodes ensures h.nodes[n].branch != b {
      assert n in g.nodes && h.nodes[n] == g.nodes[n];
    }
    NoneRealised(h.nodes, g.order, b);
  }

  lemma CopiedBranchHasItsCopies(order: seq<Id>, p: Package, w: Work, b: Id)
    requires Appended(order, p.nodes, w) && b in w.branches && Injective(w.branches)
    requires forall i :: 0 <= i < |p.nodes| ==> RowKept(p, w, i)
    requires Realised(w.graph.nodes, order, w.branches[b]) == []
    ensures NodesOf(w.graph, w.branches[b]) == CopiesIn(w, p.nodes, b)
  {
    RealisedCopies(p, order, w, b, |p.nodes|);
    assert w.graph.order[..|order| + |p.nodes|] == w.graph.order && p.nodes[..|p.nodes|] == p.nodes;
  }

  /** An imported branch has the copies of the packed nodes of that branch, in
      the order of the package. */
  lemma ImportedBranchHasItsCopies(g: Graph, project: Id, lattice: Id, p: Package, agent: Option<Id>, ids: NewIds,
                                   w: Work, b: Id)
    requires Enough(p, ids) && WellFormed(p) && Anchored(g) && Resolved(g) && b in p.branches
    requires Import(g, project, lattice, p, agent, ids) == Some(w)
    ensures Isomorphic(g, lattice, p, w)
    ensures NodesOf(w.graph, w.branches[b]) == CopiesIn(w, p.nodes, b)
  {
    ImportIsIsomorphic(g, project, lattice, p, agent, ids, w);
    ImportAppends(g, project, lattice, p, agent, ids, w);
    OldNodesAreElsewhere(g, w.graph, w.branches[b]);
    CopiedBranchHasItsCopies(g.order, p, w, b);
  }

  // ------------------------------------------------------------ what is not carried over

  /** Heads and versions are not carried over: every imported branch is at version
      1 without a head, which describes it exactly when the package has no node
      in it. */
  lemma ImportedBranchIsCountedExactlyWhenEmpty(g: Graph, project: Id, lattice: Id, p: Package, agent: Option<Id>,
                                                ids: NewIds, w: Work, b: Id)
    requires Enough(p, ids) && WellFormed(p) && Anchored(g) && Resolved(g) && b in p.branches
    requires Import(g, project, lattice, p, agent, ids) == Some(w)
    ensures b in w.branches && w.branches[b] in w.graph.branches
    ensures Counted(w.graph, w.branches[b]) <==> forall i :: 0 <= i < |p.nodes| ==> p.nodes[i].branch != b
  {
    ImportedBranchHasItsCopies(g, project, lattice, p, agent, ids, w, b);
    NoCopiesExactlyWhen(w, p.nodes, b);
  }

  lemma CopyHasSuccessor(g: Graph, p: Package, w: Work, x: Id, y: Id)
    requires EdgesCopied(g, p.edges, w) && x in w.nodes && y in w.nodes && PackedEdge(p, x, y)
    ensures HasSuccessor(w.graph, w.nodes[x])
  {
    var i :| 0 <= i < |p.edges| && p.edges[i].up == x && p.edges[i].down == y;
    assert Inside(w, p.edges[i]);
    var id :| id in w.graph.edges && w.graph.edges[id] == Image(w, p.edges[i]);
    assert w.graph.edges[id].up == w.nodes[x];
  }

  lemma SuccessorIsCopy(g: Graph, p: Package, w: Work, x: Id) returns (y: Id)
    requires EdgesCopied(g, p.edges, w) && Within(g, w.graph) && Anchored(g) && Injective(w.nodes)
    requires x in w.nodes && w.nodes[x] !in g.nodes && HasSuccessor(w.graph, w.nodes[x])
    ensures y in w.nodes && PackedEdge(p, x, y)
  {
    var id :| id in w.graph.edges && w.graph.edges[id].up == w.nodes[x];
    var i := SourceOfEdge(g, p, w, x, id);
    y := p.edges[i].down;
  }

  /** Neither is status: every copy is committed, which is right exactly where the
      package has no edge from its node to another of its nodes. */
  lemma ImportedStatusIsRightExactlyForTips(g: Graph, lattice: Id, p: Package, w: Work, x: Id)
    requires Isomorphic(g, lattice, p, w) && EdgesCopied(g, p.edges, w) && Within(g, w.graph) && Anchored(g)
    requires x in w.nodes
    ensures (w.graph.nodes[w.nodes[x]].status.Superseded? <==> HasSuccessor(w.graph, w.nodes[x]))
       <==> forall y :: y in w.nodes ==> !PackedEdge(p, x, y)
  {
    var i :| 0 <= i < |p.nodes| && p.nodes[i].id == x;
    assert RowKept(p, w, i);
    if HasSuccessor(w.graph, w.nodes[x]) {
      var y := SuccessorIsCopy(g, p, w, x);
    }
    forall y | y in w.nodes && PackedEdge(p, x, y) ensures HasSuccessor(w.graph, w.nodes[x]) {
      CopyHasSuccessor(g, p, w, x, y);
    }
  }

  const TWO_NODES := Package(["b"], [PackedNode("x", "b", "a", ""), PackedNode("y", "b", "a", "")],
                             [Edge("x", "y", "dependency")])
  const NEW_IDS := NewIds(["c"], ["m", "n"], ["e"])

  lemma TwoNodesImport() returns (w: Work)
    ensures Import(EMPTY, "p", "l", TWO_NODES, None, NEW_IDS) == Some(w) && w.branches == map["b" := "c"]
    ensures "m" in w.graph.nodes && w.graph.nodes["m"].status.Committed?
    ensures "e" in w.graph.edges && w.graph.edges["e"].up == "m"
  {
    var p := TWO_NODES;
    var w0 := Work(EMPTY.(lattices := EMPTY.lattices["l" := "p"]), map[], map[]);
    var w1 := AddBranch(w0, "l", "b", "c").value;
    assert p.branches[..0] == [] && AddBranches(w0, "l", p.branches, ["c"]) == Some(w1);
    var w2 := AddNode(w1, p.nodes[0], None, "m").value;
    assert p.nodes[..1] == [p.nodes[0]] && p.nodes[..1][..0] == [];
    assert AddNodes(w1, p.nodes[..1], None, NEW_IDS.nodes) == Some(w2);
    var w3 := AddNode(w2, p.nodes[1], None, "n").value;
    assert AddNodes(w1, p.nodes, None, NEW_IDS.nodes) == Some(w3);
    w := AddEdge(w3, p.edges[0], "e").value;
    assert p.edges[..0] == [] && AddEdges(w3, p.edges, NEW_IDS.edges) == Some(w);
  }

  /** A branch with two nodes, imported into the empty graph: the branch does not
      count its nodes, and its first node is not marked as superseded. */
  lemma TwoNodesExample() returns (w: Work)
    ensures WellFormed(TWO_NODES) && Import(EMPTY, "p", "l", TWO_NODES, None, NEW_IDS) == Some(w)
    ensures "c" in w.graph.branches && !Counted(w.graph, "c")
    ensures "m" in w.graph.nodes && w.graph.nodes["m"].status.Committed? && HasSuccessor(w.graph, "m")
  {
    w := TwoNodesImport();
    ImportedBranchIsCountedExactlyWhenEmpty(EMPTY, "p", "l", TWO_NODES, None, NEW_IDS, w, "b");
    assert TWO_NODES.nodes[0].branch == "b";
  }

  // ------------------------------------------------------------ the other lattices

  /** The lattices of g are as sound within h as they were. */
  ghost predicate StillSound(g: Graph, h: Graph) {
    && (forall b :: b in g.branches ==> BranchStillSound(g, h, b))
    && (forall n :: n in g.nodes ==> n in h.nodes && (h.nodes[n].status.Superseded? <==> HasSuccessor(h, n)))
    && (forall e :: e in h.edges ==>
          && (h.edges[e].up in g.nodes <==> e in g.edges) && (h.edges[e].down in g.nodes <==> e in g.edges))
    && (forall e, f :: e in h.edges && f in h.edges && h.edges[e].down == h.edges[f].down && h.edges[e].down in g.nodes ==>
          e == f)
  }

  ghost predicate BranchStillSound(g: Graph, h: Graph, b: Id)
    requires b in g.branches
  {
    && b in h.branches && Counted(h, b) && Chained(h, b)
    && NodesOf(h, b) == NodesOf(g, b) && Lin.LineageOf(h, b) == Lin.LineageOf(g, b)
  }

  lemma SoundIsAnchored(g: Graph)
    requires Resolved(g) && EdgesForward(g)
    ensures Anchored(g)
  {
    forall e | e in g.edges ensures g.edges[e].up in g.nodes && g.edges[e].down in g.nodes {
      BeforeListed(g.order, g.edges[e].up, g.edges[e].down);
    }
  }

  /** Both ends of a new edge are copies. */
  lemma NewEdgesJoinCopies(g: Graph, lattice: Id, p: Package, w: Work, e: Id)
    requires Isomorphic(g, lattice, p, w) && EdgesCopied(g, p.edges, w) && Within(g, w.graph) && Anchored(g)
    requires e in w.graph.edges
    ensures w.graph.edges[e].up in g.nodes <==> e in g.edges
    ensures w.graph.edges[e].down in g.nodes <==> e in g.edges
  {
  }

  /** Rows appended after those of g, in branches that g does not have, leave the
      nodes of its branches as they are. */
  lemma {:induction false} AppendedElsewhere(g: Graph, h: Graph, b: Id, k: nat)
    requires Resolved(g) && Within(g, h) && k <= |h.order| - |g.order| && h.order[..|g.order|] == g.order
    requires forall i :: |g.order| <= i < |h.order| ==> h.order[i] in h.nodes && h.nodes[h.order[i]].branch != b
    ensures Realised(h.nodes, h.order[..|g.order| + k], b) == NodesOf(g, b)
  {
    if k == 0 {
      assert h.order[..|g.order|] == g.order;
      RealisedDependsOnBranches(g.nodes, h.nodes, g.order, b);
    } else {
      AppendedElsewhere(g, h, b, k - 1);
      var listed := h.order[..|g.order| + k];
      assert listed[..|listed| - 1] == h.order[..|g.order| + k - 1];
    }
  }

  lemma OldBranchKeepsItsNodes(g: Graph, lattice: Id, p: Package, w: Work, b: Id)
    requires Isomorphic(g, lattice, p, w) && Within(g, w.graph) && Appended(g.order, p.nodes, w)
    requires Resolved(g) && b in g.branches
    ensures NodesOf(w.graph, b) == NodesOf(g, b)
  {
    var h := w.graph;
    forall i | |g.order| <= i < |h.order| ensures h.order[i] in h.nodes && h.nodes[h.order[i]].branch != b {
      assert RowKept(p, w, i - |g.order|);
    }
    AppendedElsewhere(g, h, b, |p.nodes|);
    assert h.order[..|g.order| + |p.nodes|] == h.order;
  }

  /** Old edges, and among those that touch old nodes only they. */
  ghost predicate EdgesApart(g: Graph, h: Graph) {
    && Within(g, h) && Anchored(g)
    && forall e :: e in h.edges ==>
         (h.edges[e].up in g.nodes <==> e in g.edges) && (h.edges[e].down in g.nodes <==> e in g.edges)
  }

  lemma OldLinksStay(g: Graph, h: Graph, x: Id, y: Id)
    requires EdgesApart(g, h)
    ensures x in g.nodes ==> (HasSuccessor(h, x) <==> HasSuccessor(g, x))
    ensures x in g.nodes || y in g.nodes ==> (HasEdge(h, x, y) <==> HasEdge(g, x, y))
  {
    if HasSuccessor(g, x) {
      var e :| e in g.edges && g.edges[e].up == x;
      assert e in h.edges && h.edges[e].up == x;
    }
    if HasEdge(g, x, y) {
      var e :| e in g.edges && g.edges[e].up == x && g.edges[e].down == y;
      assert e in h.edges && h.edges[e].up == x && h.edges[e].down == y;
    }
    if x in g.nodes && HasSuccessor(h, x) {
      var e :| e in h.edges && h.edges[e].up == x;
      assert e in g.edges && g.edges[e].up == x;
    }
    if (x in g.nodes || y in g.nodes) && HasEdge(h, x, y) {
      var e :| e in h.edges && h.edges[e].up == x && h.edges[e].down == y;
      assert e in g.edges && g.edges[e].up == x && g.edges[e].down == y;
    }
  }

  lemma OldParentsStay(g: Graph, h: Graph, n: Id)
    requires EdgesApart(g, h) && Forest(g) && n in g.nodes
    ensures Lin.Parent(h, n) == Lin.Parent(g, n)
  {
    var p, q := Lin.Parent(g, n), Lin.Parent(h, n);
    if p.Some? {
      OldLinksStay(g, h, p.value, n);
    }
    if q.Some? {
      OldLinksStay(g, h, q.value, n);
      Lin.OneParent(g, q.value, n);
    }
  }

  lemma OldBranchStaysSound(g: Graph, h: Graph, b: Id)
    requires Sound(g) && EdgesApart(g, h) && b in g.branches && NodesOf(h, b) == NodesOf(g, b)
    ensures BranchStillSound(g, h, b)
  {
    assert Counted(g, b) && Chained(g, b);
    var ns := NodesOf(g, b);
    RealisedMembers(g.nodes, g.order, b);
    forall i | 0 < i < |ns| ensures HasEdge(h, ns[i - 1], ns[i]) {
      assert ns[i] in ns;
      OldLinksStay(g, h, ns[i - 1], ns[i]);
    }
    if ns != [] {
      assert ns[0] in ns;
      OldParentsStay(g, h, ns[0]);
    }
  }

  /** An import leaves every lattice that was there as sound as it was: its
      branches count and chain the same nodes from the same fork points, its
      nodes have at most one predecessor and the right status, and no edge joins
      it to a copy. */
  lemma ImportLeavesOthersSound(g: Graph, project: Id, lattice: Id, p: Package, agent: Option<Id>, ids: NewIds, w: Work)
    requires Enough(p, ids) && WellFormed(p) && Sound(g)
    requires Import(g, project, lattice, p, agent, ids) == Some(w)
    ensures StillSound(g, w.graph)
  {
    SoundIsAnchored(g);
    ImportIsIsomorphic(g, project, lattice, p, agent, ids, w);
    ImportAppends(g, project, lattice, p, agent, ids, w);
    forall e | e in w.graph.edges
      ensures w.graph.edges[e].up in g.nodes <==> e in g.edges
      ensures w.graph.edges[e].down in g.nodes <==> e in g.edges
    {
      NewEdgesJoinCopies(g, lattice, p, w, e);
    }
    assert EdgesApart(g, w.graph);
    forall b | b in g.branches ensures BranchStillSound(g, w.graph, b) {
      OldBranchKeepsItsNodes(g, lattice, p, w, b);
      OldBranchStaysSound(g, w.graph, b);
    }
    forall n | n in g.nodes ensures w.graph.nodes[n].status.Superseded? <==> HasSuccessor(w.graph, n) {
      OldLinksStay(g, w.graph, n, n);
    }
  }
}
