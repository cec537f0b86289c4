/** Import of an exported lattice as a fork: a new project and lattice with
    copies of the branches, nodes and edges under new ids. */
module Transfer {
  import opened Wrappers
  import opened Transactions
  import opened Database
  import opened G = Graph

  datatype PackedNode = PackedNode(id: Id, branch: Id, agent: Id, description: string)

  datatype Package = Package(branches: seq<Id>, nodes: seq<PackedNode>, edges: seq<Edge>)

  /** The new ids, in the order in which they are drawn. */
  datatype NewIds = NewIds(branches: seq<Id>, nodes: seq<Id>, edges: seq<Id>)

  ghost predicate Enough(p: Package, ids: NewIds) {
    |p.branches| <= |ids.branches| && |p.nodes| <= |ids.nodes| && |p.edges| <= |ids.edges|
  }

  /** The graph being filled, and the new id of each branch and node so far. */
  datatype Work = Work(graph: Graph, branches: map<Id, Id>, nodes: map<Id, Id>)

  // ------------------------------------------------------------ one row

  /** None stands for a refused insertion. */
  function AddBranch(w: Work, lattice: Id, source: Id, id: Id): Option<Work> {
    if id in w.graph.branches || lattice !in w.graph.lattices then None
    else Some(w.(
      graph := w.graph.(branches := w.graph.branches[id := Branch(lattice, None, 1)]),
      branches := w.branches[source := id]))
  }

  /** A node of an unknown branch gets an id but no row. */
  function AddNode(w: Work, n: PackedNode, agent: Option<Id>, id: Id): Option<Work> {
    if n.branch !in w.branches then Some(w.(nodes := w.nodes[n.id := id]))
    else if id in w.graph.nodes || w.branches[n.branch] !in w.graph.branches then None
    else Some(w.(
      graph := w.graph.(
        nodes := w.graph.nodes[id := Node(w.branches[n.branch], agent.GetOr(n.agent), n.description, Committed)],
        order := w.graph.order + [id]),
      nodes := w.nodes[n.id := id]))
  }

  predicate KnownKind(kind: string) {
    kind in {"dependency", "establishes", "requires", "conflicts_with"}
  }

  /** An edge with an endpoint outside of the package is dropped. */
  function AddEdge(w: Work, e: Edge, id: Id): Option<Work> {
    if e.up !in w.nodes || e.down !in w.nodes then Some(w)
    else
      var up, down := w.nodes[e.up], w.nodes[e.down];
      if id in w.graph.edges || up !in w.graph.nodes || down !in w.graph.nodes || up == down || !KnownKind(e.kind) then None
      else Some(w.(graph := w.graph.(edges := w.graph.edges[id := Edge(up, down, e.kind)])))
  }

  // ------------------------------------------------------------ all rows

  function AddBranches(w: Work, lattice: Id, olds: seq<Id>, ids: seq<Id>): Option<Work>
    requires |olds| <= |ids|
  {
    if olds == [] then Some(w)
    else
      var n := |olds| - 1;
      var prev := AddBranches(w, lattice, olds[..n], ids);
      if prev.None? then None else AddBranch(prev.value, lattice, olds[n], ids[n])
  }

  function AddNodes(w: Work, ns: seq<PackedNode>, agent: Option<Id>, ids: seq<Id>): Option<Work>
    requires |ns| <= |ids|
  {
    if ns == [] then Some(w)
    else
      var n := |ns| - 1;
      var prev := AddNodes(w, ns[..n], agent, ids);
      if prev.None? then None else AddNode(prev.value, ns[n], agent, ids[n])
  }

  function AddEdges(w: Work, es: seq<Edge>, ids: seq<Id>): Option<Work>
    requires |es| <= |ids|
  {
    if es == [] then Some(w)
    else
      var n := |es| - 1;
      var prev := AddEdges(w, es[..n], ids);
      if prev.None? then None else AddEdge(prev.value, es[n], ids[n])
  }

  function Import(g: Graph, project: Id, lattice: Id, p: Package, agent: Option<Id>, ids: NewIds): Option<Work>
    requires Enough(p, ids)
  {
    if lattice in g.lattices || project in g.lattices.Values then None
    else
      var start := Work(g.(lattices := g.lattices[lattice := project]), map[], map[]);
      var withBranches := AddBranches(start, lattice, p.branches, ids.branches);
      if withBranches.None? then None
      else
        var withNodes := AddNodes(withBranches.value, p.nodes, agent, ids.nodes);
        if withNodes.None? then None else AddEdges(withNodes.value, p.edges, ids.edges)
  }

  lemma {:induction false} BranchRefusalStays(w: Work, lattice: Id, olds: seq<Id>, ids: seq<Id>, k: nat)
    requires |olds| <= |ids| && k <= |olds| && AddBranches(w, lattice, olds[..k], ids).None?
    ensures AddBranches(w, lattice, olds, ids).None?
  {
    if k < |olds| {
      var n := |olds| - 1;
      assert olds[..n][..k] == olds[..k];
      BranchRefusalStays(w, lattice, olds[..n], ids, k);
    } else {
      assert olds[..k] == olds;
    }
  }

  lemma {:induction false} NodeRefusalStays(w: Work, ns: seq<PackedNode>, agent: Option<Id>, ids: seq<Id>, k: nat)
    requires |ns| <= |ids| && k <= |ns| && AddNodes(w, ns[..k], agent, ids).None?
    ensures AddNodes(w, ns, agent, ids).None?
  {
    if k < |ns| {
      var n := |ns| - 1;
      assert ns[..n][..k] == ns[..k];
      NodeRefusalStays(w, ns[..n], agent, ids, k);
    } else {
      assert ns[..k] == ns;
    }
  }

  lemma {:induction false} EdgeRefusalStays(w: Work, es: seq<Edge>, ids: seq<Id>, k: nat)
    requires |es| <= |ids| && k <= |es| && AddEdges(w, es[..k], ids).None?
    ensures AddEdges(w, es, ids).None?
  {
    if k < |es| {
      var n := |es| - 1;
      assert es[..n][..k] == es[..k];
      EdgeRefusalStays(w, es[..n], ids, k);
    } else {
      assert es[..k] == es;
    }
  }

  // ------------------------------------------------------------ nothing is overwritten

  /** Every row of the one graph is, unchanged, a row of the other. */
  ghost predicate Within(g: Graph, h: Graph) {
    && (forall l :: l in g.lattices ==> l in h.lattices && h.lattices[l] == g.lattices[l])
    && (forall b :: b in g.branches ==> b in h.branches && h.branches[b] == g.branches[b])
    && (forall n :: n in g.nodes ==> n in h.nodes && h.nodes[n] == g.nodes[n])
    && (forall e :: e in g.edges ==> e in h.edges && h.edges[e] == g.edges[e])
  }

  /** The same for the whole database; the other tables are as they were. */
  ghost predicate Keeps(before: Db, after: Db) {
    Within(before.graph, after.graph) && after.ledger == before.ledger && after.audit == before.audit
  }

  // ------------------------------------------------------------ the importer

  class TransferImporter {
    const db: Database
    var newBranchIds: map<Id, Id>
    var newNodeIds: map<Id, Id>

    constructor (db: Database)
      ensures this.db == db
    {
      this.db := db;
      newBranchIds, newNodeIds := map[], map[];
    }

    ghost function Progress(): Work
      reads this, db
    {
      Work(db.GraphTables(), newBranchIds, newNodeIds)
    }

    /** Import a package. A refused insertion ends the import; what had been
        committed before it stays. */
    method ImportAsFork(project: Id, lattice: Id, p: Package, agent: Option<Id>, ids: NewIds) returns (ok: bool)
      requires Enough(p, ids)
      modifies this, db
      ensures Keeps(old(db.State()), db.State())
      ensures var r := Import(old(db.GraphTables()), project, lattice, p, agent, ids);
              ok == r.Some? && (ok ==> Progress() == r.value)
    {
      var committed := db.State();
      newBranchIds, newNodeIds := map[], map[];
      ok := db.InsertLattice(lattice, project);
      if ok {
        ok := ImportBranches(lattice, p.branches, ids.branches, committed);
      }
      if ok {
        ok := ImportNodes(p.nodes, agent, ids.nodes, db.State());
      }
      if ok {
        ok := ImportEdges(p.edges, ids.edges, db.State());
      }
    }

    /** Each branch is committed on its own. */
    method ImportBranches(lattice: Id, olds: seq<Id>, ids: seq<Id>, last: Db) returns (ok: bool)
      requires |olds| <= |ids| && Keeps(last, db.State())
      modifies this`newBranchIds, db
      ensures Keeps(last, db.State())
      ensures var r := AddBranches(old(Progress()), lattice, olds, ids);
              ok == r.Some? && (ok ==> Progress() == r.value)
    {
      var committed := last;
      ghost var start := Progress();
      for i := 0 to |olds|
        invariant AddBranches(start, lattice, olds[..i], ids) == Some(Progress())
        invariant Keeps(last, committed) && Keeps(last, db.State())
      {
        assert olds[..i + 1][..i] == olds[..i];
        ok := db.InsertBranch(ids[i], lattice, None);
        if !ok {
          BranchRefusalStays(start, lattice, olds, ids, i + 1);
          db.Rollback(committed);
          return;
        }
        newBranchIds := newBranchIds[olds[i] := ids[i]];
        committed := db.State();
      }
      assert olds[..|olds|] == olds;
      ok := true;
    }

    /** All nodes are committed together. */
    method ImportNodes(ns: seq<PackedNode>, agent: Option<Id>, ids: seq<Id>, committed: Db) returns (ok: bool)
      requires |ns| <= |ids| && committed == db.State()
      modifies this`newNodeIds, db
      ensures Keeps(committed, db.State())
      ensures var r := AddNodes(old(Progress()), ns, agent, ids);
              ok == r.Some? && (ok ==> Progress() == r.value)
    {
      ghost var start := Progress();
      for i := 0 to |ns|
        invariant AddNodes(start, ns[..i], agent, ids) == Some(Progress())
        invariant Keeps(committed, db.State())
      {
        assert ns[..i + 1][..i] == ns[..i];
        var n := ns[i];
        newNodeIds := newNodeIds[n.id := ids[i]];
        if n.branch in newBranchIds {
          ok := db.InsertNode(ids[i], Node(newBranchIds[n.branch], agent.GetOr(n.agent), n.description, Committed));
          if !ok {
            NodeRefusalStays(start, ns, agent, ids, i + 1);
            db.Rollback(committed);
            return;
          }
        }
      }
      assert ns[..|ns|] == ns;
      ok := true;
    }

    /** All edges are committed together. */
    method ImportEdges(es: seq<Edge>, ids: seq<Id>, committed: Db) returns (ok: bool)
      requires |es| <= |ids| && committed == db.State()
      modifies db
      ensures Keeps(committed, db.State())
      ensures var r := AddEdges(old(Progress()), es, ids);
              ok == r.Some? && (ok ==> Progress() == r.value)
    {
      ghost var start := Progress();
      for i := 0 to |es|
        invariant AddEdges(start, es[..i], ids) == Some(Progress())
        invariant Keeps(committed, db.State())
      {
        assert es[..i + 1][..i] == es[..i];
        var e := es[i];
        if e.up in newNodeIds && e.down in newNodeIds {
          ok := KnownKind(e.kind);
          if ok {
            ok := db.InsertEdge(ids[i], Edge(newNodeIds[e.up], newNodeIds[e.down], e.kind));
          }
          if !ok {
            EdgeRefusalStays(start, es, ids, i + 1);
            db.Rollback(committed);
            return;
          }
        }
      }
      assert es[..|es|] == es;
      ok := true;
    }
  }
}
