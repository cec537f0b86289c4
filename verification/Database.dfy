/** The database as the program uses it: tables that are updated in place by
    guarded statements, and transactions that are committed or rolled back. */
module Database {
  import opened Wrappers
  import opened JsonText
  import opened Audit
  import Canonical
  import opened Stages
  import opened Tokens
  import opened Transactions
  import G = Graph
  import L = Ledger

  class Database {
    var lattices: map<Id, Id>
    var branches: map<Id, G.Branch>
    var nodes: map<Id, G.Node>
    var nodeOrder: seq<Id>
    var edges: map<Id, G.Edge>
    var transitions: map<Id, L.Transition>
    var transitionOrder: seq<Id>
    var requests: seq<L.Request>
    var authorizations: map<Id, L.Authorization>
    var auditHeads: map<Id, Head>
    var auditEvents: map<Id, seq<EventRow>>

    function GraphTables(): G.Graph
      reads this
    {
      G.Graph(lattices, branches, nodes, nodeOrder, edges)
    }

    function LedgerTables(): L.Ledger
      reads this
    {
      L.Ledger(transitions, transitionOrder, requests, authorizations)
    }

    function AuditTables(): AuditLog
      reads this
    {
      AuditLog(auditHeads, auditEvents)
    }

    /** The contents of all tables. */
    function State(): Db
      reads this
    {
      Db(GraphTables(), LedgerTables(), AuditTables())
    }

    constructor ()
      ensures State() == FRESH
    {
      lattices, branches, nodes, nodeOrder, edges := map[], map[], map[], [], map[];
      transitions, transitionOrder, requests, authorizations := map[], [], [], map[];
      auditHeads, auditEvents := map[], map[];
    }

    /** Undo everything since the snapshot. */
    method Rollback(snapshot: Db)
      modifies this
      ensures State() == snapshot
    {
      RestoreGraph(snapshot.graph);
      RestoreLedger(snapshot.ledger);
      auditHeads, auditEvents := snapshot.audit.heads, snapshot.audit.events;
    }

    method RestoreGraph(g: G.Graph)
      modifies this`lattices, this`branches, this`nodes, this`nodeOrder, this`edges
      ensures GraphTables() == g
    {
      lattices, branches, nodes, nodeOrder, edges := g.lattices, g.branches, g.nodes, g.order, g.edges;
    }

    method RestoreLedger(l: L.Ledger)
      modifies this`transitions, this`transitionOrder, this`requests, this`authorizations
      ensures LedgerTables() == l
    {
      transitions, transitionOrder, requests, authorizations := l.transitions, l.order, l.requests, l.authorizations;
    }

    // ---------------------------------------------------------- graph statements

    method InsertLattice(lattice: Id, project: Id) returns (ok: bool)
      modifies this
      ensures ok == (lattice !in old(lattices) && project !in old(lattices).Values)
      ensures State() == if ok then old(State()).(graph := old(GraphTables()).(lattices := old(lattices)[lattice := project]))
                         else old(State())
    {
      ok := lattice !in lattices && project !in lattices.Values;
      if ok {
        lattices := lattices[lattice := project];
      }
    }

    method InsertBranch(branch: Id, lattice: Id, head: Option<Id>) returns (ok: bool)
      modifies this
      ensures ok == (branch !in old(branches) && lattice in old(lattices))
      ensures State() == if ok
                         then old(State()).(graph := old(GraphTables()).(
                                branches := old(branches)[branch := G.Branch(lattice, head, 1)]))
                         else old(State())
    {
      ok := branch !in branches && lattice in lattices;
      if ok {
        branches := branches[branch := G.Branch(lattice, head, 1)];
      }
    }

    method GetHead(branch: Id) returns (head: Option<Id>, version: int)
      ensures (head, version) == if branch in branches then (branches[branch].head, branches[branch].version) else (None, 0)
    {
      if branch in branches {
        return branches[branch].head, branches[branch].version;
      }
      return None, 0;
    }

    /** Move the head, provided the version is the expected one. */
    method UpdateHead(branch: Id, node: Id, expectedVersion: int) returns (ok: bool)
      modifies this
      ensures ok == (branch in old(branches) && old(branches)[branch].version == expectedVersion)
      ensures State() == if ok
                         then old(State()).(graph := old(GraphTables()).(branches := old(branches)[branch :=
                                old(branches)[branch].(head := Some(node), version := expectedVersion + 1)]))
                         else old(State())
    {
      ok := branch in branches && branches[branch].version == expectedVersion;
      if ok {
        branches := branches[branch := branches[branch].(head := Some(node), version := branches[branch].version + 1)];
      }
    }

    method InsertNode(id: Id, node: G.Node) returns (ok: bool)
      modifies this
      ensures ok == (id !in old(nodes) && node.branch in old(branches))
      ensures State() == if ok
                         then old(State()).(graph := old(GraphTables()).(
                                nodes := old(nodes)[id := node], order := old(nodeOrder) + [id]))
                         else old(State())
    {
      ok := id !in nodes && node.branch in branches;
      if ok {
        nodes, nodeOrder := nodes[id := node], nodeOrder + [id];
      }
    }

    method InsertEdge(id: Id, edge: G.Edge) returns (ok: bool)
      modifies this
      ensures ok == (id !in old(edges) && edge.up in old(nodes) && edge.down in old(nodes) && edge.up != edge.down)
      ensures State() == if ok then old(State()).(graph := old(GraphTables()).(edges := old(edges)[id := edge]))
                         else old(State())
    {
      ok := id !in edges && edge.up in nodes && edge.down in nodes && edge.up != edge.down;
      if ok {
        edges := edges[id := edge];
      }
    }

    /** Only a committed node changes. */
    method MarkSuperseded(id: Id)
      modifies this
      ensures State() == old(State()).(graph := old(GraphTables()).(nodes := G.Supersede(old(nodes), Some(id))))
    {
      if id in nodes && nodes[id].status.Committed? {
        nodes := nodes[id := nodes[id].(status := G.Superseded)];
      }
    }

    // ---------------------------------------------------------- ledger statements

    function WithTransition(t: Id, row: L.Transition): Db
      reads this
    {
      State().(ledger := LedgerTables().(transitions := transitions[t := row]))
    }

    method FindByKey(key: string) returns (found: Option<Id>)
      ensures found == L.Existing(LedgerTables(), transitionOrder, key)
    {
      var n := |transitionOrder|;
      assert transitionOrder[..n] == transitionOrder;
      while n > 0
        invariant 0 <= n <= |transitionOrder|
        invariant L.Existing(LedgerTables(), transitionOrder, key) == L.Existing(LedgerTables(), transitionOrder[..n], key)
      {
        var id := transitionOrder[n - 1];
        assert transitionOrder[..n][..n - 1] == transitionOrder[..n - 1];
        if id in transitions && transitions[id].key == key {
          return Some(id);
        }
        n := n - 1;
      }
      return None;
    }

    method InsertTransition(id: Id, row: L.Transition, keyIndex: bool) returns (ok: bool)
      modifies this
      ensures ok == (id !in old(transitions) && row.branch in old(branches)
                     && !(keyIndex && L.Existing(old(LedgerTables()), old(transitionOrder), row.key).Some?))
      ensures State() == if ok
                         then old(State()).(ledger := old(LedgerTables()).(
                                transitions := old(transitions)[id := row], order := old(transitionOrder) + [id]))
                         else old(State())
    {
      var found := FindByKey(row.key);
      ok := id !in transitions && row.branch in branches && !(keyIndex && found.Some?);
      if ok {
        transitions, transitionOrder := transitions[id := row], transitionOrder + [id];
      }
    }

    /** Change the stage, provided it is the expected one where one is given. */
    method UpdateStage(t: Id, stage: Stage, expected: Option<Stage>) returns (ok: bool)
      modifies this
      ensures ok == (t in old(transitions) && (expected.Some? ==> old(transitions)[t].stage == expected.value))
      ensures State() == if ok then old(WithTransition(t, transitions[t].(stage := stage))) else old(State())
    {
      ok := t in transitions && (expected.Some? ==> transitions[t].stage == expected.value);
      if ok {
        transitions := transitions[t := transitions[t].(stage := stage)];
      }
    }

    /** Change the stage if the stage machine has that change. */
    method AdvanceStage(t: Id, to: Stage) returns (ok: bool)
      modifies this
      ensures ok == (t in old(transitions) && Legal(old(transitions)[t].stage, to))
      ensures State() == if ok then old(WithTransition(t, transitions[t].(stage := to))) else old(State())
    {
      if t !in transitions || !Legal(transitions[t].stage, to) {
        return false;
      }
      ok := UpdateStage(t, to, None);
    }

    method UpdateResult(t: Id, exitStatus: L.ExitStatus, summary: string, toNode: Option<Id>)
      modifies this
      ensures State() == if t in old(transitions)
                         then old(WithTransition(t, transitions[t].(
                                exitStatus := Some(exitStatus), summary := Some(summary), toNode := toNode)))
                         else old(State())
    {
      if t in transitions {
        transitions := transitions[t :=
          transitions[t].(exitStatus := Some(exitStatus), summary := Some(summary), toNode := toNode)];
      }
    }

    method SetReview(t: Id, flag: bool)
      modifies this
      ensures State() == old(State()).(ledger := L.SetReview(old(LedgerTables()), t, flag))
    {
      if t in transitions {
        transitions := transitions[t := transitions[t].(needsReview := flag)];
      }
    }

    method CreateRequest(r: L.Request)
      modifies this
      ensures State() == old(State()).(ledger := old(LedgerTables()).(requests := old(requests) + [r]))
    {
      requests := requests + [r];
    }

    /** The newest pending request of a transition. */
    method FindPending(t: Id) returns (found: Option<nat>)
      ensures found == L.PendingRequest(requests, t)
    {
      var n := |requests|;
      assert requests[..n] == requests;
      while n > 0
        invariant 0 <= n <= |requests|
        invariant L.PendingRequest(requests, t) == L.PendingRequest(requests[..n], t)
      {
        assert requests[..n][..n - 1] == requests[..n - 1];
        if requests[n - 1].transition == t && requests[n - 1].status.Pending? {
          return Some(n - 1);
        }
        n := n - 1;
      }
      return None;
    }

    /** Decide a request, provided it is still pending. */
    method DecideRequest(i: nat, decider: Id, status: L.RequestStatus) returns (ok: bool)
      modifies this
      ensures ok == (i < |old(requests)| && old(requests)[i].status.Pending?)
      ensures State() == if ok
                         then old(State()).(ledger := old(LedgerTables()).(
                                requests := L.DecideRequest(old(requests), i, decider, status)))
                         else old(State())
    {
      ok := i < |requests| && requests[i].status.Pending?;
      if ok {
        requests := requests[i := requests[i].(status := status, decidedBy := Some(decider))];
      }
    }

    method InsertAuthorization(id: Id, row: L.Authorization) returns (ok: bool)
      modifies this
      ensures ok == (id !in old(authorizations)
                     && row.token.transition in old(transitions) && row.token.branch in old(branches))
      ensures State() == if ok
                         then old(State()).(ledger := old(LedgerTables()).(authorizations := old(authorizations)[id := row]))
                         else old(State())
    {
      ok := id !in authorizations && row.token.transition in transitions && row.token.branch in branches;
      if ok {
        authorizations := authorizations[id := row];
      }
    }

    /** Spend an authorization: unused, not expired, and with the given hash. */
    method ClaimAuthorization(id: Id, tokenHash: string, now: string) returns (claimed: Option<Id>)
      modifies this
      ensures claimed == if Claimable(old(authorizations), id, tokenHash, now)
                         then Some(old(authorizations)[id].token.transition) else None
      ensures State() == if claimed.Some?
                         then old(State()).(ledger := old(LedgerTables()).(authorizations :=
                                old(authorizations)[id := old(authorizations)[id].(used := true)]))
                         else old(State())
    {
      if !Claimable(authorizations, id, tokenHash, now) {
        return None;
      }
      authorizations := authorizations[id := authorizations[id].(used := true)];
      return Some(authorizations[id].token.transition);
    }

    // ---------------------------------------------------------- audit statements

    method OpenLog(lattice: Id)
      modifies this
      ensures State() == old(State()).(audit := Transactions.OpenLog(old(AuditTables()), lattice))
    {
      if lattice !in auditHeads {
        auditHeads, auditEvents := auditHeads[lattice := Head(0, Canonical.GENESIS)], auditEvents[lattice := []];
      }
    }

    /** Append an event inside the caller's transaction. */
    method WriteEvent(c: Config, w: Write) returns (ok: bool)
      modifies this
      ensures ok == Transactions.WriteEvent(c, old(AuditTables()), w).Some?
      ensures State() == if ok then old(State()).(audit := Transactions.WriteEvent(c, old(AuditTables()), w).value)
                         else old(State())
    {
      if w.lattice !in auditHeads {
        return false;
      }
      var head := auditHeads[w.lattice];
      var row := NewRow(c.hash, c.writer, w.lattice, head, w.draft);
      auditEvents := auditEvents[w.lattice := (if w.lattice in auditEvents then auditEvents[w.lattice] else []) + [row]];
      auditHeads := auditHeads[w.lattice := Head(row.sequence, row.eventHash)];
      return true;
    }
  }

  predicate Claimable(authorizations: map<Id, L.Authorization>, id: Id, tokenHash: string, now: string) {
    && id in authorizations && !authorizations[id].used
    && authorizations[id].tokenHash == tokenHash && Less(now, authorizations[id].token.expiresAt)
  }
}
