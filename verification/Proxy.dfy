/** A proxy executing one token from start to end: claim, run the adapter, then
    commit what it did or record what went wrong. */
module Proxy {
  import opened Wrappers
  import opened Stages
  import opened Tokens
  import opened Transactions
  import opened Protocol
  import opened ProtocolInvariant
  import opened LedgerTheorems
  import opened FlagTheorems
  import opened CallTheorems
  import opened DecisionTheorems
  import opened Database
  import opened Engines
  import G = Graph
  import L = Ledger

  /** What the world decides while a proxy executes. */
  datatype Chance = Chance(
    outcome: Outcome,
    summary: string,
    node: Id,
    edge: Id,
    aborted: bool,
    reason: string,
    stamp: Stamp,
    lostStamp: Stamp)

  /** The steps of a proxy after its claim, in their order; those that do not
      apply to what happened change nothing. */
  function OwnMoves(p: Id, x: Chance): seq<Step> {
    [Go(p, RunAdapter(x.outcome, x.summary))] + ([Go(p, RecordRun(x.stamp))] + ([Go(p, ReadHead)] + ToFinish(p, x)))
  }

  function ToFinish(p: Id, x: Chance): seq<Step> {
    [Go(p, CommitRun(x.node, x.edge, x.stamp, x.aborted))] + ([Go(p, RecordLost(x.reason, x.lostStamp))] + [])
  }

  function OwnSteps(p: Id, presented: Presented, x: Chance): seq<Step> {
    [Execute(p, presented)] + OwnMoves(p, x)
  }

  function Alone(p: Id, proc: Option<Proc>): map<Id, Proc> {
    if proc.None? then map[] else map[p := proc.value]
  }

  /** A step of the only activity there is. */
  lemma GoAlone(c: Config, db: Db, runs: seq<Id>, p: Id, proc: Proc, move: Move, after: Db, done: bool, rest: seq<Step>)
    requires after == Perform(c, db, MoveTx(c, db, proc, move)) && done == Commits(c, db, MoveTx(c, db, proc, move))
    requires !move.RunAdapter?
    ensures Run(c, World(db, Alone(p, Some(proc)), runs), [Go(p, move)] + rest)
         == Run(c, World(after, Alone(p, Next(db, proc, move, done)), runs), rest)
  {
    var w := World(db, Alone(p, Some(proc)), runs);
    var next := Next(db, proc, move, done);
    assert w.procs[p] == proc && w.runs + [] == w.runs;
    assert Put(w.procs, p, next) == Alone(p, next);
    RunFromFront(c, w, Go(p, move), rest, World(after, Alone(p, next), runs));
  }

  lemma GoIdle(c: Config, db: Db, runs: seq<Id>, p: Id, move: Move, rest: seq<Step>)
    ensures Run(c, World(db, Alone(p, None), runs), [Go(p, move)] + rest) == Run(c, World(db, Alone(p, None), runs), rest)
  {
    var w := World(db, Alone(p, None), runs);
    assert runs + [] == runs;
    RunFromFront(c, w, Go(p, move), rest, w);
  }

  lemma GoRunAlone(c: Config, db: Db, p: Id, token: Token, x: Chance, rest: seq<Step>)
    ensures Run(c, World(db, Alone(p, Some(Claimed(token))), []), [Go(p, RunAdapter(x.outcome, x.summary))] + rest)
         == Run(c, World(db, Alone(p, Some(Ran(token, x.outcome, x.summary))), [token.transition]), rest)
  {
    var w := World(db, Alone(p, Some(Claimed(token))), []);
    var ran := Some(Ran(token, x.outcome, x.summary));
    assert w.procs[p] == Claimed(token) && Put(w.procs, p, ran) == Alone(p, ran);
    RunFromFront(c, w, Go(p, RunAdapter(x.outcome, x.summary)), rest, World(db, Alone(p, ran), [token.transition]));
  }

  lemma ExecuteAlone(c: Config, db: Db, p: Id, presented: Presented, after: Db, claimed: Option<Token>, rest: seq<Step>)
    requires after == Perform(c, db, ClaimTx(c, db, presented))
    requires claimed == if Commits(c, db, ClaimTx(c, db, presented)) then VerifyToken(c.codec, presented.text, presented.now)
                        else None
    ensures Run(c, World(db, map[], []), [Execute(p, presented)] + rest)
         == Run(c, World(after, Alone(p, if claimed.Some? then Some(Claimed(claimed.value)) else None), []), rest)
  {
    var next := World(after, Alone(p, if claimed.Some? then Some(Claimed(claimed.value)) else None), []);
    RunFromFront(c, World(db, map[], []), Execute(p, presented), rest, next);
  }

  lemma NothingAfterRefusal(c: Config, db: Db, p: Id, x: Chance)
    ensures Run(c, World(db, Alone(p, None), []), OwnMoves(p, x)) == World(db, map[], [])
  {
    var rest1 := ToFinish(p, x);
    var rest2 := [Go(p, ReadHead)] + rest1;
    GoIdle(c, db, [], p, RunAdapter(x.outcome, x.summary), [Go(p, RecordRun(x.stamp))] + rest2);
    GoIdle(c, db, [], p, RecordRun(x.stamp), rest2);
    GoIdle(c, db, [], p, ReadHead, rest1);
    NothingToFinish(c, db, [], p, x);
  }

  lemma NothingToFinish(c: Config, db: Db, runs: seq<Id>, p: Id, x: Chance)
    ensures Run(c, World(db, Alone(p, None), runs), ToFinish(p, x)) == World(db, map[], runs)
  {
    var last := Go(p, RecordLost(x.reason, x.lostStamp));
    GoIdle(c, db, runs, p, CommitRun(x.node, x.edge, x.stamp, x.aborted), [last] + []);
    GoIdle(c, db, runs, p, RecordLost(x.reason, x.lostStamp), []);
  }

  lemma RecordAfterFailure(c: Config, db: Db, p: Id, x: Chance, token: Token, after: Db)
    requires !x.outcome.Worked?
    requires after == Perform(c, db, OutcomeTx(db, token.transition, x.outcome.Broke?, x.summary, x.stamp))
    ensures Run(c, World(db, Alone(p, Some(Claimed(token))), []), OwnMoves(p, x)) == World(after, map[], [token.transition])
  {
    var runs := [token.transition];
    var ran := Ran(token, x.outcome, x.summary);
    var rest := [Go(p, ReadHead)] + ToFinish(p, x);
    GoRunAlone(c, db, p, token, x, [Go(p, RecordRun(x.stamp))] + rest);
    var done := Commits(c, db, MoveTx(c, db, ran, RecordRun(x.stamp)));
    GoAlone(c, db, runs, p, ran, RecordRun(x.stamp), after, done, rest);
    GoIdle(c, after, runs, p, ReadHead, ToFinish(p, x));
    NothingToFinish(c, after, runs, p, x);
  }

  /** What a proxy commits: built on the transition's own expectations, or else
      on the head as it is now. */
  function ToCommit(db: Db, t: Id, summary: string): Commit
    requires t in db.ledger.transitions
  {
    CommitFor(db, t, db.ledger.transitions[t], summary, Overrides(None, None, None))
  }

  lemma SuccessUpToHead(c: Config, db: Db, p: Id, x: Chance, token: Token, next: Proc)
    requires x.outcome.Worked?
    requires next == if token.transition in db.ledger.transitions then Ready(ToCommit(db, token.transition, x.summary))
                     else CommitLost(token.transition)
    ensures Run(c, World(db, Alone(p, Some(Claimed(token))), []), OwnMoves(p, x))
         == Run(c, World(db, Alone(p, Some(next)), [token.transition]), ToFinish(p, x))
  {
    var runs := [token.transition];
    var ran := Ran(token, x.outcome, x.summary);
    var rest := [Go(p, ReadHead)] + ToFinish(p, x);
    GoRunAlone(c, db, p, token, x, [Go(p, RecordRun(x.stamp))] + rest);
    GoAlone(c, db, runs, p, ran, RecordRun(x.stamp), db, false, rest);
    GoAlone(c, db, runs, p, ran, ReadHead, db, false, ToFinish(p, x));
  }

  lemma CommittedThenDone(c: Config, db: Db, runs: seq<Id>, p: Id, x: Chance, k: Commit, after: Db)
    requires !x.aborted && Commits(c, db, CommitTx(c, db, k, x.node, x.edge, x.stamp))
    requires after == Perform(c, db, CommitTx(c, db, k, x.node, x.edge, x.stamp))
    ensures Run(c, World(db, Alone(p, Some(Ready(k))), runs), ToFinish(p, x)) == World(after, map[], runs)
  {
    var last := Go(p, RecordLost(x.reason, x.lostStamp));
    GoAlone(c, db, runs, p, Ready(k), CommitRun(x.node, x.edge, x.stamp, x.aborted), after, true, [last] + []);
    GoIdle(c, after, runs, p, RecordLost(x.reason, x.lostStamp), []);
  }

  lemma LostThenRecorded(c: Config, db: Db, runs: seq<Id>, p: Id, x: Chance, start: Proc, t: Id, after: Db)
    requires start == CommitLost(t)
          || (start.Ready? && start.commit.t == t
              && (x.aborted || !Commits(c, db, CommitTx(c, db, start.commit, x.node, x.edge, x.stamp))))
    requires after == Perform(c, db, OutcomeTx(db, t, false, x.reason, x.lostStamp))
    ensures Run(c, World(db, Alone(p, Some(start)), runs), ToFinish(p, x)) == World(after, map[], runs)
  {
    var lost := CommitLost(t);
    var last := RecordLost(x.reason, x.lostStamp);
    GoAlone(c, db, runs, p, start, CommitRun(x.node, x.edge, x.stamp, x.aborted), db, false, [Go(p, last)] + []);
    GoAlone(c, db, runs, p, lost, last, after, Commits(c, db, MoveTx(c, db, lost, last)), []);
  }

  // ------------------------------------------------------------ how it ends

  /** Where the execution of a claimed transition ends: succeeded, with its node as
      the new head, exactly if the adapter worked and nothing stood in the way of
      the commit; failed if the adapter failed; and otherwise uncertain and
      flagged, with the graph as it was. */
  ghost predicate Settles(before: Db, after: Db, t: Id, x: Chance)
    requires t in before.ledger.transitions && before.ledger.transitions[t].branch in before.graph.branches
  {
    if x.outcome.Worked? && !x.aborted && Clear(before, before.ledger.transitions[t], NOTHING_STATED, x.node, x.edge) then
      Realised(before, after, t, x.node, x.summary) && !Flagged(after.ledger, t)
    else
      && after.graph == before.graph
      && StageOf(after.ledger, t) == Some(if x.outcome.Broke? then Failed else Uncertain)
      && (Flagged(after.ledger, t) <==> !x.outcome.Broke?)
  }

  lemma OutcomeRecords(c: Config, db: Db, t: Id, failed: bool, summary: string, s: Stamp)
    requires Recordable(db, t) && db.ledger.transitions[t].stage == Executing
    ensures var after := Perform(c, db, OutcomeTx(db, t, failed, summary, s));
            && after.graph == db.graph && StageOf(after.ledger, t) == Some(if failed then Failed else Uncertain)
            && (!failed ==> Flagged(after.ledger, t))
            && (failed ==> (Flagged(after.ledger, t) <==> Flagged(db.ledger, t)))
  {
  }

  lemma ClaimParts(c: Config, db: Db, presented: Presented)
    requires Commits(c, db, ClaimTx(c, db, presented))
    ensures VerifyToken(c.codec, presented.text, presented.now).Some?
    ensures var token := VerifyToken(c.codec, presented.text, presented.now).value;
            var after := Perform(c, db, ClaimTx(c, db, presented));
            && after.graph == db.graph && after.audit == db.audit
            && L.Claim(db.ledger, token.authorization) == Some(after.ledger)
  {
  }

  lemma ClaimStarts(c: Config, db: Db, presented: Presented)
    requires Proper(c) && DbSound(c, db) && Commits(c, db, ClaimTx(c, db, presented))
    ensures VerifyToken(c.codec, presented.text, presented.now).Some?
    ensures var t := VerifyToken(c.codec, presented.text, presented.now).value.transition;
            var after := Perform(c, db, ClaimTx(c, db, presented));
            && t in db.ledger.transitions && db.ledger.transitions[t].branch in db.graph.branches
            && after.graph == db.graph && after.audit == db.audit && t in after.ledger.transitions
            && after.ledger.transitions[t] == db.ledger.transitions[t].(stage := Executing)
            && !after.ledger.transitions[t].needsReview
  {
    ClaimParts(c, db, presented);
    var token := VerifyToken(c.codec, presented.text, presented.now).value;
    ClaimIsOfTheIssuedToken(c, db, presented, token);
    assert OutcomeFits(db.ledger.transitions[token.transition]);
  }

  lemma EndsInFailure(c: Config, db: Db, p: Id, x: Chance, token: Token)
    requires !x.outcome.Worked? && Recordable(db, token.transition)
    requires db.ledger.transitions[token.transition].stage == Executing && !Flagged(db.ledger, token.transition)
    ensures var after := Run(c, World(db, Alone(p, Some(Claimed(token))), []), OwnMoves(p, x));
            Settles(db, after.db, token.transition, x) && after.runs == [token.transition]
  {
    var after := Perform(c, db, OutcomeTx(db, token.transition, x.outcome.Broke?, x.summary, x.stamp));
    RecordAfterFailure(c, db, p, x, token, after);
    OutcomeRecords(c, db, token.transition, x.outcome.Broke?, x.summary, x.stamp);
  }

  lemma EndsInCommit(c: Config, db: Db, p: Id, x: Chance, token: Token)
    requires x.outcome.Worked? && G.Sound(db.graph) && Recordable(db, token.transition)
    requires db.ledger.transitions[token.transition].stage == Executing && !Flagged(db.ledger, token.transition)
    ensures var after := Run(c, World(db, Alone(p, Some(Claimed(token))), []), OwnMoves(p, x));
            Settles(db, after.db, token.transition, x) && after.runs == [token.transition]
  {
    var t := token.transition;
    var row := db.ledger.transitions[t];
    var k := ReadHeadBuildsOn(db, token, x.summary, false);
    assert k == ToCommit(db, t, x.summary);
    SuccessUpToHead(c, db, p, x, token, Ready(k));
    BuiltCommitGoesThroughExactlyWhen(c, db, t, row, NOTHING_STATED, x.summary, k, x.node, x.edge, x.stamp);
    if !x.aborted && Clear(db, row, NOTHING_STATED, x.node, x.edge) {
      CommittedThenDone(c, db, [t], p, x, k, Perform(c, db, CommitTx(c, db, k, x.node, x.edge, x.stamp)));
      CommitRealises(c, db, t, NOTHING_STATED, x.summary, k, x.node, x.edge, x.stamp);
    } else {
      LostThenRecorded(c, db, [t], p, x, Ready(k), t, Perform(c, db, OutcomeTx(db, t, false, x.reason, x.lostStamp)));
      OutcomeRecords(c, db, t, false, x.reason, x.lostStamp);
    }
  }

  /** A refused token changes nothing and runs nothing. A proxy that claims one and
      is left alone settles its transition. */
  ghost predicate Ends(c: Config, before: Db, presented: Presented, x: Chance, after: Db, runs: seq<Id>) {
    if !Commits(c, before, ClaimTx(c, before, presented)) then after == before && runs == []
    else
      Proper(c) && DbSound(c, before) ==>
        && VerifyToken(c.codec, presented.text, presented.now).Some?
        && var t := VerifyToken(c.codec, presented.text, presented.now).value.transition;
           && t in before.ledger.transitions && before.ledger.transitions[t].branch in before.graph.branches
           && runs == [t] && (Recordable(before, t) ==> Settles(before, after, t, x))
  }

  lemma SettlesFromClaim(before: Db, claimed: Db, after: Db, t: Id, x: Chance)
    requires Recordable(before, t) && Recordable(claimed, t) && Settles(claimed, after, t, x)
    requires claimed.graph == before.graph && claimed.audit == before.audit
    requires claimed.ledger.transitions[t] == before.ledger.transitions[t].(stage := Executing)
    ensures Settles(before, after, t, x)
  {
  }

  lemma AloneRuns(c: Config, before: Db, p: Id, presented: Presented, x: Chance)
    requires Commits(c, before, ClaimTx(c, before, presented))
    requires VerifyToken(c.codec, presented.text, presented.now).Some?
    ensures var token := VerifyToken(c.codec, presented.text, presented.now).value;
            var claimed := Perform(c, before, ClaimTx(c, before, presented));
            && Run(c, World(before, map[], []), OwnSteps(p, presented, x))
               == Run(c, World(claimed, Alone(p, Some(Claimed(token))), []), OwnMoves(p, x))
            && (token.transition in claimed.ledger.transitions ==>
                  Run(c, World(before, map[], []), OwnSteps(p, presented, x)).runs == [token.transition])
  {
    var token := VerifyToken(c.codec, presented.text, presented.now).value;
    var db := Perform(c, before, ClaimTx(c, before, presented));
    ExecuteAlone(c, before, p, presented, db, Some(token), OwnMoves(p, x));
    if token.transition in db.ledger.transitions {
      RunsOnce(c, db, p, x, token);
    }
  }

  lemma RunsOnce(c: Config, db: Db, p: Id, x: Chance, token: Token)
    requires token.transition in db.ledger.transitions
    ensures Run(c, World(db, Alone(p, Some(Claimed(token))), []), OwnMoves(p, x)).runs == [token.transition]
  {
    var t := token.transition;
    if !x.outcome.Worked? {
      RecordAfterFailure(c, db, p, x, token, Perform(c, db, OutcomeTx(db, t, x.outcome.Broke?, x.summary, x.stamp)));
    } else {
      var k := ToCommit(db, t, x.summary);
      SuccessUpToHead(c, db, p, x, token, Ready(k));
      if !x.aborted && Commits(c, db, CommitTx(c, db, k, x.node, x.edge, x.stamp)) {
        CommittedThenDone(c, db, [t], p, x, k, Perform(c, db, CommitTx(c, db, k, x.node, x.edge, x.stamp)));
      } else {
        LostThenRecorded(c, db, [t], p, x, Ready(k), t, Perform(c, db, OutcomeTx(db, t, false, x.reason, x.lostStamp)));
      }
    }
  }

  lemma LeftAloneItEnds(c: Config, before: Db, p: Id, presented: Presented, x: Chance, after: World)
    requires after == Run(c, World(before, map[], []), OwnSteps(p, presented, x))
    ensures Ends(c, before, presented, x, after.db, after.runs)
  {
    var db := Perform(c, before, ClaimTx(c, before, presented));
    if !Commits(c, before, ClaimTx(c, before, presented)) {
      ExecuteAlone(c, before, p, presented, db, None, OwnMoves(p, x));
      NothingAfterRefusal(c, before, p, x);
    } else if Proper(c) && DbSound(c, before) {
      ClaimStarts(c, before, presented);
      var token := VerifyToken(c.codec, presented.text, presented.now).value;
      AloneRuns(c, before, p, presented, x);
      if Recordable(before, token.transition) {
        if x.outcome.Worked? {
          EndsInCommit(c, db, p, x, token);
        } else {
          EndsInFailure(c, db, p, x, token);
        }
        SettlesFromClaim(before, db, after.db, token.transition, x);
      }
    }
  }

  class GovernedProxy {
    const db: Database
    const transitions: TransitionEngine
    const authorizations: AuthorizationEngine
    const committer: BranchCommitter

    ghost predicate Wired() {
      transitions.db == db && authorizations.db == db && committer.db == db
    }

    constructor (db: Database)
      ensures Wired() && this.db == db
    {
      this.db := db;
      transitions := new TransitionEngine(db);
      authorizations := new AuthorizationEngine(db);
      committer := new BranchCommitter(db);
    }

    /** Execute a presented token. The adapter runs exactly when the claim went
        through. Left alone, a proxy does what its steps in the protocol do. */
    method Execute(c: Config, p: Id, presented: Presented, x: Chance) returns (ran: seq<Id>)
      requires Wired()
      modifies db
      ensures World(db.State(), map[], ran) == Run(c, World(old(db.State()), map[], []), OwnSteps(p, presented, x))
      ensures Ends(c, old(db.State()), presented, x, db.State(), ran)
    {
      ghost var before := db.State();
      LeftAloneItEnds(c, before, p, presented, x, Run(c, World(before, map[], []), OwnSteps(p, presented, x)));
      var claimed := authorizations.VerifyAndClaim(c, presented);
      ExecuteAlone(c, before, p, presented, db.State(), claimed, OwnMoves(p, x));
      if claimed.None? {
        NothingAfterRefusal(c, db.State(), p, x);
        return [];
      }
      ran := [claimed.value.transition];
      Finish(c, p, claimed.value, x);
    }

    /** After the adapter has run: commit, or record what went wrong. */
    method Finish(c: Config, ghost p: Id, token: Token, x: Chance)
      requires Wired()
      modifies db
      ensures World(db.State(), map[], [token.transition])
           == Run(c, World(old(db.State()), Alone(p, Some(Claimed(token))), []), OwnMoves(p, x))
    {
      var t := token.transition;
      ghost var before := db.State();
      if !x.outcome.Worked? {
        var _ := transitions.RecordResult(c, t, x.outcome.Broke?, x.summary, x.stamp);
        RecordAfterFailure(c, before, p, x, token, db.State());
        return;
      }
      var done := false;
      ghost var next := CommitLost(t);
      if t in db.transitions {
        var k := ToCommit(db.State(), t, x.summary);
        next := Ready(k);
        if !x.aborted {
          done := committer.Commit(c, k, x.node, x.edge, x.stamp);
        }
      }
      SuccessUpToHead(c, before, p, x, token, next);
      if done {
        CommittedThenDone(c, before, [t], p, x, next.commit, db.State());
      } else {
        var _ := transitions.RecordResult(c, t, false, x.reason, x.lostStamp);
        LostThenRecorded(c, before, [t], p, x, next, t, db.State());
      }
    }
  }
}
