/** The invariant of the whole system, kept by every step and so by every run. */
module SystemLaws {
  import opened Prelude
  import opened Sums
  import opened Tables
  import opened Policy
  import opened FinanceOps
  import opened LedgerLaws
  import opened FinanceLaws
  import opened ApprovalOps
  import opened ApprovalLaws
  import opened CollectionOps
  import opened CollectionLaws
  import opened System

  ghost predicate Sound(db: Db) {
    && FinanceSound(db)
    && ApprovalsSound(db.approvals, db.txns)
    && SessionsSound(db.collections)
    && RoutesExclusive(db.collections)
    && SourcesSound(db.txns, db.collections)
  }

  ghost predicate Evolves(db: Db, db': Db) {
    && FinanceEvolves(db, db')
    && ApprovalsEvolve(db.approvals, db'.approvals)
    && SessionsEvolve(db.collections, db'.collections)
    && db'.platform == db.platform
  }

  lemma EvolvesTransitive(a: Db, b: Db, c: Db)
    requires Evolves(a, b) && Evolves(b, c)
    ensures Evolves(a, c)
  {
    FinanceEvolvesTransitive(a, b, c);
    ApprovalsEvolveTransitive(a.approvals, b.approvals, c.approvals);
    SessionsEvolveTransitive(a.collections, b.collections, c.collections);
  }

  lemma SessionsEvolveTransitive(a: map<Id, Collection>, b: map<Id, Collection>, c: map<Id, Collection>)
    requires SessionsEvolve(a, b) && SessionsEvolve(b, c)
    ensures SessionsEvolve(a, c)
  {
  }

  lemma EvolvesReflexive(db: Db)
    ensures Evolves(db, db)
  {
  }

  /** A write leaves the tables of the other modules alone. */
  ghost predicate OtherTablesSame(db: Db, after: Db) {
    && after.approvals == db.approvals && after.settings == db.settings
    && after.collections == db.collections && after.master == db.master && after.platform == db.platform
  }

  lemma BookedFrame(db: Db, rt: Id, from: Choice, under: Choice, t: Id, x: Txn, key: Option<string>)
    requires x.what.account in WithAccount(db, rt, from).accounts
    ensures OtherTablesSame(db, Booked(WithCategory(WithAccount(db, rt, from), rt, under), t, x, key))
  {
  }

  lemma AppliedFrame(db: Db, w: Write)
    requires Allowed(db, w)
    ensures OtherTablesSame(db, Applied(db, w))
  {
    match w
    case Book(rt, from, under, t, x, key) => BookedFrame(db, rt, from, under, t, x, key);
    case _ =>
  }

  lemma WriteSound(db: Db, after: Db, w: Write)
    requires Sound(db) && Makes(db, after, w)
    ensures Sound(after) && Evolves(db, after)
  {
    WriteKeeps(db, w);
    AppliedFrame(db, w);
    SourcesSurviveWrite(db, w);
    ApprovalsSurvive(db.approvals, db.txns, after.txns);
    Assemble(db, after);
  }

  lemma Assemble(db: Db, after: Db)
    requires Sound(db) && FinanceSound(after) && FinanceEvolves(db, after)
    requires OtherTablesSame(db, after)
    requires ApprovalsSound(db.approvals, after.txns) && SourcesSound(after.txns, db.collections)
    ensures Sound(after) && Evolves(db, after)
  {
  }

  lemma FinanceKeeps(db: Db, op: FinanceOp)
    requires Sound(db)
    ensures Sound(FinanceStep(db, op).db) && Evolves(db, FinanceStep(db, op).db)
  {
    var w := FinanceStepWrites(db, op);
    WriteSound(db, FinanceStep(db, op).db, w);
  }

  lemma ApproveKeeps(db: Db, op: ApprovalOp)
    requires Sound(db)
    ensures Sound(ApprovalStep(db, op).db) && Evolves(db, ApprovalStep(db, op).db)
  {
    var db' := ApprovalStep(db, op).db;
    ApprovalStepKeeps(db, op);
    ApprovalStepSound(db, db');
    ShapeKeepsSources(db, db');
  }

  lemma ShapeKeepsSources(db: Db, db': Db)
    requires ApprovalShape(db, db') && SourcesSound(db.txns, db.collections)
    ensures SourcesSound(db'.txns, db'.collections)
  {
  }

  lemma CollectKeeps(db: Db, op: CollectionOp)
    requires Sound(db)
    ensures Sound(CollectionStep(db, op).db) && Evolves(db, CollectionStep(db, op).db)
  {
    var db' := CollectionStep(db, op).db;
    CollectionStepKeeps(db, op);
    SourcesSurviveSessions(db.txns, db.collections, db'.collections);
  }

  /** Every service call of every module keeps the system sound, and only moves forward. */
  lemma StepKeeps(db: Db, op: Op)
    requires Sound(db)
    ensures Sound(Step(db, op).db) && Evolves(db, Step(db, op).db)
  {
    match op
    case Finance(f) => FinanceKeeps(db, f);
    case Approve(a) => ApproveKeeps(db, a);
    case Collect(c) => CollectKeeps(db, c);
    case SetMaster(master) =>
  }

  lemma {:induction false} RunKeeps(db: Db, ops: seq<Op>)
    requires Sound(db)
    ensures Sound(Run(db, ops)) && Evolves(db, Run(db, ops))
    decreases |ops|
  {
    if ops == [] {
      EvolvesReflexive(db);
    } else {
      var next := Step(db, ops[0]).db;
      StepKeeps(db, ops[0]);
      RunKeeps(next, ops[1..]);
      EvolvesTransitive(db, next, Run(db, ops));
    }
  }

  lemma EmptySound(master: MasterData, platform: Platform)
    ensures Sound(Empty(master, platform))
  {
  }

  lemma ReachableSound(db: Db)
    requires Reachable(db)
    ensures Sound(db)
  {
    var master, platform, ops :| db == Run(Empty(master, platform), ops);
    EmptySound(master, platform);
    RunKeeps(Empty(master, platform), ops);
  }

  lemma {:induction false} RunAppend(db: Db, a: seq<Op>, b: seq<Op>)
    ensures Run(db, a + b) == Run(Run(db, a), b)
    decreases |a|
  {
    if a == [] {
      assert a + b == b;
    } else {
      assert (a + b)[0] == a[0] && (a + b)[1..] == a[1..] + b;
      RunAppend(Step(db, a[0]).db, a[1..], b);
    }
  }

  lemma ReachableRun(db: Db, ops: seq<Op>)
    requires Reachable(db)
    ensures Reachable(Run(db, ops))
  {
    var master, platform, before :| db == Run(Empty(master, platform), before);
    RunAppend(Empty(master, platform), before, ops);
  }

  lemma ReachableStep(db: Db, op: Op)
    requires Reachable(db)
    ensures Reachable(Step(db, op).db)
  {
    ReachableRun(db, [op]);
    OneStep(db, op);
  }

  lemma OneStep(db: Db, op: Op)
    ensures Run(db, [op]) == Step(db, op).db
  {
  }

  /** The last call of a run finds what the calls before it have left. */
  lemma LastCall(start: Db, ops: seq<Op>) returns (before: Db)
    requires Sound(start) && ops != []
    ensures before == Run(start, ops[..|ops| - 1]) && Sound(before)
    ensures Run(start, ops) == Step(before, ops[|ops| - 1]).db
  {
    var front, last := ops[..|ops| - 1], ops[|ops| - 1];
    before := Run(start, front);
    assert ops == front + [last];
    RunAppend(start, front, [last]);
    OneStep(before, last);
    RunKeeps(start, front);
  }
}
