/**
 Where a posted transaction comes from: in every run exactly one call posted it, and everything a
 posting asks for, written out over the tables, held in the state that call found.
 */
module PostingOrigins {
  import opened Prelude
  import opened Tables
  import opened FinanceOps
  import opened FinanceLaws
  import opened ApprovalOps
  import opened CollectionOps
  import opened System
  import opened SystemLaws
  import opened Theorems
  import opened ExactlyOnce
  import opened FinanceEffects
  import opened CollectionPosting

  /** The call posts t as things are: a posting of t, or the posting of a collection that inserts it. */
  ghost predicate Posts(db: Db, op: Op, t: Id) {
    && op.Finance?
    && match op.finance
       case PostTxn(rt, u, key) => u == t && Postable(db, rt, t, key)
       case PostCollection(actor, post, ids) => ids.txn == t && CollectionPostable(db, actor.rt, post, ids)
       case _ => false
  }

  predicate IsPosted(db: Db, t: Id) {
    t in db.txns && db.txns[t].status == TxnStatus.Posted
  }

  lemma PostedByTxn(db: Db, rt: Id, u: Id, key: Option<string>, t: Id)
    requires Sound(db)
    ensures IsPosted(PostTxnStep(db, rt, u, key).db, t) ==> IsPosted(db, t) || (u == t && Postable(db, rt, t, key))
  {
    PostingExact(db, rt, u, key);
    PostingRefusals(db, rt, u, key);
    if PostTxnStep(db, rt, u, key).reply == Done(u) {
      PostingEffect(db, rt, u, key);
    }
  }

  lemma PostedByCollection(db: Db, actor: Actor, post: PostCollectionCommand, ids: NewIds, t: Id)
    requires Sound(db)
    ensures var after := PostCollectionStep(db, actor, post, ids).db;
            IsPosted(after, t) ==> IsPosted(db, t) || (ids.txn == t && CollectionPostable(db, actor.rt, post, ids))
  {
    CollectionPostingExact(db, actor, post, ids);
    CollectionDoneOrSame(db, actor, post, ids);
    if PostCollectionStep(db, actor, post, ids).reply == Done(ids.txn) {
      var a, k := CollectionPostingEffect(db, actor, post, ids);
    }
  }

  lemma CollectionDoneOrSame(db: Db, actor: Actor, post: PostCollectionCommand, ids: NewIds)
    ensures PostCollectionStep(db, actor, post, ids).reply == Done(ids.txn) || PostCollectionStep(db, actor, post, ids).db == db
  {
  }

  lemma MovePostsNothing(db: Db, rt: Id, u: Id, from: set<TxnStatus>, to: TxnStatus, t: Id)
    requires to != TxnStatus.Posted
    ensures IsPosted(MoveStep(db, rt, u, from, to).db, t) ==> IsPosted(db, t)
  {
  }

  lemma DraftPostsNothing(db: Db, actor: Actor, newId: Id, command: DraftCommand, t: Id)
    ensures IsPosted(CreateDraftStep(db, actor, newId, command).db, t) ==> IsPosted(db, t)
  {
  }

  lemma PostedByFinance(db: Db, f: FinanceOp, t: Id)
    requires Sound(db)
    ensures IsPosted(FinanceStep(db, f).db, t) ==> IsPosted(db, t) || Posts(db, Finance(f), t)
  {
    match f
    case CreateDraft(actor, newId, command) => DraftPostsNothing(db, actor, newId, command, t);
    case ValidateTxn(rt, u) => MovePostsNothing(db, rt, u, {TxnStatus.Draft}, TxnStatus.Validated, t);
    case RejectTxn(rt, u) => MovePostsNothing(db, rt, u, {TxnStatus.Draft, TxnStatus.Validated}, TxnStatus.Rejected, t);
    case VoidTxn(rt, u) => MovePostsNothing(db, rt, u, {TxnStatus.Draft}, TxnStatus.Voided, t);
    case PostTxn(rt, u, key) => PostedByTxn(db, rt, u, key, t);
    case PostCollection(actor, post, ids) => PostedByCollection(db, actor, post, ids, t);
    case _ => AccountStepOnTxn(db, f);
  }

  lemma ApprovalPostsNothing(db: Db, a: ApprovalOp, t: Id)
    requires Sound(db)
    ensures IsPosted(ApprovalStep(db, a).db, t) ==> IsPosted(db, t)
  {
    if t in db.txns {
      ApprovalOnTxn(db, a, t);
    } else {
      ApprovalAddsNoTxn(db, a, t);
    }
  }

  lemma ApprovalAddsNoTxn(db: Db, a: ApprovalOp, t: Id)
    requires t !in db.txns
    ensures t !in ApprovalStep(db, a).db.txns
  {
  }

  lemma NewlyPosted(db: Db, op: Op, t: Id)
    requires Sound(db) && IsPosted(Step(db, op).db, t)
    ensures IsPosted(db, t) || Posts(db, op, t)
  {
    match op
    case Finance(f) => PostedByFinance(db, f, t);
    case Approve(a) => ApprovalPostsNothing(db, a, t);
    case Collect(c) => CollectionLeavesTxns(db, c);
    case SetMaster(_) =>
  }

  lemma CollectionLeavesTxns(db: Db, c: CollectionOp)
    ensures CollectionStep(db, c).db.txns == db.txns
  {
  }

  /** Call k of the run posts t in the state it finds. */
  ghost predicate PostedAt(start: Db, ops: seq<Op>, k: nat, t: Id) {
    k < |ops| && Posts(Run(start, ops[..k]), ops[k], t)
  }

  lemma PostedLonger(start: Db, ops: seq<Op>, k: nat, t: Id)
    requires ops != [] && PostedAt(start, ops[..|ops| - 1], k, t)
    ensures PostedAt(start, ops, k, t)
  {
    var front := ops[..|ops| - 1];
    assert front[k] == ops[k] && front[..k] == ops[..k];
  }

  /** Behind every posted transaction is a call that found it, its account, its category, its approvals and its key fit. */
  lemma {:induction false} PostedByCall(start: Db, ops: seq<Op>, t: Id) returns (k: nat)
    requires Sound(start) && !IsPosted(start, t) && IsPosted(Run(start, ops), t)
    ensures PostedAt(start, ops, k, t)
    decreases |ops|
  {
    var n := |ops| - 1;
    var before := LastCall(start, ops);
    NewlyPosted(before, ops[n], t);
    if IsPosted(before, t) {
      k := PostedByCall(start, ops[..n], t);
      PostedLonger(start, ops, k, t);
    } else {
      k := n;
    }
  }

  lemma PostedNow(db: Db, op: Op, t: Id)
    requires Sound(db) && Posts(db, op, t)
    ensures IsPosted(Step(db, op).db, t)
  {
    match op.finance
    case PostTxn(rt, u, key) =>
      PostingExact(db, rt, t, key);
      PostingEffect(db, rt, t, key);
    case PostCollection(actor, post, ids) =>
      CollectionPostingExact(db, actor, post, ids);
      var a, c := CollectionPostingEffect(db, actor, post, ids);
  }

  lemma NotAgain(db: Db, op: Op, t: Id)
    requires IsPosted(db, t)
    ensures !Posts(db, op, t)
  {
  }

  /** And only one: two calls of a run never both post it. */
  lemma PostedByOneCall(start: Db, ops: seq<Op>, t: Id, j: nat, k: nat)
    requires Sound(start) && PostedAt(start, ops, j, t) && PostedAt(start, ops, k, t)
    ensures j == k
  {
    if j < k {
      StaysPosted(start, ops, t, j, k);
    } else if k < j {
      StaysPosted(start, ops, t, k, j);
    }
  }

  lemma PostedAfter(start: Db, ops: seq<Op>, t: Id, j: nat)
    requires Sound(start) && PostedAt(start, ops, j, t)
    ensures IsPosted(Run(start, ops[..j + 1]), t)
  {
    var done := ops[..j + 1];
    assert done[..|done| - 1] == ops[..j];
    var before := LastCall(start, done);
    PostedNow(before, ops[j], t);
  }

  lemma PostedLater(start: Db, done: seq<Op>, rest: seq<Op>, t: Id)
    requires Sound(start) && IsPosted(Run(start, done), t)
    ensures IsPosted(Run(start, done + rest), t)
  {
    RunKeeps(start, done);
    RunAppend(start, done, rest);
    FinalLater(Run(start, done), rest, t);
  }

  lemma StaysPosted(start: Db, ops: seq<Op>, t: Id, j: nat, k: nat)
    requires Sound(start) && PostedAt(start, ops, j, t) && j < k < |ops|
    ensures !PostedAt(start, ops, k, t)
  {
    PostedAfter(start, ops, t, j);
    PostedLater(start, ops[..j + 1], ops[j + 1..k], t);
    assert ops[..k] == ops[..j + 1] + ops[j + 1..k];
    NotAgain(Run(start, ops[..k]), ops[k], t);
  }
}
