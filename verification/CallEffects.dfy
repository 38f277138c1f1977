/**
 Retried calls and draft requests, written out attempt by attempt: how often a call is tried, when the
 stored posting is looked up again, and that a call which nobody disturbs is the atomic one.
 */
module CallEffects {
  import opened Prelude
  import opened Tables
  import opened FinanceOps
  import opened FinanceLaws
  import opened ApprovalOps
  import opened System
  import opened Concurrency

  /** There are three attempts; each finds what the calls before it have left, and only a conflict leads to the next. */
  lemma ThreeAttempts(db: Db, op: Op, first: Attempt, second: Attempt, third: Attempt)
    ensures var one := Run(db, first.before);
            var two := Run(one, second.before);
            var three := Run(two, third.before);
            Retried(db, op, [first, second, third])
            == if !first.conflict then Step(one, op)
               else if !second.conflict then Step(two, op)
               else if !third.conflict then Step(three, op)
               else Outcome(three, Refused(SerializationFailure))
  {
    var all := [first, second, third];
    var one := Run(db, first.before);
    var two := Run(one, second.before);
    assert all[1..] == [second, third] && all[1..][1..] == [third];
    OneAttempt(db, op, all, one);
    OneAttempt(one, op, all[1..], two);
    OneAttempt(two, op, all[1..][1..], Run(two, third.before));
  }

  /** What a posting call answers from a stored posted transaction. */
  predicate AnswersFrom(x: Txn, t: Id, key: Option<string>, reply: Reply) {
    if key == None || key == Some("") || key == x.key then reply == Replayed(t) else reply == Refused(ReplayMismatch)
  }

  /** A posting that ended in a conflict is answered from the transaction, if that is posted by now; any other end stands. */
  lemma PostRereads(db: Db, rt: Id, t: Id, key: Option<string>, s: Schedule, tried: Outcome, now: Db)
    requires |s.attempts| == MAX_ATTEMPTS
    requires tried == Retried(db, Finance(PostTxn(rt, t, key)), s.attempts) && now == Run(tried.db, s.after)
    ensures var call := PostCall(db, Finance(PostTxn(rt, t, key)), s);
            && call.db == now
            && if && (tried.reply == Refused(UniqueViolation) || tried.reply == Refused(SerializationFailure))
                  && t in now.txns && now.txns[t].rt == rt && now.txns[t].status == TxnStatus.Posted
               then AnswersFrom(now.txns[t], t, key, call.reply)
               else call.reply == tried.reply
  {
  }

  lemma OneSource(db: Db, rt: Id, collection: Id, t: Id)
    requires UniqueTxns(db.txns) && t in db.txns && db.txns[t].rt == rt && db.txns[t].what.source == Some(collection)
    ensures TenantSourceHolders(db.txns, rt, collection) == {t}
  {
    forall u | u in TenantSourceHolders(db.txns, rt, collection) ensures u == t {
      if u != t { assert Clash(db.txns[u], db.txns[t]); }
    }
  }

  /** The same for a collection: answered from the transaction with that source, if it is posted with a row by now. */
  lemma CollectionRereads(now: Db, actor: Actor, post: PostCollectionCommand, ids: NewIds, reply: Reply, t: Id)
    requires UniqueTxns(now.txns) && t in now.txns && now.txns[t].rt == actor.rt && now.txns[t].what.source == Some(post.collection)
    ensures var answer := Reread(now, Finance(PostCollection(actor, post, ids)), reply);
            if now.txns[t].status == TxnStatus.Posted && (exists i :: 0 <= i < |now.ledger| && now.ledger[i].txn == t)
            then AnswersFrom(now.txns[t], t, post.key, answer)
            else answer == reply
  {
    OneSource(now, actor.rt, post.collection, t);
  }

  lemma NothingToReread(now: Db, actor: Actor, post: PostCollectionCommand, ids: NewIds, reply: Reply)
    requires forall t :: t in now.txns && now.txns[t].rt == actor.rt ==> now.txns[t].what.source != Some(post.collection)
    ensures Reread(now, Finance(PostCollection(actor, post, ids)), reply) == reply
  {
    assert TenantSourceHolders(now.txns, actor.rt, post.collection) == {};
  }

  /** The first answer of a posted collection: a replay under its key if it is booked, incomplete otherwise. */
  lemma CollectionReplayExact(db: Db, actor: Actor, post: PostCollectionCommand, ids: NewIds, t: Id)
    requires UniqueTxns(db.txns) && t in db.txns && db.txns[t].rt == actor.rt && db.txns[t].what.source == Some(post.collection)
    ensures PostCollectionStep(db, actor, post, ids).db == db
    ensures var reply := PostCollectionStep(db, actor, post, ids).reply;
            if post.key != None && post.key != Some("") && post.key != db.txns[t].key then reply == Refused(ReplayMismatch)
            else if db.txns[t].status == TxnStatus.Posted && (exists i :: 0 <= i < |db.ledger| && db.ledger[i].txn == t)
            then reply == Replayed(t)
            else reply == Refused(Incomplete)
  {
    OneSource(db, actor.rt, post.collection, t);
  }

  /** A draft request in whose gaps nothing commits is the atomic one. */
  lemma UndisturbedDraft(db: Db, actor: Actor, newId: Id, command: DraftCommand, keyReported: bool)
    ensures DraftCall(db, actor, newId, command, Gaps([], [], [], keyReported)) == CreateDraftStep(db, actor, newId, command)
  {
  }
}
