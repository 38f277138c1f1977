/**
 Financial calls among other calls: serializable transactions that are retried when the database
 reports a conflict, the reread of stored state after a conflict, and the draft request whose
 lookup and insert are separate. Other calls may commit at every gap.
 */
module Concurrency {
  import opened Prelude
  import opened Tables
  import opened FinanceOps
  import opened LedgerLaws
  import opened FinanceLaws
  import opened ApprovalOps
  import opened CollectionLaws
  import opened System
  import opened SystemLaws
  import opened Theorems
  import opened ExactlyOnce

  // ----- Serializable transactions with retries ------------------------------------------------

  /** What happens to one attempt: calls that commit before it, and whether it ends in a conflict. */
  datatype Attempt = Attempt(before: seq<Op>, conflict: bool)

  /** The fate of a call: of its attempts, as many as are made, and calls that commit after the last. */
  datatype Schedule = Schedule(attempts: seq<Attempt>, after: seq<Op>)

  const MAX_ATTEMPTS := 3

  predicate Posts(op: Op) {
    op.Finance? && (op.finance.PostTxn? || op.finance.PostCollection?)
  }

  /** The retry loop: a conflict rolls the attempt back; the third conflict is final. */
  ghost function Retried(db: Db, op: Op, attempts: seq<Attempt>): Outcome
    requires |attempts| == MAX_ATTEMPTS
  {
    AttemptsFrom(db, op, attempts)
  }

  ghost function AttemptsFrom(db: Db, op: Op, attempts: seq<Attempt>): Outcome
    requires attempts != []
    decreases |attempts|
  {
    var now := Run(db, attempts[0].before);
    if !attempts[0].conflict then Step(now, op)
    else if |attempts| == 1 then Outcome(now, Refused(SerializationFailure))
    else AttemptsFrom(now, op, attempts[1..])
  }

  /** Attempt k finds what the calls before it have made of the previous view. */
  ghost predicate FoundBy(start: Db, attempts: seq<Attempt>, views: seq<Db>, k: nat)
    requires k < |attempts| && k < |views|
  {
    views[k] == Run(if k == 0 then start else views[k - 1], attempts[k].before)
  }

  ghost predicate Attempted(start: Db, attempts: seq<Attempt>, views: seq<Db>, conflicts: seq<bool>) {
    && |views| == |conflicts| == |attempts| == MAX_ATTEMPTS
    && (forall k :: 0 <= k < MAX_ATTEMPTS ==> views[k].platform == start.platform && attempts[k].conflict == conflicts[k])
    && (forall k :: 0 <= k < MAX_ATTEMPTS ==> FoundBy(start, attempts, views, k))
  }

  lemma OneAttempt(db: Db, op: Op, attempts: seq<Attempt>, now: Db)
    requires attempts != [] && now == Run(db, attempts[0].before)
    ensures AttemptsFrom(db, op, attempts)
         == if !attempts[0].conflict then Step(now, op)
            else if |attempts| == 1 then Outcome(now, Refused(SerializationFailure))
            else AttemptsFrom(now, op, attempts[1..])
  {
  }

  predicate IsConflict(reply: Reply) {
    reply == Refused(UniqueViolation) || reply == Refused(SerializationFailure)
  }

  /** After a conflict the call looks whether the posting exists by now, and answers from it. */
  ghost function Reread(now: Db, op: Op, reply: Reply): Reply
    requires Posts(op)
  {
    if op.finance.PostTxn? then
      if TxnOf(now.txns, op.finance.rt, op.finance.txn) && now.txns[op.finance.txn].status == TxnStatus.Posted then
        (if ReplayMatches(now.txns[op.finance.txn].key, op.finance.key) then Replayed(op.finance.txn) else Refused(ReplayMismatch))
      else reply
    else
      var holders := TenantSourceHolders(now.txns, op.finance.actor.rt, op.finance.post.collection);
      if holders == {} then reply else
        var t := Only(holders);
        if now.txns[t].status == TxnStatus.Posted && HasRow(now.ledger, t) then
          (if ReplayMatches(now.txns[t].key, op.finance.post.key) then Replayed(t) else Refused(ReplayMismatch))
        else reply
  }

  ghost function PostCall(db: Db, op: Op, s: Schedule): Outcome
    requires Posts(op) && |s.attempts| == MAX_ATTEMPTS
  {
    var tried := Retried(db, op, s.attempts);
    var now := Run(tried.db, s.after);
    Outcome(now, if IsConflict(tried.reply) then Reread(now, op, tried.reply) else tried.reply)
  }

  /** The calls that took effect during the attempts, in order; the call itself is the last or missing. */
  function History(op: Op, attempts: seq<Attempt>): seq<Op>
    requires attempts != []
    decreases |attempts|
  {
    if !attempts[0].conflict then attempts[0].before + [op]
    else if |attempts| == 1 then attempts[0].before
    else attempts[0].before + History(op, attempts[1..])
  }

  /** The same without the call itself. */
  function Others(attempts: seq<Attempt>): seq<Op>
    requires attempts != []
    decreases |attempts|
  {
    if !attempts[0].conflict || |attempts| == 1 then attempts[0].before
    else attempts[0].before + Others(attempts[1..])
  }

  /** Every attempt ended in a conflict. */
  predicate GaveUp(attempts: seq<Attempt>) {
    forall i :: 0 <= i < |attempts| ==> attempts[i].conflict
  }

  /** The call takes effect at most once, however often it is tried: after all others, or not at all. */
  lemma {:induction false} HistoryHasCallOnce(op: Op, attempts: seq<Attempt>)
    requires attempts != []
    ensures History(op, attempts) == if GaveUp(attempts) then Others(attempts) else Others(attempts) + [op]
    decreases |attempts|
  {
    if attempts[0].conflict && |attempts| > 1 {
      HistoryHasCallOnce(op, attempts[1..]);
      assert GaveUp(attempts) <==> GaveUp(attempts[1..]) by {
        assert forall i :: 0 <= i < |attempts[1..]| ==> attempts[1..][i] == attempts[i + 1];
        assert forall i :: 1 <= i < |attempts| ==> attempts[i] == attempts[1..][i - 1];
      }
    }
  }

  /** Attempts are one run of the system: the effective calls in order. */
  lemma {:induction false} AttemptsAreARun(db: Db, op: Op, attempts: seq<Attempt>)
    requires attempts != []
    ensures AttemptsFrom(db, op, attempts).db == Run(db, History(op, attempts))
    ensures GaveUp(attempts) ==> AttemptsFrom(db, op, attempts).reply == Refused(SerializationFailure)
    ensures !GaveUp(attempts) ==> AttemptsFrom(db, op, attempts) == Step(Run(db, Others(attempts)), op)
    decreases |attempts|
  {
    var now := Run(db, attempts[0].before);
    if !attempts[0].conflict {
      RunAppend(db, attempts[0].before, [op]);
      OneStep(now, op);
    } else if |attempts| > 1 {
      assert GaveUp(attempts) <==> GaveUp(attempts[1..]) by {
        assert forall i :: 0 <= i < |attempts[1..]| ==> attempts[1..][i] == attempts[i + 1];
        assert forall i :: 1 <= i < |attempts| ==> attempts[i] == attempts[1..][i - 1];
      }
      AttemptsAreARun(now, op, attempts[1..]);
      RunAppend(db, attempts[0].before, History(op, attempts[1..]));
      RunAppend(db, attempts[0].before, Others(attempts[1..]));
    }
  }

  /** The calls that run in the retry loop. */
  predicate Retries(op: Op) {
    Posts(op) || (op.Approve? && (op.approval.RequestApprovals? || op.approval.Decide?))
  }

  lemma RefusedSame(db: Db, op: Op)
    requires Retries(op)
    ensures Step(db, op).reply.Done? || Step(db, op).db == db
  {
  }

  /** A request or decision with its retries is one run with it at most once, or without it if refused. */
  lemma RetriedIsARun(db: Db, op: Op, attempts: seq<Attempt>)
    requires Retries(op) && |attempts| == MAX_ATTEMPTS
    ensures Retried(db, op, attempts).db == Run(db, if GaveUp(attempts) then Others(attempts) else Others(attempts) + [op])
    ensures !Retried(db, op, attempts).reply.Done? ==> Retried(db, op, attempts).db == Run(db, Others(attempts))
  {
    AttemptsAreARun(db, op, attempts);
    HistoryHasCallOnce(op, attempts);
    RefusedSame(Run(db, Others(attempts)), op);
  }

  lemma PostingRefusedSame(db: Db, op: Op)
    requires Posts(op)
    ensures Step(db, op).reply.Done? || Step(db, op).db == db
  {
  }

  /**
   A posting call, with its retries, is one run of the system in which it occurs at most once; a
   call that does not report a posting of its own has changed nothing.
   */
  lemma PostCallIsARun(db: Db, op: Op, s: Schedule)
    requires Posts(op) && |s.attempts| == MAX_ATTEMPTS
    ensures PostCall(db, op, s).db == Run(db, History(op, s.attempts) + s.after)
    ensures !PostCall(db, op, s).reply.Done? ==> PostCall(db, op, s).db == Run(db, Others(s.attempts) + s.after)
  {
    AttemptsAreARun(db, op, s.attempts);
    HistoryHasCallOnce(op, s.attempts);
    PostingRefusedSame(Run(db, Others(s.attempts)), op);
    RunAppend(db, History(op, s.attempts), s.after);
    RunAppend(db, Others(s.attempts), s.after);
    RereadNeverDone(Run(Retried(db, op, s.attempts).db, s.after), op, Retried(db, op, s.attempts).reply);
  }

  lemma RereadNeverDone(now: Db, op: Op, reply: Reply)
    requires Posts(op)
    ensures Reread(now, op, reply).Done? ==> reply.Done?
  {
  }

  /** The state proves the answer: transaction t is posted, with one row, under the requested key. */
  ghost predicate PostedUnder(db: Db, t: Id, key: Option<string>) {
    && t in db.txns && db.txns[t].status == TxnStatus.Posted && CountFor(db.ledger, t) == 1
    && (Truthy(key) ==> db.txns[t].key == key)
  }

  lemma PostedUnderLater(db: Db, ops: seq<Op>, t: Id, key: Option<string>)
    requires Sound(db) && t in db.txns && db.txns[t].status == TxnStatus.Posted && (Truthy(key) ==> db.txns[t].key == key)
    ensures PostedUnder(Run(db, ops), t, key)
  {
    RunKeeps(db, ops);
    FinalLater(db, ops, t);
  }

  lemma PostTxnAnswer(db: Db, rt: Id, t: Id, key: Option<string>)
    requires PostTxnStep(db, rt, t, key).reply in {Done(t), Replayed(t)}
    ensures var after := PostTxnStep(db, rt, t, key).db;
            t in after.txns && after.txns[t].status == TxnStatus.Posted && (Truthy(key) ==> after.txns[t].key == key)
  {
  }

  lemma PostTxnIsStep(db: Db, rt: Id, t: Id, key: Option<string>)
    ensures Step(db, Finance(PostTxn(rt, t, key))) == PostTxnStep(db, rt, t, key)
  {
  }

  lemma PostTxnStepSound(db: Db, rt: Id, t: Id, key: Option<string>)
    requires Sound(db)
    ensures Sound(Step(db, Finance(PostTxn(rt, t, key))).db)
    ensures Step(db, Finance(PostTxn(rt, t, key))) == PostTxnStep(db, rt, t, key)
  {
    PostTxnIsStep(db, rt, t, key);
    StepKeeps(db, Finance(PostTxn(rt, t, key)));
  }

  /**
   Whatever other calls and conflicts surround it: when posting transaction t succeeds, as a posting
   or as a replay, t is posted in the state the call leaves, with exactly one ledger row and under
   the requested key.
   */
  lemma PostCallProven(db: Db, rt: Id, t: Id, key: Option<string>, s: Schedule)
    requires Sound(db) && |s.attempts| == MAX_ATTEMPTS
    requires PostCall(db, Finance(PostTxn(rt, t, key)), s).reply in {Done(t), Replayed(t)}
    ensures PostedUnder(PostCall(db, Finance(PostTxn(rt, t, key)), s).db, t, key)
  {
    var op := Finance(PostTxn(rt, t, key));
    var tried := Retried(db, op, s.attempts);
    AttemptsAreARun(db, op, s.attempts);
    RunKeeps(db, History(op, s.attempts));
    if IsConflict(tried.reply) {
      RunKeeps(tried.db, s.after);
      assert Run(tried.db, s.after) == Run(Run(tried.db, s.after), []);
      PostedUnderLater(Run(tried.db, s.after), [], t, key);
    } else {
      var now := Run(db, Others(s.attempts));
      RunKeeps(db, Others(s.attempts));
      PostTxnStepSound(now, rt, t, key);
      PostTxnAnswer(now, rt, t, key);
      PostedUnderLater(tried.db, s.after, t, key);
    }
  }

  /** The state proves the answer: t carries the collection's money, posted with one row. */
  ghost predicate CollectionPosted(db: Db, rt: Id, collection: Id, t: Id, key: Option<string>) {
    && TxnOf(db.txns, rt, t) && db.txns[t].what.source == Some(collection) && ReplayMatches(db.txns[t].key, key)
    && db.txns[t].status == TxnStatus.Posted && CountFor(db.ledger, t) == 1
  }

  lemma CollectionAnswer(db: Db, actor: Actor, post: PostCollectionCommand, ids: NewIds, t: Id)
    requires PostCollectionStep(db, actor, post, ids).reply in {Done(t), Replayed(t)}
    ensures var after := PostCollectionStep(db, actor, post, ids).db;
            && TxnOf(after.txns, actor.rt, t) && after.txns[t].what.source == Some(post.collection)
            && ReplayMatches(after.txns[t].key, post.key)
  {
  }

  lemma PostCollectionStepSound(db: Db, actor: Actor, post: PostCollectionCommand, ids: NewIds)
    requires Sound(db)
    ensures Sound(Step(db, Finance(PostCollection(actor, post, ids))).db)
    ensures Step(db, Finance(PostCollection(actor, post, ids))) == PostCollectionStep(db, actor, post, ids)
  {
    PostCollectionIsStep(db, actor, post, ids);
    StepKeeps(db, Finance(PostCollection(actor, post, ids)));
  }

  lemma CollectionPostedLater(db: Db, ops: seq<Op>, rt: Id, collection: Id, t: Id, key: Option<string>)
    requires Sound(db) && TxnOf(db.txns, rt, t) && db.txns[t].what.source == Some(collection) && ReplayMatches(db.txns[t].key, key)
    ensures CollectionPosted(Run(db, ops), rt, collection, t, key)
  {
    RunKeeps(db, ops);
    CollectionFrozen(db, ops, t);
    assert SourceSound(db.txns[t], db.collections);
  }

  lemma RereadNames(now: Db, actor: Actor, post: PostCollectionCommand, ids: NewIds, reply: Reply, t: Id)
    requires Reread(now, Finance(PostCollection(actor, post, ids)), reply) == Replayed(t) && reply.Refused?
    ensures TxnOf(now.txns, actor.rt, t) && now.txns[t].what.source == Some(post.collection)
    ensures ReplayMatches(now.txns[t].key, post.key)
  {
  }

  lemma RereadPosted(now: Db, actor: Actor, post: PostCollectionCommand, ids: NewIds, reply: Reply, t: Id)
    requires Sound(now) && Reread(now, Finance(PostCollection(actor, post, ids)), reply) == Replayed(t) && reply.Refused?
    ensures CollectionPosted(now, actor.rt, post.collection, t, post.key)
  {
    RereadNames(now, actor, post, ids, reply, t);
    assert Run(now, []) == now;
    CollectionPostedLater(now, [], actor.rt, post.collection, t, post.key);
  }

  lemma SteppedPosted(now: Db, actor: Actor, post: PostCollectionCommand, ids: NewIds, after: seq<Op>, t: Id)
    requires Sound(now) && Step(now, Finance(PostCollection(actor, post, ids))).reply in {Done(t), Replayed(t)}
    ensures CollectionPosted(Run(Step(now, Finance(PostCollection(actor, post, ids))).db, after), actor.rt, post.collection, t, post.key)
  {
    PostCollectionStepSound(now, actor, post, ids);
    CollectionAnswer(now, actor, post, ids, t);
    CollectionPostedLater(Step(now, Finance(PostCollection(actor, post, ids))).db, after, actor.rt, post.collection, t, post.key);
  }

  /** When posting a collection succeeds, as a posting or as a replay, its money is in the ledger once. */
  lemma PostCollectionCallProven(db: Db, actor: Actor, post: PostCollectionCommand, ids: NewIds, s: Schedule, t: Id)
    requires Sound(db) && |s.attempts| == MAX_ATTEMPTS
    requires PostCall(db, Finance(PostCollection(actor, post, ids)), s).reply in {Done(t), Replayed(t)}
    ensures CollectionPosted(PostCall(db, Finance(PostCollection(actor, post, ids)), s).db, actor.rt, post.collection, t, post.key)
  {
    var op := Finance(PostCollection(actor, post, ids));
    var tried := Retried(db, op, s.attempts);
    AttemptsAreARun(db, op, s.attempts);
    RunKeeps(db, History(op, s.attempts));
    if IsConflict(tried.reply) {
      RunKeeps(tried.db, s.after);
      RereadPosted(Run(tried.db, s.after), actor, post, ids, tried.reply, t);
    } else {
      RunKeeps(db, Others(s.attempts));
      SteppedPosted(Run(db, Others(s.attempts)), actor, post, ids, s.after, t);
    }
  }

  // ----- Repeating a whole call ----------------------------------------------------------------

  /** In every later state, the call's own step answers with t and changes nothing. */
  ghost predicate Answered(db: Db, op: Op, t: Id) {
    forall ops :: Step(Run(db, ops), op) == Outcome(Run(db, ops), Replayed(t))
  }

  /** In every later state, the reread after a conflict answers with t. */
  ghost predicate Found(db: Db, op: Op, t: Id)
    requires Posts(op)
  {
    forall ops, reply :: IsConflict(reply) ==> Reread(Run(db, ops), op, reply) == Replayed(t)
  }

  /** A whole call on an answered posting adds nothing of its own, even if every attempt conflicts. */
  lemma AnsweredCallRepeats(db: Db, op: Op, s: Schedule, t: Id)
    requires Posts(op) && |s.attempts| == MAX_ATTEMPTS && Answered(db, op, t) && Found(db, op, t)
    ensures PostCall(db, op, s) == Outcome(Run(db, Others(s.attempts) + s.after), Replayed(t))
  {
    var others := Others(s.attempts);
    AttemptsAreARun(db, op, s.attempts);
    HistoryHasCallOnce(op, s.attempts);
    RunAppend(db, others, s.after);
    assert Step(Run(db, others), op) == Outcome(Run(db, others), Replayed(t));
    assert IsConflict(Refused(SerializationFailure));
    assert Reread(Run(db, others + s.after), op, Refused(SerializationFailure)) == Replayed(t);
  }

  lemma PostedStepAnswers(db: Db, rt: Id, t: Id, key: Option<string>)
    requires TxnOf(db.txns, rt, t) && db.txns[t].status == TxnStatus.Posted && ReplayMatches(db.txns[t].key, key)
    ensures Step(db, Finance(PostTxn(rt, t, key))) == Outcome(db, Replayed(t))
    ensures forall reply :: IsConflict(reply) ==> Reread(db, Finance(PostTxn(rt, t, key)), reply) == Replayed(t)
  {
  }

  lemma PostedIsAnswered(db: Db, rt: Id, t: Id, key: Option<string>)
    requires Sound(db) && TxnOf(db.txns, rt, t) && db.txns[t].status == TxnStatus.Posted && ReplayMatches(db.txns[t].key, key)
    ensures Answered(db, Finance(PostTxn(rt, t, key)), t) && Found(db, Finance(PostTxn(rt, t, key)), t)
  {
    forall ops
      ensures Step(Run(db, ops), Finance(PostTxn(rt, t, key))) == Outcome(Run(db, ops), Replayed(t))
      ensures forall reply :: IsConflict(reply) ==> Reread(Run(db, ops), Finance(PostTxn(rt, t, key)), reply) == Replayed(t)
    {
      FinalLater(db, ops, t);
      PostedStepAnswers(Run(db, ops), rt, t, key);
    }
  }

  lemma PostCallTenant(db: Db, rt: Id, t: Id, key: Option<string>, s: Schedule)
    requires Sound(db) && |s.attempts| == MAX_ATTEMPTS
    requires PostCall(db, Finance(PostTxn(rt, t, key)), s).reply in {Done(t), Replayed(t)}
    ensures TxnOf(PostCall(db, Finance(PostTxn(rt, t, key)), s).db.txns, rt, t)
  {
    var op := Finance(PostTxn(rt, t, key));
    var tried := Retried(db, op, s.attempts);
    AttemptsAreARun(db, op, s.attempts);
    RunKeeps(db, History(op, s.attempts));
    if !IsConflict(tried.reply) {
      PostStepTenant(Run(db, Others(s.attempts)), rt, t, key);
      RunKeeps(tried.db, s.after);
      assert TxnEvolves(tried.db.txns[t], Run(tried.db, s.after).txns[t]);
    }
  }

  lemma PostStepTenant(db: Db, rt: Id, t: Id, key: Option<string>)
    requires Step(db, Finance(PostTxn(rt, t, key))).reply in {Done(t), Replayed(t)}
    ensures TxnOf(Step(db, Finance(PostTxn(rt, t, key))).db.txns, rt, t)
  {
  }

  /**
   After a call succeeded in posting t, the same call at any later time, under any schedule and also
   when every attempt conflicts, answers with t and leaves what the other calls leave.
   */
  lemma PostCallRepeats(db: Db, rt: Id, t: Id, key: Option<string>, s: Schedule, between: seq<Op>, s': Schedule)
    requires Sound(db) && |s.attempts| == |s'.attempts| == MAX_ATTEMPTS
    requires PostCall(db, Finance(PostTxn(rt, t, key)), s).reply in {Done(t), Replayed(t)}
    ensures var op := Finance(PostTxn(rt, t, key));
            var later := Run(PostCall(db, op, s).db, between);
            PostCall(later, op, s') == Outcome(Run(later, Others(s'.attempts) + s'.after), Replayed(t))
  {
    var op := Finance(PostTxn(rt, t, key));
    var first := PostCall(db, op, s).db;
    PostCallProven(db, rt, t, key, s);
    PostCallTenant(db, rt, t, key, s);
    PostCallIsARun(db, op, s);
    RunKeeps(db, History(op, s.attempts) + s.after);
    FinalLater(first, between, t);
    RunKeeps(first, between);
    PostedIsAnswered(Run(first, between), rt, t, key);
    AnsweredCallRepeats(Run(first, between), op, s', t);
  }

  lemma SourcedStepAnswers(db: Db, actor: Actor, post: PostCollectionCommand, ids: NewIds, t: Id)
    requires Sound(db) && CollectionPosted(db, actor.rt, post.collection, t, post.key)
    ensures PostCollectionStep(db, actor, post, ids) == Outcome(db, Replayed(t))
    ensures forall reply :: IsConflict(reply) ==> Reread(db, Finance(PostCollection(actor, post, ids)), reply) == Replayed(t)
  {
    CollectionAnswers(db, actor, post, ids, t);
    SourceReplays(db, t, post.key);
    CountZero(db.ledger, t);
    var holders := TenantSourceHolders(db.txns, actor.rt, post.collection);
    forall u | u in holders ensures u == t { NoClash(db.txns, t, u); }
    assert t in holders;
    assert Only(holders) == t;
  }

  lemma SourcedIsAnswered(db: Db, actor: Actor, post: PostCollectionCommand, ids: NewIds, t: Id)
    requires Sound(db) && CollectionPosted(db, actor.rt, post.collection, t, post.key)
    ensures var op := Finance(PostCollection(actor, post, ids)); Answered(db, op, t) && Found(db, op, t)
  {
    var op := Finance(PostCollection(actor, post, ids));
    forall ops
      ensures Step(Run(db, ops), op) == Outcome(Run(db, ops), Replayed(t))
      ensures forall reply :: IsConflict(reply) ==> Reread(Run(db, ops), op, reply) == Replayed(t)
    {
      CollectionPostedLater(db, ops, actor.rt, post.collection, t, post.key);
      RunKeeps(db, ops);
      SourcedStepAnswers(Run(db, ops), actor, post, ids, t);
      PostCollectionIsStep(Run(db, ops), actor, post, ids);
    }
  }

  /** The same for the posting of a collection. */
  lemma PostCollectionCallRepeats(
    db: Db, actor: Actor, post: PostCollectionCommand, ids: NewIds, s: Schedule, t: Id,
    between: seq<Op>, again: NewIds, s': Schedule)
    requires Sound(db) && |s.attempts| == |s'.attempts| == MAX_ATTEMPTS
    requires PostCall(db, Finance(PostCollection(actor, post, ids)), s).reply in {Done(t), Replayed(t)}
    ensures var later := Run(PostCall(db, Finance(PostCollection(actor, post, ids)), s).db, between);
            PostCall(later, Finance(PostCollection(actor, post, again)), s')
            == Outcome(Run(later, Others(s'.attempts) + s'.after), Replayed(t))
  {
    var op := Finance(PostCollection(actor, post, ids));
    var first := PostCall(db, op, s).db;
    PostCollectionCallProven(db, actor, post, ids, s, t);
    PostCallIsARun(db, op, s);
    RunKeeps(db, History(op, s.attempts) + s.after);
    CollectionPostedLater(first, between, actor.rt, post.collection, t, post.key);
    RunKeeps(first, between);
    SourcedIsAnswered(Run(first, between), actor, post, again, t);
    AnsweredCallRepeats(Run(first, between), Finance(PostCollection(actor, post, again)), s', t);
  }

  // ----- Draft requests ------------------------------------------------------------------------

  /**
   Calls that commit between the guard and the key lookup, before the insert, and before the reread;
   keyReported says whether a violated index, if any, is reported as the key's.
   */
  datatype Gaps = Gaps(lookup: seq<Op>, insert: seq<Op>, reread: seq<Op>, keyReported: bool)

  /** The guarded insert: references are checked again, keys by the unique index only. */
  ghost function InsertDraft(db: Db, actor: Actor, newId: Id, command: DraftCommand): Outcome {
    var row := Txn(actor.rt, command.what, command.key, TxnStatus.Draft, actor.user);
    if !ActiveAccount(db.accounts, actor.rt, command.what.account) then Outcome(db, Refused(InactiveAccount))
    else if !UsableCategory(db.categories, actor.rt, command.what.category, command.what.kind) then Outcome(db, Refused(InactiveCategory))
    else if newId in db.txns || TxnCollides(db.txns, newId, row) then Outcome(db, Refused(UniqueViolation))
    else Outcome(db.(txns := db.txns[newId := row]), Done(newId))
  }

  /** The answer when a transaction with the request's key is found. */
  ghost function DraftReplayReply(db: Db, actor: Actor, command: DraftCommand, otherwise: Reply): Reply {
    if !Truthy(command.key) || KeyHolders(db.txns, actor.rt, command.key.value) == {} then otherwise else
      var t := Only(KeyHolders(db.txns, actor.rt, command.key.value));
      if db.txns[t].what == command.what then Replayed(t) else Refused(ReplayMismatch)
  }

  ghost function DraftCall(db: Db, actor: Actor, newId: Id, command: DraftCommand, gaps: Gaps): Outcome {
    var refusal := DraftRefusal(db, actor.rt, command.what);
    var looked := Run(db, gaps.lookup);
    var found := DraftReplayReply(looked, actor, command, NotRequired);
    if refusal.Some? then Outcome(db, Refused(refusal.value))
    else if found != NotRequired then Outcome(looked, found)
    else
      var inserted := InsertDraft(Run(looked, gaps.insert), actor, newId, command);
      if inserted.reply != Refused(UniqueViolation) || !gaps.keyReported then inserted
      else
        var now := Run(inserted.db, gaps.reread);
        Outcome(now, DraftReplayReply(now, actor, command, inserted.reply))
  }

  /** The calls that take effect during a draft request. */
  ghost function DraftHistory(db: Db, actor: Actor, newId: Id, command: DraftCommand, gaps: Gaps): seq<Op> {
    var looked := Run(db, gaps.lookup);
    if DraftRefusal(db, actor.rt, command.what).Some? then []
    else if DraftReplayReply(looked, actor, command, NotRequired) != NotRequired then gaps.lookup
    else
      var upTo := gaps.lookup + gaps.insert + [Finance(CreateDraft(actor, newId, command))];
      if InsertDraft(Run(looked, gaps.insert), actor, newId, command).reply != Refused(UniqueViolation) || !gaps.keyReported then upTo
      else upTo + gaps.reread
  }

  lemma InsertAsStep(db: Db, actor: Actor, newId: Id, command: DraftCommand)
    requires command.what.source == None && CashAmount(command.what.amount)
    ensures InsertDraft(db, actor, newId, command).db == Run(db, [Finance(CreateDraft(actor, newId, command))])
  {
  }

  /** A draft request among others leaves what one run of atomic calls leaves, with one draft call in it. */
  lemma DraftCallIsARun(db: Db, actor: Actor, newId: Id, command: DraftCommand, gaps: Gaps)
    ensures DraftCall(db, actor, newId, command, gaps).db == Run(db, DraftHistory(db, actor, newId, command, gaps))
  {
    var op := Finance(CreateDraft(actor, newId, command));
    var looked := Run(db, gaps.lookup);
    if DraftRefusal(db, actor.rt, command.what).None? && DraftReplayReply(looked, actor, command, NotRequired) == NotRequired {
      InsertAsStep(Run(looked, gaps.insert), actor, newId, command);
      RunAppend(db, gaps.lookup, gaps.insert);
      RunAppend(db, gaps.lookup + gaps.insert, [op]);
      RunAppend(db, gaps.lookup + gaps.insert + [op], gaps.reread);
    }
  }

  /**
   Whatever commits in the gaps: when a keyed draft request succeeds with t, then t holds the
   request's key and content in the state it leaves. Two requests that succeed with one key
   therefore name one transaction.
   */
  lemma DraftCallHolds(db: Db, actor: Actor, newId: Id, command: DraftCommand, gaps: Gaps, t: Id)
    requires DraftCall(db, actor, newId, command, gaps).reply in {Done(t), Replayed(t)}
    ensures var after := DraftCall(db, actor, newId, command, gaps).db;
            TxnOf(after.txns, actor.rt, t) && after.txns[t].what == command.what && after.txns[t].key == command.key
  {
  }

  lemma HeldDraftReplays(db: Db, actor: Actor, newId: Id, command: DraftCommand, gaps: Gaps, t: Id)
    requires Sound(db) && Truthy(command.key) && NoEmptyKeyPost(gaps.lookup, t)
    requires TxnOf(db.txns, actor.rt, t) && db.txns[t].what == command.what && db.txns[t].key == command.key
    ensures DraftCall(db, actor, newId, command, gaps)
         == if DraftRefusal(db, actor.rt, command.what).Some? then Outcome(db, Refused(DraftRefusal(db, actor.rt, command.what).value))
            else Outcome(Run(db, gaps.lookup), Replayed(t))
  {
    HeldLater(db, gaps.lookup, t);
    OnlyHolder(Run(db, gaps.lookup).txns, t, command.key.value);
  }

  /**
   After a keyed draft request succeeded with t, the same request at any later time, whatever commits
   in its gaps, creates nothing: it answers with t, unless account or category may no longer be used.
   */
  lemma DraftCallRepeats(
    db: Db, actor: Actor, newId: Id, command: DraftCommand, gaps: Gaps, t: Id, between: seq<Op>, again: Id, gaps': Gaps)
    requires Sound(db) && Truthy(command.key) && DraftCall(db, actor, newId, command, gaps).reply in {Done(t), Replayed(t)}
    requires NoEmptyKeyPost(between, t) && NoEmptyKeyPost(gaps'.lookup, t)
    ensures var later := Run(DraftCall(db, actor, newId, command, gaps).db, between);
            DraftCall(later, actor, again, command, gaps')
            == if DraftRefusal(later, actor.rt, command.what).Some?
               then Outcome(later, Refused(DraftRefusal(later, actor.rt, command.what).value))
               else Outcome(Run(later, gaps'.lookup), Replayed(t))
  {
    var first := DraftCall(db, actor, newId, command, gaps).db;
    DraftCallIsARun(db, actor, newId, command, gaps);
    RunKeeps(db, DraftHistory(db, actor, newId, command, gaps));
    DraftCallHolds(db, actor, newId, command, gaps, t);
    HeldLater(first, between, t);
    RunKeeps(first, between);
    HeldDraftReplays(Run(first, between), actor, again, command, gaps', t);
  }

  /** Two draft requests with one key, the second at any later time: if both succeed they agree. */
  lemma DraftCallsAgree(
    db: Db, actor: Actor, newId: Id, command: DraftCommand, gaps: Gaps, t: Id,
    between: seq<Op>, other: Actor, otherId: Id, second: DraftCommand, gaps': Gaps, u: Id)
    requires Sound(db) && Truthy(command.key) && second.key == command.key && other.rt == actor.rt
    requires DraftCall(db, actor, newId, command, gaps).reply in {Done(t), Replayed(t)}
    requires NoEmptyKeyPost(between, t) && NoEmptyKeyPost(gaps'.lookup + gaps'.insert + gaps'.reread, t)
    requires var later := Run(DraftCall(db, actor, newId, command, gaps).db, between);
             DraftCall(later, other, otherId, second, gaps').reply in {Done(u), Replayed(u)}
    ensures t == u && second.what == command.what
  {
    var first := DraftCall(db, actor, newId, command, gaps);
    var later := Run(first.db, between);
    DraftCallIsARun(db, actor, newId, command, gaps);
    RunKeeps(db, DraftHistory(db, actor, newId, command, gaps));
    DraftCallHolds(db, actor, newId, command, gaps, t);
    HeldLater(first.db, between, t);
    RunKeeps(first.db, between);
    DraftCallIsARun(later, other, otherId, second, gaps');
    DraftCallHolds(later, other, otherId, second, gaps', u);
    var rest := DraftHistory(later, other, otherId, second, gaps');
    HistoryKeepsKeys(later, other, otherId, second, gaps', t);
    HeldLater(later, rest, t);
    NoClash(Run(later, rest).txns, t, u);
  }

  lemma HistoryKeepsKeys(db: Db, actor: Actor, newId: Id, command: DraftCommand, gaps: Gaps, t: Id)
    requires NoEmptyKeyPost(gaps.lookup + gaps.insert + gaps.reread, t)
    ensures NoEmptyKeyPost(DraftHistory(db, actor, newId, command, gaps), t)
  {
    var all := gaps.lookup + gaps.insert + gaps.reread;
    var rest := DraftHistory(db, actor, newId, command, gaps);
    forall i | 0 <= i < |rest|
      ensures rest[i] == Finance(CreateDraft(actor, newId, command)) || rest[i] in all
    {
      if i < |gaps.lookup| + |gaps.insert| {
        assert rest[i] == all[i];
      } else if i > |gaps.lookup| + |gaps.insert| {
        assert rest[i] == all[i - 1];
      }
    }
  }

  // ----- Any sequence of calls -----------------------------------------------------------------

  /** A call with what happens around it: a posting with retries, a draft request, or any atomic call. */
  datatype Call =
    | Posting(op: Op, s: Schedule)
    | Drafting(actor: Actor, newId: Id, command: DraftCommand, gaps: Gaps)
    | Plain(op: Op)

  predicate WellFormed(call: Call) {
    call.Posting? ==> Posts(call.op) && |call.s.attempts| == MAX_ATTEMPTS
  }

  ghost function After(db: Db, call: Call): Db
    requires WellFormed(call)
  {
    match call
    case Posting(op, s) => PostCall(db, op, s).db
    case Drafting(actor, newId, command, gaps) => DraftCall(db, actor, newId, command, gaps).db
    case Plain(op) => Step(db, op).db
  }

  ghost function Calls(db: Db, calls: seq<Call>): Db
    requires forall i :: 0 <= i < |calls| ==> WellFormed(calls[i])
    decreases |calls|
  {
    if calls == [] then db else Calls(After(db, calls[0]), calls[1..])
  }

  lemma AfterReachable(db: Db, call: Call)
    requires Reachable(db) && WellFormed(call)
    ensures Reachable(After(db, call))
  {
    match call
    case Posting(op, s) =>
      PostCallIsARun(db, op, s);
      ReachableRun(db, History(op, s.attempts) + s.after);
    case Drafting(actor, newId, command, gaps) =>
      DraftCallIsARun(db, actor, newId, command, gaps);
      ReachableRun(db, DraftHistory(db, actor, newId, command, gaps));
    case Plain(op) => ReachableStep(db, op);
  }

  lemma {:induction false} CallsReachable(db: Db, calls: seq<Call>)
    requires Reachable(db) && forall i :: 0 <= i < |calls| ==> WellFormed(calls[i])
    ensures Reachable(Calls(db, calls))
    decreases |calls|
  {
    if calls != [] {
      AfterReachable(db, calls[0]);
      CallsReachable(After(db, calls[0]), calls[1..]);
    }
  }

  /**
   After any finite sequence of calls, with any keys, conflicts, retries and calls in between: each
   transaction has at most one ledger row, and one exactly when it is posted; each collection is the
   source of at most one transaction.
   */
  lemma AnyCallsPostOnce(db: Db, calls: seq<Call>, t: Id, u: Id)
    requires Reachable(db) && forall i :: 0 <= i < |calls| ==> WellFormed(calls[i])
    requires t in Calls(db, calls).txns && u in Calls(db, calls).txns
    ensures var later := Calls(db, calls);
            && CountFor(later.ledger, t) == (if later.txns[t].status == TxnStatus.Posted then 1 else 0)
            && (later.txns[t].what.source.Some? && later.txns[t].what.source == later.txns[u].what.source ==> t == u)
  {
    CallsReachable(db, calls);
    ReachablePostsOnce(Calls(db, calls), t, u);
  }

  lemma ReachablePostsOnce(db: Db, t: Id, u: Id)
    requires Reachable(db) && t in db.txns && u in db.txns
    ensures CountFor(db.ledger, t) == (if db.txns[t].status == TxnStatus.Posted then 1 else 0)
    ensures db.txns[t].what.source.Some? && db.txns[t].what.source == db.txns[u].what.source ==> t == u
  {
    ReachableSound(db);
    if t != u { KeysAndSourcesUnique(db, t, u); }
  }
}
