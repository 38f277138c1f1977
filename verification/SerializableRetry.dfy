/**
 The retry loop around serializable transactions, and the whole calls that use it. Other transactions
 commit between attempts: views[k] is the database as attempt k finds it, conflicts[k] says whether
 the database gives up on the attempt.
 */
module SerializableRetry {
  import opened Prelude
  import opened Tables
  import opened FinanceOps
  import opened FinanceLaws
  import opened ApprovalOps
  import opened System
  import opened SystemLaws
  import opened Concurrency
  import opened Database
  import F = FinanceRepository
  import A = ApprovalsRepository

  class SerializableRetry {
    const db: Database
    const finance: F.FinanceRepository
    const approvals: A.ApprovalsRepository

    /** The repositories work on one database. */
    ghost predicate Shared() {
      finance.db == db && approvals.db == db
    }

    constructor (db: Database, finance: F.FinanceRepository, approvals: A.ApprovalsRepository)
      requires finance.db == db && approvals.db == db
      ensures this.db == db && this.finance == finance && this.approvals == approvals && Shared()
    {
      this.db, this.finance, this.approvals := db, finance, approvals;
    }

    /** One serializable attempt: all of it, or nothing. */
    method Attempt(op: Op) returns (reply: Reply)
      requires Shared() && db.Valid() && Retries(op)
      modifies db
      ensures db.Valid() && Evolves(old(db.Snapshot()), db.Snapshot())
      ensures Outcome(db.Snapshot(), reply) == Step(old(db.Snapshot()), op)
    {
      match op
      case Finance(PostTxn(rt, t, key)) => reply := finance.PostOnce(rt, t, key);
      case Finance(PostCollection(actor, post, ids)) => reply := finance.PostValidatedCollection(actor, post, ids);
      case Approve(RequestApprovals(actor, t, request)) => reply := approvals.RequestOnce(actor, t, request);
      case Approve(Decide(actor, a, approve, seen)) => reply := approvals.DecideOnce(actor, a, approve, seen);
    }

    /** An attempt on the database as others have left it. */
    method AttemptOn(view: Db, op: Op) returns (reply: Reply)
      requires Shared() && Sound(view) && view.platform == db.platform && Retries(op)
      modifies db
      ensures Outcome(db.Snapshot(), reply) == Step(view, op)
    {
      db.Restore(view);
      reply := Attempt(op);
    }

    /** The attempts, whatever they leave: the specification's. */
    method Attempts(op: Op, views: seq<Db>, conflicts: seq<bool>, ghost start: Db, ghost attempts: seq<Attempt>) returns (reply: Reply)
      requires Shared() && Sound(start) && start.platform == db.platform && Retries(op)
      requires Attempted(start, attempts, views, conflicts)
      modifies db
      ensures Outcome(db.Snapshot(), reply) == Retried(start, op, attempts)
    {
      var attempt := 0;
      while attempt < MAX_ATTEMPTS
        invariant 0 <= attempt < MAX_ATTEMPTS && AllConflicts(conflicts, attempt)
        decreases MAX_ATTEMPTS - attempt
      {
        ViewSound(start, attempts, views, conflicts, attempt);
        if !conflicts[attempt] {
          SucceedsAt(start, op, attempts, views, conflicts, attempt);
          reply := AttemptOn(views[attempt], op);
          return;
        }
        db.Restore(views[attempt]);
        if attempt == MAX_ATTEMPTS - 1 {
          GivesUp(start, op, attempts, views, conflicts);
          return Refused(SerializationFailure);
        }
        attempt := attempt + 1;
      }
    }

    /** At most three attempts; only a serialization conflict is tried again. */
    method Execute(op: Op, views: seq<Db>, conflicts: seq<bool>, ghost attempts: seq<Attempt>) returns (reply: Reply)
      requires Shared() && db.Valid() && Retries(op) && Attempted(db.Snapshot(), attempts, views, conflicts)
      modifies db
      ensures db.Valid() && Evolves(old(db.Snapshot()), db.Snapshot())
      ensures Outcome(db.Snapshot(), reply) == Retried(old(db.Snapshot()), op, attempts)
    {
      RetriedKept(db.Snapshot(), op, attempts);
      reply := Attempts(op, views, conflicts, db.Snapshot(), attempts);
    }

    /** After a conflict: has the posting been made by now, and does it match the request? */
    method FindPosting(op: Op, reply: Reply) returns (answer: Reply)
      requires db.Valid() && Posts(op)
      ensures answer == Reread(db.Snapshot(), op, reply)
    {
      if op.finance.PostTxn? {
        var t, key := op.finance.txn, op.finance.key;
        if t in db.txns && db.txns[t].rt == op.finance.rt && db.txns[t].status == TxnStatus.Posted {
          return if !Truthy(key) || db.txns[t].key == key then Replayed(t) else Refused(ReplayMismatch);
        }
        return reply;
      }
      var rt, post := op.finance.actor.rt, op.finance.post;
      if t :| t in db.txns && db.txns[t].rt == rt && db.txns[t].what.source == Some(post.collection) {
        F.OneSource(db.txns, rt, post.collection, t);
        if db.txns[t].status == TxnStatus.Posted && HasRow(db.ledger, t) {
          return if !Truthy(post.key) || db.txns[t].key == post.key then Replayed(t) else Refused(ReplayMismatch);
        }
      } else {
        assert TenantSourceHolders(db.txns, rt, post.collection) == {};
      }
      answer := reply;
    }

    /**
     A whole posting call. When the attempts end in a conflict, stored state is read again, with what
     others have committed since; if the posting exists by then, the call answers from it.
     */
    method Post(op: Op, views: seq<Db>, conflicts: seq<bool>, last: Db, ghost s: Schedule) returns (reply: Reply)
      requires Shared() && db.Valid() && Posts(op) && Attempted(db.Snapshot(), s.attempts, views, conflicts)
      requires last.platform == db.platform && last == Run(Retried(db.Snapshot(), op, s.attempts).db, s.after)
      modifies db
      ensures db.Valid() && Evolves(old(db.Snapshot()), db.Snapshot())
      ensures Outcome(db.Snapshot(), reply) == PostCall(old(db.Snapshot()), op, s)
    {
      PostCallKept(db.Snapshot(), op, s);
      reply := Execute(op, views, conflicts, s.attempts);
      db.Restore(last);
      if reply == Refused(UniqueViolation) || reply == Refused(SerializationFailure) {
        reply := FindPosting(op, reply);
      }
    }
  }

  lemma RetriedKept(db: Db, op: Op, attempts: seq<Attempt>)
    requires Sound(db) && |attempts| == MAX_ATTEMPTS
    ensures Sound(Retried(db, op, attempts).db) && Evolves(db, Retried(db, op, attempts).db)
  {
    AttemptsAreARun(db, op, attempts);
    RunKeeps(db, History(op, attempts));
  }

  lemma PostCallKept(db: Db, op: Op, s: Schedule)
    requires Sound(db) && Posts(op) && |s.attempts| == MAX_ATTEMPTS
    ensures Sound(PostCall(db, op, s).db) && Evolves(db, PostCall(db, op, s).db)
    ensures Sound(Retried(db, op, s.attempts).db)
  {
    var tried := Retried(db, op, s.attempts).db;
    RetriedKept(db, op, s.attempts);
    RunKeeps(tried, s.after);
    EvolvesTransitive(db, tried, Run(tried, s.after));
  }

  lemma NextAttempt(start: Db, op: Op, attempts: seq<Attempt>, views: seq<Db>, conflicts: seq<bool>, k: nat)
    requires Attempted(start, attempts, views, conflicts) && k < MAX_ATTEMPTS
    ensures AttemptsFrom(if k == 0 then start else views[k - 1], op, attempts[k..])
         == if !conflicts[k] then Step(views[k], op)
            else if k == MAX_ATTEMPTS - 1 then Outcome(views[k], Refused(SerializationFailure))
            else AttemptsFrom(views[k], op, attempts[k + 1..])
  {
    assert FoundBy(start, attempts, views, k);
    OneAttempt(if k == 0 then start else views[k - 1], op, attempts[k..], views[k]);
    assert attempts[k..][1..] == attempts[k + 1..];
  }

  /** The first k attempts ended in a conflict. */
  predicate AllConflicts(conflicts: seq<bool>, k: nat) {
    k <= |conflicts| && forall j :: 0 <= j < k ==> conflicts[j]
  }

  lemma OneMoreConflict(start: Db, op: Op, attempts: seq<Attempt>, views: seq<Db>, conflicts: seq<bool>, k: nat, goal: Outcome)
    requires Attempted(start, attempts, views, conflicts) && k + 1 < MAX_ATTEMPTS && conflicts[k]
    requires goal == AttemptsFrom(if k == 0 then start else views[k - 1], op, attempts[k..])
    ensures goal == AttemptsFrom(views[k], op, attempts[k + 1..])
  {
    NextAttempt(start, op, attempts, views, conflicts, k);
  }

  lemma AfterNone(start: Db, op: Op, attempts: seq<Attempt>)
    requires |attempts| == MAX_ATTEMPTS
    ensures Retried(start, op, attempts) == AttemptsFrom(start, op, attempts[0..])
  {
    assert attempts[0..] == attempts;
  }

  lemma AfterOne(start: Db, op: Op, attempts: seq<Attempt>, views: seq<Db>, conflicts: seq<bool>)
    requires Attempted(start, attempts, views, conflicts) && conflicts[0]
    ensures Retried(start, op, attempts) == AttemptsFrom(views[0], op, attempts[1..])
  {
    AfterNone(start, op, attempts);
    OneMoreConflict(start, op, attempts, views, conflicts, 0, Retried(start, op, attempts));
  }

  lemma AfterTwo(start: Db, op: Op, attempts: seq<Attempt>, views: seq<Db>, conflicts: seq<bool>)
    requires Attempted(start, attempts, views, conflicts) && conflicts[0] && conflicts[1]
    ensures Retried(start, op, attempts) == AttemptsFrom(views[1], op, attempts[2..])
  {
    AfterOne(start, op, attempts, views, conflicts);
    OneMoreConflict(start, op, attempts, views, conflicts, 1, Retried(start, op, attempts));
  }

  lemma AfterConflicts(start: Db, op: Op, attempts: seq<Attempt>, views: seq<Db>, conflicts: seq<bool>, k: nat)
    requires Attempted(start, attempts, views, conflicts) && k < MAX_ATTEMPTS && AllConflicts(conflicts, k)
    ensures Retried(start, op, attempts) == AttemptsFrom(if k == 0 then start else views[k - 1], op, attempts[k..])
  {
    if k == 0 {
      AfterNone(start, op, attempts);
    } else if k == 1 {
      AfterOne(start, op, attempts, views, conflicts);
    } else {
      AfterTwo(start, op, attempts, views, conflicts);
    }
  }

  lemma SucceedsAt(start: Db, op: Op, attempts: seq<Attempt>, views: seq<Db>, conflicts: seq<bool>, k: nat)
    requires Attempted(start, attempts, views, conflicts) && k < MAX_ATTEMPTS && AllConflicts(conflicts, k) && !conflicts[k]
    ensures Retried(start, op, attempts) == Step(views[k], op)
  {
    AfterConflicts(start, op, attempts, views, conflicts, k);
    NextAttempt(start, op, attempts, views, conflicts, k);
  }

  lemma GivesUp(start: Db, op: Op, attempts: seq<Attempt>, views: seq<Db>, conflicts: seq<bool>)
    requires Attempted(start, attempts, views, conflicts) && AllConflicts(conflicts, MAX_ATTEMPTS - 1) && conflicts[MAX_ATTEMPTS - 1]
    ensures Retried(start, op, attempts) == Outcome(views[MAX_ATTEMPTS - 1], Refused(SerializationFailure))
  {
    AfterConflicts(start, op, attempts, views, conflicts, MAX_ATTEMPTS - 1);
    NextAttempt(start, op, attempts, views, conflicts, MAX_ATTEMPTS - 1);
  }

  lemma {:induction false} ViewSound(start: Db, attempts: seq<Attempt>, views: seq<Db>, conflicts: seq<bool>, k: nat)
    requires Sound(start) && Attempted(start, attempts, views, conflicts) && k < MAX_ATTEMPTS
    ensures Sound(views[k]) && Evolves(start, views[k])
  {
    assert FoundBy(start, attempts, views, k);
    if k == 0 {
      RunKeeps(start, attempts[0].before);
    } else {
      ViewSound(start, attempts, views, conflicts, k - 1);
      RunKeeps(views[k - 1], attempts[k].before);
      EvolvesTransitive(start, views[k - 1], views[k]);
    }
  }
}
