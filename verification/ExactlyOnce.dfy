/** Idempotency keys, replays and retries. */
module ExactlyOnce {
  import opened Prelude
  import opened Tables
  import opened FinanceOps
  import opened LedgerLaws
  import opened FinanceLaws
  import opened CollectionLaws
  import opened System
  import opened SystemLaws
  import opened Theorems

  // ----- Keys ----------------------------------------------------------------------------------

  /** No tenant stores one key under two transactions, and no collection is the source of two. */
  lemma KeysAndSourcesUnique(db: Db, t: Id, u: Id)
    requires Reachable(db) && t in db.txns && u in db.txns && t != u
    ensures db.txns[t].rt == db.txns[u].rt && db.txns[t].key.Some? ==> db.txns[t].key != db.txns[u].key
    ensures db.txns[t].what.source.Some? ==> db.txns[t].what.source != db.txns[u].what.source
  {
    ReachableSound(db);
    assert !Clash(db.txns[t], db.txns[u]);
  }

  /** The guards of a posting: the tenant's validated transaction, and nothing that refuses it. */
  ghost predicate PostingDue(db: Db, rt: Id, t: Id, key: Option<string>) {
    TxnOf(db.txns, rt, t) && db.txns[t].status == TxnStatus.Validated && PostRefusal(db, t, key) == None
  }

  /** The call brings another key than the stored one to a posting of t that every guard allows. */
  ghost predicate ReplacesKey(db: Db, op: Op, t: Id)
    requires t in db.txns
  {
    && op.Finance? && op.finance.PostTxn? && op.finance.txn == t
    && op.finance.key.Some? && op.finance.key != db.txns[t].key
    && PostingDue(db, op.finance.rt, t, op.finance.key)
  }

  /** The call brings the empty string as key to the posting of t, and every guard of the posting holds. */
  ghost predicate PostsWithEmptyKey(db: Db, op: Op, t: Id) {
    && op.Finance? && op.finance.PostTxn? && op.finance.txn == t && op.finance.key == Some("")
    && PostingDue(db, op.finance.rt, t, Some(""))
  }

  lemma PostingDueIsDone(db: Db, rt: Id, t: Id, key: Option<string>)
    ensures PostTxnStep(db, rt, t, key).reply == Done(t) <==> PostingDue(db, rt, t, key)
  {
  }

  lemma PostedKey(db: Db, rt: Id, t: Id, key: Option<string>)
    requires PostTxnStep(db, rt, t, key).reply == Done(t)
    ensures t in db.txns && PostTxnStep(db, rt, t, key).db.txns[t] == PostedRow(db.txns[t], key)
  {
  }

  lemma PostedReply(db: Db, rt: Id, t: Id, key: Option<string>)
    requires t in db.txns
    ensures var step := PostTxnStep(db, rt, t, key);
            t in step.db.txns && (step.db.txns[t] != db.txns[t] ==> step.reply == Done(t))
  {
  }

  /** The key of a transaction changes in exactly one way: a posting that every guard allows brings another key. */
  lemma KeyChangesExactly(db: Db, op: Op, t: Id)
    requires Sound(db) && t in db.txns
    ensures t in Step(db, op).db.txns
    ensures Step(db, op).db.txns[t].key != db.txns[t].key <==> ReplacesKey(db, op, t)
    ensures ReplacesKey(db, op, t) ==> Step(db, op).db.txns[t] == PostedRow(db.txns[t], op.finance.key)
  {
    StepOnTxn(db, op, t);
    if op.Finance? && op.finance.PostTxn? && op.finance.txn == t {
      PostedReply(db, op.finance.rt, t, op.finance.key);
      PostingDueIsDone(db, op.finance.rt, t, op.finance.key);
      if PostingDue(db, op.finance.rt, t, op.finance.key) {
        PostedKey(db, op.finance.rt, t, op.finance.key);
      }
    }
  }

  /** A key that is there is only replaced if it, or the one that replaces it, is the empty string: no key to the checks. */
  lemma ReplacedOnlyByEmpty(db: Db, op: Op, t: Id)
    requires t in db.txns && db.txns[t].key.Some? && ReplacesKey(db, op, t)
    ensures db.txns[t].key == Some("") || op.finance.key == Some("")
  {
  }

  /**
   A non-empty stored key is write-once but for one call: it changes exactly when the empty string is
   brought as key to a posting that every guard allows.
   */
  lemma KeyWriteOnceExceptEmpty(db: Db, op: Op, t: Id)
    requires Sound(db) && t in db.txns && Truthy(db.txns[t].key)
    ensures t in Step(db, op).db.txns
    ensures Step(db, op).db.txns[t].key != db.txns[t].key <==> PostsWithEmptyKey(db, op, t)
  {
    KeyChangesExactly(db, op, t);
    if ReplacesKey(db, op, t) {
      ReplacedOnlyByEmpty(db, op, t);
    }
  }

  /** Some call of the run replaces the key of t. */
  ghost predicate ReplacedIn(db: Db, ops: seq<Op>, t: Id)
    requires Sound(db) && t in db.txns
    decreases |ops|
  {
    if ops == [] then false else
      KeyChangesExactly(db, ops[0], t);
      StepKeeps(db, ops[0]);
      ReplacesKey(db, ops[0], t) || ReplacedIn(Step(db, ops[0]).db, ops[1..], t)
  }

  /** Over whole runs: a key ends up different exactly if some call of the run replaced it; what replaced it stays. */
  lemma {:induction false} KeyChangedInRun(db: Db, ops: seq<Op>, t: Id)
    requires Sound(db) && t in db.txns
    ensures t in Run(db, ops).txns
    ensures Run(db, ops).txns[t].key != db.txns[t].key <==> ReplacedIn(db, ops, t)
    decreases |ops|
  {
    if ops != [] {
      var next := Step(db, ops[0]).db;
      KeyChangesExactly(db, ops[0], t);
      StepKeeps(db, ops[0]);
      if ReplacesKey(db, ops[0], t) {
        FinalLater(next, ops[1..], t);
      } else {
        KeyChangedInRun(next, ops[1..], t);
      }
    }
  }

  ghost predicate NoEmptyKeyPost(ops: seq<Op>, t: Id) {
    forall i :: 0 <= i < |ops| ==>
      !(ops[i].Finance? && ops[i].finance.PostTxn? && ops[i].finance.txn == t && ops[i].finance.key == Some(""))
  }

  /** The call could replace the stored key: it posts t with another, and one of the two is the empty string. */
  predicate MayReplace(op: Op, t: Id, stored: Option<string>) {
    && op.Finance? && op.finance.PostTxn? && op.finance.txn == t
    && op.finance.key.Some? && op.finance.key != stored && (stored == Some("") || op.finance.key == Some(""))
  }

  /** In every run without such a call a stored key stays, the empty one included. */
  lemma {:induction false} KeyKept(db: Db, ops: seq<Op>, t: Id)
    requires Sound(db) && t in db.txns && db.txns[t].key.Some?
    requires forall i :: 0 <= i < |ops| ==> !MayReplace(ops[i], t, db.txns[t].key)
    ensures t in Run(db, ops).txns && Run(db, ops).txns[t].key == db.txns[t].key
    decreases |ops|
  {
    if ops != [] {
      StepKeeps(db, ops[0]);
      KeyStays(db, ops[0], t);
      assert forall i :: 0 <= i < |ops[1..]| ==> ops[1..][i] == ops[i + 1];
      KeyKept(Step(db, ops[0]).db, ops[1..], t);
    }
  }

  lemma KeyStays(db: Db, op: Op, t: Id)
    requires Sound(db) && t in db.txns && db.txns[t].key.Some? && !MayReplace(op, t, db.txns[t].key)
    ensures t in Step(db, op).db.txns && Step(db, op).db.txns[t].key == db.txns[t].key
  {
    KeyChangesExactly(db, op, t);
    if ReplacesKey(db, op, t) {
      ReplacedOnlyByEmpty(db, op, t);
    }
  }

  // ----- Replays -------------------------------------------------------------------------------

  lemma OnlyHolder(txns: map<Id, Txn>, t: Id, key: string)
    requires UniqueTxns(txns) && t in txns && txns[t].key == Some(key)
    ensures KeyHolders(txns, txns[t].rt, key) == {t}
  {
  }

  /**
   While a transaction holds the key, repeating its draft request changes nothing and answers with
   it, unless the account or category it names may no longer be used; a different request with the
   same key is refused.
   */
  lemma DraftReplay(db: Db, actor: Actor, newId: Id, command: DraftCommand, t: Id)
    requires FinanceSound(db) && t in db.txns && db.txns[t].rt == actor.rt
    requires Truthy(command.key) && db.txns[t].key == command.key
    ensures var step := CreateDraftStep(db, actor, newId, command);
            && step.db == db
            && (step.reply == Replayed(t) <==> DraftRefusal(db, actor.rt, command.what) == None && db.txns[t].what == command.what)
            && (step.reply == Replayed(t) || step.reply.Refused?)
  {
    OnlyHolder(db.txns, t, command.key.value);
  }

  lemma DraftStored(db: Db, actor: Actor, newId: Id, command: DraftCommand)
    requires CreateDraftStep(db, actor, newId, command).reply == Done(newId) && Truthy(command.key)
    ensures var after := CreateDraftStep(db, actor, newId, command).db;
            newId in after.txns && after.txns[newId] == Txn(actor.rt, command.what, command.key, TxnStatus.Draft, actor.user)
  {
  }

  lemma DraftSound(db: Db, actor: Actor, newId: Id, command: DraftCommand)
    requires Sound(db)
    ensures Sound(CreateDraftStep(db, actor, newId, command).db)
  {
    var w := CreateDraftWrites(db, actor, newId, command);
    WriteSound(db, CreateDraftStep(db, actor, newId, command).db, w);
  }

  lemma HeldLater(created: Db, ops: seq<Op>, t: Id)
    requires Sound(created) && t in created.txns && Truthy(created.txns[t].key) && NoEmptyKeyPost(ops, t)
    ensures var later := Run(created, ops);
            && FinanceSound(later) && t in later.txns
            && later.txns[t].rt == created.txns[t].rt && later.txns[t].what == created.txns[t].what
            && later.txns[t].key == created.txns[t].key
  {
    forall i | 0 <= i < |ops| ensures !MayReplace(ops[i], t, created.txns[t].key) {}
    KeyKept(created, ops, t);
    RunKeeps(created, ops);
    assert TxnEvolves(created.txns[t], Run(created, ops).txns[t]);
  }

  /** After a keyed draft was created, repeating it at any later time creates nothing. */
  lemma DraftCreatedOnce(db: Db, actor: Actor, newId: Id, command: DraftCommand, ops: seq<Op>, again: Id)
    requires Reachable(db) && Truthy(command.key)
    requires CreateDraftStep(db, actor, newId, command).reply == Done(newId)
    requires NoEmptyKeyPost(ops, newId)
    ensures var later := Run(CreateDraftStep(db, actor, newId, command).db, ops);
            var step := CreateDraftStep(later, actor, again, command);
            && step.db == later
            && step.reply == if DraftRefusal(later, actor.rt, command.what).Some?
                             then Refused(DraftRefusal(later, actor.rt, command.what).value) else Replayed(newId)
  {
    ReachableSound(db);
    DraftSound(db, actor, newId, command);
    DraftStored(db, actor, newId, command);
    HeldLater(CreateDraftStep(db, actor, newId, command).db, ops, newId);
    DraftReplay(Run(CreateDraftStep(db, actor, newId, command).db, ops), actor, again, command, newId);
  }

  /** A posted transaction answers its own key and keyless calls, and refuses every other key. */
  lemma PostedAnswers(db: Db, rt: Id, t: Id, key: Option<string>)
    requires TxnOf(db.txns, rt, t) && db.txns[t].status == TxnStatus.Posted
    ensures PostTxnStep(db, rt, t, key)
         == Outcome(db, if Truthy(key) && key != db.txns[t].key then Refused(ReplayMismatch) else Replayed(t))
  {
  }

  lemma PostedState(db: Db, rt: Id, t: Id, key: Option<string>)
    requires PostTxnStep(db, rt, t, key).reply == Done(t)
    ensures var after := PostTxnStep(db, rt, t, key).db;
            && TxnOf(after.txns, rt, t) && after.txns[t].status == TxnStatus.Posted
            && (Truthy(key) ==> after.txns[t].key == key)
  {
  }

  lemma FinalLater(db: Db, ops: seq<Op>, t: Id)
    requires Sound(db) && t in db.txns && Final(db.txns[t].status)
    ensures t in Run(db, ops).txns && Run(db, ops).txns[t] == db.txns[t]
  {
    RunKeeps(db, ops);
    assert TxnEvolves(db.txns[t], Run(db, ops).txns[t]);
  }

  /** After a successful posting, repeating the call at any later time changes nothing and succeeds. */
  lemma PostedOnce(db: Db, rt: Id, t: Id, key: Option<string>, ops: seq<Op>)
    requires Reachable(db) && PostTxnStep(db, rt, t, key).reply == Done(t)
    ensures var later := Run(PostTxnStep(db, rt, t, key).db, ops);
            PostTxnStep(later, rt, t, key) == Outcome(later, Replayed(t))
  {
    var posted := PostTxnStep(db, rt, t, key).db;
    ReachableSound(db);
    PostedSound(db, rt, t, key);
    PostedState(db, rt, t, key);
    FinalLater(posted, ops, t);
    PostedAnswers(Run(posted, ops), rt, t, key);
  }

  // ----- Collections ---------------------------------------------------------------------------

  /**
   A transaction that names a collection is posted, with one row, and carries the collection's
   frozen total, which for PER_HOUSE is the sum of its paid items; its collection is validated.
   */
  lemma CollectionPostedExactly(db: Db, t: Id)
    requires Reachable(db) && t in db.txns && db.txns[t].what.source.Some?
    ensures var x := db.txns[t];
            && x.status == TxnStatus.Posted && CountFor(db.ledger, t) == 1
            && x.what.source.value in db.collections
            && var c := db.collections[x.what.source.value];
               && c.rt == x.rt && c.status == CollectionStatus.Validated
               && x.what.amount == c.total > 0
               && (c.mode == PerHouse ==> x.what.amount == PaidSum(c.items))
  {
    ReachableSound(db);
    assert SourceSound(db.txns[t], db.collections);
    PostingAmountIsTotal(db.collections[db.txns[t].what.source.value]);
  }

  lemma PostingAmountIsTotal(c: Collection)
    ensures PostingAmount(c).Some? ==> PostingAmount(c).value == c.total > 0
    ensures PostingAmount(c).Some? && c.mode == PerHouse ==> PostingAmount(c).value == PaidSum(c.items)
  {
  }

  /** The transaction and its collection stay exactly as they are in every continuation. */
  lemma CollectionFrozen(db: Db, ops: seq<Op>, t: Id)
    requires Sound(db) && t in db.txns && db.txns[t].what.source.Some?
    ensures var later := Run(db, ops);
            var c := db.txns[t].what.source.value;
            && t in later.txns && later.txns[t] == db.txns[t]
            && c in db.collections && c in later.collections && later.collections[c] == db.collections[c]
  {
    assert SourceSound(db.txns[t], db.collections);
    RunKeeps(db, ops);
    assert TxnEvolves(db.txns[t], Run(db, ops).txns[t]);
    assert SessionEvolves(db.collections[db.txns[t].what.source.value], Run(db, ops).collections[db.txns[t].what.source.value]);
  }

  /** The answer "already in progress or incomplete" is never given. */
  lemma IncompleteUnreachable(db: Db, t: Id, requested: Option<string>)
    requires Reachable(db) && t in db.txns && db.txns[t].what.source.Some?
    ensures CollectionReplay(db, t, requested) != Refused(Incomplete)
    ensures CollectionReplay(db, t, requested)
         == if Truthy(requested) && requested != db.txns[t].key then Refused(ReplayMismatch) else Replayed(t)
  {
    ReachableSound(db);
    SourceReplays(db, t, requested);
  }

  lemma SourceReplays(db: Db, t: Id, requested: Option<string>)
    requires Sound(db) && t in db.txns && db.txns[t].what.source.Some?
    ensures CollectionReplay(db, t, requested)
         == if Truthy(requested) && requested != db.txns[t].key then Refused(ReplayMismatch) else Replayed(t)
  {
    assert SourceSound(db.txns[t], db.collections);
    CountZero(db.ledger, t);
  }

  lemma CollectionBooked(db: Db, actor: Actor, post: PostCollectionCommand, ids: NewIds)
    requires PostCollectionStep(db, actor, post, ids).reply == Done(ids.txn)
    ensures var after := PostCollectionStep(db, actor, post, ids).db;
            && ids.txn in after.txns
            && after.txns[ids.txn].rt == actor.rt
            && after.txns[ids.txn].what.source == Some(post.collection)
            && after.txns[ids.txn].key == Some(post.key.GetOr(CollectionKey(post.collection)))
  {
  }

  lemma CollectionAnswers(db: Db, actor: Actor, post: PostCollectionCommand, ids: NewIds, t: Id)
    requires Sound(db) && t in db.txns && db.txns[t].rt == actor.rt && db.txns[t].what.source == Some(post.collection)
    ensures PostCollectionStep(db, actor, post, ids) == Outcome(db, CollectionReplay(db, t, post.key))
  {
    var holders := TenantSourceHolders(db.txns, actor.rt, post.collection);
    forall u | u in holders ensures u == t {
      NoClash(db.txns, t, u);
    }
    assert t in holders;
    assert Only(holders) == t;
  }

  lemma CollectionPostedReachable(db: Db, actor: Actor, post: PostCollectionCommand, ids: NewIds)
    requires Reachable(db)
    ensures Reachable(PostCollectionStep(db, actor, post, ids).db)
  {
    ReachableStep(db, Finance(PostCollection(actor, post, ids)));
    PostCollectionIsStep(db, actor, post, ids);
  }

  lemma PostCollectionIsStep(db: Db, actor: Actor, post: PostCollectionCommand, ids: NewIds)
    ensures Step(db, Finance(PostCollection(actor, post, ids))) == PostCollectionStep(db, actor, post, ids)
  {
  }

  /** After a collection was posted, repeating the call at any later time books nothing and succeeds. */
  lemma CollectionPostedOnce(db: Db, actor: Actor, post: PostCollectionCommand, ids: NewIds, ops: seq<Op>, again: NewIds)
    requires Reachable(db) && PostCollectionStep(db, actor, post, ids).reply == Done(ids.txn)
    ensures var later := Run(PostCollectionStep(db, actor, post, ids).db, ops);
            PostCollectionStep(later, actor, post, again) == Outcome(later, Replayed(ids.txn))
  {
    CollectionBooked(db, actor, post, ids);
    CollectionPostedReachable(db, actor, post, ids);
    CollectionLater(PostCollectionStep(db, actor, post, ids).db, actor, post, ops, ids.txn, again);
  }

  lemma CollectionLater(posted: Db, actor: Actor, post: PostCollectionCommand, ops: seq<Op>, t: Id, again: NewIds)
    requires Reachable(posted) && t in posted.txns && posted.txns[t].rt == actor.rt
    requires posted.txns[t].what.source == Some(post.collection)
    requires posted.txns[t].key == Some(post.key.GetOr(CollectionKey(post.collection)))
    ensures var later := Run(posted, ops);
            PostCollectionStep(later, actor, post, again) == Outcome(later, Replayed(t))
  {
    ReachableSound(posted);
    RunKeeps(posted, ops);
    CollectionFrozen(posted, ops, t);
    CollectionAnswers(Run(posted, ops), actor, post, again, t);
    SourceReplays(Run(posted, ops), t, post.key);
  }
}
