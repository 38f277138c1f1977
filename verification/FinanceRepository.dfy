/**
 The finance repository and the guards of its service, statement by statement on the shared tables.
 Each call is proved to be the atomic step that the laws of the system are about.
 */
module FinanceRepository {
  import opened Prelude
  import opened Sums
  import opened Tables
  import opened Policy
  import opened FinanceOps
  import opened LedgerLaws
  import opened FinanceLaws
  import opened SystemLaws
  import opened CallLaws
  import opened Database

  class FinanceRepository {
    const db: Database

    constructor (db: Database)
      ensures this.db == db
    {
      this.db := db;
    }

    // ----- Cash accounts -----------------------------------------------------------------------

    method CreateCashAccount(rt: Id, newId: Id, key: string) returns (reply: Reply)
      requires db.Valid()
      modifies db`accounts
      ensures db.Valid() && Evolves(old(db.Snapshot()), db.Snapshot())
      ensures Outcome(db.Snapshot(), reply) == AccountStep(old(db.Snapshot()), CreateAccount(rt, newId, key))
    {
      AccountKept(db.Snapshot(), CreateAccount(rt, newId, key));
      if newId in db.accounts {
        return Refused(UniqueViolation);
      }
      if a :| a in db.accounts && db.accounts[a].rt == rt && db.accounts[a].key == key {
        assert a in AccountsWithKey(db.accounts, rt, key);
        return Refused(UniqueViolation);
      }
      assert AccountsWithKey(db.accounts, rt, key) == {};
      db.accounts := db.accounts[newId := Account(rt, key, 0, 1, true, false)];
      reply := Done(newId);
    }

    method UpdateCashAccount(rt: Id, a: Id, active: Option<bool>) returns (reply: Reply)
      requires db.Valid()
      modifies db`accounts
      ensures db.Valid() && Evolves(old(db.Snapshot()), db.Snapshot())
      ensures Outcome(db.Snapshot(), reply) == AccountStep(old(db.Snapshot()), UpdateAccount(rt, a, active))
    {
      AccountKept(db.Snapshot(), UpdateAccount(rt, a, active));
      if !(a in db.accounts && db.accounts[a].rt == rt && !db.accounts[a].deleted) {
        return Refused(NotFound);
      }
      if active.Some? {
        db.accounts := db.accounts[a := db.accounts[a].(isActive := active.value)];
      }
      assert db.accounts == old(db.accounts)[a := old(db.accounts)[a].(isActive := active.GetOr(old(db.accounts)[a].isActive))];
      reply := Done(a);
    }

    /** An account with ledger rows is only made inactive; one without is soft-deleted. */
    method ArchiveCashAccount(rt: Id, a: Id) returns (reply: Reply)
      requires db.Valid()
      modifies db`accounts
      ensures db.Valid() && Evolves(old(db.Snapshot()), db.Snapshot())
      ensures Outcome(db.Snapshot(), reply) == AccountStep(old(db.Snapshot()), ArchiveAccount(rt, a))
    {
      AccountKept(db.Snapshot(), ArchiveAccount(rt, a));
      if !(a in db.accounts && db.accounts[a].rt == rt && !db.accounts[a].deleted) {
        return Refused(NotFound);
      }
      var hasRows := AccountUsed(db.ledger, rt, a);
      db.accounts := db.accounts[a := db.accounts[a].(isActive := false, deleted := !hasRows)];
      reply := Done(a);
    }

    /** The ordered query for an account's newest ledger row, by one pass. */
    method LatestRow(rt: Id, a: Id) returns (latest: Option<LedgerRow>)
      ensures latest == Latest(db.ledger, rt, a)
    {
      latest := None;
      for i := 0 to |db.ledger|
        invariant latest == Latest(db.ledger[..i], rt, a)
      {
        assert db.ledger[..i + 1][..i] == db.ledger[..i];
        var row := db.ledger[i];
        if row.rt == rt && row.account == a && (latest.None? || latest.value.sequence < row.sequence) {
          latest := Some(row);
        }
      }
      assert db.ledger[..|db.ledger|] == db.ledger;
    }

    /** Both modules derive an account's balance from the ledger in this way. */
    method GetCashAccountBalance(rt: Id, a: Id) returns (balance: Option<(int, nat)>)
      ensures balance == DerivedBalance(db.Snapshot(), rt, a)
    {
      if !(a in db.accounts && db.accounts[a].rt == rt && !db.accounts[a].deleted) {
        return None;
      }
      var latest := LatestRow(rt, a);
      balance := if latest.Some? then Some((latest.value.balanceAfter, latest.value.sequence)) else Some((0, 0));
    }

    // ----- Drafts and lifecycle ----------------------------------------------------------------

    predicate AccountUsable(rt: Id, a: Id)
      reads this, db
    {
      a in db.accounts && db.accounts[a].rt == rt && !db.accounts[a].deleted && db.accounts[a].isActive
    }

    method FindByKey(rt: Id, key: string) returns (found: Option<Id>)
      ensures found.None? <==> KeyHolders(db.txns, rt, key) == {}
      ensures found.Some? ==> found.value in KeyHolders(db.txns, rt, key)
    {
      if t :| t in db.txns && db.txns[t].rt == rt && db.txns[t].key == Some(key) {
        found := Some(t);
        assert t in KeyHolders(db.txns, rt, key);
      } else {
        found := None;
        assert KeyHolders(db.txns, rt, key) == {};
      }
    }

    method CreateTransactionDraft(actor: Actor, newId: Id, command: DraftCommand) returns (reply: Reply)
      requires db.Valid()
      modifies db`txns
      ensures db.Valid() && Evolves(old(db.Snapshot()), db.Snapshot())
      ensures Outcome(db.Snapshot(), reply) == CreateDraftStep(old(db.Snapshot()), actor, newId, command)
    {
      DraftKept(db.Snapshot(), actor, newId, command);
      var what := command.what;
      if what.source.Some? {
        return Refused(SourceNotAllowed);
      }
      if what.amount <= 0 || what.amount > MAX_AMOUNT {
        return Refused(BadAmount);
      }
      if !AccountUsable(actor.rt, what.account) {
        return Refused(InactiveAccount);
      }
      if !UsableCategory(db.categories, actor.rt, what.category, what.kind) {
        return Refused(InactiveCategory);
      }
      if command.key.Some? && command.key.value != "" {
        var found := FindByKey(actor.rt, command.key.value);
        if found.Some? {
          OneHolder(db.txns, actor.rt, command.key.value, found.value);
          if db.txns[found.value].what == what {
            return Replayed(found.value);
          }
          return Refused(ReplayMismatch);
        }
      }
      var row := Txn(actor.rt, what, command.key, TxnStatus.Draft, actor.user);
      if newId in db.txns || TxnCollides(db.txns, newId, row) {
        return Refused(UniqueViolation);
      }
      db.txns := db.txns[newId := row];
      reply := Done(newId);
    }

    /** The shared shape of validating, rejecting and voiding: read, check, guarded update. */
    method Transition(rt: Id, t: Id, from: set<TxnStatus>, to: TxnStatus) returns (reply: Reply)
      modifies db`txns
      ensures Outcome(db.Snapshot(), reply) == MoveStep(old(db.Snapshot()), rt, t, from, to)
    {
      if !(t in db.txns && db.txns[t].rt == rt) {
        return Refused(NotFound);
      }
      if db.txns[t].status !in from {
        return Refused(WrongStatus);
      }
      db.txns := db.txns[t := db.txns[t].(status := to)];
      reply := Done(t);
    }

    method ValidateTransaction(rt: Id, t: Id) returns (reply: Reply)
      requires db.Valid()
      modifies db`txns
      ensures db.Valid() && Evolves(old(db.Snapshot()), db.Snapshot())
      ensures Outcome(db.Snapshot(), reply) == MoveStep(old(db.Snapshot()), rt, t, {TxnStatus.Draft}, TxnStatus.Validated)
    {
      MoveKept(db.Snapshot(), rt, t, {TxnStatus.Draft}, TxnStatus.Validated);
      reply := Transition(rt, t, {TxnStatus.Draft}, TxnStatus.Validated);
    }

    method RejectTransaction(rt: Id, t: Id) returns (reply: Reply)
      requires db.Valid()
      modifies db`txns
      ensures db.Valid() && Evolves(old(db.Snapshot()), db.Snapshot())
      ensures Outcome(db.Snapshot(), reply)
           == MoveStep(old(db.Snapshot()), rt, t, {TxnStatus.Draft, TxnStatus.Validated}, TxnStatus.Rejected)
    {
      MoveKept(db.Snapshot(), rt, t, {TxnStatus.Draft, TxnStatus.Validated}, TxnStatus.Rejected);
      reply := Transition(rt, t, {TxnStatus.Draft, TxnStatus.Validated}, TxnStatus.Rejected);
    }

    method VoidTransaction(rt: Id, t: Id) returns (reply: Reply)
      requires db.Valid()
      modifies db`txns
      ensures db.Valid() && Evolves(old(db.Snapshot()), db.Snapshot())
      ensures Outcome(db.Snapshot(), reply) == MoveStep(old(db.Snapshot()), rt, t, {TxnStatus.Draft}, TxnStatus.Voided)
    {
      MoveKept(db.Snapshot(), rt, t, {TxnStatus.Draft}, TxnStatus.Voided);
      reply := Transition(rt, t, {TxnStatus.Draft}, TxnStatus.Voided);
    }

    // ----- Posting -----------------------------------------------------------------------------

    /** The expense gate: policy, threshold, and the decisions counted. */
    method ExpenseGate(rt: Id, t: Id) returns (refusal: Option<Refusal>)
      requires t in db.txns && db.txns[t].rt == rt
      ensures refusal == GateRefusal(GateOf(db.Snapshot(), t))
    {
      if db.txns[t].what.kind != Expense {
        return None;
      }
      var policy := GatePolicyOf(if rt in db.settings then Some(db.settings[rt]) else None);
      if policy.autoApprove {
        var below := db.platform.atMost(db.txns[t].what.amount, policy.threshold);
        if below.None? {
          return Some(MalformedThreshold);
        }
        if below.value {
          return None;
        }
      }
      var approvedCount := |With(db.approvals, t, Approved)|;
      var rejectedCount := |With(db.approvals, t, ApprovalStatus.Rejected)|;
      if rejectedCount > 0 {
        return Some(HasRejectedApproval);
      }
      if approvedCount < policy.required {
        return Some(ApprovalRequired);
      }
      refusal := None;
    }

    /** The key may be used if the transaction has no other and no other transaction has it. */
    method PostingKey(rt: Id, t: Id, requested: Option<string>) returns (refusal: Option<Refusal>)
      requires t in db.txns && db.txns[t].rt == rt
      ensures refusal == PostKeyRefusal(db.txns, t, requested)
    {
      if !Truthy(requested) {
        return None;
      }
      if Truthy(db.txns[t].key) && db.txns[t].key != requested {
        return Some(ReplayMismatch);
      }
      if u :| u in db.txns && u != t && db.txns[u].rt == rt && db.txns[u].key == requested {
        assert u in KeyHolders(db.txns, rt, requested.value) - {t};
        return Some(KeyOfAnother);
      }
      assert KeyHolders(db.txns, rt, requested.value) - {t} == {};
      refusal := None;
    }

    /**
     Locks the account by raising its version, appends the next row and writes the new balance. When
     it refuses, the version may already be raised; the caller rolls back.
     */
    method AppendLedger(t: Id, x: Txn) returns (refusal: Option<Refusal>)
      modifies db`accounts, db`ledger
      ensures refusal == AppendRefusal(old(db.accounts), old(db.ledger), t, x)
      ensures refusal.None? ==>
                && x.what.account in old(db.accounts)
                && var row := NextRow(old(db.ledger), t, x);
                   db.Snapshot() == old(db.Snapshot()).(
                     accounts := old(db.accounts)[x.what.account := AccountAfter(old(db.accounts)[x.what.account], row)],
                     ledger := old(db.ledger) + [row])
    {
      var a := x.what.account;
      if !AccountUsable(x.rt, a) {
        return Some(StateChanged);
      }
      db.accounts := db.accounts[a := db.accounts[a].(version := db.accounts[a].version + 1)];
      var latest := LatestRow(x.rt, a);
      var sequence := (if latest.Some? then latest.value.sequence else 0) + 1;
      var balanceBefore := if latest.Some? then latest.value.balanceAfter else 0;
      var entry := if x.what.kind == Expense then Decrease else Increase;
      var balanceAfter := if entry == Increase then balanceBefore + x.what.amount else balanceBefore - x.what.amount;
      if balanceAfter < 0 {
        return Some(InsufficientBalance);
      }
      var row := LedgerRow(x.rt, a, t, sequence, entry, x.what.amount, balanceBefore, balanceAfter);
      if RowCollides(db.ledger, row) {
        return Some(UniqueViolation);
      }
      db.ledger := db.ledger + [row];
      db.accounts := db.accounts[a := db.accounts[a].(currentBalance := balanceAfter)];
      assert db.accounts == old(db.accounts)[a := AccountAfter(old(db.accounts)[a], row)];
      refusal := None;
    }

    /** Everything that is checked before the ledger is touched. */
    method PostingInputs(rt: Id, t: Id, requested: Option<string>) returns (refusal: Option<Refusal>)
      requires t in db.txns && db.txns[t].rt == rt
      ensures refusal.Some? ==> PostRefusal(db.Snapshot(), t, requested) == refusal
      ensures refusal.None? ==>
                var x := db.txns[t];
                var append := AppendRefusal(db.accounts, db.ledger, t, x);
                PostRefusal(db.Snapshot(), t, requested)
                == if append.Some? then append
                   else if TxnCollides(db.txns, t, x.(key := KeyAfterPosting(x.key, requested))) then Some(UniqueViolation)
                   else None
    {
      var x := db.txns[t];
      if !AccountUsable(rt, x.what.account) {
        return Some(InactiveAccount);
      }
      if !UsableCategory(db.categories, rt, x.what.category, x.what.kind) {
        return Some(InactiveCategory);
      }
      refusal := ExpenseGate(rt, t);
      if refusal.None? {
        refusal := PostingKey(rt, t, requested);
      }
    }

    /** Appends the row and marks the transaction, or leaves everything as it was. */
    method BookPosting(t: Id, requested: Option<string>) returns (refusal: Option<Refusal>)
      requires t in db.txns
      modifies db`accounts, db`ledger, db`txns
      ensures var before := old(db.Snapshot());
              var x := before.txns[t];
              var key := KeyAfterPosting(x.key, requested);
              var append := AppendRefusal(before.accounts, before.ledger, t, x);
              && refusal == (if append.Some? then append
                             else if TxnCollides(before.txns, t, x.(key := key)) then Some(UniqueViolation) else None)
              && db.Snapshot() == if refusal.Some? then before else Booked(before, t, x, key)
    {
      var before := db.txns[t];
      var accounts, ledger := db.accounts, db.ledger;
      refusal := AppendLedger(t, before);
      var key := if requested.Some? then requested else before.key;
      if refusal.None? && TxnCollides(db.txns, t, before.(key := key)) {
        refusal := Some(UniqueViolation);
      }
      if refusal.Some? {
        db.accounts, db.ledger := accounts, ledger;
        return;
      }
      db.txns := db.txns[t := before.(status := TxnStatus.Posted, key := key)];
    }

    /** One serializable attempt: all of it, or nothing. */
    method PostOnce(rt: Id, t: Id, requested: Option<string>) returns (reply: Reply)
      requires db.Valid()
      modifies db`accounts, db`ledger, db`txns
      ensures db.Valid() && Evolves(old(db.Snapshot()), db.Snapshot())
      ensures Outcome(db.Snapshot(), reply) == PostTxnStep(old(db.Snapshot()), rt, t, requested)
    {
      PostKept(db.Snapshot(), rt, t, requested);
      if !(t in db.txns && db.txns[t].rt == rt) {
        return Refused(NotFound);
      }
      var before := db.txns[t];
      if before.status == TxnStatus.Posted {
        return if !Truthy(requested) || before.key == requested then Replayed(t) else Refused(ReplayMismatch);
      }
      if before.status != TxnStatus.Validated {
        return Refused(WrongStatus);
      }
      var refusal := PostingInputs(rt, t, requested);
      if refusal.None? {
        refusal := BookPosting(t, requested);
      }
      reply := if refusal.Some? then Refused(refusal.value) else Done(t);
    }

    // ----- Collections into the ledger ---------------------------------------------------------

    /** The paid total of a collection's items, summed row by row. */
    method CalculatePaidTotal(items: map<Id, Item>) returns (total: int)
      ensures total == PaidSum(items)
    {
      total := SumColumn(PaidAmounts(items));
    }

    method ResolveCollectionPostingAmount(c: Collection) returns (amount: Option<int>)
      ensures amount == PostingAmount(c)
    {
      if c.mode == BulkTotal {
        return if WholeCurrency(c.total) then Some(c.total) else None;
      }
      var total := CalculatePaidTotal(c.items);
      if total != c.total || total <= 0 {
        return None;
      }
      amount := Some(total);
    }

    method FindOrCreateDefaultAccount(rt: Id, wanted: Option<Id>, newId: Id) returns (choice: Choice)
      requires UniqueAccounts(db.accounts)
      modifies db`accounts
      ensures choice == ChooseAccount(old(db.Snapshot()), rt, wanted, newId)
      ensures db.Snapshot() == WithAccount(old(db.Snapshot()), rt, choice)
    {
      if wanted.Some? {
        return if AccountUsable(rt, wanted.value) then Existing(wanted.value) else Unavailable(InactiveAccount);
      }
      if a :| a in db.accounts && db.accounts[a].rt == rt && db.accounts[a].key == MAIN && !db.accounts[a].deleted {
        OneMain(db.accounts, rt, a);
        return if db.accounts[a].isActive then Existing(a) else Unavailable(InactiveAccount);
      }
      assert (set a | a in AccountsWithKey(db.accounts, rt, MAIN) && !db.accounts[a].deleted) == {};
      if newId in db.accounts || AccountsWithKey(db.accounts, rt, MAIN) != {} {
        return Unavailable(UniqueViolation);
      }
      db.accounts := db.accounts[newId := NewAccount(rt, MAIN)];
      choice := Created(newId);
    }

    method FindOrCreateJimpitanCategory(rt: Id, wanted: Option<Id>, newId: Id) returns (choice: Choice)
      requires UniqueCategories(db.categories)
      modifies db`categories
      ensures choice == ChooseCategory(old(db.Snapshot()), rt, wanted, newId)
      ensures db.Snapshot() == WithCategory(old(db.Snapshot()), rt, choice)
    {
      if wanted.Some? {
        return if UsableCategory(db.categories, rt, wanted.value, Income) then Existing(wanted.value) else Unavailable(InactiveCategory);
      }
      if c :| c in db.categories && db.categories[c].rt == Some(rt) && db.categories[c].key == JIMPITAN && db.categories[c].kind == Income {
        OneJimpitan(db.categories, rt, c);
        return if db.categories[c].isActive then Existing(c) else Unavailable(InactiveCategory);
      }
      assert JimpitanCategories(db.categories, rt) == {};
      if newId in db.categories {
        return Unavailable(UniqueViolation);
      }
      db.categories := db.categories[newId := Category(Some(rt), JIMPITAN, Income, true, true, false)];
      choice := Created(newId);
    }

    /** The answer from a transaction that already names the collection. */
    method AnswerExisting(t: Id, requested: Option<string>) returns (reply: Reply)
      requires t in db.txns
      ensures reply == CollectionReplay(db.Snapshot(), t, requested)
    {
      var existing := db.txns[t];
      if Truthy(requested) && existing.key != requested {
        return Refused(ReplayMismatch);
      }
      if existing.status == TxnStatus.Posted && exists i :: 0 <= i < |db.ledger| && db.ledger[i].txn == t {
        return Replayed(t);
      }
      reply := Refused(Incomplete);
    }

    /** Inserts the validated transaction, appends its row and posts it; a refusal is rolled back by the caller. */
    method InsertAndPost(t: Id, x: Txn) returns (refusal: Option<Refusal>)
      requires x.what.account in db.accounts
      modifies db`accounts, db`txns, db`ledger
      ensures var ready := old(db.Snapshot());
              && refusal == (if t in ready.txns || TxnCollides(ready.txns, t, x) then Some(UniqueViolation)
                             else AppendRefusal(ready.accounts, ready.ledger, t, x))
              && (refusal.None? ==> db.Snapshot() == Booked(ready, t, x, x.key))
    {
      if t in db.txns || TxnCollides(db.txns, t, x) {
        return Some(UniqueViolation);
      }
      db.txns := db.txns[t := x];
      refusal := AppendLedger(t, x);
      if refusal.None? {
        db.txns := db.txns[t := x.(status := TxnStatus.Posted)];
        assert db.txns == old(db.txns)[t := x.(status := TxnStatus.Posted, key := x.key)];
      }
    }

    /** The account and then the category a posting uses, each found or created. */
    method Prepare(rt: Id, post: PostCollectionCommand, ids: NewIds) returns (account: Choice, category: Choice)
      requires UniqueAccounts(db.accounts) && UniqueCategories(db.categories)
      modifies db`accounts, db`categories
      ensures account == ChooseAccount(old(db.Snapshot()), rt, post.account, ids.account)
      ensures account.Unavailable? ==> db.Snapshot() == old(db.Snapshot())
      ensures !account.Unavailable? ==>
                && category == ChooseCategory(old(db.Snapshot()), rt, post.category, ids.category)
                && db.Snapshot() == WithCategory(WithAccount(old(db.Snapshot()), rt, account), rt, category)
                && account.id in db.accounts
    {
      ghost var before := db.Snapshot();
      account := FindOrCreateDefaultAccount(rt, post.account, ids.account);
      category := Unavailable(InactiveAccount);
      if !account.Unavailable? {
        SameCategories(before, rt, account, post.category, ids.category);
        ChosenExists(before, rt, post.account, ids.account);
        category := FindOrCreateJimpitanCategory(rt, post.category, ids.category);
      }
    }

    /** Any refusal rolls everything back. */
    method BookValidated(actor: Actor, post: PostCollectionCommand, ids: NewIds, amount: int) returns (reply: Reply)
      requires UniqueAccounts(db.accounts) && UniqueCategories(db.categories) && post.collection in db.collections
      requires PostingAmount(db.collections[post.collection]) == Some(amount)
      modifies db`accounts, db`categories, db`txns, db`ledger
      ensures Outcome(db.Snapshot(), reply) == BookCollection(old(db.Snapshot()), actor, post, ids)
    {
      var saved := db.Snapshot();
      var collection := db.collections[post.collection];
      var account, category := Prepare(actor.rt, post, ids);
      if account.Unavailable? {
        return Refused(account.why);
      }
      if category.Unavailable? {
        db.RestoreBooks(saved);
        return Refused(category.why);
      }
      var refusal := InsertAndPost(ids.txn, CollectionTxn(actor, collection, post, amount, account.id, category.id));
      if refusal.Some? {
        db.RestoreBooks(saved);
        return Refused(refusal.value);
      }
      reply := Done(ids.txn);
    }

    /** One serializable attempt to post a validated collection. */
    method PostValidatedCollection(actor: Actor, post: PostCollectionCommand, ids: NewIds) returns (reply: Reply)
      requires db.Valid()
      modifies db`accounts, db`categories, db`txns, db`ledger
      ensures db.Valid() && Evolves(old(db.Snapshot()), db.Snapshot())
      ensures Outcome(db.Snapshot(), reply) == PostCollectionStep(old(db.Snapshot()), actor, post, ids)
    {
      PostCollectionKept(db.Snapshot(), actor, post, ids);
      if t :| t in db.txns && db.txns[t].rt == actor.rt && db.txns[t].what.source == Some(post.collection) {
        OneSource(db.txns, actor.rt, post.collection, t);
        reply := AnswerExisting(t, post.key);
        return;
      }
      assert TenantSourceHolders(db.txns, actor.rt, post.collection) == {};
      if !(post.collection in db.collections && db.collections[post.collection].rt == actor.rt
           && db.collections[post.collection].status == CollectionStatus.Validated) {
        return Refused(WrongStatus);
      }
      var amount := ResolveCollectionPostingAmount(db.collections[post.collection]);
      if amount.None? {
        return Refused(AmountMismatch);
      }
      reply := BookValidated(actor, post, ids, amount.value);
    }
  }

  // ----- What the unique indexes make of a query ------------------------------------------------

  lemma OneHolder(txns: map<Id, Txn>, rt: Id, key: string, t: Id)
    requires UniqueTxns(txns) && t in KeyHolders(txns, rt, key)
    ensures Only(KeyHolders(txns, rt, key)) == t
  {
  }

  lemma OneSource(txns: map<Id, Txn>, rt: Id, collection: Id, t: Id)
    requires UniqueTxns(txns) && t in txns && txns[t].rt == rt && txns[t].what.source == Some(collection)
    ensures t in TenantSourceHolders(txns, rt, collection) && Only(TenantSourceHolders(txns, rt, collection)) == t
  {
  }

  lemma OneMain(accounts: map<Id, Account>, rt: Id, a: Id)
    requires UniqueAccounts(accounts) && a in accounts && accounts[a].rt == rt && accounts[a].key == MAIN && !accounts[a].deleted
    ensures var mains := set b | b in AccountsWithKey(accounts, rt, MAIN) && !accounts[b].deleted;
            a in mains && Only(mains) == a
  {
  }

  lemma OneJimpitan(categories: map<Id, Category>, rt: Id, c: Id)
    requires UniqueCategories(categories) && c in JimpitanCategories(categories, rt)
    ensures Only(JimpitanCategories(categories, rt)) == c
  {
  }

  /** Creating the default account leaves the choice of the category as it was. */
  lemma SameCategories(db: Db, rt: Id, account: Choice, wanted: Option<Id>, newId: Id)
    ensures WithAccount(db, rt, account).categories == db.categories
    ensures ChooseCategory(WithAccount(db, rt, account), rt, wanted, newId) == ChooseCategory(db, rt, wanted, newId)
  {
  }

  lemma ChosenExists(db: Db, rt: Id, wanted: Option<Id>, newId: Id)
    ensures var choice := ChooseAccount(db, rt, wanted, newId);
            !choice.Unavailable? ==> choice.id in WithAccount(db, rt, choice).accounts
  {
  }
}
