/**
 Finance calls in terms of the tables alone: exactly when each succeeds, and what it then changes. The
 conditions are written out column by column, independently of the steps that check them.
 */
module FinanceEffects {
  import opened Prelude
  import opened Tables
  import opened Policy
  import opened FinanceOps
  import opened LedgerLaws
  import opened FinanceLaws

  // ----- Conditions ----------------------------------------------------------------------------

  /** The tenant's account, in use. */
  predicate AccountFit(db: Db, rt: Id, a: Id) {
    a in db.accounts && db.accounts[a].rt == rt && db.accounts[a].isActive && !db.accounts[a].deleted
  }

  /** A category in use, for this kind of transaction, of the tenant or of the system. */
  predicate CategoryFit(db: Db, rt: Id, c: Id, kind: TxnType) {
    && c in db.categories && db.categories[c].isActive && !db.categories[c].deleted && db.categories[c].kind == kind
    && (db.categories[c].rt == Some(rt) || (db.categories[c].rt == None && db.categories[c].isSystem))
  }

  /**
   An expense is low enough to need no approval, or it has none that was rejected and as many that
   were given as the stored policy requires.
   */
  ghost predicate GateFit(db: Db, t: Id)
    requires t in db.txns
  {
    var x := db.txns[t];
    var policy := GatePolicyOf(if x.rt in db.settings then Some(db.settings[x.rt]) else None);
    var below := db.platform.atMost(x.what.amount, policy.threshold);
    x.what.kind == Expense ==>
      if policy.autoApprove && below != Some(false) then below == Some(true)
      else && (forall k :: k in db.approvals && k.0 == t ==> db.approvals[k].status != ApprovalStatus.Rejected)
           && |set k | k in db.approvals && k.0 == t && db.approvals[k].status == Approved :: k.1| >= policy.required
  }

  /** A non-empty key is not another one than a stored non-empty key. */
  predicate KeyMatches(db: Db, t: Id, key: Option<string>)
    requires t in db.txns
  {
    key.Some? && key.value != "" && db.txns[t].key.Some? && db.txns[t].key.value != "" ==> db.txns[t].key == key
  }

  /** No other transaction of the tenant has the key. */
  ghost predicate KeyFree(db: Db, rt: Id, t: Id, key: Option<string>) {
    key.Some? ==> forall u :: u in db.txns && u != t && db.txns[u].rt == rt ==> db.txns[u].key != key
  }

  /** An expense takes no more than the account holds. */
  predicate Affordable(db: Db, x: Txn)
    requires x.what.account in db.accounts
  {
    x.what.kind == Expense ==> x.what.amount <= db.accounts[x.what.account].currentBalance
  }

  // ----- Posting -------------------------------------------------------------------------------

  lemma FitAccount(db: Db, rt: Id, a: Id)
    ensures ActiveAccount(db.accounts, rt, a) <==> AccountFit(db, rt, a)
  {
  }

  lemma FitCategory(db: Db, rt: Id, c: Id, kind: TxnType)
    ensures UsableCategory(db.categories, rt, c, kind) <==> CategoryFit(db, rt, c, kind)
  {
  }

  lemma FitGate(db: Db, t: Id)
    requires t in db.txns
    ensures GateOf(db, t) == Open <==> GateFit(db, t)
  {
    assert With(db.approvals, t, Approved) == set k | k in db.approvals && k.0 == t && db.approvals[k].status == Approved :: k.1;
    if k :| k in db.approvals && k.0 == t && db.approvals[k].status == ApprovalStatus.Rejected {
      assert k.1 in With(db.approvals, t, ApprovalStatus.Rejected);
    }
  }

  lemma FitKey(db: Db, t: Id, key: Option<string>)
    requires UniqueTxns(db.txns) && t in db.txns
    ensures PostKeyRefusal(db.txns, t, key) == None && !TxnCollides(db.txns, t, db.txns[t].(key := KeyAfterPosting(db.txns[t].key, key)))
       <==> KeyMatches(db, t, key) && KeyFree(db, db.txns[t].rt, t, key)
  {
    var x := db.txns[t];
    var after := x.(key := KeyAfterPosting(x.key, key));
    forall u | u in db.txns && u != t
      ensures Clash(after, db.txns[u]) <==> key.Some? && db.txns[u].rt == x.rt && db.txns[u].key == key
    {
      assert !Clash(x, db.txns[u]);
    }
    if key.Some? {
      forall u ensures u in KeyHolders(db.txns, x.rt, key.value) - {t} <==> u in db.txns && u != t && db.txns[u].rt == x.rt && db.txns[u].key == key {}
    }
  }

  /** What the next row of an account holds, by its cached balance and version. */
  lemma RowByAccount(db: Db, t: Id, x: Txn)
    requires FinanceSound(db) && x.what.account in db.accounts && db.accounts[x.what.account].rt == x.rt
    ensures var account := db.accounts[x.what.account];
            var after := if x.what.kind == Expense then account.currentBalance - x.what.amount else account.currentBalance + x.what.amount;
            && account.currentBalance >= 0
            && NextRow(db.ledger, t, x)
               == LedgerRow(x.rt, x.what.account, t, account.version, if x.what.kind == Expense then Decrease else Increase,
                            x.what.amount, account.currentBalance, after)
  {
    var rows := RowsOf(db.ledger, x.what.account);
    assert AccountMatches(db.accounts[x.what.account], rows);
    LatestOfBooks(db.accounts, db.ledger, x.what.account);
    assert rows != [] ==> Linked(rows, |rows| - 1);
  }

  /** Everything the posting of a validated transaction depends on. */
  ghost predicate Postable(db: Db, rt: Id, t: Id, key: Option<string>) {
    && t in db.txns && db.txns[t].rt == rt && db.txns[t].status == TxnStatus.Validated
    && var x := db.txns[t];
       && AccountFit(db, rt, x.what.account) && CategoryFit(db, rt, x.what.category, x.what.kind)
       && GateFit(db, t) && KeyMatches(db, t, key) && KeyFree(db, rt, t, key) && Affordable(db, x)
  }

  /** A posting succeeds exactly when all of it holds. */
  lemma PostingExact(db: Db, rt: Id, t: Id, key: Option<string>)
    requires FinanceSound(db)
    ensures PostTxnStep(db, rt, t, key).reply == Done(t) <==> Postable(db, rt, t, key)
  {
    if t in db.txns && db.txns[t].rt == rt && db.txns[t].status == TxnStatus.Validated {
      var x := db.txns[t];
      FitAccount(db, rt, x.what.account);
      FitCategory(db, rt, x.what.category, x.what.kind);
      FitGate(db, t);
      FitKey(db, t, key);
      if AccountFit(db, rt, x.what.account) {
        FitAppend(db, t, x);
      }
    }
  }

  lemma FitAppend(db: Db, t: Id, x: Txn)
    requires FinanceSound(db) && AccountFit(db, x.rt, x.what.account) && x.what.amount > 0
    requires t in db.txns ==> db.txns[t].status != TxnStatus.Posted
    ensures AppendRefusal(db.accounts, db.ledger, t, x) == if Affordable(db, x) then None else Some(InsufficientBalance)
  {
    RowByAccount(db, t, x);
    AppendNeverCollides(db.accounts, db.txns, db.ledger, t, x);
  }

  /** The row, balance and version a booking of x leaves, by what the account held before. */
  function BookedRow(db: Db, t: Id, x: Txn): LedgerRow
    requires x.what.account in db.accounts
  {
    var account := db.accounts[x.what.account];
    LedgerRow(x.rt, x.what.account, t, account.version, if x.what.kind == Expense then Decrease else Increase, x.what.amount,
              account.currentBalance,
              if x.what.kind == Expense then account.currentBalance - x.what.amount else account.currentBalance + x.what.amount)
  }

  function BookedAccount(db: Db, t: Id, x: Txn): Account
    requires x.what.account in db.accounts
  {
    var account := db.accounts[x.what.account];
    account.(currentBalance := BookedRow(db, t, x).balanceAfter, version := account.version + 1)
  }

  /**
   And then it appends one row numbered by the account's version, moves the balance by the amount,
   raises the version, marks the transaction posted under the key if one is brought, and changes
   nothing else.
   */
  lemma PostingEffect(db: Db, rt: Id, t: Id, key: Option<string>)
    requires FinanceSound(db) && PostTxnStep(db, rt, t, key).reply == Done(t)
    ensures t in db.txns && db.txns[t].what.account in db.accounts
    ensures var x := db.txns[t];
            PostTxnStep(db, rt, t, key).db
            == db.(accounts := db.accounts[x.what.account := BookedAccount(db, t, x)],
                   ledger := db.ledger + [BookedRow(db, t, x)],
                   txns := db.txns[t := x.(status := TxnStatus.Posted, key := if key.Some? then key else x.key)])
  {
    PostingExact(db, rt, t, key);
    RowByAccount(db, t, db.txns[t]);
  }

  /** Each refusal of a validated transaction means that its own condition, and none before it, failed. */
  lemma PostingRefusals(db: Db, rt: Id, t: Id, key: Option<string>)
    requires FinanceSound(db)
    ensures var step := PostTxnStep(db, rt, t, key);
            && (step.reply == Done(t) || step.db == db)
            && (step.reply == Refused(NotFound) <==> !(t in db.txns && db.txns[t].rt == rt))
            && (step.reply == Refused(WrongStatus) <==>
                  t in db.txns && db.txns[t].rt == rt && db.txns[t].status !in {TxnStatus.Validated, TxnStatus.Posted})
    ensures t in db.txns && db.txns[t].rt == rt && db.txns[t].status == TxnStatus.Validated ==>
              var x := db.txns[t];
              var reply := PostTxnStep(db, rt, t, key).reply;
              var account, category := AccountFit(db, rt, x.what.account), CategoryFit(db, rt, x.what.category, x.what.kind);
              && (reply == Refused(InactiveAccount) <==> !account)
              && (reply == Refused(InactiveCategory) <==> account && !category)
              && (reply in {Refused(MalformedThreshold), Refused(HasRejectedApproval), Refused(ApprovalRequired)}
                  <==> account && category && !GateFit(db, t))
              && (reply == Refused(ReplayMismatch) <==> account && category && GateFit(db, t) && !KeyMatches(db, t, key))
              && (reply == Refused(KeyOfAnother)
                  <==> account && category && GateFit(db, t) && KeyMatches(db, t, key) && key != Some("") && !KeyFree(db, rt, t, key))
              && (reply == Refused(InsufficientBalance)
                  <==> && account && category && GateFit(db, t) && KeyMatches(db, t, key)
                       && (key == Some("") || KeyFree(db, rt, t, key)) && !Affordable(db, x))
              && (reply == Refused(UniqueViolation)
                  <==> && account && category && GateFit(db, t) && KeyMatches(db, t, key)
                       && key == Some("") && !KeyFree(db, rt, t, key) && Affordable(db, x))
  {
    if t in db.txns && db.txns[t].rt == rt && db.txns[t].status == TxnStatus.Validated {
      var x := db.txns[t];
      FitAccount(db, rt, x.what.account);
      FitCategory(db, rt, x.what.category, x.what.kind);
      FitGate(db, t);
      FitKey(db, t, key);
      KeyRefusals(db, t, key);
      if AccountFit(db, rt, x.what.account) {
        FitAppend(db, t, x);
      }
    }
  }

  lemma KeyRefusals(db: Db, t: Id, key: Option<string>)
    requires t in db.txns
    ensures PostKeyRefusal(db.txns, t, key) == Some(ReplayMismatch) <==> !KeyMatches(db, t, key)
    ensures PostKeyRefusal(db.txns, t, key) in {None, Some(ReplayMismatch), Some(KeyOfAnother)}
    ensures PostKeyRefusal(db.txns, t, key) == Some(KeyOfAnother)
       <==> KeyMatches(db, t, key) && key != Some("") && !KeyFree(db, db.txns[t].rt, t, key)
  {
    if key.Some? && !KeyFree(db, db.txns[t].rt, t, key) {
      var u :| u in db.txns && u != t && db.txns[u].rt == db.txns[t].rt && db.txns[u].key == key;
      assert u in KeyHolders(db.txns, db.txns[t].rt, key.value) - {t};
    }
    if key.Some? && KeyHolders(db.txns, db.txns[t].rt, key.value) - {t} != {} {
      var u :| u in KeyHolders(db.txns, db.txns[t].rt, key.value) - {t};
    }
  }

  /** The ledger takes the next row of an active account, covered, and with an unused transaction and number: in any state. */
  lemma AppendReasons(db: Db, t: Id, x: Txn)
    ensures AppendRefusal(db.accounts, db.ledger, t, x)
         == var row := NextRow(db.ledger, t, x);
            if !AccountFit(db, x.rt, x.what.account) then Some(StateChanged)
            else if row.balanceAfter < 0 then Some(InsufficientBalance)
            else if exists r :: r in db.ledger && (r.txn == t || (r.account == x.what.account && r.sequence == row.sequence))
            then Some(UniqueViolation)
            else None
  {
    FitAccount(db, x.rt, x.what.account);
    var row := NextRow(db.ledger, t, x);
    if r :| r in db.ledger && (r.txn == t || (r.account == x.what.account && r.sequence == row.sequence)) {
      var i :| 0 <= i < |db.ledger| && db.ledger[i] == r;
    }
  }

  /** The balance the modules derive from the ledger is the cached one, at the number the version says; of live accounts only. */
  lemma BalanceExact(db: Db, rt: Id, a: Id)
    requires FinanceSound(db)
    ensures DerivedBalance(db, rt, a)
         == if a in db.accounts && db.accounts[a].rt == rt && !db.accounts[a].deleted
            then Some((db.accounts[a].currentBalance, db.accounts[a].version - 1))
            else None
  {
    if a in db.accounts && db.accounts[a].rt == rt {
      LatestOfBooks(db.accounts, db.ledger, a);
    }
  }

  /** What a posted transaction is asked again is answered by its key alone. */
  lemma PostedAgain(db: Db, rt: Id, t: Id, key: Option<string>)
    requires t in db.txns && db.txns[t].rt == rt && db.txns[t].status == TxnStatus.Posted
    ensures PostTxnStep(db, rt, t, key)
         == Outcome(db, if key == None || key == Some("") || key == db.txns[t].key then Replayed(t) else Refused(ReplayMismatch))
  {
  }

  // ----- Drafts and lifecycle ------------------------------------------------------------------

  predicate DraftFit(db: Db, rt: Id, what: Particulars) {
    && what.source == None && 1 <= what.amount <= 99999999999999
    && AccountFit(db, rt, what.account) && CategoryFit(db, rt, what.category, what.kind)
  }

  /** No transaction of the tenant shares one of the draft's references, where it has them. */
  ghost predicate ReferencesFree(db: Db, rt: Id, what: Particulars) {
    forall u :: u in db.txns && db.txns[u].rt == rt ==>
      && (what.reference.Some? ==> db.txns[u].what.reference != what.reference)
      && (what.externalRef.Some? ==> db.txns[u].what.externalRef != what.externalRef)
  }

  ghost predicate KeyUnused(db: Db, rt: Id, key: Option<string>) {
    key.Some? ==> forall u :: u in db.txns && db.txns[u].rt == rt ==> db.txns[u].key != key
  }

  lemma FitDraft(db: Db, rt: Id, what: Particulars)
    ensures DraftRefusal(db, rt, what) == None <==> DraftFit(db, rt, what)
    ensures DraftRefusal(db, rt, what) == Some(SourceNotAllowed) <==> what.source.Some?
    ensures DraftRefusal(db, rt, what) == Some(BadAmount) <==> what.source == None && !(1 <= what.amount <= 99999999999999)
    ensures DraftRefusal(db, rt, what) == Some(InactiveAccount)
       <==> what.source == None && 1 <= what.amount <= 99999999999999 && !AccountFit(db, rt, what.account)
  {
    FitAccount(db, rt, what.account);
    FitCategory(db, rt, what.category, what.kind);
  }

  lemma FitUnused(db: Db, actor: Actor, newId: Id, command: DraftCommand)
    requires newId !in db.txns && command.what.source == None
    ensures TxnCollides(db.txns, newId, Txn(actor.rt, command.what, command.key, TxnStatus.Draft, actor.user))
       <==> !(ReferencesFree(db, actor.rt, command.what) && KeyUnused(db, actor.rt, command.key))
  {
    var row := Txn(actor.rt, command.what, command.key, TxnStatus.Draft, actor.user);
    if !(ReferencesFree(db, actor.rt, command.what) && KeyUnused(db, actor.rt, command.key)) {
      var u :| u in db.txns && Clash(row, db.txns[u]);
    }
  }

  /**
   A draft request inserts its draft exactly when the service's guards hold, the identifier is free,
   and neither key nor references are in use; the draft is what the request says, by its author.
   */
  lemma DraftExact(db: Db, actor: Actor, newId: Id, command: DraftCommand)
    ensures var step := CreateDraftStep(db, actor, newId, command);
            && (step.reply == Done(newId) <==>
                  && DraftFit(db, actor.rt, command.what) && newId !in db.txns
                  && ReferencesFree(db, actor.rt, command.what) && KeyUnused(db, actor.rt, command.key))
            && step.db == (if step.reply == Done(newId)
                           then db.(txns := db.txns[newId := Txn(actor.rt, command.what, command.key, TxnStatus.Draft, actor.user)])
                           else db)
  {
    FitDraft(db, actor.rt, command.what);
    if newId !in db.txns && command.what.source == None {
      FitUnused(db, actor, newId, command);
    }
    if Truthy(command.key) {
      HolderOfKey(db, actor.rt, command.key);
    }
  }

  lemma HolderOfKey(db: Db, rt: Id, key: Option<string>)
    requires key.Some?
    ensures KeyHolders(db.txns, rt, key.value) == {} <==> KeyUnused(db, rt, key)
  {
    if KeyHolders(db.txns, rt, key.value) != {} {
      var u :| u in KeyHolders(db.txns, rt, key.value);
    } else {
      forall u | u in db.txns && db.txns[u].rt == rt ensures db.txns[u].key != key {
        assert u !in KeyHolders(db.txns, rt, key.value);
      }
    }
  }

  /** Validating, rejecting and voiding: from where each is possible, and that it changes only the status. */
  lemma MovesExact(db: Db, rt: Id, t: Id)
    ensures MoveExact(db, rt, t, FinanceStep(db, ValidateTxn(rt, t)), {TxnStatus.Draft}, TxnStatus.Validated)
    ensures MoveExact(db, rt, t, FinanceStep(db, RejectTxn(rt, t)), {TxnStatus.Draft, TxnStatus.Validated}, TxnStatus.Rejected)
    ensures MoveExact(db, rt, t, FinanceStep(db, VoidTxn(rt, t)), {TxnStatus.Draft}, TxnStatus.Voided)
  {
  }

  ghost predicate MoveExact(db: Db, rt: Id, t: Id, step: Outcome, from: set<TxnStatus>, to: TxnStatus) {
    if !(t in db.txns && db.txns[t].rt == rt) then step == Outcome(db, Refused(NotFound))
    else if db.txns[t].status !in from then step == Outcome(db, Refused(WrongStatus))
    else step == Outcome(db.(txns := db.txns[t := db.txns[t].(status := to)]), Done(t))
  }

  // ----- Accounts ------------------------------------------------------------------------------

  /** A new account has a key its tenant does not use yet, no money and no history. */
  lemma NewAccountExact(db: Db, rt: Id, a: Id, key: string)
    ensures var step := AccountStep(db, CreateAccount(rt, a, key));
            if a !in db.accounts && forall b :: b in db.accounts && db.accounts[b].rt == rt ==> db.accounts[b].key != key
            then step == Outcome(db.(accounts := db.accounts[a := Account(rt, key, 0, 1, true, false)]), Done(a))
            else step == Outcome(db, Refused(UniqueViolation))
  {
    if b :| b in db.accounts && db.accounts[b].rt == rt && db.accounts[b].key == key {
      assert b in AccountsWithKey(db.accounts, rt, key);
    } else {
      assert AccountsWithKey(db.accounts, rt, key) == {};
    }
  }

  /** Updating and archiving reach the tenant's undeleted accounts only, and touch the two flags. */
  lemma AccountCallsExact(db: Db, rt: Id, a: Id, active: Option<bool>)
    ensures var update, archive := AccountStep(db, UpdateAccount(rt, a, active)), AccountStep(db, ArchiveAccount(rt, a));
            if a in db.accounts && db.accounts[a].rt == rt && !db.accounts[a].deleted then
              && update == Outcome(db.(accounts := db.accounts[a := update.db.accounts[a]]), Done(a))
              && update.db.accounts[a] == db.accounts[a].(isActive := if active.Some? then active.value else db.accounts[a].isActive)
              && archive == Outcome(db.(accounts := db.accounts[a := archive.db.accounts[a]]), Done(a))
              && archive.db.accounts[a] == db.accounts[a].(isActive := false, deleted := archive.db.accounts[a].deleted)
              && (archive.db.accounts[a].deleted <==>
                    forall i :: 0 <= i < |db.ledger| && db.ledger[i].account == a ==> db.ledger[i].rt != rt)
            else update == archive == Outcome(db, Refused(NotFound))
  {
  }

  /** The bootstrap leaves the tenant with an active main account, and never with a second one. */
  lemma BootstrapExact(db: Db, rt: Id, newId: Id)
    requires UniqueAccounts(db.accounts)
    ensures var step := AccountStep(db, EnsureMainAccount(rt, newId));
            if a :| a in db.accounts && db.accounts[a].rt == rt && db.accounts[a].key == "main"
            then step == Outcome(db.(accounts := db.accounts[a := db.accounts[a].(isActive := true, deleted := false)]), Done(a))
            else if newId in db.accounts then step == Outcome(db, Refused(UniqueViolation))
            else step == Outcome(db.(accounts := db.accounts[newId := Account(rt, "main", 0, 1, true, false)]), Done(newId))
  {
    var mains := AccountsWithKey(db.accounts, rt, "main");
    if a :| a in db.accounts && db.accounts[a].rt == rt && db.accounts[a].key == "main" {
      assert a in mains;
    } else {
      assert mains == {};
    }
  }

  /** Categories may be replaced by any table in which no tenant has two of one key and kind; those of no tenant may agree. */
  lemma CategoriesExact(db: Db, categories: map<Id, Category>)
    ensures AccountStep(db, SetCategories(categories))
         == if exists c, d, rt ::
                 && c in categories && d in categories && c != d && categories[c].rt == Some(rt) && categories[d].rt == Some(rt)
                 && categories[c].key == categories[d].key && categories[c].kind == categories[d].kind
            then Outcome(db, Refused(UniqueViolation))
            else Outcome(db.(categories := categories), Done(0))
  {
    if c, d :| && c in categories && d in categories && c != d && categories[c].rt.Some? && categories[c].rt == categories[d].rt
               && categories[c].key == categories[d].key && categories[c].kind == categories[d].kind {
      assert categories[c].rt == Some(categories[c].rt.value);
    }
  }
}
