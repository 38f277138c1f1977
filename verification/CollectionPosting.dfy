/**
 Posting a validated collection, in terms of the tables alone: which account and category it uses,
 exactly when it succeeds, and what it then changes.
 */
module CollectionPosting {
  import opened Prelude
  import opened Tables
  import opened FinanceOps
  import opened LedgerLaws
  import opened FinanceLaws
  import opened FinanceEffects
  import opened CollectionLaws
  import opened CollectionTheorems
  import opened SystemLaws

  // ----- Which account and category --------------------------------------------------------------

  /** The tenant's account with this key, deleted or not. */
  predicate Keyed(db: Db, rt: Id, a: Id, key: string) {
    a in db.accounts && db.accounts[a].rt == rt && db.accounts[a].key == key
  }

  /**
   The account asked for, in use; without one, the tenant's undeleted main account, in use; without
   that, a new one under a free identifier, if no deleted account still has the key.
   */
  ghost predicate AccountServes(db: Db, rt: Id, wanted: Option<Id>, newId: Id, a: Id) {
    if wanted.Some? then a == wanted.value && AccountFit(db, rt, a)
    else if exists b :: Keyed(db, rt, b, "main") && !db.accounts[b].deleted
    then Keyed(db, rt, a, "main") && AccountFit(db, rt, a)
    else a == newId && newId !in db.accounts && forall b :: !Keyed(db, rt, b, "main")
  }

  predicate JimpitanIncome(db: Db, rt: Id, c: Id) {
    c in db.categories && db.categories[c].rt == Some(rt) && db.categories[c].key == "jimpitan" && db.categories[c].kind == Income
  }

  /** Likewise for the category; of the tenant's own one only the active flag is asked, not whether it is deleted. */
  ghost predicate CategoryServes(db: Db, rt: Id, wanted: Option<Id>, newId: Id, c: Id) {
    if wanted.Some? then c == wanted.value && CategoryFit(db, rt, c, Income)
    else if exists d :: JimpitanIncome(db, rt, d) then JimpitanIncome(db, rt, c) && db.categories[c].isActive
    else c == newId && newId !in db.categories
  }

  lemma ChosenAccount(db: Db, rt: Id, wanted: Option<Id>, newId: Id)
    requires UniqueAccounts(db.accounts)
    ensures var choice := ChooseAccount(db, rt, wanted, newId);
            && (choice.Unavailable? <==> forall a :: !AccountServes(db, rt, wanted, newId, a))
            && (!choice.Unavailable? ==> AccountServes(db, rt, wanted, newId, choice.id))
            && (choice.Created? <==> !choice.Unavailable? && choice.id !in db.accounts)
            && (wanted.Some? ==> choice in {Existing(wanted.value), Unavailable(InactiveAccount)})
  {
    var mains := set a | a in AccountsWithKey(db.accounts, rt, MAIN) && !db.accounts[a].deleted;
    forall b ensures b in mains <==> Keyed(db, rt, b, "main") && !db.accounts[b].deleted {}
    forall b ensures b in AccountsWithKey(db.accounts, rt, MAIN) <==> Keyed(db, rt, b, "main") {}
    var choice := ChooseAccount(db, rt, wanted, newId);
    if wanted.Some? {
      assert AccountFit(db, rt, wanted.value) <==> AccountServes(db, rt, wanted, newId, wanted.value);
    } else if mains != {} {
      assert Keyed(db, rt, Only(mains), "main");
      forall a | AccountServes(db, rt, wanted, newId, a) ensures a == Only(mains) {}
      assert AccountServes(db, rt, wanted, newId, Only(mains)) <==> db.accounts[Only(mains)].isActive;
    } else {
      assert AccountServes(db, rt, wanted, newId, newId) <==> choice.Created?;
    }
  }

  lemma ChosenCategory(db: Db, rt: Id, wanted: Option<Id>, newId: Id)
    requires UniqueCategories(db.categories)
    ensures var choice := ChooseCategory(db, rt, wanted, newId);
            && (choice.Unavailable? <==> forall c :: !CategoryServes(db, rt, wanted, newId, c))
            && (!choice.Unavailable? ==> CategoryServes(db, rt, wanted, newId, choice.id))
            && (choice.Created? <==> !choice.Unavailable? && choice.id !in db.categories)
            && (wanted.Some? ==> choice in {Existing(wanted.value), Unavailable(InactiveCategory)})
  {
    var found := JimpitanCategories(db.categories, rt);
    forall c ensures c in found <==> JimpitanIncome(db, rt, c) {}
    var choice := ChooseCategory(db, rt, wanted, newId);
    if wanted.Some? {
      assert CategoryFit(db, rt, wanted.value, Income) <==> CategoryServes(db, rt, wanted, newId, wanted.value);
    } else if found != {} {
      assert JimpitanIncome(db, rt, Only(found));
      forall c | CategoryServes(db, rt, wanted, newId, c) ensures c == Only(found) {}
      assert CategoryServes(db, rt, wanted, newId, Only(found)) <==> db.categories[Only(found)].isActive;
    } else {
      assert CategoryServes(db, rt, wanted, newId, newId) <==> choice.Created?;
    }
  }

  // ----- When a collection is posted --------------------------------------------------------------

  predicate Unposted(db: Db, c: Id) {
    forall t :: t in db.txns ==> db.txns[t].what.source != Some(c)
  }

  /** A validated session of the tenant with money, that no transaction names yet. */
  predicate Collected(db: Db, rt: Id, c: Id) {
    && c in db.collections && db.collections[c].rt == rt && db.collections[c].status == CollectionStatus.Validated
    && db.collections[c].total > 0 && Unposted(db, c)
  }

  function KeyFor(post: PostCollectionCommand): string {
    if post.key.Some? then post.key.value else "collection:" + DecimalText(post.collection)
  }

  ghost predicate CollectionPostable(db: Db, rt: Id, post: PostCollectionCommand, ids: NewIds) {
    && Collected(db, rt, post.collection)
    && (exists a :: AccountServes(db, rt, post.account, ids.account, a))
    && (exists c :: CategoryServes(db, rt, post.category, ids.category, c))
    && ids.txn !in db.txns && KeyUnused(db, rt, Some(KeyFor(post)))
  }

  lemma NoHolders(db: Db, c: Id)
    ensures SourceHolders(db.txns, c) == {} <==> Unposted(db, c)
  {
    if t :| t in db.txns && db.txns[t].what.source == Some(c) {
      assert t in SourceHolders(db.txns, c);
    }
  }

  lemma NoTenantHolders(db: Db, rt: Id, c: Id)
    requires SourcesSound(db.txns, db.collections) && c in db.collections && db.collections[c].rt == rt
    ensures TenantSourceHolders(db.txns, rt, c) == SourceHolders(db.txns, c)
  {
    forall t | t in SourceHolders(db.txns, c) ensures db.txns[t].rt == rt {
      assert SourceSound(db.txns[t], db.collections);
    }
  }

  lemma AmountOfValidated(c: Collection)
    requires SessionSound(c) && c.status == CollectionStatus.Validated
    ensures PostingAmount(c) == if c.total > 0 then Some(c.total) else None
  {
    SettledContent(c);
  }

  /** Until it is posted, what the call does with a session of the tenant is decided by its status and total. */
  lemma UnpostedStep(db: Db, actor: Actor, post: PostCollectionCommand, ids: NewIds)
    requires Sound(db) && Unposted(db, post.collection)
    ensures PostCollectionStep(db, actor, post, ids)
         == if !(post.collection in db.collections && db.collections[post.collection].rt == actor.rt
                 && db.collections[post.collection].status == CollectionStatus.Validated) then Outcome(db, Refused(WrongStatus))
            else if db.collections[post.collection].total <= 0 then Outcome(db, Refused(AmountMismatch))
            else BookCollection(db, actor, post, ids)
    ensures post.collection in db.collections && db.collections[post.collection].status == CollectionStatus.Validated ==>
              PostingAmount(db.collections[post.collection])
              == if db.collections[post.collection].total > 0 then Some(db.collections[post.collection].total) else None
  {
    NoHolders(db, post.collection);
    if post.collection in db.collections && db.collections[post.collection].status == CollectionStatus.Validated {
      AmountOfValidated(db.collections[post.collection]);
    }
  }

  lemma PostedReplays(db: Db, actor: Actor, post: PostCollectionCommand, ids: NewIds)
    requires Sound(db) && !Unposted(db, post.collection)
    requires post.collection in db.collections && db.collections[post.collection].rt == actor.rt
    ensures !PostCollectionStep(db, actor, post, ids).reply.Done?
  {
    NoHolders(db, post.collection);
    NoTenantHolders(db, actor.rt, post.collection);
  }

  lemma BookingFits(db: Db, rt: Id, post: PostCollectionCommand, ids: NewIds)
    requires FinanceSound(db)
    ensures BookingAccepted(db, rt, post, ids)
       <==> && (exists a :: AccountServes(db, rt, post.account, ids.account, a))
            && (exists c :: CategoryServes(db, rt, post.category, ids.category, c))
            && ids.txn !in db.txns && KeyUnused(db, rt, Some(KeyFor(post)))
  {
    ChosenAccount(db, rt, post.account, ids.account);
    ChosenCategory(db, rt, post.category, ids.category);
    HolderOfKey(db, rt, Some(KeyFor(post)));
  }

  /** A validated collection is posted exactly when all of this holds. */
  lemma CollectionPostingExact(db: Db, actor: Actor, post: PostCollectionCommand, ids: NewIds)
    requires Sound(db)
    ensures PostCollectionStep(db, actor, post, ids).reply == Done(ids.txn) <==> CollectionPostable(db, actor.rt, post, ids)
  {
    BookingFits(db, actor.rt, post, ids);
    if Unposted(db, post.collection) {
      UnpostedStep(db, actor, post, ids);
      NoHolders(db, post.collection);
      if Collected(db, actor.rt, post.collection) {
        BookedExactly(db, actor, post, ids);
      }
    } else if post.collection in db.collections && db.collections[post.collection].rt == actor.rt {
      PostedReplays(db, actor, post, ids);
    } else {
      ForeignRefused(db, actor, post, ids);
    }
  }

  lemma ForeignRefused(db: Db, actor: Actor, post: PostCollectionCommand, ids: NewIds)
    requires SourcesSound(db.txns, db.collections)
    requires !(post.collection in db.collections && db.collections[post.collection].rt == actor.rt)
    ensures !PostCollectionStep(db, actor, post, ids).reply.Done?
  {
    forall t ensures t !in TenantSourceHolders(db.txns, actor.rt, post.collection) {
      assert t in db.txns ==> SourceSound(db.txns[t], db.collections);
    }
  }

  // ----- What it changes --------------------------------------------------------------------------

  /** The account as it is, or the new main account. */
  function AccountOr(db: Db, rt: Id, a: Id): Account {
    if a in db.accounts then db.accounts[a] else Account(rt, "main", 0, 1, true, false)
  }

  /** The state after booking session c on account a under category k as transaction t. */
  function AfterCollection(db: Db, actor: Actor, post: PostCollectionCommand, t: Id, a: Id, k: Id): Db
    requires post.collection in db.collections
  {
    var c := db.collections[post.collection];
    var account := AccountOr(db, actor.rt, a);
    var what := Particulars(Income, a, k, c.total, "Jimpitan collection " + DecimalText(post.collection), c.date, None, None, Some(post.collection));
    db.(accounts := db.accounts[a := account.(currentBalance := account.currentBalance + c.total, version := account.version + 1)],
        categories := if k in db.categories then db.categories
                      else db.categories[k := Category(Some(actor.rt), "jimpitan", Income, true, true, false)],
        ledger := db.ledger + [LedgerRow(actor.rt, a, t, account.version, Increase, c.total, account.currentBalance, account.currentBalance + c.total)],
        txns := db.txns[t := Txn(actor.rt, what, Some(KeyFor(post)), TxnStatus.Posted, actor.user)])
  }

  lemma ReadyTables(db: Db, rt: Id, account: Choice, category: Choice)
    requires !account.Unavailable? && !category.Unavailable?
    requires (account.Created? <==> account.id !in db.accounts) && (category.Created? <==> category.id !in db.categories)
    ensures Furnished(db, WithCategory(WithAccount(db, rt, account), rt, category), rt, account.id, category.id)
  {
  }

  /** BookCollection, once the choices are made. */
  lemma BookedOn(db: Db, actor: Actor, post: PostCollectionCommand, ids: NewIds, total: int) returns (account: Choice, category: Choice)
    requires post.collection in db.collections && PostingAmount(db.collections[post.collection]) == Some(total)
    requires BookCollection(db, actor, post, ids).reply == Done(ids.txn)
    ensures account == ChooseAccount(db, actor.rt, post.account, ids.account) && !account.Unavailable?
    ensures category == ChooseCategory(db, actor.rt, post.category, ids.category) && !category.Unavailable?
    ensures var ready := WithCategory(WithAccount(db, actor.rt, account), actor.rt, category);
            var x := CollectionTxn(actor, db.collections[post.collection], post, total, account.id, category.id);
            && account.id in ready.accounts
            && BookCollection(db, actor, post, ids).db == Booked(ready, ids.txn, x, x.key)
  {
    account := ChooseAccount(db, actor.rt, post.account, ids.account);
    category := ChooseCategory(db, actor.rt, post.category, ids.category);
  }

  lemma BookedTables(ready: Db, t: Id, x: Txn, key: Option<string>)
    requires FinanceSound(ready) && x.what.account in ready.accounts && ready.accounts[x.what.account].rt == x.rt && x.what.kind == Income
    ensures var account := ready.accounts[x.what.account];
            var after := account.currentBalance + x.what.amount;
            Booked(ready, t, x, key)
            == ready.(accounts := ready.accounts[x.what.account := account.(currentBalance := after, version := account.version + 1)],
                      ledger := ready.ledger + [LedgerRow(x.rt, x.what.account, t, account.version, Increase, x.what.amount, account.currentBalance, after)],
                      txns := ready.txns[t := x.(status := TxnStatus.Posted, key := key)])
  {
    RowByAccount(ready, t, x);
  }

  lemma Overwritten(accounts: map<Id, Account>, a: Id, first: Account, last: Account)
    ensures (if a in accounts then accounts else accounts[a := first])[a := last] == accounts[a := last]
  {
  }

  /** The tables a posting starts from, once account and category are there. */
  ghost predicate Furnished(db: Db, ready: Db, rt: Id, a: Id, k: Id) {
    && ready == db.(accounts := ready.accounts, categories := ready.categories)
    && a in ready.accounts && ready.accounts[a] == AccountOr(db, rt, a)
    && ready.accounts == (if a in db.accounts then db.accounts else db.accounts[a := AccountOr(db, rt, a)])
    && ready.categories == (if k in db.categories then db.categories
                            else db.categories[k := Category(Some(rt), "jimpitan", Income, true, true, false)])
  }

  lemma BookedAfter(db: Db, ready: Db, actor: Actor, post: PostCollectionCommand, t: Id, a: Id, k: Id)
    requires post.collection in db.collections && Furnished(db, ready, actor.rt, a, k)
    requires FinanceSound(ready) && ready.accounts[a].rt == actor.rt
    ensures var c := db.collections[post.collection];
            var x := CollectionTxn(actor, c, post, c.total, a, k);
            Booked(ready, t, x, x.key) == AfterCollection(db, actor, post, t, a, k)
  {
    var c := db.collections[post.collection];
    var x := CollectionTxn(actor, c, post, c.total, a, k);
    var account := AccountOr(db, actor.rt, a);
    BookedTables(ready, t, x, x.key);
    Overwritten(db.accounts, a, account, account.(currentBalance := account.currentBalance + c.total, version := account.version + 1));
  }

  lemma PostedSession(db: Db, actor: Actor, post: PostCollectionCommand, ids: NewIds)
    requires Sound(db) && PostCollectionStep(db, actor, post, ids).reply == Done(ids.txn)
    ensures post.collection in db.collections
    ensures PostingAmount(db.collections[post.collection]) == Some(db.collections[post.collection].total)
    ensures PostCollectionStep(db, actor, post, ids) == BookCollection(db, actor, post, ids)
  {
    CollectionPostingExact(db, actor, post, ids);
    UnpostedStep(db, actor, post, ids);
  }

  /**
   A posted collection: the account and the category that serve, the requested ones if any were
   requested, and one transaction and one row of the session's total on them. No other account moves,
   and none is created unless the tenant had no main account.
   */
  lemma CollectionPostingEffect(db: Db, actor: Actor, post: PostCollectionCommand, ids: NewIds) returns (a: Id, k: Id)
    requires Sound(db) && PostCollectionStep(db, actor, post, ids).reply == Done(ids.txn)
    ensures AccountServes(db, actor.rt, post.account, ids.account, a) && CategoryServes(db, actor.rt, post.category, ids.category, k)
    ensures post.collection in db.collections
    ensures PostCollectionStep(db, actor, post, ids).db == AfterCollection(db, actor, post, ids.txn, a, k)
  {
    PostedSession(db, actor, post, ids);
    var account, category := BookedOn(db, actor, post, ids, db.collections[post.collection].total);
    a, k := account.id, category.id;
    ChosenAccount(db, actor.rt, post.account, ids.account);
    ChosenCategory(db, actor.rt, post.category, ids.category);
    ReadyOwned(db, actor, post, ids, account, category);
    ReadyTables(db, actor.rt, account, category);
    BookedAfter(db, WithCategory(WithAccount(db, actor.rt, account), actor.rt, category), actor, post, ids.txn, a, k);
  }

  lemma ReadyOwned(db: Db, actor: Actor, post: PostCollectionCommand, ids: NewIds, account: Choice, category: Choice)
    requires FinanceSound(db)
    requires account == ChooseAccount(db, actor.rt, post.account, ids.account) && !account.Unavailable?
    requires category == ChooseCategory(db, actor.rt, post.category, ids.category) && !category.Unavailable?
    ensures var ready := WithCategory(WithAccount(db, actor.rt, account), actor.rt, category);
            FinanceSound(ready) && account.id in ready.accounts && ready.accounts[account.id].rt == actor.rt
  {
    ChosenAreNew(db, actor.rt, post, ids);
    ReadyKeeps(db, actor.rt, account, category);
    ChosenAccountActive(db, actor.rt, post.account, ids.account);
  }

  /** With a requested account the money lands there and nowhere else, and no account is created. */
  lemma RequestedAccountUsed(db: Db, actor: Actor, post: PostCollectionCommand, ids: NewIds, a: Id)
    requires Sound(db) && PostCollectionStep(db, actor, post, ids).reply == Done(ids.txn) && post.account == Some(a)
    ensures var after := PostCollectionStep(db, actor, post, ids).db;
            && ids.txn in after.txns && after.txns[ids.txn].what.account == a
            && |after.ledger| == |db.ledger| + 1 && after.ledger[|db.ledger|].account == a && after.ledger[|db.ledger|].txn == ids.txn
            && after.accounts.Keys == db.accounts.Keys
            && forall b :: b in db.accounts && b != a ==> after.accounts[b] == db.accounts[b]
  {
    var used, k := CollectionPostingEffect(db, actor, post, ids);
  }

  /** A requested category is the transaction's, and none is created. */
  lemma RequestedCategoryUsed(db: Db, actor: Actor, post: PostCollectionCommand, ids: NewIds, k: Id)
    requires Sound(db) && PostCollectionStep(db, actor, post, ids).reply == Done(ids.txn) && post.category == Some(k)
    ensures var after := PostCollectionStep(db, actor, post, ids).db;
            ids.txn in after.txns && after.txns[ids.txn].what.category == k && after.categories == db.categories
  {
    var a, used := CollectionPostingEffect(db, actor, post, ids);
  }

  /** Without a requested account the money lands on the tenant's main account. */
  lemma MainAccountUsed(db: Db, actor: Actor, post: PostCollectionCommand, ids: NewIds)
    requires Sound(db) && PostCollectionStep(db, actor, post, ids).reply == Done(ids.txn) && post.account == None
    ensures var after := PostCollectionStep(db, actor, post, ids).db;
            && ids.txn in after.txns && after.txns[ids.txn].what.account in after.accounts
            && var account := after.accounts[after.txns[ids.txn].what.account];
               account.key == "main" && account.rt == actor.rt && account.isActive && !account.deleted
  {
    var a, k := CollectionPostingEffect(db, actor, post, ids);
  }

  /** Why a session with money is not posted: its account, then its category; nothing changes. */
  lemma CollectionRefusals(db: Db, actor: Actor, post: PostCollectionCommand, ids: NewIds)
    requires Sound(db) && Collected(db, actor.rt, post.collection)
    ensures var step := PostCollectionStep(db, actor, post, ids);
            var account := exists a :: AccountServes(db, actor.rt, post.account, ids.account, a);
            var category := exists k :: CategoryServes(db, actor.rt, post.category, ids.category, k);
            && (step.reply == Done(ids.txn) || step.db == db)
            && (post.account.Some? ==> (step.reply == Refused(InactiveAccount) <==> !AccountFit(db, actor.rt, post.account.value)))
            && (post.category.Some? && account ==>
                  (step.reply == Refused(InactiveCategory) <==> !CategoryFit(db, actor.rt, post.category.value, Income)))
            && (!account ==> step.reply in {Refused(InactiveAccount), Refused(UniqueViolation)})
            && (account && !category ==> step.reply in {Refused(InactiveCategory), Refused(UniqueViolation)})
  {
    UnpostedStep(db, actor, post, ids);
    NoHolders(db, post.collection);
    BookedExactly(db, actor, post, ids);
    ChosenAccount(db, actor.rt, post.account, ids.account);
    ChosenCategory(db, actor.rt, post.category, ids.category);
    BookingRefusals(db, actor, post, ids);
    if post.account.Some? {
      assert AccountServes(db, actor.rt, post.account, ids.account, post.account.value)
        <==> AccountFit(db, actor.rt, post.account.value);
    }
    if post.category.Some? {
      assert CategoryServes(db, actor.rt, post.category, ids.category, post.category.value)
        <==> CategoryFit(db, actor.rt, post.category.value, Income);
    }
  }

  lemma BookingRefusals(db: Db, actor: Actor, post: PostCollectionCommand, ids: NewIds)
    requires FinanceSound(db) && post.collection in db.collections
    requires PostingAmount(db.collections[post.collection]).Some? && PostingAmount(db.collections[post.collection]).value > 0
    ensures var reply := BookCollection(db, actor, post, ids).reply;
            var account := ChooseAccount(db, actor.rt, post.account, ids.account);
            var category := ChooseCategory(db, actor.rt, post.category, ids.category);
            && (account.Unavailable? ==> reply == Refused(account.why) && account.why in {InactiveAccount, UniqueViolation})
            && (!account.Unavailable? && category.Unavailable? ==>
                  reply == Refused(category.why) && category.why in {InactiveCategory, UniqueViolation})
            && (!account.Unavailable? && !category.Unavailable? ==> reply in {Done(ids.txn), Refused(UniqueViolation)})
            && (reply == Done(ids.txn) || BookCollection(db, actor, post, ids).db == db)
  {
    var account := ChooseAccount(db, actor.rt, post.account, ids.account);
    var category := ChooseCategory(db, actor.rt, post.category, ids.category);
    if !account.Unavailable? && !category.Unavailable? && ids.txn !in db.txns {
      var c := db.collections[post.collection];
      var x := CollectionTxn(actor, c, post, PostingAmount(c).value, account.id, category.id);
      BookedWhenReady(db, actor.rt, post, account, category, ids, x);
    }
  }
}
