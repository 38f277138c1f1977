/**
 The database the repositories share: one field per table, and the rollback of a transaction. It is
 valid when its tables satisfy the invariant of the system; every call of a repository finds it valid
 and leaves it valid, so the laws about runs hold for any sequence of calls on the object.
 */
module Database {
  import opened Prelude
  import opened Tables
  import opened FinanceOps
  import opened System
  import opened SystemLaws

  class Database {
    var accounts: map<Id, Account>
    var categories: map<Id, Category>
    var txns: map<Id, Txn>
    var ledger: seq<LedgerRow>
    var approvals: map<ApprovalId, Approval>
    var settings: map<Id, Json>
    var collections: map<Id, Collection>
    var master: MasterData
    const platform: Platform

    constructor (master: MasterData, platform: Platform)
      ensures Snapshot() == Empty(master, platform) && Valid()
    {
      accounts, categories, txns, ledger := map[], map[], map[], [];
      approvals, settings, collections := map[], map[], map[];
      this.master, this.platform := master, platform;
      new;
      EmptySound(master, platform);
    }

    /** The content of all tables. */
    function Snapshot(): Db
      reads this
    {
      Db(accounts, categories, txns, ledger, approvals, settings, collections, master, platform)
    }

    /** Rolls a failed transaction back, or shows what other transactions have committed. */
    method Restore(saved: Db)
      requires saved.platform == platform
      modifies this
      ensures Snapshot() == saved
    {
      accounts, categories, txns, ledger := saved.accounts, saved.categories, saved.txns, saved.ledger;
      approvals, settings, collections := saved.approvals, saved.settings, saved.collections;
      master := saved.master;
    }

    /** Rolls a failed transaction of the finance tables back. */
    method RestoreBooks(saved: Db)
      modifies `accounts, `categories, `txns, `ledger
      ensures accounts == saved.accounts && categories == saved.categories && txns == saved.txns && ledger == saved.ledger
    {
      accounts, categories, txns, ledger := saved.accounts, saved.categories, saved.txns, saved.ledger;
    }

    ghost predicate Valid()
      reads this
    {
      Sound(Snapshot())
    }
  }
}
