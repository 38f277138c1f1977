/** What the ledger, the cash accounts and the transactions keep true about each other. */
module LedgerLaws {
  import opened Prelude
  import opened Sums
  import opened Tables
  import opened FinanceOps

  // ----- One account's rows --------------------------------------------------------------------

  /** The rows of one account, oldest first. */
  ghost function RowsOf(ledger: seq<LedgerRow>, account: Id): seq<LedgerRow> {
    if ledger == [] then [] else
      var row := ledger[|ledger| - 1];
      RowsOf(ledger[..|ledger| - 1], account) + (if row.account == account then [row] else [])
  }

  ghost function LastBalance(rows: seq<LedgerRow>): int {
    if rows == [] then 0 else rows[|rows| - 1].balanceAfter
  }

  /** Row i carries number i + 1, starts where row i - 1 ended, and its balance is not negative. */
  ghost predicate Linked(rows: seq<LedgerRow>, i: nat)
    requires i < |rows|
  {
    && rows[i].sequence == i + 1
    && rows[i].balanceBefore == LastBalance(rows[..i])
    && rows[i].balanceAfter == rows[i].balanceBefore + Signed(rows[i].entry, rows[i].amount)
    && rows[i].balanceAfter >= 0
    && rows[i].amount > 0
  }

  ghost predicate Chain(rows: seq<LedgerRow>) {
    forall i :: 0 <= i < |rows| ==> Linked(rows, i)
  }

  ghost predicate AccountMatches(account: Account, rows: seq<LedgerRow>) {
    && Chain(rows)
    && account.currentBalance == LastBalance(rows)
    && account.version == |rows| + 1
    && (account.deleted ==> rows == [])
  }

  ghost predicate RowsHaveAccounts(accounts: map<Id, Account>, ledger: seq<LedgerRow>) {
    forall i :: 0 <= i < |ledger| ==> ledger[i].account in accounts && accounts[ledger[i].account].rt == ledger[i].rt
  }

  /** Every account agrees with its ledger rows. */
  ghost predicate Books(accounts: map<Id, Account>, ledger: seq<LedgerRow>) {
    && RowsHaveAccounts(accounts, ledger)
    && forall a :: a in accounts ==> AccountMatches(accounts[a], RowsOf(ledger, a))
  }

  lemma ChainFront(rows: seq<LedgerRow>)
    requires rows != [] && Chain(rows)
    ensures Chain(rows[..|rows| - 1])
  {
    var front := rows[..|rows| - 1];
    forall i | 0 <= i < |front| ensures Linked(front, i) {
      assert Linked(rows, i) && front[..i] == rows[..i];
    }
  }

  lemma ChainGrows(rows: seq<LedgerRow>, row: LedgerRow)
    requires Chain(rows)
    requires row.sequence == |rows| + 1 && row.balanceBefore == LastBalance(rows) && row.amount > 0
    requires row.balanceAfter == row.balanceBefore + Signed(row.entry, row.amount) && row.balanceAfter >= 0
    ensures Chain(rows + [row]) && LastBalance(rows + [row]) == row.balanceAfter
  {
    var grown := rows + [row];
    assert grown[..|rows|] == rows;
    forall i | 0 <= i < |grown| ensures Linked(grown, i) {
      assert grown[..i] == rows[..i];
      assert i < |rows| ==> Linked(rows, i);
    }
  }

  lemma LastNumbered(rows: seq<LedgerRow>)
    requires Chain(rows)
    ensures rows != [] ==> rows[|rows| - 1].sequence == |rows|
  {
    assert rows != [] ==> Linked(rows, |rows| - 1);
  }

  lemma RowsAppend(ledger: seq<LedgerRow>, row: LedgerRow, account: Id)
    ensures RowsOf(ledger + [row], account)
         == if row.account == account then RowsOf(ledger, account) + [row] else RowsOf(ledger, account)
  {
  }

  lemma {:induction false} RowsBelong(ledger: seq<LedgerRow>, account: Id)
    ensures forall i :: 0 <= i < |RowsOf(ledger, account)| ==>
              RowsOf(ledger, account)[i].account == account && RowsOf(ledger, account)[i] in ledger
    ensures RowsOf(ledger, account) == [] <==> forall i :: 0 <= i < |ledger| ==> ledger[i].account != account
  {
    if ledger != [] {
      var front := ledger[..|ledger| - 1];
      RowsBelong(front, account);
      assert ledger == front + [ledger[|ledger| - 1]];
    }
  }

  lemma FrontChain(ledger: seq<LedgerRow>, account: Id)
    requires ledger != [] && Chain(RowsOf(ledger, account))
    ensures Chain(RowsOf(ledger[..|ledger| - 1], account))
  {
    var rows, before := RowsOf(ledger, account), RowsOf(ledger[..|ledger| - 1], account);
    if rows != before {
      ChainFront(rows);
      assert rows[..|rows| - 1] == before;
    }
  }

  /** The ordered query finds the last row of the account's chain. */
  lemma {:induction false} LatestIsLast(ledger: seq<LedgerRow>, rt: Id, account: Id)
    requires forall i :: 0 <= i < |ledger| && ledger[i].account == account ==> ledger[i].rt == rt
    requires Chain(RowsOf(ledger, account))
    ensures var rows := RowsOf(ledger, account);
            Latest(ledger, rt, account) == if rows == [] then None else Some(rows[|rows| - 1])
  {
    if ledger != [] {
      var front := ledger[..|ledger| - 1];
      FrontChain(ledger, account);
      LatestIsLast(front, rt, account);
      LastNumbered(RowsOf(ledger, account));
      LastNumbered(RowsOf(front, account));
    }
  }

  /** A chain's last balance is the signed sum of its amounts. */
  lemma {:induction false} ChainAdds(rows: seq<LedgerRow>)
    requires Chain(rows)
    ensures LastBalance(rows) == SignedTotal(rows)
  {
    if rows != [] {
      var front := rows[..|rows| - 1];
      ChainFront(rows);
      ChainAdds(front);
      assert Linked(rows, |rows| - 1);
    }
  }

  ghost function SignedTotal(rows: seq<LedgerRow>): int {
    if rows == [] then 0 else
      SignedTotal(rows[..|rows| - 1]) + Signed(rows[|rows| - 1].entry, rows[|rows| - 1].amount)
  }

  lemma LatestOfBooks(accounts: map<Id, Account>, ledger: seq<LedgerRow>, a: Id)
    requires Books(accounts, ledger) && a in accounts
    ensures var latest := Latest(ledger, accounts[a].rt, a);
            && SequenceOf(latest) == |RowsOf(ledger, a)| == accounts[a].version - 1
            && BalanceOf(latest) == LastBalance(RowsOf(ledger, a)) == accounts[a].currentBalance
  {
    LatestIsLast(ledger, accounts[a].rt, a);
    LastNumbered(RowsOf(ledger, a));
  }

  /** Appending the next row keeps every account in agreement with its rows. */
  lemma BooksAppend(accounts: map<Id, Account>, ledger: seq<LedgerRow>, t: Id, x: Txn)
    requires Books(accounts, ledger)
    requires ActiveAccount(accounts, x.rt, x.what.account) && x.what.amount > 0
    requires NextRow(ledger, t, x).balanceAfter >= 0
    ensures var row := NextRow(ledger, t, x);
            var a := x.what.account;
            Books(accounts[a := AccountAfter(accounts[a], row)], ledger + [row])
  {
    var row := NextRow(ledger, t, x);
    var a := x.what.account;
    var after := accounts[a := AccountAfter(accounts[a], row)];
    LatestOfBooks(accounts, ledger, a);
    assert AccountMatches(accounts[a], RowsOf(ledger, a));
    ChainGrows(RowsOf(ledger, a), row);
    forall b | b in after ensures AccountMatches(after[b], RowsOf(ledger + [row], b)) {
      RowsAppend(ledger, row, b);
      assert AccountMatches(accounts[b], RowsOf(ledger, b));
    }
    assert RowsHaveAccounts(after, ledger + [row]);
  }

  /** Touching only flags of an account, and not deleting one with rows, keeps the books. */
  lemma BooksTouch(accounts: map<Id, Account>, ledger: seq<LedgerRow>, a: Id, account: Account)
    requires Books(accounts, ledger)
    requires a in accounts ==>
               && account.rt == accounts[a].rt
               && account.currentBalance == accounts[a].currentBalance
               && account.version == accounts[a].version
               && (account.deleted ==> RowsOf(ledger, a) == [])
    requires a !in accounts ==> account.currentBalance == 0 && account.version == 1
    ensures Books(accounts[a := account], ledger)
  {
    RowsBelong(ledger, a);
  }

  // ----- Transactions and rows -----------------------------------------------------------------

  ghost function CountFor(ledger: seq<LedgerRow>, t: Id): nat {
    if ledger == [] then 0 else
      CountFor(ledger[..|ledger| - 1], t) + (if ledger[|ledger| - 1].txn == t then 1 else 0)
  }

  /** The row a posted transaction leaves: same tenant, account and amount, direction by kind. */
  ghost predicate RowFor(row: LedgerRow, x: Txn) {
    && row.rt == x.rt && row.account == x.what.account && row.amount == x.what.amount
    && row.entry == EntryFor(x.what.kind)
  }

  /** A transaction is posted exactly when one row, and only one, is its row. */
  ghost predicate RowsMatch(txns: map<Id, Txn>, ledger: seq<LedgerRow>) {
    && (forall t :: t in txns ==> CountFor(ledger, t) == if txns[t].status == TxnStatus.Posted then 1 else 0)
    && (forall i :: 0 <= i < |ledger| ==> ledger[i].txn in txns && RowFor(ledger[i], txns[ledger[i].txn]))
  }

  lemma CountAppend(ledger: seq<LedgerRow>, row: LedgerRow, t: Id)
    ensures CountFor(ledger + [row], t) == CountFor(ledger, t) + (if row.txn == t then 1 else 0)
  {
  }

  lemma {:induction false} CountZero(ledger: seq<LedgerRow>, t: Id)
    ensures CountFor(ledger, t) == 0 <==> forall i :: 0 <= i < |ledger| ==> ledger[i].txn != t
  {
    if ledger != [] {
      var front := ledger[..|ledger| - 1];
      CountZero(front, t);
      assert ledger == front + [ledger[|ledger| - 1]];
    }
  }

  lemma RowsMatchPost(txns: map<Id, Txn>, ledger: seq<LedgerRow>, row: LedgerRow, t: Id, x: Txn)
    requires RowsMatch(txns, ledger)
    requires t in txns ==> txns[t].status != TxnStatus.Posted && txns[t].what == x.what && txns[t].rt == x.rt
    requires row.txn == t && RowFor(row, x) && x.status == TxnStatus.Posted
    ensures RowsMatch(txns[t := x], ledger + [row])
  {
    CountZero(ledger, t);
    forall u | u in txns[t := x]
      ensures CountFor(ledger + [row], u) == if txns[t := x][u].status == TxnStatus.Posted then 1 else 0
    {
      CountAppend(ledger, row, u);
    }
  }

  /** Inserting or moving a transaction that is not posted before or after keeps the match. */
  lemma RowsMatchMove(txns: map<Id, Txn>, ledger: seq<LedgerRow>, t: Id, x: Txn)
    requires RowsMatch(txns, ledger)
    requires t in txns ==> txns[t].status != TxnStatus.Posted
    requires x.status != TxnStatus.Posted
    ensures RowsMatch(txns[t := x], ledger)
  {
    CountZero(ledger, t);
  }

  /** The unique indexes of the ledger never refuse the row of an unposted transaction. */
  lemma AppendNeverCollides(accounts: map<Id, Account>, txns: map<Id, Txn>, ledger: seq<LedgerRow>, t: Id, x: Txn)
    requires Books(accounts, ledger) && RowsMatch(txns, ledger)
    requires x.what.account in accounts && accounts[x.what.account].rt == x.rt
    requires t in txns ==> txns[t].status != TxnStatus.Posted
    ensures !RowCollides(ledger, NextRow(ledger, t, x))
  {
    var row := NextRow(ledger, t, x);
    CountZero(ledger, t);
    LatestOfBooks(accounts, ledger, x.what.account);
    forall i | 0 <= i < |ledger| && ledger[i].account == row.account
      ensures ledger[i].sequence < row.sequence
    {
      SequencesBounded(ledger, row.account, i);
    }
  }

  lemma {:induction false} SequencesBounded(ledger: seq<LedgerRow>, account: Id, i: nat)
    requires i < |ledger| && ledger[i].account == account
    requires Chain(RowsOf(ledger, account))
    ensures ledger[i].sequence <= |RowsOf(ledger, account)|
  {
    var front := ledger[..|ledger| - 1];
    var rows := RowsOf(ledger, account);
    if i < |front| {
      FrontChain(ledger, account);
      SequencesBounded(front, account, i);
    } else {
      LastNumbered(rows);
      assert rows[|rows| - 1] == ledger[i];
    }
  }

  // ----- Money ---------------------------------------------------------------------------------

  ghost function Balances(accounts: map<Id, Account>, rt: Id): map<Id, int> {
    map a | a in accounts && accounts[a].rt == rt :: accounts[a].currentBalance
  }

  ghost function LiveBalances(accounts: map<Id, Account>, rt: Id): map<Id, int> {
    map a | a in accounts && accounts[a].rt == rt && !accounts[a].deleted :: accounts[a].currentBalance
  }

  ghost function PostedAmounts(txns: map<Id, Txn>, rt: Id, kind: TxnType): map<Id, int> {
    map t | t in txns && txns[t].rt == rt && txns[t].status == TxnStatus.Posted && txns[t].what.kind == kind
      :: txns[t].what.amount
  }

  /** What a tenant has received minus what it has spent, by its posted transactions. */
  ghost function NetPosted(txns: map<Id, Txn>, rt: Id): int {
    MapSum(PostedAmounts(txns, rt, Income)) - MapSum(PostedAmounts(txns, rt, Expense))
  }

  /** No tenant's money appears or disappears. */
  ghost predicate Conserved(accounts: map<Id, Account>, txns: map<Id, Txn>) {
    forall rt :: ConservedIn(accounts, txns, rt)
  }

  ghost predicate ConservedIn(accounts: map<Id, Account>, txns: map<Id, Txn>, rt: Id) {
    MapSum(Balances(accounts, rt)) == NetPosted(txns, rt)
  }

  lemma BalancesWrite(accounts: map<Id, Account>, a: Id, account: Account, rt: Id)
    requires a in accounts ==> accounts[a].rt == account.rt
    ensures MapSum(Balances(accounts[a := account], rt))
         == MapSum(Balances(accounts, rt))
            + (if account.rt == rt then account.currentBalance - (if a in accounts then accounts[a].currentBalance else 0) else 0)
  {
    var before, after := Balances(accounts, rt), Balances(accounts[a := account], rt);
    if account.rt == rt {
      SumWrite(before, a, account.currentBalance);
      assert after == before[a := account.currentBalance];
    } else {
      assert after == before;
    }
  }

  lemma PostedWrite(txns: map<Id, Txn>, t: Id, x: Txn, rt: Id, kind: TxnType)
    requires t in txns ==> txns[t].status != TxnStatus.Posted
    ensures MapSum(PostedAmounts(txns[t := x], rt, kind))
         == MapSum(PostedAmounts(txns, rt, kind))
            + (if x.rt == rt && x.status == TxnStatus.Posted && x.what.kind == kind then x.what.amount else 0)
  {
    var before, after := PostedAmounts(txns, rt, kind), PostedAmounts(txns[t := x], rt, kind);
    if x.rt == rt && x.status == TxnStatus.Posted && x.what.kind == kind {
      SumWrite(before, t, x.what.amount);
      assert after == before[t := x.what.amount];
    } else {
      assert after == before;
    }
  }

  lemma NetWrite(txns: map<Id, Txn>, t: Id, x: Txn, rt: Id)
    requires t in txns ==> txns[t].status != TxnStatus.Posted
    ensures NetPosted(txns[t := x], rt)
         == NetPosted(txns, rt)
            + (if x.rt == rt && x.status == TxnStatus.Posted then Signed(EntryFor(x.what.kind), x.what.amount) else 0)
  {
    PostedWrite(txns, t, x, rt, Income);
    PostedWrite(txns, t, x, rt, Expense);
  }

  /** Booking moves the balances and the posted amounts of the tenant by the same amount. */
  lemma ConservedPost(accounts: map<Id, Account>, txns: map<Id, Txn>, ledger: seq<LedgerRow>, t: Id, x: Txn, key: Option<string>)
    requires Books(accounts, ledger) && Conserved(accounts, txns)
    requires ActiveAccount(accounts, x.rt, x.what.account)
    requires t in txns ==> txns[t].status != TxnStatus.Posted
    ensures var row := NextRow(ledger, t, x);
            var a := x.what.account;
            Conserved(accounts[a := AccountAfter(accounts[a], row)], txns[t := x.(status := TxnStatus.Posted, key := key)])
  {
    var a := x.what.account;
    var row := NextRow(ledger, t, x);
    LatestOfBooks(accounts, ledger, a);
    var posted := x.(status := TxnStatus.Posted, key := key);
    var accounts', txns' := accounts[a := AccountAfter(accounts[a], row)], txns[t := posted];
    forall rt ensures ConservedIn(accounts', txns', rt) {
      assert ConservedIn(accounts, txns, rt);
      BalancesWrite(accounts, a, AccountAfter(accounts[a], row), rt);
      NetWrite(txns, t, posted, rt);
    }
  }

  lemma ConservedMove(accounts: map<Id, Account>, txns: map<Id, Txn>, t: Id, x: Txn)
    requires Conserved(accounts, txns)
    requires t in txns ==> txns[t].status != TxnStatus.Posted
    requires x.status != TxnStatus.Posted
    ensures Conserved(accounts, txns[t := x])
  {
    var txns' := txns[t := x];
    forall rt ensures ConservedIn(accounts, txns', rt) {
      assert ConservedIn(accounts, txns, rt);
      NetWrite(txns, t, x, rt);
    }
  }

  lemma ConservedTouch(accounts: map<Id, Account>, txns: map<Id, Txn>, a: Id, account: Account)
    requires Conserved(accounts, txns)
    requires a in accounts ==> account.rt == accounts[a].rt && account.currentBalance == accounts[a].currentBalance
    requires a !in accounts ==> account.currentBalance == 0
    ensures Conserved(accounts[a := account], txns)
  {
    var accounts' := accounts[a := account];
    forall rt ensures ConservedIn(accounts', txns, rt) {
      assert ConservedIn(accounts, txns, rt);
      BalancesWrite(accounts, a, account, rt);
    }
  }

  /** Deleted accounts hold no money, so the live accounts hold all of it. */
  lemma LiveHoldAll(accounts: map<Id, Account>, ledger: seq<LedgerRow>, rt: Id)
    requires Books(accounts, ledger)
    ensures MapSum(LiveBalances(accounts, rt)) == MapSum(Balances(accounts, rt))
  {
    SumIgnoresZeros(Balances(accounts, rt), LiveBalances(accounts, rt));
  }
}
