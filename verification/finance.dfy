/** The account tabs and amount signs of src/components/FinanceOverview.tsx,
    over the transactions of src/data/mockFinance.ts. */
module Finance {
  import opened Seqs

  datatype TxType = Deposit | Withdrawal
  datatype Account = Cash | Bank

  datatype Transaction = Transaction(id: string, date: string, description: string, amount: real,
                                     txType: TxType, account: Account)

  /** The selected tab. */
  datatype AccountTab = AllAccounts | OnlyAccount(account: Account)

  /** `filteredTransactions`: every transaction for the `all` tab, else the
      transactions of the chosen account. */
  function FilterByAccount(ts: seq<Transaction>, tab: AccountTab): (r: seq<Transaction>)
    ensures tab.AllAccounts? ==> r == ts
    ensures tab.OnlyAccount? ==> forall k :: 0 <= k < |r| ==> r[k].account == tab.account
    ensures tab.OnlyAccount? ==> forall k :: 0 <= k < |ts| ==> (ts[k].account == tab.account ==> ts[k] in r)
  {
    if tab.AllAccounts? then ts else Filter(ts, (t: Transaction) => t.account == tab.account)
  }

  /** The cash and bank tabs split the full list between them, each in order. */
  lemma CashAndBankPartition(ts: seq<Transaction>)
    ensures var cash := FilterByAccount(ts, OnlyAccount(Cash));
      var bank := FilterByAccount(ts, OnlyAccount(Bank));
      && multiset(cash) + multiset(bank) == multiset(ts)
      && |cash| + |bank| == |ts|
      && IsSubsequence(cash, ts) && IsSubsequence(bank, ts)
  {
    var pc := (t: Transaction) => t.account == Cash;
    var pb := (t: Transaction) => t.account == Bank;
    FilterPartition(ts, pc, pb);
    FilterIsSubsequence(ts, pc);
    FilterIsSubsequence(ts, pb);
  }

  /** The sign put before an amount. */
  function AmountSign(t: Transaction): (c: char)
    ensures c == '+' <==> t.txType.Deposit?
    ensures c == '-' <==> t.txType.Withdrawal?
  {
    if t.txType.Deposit? then '+' else '-'
  }

  /** The amount with its sign, as the table reads it. */
  function SignedAmount(t: Transaction): (r: real)
    ensures r >= 0.0 <==> (t.txType.Deposit? && t.amount >= 0.0) || (t.txType.Withdrawal? && t.amount <= 0.0)
    ensures AmountSign(t) == '+' ==> r == t.amount
    ensures AmountSign(t) == '-' ==> r == -t.amount
  {
    if t.txType.Deposit? then t.amount else -t.amount
  }

  /** `recentTransactions`. */
  const RecentTransactions: seq<Transaction> := [
    Transaction("trans-001", "2025-05-03", "Diamond Purchase - SKU 12345", 12000.0, Withdrawal, Bank),
    Transaction("trans-002", "2025-05-02", "Diamond Sale - SKU 98765", 18500.0, Deposit, Bank),
    Transaction("trans-003", "2025-05-01", "Office Supplies", 350.0, Withdrawal, Cash),
    Transaction("trans-004", "2025-04-29", "Diamond Sale - SKU 45678", 8700.0, Deposit, Cash),
    Transaction("trans-005", "2025-04-28", "Transfer to Bank Account", 5000.0, Withdrawal, Cash),
    Transaction("trans-006", "2025-04-28", "Transfer from Cash", 5000.0, Deposit, Bank),
    Transaction("trans-007", "2025-04-27", "Diamond Purchase - SKU 23456", 15800.0, Withdrawal, Bank)
  ]
}
