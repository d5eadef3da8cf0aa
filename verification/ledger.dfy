/**
 * The account ledger of the banking page: one account record (number, balance,
 * transactions newest first), the two appliers that validate a requested debit
 * and commit it (the transfer form and the QPay payment), and the persisted copy
 * of the record (one storage slot, loaded, saved and reset).
 *
 * Money is an integer number of minor units; an entered amount is the number the
 * user typed, or None when it is not a number.
 */
module Ledger {

  import opened Wrappers
  import opened Format

  /** The icon tag of a transaction: `up` for a transfer, `qr` for a QPay payment. */
  datatype Kind = Up | Qr

  datatype Transaction = Transaction(
    date: string,
    time: string,
    description: string,
    amount: int,            // negative: money leaving the account
    kind: Kind,
    remainingBalance: int)  // the balance just after this transaction

  datatype Account = Account(accountNumber: string, balance: int, transactions: seq<Transaction>)

  /** Why an applier refused. The transfer form has one message for an empty
      field and for a zero or unreadable amount; both appliers have one for
      insufficient funds; QPay returns silently when its prompt was cancelled or
      did not hold a number. */
  datatype Rejection = MissingFieldOrInvalidAmount | InsufficientFunds | NoAmount

  /** The verdict of validation: the signed amount to commit, or the refusal. */
  datatype Decision = Accept(signed: int) | Reject(reason: Rejection)

  /** What an applier did: the transaction it committed, or why it refused. */
  datatype Outcome = Applied(tx: Transaction) | Rejected(reason: Rejection)

  const SeedAccountNumber: string := "MN50 0005 00 5018191771"
  const SeedBalance: int := 6000000000096

  /** The two transactions of the default data. Their snapshots do not match the
      default balance, nor each other's amounts. */
  const SeedTransactions: seq<Transaction> := [
    Transaction("2025.04.27", "17:20", "Ухаалаг мэдээ үйлчилгээний хураамж", -5000, Up, 2912596),
    Transaction("2025.04.27", "17:20", "QPay Payment", -780000, Qr, 3692596)
  ]

  /** A copy of the default data whose transaction list is `transactions`. */
  function SeedAccount(transactions: seq<Transaction>): Account {
    Account(SeedAccountNumber, SeedBalance, transactions)
  }

  // ---------------------------------------------------------------------------
  // Validation

  /** The transfer form's checks, in order: both recipient fields filled and the
      amount a nonzero number; then the balance covers the magnitude of the
      negated amount. */
  function CheckTransfer(balance: int, entered: Option<int>, recipientAccount: string, recipientName: string): (d: Decision)
    ensures d == Reject(MissingFieldOrInvalidAmount)
      <==> recipientAccount == [] || recipientName == [] || entered == None || entered == Some(0)
    ensures d == Reject(InsufficientFunds)
      <==> recipientAccount != [] && recipientName != [] && entered.Some? && entered.value != 0
           && balance < Abs(entered.value)
    ensures d.Accept? ==> entered == Some(-d.signed) && d.signed != 0 && Abs(d.signed) <= balance
    ensures d.Accept?
      <==> recipientAccount != [] && recipientName != [] && entered.Some? && entered.value != 0
           && Abs(entered.value) <= balance
    ensures d.Accept? ==> balance + d.signed >= 0
  {
    var amount := if entered.None? then None else Some(-entered.value);
    if recipientAccount == [] || recipientName == [] || amount == Some(0) || amount.None? then
      Reject(MissingFieldOrInvalidAmount)
    else if balance < Abs(amount.value) then
      Reject(InsufficientFunds)
    else
      Accept(amount.value)
  }

  /** The QPay checks: the prompt held a number (zero included); then the balance
      covers the magnitude of the negated amount. */
  function CheckQPay(balance: int, entered: Option<int>): (d: Decision)
    ensures d == Reject(NoAmount) <==> entered == None
    ensures d == Reject(InsufficientFunds) <==> entered.Some? && balance < Abs(entered.value)
    ensures d.Accept? <==> entered.Some? && Abs(entered.value) <= balance
    ensures d.Accept? ==> entered == Some(-d.signed) && Abs(d.signed) <= balance
    ensures d.Accept? ==> balance + d.signed >= 0
    ensures entered == Some(0) && balance >= 0 ==> d == Accept(0)
  {
    if entered.None? then
      Reject(NoAmount)
    else
      var amount := -entered.value;
      if balance < Abs(amount) then Reject(InsufficientFunds) else Accept(amount)
  }

  /** The description of a transfer: the typed one, or "Transfer" when left blank. */
  function TransferLabel(description: string): (r: string)
    ensures description == [] ==> r == "Transfer"
    ensures description != [] ==> r == description
  {
    if description == [] then "Transfer" else description
  }

  const QPayLabel: string := "QPay Payment"

  /** The amount shown on the transfer form, as the transfer reads it: commas
      removed, the rest read as a number with two decimals. */
  function ReadAmount(shown: string): (r: Option<int>)
    ensures ',' !in shown ==> r == ParseFixed(shown)
  {
    assert ',' !in shown ==> RemoveCommas(shown) == shown by {
      if ',' !in shown {
        NoCommas(shown);
      }
    }
    ParseFixed(RemoveCommas(shown))
  }

  /** The amount keypad: a reply that reads as a number replaces the amount shown
      by its formatted text, which the transfer then reads back as that number; a
      cancelled or unreadable reply leaves the amount shown as it was. */
  function Keypad(shown: string, reply: Option<int>): (r: string)
    ensures reply.None? ==> r == shown
    ensures reply.Some? ==> ReadAmount(r) == reply
  {
    if reply.None? then shown
    else
      AmountTextRoundTrip(reply.value);
      FormatAmount(reply.value)
  }

  /** What the form shows before the keypad is used. */
  const BlankAmount: string := "0.00"

  /** A transfer confirmed before any amount was typed is refused as an invalid
      amount, whatever the balance and the recipient fields. */
  lemma BlankAmountRefused(balance: int, recipientAccount: string, recipientName: string)
    ensures CheckTransfer(balance, ReadAmount(BlankAmount), recipientAccount, recipientName)
         == Reject(MissingFieldOrInvalidAmount)
  {
    assert RemoveCommas(BlankAmount) == BlankAmount;
    assert ParseUnsignedFixed(BlankAmount) == Some(0);
  }

  // ---------------------------------------------------------------------------
  // Committing

  /** The account once a transaction of `signed` minor units, stamped `now`, is
      committed: a new transaction at the head, carrying the new balance. */
  function Post(a: Account, signed: int, description: string, kind: Kind, now: Moment): (r: Account)
    ensures r.accountNumber == a.accountNumber && r.balance == a.balance + signed
    ensures |r.transactions| == |a.transactions| + 1 && r.transactions[1..] == a.transactions
    ensures r.transactions[0].amount == signed && r.transactions[0].remainingBalance == r.balance
    ensures r.transactions[0].description == description && r.transactions[0].kind == kind
    ensures r.transactions[0].date == FormatDate(now) && r.transactions[0].time == FormatTime(now)
  {
    var balance := a.balance + signed;
    var tx := Transaction(FormatDate(now), FormatTime(now), description, signed, kind, balance);
    Account(a.accountNumber, balance, [tx] + a.transactions)
  }

  /** The first `n` transactions were committed by the appliers one on top of the
      other: the head's snapshot is the balance, and each of them moved the
      snapshot of the one below it by its own amount. */
  ghost predicate Reconciled(a: Account, n: nat) {
    var txs := a.transactions;
    && n <= |txs|
    && (n > 0 ==> txs[0].remainingBalance == a.balance)
    && forall i :: 0 <= i < n - 1 ==> txs[i].remainingBalance == txs[i + 1].remainingBalance + txs[i].amount
  }

  /** Putting a transaction at the head whose snapshot is the old balance plus its
      amount, and making that snapshot the balance, extends the reconciled prefix
      by one. */
  lemma PushReconciles(a: Account, n: nat, tx: Transaction)
    requires Reconciled(a, n)
    requires tx.remainingBalance == a.balance + tx.amount
    ensures Reconciled(Account(a.accountNumber, tx.remainingBalance, [tx] + a.transactions), n + 1)
  {
    var r := Account(a.accountNumber, tx.remainingBalance, [tx] + a.transactions);
    forall i | 0 <= i < n
      ensures r.transactions[i].remainingBalance == r.transactions[i + 1].remainingBalance + r.transactions[i].amount
    {
      if i > 0 {
        assert r.transactions[i] == a.transactions[i - 1];
        assert r.transactions[i + 1] == a.transactions[i];
      }
    }
  }

  /** Every applier commit extends the reconciled prefix. */
  lemma PostReconciles(a: Account, n: nat, signed: int, description: string, kind: Kind, now: Moment)
    requires Reconciled(a, n)
    ensures Reconciled(Post(a, signed, description, kind, now), n + 1)
  {
    var r := Post(a, signed, description, kind, now);
    PushReconciles(a, n, r.transactions[0]);
    assert r.transactions == [r.transactions[0]] + a.transactions;
  }

  function SumAmounts(txs: seq<Transaction>): int {
    if txs == [] then 0 else txs[0].amount + SumAmounts(txs[1..])
  }

  /** In a reconciled prefix the balance is the oldest snapshot of the prefix plus
      the amounts of the transactions committed after it. */
  lemma {:induction false} ReconciledBalance(a: Account, n: nat)
    requires 1 <= n && Reconciled(a, n)
    ensures a.balance == a.transactions[n - 1].remainingBalance + SumAmounts(a.transactions[..n - 1])
  {
    var txs := a.transactions;
    if n > 1 {
      ReconciledBalance(a, n - 1);
      SumAmountsSnoc(txs[..n - 2], txs[n - 2]);
      assert txs[..n - 1] == txs[..n - 2] + [txs[n - 2]];
    } else {
      assert txs[..0] == [];
    }
  }

  lemma {:induction false} SumAmountsSnoc(txs: seq<Transaction>, t: Transaction)
    ensures SumAmounts(txs + [t]) == SumAmounts(txs) + t.amount
  {
    if txs == [] {
      assert [] + [t] == [t];
    } else {
      assert (txs + [t])[1..] == txs[1..] + [t];
      SumAmountsSnoc(txs[1..], t);
    }
  }

  /** The default data is not reconciled: its head snapshot is not its balance. */
  lemma SeedNotReconciled(transactions: seq<Transaction>)
    requires |transactions| >= 1 && transactions[0] == SeedTransactions[0]
    ensures !Reconciled(SeedAccount(transactions), 1)
  {
  }

  // ---------------------------------------------------------------------------
  // The page's state

  /**
   * The state one page session holds: the account record in memory, the storage
   * slot, and the transaction list of the default data. Copying the default data
   * copies its fields but not its transaction list: while `sharesSeed` holds, the
   * record in memory and the default data use one list, and a committed
   * transaction lands in both.
   */
  class Session {
    var account: Account
    var store: Option<Account>
    var seedTransactions: seq<Transaction>
    var sharesSeed: bool
    /** How many transactions this session has committed since the record was loaded. */
    ghost var committed: nat

    ghost predicate Valid()
      reads this
    {
      && store == Some(account)
      && (sharesSeed ==> account.transactions == seedTransactions)
      && Reconciled(account, committed)
    }

    /** A page load: the default data as written, the storage slot as found, then
        the record loaded. */
    constructor (persisted: Option<Account>)
      ensures Valid() && seedTransactions == SeedTransactions && committed == 0
      ensures persisted.Some? ==> account == persisted.value && !sharesSeed
      ensures persisted.None? ==> account == SeedAccount(SeedTransactions) && sharesSeed
    {
      account := SeedAccount(SeedTransactions);
      store := persisted;
      seedTransactions := SeedTransactions;
      sharesSeed := false;
      committed := 0;
      new;
      Load();
    }

    /** The stored record when there is one; otherwise a copy of the default data,
        saved at once. */
    method Load()
      modifies this
      ensures Valid() && committed == 0
      ensures seedTransactions == old(seedTransactions)
      ensures old(store).Some? ==> account == old(store).value && !sharesSeed
      ensures old(store).None? ==> account == SeedAccount(seedTransactions) && sharesSeed
    {
      committed := 0;
      match store {
        case Some(saved) =>
          account := saved;
          sharesSeed := false;
        case None =>
          account := SeedAccount(seedTransactions);
          sharesSeed := true;
          Save();
      }
    }

    /** Replaces the stored value by the whole record. */
    method Save()
      modifies this`store
      ensures store == Some(account)
    {
      store := Some(account);
    }

    /** The transfer form's confirmation. */
    method Transfer(entered: Option<int>, recipientAccount: string, recipientName: string,
                    description: string, now: Moment) returns (outcome: Outcome)
      requires Valid()
      modifies this
      ensures Valid()
      ensures var d := CheckTransfer(old(account.balance), entered, recipientAccount, recipientName);
        && (d.Reject? ==> outcome == Rejected(d.reason) && unchanged(this))
        && (d.Accept? ==>
              && account == Post(old(account), d.signed, TransferLabel(description), Up, now)
              && outcome == Applied(account.transactions[0])
              && committed == old(committed) + 1)
      ensures sharesSeed == old(sharesSeed)
      ensures seedTransactions == if sharesSeed then account.transactions else old(seedTransactions)
    {
      ghost var d := CheckTransfer(account.balance, entered, recipientAccount, recipientName);
      var amount := if entered.None? then None else Some(-entered.value);
      var text := TransferLabel(description);
      if recipientAccount == [] || recipientName == [] || amount == Some(0) || amount.None? {
        assert d == Reject(MissingFieldOrInvalidAmount);
        return Rejected(MissingFieldOrInvalidAmount);
      }
      if account.balance < Abs(amount.value) {
        assert d == Reject(InsufficientFunds);
        return Rejected(InsufficientFunds);
      }
      assert d == Accept(amount.value);
      var tx := Apply(amount.value, text, Up, now);
      outcome := Applied(tx);
    }

    /** A QPay payment of the amount typed into the prompt. */
    method PayQPay(entered: Option<int>, now: Moment) returns (outcome: Outcome)
      requires Valid()
      modifies this
      ensures Valid()
      ensures var d := CheckQPay(old(account.balance), entered);
        && (d.Reject? ==> outcome == Rejected(d.reason) && unchanged(this))
        && (d.Accept? ==>
              && account == Post(old(account), d.signed, QPayLabel, Qr, now)
              && outcome == Applied(account.transactions[0])
              && committed == old(committed) + 1)
      ensures sharesSeed == old(sharesSeed)
      ensures seedTransactions == if sharesSeed then account.transactions else old(seedTransactions)
    {
      ghost var d := CheckQPay(account.balance, entered);
      if entered.None? {
        assert d == Reject(NoAmount);
        return Rejected(NoAmount);
      }
      var amount := -entered.value;
      if account.balance < Abs(amount) {
        assert d == Reject(InsufficientFunds);
        return Rejected(InsufficientFunds);
      }
      assert d == Accept(amount);
      var tx := Apply(amount, QPayLabel, Qr, now);
      outcome := Applied(tx);
    }

    /** The commit both appliers share: the new transaction, stamped `now` and
        carrying the new balance, goes to the head of the list, the balance is
        replaced, and the record is saved. */
    method Apply(signed: int, description: string, kind: Kind, now: Moment) returns (tx: Transaction)
      requires Valid()
      modifies this
      ensures Valid() && committed == old(committed) + 1
      ensures account == Post(old(account), signed, description, kind, now)
      ensures tx == account.transactions[0]
      ensures sharesSeed == old(sharesSeed)
      ensures seedTransactions == if sharesSeed then account.transactions else old(seedTransactions)
    {
      var next := Post(account, signed, description, kind, now);
      PostReconciles(account, committed, signed, description, kind, now);
      if sharesSeed {
        seedTransactions := next.transactions;
      }
      account := next;
      committed := committed + 1;
      Save();
      tx := next.transactions[0];
    }

    /** The reset action: when confirmed, the stored value is removed and the
        record loaded again, which copies the default data. */
    method Reset(confirmed: bool)
      requires Valid()
      modifies this
      ensures Valid()
      ensures !confirmed ==> unchanged(this)
      ensures confirmed ==>
        && account == SeedAccount(old(seedTransactions))
        && sharesSeed && seedTransactions == old(seedTransactions) && committed == 0
    {
      if confirmed {
        store := None;
        Load();
      }
    }
  }

  // ---------------------------------------------------------------------------
  // Sessions end to end

  /** A page opened with nothing stored, a transfer, then a reset: the balance
      and account number are those of the default data again, but the list still
      holds the transfer, since the default data's list was the one it went into. */
  method TransferThenResetFromDefault(now: Moment) returns (s: Session)
    ensures s.Valid() && s.sharesSeed
    ensures s.account.balance == SeedBalance && s.account.accountNumber == SeedAccountNumber
    ensures |s.account.transactions| == |SeedTransactions| + 1
    ensures s.account.transactions[0].amount == -10000 && s.account.transactions[1..] == SeedTransactions
  {
    s := new Session(None);
    var outcome := s.Transfer(Some(10000), "MN12 0000 00 1234567890", "Recipient", "", now);
    s.Reset(true);
  }

  /** A page opened with nothing stored and a transfer of 100.00 described
      "Rent": the balance drops by 100.00 and the new head records it. */
  method RentFromDefault(recipientAccount: string, recipientName: string, now: Moment) returns (s: Session)
    requires recipientAccount != [] && recipientName != []
    ensures s.Valid() && s.account.balance == 5999999990096
    ensures |s.account.transactions| == |SeedTransactions| + 1
    ensures s.account.transactions[0].amount == -10000
    ensures s.account.transactions[0].remainingBalance == 5999999990096
    ensures s.account.transactions[0].description == "Rent" && s.account.transactions[0].kind == Up
    ensures s.account.transactions[1..] == SeedTransactions
  {
    s := new Session(None);
    var outcome := s.Transfer(Some(10000), recipientAccount, recipientName, "Rent", now);
  }

  /** A page opened on stored data, a QPay payment, then a reset: the default
      data's list was never shared, so the reset record is the default data. */
  method PayThenResetFromStored(saved: Account, entered: Option<int>, now: Moment) returns (s: Session)
    ensures s.Valid() && s.account == SeedAccount(SeedTransactions)
  {
    s := new Session(Some(saved));
    var outcome := s.PayQPay(entered, now);
    s.Reset(true);
  }

  /** Opening the page again finds the record where the session left it. */
  method Reopen(s: Session) returns (t: Session)
    requires s.Valid()
    ensures t.Valid() && t.account == s.account && !t.sharesSeed
  {
    t := new Session(s.store);
  }
}
