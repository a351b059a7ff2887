/** The balance engine: income, expense and paid fixed charges are each a
    filter followed by a sum, and the balance is income minus expense minus
    the paid fixed charges. */
module Ledger {
  import opened Records

  /** The rows whose `tur` equals `kind`, in their original order. */
  function OfKind(txs: seq<Transaction>, kind: string): (r: seq<Transaction>)
    ensures |r| <= |txs|
    ensures forall t :: t in r <==> t in txs && t.kind == kind
  {
    if txs == [] then []
    else
      var rest := OfKind(txs[1..], kind);
      assert forall t :: t in txs <==> t == txs[0] || t in txs[1..];
      if txs[0].kind == kind then [txs[0]] + rest else rest
  }

  /** The sum of the `tutar` column. */
  function SumAmounts(txs: seq<Transaction>): int {
    if txs == [] then 0 else txs[0].amount + SumAmounts(txs[1..])
  }

  function KindTotal(txs: seq<Transaction>, kind: string): int {
    SumAmounts(OfKind(txs, kind))
  }

  /** The income total, with the dashboard's guard for an empty table;
      the guard gives what the unguarded sum gives. */
  function IncomeTotal(txs: seq<Transaction>): (r: int)
    ensures r == KindTotal(txs, Income)
  {
    if |txs| == 0 then 0 else KindTotal(txs, Income)
  }

  /** The expense total, with the dashboard's guard for an empty table;
      the guard gives what the unguarded sum gives. */
  function ExpenseTotal(txs: seq<Transaction>): (r: int)
    ensures r == KindTotal(txs, Expense)
  {
    if |txs| == 0 then 0 else KindTotal(txs, Expense)
  }

  /** The editor rows whose `odendi` flag is set, in their original order. */
  function PaidRows(rows: seq<FixedCharge>): (r: seq<FixedCharge>)
    ensures |r| <= |rows|
    ensures forall f :: f in r <==> f in rows && f.paid
  {
    if rows == [] then []
    else
      var rest := PaidRows(rows[1..]);
      assert forall f :: f in rows <==> f == rows[0] || f in rows[1..];
      if rows[0].paid then [rows[0]] + rest else rest
  }

  function SumFixed(rows: seq<FixedCharge>): int {
    if rows == [] then 0 else rows[0].amount + SumFixed(rows[1..])
  }

  /** The total of the fixed charges marked paid in the editor's rows. It
      equals the row-by-row sum of what each row contributes. */
  function PaidFixedTotal(rows: seq<FixedCharge>): (r: int)
    ensures r == PaidSum(rows)
  {
    PaidRowsSum(rows);
    SumFixed(PaidRows(rows))
  }

  /** The displayed balance. It equals the row-by-row net flow of the
      transactions minus the row-by-row paid amounts of the editor rows. */
  function Balance(txs: seq<Transaction>, rows: seq<FixedCharge>): (r: int)
    ensures r == NetFlow(txs) - PaidSum(rows)
  {
    IncomeMinusExpenseIsNetFlow(txs);
    IncomeTotal(txs) - ExpenseTotal(txs) - PaidFixedTotal(rows)
  }

  // ---------------------------------------------------------------------
  // Reference definitions, computed row by row

  /** What one transaction does to the balance: income adds its amount,
      expense subtracts it, any other kind leaves the balance alone. */
  function Effect(t: Transaction): int {
    if t.kind == Income then t.amount
    else if t.kind == Expense then -t.amount
    else 0
  }

  function NetFlow(txs: seq<Transaction>): int {
    if txs == [] then 0 else Effect(txs[0]) + NetFlow(txs[1..])
  }

  /** What one fixed row does to the balance. */
  function PaidAmount(f: FixedCharge): int {
    if f.paid then f.amount else 0
  }

  function PaidSum(rows: seq<FixedCharge>): int {
    if rows == [] then 0 else PaidAmount(rows[0]) + PaidSum(rows[1..])
  }

  // ---------------------------------------------------------------------
  // Lemmas

  lemma {:induction false} KindTotalUnfold(txs: seq<Transaction>, kind: string)
    requires txs != []
    ensures KindTotal(txs, kind) == (if txs[0].kind == kind then txs[0].amount else 0) + KindTotal(txs[1..], kind)
  {
    var rest := OfKind(txs[1..], kind);
    if txs[0].kind == kind {
      assert ([txs[0]] + rest)[1..] == rest;
    }
  }

  /** Filtering the paid rows and summing them gives the row-by-row sum. */
  lemma {:induction false} PaidRowsSum(rows: seq<FixedCharge>)
    ensures SumFixed(PaidRows(rows)) == PaidSum(rows)
    decreases |rows|
  {
    if rows != [] {
      var rest := PaidRows(rows[1..]);
      if rows[0].paid {
        assert ([rows[0]] + rest)[1..] == rest;
      }
      PaidRowsSum(rows[1..]);
    }
  }

  lemma {:induction false} PaidTotalUnfold(rows: seq<FixedCharge>)
    requires rows != []
    ensures PaidFixedTotal(rows) == PaidAmount(rows[0]) + PaidFixedTotal(rows[1..])
  {
    var rest := PaidRows(rows[1..]);
    if rows[0].paid {
      assert ([rows[0]] + rest)[1..] == rest;
    }
  }

  /** The kind mask keeps every matching row as many times as it occurs
      and drops every other row. */
  lemma {:induction false} OfKindKeepsEveryCopy(txs: seq<Transaction>, kind: string)
    ensures forall t :: multiset(OfKind(txs, kind))[t] == if t.kind == kind then multiset(txs)[t] else 0
    decreases |txs|
  {
    if txs != [] {
      assert txs == [txs[0]] + txs[1..];
      OfKindKeepsEveryCopy(txs[1..], kind);
    }
  }

  /** The paid mask keeps every paid row as many times as it occurs and
      drops every unpaid row. */
  lemma {:induction false} PaidRowsKeepsEveryCopy(rows: seq<FixedCharge>)
    ensures forall f :: multiset(PaidRows(rows))[f] == if f.paid then multiset(rows)[f] else 0
    decreases |rows|
  {
    if rows != [] {
      assert rows == [rows[0]] + rows[1..];
      PaidRowsKeepsEveryCopy(rows[1..]);
    }
  }

  /** The per-kind sums distribute over concatenation of transaction lists. */
  lemma {:induction false} KindTotalAppend(a: seq<Transaction>, b: seq<Transaction>, kind: string)
    ensures KindTotal(a + b, kind) == KindTotal(a, kind) + KindTotal(b, kind)
    decreases |a|
  {
    if a == [] {
      assert a + b == b;
    } else {
      assert (a + b)[0] == a[0];
      assert (a + b)[1..] == a[1..] + b;
      KindTotalUnfold(a + b, kind);
      KindTotalUnfold(a, kind);
      KindTotalAppend(a[1..], b, kind);
    }
  }

  /** Income and expense distribute over concatenation. */
  lemma IncomeExpenseAppend(a: seq<Transaction>, b: seq<Transaction>)
    ensures IncomeTotal(a + b) == IncomeTotal(a) + IncomeTotal(b)
    ensures ExpenseTotal(a + b) == ExpenseTotal(a) + ExpenseTotal(b)
  {
    if a == [] {
      assert a + b == b;
    } else if b == [] {
      assert a + b == a;
    } else {
      KindTotalAppend(a, b, Income);
      KindTotalAppend(a, b, Expense);
    }
  }

  /** The paid-fixed total distributes over concatenation. */
  lemma {:induction false} PaidTotalAppend(a: seq<FixedCharge>, b: seq<FixedCharge>)
    ensures PaidFixedTotal(a + b) == PaidFixedTotal(a) + PaidFixedTotal(b)
    decreases |a|
  {
    if a == [] {
      assert a + b == b;
    } else {
      assert (a + b)[0] == a[0];
      assert (a + b)[1..] == a[1..] + b;
      PaidTotalUnfold(a + b);
      PaidTotalUnfold(a);
      PaidTotalAppend(a[1..], b);
    }
  }

  /** Income minus expense equals the row-by-row net flow, whatever the
      kinds: a row of any other kind counts toward neither total, and the
      empty-table guard agrees with the sums. */
  lemma {:induction false} IncomeMinusExpenseIsNetFlow(txs: seq<Transaction>)
    ensures IncomeTotal(txs) - ExpenseTotal(txs) == NetFlow(txs)
    decreases |txs|
  {
    if txs != [] {
      KindTotalUnfold(txs, Income);
      KindTotalUnfold(txs, Expense);
      IncomeMinusExpenseIsNetFlow(txs[1..]);
    }
  }

  /** Recording one more transaction moves the balance by that
      transaction's effect, and a row of any other kind moves it by 0. */
  lemma RecordedTransaction(txs: seq<Transaction>, t: Transaction, rows: seq<FixedCharge>)
    ensures Balance(txs + [t], rows) == Balance(txs, rows) + Effect(t)
    ensures t.kind != Income && t.kind != Expense ==> Balance(txs + [t], rows) == Balance(txs, rows)
  {
    IncomeMinusExpenseIsNetFlow(txs + [t]);
    IncomeMinusExpenseIsNetFlow(txs);
    IncomeMinusExpenseIsNetFlow([t]);
    IncomeExpenseAppend(txs, [t]);
  }

  /** With non-negative amounts every total is non-negative, and the
      paid-fixed total is at most the sum of all fixed amounts. */
  lemma {:induction false} TotalsNonNegative(txs: seq<Transaction>, rows: seq<FixedCharge>)
    requires forall i :: 0 <= i < |txs| ==> txs[i].amount >= 0
    requires forall i :: 0 <= i < |rows| ==> rows[i].amount >= 0
    ensures IncomeTotal(txs) >= 0 && ExpenseTotal(txs) >= 0
    ensures 0 <= PaidFixedTotal(rows) <= SumFixed(rows)
    decreases |txs| + |rows|
  {
    if txs != [] {
      KindTotalUnfold(txs, Income);
      KindTotalUnfold(txs, Expense);
      TotalsNonNegative(txs[1..], rows);
    } else if rows != [] {
      PaidTotalUnfold(rows);
      TotalsNonNegative(txs, rows[1..]);
    }
  }

  /** With no transactions and no row marked paid the balance is 0. */
  lemma {:induction false} NothingRecordedZeroBalance(rows: seq<FixedCharge>)
    requires forall i :: 0 <= i < |rows| ==> !rows[i].paid
    ensures Balance([], rows) == 0
    decreases |rows|
  {
    if rows != [] {
      PaidTotalUnfold(rows);
      NothingRecordedZeroBalance(rows[1..]);
    }
  }

  /** Replacing one editor row changes the paid-fixed total by the
      difference of the two rows' paid amounts, and nothing else. */
  lemma {:induction false} PaidTotalUpdate(rows: seq<FixedCharge>, i: nat, f: FixedCharge)
    requires i < |rows|
    ensures PaidFixedTotal(rows[i := f]) == PaidFixedTotal(rows) - PaidAmount(rows[i]) + PaidAmount(f)
    decreases i
  {
    var rows' := rows[i := f];
    PaidTotalUnfold(rows);
    PaidTotalUnfold(rows');
    if i == 0 {
      assert rows'[1..] == rows[1..];
    } else {
      assert rows'[1..] == rows[1..][i - 1 := f];
      PaidTotalUpdate(rows[1..], i - 1, f);
    }
  }

  /** Ticking the paid box of an unpaid row lowers the balance by exactly
      that row's amount. */
  lemma MarkPaid(txs: seq<Transaction>, rows: seq<FixedCharge>, i: nat)
    requires i < |rows| && !rows[i].paid
    ensures Balance(txs, rows[i := rows[i].(paid := true)]) == Balance(txs, rows) - rows[i].amount
  {
    PaidTotalUpdate(rows, i, rows[i].(paid := true));
  }

  /** Clearing the paid box of a paid row raises the balance by exactly
      that row's amount; clearing and then ticking the box gives back the
      original rows and the original balance. */
  lemma MarkUnpaid(txs: seq<Transaction>, rows: seq<FixedCharge>, i: nat)
    requires i < |rows| && rows[i].paid
    ensures Balance(txs, rows[i := rows[i].(paid := false)]) == Balance(txs, rows) + rows[i].amount
    ensures var r := rows[i := rows[i].(paid := false)]; r[i := r[i].(paid := true)] == rows
  {
    PaidTotalUpdate(rows, i, rows[i].(paid := false));
  }

  /** The per-kind sums do not depend on the order of the rows, so the
      order in which the store returns transactions does not matter. */
  lemma {:induction false} KindTotalPermutation(a: seq<Transaction>, b: seq<Transaction>, kind: string)
    requires multiset(a) == multiset(b)
    ensures KindTotal(a, kind) == KindTotal(b, kind)
    decreases |a|
  {
    if a == [] {
      assert |b| == |multiset(b)| == 0;
    } else {
      var x := a[0];
      assert x in multiset(b);
      var j :| 0 <= j < |b| && b[j] == x;
      var rest := b[..j] + b[j + 1..];
      assert b == b[..j] + ([x] + b[j + 1..]);
      assert a == [x] + a[1..];
      assert multiset(b) == multiset(b[..j]) + multiset([x] + b[j + 1..]);
      assert multiset([x] + b[j + 1..]) == multiset{x} + multiset(b[j + 1..]);
      assert multiset(rest) == multiset(b[..j]) + multiset(b[j + 1..]);
      assert multiset(a) == multiset{x} + multiset(a[1..]);
      assert multiset(b) == multiset{x} + multiset(rest);
      assert multiset(a[1..]) == multiset(a) - multiset{x};
      assert multiset(rest) == multiset(b) - multiset{x};
      KindTotalPermutation(a[1..], rest, kind);
      KindTotalAppend([x], a[1..], kind);
      KindTotalAppend(b[..j], [x] + b[j + 1..], kind);
      KindTotalAppend([x], b[j + 1..], kind);
      KindTotalAppend(b[..j], b[j + 1..], kind);
    }
  }

  /** Income, expense and so the balance do not depend on row order. */
  lemma BalanceIgnoresOrder(a: seq<Transaction>, b: seq<Transaction>, rows: seq<FixedCharge>)
    requires multiset(a) == multiset(b)
    ensures IncomeTotal(a) == IncomeTotal(b) && ExpenseTotal(a) == ExpenseTotal(b)
    ensures Balance(a, rows) == Balance(b, rows)
  {
    assert |a| == |multiset(a)| == |multiset(b)| == |b|;
    KindTotalPermutation(a, b, Income);
    KindTotalPermutation(a, b, Expense);
  }
}
