/** The period filter: the dashboard counts the transactions dated on or after
    the first day of today's month, with no upper bound. */
module Period {
  import opened Records

  predicate IsLeapYear(year: int) {
    (year % 4 == 0 && year % 100 != 0) || year % 400 == 0
  }

  function DaysInMonth(year: int, month: int): (n: int)
    requires 1 <= month <= 12
    ensures 28 <= n <= 31
    ensures month == 2 ==> (n == 29 <==> IsLeapYear(year))
  {
    if month == 2 then (if IsLeapYear(year) then 29 else 28)
    else if month == 4 || month == 6 || month == 9 || month == 11 then 30
    else 31
  }

  /** A date the calendar admits, within the years 1 to 9999 of the
      proleptic Gregorian calendar. */
  predicate ValidDate(d: Date) {
    && 1 <= d.year <= 9999
    && 1 <= d.month <= 12
    && 1 <= d.day <= DaysInMonth(d.year, d.month)
  }

  /** The lexicographic order on (year, month, day). */
  predicate OnOrBefore(a: Date, b: Date) {
    || a.year < b.year
    || (a.year == b.year && a.month < b.month)
    || (a.year == b.year && a.month == b.month && a.day <= b.day)
  }

  /** Today's date with its day replaced by 1. For a valid today it is a
      valid date of today's month, not after today and not after any other
      valid date of that month: the month's first day. */
  function MonthStart(today: Date): (start: Date)
    ensures start.year == today.year && start.month == today.month
    ensures ValidDate(today) ==> ValidDate(start) && OnOrBefore(start, today)
    ensures forall d :: ValidDate(d) && d.year == today.year && d.month == today.month ==> OnOrBefore(start, d)
  {
    today.(day := 1)
  }

  /** The inclusion test of the transaction query: date >= month start.
      A valid date passes exactly when its (year, month) is not before
      today's, so the whole current month counts, the first day included,
      and so does every later date. */
  predicate InPeriod(today: Date, d: Date)
    ensures ValidDate(d) ==> (InPeriod(today, d) <==> d.year > today.year || (d.year == today.year && d.month >= today.month))
  {
    OnOrBefore(MonthStart(today), d)
  }

  /** The store query `tarih >= month start`, keeping the table's order. */
  function ThisMonth(today: Date, txs: seq<Transaction>): (r: seq<Transaction>)
    ensures |r| <= |txs|
    ensures forall t :: t in r <==> t in txs && InPeriod(today, t.date)
  {
    if txs == [] then []
    else
      var rest := ThisMonth(today, txs[1..]);
      assert forall t :: t in txs <==> t == txs[0] || t in txs[1..];
      if InPeriod(today, txs[0].date) then [txs[0]] + rest else rest
  }

  /** The query returns every row of the period as many times as it occurs
      in the table, and no other row. */
  lemma {:induction false} ThisMonthKeepsEveryCopy(today: Date, txs: seq<Transaction>)
    ensures forall t :: multiset(ThisMonth(today, txs))[t] == if InPeriod(today, t.date) then multiset(txs)[t] else 0
    decreases |txs|
  {
    if txs != [] {
      assert txs == [txs[0]] + txs[1..];
      ThisMonthKeepsEveryCopy(today, txs[1..]);
    }
  }

  /** The query distributes over concatenation of tables. */
  lemma {:induction false} ThisMonthAppend(today: Date, a: seq<Transaction>, b: seq<Transaction>)
    ensures ThisMonth(today, a + b) == ThisMonth(today, a) + ThisMonth(today, b)
    decreases |a|
  {
    if a == [] {
      assert a + b == b;
    } else {
      assert (a + b)[0] == a[0];
      assert (a + b)[1..] == a[1..] + b;
      ThisMonthAppend(today, a[1..], b);
    }
  }

  /** A transaction dated before the month start never reaches the
      selection, wherever it stands in the table. */
  lemma EarlierDateIgnored(today: Date, a: seq<Transaction>, t: Transaction, b: seq<Transaction>)
    requires !OnOrBefore(MonthStart(today), t.date)
    ensures ThisMonth(today, a + [t] + b) == ThisMonth(today, a + b)
  {
    ThisMonthAppend(today, a + [t], b);
    ThisMonthAppend(today, a, [t]);
    ThisMonthAppend(today, a, b);
    assert ThisMonth(today, [t]) == [] by { assert [t][1..] == []; }
  }
}
