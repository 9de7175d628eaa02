/**
 * The payroll rules of services/payroll_service.py: a month's salary from the employee's
 * pay components and attendance, and the ledger entry written when that month is paid.
 * Amounts are exact reals; the database read is a parameter.
 */
module PayrollService {
  import opened Wrappers
  import opened Text

  // ---------------------------------------------------------------- the month key

  /** `f"{year}-{month:02d}"`: the key attendance dates of the month start with. */
  function MonthKey(year: nat, month: nat): (r: string)
    ensures |r| >= |NatToString(year)| + 3 && r[|NatToString(year)|] == '-'
  {
    NatToString(year) + "-" + Pad2(month)
  }

  /** The key reads back as its year and month. */
  lemma MonthKeyRoundTrip(year: nat, month: nat)
    ensures Split(MonthKey(year, month), '-') == [NatToString(year), Pad2(month)]
    ensures DigitsValue(NatToString(year)) == year && DigitsValue(Pad2(month)) == month
  {
    NoSeparatorInDigits(NatToString(year));
    NoSeparatorInDigits(Pad2(month));
    SplitAfterPiece(NatToString(year), '-', Pad2(month));
    SplitWithoutSeparator(Pad2(month), '-');
    NatToStringRoundTrip(year);
  }

  lemma NoSeparatorInDigits(s: string)
    requires AllDigits(s)
    ensures '-' !in s
  {
    assert forall k :: 0 <= k < |s| ==> s[k] != '-';
  }

  // ---------------------------------------------------------------- salary

  /**
   * What `get_salary_components` yields: name, base salary, PF rate, tax deduction, per-day
   * bonus, department and role, then the month's present and leave days.
   */
  datatype Components = Components(name: string, base: real, pfPct: real, taxDed: real, bonus: real,
                                   dept: string, role: string, presentDays: nat, leaveDays: nat)

  /** The salary record `calculate_salary` returns. */
  datatype Payslip = Payslip(
    empCode: string, name: string, dept: string, role: string, monthYear: string,
    baseSalary: real, presentDays: nat, leaves: nat,
    pf: real, tax: real, bonus: real, netSalary: real, status: string)

  const MonthNames: seq<string> :=
    ["January", "February", "March", "April", "May", "June",
     "July", "August", "September", "October", "November", "December"]

  /** `strftime('%B')` for a month 1..12. */
  function MonthName(month: nat): string
    requires 1 <= month <= 12
  {
    MonthNames[month - 1]
  }

  /** Days paid for: present days and leave days. */
  function PayableDays(c: Components): nat
  {
    c.presentDays + c.leaveDays
  }

  /** A thirtieth of the base salary for every payable day. */
  function EarnedBasic(c: Components): real
  {
    (c.base / 30.0) * PayableDays(c) as real
  }

  /** Earned basic plus the bonus for every present day. */
  function Gross(c: Components): real
  {
    EarnedBasic(c) + c.bonus * c.presentDays as real
  }

  /** The provident fund: the PF rate applied to the earned basic. */
  function Pf(c: Components): real
  {
    EarnedBasic(c) * c.pfPct
  }

  /** The tax deduction, waived when there are no gross earnings. */
  function Tax(c: Components): (t: real)
    ensures Gross(c) > 0.0 ==> t == c.taxDed
    ensures Gross(c) <= 0.0 ==> t == 0.0
  {
    if Gross(c) > 0.0 then c.taxDed else 0.0
  }

  /** Gross less PF and tax, never below zero. */
  function Net(c: Components): (n: real)
    ensures n >= 0.0
    ensures n >= Gross(c) - Pf(c) - Tax(c)
    ensures n == 0.0 || n == Gross(c) - Pf(c) - Tax(c)
  {
    var net := Gross(c) - Pf(c) - Tax(c);
    if net < 0.0 then 0.0 else net
  }

  /**
   * `calculate_salary`: reads the components for the month key (and its `LIKE` pattern)
   * and, when there are any, computes the payslip. The period label names the month of
   * `clockMonth`, the month in which the computation runs, followed by the requested year.
   */
  function CalculateSalary(empCode: string, month: nat, year: nat, clockMonth: nat,
                           fetch: (string, string, string) -> Option<Components>): (r: Option<Payslip>)
    requires 1 <= clockMonth <= 12
    ensures r.None? <==> fetch(empCode, MonthKey(year, month), MonthKey(year, month) + "%").None?
    ensures r.Some? ==>
      var c := fetch(empCode, MonthKey(year, month), MonthKey(year, month) + "%").value;
      && r.value.empCode == empCode && r.value.name == c.name && r.value.dept == c.dept && r.value.role == c.role
      && r.value.netSalary >= 0.0
      && r.value.bonus == c.bonus * c.presentDays as real
      && r.value.pf == c.pfPct * (c.base / 30.0) * (c.presentDays + c.leaveDays) as real
      && (Gross(c) > 0.0 ==> r.value.tax == c.taxDed)
      && (Gross(c) <= 0.0 ==> r.value.tax == 0.0)
      && r.value.netSalary >= Gross(c) - r.value.pf - r.value.tax
      && (r.value.netSalary == 0.0 || r.value.netSalary == Gross(c) - r.value.pf - r.value.tax)
      && r.value.presentDays == c.presentDays && r.value.leaves == c.leaveDays && r.value.baseSalary == c.base
      && r.value.monthYear == MonthName(clockMonth) + " " + NatToString(year)
      && r.value.status == "Generated"
  {
    var key := MonthKey(year, month);
    match fetch(empCode, key, key + "%")
    case None => None
    case Some(c) =>
      Some(Payslip(empCode, c.name, c.dept, c.role, MonthName(clockMonth) + " " + NatToString(year),
                   c.base, c.presentDays, c.leaveDays, Pf(c), Tax(c), c.bonus * c.presentDays as real,
                   Net(c), "Generated"))
  }

  /** Leave days are paid at the basic rate but earn no bonus. */
  lemma LeaveEarnsNoBonus(c: Components, extraLeave: nat)
    ensures var d := c.(leaveDays := c.leaveDays + extraLeave);
      && Gross(d) - EarnedBasic(d) == Gross(c) - EarnedBasic(c)
      && EarnedBasic(d) == EarnedBasic(c) + (c.base / 30.0) * extraLeave as real
  {
  }

  /**
   * With a non-negative base, bonus and tax and a PF rate of at most one, one more present
   * day never lowers the net pay, the tax waiver included.
   */
  lemma NetGrowsWithPresentDays(c: Components)
    requires c.base >= 0.0 && c.bonus >= 0.0 && c.taxDed >= 0.0 && 0.0 <= c.pfPct <= 1.0
    ensures Net(c.(presentDays := c.presentDays + 1)) >= Net(c)
  {
    var d := c.(presentDays := c.presentDays + 1);
    var day := c.base / 30.0;
    assert day >= 0.0;
    OneMoreDay(day, PayableDays(c));
    OneMoreDay(c.bonus, c.presentDays);
    assert PayableDays(d) == PayableDays(c) + 1;
    assert EarnedBasic(d) == EarnedBasic(c) + day;
    assert Gross(d) == Gross(c) + day + c.bonus;
    ScaledWithin(day, c.pfPct);
    assert Pf(d) == Pf(c) + day * c.pfPct;
    NonNegativeProduct(day, PayableDays(c) as real);
    NonNegativeProduct(c.bonus, c.presentDays as real);
    if Gross(c) <= 0.0 {
      assert EarnedBasic(c) == 0.0;
      assert Pf(c) == 0.0;
      assert Net(c) == 0.0;
    } else {
      assert Gross(d) > 0.0;
      assert Tax(d) == Tax(c);
      assert Gross(d) - Pf(d) - Tax(d) == Gross(c) - Pf(c) - Tax(c) + (day - day * c.pfPct) + c.bonus;
      assert day * c.pfPct <= day;
      assert c.bonus >= 0.0;
      NoLoss(Gross(c) - Pf(c) - Tax(c), Gross(d) - Pf(d) - Tax(d), day, day * c.pfPct, c.bonus);
    }
  }

  lemma NoLoss(before: real, after: real, gain: real, loss: real, extra: real)
    requires after == before + (gain - loss) + extra && loss <= gain && extra >= 0.0
    ensures after >= before
  {
  }

  lemma OneMoreDay(rate: real, n: nat)
    ensures rate * (n + 1) as real == rate * n as real + rate
  {
  }

  lemma ScaledWithin(x: real, p: real)
    requires x >= 0.0 && 0.0 <= p <= 1.0
    ensures 0.0 <= x * p <= x
  {
    assert x * (1.0 - p) >= 0.0;
  }

  lemma NonNegativeProduct(x: real, y: real)
    requires x >= 0.0 && y >= 0.0
    ensures x * y >= 0.0
  {
  }

  // ---------------------------------------------------------------- payment ledger

  predicate IsLeap(year: nat)
  {
    year % 4 == 0 && (year % 100 != 0 || year % 400 == 0)
  }

  /** `calendar.monthrange(year, month)[1]`: the number of days in the month. */
  function LastDay(year: nat, month: nat): (d: nat)
    requires 1 <= month <= 12
    ensures 28 <= d <= 31
    ensures month == 2 ==> (d == 29 <==> IsLeap(year))
    ensures month != 2 ==> (d == 30 <==> month in {4, 6, 9, 11})
  {
    if month == 2 then (if IsLeap(year) then 29 else 28)
    else if month in {4, 6, 9, 11} then 30
    else 31
  }

  /** The month lengths add up to the length of the year. */
  lemma YearLength(year: nat)
    ensures LastDay(year, 1) + LastDay(year, 2) + LastDay(year, 3) + LastDay(year, 4) + LastDay(year, 5)
          + LastDay(year, 6) + LastDay(year, 7) + LastDay(year, 8) + LastDay(year, 9) + LastDay(year, 10)
          + LastDay(year, 11) + LastDay(year, 12) == if IsLeap(year) then 366 else 365
  {
  }

  /** What `mark_as_paid` hands to the ledger. */
  datatype Payment = Payment(empCode: string, monthYear: string, netSalary: real, clearedUpto: string)

  /**
   * `mark_as_paid`: the ledger text is the unpadded `month-year` and the cleared-up-to date
   * is the last day of the month; a month outside 1..12 makes `calendar.monthrange` raise,
   * and nothing is recorded.
   */
  function MarkAsPaid(empCode: string, month: nat, year: nat, netSalary: real): (r: Option<Payment>)
    ensures r.None? <==> !(1 <= month <= 12)
    ensures r.Some? ==> r.value.empCode == empCode && r.value.netSalary == netSalary
  {
    if !(1 <= month <= 12) then None
    else
      Some(Payment(empCode, NatToString(month) + "-" + NatToString(year), netSalary,
                   MonthKey(year, month) + "-" + NatToString(LastDay(year, month))))
  }

  /** Splitting two digit strings joined by a dash gives them back. */
  lemma SplitTwoFields(a: string, b: string)
    requires AllDigits(a) && AllDigits(b)
    ensures Split(a + "-" + b, '-') == [a, b]
  {
    NoSeparatorInDigits(a);
    NoSeparatorInDigits(b);
    SplitAfterPiece(a, '-', b);
    SplitWithoutSeparator(b, '-');
  }

  /** Splitting three digit strings joined by dashes gives them back. */
  lemma SplitThreeFields(a: string, b: string, c: string)
    requires AllDigits(a) && AllDigits(b) && AllDigits(c)
    ensures Split(a + "-" + b + "-" + c, '-') == [a, b, c]
  {
    NoSeparatorInDigits(a);
    assert a + "-" + b + "-" + c == a + ['-'] + (b + "-" + c);
    SplitAfterPiece(a, '-', b + "-" + c);
    SplitTwoFields(b, c);
  }

  /** The ledger text splits into the month and the year paid. */
  lemma LedgerTextReadsBack(empCode: string, month: nat, year: nat, netSalary: real)
    requires 1 <= month <= 12
    ensures var p := MarkAsPaid(empCode, month, year, netSalary).value;
      && Split(p.monthYear, '-') == [NatToString(month), NatToString(year)]
      && DigitsValue(NatToString(month)) == month && DigitsValue(NatToString(year)) == year
  {
    SplitTwoFields(NatToString(month), NatToString(year));
    NatToStringRoundTrip(month);
    NatToStringRoundTrip(year);
  }

  /**
   * The cleared-up-to date splits into the year, the zero-padded month and the month's last
   * day (always two digits); it starts with the month key, so it falls inside the month
   * `calculate_salary` reads.
   */
  lemma ClearedDateReadsBack(empCode: string, month: nat, year: nat, netSalary: real)
    requires 1 <= month <= 12
    ensures var p := MarkAsPaid(empCode, month, year, netSalary).value;
      var d := NatToString(LastDay(year, month));
      && Split(p.clearedUpto, '-') == [NatToString(year), Pad2(month), d]
      && DigitsValue(Pad2(month)) == month && |Pad2(month)| == 2
      && DigitsValue(d) == LastDay(year, month) && |d| == 2
      && MonthKey(year, month) <= p.clearedUpto
  {
    SplitThreeFields(NatToString(year), Pad2(month), NatToString(LastDay(year, month)));
    NatToStringRoundTrip(LastDay(year, month));
  }
}
