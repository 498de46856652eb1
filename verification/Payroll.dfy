/** Gross, deductions and net of one employee in one payroll run. */
module Payroll {
  import opened Options
  import opened Sums
  import opened LeaveDays

  datatype ElementType = Earning | Deduction | OtherElement(name: string)

  datatype InputLine = InputLine(kind: ElementType, amount: real)

  datatype Amounts = Amounts(gross: real, deductions: real, net: real)

  function SumOf(kind: ElementType, lines: seq<InputLine>): real {
    if lines == [] then 0.0
    else
      var last := lines[|lines| - 1];
      SumOf(kind, lines[..|lines| - 1]) + if last.kind == kind then last.amount else 0.0
  }

  method ComputePayroll(baseSalary: real, lines: seq<InputLine>) returns (amounts: Amounts)
    ensures amounts.gross == baseSalary + SumOf(Earning, lines)
    ensures amounts.deductions == SumOf(Deduction, lines)
    ensures amounts.net == amounts.gross - amounts.deductions
  {
    var gross, deductions := baseSalary, 0.0;
    for i := 0 to |lines|
      invariant gross == baseSalary + SumOf(Earning, lines[..i])
      invariant deductions == SumOf(Deduction, lines[..i])
    {
      assert lines[..i + 1][..i] == lines[..i];
      match lines[i].kind {
        case Earning => gross := gross + lines[i].amount;
        case Deduction => deductions := deductions + lines[i].amount;
        case OtherElement(_) =>
      }
    }
    assert lines[..|lines|] == lines;
    amounts := Amounts(gross, deductions, gross - deductions);
  }

  lemma {:induction false} SumOfConcat(kind: ElementType, a: seq<InputLine>, b: seq<InputLine>)
    ensures SumOf(kind, a + b) == SumOf(kind, a) + SumOf(kind, b)
  {
    if b == [] {
      assert a + b == a;
    } else {
      var n := |b| - 1;
      assert (a + b)[..|a| + n] == a + b[..n];
      SumOfConcat(kind, a, b[..n]);
    }
  }

  lemma SumOfSplit(kind: ElementType, lines: seq<InputLine>, k: nat)
    requires k < |lines|
    ensures SumOf(kind, lines)
      == SumOf(kind, lines[..k] + lines[k + 1..]) + if lines[k].kind == kind then lines[k].amount else 0.0
  {
    assert lines == lines[..k] + [lines[k]] + lines[k + 1..];
    SumOfConcat(kind, lines[..k] + [lines[k]], lines[k + 1..]);
    SumOfConcat(kind, lines[..k], [lines[k]]);
    SumOfConcat(kind, lines[..k], lines[k + 1..]);
    assert [lines[k]][..0] == [];
  }

  lemma WithoutOne(lines: seq<InputLine>, k: nat)
    requires k < |lines|
    ensures multiset(lines[..k] + lines[k + 1..]) == multiset(lines) - multiset{lines[k]}
  {
    assert lines == lines[..k] + [lines[k]] + lines[k + 1..];
  }

  /** The order in which lines are read does not change an amount. */
  lemma {:induction false} LineOrderIrrelevant(kind: ElementType, a: seq<InputLine>, b: seq<InputLine>)
    requires multiset(a) == multiset(b)
    ensures SumOf(kind, a) == SumOf(kind, b)
    decreases |a|
  {
    if a == [] {
      assert |multiset(b)| == 0;
    } else {
      var n := |a| - 1;
      assert a[n] in multiset(b);
      var k :| 0 <= k < |b| && b[k] == a[n];
      assert a[..n] + a[n + 1..] == a[..n];
      WithoutOne(a, n);
      WithoutOne(b, k);
      LineOrderIrrelevant(kind, a[..n], b[..k] + b[k + 1..]);
      SumOfSplit(kind, b, k);
    }
  }

  // ---- Adjustments and unpaid leave ------------------------------------------------------------

  function AdjustmentLine(amount: real): InputLine {
    if amount >= 0.0 then InputLine(Earning, amount) else InputLine(Deduction, -amount)
  }

  function AdjustmentLines(amounts: seq<real>): (lines: seq<InputLine>)
    ensures |lines| == |amounts|
    ensures forall i :: 0 <= i < |lines| ==> lines[i].amount >= 0.0
  {
    if amounts == [] then []
    else AdjustmentLines(amounts[..|amounts| - 1]) + [AdjustmentLine(amounts[|amounts| - 1])]
  }

  /** Signed adjustments become non-negative lines that move net by their signed sum. */
  lemma {:induction false} AdjustmentsMoveNet(amounts: seq<real>)
    ensures SumOf(Earning, AdjustmentLines(amounts)) - SumOf(Deduction, AdjustmentLines(amounts)) == Total(amounts)
  {
    if amounts != [] {
      var n := |amounts| - 1;
      AdjustmentsMoveNet(amounts[..n]);
      assert AdjustmentLines(amounts)[..n] == AdjustmentLines(amounts[..n]);
    }
  }

  /** The day rate of the period times the unpaid days, when all three are positive. */
  function LeaveDeduction(salary: real, unpaid: real, p: PayPeriod): real {
    var periodDays := CalculateDays(p.start, p.end);
    if unpaid > 0.0 && salary > 0.0 && periodDays.Days? && periodDays.days > 0.0
    then (salary / periodDays.days) * unpaid
    else 0.0
  }

  lemma ProductPositive(x: real, y: real)
    requires x > 0.0 && y > 0.0
    ensures x * y > 0.0
  {
  }

  lemma DayRate(salary: real, days: real, unpaid: real)
    requires salary > 0.0 && days > 0.0 && unpaid > 0.0
    ensures (salary / days) * unpaid > 0.0
    ensures (salary / days) * unpaid <= salary <==> unpaid <= days
  {
    var rate := salary / days;
    assert rate * days == salary;
    ProductPositive(rate, unpaid);
    if unpaid > days {
      ProductPositive(rate, unpaid - days);
    } else if unpaid < days {
      ProductPositive(rate, days - unpaid);
    }
  }

  /** The deduction exceeds the salary exactly when a salaried employee's unpaid days exceed the period. */
  lemma DeductionAtMostSalary(salary: real, unpaid: real, p: PayPeriod)
    requires salary >= 0.0 && p.start <= p.end
    ensures 0.0 <= LeaveDeduction(salary, unpaid, p)
    ensures LeaveDeduction(salary, unpaid, p) <= salary
      <==> salary == 0.0 || unpaid <= CalculateDays(p.start, p.end).days
  {
    if salary > 0.0 && unpaid > 0.0 {
      DayRate(salary, CalculateDays(p.start, p.end).days, unpaid);
    }
  }

  /** So leaves that do not overlap never take more than the salary, however many they are. */
  lemma DisjointLeaveAtMostSalary(salary: real, ws: seq<LeaveWindow>, p: PayPeriod)
    requires salary >= 0.0 && p.start <= p.end && DisjointIn(ws, p)
    ensures 0.0 <= LeaveDeduction(salary, TotalUnpaid(ws, p), p) <= salary
  {
    UnpaidWithinPeriod(ws, p);
    DeductionAtMostSalary(salary, TotalUnpaid(ws, p), p);
  }

  // ---- One employee of a run -------------------------------------------------------------------

  /** What the run reads for an employee. Failing to read the input lines ends the run; failing to
      read adjustments or leaves is passed over as if there were none. */
  datatype EmployeeData = EmployeeData(
    id: string, groupSchedule: string, salary: Option<real>, inputs: Option<seq<InputLine>>,
    adjustments: Option<seq<real>>, unpaidLeaves: Option<seq<LeaveWindow>>)

  function OrEmpty<T>(xs: Option<seq<T>>): seq<T> {
    if xs.Some? then xs.value else []
  }

  function SalaryOf(e: EmployeeData): real {
    if e.salary.Some? then e.salary.value else 0.0
  }

  function LeaveLines(deduction: real): seq<InputLine> {
    if deduction > 0.0 then [InputLine(Deduction, deduction)] else []
  }

  function PayOf(e: EmployeeData, p: PayPeriod): Amounts
    requires e.inputs.Some?
  {
    var lines := e.inputs.value + AdjustmentLines(OrEmpty(e.adjustments))
      + LeaveLines(LeaveDeduction(SalaryOf(e), TotalUnpaid(OrEmpty(e.unpaidLeaves), p), p));
    var gross, deductions := SalaryOf(e) + SumOf(Earning, lines), SumOf(Deduction, lines);
    Amounts(gross, deductions, gross - deductions)
  }

  /** The body of the employee loop, with its adjustment and window loops. */
  method PayEmployee(e: EmployeeData, p: PayPeriod) returns (amounts: Amounts)
    requires e.inputs.Some?
    ensures amounts == PayOf(e, p)
  {
    var lines := e.inputs.value;
    var adjustments := OrEmpty(e.adjustments);
    for i := 0 to |adjustments|
      invariant lines == e.inputs.value + AdjustmentLines(adjustments[..i])
    {
      assert adjustments[..i + 1][..i] == adjustments[..i];
      lines := lines + [AdjustmentLine(adjustments[i])];
    }
    assert adjustments[..|adjustments|] == adjustments;
    var unpaid := SumUnpaidDays(OrEmpty(e.unpaidLeaves), p);
    lines := lines + LeaveLines(LeaveDeduction(SalaryOf(e), unpaid, p));
    amounts := ComputePayroll(SalaryOf(e), lines);
  }

  lemma LeaveLinesSum(salary: real, unpaid: real, p: PayPeriod)
    ensures var d := LeaveDeduction(salary, unpaid, p);
      SumOf(Deduction, LeaveLines(d)) == d && SumOf(Earning, LeaveLines(d)) == 0.0
  {
    var d := LeaveDeduction(salary, unpaid, p);
    var days := CalculateDays(p.start, p.end);
    if unpaid > 0.0 && salary > 0.0 && days.Days? {
      DayRate(salary, days.days, unpaid);
      assert [InputLine(Deduction, d)][..0] == [];
    }
  }

  /** Net pay in one line: salary plus earnings less deductions, plus the signed adjustments, less the
      unpaid leave. Lines of an unknown type count for nothing. */
  lemma NetForm(e: EmployeeData, p: PayPeriod)
    requires e.inputs.Some?
    ensures var a := PayOf(e, p);
      a.net == SalaryOf(e) + SumOf(Earning, e.inputs.value) - SumOf(Deduction, e.inputs.value)
               + Total(OrEmpty(e.adjustments))
               - LeaveDeduction(SalaryOf(e), TotalUnpaid(OrEmpty(e.unpaidLeaves), p), p)
      && a.gross == a.deductions + a.net
  {
    var adjusted := AdjustmentLines(OrEmpty(e.adjustments));
    var unpaid := TotalUnpaid(OrEmpty(e.unpaidLeaves), p);
    var leave := LeaveLines(LeaveDeduction(SalaryOf(e), unpaid, p));
    AdjustmentsMoveNet(OrEmpty(e.adjustments));
    LeaveLinesSum(SalaryOf(e), unpaid, p);
    SumOfConcat(Earning, e.inputs.value + adjusted, leave);
    SumOfConcat(Deduction, e.inputs.value + adjusted, leave);
    SumOfConcat(Earning, e.inputs.value, adjusted);
    SumOfConcat(Deduction, e.inputs.value, adjusted);
  }

  /** The order of an employee's input lines does not change their pay. */
  lemma PayIgnoresLineOrder(e: EmployeeData, lines: seq<InputLine>, p: PayPeriod)
    requires e.inputs.Some? && multiset(lines) == multiset(e.inputs.value)
    ensures PayOf(e.(inputs := Some(lines)), p) == PayOf(e, p)
  {
    var rest := AdjustmentLines(OrEmpty(e.adjustments))
      + LeaveLines(LeaveDeduction(SalaryOf(e), TotalUnpaid(OrEmpty(e.unpaidLeaves), p), p));
    assert multiset(lines + rest) == multiset(e.inputs.value + rest);
    LineOrderIrrelevant(Earning, lines + rest, e.inputs.value + rest);
    LineOrderIrrelevant(Deduction, lines + rest, e.inputs.value + rest);
    Regroup(lines, e);
    Regroup(e.inputs.value, e);
  }

  lemma Regroup(lines: seq<InputLine>, e: EmployeeData)
    ensures forall more: seq<InputLine> ::
      lines + AdjustmentLines(OrEmpty(e.adjustments)) + more == lines + (AdjustmentLines(OrEmpty(e.adjustments)) + more)
  {
  }

  /** Two leaves over the whole period, which nothing rules out, take twice the salary. */
  lemma OverlapTakesTwice(salary: real, p: PayPeriod)
    requires salary > 0.0 && p.start <= p.end
    ensures var w := LeaveWindow(p.start, p.end, false, false);
      LeaveDeduction(salary, TotalUnpaid([w, w], p), p) == 2.0 * salary
  {
    var w := LeaveWindow(p.start, p.end, false, false);
    var days := CalculateDays(p.start, p.end).days;
    assert [w][..0] == [];
    assert TotalUnpaid([w], p) == days;
    assert [w, w][..1] == [w];
    assert TotalUnpaid([w, w], p) == days + days;
    assert (salary / days) * days == salary;
  }
}
