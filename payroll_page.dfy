/** The period payroll of src/app/payroll/page.tsx, over the employees `/api/employees` returns. */
module PayrollPage {
  import opened EmployeeService

  /** What `calculatePayroll` returns for one employee. */
  datatype PayrollLine = PayrollLine(
    grossPay: real,
    taxes: real,
    socialSecurity: real,
    totalDeductions: real,
    netPay: real,
    daysInPeriod: nat)

  const TaxRate: real := 0.16
  const SocialSecurityRate: real := 0.0725

  /** A weekly payroll covers 7 days; every other payroll type, bi-weekly or not, 14. */
  function DaysInPeriod(payrollType: string): (days: nat)
    ensures days == 7 || days == 14
    ensures days == 7 <==> payrollType == "SEMANAL"
  {
    if payrollType == "SEMANAL" then 7 else 14
  }

  function CalculatePayroll(e: Employee): (line: PayrollLine)
    ensures line.daysInPeriod == DaysInPeriod(e.payrollType)
    ensures line.netPay == 0.7675 * line.grossPay
    ensures line.netPay + line.totalDeductions == line.grossPay
    ensures e.dailySalary >= 0.0 ==> 0.0 <= line.netPay <= line.grossPay
  {
    var days := DaysInPeriod(e.payrollType);
    var gross := e.dailySalary * days as real;
    var taxes := gross * TaxRate;
    var socialSecurity := gross * SocialSecurityRate;
    var deductions := taxes + socialSecurity;
    PayrollLine(gross, taxes, socialSecurity, deductions, gross - deductions, days)
  }

  /** The pay of one period is the daily salary times its days; the deductions are 23.25% of it. */
  lemma PayrollOfSalary(e: Employee)
    ensures CalculatePayroll(e).grossPay == e.dailySalary * DaysInPeriod(e.payrollType) as real
    ensures CalculatePayroll(e).totalDeductions == 0.2325 * CalculatePayroll(e).grossPay
    ensures CalculatePayroll(e).taxes == 0.16 * CalculatePayroll(e).grossPay
    ensures CalculatePayroll(e).socialSecurity == 0.0725 * CalculatePayroll(e).grossPay
  {
  }

  /** A daily salary of 100 nets 537.25 a week and 1074.50 every fortnight. */
  lemma PayrollExamples(e: Employee)
    requires e.dailySalary == 100.0
    ensures e.payrollType == "SEMANAL" ==> CalculatePayroll(e).netPay == 537.25
    ensures e.payrollType == "CATORCENAL" ==> CalculatePayroll(e).netPay == 1074.5
  {
  }

  /** The payroll-type select: `'all'` or one payroll type. */
  predicate Selected(payrollType: string, e: Employee) {
    payrollType == "all" || e.payrollType == payrollType
  }

  /** `filteredEmployees`. */
  function FilterEmployees(employees: seq<Employee>, payrollType: string): (r: seq<Employee>)
    ensures |r| <= |employees|
    decreases |employees|
  {
    if employees == [] then []
    else
      var init := employees[..|employees| - 1];
      var last := employees[|employees| - 1];
      FilterEmployees(init, payrollType) + (if Selected(payrollType, last) then [last] else [])
  }

  /** The filter keeps order: it distributes over concatenation and keeps a single employee iff it is selected. */
  lemma {:induction false} FilterAppend(a: seq<Employee>, b: seq<Employee>, payrollType: string)
    ensures FilterEmployees(a + b, payrollType) == FilterEmployees(a, payrollType) + FilterEmployees(b, payrollType)
    decreases |b|
  {
    if b == [] {
      assert a + b == a;
    } else {
      var init, last := b[..|b| - 1], b[|b| - 1];
      var tail := if Selected(payrollType, last) then [last] else [];
      FilterAppend(a, init, payrollType);
      var ab := a + b;
      assert ab[..|ab| - 1] == a + init && ab[|ab| - 1] == last;
      assert FilterEmployees(ab, payrollType) == FilterEmployees(a + init, payrollType) + tail;
      assert FilterEmployees(b, payrollType) == FilterEmployees(init, payrollType) + tail;
    }
  }

  lemma FilterSingle(e: Employee, payrollType: string)
    ensures FilterEmployees([e], payrollType) == if Selected(payrollType, e) then [e] else []
  {
    assert [e][..0] == [];
  }

  /** `'all'` keeps every employee. */
  lemma {:induction false} FilterAll(employees: seq<Employee>)
    ensures FilterEmployees(employees, "all") == employees
    decreases |employees|
  {
    if employees != [] {
      FilterAll(employees[..|employees| - 1]);
      assert employees == employees[..|employees| - 1] + [employees[|employees| - 1]];
    }
  }

  /** Any other value keeps exactly the employees of that payroll type. */
  lemma {:induction false} FilterExact(employees: seq<Employee>, payrollType: string, e: Employee)
    ensures e in FilterEmployees(employees, payrollType) <==> e in employees && Selected(payrollType, e)
    decreases |employees|
  {
    if employees != [] {
      var init := employees[..|employees| - 1];
      FilterExact(init, payrollType, e);
      assert employees == init + [employees[|employees| - 1]];
    }
  }

  /** `reduce((sum, emp) => sum + f(emp), 0)`: a left fold from 0. */
  function SumOver(employees: seq<Employee>, f: Employee -> real): real
    decreases |employees|
  {
    if employees == [] then 0.0
    else SumOver(employees[..|employees| - 1], f) + f(employees[|employees| - 1])
  }

  function Net(e: Employee): real { CalculatePayroll(e).netPay }
  function Gross(e: Employee): real { CalculatePayroll(e).grossPay }
  function Deductions(e: Employee): real { CalculatePayroll(e).totalDeductions }

  /** `totalPayroll`, line 59: net pay summed over the filtered list. */
  function TotalPayroll(employees: seq<Employee>, payrollType: string): (total: real)
    ensures FilterEmployees(employees, payrollType) == [] ==> total == 0.0
  {
    SumOver(FilterEmployees(employees, payrollType), Net)
  }

  /** The "Total Gross Pay" card, line 127. */
  function TotalGross(employees: seq<Employee>, payrollType: string): real {
    SumOver(FilterEmployees(employees, payrollType), Gross)
  }

  /** The "Total Deductions" card, line 141. */
  function TotalDeductions(employees: seq<Employee>, payrollType: string): real {
    SumOver(FilterEmployees(employees, payrollType), Deductions)
  }

  /** Each fold is additive over concatenation. */
  lemma {:induction false} SumOverAppend(a: seq<Employee>, b: seq<Employee>, f: Employee -> real)
    ensures SumOver(a + b, f) == SumOver(a, f) + SumOver(b, f)
    decreases |b|
  {
    if b == [] {
      assert a + b == a;
    } else {
      var init := b[..|b| - 1];
      SumOverAppend(a, init, f);
      assert (a + b)[..|a + b| - 1] == a + init;
      assert (a + b)[|a + b| - 1] == b[|b| - 1];
    }
  }

  /** The three totals are additive over the fetched list. */
  lemma TotalsAdditive(a: seq<Employee>, b: seq<Employee>, payrollType: string)
    ensures TotalPayroll(a + b, payrollType) == TotalPayroll(a, payrollType) + TotalPayroll(b, payrollType)
    ensures TotalGross(a + b, payrollType) == TotalGross(a, payrollType) + TotalGross(b, payrollType)
    ensures TotalDeductions(a + b, payrollType) == TotalDeductions(a, payrollType) + TotalDeductions(b, payrollType)
  {
    FilterAppend(a, b, payrollType);
    var fa, fb := FilterEmployees(a, payrollType), FilterEmployees(b, payrollType);
    SumOverAppend(fa, fb, Net);
    SumOverAppend(fa, fb, Gross);
    SumOverAppend(fa, fb, Deductions);
  }

  lemma {:induction false} GrossSplits(employees: seq<Employee>)
    ensures SumOver(employees, Gross) - SumOver(employees, Deductions) == SumOver(employees, Net)
    ensures SumOver(employees, Net) == 0.7675 * SumOver(employees, Gross)
    decreases |employees|
  {
    if employees != [] {
      GrossSplits(employees[..|employees| - 1]);
    }
  }

  /** Total gross minus total deductions is the total payroll, which is 76.75% of the gross. */
  lemma TotalsBalance(employees: seq<Employee>, payrollType: string)
    ensures TotalGross(employees, payrollType) - TotalDeductions(employees, payrollType) == TotalPayroll(employees, payrollType)
    ensures TotalPayroll(employees, payrollType) == 0.7675 * TotalGross(employees, payrollType)
  {
    GrossSplits(FilterEmployees(employees, payrollType));
  }

  lemma {:induction false} SumOverNonNegative(employees: seq<Employee>, f: Employee -> real)
    requires forall e :: e in employees ==> f(e) >= 0.0
    ensures SumOver(employees, f) >= 0.0
    decreases |employees|
  {
    if employees != [] {
      SumOverNonNegative(employees[..|employees| - 1], f);
    }
  }

  /** With no negative salary the total payroll lies between 0 and the total gross. */
  lemma TotalPayrollBounds(employees: seq<Employee>, payrollType: string)
    requires forall e :: e in employees ==> e.dailySalary >= 0.0
    ensures 0.0 <= TotalPayroll(employees, payrollType) <= TotalGross(employees, payrollType)
  {
    var selected := FilterEmployees(employees, payrollType);
    forall e | e in selected ensures Net(e) >= 0.0 {
      FilterExact(employees, payrollType, e);
    }
    SumOverNonNegative(selected, Net);
    TotalsBalance(employees, payrollType);
  }
}
