/** The figures of the reports page, src/app/reports/page.tsx, over the fetched employees and positions. */
module Reports {
  import opened EmployeeService
  import opened PositionService
  import Dashboard

  /** The four breakdowns: by department, plant, payroll type and collar type. */
  datatype BreakdownField = ByDepartment | ByPlant | ByPayrollType | ByCollarType

  function KeyOf(e: Employee, field: BreakdownField): string {
    match field
    case ByDepartment => e.department
    case ByPlant => e.plant
    case ByPayrollType => e.payrollType
    case ByCollarType => e.collarType
  }

  /** How many employees have `key` under `field`. */
  function Count(employees: seq<Employee>, field: BreakdownField, key: string): (n: nat)
    ensures n <= |employees|
    decreases |employees|
  {
    if employees == [] then 0
    else Count(employees[..|employees| - 1], field, key) + (if KeyOf(employees[|employees| - 1], field) == key then 1 else 0)
  }

  /** The accumulator after folding the employees in order: `acc[key] = (acc[key] || 0) + 1`. */
  function Tally(employees: seq<Employee>, field: BreakdownField): map<string, nat>
    decreases |employees|
  {
    if employees == [] then map[]
    else
      var acc := Tally(employees[..|employees| - 1], field);
      var key := KeyOf(employees[|employees| - 1], field);
      acc[key := (if key in acc then acc[key] else 0) + 1]
  }

  /** The accumulator's keys in insertion order, which is the order `Object.entries` lists them in. */
  function KeyOrder(employees: seq<Employee>, field: BreakdownField): seq<string>
    decreases |employees|
  {
    if employees == [] then []
    else
      var keys := KeyOrder(employees[..|employees| - 1], field);
      var key := KeyOf(employees[|employees| - 1], field);
      if key in keys then keys else keys + [key]
  }

  predicate NoRepeats(keys: seq<string>) {
    forall i, j :: 0 <= i < j < |keys| ==> keys[i] != keys[j]
  }

  /** The count under a key is the number of employees with that key, and a key is present only when someone has it. */
  lemma {:induction false} TallyCounts(employees: seq<Employee>, field: BreakdownField, key: string)
    ensures key in Tally(employees, field) <==> Count(employees, field, key) > 0
    ensures key in Tally(employees, field) ==> Tally(employees, field)[key] == Count(employees, field, key)
    decreases |employees|
  {
    if employees != [] {
      TallyCounts(employees[..|employees| - 1], field, key);
    }
  }

  /** Folding one more employee adds 1 under that employee's key and changes no other key. */
  lemma TallyStep(employees: seq<Employee>, e: Employee, field: BreakdownField, key: string)
    ensures var before, after := Tally(employees, field), Tally(employees + [e], field);
            && KeyOf(e, field) in after
            && after[KeyOf(e, field)] == (if KeyOf(e, field) in before then before[KeyOf(e, field)] else 0) + 1
            && (key != KeyOf(e, field) ==> (key in after <==> key in before) && (key in before ==> after[key] == before[key]))
  {
    assert (employees + [e])[..|employees|] == employees;
  }

  /** The key order lists each key of the accumulator exactly once. */
  lemma {:induction false} KeyOrderIsDomain(employees: seq<Employee>, field: BreakdownField)
    ensures NoRepeats(KeyOrder(employees, field))
    ensures forall key :: key in KeyOrder(employees, field) <==> key in Tally(employees, field)
    decreases |employees|
  {
    if employees != [] {
      KeyOrderIsDomain(employees[..|employees| - 1], field);
    }
  }

  /** The counts under `keys`, added up in that order. */
  function SumAlong(acc: map<string, nat>, keys: seq<string>): nat
    requires forall key :: key in keys ==> key in acc
    decreases |keys|
  {
    if keys == [] then 0 else acc[keys[0]] + SumAlong(acc, keys[1..])
  }

  lemma {:induction false} SumAlongAppend(acc: map<string, nat>, keys: seq<string>, key: string)
    requires forall k :: k in keys ==> k in acc
    requires key in acc
    ensures SumAlong(acc, keys + [key]) == SumAlong(acc, keys) + acc[key]
    decreases |keys|
  {
    if keys == [] {
      assert [key][1..] == [];
    } else {
      assert (keys + [key])[1..] == keys[1..] + [key];
      SumAlongAppend(acc, keys[1..], key);
    }
  }

  /** Changing the count of a key that is not listed leaves the sum unchanged. */
  lemma {:induction false} SumAlongUnlisted(acc: map<string, nat>, keys: seq<string>, key: string, v: nat)
    requires forall k :: k in keys ==> k in acc
    requires key !in keys
    ensures SumAlong(acc[key := v], keys) == SumAlong(acc, keys)
    decreases |keys|
  {
    if keys != [] {
      SumAlongUnlisted(acc, keys[1..], key, v);
    }
  }

  /** Adding 1 under a key listed exactly once adds 1 to the sum. */
  lemma {:induction false} SumAlongBump(acc: map<string, nat>, keys: seq<string>, key: string)
    requires forall k :: k in keys ==> k in acc
    requires NoRepeats(keys) && key in keys
    ensures SumAlong(acc[key := acc[key] + 1], keys) == SumAlong(acc, keys) + 1
    decreases |keys|
  {
    if keys[0] == key {
      assert key !in keys[1..];
      SumAlongUnlisted(acc, keys[1..], key, acc[key] + 1);
    } else {
      assert NoRepeats(keys[1..]);
      SumAlongBump(acc, keys[1..], key);
    }
  }

  /** In each breakdown the counts add up to the number of employees. */
  lemma {:induction false} CountsSumToTotal(employees: seq<Employee>, field: BreakdownField)
    ensures forall key :: key in KeyOrder(employees, field) ==> key in Tally(employees, field)
    ensures SumAlong(Tally(employees, field), KeyOrder(employees, field)) == |employees|
    decreases |employees|
  {
    KeyOrderIsDomain(employees, field);
    if employees != [] {
      var init := employees[..|employees| - 1];
      var key := KeyOf(employees[|employees| - 1], field);
      var acc, keys := Tally(init, field), KeyOrder(init, field);
      CountsSumToTotal(init, field);
      KeyOrderIsDomain(init, field);
      if key in keys {
        SumAlongBump(acc, keys, key);
      } else {
        SumAlongUnlisted(acc, keys, key, 1);
        SumAlongAppend(acc[key := 1], keys, key);
      }
    }
  }

  /**
   * One breakdown reducer: the accumulator dictionary, updated in place for
   * each employee, together with the order its keys were inserted in.
   */
  method Breakdown(employees: seq<Employee>, field: BreakdownField) returns (acc: map<string, nat>, keys: seq<string>)
    ensures acc == Tally(employees, field)
    ensures keys == KeyOrder(employees, field)
  {
    acc, keys := map[], [];
    var i := 0;
    while i < |employees|
      invariant 0 <= i <= |employees|
      invariant acc == Tally(employees[..i], field)
      invariant keys == KeyOrder(employees[..i], field)
    {
      var key := KeyOf(employees[i], field);
      PrefixStep(employees, i, field);
      if key !in acc {
        keys := keys + [key];
      }
      acc := acc[key := (if key in acc then acc[key] else 0) + 1];
      i := i + 1;
    }
    assert employees[..|employees|] == employees;
  }

  /** What folding the employee at index `i` does to the accumulator and to the key order. */
  lemma PrefixStep(employees: seq<Employee>, i: nat, field: BreakdownField)
    requires i < |employees|
    ensures var key, acc := KeyOf(employees[i], field), Tally(employees[..i], field);
            && Tally(employees[..i + 1], field) == acc[key := (if key in acc then acc[key] else 0) + 1]
            && KeyOrder(employees[..i + 1], field) ==
                 if key in acc then KeyOrder(employees[..i], field) else KeyOrder(employees[..i], field) + [key]
  {
    assert employees[..i + 1][..i] == employees[..i];
    KeyOrderIsDomain(employees[..i], field);
  }

  /** `averageSalary`: the salary total over the head count, 0 for no employees. */
  function AverageSalary(employees: seq<Employee>): (avg: real)
    ensures |employees| == 0 ==> avg == 0.0
    ensures |employees| > 0 ==> avg * |employees| as real == Dashboard.TotalPayroll(employees)
  {
    if |employees| > 0 then Dashboard.TotalPayroll(employees) / |employees| as real else 0.0
  }

  /** The average lies between the lowest and the highest salary bound. */
  lemma AverageSalaryBounds(employees: seq<Employee>, lo: real, hi: real)
    requires |employees| > 0
    requires forall k :: 0 <= k < |employees| ==> lo <= employees[k].dailySalary <= hi
    ensures lo <= AverageSalary(employees) <= hi
  {
    Dashboard.TotalPayrollBounds(employees, lo, hi);
    QuotientBetween(Dashboard.TotalPayroll(employees), |employees| as real, lo, hi);
  }

  /** A total between n·lo and n·hi, shared out over n, gives a share between lo and hi. */
  lemma QuotientBetween(total: real, n: real, lo: real, hi: real)
    requires n > 0.0 && n * lo <= total <= n * hi
    ensures lo <= total / n <= hi
  {
  }

  /** `renderChart`: a count as a percentage of all employees. */
  function Percentage(count: nat, total: nat): real
    requires total > 0
  {
    count as real / total as real * 100.0
  }

  /** The percentages of the listed keys, added up. */
  function PercentagesAlong(acc: map<string, nat>, keys: seq<string>, total: nat): real
    requires forall key :: key in keys ==> key in acc
    requires total > 0
    decreases |keys|
  {
    if keys == [] then 0.0 else Percentage(acc[keys[0]], total) + PercentagesAlong(acc, keys[1..], total)
  }

  lemma {:induction false} PercentagesAlongSum(acc: map<string, nat>, keys: seq<string>, total: nat)
    requires forall key :: key in keys ==> key in acc
    requires total > 0
    ensures PercentagesAlong(acc, keys, total) == Percentage(SumAlong(acc, keys), total)
    decreases |keys|
  {
    if keys != [] {
      PercentagesAlongSum(acc, keys[1..], total);
      PercentageAdds(acc[keys[0]], SumAlong(acc, keys[1..]), total);
    }
  }

  lemma PercentageAdds(a: nat, b: nat, total: nat)
    requires total > 0
    ensures Percentage(a + b, total) == Percentage(a, total) + Percentage(b, total)
  {
    var t := total as real;
    assert (a + b) as real / t == a as real / t + b as real / t;
  }

  /** Over a non-empty list each bar is in (0, 100] and the bars of a chart add up to 100. */
  lemma ChartPercentages(employees: seq<Employee>, field: BreakdownField)
    requires |employees| > 0
    ensures forall key :: key in KeyOrder(employees, field) ==> key in Tally(employees, field)
    ensures forall key :: key in Tally(employees, field) ==>
              0.0 < Percentage(Tally(employees, field)[key], |employees|) <= 100.0
    ensures PercentagesAlong(Tally(employees, field), KeyOrder(employees, field), |employees|) == 100.0
  {
    var acc := Tally(employees, field);
    forall key | key in acc ensures 0.0 < Percentage(acc[key], |employees|) <= 100.0 {
      TallyCounts(employees, field, key);
      PercentageBounds(acc[key], |employees|);
    }
    CountsSumToTotal(employees, field);
    PercentagesAlongSum(acc, KeyOrder(employees, field), |employees|);
    PercentageBounds(|employees|, |employees|);
  }

  lemma PercentageBounds(count: nat, total: nat)
    requires 0 < count <= total
    ensures 0.0 < Percentage(count, total) <= 100.0
    ensures count == total ==> Percentage(count, total) == 100.0
  {
    Dashboard.QuotientAtMostOne(count as real, total as real);
    if count == total {
      assert count as real / total as real == 1.0;
    }
  }

  /** A breakdown together with the order `Object.entries` lists it in. */
  datatype Chart = Chart(counts: map<string, nat>, order: seq<string>)

  datatype ReportData = ReportData(
    totalEmployees: nat,
    totalPositions: nat,
    departmentBreakdown: Chart,
    plantBreakdown: Chart,
    payrollTypeBreakdown: Chart,
    collarTypeBreakdown: Chart,
    averageSalary: real,
    totalPayroll: real)

  function ChartOf(employees: seq<Employee>, field: BreakdownField): Chart {
    Chart(Tally(employees, field), KeyOrder(employees, field))
  }

  /** The calculations of lines 49-81, once both lists have arrived. */
  method BuildReport(employees: seq<Employee>, positions: seq<Position>) returns (report: ReportData)
    ensures report.totalEmployees == |employees| && report.totalPositions == |positions|
    ensures report.departmentBreakdown == ChartOf(employees, ByDepartment)
    ensures report.plantBreakdown == ChartOf(employees, ByPlant)
    ensures report.payrollTypeBreakdown == ChartOf(employees, ByPayrollType)
    ensures report.collarTypeBreakdown == ChartOf(employees, ByCollarType)
    ensures report.totalPayroll == Dashboard.TotalPayroll(employees)
    ensures report.averageSalary == AverageSalary(employees)
  {
    var department, departmentKeys := Breakdown(employees, ByDepartment);
    var plant, plantKeys := Breakdown(employees, ByPlant);
    var payrollType, payrollTypeKeys := Breakdown(employees, ByPayrollType);
    var collarType, collarTypeKeys := Breakdown(employees, ByCollarType);
    var totalPayroll := Dashboard.TotalPayroll(employees);
    var averageSalary := if |employees| > 0 then totalPayroll / |employees| as real else 0.0;
    report := ReportData(
      |employees|,
      |positions|,
      Chart(department, departmentKeys),
      Chart(plant, plantKeys),
      Chart(payrollType, payrollTypeKeys),
      Chart(collarType, collarTypeKeys),
      averageSalary,
      totalPayroll);
  }
}
