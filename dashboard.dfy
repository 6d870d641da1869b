/** The statistics of the dashboard, src/app/page.tsx, over the fetched employees and positions. */
module Dashboard {
  import opened EmployeeService
  import opened PositionService

  /** `employees.reduce((sum, emp) => sum + emp.dailySalary, 0)`: a left fold from 0. */
  function TotalPayroll(employees: seq<Employee>): real
    decreases |employees|
  {
    if employees == [] then 0.0
    else TotalPayroll(employees[..|employees| - 1]) + employees[|employees| - 1].dailySalary
  }

  /** The salary total is additive over concatenation. */
  lemma {:induction false} TotalPayrollAppend(a: seq<Employee>, b: seq<Employee>)
    ensures TotalPayroll(a + b) == TotalPayroll(a) + TotalPayroll(b)
    decreases |b|
  {
    if b == [] {
      assert a + b == a;
    } else {
      var init := b[..|b| - 1];
      TotalPayrollAppend(a, init);
      assert (a + b)[..|a + b| - 1] == a + init;
      assert (a + b)[|a + b| - 1] == b[|b| - 1];
    }
  }

  /** Salaries between `lo` and `hi` give a total between `n * lo` and `n * hi`. */
  lemma {:induction false} TotalPayrollBounds(employees: seq<Employee>, lo: real, hi: real)
    requires forall k :: 0 <= k < |employees| ==> lo <= employees[k].dailySalary <= hi
    ensures |employees| as real * lo <= TotalPayroll(employees) <= |employees| as real * hi
    decreases |employees|
  {
    if employees != [] {
      var n := |employees| - 1;
      var init := employees[..n];
      assert forall k :: 0 <= k < |init| ==> init[k] == employees[k];
      TotalPayrollBounds(init, lo, hi);
      Distribute(n as real, lo);
      Distribute(n as real, hi);
      assert TotalPayroll(employees) == TotalPayroll(init) + employees[n].dailySalary;
    }
  }

  lemma Distribute(n: real, x: real)
    ensures (n + 1.0) * x == n * x + x
  {
  }

  /** `positions.filter((pos) => pos.isFilled).length`. */
  function FilledPositions(positions: seq<Position>): (n: nat)
    ensures n <= |positions|
    ensures n == |positions| <==> forall k :: 0 <= k < |positions| ==> positions[k].isFilled
    ensures n == 0 <==> forall k :: 0 <= k < |positions| ==> !positions[k].isFilled
    decreases |positions|
  {
    if positions == [] then 0
    else FilledPositions(positions[..|positions| - 1]) + (if positions[|positions| - 1].isFilled then 1 else 0)
  }

  datatype DashboardStats = DashboardStats(
    totalEmployees: nat,
    totalPositions: nat,
    filledPositions: nat,
    totalPayroll: real)

  /** The state before the fetch resolves. */
  const InitialStats := DashboardStats(0, 0, 0, 0.0)

  /** The `setStats` call once both lists have arrived. */
  function Stats(employees: seq<Employee>, positions: seq<Position>): (s: DashboardStats)
    ensures s.totalEmployees == |employees| && s.totalPositions == |positions|
    ensures s.filledPositions == FilledPositions(positions) && s.filledPositions <= s.totalPositions
    ensures s.totalPayroll == TotalPayroll(employees)
  {
    DashboardStats(|employees|, |positions|, FilledPositions(positions), TotalPayroll(employees))
  }

  /** The stats the page can hold: the initial ones or ones computed by `Stats`. */
  predicate Consistent(s: DashboardStats) {
    s.filledPositions <= s.totalPositions
  }

  /** "Open Positions": `totalPositions - filledPositions`, never negative. */
  function OpenPositions(s: DashboardStats): (n: int)
    ensures Consistent(s) ==> 0 <= n <= s.totalPositions
  {
    s.totalPositions - s.filledPositions
  }

  /** `Math.round`: the nearest integer, halves rounded up. */
  function Round(x: real): (r: int)
    ensures r as real - 0.5 <= x < r as real + 0.5
  {
    (x + 0.5).Floor
  }

  /** "Employee Utilization": 0 without positions, else the rounded filled percentage. */
  function Utilization(s: DashboardStats): (u: int)
    ensures s.totalPositions == 0 ==> u == 0
    ensures Consistent(s) ==> 0 <= u <= 100
  {
    if s.totalPositions > 0 then
      RatioBounds(s.filledPositions, s.totalPositions);
      Round(s.filledPositions as real / s.totalPositions as real * 100.0)
    else 0
  }

  lemma RatioBounds(filled: nat, total: nat)
    requires total > 0
    ensures 0.0 <= filled as real / total as real * 100.0
    ensures filled <= total ==> filled as real / total as real * 100.0 <= 100.0
  {
    if filled <= total {
      QuotientAtMostOne(filled as real, total as real);
    }
  }

  /** A part of a positive whole is a fraction in [0, 1]. */
  lemma QuotientAtMostOne(part: real, whole: real)
    requires 0.0 <= part <= whole && whole > 0.0
    ensures 0.0 <= part / whole <= 1.0
  {
  }

  /** Before the fetch, and with no filled position, utilisation is 0; with every position filled it is 100. */
  lemma UtilizationExtremes(positions: seq<Position>, employees: seq<Employee>)
    ensures Utilization(InitialStats) == 0
    ensures FilledPositions(positions) == 0 ==> Utilization(Stats(employees, positions)) == 0
    ensures |positions| > 0 && FilledPositions(positions) == |positions| ==> Utilization(Stats(employees, positions)) == 100
  {
    var s := Stats(employees, positions);
    if s.totalPositions > 0 {
      RatioExtremes(s.filledPositions, s.totalPositions);
    }
  }

  lemma RatioExtremes(filled: nat, total: nat)
    requires total > 0
    ensures filled == 0 ==> filled as real / total as real * 100.0 == 0.0
    ensures filled == total ==> filled as real / total as real * 100.0 == 100.0
  {
  }
}
