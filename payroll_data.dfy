/** The mock payroll data and helpers of src/lib/payrollData.ts. */
module PayrollData {
  import opened Wrappers

  datatype MockEmployee = MockEmployee(
    id: int,
    name: string,
    position: string,
    department: string,
    plant: string,
    dailySalary: real)

  datatype Status = Pending | Approved | Paid

  datatype PayrollEntry = PayrollEntry(
    id: int,
    employeeId: int,
    employee: MockEmployee,
    baseSalary: real,
    deductions: real,
    taxes: real,
    bonuses: real,
    netPay: real,
    date: string,
    status: Status)

  const MockEmployees: seq<MockEmployee> := [
    MockEmployee(1, "John Doe", "Software Engineer", "IT", "HQ", 100.0),
    MockEmployee(2, "Jane Smith", "HR Specialist", "HR", "HQ", 80.0),
    MockEmployee(3, "Carlos Ruiz", "Payroll Clerk", "Finance", "Branch", 90.0),
    MockEmployee(4, "Maria Garcia", "Quality Inspector", "QCD", "PM", 85.0),
    MockEmployee(5, "David Wilson", "Production Manager", "MMD", "SSD", 120.0)
  ]

  const InitialPayrollEntries: seq<PayrollEntry> := [
    PayrollEntry(1, 1, MockEmployees[0], 3000.0, 200.0, 300.0, 100.0, 2600.0, "2024-01-15", Paid),
    PayrollEntry(2, 2, MockEmployees[1], 2400.0, 150.0, 200.0, 0.0, 2050.0, "2024-01-15", Approved),
    PayrollEntry(3, 3, MockEmployees[2], 2700.0, 180.0, 250.0, 50.0, 2320.0, "2024-01-15", Pending)
  ]

  /** `calculateNetPay`: what is earned, less what is withheld; bonuses default to 0. */
  function CalculateNetPay(baseSalary: real, deductions: real, taxes: real, bonuses: real := 0.0): (net: real)
    ensures net + deductions + taxes == baseSalary + bonuses
  {
    (baseSalary + bonuses) - (deductions + taxes)
  }

  /** `calculateBaseSalary`: the daily salary over a number of days, 30 by default. */
  function CalculateBaseSalary(dailySalary: real, days: real := 30.0): (base: real)
    ensures days != 0.0 ==> base / days == dailySalary
    ensures dailySalary >= 0.0 && days >= 0.0 ==> base >= 0.0
  {
    dailySalary * days
  }

  /** Without a day count the base salary covers 30 days. */
  lemma BaseSalaryDefault(dailySalary: real)
    ensures CalculateBaseSalary(dailySalary) == dailySalary * 30.0
    ensures CalculateBaseSalary(dailySalary) == CalculateBaseSalary(dailySalary, 30.0)
  {
  }

  /** Each unit of bonus raises the net by one unit, each unit withheld lowers it by one. */
  lemma NetPayMoves(baseSalary: real, deductions: real, taxes: real, bonuses: real, delta: real)
    ensures CalculateNetPay(baseSalary, deductions, taxes, bonuses + delta) == CalculateNetPay(baseSalary, deductions, taxes, bonuses) + delta
    ensures CalculateNetPay(baseSalary, deductions + delta, taxes, bonuses) == CalculateNetPay(baseSalary, deductions, taxes, bonuses) - delta
    ensures CalculateNetPay(baseSalary, deductions, taxes) == CalculateNetPay(baseSalary, deductions, taxes, 0.0)
  {
  }

  /** `Array.prototype.find` by id: the first employee with that id. */
  function FindById(employees: seq<MockEmployee>, id: int): (r: Option<nat>)
    ensures r.Some? ==> r.value < |employees| && employees[r.value].id == id
    ensures r.Some? ==> forall k :: 0 <= k < r.value ==> employees[k].id != id
    ensures r.None? <==> forall k :: 0 <= k < |employees| ==> employees[k].id != id
    decreases |employees|
  {
    if employees == [] then None
    else if employees[0].id == id then Some(0)
    else match FindById(employees[1..], id)
      case None => None
      case Some(k) => Some(k + 1)
  }

  /** `getEmployeeById`: the first mock employee with that id, or `undefined`. */
  function GetEmployeeById(id: int): (r: Option<MockEmployee>)
    ensures r.Some? ==> r.value in MockEmployees && r.value.id == id
    ensures r.None? <==> forall e :: e in MockEmployees ==> e.id != id
  {
    match FindById(MockEmployees, id)
    case None => None
    case Some(k) => Some(MockEmployees[k])
  }

  /** The mock ids are pairwise distinct, so `getEmployeeById` finds the only employee with that id. */
  lemma MockIdsDistinct()
    ensures forall k, l :: 0 <= k < l < |MockEmployees| ==> MockEmployees[k].id != MockEmployees[l].id
    ensures forall k :: 0 <= k < |MockEmployees| ==> GetEmployeeById(MockEmployees[k].id) == Some(MockEmployees[k])
  {
  }

  /** Every seed entry agrees with the helpers: its net pay, its base salary for 30 days and its employee. */
  lemma SeedEntriesConsistent()
    ensures forall k :: 0 <= k < |InitialPayrollEntries| ==> EntryConsistent(InitialPayrollEntries[k])
  {
    forall k | 0 <= k < |InitialPayrollEntries|
      ensures EntryConsistent(InitialPayrollEntries[k])
    {
      EntryFindsEmployee(k);
    }
  }

  predicate EntryConsistent(entry: PayrollEntry) {
    && entry.netPay == CalculateNetPay(entry.baseSalary, entry.deductions, entry.taxes, entry.bonuses)
    && entry.baseSalary == CalculateBaseSalary(entry.employee.dailySalary)
    && entry.employeeId == entry.employee.id
    && GetEmployeeById(entry.employeeId) == Some(entry.employee)
  }

  lemma EntryFindsEmployee(k: nat)
    requires k < |InitialPayrollEntries|
    ensures EntryConsistent(InitialPayrollEntries[k])
  {
    assert InitialPayrollEntries[k].employee == MockEmployees[k];
    MockIdsDistinct();
  }
}
