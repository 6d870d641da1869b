/** The role type and the role-to-pages table of src/lib/roles.ts. */
module Roles {
  import opened Wrappers

  /** The four roles of the closed `Role` union type. */
  datatype Role = Admin | HR | Payroll | Manager

  /** The six page keys that appear in the table. */
  datatype PageKey = Dashboard | Employees | Positions | PayrollPage | Reports | Applicants

  const AllRoles: seq<Role> := [Admin, HR, Payroll, Manager]
  const AllPages: seq<PageKey> := [Dashboard, Employees, Positions, PayrollPage, Reports, Applicants]

  /** The string literal a role is written as. */
  function RoleName(r: Role): string {
    match r
    case Admin => "ADMIN"
    case HR => "HR"
    case Payroll => "PAYROLL"
    case Manager => "MANAGER"
  }

  /** Reads a role string back; anything other than the four literals is no role. */
  function ParseRole(s: string): (r: Option<Role>)
    ensures r.Some? ==> RoleName(r.value) == s
  {
    if s == "ADMIN" then Some(Admin)
    else if s == "HR" then Some(HR)
    else if s == "PAYROLL" then Some(Payroll)
    else if s == "MANAGER" then Some(Manager)
    else None
  }

  /** The string key a page is written as in the table. */
  function PageName(p: PageKey): string {
    match p
    case Dashboard => "dashboard"
    case Employees => "employees"
    case Positions => "positions"
    case PayrollPage => "payroll"
    case Reports => "reports"
    case Applicants => "applicants"
  }

  predicate NoDuplicates<T(==)>(s: seq<T>) {
    forall i, j :: 0 <= i < j < |s| ==> s[i] != s[j]
  }

  /** ROLE_PAGES: the page list of each role, in the table's order. */
  function RolePages(r: Role): (pages: seq<PageKey>)
    ensures Dashboard in pages && Employees in pages && Reports in pages
    ensures NoDuplicates(pages)
  {
    match r
    case Admin => [Dashboard, Employees, Positions, PayrollPage, Reports, Applicants]
    case HR => [Dashboard, Employees, Positions, Reports, Applicants]
    case Payroll => [Dashboard, Employees, PayrollPage, Reports]
    case Manager => [Dashboard, Employees, Positions, Reports]
  }

  /** Whether a role's row lists a page. */
  predicate MayView(r: Role, p: PageKey) {
    p in RolePages(r)
  }

  lemma RoleNamesRoundTrip(r: Role)
    ensures ParseRole(RoleName(r)) == Some(r)
  {
  }

  /** Every page key is listed in ADMIN's row. */
  lemma AdminSeesEverything()
    ensures forall p: PageKey :: MayView(Admin, p)
    ensures |RolePages(Admin)| == |AllPages|
  {
    forall p: PageKey ensures MayView(Admin, p) {
      match p
      case Dashboard =>
      case Employees =>
      case Positions =>
      case PayrollPage =>
      case Reports =>
      case Applicants =>
    }
  }

  /** Every role's row is contained in ADMIN's row. */
  lemma RowsWithinAdmin(r: Role)
    ensures forall p :: MayView(r, p) ==> MayView(Admin, p)
  {
    AdminSeesEverything();
  }

  /** HR's row is Admin's row without `payroll`. */
  lemma HRLacksOnlyPayroll()
    ensures forall p: PageKey :: MayView(HR, p) <==> p != PayrollPage
  {
  }

  /** PAYROLL's row lacks exactly `positions` and `applicants`. */
  lemma PayrollLacksPositionsAndApplicants()
    ensures forall p: PageKey :: MayView(Payroll, p) <==> p != Positions && p != Applicants
  {
  }

  /** MANAGER's row lacks exactly `payroll` and `applicants`. */
  lemma ManagerLacksPayrollAndApplicants()
    ensures forall p: PageKey :: MayView(Manager, p) <==> p != PayrollPage && p != Applicants
  {
  }
}
