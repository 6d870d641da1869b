/**
 * The two tables of src/lib/database.ts, as in-memory maps from row id to row,
 * with the constraints the CREATE TABLE statements declare: NOT NULL columns
 * of fixed types, UNIQUE `payrollNumber`, the FOREIGN KEY from
 * `employees.positionId` to `positions.id` (enforced: `foreign_keys = ON`),
 * `isFilled` defaulting to 0, and AUTOINCREMENT ids.
 */
module Database {

  /** A value bound to a `?` placeholder or stored in a column. */
  datatype SqlValue = Text(s: string) | Real(r: real) | Integer(i: int)

  datatype SqlType = TextType | RealType | IntegerType

  predicate HasType(v: SqlValue, t: SqlType) {
    match t
    case TextType => v.Text?
    case RealType => v.Real?
    case IntegerType => v.Integer?
  }

  /** Why a write is refused: a UNIQUE or a FOREIGN KEY constraint. */
  datatype DbError = UniqueViolation | ForeignKeyViolation

  // ---- positions ----

  datatype PositionColumn = Title | Department | DailySalary | IsFilled

  function PositionColumnType(c: PositionColumn): SqlType {
    match c
    case Title => TextType
    case Department => TextType
    case DailySalary => RealType
    case IsFilled => IntegerType
  }

  type PositionRecord = map<PositionColumn, SqlValue>

  /** Every column present, each of its declared type. */
  predicate WellFormedPosition(rec: PositionRecord) {
    forall c: PositionColumn :: c in rec && HasType(rec[c], PositionColumnType(c))
  }

  // ---- employees ----

  datatype EmployeeColumn =
    | PayrollNumber | Name | PositionId | Shift | Nss | Rfc | Curp | BirthDate
    | BirthPlace | Gender | BloodType | Plant | EmpDepartment | EmpDailySalary
    | HireDate | PayrollType | Source | TransportRoute | TransportStop
    | CostCenter | TransportType | BankAccount | CollarType

  function EmployeeColumnType(c: EmployeeColumn): SqlType {
    match c
    case PayrollNumber => IntegerType
    case PositionId => IntegerType
    case EmpDailySalary => RealType
    case _ => TextType
  }

  type EmployeeRecord = map<EmployeeColumn, SqlValue>

  /** The 23 columns of `employees` besides `id`. */
  const AllEmployeeColumns: set<EmployeeColumn> :=
    {PayrollNumber, Name, PositionId, Shift, Nss, Rfc, Curp, BirthDate,
     BirthPlace, Gender, BloodType, Plant, EmpDepartment, EmpDailySalary, HireDate, PayrollType,
     Source, TransportRoute, TransportStop, CostCenter, TransportType, BankAccount, CollarType}

  lemma EveryEmployeeColumn(c: EmployeeColumn)
    ensures c in AllEmployeeColumns
  {
    match c
    case PayrollNumber =>
    case Name =>
    case PositionId =>
    case Shift =>
    case Nss =>
    case Rfc =>
    case Curp =>
    case BirthDate =>
    case BirthPlace =>
    case Gender =>
    case BloodType =>
    case Plant =>
    case EmpDepartment =>
    case EmpDailySalary =>
    case HireDate =>
    case PayrollType =>
    case Source =>
    case TransportRoute =>
    case TransportStop =>
    case CostCenter =>
    case TransportType =>
    case BankAccount =>
    case CollarType =>
  }

  predicate WellFormedEmployee(rec: EmployeeRecord) {
    forall c: EmployeeColumn :: c in rec && HasType(rec[c], EmployeeColumnType(c))
  }

  /** `payrollNumber INTEGER UNIQUE`. */
  predicate UniquePayrollNumbers(employees: map<int, EmployeeRecord>) {
    forall i, j :: i in employees && j in employees && i != j && PayrollNumber in employees[i] && PayrollNumber in employees[j] ==>
      employees[i][PayrollNumber] != employees[j][PayrollNumber]
  }

  /** `FOREIGN KEY (positionId) REFERENCES positions (id)`. */
  predicate ForeignKeysHold(employees: map<int, EmployeeRecord>, positions: map<int, PositionRecord>) {
    forall i :: i in employees && PositionId in employees[i] && employees[i][PositionId].Integer? ==>
      employees[i][PositionId].i in positions
  }

  /** Whether some employee row already holds this payroll number. */
  predicate PayrollNumberHeld(employees: map<int, EmployeeRecord>, v: SqlValue) {
    exists j :: j in employees && PayrollNumber in employees[j] && employees[j][PayrollNumber] == v
  }

  /** Whether some employee row references the position `id`. */
  predicate PositionReferenced(employees: map<int, EmployeeRecord>, id: int) {
    exists j :: j in employees && PositionId in employees[j] && employees[j][PositionId] == Integer(id)
  }

  /** Storing a row whose payroll number no other row holds and whose position exists keeps both constraints. */
  lemma PutEmployeeKeepsConstraints(employees: map<int, EmployeeRecord>, positions: map<int, PositionRecord>, id: int, rec: EmployeeRecord)
    requires UniquePayrollNumbers(employees) && ForeignKeysHold(employees, positions)
    requires WellFormedEmployee(rec)
    requires !PayrollNumberHeld(employees - {id}, rec[PayrollNumber])
    requires rec[PositionId].i in positions
    ensures UniquePayrollNumbers(employees[id := rec]) && ForeignKeysHold(employees[id := rec], positions)
  {
    var e := employees[id := rec];
    forall i, j | i in e && j in e && i != j && PayrollNumber in e[i] && PayrollNumber in e[j]
      ensures e[i][PayrollNumber] != e[j][PayrollNumber]
    {
      if i == id {
        assert j in employees - {id};
      } else if j == id {
        assert i in employees - {id};
      }
    }
  }

  // ---- UPDATE ... SET ... WHERE id = ? ----

  /** SET `c = ?` for each clause in turn, binding the values in order. */
  function ApplySet<C>(rec: map<C, SqlValue>, updates: seq<C>, values: seq<SqlValue>): map<C, SqlValue>
    requires |updates| == |values|
    decreases |updates|
  {
    if updates == [] then rec else ApplySet(rec[updates[0] := values[0]], updates[1..], values[1..])
  }

  /**
   * `UPDATE <table> SET <updates> WHERE id = ?` run with `values`: the first
   * |updates| values feed the SET clauses, the last one the WHERE clause.
   */
  function ExecUpdate<C>(table: map<int, map<C, SqlValue>>, updates: seq<C>, values: seq<SqlValue>): (t: map<int, map<C, SqlValue>>)
    requires |values| == |updates| + 1 && values[|updates|].Integer?
    ensures t.Keys == table.Keys
    ensures forall j :: j in table && j != values[|updates|].i ==> t[j] == table[j]
  {
    var id := values[|updates|].i;
    if id in table then table[id := ApplySet(table[id], updates, values[..|updates|])] else table
  }

  predicate Distinct<C(==)>(s: seq<C>) {
    forall k, l :: 0 <= k < l < |s| ==> s[k] != s[l]
  }

  /** Clauses over distinct columns set each listed column to its value and keep every other column. */
  lemma {:induction false} ApplySetAt<C>(rec: map<C, SqlValue>, updates: seq<C>, values: seq<SqlValue>, c: C)
    requires |updates| == |values| && Distinct(updates)
    ensures c in ApplySet(rec, updates, values) <==> c in rec || c in updates
    ensures forall k :: 0 <= k < |updates| && updates[k] == c ==> ApplySet(rec, updates, values)[c] == values[k]
    ensures c !in updates && c in rec ==> ApplySet(rec, updates, values)[c] == rec[c]
    decreases |updates|
  {
    if updates != [] {
      ApplySetAt(rec[updates[0] := values[0]], updates[1..], values[1..], c);
      forall k | 0 <= k < |updates| && updates[k] == c
        ensures ApplySet(rec, updates, values)[c] == values[k]
      {
        if k > 0 {
          assert updates[1..][k - 1] == c;
        }
      }
    }
  }

  /** The `database.sqlite` file, opened once and shared by both services. */
  class Db {
    var positions: map<int, PositionRecord>
    var employees: map<int, EmployeeRecord>
    /** AUTOINCREMENT: every id handed out so far is below these. */
    var nextPositionId: int
    var nextEmployeeId: int

    ghost predicate Valid()
      reads this
    {
      && nextPositionId >= 1 && nextEmployeeId >= 1
      && (forall id :: id in positions ==> 1 <= id < nextPositionId && WellFormedPosition(positions[id]))
      && (forall id :: id in employees ==> 1 <= id < nextEmployeeId && WellFormedEmployee(employees[id]))
      && UniquePayrollNumbers(employees)
      && ForeignKeysHold(employees, positions)
    }

    /** `CREATE TABLE IF NOT EXISTS` on a new database file: both tables empty. */
    constructor ()
      ensures Valid() && positions == map[] && employees == map[]
    {
      positions := map[];
      employees := map[];
      nextPositionId := 1;
      nextEmployeeId := 1;
    }
  }
}
