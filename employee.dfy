/** `EmployeeService` of src/modules/employee.ts over the `employees` table. */
module EmployeeService {
  import opened Wrappers
  import opened Database

  /** `CreateEmployeeData`: the 23 columns a caller supplies, in the INSERT's order. */
  datatype CreateEmployeeData = CreateEmployeeData(
    payrollNumber: int,
    name: string,
    positionId: int,
    shift: string,
    nss: string,
    rfc: string,
    curp: string,
    birthDate: string,
    birthPlace: string,
    gender: string,
    bloodType: string,
    plant: string,
    department: string,
    dailySalary: real,
    hireDate: string,
    payrollType: string,
    source: string,
    transportRoute: string,
    transportStop: string,
    costCenter: string,
    transportType: string,
    bankAccount: string,
    collarType: string)

  datatype PositionRef = PositionRef(id: int, title: string)

  /** `EmployeeRow`: the raw SELECT row, with the joined position's id and title. */
  datatype EmployeeRow = EmployeeRow(
    id: int,
    payrollNumber: int,
    name: string,
    shift: string,
    nss: string,
    rfc: string,
    curp: string,
    birthDate: string,
    birthPlace: string,
    gender: string,
    bloodType: string,
    plant: string,
    department: string,
    dailySalary: real,
    hireDate: string,
    payrollType: string,
    source: string,
    transportRoute: string,
    transportStop: string,
    costCenter: string,
    transportType: string,
    bankAccount: string,
    collarType: string,
    positionId: int,
    positionTitle: string)

  /** `Employee`: the domain object, with the position nested. */
  datatype Employee = Employee(
    id: int,
    payrollNumber: int,
    name: string,
    shift: string,
    nss: string,
    rfc: string,
    curp: string,
    birthDate: string,
    birthPlace: string,
    gender: string,
    bloodType: string,
    plant: string,
    department: string,
    dailySalary: real,
    hireDate: string,
    payrollType: string,
    source: string,
    transportRoute: string,
    transportStop: string,
    costCenter: string,
    transportType: string,
    bankAccount: string,
    collarType: string,
    position: PositionRef)

  /** Flattens an employee back into the row it came from. */
  function UnmapRow(e: Employee): EmployeeRow {
    EmployeeRow(
      e.id,
      e.payrollNumber,
      e.name,
      e.shift,
      e.nss,
      e.rfc,
      e.curp,
      e.birthDate,
      e.birthPlace,
      e.gender,
      e.bloodType,
      e.plant,
      e.department,
      e.dailySalary,
      e.hireDate,
      e.payrollType,
      e.source,
      e.transportRoute,
      e.transportStop,
      e.costCenter,
      e.transportType,
      e.bankAccount,
      e.collarType,
      e.position.id,
      e.position.title)
  }

  /** `mapRow`: `positionId` and `positionTitle` move into `position`; every other field is copied. */
  function MapRow(row: EmployeeRow): (e: Employee)
    ensures e.position == PositionRef(row.positionId, row.positionTitle)
    ensures UnmapRow(e) == row
  {
    Employee(
      row.id,
      row.payrollNumber,
      row.name,
      row.shift,
      row.nss,
      row.rfc,
      row.curp,
      row.birthDate,
      row.birthPlace,
      row.gender,
      row.bloodType,
      row.plant,
      row.department,
      row.dailySalary,
      row.hireDate,
      row.payrollType,
      row.source,
      row.transportRoute,
      row.transportStop,
      row.costCenter,
      row.transportType,
      row.bankAccount,
      row.collarType,
      PositionRef(row.positionId, row.positionTitle))
  }

  /** `mapRow` loses nothing: it is a bijection with `UnmapRow` as inverse. */
  lemma MapRowBijective(row: EmployeeRow, e: Employee)
    ensures UnmapRow(MapRow(row)) == row
    ensures MapRow(UnmapRow(e)) == e
  {
  }

  /** The row the INSERT stores: each of the 23 values under its column. */
  function ToRecord(data: CreateEmployeeData): (rec: EmployeeRecord)
    ensures WellFormedEmployee(rec)
  {
    ToRecordWellFormed(data);
    RecordOf(data)
  }

  /** The value the INSERT stores in one column. */
  function FieldValue(data: CreateEmployeeData, c: EmployeeColumn): (v: SqlValue)
    ensures HasType(v, EmployeeColumnType(c))
  {
    match c
    case PayrollNumber => Integer(data.payrollNumber)
    case Name => Text(data.name)
    case PositionId => Integer(data.positionId)
    case Shift => Text(data.shift)
    case Nss => Text(data.nss)
    case Rfc => Text(data.rfc)
    case Curp => Text(data.curp)
    case BirthDate => Text(data.birthDate)
    case BirthPlace => Text(data.birthPlace)
    case Gender => Text(data.gender)
    case BloodType => Text(data.bloodType)
    case Plant => Text(data.plant)
    case EmpDepartment => Text(data.department)
    case EmpDailySalary => Real(data.dailySalary)
    case HireDate => Text(data.hireDate)
    case PayrollType => Text(data.payrollType)
    case Source => Text(data.source)
    case TransportRoute => Text(data.transportRoute)
    case TransportStop => Text(data.transportStop)
    case CostCenter => Text(data.costCenter)
    case TransportType => Text(data.transportType)
    case BankAccount => Text(data.bankAccount)
    case CollarType => Text(data.collarType)
  }

  function RecordOf(data: CreateEmployeeData): EmployeeRecord {
    map c | c in AllEmployeeColumns :: FieldValue(data, c)
  }

  lemma ToRecordWellFormed(data: CreateEmployeeData)
    ensures WellFormedEmployee(RecordOf(data))
  {
    forall c: EmployeeColumn ensures c in RecordOf(data) {
      EveryEmployeeColumn(c);
    }
  }

  // Column readers; a well-formed row always takes the first branch.
  function TextAt(rec: EmployeeRecord, c: EmployeeColumn): string {
    if c in rec && rec[c].Text? then rec[c].s else ""
  }

  function IntegerAt(rec: EmployeeRecord, c: EmployeeColumn): int {
    if c in rec && rec[c].Integer? then rec[c].i else 0
  }

  function RealAt(rec: EmployeeRecord, c: EmployeeColumn): real {
    if c in rec && rec[c].Real? then rec[c].r else 0.0
  }

  /** Reads the 23 columns of a stored row back. */
  function DataOfRecord(rec: EmployeeRecord): CreateEmployeeData
  {
    CreateEmployeeData(
      IntegerAt(rec, PayrollNumber),
      TextAt(rec, Name),
      IntegerAt(rec, PositionId),
      TextAt(rec, Shift),
      TextAt(rec, Nss),
      TextAt(rec, Rfc),
      TextAt(rec, Curp),
      TextAt(rec, BirthDate),
      TextAt(rec, BirthPlace),
      TextAt(rec, Gender),
      TextAt(rec, BloodType),
      TextAt(rec, Plant),
      TextAt(rec, EmpDepartment),
      RealAt(rec, EmpDailySalary),
      TextAt(rec, HireDate),
      TextAt(rec, PayrollType),
      TextAt(rec, Source),
      TextAt(rec, TransportRoute),
      TextAt(rec, TransportStop),
      TextAt(rec, CostCenter),
      TextAt(rec, TransportType),
      TextAt(rec, BankAccount),
      TextAt(rec, CollarType))
  }

  /** Storing and reading back the 23 columns is the identity. */
  lemma RecordRoundTrip(data: CreateEmployeeData)
    ensures DataOfRecord(ToRecord(data)) == data
  {
    RoundTripPart1(data);
    RoundTripPart2(data);
    RoundTripPart3(data);
    RoundTripPart4(data);
  }

  // The round trip, a few columns at a time.
  lemma RoundTripPart1(data: CreateEmployeeData)
    ensures var rec := ToRecord(data);
      && IntegerAt(rec, PayrollNumber) == data.payrollNumber
      && TextAt(rec, Name) == data.name
      && IntegerAt(rec, PositionId) == data.positionId
      && TextAt(rec, Shift) == data.shift
      && TextAt(rec, Nss) == data.nss
      && TextAt(rec, Rfc) == data.rfc
  {
    RecordAt(data, PayrollNumber);
    RecordAt(data, Name);
    RecordAt(data, PositionId);
    RecordAt(data, Shift);
    RecordAt(data, Nss);
    RecordAt(data, Rfc);
  }

  lemma RoundTripPart2(data: CreateEmployeeData)
    ensures var rec := ToRecord(data);
      && TextAt(rec, Curp) == data.curp
      && TextAt(rec, BirthDate) == data.birthDate
      && TextAt(rec, BirthPlace) == data.birthPlace
      && TextAt(rec, Gender) == data.gender
      && TextAt(rec, BloodType) == data.bloodType
      && TextAt(rec, Plant) == data.plant
  {
    RecordAt(data, Curp);
    RecordAt(data, BirthDate);
    RecordAt(data, BirthPlace);
    RecordAt(data, Gender);
    RecordAt(data, BloodType);
    RecordAt(data, Plant);
  }

  lemma RoundTripPart3(data: CreateEmployeeData)
    ensures var rec := ToRecord(data);
      && TextAt(rec, EmpDepartment) == data.department
      && RealAt(rec, EmpDailySalary) == data.dailySalary
      && TextAt(rec, HireDate) == data.hireDate
      && TextAt(rec, PayrollType) == data.payrollType
      && TextAt(rec, Source) == data.source
      && TextAt(rec, TransportRoute) == data.transportRoute
  {
    RecordAt(data, EmpDepartment);
    RecordAt(data, EmpDailySalary);
    RecordAt(data, HireDate);
    RecordAt(data, PayrollType);
    RecordAt(data, Source);
    RecordAt(data, TransportRoute);
  }

  lemma RoundTripPart4(data: CreateEmployeeData)
    ensures var rec := ToRecord(data);
      && TextAt(rec, TransportStop) == data.transportStop
      && TextAt(rec, CostCenter) == data.costCenter
      && TextAt(rec, TransportType) == data.transportType
      && TextAt(rec, BankAccount) == data.bankAccount
      && TextAt(rec, CollarType) == data.collarType
  {
    RecordAt(data, TransportStop);
    RecordAt(data, CostCenter);
    RecordAt(data, TransportType);
    RecordAt(data, BankAccount);
    RecordAt(data, CollarType);
  }

  lemma RecordAt(data: CreateEmployeeData, c: EmployeeColumn)
    ensures c in ToRecord(data) && ToRecord(data)[c] == FieldValue(data, c)
  {
    EveryEmployeeColumn(c);
  }

  /** `SELECT e.*, p.id as positionId, p.title as positionTitle ... JOIN positions p ON e.positionId = p.id`, for one stored row. */
  function JoinRow(id: int, rec: EmployeeRecord, positionTitle: string): (row: EmployeeRow)
    requires WellFormedEmployee(rec)
  {
    var d := DataOfRecord(rec);
    EmployeeRow(
      id,
      d.payrollNumber,
      d.name,
      d.shift,
      d.nss,
      d.rfc,
      d.curp,
      d.birthDate,
      d.birthPlace,
      d.gender,
      d.bloodType,
      d.plant,
      d.department,
      d.dailySalary,
      d.hireDate,
      d.payrollType,
      d.source,
      d.transportRoute,
      d.transportStop,
      d.costCenter,
      d.transportType,
      d.bankAccount,
      d.collarType,
      d.positionId,
      positionTitle)
  }

  /** The 23 caller-supplied fields of an employee (`position.id` is `positionId`). */
  function DataOf(e: Employee): CreateEmployeeData {
    CreateEmployeeData(
      e.payrollNumber,
      e.name,
      e.position.id,
      e.shift,
      e.nss,
      e.rfc,
      e.curp,
      e.birthDate,
      e.birthPlace,
      e.gender,
      e.bloodType,
      e.plant,
      e.department,
      e.dailySalary,
      e.hireDate,
      e.payrollType,
      e.source,
      e.transportRoute,
      e.transportStop,
      e.costCenter,
      e.transportType,
      e.bankAccount,
      e.collarType)
  }

  /** `getById`: the joined row mapped to an employee, or null. */
  function GetById(db: Db, id: int): (r: Option<Employee>)
    requires db.Valid()
    reads db
    ensures r.None? <==> id !in db.employees
    ensures r.Some? ==>
              && r.value.id == id
              && DataOf(r.value) == DataOfRecord(db.employees[id])
              && r.value.position.id in db.positions
              && db.positions[r.value.position.id][Title] == Text(r.value.position.title)
  {
    if id in db.employees && db.employees[id][PositionId].i in db.positions then
      var rec := db.employees[id];
      Some(MapRow(JoinRow(id, rec, db.positions[rec[PositionId].i][Title].s)))
    else None
  }

  /**
   * `create`: inserts the 23 values under a fresh id and returns that row
   * read back; a taken payroll number or an unknown position makes the
   * INSERT fail and leaves the table as it was.
   */
  method Create(db: Db, data: CreateEmployeeData) returns (r: Result<Employee, DbError>)
    requires db.Valid()
    modifies db
    ensures db.Valid()
    ensures db.positions == old(db.positions) && db.nextPositionId == old(db.nextPositionId)
    ensures PayrollNumberHeld(old(db.employees), Integer(data.payrollNumber)) ==> r == Failure(UniqueViolation)
    ensures !PayrollNumberHeld(old(db.employees), Integer(data.payrollNumber)) && data.positionId !in old(db.positions) ==>
              r == Failure(ForeignKeyViolation)
    ensures !PayrollNumberHeld(old(db.employees), Integer(data.payrollNumber)) && data.positionId in old(db.positions) ==> r.Success?
    ensures r.Failure? ==> db.employees == old(db.employees) && db.nextEmployeeId == old(db.nextEmployeeId)
    ensures r.Success? ==>
              && old(db.nextEmployeeId) !in old(db.employees)
              && db.employees == old(db.employees)[old(db.nextEmployeeId) := ToRecord(data)]
              && r.value.id == old(db.nextEmployeeId)
              && DataOf(r.value) == data
              && db.positions[data.positionId][Title] == Text(r.value.position.title)
  {
    if PayrollNumberHeld(db.employees, Integer(data.payrollNumber)) {
      return Failure(UniqueViolation);
    }
    if data.positionId !in db.positions {
      return Failure(ForeignKeyViolation);
    }
    var id := db.nextEmployeeId;
    RecordAt(data, PayrollNumber);
    RecordAt(data, PositionId);
    assert db.employees - {id} == db.employees;
    PutEmployeeKeepsConstraints(db.employees, db.positions, id, ToRecord(data));
    db.employees := db.employees[id := ToRecord(data)];
    db.nextEmployeeId := id + 1;
    RecordRoundTrip(data);
    var read := GetById(db, id);
    r := Success(read.value);
  }

  /** One `[key, value]` pair of `Object.entries(data)`; `None` is `undefined`. */
  type PatchEntry = (EmployeeColumn, Option<SqlValue>)

  /** Object keys are unique. */
  predicate DistinctKeys(entries: seq<PatchEntry>) {
    forall k, l :: 0 <= k < l < |entries| ==> entries[k].0 != entries[l].0
  }

  /** `Partial<CreateEmployeeData>`: every defined value has its column's type. */
  predicate WellTypedEntries(entries: seq<PatchEntry>) {
    forall k :: 0 <= k < |entries| && entries[k].1.Some? ==> HasType(entries[k].1.value, EmployeeColumnType(entries[k].0))
  }

  /** The entries whose value is not `undefined`, unwrapped, in their original order. */
  function Defined(entries: seq<PatchEntry>): seq<(EmployeeColumn, SqlValue)>
    decreases |entries|
  {
    if entries == [] then []
    else
      var last := entries[|entries| - 1];
      Defined(entries[..|entries| - 1]) + (if last.1.Some? then [(last.0, last.1.value)] else [])
  }

  /** A defined pair comes from an entry with that key and that value, and every such entry is kept. */
  lemma {:induction false} DefinedMembers(entries: seq<PatchEntry>, c: EmployeeColumn, v: SqlValue)
    ensures (c, v) in Defined(entries) <==> (c, Some(v)) in entries
    decreases |entries|
  {
    if entries != [] {
      var init := entries[..|entries| - 1];
      DefinedMembers(init, c, v);
      assert entries == init + [entries[|entries| - 1]];
    }
  }

  predicate DistinctColumns(d: seq<(EmployeeColumn, SqlValue)>) {
    forall k, l :: 0 <= k < l < |d| ==> d[k].0 != d[l].0
  }

  lemma DefinedTyped(entries: seq<PatchEntry>, k: int)
    requires WellTypedEntries(entries) && 0 <= k < |Defined(entries)|
    ensures HasType(Defined(entries)[k].1, EmployeeColumnType(Defined(entries)[k].0))
  {
    var d := Defined(entries);
    assert d[k] in d;
    DefinedMembers(entries, d[k].0, d[k].1);
  }

  /** Keeping the defined entries keeps the key order, so distinct keys stay distinct. */
  lemma {:induction false} DefinedDistinct(entries: seq<PatchEntry>)
    requires DistinctKeys(entries)
    ensures DistinctColumns(Defined(entries))
    decreases |entries|
  {
    if entries != [] {
      var n := |entries|;
      var init := entries[..n - 1];
      assert DistinctKeys(init);
      DefinedDistinct(init);
      var prev := Defined(init);
      var last := entries[n - 1];
      var d := Defined(entries);
      assert d == prev + (if last.1.Some? then [(last.0, last.1.value)] else []);
      forall k, l | 0 <= k < l < |d| ensures d[k].0 != d[l].0 {
        assert d[k] == prev[k];
        if l >= |prev| {
          assert d[l].0 == last.0;
          assert prev[k] in prev;
          DefinedMembers(init, prev[k].0, prev[k].1);
          var m :| 0 <= m < |init| && init[m] == (prev[k].0, Some(prev[k].1));
          assert entries[m] == init[m] && entries[m].0 != last.0;
        } else {
          assert d[l] == prev[l] && prev[k].0 != prev[l].0;
        }
      }
    }
  }

  /**
   * The `updates` / `values` arrays of `update`, before the id is appended:
   * one clause per entry whose value is defined, in entry order, each value
   * aligned with its clause.
   */
  method BuildSetClauses(entries: seq<PatchEntry>) returns (updates: seq<EmployeeColumn>, values: seq<SqlValue>)
    ensures |updates| == |values| == |Defined(entries)|
    ensures forall k :: 0 <= k < |updates| ==> (updates[k], values[k]) == Defined(entries)[k]
  {
    updates, values := [], [];
    var i := 0;
    while i < |entries|
      invariant 0 <= i <= |entries|
      invariant |updates| == |values| == |Defined(entries[..i])|
      invariant forall k :: 0 <= k < |updates| ==> (updates[k], values[k]) == Defined(entries[..i])[k]
    {
      var (key, value) := entries[i];
      assert entries[..i + 1][..i] == entries[..i];
      if value.Some? {
        updates := updates + [key];
        values := values + [value.value];
      }
      i := i + 1;
    }
    assert entries[..|entries|] == entries;
  }

  /** The value the patch defines for a column, if any. */
  function PatchValue(entries: seq<PatchEntry>, c: EmployeeColumn): (v: Option<SqlValue>)
    ensures WellTypedEntries(entries) && v.Some? ==> HasType(v.value, EmployeeColumnType(c))
    decreases |entries|
  {
    if entries == [] then None
    else if entries[0].0 == c && entries[0].1.Some? then entries[0].1
    else PatchValue(entries[1..], c)
  }

  lemma {:induction false} PatchValueSpec(entries: seq<PatchEntry>, c: EmployeeColumn, v: SqlValue)
    requires DistinctKeys(entries)
    ensures PatchValue(entries, c) == Some(v) <==> (c, Some(v)) in entries
    decreases |entries|
  {
    if entries != [] {
      PatchValueSpec(entries[1..], c, v);
      assert entries == [entries[0]] + entries[1..];
      if entries[0].0 == c {
        assert forall k :: 0 <= k < |entries[1..]| ==> entries[1..][k].0 != c by {
          forall k | 0 <= k < |entries[1..]| ensures entries[1..][k].0 != c {
            assert entries[1..][k] == entries[k + 1];
          }
        }
      }
    }
  }

  /** The stored row after the patch: each defined key replaced, every other column kept. */
  function Patched(rec: EmployeeRecord, entries: seq<PatchEntry>): (r: EmployeeRecord)
    requires WellFormedEmployee(rec) && WellTypedEntries(entries)
    ensures WellFormedEmployee(r)
  {
    map c | c in rec :: if PatchValue(entries, c).Some? then PatchValue(entries, c).value else rec[c]
  }

  /** `update` changes exactly the defined keys: a defined key reads its new value, any other column its old one. */
  lemma PatchedAt(rec: EmployeeRecord, entries: seq<PatchEntry>, c: EmployeeColumn, v: SqlValue)
    requires WellFormedEmployee(rec) && WellTypedEntries(entries) && DistinctKeys(entries)
    ensures (c, Some(v)) in entries ==> Patched(rec, entries)[c] == v
    ensures PatchValue(entries, c).None? ==> Patched(rec, entries)[c] == rec[c]
  {
    PatchValueSpec(entries, c, v);
  }

  /** The clauses `BuildSetClauses` yields, run on a row, give `Patched`. */
  lemma ClausesPatch(rec: EmployeeRecord, entries: seq<PatchEntry>, updates: seq<EmployeeColumn>, values: seq<SqlValue>)
    requires WellFormedEmployee(rec) && WellTypedEntries(entries) && DistinctKeys(entries)
    requires |updates| == |values| == |Defined(entries)|
    requires forall k :: 0 <= k < |updates| ==> (updates[k], values[k]) == Defined(entries)[k]
    ensures Distinct(updates)
    ensures ApplySet(rec, updates, values) == Patched(rec, entries)
  {
    var d := Defined(entries);
    DefinedDistinct(entries);
    forall k, l | 0 <= k < l < |updates| ensures updates[k] != updates[l] {
      assert updates[k] == d[k].0 && updates[l] == d[l].0;
    }
    var a := ApplySet(rec, updates, values);
    var p := Patched(rec, entries);
    forall c: EmployeeColumn ensures c in a && a[c] == p[c] {
      ApplySetAt(rec, updates, values, c);
      if c in updates {
        var k :| 0 <= k < |updates| && updates[k] == c;
        assert d[k] == (c, values[k]) && d[k] in d;
        DefinedMembers(entries, c, values[k]);
        PatchValueSpec(entries, c, values[k]);
      } else if PatchValue(entries, c).Some? {
        var v := PatchValue(entries, c).value;
        PatchValueSpec(entries, c, v);
        DefinedMembers(entries, c, v);
      }
    }
    assert a.Keys == p.Keys;
  }

  /**
   * `update`: null for a missing id; the current row when no key is
   * defined; otherwise the defined keys written and the row read back. The
   * UPDATE fails, changing nothing, when the new payroll number is held by
   * another row or the new position does not exist.
   */
  method Update(db: Db, id: int, entries: seq<PatchEntry>) returns (r: Result<Option<Employee>, DbError>)
    requires db.Valid()
    requires DistinctKeys(entries) && WellTypedEntries(entries)
    modifies db
    ensures db.Valid()
    ensures db.positions == old(db.positions)
    ensures db.nextPositionId == old(db.nextPositionId) && db.nextEmployeeId == old(db.nextEmployeeId)
    ensures id !in old(db.employees) ==> r == Success(None) && db.employees == old(db.employees)
    ensures id in old(db.employees) && Defined(entries) == [] ==>
              r == Success(GetById(db, id)) && db.employees == old(db.employees)
    ensures id in old(db.employees) && Defined(entries) != [] ==>
              var updated := Patched(old(db.employees)[id], entries);
              if PayrollNumberHeld(old(db.employees) - {id}, updated[PayrollNumber]) then
                r == Failure(UniqueViolation) && db.employees == old(db.employees)
              else if updated[PositionId].i !in db.positions then
                r == Failure(ForeignKeyViolation) && db.employees == old(db.employees)
              else
                db.employees == old(db.employees)[id := updated] && r == Success(GetById(db, id))
  {
    var current := GetById(db, id);
    if current.None? {
      return Success(None);
    }
    var updates, values := BuildSetClauses(entries);
    if |updates| == 0 {
      return Success(current);
    }
    ghost var patched := Patched(db.employees[id], entries);
    ClausesPatch(db.employees[id], entries, updates, values);
    var bound := values + [Integer(id)];
    assert bound[..|updates|] == values;
    assert TypedClauses(updates, values) by {
      forall k | 0 <= k < |updates| ensures HasType(values[k], EmployeeColumnType(updates[k])) {
        DefinedTyped(entries, k);
      }
    }
    assert SetRow(db.employees[id], updates, values) == patched;
    var error := RunUpdate(db, updates, bound);
    if error.Some? {
      return Failure(error.value);
    }
    r := Success(GetById(db, id));
  }

  /**
   * `stmt.run(...values)` on the UPDATE: SQLite applies the SET clauses to
   * the row `WHERE id = ?` and refuses the write, leaving the table as it
   * was, when the new row breaks the UNIQUE or the FOREIGN KEY constraint.
   */
  method RunUpdate(db: Db, updates: seq<EmployeeColumn>, values: seq<SqlValue>) returns (error: Option<DbError>)
    requires db.Valid()
    requires |values| == |updates| + 1 && values[|updates|].Integer? && values[|updates|].i in db.employees
    requires Distinct(updates) && TypedClauses(updates, values[..|updates|])
    modifies db
    ensures db.Valid()
    ensures db.positions == old(db.positions)
    ensures db.nextPositionId == old(db.nextPositionId) && db.nextEmployeeId == old(db.nextEmployeeId)
    ensures var id := values[|updates|].i;
            var updated := SetRow(old(db.employees)[id], updates, values[..|updates|]);
            if PayrollNumberHeld(old(db.employees) - {id}, updated[PayrollNumber]) then
              error == Some(UniqueViolation) && db.employees == old(db.employees)
            else if updated[PositionId].i !in db.positions then
              error == Some(ForeignKeyViolation) && db.employees == old(db.employees)
            else
              error == None && db.employees == old(db.employees)[id := updated]
  {
    var id := values[|updates|].i;
    var updated := SetRow(db.employees[id], updates, values[..|updates|]);
    var table := ExecUpdate(db.employees, updates, values);
    assert table == db.employees[id := updated];
    if PayrollNumberHeld(db.employees - {id}, updated[PayrollNumber]) {
      return Some(UniqueViolation);
    }
    if updated[PositionId].i !in db.positions {
      return Some(ForeignKeyViolation);
    }
    PutEmployeeKeepsConstraints(db.employees, db.positions, id, updated);
    db.employees := table;
    error := None;
  }

  /** Every SET value has its column's type. */
  predicate TypedClauses(updates: seq<EmployeeColumn>, values: seq<SqlValue>) {
    |updates| == |values| && forall k :: 0 <= k < |updates| ==> HasType(values[k], EmployeeColumnType(updates[k]))
  }

  /** One row after the SET clauses: still a well-formed row. */
  function SetRow(rec: EmployeeRecord, updates: seq<EmployeeColumn>, values: seq<SqlValue>): (r: EmployeeRecord)
    requires WellFormedEmployee(rec) && Distinct(updates) && TypedClauses(updates, values)
    ensures WellFormedEmployee(r)
  {
    ApplySetTyped(rec, updates, values);
    ApplySet(rec, updates, values)
  }

  /** SET clauses whose values have their columns' types keep a row well-formed. */
  lemma ApplySetTyped(rec: EmployeeRecord, updates: seq<EmployeeColumn>, values: seq<SqlValue>)
    requires WellFormedEmployee(rec) && Distinct(updates) && TypedClauses(updates, values)
    ensures WellFormedEmployee(ApplySet(rec, updates, values))
  {
    forall c: EmployeeColumn ensures c in ApplySet(rec, updates, values) && HasType(ApplySet(rec, updates, values)[c], EmployeeColumnType(c)) {
      ApplySetAt(rec, updates, values, c);
    }
  }

  /** `delete`: whether a row was removed. */
  method Delete(db: Db, id: int) returns (deleted: bool)
    requires db.Valid()
    modifies db
    ensures db.Valid()
    ensures db.positions == old(db.positions)
    ensures db.nextPositionId == old(db.nextPositionId) && db.nextEmployeeId == old(db.nextEmployeeId)
    ensures deleted == (id in old(db.employees))
    ensures db.employees == old(db.employees) - {id}
    ensures GetById(db, id).None?
  {
    deleted := id in db.employees;
    db.employees := db.employees - {id};
  }
}
