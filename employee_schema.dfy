/** `employeeSchema` of src/schemas/employee.ts, as an acceptance predicate over a request body. */
module EmployeeSchema {
  import opened Wrappers
  import opened Json
  import opened Database

  const TransportRoutes: seq<string> := ["RUTA_1", "RUTA_2", "RUTA_3"]
  const TransportStops: seq<string> := ["PARADA_1", "PARADA_2", "PARADA_3"]
  const Plants: seq<string> := ["PM", "SSD", "CHU"]
  const Departments: seq<string> := ["QCD", "SCD", "RDD", "MMD", "ADD", "ADDIT", "EQD", "CSD", "ADEHS", "AD", "HRD", "FD"]
  const PayrollTypes: seq<string> := ["CATORCENAL", "SEMANAL"]
  const Sources: seq<string> := ["BESTJOBS", "IMPRO"]
  const TransportTypes: seq<string> := ["PROPIO", "RUTA"]
  const CollarTypes: seq<string> := ["BLUECOLLAR", "WHITECOLLAR", "GREYCOLLAR"]
  const Genders: seq<string> := ["M", "F", "Otro"]

  /** The property of the body each column is read from. */
  function Key(c: EmployeeColumn): string {
    match c
    case PayrollNumber => "payrollNumber"
    case Name => "name"
    case PositionId => "positionId"
    case Shift => "shift"
    case Nss => "nss"
    case Rfc => "rfc"
    case Curp => "curp"
    case BirthDate => "birthDate"
    case BirthPlace => "birthPlace"
    case Gender => "gender"
    case BloodType => "bloodType"
    case Plant => "plant"
    case EmpDepartment => "department"
    case EmpDailySalary => "dailySalary"
    case HireDate => "hireDate"
    case PayrollType => "payrollType"
    case Source => "source"
    case TransportRoute => "transportRoute"
    case TransportStop => "transportStop"
    case CostCenter => "costCenter"
    case TransportType => "transportType"
    case BankAccount => "bankAccount"
    case CollarType => "collarType"
  }

  /** `z.number().int().positive()`. */
  predicate PositiveInteger(v: Option<JsValue>) {
    v.Some? && v.value.JsNumber? && IsInteger(v.value.n) && v.value.n > 0.0
  }

  /** `z.number().positive()`. */
  predicate PositiveNumber(v: Option<JsValue>) {
    v.Some? && v.value.JsNumber? && v.value.n > 0.0
  }

  /** `z.string().min(n)`. */
  predicate MinLength(v: Option<JsValue>, n: nat) {
    v.Some? && v.value.JsString? && |v.value.s| >= n
  }

  /** `z.string().length(n)`. */
  predicate ExactLength(v: Option<JsValue>, n: nat) {
    v.Some? && v.value.JsString? && |v.value.s| == n
  }

  /** `z.enum(options)`. */
  predicate OneOf(v: Option<JsValue>, options: seq<string>) {
    v.Some? && v.value.JsString? && v.value.s in options
  }

  /**
   * The rule of one field. `validDate` says whether `new Date(value)` is a
   * valid date, which is what `z.coerce.date()` demands; an absent value
   * never is.
   */
  predicate FieldAccepts(c: EmployeeColumn, v: Option<JsValue>, validDate: JsValue -> bool) {
    match c
    case PayrollNumber => PositiveInteger(v)
    case Name => MinLength(v, 2)
    case PositionId => PositiveInteger(v)
    case Shift => MinLength(v, 2)
    case Nss => ExactLength(v, 11)
    case Rfc => ExactLength(v, 13)
    case Curp => ExactLength(v, 18)
    case BirthDate => v.Some? && validDate(v.value)
    case BirthPlace => MinLength(v, 2)
    case Gender => OneOf(v, Genders)
    case BloodType => MinLength(v, 2)
    case Plant => OneOf(v, Plants)
    case EmpDepartment => OneOf(v, Departments)
    case EmpDailySalary => PositiveNumber(v)
    case HireDate => v.Some? && validDate(v.value)
    case PayrollType => OneOf(v, PayrollTypes)
    case Source => OneOf(v, Sources)
    case TransportRoute => OneOf(v, TransportRoutes)
    case TransportStop => OneOf(v, TransportStops)
    case CostCenter => MinLength(v, 1)
    case TransportType => OneOf(v, TransportTypes)
    case BankAccount => MinLength(v, 10)
    case CollarType => OneOf(v, CollarTypes)
  }

  /** `employeeSchema.safeParse(body).success`: every field passes its rule. */
  predicate Accepts(body: JsRecord, validDate: JsValue -> bool) {
    forall c: EmployeeColumn :: FieldAccepts(c, Get(body, Key(c)), validDate)
  }

  /** The fields in the order the schema declares them. */
  const SchemaOrder: seq<EmployeeColumn> := [
    PayrollNumber, Name, PositionId, Shift, Nss, Rfc, Curp, BirthDate,
    BirthPlace, Gender, BloodType, Plant, EmpDepartment, EmpDailySalary,
    HireDate, PayrollType, Source, TransportRoute, TransportStop,
    CostCenter, TransportType, BankAccount, CollarType]

  lemma SchemaOrderComplete(c: EmployeeColumn)
    ensures c in SchemaOrder
  {
  }

  /** The fields among `fields` whose rule fails, in order: the issues of `result.error`. */
  function IssuesAmong(fields: seq<EmployeeColumn>, body: JsRecord, validDate: JsValue -> bool): (issues: seq<EmployeeColumn>)
    ensures forall c :: c in issues <==> c in fields && !FieldAccepts(c, Get(body, Key(c)), validDate)
    decreases |fields|
  {
    if fields == [] then []
    else
      var rest := IssuesAmong(fields[1..], body, validDate);
      if FieldAccepts(fields[0], Get(body, Key(fields[0])), validDate) then rest else [fields[0]] + rest
  }

  function Issues(body: JsRecord, validDate: JsValue -> bool): seq<EmployeeColumn> {
    IssuesAmong(SchemaOrder, body, validDate)
  }

  /** Every field of the schema is checked: the issues are exactly the fields whose rule fails. */
  lemma IssuesExactly(body: JsRecord, validDate: JsValue -> bool)
    ensures forall c :: c in Issues(body, validDate) <==> !FieldAccepts(c, Get(body, Key(c)), validDate)
  {
    forall c: EmployeeColumn ensures c in Issues(body, validDate) <==> !FieldAccepts(c, Get(body, Key(c)), validDate) {
      SchemaOrderComplete(c);
    }
  }

  /** A body is accepted iff it raises no issue. */
  lemma AcceptsIffNoIssues(body: JsRecord, validDate: JsValue -> bool)
    ensures Accepts(body, validDate) <==> Issues(body, validDate) == []
  {
    IssuesExactly(body, validDate);
    var issues := Issues(body, validDate);
    if issues != [] {
      assert issues[0] in issues;
    }
  }

  /** The numbers of an accepted body: positive integer ids and a positive salary. */
  lemma AcceptedNumbers(body: JsRecord, validDate: JsValue -> bool)
    requires Accepts(body, validDate)
    ensures "payrollNumber" in body && body["payrollNumber"].JsNumber? && IsInteger(body["payrollNumber"].n) && body["payrollNumber"].n > 0.0
    ensures "positionId" in body && body["positionId"].JsNumber? && IsInteger(body["positionId"].n) && body["positionId"].n > 0.0
    ensures "dailySalary" in body && body["dailySalary"].JsNumber? && body["dailySalary"].n > 0.0
  {
    assert FieldAccepts(PayrollNumber, Get(body, Key(PayrollNumber)), validDate);
    assert FieldAccepts(PositionId, Get(body, Key(PositionId)), validDate);
    assert FieldAccepts(EmpDailySalary, Get(body, Key(EmpDailySalary)), validDate);
  }

  /** The identity codes of an accepted body have their exact lengths: NSS 11, RFC 13, CURP 18. */
  lemma AcceptedCodes(body: JsRecord, validDate: JsValue -> bool)
    requires Accepts(body, validDate)
    ensures "nss" in body && body["nss"].JsString? && |body["nss"].s| == 11
    ensures "rfc" in body && body["rfc"].JsString? && |body["rfc"].s| == 13
    ensures "curp" in body && body["curp"].JsString? && |body["curp"].s| == 18
  {
    assert FieldAccepts(Nss, Get(body, Key(Nss)), validDate);
    assert FieldAccepts(Rfc, Get(body, Key(Rfc)), validDate);
    assert FieldAccepts(Curp, Get(body, Key(Curp)), validDate);
  }

  /** Minimum lengths, the payroll type and the two dates of an accepted body. */
  lemma AcceptedText(body: JsRecord, validDate: JsValue -> bool)
    requires Accepts(body, validDate)
    ensures "name" in body && body["name"].JsString? && |body["name"].s| >= 2
    ensures "bankAccount" in body && body["bankAccount"].JsString? && |body["bankAccount"].s| >= 10
    ensures "costCenter" in body && body["costCenter"].JsString? && |body["costCenter"].s| >= 1
    ensures "payrollType" in body && body["payrollType"] in {JsString("CATORCENAL"), JsString("SEMANAL")}
    ensures "birthDate" in body && validDate(body["birthDate"]) && "hireDate" in body && validDate(body["hireDate"])
  {
    assert FieldAccepts(Name, Get(body, Key(Name)), validDate);
    assert FieldAccepts(BankAccount, Get(body, Key(BankAccount)), validDate);
    assert FieldAccepts(CostCenter, Get(body, Key(CostCenter)), validDate);
    assert FieldAccepts(PayrollType, Get(body, Key(PayrollType)), validDate);
    assert FieldAccepts(BirthDate, Get(body, Key(BirthDate)), validDate);
    assert FieldAccepts(HireDate, Get(body, Key(HireDate)), validDate);
  }
}
