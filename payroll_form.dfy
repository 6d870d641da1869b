/** The state of the payroll entry form in src/components/payroll/PayrollForm.tsx. */
module PayrollFormState {
  import opened Wrappers
  import opened PayrollData

  /** `PayrollFormData`. */
  datatype PayrollFormData = PayrollFormData(
    employeeId: int,
    baseSalary: real,
    deductions: real,
    taxes: real,
    bonuses: real,
    date: string,
    status: Status)

  /** The part of `Partial<PayrollEntry>` the form reads; `None` is a missing property. */
  datatype InitialData = InitialData(
    employeeId: Option<int>,
    employee: Option<MockEmployee>,
    baseSalary: Option<real>,
    deductions: Option<real>,
    taxes: Option<real>,
    bonuses: Option<real>,
    date: Option<string>,
    status: Option<Status>)

  /** No `initialData` at all: every property is missing. */
  const NoInitialData := InitialData(None, None, None, None, None, None, None, None)

  /**
   * The first `useState`: `x || 0` keeps a present number (a present 0 gives
   * 0 either way), an absent or empty date falls back to `today`, and the
   * status to `'pending'`.
   */
  function InitialFormData(initial: InitialData, today: string): (d: PayrollFormData)
    ensures d.employeeId == initial.employeeId.GetOr(0)
    ensures d.baseSalary == initial.baseSalary.GetOr(0.0) && d.deductions == initial.deductions.GetOr(0.0)
    ensures d.taxes == initial.taxes.GetOr(0.0) && d.bonuses == initial.bonuses.GetOr(0.0)
    ensures initial.date.Some? && initial.date.value != "" ==> d.date == initial.date.value
    ensures initial.date.None? || initial.date.value == "" ==> d.date == today
    ensures d.status == initial.status.GetOr(Pending)
  {
    PayrollFormData(
      initial.employeeId.GetOr(0),
      initial.baseSalary.GetOr(0.0),
      initial.deductions.GetOr(0.0),
      initial.taxes.GetOr(0.0),
      initial.bonuses.GetOr(0.0),
      if initial.date.Some? && initial.date.value != "" then initial.date.value else today,
      initial.status.GetOr(Pending))
  }

  /** The form over no initial data: every number 0, no employee, today's date, pending. */
  lemma EmptyInitialForm(today: string)
    ensures InitialFormData(NoInitialData, today) == PayrollFormData(0, 0.0, 0.0, 0.0, 0.0, today, Pending)
  {
  }

  /** The second `useState`: the given employee, else the mock employee with the given id, else null. */
  function InitialSelection(initial: InitialData): (e: Option<MockEmployee>)
    ensures initial.employee.Some? ==> e == initial.employee
    ensures initial.employee.None? && e.Some? ==> e.value in MockEmployees && initial.employeeId == Some(e.value.id)
    ensures initial.employee.None? && initial.employeeId.Some? ==>
              (e.Some? <==> exists k :: 0 <= k < |MockEmployees| && MockEmployees[k].id == initial.employeeId.value)
    ensures initial.employee.None? && initial.employeeId.None? ==> e.None?
  {
    if initial.employee.Some? then initial.employee
    else if initial.employeeId.Some? then GetEmployeeById(initial.employeeId.value)
    else None
  }

  /** `keyof PayrollFormData`. */
  datatype FormField = EmployeeIdField | BaseSalaryField | DeductionsField | TaxesField | BonusesField | DateField | StatusField

  /** A value `handleInputChange` stores. */
  datatype FieldValue = IdValue(id: int) | Amount(amount: real) | DateValue(date: string) | StatusValue(status: Status)

  /** The value a field holds, and which kind of value `handleInputChange` may store in it. */
  function Read(d: PayrollFormData, f: FormField): FieldValue {
    match f
    case EmployeeIdField => IdValue(d.employeeId)
    case BaseSalaryField => Amount(d.baseSalary)
    case DeductionsField => Amount(d.deductions)
    case TaxesField => Amount(d.taxes)
    case BonusesField => Amount(d.bonuses)
    case DateField => DateValue(d.date)
    case StatusField => StatusValue(d.status)
  }

  predicate Fits(f: FormField, v: FieldValue) {
    match f
    case EmployeeIdField => v.IdValue?
    case DateField => v.DateValue?
    case StatusField => v.StatusValue?
    case _ => v.Amount?
  }

  /** `{...prev, [field]: value}`: that field now reads `value`, every other field as before. */
  function SetField(d: PayrollFormData, f: FormField, v: FieldValue): (r: PayrollFormData)
    requires Fits(f, v)
    ensures forall g :: Read(r, g) == if g == f then v else Read(d, g)
  {
    match f
    case EmployeeIdField => d.(employeeId := v.id)
    case BaseSalaryField => d.(baseSalary := v.amount)
    case DeductionsField => d.(deductions := v.amount)
    case TaxesField => d.(taxes := v.amount)
    case BonusesField => d.(bonuses := v.amount)
    case DateField => d.(date := v.date)
    case StatusField => d.(status := v.status)
  }

  /** The net pay the effect of lines 40-43 computes from the form. */
  function NetPayOf(d: PayrollFormData): real {
    CalculateNetPay(d.baseSalary, d.deductions, d.taxes, d.bonuses)
  }

  class PayrollForm {
    var formData: PayrollFormData
    var netPay: real
    var selectedEmployee: Option<MockEmployee>

    /** Once the effect has run, `netPay` is `calculateNetPay` of the current form. */
    ghost predicate Valid()
      reads this
    {
      netPay == NetPayOf(formData)
    }

    constructor(initial: InitialData, today: string)
      ensures formData == InitialFormData(initial, today)
      ensures selectedEmployee == InitialSelection(initial)
      ensures Valid()
    {
      formData := InitialFormData(initial, today);
      selectedEmployee := InitialSelection(initial);
      netPay := NetPayOf(InitialFormData(initial, today));
    }

    /** The effect: recomputes `netPay` from the four amounts. */
    method RecalculateNetPay()
      modifies this
      ensures formData == old(formData) && selectedEmployee == old(selectedEmployee)
      ensures Valid()
    {
      netPay := CalculateNetPay(formData.baseSalary, formData.deductions, formData.taxes, formData.bonuses);
    }

    /**
     * `handleEmployeeChange`: a known employee is selected and the form
     * takes its id and a 30-day base salary; an unknown id changes nothing.
     */
    method HandleEmployeeChange(employeeId: int)
      requires Valid()
      modifies this
      ensures Valid()
      ensures GetEmployeeById(employeeId).None? ==>
                formData == old(formData) && selectedEmployee == old(selectedEmployee) && netPay == old(netPay)
      ensures GetEmployeeById(employeeId).Some? ==>
                && selectedEmployee == GetEmployeeById(employeeId)
                && formData == old(formData).(employeeId := employeeId,
                                              baseSalary := CalculateBaseSalary(GetEmployeeById(employeeId).value.dailySalary))
    {
      var employee := GetEmployeeById(employeeId);
      if employee.Some? {
        selectedEmployee := employee;
        var autoBaseSalary := CalculateBaseSalary(employee.value.dailySalary);
        formData := formData.(employeeId := employeeId, baseSalary := autoBaseSalary);
        RecalculateNetPay();
      }
    }

    /** `handleInputChange`: exactly the named field takes the new value. */
    method HandleInputChange(field: FormField, value: FieldValue)
      requires Valid() && Fits(field, value)
      modifies this
      ensures Valid()
      ensures formData == SetField(old(formData), field, value)
      ensures selectedEmployee == old(selectedEmployee)
    {
      formData := SetField(formData, field, value);
      RecalculateNetPay();
    }

    /** `handleSubmit`: without a chosen employee nothing is submitted; otherwise the current form is. */
    method HandleSubmit() returns (submitted: Option<PayrollFormData>)
      ensures submitted.None? <==> formData.employeeId == 0
      ensures submitted.Some? ==> submitted.value == formData
    {
      if formData.employeeId == 0 {
        return None;
      }
      submitted := Some(formData);
    }

    /** The "Deductions" figure of the summary: with it, the summary adds up to the net pay shown. */
    function DisplayedDeductions(): (total: real)
      reads this
      ensures Valid() ==> netPay == formData.baseSalary + formData.bonuses - total
    {
      formData.deductions + formData.taxes
    }
  }

  /** Choosing an unknown id, 0 among them, leaves the form as it is. */
  lemma UnknownEmployeeIds()
    ensures GetEmployeeById(0).None?
    ensures forall id :: (id < 1 || id > 5) ==> GetEmployeeById(id).None?
  {
  }
}
