/** `positionSchema` of src/schemas/position.ts, as an acceptance predicate over a request body. */
module PositionSchema {
  import opened Wrappers
  import opened Json
  import opened Database
  import EmployeeSchema

  const Departments: seq<string> := ["QCD", "SCD", "RDD", "MMD", "ADD", "ADDIT", "EQD", "CSD", "ADEHS", "AD", "HRD", "FD"]

  function Key(c: PositionColumn): string {
    match c
    case Title => "title"
    case Department => "department"
    case DailySalary => "dailySalary"
    case IsFilled => "isFilled"
  }

  /** The rule of one field; `isFilled` is `z.boolean().optional()`. */
  predicate FieldAccepts(c: PositionColumn, v: Option<JsValue>) {
    match c
    case Title => v.Some? && v.value.JsString? && |v.value.s| >= 2
    case Department => v.Some? && v.value.JsString? && v.value.s in Departments
    case DailySalary => v.Some? && v.value.JsNumber? && v.value.n > 0.0
    case IsFilled => v.None? || v.value.JsBool?
  }

  predicate Accepts(body: JsRecord) {
    forall c: PositionColumn :: FieldAccepts(c, Get(body, Key(c)))
  }

  const SchemaOrder: seq<PositionColumn> := [Title, Department, DailySalary, IsFilled]

  lemma SchemaOrderComplete(c: PositionColumn)
    ensures c in SchemaOrder
  {
    match c
    case Title => assert SchemaOrder[0] == c;
    case Department => assert SchemaOrder[1] == c;
    case DailySalary => assert SchemaOrder[2] == c;
    case IsFilled => assert SchemaOrder[3] == c;
  }

  /** The fields among `fields` whose rule fails, in order: the issues of `result.error`. */
  function IssuesAmong(fields: seq<PositionColumn>, body: JsRecord): (issues: seq<PositionColumn>)
    ensures forall c :: c in issues <==> c in fields && !FieldAccepts(c, Get(body, Key(c)))
    decreases |fields|
  {
    if fields == [] then []
    else
      var rest := IssuesAmong(fields[1..], body);
      if FieldAccepts(fields[0], Get(body, Key(fields[0]))) then rest else [fields[0]] + rest
  }

  function Issues(body: JsRecord): seq<PositionColumn> {
    IssuesAmong(SchemaOrder, body)
  }

  /** Every field of the schema is checked: the issues are exactly the fields whose rule fails. */
  lemma IssuesExactly(body: JsRecord)
    ensures forall c :: c in Issues(body) <==> !FieldAccepts(c, Get(body, Key(c)))
  {
    forall c: PositionColumn ensures c in Issues(body) <==> !FieldAccepts(c, Get(body, Key(c))) {
      SchemaOrderComplete(c);
    }
  }

  /** A body is accepted iff it raises no issue. */
  lemma AcceptsIffNoIssues(body: JsRecord)
    ensures Accepts(body) <==> Issues(body) == []
  {
    IssuesExactly(body);
    var issues := Issues(body);
    if issues != [] {
      assert issues[0] in issues;
    }
  }

  /** `isFilled` may be left out; when present it must be a boolean, so `null` is refused. */
  lemma IsFilledOptional(body: JsRecord)
    ensures FieldAccepts(IsFilled, Get(body, "isFilled")) <==> "isFilled" !in body || body["isFilled"].JsBool?
    ensures "isFilled" in body && body["isFilled"] == JsNull ==> !Accepts(body)
  {
    if "isFilled" in body && body["isFilled"] == JsNull {
      assert !FieldAccepts(IsFilled, Get(body, Key(IsFilled)));
    }
  }

  /** What an accepted body holds. */
  lemma AcceptedBody(body: JsRecord)
    requires Accepts(body)
    ensures "title" in body && body["title"].JsString? && |body["title"].s| >= 2
    ensures "department" in body && body["department"].JsString? && body["department"].s in Departments
    ensures "dailySalary" in body && body["dailySalary"].JsNumber? && body["dailySalary"].n > 0.0
  {
    assert FieldAccepts(Title, Get(body, Key(Title)));
    assert FieldAccepts(Department, Get(body, Key(Department)));
    assert FieldAccepts(DailySalary, Get(body, Key(DailySalary)));
  }

  /** Both schemas accept exactly the same 12 department codes. */
  lemma DepartmentListsAgree()
    ensures Departments == EmployeeSchema.Departments
    ensures |Departments| == 12
  {
  }
}
