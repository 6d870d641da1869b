/** `PositionService` of src/modules/position.ts over the `positions` table. */
module PositionService {
  import opened Wrappers
  import opened Database

  /** The domain type: the stored row with `isFilled` read as a boolean. */
  datatype Position = Position(id: int, title: string, department: string, dailySalary: real, isFilled: bool)

  datatype CreatePositionData = CreatePositionData(title: string, department: string, dailySalary: real)

  /** `Partial<CreatePositionData & { isFilled: boolean }>`: `None` is `undefined`. */
  datatype PositionPatch = PositionPatch(title: Option<string>, department: Option<string>, dailySalary: Option<real>, isFilled: Option<bool>)

  /** `Boolean(row.isFilled)`: any nonzero integer is true. */
  function ToPosition(id: int, rec: PositionRecord): (p: Position)
    requires WellFormedPosition(rec)
    ensures p.id == id && p.isFilled == (rec[IsFilled].i != 0)
    ensures rec[Title] == Text(p.title) && rec[Department] == Text(p.department) && rec[DailySalary] == Real(p.dailySalary)
  {
    Position(id, rec[Title].s, rec[Department].s, rec[DailySalary].r, rec[IsFilled].i != 0)
  }

  /** `data.isFilled ? 1 : 0`. */
  function BoolToInteger(b: bool): int {
    if b then 1 else 0
  }

  /** `getById`: the row with that id read back, or null. */
  function GetById(db: Db, id: int): (r: Option<Position>)
    requires db.Valid()
    reads db
    ensures r.None? <==> id !in db.positions
    ensures r.Some? ==> r.value == ToPosition(id, db.positions[id])
  {
    if id in db.positions then Some(ToPosition(id, db.positions[id])) else None
  }

  /** The rows with ids in [1, n) read back, in ascending id order: what `SELECT *` yields over a table whose ids are all below n. */
  function RowsBelow(table: map<int, PositionRecord>, n: int): seq<Position>
    requires forall id :: id in table ==> WellFormedPosition(table[id])
    decreases n
  {
    if n <= 1 then []
    else RowsBelow(table, n - 1) + (if n - 1 in table then [ToPosition(n - 1, table[n - 1])] else [])
  }

  /** `ps` holds each row of `table` with an id in [1, n) exactly once, read back, in ascending id order. */
  ghost predicate ListsRows(table: map<int, PositionRecord>, ps: seq<Position>, n: int)
    requires forall id :: id in table ==> WellFormedPosition(table[id])
  {
    && (forall k :: 0 <= k < |ps| ==> 1 <= ps[k].id < n && ps[k].id in table && ps[k] == ToPosition(ps[k].id, table[ps[k].id]))
    && (forall id :: id in table && 1 <= id < n ==> exists k :: 0 <= k < |ps| && ps[k].id == id)
    && (forall k, l :: 0 <= k < l < |ps| ==> ps[k].id < ps[l].id)
  }

  /** `RowsBelow` lists each row with an id in [1, n) once, read back, in ascending id order. */
  lemma {:induction false} RowsBelowContents(table: map<int, PositionRecord>, n: int)
    requires forall id :: id in table ==> WellFormedPosition(table[id])
    ensures ListsRows(table, RowsBelow(table, n), n)
    decreases n
  {
    if n > 1 {
      RowsBelowContents(table, n - 1);
      var prev := RowsBelow(table, n - 1);
      var tail := if n - 1 in table then [ToPosition(n - 1, table[n - 1])] else [];
      var ps := RowsBelow(table, n);
      assert ps == prev + tail;
      forall k | 0 <= k < |ps|
        ensures 1 <= ps[k].id < n && ps[k].id in table && ps[k] == ToPosition(ps[k].id, table[ps[k].id])
      {
        if k < |prev| {
          assert ps[k] == prev[k];
        } else {
          assert ps[k] == tail[0];
        }
      }
      forall id | id in table && 1 <= id < n
        ensures exists k :: 0 <= k < |ps| && ps[k].id == id
      {
        if id == n - 1 {
          assert ps[|prev|] == tail[0];
        } else {
          var k :| 0 <= k < |prev| && prev[k].id == id;
          assert ps[k] == prev[k];
        }
      }
      forall k, l | 0 <= k < l < |ps|
        ensures ps[k].id < ps[l].id
      {
        assert ps[k] == prev[k];
        if l < |prev| {
          assert ps[l] == prev[l];
        } else {
          assert ps[l] == tail[0];
        }
      }
    }
  }

  /** `getAll`: every row read back, in ascending id (rowid) order. */
  method GetAll(db: Db) returns (ps: seq<Position>)
    requires db.Valid()
    ensures ps == RowsBelow(db.positions, db.nextPositionId)
    ensures forall k :: 0 <= k < |ps| ==> ps[k].id in db.positions && ps[k] == ToPosition(ps[k].id, db.positions[ps[k].id])
    ensures forall id :: id in db.positions ==> exists k :: 0 <= k < |ps| && ps[k].id == id
    ensures forall k, l :: 0 <= k < l < |ps| ==> ps[k].id < ps[l].id
  {
    ps := [];
    var id := 1;
    while id < db.nextPositionId
      invariant 1 <= id <= db.nextPositionId
      invariant ps == RowsBelow(db.positions, id)
    {
      if id in db.positions {
        ps := ps + [ToPosition(id, db.positions[id])];
      }
      id := id + 1;
    }
    RowsBelowContents(db.positions, db.nextPositionId);
  }

  lemma NewRecordWellFormed(data: CreatePositionData)
    ensures WellFormedPosition(map[Title := Text(data.title), Department := Text(data.department), DailySalary := Real(data.dailySalary), IsFilled := Integer(0)])
  {
    var rec := map[Title := Text(data.title), Department := Text(data.department), DailySalary := Real(data.dailySalary), IsFilled := Integer(0)];
    forall c: PositionColumn ensures c in rec && HasType(rec[c], PositionColumnType(c)) {
      match c
      case Title =>
      case Department =>
      case DailySalary =>
      case IsFilled =>
    }
  }

  /** The row `INSERT INTO positions (title, department, dailySalary)` stores: `isFilled` takes its DEFAULT 0. */
  function NewPositionRecord(data: CreatePositionData): (rec: PositionRecord)
    ensures WellFormedPosition(rec)
    ensures ToPosition(0, rec).isFilled == false
  {
    NewRecordWellFormed(data);
    map[Title := Text(data.title), Department := Text(data.department), DailySalary := Real(data.dailySalary), IsFilled := Integer(0)]
  }

  /** `create`: inserts under a fresh id and returns that row read back. */
  method Create(db: Db, data: CreatePositionData) returns (p: Position)
    requires db.Valid()
    modifies db
    ensures db.Valid()
    ensures old(db.nextPositionId) !in old(db.positions)
    ensures db.positions == old(db.positions)[old(db.nextPositionId) := NewPositionRecord(data)]
    ensures p == Position(old(db.nextPositionId), data.title, data.department, data.dailySalary, false)
    ensures db.employees == old(db.employees) && db.nextEmployeeId == old(db.nextEmployeeId)
  {
    var id := db.nextPositionId;
    db.positions := db.positions[id := NewPositionRecord(data)];
    db.nextPositionId := id + 1;
    var read := GetById(db, id);
    p := read.value;
  }

  /** The order the SET clauses are built in. */
  function Rank(c: PositionColumn): nat {
    match c
    case Title => 0
    case Department => 1
    case DailySalary => 2
    case IsFilled => 3
  }

  /** The value a patch binds for a column, if the patch defines that field. */
  function PatchValue(patch: PositionPatch, c: PositionColumn): (v: Option<SqlValue>)
    ensures v.Some? ==> HasType(v.value, PositionColumnType(c))
  {
    match c
    case Title => if patch.title.Some? then Some(Text(patch.title.value)) else None
    case Department => if patch.department.Some? then Some(Text(patch.department.value)) else None
    case DailySalary => if patch.dailySalary.Some? then Some(Real(patch.dailySalary.value)) else None
    case IsFilled => if patch.isFilled.Some? then Some(Integer(BoolToInteger(patch.isFilled.value))) else None
  }

  /** The `updates` / `values` arrays of `update`, before the id is appended. */
  method BuildSetClauses(patch: PositionPatch) returns (updates: seq<PositionColumn>, values: seq<SqlValue>)
    ensures |updates| == |values|
    ensures forall c :: c in updates <==> PatchValue(patch, c).Some?
    ensures forall k :: 0 <= k < |updates| ==> Some(values[k]) == PatchValue(patch, updates[k])
    ensures forall k, l :: 0 <= k < l < |updates| ==> Rank(updates[k]) < Rank(updates[l])
  {
    updates, values := [], [];
    if patch.title.Some? {
      updates, values := updates + [Title], values + [Text(patch.title.value)];
    }
    if patch.department.Some? {
      updates, values := updates + [Department], values + [Text(patch.department.value)];
    }
    if patch.dailySalary.Some? {
      updates, values := updates + [DailySalary], values + [Real(patch.dailySalary.value)];
    }
    if patch.isFilled.Some? {
      updates, values := updates + [IsFilled], values + [Integer(BoolToInteger(patch.isFilled.value))];
    }
  }

  /** The row a patch leads to: the defined fields replaced, every other column kept. */
  function Patched(rec: PositionRecord, patch: PositionPatch): (r: PositionRecord)
    requires WellFormedPosition(rec)
    ensures WellFormedPosition(r)
  {
    map c | c in rec :: if PatchValue(patch, c).Some? then PatchValue(patch, c).value else rec[c]
  }

  predicate NoFields(patch: PositionPatch) {
    patch.title.None? && patch.department.None? && patch.dailySalary.None? && patch.isFilled.None?
  }

  /** The clauses `BuildSetClauses` yields, run on a row, give `Patched`. */
  lemma ClausesPatch(rec: PositionRecord, patch: PositionPatch, updates: seq<PositionColumn>, values: seq<SqlValue>)
    requires WellFormedPosition(rec)
    requires |updates| == |values|
    requires forall c :: c in updates <==> PatchValue(patch, c).Some?
    requires forall k :: 0 <= k < |updates| ==> Some(values[k]) == PatchValue(patch, updates[k])
    requires forall k, l :: 0 <= k < l < |updates| ==> Rank(updates[k]) < Rank(updates[l])
    ensures ApplySet(rec, updates, values) == Patched(rec, patch)
  {
    var a := ApplySet(rec, updates, values);
    var p := Patched(rec, patch);
    forall c: PositionColumn ensures c in a && a[c] == p[c] {
      ApplySetAt(rec, updates, values, c);
      if c in updates {
        var k :| 0 <= k < |updates| && updates[k] == c;
      }
    }
    assert a.Keys == p.Keys;
  }

  /** Read back, the patched row shows exactly the defined fields changed. */
  lemma PatchedReadsBack(id: int, rec: PositionRecord, patch: PositionPatch)
    requires WellFormedPosition(rec)
    ensures var before, after := ToPosition(id, rec), ToPosition(id, Patched(rec, patch));
      && after.id == before.id
      && after.title == patch.title.GetOr(before.title)
      && after.department == patch.department.GetOr(before.department)
      && after.dailySalary == patch.dailySalary.GetOr(before.dailySalary)
      && after.isFilled == patch.isFilled.GetOr(before.isFilled)
  {
  }

  /** A patch with no defined field leaves the row as it is. */
  lemma NoFieldsNoChange(rec: PositionRecord, patch: PositionPatch)
    requires WellFormedPosition(rec) && NoFields(patch)
    ensures Patched(rec, patch) == rec
  {
  }

  /**
   * `update`: null for a missing id; otherwise the defined fields written,
   * in the order title, department, dailySalary, isFilled, and the row read back.
   */
  method Update(db: Db, id: int, patch: PositionPatch) returns (r: Option<Position>)
    requires db.Valid()
    modifies db
    ensures db.Valid()
    ensures db.employees == old(db.employees)
    ensures db.nextPositionId == old(db.nextPositionId) && db.nextEmployeeId == old(db.nextEmployeeId)
    ensures id !in old(db.positions) ==> r.None? && db.positions == old(db.positions)
    ensures id in old(db.positions) ==>
              && db.positions == old(db.positions)[id := Patched(old(db.positions)[id], patch)]
              && r == Some(ToPosition(id, db.positions[id]))
    ensures NoFields(patch) ==> db.positions == old(db.positions)
  {
    var current := GetById(db, id);
    if current.None? {
      return None;
    }
    var updates, values := BuildSetClauses(patch);
    if |updates| == 0 {
      assert Title !in updates && Department !in updates && DailySalary !in updates && IsFilled !in updates;
      NoFieldsNoChange(db.positions[id], patch);
      assert db.positions == db.positions[id := db.positions[id]];
      return current;
    }
    ClausesPatch(db.positions[id], patch, updates, values);
    values := values + [Integer(id)];
    assert values[..|updates|] == values[..|values| - 1];
    db.positions := ExecUpdate(db.positions, updates, values);
    r := GetById(db, id);
  }

  /**
   * `delete`: whether a row was removed. With foreign keys on, deleting a
   * position an employee still references fails and removes nothing.
   */
  method Delete(db: Db, id: int) returns (r: Result<bool, DbError>)
    requires db.Valid()
    modifies db
    ensures db.Valid()
    ensures db.employees == old(db.employees)
    ensures db.nextPositionId == old(db.nextPositionId) && db.nextEmployeeId == old(db.nextEmployeeId)
    ensures PositionReferenced(old(db.employees), id) ==> r == Failure(ForeignKeyViolation) && db.positions == old(db.positions)
    ensures !PositionReferenced(old(db.employees), id) ==>
              r == Success(id in old(db.positions)) && db.positions == old(db.positions) - {id}
    ensures r.Success? ==> GetById(db, id).None?
  {
    if PositionReferenced(db.employees, id) {
      return Failure(ForeignKeyViolation);
    }
    r := Success(id in db.positions);
    db.positions := db.positions - {id};
  }
}
