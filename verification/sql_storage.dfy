/** The evaluation-storage methods of `SQLStorage`, each modelled by what its
    statement means for the `evaluations` and `attempts` tables: the ownership
    gate, the owner-filtered and evaluation-filtered listings, the threshold
    lookup, the single-column updates by primary key and the two inserts.

    The database is a pair of tables keyed by primary key. Whether the server
    answers at all is a parameter (`Connection`); anything the server rejects
    and every lost connection is an error the method either wraps as a
    ResourceAccess error carrying the resource id, or, where the source has no
    `try`, lets escape unwrapped. A failing operation returns no new store, so
    on every error path the store is unchanged. */
module SqlStorage {
  import opened Wrappers
  import opened SqlValues
  import opened Schema
  import opened StorageExceptions
  import opened AttemptModel
  import InfoLog

  /** Both tables, each keyed by its primary key. */
  datatype Db = Db(evaluations: map<string, Row>, attempts: map<string, Row>)

  /** Whether the database server carries out statements or every statement
      raises (a lost connection, a timeout). */
  datatype Connection = Up | Down

  /** The low-level errors a statement or the code around it raises. */
  datatype Fault =
    | ConnectionLost        // any pymysql error from a broken connection
    | NoneIndexed           // `res[0]` on the None that fetchone returns for no row: TypeError
    | SuperArgumentNotType  // building an exception subclass: TypeError

  /** What a store method raises. */
  datatype StoreError =
    | Raised(exception: StorageException)  // a storage exception of the taxonomy
    | ResourceAccess(resource: SqlValue)   // ResourceAccessException(id, cause), cause left opaque
    | Escaped(fault: Fault)                // an exception nobody wraps

  /** The attributes of an evaluation that `_add_evaluation` reads. */
  datatype Evaluation = Evaluation(id: SqlValue, age: SqlValue, gender: SqlValue, impression: SqlValue, ownerId: SqlValue)

  /** What the schema guarantees of every stored state: each row fits its
      table, sits under its own primary key, and every attempt's parent
      evaluation exists. */
  predicate Valid(db: Db) {
    && (forall k | k in db.evaluations ::
          Fits(EvaluationColumns, db.evaluations[k]) && db.evaluations[k][EvaluationIdCol] == VStr(k))
    && (forall k | k in db.attempts ::
          && Fits(AttemptColumns, db.attempts[k])
          && db.attempts[k][AttemptIdCol] == VStr(k)
          && db.attempts[k][ParentCol].VStr?
          && db.attempts[k][ParentCol].s in db.evaluations)
  }

  const EmptyDb: Db := Db(map[], map[])

  lemma EmptyDbIsValid()
    ensures Valid(EmptyDb)
  {
  }

  /** In a valid store the two primary keys and the foreign key hold: no two
      rows of a table share their key cell, and every attempt's
      `evaluation_id` is the key cell of a stored evaluation. */
  lemma ValidKeysHold(db: Db)
    requires Valid(db)
    ensures forall k1, k2 | k1 in db.evaluations && k2 in db.evaluations && k1 != k2 ::
      db.evaluations[k1][EvaluationIdCol] != db.evaluations[k2][EvaluationIdCol]
    ensures forall k1, k2 | k1 in db.attempts && k2 in db.attempts && k1 != k2 ::
      db.attempts[k1][AttemptIdCol] != db.attempts[k2][AttemptIdCol]
    ensures forall k | k in db.attempts :: exists p | p in db.evaluations ::
      db.evaluations[p][EvaluationIdCol] == db.attempts[k][ParentCol]
  {
    forall k | k in db.attempts
      ensures exists p | p in db.evaluations :: db.evaluations[p][EvaluationIdCol] == db.attempts[k][ParentCol]
    {
      var p := db.attempts[k][ParentCol].s;
      assert db.evaluations[p][EvaluationIdCol] == db.attempts[k][ParentCol];
    }
  }

  /** Some attempt refers to evaluation `id`. */
  predicate Referenced(db: Db, id: string)
    requires Valid(db)
  {
    exists k | k in db.attempts :: db.attempts[k][ParentCol] == VStr(id)
  }

  // ---------------------------------------------------------------------
  // The ownership gate: `SELECT owner_id FROM evaluations WHERE evaluation_id = %s`

  /** `_check_is_owner(evaluation_id, owner_id)`. There is no `try`: a lost
      connection escapes unwrapped, and so does the TypeError of indexing the
      None fetched for an absent evaluation. */
  function CheckIsOwner(db: Db, conn: Connection, evaluationId: string, ownerId: string): (r: Outcome<StoreError>)
    requires Valid(db)
    ensures r == Pass <==>
      conn.Up? && evaluationId in db.evaluations && db.evaluations[evaluationId][OwnerIdCol] == VStr(ownerId)
    ensures r == Fail(Raised(PermissionDenied(evaluationId, ownerId, None))) <==>
      conn.Up? && evaluationId in db.evaluations && db.evaluations[evaluationId][OwnerIdCol] != VStr(ownerId)
    ensures conn.Up? && evaluationId !in db.evaluations ==> r == Fail(Escaped(NoneIndexed))
    ensures conn.Down? ==> r == Fail(Escaped(ConnectionLost))
  {
    if conn.Down? then Fail(Escaped(ConnectionLost))
    else if evaluationId !in db.evaluations then Fail(Escaped(NoneIndexed))
    else if db.evaluations[evaluationId][OwnerIdCol] != VStr(ownerId) then
      Fail(Raised(NewPermissionDenied(evaluationId, ownerId, None).value))
    else Pass
  }

  /** `_check_is_owner` with the exception constructor as written. */
  function CheckIsOwnerAsWritten(db: Db, conn: Connection, evaluationId: string, ownerId: string): (r: Outcome<StoreError>)
    requires Valid(db)
    ensures r == Pass <==>
      conn.Up? && evaluationId in db.evaluations && db.evaluations[evaluationId][OwnerIdCol] == VStr(ownerId)
    ensures conn.Up? && evaluationId in db.evaluations && db.evaluations[evaluationId][OwnerIdCol] != VStr(ownerId)
      ==> r == Fail(Escaped(SuperArgumentNotType))
    ensures conn.Up? && evaluationId !in db.evaluations ==> r == Fail(Escaped(NoneIndexed))
    ensures conn.Down? ==> r == Fail(Escaped(ConnectionLost))
  {
    if conn.Down? then Fail(Escaped(ConnectionLost))
    else if evaluationId !in db.evaluations then Fail(Escaped(NoneIndexed))
    else if db.evaluations[evaluationId][OwnerIdCol] != VStr(ownerId) then
      match NewPermissionDeniedAsWritten(evaluationId, ownerId, None)
      case Success(e) => Fail(Raised(e))
      case Failure(_) => Fail(Escaped(SuperArgumentNotType))
    else Pass
  }

  /** As written, the gate never raises PermissionDenied: a caller who does
      not own the evaluation gets the TypeError of the exception's own
      constructor. The owner still passes. */
  lemma CheckIsOwnerAsWrittenNeverDenies(db: Db, conn: Connection, evaluationId: string, ownerId: string)
    requires Valid(db)
    ensures forall e :: CheckIsOwnerAsWritten(db, conn, evaluationId, ownerId) != Fail(Raised(e))
    ensures conn.Up? && evaluationId in db.evaluations && db.evaluations[evaluationId][OwnerIdCol] != VStr(ownerId)
      ==> CheckIsOwnerAsWritten(db, conn, evaluationId, ownerId) == Fail(Escaped(SuperArgumentNotType))
    ensures CheckIsOwnerAsWritten(db, conn, evaluationId, ownerId) == Pass
      <==> CheckIsOwner(db, conn, evaluationId, ownerId) == Pass
  {
    AsWrittenConstructorsRaise(evaluationId, ownerId, None);
  }

  // ---------------------------------------------------------------------
  // `SELECT ambiance_threshold FROM evaluations WHERE evaluation_id = %s`

  /** `_get_threshold(id)`. Only the query is inside the `try`; indexing the
      None fetched for an absent evaluation escapes. */
  function GetThreshold(db: Db, conn: Connection, id: string): (r: Result<SqlValue, StoreError>)
    requires Valid(db)
    ensures conn.Down? ==> r == Failure(ResourceAccess(VStr(id)))
    ensures conn.Up? && id !in db.evaluations ==> r == Failure(Escaped(NoneIndexed))
    ensures conn.Up? && id in db.evaluations ==> r == Success(db.evaluations[id][ThresholdCol])
    ensures r.Success? ==> r.value == VNone || r.value.VFloat?
  {
    if conn.Down? then Failure(ResourceAccess(VStr(id)))
    else if id !in db.evaluations then Failure(Escaped(NoneIndexed))
    else Success(db.evaluations[id][ThresholdCol])
  }

  // ---------------------------------------------------------------------
  // Inserts

  /** The INSERT of `_add_evaluation`: its column list, then its VALUES clause. */
  const AddEvaluationInto: string := "INSERT INTO " + "evaluations (evaluation_id, age, gender, impression, owner_id) "
  const AddEvaluationValuesClause: string := "VALUES (%s, %s, %s, %s, %s)"
  const AddEvaluationSql: string := AddEvaluationInto + AddEvaluationValuesClause
  const AddEvaluationNames: seq<string> := ["evaluation_id", "age", "gender", "impression", "owner_id"]
  const AddEvaluationPositions: seq<nat> := [EvaluationIdCol, AgeCol, GenderCol, ImpressionCol, OwnerIdCol]

  /** The parameters `_add_evaluation` passes, in the order of its column list. */
  function EvaluationValues(e: Evaluation): seq<SqlValue> {
    [e.id, e.age, e.gender, e.impression, e.ownerId]
  }

  /** Each attribute fits its varchar column. */
  predicate EvaluationAccepted(e: Evaluation) {
    && Accepts(EvaluationColumns[EvaluationIdCol], e.id)
    && Accepts(EvaluationColumns[AgeCol], e.age)
    && Accepts(EvaluationColumns[GenderCol], e.gender)
    && Accepts(EvaluationColumns[ImpressionCol], e.impression)
    && Accepts(EvaluationColumns[OwnerIdCol], e.ownerId)
  }

  /** The column list of the INSERT resolves to the first five columns. */
  lemma EvaluationNamesResolve()
    ensures |AddEvaluationNames| == |AddEvaluationPositions|
    ensures forall k | 0 <= k < |AddEvaluationNames| :: IndexOf(EvaluationColumns, AddEvaluationNames[k]) == Some(AddEvaluationPositions[k])
  {
    EvaluationPositionsFollowDdl();
    forall k | 0 <= k < |AddEvaluationNames|
      ensures IndexOf(EvaluationColumns, AddEvaluationNames[k]) == Some(AddEvaluationPositions[k])
    {
      if k == 0 { assert AddEvaluationNames[k] == "evaluation_id"; }
      else if k == 1 { assert AddEvaluationNames[k] == "age"; }
      else if k == 2 { assert AddEvaluationNames[k] == "gender"; }
      else if k == 3 { assert AddEvaluationNames[k] == "impression"; }
      else { assert AddEvaluationNames[k] == "owner_id"; }
    }
  }

  /** The INSERT stores the five attributes as given, a NULL threshold and the
      server time, and is rejected when an attribute does not fit its column. */
  lemma EvaluationInsertRow(e: Evaluation, now: Timestamp)
    ensures InsertRow(EvaluationColumns, AddEvaluationPositions, EvaluationValues(e), now)
         == if EvaluationAccepted(e) then Some(EvaluationValues(e) + [VNone, VDateTime(now)]) else None
  {
    var vals := EvaluationValues(e);
    var cols := EvaluationColumns;
    var ps := AddEvaluationPositions;
    var expected := vals + [VNone, VDateTime(now)];
    if EvaluationAccepted(e) {
      forall i | 0 <= i < |cols| ensures InsertCell(cols, i, ps, vals, now) == Some(expected[i]) {
        if i == 0 { assert FirstIndex(ps, 0) == Some(0); }
        else if i == 1 { assert FirstIndex(ps, 1) == Some(1); }
        else if i == 2 { assert FirstIndex(ps, 2) == Some(2); }
        else if i == 3 { assert FirstIndex(ps, 3) == Some(3); }
        else if i == 4 { assert FirstIndex(ps, 4) == Some(4); }
      }
      InsertRowOfCells(cols, ps, vals, now, expected);
    } else if !Accepts(cols[0], e.id) {
      assert FirstIndex(ps, 0) == Some(0);
      InsertRowRejects(cols, ps, vals, now, 0);
    } else if !Accepts(cols[1], e.age) {
      assert FirstIndex(ps, 1) == Some(1);
      InsertRowRejects(cols, ps, vals, now, 1);
    } else if !Accepts(cols[2], e.gender) {
      assert FirstIndex(ps, 2) == Some(2);
      InsertRowRejects(cols, ps, vals, now, 2);
    } else if !Accepts(cols[3], e.impression) {
      assert FirstIndex(ps, 3) == Some(3);
      InsertRowRejects(cols, ps, vals, now, 3);
    } else {
      assert FirstIndex(ps, 4) == Some(4);
      InsertRowRejects(cols, ps, vals, now, 4);
    }
  }

  /** Filing a fitting row under its own fresh key keeps the store valid. */
  lemma InsertEvaluationValid(db: Db, key: string, row: Row)
    requires Valid(db) && key !in db.evaluations
    requires Fits(EvaluationColumns, row) && row[EvaluationIdCol] == VStr(key)
    ensures Valid(db.(evaluations := db.evaluations[key := row]))
  {
  }

  lemma InsertAttemptValid(db: Db, key: string, row: Row)
    requires Valid(db) && key !in db.attempts
    requires Fits(AttemptColumns, row) && row[AttemptIdCol] == VStr(key)
    requires row[ParentCol].VStr? && row[ParentCol].s in db.evaluations
    ensures Valid(db.(attempts := db.attempts[key := row]))
  {
  }

  /** The server accepts an evaluation exactly when every attribute is a
      string within its column's width. */
  lemma EvaluationAcceptedExactly(e: Evaluation)
    ensures EvaluationAccepted(e) <==>
      && e.id.VStr? && |e.id.s| <= 48 && e.age.VStr? && |e.age.s| <= 16
      && e.gender.VStr? && |e.gender.s| <= 16 && e.impression.VStr? && |e.impression.s| <= 255
      && e.ownerId.VStr? && |e.ownerId.s| <= 48
  {
  }

  /** The stored row fits the table. */
  lemma EvaluationRowFits(e: Evaluation, now: Timestamp)
    requires EvaluationAccepted(e)
    ensures Fits(EvaluationColumns, EvaluationValues(e) + [VNone, VDateTime(now)])
  {
    var row := EvaluationValues(e) + [VNone, VDateTime(now)];
    forall i | 0 <= i < |row| ensures Stored(EvaluationColumns[i], row[i]) {
      if i == 0 { assert Coerce(EvaluationColumns[0], e.id).Some?; }
      else if i == 1 { assert Coerce(EvaluationColumns[1], e.age).Some?; }
      else if i == 2 { assert Coerce(EvaluationColumns[2], e.gender).Some?; }
      else if i == 3 { assert Coerce(EvaluationColumns[3], e.impression).Some?; }
      else if i == 4 { assert Coerce(EvaluationColumns[4], e.ownerId).Some?; }
    }
  }

  /** `_add_evaluation(e)`: any failure, a duplicate primary key included,
      is raised as ResourceAccess carrying `e.id`. */
  function AddEvaluation(db: Db, conn: Connection, e: Evaluation, now: Timestamp): (r: Result<Db, StoreError>)
    requires Valid(db)
    ensures r.Failure? ==> r.error == ResourceAccess(e.id)
    ensures r.Success? <==> conn.Up? && EvaluationAccepted(e) && e.id.VStr? && e.id.s !in db.evaluations
    ensures r.Success? ==> && Valid(r.value)
                           && r.value.attempts == db.attempts
                           && r.value.evaluations == db.evaluations[e.id.s := EvaluationValues(e) + [VNone, VDateTime(now)]]
    ensures r.Success? ==> r.value.evaluations[e.id.s][ThresholdCol] == VNone
  {
    EvaluationInsertRow(e, now);
    if conn.Down? then Failure(ResourceAccess(e.id))
    else match InsertRow(EvaluationColumns, AddEvaluationPositions, EvaluationValues(e), now)
      case None => Failure(ResourceAccess(e.id))
      case Some(row) =>
        assert row == EvaluationValues(e) + [VNone, VDateTime(now)];
        EvaluationAcceptedExactly(e);
        EvaluationRowFits(e, now);
        if row[EvaluationIdCol].s in db.evaluations then Failure(ResourceAccess(e.id))
        else
          InsertEvaluationValid(db, row[EvaluationIdCol].s, row);
          Success(db.(evaluations := db.evaluations[row[EvaluationIdCol].s := row]))
  }

  const AddAttemptSql: string :=
    "INSERT INTO attempts (attempt_id, evaluation_id, word, wsd, duration) VALUE (%s, %s, %s, %s, %s)"
  const AddAttemptNames: seq<string> := ["attempt_id", "evaluation_id", "word", "wsd", "duration"]
  const AddAttemptPositions: seq<nat> := [AttemptIdCol, ParentCol, WordCol, WsdCol, DurationCol]

  /** The parameters `_add_attempt` passes, in the order of its column list. */
  function AttemptValues(a: Attempt): seq<SqlValue> {
    [a.id, a.evaluationId, a.word, a.wsd, a.duration]
  }

  /** Each attribute is one its column accepts. */
  predicate AttemptAccepted(a: Attempt) {
    && Accepts(AttemptColumns[ParentCol], a.evaluationId)
    && Accepts(AttemptColumns[WordCol], a.word)
    && Accepts(AttemptColumns[AttemptIdCol], a.id)
    && Accepts(AttemptColumns[WsdCol], a.wsd)
    && Accepts(AttemptColumns[DurationCol], a.duration)
  }

  /** The row an accepted attempt is stored as. */
  function AttemptRow(a: Attempt, now: Timestamp): Row
    requires AttemptAccepted(a)
  {
    [a.evaluationId, a.word, a.id,
     Coerce(AttemptColumns[WsdCol], a.wsd).value, Coerce(AttemptColumns[DurationCol], a.duration).value,
     VInt(1), VDateTime(now)]
  }

  /** The column list of the INSERT resolves to the first five columns of
      `attempts`, the key first. */
  lemma AttemptNamesResolve()
    ensures |AddAttemptNames| == |AddAttemptPositions|
    ensures forall k | 0 <= k < |AddAttemptNames| :: IndexOf(AttemptColumns, AddAttemptNames[k]) == Some(AddAttemptPositions[k])
  {
    AttemptPositionsFollowDdl();
    forall k | 0 <= k < |AddAttemptNames|
      ensures IndexOf(AttemptColumns, AddAttemptNames[k]) == Some(AddAttemptPositions[k])
    {
      if k == 0 { assert AddAttemptNames[k] == "attempt_id"; }
      else if k == 1 { assert AddAttemptNames[k] == "evaluation_id"; }
      else if k == 2 { assert AddAttemptNames[k] == "word"; }
      else if k == 3 { assert AddAttemptNames[k] == "wsd"; }
      else { assert AddAttemptNames[k] == "duration"; }
    }
  }

  /** The INSERT stores the five attributes in their columns, `include` at
      its default TRUE and the server time, and is rejected when an
      attribute does not fit its column. */
  lemma AttemptInsertRow(a: Attempt, now: Timestamp)
    ensures InsertRow(AttemptColumns, AddAttemptPositions, AttemptValues(a), now)
         == if AttemptAccepted(a) then Some(AttemptRow(a, now)) else None
  {
    var vals := AttemptValues(a);
    var cols := AttemptColumns;
    var ps := AddAttemptPositions;
    if AttemptAccepted(a) {
      var expected := AttemptRow(a, now);
      forall i | 0 <= i < |cols| ensures InsertCell(cols, i, ps, vals, now) == Some(expected[i]) {
        if i == 0 { assert FirstIndex(ps, 0) == Some(1); }
        else if i == 1 { assert FirstIndex(ps, 1) == Some(2); }
        else if i == 2 { assert FirstIndex(ps, 2) == Some(0); }
        else if i == 3 { assert FirstIndex(ps, 3) == Some(3); }
        else if i == 4 { assert FirstIndex(ps, 4) == Some(4); }
      }
      InsertRowOfCells(cols, ps, vals, now, expected);
    } else if !Accepts(cols[0], a.evaluationId) {
      assert FirstIndex(ps, 0) == Some(1);
      InsertRowRejects(cols, ps, vals, now, 0);
    } else if !Accepts(cols[1], a.word) {
      assert FirstIndex(ps, 1) == Some(2);
      InsertRowRejects(cols, ps, vals, now, 1);
    } else if !Accepts(cols[2], a.id) {
      assert FirstIndex(ps, 2) == Some(0);
      InsertRowRejects(cols, ps, vals, now, 2);
    } else if !Accepts(cols[3], a.wsd) {
      assert FirstIndex(ps, 3) == Some(3);
      InsertRowRejects(cols, ps, vals, now, 3);
    } else {
      assert FirstIndex(ps, 4) == Some(4);
      InsertRowRejects(cols, ps, vals, now, 4);
    }
  }

  /** The server accepts an attempt exactly when the ids and the word are
      strings within their widths and `wsd` and `duration` are numbers. */
  lemma AttemptAcceptedExactly(a: Attempt)
    ensures AttemptAccepted(a) <==>
      && a.evaluationId.VStr? && |a.evaluationId.s| <= 48 && a.word.VStr? && |a.word.s| <= 48
      && a.id.VStr? && |a.id.s| <= 48 && IsNumber(a.wsd) && IsNumber(a.duration)
  {
  }

  /** The stored row fits the table. */
  lemma AttemptRowFits(a: Attempt, now: Timestamp)
    requires AttemptAccepted(a)
    ensures Fits(AttemptColumns, AttemptRow(a, now))
  {
    var row := AttemptRow(a, now);
    forall i | 0 <= i < |row| ensures Stored(AttemptColumns[i], row[i]) {
      if i == 0 { assert Coerce(AttemptColumns[0], a.evaluationId).Some?; }
      else if i == 1 { assert Coerce(AttemptColumns[1], a.word).Some?; }
      else if i == 2 { assert Coerce(AttemptColumns[2], a.id).Some?; }
    }
  }

  /** `_add_attempt(a)`: a duplicate attempt id, an evaluation id no
      evaluation has (the foreign key) and a rejected value all raise
      ResourceAccess carrying `a.id`. */
  function AddAttempt(db: Db, conn: Connection, a: Attempt, now: Timestamp): (r: Result<Db, StoreError>)
    requires Valid(db)
    ensures r.Failure? ==> r.error == ResourceAccess(a.id)
    ensures r.Success? <==> && conn.Up? && AttemptAccepted(a)
                            && a.id.s !in db.attempts && a.evaluationId.s in db.evaluations
    ensures r.Success? ==> && Valid(r.value)
                           && r.value.evaluations == db.evaluations
                           && r.value.attempts == db.attempts[a.id.s := AttemptRow(a, now)]
    ensures r.Success? ==> r.value.attempts[a.id.s][IncludeCol] == VInt(1)
  {
    AttemptInsertRow(a, now);
    if conn.Down? then Failure(ResourceAccess(a.id))
    else match InsertRow(AttemptColumns, AddAttemptPositions, AttemptValues(a), now)
      case None => Failure(ResourceAccess(a.id))
      case Some(row) =>
        assert row == AttemptRow(a, now);
        AttemptAcceptedExactly(a);
        AttemptRowFits(a, now);
        if row[AttemptIdCol].s in db.attempts then Failure(ResourceAccess(a.id))    // duplicate entry
        else if row[ParentCol].s !in db.evaluations then Failure(ResourceAccess(a.id))  // foreign key fails
        else
          InsertAttemptValid(db, row[AttemptIdCol].s, row);
          Success(db.(attempts := db.attempts[row[AttemptIdCol].s := row]))
  }

  // ---------------------------------------------------------------------
  // Single-column updates by primary key

  /** `after` is `before` with the row under `key` rewritten in column `col`
      to `cell` and filed under `newKey`; no other row and no other cell of
      that row differs. */
  predicate Updated(before: map<string, Row>, after: map<string, Row>, key: string, newKey: string, col: nat, cell: SqlValue)
  {
    && key in before && newKey in after
    && after.Keys == before.Keys - {key} + {newKey}
    && (forall k | k in before && k != key :: k in after && after[k] == before[k])
    && |after[newKey]| == |before[key]|
    && col < |after[newKey]| && after[newKey][col] == cell
    && (forall j | 0 <= j < |before[key]| && j != col :: after[newKey][j] == before[key][j])
  }

  /** Rewriting a cell in place changes that cell only. */
  lemma RewriteIsUpdate(m: map<string, Row>, key: string, col: nat, cell: SqlValue)
    requires key in m && col < |m[key]|
    ensures Updated(m, m[key := m[key][col := cell]], key, key, col, cell)
  {
  }

  /** Rewriting a cell and filing the row under a fresh key changes that
      cell and the key only. */
  lemma MoveIsUpdate(m: map<string, Row>, key: string, newKey: string, col: nat, cell: SqlValue)
    requires key in m && newKey !in m && col < |m[key]|
    ensures Updated(m, (m - {key})[newKey := m[key][col := cell]], key, newKey, col, cell)
  {
  }

  lemma EvaluationRewriteValid(db: Db, id: string, col: nat, cell: SqlValue)
    requires Valid(db) && id in db.evaluations && col < |EvaluationColumns|
    requires Stored(EvaluationColumns[col], cell)
    requires col == EvaluationIdCol ==> cell == VStr(id)
    ensures Valid(db.(evaluations := db.evaluations[id := db.evaluations[id][col := cell]]))
  {
    RewriteFits(EvaluationColumns, db.evaluations[id], col, cell);
  }

  lemma EvaluationMoveValid(db: Db, id: string, cell: SqlValue)
    requires Valid(db) && id in db.evaluations
    requires cell.VStr? && Stored(EvaluationColumns[EvaluationIdCol], cell)
    requires cell.s !in db.evaluations && !Referenced(db, id)
    ensures Valid(db.(evaluations := (db.evaluations - {id})[cell.s := db.evaluations[id][EvaluationIdCol := cell]]))
  {
    RewriteFits(EvaluationColumns, db.evaluations[id], EvaluationIdCol, cell);
  }

  lemma AttemptRewriteValid(db: Db, id: string, col: nat, cell: SqlValue)
    requires Valid(db) && id in db.attempts && col < |AttemptColumns|
    requires Stored(AttemptColumns[col], cell)
    requires col == AttemptIdCol ==> cell == VStr(id)
    requires col == ParentCol ==> cell.VStr? && cell.s in db.evaluations
    ensures Valid(db.(attempts := db.attempts[id := db.attempts[id][col := cell]]))
  {
    RewriteFits(AttemptColumns, db.attempts[id], col, cell);
  }

  lemma AttemptMoveValid(db: Db, id: string, cell: SqlValue)
    requires Valid(db) && id in db.attempts
    requires cell.VStr? && Stored(AttemptColumns[AttemptIdCol], cell) && cell.s !in db.attempts
    ensures Valid(db.(attempts := (db.attempts - {id})[cell.s := db.attempts[id][AttemptIdCol := cell]]))
  {
    RewriteFits(AttemptColumns, db.attempts[id], AttemptIdCol, cell);
  }

  function UpdateEvaluationSql(field: string): string {
    "UPDATE evaluations SET " + field + " = %s WHERE evaluation_id = %s"
  }

  /** Whether the server carries out `SET col = value` on the existing
      evaluation `id`: the column accepts the value and, when the key
      changes, the new key is free and no attempt refers to the old one
      (the foreign key has no ON UPDATE action). */
  predicate EvaluationUpdateAllowed(db: Db, id: string, col: nat, value: SqlValue)
    requires Valid(db) && col < |EvaluationColumns|
  {
    && Accepts(EvaluationColumns[col], value)
    && (col == EvaluationIdCol && value != VStr(id) ==>
          value.VStr? && value.s !in db.evaluations && !Referenced(db, id))
  }

  /** `_update_evaluation(id, field, value)`. An unknown column fails even
      when no row matches; a rejected value fails only when a row matches;
      no matching row leaves the store as it was. */
  function UpdateEvaluation(db: Db, conn: Connection, id: string, field: string, value: SqlValue): (r: Result<Db, StoreError>)
    requires Valid(db)
    ensures r.Failure? ==> r.error == ResourceAccess(VStr(id))
    ensures r.Success? <==> && conn.Up? && IndexOf(EvaluationColumns, field).Some?
                            && (id in db.evaluations ==>
                                  EvaluationUpdateAllowed(db, id, IndexOf(EvaluationColumns, field).value, value))
    ensures r.Success? ==> Valid(r.value) && r.value.attempts == db.attempts
    ensures r.Success? && id !in db.evaluations ==> r.value == db
    ensures r.Success? && id in db.evaluations ==>
      var col := IndexOf(EvaluationColumns, field).value;
      Updated(db.evaluations, r.value.evaluations, id, if col == EvaluationIdCol then value.s else id, col,
              Coerce(EvaluationColumns[col], value).value)
  {
    if conn.Down? then Failure(ResourceAccess(VStr(id)))
    else match IndexOf(EvaluationColumns, field)
      case None => Failure(ResourceAccess(VStr(id)))     // unknown column
      case Some(col) =>
        if id !in db.evaluations then Success(db)        // no row matched
        else match Coerce(EvaluationColumns[col], value)
          case None => Failure(ResourceAccess(VStr(id)))
          case Some(cell) =>
            var row := db.evaluations[id][col := cell];
            if col != EvaluationIdCol || cell == VStr(id) then
              EvaluationRewriteValid(db, id, col, cell);
              RewriteIsUpdate(db.evaluations, id, col, cell);
              Success(db.(evaluations := db.evaluations[id := row]))
            else if cell.s in db.evaluations || Referenced(db, id) then
              Failure(ResourceAccess(VStr(id)))          // duplicate key, or the foreign key restricts
            else
              EvaluationMoveValid(db, id, cell);
              MoveIsUpdate(db.evaluations, id, cell.s, col, cell);
              Success(db.(evaluations := (db.evaluations - {id})[cell.s := row]))
  }

  function UpdateAttemptSql(field: string): string {
    "UPDATE attempts SET " + field + " = %s WHERE attempt_id = %s"
  }

  /** Whether the server carries out `SET col = value` on the existing
      attempt `id`: the column accepts the value, a new key is free, and a
      new parent evaluation exists. */
  predicate AttemptUpdateAllowed(db: Db, id: string, col: nat, value: SqlValue)
    requires Valid(db) && col < |AttemptColumns|
  {
    && Accepts(AttemptColumns[col], value)
    && (col == AttemptIdCol && value != VStr(id) ==> value.VStr? && value.s !in db.attempts)
    && (col == ParentCol ==> value.VStr? && value.s in db.evaluations)
  }

  /** `_update_attempt(id, field, value)`, with the same failure rules as
      `_update_evaluation`. */
  function UpdateAttempt(db: Db, conn: Connection, id: string, field: string, value: SqlValue): (r: Result<Db, StoreError>)
    requires Valid(db)
    ensures r.Failure? ==> r.error == ResourceAccess(VStr(id))
    ensures r.Success? <==> && conn.Up? && IndexOf(AttemptColumns, field).Some?
                            && (id in db.attempts ==>
                                  AttemptUpdateAllowed(db, id, IndexOf(AttemptColumns, field).value, value))
    ensures r.Success? ==> Valid(r.value) && r.value.evaluations == db.evaluations
    ensures r.Success? && id !in db.attempts ==> r.value == db
    ensures r.Success? && id in db.attempts ==>
      var col := IndexOf(AttemptColumns, field).value;
      Updated(db.attempts, r.value.attempts, id, if col == AttemptIdCol then value.s else id, col,
              Coerce(AttemptColumns[col], value).value)
  {
    if conn.Down? then Failure(ResourceAccess(VStr(id)))
    else match IndexOf(AttemptColumns, field)
      case None => Failure(ResourceAccess(VStr(id)))
      case Some(col) =>
        if id !in db.attempts then Success(db)
        else match Coerce(AttemptColumns[col], value)
          case None => Failure(ResourceAccess(VStr(id)))
          case Some(cell) =>
            var row := db.attempts[id][col := cell];
            if col == ParentCol && cell.s !in db.evaluations then
              Failure(ResourceAccess(VStr(id)))          // the foreign key fails
            else if col != AttemptIdCol || cell == VStr(id) then
              AttemptRewriteValid(db, id, col, cell);
              RewriteIsUpdate(db.attempts, id, col, cell);
              Success(db.(attempts := db.attempts[id := row]))
            else if cell.s in db.attempts then
              Failure(ResourceAccess(VStr(id)))          // duplicate key
            else
              AttemptMoveValid(db, id, cell);
              MoveIsUpdate(db.attempts, id, cell.s, col, cell);
              Success(db.(attempts := (db.attempts - {id})[cell.s := row]))
  }

  // ---------------------------------------------------------------------
  // Listings. Neither query has an ORDER BY, so the rows come back in an
  // order the server chooses; the methods below pick them in an arbitrary
  // order and their contracts promise nothing about it.

  /** The attempts `SELECT * FROM attempts WHERE evaluation_id = %s` matches. */
  function AttemptKeysOf(db: Db, evaluationId: string): set<string>
    requires Valid(db)
  {
    set k | k in db.attempts && db.attempts[k][ParentCol] == VStr(evaluationId)
  }

  /** `Attempt.from_row` of the stored attempt `k`. */
  function Decoded(db: Db, k: string): (a: Attempt)
    requires Valid(db) && k in db.attempts
    ensures a.id == VStr(k) && a.evaluationId == db.attempts[k][ParentCol]
    ensures a.included == VBool(db.attempts[k][IncludeCol] != VInt(0))
  {
    FromRow(db.attempts[k]).value
  }

  /** The keys of a result set, one at a time in an order the server
      chooses: each key once, and no other. */
  method Enumerate(keys: set<string>) returns (ks: seq<string>)
    ensures |ks| == |keys|
    ensures forall i | 0 <= i < |ks| :: ks[i] in keys
    ensures forall k | k in keys :: k in ks
    ensures forall i, j | 0 <= i < j < |ks| :: ks[i] != ks[j]
  {
    var todo := keys;
    ks := [];
    ghost var done: set<string> := {};
    while todo != {}
      invariant todo !! done && todo + done == keys
      invariant |ks| == |done|
      invariant forall i | 0 <= i < |ks| :: ks[i] in done
      invariant forall k | k in done :: k in ks
      invariant forall i, j | 0 <= i < j < |ks| :: ks[i] != ks[j]
      decreases |todo|
    {
      var k :| k in todo;
      ks := ks + [k];
      todo := todo - {k};
      done := done + {k};
    }
  }

  /** `_get_attempts(evaluation_id)`: one decoded attempt for each row of the
      evaluation, each exactly once, and none of any other evaluation. */
  method GetAttempts(db: Db, conn: Connection, evaluationId: string) returns (r: Result<seq<Attempt>, StoreError>)
    requires Valid(db)
    ensures r.Failure? <==> conn.Down?
    ensures r.Failure? ==> r.error == ResourceAccess(VStr(evaluationId))
    ensures r.Success? ==> |r.value| == |AttemptKeysOf(db, evaluationId)|
    ensures r.Success? ==> forall i | 0 <= i < |r.value| ::
      r.value[i].id.VStr? && r.value[i].id.s in AttemptKeysOf(db, evaluationId) && r.value[i] == Decoded(db, r.value[i].id.s)
    ensures r.Success? ==> forall k | k in AttemptKeysOf(db, evaluationId) :: Decoded(db, k) in r.value
    ensures r.Success? ==> forall i, j | 0 <= i < j < |r.value| :: r.value[i].id != r.value[j].id
  {
    if conn.Down? {
      return Failure(ResourceAccess(VStr(evaluationId)));
    }
    var keys := AttemptKeysOf(db, evaluationId);
    var ks := Enumerate(keys);
    var attempts := seq(|ks|, i requires 0 <= i < |ks| => Decoded(db, ks[i]));
    forall k | k in keys ensures Decoded(db, k) in attempts {
      var i :| 0 <= i < |ks| && ks[i] == k;
      assert attempts[i] == Decoded(db, k);
    }
    return Success(attempts);
  }

  /** The evaluations `WHERE owner_id = %s` matches. */
  function EvaluationKeysOf(db: Db, ownerId: string): set<string>
    requires Valid(db)
  {
    set k | k in db.evaluations && db.evaluations[k][OwnerIdCol] == VStr(ownerId)
  }

  /** The select list of the listing query, and the columns it resolves to. */
  const ListedNames: seq<string> := ["evaluation_id", "age", "gender", "impression", "owner_id", "date_created"]
  const ListedPositions: seq<nat> := [EvaluationIdCol, AgeCol, GenderCol, ImpressionCol, OwnerIdCol, EvaluationCreatedCol]

  /** The select list resolves to every column but the threshold. */
  lemma ListedNamesResolve()
    ensures |ListedNames| == |ListedPositions|
    ensures forall j | 0 <= j < |ListedNames| :: IndexOf(EvaluationColumns, ListedNames[j]) == Some(ListedPositions[j])
  {
    EvaluationPositionsFollowDdl();
    forall j | 0 <= j < |ListedNames|
      ensures IndexOf(EvaluationColumns, ListedNames[j]) == Some(ListedPositions[j])
    {
      if j == 0 { assert ListedNames[j] == "evaluation_id"; }
      else if j == 1 { assert ListedNames[j] == "age"; }
      else if j == 2 { assert ListedNames[j] == "gender"; }
      else if j == 3 { assert ListedNames[j] == "impression"; }
      else if j == 4 { assert ListedNames[j] == "owner_id"; }
      else { assert ListedNames[j] == "date_created"; }
    }
  }

  /** The cells `SELECT evaluation_id, age, gender, impression, owner_id,
      date_created` returns for the stored evaluation `k`: cell `j` is the
      stored cell of the column the `j`-th name of the select list resolves
      to (`ListedNamesResolve`). */
  function Listed(db: Db, k: string): (row: Row)
    requires Valid(db) && k in db.evaluations
    ensures |row| == |ListedNames| == 6 && row[0] == VStr(k) && row[4] == db.evaluations[k][OwnerIdCol]
    ensures forall j | 0 <= j < |ListedPositions| :: row[j] == db.evaluations[k][ListedPositions[j]]
  {
    var e := db.evaluations[k];
    var row := [e[EvaluationIdCol], e[AgeCol], e[GenderCol], e[ImpressionCol], e[OwnerIdCol], e[EvaluationCreatedCol]];
    row
  }

  /** Each cell of a listed row is the stored cell of the column its name in
      the select list resolves to. */
  lemma ListedFollowsSelect(db: Db, k: string)
    requires Valid(db) && k in db.evaluations
    ensures forall j | 0 <= j < |ListedNames| ::
      IndexOf(EvaluationColumns, ListedNames[j]).Some? &&
      Listed(db, k)[j] == db.evaluations[k][IndexOf(EvaluationColumns, ListedNames[j]).value]
  {
    ListedNamesResolve();
  }

  /** `_get_evaluations(owner_id)`: one row for each evaluation the user
      owns, each exactly once, and none of anybody else's. The error names
      the listing, not an evaluation. */
  method GetEvaluations(db: Db, conn: Connection, ownerId: string) returns (r: Result<seq<Row>, StoreError>)
    requires Valid(db)
    ensures r.Failure? <==> conn.Down?
    ensures r.Failure? ==> r.error == ResourceAccess(VStr("evaluations for " + ownerId))
    ensures r.Success? ==> |r.value| == |EvaluationKeysOf(db, ownerId)|
    ensures r.Success? ==> forall i | 0 <= i < |r.value| ::
      |r.value[i]| == 6 && r.value[i][0].VStr? && r.value[i][0].s in EvaluationKeysOf(db, ownerId)
      && r.value[i] == Listed(db, r.value[i][0].s) && r.value[i][4] == VStr(ownerId)
    ensures r.Success? ==> forall k | k in EvaluationKeysOf(db, ownerId) :: Listed(db, k) in r.value
    ensures r.Success? ==> forall i, j | 0 <= i < j < |r.value| :: r.value[i][0] != r.value[j][0]
  {
    if conn.Down? {
      return Failure(ResourceAccess(VStr("evaluations for " + ownerId)));
    }
    var keys := EvaluationKeysOf(db, ownerId);
    var ks := Enumerate(keys);
    var rows := seq(|ks|, i requires 0 <= i < |ks| => Listed(db, ks[i]));
    forall k | k in keys ensures Listed(db, k) in rows {
      var i :| 0 <= i < |ks| && ks[i] == k;
      assert rows[i] == Listed(db, k);
    }
    return Success(rows);
  }

  // ---------------------------------------------------------------------
  // The statement helpers build their log line with `_make_info_log`
  // before they run the statement, inside the caller's `try`.

  /** `r` behind a log line built as written: when building it raises, the
      caller raises ResourceAccess carrying `id` and the statement never
      runs. */
  function LoggedAsWritten(event: string, sql: string, vals: seq<SqlValue>, id: SqlValue, r: Result<Db, StoreError>): Result<Db, StoreError> {
    if InfoLog.MakeInfoLogAsWritten(event, sql, vals).Failure? then Failure(ResourceAccess(id)) else r
  }

  /** `_add_evaluation` with the log line built as written: the insert of
      the corrected model, except that a number among the attributes makes
      it fail before the statement runs. */
  function AddEvaluationAsWritten(db: Db, conn: Connection, e: Evaluation, now: Timestamp): (r: Result<Db, StoreError>)
    requires Valid(db)
    ensures r == AddEvaluation(db, conn, e, now) || r == Failure(ResourceAccess(e.id))
    ensures r.Success? <==> (AddEvaluation(db, conn, e, now).Success? &&
                             forall i | 0 <= i < |EvaluationValues(e)| :: !IsNumber(EvaluationValues(e)[i]))
  {
    InfoLog.AsWrittenRaisesOnNumbers("db-insert", AddEvaluationSql, EvaluationValues(e));
    LoggedAsWritten("db-insert", AddEvaluationSql, EvaluationValues(e), e.id, AddEvaluation(db, conn, e, now))
  }

  /** `_add_attempt` with the log line built as written. */
  function AddAttemptAsWritten(db: Db, conn: Connection, a: Attempt, now: Timestamp): (r: Result<Db, StoreError>)
    requires Valid(db)
    ensures r == AddAttempt(db, conn, a, now) || r == Failure(ResourceAccess(a.id))
    ensures r.Success? <==> (AddAttempt(db, conn, a, now).Success? &&
                             forall i | 0 <= i < |AttemptValues(a)| :: !IsNumber(AttemptValues(a)[i]))
  {
    InfoLog.AsWrittenRaisesOnNumbers("db-insert", AddAttemptSql, AttemptValues(a));
    LoggedAsWritten("db-insert", AddAttemptSql, AttemptValues(a), a.id, AddAttempt(db, conn, a, now))
  }

  /** `_update_evaluation` with the log line built as written: the corrected
      update, except that a number as the new value makes it fail before the
      statement runs. */
  function UpdateEvaluationAsWritten(db: Db, conn: Connection, id: string, field: string, value: SqlValue): (r: Result<Db, StoreError>)
    requires Valid(db)
    ensures r == UpdateEvaluation(db, conn, id, field, value) || r == Failure(ResourceAccess(VStr(id)))
    ensures r.Success? <==> UpdateEvaluation(db, conn, id, field, value).Success? && !IsNumber(value)
  {
    assert IsNumber(value) <==> IsNumber([value, VStr(id)][0]);
    assert forall i | 0 <= i < 2 :: IsNumber([value, VStr(id)][i]) ==> IsNumber(value);
    assert |UpdateEvaluationSql(field)| > 0;
    InfoLog.AsWrittenRaisesOnNumbers("db-update", UpdateEvaluationSql(field), [value, VStr(id)]);
    LoggedAsWritten("db-update", UpdateEvaluationSql(field), [value, VStr(id)], VStr(id), UpdateEvaluation(db, conn, id, field, value))
  }

  /** `_update_attempt` with the log line built as written: the corrected
      update, except that a number as the new value makes it fail before the
      statement runs. */
  function UpdateAttemptAsWritten(db: Db, conn: Connection, id: string, field: string, value: SqlValue): (r: Result<Db, StoreError>)
    requires Valid(db)
    ensures r == UpdateAttempt(db, conn, id, field, value) || r == Failure(ResourceAccess(VStr(id)))
    ensures r.Success? <==> UpdateAttempt(db, conn, id, field, value).Success? && !IsNumber(value)
  {
    assert IsNumber(value) <==> IsNumber([value, VStr(id)][0]);
    assert forall i | 0 <= i < 2 :: IsNumber([value, VStr(id)][i]) ==> IsNumber(value);
    assert |UpdateAttemptSql(field)| > 0;
    InfoLog.AsWrittenRaisesOnNumbers("db-update", UpdateAttemptSql(field), [value, VStr(id)]);
    LoggedAsWritten("db-update", UpdateAttemptSql(field), [value, VStr(id)], VStr(id), UpdateAttempt(db, conn, id, field, value))
  }

  /** As written, no attempt the model accepts can be stored: the model's
      `wsd` column takes only numbers, and joining a number into the log line
      raises. (The server would also take a numeric string, which the log
      line joins without error; `Coerce` does not model that conversion.) */
  lemma AddAttemptAsWrittenAlwaysFails(db: Db, conn: Connection, a: Attempt, now: Timestamp)
    requires Valid(db)
    ensures AddAttemptAsWritten(db, conn, a, now) == Failure(ResourceAccess(a.id))
  {
    if AttemptAccepted(a) {
      AttemptAcceptedExactly(a);
      assert IsNumber(AttemptValues(a)[3]);
      InfoLog.AsWrittenRaisesOnNumbers("db-insert", AddAttemptSql, AttemptValues(a));
    }
  }

  /** As written, an update to a number, a float or a bool fails, so neither
      the threshold nor an attempt's `include` flag can be set to a number. */
  lemma UpdateAsWrittenRejectsNumbers(db: Db, conn: Connection, id: string, field: string, value: SqlValue)
    requires Valid(db) && IsNumber(value)
    ensures UpdateEvaluationAsWritten(db, conn, id, field, value) == Failure(ResourceAccess(VStr(id)))
    ensures UpdateAttemptAsWritten(db, conn, id, field, value) == Failure(ResourceAccess(VStr(id)))
  {
    assert IsNumber([value, VStr(id)][0]);
    InfoLog.AsWrittenRaisesOnNumbers("db-update", UpdateEvaluationSql(field), [value, VStr(id)]);
    InfoLog.AsWrittenRaisesOnNumbers("db-update", UpdateAttemptSql(field), [value, VStr(id)]);
  }

  /** An evaluation of string attributes is logged as written with the whole
      INSERT, its `VALUES (%s, %s, %s, %s, %s)` clause included, where the
      intended message stops before that clause. */
  lemma AddEvaluationLogKeepsValues(e: Evaluation)
    requires e.id.VStr? && e.age.VStr? && e.gender.VStr? && e.impression.VStr? && e.ownerId.VStr?
    ensures InfoLog.MakeInfoLogAsWritten("db-insert", AddEvaluationSql, EvaluationValues(e)).Success?
    ensures InfoLog.LineHead("db-insert", AddEvaluationSql)
         <= InfoLog.MakeInfoLogAsWritten("db-insert", AddEvaluationSql, EvaluationValues(e)).value
    ensures InfoLog.SqlMessage(AddEvaluationSql) != AddEvaluationSql
    ensures |InfoLog.SqlMessage(AddEvaluationSql)| <= |AddEvaluationInto|
  {
    var n := |AddEvaluationInto|;
    assert AddEvaluationSql[n..n + 5] == AddEvaluationValuesClause[..5] == InfoLog.ValuesKeyword;
    assert AddEvaluationInto[0] == "INSERT INTO "[0] == 'I';
    assert AddEvaluationSql[0] == AddEvaluationInto[0];
    InfoLog.AsWrittenKeepsInsertValues(AddEvaluationSql, n);
    InfoLog.AsWrittenRaisesOnNumbers("db-insert", AddEvaluationSql, EvaluationValues(e));
  }

  /** Where no attribute is a number the log line is built and the insert
      behaves as the corrected one. */
  lemma AddEvaluationAsWrittenWithoutNumbers(db: Db, conn: Connection, e: Evaluation, now: Timestamp)
    requires Valid(db)
    requires forall i | 0 <= i < |EvaluationValues(e)| :: !IsNumber(EvaluationValues(e)[i])
    ensures AddEvaluationAsWritten(db, conn, e, now) == AddEvaluation(db, conn, e, now)
  {
    assert |AddEvaluationSql| > 0;
    InfoLog.AsWrittenRaisesOnNumbers("db-insert", AddEvaluationSql, EvaluationValues(e));
  }

  /** Where the new value is not a number the log line is built and the
      updates behave as the corrected ones. */
  lemma UpdateAsWrittenWithoutNumbers(db: Db, conn: Connection, id: string, field: string, value: SqlValue)
    requires Valid(db) && !IsNumber(value)
    ensures UpdateEvaluationAsWritten(db, conn, id, field, value) == UpdateEvaluation(db, conn, id, field, value)
    ensures UpdateAttemptAsWritten(db, conn, id, field, value) == UpdateAttempt(db, conn, id, field, value)
  {
    var vals := [value, VStr(id)];
    assert forall i | 0 <= i < |vals| :: !IsNumber(vals[i]);
    assert |UpdateEvaluationSql(field)| > 0 && |UpdateAttemptSql(field)| > 0;
    InfoLog.AsWrittenRaisesOnNumbers("db-update", UpdateEvaluationSql(field), vals);
    InfoLog.AsWrittenRaisesOnNumbers("db-update", UpdateAttemptSql(field), vals);
  }

  // ---------------------------------------------------------------------
  // How the operations fit together

  /** A newly added evaluation belongs to the user it names and nobody else,
      and has no threshold yet. */
  lemma AddedEvaluationIsOwned(db: Db, e: Evaluation, now: Timestamp, user: string)
    requires Valid(db) && AddEvaluation(db, Up, e, now).Success?
    ensures var after := AddEvaluation(db, Up, e, now).value;
      && (CheckIsOwner(after, Up, e.id.s, user) == Pass <==> e.ownerId == VStr(user))
      && (e.ownerId != VStr(user) ==>
            CheckIsOwner(after, Up, e.id.s, user) == Fail(Raised(PermissionDenied(e.id.s, user, None))))
      && GetThreshold(after, Up, e.id.s) == Success(VNone)
  {
  }

  /** A threshold written by `_update_evaluation` is what `_get_threshold`
      then reads, as a float. */
  lemma ThresholdUpdateIsRead(db: Db, id: string, x: real)
    requires Valid(db) && id in db.evaluations
    ensures UpdateEvaluation(db, Up, id, "ambiance_threshold", VFloat(x)).Success?
    ensures GetThreshold(UpdateEvaluation(db, Up, id, "ambiance_threshold", VFloat(x)).value, Up, id) == Success(VFloat(x))
  {
    assert EvaluationUpdateAllowed(db, id, ThresholdCol, VFloat(x));
    EvaluationPositionsFollowDdl();
  }

  /** Clearing an attempt's `include` flag stores 0, and the attempt then
      reads back as excluded; with `from_row` as written it would still read
      back as included. */
  lemma ExcludedAttemptReadsExcluded(db: Db, id: string)
    requires Valid(db) && id in db.attempts
    ensures UpdateAttempt(db, Up, id, "include", VBool(false)).Success?
    ensures var after := UpdateAttempt(db, Up, id, "include", VBool(false)).value;
      && id in after.attempts && after.attempts[id][IncludeCol] == VInt(0)
      && Decoded(after, id).included == VBool(false)
      && FromRowAsWritten(after.attempts[id]).value.included == VBool(true)
  {
    assert Coerce(AttemptColumns[IncludeCol], VBool(false)) == Some(VInt(0));
    assert AttemptUpdateAllowed(db, id, IncludeCol, VBool(false));
    AttemptPositionsFollowDdl();
  }

  /** Filing a row under a fresh key adds it to its evaluation's listing
      and to no other. */
  lemma InsertedRowIsListed(db: Db, key: string, row: Row, evaluationId: string, other: string)
    requires Valid(db) && key !in db.attempts
    requires Valid(db.(attempts := db.attempts[key := row]))
    requires |row| == |AttemptColumns| && row[ParentCol] == VStr(evaluationId)
    ensures AttemptKeysOf(db.(attempts := db.attempts[key := row]), evaluationId) == AttemptKeysOf(db, evaluationId) + {key}
    ensures other != evaluationId ==> AttemptKeysOf(db.(attempts := db.attempts[key := row]), other) == AttemptKeysOf(db, other)
  {
  }

  /** A newly added attempt is listed under its evaluation, and no other
      evaluation's listing changes. */
  lemma AddedAttemptIsListed(db: Db, a: Attempt, now: Timestamp, other: string)
    requires Valid(db) && AddAttempt(db, Up, a, now).Success?
    ensures var after := AddAttempt(db, Up, a, now).value;
      && AttemptKeysOf(after, a.evaluationId.s) == AttemptKeysOf(db, a.evaluationId.s) + {a.id.s}
      && (other != a.evaluationId.s ==> AttemptKeysOf(after, other) == AttemptKeysOf(db, other))
  {
    InsertedRowIsListed(db, a.id.s, AttemptRow(a, now), a.evaluationId.s, other);
  }

  /** A newly added attempt reads back with the attributes it was given
      (numbers as floats) and the server time. */
  lemma AddedAttemptReadsBack(db: Db, a: Attempt, now: Timestamp)
    requires Valid(db) && AddAttempt(db, Up, a, now).Success?
    ensures Decoded(AddAttempt(db, Up, a, now).value, a.id.s)
         == Attempt(a.id, a.evaluationId, a.word,
                    Coerce(AttemptColumns[WsdCol], a.wsd).value, Coerce(AttemptColumns[DurationCol], a.duration).value,
                    VDateTime(now))
  {
    var after := AddAttempt(db, Up, a, now).value;
    assert after.attempts[a.id.s] == AttemptRow(a, now);
  }

  /** `owner_id` is an ordinary column: updating it hands the evaluation to
      another user, who then passes the ownership gate. */
  lemma OwnerIsReassignable(db: Db, id: string, user: string)
    requires Valid(db) && id in db.evaluations && |user| <= 48
    ensures UpdateEvaluation(db, Up, id, "owner_id", VStr(user)).Success?
    ensures CheckIsOwner(UpdateEvaluation(db, Up, id, "owner_id", VStr(user)).value, Up, id, user) == Pass
  {
    assert EvaluationUpdateAllowed(db, id, OwnerIdCol, VStr(user));
    EvaluationPositionsFollowDdl();
  }
}
