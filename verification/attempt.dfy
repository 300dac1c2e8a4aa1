/** The `Attempt` model object: its constructor, its decoding from an
    `attempts` row and its encoding as the response record the API returns. */
module AttemptModel {
  import opened Wrappers
  import opened SqlValues
  import opened Schema

  /** An attempt. Its attributes hold whatever the constructor was given, so
      they are dynamically typed; `date_created` defaults to None and
      `include` to True. */
  datatype Attempt = Attempt(
    id: SqlValue,
    evaluationId: SqlValue,
    word: SqlValue,
    wsd: SqlValue,
    duration: SqlValue,
    dateCreated: SqlValue := VNone,
    included: SqlValue := VBool(true))

  /** The response record `to_response` builds, a JSON object. */
  type Response = map<string, SqlValue>

  const ResponseKeys: set<string> :=
    {"attemptId", "evaluationId", "word", "wsd", "duration", "include", "dateCreated"}

  /** Leaving out the two trailing arguments gives no creation date and
      counts the attempt in. */
  lemma ConstructorDefaults(id: SqlValue, evaluationId: SqlValue, word: SqlValue, wsd: SqlValue, duration: SqlValue)
    ensures Attempt(id, evaluationId, word, wsd, duration).dateCreated == VNone
    ensures Attempt(id, evaluationId, word, wsd, duration).included == VBool(true)
  {
  }

  /** `to_response()`: seven keys, each bound to the attribute of that name. */
  function ToResponse(a: Attempt): (r: Response)
    ensures r.Keys == ResponseKeys && |r| == 7
    ensures r["attemptId"] == a.id && r["evaluationId"] == a.evaluationId
    ensures r["word"] == a.word && r["wsd"] == a.wsd && r["duration"] == a.duration
    ensures r["include"] == a.included && r["dateCreated"] == a.dateCreated
  {
    map["attemptId" := a.id,
        "evaluationId" := a.evaluationId,
        "word" := a.word,
        "wsd" := a.wsd,
        "duration" := a.duration,
        "include" := a.included,
        "dateCreated" := a.dateCreated]
  }

  /** Reads an attempt back from its response record. */
  function FromResponse(r: Response): Option<Attempt> {
    if ResponseKeys <= r.Keys then
      Some(Attempt(r["attemptId"], r["evaluationId"], r["word"], r["wsd"], r["duration"],
                   r["dateCreated"], r["include"]))
    else None
  }

  /** The response record loses nothing: every attribute can be read back. */
  lemma ResponseRoundTrip(a: Attempt)
    ensures FromResponse(ToResponse(a)) == Some(a)
  {
  }

  /** Unpacking a row into seven names raises ValueError on any other length. */
  datatype RowError = WrongArity(found: nat)

  /** Python's `bool(v)`: empty strings, zeros and None are false. */
  predicate Truthy(v: SqlValue) {
    match v
    case VStr(s) => |s| > 0
    case VInt(i) => i != 0
    case VFloat(x) => x != 0.0
    case VBool(b) => b
    case VNone => false
    case VDateTime(_) => true
  }

  /** `from_row(row)` as the code stands: the cells are unpacked positionally
      as (evaluation_id, word, id, wsd, duration, include, date_created), but
      the converted `include` is never passed on, so the attempt takes the
      constructor's default. */
  function FromRowAsWritten(row: seq<SqlValue>): (r: Result<Attempt, RowError>)
    ensures r.Success? <==> |row| == 7
    ensures r.Failure? ==> r.error == WrongArity(|row|)
    ensures r.Success? ==> r.value.included == VBool(true)
  {
    if |row| != 7 then Failure(WrongArity(|row|))
    else Success(Attempt(row[2], row[0], row[1], row[3], row[4], row[6]))
  }

  /** `from_row(row)` as intended: the attempt carries `bool(include)`. */
  function FromRow(row: seq<SqlValue>): (r: Result<Attempt, RowError>)
    ensures r.Success? <==> |row| == 7
    ensures r.Failure? ==> r.error == WrongArity(|row|)
    ensures r.Success? ==> r.value.included == VBool(Truthy(row[IncludeCol]))
  {
    if |row| != 7 then Failure(WrongArity(|row|))
    else
      var (evaluationId, word, id, wsd, duration, includeCell, dateCreated) :=
        (row[0], row[1], row[2], row[3], row[4], row[5], row[6]);
      Success(Attempt(id, evaluationId, word, wsd, duration, dateCreated, VBool(Truthy(includeCell))))
  }

  /** Each attribute `from_row` fills comes from the column of the same name
      in the `attempts` table, and a stored flag reads back as set exactly
      when it is not 0. */
  lemma FromRowFollowsDdl(row: seq<SqlValue>)
    requires |row| == |AttemptColumns|
    ensures FromRow(row).Success?
    ensures FromRow(row).value.evaluationId == row[IndexOf(AttemptColumns, "evaluation_id").value]
    ensures FromRow(row).value.word == row[IndexOf(AttemptColumns, "word").value]
    ensures FromRow(row).value.id == row[IndexOf(AttemptColumns, "attempt_id").value]
    ensures FromRow(row).value.wsd == row[IndexOf(AttemptColumns, "wsd").value]
    ensures FromRow(row).value.duration == row[IndexOf(AttemptColumns, "duration").value]
    ensures FromRow(row).value.dateCreated == row[IndexOf(AttemptColumns, "date_created").value]
    ensures Stored(AttemptColumns[IncludeCol], row[IncludeCol])
      ==> FromRow(row).value.included == VBool(row[IncludeCol] != VInt(0))
  {
    AttemptPositionsFollowDdl();
  }

  /** The two readings differ in the flag alone. */
  lemma AsWrittenDiffersOnlyInInclude(row: seq<SqlValue>)
    requires |row| == 7
    ensures FromRowAsWritten(row).value == FromRow(row).value.(included := VBool(true))
  {
  }

  /** As written, rows that differ only in their `include` cell decode to
      the same attempt, so an excluded attempt (a stored 0) reads back as
      included; as intended it reads back as excluded. */
  lemma AsWrittenIgnoresInclude(row: seq<SqlValue>, cell: SqlValue)
    requires |row| == 7
    ensures FromRowAsWritten(row[IncludeCol := cell]) == FromRowAsWritten(row)
    ensures FromRowAsWritten(row[IncludeCol := VInt(0)]).value.included == VBool(true)
    ensures FromRow(row[IncludeCol := VInt(0)]).value.included == VBool(false)
  {
  }

  /** The response to a decoded row, key by key. */
  lemma RowToResponse(row: seq<SqlValue>)
    requires |row| == 7
    ensures var r := ToResponse(FromRow(row).value);
      && r["attemptId"] == row[2] && r["evaluationId"] == row[0] && r["word"] == row[1]
      && r["wsd"] == row[3] && r["duration"] == row[4] && r["dateCreated"] == row[6]
      && r["include"] == VBool(Truthy(row[5]))
  {
  }
}
