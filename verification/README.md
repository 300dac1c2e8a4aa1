# Apraxiator evaluation storage and WSD calculation, in Dafny

This project models two parts of the apraxia-assessment service.

**The word-syllable-duration (WSD) calculator.** The calculator measures the
duration of a recorded word with one of three measurers (`filter`, `endpoint`,
`vad`). When the method name is none of theirs it takes the mean of all three.
The WSD is that duration divided by the syllable count.

**The evaluation half of the MySQL store `SQLStorage`.** This covers:
- adding evaluations and attempts;
- single-column updates by primary key;
- the threshold lookup;
- the attempt listing of an evaluation and the evaluation listing of an owner;
- the ownership gate;
- the log-line formatter that every statement goes through.

Next to the store, it models the `Attempt` object (constructor defaults,
`to_response`, `from_row`) and the storage exception taxonomy (resource not
found, permission denied, generic storage error, and their status codes).

The database is two tables, each a map from primary key to row. Rows are
sequences of cells in the order the `CREATE TABLE` statements declare them.
`Schema` turns those statements into column lists and states three things:
- what MySQL in strict mode stores for a parameter, or that it rejects it;
- how an `INSERT` that names only some columns fills the others from their
  defaults (`NULL`, `TRUE`, `CURRENT_TIMESTAMP`);
- where each column sits.

`SqlStorage.Valid` is the database invariant. Every row fits its table, every
key column holds its map key, and every attempt's `evaluation_id` names a
stored evaluation (the foreign key). Each store operation is a function or
method from a database, a `Connection` (`Up`, or `Down` when every statement
raises) and its arguments to either a new valid database or the error the
Python method raises. That error is either wrapped as a `ResourceAccess` error
carrying the resource id, or, where the code has no `try`, escapes unwrapped.

Four defects in the source are modelled twice: as written and as evidently
intended (see "## Findings"). The store operations (`AddEvaluation`,
`AddAttempt`, `UpdateEvaluation`, `UpdateAttempt`, `CheckIsOwner`,
`GetAttempts`) use the corrected definitions: a log formatter that does not
raise on numbers, exception constructors that construct, and a `from_row`
that keeps the `include` flag. The `...AsWritten` members show what the code
as it stands does instead.

Some behaviour of the code is easy to misread from its comments and names; the model follows the code:
- `calculate_wsd` takes `method='endpoint'` by default (calculatewsd.py:17).
  The comment at calculatewsd.py:32 calls averaging "the default", but that
  branch runs only for a name that is not in the measurer table. The docstring
  offers `'average'`, which is such a name.
- A zero syllable count raises `ZeroDivisionError` from the division at
  calculatewsd.py:42; nothing checks the count first.
- Neither listing query has an `ORDER BY`, so the order of its rows is the
  server's. The contracts promise every matching row exactly once and say
  nothing about order.
- `_update_evaluation` and `_update_attempt` format the field name into the
  statement with no allow-list, so `owner_id` (and even the primary key) can
  be updated. `SqlStorage.OwnerIsReassignable` states this. A field that names
  no column is an error.
- `_check_is_owner` has no `try`: a lost connection escapes as a raw error,
  and so does the TypeError of indexing the `None` fetched for an absent
  evaluation.
- `_get_threshold` runs its query inside its `try`, so a lost connection
  becomes `ResourceAccessException`. It indexes the fetched row outside the
  `try`, so an absent evaluation escapes as the raw TypeError.
- None of the modelled methods raises `ResourceNotFoundException`.
- An update whose key matches no row changes nothing and succeeds.

## Model

| member | source | states |
|---|---|---|
| Schema.FirstIndex | wsdcalculator/storage/sqlstorage.py:33 | which parameter an INSERT's column list (here and at sqlstorage.py:64) gives a column: the position found holds the element and no earlier one does; nothing is found exactly when the element is absent |
| Schema.IndexOf | wsdcalculator/storage/sqlstorage.py:215-237 | a resolved column name is the name of the column at that position; an unresolved name is no column's name |
| Schema.IndexOfFirst | wsdcalculator/storage/sqlstorage.py:215-237 | no column before the resolved one has the name |
| Schema.IndexOfIsFirstIndex | wsdcalculator/storage/sqlstorage.py:215-237 | resolving a column name is finding its first occurrence among the declared column names |
| Schema.EvaluationPositionsFollowDdl | wsdcalculator/storage/sqlstorage.py:215-224 | each evaluations position constant is where the DDL declares that column |
| Schema.AttemptPositionsFollowDdl | wsdcalculator/storage/sqlstorage.py:226-237 | each attempts position constant is where the DDL declares that column |
| Schema.Coerce | wsdcalculator/storage/sqlstorage.py:215-237 | the server stores only values the column can hold, stores a holdable value unchanged, takes a varchar exactly when it is a string within the width, and takes NULL exactly in a nullable column |
| Schema.DdlIsConsistent | wsdcalculator/storage/sqlstorage.py:221-233 | every declared default (NULL, TRUE, CURRENT_TIMESTAMP) is a value its column can hold |
| Schema.InsertCell | wsdcalculator/storage/sqlstorage.py:221-233 | a named column gets its parameter as the column coerces it; an omitted column gets its default; the cell fits a consistent column |
| Schema.InsertRow | wsdcalculator/storage/sqlstorage.py:215-237 | an INSERT yields a row exactly when every cell is accepted; the row has one cell per column, each the cell the statement gives it, and it fits the table |
| Schema.InsertRowRejects | wsdcalculator/storage/sqlstorage.py:215-237 | one rejected cell rejects the whole INSERT |
| SqlStorage.ValidKeysHold | wsdcalculator/storage/sqlstorage.py:215-237 | in a valid store no two evaluations and no two attempts share a primary-key cell, and every attempt's evaluation_id is the key cell of a stored evaluation |
| SqlStorage.EvaluationNamesResolve | wsdcalculator/storage/sqlstorage.py:33 | the column list of the evaluation INSERT resolves to the positions the model files the values under |
| SqlStorage.EvaluationInsertRow | wsdcalculator/storage/sqlstorage.py:33-34 | the evaluation INSERT stores the five attributes, a NULL threshold and the server time, or is rejected |
| SqlStorage.EvaluationAcceptedExactly | wsdcalculator/storage/sqlstorage.py:216-220 | an evaluation is accepted exactly when its five attributes are strings of at most 48, 16, 16, 255 and 48 characters |
| SqlStorage.AddEvaluation | wsdcalculator/storage/sqlstorage.py:32-40 | succeeds exactly when the server is up, the attributes are accepted and the id is new; the new store is valid, adds only that row, leaves attempts alone and has no threshold; every failure is ResourceAccess carrying the id |
| SqlStorage.AttemptNamesResolve | wsdcalculator/storage/sqlstorage.py:64 | the column list of the attempt INSERT resolves to the positions the model files the values under |
| SqlStorage.AttemptInsertRow | wsdcalculator/storage/sqlstorage.py:64-65 | the attempt INSERT stores the five attributes (numbers as floats), include 1 and the server time, or is rejected |
| SqlStorage.AttemptAcceptedExactly | wsdcalculator/storage/sqlstorage.py:227-231 | an attempt is accepted exactly when both ids and the word are strings of at most 48 characters and wsd and duration are numbers |
| SqlStorage.AddAttempt | wsdcalculator/storage/sqlstorage.py:63-71 | succeeds exactly when the server is up, the attributes are accepted, the attempt id is new and the evaluation exists (the foreign key); the new store is valid, adds only that row with include set, and leaves evaluations alone; every failure is ResourceAccess carrying the attempt id |
| SqlStorage.UpdateEvaluation | wsdcalculator/storage/sqlstorage.py:42-50 | succeeds exactly when the server is up, the field names a column, and the new value is accepted with a key change to a fresh key that no attempt references; an absent id changes nothing; otherwise only that cell changes (the row moves when the key changes) and the store stays valid |
| SqlStorage.UpdateAttempt | wsdcalculator/storage/sqlstorage.py:87-95 | the same for attempts, where a new evaluation_id must name an existing evaluation |
| SqlStorage.GetThreshold | wsdcalculator/storage/sqlstorage.py:52-61 | returns the stored threshold, NULL or a float; a lost connection is ResourceAccess; an absent evaluation escapes as the TypeError of indexing None |
| SqlStorage.Decoded | wsdcalculator/storage/sqlstorage.py:82-83 | a stored attempt decodes with its own key as id, its evaluation as evaluationId, and included exactly when its flag is not 0 (with `from_row` corrected) |
| SqlStorage.Enumerate | wsdcalculator/storage/sqlstorage.py:142-146 | a result set delivers each matching key exactly once and no other |
| SqlStorage.GetAttempts | wsdcalculator/storage/sqlstorage.py:73-85 | fails exactly when the connection is down, as ResourceAccess of the evaluation id; otherwise lists every attempt of that evaluation exactly once, decoded, and nothing else (with `from_row` corrected) |
| SqlStorage.ListedNamesResolve | wsdcalculator/storage/sqlstorage.py:99 | the six names of the select list resolve to every evaluations column but the threshold, in select order |
| SqlStorage.Listed | wsdcalculator/storage/sqlstorage.py:99 | cell j of a listed evaluation is its stored cell at the j-th selected position; the first is the key and the fifth the owner |
| SqlStorage.ListedFollowsSelect | wsdcalculator/storage/sqlstorage.py:99 | cell j of a listed evaluation is the stored cell of the column the j-th selected name resolves to |
| SqlStorage.GetEvaluations | wsdcalculator/storage/sqlstorage.py:98-110 | fails exactly when the connection is down, as ResourceAccess naming "evaluations for" the owner; otherwise lists every evaluation the owner has exactly once and nobody else's |
| SqlStorage.CheckIsOwner | wsdcalculator/storage/sqlstorage.py:112-120 | passes exactly for the owner of an existing evaluation; any other user of an existing evaluation gets PermissionDenied naming the evaluation and the user; an absent evaluation and a lost connection escape unwrapped |
| SqlStorage.CheckIsOwnerAsWritten | wsdcalculator/storage/sqlstorage.py:112-120 | as written the gate passes exactly the owner of an existing evaluation; another user gets the TypeError of the exception's constructor; an absent evaluation and a lost connection escape unwrapped |
| SqlStorage.CheckIsOwnerAsWrittenNeverDenies | wsdcalculator/storage/sqlstorage.py:116-118 | as written the gate never raises a storage exception; a non-owner gets the constructor's TypeError; the owner still passes |
| SqlStorage.AddEvaluationAsWritten | wsdcalculator/storage/sqlstorage.py:32-39 | as written the insert either agrees with the intended one or fails with ResourceAccess of the id; it succeeds exactly when the intended one does and no attribute is a number |
| SqlStorage.AddAttemptAsWritten | wsdcalculator/storage/sqlstorage.py:63-71 | as written the insert either agrees with the intended one or fails with ResourceAccess of the attempt id; it succeeds exactly when the intended one does and no attribute is a number |
| SqlStorage.UpdateEvaluationAsWritten | wsdcalculator/storage/sqlstorage.py:42-49 | as written the update either agrees with the intended one or fails with ResourceAccess of the id; it succeeds exactly when the intended one does and the new value is not a number |
| SqlStorage.UpdateAttemptAsWritten | wsdcalculator/storage/sqlstorage.py:87-95 | as written the update either agrees with the intended one or fails with ResourceAccess of the id; it succeeds exactly when the intended one does and the new value is not a number |
| SqlStorage.AddEvaluationLogKeepsValues | wsdcalculator/storage/sqlstorage.py:33 | as written an evaluation of string attributes is logged with the whole INSERT, its VALUES clause included, while the intended message stops before that clause |
| SqlStorage.AddAttemptAsWrittenAlwaysFails | wsdcalculator/storage/sqlstorage.py:63-71 | as written every attempt insert the model accepts fails with ResourceAccess, because such an attempt always has an int, float or bool among its parameters |
| SqlStorage.UpdateAsWrittenRejectsNumbers | wsdcalculator/storage/sqlstorage.py:130-131 | as written an update to an int, float or bool fails with ResourceAccess before the statement runs |
| SqlStorage.AddEvaluationAsWrittenWithoutNumbers | wsdcalculator/storage/sqlstorage.py:124-125 | as written an evaluation with no numeric attribute is added exactly as intended |
| SqlStorage.UpdateAsWrittenWithoutNumbers | wsdcalculator/storage/sqlstorage.py:130-134 | as written an update to a non-numeric value behaves exactly as intended |
| SqlStorage.AddedEvaluationIsOwned | wsdcalculator/storage/sqlstorage.py:112-120 | after adding an evaluation, the gate passes exactly its named owner, denies everyone else, and its threshold reads NULL |
| SqlStorage.ThresholdUpdateIsRead | wsdcalculator/storage/sqlstorage.py:52-61 | a float written to ambiance_threshold is the value the threshold lookup then returns |
| SqlStorage.ExcludedAttemptReadsExcluded | wsdcalculator/storage/sqlstorage.py:87-95 | clearing include stores 0 and the attempt decodes as excluded, while from_row as written still reads it as included |
| SqlStorage.InsertedRowIsListed | wsdcalculator/storage/sqlstorage.py:74 | a row filed under a fresh key joins its evaluation's listing and no other |
| SqlStorage.AddedAttemptIsListed | wsdcalculator/storage/sqlstorage.py:63-85 | an added attempt appears in its evaluation's listing, and no other evaluation's listing changes |
| SqlStorage.AddedAttemptReadsBack | wsdcalculator/storage/sqlstorage.py:63-85 | an added attempt decodes to the attributes it was given (numbers as floats), included, with the server time |
| SqlStorage.OwnerIsReassignable | wsdcalculator/storage/sqlstorage.py:42-46 | updating owner_id with a short enough string succeeds and the new user passes the gate |
| InfoLog.Before | wsdcalculator/storage/sqlstorage.py:281 | the intended split prefix: a prefix of the statement with no earlier occurrence of the separator, ending at one unless it is the whole statement |
| InfoLog.Split | wsdcalculator/storage/sqlstorage.py:281 | Python's str.split with maxsplit: at least one piece, and at most maxsplit + 1 of them when maxsplit is not negative |
| InfoLog.SplitHead | wsdcalculator/storage/sqlstorage.py:281 | the first piece is the whole string for maxsplit 0 and the part before the first separator otherwise |
| InfoLog.JoinSplit | wsdcalculator/storage/sqlstorage.py:281 | joining the pieces with the separator gives back the string, for every maxsplit |
| InfoLog.SplitJoin | wsdcalculator/storage/sqlstorage.py:286 | splitting pieces joined by a one-character separator none of them contains gives back the pieces |
| InfoLog.SqlMessageAsWritten | wsdcalculator/storage/sqlstorage.py:280-285 | as written an INSERT, SELECT or UPDATE is logged whole and anything else as "unrecognized sql" |
| InfoLog.MakeInfoLogAsWritten | wsdcalculator/storage/sqlstorage.py:270-286 | as written a line is built only for a non-empty statement with no number among the parameters, and it starts with the event and the statement as written |
| InfoLog.AsWrittenRaisesOnNumbers | wsdcalculator/storage/sqlstorage.py:273-286 | as written the formatter raises exactly when the statement is empty or a parameter is an int, float or bool |
| InfoLog.AsWrittenKeepsInsertValues | wsdcalculator/storage/sqlstorage.py:280-281 | as written an INSERT with a VALUE clause is logged with it, unlike the intended message, which stops before it |
| InfoLog.SqlMessage | wsdcalculator/storage/sqlstorage.py:280-285 | as intended an INSERT is logged up to its first VALUE; SELECT and UPDATE whole; anything else as "unrecognized sql" |
| InfoLog.MakeInfoLog | wsdcalculator/storage/sqlstorage.py:270-286 | as intended the formatter fails only on an empty statement, with the IndexError of sql[0]; a line starts with the event and the intended message and ends with the closing bracket |
| InfoLog.LoggedValsAreParameters | wsdcalculator/storage/sqlstorage.py:273-286 | as intended the vals part of the line splits at '-' into the rendering of each parameter, in order |
| InfoLog.CorrectedAgreesWithAsWritten | wsdcalculator/storage/sqlstorage.py:270-286 | wherever the formatter as written succeeds and meets no VALUE clause, the intended one prints the same line |
| AttemptModel.ConstructorDefaults | wsdcalculator/models/attempt.py:2-9 | an attempt built without the trailing arguments has no creation date and is included |
| AttemptModel.ToResponse | wsdcalculator/models/attempt.py:11-21 | the response has exactly the seven keys, each bound to its attribute |
| AttemptModel.ResponseRoundTrip | wsdcalculator/models/attempt.py:11-21 | an attempt can be read back from its response: nothing is lost |
| AttemptModel.FromRowAsWritten | wsdcalculator/models/attempt.py:24-27 | as written a seven-cell row decodes, any other length raises, and the attempt is always included |
| AttemptModel.FromRow | wsdcalculator/models/attempt.py:24-27 | as intended a seven-cell row decodes with included equal to bool of the include cell; any other length raises |
| AttemptModel.FromRowFollowsDdl | wsdcalculator/models/attempt.py:25 | each decoded attribute is the cell of the attempts column of that name; a stored flag reads as set exactly when it is not 0 |
| AttemptModel.AsWrittenDiffersOnlyInInclude | wsdcalculator/models/attempt.py:26-27 | the decoding as written and as intended differ in the include flag alone |
| AttemptModel.AsWrittenIgnoresInclude | wsdcalculator/models/attempt.py:26-27 | as written the include cell does not affect the decoded attempt, so a stored 0 reads as included; as intended it reads as excluded |
| AttemptModel.RowToResponse | wsdcalculator/models/attempt.py:11-27 | the response to a decoded row carries each cell under its key |
| StorageExceptions.Code | wsdcalculator/storage/storageexceptions.py:10-34 | the code is 500, 404 or 403, and a 4xx code exactly for the two subclasses |
| StorageExceptions.Message | wsdcalculator/storage/storageexceptions.py:7-31 | the generic message is fixed; the not-found message is "Resource ", the resource id, " Not Found"; the permission message's length is the template's plus both ids |
| StorageExceptions.CodesIdentifyKinds | wsdcalculator/storage/storageexceptions.py:3-34 | the status code tells the kinds apart: 500 storage error, 404 not found, 403 permission denied |
| StorageExceptions.NotFoundMessageNamesResource | wsdcalculator/storage/storageexceptions.py:18-19 | two not-found messages are equal only when they name the same resource |
| StorageExceptions.PermissionMessageShape | wsdcalculator/storage/storageexceptions.py:30-31 | the permission message names the user, then the resource |
| StorageExceptions.AsWrittenConstructorsRaise | wsdcalculator/storage/storageexceptions.py:13-28 | as written both constructors raise TypeError for every argument, because `super` is handed None or an exception object, never a class |
| StorageExceptions.NewResourceNotFound | wsdcalculator/storage/storageexceptions.py:13-22 | as intended the exception is built, names the resource, carries the cause and has code 404 |
| StorageExceptions.NewPermissionDenied | wsdcalculator/storage/storageexceptions.py:24-34 | as intended the exception is built, names resource and user, carries the cause and has code 403 |
| WsdCalculator.Lookup | wsdcalculator/calculatewsd.py:31 | a name is found exactly when some entry has it, and the value found is that entry's |
| WsdCalculator.LookupSelects | wsdcalculator/calculatewsd.py:9-14 | exactly the three method names select a measurer, each its own |
| WsdCalculator.CalculateWsd | wsdcalculator/calculatewsd.py:17-45 | fails exactly on a zero syllable count; otherwise returns the duration the method stands for, and a WSD that times the syllable count gives the duration |
| WsdCalculator.KnownMethodIgnoresOthers | wsdcalculator/calculatewsd.py:38-39 | with a known method the duration is that measurer's output, whatever the other two return |
| WsdCalculator.UnknownMethodAverages | wsdcalculator/calculatewsd.py:33-37 | any other name, "average" among them, gives the sum of all measurers' outputs over three |
| WsdCalculator.DefaultIsEndpoint | wsdcalculator/calculatewsd.py:17 | leaving out the method uses the endpoint measurer alone |
| WsdCalculator.DurationIsBounded | wsdcalculator/calculatewsd.py:31-39 | whatever the method, the duration lies within any bounds the three outputs share |
| WsdCalculator.EqualOutputsAverageToThem | wsdcalculator/calculatewsd.py:33-39 | when the three outputs agree, every method gives that value |

## Left out

- The pymysql connection, cursors, commits, `is_healthy` and `_create_tables`: a `Connection` parameter stands for whether the server answers. A connection lost between `execute` and `commit` is not distinguished.
- The logger: only the text `_make_info_log` builds, and whether building it raises, are modelled.
- Recording and waiver storage, which are outside the evaluation store.
- The `recordings` foreign key on `attempt_id`, for the same reason.
- SqlStorage.UpdateAttempt: allows changing an attempt's key even when recordings reference it, where MySQL would refuse. The recordings table is not part of this model.
- Decoding a recording and the three measurers' signal processing: they are parameters of `Calculator` and `Audio`.
- Python floats: durations and stored floats are exact reals. The 32-bit rounding of MySQL `float` columns is not modelled.
- Schema.Coerce: strict MySQL converts some parameters that the model rejects, so the model accepts fewer values than the server does:
  - a number for a varchar column;
  - a string for a float or datetime column;
  - a string or a float for the boolean `include` column, where MySQL stores '1' as 1 and rounds 1.0;
  - a datetime for a varchar column.
  It also does not bound the range of a FLOAT column.
- The server's collation: keys and the `WHERE` filters (`owner_id = %s` of `_get_evaluations`, `evaluation_id = %s` of `_get_attempts`) compare exactly, where MySQL's default collation ignores case and trailing spaces. The model therefore misses an inconsistency of the source: `_get_evaluations('alice')` also lists evaluations owned by `'Alice'`, which `_check_is_owner(…, 'alice')` then denies, because it compares in Python, exactly.
- Concurrency and transactions across statements.
- SQL text interpolated through `field` is not parsed. A field that is not exactly a column name is an unknown column, so SQL injection through it is not modelled. MySQL column names ignore case and may be backquoted, so `_update_evaluation(id, 'Impression', v)` succeeds on the server and fails in the model.
- SqlStorage.AddAttemptAsWrittenAlwaysFails: covers only the attempts the model accepts. The server also stores a numeric string such as `'12.5'` in the float columns `wsd` and `duration`, and the log line joins strings without error, so an attempt whose `wsd` and `duration` are strings is stored by the source. `Schema.Coerce` rejects those strings.
- `Evaluation.from_row` (models/evaluation.py is not part of this model). GetEvaluations returns the selected cells of each row.
- The `ResourceAccessException` and `ConnectionException` classes (storage/dbexceptions.py is not part of this model). The wrapped cause is dropped, and only the resource id is kept.
- Logging and `__init__` of the calculator, other than the measurer table.
## Findings

| source | as written | input that shows it | evidently intended | confidence | as-written member | corrected member |
|---|---|---|---|---|---|---|
| wsdcalculator/storage/sqlstorage.py:273-286 | ints, floats and bools are appended unconverted, then `'-'.join` raises TypeError, inside the caller's `try` | `_add_attempt` of an attempt whose wsd or duration is an int, float or bool, as `calculate_wsd`'s results always are: it raises ResourceAccessException and stores nothing | render each parameter as text | not executed | SqlStorage.AddAttemptAsWrittenAlwaysFails | InfoLog.MakeInfoLog |
| wsdcalculator/storage/sqlstorage.py:281 | `sql.split('VALUE', 0)[0]`: a maxsplit of 0 does not split | `_add_evaluation` of an evaluation whose five attributes are strings logs the whole INSERT, `VALUES (%s, %s, %s, %s, %s)` included | log the statement up to VALUE | not executed | SqlStorage.AddEvaluationLogKeepsValues | InfoLog.SqlMessage |
| wsdcalculator/storage/storageexceptions.py:26 | `super(inner_error)` raises TypeError for None and for an exception object | `_check_is_owner` of an existing evaluation by another user raises TypeError, not PermissionDeniedException | `super().__init__(inner_error)` | not executed | SqlStorage.CheckIsOwnerAsWrittenNeverDenies | StorageExceptions.NewPermissionDenied |
| wsdcalculator/storage/storageexceptions.py:15 | the same call in ResourceNotFoundException | `ResourceNotFoundException('e1')` raises TypeError | `super().__init__(inner_error)` | not executed | StorageExceptions.AsWrittenConstructorsRaise | StorageExceptions.NewResourceNotFound |
| wsdcalculator/models/attempt.py:26-27 | `bool(include)` is computed and then not passed to the constructor | a row whose include cell is 0 decodes to an attempt with include True | pass `include` to `Attempt` | not executed | AttemptModel.AsWrittenIgnoresInclude | AttemptModel.FromRow |
