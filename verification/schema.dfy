/** The `evaluations` and `attempts` tables as their CREATE TABLE statements
    declare them, and the part of MySQL's statement semantics the store relies
    on: which values a column accepts, what it stores for them, and how an
    INSERT that names only some columns fills the rest from their defaults.

    A row is the sequence of its cells in declaration order, which is also the
    order `SELECT *` returns them in. */
module Schema {
  import opened Wrappers
  import opened SqlValues

  datatype ColumnType =
    | VarChar(width: nat)  // varchar(n)
    | Float                // float
    | Boolean              // boolean, i.e. tinyint(1)
    | DateTime             // datetime

  datatype Default =
    | NoDefault     // the column must be given a value
    | DefaultNull   // DEFAULT NULL
    | DefaultTrue   // DEFAULT TRUE
    | DefaultNow    // DEFAULT CURRENT_TIMESTAMP

  datatype Column = Column(name: string, ty: ColumnType, nullable: bool, default: Default)

  type Row = seq<SqlValue>

  /** `CREATE TABLE evaluations`. */
  const EvaluationColumns: seq<Column> := [
    Column("evaluation_id", VarChar(48), false, NoDefault),
    Column("age", VarChar(16), false, NoDefault),
    Column("gender", VarChar(16), false, NoDefault),
    Column("impression", VarChar(255), false, NoDefault),
    Column("owner_id", VarChar(48), false, NoDefault),
    Column("ambiance_threshold", Float, true, DefaultNull),
    Column("date_created", DateTime, false, DefaultNow)
  ]

  /** `CREATE TABLE attempts`. */
  const AttemptColumns: seq<Column> := [
    Column("evaluation_id", VarChar(48), false, NoDefault),
    Column("word", VarChar(48), false, NoDefault),
    Column("attempt_id", VarChar(48), false, NoDefault),
    Column("wsd", Float, false, NoDefault),
    Column("duration", Float, false, NoDefault),
    Column("include", Boolean, false, DefaultTrue),
    Column("date_created", DateTime, false, DefaultNow)
  ]

  // Positions of the evaluations columns.
  const EvaluationIdCol: nat := 0    // PRIMARY KEY
  const AgeCol: nat := 1
  const GenderCol: nat := 2
  const ImpressionCol: nat := 3
  const OwnerIdCol: nat := 4
  const ThresholdCol: nat := 5
  const EvaluationCreatedCol: nat := 6

  // Positions of the attempts columns.
  const ParentCol: nat := 0          // FOREIGN KEY to evaluations.evaluation_id
  const WordCol: nat := 1
  const AttemptIdCol: nat := 2       // PRIMARY KEY
  const WsdCol: nat := 3
  const DurationCol: nat := 4
  const IncludeCol: nat := 5
  const AttemptCreatedCol: nat := 6

  /** The position of the first occurrence of `x` in `xs`. */
  function FirstIndex<T(==)>(xs: seq<T>, x: T): (r: Option<nat>)
    ensures r.Some? ==> r.value < |xs| && xs[r.value] == x
    ensures r.Some? ==> forall j | 0 <= j < r.value :: xs[j] != x
    ensures r.None? <==> x !in xs
  {
    if |xs| == 0 then None
    else if xs[0] == x then Some(0)
    else match FirstIndex(xs[1..], x)
      case None => None
      case Some(j) =>
        assert forall i | 1 <= i <= j :: xs[i] == xs[1..][i - 1];
        Some(j + 1)
  }

  /** How a column name of a statement resolves: the first column of exactly
      that name. MySQL also ignores case in column names and accepts them
      backquoted; neither is modelled. */
  function IndexOf(columns: seq<Column>, name: string): (r: Option<nat>)
    ensures r.Some? ==> r.value < |columns| && columns[r.value].name == name
    ensures r.None? ==> forall j :: 0 <= j < |columns| ==> columns[j].name != name
  {
    if |columns| == 0 then None
    else if columns[0].name == name then Some(0)
    else match IndexOf(columns[1..], name)
      case None => None
      case Some(j) => Some(j + 1)
  }

  /** No column before the resolved one has the name. */
  lemma {:induction false} IndexOfFirst(columns: seq<Column>, name: string)
    requires IndexOf(columns, name).Some?
    ensures forall j | 0 <= j < IndexOf(columns, name).value :: columns[j].name != name
  {
    if columns[0].name != name {
      IndexOfFirst(columns[1..], name);
      assert forall i | 1 <= i < |columns| :: columns[i] == columns[1..][i - 1];
    }
  }

  /** The names of the columns, in declaration order. */
  function ColumnNames(columns: seq<Column>): seq<string> {
    seq(|columns|, i requires 0 <= i < |columns| => columns[i].name)
  }

  /** An element found at `i` and at no earlier position is first found there. */
  lemma {:induction false} FirstIndexAt<T>(xs: seq<T>, x: T, i: nat)
    requires i < |xs| && xs[i] == x
    requires forall j | 0 <= j < i :: xs[j] != x
    ensures FirstIndex(xs, x) == Some(i)
  {
    if i > 0 {
      assert forall j | 0 <= j < i - 1 :: xs[1..][j] == xs[j + 1];
      FirstIndexAt(xs[1..], x, i - 1);
    }
  }

  /** Resolving a column name is finding it first among the column names. */
  lemma IndexOfIsFirstIndex(columns: seq<Column>, name: string)
    ensures IndexOf(columns, name) == FirstIndex(ColumnNames(columns), name)
  {
    var names := ColumnNames(columns);
    assert forall j | 0 <= j < |columns| :: names[j] == columns[j].name;
    var r := IndexOf(columns, name);
    if r.Some? {
      IndexOfFirst(columns, name);
      FirstIndexAt(names, name, r.value);
    } else {
      assert name !in names;
    }
  }

  /** The position constants name the columns the DDL declares there. */
  lemma EvaluationPositionsFollowDdl()
    ensures IndexOf(EvaluationColumns, "evaluation_id") == Some(EvaluationIdCol)
    ensures IndexOf(EvaluationColumns, "age") == Some(AgeCol)
    ensures IndexOf(EvaluationColumns, "gender") == Some(GenderCol)
    ensures IndexOf(EvaluationColumns, "impression") == Some(ImpressionCol)
    ensures IndexOf(EvaluationColumns, "owner_id") == Some(OwnerIdCol)
    ensures IndexOf(EvaluationColumns, "ambiance_threshold") == Some(ThresholdCol)
    ensures IndexOf(EvaluationColumns, "date_created") == Some(EvaluationCreatedCol)
  {
  }

  lemma AttemptPositionsFollowDdl()
    ensures IndexOf(AttemptColumns, "evaluation_id") == Some(ParentCol)
    ensures IndexOf(AttemptColumns, "word") == Some(WordCol)
    ensures IndexOf(AttemptColumns, "attempt_id") == Some(AttemptIdCol)
    ensures IndexOf(AttemptColumns, "wsd") == Some(WsdCol)
    ensures IndexOf(AttemptColumns, "duration") == Some(DurationCol)
    ensures IndexOf(AttemptColumns, "include") == Some(IncludeCol)
    ensures IndexOf(AttemptColumns, "date_created") == Some(AttemptCreatedCol)
  {
  }

  /** `v` is a value the column can hold as stored: a string within the
      width, a float, a TINYINT, a DATETIME, or NULL where NULL is allowed. */
  predicate Stored(c: Column, v: SqlValue) {
    match v
    case VNone => c.nullable
    case VStr(s) => c.ty.VarChar? && |s| <= c.ty.width
    case VFloat(_) => c.ty.Float?
    case VInt(i) => c.ty.Boolean? && -128 <= i <= 127
    case VDateTime(_) => c.ty.DateTime?
    case VBool(_) => false
  }

  /** What a column stores for a parameter, or None when the server rejects
      it (strict SQL mode: NULL into NOT NULL, an over-long string, a value of
      the wrong kind). pymysql sends a bool as 1 or 0. */
  function Coerce(c: Column, v: SqlValue): (r: Option<SqlValue>)
    ensures r.Some? ==> Stored(c, r.value)
    ensures Stored(c, v) ==> r == Some(v)
    ensures c.ty.VarChar? ==> r == (if Stored(c, v) then Some(v) else None)
    ensures v.VNone? ==> (r.Some? <==> c.nullable)
  {
    if v.VNone? then (if c.nullable then Some(VNone) else None)
    else match c.ty
      case VarChar(w) => if v.VStr? && |v.s| <= w then Some(v) else None
      case Float =>
        if v.VFloat? then Some(v)
        else if v.VInt? then Some(VFloat(v.i as real))
        else if v.VBool? then Some(VFloat(if v.b then 1.0 else 0.0))
        else None
      case Boolean =>
        if v.VBool? then Some(VInt(if v.b then 1 else 0))
        else if v.VInt? && -128 <= v.i <= 127 then Some(v)
        else None
      case DateTime => if v.VDateTime? then Some(v) else None
  }

  /** The server takes `v` for column `c`. */
  predicate Accepts(c: Column, v: SqlValue) {
    Coerce(c, v).Some?
  }

  /** The value an INSERT that omits the column stores, `now` being the
      server clock; None when the column has no default. */
  function DefaultValue(c: Column, now: Timestamp): Option<SqlValue> {
    match c.default
    case NoDefault => None
    case DefaultNull => Some(VNone)
    case DefaultTrue => Some(VInt(1))
    case DefaultNow => Some(VDateTime(now))
  }

  /** A declared default is a value the column can hold. */
  predicate Consistent(c: Column) {
    && (c.default.DefaultNull? ==> c.nullable)
    && (c.default.DefaultTrue? ==> c.ty.Boolean?)
    && (c.default.DefaultNow? ==> c.ty.DateTime?)
  }

  lemma DdlIsConsistent()
    ensures forall i :: 0 <= i < |EvaluationColumns| ==> Consistent(EvaluationColumns[i])
    ensures forall i :: 0 <= i < |AttemptColumns| ==> Consistent(AttemptColumns[i])
  {
  }

  /** Every cell of the row is one its column can hold. */
  predicate Fits(columns: seq<Column>, row: Row) {
    |row| == |columns| && forall i :: 0 <= i < |row| ==> Stored(columns[i], row[i])
  }

  /** Rewriting one cell with a value its column can hold keeps the row
      fitting. */
  lemma RewriteFits(columns: seq<Column>, row: Row, col: nat, cell: SqlValue)
    requires Fits(columns, row) && col < |columns| && Stored(columns[col], cell)
    ensures Fits(columns, row[col := cell])
  {
  }

  /** The cell an INSERT whose column list resolved to `positions`, with
      parameters `vals`, stores in column `i`: the parameter given for it, as
      the column coerces it, or else the column's default. */
  function InsertCell(columns: seq<Column>, i: nat, positions: seq<nat>, vals: seq<SqlValue>, now: Timestamp): (r: Option<SqlValue>)
    requires i < |columns| && |positions| == |vals|
    ensures i in positions ==> r == Coerce(columns[i], vals[FirstIndex(positions, i).value])
    ensures i !in positions ==> r == DefaultValue(columns[i], now)
    ensures Consistent(columns[i]) && r.Some? ==> Stored(columns[i], r.value)
  {
    match FirstIndex(positions, i)
    case Some(j) => Coerce(columns[i], vals[j])
    case None => DefaultValue(columns[i], now)
  }

  /** All cells of the INSERT are accepted. */
  predicate CellsAccepted(columns: seq<Column>, positions: seq<nat>, vals: seq<SqlValue>, now: Timestamp)
    requires |positions| == |vals|
  {
    forall i :: 0 <= i < |columns| ==> InsertCell(columns, i, positions, vals, now).Some?
  }

  /** The row `INSERT INTO t (names) VALUES (vals)` adds to a table with the
      given columns, the names having resolved to `positions`; None when a
      cell is rejected. */
  function InsertRow(columns: seq<Column>, positions: seq<nat>, vals: seq<SqlValue>, now: Timestamp): (r: Option<Row>)
    requires |positions| == |vals|
    ensures r.Some? <==> CellsAccepted(columns, positions, vals, now)
    ensures r.Some? ==> |r.value| == |columns|
    ensures r.Some? ==> forall i :: 0 <= i < |columns| ==> InsertCell(columns, i, positions, vals, now) == Some(r.value[i])
    ensures r.Some? && (forall i :: 0 <= i < |columns| ==> Consistent(columns[i])) ==> Fits(columns, r.value)
  {
    if CellsAccepted(columns, positions, vals, now) then
      Some(seq(|columns|, i requires 0 <= i < |columns| => InsertCell(columns, i, positions, vals, now).value))
    else None
  }

  /** An INSERT whose every cell is accepted stores exactly those cells. */
  lemma InsertRowOfCells(columns: seq<Column>, positions: seq<nat>, vals: seq<SqlValue>, now: Timestamp, cells: Row)
    requires |positions| == |vals| && |cells| == |columns|
    requires forall i | 0 <= i < |columns| :: InsertCell(columns, i, positions, vals, now) == Some(cells[i])
    ensures InsertRow(columns, positions, vals, now) == Some(cells)
  {
    var r := InsertRow(columns, positions, vals, now);
    assert r.Some?;
    assert |r.value| == |cells|;
    assert forall i | 0 <= i < |cells| :: r.value[i] == cells[i];
    assert r.value == cells;
  }

  /** One rejected cell rejects the whole INSERT. */
  lemma InsertRowRejects(columns: seq<Column>, positions: seq<nat>, vals: seq<SqlValue>, now: Timestamp, i: nat)
    requires |positions| == |vals| && i < |columns|
    requires InsertCell(columns, i, positions, vals, now).None?
    ensures InsertRow(columns, positions, vals, now) == None
  {
  }
}
