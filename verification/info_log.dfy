/** The statement log line built by `SQLStorage._make_info_log` before every
    statement the store executes: `[event=...][sql=...][vals=...]`.

    Two definitions are given. `MakeInfoLogAsWritten` follows the code as it
    stands, whose `'-'.join` raises on numeric items and whose
    `split('VALUE', 0)` never splits. `MakeInfoLog` is the evidently intended
    formatter: numbers are rendered, and an INSERT is cut before its VALUES. */
module InfoLog {
  import opened Wrappers
  import opened SqlValues

  /** Why building the log line raises. */
  datatype LogFault =
    | SqlIndexOutOfRange  // `sql[0]` on the empty string: IndexError
    | NonStringItem       // `'-'.join` met an item that is not a str: TypeError

  const NonString: string := "nonstring"
  const UnrecognizedSql: string := "unrecognized sql"
  const ValuesKeyword: string := "VALUE"

  /** `sep.join(parts)`. */
  function Join(sep: string, parts: seq<string>): string
    decreases |parts|
  {
    if |parts| == 0 then ""
    else if |parts| == 1 then parts[0]
    else parts[0] + sep + Join(sep, parts[1..])
  }

  /** The part of the log line before the parameters. */
  function LineHead(event: string, sqlMessage: string): string {
    "[event=" + event + "][sql=" + sqlMessage + "][vals="
  }

  /** The format string `'[event={event}][sql={sql}][vals={vals}]'`. */
  function Format(event: string, sqlMessage: string, vals: string): string {
    LineHead(event, sqlMessage) + vals + "]"
  }

  /** `sep` occurs in `s` starting at position `i`. */
  predicate OccursAt(s: string, sep: string, i: int) {
    0 <= i && i + |sep| <= |s| && s[i..i + |sep|] == sep
  }

  lemma OccursAtTail(s: string, sep: string, i: nat)
    requires |s| > 0
    ensures OccursAt(s, sep, i + 1) <==> OccursAt(s[1..], sep, i)
  {
    if i + 1 + |sep| <= |s| {
      assert s[1..][i..i + |sep|] == s[i + 1..i + 1 + |sep|];
    }
  }

  /** `s.split(sep, 1)[0]`: the part of `s` before the first occurrence of
      `sep`, or all of `s` when `sep` does not occur. */
  function {:induction false} Before(s: string, sep: string): (r: string)
    requires |sep| > 0
    ensures r <= s
    ensures forall i :: 0 <= i < |r| ==> !OccursAt(s, sep, i)
    ensures |r| < |s| ==> OccursAt(s, sep, |r|)
    decreases |s|
  {
    if |s| < |sep| then s
    else if s[..|sep|] == sep then []
    else
      var rest := Before(s[1..], sep);
      assert forall j :: 1 <= j < |rest| + 1 ==> !OccursAt(s, sep, j) by {
        forall j | 1 <= j < |rest| + 1 ensures !OccursAt(s, sep, j) {
          OccursAtTail(s, sep, j - 1);
        }
      }
      assert |rest| < |s[1..]| ==> OccursAt(s, sep, |rest| + 1) by {
        OccursAtTail(s, sep, |rest|);
      }
      assert !OccursAt(s, sep, 0);
      [s[0]] + rest
  }

  /** `s.split(sep, maxsplit)`: the pieces between the first `maxsplit`
      occurrences of `sep`, from the left, or between all of them when
      `maxsplit` is negative. */
  function Split(s: string, sep: string, maxsplit: int): (r: seq<string>)
    requires |sep| > 0
    ensures |r| > 0
    ensures maxsplit >= 0 ==> |r| <= maxsplit + 1
    decreases |s|
  {
    var head := Before(s, sep);
    if maxsplit == 0 || |head| == |s| then [s]
    else [head] + Split(s[|head| + |sep|..], sep, if maxsplit < 0 then maxsplit else maxsplit - 1)
  }

  /** The first piece is the whole string when `maxsplit` is 0, and the part
      before the first separator otherwise. */
  lemma SplitHead(s: string, sep: string, maxsplit: int)
    requires |sep| > 0
    ensures Split(s, sep, maxsplit)[0] == if maxsplit == 0 then s else Before(s, sep)
  {
    var head := Before(s, sep);
    if |head| == |s| {
      assert head == s;
    }
  }

  /** Joining a first piece to at least one more puts the separator
      between them. */
  lemma JoinCons(sep: string, head: string, rest: seq<string>)
    requires |rest| > 0
    ensures Join(sep, [head] + rest) == head + sep + Join(sep, rest)
  {
    assert ([head] + rest)[1..] == rest;
  }

  /** Where the separator occurs, the string is the first piece, the
      separator and the remainder. */
  lemma SplitAtFirst(s: string, sep: string)
    requires |sep| > 0 && |Before(s, sep)| < |s|
    ensures |Before(s, sep)| + |sep| <= |s|
    ensures s == Before(s, sep) + sep + s[|Before(s, sep)| + |sep|..]
  {
    var head := Before(s, sep);
    assert OccursAt(s, sep, |head|);
    assert head == s[..|head|];
    SlicesJoin(s, |head|, |head| + |sep|);
  }

  lemma SlicesJoin(s: string, i: nat, j: nat)
    requires i <= j <= |s|
    ensures s == s[..i] + s[i..j] + s[j..]
  {
    assert s[..j] == s[..i] + s[i..j];
  }

  /** Joining the pieces with the separator gives the string back. */
  lemma {:induction false} JoinSplit(s: string, sep: string, maxsplit: int)
    requires |sep| > 0
    ensures Join(sep, Split(s, sep, maxsplit)) == s
    decreases |s|
  {
    var head := Before(s, sep);
    if maxsplit != 0 && |head| < |s| {
      SplitAtFirst(s, sep);
      var tail := s[|head| + |sep|..];
      var m := if maxsplit < 0 then maxsplit else maxsplit - 1;
      JoinSplit(tail, sep, m);
      JoinCons(sep, head, Split(tail, sep, m));
    }
  }

  /** A one-character separator occurs nowhere its character does not. */
  lemma NoSeparatorBefore(s: string, sep: string, n: nat)
    requires |sep| == 1 && n <= |s|
    requires forall i | 0 <= i < n :: s[i] != sep[0]
    ensures forall i | 0 <= i < n :: !OccursAt(s, sep, i)
  {
    forall i | 0 <= i < n ensures !OccursAt(s, sep, i) {
      if i + 1 <= |s| {
        assert s[i..i + 1][0] == s[i];
      }
    }
  }

  /** A string without the separator's character is its own first piece. */
  lemma BeforeWithoutSeparator(s: string, sep: string)
    requires |sep| == 1 && sep[0] !in s
    ensures Before(s, sep) == s
  {
    NoSeparatorBefore(s, sep, |s|);
  }

  /** The first piece of `p + sep + j` is `p` when `p` lacks the separator's
      character. */
  lemma BeforeFirstSeparator(p: string, sep: string, j: string)
    requires |sep| == 1 && sep[0] !in p
    ensures Before(p + sep + j, sep) == p
  {
    var s := p + sep + j;
    var head := Before(s, sep);
    assert s[|p|..|p| + 1] == sep;
    assert forall i | 0 <= i < |p| :: s[i] == p[i];
    NoSeparatorBefore(s, sep, |p|);
    assert OccursAt(s, sep, |p|);
    assert |head| == |p|;
    assert p == s[..|p|];
  }

  /** Where no piece holds the one-character separator, splitting the joined
      pieces gives them back. */
  lemma {:induction false} SplitJoin(sep: string, parts: seq<string>)
    requires |sep| == 1 && |parts| > 0
    requires forall i | 0 <= i < |parts| :: sep[0] !in parts[i]
    ensures Split(Join(sep, parts), sep, -1) == parts
    decreases |parts|
  {
    var s := Join(sep, parts);
    var p := parts[0];
    if |parts| == 1 {
      BeforeWithoutSeparator(s, sep);
    } else {
      var rest := parts[1..];
      var j := Join(sep, rest);
      assert s == p + sep + j;
      BeforeFirstSeparator(p, sep, j);
      assert s[|p| + |sep|..] == j;
      SplitJoin(sep, rest);
      assert parts == [p] + rest;
    }
  }

  // ---------------------------------------------------------------------
  // As written

  /** The element `_make_info_log` appends for `v`: str, float and int (and so
      bool) are kept as they are, anything else becomes `'nonstring'`. */
  function KeptAsWritten(v: SqlValue): SqlValue {
    if v.VStr? || IsNumber(v) then v else VStr(NonString)
  }

  /** The sql part as written: an INSERT is "split" with `maxsplit = 0`,
      which returns the whole statement as its only piece. */
  function SqlMessageAsWritten(sql: string): (m: string)
    requires |sql| > 0
    ensures sql[0] == 'I' || sql[0] == 'S' || sql[0] == 'U' ==> m == sql
    ensures !(sql[0] == 'I' || sql[0] == 'S' || sql[0] == 'U') ==> m == UnrecognizedSql
  {
    if sql[0] == 'I' then Split(sql, ValuesKeyword, 0)[0]
    else if sql[0] in "SU" then sql
    else UnrecognizedSql
  }

  /** `_make_info_log(event, sql, val)` as the code stands. */
  function MakeInfoLogAsWritten(event: string, sql: string, vals: seq<SqlValue>): (r: Result<string, LogFault>)
    ensures r.Success? ==> |sql| > 0 && forall i | 0 <= i < |vals| :: !IsNumber(vals[i])
    ensures r.Success? ==> LineHead(event, SqlMessageAsWritten(sql)) <= r.value
  {
    if |sql| == 0 then Failure(SqlIndexOutOfRange)
    else
      var items := seq(|vals|, i requires 0 <= i < |vals| => KeptAsWritten(vals[i]));
      assert forall i | 0 <= i < |vals| :: IsNumber(vals[i]) ==> !items[i].VStr?;
      if exists i :: 0 <= i < |items| && !items[i].VStr? then Failure(NonStringItem)
      else Success(Format(event, SqlMessageAsWritten(sql),
                          Join("-", seq(|items|, i requires 0 <= i < |items| => items[i].s))))
  }

  /** The formatter as written raises exactly when the statement is empty or
      one of its parameters is a number: every int, float or bool reaches
      `'-'.join` unconverted. */
  lemma AsWrittenRaisesOnNumbers(event: string, sql: string, vals: seq<SqlValue>)
    ensures MakeInfoLogAsWritten(event, sql, vals).Failure?
        <==> |sql| == 0 || exists i :: 0 <= i < |vals| && IsNumber(vals[i])
    ensures |sql| > 0 && (exists i :: 0 <= i < |vals| && IsNumber(vals[i]))
        ==> MakeInfoLogAsWritten(event, sql, vals) == Failure(NonStringItem)
  {
    if |sql| > 0 {
      var items := seq(|vals|, i requires 0 <= i < |vals| => KeptAsWritten(vals[i]));
      assert forall i :: 0 <= i < |vals| ==> (IsNumber(vals[i]) <==> !items[i].VStr?);
    }
  }

  /** An INSERT keeps its VALUES clause in the log as written, although the
      intended message stops before it. */
  lemma AsWrittenKeepsInsertValues(sql: string, i: nat)
    requires |sql| > 0 && sql[0] == 'I'
    requires OccursAt(sql, ValuesKeyword, i)
    ensures SqlMessageAsWritten(sql) == sql
    ensures SqlMessageAsWritten(sql) != SqlMessage(sql)
    ensures |SqlMessage(sql)| <= i
  {
    SplitHead(sql, ValuesKeyword, 0);
    SplitHead(sql, ValuesKeyword, 1);
    var m := Before(sql, ValuesKeyword);
    assert |m| <= i;
  }

  // ---------------------------------------------------------------------
  // Corrected

  /** The sql part as intended, `sql.split('VALUE', 1)[0]`: an INSERT is cut
      before its VALUES clause. */
  function SqlMessage(sql: string): (m: string)
    requires |sql| > 0
    ensures sql[0] == 'I' ==> m <= sql && !OccursAt(sql, ValuesKeyword, |m|) == (|m| == |sql|)
    ensures sql[0] == 'I' ==> forall i :: 0 <= i < |m| ==> !OccursAt(sql, ValuesKeyword, i)
    ensures sql[0] == 'S' || sql[0] == 'U' ==> m == sql
    ensures !(sql[0] == 'I' || sql[0] == 'S' || sql[0] == 'U') ==> m == UnrecognizedSql
  {
    if sql[0] == 'I' then
      SplitHead(sql, ValuesKeyword, 1);
      Split(sql, ValuesKeyword, 1)[0]
    else if sql[0] in "SU" then sql
    else UnrecognizedSql
  }

  /** The text a parameter contributes: a str verbatim, a number as `str(v)`
      (rendered by `showNumber`, since Python's number formatting is not part
      of this model), anything else `'nonstring'`. */
  function Rendered(v: SqlValue, showNumber: SqlValue -> string): string {
    if v.VStr? then v.s
    else if IsNumber(v) then showNumber(v)
    else NonString
  }

  /** The texts the parameters contribute, in order. */
  function RenderedAll(vals: seq<SqlValue>, showNumber: SqlValue -> string): seq<string> {
    seq(|vals|, i requires 0 <= i < |vals| => Rendered(vals[i], showNumber))
  }

  /** `_make_info_log` as intended: it raises only on an empty statement,
      and the line opens with the event and the sql part and closes the
      parameter list with `]`. */
  function MakeInfoLog(event: string, sql: string, vals: seq<SqlValue>, showNumber: SqlValue -> string)
    : (r: Result<string, LogFault>)
    ensures r.Success? <==> |sql| > 0
    ensures r.Failure? ==> r.error == SqlIndexOutOfRange
    ensures r.Success? ==> LineHead(event, SqlMessage(sql)) <= r.value && r.value[|r.value| - 1] == ']'
  {
    if |sql| == 0 then Failure(SqlIndexOutOfRange)
    else Success(Format(event, SqlMessage(sql), Join("-", RenderedAll(vals, showNumber))))
  }

  /** The parameter list of an intended log line gives back every
      parameter's text, in order, when none of them holds a `-`. */
  lemma LoggedValsAreParameters(event: string, sql: string, vals: seq<SqlValue>, showNumber: SqlValue -> string)
    requires |sql| > 0 && |vals| > 0
    requires forall i | 0 <= i < |vals| :: '-' !in Rendered(vals[i], showNumber)
    ensures var line := MakeInfoLog(event, sql, vals, showNumber).value;
      Split(line[|LineHead(event, SqlMessage(sql))|..|line| - 1], "-", -1) == RenderedAll(vals, showNumber)
  {
    var line := MakeInfoLog(event, sql, vals, showNumber).value;
    var head := LineHead(event, SqlMessage(sql));
    var parts := RenderedAll(vals, showNumber);
    var joined := Join("-", parts);
    assert line == head + joined + "]";
    assert line[|head|..|line| - 1] == joined;
    SplitJoin("-", parts);
  }

  /** Where the code as written does not raise and does not meet a VALUES
      clause, the corrected formatter prints exactly the same line. */
  lemma CorrectedAgreesWithAsWritten(event: string, sql: string, vals: seq<SqlValue>, showNumber: SqlValue -> string)
    requires MakeInfoLogAsWritten(event, sql, vals).Success?
    requires sql[0] == 'I' ==> forall i :: 0 <= i < |sql| ==> !OccursAt(sql, ValuesKeyword, i)
    ensures MakeInfoLog(event, sql, vals, showNumber) == MakeInfoLogAsWritten(event, sql, vals)
  {
    AsWrittenRaisesOnNumbers(event, sql, vals);
    var items := seq(|vals|, i requires 0 <= i < |vals| => KeptAsWritten(vals[i]));
    assert seq(|items|, i requires 0 <= i < |items| => items[i].s)
        == RenderedAll(vals, showNumber);
    if sql[0] == 'I' {
      SplitHead(sql, ValuesKeyword, 1);
      var m := Before(sql, ValuesKeyword);
      assert |m| == |sql|;
      assert m == sql;
    }
  }
}
