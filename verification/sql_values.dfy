/** The dynamically typed values that cross the boundary between the Python
    code and MySQL: statement parameters, cells of fetched rows and the
    attributes of the model objects built from them. */
module SqlValues {

  /** A reading of the server clock stored in a DATETIME column. Its calendar
      encoding plays no part in any behaviour modelled here. */
  type Timestamp = nat

  datatype SqlValue =
    | VStr(s: string)          // str
    | VInt(i: int)             // int (what a TINYINT / BOOLEAN cell is fetched as)
    | VFloat(x: real)          // float, as an exact real
    | VBool(b: bool)           // bool, a subclass of int in Python
    | VNone                    // None, i.e. SQL NULL
    | VDateTime(t: Timestamp)  // datetime.datetime

  /** `isinstance(v, float) or isinstance(v, int)`; true of bool as well,
      because bool is a subclass of int. */
  predicate IsNumber(v: SqlValue) {
    v.VInt? || v.VFloat? || v.VBool?
  }
}
