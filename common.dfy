/** Value types shared by the API routes and the pages. */
module Common {

  datatype Option<T> = None | Some(value: T) {
    function GetOr(default: T): (r: T)
      ensures Some? ==> r == value
      ensures None? ==> r == default
    {
      if Some? then value else default
    }
  }

  /** JavaScript truthiness of a string that may be missing (a header, a JSON
      field, a session user id): null, undefined and "" are all falsy. */
  predicate Present(s: Option<string>) {
    s.Some? && s.value != ""
  }

  /** One key of a parsed JSON request body: missing (undefined), null, or a value. */
  datatype Field<T> = Absent | Null | Value(v: T)

  /** The column a body field leaves behind when the row is UPDATEd. The
      database client serialises the update object with JSON.stringify, which
      drops undefined keys, so a missing key leaves the column untouched. */
  function UpdatedColumn<T>(current: Option<T>, f: Field<T>): (r: Option<T>)
    ensures f.Absent? ==> r == current
    ensures f.Null? ==> r == None
    ensures f.Value? ==> r == Some(f.v)
  {
    match f
    case Absent => current
    case Null => None
    case Value(v) => Some(v)
  }

  /** The column a body field gives a freshly INSERTed row: a missing key gets the
      column default, taken to be null. */
  function InsertedColumn<T>(f: Field<T>): (r: Option<T>)
    ensures r.Some? <==> f.Value?
    ensures f.Value? ==> r == Some(f.v)
  {
    if f.Value? then Some(f.v) else None
  }

  /** The outcome of a `.select(...).eq('user_id', key).single()` query: the row,
      the "no rows" error (code PGRST116), or any other database error. */
  datatype Lookup<R> = Found(row: R) | NoRow | LookupError(message: string)

  /** The single-row lookup against a table keyed by user id; `fault` is the
      database error the query may run into, if any. */
  function LookupRow<R>(rows: map<string, R>, key: string, fault: Option<string>): (r: Lookup<R>)
    ensures r.Found? <==> fault.None? && key in rows
    ensures r.Found? ==> r.row == rows[key]
    ensures r.NoRow? <==> fault.None? && key !in rows
    ensures r.LookupError? <==> fault.Some?
    ensures r.LookupError? ==> r.message == fault.value
  {
    if fault.Some? then LookupError(fault.value)
    else if key in rows then Found(rows[key])
    else NoRow
  }
}
