/** The profile store (app/api/userProfile/route.ts): one row per user in
    `user_profiles`, read by GET and written by POST through an existence
    check followed by an update or an insert. */
module UserProfile {
  import opened Common

  const MissingUser := "Usuário não informado"

  /** A `user_profiles` row, keyed by user id. Numbers are kept as the text a
      template literal renders them to; `updatedAt` is a clock reading. */
  datatype ProfileRow = ProfileRow(
    age: Option<string>,
    weight: Option<string>,
    gender: Option<string>,
    isStudent: Option<bool>,
    preferences: Option<seq<string>>,
    goals: Option<string>,
    updatedAt: Option<int>)

  /** The POST body `{ age, weight, gender, isStudent, preferences, goals }`. */
  datatype ProfileBody = ProfileBody(
    age: Field<string>,
    weight: Field<string>,
    gender: Field<string>,
    isStudent: Field<bool>,
    preferences: Field<seq<string>>,
    goals: Field<string>)

  datatype GetResponse = RowBody(row: ProfileRow) | EmptyObject | GetError(status: int, error: string)
  datatype PostResponse = Success | PostError(status: int, error: string)

  /** The table after a POST, with the response. */
  datatype Saved = Saved(rows: map<string, ProfileRow>, response: PostResponse)

  type Table = map<string, ProfileRow>

  /** GET: the caller's row, `{}` when there is none (code PGRST116), 500 on
      any other database error, 400 without the `x-user-id` header. */
  function Get(rows: Table, userId: Option<string>, fault: Option<string>): (r: GetResponse)
    ensures !Present(userId) ==> r == GetError(400, MissingUser)
    ensures Present(userId) && fault.Some? ==> r == GetError(500, fault.value)
    ensures Present(userId) && fault.None? ==>
              if userId.value in rows then r == RowBody(rows[userId.value]) else r == EmptyObject
  {
    if !Present(userId) then GetError(400, MissingUser)
    else match LookupRow(rows, userId.value, fault)
      case LookupError(m) => GetError(500, m)
      case NoRow => EmptyObject
      case Found(row) => RowBody(row)
  }

  /** The update branch: every body field goes to its column (`isStudent` to
      `is_student`) and `updated_at` is set to the current time. */
  function UpdatedRow(current: ProfileRow, b: ProfileBody, now: int): (r: ProfileRow)
    ensures r.updatedAt == Some(now)
    ensures b == ProfileBody(Absent, Absent, Absent, Absent, Absent, Absent) ==> r == current.(updatedAt := Some(now))
  {
    ProfileRow(UpdatedColumn(current.age, b.age), UpdatedColumn(current.weight, b.weight),
               UpdatedColumn(current.gender, b.gender), UpdatedColumn(current.isStudent, b.isStudent),
               UpdatedColumn(current.preferences, b.preferences), UpdatedColumn(current.goals, b.goals),
               Some(now))
  }

  /** The insert branch: the body fields and no `updated_at`. */
  function InsertedRow(b: ProfileBody): (r: ProfileRow)
    ensures r.updatedAt == None
    ensures b == ProfileBody(Absent, Absent, Absent, Absent, Absent, Absent) ==>
              r == ProfileRow(None, None, None, None, None, None, None)
  {
    ProfileRow(InsertedColumn(b.age), InsertedColumn(b.weight), InsertedColumn(b.gender),
               InsertedColumn(b.isStudent), InsertedColumn(b.preferences), InsertedColumn(b.goals),
               None)
  }

  /** POST. `checkFault` is the error of the existence check, if any, and
      `writeFault` that of the update or insert. */
  function Save(rows: Table, userId: Option<string>, body: ProfileBody,
                checkFault: Option<string>, writeFault: Option<string>, now: int): (r: Saved)
    ensures !Present(userId) ==> r == Saved(rows, PostError(400, MissingUser))
    ensures Present(userId) && checkFault.Some? ==> r == Saved(rows, PostError(500, checkFault.value))
    ensures Present(userId) && checkFault.None? && writeFault.Some? ==>
              r == Saved(rows, PostError(500, writeFault.value))
    ensures r.response.Success? <==> Present(userId) && checkFault.None? && writeFault.None?
    ensures r.response.Success? ==>
              var u := userId.value;
              && r.rows.Keys == rows.Keys + {u}
              && (forall k :: k in rows && k != u ==> r.rows[k] == rows[k])
              && r.rows[u] == if u in rows then UpdatedRow(rows[u], body, now) else InsertedRow(body)
  {
    if !Present(userId) then Saved(rows, PostError(400, MissingUser))
    else
      var u := userId.value;
      match LookupRow(rows, u, checkFault)
      case LookupError(m) => Saved(rows, PostError(500, m))
      case Found(existing) =>
        if writeFault.Some? then Saved(rows, PostError(500, writeFault.value))
        else Saved(rows[u := UpdatedRow(existing, body, now)], Success)
      case NoRow =>
        if writeFault.Some? then Saved(rows, PostError(500, writeFault.value))
        else Saved(rows[u := InsertedRow(body)], Success)
  }

  /** A successful POST keeps one row per user: the table grows by one row
      exactly when the user had none. */
  lemma SaveKeepsOneRowPerUser(rows: Table, u: string, body: ProfileBody, now: int)
    requires u != ""
    ensures var r := Save(rows, Some(u), body, None, None, now);
            |r.rows| == if u in rows then |rows| else |rows| + 1
  {
    var r := Save(rows, Some(u), body, None, None, now);
    if u in rows {
      assert r.rows.Keys == rows.Keys;
    } else {
      assert r.rows.Keys == rows.Keys + {u};
      assert |r.rows.Keys| == |rows.Keys| + 1;
    }
  }

  /** Round trip: a GET after a successful POST returns every field the body
      carried, and `updated_at` tells an update from an insert. */
  lemma GetAfterSave(rows: Table, u: string, body: ProfileBody, now: int)
    requires u != ""
    ensures var g := Get(Save(rows, Some(u), body, None, None, now).rows, Some(u), None);
            && g.RowBody?
            && (body.age.Value? ==> g.row.age == Some(body.age.v))
            && (body.weight.Value? ==> g.row.weight == Some(body.weight.v))
            && (body.gender.Value? ==> g.row.gender == Some(body.gender.v))
            && (body.isStudent.Value? ==> g.row.isStudent == Some(body.isStudent.v))
            && (body.preferences.Value? ==> g.row.preferences == Some(body.preferences.v))
            && (body.goals.Value? ==> g.row.goals == Some(body.goals.v))
            && g.row.updatedAt == if u in rows then Some(now) else None
  {
  }

  /** A key left out of the body keeps the stored value on update but is null
      on insert. */
  lemma AbsentAgeOnUpdateAndInsert(rows: Table, u: string, body: ProfileBody, now: int)
    requires u != "" && body.age.Absent?
    ensures var r := Save(rows, Some(u), body, None, None, now);
            r.rows[u].age == if u in rows then rows[u].age else None
  {
  }

  /** Two successful POSTs of the same body leave the same row, up to the time stamp. */
  lemma SaveIdempotent(rows: Table, u: string, body: ProfileBody, t1: int, t2: int)
    requires u != ""
    ensures var once := Save(rows, Some(u), body, None, None, t1).rows;
            var twice := Save(once, Some(u), body, None, None, t2).rows;
            twice == once[u := once[u].(updatedAt := Some(t2))]
  {
  }

  class ProfileTable {
    var rows: Table

    constructor ()
      ensures rows == map[]
    {
      rows := map[];
    }

    /** POST, step by step: header check, existence check, then update or insert. */
    method Post(userId: Option<string>, body: ProfileBody, checkFault: Option<string>,
                writeFault: Option<string>, now: int) returns (resp: PostResponse)
      modifies this
      ensures Saved(rows, resp) == Save(old(rows), userId, body, checkFault, writeFault, now)
    {
      if !Present(userId) {
        return PostError(400, MissingUser);
      }
      var u := userId.value;
      var existing := LookupRow(rows, u, checkFault);
      if existing.LookupError? {
        return PostError(500, existing.message);
      }
      if existing.Found? {
        if writeFault.Some? {
          return PostError(500, writeFault.value);
        }
        rows := rows[u := UpdatedRow(existing.row, body, now)];
      } else {
        if writeFault.Some? {
          return PostError(500, writeFault.value);
        }
        rows := rows[u := InsertedRow(body)];
      }
      resp := Success;
    }
  }
}
