/** The preference store (app/api/userPreferences/route.ts): one row per user
    in `user_preferences` with focus, goals and priority. */
module UserPreferences {
  import opened Common
  import UserProfile

  const MissingUser := "User ID missing"
  const SavedMessage := "Preferências salvas com sucesso!"

  datatype PrefRow = PrefRow(focus: Option<string>, goals: Option<string>, priority: Option<string>,
                             updatedAt: Option<int>)

  /** What `select('focus, goals, priority')` returns of a row. */
  datatype PrefView = PrefView(focus: Option<string>, goals: Option<string>, priority: Option<string>)

  /** The POST body `{ focus, goals, priority }`. */
  datatype PrefBody = PrefBody(focus: Field<string>, goals: Field<string>, priority: Field<string>)

  datatype GetResponse = View(view: PrefView) | GetError(status: int, error: string)
  datatype PostResponse = SavedOk(message: string) | PostError(status: int, error: string)

  datatype Saved = Saved(rows: map<string, PrefRow>, response: PostResponse)

  type Table = map<string, PrefRow>

  function ViewOf(row: PrefRow): PrefView {
    PrefView(row.focus, row.goals, row.priority)
  }

  /** GET. Every lookup error is a 500, the "no rows" one included; its text,
      `noRowsMessage`, is the database client's. */
  function Get(rows: Table, userId: Option<string>, fault: Option<string>, noRowsMessage: string): (r: GetResponse)
    ensures !Present(userId) ==> r == GetError(400, MissingUser)
    ensures Present(userId) ==>
              (r.View? <==> fault.None? && userId.value in rows)
    ensures r.View? ==> r.view == PrefView(rows[userId.value].focus, rows[userId.value].goals, rows[userId.value].priority)
    ensures Present(userId) && fault.Some? ==> r == GetError(500, fault.value)
    ensures Present(userId) && fault.None? && userId.value !in rows ==> r == GetError(500, noRowsMessage)
  {
    if !Present(userId) then GetError(400, MissingUser)
    else match LookupRow(rows, userId.value, fault)
      case LookupError(m) => GetError(500, m)
      case NoRow => GetError(500, noRowsMessage)
      case Found(row) => View(ViewOf(row))
  }

  /** The update branch: focus, goals, priority and `updated_at`. */
  function UpdatedRow(current: PrefRow, b: PrefBody, now: int): (r: PrefRow)
    ensures r.updatedAt == Some(now)
    ensures b == PrefBody(Absent, Absent, Absent) ==> r == current.(updatedAt := Some(now))
  {
    PrefRow(UpdatedColumn(current.focus, b.focus), UpdatedColumn(current.goals, b.goals),
            UpdatedColumn(current.priority, b.priority), Some(now))
  }

  /** The insert branch: `{ user_id, focus, goals, priority }`. */
  function InsertedRow(b: PrefBody): (r: PrefRow)
    ensures r.updatedAt == None
    ensures b == PrefBody(Absent, Absent, Absent) ==> r == PrefRow(None, None, None, None)
  {
    PrefRow(InsertedColumn(b.focus), InsertedColumn(b.goals), InsertedColumn(b.priority), None)
  }

  /** POST. The error of the existence check is discarded: only a row actually
      returned leads to the update, anything else to the insert. */
  function Save(rows: Table, userId: Option<string>, body: PrefBody,
                checkFault: Option<string>, writeFault: Option<string>, now: int): (r: Saved)
    ensures !Present(userId) ==> r == Saved(rows, PostError(400, MissingUser))
    ensures Present(userId) && writeFault.Some? ==> r == Saved(rows, PostError(500, writeFault.value))
    ensures r.response.SavedOk? <==> Present(userId) && writeFault.None?
    ensures r.response.SavedOk? ==>
              var u := userId.value;
              && r.response.message == SavedMessage
              && r.rows.Keys == rows.Keys + {u}
              && (forall k :: k in rows && k != u ==> r.rows[k] == rows[k])
              && r.rows[u] == if u in rows && checkFault.None? then UpdatedRow(rows[u], body, now)
                              else InsertedRow(body)
  {
    if !Present(userId) then Saved(rows, PostError(400, MissingUser))
    else
      var u := userId.value;
      var existing := LookupRow(rows, u, checkFault);
      if existing.Found? then
        if writeFault.Some? then Saved(rows, PostError(500, writeFault.value))
        else Saved(rows[u := UpdatedRow(existing.row, body, now)], SavedOk(SavedMessage))
      else
        if writeFault.Some? then Saved(rows, PostError(500, writeFault.value))
        else Saved(rows[u := InsertedRow(body)], SavedOk(SavedMessage))
  }

  /** Round trip: a GET after a successful POST returns the three fields the
      body carried, and an absent key keeps the stored value on update. */
  lemma GetAfterSave(rows: Table, u: string, body: PrefBody, now: int, noRows: string)
    requires u != ""
    ensures var g := Get(Save(rows, Some(u), body, None, None, now).rows, Some(u), None, noRows);
            && g.View?
            && g.view.focus == (if u in rows then UpdatedColumn(rows[u].focus, body.focus) else InsertedColumn(body.focus))
            && g.view.goals == (if u in rows then UpdatedColumn(rows[u].goals, body.goals) else InsertedColumn(body.goals))
            && g.view.priority == (if u in rows then UpdatedColumn(rows[u].priority, body.priority) else InsertedColumn(body.priority))
  {
  }

  /** Unlike the profile route, which answers `{}`, this GET fails with 500
      when the user has no row yet. */
  lemma MissingRowHandledDifferently(u: string, noRows: string)
    requires u != ""
    ensures UserProfile.Get(map[], Some(u), None) == UserProfile.EmptyObject
    ensures Get(map[], Some(u), None, noRows) == GetError(500, noRows)
  {
  }

  /** A failed existence check is ignored: the POST then takes the insert
      branch whatever the table holds, giving the same response as when the
      user has no row, where the profile POST answers 500 and writes nothing. */
  lemma IgnoredCheckFaultInserts(rows: Table, u: string, body: PrefBody, fault: string,
                                 writeFault: Option<string>, now: int, pbody: UserProfile.ProfileBody)
    requires u != ""
    ensures Save(rows, Some(u), body, Some(fault), writeFault, now).response
            == Save(rows - {u}, Some(u), body, None, writeFault, now).response
    ensures UserProfile.Save(map[], Some(u), pbody, Some(fault), None, now).response == UserProfile.PostError(500, fault)
  {
  }

  class PreferenceTable {
    var rows: Table

    constructor ()
      ensures rows == map[]
    {
      rows := map[];
    }

    /** POST, step by step: header check, existence check, then update or insert. */
    method Post(userId: Option<string>, body: PrefBody, checkFault: Option<string>,
                writeFault: Option<string>, now: int) returns (resp: PostResponse)
      modifies this
      ensures Saved(rows, resp) == Save(old(rows), userId, body, checkFault, writeFault, now)
    {
      if !Present(userId) {
        return PostError(400, MissingUser);
      }
      var u := userId.value;
      var existing := LookupRow(rows, u, checkFault);
      if existing.Found? {
        if writeFault.Some? {
          return PostError(500, writeFault.value);
        }
        rows := rows[u := UpdatedRow(existing.row, body, now)];
      } else {
        if writeFault.Some? {
          return PostError(500, writeFault.value);
        }
        rows := rows[u := InsertedRow(body)];
      }
      resp := SavedOk(SavedMessage);
    }
  }
}
