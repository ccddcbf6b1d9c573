/** user-service: the `users` table and its two handlers, `POST /api/users`
    (insert) and `GET /api/users/{id}` (lookup). */
module UserService {
  import opened Common
  import opened Decimal
  import opened Http
  import opened Messages
  import opened Sqlite

  /** A stored row; its key is the user's id. */
  datatype UserRow = UserRow(name: string, email: string)

  /** The mux routes every path under this prefix to the lookup handler. */
  const UserPathPrefix := "/api/users/"

  const ErrInvalidUserId := "{\"error\": \"Invalid user ID\"}"
  const ErrUserNotFound := "{\"error\": \"User not found\"}"
  const ErrDatabase := "{\"error\": \"Database error\"}"
  const ErrNoUserId := "{\"error\": \"Failed to get user ID\"}"

  /** The path that names user `id`. */
  function UserPath(id: int): string {
    UserPathPrefix + FormatInt(id)
  }

  /** `userHandler`: decode a user, insert its name and email, and answer with the
      user under its new id (any id in the body is overwritten). */
  method UserHandler(db: Table<UserRow>, httpMethod: string, body: Decoded<User>, fault: Fault)
    returns (reply: Reply<User>)
    requires db.Valid()
    modifies db
    ensures db.Valid()
    ensures httpMethod != MethodPost ==>
      reply == Error(StatusMethodNotAllowed, ErrMethodNotAllowed) && db.rows == old(db.rows) && db.lastId == old(db.lastId)
    ensures httpMethod == MethodPost && body.Undecodable? ==>
      reply == Error(StatusBadRequest, ErrInvalidRequest) && db.rows == old(db.rows) && db.lastId == old(db.lastId)
    ensures httpMethod == MethodPost && body.Decoded? && !old(db.Stores(fault)) ==>
      reply == Error(StatusInternalServerError, ErrDatabase) && db.rows == old(db.rows) && db.lastId == old(db.lastId)
    ensures httpMethod == MethodPost && body.Decoded? && old(db.Stores(fault)) ==>
      && db.lastId == old(db.lastId) + 1
      && db.rows == old(db.rows)[db.lastId := UserRow(body.value.name, body.value.email)]
      && reply == (if fault.NoFault? then Json(User(db.lastId, body.value.name, body.value.email))
                   else Error(StatusInternalServerError, ErrNoUserId))
    // what was inserted is what a lookup of the new id returns
    ensures reply.Json? ==>
      GetUserHandler(db, MethodGet, UserPath(reply.value.id), None) == reply
  {
    if httpMethod != MethodPost {
      return Error(StatusMethodNotAllowed, ErrMethodNotAllowed);
    }
    if body.Undecodable? {
      return Error(StatusBadRequest, ErrInvalidRequest);
    }
    var user := body.value;
    var res := db.Insert(UserRow(user.name, user.email), fault);
    match res {
      case ExecError(_) =>
        reply := Error(StatusInternalServerError, ErrDatabase);
      case LastInsertIdError(_) =>
        reply := Error(StatusInternalServerError, ErrNoUserId);
      case Inserted(id) =>
        reply := Json(user.(id := id));
        LookupAfterInsert(db, id, user.name, user.email);
    }
  }

  /** `getUserHandler`: parse the id after the prefix with `strconv.Atoi`, select
      the row, and answer with it, 404 when there is none, or 500 when the query
      itself fails (`queryFault`). */
  function GetUserHandler(db: Table<UserRow>, httpMethod: string, path: string, queryFault: Option<string>)
    : (reply: Reply<User>)
    reads db
    requires UserPathPrefix <= path
    ensures httpMethod != MethodGet ==> reply == Error(StatusMethodNotAllowed, ErrMethodNotAllowed)
    ensures httpMethod == MethodGet && Atoi(path[|UserPathPrefix|..]).None? ==>
      reply == Error(StatusBadRequest, ErrInvalidUserId)
    ensures reply.Json? <==>
      httpMethod == MethodGet && queryFault.None? &&
      Atoi(path[|UserPathPrefix|..]).Some? && Atoi(path[|UserPathPrefix|..]).value in db.rows
    ensures reply.Json? ==>
      var id := Atoi(path[|UserPathPrefix|..]).value;
      reply.value == User(id, db.rows[id].name, db.rows[id].email)
    ensures reply == Error(StatusNotFound, ErrUserNotFound) <==>
      httpMethod == MethodGet && queryFault.None? &&
      Atoi(path[|UserPathPrefix|..]).Some? && Atoi(path[|UserPathPrefix|..]).value !in db.rows
    ensures httpMethod == MethodGet && Atoi(path[|UserPathPrefix|..]).Some? && queryFault.Some? ==>
      reply == Error(StatusInternalServerError, ErrDatabase)
  {
    if httpMethod != MethodGet then Error(StatusMethodNotAllowed, ErrMethodNotAllowed)
    else
      match Atoi(path[|UserPathPrefix|..])
      case None => Error(StatusBadRequest, ErrInvalidUserId)
      case Some(id) =>
        if queryFault.Some? then Error(StatusInternalServerError, ErrDatabase)
        else
          match db.Select(id)
          case None => Error(StatusNotFound, ErrUserNotFound)
          case Some(row) => Json(User(id, row.name, row.email))
  }

  /** The lookup path of a stored id parses back to that id, so after an insert the
      new user is found with the inserted name and email. */
  lemma LookupAfterInsert(db: Table<UserRow>, id: int, name: string, email: string)
    requires db.Valid() && id in db.rows && db.rows[id] == UserRow(name, email)
    ensures GetUserHandler(db, MethodGet, UserPath(id), None) == Json(User(id, name, email))
  {
    AtoiFormatInt(id);
    assert UserPath(id)[|UserPathPrefix|..] == FormatInt(id);
  }
}
