/**
 * Authentication and account rules of the server: the login ladder, the session
 * guards `isAuthenticated` and `isHaykakan`, the first-admin bootstrap and the user
 * management routes. Password hashing and comparison are bcrypt's and are taken as
 * parameters.
 */
module AuthRoutes {
  import opened Outcomes
  import opened Text
  import opened Seqs

  datatype Role = Haykakan | Festero

  /** A stored user; `password` holds the bcrypt hash. */
  datatype User = User(
    id: int, username: string, password: string, role: Role, name: string, email: string, active: bool)

  /** A user as every route answers with it: the same fields without the password. */
  datatype UserInfo = UserInfo(
    id: int, username: string, role: Role, name: string, email: string, active: bool)

  /** The session fields the routes read and write. */
  datatype Session = Session(userId: Option<int>, username: Option<string>, role: Option<Role>)

  const NoSession: Session := Session(None, None, None)

  /** An error answer: the HTTP status code and the message. */
  datatype HttpError = HttpError(status: int, message: string)

  /** The outcome of a guard: pass on to the handler, or answer with an error. */
  datatype Guard = Next | Reject(error: HttpError)

  /** Drops the password field. */
  function Strip(u: User): (r: UserInfo)
    ensures r.id == u.id && r.username == u.username && r.role == u.role
    ensures r.name == u.name && r.email == u.email && r.active == u.active
  {
    UserInfo(u.id, u.username, u.role, u.name, u.email, u.active)
  }

  /** `!req.session.userId` is false exactly for a present, non-zero id. */
  predicate LoggedIn(s: Session)
  {
    s.userId.Some? && s.userId.value != 0
  }

  /** `isAuthenticated`: 401 without a user id in the session. */
  function IsAuthenticated(s: Session): (g: Guard)
    ensures g.Reject? <==> !LoggedIn(s)
    ensures g.Reject? ==> g.error.status == 401
  {
    if !LoggedIn(s) then Reject(HttpError(401, "No autenticado")) else Next
  }

  /** `isHaykakan`: 401 without a user id, then 403 unless the role is 'haykakan'. */
  function IsHaykakan(s: Session): (g: Guard)
    ensures g == Next <==> LoggedIn(s) && s.role == Some(Haykakan)
    ensures g.Reject? && g.error.status == 401 <==> !LoggedIn(s)
    ensures g.Reject? && g.error.status == 403 <==> LoggedIn(s) && s.role != Some(Haykakan)
  {
    if !LoggedIn(s) then Reject(HttpError(401, "No autenticado"))
    else if s.role != Some(Haykakan) then Reject(HttpError(403, "No autorizado"))
    else Next
  }

  /** Only administrators pass `isHaykakan`, and everyone who passes it passes `isAuthenticated`. */
  lemma HaykakanImpliesAuthenticated(s: Session)
    ensures IsHaykakan(s) == Next ==> IsAuthenticated(s) == Next
  {
  }

  /**
   * The index of the first user that `matches` picks out, as a `findFirst` on the
   * users table returns it, or none when no user matches.
   */
  function FindUser(users: seq<User>, matches: User -> bool): (r: Option<nat>)
    ensures r.Some? ==> r.value < |users| && matches(users[r.value]) &&
                        forall j :: 0 <= j < r.value ==> !matches(users[j])
    ensures r.None? ==> forall j :: 0 <= j < |users| ==> !matches(users[j])
  {
    if users == [] then None
    else if matches(users[0]) then Some(0)
    else
      var rest := FindUser(users[1..], matches);
      if rest.Some? then Some(rest.value + 1) else None
  }

  /** The lookup by username. */
  function FindByUsername(users: seq<User>, username: string): Option<nat>
  {
    FindUser(users, (u: User) => u.username == username)
  }

  /** The lookup by id. */
  function FindById(users: seq<User>, id: int): Option<nat>
  {
    FindUser(users, (u: User) => u.id == id)
  }

  /**
   * The login ladder: unknown user, inactive user and wrong password are each a 401,
   * checked in this order; `compare` is bcrypt's comparison of a plain password with a hash.
   */
  function LoginDecision(user: Option<User>, password: string, compare: (string, string) -> bool)
    : (r: Result<User, HttpError>)
    ensures r.Ok? <==> user.Some? && user.value.active && compare(password, user.value.password)
    ensures r.Ok? ==> r.value == user.value
    ensures r.Err? ==> r.error.status == 401
    ensures user.Some? && !user.value.active ==> r == Err(HttpError(401, "Usuario inactivo. Contacte al administrador."))
  {
    if user.None? then Err(HttpError(401, "Usuario o contraseña incorrectos"))
    else if !user.value.active then Err(HttpError(401, "Usuario inactivo. Contacte al administrador."))
    else if !compare(password, user.value.password) then Err(HttpError(401, "Usuario o contraseña incorrectos"))
    else Ok(user.value)
  }

  /** The fields a user update may carry; absent fields keep their stored value. */
  datatype UserPatch = UserPatch(
    username: Option<string>, role: Option<Role>, name: Option<string>, email: Option<string>,
    active: Option<bool>, password: Option<string>, confirmPassword: Option<string>)

  /**
   * The password rule of a user update: a truthy password needs a truthy, equal
   * confirmation and is then stored hashed; a falsy one is dropped together with its
   * confirmation, so the stored hash stays. `None` stands for the 400 answer.
   */
  function NewPasswordHash(stored: string, patch: UserPatch, hash: string -> string): (r: Option<string>)
    ensures r.None? <==> Truthy(patch.password) && !(Truthy(patch.confirmPassword) && patch.confirmPassword == patch.password)
    ensures !Truthy(patch.password) ==> r == Some(stored)
    ensures r.Some? && Truthy(patch.password) ==> r == Some(hash(patch.password.value))
  {
    if Truthy(patch.password) then
      if Truthy(patch.confirmPassword) && patch.password.value == patch.confirmPassword.value
      then Some(hash(patch.password.value))
      else None
    else Some(stored)
  }

  function Pick<T>(field: Option<T>, stored: T): T
  {
    if field.Some? then field.value else stored
  }

  /** Whether the user list shows `u`: always when `showAll` is exactly 'true', otherwise when active. */
  predicate Listed(u: User, showAll: Option<string>)
  {
    showAll == Some("true") || u.active
  }

  /**
   * The user list: the listed users in table order, each without its password.
   * Everyone when `showAll` is exactly 'true', otherwise the active users.
   */
  function ListUsers(users: seq<User>, showAll: Option<string>): (r: seq<UserInfo>)
    ensures showAll == Some("true") ==> |r| == |users|
    ensures forall i :: 0 <= i < |r| ==> (showAll == Some("true") || r[i].active)
    ensures forall i :: 0 <= i < |users| && (showAll == Some("true") || users[i].active) ==> Strip(users[i]) in r
    ensures var kept := Filter(users, u => Listed(u, showAll));
      |r| == |kept| && forall i :: 0 <= i < |r| ==> r[i] == Strip(kept[i])
  {
    if users == [] then []
    else
      assert users == [users[0]] + users[1..];
      var rest := ListUsers(users[1..], showAll);
      if showAll == Some("true") || users[0].active then [Strip(users[0])] + rest else rest
  }

  /** The user accounts and the session of the current request. */
  class AuthServer {
    var users: seq<User>
    var session: Session
    var nextId: int

    constructor (users: seq<User>, nextId: int)
      ensures this.users == users && this.nextId == nextId && session == NoSession
    {
      this.users := users;
      this.nextId := nextId;
      session := NoSession;
    }

    /** POST `/login`: the session is written only when the ladder succeeds. */
    method Login(username: string, password: string, compare: (string, string) -> bool)
      returns (r: Result<UserInfo, HttpError>)
      modifies this`session
      ensures var found := FindByUsername(users, username);
        var decision := LoginDecision(if found.Some? then Some(users[found.value]) else None, password, compare);
        (decision.Err? ==> r == Err(decision.error) && session == old(session)) &&
        (decision.Ok? ==>
           var u := decision.value;
           r == Ok(Strip(u)) && session == Session(Some(u.id), Some(u.username), Some(u.role)))
    {
      var found := FindByUsername(users, username);
      var decision := LoginDecision(if found.Some? then Some(users[found.value]) else None, password, compare);
      if decision.Err? {
        return Err(decision.error);
      }
      var u := decision.value;
      session := Session(Some(u.id), Some(u.username), Some(u.role));
      return Ok(Strip(u));
    }

    /** POST `/logout`: the session is destroyed. */
    method Logout()
      modifies this`session
      ensures session == NoSession
    {
      session := NoSession;
    }

    /** GET `/me`: 401 without a session user; 401 and a destroyed session when the user is gone. */
    method Me() returns (r: Result<UserInfo, HttpError>)
      modifies this`session
      ensures !LoggedIn(old(session)) ==> r == Err(HttpError(401, "No autenticado")) && session == old(session)
      ensures LoggedIn(old(session)) ==>
        var found := FindById(users, old(session).userId.value);
        (found.None? ==> r.Err? && r.error.status == 401 && session == NoSession) &&
        (found.Some? ==> r == Ok(Strip(users[found.value])) && session == old(session))
    {
      if !LoggedIn(session) {
        return Err(HttpError(401, "No autenticado"));
      }
      var found := FindById(users, session.userId.value);
      if found.None? {
        session := NoSession;
        return Err(HttpError(401, "Usuario no encontrado"));
      }
      return Ok(Strip(users[found.value]));
    }

    /** POST `/initialize`: creates the 'admin' administrator only while there are no users. */
    method Initialize(hash: string -> string) returns (r: Result<UserInfo, HttpError>)
      modifies this`users, this`nextId
      ensures |old(users)| > 0 ==> r.Err? && r.error.status == 400 && users == old(users) && nextId == old(nextId)
      ensures |old(users)| == 0 ==>
        var admin := User(old(nextId), "admin", hash("admin123"), Haykakan, "Administrador", "admin@haykakan.com", true);
        users == [admin] && nextId == old(nextId) + 1 && r == Ok(Strip(admin))
    {
      if |users| > 0 {
        return Err(HttpError(400, "Ya existen usuarios en el sistema"));
      }
      var admin := User(nextId, "admin", hash("admin123"), Haykakan, "Administrador", "admin@haykakan.com", true);
      users := users + [admin];
      nextId := nextId + 1;
      return Ok(Strip(admin));
    }

    /** POST `/users` behind `isHaykakan`: a taken username is a 400; the password is stored hashed. */
    method CreateUser(username: string, password: string, role: Role, name: string, email: string, active: bool,
                      hash: string -> string)
      returns (r: Result<UserInfo, HttpError>)
      modifies this`users, this`nextId
      ensures IsHaykakan(session).Reject? ==>
        r == Err(IsHaykakan(session).error) && users == old(users) && nextId == old(nextId)
      ensures IsHaykakan(session) == Next && FindByUsername(old(users), username).Some? ==>
        r == Err(HttpError(400, "Nombre de usuario ya existe")) && users == old(users) && nextId == old(nextId)
      ensures IsHaykakan(session) == Next && FindByUsername(old(users), username).None? ==>
        var created := User(old(nextId), username, hash(password), role, name, email, active);
        users == old(users) + [created] && nextId == old(nextId) + 1 && r == Ok(Strip(created))
    {
      var guard := IsHaykakan(session);
      if guard.Reject? {
        return Err(guard.error);
      }
      if FindByUsername(users, username).Some? {
        return Err(HttpError(400, "Nombre de usuario ya existe"));
      }
      var created := User(nextId, username, hash(password), role, name, email, active);
      users := users + [created];
      nextId := nextId + 1;
      return Ok(Strip(created));
    }

    /** GET `/users` behind `isHaykakan`. */
    method GetUsers(showAll: Option<string>) returns (r: Result<seq<UserInfo>, HttpError>)
      ensures IsHaykakan(session).Reject? ==> r == Err(IsHaykakan(session).error)
      ensures IsHaykakan(session) == Next ==> r == Ok(ListUsers(users, showAll))
    {
      var guard := IsHaykakan(session);
      if guard.Reject? {
        return Err(guard.error);
      }
      return Ok(ListUsers(users, showAll));
    }

    /**
     * PATCH `/users/:id` behind `isHaykakan`: 400 for a non-numeric id, 404 for an
     * unknown one, 400 when a new password is not confirmed; otherwise the present
     * fields replace the stored ones and the password follows `NewPasswordHash`.
     */
    method UpdateUser(id: Option<int>, patch: UserPatch, hash: string -> string)
      returns (r: Result<UserInfo, HttpError>)
      modifies this`users
      ensures |users| == |old(users)|
      ensures r.Err? ==> users == old(users)
      ensures IsHaykakan(session).Reject? ==> r == Err(IsHaykakan(session).error)
      ensures IsHaykakan(session) == Next && id.None? ==> r == Err(HttpError(400, "ID de usuario inválido"))
      ensures IsHaykakan(session) == Next && id.Some? && FindById(old(users), id.value).None? ==>
        r == Err(HttpError(404, "Usuario no encontrado"))
      ensures IsHaykakan(session) == Next && id.Some? && FindById(old(users), id.value).Some? ==>
        var k := FindById(old(users), id.value).value;
        var u := old(users)[k];
        var pw := NewPasswordHash(u.password, patch, hash);
        (pw.None? ==> r == Err(HttpError(400, "Las contraseñas no coinciden"))) &&
        (pw.Some? ==>
          var updated := User(u.id, Pick(patch.username, u.username), pw.value, Pick(patch.role, u.role),
                              Pick(patch.name, u.name), Pick(patch.email, u.email), Pick(patch.active, u.active));
          users == old(users)[k := updated] && r == Ok(Strip(updated)))
    {
      var guard := IsHaykakan(session);
      if guard.Reject? {
        return Err(guard.error);
      }
      if id.None? {
        return Err(HttpError(400, "ID de usuario inválido"));
      }
      var found := FindById(users, id.value);
      if found.None? {
        return Err(HttpError(404, "Usuario no encontrado"));
      }
      var u := users[found.value];
      var pw := NewPasswordHash(u.password, patch, hash);
      if pw.None? {
        return Err(HttpError(400, "Las contraseñas no coinciden"));
      }
      var updated := User(u.id, Pick(patch.username, u.username), pw.value, Pick(patch.role, u.role),
                          Pick(patch.name, u.name), Pick(patch.email, u.email), Pick(patch.active, u.active));
      users := users[found.value := updated];
      return Ok(Strip(updated));
    }

    /** PATCH `/users/:id/toggle-active` behind `isHaykakan`: `active` becomes its negation. */
    method ToggleActive(id: Option<int>) returns (r: Result<UserInfo, HttpError>)
      modifies this`users
      ensures |users| == |old(users)|
      ensures r.Err? ==> users == old(users)
      ensures IsHaykakan(session).Reject? ==> r == Err(IsHaykakan(session).error)
      ensures IsHaykakan(session) == Next && id.None? ==> r == Err(HttpError(400, "ID de usuario inválido"))
      ensures IsHaykakan(session) == Next && id.Some? && FindById(old(users), id.value).None? ==>
        r == Err(HttpError(404, "Usuario no encontrado"))
      ensures IsHaykakan(session) == Next && id.Some? && FindById(old(users), id.value).Some? ==>
        var k := FindById(old(users), id.value).value;
        users == old(users)[k := old(users)[k].(active := !old(users)[k].active)] &&
        r == Ok(Strip(users[k]))
    {
      var guard := IsHaykakan(session);
      if guard.Reject? {
        return Err(guard.error);
      }
      if id.None? {
        return Err(HttpError(400, "ID de usuario inválido"));
      }
      var found := FindById(users, id.value);
      if found.None? {
        return Err(HttpError(404, "Usuario no encontrado"));
      }
      var k := found.value;
      users := users[k := users[k].(active := !users[k].active)];
      return Ok(Strip(users[k]));
    }
  }

  /** Toggling twice restores the flag. */
  lemma ToggleTwice(u: User)
    ensures u.(active := !u.active).(active := !u.(active := !u.active).active) == u
  {
  }
}
