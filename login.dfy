/**
 * The `/api/login` decision of the static-site server: the credential
 * guard, the case-insensitive first-match lookup by e-mail, the password
 * check and the 400/401/200 response. The user list is read once at
 * start-up; the password check (bcrypt in the server) is a parameter.
 */
module Login {
  import opened Wrappers
  import opened Text

  datatype User = User(email: string, passwordHash: string)

  /** An HTTP status with the JSON body `{success, message}`. */
  datatype Response = Response(status: int, success: bool, message: string)

  const MissingCredentials: string := "Faltan credenciales."
  const InvalidCredentials: string := "Usuario o contraseña inválidos."
  const Authenticated: string := "Autenticado correctamente."

  /** The user list at start-up: the parsed file, or empty when it cannot be read or parsed. */
  function LoadUsers(file: Option<seq<User>>): (users: seq<User>)
    ensures file.Some? ==> users == file.value
    ensures file.None? ==> users == []
  {
    if file.Some? then file.value else []
  }

  /** Whether `u` is the user `username` names: e-mails compared after lower-casing. */
  predicate Matches(u: User, username: string)
  {
    Lower(u.email) == Lower(username)
  }

  /** `users.find(...)` as an index: the first user whose e-mail matches. */
  function FirstMatch(users: seq<User>, username: string): (r: Option<nat>)
    ensures r.Some? ==> r.value < |users| && Matches(users[r.value], username)
    ensures r.Some? ==> forall j | 0 <= j < r.value :: !Matches(users[j], username)
    ensures r.None? ==> forall j | 0 <= j < |users| :: !Matches(users[j], username)
  {
    if users == [] then None
    else if Matches(users[0], username) then Some(0)
    else
      var rest := FirstMatch(users[1..], username);
      if rest.Some? then Some(rest.value + 1) else None
  }

  /** The lookup depends on the username only through its lower-cased form. */
  lemma FirstMatchCaseInsensitive(users: seq<User>, a: string, b: string)
    requires Lower(a) == Lower(b)
    ensures FirstMatch(users, a) == FirstMatch(users, b)
  {
  }

  /**
   * The login handler. Missing or empty credentials give 400; an unknown
   * e-mail and a wrong password give the same 401 body; success is 200.
   */
  function HandleLogin(users: seq<User>, username: Option<string>, password: Option<string>,
                       check: (string, string) -> bool): (resp: Response)
    ensures !Truthy(username) || !Truthy(password) ==> resp == Response(400, false, MissingCredentials)
    ensures resp.status == 401 ==> resp == Response(401, false, InvalidCredentials)
    ensures resp.status == 200 ==> resp == Response(200, true, Authenticated)
    ensures resp.status == 400 || resp.status == 401 || resp.status == 200
    ensures resp.success <==> resp.status == 200
    ensures resp.status == 200 <==>
              && Truthy(username) && Truthy(password)
              && var i := FirstMatch(users, username.value);
                 i.Some? && check(password.value, users[i.value].passwordHash)
  {
    if !Truthy(username) || !Truthy(password) then Response(400, false, MissingCredentials)
    else
      var i := FirstMatch(users, username.value);
      if i.None? then Response(401, false, InvalidCredentials)
      else if !check(password.value, users[i.value].passwordHash) then Response(401, false, InvalidCredentials)
      else Response(200, true, Authenticated)
  }

  /** The response does not reveal whether the e-mail exists: an unknown e-mail and a wrong password answer alike. */
  lemma UnknownUserLooksLikeWrongPassword(users: seq<User>, unknown: string, known: string, password: string,
                                          check: (string, string) -> bool)
    requires unknown != "" && known != "" && password != ""
    requires FirstMatch(users, unknown).None?
    requires FirstMatch(users, known).Some?
    requires !check(password, users[FirstMatch(users, known).value].passwordHash)
    ensures HandleLogin(users, Some(unknown), Some(password), check)
            == HandleLogin(users, Some(known), Some(password), check)
  {
  }

  /** Logging in with the e-mail in any letter case gives the same answer. */
  lemma LoginCaseInsensitive(users: seq<User>, a: string, b: string, password: Option<string>,
                             check: (string, string) -> bool)
    requires Lower(a) == Lower(b)
    ensures HandleLogin(users, Some(a), password, check) == HandleLogin(users, Some(b), password, check)
  {
    FirstMatchCaseInsensitive(users, a, b);
  }

  /** With an unreadable user file every well-formed login is refused with 401. */
  lemma NoUsersRefuseAll(username: string, password: string, check: (string, string) -> bool)
    requires username != "" && password != ""
    ensures HandleLogin(LoadUsers(None), Some(username), Some(password), check)
            == Response(401, false, InvalidCredentials)
  {
  }
}
