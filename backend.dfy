/**
 * The FocusForge server (server.js): accounts with a password hash and a
 * stored progress snapshot, login sessions keyed by a random token, and
 * the JSON API handlers that act on them. The database file is the
 * `users` field (read and written whole by every handler in the source);
 * the password hash and the token generator are supplied from outside.
 */
module Backend {
  import opened Wrappers
  import opened Snapshot
  import opened Cookies

  const StatusOk := 200
  const StatusCreated := 201
  const StatusBadRequest := 400
  const StatusUnauthorized := 401
  const StatusNotFound := 404
  const StatusConflict := 409
  const StatusServerError := 500

  /** `db.users[name]`: the hash of the password and the stored progress, if any. */
  datatype UserRecord = UserRecord(passwordHash: string, progress: Option<Progress>)

  /** A request field is truthy: present and not the empty string. */
  predicate Given(field: Option<string>) {
    field.Some? && field.value != ""
  }

  const SessionCookieName := "session_token"

  /** The `session_token` cookie of a request, when it is there and not empty. */
  function SessionToken(cookieHeader: Option<string>): Option<string>
  {
    var cookies := ParseCookies(cookieHeader.GetOr(""));
    if SessionCookieName in cookies && cookies[SessionCookieName] != "" then Some(cookies[SessionCookieName]) else None
  }

  /**
   * What `saveProgressForUser(name, progress)` does to the accounts: an
   * unknown name changes nothing; a known one gets the defaulted snapshot
   * and keeps its password hash; nobody else is touched.
   */
  function SaveFor(users: map<string, UserRecord>, name: string, progress: Payload): (r: map<string, UserRecord>)
    ensures name !in users ==> r == users
    ensures r.Keys == users.Keys
    ensures name in users ==>
      && r[name].progress == Some(Normalize(progress))
      && r[name].passwordHash == users[name].passwordHash
    ensures forall other :: other in users && other != name ==> r[other] == users[other]
  {
    if name !in users then users
    else users[name := users[name].(progress := Some(Normalize(progress)))]
  }

  /** Saving the same snapshot twice is the same as saving it once. */
  lemma SaveForIdempotent(users: map<string, UserRecord>, name: string, progress: Payload)
    ensures SaveFor(SaveFor(users, name, progress), name, progress) == SaveFor(users, name, progress)
  {
  }

  /** The last save wins: a save overwrites the whole snapshot of the one before it. */
  lemma SaveForLastWins(users: map<string, UserRecord>, name: string, first: Payload, second: Payload)
    ensures SaveFor(SaveFor(users, name, first), name, second) == SaveFor(users, name, second)
  {
  }

  /** Property names every plain object inherits from `Object.prototype`. */
  const InheritedNames: set<string> := {
    "constructor", "__proto__", "__defineGetter__", "__defineSetter__",
    "__lookupGetter__", "__lookupSetter__", "hasOwnProperty", "isPrototypeOf",
    "propertyIsEnumerable", "toLocaleString", "toString", "valueOf"
  }

  /**
   * The register handler's answer as written: `db.users[username]` is a
   * lookup on a plain object, which also finds the inherited names.
   */
  function RegisterStatusAsWritten(users: map<string, UserRecord>, username: Option<string>, password: Option<string>): (status: int)
    ensures !Given(username) || !Given(password) ==> status == StatusBadRequest
    // off the inherited names, a conflict is exactly an existing account
    ensures Given(username) && Given(password) && username.value !in InheritedNames ==>
      (status == StatusConflict <==> username.value in users) && (status == StatusCreated <==> username.value !in users)
    ensures Given(username) && Given(password) && username.value in InheritedNames ==> status == StatusConflict
  {
    if !Given(username) || !Given(password) then StatusBadRequest
    else if username.value in users || username.value in InheritedNames then StatusConflict
    else StatusCreated
  }

  /** As written, registering "toString" on an empty database is refused as a duplicate. */
  lemma PrototypeNameRefused()
    ensures var noUsers: map<string, UserRecord> := map[];
      && "toString" !in noUsers
      && RegisterStatusAsWritten(noUsers, Some("toString"), Some("secret")) == StatusConflict
  {
  }

  class Server {
    /** `hashPassword` */
    const hash: string -> string
    /** `db.users` */
    var users: map<string, UserRecord>
    /** `sessions`: token to username. */
    var sessions: map<string, string>

    /** A fresh server over the initial database `{ users: {} }`. */
    constructor (hash: string -> string)
      ensures this.hash == hash && users == map[] && sessions == map[]
    {
      this.hash := hash;
      users := map[];
      sessions := map[];
    }

    /** `getUsernameFromSession(req)`: the user the request's session token belongs to. */
    function UsernameFromSession(cookieHeader: Option<string>): (u: Option<string>)
      reads this
      ensures u.Some? <==> SessionToken(cookieHeader).Some? && SessionToken(cookieHeader).value in sessions
      ensures u.Some? ==> u.value == sessions[SessionToken(cookieHeader).value]
    {
      var token := SessionToken(cookieHeader);
      if token.None? || token.value !in sessions then None else Some(sessions[token.value])
    }

    /** POST /api/register, with the lookup finding only registered users. */
    method Register(username: Option<string>, password: Option<string>) returns (status: int)
      modifies this
      ensures sessions == old(sessions)
      ensures !Given(username) || !Given(password) ==> status == StatusBadRequest && users == old(users)
      ensures Given(username) && Given(password) && username.value in old(users) ==>
        status == StatusConflict && users == old(users)
      ensures Given(username) && Given(password) && username.value !in old(users) ==>
        status == StatusCreated &&
        users == old(users)[username.value := UserRecord(hash(password.value), Some(DefaultProgress()))]
    {
      if !Given(username) || !Given(password) {
        return StatusBadRequest;
      }
      if username.value in users {
        return StatusConflict;
      }
      users := users[username.value := UserRecord(hash(password.value), Some(DefaultProgress()))];
      return StatusCreated;
    }

    /**
     * POST /api/login with a fresh `token`. A missing password for an
     * existing user makes the hashing throw, which the handler turns into 500.
     */
    method Login(username: string, password: Option<string>, token: string)
      returns (status: int, progress: Option<Progress>)
      modifies this
      ensures users == old(users)
      ensures status == StatusOk <==>
        username in users && password.Some? && users[username].passwordHash == hash(password.value)
      ensures status == StatusServerError <==> username in users && password.None?
      ensures status == StatusOk || status == StatusUnauthorized || status == StatusServerError
      ensures status != StatusOk ==> sessions == old(sessions) && progress.None?
      ensures status == StatusOk ==>
        && sessions == old(sessions)[token := username]
        && progress == Some(users[username].progress.GetOr(DefaultProgress()))
    {
      if username !in users {
        return StatusUnauthorized, None;
      }
      var user := users[username];
      if password.None? {
        return StatusServerError, None;
      }
      if user.passwordHash != hash(password.value) {
        return StatusUnauthorized, None;
      }
      sessions := sessions[token := username];
      return StatusOk, Some(user.progress.GetOr(DefaultProgress()));
    }

    /** POST /api/logout: forgets the presented session and no other. */
    method Logout(cookieHeader: Option<string>) returns (status: int)
      modifies this
      ensures status == StatusOk
      ensures users == old(users)
      ensures SessionToken(cookieHeader).Some? ==> sessions == old(sessions) - {SessionToken(cookieHeader).value}
      ensures SessionToken(cookieHeader).None? ==> sessions == old(sessions)
    {
      var token := SessionToken(cookieHeader);
      if token.Some? {
        sessions := sessions - {token.value};
      }
      return StatusOk;
    }

    /** GET /api/session: who is logged in, with their stored progress or the default. */
    method Session(cookieHeader: Option<string>) returns (status: int, username: Option<string>, progress: Option<Progress>)
      ensures !Given(UsernameFromSession(cookieHeader)) ==>
        status == StatusUnauthorized && username.None? && progress.None?
      ensures Given(UsernameFromSession(cookieHeader)) ==>
        var u := UsernameFromSession(cookieHeader).value;
        && status == StatusOk && username == Some(u)
        && progress == Some(if u in users then users[u].progress.GetOr(DefaultProgress()) else DefaultProgress())
    {
      var name := UsernameFromSession(cookieHeader);
      if !Given(name) {
        return StatusUnauthorized, None, None;
      }
      var stored := if name.value in users then users[name.value].progress else None;
      return StatusOk, name, Some(stored.GetOr(DefaultProgress()));
    }

    /** `saveProgressForUser(username, progress)` */
    method SaveProgressForUser(username: string, progress: Payload) returns (ok: bool)
      modifies this
      ensures ok <==> username in old(users)
      ensures users == SaveFor(old(users), username, progress)
      ensures sessions == old(sessions)
    {
      if username !in users {
        return false;
      }
      users := users[username := users[username].(progress := Some(Normalize(progress)))];
      return true;
    }

    /**
     * POST /api/progress and POST /api/progress/beacon, whose handlers are
     * the same code: save the body's `progress` (or `{}`) for the session's user.
     */
    method PostProgress(cookieHeader: Option<string>, progress: Option<Payload>) returns (status: int)
      modifies this
      ensures sessions == old(sessions)
      ensures !Given(UsernameFromSession(cookieHeader)) ==> status == StatusUnauthorized && users == old(users)
      ensures Given(UsernameFromSession(cookieHeader)) ==>
        var u := UsernameFromSession(cookieHeader).value;
        && (u !in old(users) ==> status == StatusNotFound && users == old(users))
        && (u in old(users) ==> status == StatusOk && users == SaveFor(old(users), u, progress.GetOr(EmptyPayload)))
    {
      var name := UsernameFromSession(cookieHeader);
      if !Given(name) {
        return StatusUnauthorized;
      }
      var ok := SaveProgressForUser(name.value, progress.GetOr(EmptyPayload));
      if !ok {
        return StatusNotFound;
      }
      return StatusOk;
    }
  }

  /** The cookie a browser sends back after the login response set it. */
  function SessionCookie(token: string): string {
    SessionCookieName + "=" + token
  }

  /** The tokens `createToken` makes: 24 random bytes as 48 lower-case hex digits. */
  predicate HexToken(token: string) {
    |token| == 48 && forall i :: 0 <= i < |token| ==> HexDigit(token[i])
  }

  predicate HexDigit(c: char) {
    '0' <= c <= '9' || 'a' <= c <= 'f'
  }

  /**
   * The cookie the login response sets (a hex token needs no URI escaping)
   * brings the same token back on the next request.
   */
  lemma SessionCookieRoundTrip(token: string)
    requires HexToken(token)
    ensures SessionToken(Some(SessionCookie(token))) == Some(token)
  {
    assert ';' !in token by {
      forall k | 0 <= k < |token| ensures token[k] != ';' {
        assert HexDigit(token[k]);
      }
    }
    assert HexDigit(token[|token| - 1]);
    ParseCookiesSingle(SessionCookieName, token);
  }

  /**
   * The session cookie is found after any other cookies the browser sends
   * before it: whatever `h` holds, `h; session_token=<token>` yields the token.
   */
  lemma SessionCookieAfterOthers(h: string, token: string)
    requires HexToken(token)
    ensures SessionToken(Some(h + "; " + SessionCookie(token))) == Some(token)
  {
    assert ';' !in token by {
      forall k | 0 <= k < |token| ensures token[k] != ';' {
        assert HexDigit(token[k]);
      }
    }
    assert HexDigit(token[|token| - 1]);
    ParseCookiesAppend(h, SessionCookieName, token);
  }

  /**
   * A user registers, logs in, saves a snapshot through the session cookie
   * and asks for the session again: the snapshot comes back, defaulted.
   */
  method RegisterLoginSaveReload(hash: string -> string, name: string, password: string, token: string, progress: Payload)
    returns (reloaded: Option<Progress>)
    requires name != "" && password != "" && HexToken(token)
    ensures reloaded == Some(Normalize(progress))
  {
    var server := new Server(hash);
    var registered := server.Register(Some(name), Some(password));
    var loggedIn, loaded := server.Login(name, Some(password), token);
    var cookie := Some(SessionCookie(token));
    SessionCookieRoundTrip(token);
    var saved := server.PostProgress(cookie, Some(progress));
    var status, user;
    status, user, reloaded := server.Session(cookie);
  }
}
