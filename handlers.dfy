/**
 * The decision chains of the auth and friend handlers in index.js.
 *
 * Foreign calls are parameters: `hash` stands for `bcrypt.hash(password, 10)`
 * (salt included), `compare` for `bcrypt.compare`, `sign` for
 * `jwt.sign({ email }, JWT_SECRET, { expiresIn: '7d' })` at one moment (the
 * token carries the issue time, so each request has its own `sign`), `verify` for
 * `jwt.verify` (the decoded email, or nothing when it throws), `userByCode`
 * for `getUserByCode`, and `code` for the value of
 * `Math.random().toString(36).slice(2, 9)`.
 */
module Handlers {
  import opened Wrappers
  import opened UserDb
  import opened Text

  const BEARER: string := "Bearer "

  /** JavaScript truthiness of an optional request string: present and not empty. */
  predicate Present(s: Option<string>)
  {
    s.Some? && s.value != ""
  }

  /** JavaScript truthiness of a stored value. */
  predicate Truthy(v: Value)
  {
    match v
    case Str(s) => s != ""
    case Num(n) => n != 0
  }

  /** `user.password` is truthy: the account can log in with a password. */
  predicate HasPassword(u: Record)
  {
    "password" in u && Truthy(u["password"])
  }

  /** `u.id`, with `None` for `undefined`. */
  function IdOf(u: Record): Option<Value>
  {
    if "id" in u then Some(u["id"]) else None
  }

  /** The fields of a register or login request body. */
  datatype Credentials = Credentials(email: Option<string>, password: Option<string>, name: Option<string>)

  /** A JSON error reply, or `{ token, user }`. */
  datatype Response = Failed(status: nat, error: string) | Issued(token: string, user: Record)

  /** `{ email: u.email, name: u.name, code: u.code }` once serialised (undefined properties drop out). */
  function Summary(u: Record): (s: Record)
    ensures s.Keys == u.Keys * {"email", "name", "code"}
    ensures forall k :: k in s ==> s[k] == u[k]
  {
    map k | k in u && k in {"email", "name", "code"} :: u[k]
  }

  /** The record `/auth/register` stores. */
  function PasswordUser(email: string, name: string, hashed: string, code: string): Record
  {
    map["email" := Str(email), "name" := Str(name), "password" := Str(hashed), "code" := Str(code)]
  }

  /** The record the Google strategy stores: an empty password marks an OAuth-only account. */
  function OAuthUser(email: string, name: string, code: string): Record
  {
    map["email" := Str(email), "name" := Str(name), "password" := Str(""), "code" := Str(code)]
  }

  /** `name || ''`. */
  function NameOrEmpty(name: Option<string>): string
  {
    if Present(name) then name.value else ""
  }

  /** `profile.displayName || email.split('@')[0]`. */
  function ProfileName(displayName: Option<string>, email: string): (r: string)
    ensures Present(displayName) ==> r == displayName.value
    ensures !Present(displayName) ==> r <= email && '@' !in r && (|r| < |email| ==> email[|r|] == '@')
  {
    if Present(displayName) then displayName.value else BeforeFirst(email, '@')
  }

  /** `POST /auth/register`. */
  method Register(store: Store, body: Credentials, hash: string -> string, sign: string -> string, code: string)
    returns (resp: Response)
    modifies store
    ensures !Present(body.email) || !Present(body.password) ==>
      resp == Failed(400, "Email and password required") && store.users == old(store.users)
    ensures Present(body.email) && Present(body.password) && Lookup(old(store.users), body.email.value).Some? ==>
      resp == Failed(400, "User exists") && store.users == old(store.users)
    ensures Present(body.email) && Present(body.password) && Lookup(old(store.users), body.email.value).None? ==>
      var created := PasswordUser(body.email.value, NameOrEmpty(body.name), hash(body.password.value), code);
      store.users == old(store.users) + [created] &&
      resp == Issued(sign(body.email.value), Summary(created))
    ensures UniqueEmails(old(store.users)) ==> UniqueEmails(store.users)
  {
    if !Present(body.email) || !Present(body.password) {
      return Failed(400, "Email and password required");
    }
    var email, password := body.email.value, body.password.value;
    var existing := store.GetUserByEmail(email);
    if existing.Some? {
      return Failed(400, "User exists");
    }
    var hashed := hash(password);
    var user := PasswordUser(email, NameOrEmpty(body.name), hashed, code);
    ghost var before := store.users;
    var _ := store.CreateUser(user);
    if UniqueEmails(before) {
      AppendFreshKeepsUnique(before, user);
    }
    var token := sign(email);
    resp := Issued(token, Summary(user));
  }

  /** `POST /auth/login`: reads the store and never writes it. */
  method Login(store: Store, body: Credentials, compare: (string, Value) -> bool, sign: string -> string)
    returns (resp: Response)
    ensures !Present(body.email) || !Present(body.password) ==>
      resp == Failed(400, "Email and password required")
    ensures Present(body.email) && Present(body.password) && Lookup(store.users, body.email.value).None? ==>
      resp == Failed(400, "Invalid credentials")
    ensures Present(body.email) && Present(body.password) && Lookup(store.users, body.email.value).Some? ==>
      var user := Lookup(store.users, body.email.value).value;
      (!HasPassword(user) ==> resp == Failed(400, "Please use Google Sign-In for this account")) &&
      (HasPassword(user) && !compare(body.password.value, user["password"]) ==>
         resp == Failed(400, "Invalid credentials")) &&
      (HasPassword(user) && compare(body.password.value, user["password"]) ==>
         resp == Issued(sign(body.email.value), Summary(user)))
  {
    if !Present(body.email) || !Present(body.password) {
      return Failed(400, "Email and password required");
    }
    var email, password := body.email.value, body.password.value;
    var found := store.GetUserByEmail(email);
    if found.None? {
      return Failed(400, "Invalid credentials");
    }
    var user := found.value;
    if !HasPassword(user) {
      return Failed(400, "Please use Google Sign-In for this account");
    }
    var ok := compare(password, user["password"]);
    if !ok {
      return Failed(400, "Invalid credentials");
    }
    var token := sign(email);
    resp := Issued(token, Summary(user));
  }

  /** A Google profile: its email addresses and display name. */
  datatype Profile = Profile(emails: seq<string>, displayName: Option<string>)

  /** The Google strategy's verify callback: `Some(user)` is `cb(null, user)`, `None` is
      `cb(error, null)` (reading `profile.emails[0]` of a profile without emails throws). */
  method GoogleVerify(store: Store, profile: Profile, code: string) returns (r: Option<Record>)
    modifies store
    ensures |profile.emails| == 0 ==> r.None? && store.users == old(store.users)
    ensures |profile.emails| > 0 && Lookup(old(store.users), profile.emails[0]).Some? ==>
      r == Lookup(old(store.users), profile.emails[0]) && store.users == old(store.users)
    ensures |profile.emails| > 0 && Lookup(old(store.users), profile.emails[0]).None? ==>
      var email := profile.emails[0];
      var created := OAuthUser(email, ProfileName(profile.displayName, email), code);
      store.users == old(store.users) + [created] && r == Some(created)
    ensures UniqueEmails(old(store.users)) ==> UniqueEmails(store.users)
  {
    if |profile.emails| == 0 {
      return None;
    }
    var email := profile.emails[0];
    var user := store.GetUserByEmail(email);
    if user.None? {
      var created := OAuthUser(email, ProfileName(profile.displayName, email), code);
      ghost var before := store.users;
      var _ := store.CreateUser(created);
      if UniqueEmails(before) {
        AppendFreshKeepsUnique(before, created);
      }
      user := Some(created);
    }
    r := user;
  }

  /** What `authMiddleware` decides. */
  datatype AuthOutcome = Unauthorized(status: nat, error: string) | Authorized(email: string)

  /** `authMiddleware`: the token is the header with its first `"Bearer "` cut out. */
  function Authenticate(header: Option<string>, verify: string -> Option<string>): (r: AuthOutcome)
    ensures r.Unauthorized? ==> r.status == 401
    ensures !Present(header) <==> r == Unauthorized(401, "No token")
    ensures Present(header) && verify(RemoveFirst(header.value, BEARER)).None? ==> r == Unauthorized(401, "Invalid token")
    ensures Present(header) && verify(RemoveFirst(header.value, BEARER)).Some? ==>
      r == Authorized(verify(RemoveFirst(header.value, BEARER)).value)
    ensures r.Authorized? ==> Present(header) && verify(RemoveFirst(header.value, BEARER)) == Some(r.email)
  {
    if !Present(header) then Unauthorized(401, "No token")
    else match verify(RemoveFirst(header.value, BEARER))
      case None => Unauthorized(401, "Invalid token")
      case Some(email) => Authorized(email)
  }

  /** A header `"Bearer " + t` yields the token `t`. */
  lemma BearerPrefixStripped(t: string)
    ensures RemoveFirst(BEARER + t, BEARER) == t
  {
  }

  /** So `Authenticate` verifies exactly the text after the scheme. */
  lemma BearerHeaderVerified(t: string, verify: string -> Option<string>)
    ensures Authenticate(Some(BEARER + t), verify) ==
      if verify(t).Some? then Authorized(verify(t).value) else Unauthorized(401, "Invalid token")
  {
  }

  /** The first `"Bearer "` is removed wherever it stands, not only as a prefix:
      `"Token Bearer abc"` yields `"Token abc"`. */
  lemma BearerRemovedInside(p: string, t: string)
    requires 'B' !in p
    ensures RemoveFirst(p + BEARER + t, BEARER) == p + t
  {
    RemoveFirstAfter(p, BEARER, t);
  }

  /** What `/api/friends/add` does before `getFriends`. */
  datatype FriendOutcome = Refused(status: nat, error: string) | AddFriendCalled(userId: Option<Value>, friendId: Option<Value>)

  /** `POST /api/friends/add` for the caller whose token carries `callerEmail`. `user.id` of a
      caller that is not in the store throws, which the handler reports as a database error. */
  method AddFriend(store: Store, callerEmail: string, code: Option<string>, userByCode: string -> Option<Record>)
    returns (r: FriendOutcome)
    ensures !Present(code) ==> r == Refused(400, "code required")
    ensures Present(code) && userByCode(code.value).None? ==> r == Refused(404, "No user with that code")
    ensures Present(code) && userByCode(code.value).Some? && Lookup(store.users, callerEmail).None? ==>
      r == Refused(500, "Database error")
    ensures Present(code) && userByCode(code.value).Some? && Lookup(store.users, callerEmail).Some? ==>
      var friend, user := userByCode(code.value).value, Lookup(store.users, callerEmail).value;
      (IdOf(friend) == IdOf(user) ==> r == Refused(400, "Cannot add yourself")) &&
      (IdOf(friend) != IdOf(user) ==> r == AddFriendCalled(IdOf(user), IdOf(friend)))
  {
    if !Present(code) {
      return Refused(400, "code required");
    }
    var user := store.GetUserByEmail(callerEmail);
    var friend := userByCode(code.value);
    if friend.None? {
      return Refused(404, "No user with that code");
    }
    if user.None? {
      return Refused(500, "Database error");
    }
    if IdOf(friend.value) == IdOf(user.value) {
      return Refused(400, "Cannot add yourself");
    }
    r := AddFriendCalled(IdOf(user.value), IdOf(friend.value));
  }

  /** Records written by register and by the Google strategy carry no `id`, so between two of
      them the self-check of `/api/friends/add` always fires. */
  lemma CreatedRecordsShareUndefinedId(email: string, name: string, hashed: string, code: string, email': string, name': string, code': string)
    ensures IdOf(PasswordUser(email, name, hashed, code)) == IdOf(OAuthUser(email', name', code')) == None
  {
  }

  /** Registering and then logging in with the same password returns the same summary and
      a token for the same email, signed at login time. */
  method RegisterThenLogin(file: Option<seq<Record>>, email: string, password: string, name: Option<string>,
                           hash: string -> string, compare: (string, Value) -> bool,
                           signAtRegister: string -> string, signAtLogin: string -> string, code: string)
    returns (registered: Response, loggedIn: Response)
    requires email != "" && password != ""
    requires file.Some? ==> NoMatch(file.value, email)
    requires hash(password) != "" && compare(password, Str(hash(password)))
    ensures registered.Issued? && loggedIn == Issued(signAtLogin(email), registered.user)
  {
    var store := new Store.Load(file);
    var body := Credentials(Some(email), Some(password), name);
    ghost var before := store.users;
    registered := Register(store, body, hash, signAtRegister, code);
    LookupAppend(before, PasswordUser(email, NameOrEmpty(name), hash(password), code), email);
    loggedIn := Login(store, body, compare, signAtLogin);
  }

  /** Registering the same email twice: the second attempt is refused. */
  method RegisterTwice(file: Option<seq<Record>>, email: string, password: string, name: Option<string>,
                       hash: string -> string, sign: string -> string, code: string, code': string)
    returns (first: Response, second: Response)
    requires email != "" && password != ""
    ensures second == Failed(400, "User exists")
  {
    var store := new Store.Load(file);
    var body := Credentials(Some(email), Some(password), name);
    ghost var before := store.users;
    first := Register(store, body, hash, sign, code);
    LookupAppend(before, PasswordUser(email, NameOrEmpty(name), hash(password), code), email);
    second := Register(store, body, hash, sign, code');
  }

  /** An account first created through Google cannot log in with a password. */
  method GoogleThenLogin(file: Option<seq<Record>>, profile: Profile, password: string,
                         compare: (string, Value) -> bool, sign: string -> string, code: string)
    returns (verified: Option<Record>, loggedIn: Response)
    requires |profile.emails| > 0 && profile.emails[0] != "" && password != ""
    requires file.Some? ==> NoMatch(file.value, profile.emails[0])
    ensures verified.Some? && loggedIn == Failed(400, "Please use Google Sign-In for this account")
  {
    var store := new Store.Load(file);
    var email := profile.emails[0];
    ghost var before := store.users;
    verified := GoogleVerify(store, profile, code);
    LookupAppend(before, OAuthUser(email, ProfileName(profile.displayName, email), code), email);
    loggedIn := Login(store, Credentials(Some(email), Some(password), None), compare, sign);
  }

  /** A second Google login finds the record the first one created and adds nothing. */
  method GoogleTwice(file: Option<seq<Record>>, profile: Profile, code: string, code': string)
    returns (first: Option<Record>, second: Option<Record>, before: nat, afterFirst: nat, afterSecond: nat)
    requires |profile.emails| > 0
    ensures first.Some? && second == first
    ensures afterFirst == before || afterFirst == before + 1
    ensures afterSecond == afterFirst
  {
    var store := new Store.Load(file);
    var email := profile.emails[0];
    before := |store.users|;
    ghost var initial := store.users;
    first := GoogleVerify(store, profile, code);
    afterFirst := |store.users|;
    if Lookup(initial, email).None? {
      LookupAppend(initial, first.value, email);
    }
    second := GoogleVerify(store, profile, code');
    afterSecond := |store.users|;
  }
}
