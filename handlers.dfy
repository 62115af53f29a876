/**
 * The route handlers of the backend (backend/main.py, and the older copy backend/app/main.py, whose handlers
 * are the same except that its post listing has no author filter and it has no upload route). Each handler
 * that writes works on the `Store.Database` and commits once; the clock, `uuid4`, `secrets`, bcrypt, the
 * token signer and the mail transport are parameters.
 */
module Handlers {
  import opened Wrappers
  import opened Text
  import opened Json
  import opened Uuid
  import opened Models
  import opened Schemas
  import opened Store
  import opened Sorting
  import Config
  import Auth
  import Email
  import FrontendTypes

  // ---------------------------------------------------------------------------
  // Authentication of a protected route

  /** What `OAuth2PasswordBearer` answers when the request has no bearer token. */
  const NOT_AUTHENTICATED := HttpError(UNAUTHORIZED, "Not authenticated")

  /**
   * The dependency chain `require_roles(...)`: no bearer token is 401 before any decoding, then the token is
   * turned into the current user and the role is checked.
   */
  function Authenticate(users: seq<UserRow>, bearer: Option<string>, decode: string -> Option<Auth.Claims>,
                        allowed: set<UserRole>): (r: Result<UserRow, HttpError>)
    ensures bearer.None? ==> r == Err(NOT_AUTHENTICATED)
    ensures bearer.Some? ==> r == Auth.Authorize(users, bearer.value, decode, allowed)
    ensures r.Ok? ==> r.value in users && r.value.isActive && (r.value.role in allowed || r.value.role == SuperAdmin)
  {
    match bearer
    case None => Err(NOT_AUTHENTICATED)
    case Some(token) => Auth.Authorize(users, token, decode, allowed)
  }

  /** The roles that may post, comment and upload. */
  const MEMBER_ROLES: set<UserRole> := {User, Admin}

  /** A visitor is authenticated but never passes the member gate, whatever route it guards. */
  lemma VisitorRefused(users: seq<UserRow>, token: string, decode: string -> Option<Auth.Claims>)
    requires Auth.GetCurrentUser(users, token, decode).Ok? && Auth.GetCurrentUser(users, token, decode).value.role == Visitor
    ensures Authenticate(users, Some(token), decode, MEMBER_ROLES) == Err(Auth.PERMISSION_ERROR)
    ensures Authenticate(users, Some(token), decode, {Admin}) == Err(Auth.PERMISSION_ERROR)
  {
  }

  // ---------------------------------------------------------------------------
  // POST /auth/request-code

  const CODE_LENGTH := 6
  /** Fifteen minutes, in seconds. */
  const CODE_LIFETIME := 15 * 60
  const CODE_MESSAGE := "Verification code generated"
  const SEND_FAILED := HttpError(INTERNAL_ERROR, "Failed to send verification email")

  /** `email.strip().lower()`: the form in which addresses are stored and compared. */
  function NormalizeEmail(email: string): (r: string)
    ensures AsciiLower(r) == r
    ensures |r| == |PyStrip(email)|
    ensures forall i :: 0 <= i < |r| ==> r[i] == LowerChar(PyStrip(email)[i])
  {
    AsciiLowerIdempotent(PyStrip(email));
    AsciiLower(PyStrip(email))
  }

  /** Six draws of `secrets.choice(string.digits)`, each the index of the digit drawn. */
  predicate ValidDraws(draws: seq<nat>) {
    |draws| == CODE_LENGTH && forall i :: 0 <= i < |draws| ==> draws[i] < 10
  }

  /** `_generate_code()`: six decimal digits, the i-th being the i-th draw. */
  function GenerateCode(draws: seq<nat>): (code: string)
    requires ValidDraws(draws)
    ensures |code| == CODE_LENGTH
    ensures forall i :: 0 <= i < |code| ==> IsDigit(code[i]) && HexValue(code[i]) == draws[i]
  {
    seq(CODE_LENGTH, i requires 0 <= i < CODE_LENGTH => DigitChar(draws[i]))
  }

  /** The row `request_email_code` adds: the normalised address, the code, unused, expiring 15 minutes from now. */
  function IssuedCode(id: nat, email: string, draws: seq<nat>, now: Instant): (row: CodeRow)
    requires ValidDraws(draws)
    ensures row.id == id && row.email == NormalizeEmail(email) && row.code == GenerateCode(draws)
    ensures row.expiresAt == now + CODE_LIFETIME && !row.used && row.createdAt == now
  {
    CodeRow(id, NormalizeEmail(email), GenerateCode(draws), now + CODE_LIFETIME, false, now)
  }

  /** `settings.environment.lower() == "production"`. */
  predicate IsProduction(s: Config.Settings) {
    AsciiLower(s.environment) == "production"
  }

  /**
   * The answer once the code is stored: a failed send is an error only in production, and the code is
   * disclosed only outside production.
   */
  function CodeReply(code: string, sent: bool, production: bool): (r: Result<CodeResponse, HttpError>)
    ensures r.Err? <==> !sent && production
    ensures r.Err? ==> r.error == SEND_FAILED
    ensures r.Ok? ==> r.value.message == CODE_MESSAGE
    ensures r.Ok? ==> (r.value.code.Some? <==> !production)
    ensures r.Ok? && r.value.code.Some? ==> r.value.code.value == code
  {
    if !sent && production then Err(SEND_FAILED)
    else Ok(CodeResponse(CODE_MESSAGE, if production then None else Some(code)))
  }

  /** The mail configuration and transport `send_verification_email` uses. */
  datatype Mailer = Mailer(env: Email.Env, files: Email.Files, parse: string -> Option<Json>, deliver: Email.Deliver)

  /** Whether the code mail for `row` reaches one of the configured sender accounts. */
  predicate CodeMailSent(mailer: Mailer, row: CodeRow, appName: string) {
    Email.FirstSuccess(Email.SenderAccounts(mailer.env, mailer.files, mailer.parse), 0,
                       Email.VerificationMail(row.email, row.code, appName), mailer.deliver).Some?
  }

  /** The code table with one more row whose number is new: it stays consistent iff the row's columns fit. */
  lemma {:induction false} AddCodeConsistent(t: Tables, nextCodeId: nat, nextSectionId: nat, row: CodeRow)
    requires Consistent(t) && Numbered(t, nextCodeId, nextSectionId) && row.id == nextCodeId
    ensures Consistent(t.(codes := t.codes + [row])) <==> |row.email| <= EMAIL_MAX && |row.code| <= CODE_MAX
    ensures Numbered(t.(codes := t.codes + [row]), nextCodeId + 1, nextSectionId)
  {
    var cs := t.codes + [row];
    assert cs[|t.codes|] == row;
    if |row.email| <= EMAIL_MAX && |row.code| <= CODE_MAX {
      forall i, j | 0 <= i < j < |cs|
        ensures cs[i].id != cs[j].id
      {
        assert cs[i] == t.codes[i];
        if j < |t.codes| {
          assert cs[j] == t.codes[j];
        }
      }
      forall i | 0 <= i < |cs|
        ensures |cs[i].email| <= EMAIL_MAX && |cs[i].code| <= CODE_MAX
      {
        if i < |t.codes| {
          assert cs[i] == t.codes[i];
        }
      }
    }
  }

  /**
   * `request_email_code`: draws a code, numbers and commits its row, and only then mails it. An address too
   * long for its column makes the commit fail (server error) and nothing is sent; a number drawn for it stays
   * used.
   */
  method RequestEmailCode(db: Database, s: Config.Settings, mailer: Mailer, payload: EmailCodeRequest,
                          draws: seq<nat>, now: Instant)
    returns (r: Result<CodeResponse, HttpError>, sent: bool)
    requires db.Valid() && ValidDraws(draws)
    modifies db
    ensures db.Valid()
    ensures db.nextCodeId == old(db.nextCodeId) + 1 && db.nextSectionId == old(db.nextSectionId)
    ensures var row := IssuedCode(old(db.nextCodeId), payload.email, draws, now);
      if |row.email| <= EMAIL_MAX then
        && db.Snapshot() == old(db.Snapshot()).(codes := old(db.codes) + [row])
        && sent == CodeMailSent(mailer, row, s.appName)
        && r == CodeReply(row.code, sent, IsProduction(s))
      else
        db.Snapshot() == old(db.Snapshot()) && !sent && r == Err(SERVER_ERROR)
  {
    var code := GenerateCode(draws);
    var id := db.NextCodeId();
    var row := CodeRow(id, NormalizeEmail(payload.email), code, now + CODE_LIFETIME, false, now);
    var t := db.Snapshot().(codes := db.codes + [row]);
    AddCodeConsistent(db.Snapshot(), id, db.nextSectionId, row);
    var ok := db.Commit(t);
    if !ok {
      return Err(SERVER_ERROR), false;
    }
    sent := Email.SendVerificationEmail(mailer.env, mailer.files, mailer.parse, mailer.deliver, row.email, code, s.appName);
    r := CodeReply(code, sent, IsProduction(s));
  }

  // ---------------------------------------------------------------------------
  // POST /auth/register

  const INVALID_CODE := HttpError(BAD_REQUEST, "Invalid or expired code")
  const EMAIL_TAKEN := HttpError(BAD_REQUEST, "email already registered")
  const USERNAME_TAKEN := HttpError(BAD_REQUEST, "username already registered")

  /** The code query's filter: the address (lower-cased) and the code match, unused, not yet expired. */
  predicate CodeMatches(c: CodeRow, email: string, code: string, now: Instant) {
    AsciiLower(c.email) == email && c.code == code && !c.used && c.expiresAt > now
  }

  /**
   * `.order_by(created_at.desc()).first()` over the matching codes: the index of a newest one (the last
   * inserted among equally new ones), or None when no code matches.
   */
  function NewestCode(codes: seq<CodeRow>, email: string, code: string, now: Instant): (r: Option<nat>)
    ensures r.Some? ==> r.value < |codes| && CodeMatches(codes[r.value], email, code, now)
    ensures r.Some? ==> forall j :: 0 <= j < |codes| && CodeMatches(codes[j], email, code, now) ==>
      codes[j].createdAt <= codes[r.value].createdAt
    ensures r.None? <==> forall j :: 0 <= j < |codes| ==> !CodeMatches(codes[j], email, code, now)
  {
    if codes == [] then None
    else
      var n := |codes| - 1;
      var best := NewestCode(codes[..n], email, code, now);
      assert forall j :: 0 <= j < n ==> codes[..n][j] == codes[j];
      if CodeMatches(codes[n], email, code, now) && (best.None? || codes[best.value].createdAt <= codes[n].createdAt)
      then Some(n)
      else best
  }

  /** `filter(func.lower(User.email) == normalized_email).first()` finds someone. */
  predicate EmailTaken(users: seq<UserRow>, email: string) {
    exists i :: 0 <= i < |users| && AsciiLower(users[i].email) == email
  }

  /** `filter(User.username == username).first()` finds someone. */
  predicate UsernameTaken(users: seq<UserRow>, username: string) {
    exists i :: 0 <= i < |users| && users[i].username == username
  }

  /**
   * The checks before anything is written, in the order they run: the body's validation (422), a usable code,
   * a new address, a new username. Success gives the index of the code to spend.
   */
  function RegisterCheck(t: Tables, payload: RegisterRequest, now: Instant): (r: Result<nat, HttpError>)
    ensures !RegisterRequestValid(payload) ==> r == Err(VALIDATION_FAILED)
    ensures RegisterRequestValid(payload) ==>
      (r == Err(INVALID_CODE) <==> NewestCode(t.codes, NormalizeEmail(payload.email), payload.verificationCode, now).None?)
    ensures r.Ok? <==> && RegisterRequestValid(payload)
                       && NewestCode(t.codes, NormalizeEmail(payload.email), payload.verificationCode, now).Some?
                       && !EmailTaken(t.users, NormalizeEmail(payload.email))
                       && !UsernameTaken(t.users, payload.username)
    ensures r.Ok? ==> r.value < |t.codes| && CodeMatches(t.codes[r.value], NormalizeEmail(payload.email), payload.verificationCode, now)
    ensures r.Err? && r.error == EMAIL_TAKEN ==> EmailTaken(t.users, NormalizeEmail(payload.email))
    ensures r.Err? && r.error == USERNAME_TAKEN ==> UsernameTaken(t.users, payload.username)
  {
    var email := NormalizeEmail(payload.email);
    if !RegisterRequestValid(payload) then Err(VALIDATION_FAILED)
    else match NewestCode(t.codes, email, payload.verificationCode, now)
      case None => Err(INVALID_CODE)
      case Some(i) =>
        if EmailTaken(t.users, email) then Err(EMAIL_TAKEN)
        else if UsernameTaken(t.users, payload.username) then Err(USERNAME_TAKEN)
        else Ok(i)
  }

  /** `payload.x or settings.default_x`: an absent or empty choice falls back to the default. */
  function OrDefault(choice: Option<string>, default: string): (r: string)
    ensures choice.Some? && choice.value != [] ==> r == choice.value
    ensures choice.None? || choice.value == [] ==> r == default
  {
    if choice.Some? && choice.value != [] then choice.value else default
  }

  /** The user `register_user` creates: role USER, verified address, active, the chosen or default preferences. */
  function RegisteredUser(payload: RegisterRequest, s: Config.Settings, passwordHash: string, id: Uuid, now: Instant): (u: UserRow)
    ensures u.id == id && u.username == payload.username && u.email == NormalizeEmail(payload.email)
    ensures u.hashedPassword == passwordHash && u.role == User && u.emailVerified && u.isActive
    ensures u.preferredLocale == OrDefault(payload.preferredLocale, s.defaultLocale)
    ensures u.preferredTheme == OrDefault(payload.preferredTheme, s.defaultTheme)
    ensures u.createdAt == now && u.updatedAt == now
  {
    NewUser(id, payload.username, NormalizeEmail(payload.email), passwordHash, now).(
      preferredLocale := OrDefault(payload.preferredLocale, s.defaultLocale),
      preferredTheme := OrDefault(payload.preferredTheme, s.defaultTheme),
      emailVerified := true)
  }

  /** The tables after a registration: the user appended and the code spent. */
  function Registered(t: Tables, codeIndex: nat, u: UserRow): Tables
    requires codeIndex < |t.codes|
  {
    t.(users := t.users + [u], codes := t.codes[codeIndex := t.codes[codeIndex].(used := true)])
  }

  /** Whether any user already has identifier `id`. */
  predicate IdTaken(users: seq<UserRow>, id: Uuid) {
    exists i :: 0 <= i < |users| && users[i].id == id
  }

  /**
   * After the checks pass, the commit succeeds iff the new identifier is unused and the user's columns fit;
   * the unique constraints on username and email can no longer fail.
   */
  lemma RegisteredConsistent(t: Tables, codeIndex: nat, u: UserRow)
    requires Consistent(t) && codeIndex < |t.codes|
    requires AsciiLower(u.email) == u.email && !EmailTaken(t.users, u.email) && !UsernameTaken(t.users, u.username)
    ensures Consistent(Registered(t, codeIndex, u)) <==> UserFits(u) && !IdTaken(t.users, u.id)
  {
    var t2 := Registered(t, codeIndex, u);
    assert t2.users[|t.users|] == u;
    if UserFits(u) && !IdTaken(t.users, u.id) {
      forall i | 0 <= i < |t.users|
        ensures t.users[i].id != u.id && t.users[i].username != u.username && t.users[i].email != u.email
      {
        assert AsciiLower(t.users[i].email) != u.email;
      }
      AddUserOk(t.users, u);
      AddUserKeepsReferences(t, u);
      SpendCodeOk(t.codes, codeIndex);
    } else if IdTaken(t.users, u.id) {
      var k :| 0 <= k < |t.users| && t.users[k].id == u.id;
      assert t2.users[k] == t.users[k];
    }
  }

  /** Marking one code used keeps the code table consistent. */
  lemma SpendCodeOk(codes: seq<CodeRow>, i: nat)
    requires CodesOk(codes) && i < |codes|
    ensures CodesOk(codes[i := codes[i].(used := true)])
  {
  }

  /** A user appended to the users table keeps every reference to an existing user valid. */
  lemma AddUserKeepsReferences(t: Tables, u: UserRow)
    requires Consistent(t)
    ensures PostsOk(t.posts, t.users + [u]) && CommentsOk(t.comments, t.posts, t.users + [u])
    ensures SectionsOk(t.sections, t.users + [u])
  {
    forall id | IsUserId(t.users, id)
      ensures IsUserId(t.users + [u], id)
    {
      var k :| 0 <= k < |t.users| && t.users[k].id == id;
      assert (t.users + [u])[k] == t.users[k];
    }
  }

  /**
   * `register_user`: the checks of `RegisterCheck`, then the new user added and the code marked used in one
   * commit; a commit the database rejects is the server error and changes nothing.
   */
  method RegisterUser(db: Database, s: Config.Settings, hash: string -> string, payload: RegisterRequest,
                      newId: Uuid, now: Instant)
    returns (r: Result<UserRow, HttpError>)
    requires db.Valid()
    modifies db
    ensures db.Valid()
    ensures db.nextCodeId == old(db.nextCodeId) && db.nextSectionId == old(db.nextSectionId)
    ensures var check := RegisterCheck(old(db.Snapshot()), payload, now);
      var u := RegisteredUser(payload, s, hash(payload.password), newId, now);
      && (check.Err? ==> r == Err(check.error) && db.Snapshot() == old(db.Snapshot()))
      && (check.Ok? && Consistent(Registered(old(db.Snapshot()), check.value, u)) ==>
            r == Ok(u) && db.Snapshot() == Registered(old(db.Snapshot()), check.value, u))
      && (check.Ok? && !Consistent(Registered(old(db.Snapshot()), check.value, u)) ==>
            r == Err(SERVER_ERROR) && db.Snapshot() == old(db.Snapshot()))
  {
    var check := RegisterCheck(db.Snapshot(), payload, now);
    if check.Err? {
      return Err(check.error);
    }
    var u := RegisteredUser(payload, s, hash(payload.password), newId, now);
    var t := Registered(db.Snapshot(), check.value, u);
    assert Numbered(t, db.nextCodeId, db.nextSectionId) by {
      assert forall i :: 0 <= i < |t.codes| ==> t.codes[i].id == db.codes[i].id;
    }
    var ok := db.Commit(t);
    r := if ok then Ok(u) else Err(SERVER_ERROR);
  }

  /** Once an address has registered, registering it again fails, whatever code or username is offered. */
  lemma RegisterOnce(t: Tables, codeIndex: nat, u: UserRow, again: RegisterRequest, now: Instant)
    requires codeIndex < |t.codes|
    requires u.email == NormalizeEmail(again.email)
    ensures RegisterCheck(Registered(t, codeIndex, u), again, now).Err?
  {
    var users := Registered(t, codeIndex, u).users;
    assert users[|t.users|] == u;
    assert AsciiLower(users[|t.users|].email) == NormalizeEmail(again.email);
  }

  /** A spent code no longer matches, so a code admits one registration only. */
  lemma SpentCodeRefused(t: Tables, codeIndex: nat, u: UserRow, email: string, code: string, now: Instant)
    requires codeIndex < |t.codes|
    ensures !CodeMatches(Registered(t, codeIndex, u).codes[codeIndex], email, code, now)
  {
  }

  /** A code matches only until it expires. */
  lemma ExpiredCodeRefused(c: CodeRow, email: string, code: string, now: Instant)
    requires c.expiresAt <= now
    ensures !CodeMatches(c, email, code, now)
  {
  }

  // ---------------------------------------------------------------------------
  // POST /auth/login

  const INVALID_CREDENTIALS := HttpError(UNAUTHORIZED, "Invalid credentials")
  const USER_INACTIVE := HttpError(FORBIDDEN, "User inactive")

  /** The login query's filter: the address matches case-insensitively, or the username exactly. */
  predicate IdentifiedBy(u: UserRow, identifier: string) {
    AsciiLower(u.email) == AsciiLower(identifier) || u.username == identifier
  }

  /** The indices, in increasing order, of the users the login query returns. */
  function MatchingUsers(users: seq<UserRow>, identifier: string): (r: seq<nat>)
    ensures forall k :: 0 <= k < |r| ==> r[k] < |users| && IdentifiedBy(users[r[k]], identifier)
    ensures forall i :: 0 <= i < |users| && IdentifiedBy(users[i], identifier) ==> i in r
    ensures forall a, b :: 0 <= a < b < |r| ==> r[a] < r[b]
  {
    if users == [] then []
    else
      var n := |users| - 1;
      var front := MatchingUsers(users[..n], identifier);
      assert forall j :: 0 <= j < n ==> users[..n][j] == users[j];
      if IdentifiedBy(users[n], identifier) then
        var r := front + [n];
        assert forall k :: 0 <= k < |front| ==> r[k] == front[k] && r[k] < n;
        assert r[|front|] == n;
        r
      else front
  }

  /** Nobody matches: the query returns nothing. */
  lemma {:induction false} NoMatch(users: seq<UserRow>, identifier: string)
    requires forall j :: 0 <= j < |users| ==> !IdentifiedBy(users[j], identifier)
    ensures MatchingUsers(users, identifier) == []
  {
    if users != [] {
      var n := |users| - 1;
      assert forall j :: 0 <= j < n ==> users[..n][j] == users[j];
      NoMatch(users[..n], identifier);
    }
  }

  /** A user who is the only match is the whole answer of the query. */
  lemma {:induction false} OnlyMatch(users: seq<UserRow>, identifier: string, i: nat)
    requires i < |users| && IdentifiedBy(users[i], identifier)
    requires forall j :: 0 <= j < |users| && j != i ==> !IdentifiedBy(users[j], identifier)
    ensures MatchingUsers(users, identifier) == [i]
  {
    var n := |users| - 1;
    assert forall j :: 0 <= j < n ==> users[..n][j] == users[j];
    if i == n {
      NoMatch(users[..n], identifier);
    } else {
      OnlyMatch(users[..n], identifier, i);
    }
  }

  /**
   * `login`: strips the identifier; no match, or a password that does not verify, is 401; an inactive user
   * is 403, checked after the password; several matching rows make `one_or_none` raise. Otherwise a token for
   * the user's identifier and stored role, with the configured lifetime.
   */
  function Login(users: seq<UserRow>, payload: LoginRequest, verify: (string, string) -> bool,
                 encode: Auth.Claims -> string, now: Instant, minutes: int): (r: Result<TokenResponse, HttpError>)
    ensures MatchingUsers(users, PyStrip(payload.identifier)) == [] ==> r == Err(INVALID_CREDENTIALS)
    ensures |MatchingUsers(users, PyStrip(payload.identifier))| > 1 ==> r == Err(SERVER_ERROR)
    ensures r.Ok? ==> (exists i ::
      && 0 <= i < |users| && MatchingUsers(users, PyStrip(payload.identifier)) == [i]
      && verify(payload.password, users[i].hashedPassword) && users[i].isActive
      && r.value == BearerToken(Auth.CreateAccessToken(UuidText(users[i].id), users[i].role, None, now, minutes, encode)))
  {
    var found := MatchingUsers(users, PyStrip(payload.identifier));
    if found == [] then Err(INVALID_CREDENTIALS)
    else if |found| > 1 then Err(SERVER_ERROR)
    else
      var u := users[found[0]];
      if !verify(payload.password, u.hashedPassword) then Err(INVALID_CREDENTIALS)
      else if !u.isActive then Err(USER_INACTIVE)
      else Ok(BearerToken(Auth.CreateAccessToken(UuidText(u.id), u.role, None, now, minutes, encode)))
  }

  /** The only matching user: a wrong password is 401 even for an inactive user, and an inactive user is 403. */
  lemma LoginChecksPasswordFirst(users: seq<UserRow>, payload: LoginRequest, verify: (string, string) -> bool,
                                 encode: Auth.Claims -> string, now: Instant, minutes: int, i: nat)
    requires i < |users| && MatchingUsers(users, PyStrip(payload.identifier)) == [i]
    ensures !verify(payload.password, users[i].hashedPassword) ==> Login(users, payload, verify, encode, now, minutes) == Err(INVALID_CREDENTIALS)
    ensures verify(payload.password, users[i].hashedPassword) && !users[i].isActive ==>
      Login(users, payload, verify, encode, now, minutes) == Err(USER_INACTIVE)
    ensures verify(payload.password, users[i].hashedPassword) && users[i].isActive ==>
      Login(users, payload, verify, encode, now, minutes).Ok?
  {
  }

  /**
   * A user can sign in with their address in any letter case: when no other user is identified by it, the
   * token is theirs, and it authenticates them on every protected route.
   */
  lemma LoginByEmail(users: seq<UserRow>, i: nat, identifier: string, password: string, verify: (string, string) -> bool,
                     encode: Auth.Claims -> string, decode: string -> Option<Auth.Claims>, now: Instant, minutes: int)
    requires UsersOk(users) && i < |users| && users[i].isActive && verify(password, users[i].hashedPassword)
    requires AsciiLower(PyStrip(identifier)) == AsciiLower(users[i].email)
    requires forall j :: 0 <= j < |users| && j != i ==> !IdentifiedBy(users[j], PyStrip(identifier))
    requires forall c :: decode(encode(c)) == Some(c)
    ensures var r := Login(users, LoginRequest(identifier, password), verify, encode, now, minutes);
      r.Ok? && Auth.GetCurrentUser(users, r.value.accessToken, decode) == Ok(users[i])
  {
    OnlyMatch(users, PyStrip(identifier), i);
    Auth.IssuedTokenAuthenticates(users, i, users[i].role, None, now, minutes, encode, decode);
  }

  /**
   * The login query asks for one row among users matched by address or by username, so an identifier that is
   * one user's address and another user's username is a server error rather than a sign-in.
   */
  lemma LoginAmbiguous(users: seq<UserRow>, payload: LoginRequest, verify: (string, string) -> bool,
                       encode: Auth.Claims -> string, now: Instant, minutes: int, i: nat, j: nat)
    requires i < |users| && j < |users| && i != j
    requires IdentifiedBy(users[i], PyStrip(payload.identifier)) && IdentifiedBy(users[j], PyStrip(payload.identifier))
    ensures Login(users, payload, verify, encode, now, minutes) == Err(SERVER_ERROR)
  {
    var r := MatchingUsers(users, PyStrip(payload.identifier));
    assert i in r && j in r;
    var a :| 0 <= a < |r| && r[a] == i;
    var b :| 0 <= b < |r| && r[b] == j;
    assert a != b;
  }

  // ---------------------------------------------------------------------------
  // GET /posts

  const MAX_PAGE_SIZE := 20

  /** The key of `order_by(Post.created_at.desc())`: a later creation instant sorts first. */
  function NewestFirst(p: PostRow): int {
    -p.createdAt
  }

  /** `filter(Post.author_id == author_id)` when an author is given, every post otherwise. */
  function ByAuthor(posts: seq<PostRow>, author: Option<Uuid>): (r: seq<PostRow>)
    ensures author.None? ==> r == posts
    ensures forall i :: 0 <= i < |r| ==> r[i] in posts && (author.Some? ==> r[i].authorId == author.value)
    ensures author.Some? ==> forall i :: 0 <= i < |posts| && posts[i].authorId == author.value ==> posts[i] in r
  {
    if author.None? || posts == [] then posts
    else
      var n := |posts| - 1;
      var front := ByAuthor(posts[..n], author);
      assert forall i :: 0 <= i < n ==> posts[..n][i] == posts[i];
      if posts[n].authorId == author.value then front + [posts[n]] else front
  }

  /** The posts the listing pages through, newest first. */
  function Feed(posts: seq<PostRow>, author: Option<Uuid>): (r: seq<PostRow>)
    ensures |r| == |ByAuthor(posts, author)| && SortedBy(r, NewestFirst)
    ensures multiset(r) == multiset(ByAuthor(posts, author))
  {
    SortBySorted(ByAuthor(posts, author), NewestFirst);
    SortBy(ByAuthor(posts, author), NewestFirst)
  }

  /** `.offset((page - 1) * page_size).limit(page_size)`: the window of `s` that page covers, possibly empty. */
  function PageSlice(s: seq<PostRow>, page: int, pageSize: int): (r: seq<PostRow>)
    requires page >= 1 && pageSize >= 1
    ensures |r| <= pageSize
    ensures |r| == 0 <==> PageOffset(page, pageSize) >= |s|
    ensures forall k :: 0 <= k < |r| ==> PageOffset(page, pageSize) + k < |s| && r[k] == s[PageOffset(page, pageSize) + k]
    ensures PageOffset(page, pageSize) + pageSize <= |s| ==> |r| == pageSize
  {
    var lo := PageOffset(page, pageSize);
    if lo >= |s| then [] else s[lo..if lo + pageSize < |s| then lo + pageSize else |s|]
  }

  /**
   * `list_posts`: 422 unless page >= 1 and 1 <= page_size <= 20; otherwise the page of the (author-filtered)
   * feed, newest first, its total, and whether a later page has posts.
   */
  function ListPosts(posts: seq<PostRow>, page: int, pageSize: int, author: Option<Uuid>): (r: Result<PaginatedPosts, HttpError>)
    ensures r.Ok? <==> page >= 1 && 1 <= pageSize <= MAX_PAGE_SIZE
    ensures r.Err? ==> r.error == VALIDATION_FAILED
    ensures r.Ok? ==> r.value.page == page && r.value.pageSize == pageSize
    ensures r.Ok? ==> r.value.total == |ByAuthor(posts, author)| && |r.value.items| <= pageSize
    ensures r.Ok? ==> (r.value.hasMore <==> page * pageSize < r.value.total)
    ensures r.Ok? ==> SortedBy(r.value.items, NewestFirst)
    ensures r.Ok? ==> forall k :: 0 <= k < |r.value.items| ==>
      r.value.items[k] in posts && (author.Some? ==> r.value.items[k].authorId == author.value)
  {
    if page < 1 || pageSize < 1 || pageSize > MAX_PAGE_SIZE then Err(VALIDATION_FAILED)
    else
      var feed := Feed(posts, author);
      var items := PageSlice(feed, page, pageSize);
      SliceSorted(feed, page, pageSize);
      FeedMembers(posts, author, items, page, pageSize);
      Ok(PaginatedPosts(items, page, pageSize, |feed|, page * pageSize < |feed|))
  }

  /** A window of a newest-first sequence is newest first. */
  lemma SliceSorted(s: seq<PostRow>, page: int, pageSize: int)
    requires page >= 1 && pageSize >= 1 && SortedBy(s, NewestFirst)
    ensures SortedBy(PageSlice(s, page, pageSize), NewestFirst)
  {
    var r := PageSlice(s, page, pageSize);
    var lo := (page - 1) * pageSize;
    forall a, b | 0 <= a < b < |r|
      ensures NewestFirst(r[a]) <= NewestFirst(r[b])
    {
      assert r[a] == s[lo + a] && r[b] == s[lo + b];
    }
  }

  /** Every post of a page of the feed is a stored post, by the requested author if there is one. */
  lemma FeedMembers(posts: seq<PostRow>, author: Option<Uuid>, items: seq<PostRow>, page: int, pageSize: int)
    requires page >= 1 && pageSize >= 1 && items == PageSlice(Feed(posts, author), page, pageSize)
    ensures forall k :: 0 <= k < |items| ==> items[k] in posts && (author.Some? ==> items[k].authorId == author.value)
  {
    var feed := Feed(posts, author);
    forall j | 0 <= j < |feed|
      ensures feed[j] in posts && (author.Some? ==> feed[j].authorId == author.value)
    {
      FeedPostChosen(posts, author, j);
    }
    WindowMembers(feed, posts, author, page, pageSize);
  }

  /** A page of posts that all passed the author filter holds only such posts. */
  lemma WindowMembers(s: seq<PostRow>, posts: seq<PostRow>, author: Option<Uuid>, page: int, pageSize: int)
    requires page >= 1 && pageSize >= 1
    requires forall j :: 0 <= j < |s| ==> s[j] in posts && (author.Some? ==> s[j].authorId == author.value)
    ensures var r := PageSlice(s, page, pageSize);
      forall k :: 0 <= k < |r| ==> r[k] in posts && (author.Some? ==> r[k].authorId == author.value)
  {
    var r := PageSlice(s, page, pageSize);
    var lo := (page - 1) * pageSize;
    forall k | 0 <= k < |r|
      ensures r[k] in posts && (author.Some? ==> r[k].authorId == author.value)
    {
      assert r[k] == s[lo + k];
    }
  }

  /** Every post of the feed passed the author filter. */
  lemma FeedPostChosen(posts: seq<PostRow>, author: Option<Uuid>, j: nat)
    requires j < |Feed(posts, author)|
    ensures Feed(posts, author)[j] in posts
    ensures author.Some? ==> Feed(posts, author)[j].authorId == author.value
  {
    var x := Feed(posts, author)[j];
    var chosen := ByAuthor(posts, author);
    assert x in multiset(Feed(posts, author));
    assert x in multiset(chosen);
    var i :| 0 <= i < |chosen| && chosen[i] == x;
  }

  /** Post number k of the feed (counting from 0) is item k mod size of page k div size + 1. */
  lemma PostOnItsPage(posts: seq<PostRow>, author: Option<Uuid>, pageSize: int, k: nat)
    requires 1 <= pageSize <= MAX_PAGE_SIZE && k < |Feed(posts, author)|
    ensures var r := ListPosts(posts, k / pageSize + 1, pageSize, author);
      r.Ok? && k % pageSize < |r.value.items| && r.value.items[k % pageSize] == Feed(posts, author)[k]
  {
    var q, rem := k / pageSize, k % pageSize;
    DivMod(k, pageSize);
    var page := q + 1;
    assert page - 1 == q;
    assert PageOffset(page, pageSize) == q * pageSize;
    PositionOnPage(posts, author, page, pageSize, rem);
  }

  lemma DivMod(k: nat, d: int)
    requires d >= 1
    ensures (k / d) * d + k % d == k && 0 <= k % d < d && k / d >= 0
  {
  }

  /** How many feed posts come before the given page. */
  function PageOffset(page: int, pageSize: int): (o: nat)
    requires page >= 1 && pageSize >= 1
    ensures o == (page - 1) * pageSize
  {
    (page - 1) * pageSize
  }

  /** Item `rem` of a page is the feed post `rem` places after the posts of the earlier pages. */
  lemma PositionOnPage(posts: seq<PostRow>, author: Option<Uuid>, page: int, pageSize: int, rem: nat)
    requires page >= 1 && 1 <= pageSize <= MAX_PAGE_SIZE && rem < pageSize
    requires PageOffset(page, pageSize) + rem < |Feed(posts, author)|
    ensures var r := ListPosts(posts, page, pageSize, author);
      r.Ok? && rem < |r.value.items| && r.value.items[rem] == Feed(posts, author)[PageOffset(page, pageSize) + rem]
  {
    var feed := Feed(posts, author);
    var items := PageSlice(feed, page, pageSize);
    var lo := PageOffset(page, pageSize);
    assert |items| == if lo + pageSize < |feed| then pageSize else |feed| - lo;
    assert ListPosts(posts, page, pageSize, author).value.items == items;
  }

  /** `has_more` holds exactly when the next page is not empty. */
  lemma HasMoreIffNextPage(posts: seq<PostRow>, page: int, pageSize: int, author: Option<Uuid>)
    requires page >= 1 && 1 <= pageSize <= MAX_PAGE_SIZE
    ensures ListPosts(posts, page, pageSize, author).value.hasMore <==>
      ListPosts(posts, page + 1, pageSize, author).value.items != []
  {
    assert (page + 1 - 1) * pageSize == page * pageSize;
  }

  /** The older copy's `list_posts`: the same bounds and window over every post, with no author filter. */
  function LegacyListPosts(posts: seq<PostRow>, page: int, pageSize: int): (r: Result<PaginatedPosts, HttpError>)
    ensures r.Ok? <==> page >= 1 && 1 <= pageSize <= MAX_PAGE_SIZE
    ensures r.Ok? ==> r.value.total == |posts| && (r.value.hasMore <==> page * pageSize < |posts|)
  {
    if page < 1 || pageSize < 1 || pageSize > MAX_PAGE_SIZE then Err(VALIDATION_FAILED)
    else
      var items := PageSlice(SortBy(posts, NewestFirst), page, pageSize);
      Ok(PaginatedPosts(items, page, pageSize, |posts|, page * pageSize < |posts|))
  }

  /** The older listing answers exactly as the newer one does when no author is given. */
  lemma LegacyListPostsAgrees(posts: seq<PostRow>, page: int, pageSize: int)
    ensures LegacyListPosts(posts, page, pageSize) == ListPosts(posts, page, pageSize, None)
  {
  }

  // ---------------------------------------------------------------------------
  // POST /api/uploads/images

  const MAX_IMAGE_SIZE := 5 * 1024 * 1024
  const CHUNK_SIZE := 1024 * 1024
  const IMAGE_TOO_LARGE := HttpError(PAYLOAD_TOO_LARGE, "Image too large (max 5MB)")
  const UNSUPPORTED_IMAGE := HttpError(BAD_REQUEST, "Unsupported image type")

  /** The accepted content types and the extension each is stored under. */
  const ALLOWED_IMAGE_TYPES: map<string, string> := map[
    "image/jpeg" := ".jpg", "image/jpg" := ".jpg", "image/png" := ".png",
    "image/gif" := ".gif", "image/webp" := ".webp", "image/avif" := ".avif"]

  /** The lengths `file.read(CHUNK_SIZE)` returns, up to the first empty read (the end of the file). */
  function DataChunks(chunks: seq<nat>): (r: seq<nat>)
    ensures forall k :: 0 <= k < |r| ==> r[k] != 0
  {
    if chunks == [] || chunks[0] == 0 then [] else [chunks[0]] + DataChunks(chunks[1..])
  }

  function Total(xs: seq<nat>): nat {
    if xs == [] then 0 else xs[0] + Total(xs[1..])
  }

  /** The size of the uploaded file. */
  function UploadSize(chunks: seq<nat>): nat {
    Total(DataChunks(chunks))
  }

  /**
   * `_save_upload`: writes chunk after chunk while the running size stays within 5 MiB. The first chunk that
   * takes it over is not written: the file is deleted and the answer is 413. `written` is what reached the
   * file, `kept` whether the file remains.
   */
  method SaveUpload(chunks: seq<nat>) returns (r: Result<nat, HttpError>, written: nat, kept: bool)
    ensures r.Ok? <==> UploadSize(chunks) <= MAX_IMAGE_SIZE
    ensures r.Ok? ==> r.value == UploadSize(chunks) && written == UploadSize(chunks) && kept
    ensures r.Err? ==> r.error == IMAGE_TOO_LARGE && !kept
    ensures written <= MAX_IMAGE_SIZE
  {
    var size := 0;
    written, kept := 0, true;
    var i := 0;
    while i < |chunks| && chunks[i] != 0
      invariant 0 <= i <= |chunks|
      invariant size == written <= MAX_IMAGE_SIZE
      invariant UploadSize(chunks) == size + UploadSize(chunks[i..])
      decreases |chunks| - i
    {
      UploadSizeStep(chunks, i);
      size := size + chunks[i];
      if size > MAX_IMAGE_SIZE {
        kept := false;
        return Err(IMAGE_TOO_LARGE), written, kept;
      }
      written := written + chunks[i];
      i := i + 1;
    }
    r := Ok(size);
  }

  /** A non-empty read adds its length to what the rest of the file contributes. */
  lemma UploadSizeStep(chunks: seq<nat>, i: nat)
    requires i < |chunks| && chunks[i] != 0
    ensures UploadSize(chunks[i..]) == chunks[i] + UploadSize(chunks[i + 1..])
  {
    assert chunks[i..][1..] == chunks[i + 1..];
  }

  /** `ALLOWED_IMAGE_TYPES.get(file.content_type or "")`: the extension, or None for any other type. */
  function ImageExtension(contentType: Option<string>): (ext: Option<string>)
    ensures ext.Some? <==> contentType.GetOr("") in ALLOWED_IMAGE_TYPES
    ensures ext.Some? ==> ext.value == ALLOWED_IMAGE_TYPES[contentType.GetOr("")]
    ensures ext.Some? ==> ext.value in {".jpg", ".png", ".gif", ".webp", ".avif"}
  {
    var ct := contentType.GetOr("");
    if ct in ALLOWED_IMAGE_TYPES then Some(ALLOWED_IMAGE_TYPES[ct]) else None
  }

  /** `f"{uuid4().hex}{extension}"`: 32 hexadecimal digits, then the extension. */
  function UploadFilename(fileId: Uuid, ext: string): (name: string)
    ensures |name| == 32 + |ext| && name[32..] == ext
    ensures forall i :: 0 <= i < 32 ==> 0 <= HexValue(name[i])
  {
    HexDigits(fileId, 32) + ext
  }

  /**
   * `upload_image`: members only; an unlisted content type is 400 before anything is written; otherwise the
   * file is saved under a fresh name and described by its public URL, name and size.
   */
  method UploadImage(users: seq<UserRow>, bearer: Option<string>, decode: string -> Option<Auth.Claims>,
                     contentType: Option<string>, chunks: seq<nat>, fileId: Uuid, baseUrl: string)
    returns (r: Result<FrontendTypes.ImageUploadResponse, HttpError>, stored: bool)
    ensures Authenticate(users, bearer, decode, MEMBER_ROLES).Err? ==>
      r == Err(Authenticate(users, bearer, decode, MEMBER_ROLES).error) && !stored
    ensures Authenticate(users, bearer, decode, MEMBER_ROLES).Ok? && ImageExtension(contentType).None? ==>
      r == Err(UNSUPPORTED_IMAGE) && !stored
    ensures Authenticate(users, bearer, decode, MEMBER_ROLES).Ok? && ImageExtension(contentType).Some? ==>
      var name := UploadFilename(fileId, ImageExtension(contentType).value);
      && (r.Ok? <==> UploadSize(chunks) <= MAX_IMAGE_SIZE)
      && (r.Ok? ==> stored && r.value == FrontendTypes.ImageUploadResponse(baseUrl + "/uploads/" + name, name, UploadSize(chunks)))
      && (r.Err? ==> r.error == IMAGE_TOO_LARGE && !stored)
  {
    var auth := Authenticate(users, bearer, decode, MEMBER_ROLES);
    if auth.Err? {
      return Err(auth.error), false;
    }
    var ext := ImageExtension(contentType);
    if ext.None? {
      return Err(UNSUPPORTED_IMAGE), false;
    }
    var name := UploadFilename(fileId, ext.value);
    var saved, written;
    saved, written, stored := SaveUpload(chunks);
    if saved.Err? {
      return Err(saved.error), stored;
    }
    r := Ok(FrontendTypes.ImageUploadResponse(baseUrl + "/uploads/" + name, name, saved.value));
  }

  // ---------------------------------------------------------------------------
  // POST /posts/{post_id}/comments

  const POST_NOT_FOUND := HttpError(NOT_FOUND, "Post not found")

  predicate CommentIdTaken(comments: seq<CommentRow>, id: Uuid) {
    exists i :: 0 <= i < |comments| && comments[i].id == id
  }

  /** A comment by an existing user on an existing post can be stored iff its identifier is new. */
  lemma AddCommentConsistent(t: Tables, c: CommentRow)
    requires Consistent(t) && IsUserId(t.users, c.authorId) && IsPostId(t.posts, c.postId)
    ensures Consistent(t.(comments := t.comments + [c])) <==> !CommentIdTaken(t.comments, c.id)
  {
    var cs := t.comments + [c];
    assert cs[|t.comments|] == c;
    if CommentIdTaken(t.comments, c.id) {
      var k :| 0 <= k < |t.comments| && t.comments[k].id == c.id;
      assert cs[k] == t.comments[k];
    } else {
      forall i | 0 <= i < |cs|
        ensures IsUserId(t.users, cs[i].authorId) && IsPostId(t.posts, cs[i].postId)
      {
        if i < |t.comments| {
          assert cs[i] == t.comments[i];
        }
      }
      forall i, j | 0 <= i < j < |cs|
        ensures cs[i].id != cs[j].id
      {
        assert cs[i] == t.comments[i];
        if j < |t.comments| {
          assert cs[j] == t.comments[j];
        }
      }
    }
  }

  /** An authenticated user is a row of the users table. */
  lemma MemberIsUser(users: seq<UserRow>, u: UserRow)
    requires u in users
    ensures IsUserId(users, u.id)
  {
    var k :| 0 <= k < |users| && users[k] == u;
  }

  /**
   * `create_comment`: members only (401/403), then the body's validation (422), then 404 for an unknown post;
   * the comment is stored under the fresh identifier with the current user as its author.
   */
  method CreateComment(db: Database, bearer: Option<string>, decode: string -> Option<Auth.Claims>, postId: Uuid,
                       payload: CommentCreate, newId: Uuid, now: Instant)
    returns (r: Result<CommentRow, HttpError>)
    requires db.Valid()
    modifies db
    ensures db.Valid()
    ensures db.nextCodeId == old(db.nextCodeId) && db.nextSectionId == old(db.nextSectionId)
    ensures var auth := Authenticate(old(db.users), bearer, decode, MEMBER_ROLES);
      if auth.Err? then r == Err(auth.error) && db.Snapshot() == old(db.Snapshot())
      else if !CommentCreateValid(payload) then r == Err(VALIDATION_FAILED) && db.Snapshot() == old(db.Snapshot())
      else if !IsPostId(old(db.posts), postId) then r == Err(POST_NOT_FOUND) && db.Snapshot() == old(db.Snapshot())
      else if CommentIdTaken(old(db.comments), newId) then r == Err(SERVER_ERROR) && db.Snapshot() == old(db.Snapshot())
      else
        var c := CommentRow(newId, payload.content, auth.value.id, postId, now);
        r == Ok(c) && db.Snapshot() == old(db.Snapshot()).(comments := old(db.comments) + [c])
  {
    var auth := Authenticate(db.users, bearer, decode, MEMBER_ROLES);
    if auth.Err? {
      return Err(auth.error);
    }
    if !CommentCreateValid(payload) {
      return Err(VALIDATION_FAILED);
    }
    if !IsPostId(db.posts, postId) {
      return Err(POST_NOT_FOUND);
    }
    var c := CommentRow(newId, payload.content, auth.value.id, postId, now);
    MemberIsUser(db.users, auth.value);
    AddCommentConsistent(db.Snapshot(), c);
    var ok := db.Commit(db.Snapshot().(comments := db.comments + [c]));
    r := if ok then Ok(c) else Err(SERVER_ERROR);
  }

  /**
   * A lookup of one row by a unique column, as `db.get(User, user_id)` and
   * `filter(AboutSection.slug == slug).one_or_none()` do: the index of a row satisfying `matches`, if any.
   */
  function FindRow<T>(rows: seq<T>, matches: T -> bool): (r: Option<nat>)
    ensures r.Some? ==> r.value < |rows| && matches(rows[r.value])
    ensures r.None? <==> forall i :: 0 <= i < |rows| ==> !matches(rows[i])
  {
    if rows == [] then None
    else
      var n := |rows| - 1;
      assert forall i :: 0 <= i < n ==> rows[..n][i] == rows[i];
      if matches(rows[n]) then Some(n) else FindRow(rows[..n], matches)
  }

  function SlugIs(slug: string): SectionRow -> bool {
    (sec: SectionRow) => sec.slug == slug
  }

  function IdIs(id: Uuid): UserRow -> bool {
    (u: UserRow) => u.id == id
  }

  // ---------------------------------------------------------------------------
  // PUT /about/sections/{slug}

  const SECTION_NOT_FOUND := HttpError(NOT_FOUND, "Section not found")


  /** The edited section: the title only when a non-empty one is given, the body always, the editor and time. */
  function EditedSection(sec: SectionRow, payload: AboutSectionUpdate, editor: Uuid, now: Instant): (r: SectionRow)
    ensures r.id == sec.id && r.slug == sec.slug && r.bodyMarkdown == payload.bodyMarkdown
    ensures payload.title.Some? && payload.title.value != [] ==> r.title == payload.title.value
    ensures payload.title.None? || payload.title.value == [] ==> r.title == sec.title
    ensures r.updatedBy == Some(editor) && r.updatedAt == now
  {
    sec.(title := if payload.title.Some? && payload.title.value != [] then payload.title.value else sec.title,
         bodyMarkdown := payload.bodyMarkdown, updatedBy := Some(editor), updatedAt := now)
  }

  /** Replacing a section by an edit of it by an existing user keeps the tables consistent iff the title fits. */
  lemma EditSectionConsistent(t: Tables, i: nat, e: SectionRow)
    requires Consistent(t) && i < |t.sections|
    requires e.id == t.sections[i].id && e.slug == t.sections[i].slug
    requires e.updatedBy.Some? && IsUserId(t.users, e.updatedBy.value)
    ensures Consistent(t.(sections := t.sections[i := e])) <==> |e.title| <= SECTION_TITLE_MAX
  {
    var ss := t.sections[i := e];
    if |e.title| <= SECTION_TITLE_MAX {
      forall a, b | 0 <= a < b < |ss|
        ensures ss[a].id != ss[b].id && ss[a].slug != ss[b].slug
      {
        assert ss[a].id == t.sections[a].id && ss[a].slug == t.sections[a].slug;
        assert ss[b].id == t.sections[b].id && ss[b].slug == t.sections[b].slug;
      }
    } else {
      assert ss[i] == e;
    }
  }

  /**
   * `update_about_section`: administrators only (super admins pass every gate); 404 for an unknown slug;
   * otherwise the edit is committed, and a title too long for its column is the server error.
   */
  method UpdateAboutSection(db: Database, bearer: Option<string>, decode: string -> Option<Auth.Claims>,
                            slug: string, payload: AboutSectionUpdate, now: Instant)
    returns (r: Result<SectionRow, HttpError>)
    requires db.Valid()
    modifies db
    ensures db.Valid()
    ensures db.nextCodeId == old(db.nextCodeId) && db.nextSectionId == old(db.nextSectionId)
    ensures var auth := Authenticate(old(db.users), bearer, decode, {Admin});
      var found := FindRow(old(db.sections), SlugIs(slug));
      if auth.Err? then r == Err(auth.error) && db.Snapshot() == old(db.Snapshot())
      else if found.None? then r == Err(SECTION_NOT_FOUND) && db.Snapshot() == old(db.Snapshot())
      else
        var e := EditedSection(old(db.sections)[found.value], payload, auth.value.id, now);
        if |e.title| <= SECTION_TITLE_MAX then
          r == Ok(e) && db.Snapshot() == old(db.Snapshot()).(sections := old(db.sections)[found.value := e])
        else
          r == Err(SERVER_ERROR) && db.Snapshot() == old(db.Snapshot())
  {
    var auth := Authenticate(db.users, bearer, decode, {Admin});
    if auth.Err? {
      return Err(auth.error);
    }
    var found := FindRow(db.sections, SlugIs(slug));
    if found.None? {
      return Err(SECTION_NOT_FOUND);
    }
    var e := EditedSection(db.sections[found.value], payload, auth.value.id, now);
    MemberIsUser(db.users, auth.value);
    EditSectionConsistent(db.Snapshot(), found.value, e);
    var ok := db.Commit(db.Snapshot().(sections := db.sections[found.value := e]));
    r := if ok then Ok(e) else Err(SERVER_ERROR);
  }

  // ---------------------------------------------------------------------------
  // PATCH /admin/users/{user_id}/role

  const USER_NOT_FOUND := HttpError(NOT_FOUND, "User not found")
  const CANNOT_DEMOTE := HttpError(BAD_REQUEST, "Cannot demote super admin")


  /** Only a change away from super admin is refused. */
  predicate RoleChangeAllowed(current: UserRole, requested: UserRole) {
    current != SuperAdmin || requested == SuperAdmin
  }

  /**
   * The user after `user.role = role` and the commit: the role replaced, and `updated_at` refreshed by its
   * `onupdate` only when the role actually changed; nothing else moves.
   */
  function WithRole(u: UserRow, role: UserRole, now: Instant): (r: UserRow)
    ensures r.role == role
    ensures r.updatedAt == (if role == u.role then u.updatedAt else now)
    ensures r.(role := u.role, updatedAt := u.updatedAt) == u
  {
    if role == u.role then u else u.(role := role, updatedAt := now)
  }

  /** Changing one user's role never breaks a constraint: keys, names and references are untouched. */
  lemma RoleChangeConsistent(t: Tables, i: nat, role: UserRole, now: Instant)
    requires Consistent(t) && i < |t.users|
    ensures Consistent(t.(users := t.users[i := WithRole(t.users[i], role, now)]))
  {
    var us := t.users[i := WithRole(t.users[i], role, now)];
    forall id | IsUserId(t.users, id)
      ensures IsUserId(us, id)
    {
      var k :| 0 <= k < |t.users| && t.users[k].id == id;
      assert us[k].id == id;
    }
  }

  /**
   * `update_user_role`: super admins only; 404 for an unknown user; 400 for demoting a super admin; otherwise
   * the new role is stored.
   */
  method UpdateUserRole(db: Database, bearer: Option<string>, decode: string -> Option<Auth.Claims>,
                        userId: Uuid, payload: RoleUpdateRequest, now: Instant)
    returns (r: Result<UserRow, HttpError>)
    requires db.Valid()
    modifies db
    ensures db.Valid()
    ensures db.nextCodeId == old(db.nextCodeId) && db.nextSectionId == old(db.nextSectionId)
    ensures var auth := Authenticate(old(db.users), bearer, decode, {SuperAdmin});
      var found := FindRow(old(db.users), IdIs(userId));
      if auth.Err? then r == Err(auth.error) && db.Snapshot() == old(db.Snapshot())
      else if found.None? then r == Err(USER_NOT_FOUND) && db.Snapshot() == old(db.Snapshot())
      else if !RoleChangeAllowed(old(db.users)[found.value].role, payload.role) then
        r == Err(CANNOT_DEMOTE) && db.Snapshot() == old(db.Snapshot())
      else
        var u := WithRole(old(db.users)[found.value], payload.role, now);
        r == Ok(u) && db.Snapshot() == old(db.Snapshot()).(users := old(db.users)[found.value := u])
  {
    var auth := Authenticate(db.users, bearer, decode, {SuperAdmin});
    if auth.Err? {
      return Err(auth.error);
    }
    var found := FindRow(db.users, IdIs(userId));
    if found.None? {
      return Err(USER_NOT_FOUND);
    }
    var i := found.value;
    if !RoleChangeAllowed(db.users[i].role, payload.role) {
      return Err(CANNOT_DEMOTE);
    }
    var u := WithRole(db.users[i], payload.role, now);
    RoleChangeConsistent(db.Snapshot(), i, payload.role, now);
    var ok := db.Commit(db.Snapshot().(users := db.users[i := u]));
    r := if ok then Ok(u) else Err(SERVER_ERROR);
  }

  /** An allowed role change never lowers the number of super admins: none can be removed through this route. */
  lemma RoleChangeKeepsSuperAdmins(users: seq<UserRow>, i: nat, role: UserRole, now: Instant)
    requires i < |users| && RoleChangeAllowed(users[i].role, role)
    ensures SuperAdminCount(users[i := WithRole(users[i], role, now)]) >= SuperAdminCount(users)
    ensures role == SuperAdmin && users[i].role != SuperAdmin ==>
      SuperAdminCount(users[i := WithRole(users[i], role, now)]) == SuperAdminCount(users) + 1
  {
    SuperAdminCountUpdate(users, i, WithRole(users[i], role, now));
  }
}
