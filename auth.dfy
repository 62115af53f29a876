/**
 * Authentication and authorisation (backend/app/auth.py): the claims an access token carries, how a token is
 * turned back into the current user, and the role gate. Signing and verifying tokens (`jose`) and password
 * hashing (`bcrypt`) are functions the caller supplies.
 */
module Auth {
  import opened Wrappers
  import opened Json
  import opened Uuid
  import opened Models
  import opened Schemas

  /** A decoded token's claims. */
  type Claims = map<string, Json>

  const CREDENTIALS_ERROR := HttpError(UNAUTHORIZED, "Could not validate credentials")
  const PERMISSION_ERROR := HttpError(FORBIDDEN, "Insufficient permissions")

  /**
   * The lifetime of a new token in seconds: the given delta unless it is absent or zero (a zero `timedelta`
   * is falsy), else the configured number of minutes.
   */
  function TokenLifetime(expiresDelta: Option<int>, defaultMinutes: int): (seconds: int)
    ensures expiresDelta.Some? && expiresDelta.value != 0 ==> seconds == expiresDelta.value
    ensures expiresDelta.None? || expiresDelta.value == 0 ==> seconds == defaultMinutes * 60
  {
    if expiresDelta.Some? && expiresDelta.value != 0 then expiresDelta.value else defaultMinutes * 60
  }

  /** The payload `create_access_token` signs: exactly `sub`, `exp` (seconds since the epoch) and the role's value. */
  function TokenClaims(subject: string, role: UserRole, expiresDelta: Option<int>, now: Instant, defaultMinutes: int): (c: Claims)
    ensures c.Keys == {"sub", "exp", "role"}
  {
    map["sub" := JStr(subject), "exp" := JNum((now + TokenLifetime(expiresDelta, defaultMinutes)) as real),
        "role" := JStr(role.Value())]
  }

  /** `create_access_token`: the signed payload; `encode` stands for `jwt.encode` with the configured key. */
  function CreateAccessToken(subject: string, role: UserRole, expiresDelta: Option<int>, now: Instant,
                             defaultMinutes: int, encode: Claims -> string): (token: string)
    ensures exists c :: (token == encode(c) && c.Keys == {"sub", "exp", "role"} && c["sub"] == JStr(subject)
      && c["role"] == JStr(role.Value()) && c["exp"] == JNum((now + TokenLifetime(expiresDelta, defaultMinutes)) as real))
  {
    var c := TokenClaims(subject, role, expiresDelta, now, defaultMinutes);
    assert c["sub"] == JStr(subject) && c["role"] == JStr(role.Value());
    encode(c)
  }

  /** An integer claim: a JSON number without a fractional part. */
  function IntegralNumber(v: Json): (r: Option<int>)
    ensures r.Some? ==> v == JNum(r.value as real)
  {
    if v.JNum? && v.n == v.n.Floor as real then Some(v.n.Floor) else None
  }

  /** `TokenPayload(sub=..., exp=..., role=...)`: every claim present and of its field's type, or None. */
  function ReadPayload(claims: Claims): (r: Option<TokenPayload>)
    ensures r.Some? ==> "sub" in claims && claims["sub"] == JStr(r.value.sub)
    ensures r.Some? ==> "role" in claims && claims["role"] == JStr(r.value.role.Value())
    ensures ("sub" !in claims || "exp" !in claims || "role" !in claims) ==> r.None?
  {
    if "sub" !in claims || "exp" !in claims || "role" !in claims then None
    else
      var sub, exp, role := claims["sub"], IntegralNumber(claims["exp"]), claims["role"];
      if !sub.JStr? || exp.None? || !role.JStr? then None
      else match ParseRole(role.s)
        case None => None
        case Some(r) => Some(TokenPayload(sub.s, exp.value, r))
  }

  /** The freshly signed payload reads back as the subject, expiry and role it was made from. */
  lemma ReadTokenClaims(subject: string, role: UserRole, expiresDelta: Option<int>, now: Instant, defaultMinutes: int)
    ensures ReadPayload(TokenClaims(subject, role, expiresDelta, now, defaultMinutes))
      == Some(TokenPayload(subject, now + TokenLifetime(expiresDelta, defaultMinutes), role))
  {
    RoleValuesRoundTrip(role);
  }

  /** The active users with identifier `id` (`filter(User.id == id, User.is_active)`). */
  function ActiveWithId(users: seq<UserRow>, id: Uuid): (r: seq<UserRow>)
    ensures forall i :: 0 <= i < |r| ==> r[i] in users && r[i].id == id && r[i].isActive
    ensures forall i :: 0 <= i < |users| && users[i].id == id && users[i].isActive ==> users[i] in r
  {
    if users == [] then []
    else (if users[0].id == id && users[0].isActive then [users[0]] else []) + ActiveWithId(users[1..], id)
  }

  /** With unique identifiers the active user with a given identifier, if any, is the only match. */
  lemma {:induction false} ActiveWithIdUnique(users: seq<UserRow>, i: nat)
    requires UsersOk(users) && i < |users| && users[i].isActive
    ensures ActiveWithId(users, users[i].id) == [users[i]]
    decreases |users|
  {
    if i == 0 {
      NoOtherWithId(users[1..], users[0]);
    } else {
      assert UsersOk(users[1..]) by {
        assert forall k :: 0 <= k < |users| - 1 ==> users[1..][k] == users[k + 1];
      }
      assert users[0].id != users[i].id;
      ActiveWithIdUnique(users[1..], i - 1);
    }
  }

  lemma NoOtherWithId(rest: seq<UserRow>, u: UserRow)
    requires forall k :: 0 <= k < |rest| ==> rest[k].id != u.id
    ensures ActiveWithId(rest, u.id) == []
  {
  }

  /** A user with a given identifier who is inactive is never a match. */
  lemma {:induction false} InactiveNotFound(users: seq<UserRow>, i: nat)
    requires UsersOk(users) && i < |users| && !users[i].isActive
    ensures ActiveWithId(users, users[i].id) == []
    decreases |users|
  {
    if i == 0 {
      NoOtherWithId(users[1..], users[0]);
    } else {
      assert UsersOk(users[1..]) by {
        assert forall k :: 0 <= k < |users| - 1 ==> users[1..][k] == users[k + 1];
      }
      assert users[0].id != users[i].id;
      InactiveNotFound(users[1..], i - 1);
    }
  }

  /** With unique identifiers at most one active user matches, so `one_or_none` never raises. */
  lemma ActiveWithIdAtMostOne(users: seq<UserRow>, id: Uuid)
    requires UsersOk(users)
    ensures |ActiveWithId(users, id)| <= 1
  {
    var r := ActiveWithId(users, id);
    if r != [] {
      var i :| 0 <= i < |users| && users[i] == r[0];
      ActiveWithIdUnique(users, i);
    }
  }

  /**
   * `get_current_user`: a token that does not decode, a payload missing a claim or with a claim of the wrong
   * type, a subject that is not a UUID, or no active user with that identifier, all give 401. `one_or_none`
   * raising on several matches is the server error, which unique identifiers rule out.
   */
  function GetCurrentUser(users: seq<UserRow>, token: string, decode: string -> Option<Claims>): (r: Result<UserRow, HttpError>)
    ensures decode(token).None? ==> r == Err(CREDENTIALS_ERROR)
    ensures decode(token).Some? && ReadPayload(decode(token).value).None? ==> r == Err(CREDENTIALS_ERROR)
    ensures r.Ok? ==> r.value in users && r.value.isActive
    ensures r.Ok? ==> ParseUuid(ReadPayload(decode(token).value).value.sub) == Some(r.value.id)
  {
    match decode(token)
    case None => Err(CREDENTIALS_ERROR)
    case Some(claims) =>
      match ReadPayload(claims)
      case None => Err(CREDENTIALS_ERROR)
      case Some(payload) =>
        match ParseUuid(payload.sub)
        case None => Err(CREDENTIALS_ERROR)
        case Some(id) =>
          var found := ActiveWithId(users, id);
          if found == [] then Err(CREDENTIALS_ERROR)
          else if |found| > 1 then Err(SERVER_ERROR)
          else
            assert found[0] in users;
            Ok(found[0])
  }

  /** Over a consistent users table every rejection is the 401, never the server error. */
  lemma GetCurrentUserRejects(users: seq<UserRow>, token: string, decode: string -> Option<Claims>)
    requires UsersOk(users)
    ensures GetCurrentUser(users, token, decode).Err? ==> GetCurrentUser(users, token, decode).error == CREDENTIALS_ERROR
  {
    var claims := decode(token);
    if claims.Some? && ReadPayload(claims.value).Some? && ParseUuid(ReadPayload(claims.value).value.sub).Some? {
      ActiveWithIdAtMostOne(users, ParseUuid(ReadPayload(claims.value).value.sub).value);
    }
  }

  /** The facts `GetCurrentUser` needs about its inputs before it looks users up. */
  lemma GetCurrentUserFound(users: seq<UserRow>, token: string, decode: string -> Option<Claims>, claims: Claims, payload: TokenPayload, id: Uuid)
    requires decode(token) == Some(claims) && ReadPayload(claims) == Some(payload) && ParseUuid(payload.sub) == Some(id)
    ensures ActiveWithId(users, id) == [] ==> GetCurrentUser(users, token, decode) == Err(CREDENTIALS_ERROR)
    ensures |ActiveWithId(users, id)| == 1 ==> GetCurrentUser(users, token, decode) == Ok(ActiveWithId(users, id)[0])
  {
  }

  /**
   * A token issued for an active user by `create_access_token` (subject `str(user.id)`), decoded by the inverse
   * of the encoder, yields that user, whatever role the token claims: the role used afterwards is the stored one.
   */
  lemma IssuedTokenAuthenticates(users: seq<UserRow>, i: nat, claimedRole: UserRole, expiresDelta: Option<int>,
                                 now: Instant, minutes: int, encode: Claims -> string, decode: string -> Option<Claims>)
    requires UsersOk(users) && i < |users| && users[i].isActive
    requires var c := TokenClaims(UuidText(users[i].id), claimedRole, expiresDelta, now, minutes);
      decode(encode(c)) == Some(c)
    ensures GetCurrentUser(users, CreateAccessToken(UuidText(users[i].id), claimedRole, expiresDelta, now, minutes, encode), decode)
      == Ok(users[i])
  {
    var u := users[i];
    var c := TokenClaims(UuidText(u.id), claimedRole, expiresDelta, now, minutes);
    ReadTokenClaims(UuidText(u.id), claimedRole, expiresDelta, now, minutes);
    ParseUuidText(u.id);
    ActiveWithIdUnique(users, i);
    GetCurrentUserFound(users, encode(c), decode, c, ReadPayload(c).value, u.id);
  }

  /** A token whose subject names an inactive user is refused with 401, however well-formed. */
  lemma InactiveUserRefused(users: seq<UserRow>, i: nat, token: string, decode: string -> Option<Claims>)
    requires UsersOk(users) && i < |users| && !users[i].isActive
    requires decode(token).Some? && ReadPayload(decode(token).value).Some?
    requires ReadPayload(decode(token).value).value.sub == UuidText(users[i].id)
    ensures GetCurrentUser(users, token, decode) == Err(CREDENTIALS_ERROR)
  {
    ParseUuidText(users[i].id);
    InactiveNotFound(users, i);
    GetCurrentUserFound(users, token, decode, decode(token).value, ReadPayload(decode(token).value).value, users[i].id);
  }

  /** `require_roles(*allowed)`: the user is admitted iff their role is allowed or they are a super admin. */
  function RequireRoles(allowed: set<UserRole>, user: UserRow): (r: Result<UserRow, HttpError>)
    ensures r.Ok? <==> user.role in allowed || user.role == SuperAdmin
    ensures r.Ok? ==> r.value == user
    ensures r.Err? ==> r.error == PERMISSION_ERROR
  {
    if user.role in allowed || user.role == SuperAdmin then Ok(user) else Err(PERMISSION_ERROR)
  }

  /** The dependency chain of a protected route: authenticate, then check the role. */
  function Authorize(users: seq<UserRow>, token: string, decode: string -> Option<Claims>, allowed: set<UserRole>): (r: Result<UserRow, HttpError>)
    ensures GetCurrentUser(users, token, decode).Err? ==> r == GetCurrentUser(users, token, decode)
    ensures GetCurrentUser(users, token, decode).Ok? ==> r == RequireRoles(allowed, GetCurrentUser(users, token, decode).value)
  {
    match GetCurrentUser(users, token, decode)
    case Err(e) => Err(e)
    case Ok(u) => RequireRoles(allowed, u)
  }

  /** A super admin passes every gate, and a gate for super admins only admits nobody else. */
  lemma SuperAdminGate(allowed: set<UserRole>, user: UserRow)
    ensures user.role == SuperAdmin ==> RequireRoles(allowed, user) == Ok(user)
    ensures RequireRoles({SuperAdmin}, user).Ok? <==> user.role == SuperAdmin
  {
  }

  /** A rejected authorisation is 401 before it is ever 403: a role check needs an authenticated user. */
  lemma AuthenticationBeforeRoles(users: seq<UserRow>, token: string, decode: string -> Option<Claims>, allowed: set<UserRole>)
    requires UsersOk(users)
    ensures Authorize(users, token, decode, allowed).Err? ==>
      Authorize(users, token, decode, allowed).error == (if GetCurrentUser(users, token, decode).Ok? then PERMISSION_ERROR else CREDENTIALS_ERROR)
  {
    GetCurrentUserRejects(users, token, decode);
  }
}
