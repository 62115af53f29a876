/**
 * The authentication provider (frontend/components/providers/auth-provider.tsx): the bearer token, the signed-in
 * user and the token persisted in `localStorage` (a map here). Awaited requests are inputs.
 */
module Session {
  import opened Wrappers
  import opened FrontendTypes

  const TOKEN_STORAGE_KEY := "ituhouse_token"

  /** JavaScript truthiness of a nullable string. */
  predicate Truthy(s: Option<string>) {
    s.Some? && s.value != []
  }

  class SessionStore {
    var token: Option<string>
    var user: Option<User>
    var loading: bool
    var storage: map<string, string>

    /** A signed-in user always has a token, and a token in state is the one persisted. */
    predicate Valid()
      reads this
    {
      && (user.Some? ==> token.Some?)
      && (token.Some? ==> TOKEN_STORAGE_KEY in storage && storage[TOKEN_STORAGE_KEY] == token.value)
    }

    /** The provider as first rendered over the browser's storage. */
    constructor (initialStorage: map<string, string>)
      ensures Valid()
      ensures token.None? && user.None? && loading && storage == initialStorage
    {
      token := None;
      user := None;
      loading := true;
      storage := initialStorage;
    }

    /**
     * `fetchProfile(tokenValue)`. A falsy token only clears the user, without a request (`fetched` is false).
     * Otherwise the profile becomes the user; a failure clears the user, the token and the stored key together.
     * Every caller passes the token the state already holds.
     */
    method FetchProfile(tokenValue: Option<string>, outcome: Result<User, string>) returns (fetched: bool)
      requires Valid()
      requires Truthy(tokenValue) ==> tokenValue == token
      modifies this
      ensures Valid()
      ensures fetched <==> Truthy(tokenValue)
      ensures !fetched ==> user.None? && token == old(token) && storage == old(storage)
      ensures fetched && outcome.Ok? ==> user == Some(outcome.value) && token == old(token) && storage == old(storage)
      ensures fetched && outcome.Err? ==> (user.None? && token.None?
        && storage == old(storage) - {TOKEN_STORAGE_KEY})
      ensures loading == old(loading)
    {
      if !Truthy(tokenValue) {
        user := None;
        return false;
      }
      match outcome {
        case Ok(profile) =>
          user := Some(profile);
        case Err(_) =>
          user := None;
          storage := storage - {TOKEN_STORAGE_KEY};
          token := None;
      }
      fetched := true;
    }

    /**
     * The mount effect: a truthy stored token is adopted and its profile fetched before loading ends; without
     * one loading ends at once.
     */
    method Init(outcome: Result<User, string>) returns (fetched: bool)
      requires Valid()
      modifies this
      ensures Valid()
      ensures !loading
      ensures var stored := if TOKEN_STORAGE_KEY in old(storage) then Some(old(storage)[TOKEN_STORAGE_KEY]) else None;
        fetched <==> Truthy(stored)
      ensures !fetched ==> token == old(token) && user == old(user) && storage == old(storage)
      ensures fetched && outcome.Ok? ==> (token == Some(old(storage)[TOKEN_STORAGE_KEY])
        && user == Some(outcome.value) && storage == old(storage))
      ensures fetched && outcome.Err? ==> (token.None? && user.None?
        && storage == old(storage) - {TOKEN_STORAGE_KEY})
    {
      var stored := if TOKEN_STORAGE_KEY in storage then Some(storage[TOKEN_STORAGE_KEY]) else None;
      if Truthy(stored) {
        token := stored;
        fetched := FetchProfile(stored, outcome);
      } else {
        fetched := false;
      }
      loading := false;
    }

    /**
     * `login`: a rejected login request changes nothing and its error propagates. Otherwise the token is stored
     * and adopted, then the profile is fetched with it.
     */
    method Login(response: Result<string, string>, profile: Result<User, string>) returns (error: Option<string>)
      requires Valid()
      modifies this
      ensures Valid()
      ensures response.Err? ==> unchanged(this) && error == Some(response.error)
      ensures response.Ok? ==> error.None?
      ensures response.Ok? && response.value != [] && profile.Ok? ==> (token == Some(response.value)
        && user == Some(profile.value) && storage == old(storage)[TOKEN_STORAGE_KEY := response.value])
      ensures response.Ok? && response.value != [] && profile.Err? ==> (token.None? && user.None?
        && storage == old(storage)[TOKEN_STORAGE_KEY := response.value] - {TOKEN_STORAGE_KEY})
      ensures response.Ok? && response.value == [] ==> (token == Some([]) && user.None?
        && storage == old(storage)[TOKEN_STORAGE_KEY := []])
      ensures loading == old(loading)
    {
      if response.Err? {
        return Some(response.error);
      }
      var accessToken := response.value;
      storage := storage[TOKEN_STORAGE_KEY := accessToken];
      token := Some(accessToken);
      var _ := FetchProfile(Some(accessToken), profile);
      error := None;
    }

    /** `logout`: the stored key, the token and the user all go. */
    method Logout()
      requires Valid()
      modifies this
      ensures Valid()
      ensures token.None? && user.None? && storage == old(storage) - {TOKEN_STORAGE_KEY}
      ensures TOKEN_STORAGE_KEY !in storage
      ensures old(token).None? && old(user).None? && TOKEN_STORAGE_KEY !in old(storage) ==> unchanged(this)
      ensures loading == old(loading)
    {
      storage := storage - {TOKEN_STORAGE_KEY};
      token := None;
      user := None;
      assert TOKEN_STORAGE_KEY !in old(storage) ==> storage == old(storage);
    }

    /** `refreshProfile`: `fetchProfile` with the current token. */
    method RefreshProfile(outcome: Result<User, string>) returns (fetched: bool)
      requires Valid()
      modifies this
      ensures Valid()
      ensures fetched <==> Truthy(old(token))
      ensures !fetched ==> user.None? && token == old(token) && storage == old(storage)
      ensures fetched && outcome.Ok? ==> user == Some(outcome.value) && token == old(token) && storage == old(storage)
      ensures fetched && outcome.Err? ==> (user.None? && token.None?
        && storage == old(storage) - {TOKEN_STORAGE_KEY})
      ensures loading == old(loading)
    {
      fetched := FetchProfile(token, outcome);
    }

    /** `setSession`: storage, token and user take the given values together. */
    method SetSession(newToken: string, newUser: User)
      requires Valid()
      modifies this
      ensures Valid()
      ensures token == Some(newToken) && user == Some(newUser)
      ensures storage == old(storage)[TOKEN_STORAGE_KEY := newToken]
      ensures loading == old(loading)
    {
      storage := storage[TOKEN_STORAGE_KEY := newToken];
      token := Some(newToken);
      user := Some(newUser);
    }
  }

  /** Logging out twice leaves the same state as logging out once. */
  method LogoutTwice(s: SessionStore)
    requires s.Valid()
    modifies s
    ensures s.Valid()
    ensures s.token.None? && s.user.None? && s.storage == old(s.storage) - {TOKEN_STORAGE_KEY}
  {
    s.Logout();
    label once:
    s.Logout();
    assert s.storage == old@once(s.storage);
  }
}
