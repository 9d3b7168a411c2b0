/** The session store: an access token, an optional refresh token and the
    user payload, mirrored into the browser's key-value storage under three
    fixed keys. The login call is an `Outcome` parameter; JSON serialisation
    is a pair of functions supplied with the store. */
module AuthStore {
  import opened Outcomes

  /** The profile part of a login response (name, e-mail, ...). */
  type Profile(!new)

  /** A JavaScript slot meant to hold a string: `undefined` (a field missing
      from the response), `null` (JSON null, or a field the store cleared),
      or a string. */
  datatype JsValue = Undefined | Null | Str(text: string)

  /** The body of a successful login response. Either token field may be
      missing from the body or be JSON null. */
  datatype LoginPayload = LoginPayload(accessToken: JsValue, refreshToken: JsValue, profile: Profile)

  /** What `JSON.parse` gives for the stored user text: a value (JSON `null`
      is `None`) or a syntax error. */
  datatype Parsed = Parsed(value: Option<LoginPayload>) | SyntaxError(message: string)

  /** `JSON.stringify` and `JSON.parse`, restricted to user payloads. */
  datatype JsonCodec = JsonCodec(stringify: LoginPayload -> string, parse: string -> Parsed)

  /** Parsing what was serialised gives the same payload back. */
  ghost predicate RoundTrips(codec: JsonCodec)
  {
    forall u :: codec.parse(codec.stringify(u)) == Parsed(Some(u))
  }

  // ---------------------------------------------------------------------------
  // Storage
  // ---------------------------------------------------------------------------

  const TokenKey: string := "authToken"
  const RefreshTokenKey: string := "authRefreshToken"
  const UserKey: string := "authUser"

  /** The contents of the browser's key-value storage (string values only). */
  type Storage = map<string, string>

  /** `getItem`: the stored text, or null when the key is absent. */
  function Get(st: Storage, key: string): Option<string>
  {
    if key in st then Some(st[key]) else None
  }

  /** The text `setItem` stores for a value: a string as it is, `undefined`
      and `null` as the texts "undefined" and "null". Only the empty string
      is stored as an empty (falsy) text. */
  function StoredText(v: JsValue): (r: string)
    ensures r == "" <==> v == Str("")
    ensures v.Str? ==> r == v.text
    ensures v == Null ==> r == "null"
    ensures v == Undefined ==> r == "undefined"
  {
    match v
    case Str(t) => t
    case Null => "null"
    case Undefined => "undefined"
  }

  /** What `getItem` gives as a JavaScript value: the stored text, or null
      for an absent key. */
  function Item(raw: Option<string>): (r: JsValue)
    ensures r != Undefined
    ensures r.Str? <==> raw.Some?
    ensures raw.Some? ==> r == Str(raw.value)
  {
    match raw
    case Some(t) => Str(t)
    case None => Null
  }

  /** `JSON.parse(localStorage.getItem(key))`: an absent entry reads as null,
      which parses to null, so only stored text can be a syntax error. */
  function ParseStoredUser(codec: JsonCodec, raw: Option<string>): (r: Parsed)
    ensures raw.None? ==> r == Parsed(None)
    ensures r.SyntaxError? ==> raw.Some?
    ensures raw.Some? ==> r == codec.parse(raw.value)
  {
    match raw
    case None => Parsed(None)
    case Some(text) => codec.parse(text)
  }

  // ---------------------------------------------------------------------------
  // The session and the three actions as state transitions
  // ---------------------------------------------------------------------------

  datatype Session = Session(token: JsValue, refreshToken: JsValue, user: Option<LoginPayload>)

  /** The state of a new store, and the state after logout. */
  const SignedOut := Session(Null, Null, None)

  /** JavaScript truthiness of a string slot: a string other than the empty
      string. */
  predicate Truthy(v: JsValue)
  {
    v.Str? && v.text != ""
  }

  /** `isAuthenticated`: `!!token`. */
  predicate Authenticated(s: Session)
  {
    Truthy(s.token)
  }

  /** The session, the storage and how the action ended, after one action. */
  datatype Step = Step(session: Session, storage: Storage, completion: Completion<()>)

  /** The string `login` throws: the server's message when it is a non-empty
      string, else "Login failed". */
  function LoginMessage(serverMessage: Option<string>): (r: string)
    ensures r != ""
    ensures r == "Login failed" || (serverMessage.Some? && r == serverMessage.value)
  {
    if serverMessage.Some? && serverMessage.value != "" then serverMessage.value else "Login failed"
  }

  /** `login`: adopt the response and mirror it into storage, or throw and
      change nothing. */
  function LoginStep(s: Session, st: Storage, codec: JsonCodec, outcome: Outcome<LoginPayload, Option<string>>): (r: Step)
    ensures r.completion.Returned? <==> outcome.Success?
    ensures Authenticated(r.session) <==>
              if outcome.Success? then Truthy(outcome.data.accessToken) else Authenticated(s)
    ensures r.storage.Keys == if outcome.Success? then st.Keys + {TokenKey, RefreshTokenKey, UserKey} else st.Keys
  {
    match outcome
    case Success(p) =>
      Step(Session(p.accessToken, p.refreshToken, Some(p)),
           st[TokenKey := StoredText(p.accessToken)]
             [RefreshTokenKey := StoredText(p.refreshToken)]
             [UserKey := codec.stringify(p)],
           Returned(()))
    case Failure(serverMessage) =>
      Step(s, st, Threw(LoginMessage(serverMessage)))
  }

  /** `logout`: forget all three fields and remove all three keys. */
  function LogoutStep(st: Storage): (r: Step)
    ensures !Authenticated(r.session) && r.completion == Returned(())
    ensures r.storage.Keys == st.Keys - {TokenKey, RefreshTokenKey, UserKey}
  {
    Step(SignedOut, st - {TokenKey, RefreshTokenKey, UserKey}, Returned(()))
  }

  /** `restoreSession`: parse the stored user first (a syntax error is thrown
      whatever the token), then adopt all three stored entries only when the
      stored token is truthy. Storage is only read. */
  function RestoreStep(s: Session, st: Storage, codec: JsonCodec): (r: Step)
    ensures r.storage == st
    ensures r.completion.Threw? <==> ParseStoredUser(codec, Get(st, UserKey)).SyntaxError?
    ensures r.session == s || (Authenticated(r.session) && r.session.token == Item(Get(st, TokenKey)))
    ensures ParseStoredUser(codec, Get(st, UserKey)).Parsed? && Truthy(Item(Get(st, TokenKey))) ==>
              && r.completion == Returned(())
              && r.session == Session(Item(Get(st, TokenKey)), Item(Get(st, RefreshTokenKey)),
                                      ParseStoredUser(codec, Get(st, UserKey)).value)
  {
    var token := Item(Get(st, TokenKey));
    var refreshToken := Item(Get(st, RefreshTokenKey));
    match ParseStoredUser(codec, Get(st, UserKey))
    case SyntaxError(message) => Step(s, st, Threw(message))
    case Parsed(user) =>
      if Truthy(token) then Step(Session(token, refreshToken, user), st, Returned(()))
      else Step(s, st, Returned(()))
  }

  // ---------------------------------------------------------------------------
  // Properties
  // ---------------------------------------------------------------------------

  /** A successful login holds the response in memory and the same values in
      storage, and touches no other storage key. */
  lemma LoginSuccessMirrorsStorage(s: Session, st: Storage, codec: JsonCodec, p: LoginPayload)
    ensures var r := LoginStep(s, st, codec, Success(p));
      && r.completion == Returned(())
      && r.session == Session(p.accessToken, p.refreshToken, Some(p))
      && Get(r.storage, TokenKey) == Some(StoredText(r.session.token))
      && Get(r.storage, RefreshTokenKey) == Some(StoredText(r.session.refreshToken))
      && Get(r.storage, UserKey) == Some(codec.stringify(p))
      && forall k :: k != TokenKey && k != RefreshTokenKey && k != UserKey ==> Get(r.storage, k) == Get(st, k)
  {
  }

  /** A failed login keeps the session and the storage, and throws the
      server's message if it has a non-empty one, else "Login failed". */
  lemma LoginFailureKeepsState(s: Session, st: Storage, codec: JsonCodec, serverMessage: Option<string>)
    ensures var r := LoginStep(s, st, codec, Failure(serverMessage));
      && r.session == s && r.storage == st
      && r.completion == Threw(if serverMessage.Some? && serverMessage.value != "" then serverMessage.value else "Login failed")
  {
  }

  /** Logout leaves no session fields and none of the three keys; every
      other key is kept; doing it twice is the same as once. */
  lemma LogoutClearsAndIsIdempotent(st: Storage)
    ensures var r := LogoutStep(st);
      && r.session == SignedOut && !Authenticated(r.session)
      && TokenKey !in r.storage && RefreshTokenKey !in r.storage && UserKey !in r.storage
      && (forall k :: k != TokenKey && k != RefreshTokenKey && k != UserKey ==> Get(r.storage, k) == Get(st, k))
      && LogoutStep(r.storage) == r
  {
  }

  /** After logout, restoring the session cannot bring a token back. */
  lemma LogoutThenRestoreSignedOut(st: Storage, codec: JsonCodec)
    ensures var out := LogoutStep(st);
      var r := RestoreStep(out.session, out.storage, codec);
      r.session == SignedOut && !Authenticated(r.session) && r.completion == Returned(())
  {
  }

  /** Without a truthy stored token, restoring leaves the in-memory session
      as it was (whether or not the stored user parses). */
  lemma RestoreWithoutTokenKeepsSession(s: Session, st: Storage, codec: JsonCodec)
    requires !Truthy(Item(Get(st, TokenKey)))
    ensures RestoreStep(s, st, codec).session == s
  {
  }

  /** The stored user is parsed before the token is looked at: unparsable
      user text makes restore throw even when there is no token at all. */
  lemma RestoreParsesBeforeTokenCheck(s: Session, st: Storage, codec: JsonCodec)
    requires UserKey in st && codec.parse(st[UserKey]).SyntaxError?
    ensures RestoreStep(s, st, codec) == Step(s, st, Threw(codec.parse(st[UserKey]).message))
  {
  }

  /** Restoring twice from unchanged storage gives the state of restoring
      once. */
  lemma RestoreIdempotent(s: Session, st: Storage, codec: JsonCodec)
    ensures var once := RestoreStep(s, st, codec);
      RestoreStep(once.session, once.storage, codec) == once
  {
  }

  /** A successful login with a non-empty access token and a refresh token,
      followed by restore in any store (a fresh one after reload included),
      reproduces the login's session, given that parsing undoes
      serialising. */
  lemma LoginThenRestoreRoundTrip(s: Session, reloaded: Session, st: Storage, codec: JsonCodec, p: LoginPayload)
    requires RoundTrips(codec)
    requires Truthy(p.accessToken) && p.refreshToken.Str?
    ensures var login := LoginStep(s, st, codec, Success(p));
      var r := RestoreStep(reloaded, login.storage, codec);
      r.session == login.session && Authenticated(r.session) && r.completion == Returned(())
  {
    var login := LoginStep(s, st, codec, Success(p));
    assert Get(login.storage, UserKey) == Some(codec.stringify(p));
  }

  /** A login response whose refresh token is missing or null stores it as
      the text "undefined" or "null", which restore then adopts as the
      refresh token. */
  lemma MissingRefreshTokenRestoredAsText(s: Session, reloaded: Session, st: Storage, codec: JsonCodec, p: LoginPayload)
    requires RoundTrips(codec)
    requires Truthy(p.accessToken) && !p.refreshToken.Str?
    ensures var login := LoginStep(s, st, codec, Success(p));
      var r := RestoreStep(reloaded, login.storage, codec);
      && login.session.refreshToken == p.refreshToken
      && r.session.refreshToken == Str(if p.refreshToken == Undefined then "undefined" else "null")
  {
    var login := LoginStep(s, st, codec, Success(p));
    assert Get(login.storage, UserKey) == Some(codec.stringify(p));
  }

  /** A login response whose access token is missing or null leaves the
      store signed out, but the text "undefined" or "null" it stores is
      truthy, so after restore the user counts as authenticated. */
  lemma MissingAccessTokenAuthenticatesAfterRestore(s: Session, reloaded: Session, st: Storage, codec: JsonCodec, p: LoginPayload)
    requires RoundTrips(codec)
    requires !p.accessToken.Str?
    ensures var login := LoginStep(s, st, codec, Success(p));
      var r := RestoreStep(reloaded, login.storage, codec);
      && !Authenticated(login.session) && Authenticated(r.session)
      && r.session.token == Str(if p.accessToken == Undefined then "undefined" else "null")
  {
    var login := LoginStep(s, st, codec, Success(p));
    assert Get(login.storage, UserKey) == Some(codec.stringify(p));
  }

  /** A login response with an empty access token leaves nothing for restore
      to adopt: the restarted store keeps its own session. */
  lemma EmptyAccessTokenNotRestored(s: Session, reloaded: Session, st: Storage, codec: JsonCodec, p: LoginPayload)
    requires RoundTrips(codec)
    requires p.accessToken == Str("")
    ensures var login := LoginStep(s, st, codec, Success(p));
      var r := RestoreStep(reloaded, login.storage, codec);
      !Authenticated(login.session) && r.session == reloaded
  {
    var login := LoginStep(s, st, codec, Success(p));
    assert Get(login.storage, UserKey) == Some(codec.stringify(p));
  }

  // ---------------------------------------------------------------------------
  // The store and the browser storage as objects
  // ---------------------------------------------------------------------------

  /** The browser's key-value storage. */
  class LocalStorage {
    var items: Storage

    constructor (items: Storage)
      ensures this.items == items
    {
      this.items := items;
    }

    method GetItem(key: string) returns (v: Option<string>)
      ensures v == Get(items, key)
    {
      if key in items {
        v := Some(items[key]);
      } else {
        v := None;
      }
    }

    method SetItem(key: string, value: string)
      modifies this
      ensures items == old(items)[key := value]
    {
      items := items[key := value];
    }

    method RemoveItem(key: string)
      modifies this
      ensures items == old(items) - {key}
    {
      items := items - {key};
    }
  }

  /** The session store. Its actions update the three fields and the shared
      storage in place; each is proved to perform its transition above. */
  class SessionStore {
    var token: JsValue
    var refreshToken: JsValue
    var user: Option<LoginPayload>
    const storage: LocalStorage
    const codec: JsonCodec

    /** The three fields as a value. */
    function State(): Session
      reads this
    {
      Session(token, refreshToken, user)
    }

    /** A new store: all three fields null. */
    constructor (storage: LocalStorage, codec: JsonCodec)
      ensures State() == SignedOut
      ensures this.storage == storage && this.codec == codec
    {
      token, refreshToken, user := Null, Null, None;
      this.storage := storage;
      this.codec := codec;
    }

    /** The `isAuthenticated` getter. */
    function IsAuthenticated(): (r: bool)
      reads this
      ensures r <==> Authenticated(State())
    {
      Truthy(token)
    }

    method Login(outcome: Outcome<LoginPayload, Option<string>>) returns (c: Completion<()>)
      modifies this, storage
      ensures var r := LoginStep(old(State()), old(storage.items), codec, outcome);
        State() == r.session && storage.items == r.storage && c == r.completion
    {
      match outcome {
        case Success(p) =>
          token := p.accessToken;
          refreshToken := p.refreshToken;
          user := Some(p);
          storage.SetItem(TokenKey, StoredText(token));
          storage.SetItem(RefreshTokenKey, StoredText(refreshToken));
          storage.SetItem(UserKey, codec.stringify(user.value));
          c := Returned(());
        case Failure(serverMessage) =>
          c := Threw(LoginMessage(serverMessage));
      }
    }

    method Logout()
      modifies this, storage
      ensures var r := LogoutStep(old(storage.items));
        State() == r.session && storage.items == r.storage
    {
      token := Null;
      refreshToken := Null;
      user := None;
      storage.RemoveItem(TokenKey);
      storage.RemoveItem(RefreshTokenKey);
      storage.RemoveItem(UserKey);
    }

    method RestoreSession() returns (c: Completion<()>)
      modifies this
      ensures var r := RestoreStep(old(State()), storage.items, codec);
        State() == r.session && c == r.completion
    {
      var storedToken := storage.GetItem(TokenKey);
      var storedRefreshToken := storage.GetItem(RefreshTokenKey);
      var storedUser := storage.GetItem(UserKey);
      match ParseStoredUser(codec, storedUser) {
        case SyntaxError(message) =>
          c := Threw(message);
        case Parsed(parsedUser) =>
          if Truthy(Item(storedToken)) {
            token := Item(storedToken);
            refreshToken := Item(storedRefreshToken);
            user := parsedUser;
          }
          c := Returned(());
      }
    }
  }
}
