/**
 * `AuthService`: register, login and logout over the store, and the two
 * pure reads `isAuthenticated` and `getUser`.
 *
 * The service posts through the axios client, modelled by `ApiClient`: the
 * server's answers are an input, and the client's interceptors act on the
 * store before the service does. `Date.now()` is an input too.
 */
module AuthService {
  import opened JsString
  import Json
  import Storage
  import ApiClient

  const RegisterPath: string := "/auth/register"
  const LoginPath: string := "/auth/login"
  const LogoutPath: string := "/auth/logout"

  /** `register` and `login` differ only in the endpoint they post to. */
  datatype SignInKind = Register | Login

  function PathOf(kind: SignInKind): string {
    match kind
    case Register => RegisterPath
    case Login => LoginPath
  }

  /** What `register`/`login` return: `response.data`, or a rejection. */
  datatype AuthOutcome = Done(response: Json.Json) | Threw

  /** What `getUser` returns; `Throws` is a `JSON.parse` failure or a property
      read on a stored `null`. */
  datatype UserResult = Found(user: Json.Json) | NoUser | Throws

  /** The `mediro-auth` record. `JSON.stringify` leaves out a member whose
      value is `undefined`, so a missing `user` gives no `user` member. */
  function AuthRecord(user: Option<Json.Json>, now: int): Json.Json {
    Json.Obj([Json.Member("loggedIn", Json.Bool(true))] +
             (if user.Some? then [Json.Member("user", user.value)] else []) +
             [Json.Member("timestamp", Json.Num(now))])
  }

  /** The store after the three writes of a successful sign-in, given
      `response.data.data`. */
  function SignedIn(items: map<string, string>, d: Json.Json, now: int): map<string, string> {
    items[Storage.AccessTokenKey := Json.ItemText(Json.Property(d, "accessToken"))]
         [Storage.RefreshTokenKey := Json.ItemText(Json.Property(d, "refreshToken"))]
         [Storage.AuthKey := Json.Stringify(AuthRecord(Json.Property(d, "user"), now))]
  }

  /** `isAuthenticated()`: `!!localStorage.getItem('mediro-access-token')`. */
  predicate IsAuthenticated(items: map<string, string>) {
    Storage.Truthy(Storage.Get(items, Storage.AccessTokenKey))
  }

  /** `getUser()`: nothing stored gives null; otherwise the stored record's
      `user` when it is truthy, null when it is missing or falsy (or the
      record is a primitive), and an exception when the text does not parse
      or parses to `null`. */
  function GetUser(items: map<string, string>): (r: UserResult)
    ensures !Storage.Truthy(Storage.Get(items, Storage.AuthKey)) ==> r == NoUser
    ensures r == Throws <==>
      && Storage.Truthy(Storage.Get(items, Storage.AuthKey))
      && (Json.Parse(items[Storage.AuthKey]).None? || Json.Parse(items[Storage.AuthKey]) == Some(Json.Null))
    ensures Storage.Truthy(Storage.Get(items, Storage.AuthKey)) && Json.Parse(items[Storage.AuthKey]).Some? ==>
      var u := Json.Property(Json.Parse(items[Storage.AuthKey]).value, "user");
      (r.Found? <==> u.Some? && Json.Truthy(u.value)) && (r.Found? ==> r.user == u.value)
    ensures r.Found? ==> Json.Truthy(r.user)
  {
    var auth := Storage.Get(items, Storage.AuthKey);
    if !Storage.Truthy(auth) then NoUser
    else
      match Json.Parse(auth.value)
      case None => Throws
      case Some(parsed) =>
        match parsed
        case Null => Throws
        case Obj(ms) =>
          (match Json.Lookup(ms, "user")
           case Some(u) => if Json.Truthy(u) then Found(u) else NoUser
           case None => NoUser)
        case _ => NoUser
  }

  /** `register(data)` or `login(data)`: the post goes through the client
      (with its interceptors), then the two tokens and the auth record are
      stored, in that order. */
  method SignIn(kind: SignInKind, store: Storage.LocalStorage, server: ApiClient.Server, now: int)
    returns (posted: string, outcome: AuthOutcome, location: Option<string>)
    modifies store
    ensures posted == ApiClient.BaseUrl + PathOf(kind)
    ensures var r := ApiClient.Dispatch(old(store.items), ApiClient.DefaultHeaders, false, server);
      && location == r.location
      && (r.settled.Rejected? ==> outcome == Threw && store.items == r.items)
      && (r.settled.Resolved? && ApiClient.DataOf(r.settled.body).None? ==>
            outcome == Threw && store.items == r.items)
      && (r.settled.Resolved? && ApiClient.DataOf(r.settled.body).Some? ==>
            outcome == Done(r.settled.body) &&
            store.items == SignedIn(r.items, ApiClient.DataOf(r.settled.body).value, now))
  {
    posted := ApiClient.BaseUrl + PathOf(kind);
    var config := new ApiClient.RequestConfig(ApiClient.DefaultHeaders);
    var post, calls;
    post, calls, location := ApiClient.Request(store, config, server);
    if post.Rejected? {
      return posted, Threw, location;
    }
    var data := ApiClient.DataOf(post.body);
    if data.None? {
      return posted, Threw, location;
    }
    var d := data.value;
    store.SetItem(Storage.AccessTokenKey, Json.ItemText(Json.Property(d, "accessToken")));
    store.SetItem(Storage.RefreshTokenKey, Json.ItemText(Json.Property(d, "refreshToken")));
    store.SetItem(Storage.AuthKey, Json.Stringify(AuthRecord(Json.Property(d, "user"), now)));
    outcome := Done(post.body);
  }

  /** `logout()`: the post goes through the client, and the three keys go
      whether or not it succeeded, and whatever its interceptor did to them. */
  method Logout(store: Storage.LocalStorage, server: ApiClient.Server)
    returns (posted: string, location: Option<string>)
    modifies store
    ensures posted == ApiClient.BaseUrl + LogoutPath
    ensures location == ApiClient.Dispatch(old(store.items), ApiClient.DefaultHeaders, false, server).location
    ensures store.items == old(store.items) - Storage.SessionKeys
  {
    posted := ApiClient.BaseUrl + LogoutPath;
    ghost var before := store.items;
    var config := new ApiClient.RequestConfig(ApiClient.DefaultHeaders);
    var post, calls;
    post, calls, location := ApiClient.Request(store, config, server);
    ApiClient.OutsideSessionUntouched(before, ApiClient.DefaultHeaders, false, server);
    store.RemoveItem(Storage.AccessTokenKey);
    store.RemoveItem(Storage.RefreshTokenKey);
    store.RemoveItem(Storage.AuthKey);
  }

  // ---------------------------------------------------------------------
  // Properties
  // ---------------------------------------------------------------------

  /** `isAuthenticated` holds exactly when the request interceptor attaches
      a bearer token. */
  lemma AuthenticatedIffBearer(items: map<string, string>, headers: map<string, string>)
    requires "Authorization" !in headers
    ensures IsAuthenticated(items) <==> "Authorization" in ApiClient.WithBearer(headers, items)
  {
  }

  /** After a sign-in the user is authenticated exactly when the stored
      access token is not empty. */
  lemma SignedInAuthenticated(items: map<string, string>, d: Json.Json, now: int)
    ensures IsAuthenticated(SignedIn(items, d, now)) <==>
      Json.ItemText(Json.Property(d, "accessToken")) != ""
  {
  }

  lemma AuthRecordUser(user: Option<Json.Json>, now: int)
    ensures Json.Lookup(AuthRecord(user, now).members, "user") == user
  {
    var ms := AuthRecord(user, now).members;
    assert ms[|ms| - 1].key == "timestamp";
    var front := ms[..|ms| - 1];
    if user.Some? {
      assert front[|front| - 1] == Json.Member("user", user.value);
    } else {
      assert front == [Json.Member("loggedIn", Json.Bool(true))];
      assert front[..0] == [];
    }
  }

  /** After a sign-in `getUser` gives back the server's `user`, or null when
      it was missing or falsy. */
  lemma SignedInUser(items: map<string, string>, d: Json.Json, now: int)
    ensures var u := Json.Property(d, "user");
      GetUser(SignedIn(items, d, now)) ==
        if u.Some? && Json.Truthy(u.value) then Found(u.value) else NoUser
  {
    var rec := AuthRecord(Json.Property(d, "user"), now);
    Json.RoundTrip(rec);
    AuthRecordUser(Json.Property(d, "user"), now);
    assert Storage.Get(SignedIn(items, d, now), Storage.AuthKey) == Some(Json.Stringify(rec));
    assert Json.Stringify(rec) != "" by {
      assert Json.Stringify(rec)[0] == '{';
    }
  }

  /** After `logout`, `isAuthenticated()` is false and `getUser()` is null. */
  lemma LoggedOut(items: map<string, string>)
    ensures !IsAuthenticated(items - Storage.SessionKeys)
    ensures GetUser(items - Storage.SessionKeys) == NoUser
  {
    assert Storage.AccessTokenKey in Storage.SessionKeys;
    assert Storage.AuthKey in Storage.SessionKeys;
  }

  /** Neither sign-in nor logout touches a key outside the session keys, in
      particular `mediro-token` and `mediro-profile`. */
  lemma OnlySessionKeysWritten(items: map<string, string>, d: Json.Json, now: int, k: string)
    requires k !in Storage.SessionKeys
    ensures k in SignedIn(items, d, now) <==> k in items
    ensures k in items ==> SignedIn(items, d, now)[k] == items[k]
    ensures k in items - Storage.SessionKeys <==> k in items
    ensures k in items ==> (items - Storage.SessionKeys)[k] == items[k]
  {
  }
}
