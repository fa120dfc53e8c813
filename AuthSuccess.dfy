/**
 * The OAuth callback page: the effect that stores the `token` query
 * parameter and picks where to navigate. The query parameter and
 * `Date.now()` are inputs; the navigation target is the output.
 */
module AuthSuccess {
  import opened JsString
  import Json
  import Storage
  import AuthService

  const ChatPage: string := "/chat"
  const LoginPage: string := "/login"

  /** `JSON.stringify({ method: 'google', loggedInAt: Date.now() })`. */
  function GoogleUser(now: int): Json.Json {
    Json.Obj([Json.Member("method", Json.Str("google")), Json.Member("loggedInAt", Json.Num(now))])
  }

  /** The store after the callback, for the value of `params.get('token')`. */
  function AfterCallback(items: map<string, string>, token: Option<string>, now: int): (r: map<string, string>)
    ensures Storage.Truthy(token) ==> Storage.TokenKey in r && r[Storage.TokenKey] == token.value
    ensures !Storage.Truthy(token) ==> r == items
    ensures forall k :: k != Storage.TokenKey && k != Storage.UserKey ==>
      (k in r <==> k in items) && (k in items ==> r[k] == items[k])
  {
    assert Storage.TokenKey[7] != Storage.UserKey[7];
    if Storage.Truthy(token) then
      items[Storage.TokenKey := token.value][Storage.UserKey := Json.Stringify(GoogleUser(now))]
    else items
  }

  /** The effect of the callback page. */
  method HandleCallback(store: Storage.LocalStorage, token: Option<string>, now: int) returns (target: string)
    modifies store
    ensures store.items == AfterCallback(old(store.items), token, now)
    ensures target == (if Storage.Truthy(token) then ChatPage else LoginPage)
  {
    if Storage.Truthy(token) {
      store.SetItem(Storage.TokenKey, token.value);
      store.SetItem(Storage.UserKey, Json.Stringify(GoogleUser(now)));
      return ChatPage;
    }
    return LoginPage;
  }

  /** A present token is stored with a user record that reads back as a
      Google sign-in. */
  lemma CallbackStoresGoogleUser(items: map<string, string>, t: string, now: int)
    requires t != ""
    ensures Storage.UserKey in AfterCallback(items, Some(t), now)
    ensures Json.Parse(AfterCallback(items, Some(t), now)[Storage.UserKey]) == Some(GoogleUser(now))
    ensures Json.Lookup(GoogleUser(now).members, "method") == Some(Json.Str("google"))
  {
    Json.RoundTrip(GoogleUser(now));
    assert GoogleUser(now).members[..1][0].key == "method";
  }

  /** The callback never touches the axios layer's keys, so a Google sign-in
      does not make `AuthService.isAuthenticated()` true. */
  lemma CallbackLeavesSession(items: map<string, string>, token: Option<string>, now: int)
    ensures AuthService.IsAuthenticated(AfterCallback(items, token, now)) == AuthService.IsAuthenticated(items)
    ensures forall k :: k in Storage.SessionKeys ==>
      (k in AfterCallback(items, token, now) <==> k in items) &&
      (k in items ==> AfterCallback(items, token, now)[k] == items[k])
  {
  }
}
