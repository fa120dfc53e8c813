/**
 * The browser's `localStorage`, shared by every part of the application: a
 * mutable map from string keys to string values.
 *
 * The key names are those the code uses. They are deliberately not unified:
 * the login modal, the OAuth callback and the chat modal use `mediro-token`,
 * while the axios layer and `AuthService` use `mediro-access-token`,
 * `mediro-refresh-token` and `mediro-auth`.
 */
module Storage {
  import opened JsString

  const TokenKey := "mediro-token"
  const UserKey := "mediro-user"
  const AccessTokenKey := "mediro-access-token"
  const RefreshTokenKey := "mediro-refresh-token"
  const AuthKey := "mediro-auth"
  const ProfileKey := "mediro-profile"

  /** The three keys the axios layer owns and clears together. */
  const SessionKeys: set<string> := {AccessTokenKey, RefreshTokenKey, AuthKey}

  /** `getItem`: the stored value, or `None` where JavaScript gives `null`. */
  function Get(items: map<string, string>, key: string): Option<string> {
    if key in items then Some(items[key]) else None
  }

  /** `if (value)` on the result of `getItem`: present and not empty. */
  predicate Truthy(v: Option<string>) {
    v.Some? && v.value != ""
  }

  class LocalStorage {
    var items: map<string, string>

    constructor (initial: map<string, string>)
      ensures items == initial
    {
      items := initial;
    }

    method SetItem(key: string, value: string)
      modifies this
      ensures items == old(items)[key := value]
    {
      items := items[key := value];
    }

    method RemoveItem(key: string)
      modifies this
      ensures items == old(items) - {key}
    {
      items := items - {key};
    }
  }
}
