/** The client-side admin session: two browser storage keys written by the
    login page, removed by logout and read by the route guard. */
module Session {
  import opened Records

  const AuthKey: string := "ds_admin_auth"
  const TokenKey: string := "ds_admin_token"

  const DefaultAdminUsername: string := "admin"
  const DefaultAdminPassword: string := "password"
  const DefaultClientToken: string := "ds-secret-token"
  const InvalidCredentials: string := "Invalid username or password"

  /** The browser's `localStorage`: a string-to-string dictionary. */
  class LocalStorage {
    var items: map<string, string>

    constructor (initial: map<string, string>)
      ensures items == initial
    {
      items := initial;
    }

    method SetItem(key: string, value: string)
      modifies this
      ensures items == old(items)[key := value]
    {
      items := items[key := value];
    }

    method RemoveItem(key: string)
      modifies this
      ensures items == old(items) - {key}
    {
      items := items - {key};
    }

    method GetItem(key: string) returns (value: Option<string>)
      ensures value.Some? <==> key in items
      ensures value.Some? ==> value.value == items[key]
    {
      value := if key in items then Some(items[key]) else None;
    }
  }

  /** The route guard of the admin page: the auth flag reads exactly
      "true". */
  predicate IsAuthenticated(items: map<string, string>) {
    AuthKey in items && items[AuthKey] == "true"
  }

  /** The `X-Admin-Token` header the dashboard sends: the stored token, or
      no header when the key is missing. */
  function TokenHeader(items: map<string, string>): (r: Option<string>)
    ensures r.Some? <==> TokenKey in items
    ensures r.Some? ==> r.value == items[TokenKey]
  {
    if TokenKey in items then Some(items[TokenKey]) else None
  }

  /** The two keys are independent: the guard passes exactly when the flag
      was last written as "true", the header carries exactly the token last
      written, removing a key clears what it controls, and writing one key
      never changes what the other controls. */
  lemma {:induction false} StoredKeys(items: map<string, string>, flag: string, token: string)
    ensures IsAuthenticated(items[AuthKey := flag]) <==> flag == "true"
    ensures TokenHeader(items[TokenKey := token]) == Some(token)
    ensures !IsAuthenticated(items - {AuthKey}) && TokenHeader(items - {TokenKey}) == None
    ensures TokenHeader(items[AuthKey := flag]) == TokenHeader(items)
    ensures IsAuthenticated(items[TokenKey := token]) <==> IsAuthenticated(items)
  {
    assert AuthKey != TokenKey by {
      assert AuthKey[9] != TokenKey[9];
    }
  }

  /** JavaScript's `value || default` for an environment value. */
  function JsOr(v: Option<string>, default: string): (r: string)
    ensures v.Some? && v.value != "" ==> r == v.value
    ensures v.None? || v.value == "" ==> r == default
  {
    if v.Some? && v.value != "" then v.value else default
  }

  /** The build-time settings the login page reads. */
  datatype ClientEnv = ClientEnv(
    adminUsername: Option<string>,
    adminPassword: Option<string>,
    adminToken: Option<string>)

  /** The credential check: both values equal the configured ones. */
  predicate CredentialsMatch(env: ClientEnv, username: string, password: string) {
    username == JsOr(env.adminUsername, DefaultAdminUsername)
    && password == JsOr(env.adminPassword, DefaultAdminPassword)
  }

  /** With nothing configured, exactly admin/password is accepted. */
  lemma {:induction false} DefaultCredentials(username: string, password: string)
    ensures CredentialsMatch(ClientEnv(None, None, None), username, password)
      <==> username == "admin" && password == "password"
  {
  }

  /** The login form. */
  class LoginPage {
    var username: string
    var password: string
    var error: string

    constructor ()
      ensures username == "" && password == "" && error == ""
    {
      username, password, error := "", "", "";
    }

    /** The username input's change handler. */
    method SetUsername(value: string)
      modifies this`username
      ensures username == value
    {
      username := value;
    }

    /** The password input's change handler. */
    method SetPassword(value: string)
      modifies this`password
      ensures password == value
    {
      password := value;
    }

    /** `handleLogin`: on matching credentials the auth flag and the token
        are stored and the page navigates to the admin page; otherwise only
        the error message is set. */
    method HandleLogin(env: ClientEnv, storage: LocalStorage) returns (navigateTo: Option<string>)
      modifies this`error, storage
      ensures CredentialsMatch(env, username, password) ==>
        && storage.items == old(storage.items)[AuthKey := "true"][TokenKey := JsOr(env.adminToken, DefaultClientToken)]
        && navigateTo == Some("/admin")
        && error == old(error)
        && IsAuthenticated(storage.items)
      ensures !CredentialsMatch(env, username, password) ==>
        && storage.items == old(storage.items)
        && navigateTo == None
        && error == InvalidCredentials
    {
      var adminUser := JsOr(env.adminUsername, DefaultAdminUsername);
      var adminPass := JsOr(env.adminPassword, DefaultAdminPassword);
      var adminToken := JsOr(env.adminToken, DefaultClientToken);
      if username == adminUser && password == adminPass {
        storage.SetItem(AuthKey, "true");
        storage.SetItem(TokenKey, adminToken);
        navigateTo := Some("/admin");
      } else {
        error := InvalidCredentials;
        navigateTo := None;
      }
    }
  }
}
