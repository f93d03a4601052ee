/**
 * The process-wide session store: who is logged in, with which bearer token
 * and which permission tags, plus the prefix queries that gate the UI.
 * `storage` stands for the browser's `localStorage`.
 */
module AuthStore {
  import opened Options
  import opened JsStrings

  /** The identity returned by token verification. */
  datatype User = User(
    username: string,
    token: string,
    active: bool,
    permissions: seq<string>,
    createdAt: string,
    modifiedAt: string)

  /** The `localStorage` key under which the bearer token is kept. */
  const TokenKey := "token"

  /** `permissions.some(p => p.startsWith(prefix))`, scanning left to right. */
  function SomeStartsWith(permissions: seq<string>, prefix: string): (r: bool)
    ensures r <==> exists i :: 0 <= i < |permissions| && StartsWith(permissions[i], prefix)
  {
    if permissions == [] then false
    else if StartsWith(permissions[0], prefix) then true
    else
      var r := SomeStartsWith(permissions[1..], prefix);
      assert forall i :: 1 <= i < |permissions| ==> permissions[i] == permissions[1..][i - 1];
      r
  }

  /** `prefixes.some(prefix => permissions.some(p => p.startsWith(prefix)))`. */
  function SomePrefixHeld(permissions: seq<string>, prefixes: seq<string>): (r: bool)
    ensures r <==> exists j :: 0 <= j < |prefixes| && SomeStartsWith(permissions, prefixes[j])
  {
    if prefixes == [] then false
    else if SomeStartsWith(permissions, prefixes[0]) then true
    else
      var r := SomePrefixHeld(permissions, prefixes[1..]);
      assert forall j :: 1 <= j < |prefixes| ==> prefixes[j] == prefixes[1..][j - 1];
      r
  }

  class Store {
    var user: Option<User>
    var token: Option<string>
    var isAuthenticated: bool
    var permissions: seq<string>
    var storage: map<string, string>

    /** Identity is either fully present or fully absent. */
    ghost predicate Valid()
      reads this
    {
      && (isAuthenticated <==> user.Some?)
      && (user.Some? ==> token == Some(user.value.token) && permissions == user.value.permissions)
      && (user.None? ==> token.None? && permissions == [])
    }

    /** The store's initial (logged-out) field values. */
    predicate LoggedOut()
      reads this
    {
      user.None? && token.None? && !isAuthenticated && permissions == []
    }

    /** A fresh store over an existing `localStorage`, which it does not touch. */
    constructor (storage: map<string, string>)
      ensures LoggedOut() && Valid()
      ensures this.storage == storage
    {
      user := None;
      token := None;
      isAuthenticated := false;
      permissions := [];
      this.storage := storage;
    }

    /** Replaces the identity unconditionally; `u.active` is not inspected. */
    method Login(u: User)
      modifies this
      ensures Valid()
      ensures user == Some(u) && token == Some(u.token) && isAuthenticated
      ensures permissions == u.permissions
      ensures storage == old(storage)[TokenKey := u.token]
    {
      storage := storage[TokenKey := u.token];
      user := Some(u);
      token := Some(u.token);
      isAuthenticated := true;
      permissions := u.permissions;
    }

    /** Clears the identity and the persisted token, from any state. */
    method Logout()
      modifies this
      ensures Valid() && LoggedOut()
      ensures storage == old(storage) - {TokenKey}
    {
      storage := storage - {TokenKey};
      user := None;
      token := None;
      isAuthenticated := false;
      permissions := [];
    }

    /** Some held permission starts with `prefix`. */
    function HasPermission(prefix: string): (r: bool)
      reads this
      ensures r <==> exists p :: p in permissions && StartsWith(p, prefix)
      ensures permissions == [] ==> !r
      ensures prefix == "" ==> (r <==> permissions != [])
      ensures Valid() && user.None? ==> !r
    {
      var r := SomeStartsWith(permissions, prefix);
      assert r ==> exists i :: 0 <= i < |permissions| && StartsWith(permissions[i], prefix);
      assert prefix == "" && permissions != [] ==> StartsWith(permissions[0], prefix);
      r
    }

    /** `HasPermission` holds for at least one of `prefixes` (OR, not AND). */
    function HasAnyPermission(prefixes: seq<string>): (r: bool)
      reads this
      ensures r <==> exists q :: q in prefixes && HasPermission(q)
      ensures prefixes == [] ==> !r
      ensures |prefixes| == 1 ==> r == HasPermission(prefixes[0])
      ensures Valid() && user.None? ==> !r
    {
      var r := SomePrefixHeld(permissions, prefixes);
      assert r ==> exists j :: 0 <= j < |prefixes| && HasPermission(prefixes[j]);
      r
    }

    /**
     * The login page's last step: a verified identity is stored only when it
     * is active; otherwise nothing changes.
     */
    method CompleteLogin(u: User) returns (loggedIn: bool)
      modifies this
      ensures loggedIn == u.active
      ensures loggedIn ==> Valid() && user == Some(u) && storage == old(storage)[TokenKey := u.token]
      ensures !loggedIn ==> unchanged(this)
    {
      if !u.active {
        return false;
      }
      Login(u);
      loggedIn := true;
    }
  }

  /** Login followed by logout, from any state, ends logged out with no token stored. */
  method LoginThenLogout(s: Store, u: User)
    modifies s
    ensures s.Valid() && s.LoggedOut()
    ensures s.storage == old(s.storage) - {TokenKey}
  {
    s.Login(u);
    s.Logout();
  }

  /** A second logout leaves the store exactly as the first one did. */
  method LogoutTwice(s: Store)
    modifies s
    ensures s.Valid() && s.LoggedOut()
    ensures s.storage == old(s.storage) - {TokenKey}
  {
    s.Logout();
    ghost var once := s.storage;
    s.Logout();
    assert s.storage == once;
  }
}
