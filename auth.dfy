/** The session of the back office: the logged-in user held in the provider's state
    and persisted in the browser's session storage under the key `user`, with the
    user's token Base64-encoded while stored.  JSON text is modelled by its parsed
    value: `JSON.stringify` of a user stores the user itself, and stored text that
    does not parse is kept apart. */
module Auth {
  import opened Wrappers
  import opened Base64

  /** `{ uid?, email, role, token? }`; an absent field is `None`. */
  datatype User = User(uid: Option<string>, email: Option<string>, role: Option<string>, token: Option<string>)

  /** What a session-storage entry holds: a serialised user, or text that `JSON.parse`
      rejects. */
  datatype StoredText = Serialized(user: User) | Malformed(text: string)

  type Storage = map<string, StoredText>

  const UserKey := "user"

  /** JavaScript truthiness of an optional string: present and not empty. */
  predicate Truthy(s: Option<string>) {
    s.Some? && s.value != ""
  }

  /** `encodeToken` and `decodeToken`. */
  function EncodeToken(token: string): Result<string> { Btoa(token) }
  function DecodeToken(encoded: string): Result<string> { Atob(encoded) }

  /** Decoding an encoded token gives the token back for every Latin-1 token. */
  lemma DecodeEncodeToken(token: string)
    requires IsLatin1(token)
    ensures EncodeToken(token).Ok? && DecodeToken(EncodeToken(token).value) == Ok(token)
  {
    DecodeEncode(token);
  }

  /** The copy of a user written to storage: a truthy token is encoded; `btoa` throws
      on a token with a character above U+00FF. */
  function ToStore(u: User): (r: Result<User>)
    ensures r.Ok? <==> !Truthy(u.token) || IsLatin1(u.token.value)
    ensures r.Ok? ==> r.value.(token := u.token) == u
    ensures r.Ok? && Truthy(u.token) ==> r.value.token == Some(EncodeToken(u.token.value).value)
    ensures r.Ok? && !Truthy(u.token) ==> r.value == u
  {
    if Truthy(u.token) then
      var encoded :- EncodeToken(u.token.value);
      Ok(u.(token := Some(encoded)))
    else Ok(u)
  }

  /** The initial state of the provider, from the stored entry: a stored user is
      restored with its truthy token decoded, or as stored when its token is absent or
      empty; nothing stored, text that does not parse and a token that does not decode
      all give no user, because the error is caught. */
  function Load(stored: Option<StoredText>): (r: Option<User>)
    ensures stored.None? || stored.value.Malformed? ==> r.None?
    ensures stored.Some? && stored.value.Serialized? && !Truthy(stored.value.user.token) ==>
              r == Some(stored.value.user)
    ensures stored.Some? && stored.value.Serialized? && Truthy(stored.value.user.token) ==>
              var decoded := DecodeToken(stored.value.user.token.value);
              (decoded.Err? ==> r.None?) &&
              (decoded.Ok? ==> r == Some(stored.value.user.(token := Some(decoded.value))))
    ensures r.Some? ==> stored == Some(Serialized(r.value.(token := stored.value.user.token)))
  {
    match stored
    case None => None
    case Some(Malformed(_)) => None
    case Some(Serialized(u)) =>
      if Truthy(u.token) then
        match DecodeToken(u.token.value)
        case Err(_) => None
        case Ok(t) => Some(u.(token := Some(t)))
      else Some(u)
  }

  function Lookup(storage: Storage, key: string): (r: Option<StoredText>)
    ensures r.Some? <==> key in storage
    ensures r.Some? ==> r.value == storage[key]
  {
    if key in storage then Some(storage[key]) else None
  }

  /** Persisting a user and starting up again restores the same user: the token is
      decoded back, and a user without a token comes back unchanged. */
  lemma {:induction false} PersistThenLoad(u: User)
    requires !Truthy(u.token) || IsLatin1(u.token.value)
    ensures ToStore(u).Ok? && Load(Some(Serialized(ToStore(u).value))) == Some(u)
  {
    if Truthy(u.token) {
      var t := u.token.value;
      DecodeEncodeToken(t);
      assert ToStore(u).value == u.(token := Some(EncodeToken(t).value));
    }
  }

  /** `AuthProvider`: the user state next to the session storage it persists to. */
  class AuthProvider {
    var user: Option<User>
    var storage: Storage

    /** Mounting the provider reads the stored entry once. */
    constructor(storage0: Storage)
      ensures storage == storage0
      ensures user == Load(Lookup(storage0, UserKey))
    {
      storage := storage0;
      user := Load(Lookup(storage0, UserKey));
    }

    /** `setUserAndPersist`: the state is set first; then a user is stored with its
        token encoded, or the entry is removed for no user.  `failure` is the
        exception `btoa` throws, after which storage is unchanged. */
    method SetUserAndPersist(u: Option<User>) returns (failure: Option<string>)
      modifies this
      ensures user == u
      ensures u.None? ==> failure.None? && storage == old(storage) - {UserKey}
      ensures u.Some? && ToStore(u.value).Ok? ==>
                failure.None? && storage == old(storage)[UserKey := Serialized(ToStore(u.value).value)]
      ensures u.Some? && ToStore(u.value).Err? ==>
                failure == Some(ToStore(u.value).error) && storage == old(storage)
    {
      user := u;
      failure := None;
      if u.Some? {
        var toStore := u.value;
        if Truthy(toStore.token) {
          var encoded := EncodeToken(toStore.token.value);
          if encoded.Err? {
            failure := Some(encoded.error);
            return;
          }
          toStore := toStore.(token := Some(encoded.value));
        }
        storage := storage[UserKey := Serialized(toStore)];
      } else {
        storage := storage - {UserKey};
      }
    }

    /** `logout` persists no user. */
    method Logout()
      modifies this
      ensures user.None?
      ensures storage == old(storage) - {UserKey}
    {
      var _ := SetUserAndPersist(None);
    }
  }

  /** A user persisted by one provider is the user a provider mounted later on the same
      storage starts with; after logout it starts with none. */
  method PersistAndRemount(p: AuthProvider, u: User) returns (q: AuthProvider, r: AuthProvider)
    requires !Truthy(u.token) || IsLatin1(u.token.value)
    modifies p
    ensures p.user.None? && UserKey !in p.storage
    ensures q.user == Some(u)
    ensures r.user.None?
  {
    var failure := p.SetUserAndPersist(Some(u));
    PersistThenLoad(u);
    q := new AuthProvider(p.storage);
    p.Logout();
    r := new AuthProvider(p.storage);
  }

  /** `useAuth`: outside a provider there is no context and the hook throws. */
  function UseAuth<C>(context: Option<C>): (r: Result<C>)
    ensures r.Ok? <==> context.Some?
    ensures r.Ok? ==> r.value == context.value
    ensures r.Err? ==> r.error == "useAuth must be used within an AuthProvider"
  {
    if context.None? then Err("useAuth must be used within an AuthProvider") else Ok(context.value)
  }
}
