/** The store client's credentials, decided once when the module is loaded: the API
    token is used only when the user found in session storage at that moment is an
    admin. */
module Sanity {
  import opened Wrappers
  import opened Auth

  /** The role decision as a function of the stored entry. */
  predicate StoredAdmin(stored: Option<StoredText>) {
    stored.Some? && stored.value.Serialized? && stored.value.user.role == Some("admin")
  }

  /** The module-level `isAdmin`: false, set from the parsed user's role when an entry
      is stored; a parse failure is caught and leaves it false. */
  method DecideIsAdmin(stored: Option<StoredText>) returns (isAdmin: bool)
    ensures isAdmin <==> StoredAdmin(stored)
  {
    isAdmin := false;
    if stored.Some? {
      match stored.value {
        case Malformed(_) =>
        case Serialized(u) =>
          isAdmin := u.role == Some("admin");
      }
    }
  }

  /** The token the client is created with. */
  function ClientToken(isAdmin: bool, apiToken: string): (token: string)
    ensures isAdmin ==> token == apiToken
    ensures !isAdmin ==> token == ""
  {
    if isAdmin then apiToken else ""
  }

  /** No stored user, malformed stored text, and any role but `admin` (including
      `preview` and a missing role) give the empty token; an admin gets the API token. */
  lemma TokenChoice(stored: Option<StoredText>, apiToken: string)
    ensures stored.None? ==> ClientToken(StoredAdmin(stored), apiToken) == ""
    ensures stored.Some? && stored.value.Malformed? ==> ClientToken(StoredAdmin(stored), apiToken) == ""
    ensures stored.Some? && stored.value.Serialized? ==>
              (ClientToken(StoredAdmin(stored), apiToken) == apiToken <==>
               stored.value.user.role == Some("admin") || apiToken == "")
  {
  }

  /** The client built at module load; its token is a constant, so a later login does
      not change it. */
  class Client {
    const token: string

    constructor(storage: Storage, apiToken: string)
      ensures token == ClientToken(StoredAdmin(Lookup(storage, UserKey)), apiToken)
    {
      var isAdmin := DecideIsAdmin(Lookup(storage, UserKey));
      token := ClientToken(isAdmin, apiToken);
    }
  }
}
