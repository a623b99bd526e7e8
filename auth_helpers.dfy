/** Identity fallback and logout (frontend/src/utils/authHelpers.js) over the
    browser's local storage, modelled as a map from keys to strings. */
module AuthHelpers {
  import opened Wrappers
  import opened Strings

  /** A user record as the client sees it; `id` is `""` when the record has none. */
  datatype User = User(id: string, email: string)

  /** `supabase.auth.getSession()`: it throws, or answers with a session that
      may carry a user. */
  datatype SessionLookup = SessionThrew | SessionData(user: Option<User>)

  /** `JSON.parse(stored)`: it throws, or yields a value. `Parsed(None)` is a
      falsy JSON value (`null`, `false`, `0`, `""`); any truthy value counts as
      a user, and one without an `id` (such as `42`) stands as
      `Parsed(Some(User("", ...)))`. */
  datatype ParseOutcome = Malformed | Parsed(value: Option<User>)

  /** The key of the offline/demo user record. */
  const UserKey: string := "user"

  /** The prefix of the identity provider's own cache keys. */
  const CachePrefix: string := "sb-"

  /** `getCurrentUser`: the user it returns and the storage it leaves. */
  function ResolveUser(session: SessionLookup, items: map<string, string>, parse: string -> ParseOutcome)
    : (Option<User>, map<string, string>)
  {
    if session.SessionData? && session.user.Some? then (session.user, items)
    else if UserKey !in items || items[UserKey] == "" then (None, items)
    else match parse(items[UserKey])
      case Parsed(v) => (v, items)
      case Malformed => (None, items - {UserKey})
  }

  /** A session user is returned as it is and storage is neither read nor changed. */
  lemma SessionUserWins(session: SessionLookup, items: map<string, string>, parse: string -> ParseOutcome)
    requires session.SessionData? && session.user.Some?
    ensures ResolveUser(session, items, parse) == (session.user, items)
  {
  }

  /** Without a session user, a stored record that parses is returned as parsed. */
  lemma StoredUserFallback(session: SessionLookup, items: map<string, string>, parse: string -> ParseOutcome)
    requires !(session.SessionData? && session.user.Some?)
    requires UserKey in items && items[UserKey] != "" && parse(items[UserKey]).Parsed?
    ensures ResolveUser(session, items, parse) == (parse(items[UserKey]).value, items)
  {
  }

  /** A stored record that fails to parse is deleted, and nothing is returned. */
  lemma CorruptedRecordRemoved(session: SessionLookup, items: map<string, string>, parse: string -> ParseOutcome)
    requires !(session.SessionData? && session.user.Some?)
    requires UserKey in items && items[UserKey] != "" && parse(items[UserKey]).Malformed?
    ensures ResolveUser(session, items, parse).0 == None
    ensures ResolveUser(session, items, parse).1 == items - {UserKey}
    ensures UserKey !in ResolveUser(session, items, parse).1
  {
  }

  /** With no session user and no stored record, the result is `null` and
      storage is unchanged. */
  lemma NoIdentityAnywhere(session: SessionLookup, items: map<string, string>, parse: string -> ParseOutcome)
    requires !(session.SessionData? && session.user.Some?)
    requires UserKey !in items
    ensures ResolveUser(session, items, parse) == (None, items)
  {
  }

  /** The storage `clearStoredUser` leaves: the user record and every cache key
      gone, every other key kept with its value. */
  function Cleared(items: map<string, string>): (r: map<string, string>)
    ensures UserKey !in r
    ensures forall k :: k in r ==> !StartsWith(k, CachePrefix)
    ensures r.Keys <= items.Keys
    ensures forall k :: k in items && k != UserKey && !StartsWith(k, CachePrefix) ==> k in r && r[k] == items[k]
  {
    map k | k in items && k != UserKey && !StartsWith(k, CachePrefix) :: items[k]
  }

  /** Logging out twice is the same as logging out once. */
  lemma ClearedIdempotent(items: map<string, string>)
    ensures Cleared(Cleared(items)) == Cleared(items)
  {
  }

  /** After logging out, resolving the identity without a session user gives
      `null` and leaves storage alone, whatever the parser would have said. */
  lemma ClearedResolvesToNull(session: SessionLookup, items: map<string, string>, parse: string -> ParseOutcome)
    requires !(session.SessionData? && session.user.Some?)
    ensures ResolveUser(session, Cleared(items), parse) == (None, Cleared(items))
  {
  }

  /** A preference such as `theme` survives logging out. */
  lemma ClearedKeepsTheme(items: map<string, string>)
    requires "theme" in items
    ensures "theme" in Cleared(items) && Cleared(items)["theme"] == items["theme"]
  {
    assert "theme"[..|CachePrefix|][0] != CachePrefix[0];
  }

  class LocalStorage {
    var items: map<string, string>

    constructor (initial: map<string, string>)
      ensures items == initial
    {
      items := initial;
    }

    /** `getCurrentUser`. */
    method GetCurrentUser(session: SessionLookup, parse: string -> ParseOutcome) returns (user: Option<User>)
      modifies this
      ensures (user, items) == ResolveUser(session, old(items), parse)
    {
      if session.SessionData? && session.user.Some? {
        return session.user;
      }
      if UserKey in items && items[UserKey] != "" {
        match parse(items[UserKey]) {
          case Parsed(v) =>
            return v;
          case Malformed =>
            items := items - {UserKey};
        }
      }
      return None;
    }

    /** `clearStoredUser`. Whether the remote sign-out throws (`signOutThrows`)
        does not change what happens to storage. */
    method ClearStoredUser(signOutThrows: bool)
      modifies this
      ensures items == Cleared(old(items))
    {
      items := items - {UserKey};
      // the remote sign-out runs here; its failure is ignored
      ghost var snapshot := items;
      var pending := items.Keys;
      while pending != {}
        invariant pending <= snapshot.Keys
        invariant items == map k | k in snapshot && (k in pending || !StartsWith(k, CachePrefix)) :: snapshot[k]
        decreases pending
      {
        var k :| k in pending;
        if StartsWith(k, CachePrefix) {
          items := items - {k};
        }
        pending := pending - {k};
      }
    }
  }
}
