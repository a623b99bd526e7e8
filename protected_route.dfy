/** The access gate around protected views (frontend/src/components/ProtectedRoute.js):
    the identity and admin-flag lookup of `checkUser` and the render decision. */
module ProtectedRoute {
  import opened Wrappers
  import AuthHelpers

  /** A `profiles` row; `isAdmin` is the truthiness of its `is_admin` column. */
  datatype Profile = Profile(isAdmin: bool)

  /** The profile query: it throws, or answers with the row if there is one. */
  datatype ProfileLookup = LookupThrew | LookupData(profile: Option<Profile>)

  datatype Decision = LoadingView | RedirectToLogin | RedirectToDashboard | RenderChildren

  /** `adminOnly && activeUser && activeUser.id`: the only case in which the
      profile is looked up. */
  predicate NeedsProfileLookup(adminOnly: bool, user: Option<AuthHelpers.User>)
  {
    adminOnly && user.Some? && user.value.id != ""
  }

  /** `data?.is_admin || false`, and `false` when the lookup throws. */
  function AdminFlag(lookup: ProfileLookup): (admin: bool)
    ensures admin <==> lookup == LookupData(Some(Profile(true)))
  {
    match lookup
    case LookupThrew => false
    case LookupData(p) => p.Some? && p.value.isAdmin
  }

  /** The render if-chain. */
  function Decide(loading: bool, user: Option<AuthHelpers.User>, adminOnly: bool, isAdmin: bool): (d: Decision)
    ensures loading <==> d == LoadingView
    ensures d == RedirectToLogin <==> !loading && user.None?
    ensures !loading && user.Some? && !adminOnly ==> d == RenderChildren
    ensures d == RedirectToDashboard <==> !loading && user.Some? && adminOnly && !isAdmin
  {
    if loading then LoadingView
    else if user.None? then RedirectToLogin
    else if adminOnly && !isAdmin then RedirectToDashboard
    else RenderChildren
  }

  /** The decision once `checkUser` has finished, from a fresh gate. */
  function Settled(adminOnly: bool, user: Option<AuthHelpers.User>, lookup: ProfileLookup): Decision
  {
    Decide(false, user, adminOnly, if NeedsProfileLookup(adminOnly, user) then AdminFlag(lookup) else false)
  }

  /** The gate fails closed: with an admin-only route, access is granted iff
      there is a user with an id whose profile lookup returned a truthy
      `is_admin`; a thrown lookup, a missing profile or a user without id all
      redirect to the dashboard, never to the login page. */
  lemma AdminGateFailsClosed(user: Option<AuthHelpers.User>, lookup: ProfileLookup)
    ensures Settled(true, user, lookup) == RenderChildren <==>
      user.Some? && user.value.id != "" && lookup == LookupData(Some(Profile(true)))
    ensures user.Some? ==> Settled(true, user, lookup) != RedirectToLogin
    ensures user.Some? && Settled(true, user, lookup) != RenderChildren ==>
      Settled(true, user, lookup) == RedirectToDashboard
  {
  }

  /** A plain protected route renders for any user and sends everyone else to
      the login page. */
  lemma PlainGate(user: Option<AuthHelpers.User>, lookup: ProfileLookup)
    ensures Settled(false, user, lookup) == (if user.Some? then RenderChildren else RedirectToLogin)
  {
  }

  class Gate {
    const adminOnly: bool
    var user: Option<AuthHelpers.User>
    var loading: bool
    var isAdmin: bool

    constructor (adminOnly: bool)
      ensures this.adminOnly == adminOnly
      ensures user == None && loading && !isAdmin
    {
      this.adminOnly := adminOnly;
      user, loading, isAdmin := None, true, false;
    }

    function Render(): Decision
      reads this
    {
      Decide(loading, user, adminOnly, isAdmin)
    }

    /** `checkUser`: resolves the identity through `getCurrentUser` (which may
        delete a corrupted stored record) and, only when `NeedsProfileLookup`,
        reads the admin flag. `lookedUp` says whether the profile was queried. */
    method CheckUser(storage: AuthHelpers.LocalStorage, session: AuthHelpers.SessionLookup,
                     parse: string -> AuthHelpers.ParseOutcome, lookup: ProfileLookup)
      returns (lookedUp: bool)
      modifies this, storage
      ensures (user, storage.items) == AuthHelpers.ResolveUser(session, old(storage.items), parse)
      ensures lookedUp == NeedsProfileLookup(adminOnly, user)
      ensures isAdmin == (if lookedUp then AdminFlag(lookup) else old(isAdmin))
      ensures !loading
      ensures old(user) == None && !old(isAdmin) ==> Render() == Settled(adminOnly, user, lookup)
    {
      var activeUser := storage.GetCurrentUser(session, parse);
      user := activeUser;
      lookedUp := NeedsProfileLookup(adminOnly, activeUser);
      if lookedUp {
        isAdmin := AdminFlag(lookup);
      }
      loading := false;
    }
  }
}
