/** The moderation page (frontend/src/pages/AdminPanel.js): the admin gate, the
    initial load, and the local list updates after approving, rejecting,
    publishing and granting admin rights. */
module AdminPanel {
  import opened Wrappers

  datatype PendingQuestion = PendingQuestion(id: string, questionText: string, testTitle: string)
  datatype TestEntry = TestEntry(id: string, title: string, isPublished: bool)
  datatype UserEntry = UserEntry(id: string, email: string, isAdmin: bool)

  // ---------------------------------------------------------------------------
  // List updates
  // ---------------------------------------------------------------------------

  /** `prev.filter(q => q.id !== questionId)`. */
  function RemoveById(qs: seq<PendingQuestion>, id: string): (r: seq<PendingQuestion>)
    ensures |r| <= |qs|
    ensures forall i :: 0 <= i < |r| ==> r[i].id != id
    ensures forall q :: q in r <==> q in qs && q.id != id
    ensures (forall i :: 0 <= i < |qs| ==> qs[i].id != id) ==> r == qs
  {
    if qs == [] then []
    else if qs[0].id == id then RemoveById(qs[1..], id)
    else [qs[0]] + RemoveById(qs[1..], id)
  }

  /** Removal works piecewise, so the kept entries stay in their order. */
  lemma {:induction false} RemoveByIdAppend(a: seq<PendingQuestion>, b: seq<PendingQuestion>, id: string)
    ensures RemoveById(a + b, id) == RemoveById(a, id) + RemoveById(b, id)
  {
    if a != [] {
      assert (a + b)[0] == a[0];
      assert (a + b)[1..] == a[1..] + b;
      RemoveByIdAppend(a[1..], b, id);
    } else {
      assert a + b == b;
    }
  }

  /** Approving or rejecting the same question twice changes nothing more. */
  lemma RemoveByIdIdempotent(qs: seq<PendingQuestion>, id: string)
    ensures RemoveById(RemoveById(qs, id), id) == RemoveById(qs, id)
  {
  }

  /** `prev.map(test => test.id === testId ? {...test, is_published: !currentStatus} : test)`. */
  function SetPublished(ts: seq<TestEntry>, testId: string, currentStatus: bool): (r: seq<TestEntry>)
    ensures |r| == |ts|
    ensures forall i :: 0 <= i < |ts| ==> r[i].id == ts[i].id && r[i].title == ts[i].title
    ensures forall i :: 0 <= i < |ts| && ts[i].id != testId ==> r[i] == ts[i]
    ensures forall i :: 0 <= i < |ts| && ts[i].id == testId ==> r[i].isPublished == !currentStatus
  {
    seq(|ts|, i requires 0 <= i < |ts| => if ts[i].id == testId then ts[i].(isPublished := !currentStatus) else ts[i])
  }

  /** With the status the button passes (the test's own flag), publishing flips
      that test, and doing it again with the new flag restores the list. */
  lemma PublishTwiceRestores(ts: seq<TestEntry>, testId: string, currentStatus: bool)
    requires forall i :: 0 <= i < |ts| && ts[i].id == testId ==> ts[i].isPublished == currentStatus
    ensures forall i :: 0 <= i < |ts| && ts[i].id == testId ==>
      SetPublished(ts, testId, currentStatus)[i].isPublished == !ts[i].isPublished
    ensures SetPublished(SetPublished(ts, testId, currentStatus), testId, !currentStatus) == ts
  {
    var once := SetPublished(ts, testId, currentStatus);
    var twice := SetPublished(once, testId, !currentStatus);
    forall i | 0 <= i < |ts| ensures twice[i] == ts[i] {
      if ts[i].id == testId {
        assert twice[i].isPublished == ts[i].isPublished;
      }
    }
  }

  /** `prev.map(user => user.id === userId ? {...user, is_admin: !currentStatus} : user)`. */
  function SetAdmin(us: seq<UserEntry>, userId: string, currentStatus: bool): (r: seq<UserEntry>)
    ensures |r| == |us|
    ensures forall i :: 0 <= i < |us| ==> r[i].id == us[i].id && r[i].email == us[i].email
    ensures forall i :: 0 <= i < |us| && us[i].id != userId ==> r[i] == us[i]
    ensures forall i :: 0 <= i < |us| && us[i].id == userId ==> r[i].isAdmin == !currentStatus
  {
    seq(|us|, i requires 0 <= i < |us| => if us[i].id == userId then us[i].(isAdmin := !currentStatus) else us[i])
  }

  /** Toggling a user's admin flag twice, each time with the flag shown,
      restores the list. */
  lemma ToggleAdminTwiceRestores(us: seq<UserEntry>, userId: string, currentStatus: bool)
    requires forall i :: 0 <= i < |us| && us[i].id == userId ==> us[i].isAdmin == currentStatus
    ensures forall i :: 0 <= i < |us| && us[i].id == userId ==>
      SetAdmin(us, userId, currentStatus)[i].isAdmin == !us[i].isAdmin
    ensures SetAdmin(SetAdmin(us, userId, currentStatus), userId, !currentStatus) == us
  {
    var once := SetAdmin(us, userId, currentStatus);
    var twice := SetAdmin(once, userId, !currentStatus);
    forall i | 0 <= i < |us| ensures twice[i] == us[i] {
      if us[i].id == userId {
        assert twice[i].isAdmin == us[i].isAdmin;
      }
    }
  }

  // ---------------------------------------------------------------------------
  // The gate
  // ---------------------------------------------------------------------------

  const NotLoggedInError: string := "You must be logged in to access this page"
  const NotAdminError: string := "You do not have admin privileges"

  /** `checkAdminStatus`'s verdict: the message it fails with, if any.
      `profile` is the profile read: its error message, or the truthiness of
      `is_admin`. */
  function GateError(signedIn: bool, profile: Result<bool, string>): (e: Option<string>)
    ensures e.None? <==> signedIn && profile == Success(true)
    ensures !signedIn ==> e == Some(NotLoggedInError)
    ensures signedIn && profile.Failure? ==> e == Some(profile.error)
    ensures signedIn && profile == Success(false) ==> e == Some(NotAdminError)
  {
    if !signedIn then Some(NotLoggedInError)
    else match profile
      case Failure(m) => Some(m)
      case Success(admin) => if admin then None else Some(NotAdminError)
  }

  /** The three reads of `fetchData`, in order. */
  datatype Fetched = Fetched(
    users: Result<seq<UserEntry>, string>,
    tests: Result<seq<TestEntry>, string>,
    pending: Result<seq<PendingQuestion>, string>)

  class Panel {
    var loading: bool
    var error: Option<string>
    var isAdmin: bool
    var users: seq<UserEntry>
    var tests: seq<TestEntry>
    var pending: seq<PendingQuestion>

    constructor ()
      ensures loading && error == None && !isAdmin
      ensures users == [] && tests == [] && pending == []
    {
      loading, error, isAdmin := true, None, false;
      users, tests, pending := [], [], [];
    }

    /** `checkAdminStatus` followed, when it passes, by `fetchData`. A read
        that fails keeps the lists read before it and records its message. */
    method CheckAdminStatus(signedIn: bool, profile: Result<bool, string>, data: Fetched)
      requires !isAdmin && users == [] && tests == [] && pending == []
      modifies this
      ensures isAdmin <==> GateError(signedIn, profile).None?
      ensures !isAdmin ==> error == GateError(signedIn, profile) && users == [] && tests == [] && pending == []
      ensures !loading
      ensures isAdmin ==> (
        && users == (if data.users.Success? then data.users.value else [])
        && tests == (if data.users.Success? && data.tests.Success? then data.tests.value else [])
        && pending == (if data.users.Success? && data.tests.Success? && data.pending.Success? then data.pending.value else [])
        && (data.users.Success? && data.tests.Success? && data.pending.Success? ==> error == old(error)))
      ensures isAdmin && data.users.Failure? ==> error == Some(data.users.error)
      ensures isAdmin && data.users.Success? && data.tests.Failure? ==> error == Some(data.tests.error)
      ensures isAdmin && data.users.Success? && data.tests.Success? && data.pending.Failure? ==>
        error == Some(data.pending.error)
    {
      var gate := GateError(signedIn, profile);
      if gate.Some? {
        error := gate;
        loading := false;
        return;
      }
      isAdmin := true;
      loading := true;
      match data.users {
        case Failure(m) =>
          error := Some(m);
        case Success(us) =>
          users := us;
          match data.tests {
            case Failure(m) =>
              error := Some(m);
            case Success(ts) =>
              tests := ts;
              match data.pending {
                case Failure(m) =>
                  error := Some(m);
                case Success(ps) =>
                  pending := ps;
              }
          }
      }
      loading := false;
    }

    /** `handleApproveQuestion`; `remoteError` is the update's error. */
    method ApproveQuestion(questionId: string, remoteError: Option<string>)
      modifies this`pending, this`error
      ensures remoteError.Some? ==> pending == old(pending) && error == remoteError
      ensures remoteError.None? ==> pending == RemoveById(old(pending), questionId) && error == old(error)
    {
      if remoteError.Some? {
        error := remoteError;
        return;
      }
      pending := RemoveById(pending, questionId);
    }

    /** `handleRejectQuestion`; `remoteError` is the delete's error. */
    method RejectQuestion(questionId: string, remoteError: Option<string>)
      modifies this`pending, this`error
      ensures remoteError.Some? ==> pending == old(pending) && error == remoteError
      ensures remoteError.None? ==> pending == RemoveById(old(pending), questionId) && error == old(error)
    {
      if remoteError.Some? {
        error := remoteError;
        return;
      }
      pending := RemoveById(pending, questionId);
    }

    /** `handlePublishTest`. */
    method PublishTest(testId: string, currentStatus: bool, remoteError: Option<string>)
      modifies this`tests, this`error
      ensures remoteError.Some? ==> tests == old(tests) && error == remoteError
      ensures remoteError.None? ==> tests == SetPublished(old(tests), testId, currentStatus) && error == old(error)
    {
      if remoteError.Some? {
        error := remoteError;
        return;
      }
      tests := SetPublished(tests, testId, currentStatus);
    }

    /** `handleToggleAdmin`. */
    method ToggleAdmin(userId: string, currentStatus: bool, remoteError: Option<string>)
      modifies this`users, this`error
      ensures remoteError.Some? ==> users == old(users) && error == remoteError
      ensures remoteError.None? ==> users == SetAdmin(old(users), userId, currentStatus) && error == old(error)
    {
      if remoteError.Some? {
        error := remoteError;
        return;
      }
      users := SetAdmin(users, userId, currentStatus);
    }
  }
}
