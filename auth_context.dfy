/**
 * The client auth provider: on every auth-state change it records the signed-in user, fetches or creates
 * the user's profile, logs one `login` event per browser session (guarded by the `session_logged` flag of
 * `sessionStorage`) and clears the flag on sign-out. The provider's React state, the tab's session flag,
 * the `users` documents it reads and writes, and the login events it emits are the fields of one object.
 */
module AuthContext {
  import opened Wrappers
  import opened Store
  import opened Schema
  import opened AuthUtils

  /** The part of a Firebase `User` the handler reads. */
  datatype AuthUser = AuthUser(uid: string, email: Option<string>)

  /** `logEvent(uid, "login", null, null, { employeeId })`. */
  datatype LoginEvent = LoginEvent(uid: string, employeeId: string)

  /** The profile created on a first sign-in without one: uid, employee id, and both times set to now. */
  function NewProfile(uid: string, employeeId: string, now: int): (d: Doc)
    ensures StrField(d, "uid") == Some(uid) && StrField(d, "employeeId") == Some(employeeId)
    ensures Field(d, "createdAt") == Some(Time(now)) && Field(d, "lastLoginAt") == Some(Time(now))
  {
    map["uid" := Str(uid), "employeeId" := Str(employeeId), "createdAt" := Time(now), "lastLoginAt" := Time(now)]
  }

  /** The employee id the handler acts on: present and non-empty (`if (employeeId)`). */
  function SignInId(u: AuthUser): (e: Option<string>)
    ensures e.Some? ==> e.value != "" && EmailToEmployeeId(u.email) == e
    ensures e.None? ==> EmailToEmployeeId(u.email).None? || EmailToEmployeeId(u.email) == Some("")
  {
    var id := EmailToEmployeeId(u.email);
    if id.Some? && id.value != "" then id else None
  }

  class AuthProvider {
    var user: Option<AuthUser>
    var userProfile: Option<Doc>
    var loading: bool
    /** `sessionStorage.getItem("session_logged")` is set. */
    var sessionLogged: bool
    /** The `users` collection. */
    var users: map<string, Doc>
    /** The login events logged, oldest first. */
    var loginEvents: seq<LoginEvent>
    /** How many login events there were when the current session began. */
    ghost var sessionStart: nat

    /** At most one login event since the session began, and none while the flag is unset. */
    ghost predicate Valid()
      reads this
    {
      && sessionStart <= |loginEvents| <= sessionStart + 1
      && (!sessionLogged ==> |loginEvents| == sessionStart)
    }

    /** The provider as it mounts: no user yet, loading, and the session flag as the tab left it. */
    constructor (flag: bool, docs: map<string, Doc>)
      ensures Valid()
      ensures user == None && userProfile == None && loading
      ensures sessionLogged == flag && users == docs && loginEvents == []
    {
      user := None;
      userProfile := None;
      loading := true;
      sessionLogged := flag;
      users := docs;
      loginEvents := [];
      sessionStart := 0;
    }

    /** `isAdminUser`: false without a profile, else whether the profile's employee id is an admin's. */
    function IsAdminUser(adminSetting: string): (b: bool)
      reads this
      ensures userProfile.None? ==> !b
      ensures b <==> exists e :: userProfile.Some? && StrField(userProfile.value, "employeeId") == Some(e)
                                 && IsAdmin(adminSetting, e)
    {
      match userProfile
      case None => false
      case Some(p) =>
        match StrField(p, "employeeId")
        case Some(e) => IsAdmin(adminSetting, e)
        case None => false
    }

    /** Logs the login event unless this session already has one, then sets the flag. */
    method LogLoginOnce(uid: string, employeeId: string)
      modifies this
      requires Valid()
      ensures Valid()
      ensures sessionLogged && sessionStart == old(sessionStart)
      ensures loginEvents == old(loginEvents) + if old(sessionLogged) then [] else [LoginEvent(uid, employeeId)]
      ensures user == old(user) && userProfile == old(userProfile) && loading == old(loading) && users == old(users)
    {
      if !sessionLogged {
        loginEvents := loginEvents + [LoginEvent(uid, employeeId)];
        sessionLogged := true;
      }
    }

    /** The `onAuthStateChanged` callback. `fetchFails` says that reading or writing the profile throws;
      * `now` is the server time of the profile writes. */
    method OnAuthStateChanged(firebaseUser: Option<AuthUser>, fetchFails: bool, now: int)
      modifies this
      requires Valid()
      ensures Valid()
      ensures user == firebaseUser && !loading
      // sign-out: no profile, flag cleared, a new session begins
      ensures firebaseUser.None? ==>
        && userProfile == None && !sessionLogged && sessionStart == |loginEvents|
        && users == old(users) && loginEvents == old(loginEvents)
      // no usable employee id, or the profile could not be fetched: nothing else changes
      ensures firebaseUser.Some? && (SignInId(firebaseUser.value).None? || fetchFails) ==>
        && userProfile == old(userProfile) && sessionLogged == old(sessionLogged)
        && users == old(users) && loginEvents == old(loginEvents) && sessionStart == old(sessionStart)
      // a signed-in employee: the profile is stamped or created, then the login is logged once per session
      ensures firebaseUser.Some? && SignInId(firebaseUser.value).Some? && !fetchFails ==>
        var uid := firebaseUser.value.uid;
        var eid := SignInId(firebaseUser.value).value;
        && users == old(users)[uid := if uid in old(users) then old(users)[uid]["lastLoginAt" := Time(now)]
                                      else NewProfile(uid, eid, now)]
        && userProfile == Some(if uid in old(users) then old(users)[uid] else NewProfile(uid, eid, now))
        && sessionLogged && sessionStart == old(sessionStart)
        && loginEvents == old(loginEvents) + if old(sessionLogged) then [] else [LoginEvent(uid, eid)]
    {
      user := firebaseUser;
      if firebaseUser.Some? {
        var fu := firebaseUser.value;
        var employeeId := SignInId(fu);
        if employeeId.Some? && !fetchFails {
          if fu.uid in users {
            var snapshot := users[fu.uid];
            users := users[fu.uid := snapshot["lastLoginAt" := Time(now)]];
            userProfile := Some(snapshot);
          } else {
            var newProfile := NewProfile(fu.uid, employeeId.value, now);
            users := users[fu.uid := newProfile];
            userProfile := Some(newProfile);
          }
          LogLoginOnce(fu.uid, employeeId.value);
        }
      } else {
        userProfile := None;
        sessionLogged := false;
        sessionStart := |loginEvents|;
      }
      loading := false;
    }
  }

  /** Two sign-ins in one session log one event: a second auth-state change for a signed-in user adds none. */
  method SessionLogsOnce(p: AuthProvider, u: AuthUser, now1: int, now2: int)
    modifies p
    requires p.Valid() && !p.sessionLogged
    requires SignInId(u).Some?
    ensures p.Valid()
    ensures p.loginEvents == old(p.loginEvents) + [LoginEvent(u.uid, SignInId(u).value)]
  {
    p.OnAuthStateChanged(Some(u), false, now1);
    p.OnAuthStateChanged(Some(u), false, now2);
  }

  /** After a sign-out the next sign-in is logged again. */
  method SignOutRearms(p: AuthProvider, u: AuthUser, now: int)
    modifies p
    requires p.Valid()
    requires SignInId(u).Some?
    ensures p.Valid()
    ensures p.loginEvents == old(p.loginEvents) + [LoginEvent(u.uid, SignInId(u).value)]
  {
    p.OnAuthStateChanged(None, false, now);
    p.OnAuthStateChanged(Some(u), false, now);
  }
}
