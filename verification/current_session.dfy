/** GET /api/time/current-session: the caller's open session, if any, with
    its running duration measured against `now`. A function of the tables,
    so it cannot change them. The embedded project (id, name, color) of the
    select is not represented. */
module CurrentSession {

  import opened Common
  import opened Tables
  import opened Duration
  import opened WorkSessions

  datatype CurrentBody = CurrentBody(session: Option<SessionView>, isActive: bool)

  function GetCurrentSession(profiles: map<Uuid, Profile>, sessions: seq<WorkSession>,
                             auth: Option<Uuid>, now: int, failing: set<Call>): (r: Reply<CurrentBody>)
    ensures auth.None? ==> r == Failure(401, "Unauthorized")
    ensures auth.Some? && CallerProfile(profiles, auth.value, failing).None? ==>
              r == Failure(404, "User profile not found")
    ensures auth.Some? && CallerProfile(profiles, auth.value, failing).Some? && ActiveSessionQuery in failing ==>
              r == Failure(500, "Failed to find active session")
    ensures auth.Some? && CallerProfile(profiles, auth.value, failing).Some? ==>
              (r.Failure? <==> ActiveSessionQuery in failing)
    ensures auth.Some? && CallerProfile(profiles, auth.value, failing).Some?
            && ActiveLookup(sessions, auth.value, failing).NoRows? ==>
              r == Success(200, CurrentBody(None, false))
    ensures r.Success? ==> r.status == 200 && (r.value.isActive <==> r.value.session.Some?)
    ensures r.Success? && r.value.session.Some? ==>
              var v := r.value.session.value;
              && OpenFor(auth.value, v.row) && v.row in sessions
              && v == RunningView(v.row, now)
    ensures r.Failure? ==> r.status in {401, 404, 500}
  {
    if auth.None? then Failure(401, "Unauthorized")
    else if CallerProfile(profiles, auth.value, failing).None? then Failure(404, "User profile not found")
    else
      match ActiveLookup(sessions, auth.value, failing)
      case Failed => Failure(500, "Failed to find active session")
      case NoRows => Success(200, CurrentBody(None, false))
      case Found(s) =>
        ActiveLookupFound(sessions, auth.value, failing);
        Success(200, CurrentBody(Some(RunningView(s, now)), true))
  }

  /** Under the one-open-session invariant and working queries, the route
      reports an active session exactly when the caller has an open one, and
      never the "multiple rows" error. */
  lemma CurrentSessionUnderInvariant(profiles: map<Uuid, Profile>, sessions: seq<WorkSession>,
                                     uid: Uuid, now: int, failing: set<Call>)
    requires AtMostOneOpen(sessions)
    requires CallerProfile(profiles, uid, failing).Some? && ActiveSessionQuery !in failing
    ensures var r := GetCurrentSession(profiles, sessions, Some(uid), now, failing);
      r.Success? && (r.value.isActive <==> HasOpen(sessions, uid))
  {
    ActiveLookupUnderInvariant(sessions, uid, failing);
  }

  /** When the lookup finds a row, the route reports exactly that row as the
      active session, timed from its start to `now`. */
  lemma CurrentSessionFound(profiles: map<Uuid, Profile>, sessions: seq<WorkSession>, uid: Uuid,
                            now: int, failing: set<Call>, s: WorkSession)
    requires CallerProfile(profiles, uid, failing).Some?
    requires ActiveLookup(sessions, uid, failing) == Found(s)
    ensures var r := GetCurrentSession(profiles, sessions, Some(uid), now, failing);
      && r.Success? && r.value.isActive && r.value.session.Some?
      && r.value.session.value.row == s
      && r.value.session.value.duration.milliseconds == now - s.start_time
  {
  }
}
