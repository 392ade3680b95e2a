/** The state the route handlers share: the auth service's accounts and the
    organizations, user_profiles, projects and work_sessions tables, with the
    four handlers that change them. Each handler runs its steps in the
    order of its route and stops at the first failing one. */
module Db {

  import opened Common
  import opened Tables
  import opened Duration
  import opened WorkSessions
  import opened CurrentSession
  import CI = ClockIn
  import P = Projects
  import S = Signup

  /** The caller is signed in and has a readable profile. */
  predicate Authorized(profiles: map<Uuid, Profile>, auth: Option<Uuid>, failing: set<Call>) {
    auth.Some? && CallerProfile(profiles, auth.value, failing).Some?
  }

  /** `if (validatedData.project_id)`: a project was named (an empty string is falsy). */
  predicate ProjectNamed(input: CI.ClockInInput) {
    input.project_id.Some? && input.project_id.value != ""
  }

  /** Every check of clock-in passes and the insert goes through. */
  predicate ClockInAccepted(profiles: map<Uuid, Profile>, projects: seq<Project>, sessions: seq<WorkSession>,
                            auth: Option<Uuid>, body: RequestBody<CI.ClockInFields>, isUuid: string -> bool,
                            newId: Uuid, failing: set<Call>)
  {
    && Authorized(profiles, auth, failing)
    && ActiveLookup(sessions, auth.value, failing).NoRows?
    && CI.ParseClockInBody(body, isUuid).Ok?
    && (var input := CI.ParseClockInBody(body, isUuid).value;
        ProjectNamed(input) ==>
          CI.ProjectVisible(projects, input.project_id.value, profiles[auth.value].organization_id, failing))
    && SessionInsert !in failing
    && newId !in Ids(sessions)
  }

  datatype ClockOutBody = ClockOutBody(session: WorkSession, duration: DurationRecord)

  /** Clock-out's reply for the found session `s` closed at `t`: the updated
      row and its duration, measured with the same end time that was written. */
  function ClosedReport(s: WorkSession, t: int): (b: ClockOutBody)
    ensures b.session == s.(end_time := Some(t))
    ensures b.duration.milliseconds == b.session.end_time.value - b.session.start_time
  {
    ClockOutBody(s.(end_time := Some(t)), RouteDuration(t - s.start_time))
  }

  class Database {
    var authUsers: seq<AuthUser>
    var organizations: seq<Organization>
    var profiles: map<Uuid, Profile>
    var projects: seq<Project>
    var sessions: seq<WorkSession>

    /** The primary keys: session ids are unique and a profile is stored
        under its own id. */
    ghost predicate Valid()
      reads this
    {
      && UniqueIds(sessions)
      && forall id :: id in profiles ==> profiles[id].id == id
    }

    constructor ()
      ensures Valid()
      ensures authUsers == [] && organizations == [] && profiles == map[] && projects == [] && sessions == []
    {
      authUsers, organizations, profiles, projects, sessions := [], [], map[], [], [];
    }

    /** POST /api/time/clock-in */
    method ClockIn(auth: Option<Uuid>, body: RequestBody<CI.ClockInFields>, isUuid: string -> bool,
                   newId: Uuid, now: int, failing: set<Call>) returns (r: Reply<WorkSession>)
      requires Valid()
      modifies this`sessions
      ensures Valid()
      ensures old(AtMostOneOpen(sessions)) ==> AtMostOneOpen(sessions)
      ensures auth.None? ==> r == Failure(401, "Unauthorized")
      ensures auth.Some? && CallerProfile(profiles, auth.value, failing).None? ==>
                r == Failure(404, "User profile not found")
      ensures Authorized(profiles, auth, failing) && ActiveLookup(old(sessions), auth.value, failing).Failed? ==>
                r == Failure(500, "Failed to check active session")
      ensures Authorized(profiles, auth, failing) && ActiveLookup(old(sessions), auth.value, failing).Found? ==>
                r == Failure(400, "You already have an active session")
      ensures Authorized(profiles, auth, failing) && ActiveLookup(old(sessions), auth.value, failing).NoRows?
              && CI.ParseClockInBody(body, isUuid).Err? ==>
                r == BodyRejection(CI.ParseClockInBody(body, isUuid).error)
      ensures Authorized(profiles, auth, failing) && ActiveLookup(old(sessions), auth.value, failing).NoRows?
              && CI.ParseClockInBody(body, isUuid).Ok? && ProjectNamed(CI.ParseClockInBody(body, isUuid).value)
              && !CI.ProjectVisible(projects, CI.ParseClockInBody(body, isUuid).value.project_id.value,
                                    profiles[auth.value].organization_id, failing) ==>
                r == Failure(404, "Project not found or access denied")
      ensures Authorized(profiles, auth, failing) && ActiveLookup(old(sessions), auth.value, failing).NoRows?
              && CI.ParseClockInBody(body, isUuid).Ok?
              && (ProjectNamed(CI.ParseClockInBody(body, isUuid).value) ==>
                    CI.ProjectVisible(projects, CI.ParseClockInBody(body, isUuid).value.project_id.value,
                                      profiles[auth.value].organization_id, failing))
              && (SessionInsert in failing || newId in Ids(old(sessions))) ==>
                r == Failure(500, "Failed to start work session")
      ensures r.Success? <==> ClockInAccepted(profiles, projects, old(sessions), auth, body, isUuid, newId, failing)
      ensures r.Failure? ==> sessions == old(sessions)
      ensures r.Success? ==>
                && r.status == 201
                && r.value == CI.NewSession(newId, auth.value, CI.ParseClockInBody(body, isUuid).value, now)
                && sessions == old(sessions) + [r.value]
      ensures r.Success? && old(AtMostOneOpen(sessions)) ==> |OpenOf(sessions, auth.value)| == 1
    {
      if auth.None? {
        return Failure(401, "Unauthorized");
      }
      var uid := auth.value;
      var profile := CallerProfile(profiles, uid, failing);
      if profile.None? {
        return Failure(404, "User profile not found");
      }
      var active := ActiveLookup(sessions, uid, failing);
      if active.Failed? {
        return Failure(500, "Failed to check active session");
      }
      if active.Found? {
        return Failure(400, "You already have an active session");
      }
      var parsed := CI.ParseClockInBody(body, isUuid);
      if parsed.Err? {
        return BodyRejection(parsed.error);
      }
      r := StartSession(uid, profile.value.organization_id, parsed.value, newId, now, failing);
    }

    /** The end of clock-in, once the caller has no active session and the
        body is valid: the project check, then the insert. */
    method StartSession(uid: Uuid, org: Option<Uuid>, input: CI.ClockInInput, newId: Uuid, now: int,
                        failing: set<Call>) returns (r: Reply<WorkSession>)
      requires Valid() && ActiveLookup(sessions, uid, failing).NoRows?
      modifies this`sessions
      ensures Valid()
      ensures old(AtMostOneOpen(sessions)) ==> AtMostOneOpen(sessions)
      ensures ProjectNamed(input) && !CI.ProjectVisible(projects, input.project_id.value, org, failing) ==>
                r == Failure(404, "Project not found or access denied")
      ensures r.Success? <==>
                && (ProjectNamed(input) ==> CI.ProjectVisible(projects, input.project_id.value, org, failing))
                && SessionInsert !in failing && newId !in Ids(old(sessions))
      ensures r.Failure? ==> sessions == old(sessions)
      ensures r.Failure? && r.status != 404 ==> r == Failure(500, "Failed to start work session")
      ensures (ProjectNamed(input) ==> CI.ProjectVisible(projects, input.project_id.value, org, failing))
              && (SessionInsert in failing || newId in Ids(old(sessions))) ==>
                r == Failure(500, "Failed to start work session")
      ensures r.Success? ==>
                && r == Success(201, CI.NewSession(newId, uid, input, now))
                && sessions == old(sessions) + [r.value]
      ensures r.Success? && old(AtMostOneOpen(sessions)) ==> |OpenOf(sessions, uid)| == 1
    {
      if ProjectNamed(input) && !CI.ProjectVisible(projects, input.project_id.value, org, failing) {
        return Failure(404, "Project not found or access denied");
      }
      if SessionInsert in failing || newId in Ids(sessions) {
        return Failure(500, "Failed to start work session");
      }
      var row := CI.NewSession(newId, uid, input, now);
      assert UniqueIds(sessions + [row]) by {
        forall i | 0 <= i < |sessions| ensures sessions[i].id != newId {
          assert sessions[i] in sessions;
        }
      }
      if AtMostOneOpen(sessions) {
        ActiveLookupUnderInvariant(sessions, uid, failing);
        OpenForIdle(sessions, row);
      }
      sessions := sessions + [row];
      r := Success(201, row);
    }

    /** POST /api/time/clock-out */
    method ClockOut(auth: Option<Uuid>, now: int, failing: set<Call>) returns (r: Reply<ClockOutBody>)
      requires Valid()
      modifies this`sessions
      ensures Valid()
      ensures old(AtMostOneOpen(sessions)) ==> AtMostOneOpen(sessions)
      ensures auth.None? ==> r == Failure(401, "Unauthorized")
      ensures auth.Some? && CallerProfile(profiles, auth.value, failing).None? ==>
                r == Failure(404, "User profile not found")
      ensures Authorized(profiles, auth, failing) && ActiveLookup(old(sessions), auth.value, failing).Failed? ==>
                r == Failure(500, "Failed to find active session")
      ensures Authorized(profiles, auth, failing) && ActiveLookup(old(sessions), auth.value, failing).NoRows? ==>
                r == Failure(404, "No active session found")
      ensures Authorized(profiles, auth, failing) && ActiveLookup(old(sessions), auth.value, failing).Found?
              && SessionUpdate in failing ==>
                r == Failure(500, "Failed to end work session")
      ensures r.Success? <==>
                Authorized(profiles, auth, failing) && ActiveLookup(old(sessions), auth.value, failing).Found?
                && SessionUpdate !in failing
      ensures r.Failure? ==> sessions == old(sessions)
      ensures r.Success? ==>
                var s := ActiveLookup(old(sessions), auth.value, failing).row;
                && r.status == 200
                && sessions == SetEndTime(old(sessions), s.id, now)
                && r.value == ClosedReport(s, now) && r.value.session in sessions
      ensures r.Success? && old(AtMostOneOpen(sessions)) ==> !HasOpen(sessions, auth.value)
    {
      if auth.None? {
        return Failure(401, "Unauthorized");
      }
      var uid := auth.value;
      if CallerProfile(profiles, uid, failing).None? {
        return Failure(404, "User profile not found");
      }
      var active := ActiveLookup(sessions, uid, failing);
      if active.Failed? {
        return Failure(500, "Failed to find active session");
      }
      if active.NoRows? {
        return Failure(404, "No active session found");
      }
      r := EndSession(uid, now, failing);
    }

    /** The end of clock-out, once the caller's open session is found: the
        `end_time` update and the duration of the closed session. */
    method EndSession(uid: Uuid, now: int, failing: set<Call>) returns (r: Reply<ClockOutBody>)
      requires Valid() && ActiveLookup(sessions, uid, failing).Found?
      modifies this`sessions
      ensures Valid()
      ensures old(AtMostOneOpen(sessions)) ==> AtMostOneOpen(sessions)
      ensures r.Success? <==> SessionUpdate !in failing
      ensures r.Failure? ==> r == Failure(500, "Failed to end work session") && sessions == old(sessions)
      ensures r.Success? ==>
                var s := ActiveLookup(old(sessions), uid, failing).row;
                && r.status == 200
                && sessions == SetEndTime(old(sessions), s.id, now)
                && r.value == ClosedReport(s, now) && r.value.session in sessions
      ensures r.Success? && old(AtMostOneOpen(sessions)) ==> !HasOpen(sessions, uid)
    {
      if SessionUpdate in failing {
        return Failure(500, "Failed to end work session");
      }
      var s := ActiveLookup(sessions, uid, failing).row;
      CloseFound(sessions, uid, failing, now);
      sessions := SetEndTime(sessions, s.id, now);
      r := Success(200, ClosedReport(s, now));
    }

    /** POST /api/projects */
    method CreateProject(auth: Option<Uuid>, body: RequestBody<P.ProjectFields>, newId: Uuid, now: int,
                         failing: set<Call>) returns (r: Reply<Project>)
      requires Valid()
      modifies this`projects
      ensures Valid()
      ensures auth.None? ==> r == Failure(401, "Unauthorized")
      ensures auth.Some? && CallerProfile(profiles, auth.value, failing).None? ==>
                r == Failure(404, "User profile not found")
      ensures Authorized(profiles, auth, failing) && P.ParseProjectBody(body).Err? ==>
                r == BodyRejection(P.ParseProjectBody(body).error)
      ensures Authorized(profiles, auth, failing) && P.ParseProjectBody(body).Ok?
              && (ProjectInsert in failing || newId in ProjectIds(old(projects))
                  || profiles[auth.value].organization_id.None?) ==>
                r == Failure(500, "Failed to create project")
      ensures r.Success? <==>
                && Authorized(profiles, auth, failing) && P.ParseProjectBody(body).Ok?
                && ProjectInsert !in failing && newId !in ProjectIds(old(projects))
                && profiles[auth.value].organization_id.Some?
      ensures r.Failure? ==> projects == old(projects)
      ensures r.Success? ==>
                && r.status == 201
                && r.value == P.NewProject(newId, profiles[auth.value].organization_id.value, auth.value,
                                           P.ParseProjectBody(body).value, now)
                && projects == old(projects) + [r.value]
      ensures r.Success? && ProjectsQuery !in failing ==>
                r.value in P.ListProjects(profiles, projects, auth, failing).value.projects
    {
      if auth.None? {
        return Failure(401, "Unauthorized");
      }
      var uid := auth.value;
      var profile := CallerProfile(profiles, uid, failing);
      if profile.None? {
        return Failure(404, "User profile not found");
      }
      var parsed := P.ParseProjectBody(body);
      if parsed.Err? {
        return BodyRejection(parsed.error);
      }
      r := InsertProject(uid, profile.value.organization_id, parsed.value, newId, now, failing);
      if r.Success? && ProjectsQuery !in failing {
        P.CreatedProjectListed(profiles, old(projects), uid, failing, r.value);
      }
    }

    /** The end of project creation, once the body is valid: the insert of
        the new row into the caller's organization. */
    method InsertProject(uid: Uuid, org: Option<Uuid>, input: P.ProjectInput, newId: Uuid, now: int,
                         failing: set<Call>) returns (r: Reply<Project>)
      requires input.color.None? || P.IsHexColor(input.color.value)
      modifies this`projects
      ensures r.Success? <==> ProjectInsert !in failing && newId !in ProjectIds(old(projects)) && org.Some?
      ensures r.Failure? ==> r == Failure(500, "Failed to create project") && projects == old(projects)
      ensures r.Success? ==>
                && r == Success(201, P.NewProject(newId, org.value, uid, input, now))
                && projects == old(projects) + [r.value]
    {
      // organization_id is NOT NULL in projects: a profile without one makes the insert fail.
      if ProjectInsert in failing || newId in ProjectIds(projects) || org.None? {
        return Failure(500, "Failed to create project");
      }
      var row := P.NewProject(newId, org.value, uid, input, now);
      projects := projects + [row];
      r := Success(201, row);
    }

    /** POST /api/auth/signup, step by step as `S.SignupSpec` describes it. */
    method Signup(auth: Option<Uuid>, body: RequestBody<S.SignupFields>, isEmail: string -> bool,
                  env: S.SignupEnv) returns (r: Reply<S.SignupUser>)
      requires Valid()
      modifies this`authUsers, this`organizations, this`profiles
      ensures Valid()
      ensures S.SignupOutcome(r, S.Store(authUsers, organizations, profiles))
              == S.SignupSpec(S.Store(old(authUsers), old(organizations), old(profiles)), auth, body, isEmail, env)
      ensures r.Failure? ==> organizations == old(organizations) && profiles == old(profiles)
    {
      ghost var st := S.Store(authUsers, organizations, profiles);
      var parsed := S.ParseSignupBody(body, isEmail);
      if parsed.Err? {
        return BodyRejection(parsed.error);
      }
      var input := parsed.value;
      if auth.Some? {
        return Failure(400, "User already authenticated");
      }
      if S.SubdomainTaken(organizations, input.organizationSubdomain, env.failing) {
        return Failure(400, "Organization subdomain already taken");
      }
      assert S.SignupSpec(st, auth, body, isEmail, env) == S.Provision(st, input, env);
      r := Provision(input, env);
    }

    /** The steps of signup from `listUsers` on, as `S.Provision` describes them. */
    method Provision(input: S.SignupInput, env: S.SignupEnv) returns (r: Reply<S.SignupUser>)
      requires Valid()
      modifies this`authUsers, this`organizations, this`profiles
      ensures Valid()
      ensures S.SignupOutcome(r, S.Store(authUsers, organizations, profiles))
              == S.Provision(S.Store(old(authUsers), old(organizations), old(profiles)), input, env)
      ensures r.Failure? ==> organizations == old(organizations) && profiles == old(profiles)
    {
      S.FailedSignupLeavesNothingIfFailed(S.Store(authUsers, organizations, profiles), input, env);
      if UserList in env.failing {
        return Failure(500, "Failed to check or create user account");
      }
      if !S.AccountStepOk(authUsers, input, env) {
        return Failure(400, env.authErrorMessage);
      }
      var uid := S.AccountId(authUsers, input.email, env.newUserId);
      authUsers := S.UsersWithAccount(authUsers, input, env.newUserId);
      if !S.OrgStepOk(organizations, env) {
        // The compensating delete removes the account even when it was reused.
        authUsers := S.RemoveUser(authUsers, uid);
        return Failure(500, "Failed to create organization");
      }
      organizations := organizations + [S.NewOrganization(input, env)];
      if MetadataUpdate !in env.failing {
        authUsers := S.SetUserOrganization(authUsers, uid, env.newOrgId);
      }
      if S.ProfileStepFails(profiles, uid, env.failing) {
        authUsers := S.RemoveUser(authUsers, uid);
        organizations := S.RemoveOrganization(organizations, env.newOrgId);
        return Failure(500, "Failed to create user profile");
      }
      if !(ExistingProfileQuery !in env.failing && uid in profiles) {
        profiles := profiles[uid := S.AdminProfile(uid, input, env)];
      }
      r := Success(200, S.SignupUser(uid, input.email, input.fullName, env.newOrgId, "admin"));
    }
  }

  /** Once clock-in has appended the caller's new open session, the
      current-session route reports it as active, with its duration running
      from its start. */
  lemma ClockInThenCurrent(profiles: map<Uuid, Profile>, rows: seq<WorkSession>, s: WorkSession,
                           t: int, failing: set<Call>)
    requires IsOpen(s) && !HasOpen(rows, s.user_id)
    requires CallerProfile(profiles, s.user_id, failing).Some? && ActiveSessionQuery !in failing
    ensures var r := GetCurrentSession(profiles, rows + [s], Some(s.user_id), t, failing);
      && r.Success? && r.value.isActive && r.value.session.Some?
      && r.value.session.value.row == s
      && r.value.session.value.duration.milliseconds == t - s.start_time
  {
    OpenOfAppend(rows, s, s.user_id);
  }

  /** Once clock-out has closed the caller's open session, the
      current-session route reports no active session. */
  lemma ClockOutThenCurrent(profiles: map<Uuid, Profile>, rows: seq<WorkSession>, k: nat, end: int,
                            t: int, failing: set<Call>)
    requires AtMostOneOpen(rows) && UniqueIds(rows)
    requires k < |rows| && IsOpen(rows[k])
    requires CallerProfile(profiles, rows[k].user_id, failing).Some? && ActiveSessionQuery !in failing
    ensures GetCurrentSession(profiles, rows[k := rows[k].(end_time := Some(end))], Some(rows[k].user_id), t, failing)
              == Success(200, CurrentBody(None, false))
  {
    CloseOnlyOpen(rows, k, end);
    CurrentSessionUnderInvariant(profiles, rows[k := rows[k].(end_time := Some(end))], rows[k].user_id, t, failing);
  }

  /** On an empty store holding one profile: clocking in succeeds, clocking
      in again is refused, and clocking out reports the time in between. */
  method ClockInOutScenario(uid: Uuid, org: Uuid, sid: Uuid, t1: int, t2: int)
    returns (first: Reply<WorkSession>, second: Reply<WorkSession>, out: Reply<ClockOutBody>)
    ensures first.Success? && first.status == 201 && first.value.start_time == t1
    ensures second == Failure(400, "You already have an active session")
    ensures out.Success? && out.status == 200
    ensures out.value.duration.milliseconds == t2 - t1
    ensures out.value.session.end_time == Some(t2)
  {
    var db := new Database();
    db.profiles := map[uid := Profile(uid, Some(org), "", None, "employee")];
    var body := Object(CI.ClockInFields(Missing, Missing));
    var isUuid := (s: string) => true;
    first := db.ClockIn(Some(uid), body, isUuid, sid, t1, {});
    second := db.ClockIn(Some(uid), body, isUuid, sid, t1, {});
    out := db.ClockOut(Some(uid), t2, {});
  }
}
