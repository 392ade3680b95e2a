/** Rows of the tables the handlers read and write, after the `Row` types of
    the database schema. Timestamps are integer milliseconds; columns no
    handler here looks at (updated_at, settings, timezone, avatar_url,
    calendar_event_id) are not represented. */
module Tables {

  import opened Common
  import opened Seqs

  datatype Organization = Organization(id: Uuid, name: string, subdomain: Option<string>)

  /** A row of user_profiles. The schema lists the roles admin, manager and
      employee; the users page also knows member, so the role stays a string. */
  datatype Profile = Profile(
    id: Uuid,
    organization_id: Option<Uuid>,
    email: string,
    full_name: Option<string>,
    role: string)

  datatype ProjectStatus = Active | Completed | Archived

  datatype Project = Project(
    id: Uuid,
    organization_id: Uuid,
    name: string,
    description: Option<string>,
    client_name: Option<string>,
    hourly_rate: Option<real>,
    budget_hours: Option<real>,
    status: ProjectStatus,
    color: string,
    created_by: Uuid,
    created_at: int)

  /** A row of work_sessions; `end_time == None` is an open (active) session. */
  datatype WorkSession = WorkSession(
    id: Uuid,
    user_id: Uuid,
    project_id: Option<Uuid>,
    start_time: int,
    end_time: Option<int>,
    notes: Option<string>,
    is_billable: bool,
    hourly_rate: Option<real>,
    created_at: int)

  /** An account of the auth service, with the two user_metadata keys the
      signup route writes. */
  datatype AuthUser = AuthUser(
    id: Uuid,
    email: string,
    fullName: Option<string>,
    organizationId: Option<Uuid>)

  /** The profile lookup every authenticated handler starts with:
      `profileError || !profile` both end the request. */
  function CallerProfile(profiles: map<Uuid, Profile>, uid: Uuid, failing: set<Call>): (r: Option<Profile>)
    ensures r.Some? <==> ProfileQuery !in failing && uid in profiles
    ensures r.Some? ==> r.value == profiles[uid]
  {
    if ProfileQuery in failing || uid !in profiles then None else Some(profiles[uid])
  }

  function ProjectIds(projects: seq<Project>): set<Uuid> {
    set p | p in projects :: p.id
  }
}
