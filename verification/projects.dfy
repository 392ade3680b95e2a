/** /api/projects: the `createProjectSchema` validation, the row POST inserts
    (its handler is `Database.CreateProject` in module Db), and the
    organization-scoped listing of GET. */
module Projects {

  import opened Common
  import opened Seqs
  import opened Tables

  /** The body fields the schema looks at. */
  datatype ProjectFields = ProjectFields(
    name: JVal,
    description: JVal,
    client_name: JVal,
    hourly_rate: JVal,
    budget_hours: JVal,
    color: JVal)

  datatype ProjectInput = ProjectInput(
    name: string,
    description: Option<string>,
    client_name: Option<string>,
    hourly_rate: Option<real>,
    budget_hours: Option<real>,
    color: Option<string>)

  const DefaultColor: string := "#3B82F6"

  predicate IsHexDigit(c: char) {
    ('0' <= c <= '9') || ('A' <= c <= 'F') || ('a' <= c <= 'f')
  }

  /** `/^#[0-9A-F]{6}$/i` */
  predicate IsHexColor(s: string) {
    |s| == 7 && s[0] == '#' && forall i :: 1 <= i < 7 ==> IsHexDigit(s[i])
  }

  /** `z.string().min(1)` */
  predicate NonEmptyString(v: JVal) { v.JStr? && |v.str| >= 1 }

  predicate OptionalString(v: JVal) { v.Missing? || v.JStr? }

  /** `z.number().positive().optional()` */
  predicate OptionalPositive(v: JVal) { v.Missing? || (v.JNum? && v.num > 0.0) }

  predicate OptionalColor(v: JVal) { v.Missing? || (v.JStr? && IsHexColor(v.str)) }

  function StringOrNone(v: JVal): Option<string> { if v.JStr? then Some(v.str) else None }

  function NumberOrNone(v: JVal): Option<real> { if v.JNum? then Some(v.num) else None }

  /** The keys of the body, as the `path` of a validation issue. */
  datatype ProjectField = Name | Description | ClientName | HourlyRate | BudgetHours | Color

  /** Whether the schema accepts the value under one key. */
  predicate FieldValid(f: ProjectFields, k: ProjectField) {
    match k
    case Name => NonEmptyString(f.name)
    case Description => OptionalString(f.description)
    case ClientName => OptionalString(f.client_name)
    case HourlyRate => OptionalPositive(f.hourly_rate)
    case BudgetHours => OptionalPositive(f.budget_hours)
    case Color => OptionalColor(f.color)
  }

  function Check(f: ProjectFields, k: ProjectField): seq<ProjectField> {
    if FieldValid(f, k) then [] else [k]
  }

  /** The paths of the fields the schema rejects, in declaration order. */
  function ProjectIssues(f: ProjectFields): (issues: seq<ProjectField>)
    ensures forall k :: k in issues <==> !FieldValid(f, k)
  {
    Check(f, Name) + Check(f, Description) + Check(f, ClientName)
    + Check(f, HourlyRate) + Check(f, BudgetHours) + Check(f, Color)
  }

  /** `createProjectSchema.parse(body)` */
  function ValidateProject(f: ProjectFields): (r: Result<ProjectInput, seq<ProjectField>>)
    ensures r.Ok? <==> forall k :: FieldValid(f, k)
    ensures r.Err? ==> r.error == ProjectIssues(f)
    ensures r.Ok? ==> f.name.JStr? && |r.value.name| >= 1 && r.value.name == f.name.str
    ensures r.Ok? ==> r.value.hourly_rate.None? || r.value.hourly_rate.value > 0.0
    ensures r.Ok? ==> r.value.budget_hours.None? || r.value.budget_hours.value > 0.0
    ensures r.Ok? ==> r.value.color.None? || IsHexColor(r.value.color.value)
    ensures r.Ok? ==> r.value.color == StringOrNone(f.color) && r.value.description == StringOrNone(f.description)
    ensures r.Ok? ==> r.value.client_name == StringOrNone(f.client_name)
                      && r.value.hourly_rate == NumberOrNone(f.hourly_rate)
                      && r.value.budget_hours == NumberOrNone(f.budget_hours)
  {
    var issues := ProjectIssues(f);
    if issues != [] then
      assert issues[0] in issues;
      Err(issues)
    else
      assert forall k :: FieldValid(f, k) by {
        forall k ensures FieldValid(f, k) { assert k !in issues; }
      }
      Ok(ProjectInput(f.name.str, StringOrNone(f.description), StringOrNone(f.client_name),
                      NumberOrNone(f.hourly_rate), NumberOrNone(f.budget_hours), StringOrNone(f.color)))
  }

  /** `await req.json()` then `createProjectSchema.parse(body)`. */
  function ParseProjectBody(body: RequestBody<ProjectFields>): (r: Result<ProjectInput, int>)
    ensures body.Unparseable? <==> r == Err(500)
    ensures r.Ok? <==> body.Object? && ValidateProject(body.fields).Ok?
    ensures r.Ok? ==> r.value == ValidateProject(body.fields).value
  {
    match body
    case Unparseable => Err(500)
    case NotAnObject => Err(400)
    case Object(f) => if ValidateProject(f).Ok? then Ok(ValidateProject(f).value) else Err(400)
  }

  /** The inserted row: an active project of the caller's organization,
      created by the caller, in the requested colour or the default blue. */
  function NewProject(id: Uuid, org: Uuid, uid: Uuid, input: ProjectInput, now: int): (p: Project)
    requires input.color.None? || IsHexColor(input.color.value)
    ensures p.id == id && p.organization_id == org && p.created_by == uid && p.created_at == now
    ensures p.status == Active && p.name == input.name
    ensures p.description == input.description && p.client_name == input.client_name
    ensures p.hourly_rate == input.hourly_rate && p.budget_hours == input.budget_hours
    ensures IsHexColor(p.color)
    ensures p.color == if input.color.Some? then input.color.value else DefaultColor
  {
    var color := if input.color.Some? then input.color.value else DefaultColor;
    Project(id, org, input.name, input.description, input.client_name,
            input.hourly_rate, input.budget_hours, Active, color, uid, now)
  }

  datatype ProjectList = ProjectList(projects: seq<Project>, total: nat)

  predicate InOrg(org: Option<Uuid>, p: Project) { Some(p.organization_id) == org }

  function CreatedAt(p: Project): int { p.created_at }

  /** GET: the projects of the caller's organization, newest first. A profile
      without an organization matches no project. */
  function ListProjects(profiles: map<Uuid, Profile>, projects: seq<Project>, auth: Option<Uuid>,
                        failing: set<Call>): (r: Reply<ProjectList>)
    ensures auth.None? ==> r == Failure(401, "Unauthorized")
    ensures auth.Some? && CallerProfile(profiles, auth.value, failing).None? ==>
              r == Failure(404, "User profile not found")
    ensures auth.Some? && CallerProfile(profiles, auth.value, failing).Some? ==>
              (r.Failure? <==> ProjectsQuery in failing)
    ensures r.Failure? && auth.Some? && CallerProfile(profiles, auth.value, failing).Some? ==>
              r == Failure(500, "Failed to fetch projects")
    ensures r.Success? ==>
      var org := profiles[auth.value].organization_id;
      && r.status == 200
      && r.value.total == |r.value.projects|
      && SortedDesc(r.value.projects, CreatedAt)
      && multiset(r.value.projects) == multiset(Filter(p => InOrg(org, p), projects))
  {
    if auth.None? then Failure(401, "Unauthorized")
    else match CallerProfile(profiles, auth.value, failing)
      case None => Failure(404, "User profile not found")
      case Some(profile) =>
        if ProjectsQuery in failing then Failure(500, "Failed to fetch projects")
        else
          var listed := SortDesc(Filter(p => InOrg(profile.organization_id, p), projects), CreatedAt);
          Success(200, ProjectList(listed, |listed|))
  }

  /** The listing shows exactly the projects of the caller's organization:
      each listed project is in that organization, and each such project is listed. */
  lemma ListedExactlyOrg(profiles: map<Uuid, Profile>, projects: seq<Project>, uid: Uuid,
                         failing: set<Call>, p: Project)
    requires ListProjects(profiles, projects, Some(uid), failing).Success?
    ensures p in ListProjects(profiles, projects, Some(uid), failing).value.projects <==>
              p in projects && InOrg(profiles[uid].organization_id, p)
  {
    var org := profiles[uid].organization_id;
    var matching := Filter(q => InOrg(org, q), projects);
    var listed := ListProjects(profiles, projects, Some(uid), failing).value.projects;
    assert p in listed <==> p in multiset(listed);
    assert p in matching <==> p in multiset(matching);
    if p in matching {
      var i :| 0 <= i < |matching| && matching[i] == p;
      assert InOrg(org, matching[i]);
      assert p in multiset(projects);
    }
    if p in projects && InOrg(org, p) {
      var i :| 0 <= i < |projects| && projects[i] == p;
    }
  }

  /** A project just created by a member of an organization is listed for
      every member of that organization. */
  lemma CreatedProjectListed(profiles: map<Uuid, Profile>, projects: seq<Project>, uid: Uuid,
                             failing: set<Call>, p: Project)
    requires ListProjects(profiles, projects + [p], Some(uid), failing).Success?
    requires InOrg(profiles[uid].organization_id, p)
    ensures p in ListProjects(profiles, projects + [p], Some(uid), failing).value.projects
  {
    ListedExactlyOrg(profiles, projects + [p], uid, failing, p);
  }
}
