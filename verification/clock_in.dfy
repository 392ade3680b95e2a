/** The pure parts of POST /api/time/clock-in: the `clockInSchema` body
    validation and the row the handler inserts. The handler itself is
    `Database.ClockIn` in module Db. */
module ClockIn {

  import opened Common
  import opened Tables

  /** The body fields the schema looks at. */
  datatype ClockInFields = ClockInFields(project_id: JVal, notes: JVal)

  /** The body after validation. */
  datatype ClockInInput = ClockInInput(project_id: Option<Uuid>, notes: Option<string>)

  /** `z.string().uuid().optional()`: absent, or a string the uuid check accepts. */
  predicate OptionalUuid(v: JVal, isUuid: string -> bool) {
    v.Missing? || (v.JStr? && isUuid(v.str))
  }

  /** `z.string().optional()` */
  predicate OptionalString(v: JVal) { v.Missing? || v.JStr? }

  function StringOrNone(v: JVal): Option<string> {
    if v.JStr? then Some(v.str) else None
  }

  /** `clockInSchema.parse(body)`: the validated body, or the paths of the
      fields that failed. The uuid check is zod's and enters as `isUuid`. */
  function ValidateClockIn(f: ClockInFields, isUuid: string -> bool): (r: Result<ClockInInput, seq<string>>)
    ensures r.Ok? <==> OptionalUuid(f.project_id, isUuid) && OptionalString(f.notes)
    ensures r.Ok? ==> (r.value.project_id.Some? <==> f.project_id.JStr?)
    ensures r.Ok? && f.project_id.JStr? ==> r.value.project_id == Some(f.project_id.str)
    ensures r.Ok? ==> r.value.notes == StringOrNone(f.notes)
    ensures r.Err? ==> ("project_id" in r.error <==> !OptionalUuid(f.project_id, isUuid))
    ensures r.Err? ==> ("notes" in r.error <==> !OptionalString(f.notes))
  {
    var issues := (if OptionalUuid(f.project_id, isUuid) then [] else ["project_id"])
                + (if OptionalString(f.notes) then [] else ["notes"]);
    if issues == [] then Ok(ClockInInput(StringOrNone(f.project_id), StringOrNone(f.notes)))
    else Err(issues)
  }

  /** `await req.json()` then `clockInSchema.parse(body)`: the input, or the
      status of the rejection (500 for invalid JSON, 400 for a schema failure,
      including a body that is not an object). */
  function ParseClockInBody(body: RequestBody<ClockInFields>, isUuid: string -> bool): (r: Result<ClockInInput, int>)
    ensures body.Unparseable? <==> r == Err(500)
    ensures r.Ok? <==> body.Object? && ValidateClockIn(body.fields, isUuid).Ok?
    ensures r.Ok? ==> r.value == ValidateClockIn(body.fields, isUuid).value
  {
    match body
    case Unparseable => Err(500)
    case NotAnObject => Err(400)
    case Object(f) => if ValidateClockIn(f, isUuid).Ok? then Ok(ValidateClockIn(f, isUuid).value) else Err(400)
  }

  /** The inserted row: the caller's open, billable session starting now. */
  function NewSession(id: Uuid, uid: Uuid, input: ClockInInput, now: int): (s: WorkSession)
    ensures s.id == id && s.user_id == uid && s.start_time == now
    ensures s.end_time.None? && s.is_billable
    ensures s.project_id == input.project_id && s.notes == input.notes
  {
    WorkSession(id, uid, input.project_id, now, None, input.notes, true, None, now)
  }

  /** The ownership check: exactly one project with that id in the caller's
      organization. A profile without an organization matches no project. */
  predicate ProjectVisible(projects: seq<Project>, pid: Uuid, org: Option<Uuid>, failing: set<Call>) {
    Single(Seqs.Filter((p: Project) => p.id == pid && Some(p.organization_id) == org, projects), ProjectQuery in failing).Found?
  }
}
