/** GET /api/time/sessions: the caller's sessions, optionally narrowed to a
    project and a start-time range, newest first, one page at a time, each
    with its duration (to the end time, or to `now` while still running).
    The embedded project (id, name, color) of the select is not represented. */
module SessionListing {

  import opened Common
  import opened Seqs
  import opened Tables
  import opened Duration
  import opened WorkSessions

  const DefaultLimit: nat := 50

  /** The query string after `parseInt`: `None` where the parameter is absent
      or empty. Dates are instants in milliseconds. */
  datatype ListParams = ListParams(
    limit: Option<nat>,
    offset: Option<nat>,
    project_id: Option<string>,
    date_from: Option<int>,
    date_to: Option<int>)

  datatype SessionPage = SessionPage(sessions: seq<SessionView>, total: nat, hasMore: bool)

  /** `parseInt(searchParams.get('limit') || '50')` */
  function LimitOf(p: ListParams): nat { if p.limit.Some? then p.limit.value else DefaultLimit }

  /** `parseInt(searchParams.get('offset') || '0')` */
  function OffsetOf(p: ListParams): nat { if p.offset.Some? then p.offset.value else 0 }

  /** The `.eq`, `.gte` and `.lte` filters; an empty `project_id` adds no filter,
      and a set project filter never matches a session without a project. */
  predicate Matches(uid: Uuid, p: ListParams, s: WorkSession) {
    && s.user_id == uid
    && (p.project_id.Some? && p.project_id.value != "" ==> s.project_id == Some(p.project_id.value))
    && (p.date_from.Some? ==> s.start_time >= p.date_from.value)
    && (p.date_to.Some? ==> s.start_time <= p.date_to.value)
  }

  function StartTime(s: WorkSession): int { s.start_time }

  /** Every matching row, newest start first. */
  function Ordered(rows: seq<WorkSession>, uid: Uuid, p: ListParams): (r: seq<WorkSession>)
    ensures SortedDesc(r, StartTime)
    ensures forall i :: 0 <= i < |r| ==> Matches(uid, p, r[i])
    ensures multiset(r) == multiset(Filter(s => Matches(uid, p, s), rows))
  {
    var matching := Filter(s => Matches(uid, p, s), rows);
    var r := SortDesc(matching, StartTime);
    assert forall i :: 0 <= i < |r| ==> Matches(uid, p, r[i]) by {
      forall i | 0 <= i < |r| ensures Matches(uid, p, r[i]) {
        assert r[i] in multiset(matching);
        var j :| 0 <= j < |matching| && matching[j] == r[i];
      }
    }
    r
  }

  /** One listed row: running while `end_time` is null, and timed to the end
      time or to `now`. */
  function View(s: WorkSession, now: int): (v: SessionView)
    ensures v.row == s
    ensures v.isActive <==> s.end_time.None?
    ensures v.duration.milliseconds == (if s.end_time.Some? then s.end_time.value else now) - s.start_time
  {
    if s.end_time.Some? then FinishedView(s) else RunningView(s, now)
  }

  /** `.range(offset, offset + limit - 1)` of the ordered rows, each with its duration. */
  function PageOf(ord: seq<WorkSession>, p: ListParams, now: int): (page: seq<SessionView>)
    ensures |page| == (if OffsetOf(p) >= |ord| then 0 else Min(LimitOf(p), |ord| - OffsetOf(p)))
    ensures forall i :: 0 <= i < |page| ==> page[i] == View(ord[OffsetOf(p) + i], now)
  {
    var rows := Window(ord, OffsetOf(p), LimitOf(p));
    seq(|rows|, i requires 0 <= i < |rows| => View(rows[i], now))
  }

  function ListSessions(profiles: map<Uuid, Profile>, sessions: seq<WorkSession>, auth: Option<Uuid>,
                        p: ListParams, now: int, failing: set<Call>): (r: Reply<SessionPage>)
    ensures auth.None? ==> r == Failure(401, "Unauthorized")
    ensures auth.Some? && CallerProfile(profiles, auth.value, failing).None? ==>
              r == Failure(404, "User profile not found")
    ensures auth.Some? && CallerProfile(profiles, auth.value, failing).Some? ==>
              (r.Failure? <==> SessionsQuery in failing)
    ensures r.Failure? && auth.Some? && CallerProfile(profiles, auth.value, failing).Some? ==>
              r == Failure(500, "Failed to fetch sessions")
    ensures r.Success? ==>
      var ord := Ordered(sessions, auth.value, p);
      var page := r.value.sessions;
      && r.status == 200
      && page == PageOf(ord, p, now)
      && r.value.total == |page|
      && (r.value.hasMore <==> LimitOf(p) == 0 || OffsetOf(p) + LimitOf(p) <= |ord|)
  {
    if auth.None? then Failure(401, "Unauthorized")
    else if CallerProfile(profiles, auth.value, failing).None? then Failure(404, "User profile not found")
    else if SessionsQuery in failing then Failure(500, "Failed to fetch sessions")
    else
      var page := PageOf(Ordered(sessions, auth.value, p), p, now);
      Success(200, SessionPage(page, |page|, |page| == LimitOf(p)))
  }

  /** A listed page holds only the caller's rows that pass the filters, newest
      first, each reported active exactly when it has no end time. */
  lemma ListedRows(profiles: map<Uuid, Profile>, sessions: seq<WorkSession>, uid: Uuid,
                   p: ListParams, now: int, failing: set<Call>)
    requires ListSessions(profiles, sessions, Some(uid), p, now, failing).Success?
    ensures var page := ListSessions(profiles, sessions, Some(uid), p, now, failing).value.sessions;
      && (forall i :: 0 <= i < |page| ==> Matches(uid, p, page[i].row) && page[i].row in sessions)
      && (forall i :: 0 <= i < |page| ==> (page[i].isActive <==> IsOpen(page[i].row)))
      && (forall i, j :: 0 <= i < j < |page| ==> page[i].row.start_time >= page[j].row.start_time)
  {
    var ord := Ordered(sessions, uid, p);
    var page := ListSessions(profiles, sessions, Some(uid), p, now, failing).value.sessions;
    var matching := Filter(s => Matches(uid, p, s), sessions);
    forall i | 0 <= i < |page| ensures page[i].row in sessions {
      var o := OffsetOf(p) + i;
      assert page[i].row == ord[o];
      assert ord[o] in multiset(matching);
      assert multiset(matching) <= multiset(sessions);
    }
    forall i, j | 0 <= i < j < |page| ensures page[i].row.start_time >= page[j].row.start_time {
      assert StartTime(ord[OffsetOf(p) + i]) >= StartTime(ord[OffsetOf(p) + j]);
    }
  }

  /** `hasMore` is false only on a page that reaches the last matching row;
      a last page that is exactly full still reports `hasMore`. */
  lemma HasMoreMeaning(profiles: map<Uuid, Profile>, sessions: seq<WorkSession>, uid: Uuid,
                       p: ListParams, now: int, failing: set<Call>)
    requires ListSessions(profiles, sessions, Some(uid), p, now, failing).Success?
    ensures var r := ListSessions(profiles, sessions, Some(uid), p, now, failing).value;
      var n := |Ordered(sessions, uid, p)|;
      && (!r.hasMore ==> OffsetOf(p) + |r.sessions| >= n)
      && (LimitOf(p) > 0 && OffsetOf(p) + LimitOf(p) == n ==> r.hasMore)
  {
  }
}
