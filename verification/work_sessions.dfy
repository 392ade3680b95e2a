/** The work_sessions table as a sequence of rows: open sessions, the
    one-open-session-per-user invariant, the `.single()` lookup of a user's
    open session, and the `end_time` update of clock-out. */
module WorkSessions {

  import opened Common
  import opened Seqs
  import opened Tables
  import opened Duration

  predicate IsOpen(s: WorkSession) { s.end_time.None? }

  predicate OpenFor(uid: Uuid, s: WorkSession) { s.user_id == uid && IsOpen(s) }

  /** `.eq('user_id', uid).is('end_time', null)` */
  function OpenOf(rows: seq<WorkSession>, uid: Uuid): seq<WorkSession> {
    Filter(s => OpenFor(uid, s), rows)
  }

  predicate HasOpen(rows: seq<WorkSession>, uid: Uuid) {
    exists i :: 0 <= i < |rows| && OpenFor(uid, rows[i])
  }

  /** The invariant the handlers are meant to keep: no user has two open sessions. */
  ghost predicate AtMostOneOpen(rows: seq<WorkSession>) {
    forall i, j :: 0 <= i < j < |rows| && rows[i].user_id == rows[j].user_id ==> !(IsOpen(rows[i]) && IsOpen(rows[j]))
  }

  /** `id` is the primary key. */
  ghost predicate UniqueIds(rows: seq<WorkSession>) {
    forall i, j :: 0 <= i < j < |rows| ==> rows[i].id != rows[j].id
  }

  function Ids(rows: seq<WorkSession>): set<Uuid> {
    set s | s in rows :: s.id
  }

  /** The active-session query of clock-in, clock-out and current-session. */
  function ActiveLookup(rows: seq<WorkSession>, uid: Uuid, failing: set<Call>): Lookup<WorkSession> {
    Single(OpenOf(rows, uid), ActiveSessionQuery in failing)
  }

  /** Whatever the state, a row the lookup finds is an open session of the
      user taken from the table. */
  lemma ActiveLookupFound(rows: seq<WorkSession>, uid: Uuid, failing: set<Call>)
    requires ActiveLookup(rows, uid, failing).Found?
    ensures OpenFor(uid, ActiveLookup(rows, uid, failing).row)
    ensures ActiveLookup(rows, uid, failing).row in rows
  {
    var open := OpenOf(rows, uid);
    assert open[0] in multiset(open);
  }

  /** The open-session query returns rows exactly when the user has an open session. */
  lemma OpenOfNonEmpty(rows: seq<WorkSession>, uid: Uuid)
    ensures |OpenOf(rows, uid)| > 0 <==> HasOpen(rows, uid)
  {
    var open := OpenOf(rows, uid);
    if HasOpen(rows, uid) {
      var i :| 0 <= i < |rows| && OpenFor(uid, rows[i]);
      assert rows[i] in open;
    }
    if |open| > 0 {
      assert open[0] in multiset(rows);
      var i :| 0 <= i < |rows| && rows[i] == open[0];
      assert OpenFor(uid, rows[i]);
    }
  }

  /** Under the invariant a user has at most one open session. */
  lemma {:induction false} AtMostOneOpenCount(rows: seq<WorkSession>, uid: Uuid)
    requires AtMostOneOpen(rows)
    ensures |OpenOf(rows, uid)| <= 1
    ensures |OpenOf(rows, uid)| == 1 <==> HasOpen(rows, uid)
  {
    if rows != [] {
      var tail := rows[1..];
      assert AtMostOneOpen(tail);
      AtMostOneOpenCount(tail, uid);
      if OpenFor(uid, rows[0]) {
        assert forall i :: 0 <= i < |tail| ==> !OpenFor(uid, tail[i]) by {
          forall i | 0 <= i < |tail| ensures !OpenFor(uid, tail[i]) {
            assert tail[i] == rows[i + 1];
          }
        }
        FilterDropsAll(s => OpenFor(uid, s), tail);
      }
    }
    OpenOfNonEmpty(rows, uid);
  }

  /** With the invariant and a working query, the lookup finds the user's
      open session exactly when there is one, and reports no rows otherwise. */
  lemma ActiveLookupUnderInvariant(rows: seq<WorkSession>, uid: Uuid, failing: set<Call>)
    requires AtMostOneOpen(rows) && ActiveSessionQuery !in failing
    ensures ActiveLookup(rows, uid, failing).Found? <==> HasOpen(rows, uid)
    ensures ActiveLookup(rows, uid, failing).NoRows? <==> !HasOpen(rows, uid)
    ensures ActiveLookup(rows, uid, failing).Found? ==>
              var s := ActiveLookup(rows, uid, failing).row;
              OpenFor(uid, s) && exists i :: 0 <= i < |rows| && rows[i] == s
  {
    AtMostOneOpenCount(rows, uid);
    var open := OpenOf(rows, uid);
    if |open| == 1 {
      assert open[0] in multiset(open);
    }
  }

  /** `.update({ end_time: t }).eq('id', id)`: every row with that id gets the end time. */
  function SetEndTime(rows: seq<WorkSession>, id: Uuid, t: int): (r: seq<WorkSession>)
    ensures |r| == |rows|
    ensures forall i :: 0 <= i < |rows| && rows[i].id != id ==> r[i] == rows[i]
    ensures forall i :: 0 <= i < |rows| && rows[i].id == id ==> r[i] == rows[i].(end_time := Some(t))
  {
    seq(|rows|, i requires 0 <= i < |rows| => if rows[i].id == id then rows[i].(end_time := Some(t)) else rows[i])
  }

  /** With unique ids, the update touches exactly the one row at index `k`. */
  lemma SetEndTimeAt(rows: seq<WorkSession>, k: nat, t: int)
    requires UniqueIds(rows) && k < |rows|
    ensures SetEndTime(rows, rows[k].id, t) == rows[k := rows[k].(end_time := Some(t))]
  {
  }

  /** Closing a user's only open session leaves the user with none, keeps
      the invariant, and keeps the ids. */
  lemma CloseOnlyOpen(rows: seq<WorkSession>, k: nat, t: int)
    requires AtMostOneOpen(rows) && UniqueIds(rows)
    requires k < |rows| && IsOpen(rows[k])
    ensures var rows' := rows[k := rows[k].(end_time := Some(t))];
      && !HasOpen(rows', rows[k].user_id)
      && AtMostOneOpen(rows') && UniqueIds(rows')
      && Ids(rows') == Ids(rows)
  {
    var rows' := rows[k := rows[k].(end_time := Some(t))];
    var uid := rows[k].user_id;
    forall i | 0 <= i < |rows'| ensures !OpenFor(uid, rows'[i]) {
      if i != k {
        assert rows'[i] == rows[i];
        assert !(IsOpen(rows[i]) && IsOpen(rows[k]) && rows[i].user_id == uid);
      }
    }
    assert Ids(rows') == Ids(rows) by {
      forall x | x in Ids(rows) ensures x in Ids(rows') {
        var s :| s in rows && s.id == x;
        var i :| 0 <= i < |rows| && rows[i] == s;
        assert rows'[i].id == x;
      }
    }
  }

  /** Clock-out's update of the row the lookup found: it closes exactly
      that row, keeps the ids unique, and under the invariant leaves the user
      with no open session. */
  lemma CloseFound(rows: seq<WorkSession>, uid: Uuid, failing: set<Call>, t: int)
    requires UniqueIds(rows) && ActiveLookup(rows, uid, failing).Found?
    ensures var s := ActiveLookup(rows, uid, failing).row;
      var rows' := SetEndTime(rows, s.id, t);
      && UniqueIds(rows')
      && s.(end_time := Some(t)) in rows'
      && (AtMostOneOpen(rows) ==> AtMostOneOpen(rows') && !HasOpen(rows', uid))
  {
    var s := ActiveLookup(rows, uid, failing).row;
    ActiveLookupFound(rows, uid, failing);
    var k :| 0 <= k < |rows| && rows[k] == s;
    SetEndTimeAt(rows, k, t);
    var rows' := rows[k := s.(end_time := Some(t))];
    assert rows'[k] == s.(end_time := Some(t));
    if AtMostOneOpen(rows) {
      CloseOnlyOpen(rows, k, t);
    }
  }

  /** Appending an open session for a user who has none, under a fresh id,
      keeps the invariant and leaves that user with exactly one. */
  lemma OpenForIdle(rows: seq<WorkSession>, s: WorkSession)
    requires AtMostOneOpen(rows) && UniqueIds(rows)
    requires !HasOpen(rows, s.user_id) && IsOpen(s) && s.id !in Ids(rows)
    ensures AtMostOneOpen(rows + [s]) && UniqueIds(rows + [s])
    ensures |OpenOf(rows + [s], s.user_id)| == 1
  {
    var rows' := rows + [s];
    forall i | 0 <= i < |rows| ensures rows'[i].id != s.id {
      assert rows[i] in rows;
    }
    assert HasOpen(rows', s.user_id) by {
      assert OpenFor(s.user_id, rows'[|rows|]);
    }
    AtMostOneOpenCount(rows', s.user_id);
  }

  /** Appending an open session for a user who had none makes it that
      user's only open session. */
  lemma {:induction false} OpenOfAppend(rows: seq<WorkSession>, s: WorkSession, uid: Uuid)
    requires !HasOpen(rows, uid) && OpenFor(uid, s)
    ensures OpenOf(rows + [s], uid) == [s]
  {
    if rows == [] {
      assert [s][1..] == [];
    } else {
      assert (rows + [s])[1..] == rows[1..] + [s];
      assert !HasOpen(rows[1..], uid) by {
        forall i | 0 <= i < |rows[1..]| ensures !OpenFor(uid, rows[1..][i]) {
          assert rows[1..][i] == rows[i + 1];
        }
      }
      OpenOfAppend(rows[1..], s, uid);
      assert !OpenFor(uid, rows[0]);
    }
  }

  /** A row as the listing and current-session routes return it: the row, its
      duration and whether it is still running. */
  datatype SessionView = SessionView(row: WorkSession, duration: DurationRecord, isActive: bool)

  /** A session that is still running, timed from its start to `now`. */
  function RunningView(s: WorkSession, now: int): (v: SessionView)
    ensures v.row == s && v.isActive
    ensures v.duration.milliseconds == now - s.start_time
  {
    SessionView(s, RouteDuration(now - s.start_time), true)
  }

  /** A finished session, timed from its start to its end. */
  function FinishedView(s: WorkSession): (v: SessionView)
    requires s.end_time.Some?
    ensures v.row == s && !v.isActive
    ensures v.duration.milliseconds == s.end_time.value - s.start_time
  {
    SessionView(s, RouteDuration(s.end_time.value - s.start_time), false)
  }
}
