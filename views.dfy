/**
 * The request handlers of app_run/views.py that hold logic: the start and
 * stop transitions of a run's status, and the user list with its
 * superuser exclusion, its coach/athlete type filter and its count of
 * finished runs. The run table is a map from id to Run; the users are the
 * rows of the user table in query order.
 */
module Views {
  import opened Wrappers
  import opened Models

  /** The HTTP status a view answers with. */
  datatype Response = Ok200 | BadRequest400 | NotFound404

  datatype Action = Start | Stop

  /**
   * The status check and assignment of RunStartView.post (1 to 2) and
   * RunStopView.post (2 to 3) on the integer the run holds; every other
   * status is rejected with 400 and left as it was.
   */
  function Transition(action: Action, status: int): (r: (Response, int))
    ensures r.0 == Ok200 <==> status == (if action == Start then 1 else 2)
    ensures r.0 == BadRequest400 <==> r.1 == status
    ensures r.0 != NotFound404
    ensures r.0 == Ok200 ==> r.1 == status + 1
    ensures ValidStatus(status) ==> ValidStatus(r.1)
  {
    match action
    case Start => if status != 1 then (BadRequest400, status) else (Ok200, 2)
    case Stop => if status != 2 then (BadRequest400, status) else (Ok200, 3)
  }

  /** The responses and the final status after a series of start/stop requests on one run. */
  function Replay(actions: seq<Action>, status: int): (seq<Response>, int)
    decreases |actions|
  {
    if |actions| == 0 then ([], status)
    else
      var before := Replay(actions[..|actions| - 1], status);
      var step := Transition(actions[|actions| - 1], before.1);
      (before.0 + [step.0], step.1)
  }

  /** The number of requests in a series that succeeded. */
  function Successes(responses: seq<Response>): nat
    decreases |responses|
  {
    if |responses| == 0 then 0
    else Successes(responses[..|responses| - 1]) + (if responses[|responses| - 1] == Ok200 then 1 else 0)
  }

  /**
   * Each successful request raises the status by exactly one and each
   * rejected one leaves it, so the status never decreases and a series on a
   * valid run succeeds at most 3 - status times.
   */
  lemma {:induction false} ReplayCountsSuccesses(actions: seq<Action>, status: int)
    ensures |Replay(actions, status).0| == |actions|
    ensures Replay(actions, status).1 == status + Successes(Replay(actions, status).0)
    ensures Replay(actions, status).1 >= status
    ensures ValidStatus(status) ==> ValidStatus(Replay(actions, status).1)
    decreases |actions|
  {
    if |actions| > 0 {
      var init := actions[..|actions| - 1];
      ReplayCountsSuccesses(init, status);
      var before := Replay(init, status);
      var step := Transition(actions[|actions| - 1], before.1);
      assert (before.0 + [step.0])[..|before.0|] == before.0;
    }
  }

  /** Once a run is finished (status 3) every later start and stop is rejected and it stays finished. */
  lemma {:induction false} FinishedIsTerminal(actions: seq<Action>)
    ensures Replay(actions, 3).1 == 3
    ensures forall i :: 0 <= i < |Replay(actions, 3).0| ==> Replay(actions, 3).0[i] == BadRequest400
    decreases |actions|
  {
    if |actions| > 0 {
      FinishedIsTerminal(actions[..|actions| - 1]);
    }
  }

  /** From init, start then stop finishes the run, and a second start is refused. */
  lemma StartStopFinishes()
    ensures Replay([Start, Stop], 1) == ([Ok200, Ok200], 3)
    ensures Replay([Start, Stop, Start], 1) == ([Ok200, Ok200, BadRequest400], 3)
    ensures Replay([Stop], 1) == ([BadRequest400], 1)
  {
    var a1, a2, a3 := [Start], [Start, Stop], [Start, Stop, Start];
    assert a1[..0] == [] && [Stop][..0] == [];
    assert a2[..1] == a1 && a3[..2] == a2;
    var nothing: seq<Response> := [];
    assert nothing + [Ok200] == [Ok200] && nothing + [BadRequest400] == [BadRequest400];
    assert [Ok200] + [Ok200] == [Ok200, Ok200];
    assert [Ok200, Ok200] + [BadRequest400] == [Ok200, Ok200, BadRequest400];
    assert Replay(a1, 1) == ([Ok200], 2);
    assert Replay(a2, 1) == ([Ok200, Ok200], 3);
  }

  /** The run table the start and stop views read and save. */
  class RunStore {
    var runs: map<RunId, Run>

    /** Every stored run holds one of the three status codes. */
    ghost predicate Valid()
      reads this
    {
      forall id :: id in runs ==> ValidStatus(runs[id].status)
    }

    constructor (runs: map<RunId, Run>)
      requires forall id :: id in runs ==> ValidStatus(runs[id].status)
      ensures this.runs == runs
      ensures Valid()
    {
      this.runs := runs;
    }

    /**
     * RunStartView.post: 404 for an unknown run, 400 unless the status is 1,
     * else status 2 and 200. run.save() also refreshes created_at, which is
     * declared auto_now; `now` is the clock.
     */
    method StartRun(runId: RunId, now: int) returns (resp: Response)
      requires Valid()
      modifies this
      ensures runId !in old(runs) ==> resp == NotFound404 && runs == old(runs)
      ensures runId in old(runs) && old(runs)[runId].status != 1 ==>
                resp == BadRequest400 && runs == old(runs)
      ensures runId in old(runs) && old(runs)[runId].status == 1 ==>
                resp == Ok200 && runs == old(runs)[runId := old(runs)[runId].(status := 2, createdAt := now)]
      ensures runId in old(runs) ==> (resp, runs[runId].status) == Transition(Start, old(runs)[runId].status)
      ensures Valid()
    {
      if runId !in runs {
        return NotFound404;
      }
      var run := runs[runId];
      if run.status != 1 {
        return BadRequest400;
      }
      run := run.(status := 2);
      runs := runs[runId := run.(createdAt := now)];
      return Ok200;
    }

    /**
     * RunStopView.post: 404 for an unknown run, 400 unless the status is 2,
     * else status 3 and 200. Nothing is aggregated and no challenge is
     * awarded; only the status (and, through save(), created_at) changes.
     */
    method StopRun(runId: RunId, now: int) returns (resp: Response)
      requires Valid()
      modifies this
      ensures runId !in old(runs) ==> resp == NotFound404 && runs == old(runs)
      ensures runId in old(runs) && old(runs)[runId].status != 2 ==>
                resp == BadRequest400 && runs == old(runs)
      ensures runId in old(runs) && old(runs)[runId].status == 2 ==>
                resp == Ok200 && runs == old(runs)[runId := old(runs)[runId].(status := 3, createdAt := now)]
      ensures runId in old(runs) ==> (resp, runs[runId].status) == Transition(Stop, old(runs)[runId].status)
      ensures Valid()
    {
      if runId !in runs {
        return NotFound404;
      }
      var run := runs[runId];
      if run.status != 2 {
        return BadRequest400;
      }
      run := run.(status := 3);
      runs := runs[runId := run.(createdAt := now)];
      return Ok200;
    }
  }

  // ------------------------------------------------------------ the user list

  /** The auth user fields the list reads. */
  datatype User = User(id: UserId, isSuperuser: bool, isStaff: bool)

  /** A user row annotated with runs_finished. */
  datatype UserRow = UserRow(user: User, runsFinished: nat)

  /** The ids of a user's runs whose status is 3. */
  function FinishedRunIds(userId: UserId, runs: map<RunId, Run>): set<RunId> {
    set id | id in runs && runs[id].athlete == userId && runs[id].status == 3
  }

  /**
   * runs_finished: Count(Case(When(user_run__status=3, then=1))), the
   * number of the user's runs with status 3. It is 0 exactly when the user
   * has no finished run, and never more than the number of runs.
   */
  function RunsFinished(userId: UserId, runs: map<RunId, Run>): (n: nat)
    ensures n == 0 <==> forall id :: id in runs && runs[id].athlete == userId ==> runs[id].status != 3
    ensures n <= |runs|
  {
    NoFinishedRunsNoIds(userId, runs);
    SubsetNoLarger(FinishedRunIds(userId, runs), runs.Keys);
    |FinishedRunIds(userId, runs)|
  }

  lemma NoFinishedRunsNoIds(userId: UserId, runs: map<RunId, Run>)
    ensures FinishedRunIds(userId, runs) == {} <==>
              forall id :: id in runs && runs[id].athlete == userId ==> runs[id].status != 3
  {
    if forall id :: id in runs && runs[id].athlete == userId ==> runs[id].status != 3 {
      assert forall id :: id !in FinishedRunIds(userId, runs);
    }
    assert forall id :: id in runs && runs[id].athlete == userId && runs[id].status == 3 ==>
                          id in FinishedRunIds(userId, runs);
  }

  lemma SubsetNoLarger(a: set<RunId>, b: set<RunId>)
    requires a <= b
    ensures |a| <= |b|
  {
    assert b == a + (b - a) && a * (b - a) == {};
  }

  /** A successful stop adds one finished run to its athlete's count and changes no other count. */
  lemma StopCountsOneFinishedRun(runs: map<RunId, Run>, id: RunId, now: int, u: UserId)
    requires id in runs && runs[id].status == 2
    ensures var after := runs[id := runs[id].(status := 3, createdAt := now)];
            RunsFinished(u, after) == RunsFinished(u, runs) + (if runs[id].athlete == u then 1 else 0)
  {
    var after := runs[id := runs[id].(status := 3, createdAt := now)];
    var before, finishedAfter := FinishedRunIds(u, runs), FinishedRunIds(u, after);
    assert id !in before;
    if runs[id].athlete == u {
      assert finishedAfter == before + {id};
    } else {
      assert finishedAfter == before;
    }
  }

  /** A successful start changes no user's count of finished runs. */
  lemma StartKeepsFinishedCounts(runs: map<RunId, Run>, id: RunId, now: int, u: UserId)
    requires id in runs && runs[id].status == 1
    ensures RunsFinished(u, runs[id := runs[id].(status := 2, createdAt := now)]) == RunsFinished(u, runs)
  {
    assert FinishedRunIds(u, runs[id := runs[id].(status := 2, createdAt := now)]) == FinishedRunIds(u, runs);
  }

  /** The users that are not superusers, in order, each annotated with runs_finished. */
  function Annotated(users: seq<User>, runs: map<RunId, Run>): (rows: seq<UserRow>)
    ensures forall r :: r in rows ==> !r.user.isSuperuser && r.runsFinished == RunsFinished(r.user.id, runs)
    ensures forall u :: u in users && !u.isSuperuser ==> UserRow(u, RunsFinished(u.id, runs)) in rows
    ensures forall r :: r in rows ==> r.user in users
    decreases |users|
  {
    if |users| == 0 then []
    else
      var u := users[|users| - 1];
      Annotated(users[..|users| - 1], runs)
        + (if u.isSuperuser then [] else [UserRow(u, RunsFinished(u.id, runs))])
  }

  /** The rows whose user has is_staff equal to staff, in order: queryset.filter(is_staff=staff). */
  function WithStaff(rows: seq<UserRow>, staff: bool): (r: seq<UserRow>)
    ensures forall x :: x in r <==> x in rows && x.user.isStaff == staff
    ensures |r| <= |rows|
    decreases |rows|
  {
    if |rows| == 0 then []
    else
      var last := rows[|rows| - 1];
      WithStaff(rows[..|rows| - 1], staff) + (if last.user.isStaff == staff then [last] else [])
  }

  /** Filtering on is_staff twice is filtering once. */
  lemma {:induction false} WithStaffIdempotent(rows: seq<UserRow>, staff: bool)
    ensures WithStaff(WithStaff(rows, staff), staff) == WithStaff(rows, staff)
    decreases |rows|
  {
    if |rows| > 0 {
      var init, last := rows[..|rows| - 1], rows[|rows| - 1];
      WithStaffIdempotent(init, staff);
      var f := WithStaff(init, staff);
      if last.user.isStaff == staff {
        assert WithStaff(rows, staff) == f + [last];
        WithStaffSnoc(f, last, staff);
      } else {
        assert WithStaff(rows, staff) == f;
      }
    }
  }

  lemma WithStaffSnoc(rows: seq<UserRow>, x: UserRow, staff: bool)
    ensures WithStaff(rows + [x], staff) == WithStaff(rows, staff) + (if x.user.isStaff == staff then [x] else [])
  {
    assert (rows + [x])[..|rows|] == rows;
  }

  /** The type query parameter: "coach" keeps the staff, "athlete" the others, anything else (or none, or "") keeps all. */
  function TypeFiltered(rows: seq<UserRow>, typeParam: Option<string>): seq<UserRow> {
    if typeParam == Some("coach") then WithStaff(rows, true)
    else if typeParam == Some("athlete") then WithStaff(rows, false)
    else rows
  }

  /** UserReadOnlyViewSet.get_queryset: non-superusers, annotated, then narrowed by the type parameter. */
  method GetQueryset(users: seq<User>, runs: map<RunId, Run>, typeParam: Option<string>)
    returns (qs: seq<UserRow>)
    ensures qs == TypeFiltered(Annotated(users, runs), typeParam)
    ensures forall r :: r in qs ==> !r.user.isSuperuser && r.user in users
    ensures forall r :: r in qs ==> r.runsFinished == RunsFinished(r.user.id, runs)
    ensures typeParam == Some("coach") ==>
              forall u :: u in users && !u.isSuperuser ==> (UserRow(u, RunsFinished(u.id, runs)) in qs <==> u.isStaff)
    ensures typeParam == Some("athlete") ==>
              forall u :: u in users && !u.isSuperuser ==> (UserRow(u, RunsFinished(u.id, runs)) in qs <==> !u.isStaff)
    ensures typeParam != Some("coach") && typeParam != Some("athlete") ==> qs == Annotated(users, runs)
  {
    qs := Annotated(users, runs);
    if typeParam.Some? && typeParam.value != "" {
      match typeParam.value
      case "coach" => qs := WithStaff(qs, true);
      case "athlete" => qs := WithStaff(qs, false);
      case _ =>
    }
  }

  /** UserReadOnlyViewSet.filter_queryset: the same narrowing by the type parameter. */
  method FilterQueryset(queryset: seq<UserRow>, typeParam: Option<string>) returns (r: seq<UserRow>)
    ensures r == TypeFiltered(queryset, typeParam)
    ensures forall x :: x in r ==> x in queryset
    ensures typeParam == Some("coach") ==> forall x :: x in r <==> x in queryset && x.user.isStaff
    ensures typeParam == Some("athlete") ==> forall x :: x in r <==> x in queryset && !x.user.isStaff
    ensures typeParam != Some("coach") && typeParam != Some("athlete") ==> r == queryset
  {
    r := queryset;
    if typeParam.Some? && typeParam.value != "" {
      match typeParam.value
      case "coach" => r := WithStaff(r, true);
      case "athlete" => r := WithStaff(r, false);
      case _ =>
    }
  }

  /** Narrowing by the type parameter a second time changes nothing. */
  lemma TypeFilteredIdempotent(rows: seq<UserRow>, typeParam: Option<string>)
    ensures TypeFiltered(TypeFiltered(rows, typeParam), typeParam) == TypeFiltered(rows, typeParam)
  {
    if typeParam == Some("coach") {
      WithStaffIdempotent(rows, true);
    } else if typeParam == Some("athlete") {
      WithStaffIdempotent(rows, false);
    }
  }

  /** The list action: filter_queryset(get_queryset()), which is what get_queryset alone returns. */
  method ListUsers(users: seq<User>, runs: map<RunId, Run>, typeParam: Option<string>)
    returns (rows: seq<UserRow>)
    ensures rows == TypeFiltered(Annotated(users, runs), typeParam)
  {
    var qs := GetQueryset(users, runs, typeParam);
    rows := FilterQueryset(qs, typeParam);
    TypeFilteredIdempotent(Annotated(users, runs), typeParam);
  }

  // ------------------------------------------ the status checks as the source writes them

  /** A value as Python compares it: the CharField holds text, the checks compare with integers. */
  datatype FieldValue = Text(s: string) | Integer(i: int)

  /** RunStartView.post comparing the stored value with the integer 1, as written. */
  function StartAsWritten(stored: FieldValue): (r: (Response, FieldValue))
    ensures r.0 == Ok200 <==> stored == Integer(1)
    ensures r.0 != NotFound404
    ensures r.0 == BadRequest400 ==> r.1 == stored
    ensures r.0 == Ok200 ==> r.1 == Integer(2)
  {
    if stored != Integer(1) then (BadRequest400, stored) else (Ok200, Integer(2))
  }

  /** RunStopView.post comparing the stored value with the integer 2, as written. */
  function StopAsWritten(stored: FieldValue): (r: (Response, FieldValue))
    ensures r.0 == Ok200 <==> stored == Integer(2)
    ensures r.0 != NotFound404
    ensures r.0 == BadRequest400 ==> r.1 == stored
    ensures r.0 == Ok200 ==> r.1 == Integer(3)
  {
    if stored != Integer(2) then (BadRequest400, stored) else (Ok200, Integer(3))
  }

  /**
   * The Run.status CharField stores one of the choice labels, so both
   * checks as written reject every run, a freshly created one included.
   */
  lemma StoredLabelsAlwaysRejected(s: Status)
    ensures StartAsWritten(Text(Label(s))).0 == BadRequest400
    ensures StopAsWritten(Text(Label(s))).0 == BadRequest400
    ensures StartAsWritten(Text(Label(DefaultStatus))) == (BadRequest400, Text("init"))
  {
  }

  /** user_run__status=3 on a CharField: the lookup compares the stored text with "3". */
  predicate CountedAsFinishedAsWritten(stored: FieldValue) {
    stored == Text("3")
  }

  /** No choice label equals "3", so the annotation as written counts no run at all. */
  lemma NoLabelCountedAsFinished(s: Status)
    ensures !CountedAsFinishedAsWritten(Text(Label(s)))
  {
  }
}
