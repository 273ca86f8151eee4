/**
 * The records of app_run/models.py: runs, their GPS positions, the status
 * domain, the field defaults and range validators, and what the foreign
 * keys do on deletion (a run's positions go with it; a user who has runs
 * cannot be deleted).
 */
module Models {
  import opened Wrappers
  import opened Geo

  type UserId = int
  type RunId = int
  type PositionId = int

  /** The three values of STATUS_CHOICES. */
  datatype Status = Init | InProgress | Finished

  /** STATUS_CHOICES as declared: (stored value, display name) pairs. */
  const StatusChoices: seq<(string, string)> :=
    [("init", "init"), ("in_progress", "in_progress"), ("finished", "finished")]

  /** The text the CharField stores for a status. */
  function Label(s: Status): (t: string)
    ensures exists i :: 0 <= i < |StatusChoices| && StatusChoices[i].0 == t
  {
    match s
    case Init => assert StatusChoices[0].0 == "init"; "init"
    case InProgress => assert StatusChoices[1].0 == "in_progress"; "in_progress"
    case Finished => assert StatusChoices[2].0 == "finished"; "finished"
  }

  /** The integer the run views read for a status: 1, 2 or 3, in lifecycle order. */
  function Code(s: Status): (c: int)
    ensures 1 <= c <= 3
  {
    match s
    case Init => 1
    case InProgress => 2
    case Finished => 3
  }

  /** The status an integer code stands for, if any. */
  function StatusOfCode(c: int): (s: Option<Status>)
    ensures s.Some? <==> ValidStatus(c)
    ensures s.Some? ==> Code(s.value) == c
  {
    if c == 1 then Some(Init)
    else if c == 2 then Some(InProgress)
    else if c == 3 then Some(Finished)
    else None
  }

  /** The codes 1..3 stand exactly for the three statuses. */
  predicate ValidStatus(code: int) {
    1 <= code <= 3
  }

  /** The choice list and the codes agree: every status has one label and one code, and back. */
  lemma StatusEncodingsAgree(s: Status, t: Status)
    ensures StatusOfCode(Code(s)) == Some(s)
    ensures Label(s) == Label(t) <==> s == t
    ensures Code(s) == Code(t) <==> s == t
  {
  }

  /** The field default of Run.status. */
  const DefaultStatus: Status := Init

  /** comment = CharField(max_length=255). */
  const CommentMaxLength: nat := 255

  /**
   * A Run. The status is held as the integer code the views compare with;
   * the created_at timestamp, like every timestamp here, is in whole seconds.
   * speed (the average speed) is the field migration 0008 adds.
   */
  datatype Run = Run(
    athlete: UserId,
    comment: string,
    status: int,
    createdAt: int,
    distance: real,
    runTimeSeconds: int,
    speed: real)

  predicate ValidRun(r: Run) {
    |r.comment| <= CommentMaxLength && ValidStatus(r.status)
  }

  /** A Run as a create stores it: the given athlete and comment, every other field at its default. */
  function NewRun(athlete: UserId, comment: string, now: int): (r: Run)
    requires |comment| <= CommentMaxLength
    ensures ValidRun(r)
    ensures StatusOfCode(r.status) == Some(DefaultStatus) && Label(DefaultStatus) == "init"
    ensures r.distance == 0.0 && r.runTimeSeconds == 0 && r.speed == 0.0
    ensures r.athlete == athlete && r.comment == comment && r.createdAt == now
  {
    Run(athlete, comment, Code(DefaultStatus), now, 0.0, 0, 0.0)
  }

  /**
   * A Position: one GPS fix of a run. distance (the cumulative distance so
   * far) and speed are the fields migration 0008 adds, both defaulting to 0.
   */
  datatype Position = Position(
    run: RunId,
    latitude: real,
    longitude: real,
    dateTime: int,
    distance: real,
    speed: real)

  /** Where a position is, as a point for the distance function. */
  function Where(p: Position): Point {
    Point(p.latitude, p.longitude)
  }

  predicate LatitudeInRange(lat: real) {
    -90.0 <= lat <= 90.0
  }

  predicate LongitudeInRange(lon: real) {
    -180.0 <= lon <= 180.0
  }

  /** The fields whose Min/MaxValueValidator a position fails. */
  function FieldErrors(p: Position): (errs: set<string>)
    ensures "latitude" in errs <==> !LatitudeInRange(p.latitude)
    ensures "longitude" in errs <==> !LongitudeInRange(p.longitude)
    ensures errs <= {"latitude", "longitude"}
  {
    (if LatitudeInRange(p.latitude) then {} else {"latitude"})
      + (if LongitudeInRange(p.longitude) then {} else {"longitude"})
  }

  /** A position passes validation exactly when both coordinates are in range. */
  predicate ValidPosition(p: Position) {
    FieldErrors(p) == {}
  }

  lemma ValidPositionInRange(p: Position)
    ensures ValidPosition(p) <==> LatitudeInRange(p.latitude) && LongitudeInRange(p.longitude)
  {
    if !LatitudeInRange(p.latitude) {
      assert "latitude" in FieldErrors(p);
    } else if !LongitudeInRange(p.longitude) {
      assert "longitude" in FieldErrors(p);
    }
  }

  /** The three tables: users, runs and positions, keyed by id. */
  datatype Db = Db(users: set<UserId>, runs: map<RunId, Run>, positions: map<PositionId, Position>)

  /** Every foreign key points at an existing row. */
  ghost predicate Consistent(db: Db) {
    && (forall id :: id in db.runs ==> db.runs[id].athlete in db.users)
    && (forall pid :: pid in db.positions ==> db.positions[pid].run in db.runs)
  }

  /** Position.run has on_delete=CASCADE: deleting a run deletes its positions and nothing else. */
  function DeleteRun(db: Db, id: RunId): (r: Db)
    ensures r.users == db.users
    ensures r.runs.Keys == db.runs.Keys - {id}
    ensures forall k :: k in r.runs ==> r.runs[k] == db.runs[k]
    ensures forall pid :: pid in r.positions <==> pid in db.positions && db.positions[pid].run != id
    ensures forall pid :: pid in r.positions ==> r.positions[pid] == db.positions[pid]
    ensures Consistent(db) ==> Consistent(r)
  {
    db.(runs := db.runs - {id},
        positions := map pid | pid in db.positions && db.positions[pid].run != id :: db.positions[pid])
  }

  /** A user deletion either succeeds or raises ProtectedError. */
  datatype UserDeletion = Deleted(db: Db) | ProtectedError

  /** Run.athlete has on_delete=PROTECT: a user who is the athlete of some run cannot be deleted. */
  function DeleteUser(db: Db, u: UserId): (r: UserDeletion)
    ensures r.ProtectedError? <==> exists id :: id in db.runs && db.runs[id].athlete == u
    ensures r.Deleted? ==> r.db == db.(users := db.users - {u})
    ensures r.Deleted? && Consistent(db) ==> Consistent(r.db)
  {
    if exists id :: id in db.runs && db.runs[id].athlete == u then ProtectedError
    else Deleted(db.(users := db.users - {u}))
  }
}
