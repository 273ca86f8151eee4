# Run tracking: run lifecycle and telemetry, modelled in Dafny

This project models the core of a Django backend for a running-tracker:

- **Telemetry helpers** (`app_run/services.py`): the length of a run's path, its elapsed time, the distance and speed of a new GPS fix relative to the previous one, the average speed, and the landmarks within 100 m of a position.
- **Run views** (`app_run/views.py`): the start transition (status 1 to 2) and the stop transition (status 2 to 3), and the user list with its count of finished runs, its superuser exclusion and its `type` filter.
- **Records** (`app_run/models.py`): runs and positions, the status choices and field defaults, the coordinate range validators, and what the foreign keys do on deletion.

Files, one module each:

- `wrappers.dfy` (`Wrappers`): `Option`.
- `geo.dfy` (`Geo`): a point and the geodesic distance function.
- `rounding.dfy` (`Rounding`): Python's `round(x, 2)`.
- `models.dfy` (`Models`), `services.dfy` (`Services`), `views.dfy` (`Views`): the three source files.

How the model represents things:

- **Geodesic distance.** geopy's `geodesic(a, b)` is a function parameter `km: (Point, Point) -> real`, giving kilometres. `.meters` is `1000 * km`. The one assumption is `Geo.NonNegative(km)`, which says no distance is negative. Every contract that needs it takes it as a `requires` or as the left side of an implication.
- **Rounding.** `round(x, 2)` is `Rounding.Round2`. It rounds the exact real value to the nearest hundredth, and an exact tie goes to the even hundredth. The lemmas prove that the result is within 0.005 of `x`, that rounding is monotone and idempotent, and that the half-even rule has only one possible result.
- **Timestamps.** They are whole seconds. `timedelta.seconds` is `Services.SecondsComponent`, defined as `(later - earlier) % 86400`. This is the seconds part of the difference, not the total.
- **Status.** A run's status is stored as the integer the views compare it with: 1, 2 or 3 for `init`, `in_progress` and `finished`. `Models.Label` gives the text the `CharField` declares, `Models.Code` gives the integer, and `Models.StatusEncodingsAgree` relates the two.
- **Where the code contradicts itself.** `models.py` declares the status as text, but `views.py` compares it with integers. The model makes the integer reading the main one. The text reading is modelled as written and reported under Findings.
- **Fields missing from `models.py`.** `services.py` reads `Position.distance`, `Position.speed` and `UnitLocation`, but the repository's `models.py` declares none of them. The first two, and `Run.speed`, are added by `app_run/migrations/0008_position_distance_position_speed_run_speed.py`, so the model takes them from there.
- **`created_at` on save.** `Run.created_at` is declared `auto_now=True`, so Django overwrites it on every `save()`. The start and stop views call `save()`, so `StartRun` and `StopRun` take the clock as a parameter `now` and set `createdAt` to it. Nothing else about the run changes.
- **What stop does not do.** The stop view only changes the status. It does not compute distance, time or average speed, and it awards no challenges. The model follows the code and adds none of this.

## Model

| member | source | states |
|---|---|---|
| `Rounding.Round2` | app_run/services.py:15 | The result of round(x, 2) is a whole number of hundredths within half a hundredth of x. It is non-negative when x is, and 0 when x is 0. |
| `Rounding.RoundHalfEvenUnique` | app_run/services.py:15 | "Nearest integer, even on a tie" allows only one result, so it fully specifies the rounding. |
| `Rounding.Round2Monotone` | app_run/services.py:15 | If x <= y, then round(x, 2) <= round(y, 2). |
| `Rounding.Round2Idempotent` | app_run/services.py:15 | Rounding a value that is already rounded leaves it unchanged. |
| `Geo.Meters` | app_run/services.py:87 | `.meters` is 1000 times the kilometre distance, and it is non-negative under the geodesic assumption. |
| `Services.GetDistance` | app_run/services.py:7-15 | get_distance returns the rounded sum of the legs between consecutive positions, in list order. It is 0 for fewer than two positions and never negative. |
| `Services.PathLengthNonNegative` | app_run/services.py:9-15 | With a non-negative geodesic, the unrounded sum is never negative. |
| `Services.PathLengthAppend` | app_run/services.py:10-14 | Appending a position adds exactly the leg from the last position to the new one. |
| `Services.PathLengthPrefix` | app_run/services.py:10-14 | A prefix of the positions never has a longer path than the whole list. |
| `Services.DistanceGrowsOnAppend` | app_run/services.py:9-15 | Appending a position never decreases get_distance, either before or after rounding. |
| `Services.EarliestTime` | app_run/services.py:19-23 | Min("date_time") is the timestamp of some position, and no position is earlier. |
| `Services.LatestTime` | app_run/services.py:19-24 | Max("date_time") is the timestamp of some position, and no position is later. |
| `Services.SecondsComponent` | app_run/services.py:26 | timedelta.seconds lies in [0, 86399]. It differs from the true difference by a whole number of days, and it equals the difference when that is in [0, 86399]. |
| `Services.RunTimeSeconds` | app_run/services.py:18-27 | get_run_time_seconds is 0 with no positions and always lies in [0, 86399]. It equals latest minus earliest when the span is under a day. |
| `Services.RunTimeSecondsTotal` | app_run/services.py:18-27 | The intended elapsed time: the largest difference between any two fixes, attained by some pair, and 0 with no positions. |
| `Services.RunTimeSecondsIsSpanModDay` | app_run/services.py:26 | The value returned is the full span modulo one day. It equals the full span exactly when the span is under a day. |
| `Services.RunTimeSecondsWrapsAfterOneDay` | app_run/services.py:26 | Fixes 86405 s apart give a run time of 5 s. |
| `Services.CurrentDistance` | app_run/services.py:30-32 | _get_current_distance is within 0.005 km of the geodesic and is never negative. |
| `Services.CurrentSpeed` | app_run/services.py:35-40 | _get_current_speed is 0 when the seconds component is 0, which is the case that would raise ZeroDivisionError. Otherwise it is within 0.005 of km*1000/seconds. It is never negative for a non-negative distance. |
| `Services.SameInstantSpeedIsZero` | app_run/services.py:35-40 | Two fixes with the same timestamp give speed 0 and raise nothing. |
| `Services.DistanceSpeedFields` | app_run/services.py:43-56 | The call fails when the dict holds no numeric latitude, longitude and date_time (an assumption, see Left out). Otherwise only "distance" and "speed" are written and every other key keeps its value. The new distance is the previous fix's distance plus the leg, within 0.005, so it never decreases. The speed is 0 when the seconds component of the time since the previous fix is 0, and otherwise within 0.005 of that increment in metres over those seconds; it is never negative. |
| `Services.GetDistanceSpeedFromLastPosition` | app_run/services.py:43-56 | The dict is updated in place and the same dict is returned. On failure nothing is written. On success the dict's new contents are those given by DistanceSpeedFields. |
| `Services.CumulativeDistanceChain` | app_run/services.py:47-54 | Over two fixes ingested in a row, the cumulative distance never decreases. |
| `Services.MeanSpeedBetween` | app_run/services.py:62 | When there are positions, the unrounded mean speed lies between the smallest and the largest stored speed. |
| `Services.AverageSpeed` | app_run/services.py:59-63 | get_average_speed is 0 with no positions. Otherwise it lies between the rounded minimum and the rounded maximum speed, and within 0.005 of the mean. |
| `Services.NearUnitsMembers` | app_run/services.py:84-89 | A unit is selected exactly when it is in the list and within 100 m of the position. |
| `Services.NearUnitsConcat` | app_run/services.py:84-89 | Selecting from a + b gives the selection from a followed by the selection from b, so the list order is kept. |
| `Services.CheckUnitLocations` | app_run/services.py:81-90 | The loop returns exactly the units within 100 m, in list order. It returns no unit that was not in the input, and never more units than the input has. |
| `Models.Label` | app_run/models.py:20-24 | Every status's stored text is the value of one of the STATUS_CHOICES. |
| `Models.Code` | app_run/views.py:61-76 | The views read each status as an integer from 1 to 3. |
| `Models.StatusOfCode` | app_run/views.py:61-76 | An integer names a status exactly when it lies in 1..3, and decoding gives back that code. |
| `Models.StatusEncodingsAgree` | app_run/models.py:20-29 | Decoding a status's code gives back the status. Labels and codes are each one-to-one. |
| `Models.NewRun` | app_run/models.py:28-32 | A new run is valid and has status init ("init", code 1), distance 0, run_time_seconds 0 and speed 0. |
| `Models.FieldErrors` | app_run/models.py:44-51 | latitude fails validation exactly when it is outside [-90, 90], and longitude exactly when it is outside [-180, 180]. No other field is reported. |
| `Models.ValidPositionInRange` | app_run/models.py:44-51 | A position is valid exactly when both coordinates are in range. |
| `Models.DeleteRun` | app_run/models.py:43 | Deleting a run removes exactly the positions that reference it. Every other position, run and user is unchanged, and referential integrity is preserved. |
| `Models.DeleteUser` | app_run/models.py:25-27 | Deleting a user raises ProtectedError exactly when the user is the athlete of some run. Otherwise only that user is removed and integrity is preserved. |
| `Views.Transition` | app_run/views.py:58-78 | Start succeeds exactly on status 1 and stop exactly on status 2. A success raises the status by one. A rejection is 400 and leaves the status unchanged. Valid statuses stay valid. |
| `Views.ReplayCountsSuccesses` | app_run/views.py:61-78 | After any series of start and stop requests, the final status is the initial status plus the number of successes. So no series ever decreases the status, and valid statuses stay valid. |
| `Views.FinishedIsTerminal` | app_run/views.py:61-78 | From status 3, every start and every stop is rejected and the status stays 3. |
| `Views.StartStopFinishes` | app_run/views.py:61-78 | From status 1, start then stop finishes the run. A second start is refused, and a stop before any start is refused. |
| `Views.RunStore.StartRun` | app_run/views.py:58-65 | On a store whose runs all hold a status code 1..3 (kept by both methods), start answers 404 for an unknown run. It answers 400 and changes nothing unless the status is 1. Otherwise it answers 200 and the run gets status 2 with created_at refreshed. No other run changes. |
| `Views.RunStore.StopRun` | app_run/views.py:71-78 | Stop answers 404 for an unknown run. It answers 400 and changes nothing unless the status is 2. Otherwise it answers 200 and the run gets status 3 with created_at refreshed. No other field or run changes. |
| `Views.RunsFinished` | app_run/views.py:33 | A user's runs_finished is 0 exactly when none of the user's runs has status 3, and never more than the number of runs. StopCountsOneFinishedRun, StartKeepsFinishedCounts and Annotated state how it follows the transitions and appears in the list. |
| `Views.StopCountsOneFinishedRun` | app_run/views.py:33 | A successful stop raises its athlete's runs_finished by one and leaves every other user's count unchanged. |
| `Views.StartKeepsFinishedCounts` | app_run/views.py:33 | A successful start changes no one's runs_finished. |
| `Views.Annotated` | app_run/views.py:30-34 | The base queryset contains every non-superuser and no superuser. Each row carries that user's runs_finished. |
| `Views.WithStaff` | app_run/views.py:39-41 | filter(is_staff=b) keeps exactly the rows whose is_staff is b. |
| `Views.WithStaffIdempotent` | app_run/views.py:49-51 | Filtering on is_staff twice gives the same rows as filtering once. |
| `Views.GetQueryset` | app_run/views.py:29-42 | No superuser is ever listed. type=coach lists exactly the staff. type=athlete lists exactly the non-staff. Any other value, an empty value or no value lists every non-superuser. |
| `Views.FilterQueryset` | app_run/views.py:44-52 | The same type narrowing applied to a given queryset. It only ever removes rows. |
| `Views.TypeFilteredIdempotent` | app_run/views.py:35-52 | Applying the type narrowing a second time changes nothing. |
| `Views.ListUsers` | app_run/views.py:29-52 | filter_queryset(get_queryset()) lists the same rows as get_queryset alone. |
| `Views.StartAsWritten` | app_run/views.py:61-65 | As written, start succeeds exactly when the stored value is the integer 1, and then stores the integer 2. A 400 leaves the stored value as it was. |
| `Views.StopAsWritten` | app_run/views.py:74-78 | As written, stop succeeds exactly when the stored value is the integer 2, and then stores the integer 3. A 400 leaves the stored value as it was. |
| `Views.StoredLabelsAlwaysRejected` | app_run/views.py:61-75 | Every text the status CharField can hold is rejected by both checks as written, including the default "init". |
| `Views.NoLabelCountedAsFinished` | app_run/views.py:33 | As written, the lookup user_run__status=3 compares the stored text with "3". No choice label is "3", so the annotation counts no run. |

## Left out

- The geodesic formula itself (geopy): foreign library code with floating-point numerics. A distance is only assumed to be non-negative.
- Binary floating point: numbers are exact reals, so `Round2` rounds the exact value.
- Sub-second precision, time zones and datetime objects: timestamps are whole seconds.
- The Django ORM and DRF machinery (`aggregate`, `Min`/`Max`/`Avg`, `Count`/`Case`/`When`, `get_object_or_404`, `save()`, `Response`): modelled as in-memory sequences and maps, with the HTTP status code as the response. The message bodies ("Wrong run status", "Run started", "Run stopped") are not modelled.
- The `print` calls in `check_unit_locations` (app_run/services.py:85-86): output only.
- `Services.CheckUnitLocations`: takes the UnitLocation table as a parameter and reads only each unit's coordinates. UnitLocation's declaration is not part of this model.
- `Services.CurrentSpeed`: states that the speed is 0 when the seconds component is 0, but not the converse. A zero (or tiny) distance also gives speed 0, so the speed is not 0 only in that case.
- `Services.DistanceSpeedFields`: assumes the serializer supplies latitude, longitude and date_time, and models a dict without them as the one failure case. Only a missing date_time is shown to raise by services.py itself (the subtraction at app_run/services.py:37). What geodesic does with a missing or non-numeric coordinate is geopy's behaviour and is not modelled.
- `get_cities_for_positions` (app_run/services.py:66-78): its body is commented out, and it always returns an empty list.
- `get_club_data` (app_run/views.py:12-18): a constant response.
- `RunViewSet` (app_run/views.py:21-23): generic CRUD with no logic of its own. Only the defaults a create stores are modelled, as `Models.NewRun`.
- `ClubData` (app_run/models.py:6-16) and the `__str__` methods: a plain record and string formatting, not part of runs or positions.
- The ordering of the user queryset: the model keeps the order of the user table as given.
- The URL configuration, the admin, the serializers and the migrations: routing, UI and schema history. Only the field list of migration 0008 is used.
- Transactions and concurrent requests: left to the database.
- Stop-time aggregation of distance, time and speed, challenge awards, and coach analytics: the views' code does not do any of these.

## Findings

| source | as written | input that shows it | evidently intended | confidence | as-written member | corrected member |
|---|---|---|---|---|---|---|
| app_run/views.py:61-75 | `run.status != 1` and `run.status != 2` compare the status with integers, but `Run.status` is a CharField holding "init", "in_progress" or "finished" (app_run/models.py:29). | A newly created run (status "init") is posted to start. It is answered 400, and so is every other run, for both start and stop. | Start moves init to in_progress and stop moves in_progress to finished, which is the integer-coded transition the model uses. | not executed; high if models.py is the deployed schema | `Views.StoredLabelsAlwaysRejected` | `Views.RunStore.StartRun` |
| app_run/views.py:33 | `When(user_run__status=3)` compares the CharField with "3", which no choice equals. | An athlete with a finished run (status "finished") is listed with runs_finished 0. | Count the athlete's runs whose status is finished. | not executed; high if models.py is the deployed schema | `Views.NoLabelCountedAsFinished` | `Views.StopCountsOneFinishedRun` |
| app_run/services.py:26 | `(last_time - first_time).seconds` is the seconds part of a timedelta, which drops whole days. | Two fixes 86405 s apart give a run time of 5. | The total elapsed seconds, `total_seconds()`. The speed at app_run/services.py:37 uses the same `.seconds`, which `Services.CurrentSpeed` reproduces. | not executed; medium | `Services.RunTimeSecondsWrapsAfterOneDay` | `Services.RunTimeSecondsTotal` |
