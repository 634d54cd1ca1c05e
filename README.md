# Exam invigilation scheduler — a Dafny model of `build_schedule`

`build_schedule` (scheduler.py) assigns invigilation duties for one exam
period. Its inputs are a list of teachers, a list of sessions, a list of
rooms, the set of active (room, session) pairs that need supervision, and a
backup ratio. It posts a CP-SAT model and asks the solver for an answer.
From that answer it reads back three things:

- `supervisors`: the two teachers of every active pair;
- `backups`: the backup teachers of every session;
- `load`: each teacher's number of duties.

The model has six modules:

- `Counting` (counting.dfy): a finite relation seen as a 0/1 matrix, with
  column lists (`Column`), row counts (`RowCount`) and double counting. The
  hard constraints the scheduler posts on its 0/1 variables are column sums
  (two supervisors per pair, the backup quota per session), row sums (the
  load of a teacher) or sums over part of a row (one teacher's pairs of one
  room, one teacher's rooms of one session plus its backup variable). The
  auxiliary constraints that define `diff` and `sq_diff` (scheduler.py:53,
  57) are not of this kind; the model folds them into the objective.
- `Roster` (roster.dfy): the request (`Instance`, `WellFormed`) and the
  quantities derived before solving. These are the number of active rooms
  per session (scheduler.py:33), the backup quota (scheduler.py:35), the
  total number of slots (scheduler.py:39) and the average load
  (scheduler.py:40). `DefaultRatio` is the default backup ratio 0.2
  (scheduler.py:7), written as 1/5.
- `Constraints` (constraints.dfy): the solver's variables as an
  `Assignment`, with `x` holding the triples set to 1 and `b` the backup
  pairs set to 1 (scheduler.py:9-13). It also holds each posted constraint
  as a predicate, their conjunction `Satisfies` and the objective
  (scheduler.py:15-60). Its lemmas state what any satisfying assignment
  guarantees.
  - `InDomain` holds the variable declarations (scheduler.py:9-13).
  - `Coverage` holds the two supervisors per active pair (scheduler.py:16-17).
  - `NoRoomRepeat` holds the room rule (scheduler.py:19-24).
  - `OneDutyPerSession` holds the session rule (scheduler.py:26-30).
  - `BackupQuotas` holds the backup counts (scheduler.py:32-36).
  - `LoadBounds`, with `Load`, holds the load window (scheduler.py:42-48).
  - `Objective` is the sum of squared deviations (scheduler.py:50-60).
- `Extraction` (extraction.dfy): the `setdefault(...).append` loops that
  group the variables set to 1 into per-key lists (scheduler.py:68-76).
- `Scheduler` (scheduler.dfy): `BuildSchedule`. The solver's answer is a
  parameter of it: a status and an assignment. `SolverContract` states
  what CP-SAT promises about that answer: an OPTIMAL or FEASIBLE answer
  meets every posted constraint. `BuildSchedule` fails with
  `NoFeasibleSchedule` (the `RuntimeError` of scheduler.py:65-66) exactly
  when the status is neither OPTIMAL nor FEASIBLE. Otherwise it returns a
  `ValidSchedule`, which the assignment determines.
- `Scenarios` (scenarios.dfy): small requests whose outcome follows from the
  constraints. Two are infeasible, and one has a schedule in which every
  load equals the average. Each is also handed to `BuildSchedule`: the two
  infeasible ones fail with `NoFeasibleSchedule` whatever the solver
  answers, and the feasible one returns the expected maps.

The backup ratio is a Python float. The model uses an exact rational
`num / den` instead. The quota `int(2 * k * ratio + 0.999)` then becomes
`(2000 * k * num + 999 * den) / (1000 * den)` in integer division.

The quota is meant as `2 * k * ratio` rounded up, but the code does not
compute a ceiling, and the model follows the code.
`Roster.QuotaVersusCeiling` gives the exact difference: the quota is one
below the ceiling exactly when the fractional part of `2 * k * ratio` lies
strictly between 0 and 1/1000.

## Model

| member | source | states |
|---|---|---|
| Counting.Column | scheduler.py:68-71 | the list for a key holds exactly the elements related to it, in the order of the input list (a subsequence of it), without repeats when the input has none, and no more of them than the input has |
| Counting.RowCount | scheduler.py:45 | a teacher's count over a list of keys is at most the number of keys, and is zero exactly when the teacher is related to none of them |
| Counting.DoubleCounting | scheduler.py:39-45 | the ones of a 0/1 matrix counted row by row (per teacher) equal the ones counted column by column (per pair or session) |
| Counting.UniformColumns | scheduler.py:16-17 | when every column holds c ones, the matrix holds c times the number of columns |
| Counting.RowCountAsOccurrences | scheduler.py:45 | a teacher's row count over the keys equals the number of per-key lists that the teacher appears in |
| Roster.WellFormed | scheduler.py:6-7 | the request the code relies on: at least one teacher (scheduler.py:40 divides by their number), no duplicates among teachers, sessions, rooms and active pairs, each active pair built from a listed room and a listed session, a positive ratio denominator |
| Roster.RoomsPerSession | scheduler.py:33 | the number of rooms whose pair with the session is active; at most the number of rooms, and 0 exactly when no room is active in the session |
| Roster.QuotaOf | scheduler.py:35 | the backup quota of a session; 0 when the session has no active room or the ratio is 0, and at most twice its active rooms when the ratio is at most 1 |
| Roster.QuotaSum | scheduler.py:39 | the quotas of a list of sessions added up; 0 when the ratio is 0 |
| Roster.TotalSlots | scheduler.py:39 | two slots per active pair plus every session's quota: at least twice the active pairs, and exactly that when the ratio is 0 |
| Roster.CeilDiv | scheduler.py:40 | `(n + d - 1) // d` is the least r with r * d >= n |
| Roster.BackupQuota | scheduler.py:35 | the quota is the floor of 2 * k * ratio + 999/1000 (bounds on both sides); it is 0 when the session has no active room |
| Roster.Avg | scheduler.py:39-40 | the average load is the ceiling of the total slots over the number of teachers: avg * \|T\| >= total_slots and (avg - 1) * \|T\| < total_slots, or both are 0 |
| Roster.QuotaVersusCeiling | scheduler.py:35 | the quota equals ceil(2 * k * ratio), except that it is one less when the fractional part lies strictly between 0 and 1/1000 |
| Roster.ShiftedFloorVersusCeiling | scheduler.py:35 | floor(n/d + 999/1000) against ceil(n/d), for every n and d > 0 |
| Roster.QuotaAtMostSupervisors | scheduler.py:35 | with a ratio of at most 1 a session never asks for more backups than it has supervisors |
| Roster.QuotaExamples | scheduler.py:35 | ratio 0.2 and one room ask one backup; ratio 1/4000 and one room ask none, where the ceiling asks one |
| Constraints.InDomain | scheduler.py:9-13 | only declared variables are 1: supervision variables pair a listed teacher with an active pair, backup variables a listed teacher with a listed session |
| Constraints.Coverage | scheduler.py:16-17 | every active pair has exactly two supervisors among the teachers |
| Constraints.NoRoomRepeat | scheduler.py:19-24 | every teacher supervises each listed room in at most one of its active pairs |
| Constraints.OneDutyPerSession | scheduler.py:26-30 | for every teacher and session, the rooms it supervises in the session plus its backup variable add up to at most 1 |
| Constraints.BackupQuotas | scheduler.py:32-36 | every session has exactly its quota of backup teachers |
| Constraints.Load | scheduler.py:45 | a teacher's load is its supervised active pairs plus its backed-up sessions; at most their number, and 0 exactly when it holds no duty |
| Constraints.LoadBounds | scheduler.py:42-48 | every teacher's load lies between the average minus 1 and the average plus 1 |
| Constraints.Satisfies | scheduler.py:9-48 | the conjunction of the variable domains and all hard constraints above |
| Constraints.SquaredDeviations | scheduler.py:50-58 | the squared differences between load and average of a list of teachers, added up; never negative |
| Constraints.Objective | scheduler.py:50-60 | the minimised sum over all teachers; never negative, and 0 exactly when every teacher's load equals the average |
| Constraints.DeviationsVanish | scheduler.py:50-60 | the squared deviations of a list of teachers add up to 0 exactly when each of their loads equals the average |
| Constraints.RoomDutiesCounted | scheduler.py:19-24 | two different active pairs of one room, both supervised by a teacher, count two in that teacher's room sum |
| Constraints.SessionDutiesCounted | scheduler.py:26-30 | two different active rooms supervised by a teacher in one session count two in that teacher's session sum |
| Constraints.TwoDistinctSupervisors | scheduler.py:16-17 | under coverage, every active pair has exactly two different supervisors, both teachers, in the order of the teacher list |
| Constraints.NoTeacherRepeatsRoom | scheduler.py:19-24 | under the room rule, a teacher who supervises one room in two pairs supervises the same pair twice |
| Constraints.OneRoomPerSession | scheduler.py:26-30 | under the session rule, a teacher supervises at most one room per session |
| Constraints.SupervisorIsNotBackup | scheduler.py:26-30 | under the session rule, a supervisor in a session is not a backup in that session |
| Constraints.DeviationsCountOffAverage | scheduler.py:50-58 | with every load within one of the average, each squared deviation is 0 or 1, so their sum counts the loads off the average |
| Constraints.ObjectiveCountsOffAverage | scheduler.py:50-60 | the minimised objective equals the number of teachers whose load is not the average, between 0 and the number of teachers |
| Constraints.TotalLoadByRows | scheduler.py:45 | the loads added up are the supervision ones plus the backup ones, read per teacher |
| Constraints.BackupColumnsMeetQuotas | scheduler.py:34-36 | when each session has its quota of backups, the backups of all sessions add up to the sum of the quotas |
| Constraints.LoadsAddUpToTotalSlots | scheduler.py:39-48 | under coverage and the quotas, the loads of all teachers add up to total_slots |
| Constraints.CoverageNeedsTwoTeachers | scheduler.py:16-17 | no assignment meets coverage with fewer than two teachers once a pair is active |
| Constraints.SessionLoadAtMost | scheduler.py:26-30 | under the session rule, the duties of one session number at most the teachers |
| Constraints.SessionLoadSplits | scheduler.py:26-36 | the duties of a session, counted per teacher, are its supervisions counted per room plus its backups |
| Constraints.CoveredRoomsOfSession | scheduler.py:16-17 | under coverage, the supervisions of a session number twice its active rooms |
| Constraints.SessionCapacity | scheduler.py:16-36 | under coverage, the session rule and the quotas, twice the active rooms of a session plus its quota is at most the number of teachers |
| Extraction.AppendRow | scheduler.py:69-71 | one teacher's pass appends the teacher to the list of each key whose variable is 1, creates the lists it needs and leaves every other list unchanged |
| Extraction.Collect | scheduler.py:68-76 | the keys of the result are exactly the keys of the list with a variable set to 1, and each key's list is its column, in teacher order |
| Scheduler.SolverContract | scheduler.py:61-63 | what the solver promises: an OPTIMAL or FEASIBLE answer meets every posted constraint |
| Scheduler.BuildSchedule | scheduler.py:61-79 | fails with NoFeasibleSchedule exactly when the status is neither OPTIMAL nor FEASIBLE; otherwise returns a valid schedule read off the solver's assignment |
| Scheduler.ExtractedScheduleIsValid | scheduler.py:68-78 | the lists and loads read off a satisfying assignment form a valid schedule |
| Scheduler.SupervisorsCover | scheduler.py:68-71 | the supervisors map has exactly the active pairs as keys, each with two different teachers in teacher order |
| Scheduler.RoomsNotRepeated | scheduler.py:19-24 | no teacher is listed for one room under two different pairs |
| Scheduler.OneDutyEach | scheduler.py:26-30 | no teacher is listed under two pairs of one session, nor as both supervisor and backup of one session |
| Scheduler.SupervisorsAreValid | scheduler.py:68-71 | the three properties of the supervisors map above together |
| Scheduler.BackupsAreValid | scheduler.py:73-76 | a session is a backups key exactly when its quota is positive, and its list holds quota-many different teachers in teacher order |
| Scheduler.LoadsAreValid | scheduler.py:78 | every teacher has a load equal to its supervisions plus its backups in the returned lists, within one of the average, and the loads add up to total_slots |
| Scheduler.SumOfLoadsIsTotalLoad | scheduler.py:78 | the returned load table adds up to the loads of the assignment |
| Scenarios.OneTeacherTwoRoomsInfeasible | scheduler.py:16-17 | one teacher and two active rooms in one session: no assignment meets the constraints |
| Scenarios.TwoTeachersInfeasible | scheduler.py:26-36 | two teachers, one room, ratio 0.2: one backup is needed but both teachers supervise, so no assignment meets the constraints |
| Scenarios.ThreeTeachersFeasible | scheduler.py:16-60 | three teachers, one room, ratio 0.2: two supervisors plus one backup meet every constraint, the average is 1 and the objective is 0 |
| Scenarios.OneTeacherTwoRoomsFails | scheduler.py:61-66 | for any answer that keeps the solver's contract, given one teacher and two active rooms of one session, the scheduler fails with NoFeasibleSchedule |
| Scenarios.TwoTeachersFail | scheduler.py:61-66 | for any answer that keeps the solver's contract, given two teachers and one active room at ratio 0.2, the scheduler fails with NoFeasibleSchedule |
| Scenarios.ThreeTeachersSchedule | scheduler.py:61-79 | given the OPTIMAL answer in which two teachers supervise and the third backs up, the scheduler returns exactly those supervisors and that backup, and a load of 1 for each teacher |

## Left out

- The CP-SAT search (scheduler.py:61-63) is not modelled. Its answer is the `solution` parameter of `BuildSchedule`. `SolverContract` states the solver's guarantee that an OPTIMAL or FEASIBLE answer meets every posted constraint.
- The time limit `max_time_in_seconds` is left out: it only decides how long the solver may take.
- Optimality is left out. The model does not state that an OPTIMAL answer minimises the objective, only what the objective counts.
- Building the CP model object, with its variables and the order in which constraints are posted (scheduler.py:8-60), is modelled by the predicate `Satisfies`. That object is only consumed by the solver.
- The auxiliary variables `diff` and `sq_diff` (scheduler.py:52-57) are folded into `SquaredDeviations`. Their domains [-1, 1] and [0, 1] follow from the load bounds.
- Floating-point rounding of the ratio is left out. The ratio is the exact rational `num / den` with `den > 0`.
- Scheduler.BuildSchedule: the key order of the supervisors map is not modelled, because Dafny maps have no order. In Python, `x` is filled teacher by teacher (scheduler.py:10-12) and read back in that order by `x.items()` (scheduler.py:69-71). A pair becomes a key when its first supervisor in that order is reached, so the key order depends on the solver's assignment as well as on the iteration order of the `active_pairs` set. The active pairs are modelled as a duplicate-free list.
- Extraction.Collect: Dafny maps have no key order, so the result says nothing about the order in which keys are inserted. That order depends on the assignment, as described for the supervisors map above. The order within each list is modelled.
- The model requires teacher, room, session and active-pair lists without duplicates. It also requires each active pair to be built from a listed room and a listed session. The code relies on both without checking them.
- The model requires at least one teacher. With none, the code stops with a division by zero at scheduler.py:40.
- schedule_app.py (the web front end) is not part of this model. Neither are its file handling, spreadsheet input and output, and charts. It catches `ValueError`, while `build_schedule` raises `RuntimeError`.
- logging_utils.py (a log buffer for display) is not part of this model.
- i18n.py (interface strings) is not part of this model.
- excel_io is not part of this model: only the three fields of its `ScheduleOutput` are modelled.
