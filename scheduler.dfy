/** build_schedule: one scheduling request, from the roster to the duty
    lists. The CP-SAT search itself is not modelled: its answer (a status
    and the values of the variables) is a parameter, and what CP-SAT
    guarantees about that answer is a precondition. */
module Scheduler {
  import opened Counting
  import opened Roster
  import opened Constraints
  import opened Extraction

  /** CP-SAT's solve statuses. */
  datatype SolverStatus = Unknown | ModelInvalid | Feasible | Infeasible | Optimal

  /** What the solver returns: its status, and the assignment that its
      variable values make. */
  datatype Solution = Solution(status: SolverStatus, assignment: Assignment)

  /** The statuses with which the solver has found an assignment. */
  predicate Solved(status: SolverStatus) {
    status == Optimal || status == Feasible
  }

  /** CP-SAT's promise: an OPTIMAL or FEASIBLE answer meets every constraint
      posted on the model. */
  predicate SolverContract(inst: Instance, solution: Solution)
    requires WellFormed(inst)
  {
    Solved(solution.status) ==> Satisfies(inst, solution.assignment)
  }

  datatype Error = NoFeasibleSchedule

  datatype Result<T> = Ok(value: T) | Err(error: Error)

  /** The schedule handed back to the caller. */
  datatype ScheduleOutput = ScheduleOutput(
    supervisors: map<Pair, seq<Teacher>>,
    backups: map<Session, seq<Teacher>>,
    load: map<Teacher, int>)

  /** The loads in `load` of the teachers `ts`, added up. */
  function SumOfLoads(load: map<Teacher, int>, ts: seq<Teacher>): int
    requires forall t :: t in ts ==> t in load
  {
    if ts == [] then 0 else SumOfLoads(load, ts[..|ts| - 1]) + load[ts[|ts| - 1]]
  }

  /** Every active pair, and nothing else, has two different supervisors,
      listed in the order of the teacher list. */
  predicate SupervisorsCoverActivePairs(inst: Instance, sup: map<Pair, seq<Teacher>>) {
    && sup.Keys == ActiveSet(inst)
    && forall p :: p in sup ==>
         |sup[p]| == 2 && sup[p][0] != sup[p][1] && IsSubsequence(sup[p], inst.teachers)
  }

  /** Nobody supervises one room in two sessions. */
  predicate NoRoomRepeatIn(sup: map<Pair, seq<Teacher>>) {
    forall p1, p2, t :: p1 in sup && p2 in sup && t in sup[p1] && t in sup[p2] && p1.0 == p2.0 ==> p1 == p2
  }

  /** Nobody holds two duties in one session: not two rooms, and not a room
      and a backup. */
  predicate OneDutyPerSessionIn(sup: map<Pair, seq<Teacher>>, bk: map<Session, seq<Teacher>>) {
    && (forall p1, p2, t :: p1 in sup && p2 in sup && t in sup[p1] && t in sup[p2] && p1.1 == p2.1 ==> p1 == p2)
    && (forall p, t :: p in sup && t in sup[p] && p.1 in bk ==> t !in bk[p.1])
  }

  /** Every session has its quota of different backups, in the order of the
      teacher list, and a session appears exactly when its quota is positive. */
  predicate BackupsMeetQuotas(inst: Instance, bk: map<Session, seq<Teacher>>)
    requires inst.ratio.den > 0
  {
    && (forall s :: s in bk ==> s in inst.sessions)
    && (forall s :: s in inst.sessions ==> (s in bk <==> QuotaOf(inst, s) > 0))
    && forall s :: s in bk ==>
         |bk[s]| == QuotaOf(inst, s) && Distinct(bk[s]) && IsSubsequence(bk[s], inst.teachers)
  }

  /** Every teacher has a load, which counts the teacher's duties in the
      schedule, lies within one of the average, and the loads add up to the
      total number of slots. */
  predicate LoadsBalanced(inst: Instance, out: ScheduleOutput)
    requires WellFormed(inst)
  {
    && out.load.Keys == (set t | t in inst.teachers)
    && (forall t :: t in inst.teachers ==>
          out.load[t] == Occurrences(out.supervisors, inst.active, t) + Occurrences(out.backups, inst.sessions, t))
    && (forall t :: t in inst.teachers ==> Avg(inst) - 1 <= out.load[t] <= Avg(inst) + 1)
    && SumOfLoads(out.load, inst.teachers) == TotalSlots(inst)
  }

  /** Everything a returned schedule promises. */
  predicate ValidSchedule(inst: Instance, out: ScheduleOutput)
    requires WellFormed(inst)
  {
    && SupervisorsCoverActivePairs(inst, out.supervisors)
    && NoRoomRepeatIn(out.supervisors)
    && OneDutyPerSessionIn(out.supervisors, out.backups)
    && BackupsMeetQuotas(inst, out.backups)
    && LoadsBalanced(inst, out)
  }

  /** The schedule is read off the assignment: a teacher is listed for a
      pair or a session exactly when its variable is 1, and the loads are
      the assignment's. */
  predicate ReadFrom(inst: Instance, a: Assignment, out: ScheduleOutput) {
    && (forall p :: p in out.supervisors ==> out.supervisors[p] == Column(inst.teachers, p, a.x))
    && (forall s :: s in out.backups ==> out.backups[s] == Column(inst.teachers, s, a.b))
    && (forall t :: t in out.load ==> out.load[t] == Load(inst, a, t))
  }

  /** Builds the model, takes the solver's answer `solution` and, unless the
      solver found no assignment, reads the schedule off it. */
  method BuildSchedule(inst: Instance, solution: Solution) returns (r: Result<ScheduleOutput>)
    requires WellFormed(inst)
    requires SolverContract(inst, solution)
    ensures r.Err? <==> !Solved(solution.status)
    ensures r.Err? ==> r.error == NoFeasibleSchedule
    ensures r.Ok? ==> ValidSchedule(inst, r.value) && ReadFrom(inst, solution.assignment, r.value)
  {
    if !Solved(solution.status) {
      return Err(NoFeasibleSchedule);
    }
    var a := solution.assignment;
    var supervisors := Collect(inst.teachers, inst.active, a.x);
    var backups := Collect(inst.teachers, inst.sessions, a.b);
    var load := map t | t in inst.teachers :: Load(inst, a, t);
    var out := ScheduleOutput(supervisors, backups, load);
    ExtractedScheduleIsValid(inst, a, out);
    return Ok(out);
  }

  /** A schedule read off `a` whose keys are those that `Collect` creates:
      the active pairs and the sessions with at least one variable set to 1,
      and every teacher. */
  ghost predicate Extracted(inst: Instance, a: Assignment, out: ScheduleOutput) {
    && ReadFrom(inst, a, out)
    && (forall p :: p in out.supervisors <==> p in inst.active && Column(inst.teachers, p, a.x) != [])
    && (forall s :: s in out.backups <==> s in inst.sessions && Column(inst.teachers, s, a.b) != [])
    && out.load.Keys == (set t | t in inst.teachers)
  }

  lemma ExtractedScheduleIsValid(inst: Instance, a: Assignment, out: ScheduleOutput)
    requires WellFormed(inst) && Satisfies(inst, a) && Extracted(inst, a, out)
    ensures ValidSchedule(inst, out) && ReadFrom(inst, a, out)
  {
    SupervisorsAreValid(inst, a, out);
    BackupsAreValid(inst, a, out);
    LoadsAreValid(inst, a, out);
  }

  lemma SupervisorsAreValid(inst: Instance, a: Assignment, out: ScheduleOutput)
    requires WellFormed(inst) && Satisfies(inst, a) && Extracted(inst, a, out)
    ensures SupervisorsCoverActivePairs(inst, out.supervisors)
    ensures NoRoomRepeatIn(out.supervisors)
    ensures OneDutyPerSessionIn(out.supervisors, out.backups)
  {
    SupervisorsCover(inst, a, out);
    RoomsNotRepeated(inst, a, out);
    OneDutyEach(inst, a, out);
  }

  lemma SupervisorsCover(inst: Instance, a: Assignment, out: ScheduleOutput)
    requires WellFormed(inst) && Satisfies(inst, a) && Extracted(inst, a, out)
    ensures SupervisorsCoverActivePairs(inst, out.supervisors)
  {
    var sup := out.supervisors;
    forall p | p in inst.active
      ensures p in sup && |sup[p]| == 2 && sup[p][0] != sup[p][1] && IsSubsequence(sup[p], inst.teachers)
    {
      TwoDistinctSupervisors(inst, a, p);
    }
    SupervisorKeys(inst, sup);
  }

  lemma SupervisorKeys(inst: Instance, sup: map<Pair, seq<Teacher>>)
    requires forall p :: p in sup ==> p in inst.active
    requires forall p :: p in inst.active ==> p in sup
    ensures sup.Keys == ActiveSet(inst)
  {
  }

  lemma RoomsNotRepeated(inst: Instance, a: Assignment, out: ScheduleOutput)
    requires WellFormed(inst) && Satisfies(inst, a) && Extracted(inst, a, out)
    ensures NoRoomRepeatIn(out.supervisors)
  {
    var sup := out.supervisors;
    forall p1, p2, t | p1 in sup && p2 in sup && t in sup[p1] && t in sup[p2] && p1.0 == p2.0
      ensures p1 == p2
    {
      NoTeacherRepeatsRoom(inst, a, t, p1, p2);
    }
  }

  lemma OneDutyEach(inst: Instance, a: Assignment, out: ScheduleOutput)
    requires WellFormed(inst) && Satisfies(inst, a) && Extracted(inst, a, out)
    ensures OneDutyPerSessionIn(out.supervisors, out.backups)
  {
    var sup := out.supervisors;
    forall p1, p2, t | p1 in sup && p2 in sup && t in sup[p1] && t in sup[p2] && p1.1 == p2.1
      ensures p1 == p2
    {
      OneRoomPerSession(inst, a, t, p1, p2);
    }
    forall p, t | p in sup && t in sup[p] && p.1 in out.backups
      ensures t !in out.backups[p.1]
    {
      SupervisorIsNotBackup(inst, a, t, p);
    }
  }

  lemma BackupsAreValid(inst: Instance, a: Assignment, out: ScheduleOutput)
    requires WellFormed(inst) && Satisfies(inst, a) && Extracted(inst, a, out)
    ensures BackupsMeetQuotas(inst, out.backups)
  {
  }

  lemma LoadsAreValid(inst: Instance, a: Assignment, out: ScheduleOutput)
    requires WellFormed(inst) && Satisfies(inst, a) && Extracted(inst, a, out)
    ensures LoadsBalanced(inst, out)
  {
    forall t | t in inst.teachers
      ensures out.load[t] == Occurrences(out.supervisors, inst.active, t) + Occurrences(out.backups, inst.sessions, t)
    {
      RowCountAsOccurrences(t, inst.active, a.x, out.supervisors);
      RowCountAsOccurrences(t, inst.sessions, a.b, out.backups);
    }
    SumOfLoadsIsTotalLoad(inst, a, out.load, inst.teachers);
    LoadsAddUpToTotalSlots(inst, a);
  }

  lemma {:induction false} SumOfLoadsIsTotalLoad(inst: Instance, a: Assignment, load: map<Teacher, int>, ts: seq<Teacher>)
    requires forall t :: t in ts ==> t in load && load[t] == Load(inst, a, t)
    ensures SumOfLoads(load, ts) == TotalLoad(inst, a, ts)
    decreases |ts|
  {
    if ts != [] {
      var init := ts[..|ts| - 1];
      assert forall t :: t in init ==> t in ts;
      SumOfLoadsIsTotalLoad(inst, a, load, init);
      assert ts[|ts| - 1] in ts;
    }
  }
}
