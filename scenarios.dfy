/** Small requests whose outcome follows from the constraints: two that no
    assignment can satisfy, and one that is satisfied with every load on the
    average. Teacher, room and session names are arbitrary. */
module Scenarios {
  import opened Counting
  import opened Roster
  import opened Constraints
  import opened Scheduler

  /** One teacher cannot supervise two rooms that are active in the same session. */
  lemma OneTeacherTwoRoomsInfeasible(t: Teacher, r1: Room, r2: Room, s: Session, a: Assignment)
    requires r1 != r2
    ensures var inst := Instance([t], [s], [r1, r2], [(r1, s), (r2, s)], DefaultRatio);
            WellFormed(inst) && !Satisfies(inst, a)
  {
    var inst := Instance([t], [s], [r1, r2], [(r1, s), (r2, s)], DefaultRatio);
    if Satisfies(inst, a) {
      CoverageNeedsTwoTeachers(inst, a);
    }
  }

  /** One session `s` with one active room `r`, the teachers `ts` and the
      default ratio 0.2. */
  function OneRoom(ts: seq<Teacher>, r: Room, s: Session): Instance {
    Instance(ts, [s], [r], [(r, s)], DefaultRatio)
  }

  /** Its one active room asks two supervisors and one backup. */
  lemma OneRoomQuota(ts: seq<Teacher>, r: Room, s: Session)
    ensures RoomsPerSession(OneRoom(ts, r, s), s) == 1
    ensures QuotaOf(OneRoom(ts, r, s), s) == 1
  {
    var inst := OneRoom(ts, r, s);
    assert [r][..0] == [];
    assert Column(inst.rooms, s, ActiveSet(inst)) == [r];
    QuotaExamples();
  }

  /** With two teachers and one room, both teachers supervise, and the one
      backup the session needs would hold a second duty in the session. */
  lemma TwoTeachersInfeasible(t1: Teacher, t2: Teacher, r: Room, s: Session, a: Assignment)
    requires t1 != t2
    ensures WellFormed(OneRoom([t1, t2], r, s)) && !Satisfies(OneRoom([t1, t2], r, s), a)
  {
    var inst := OneRoom([t1, t2], r, s);
    OneRoomQuota([t1, t2], r, s);
    if Satisfies(inst, a) {
      SessionCapacity(inst, a, s);
    }
  }

  /** Three teachers `t1`, `t2`, `t3` and one room. */
  function Trio(t1: Teacher, t2: Teacher, t3: Teacher, r: Room, s: Session): Instance {
    OneRoom([t1, t2, t3], r, s)
  }

  /** `t1` and `t2` supervise `r` during `s`, `t3` is the backup of `s`. */
  function ThirdBacksUp(t1: Teacher, t2: Teacher, t3: Teacher, r: Room, s: Session): Assignment {
    Assignment({(t1, (r, s)), (t2, (r, s))}, {(t3, s)})
  }

  /** With a third teacher, two supervise and the third backs up: every
      constraint holds and every load is the average, 1, so the objective is 0. */
  lemma ThreeTeachersFeasible(t1: Teacher, t2: Teacher, t3: Teacher, r: Room, s: Session)
    requires t1 != t2 && t1 != t3 && t2 != t3
    ensures WellFormed(Trio(t1, t2, t3, r, s))
    ensures Satisfies(Trio(t1, t2, t3, r, s), ThirdBacksUp(t1, t2, t3, r, s))
    ensures Avg(Trio(t1, t2, t3, r, s)) == 1
    ensures Objective(Trio(t1, t2, t3, r, s), ThirdBacksUp(t1, t2, t3, r, s)) == 0
  {
    TrioQuantities(t1, t2, t3, r, s);
    TrioDuties(t1, t2, t3, r, s);
    TrioCounts(t1, t2, t3, r, s);
    TrioBalanced(t1, t2, t3, r, s);
  }

  lemma TrioQuantities(t1: Teacher, t2: Teacher, t3: Teacher, r: Room, s: Session)
    requires t1 != t2 && t1 != t3 && t2 != t3
    ensures WellFormed(Trio(t1, t2, t3, r, s))
    ensures QuotaOf(Trio(t1, t2, t3, r, s), s) == 1
    ensures TotalSlots(Trio(t1, t2, t3, r, s)) == 3
    ensures Avg(Trio(t1, t2, t3, r, s)) == 1
  {
    var inst := Trio(t1, t2, t3, r, s);
    OneRoomQuota([t1, t2, t3], r, s);
    assert [s][..0] == [];
    assert QuotaSum(inst, [s]) == 1;
    assert TotalSlots(inst) == 3;
    assert CeilDiv(3, 3) == 1;
  }

  lemma TrioColumns(t1: Teacher, t2: Teacher, t3: Teacher, r: Room, s: Session)
    requires t1 != t2 && t1 != t3 && t2 != t3
    ensures Column([t1, t2, t3], (r, s), ThirdBacksUp(t1, t2, t3, r, s).x) == [t1, t2]
    ensures Column([t1, t2, t3], s, ThirdBacksUp(t1, t2, t3, r, s).b) == [t3]
  {
    var a := ThirdBacksUp(t1, t2, t3, r, s);
    var ts := [t1, t2, t3];
    assert ts[..2] == [t1, t2] && ts[..2][..1] == [t1] && ts[..2][..1][..0] == [];
    assert Column([t1], (r, s), a.x) == [t1];
    assert Column([t1, t2], (r, s), a.x) == [t1, t2];
    assert Column([t1], s, a.b) == [];
    assert Column([t1, t2], s, a.b) == [];
  }

  lemma TrioDuties(t1: Teacher, t2: Teacher, t3: Teacher, r: Room, s: Session)
    requires t1 != t2 && t1 != t3 && t2 != t3
    ensures InDomain(Trio(t1, t2, t3, r, s), ThirdBacksUp(t1, t2, t3, r, s))
    ensures NoRoomRepeat(Trio(t1, t2, t3, r, s), ThirdBacksUp(t1, t2, t3, r, s))
    ensures OneDutyPerSession(Trio(t1, t2, t3, r, s), ThirdBacksUp(t1, t2, t3, r, s))
  {
    var inst, a := Trio(t1, t2, t3, r, s), ThirdBacksUp(t1, t2, t3, r, s);
    assert inst.active[..0] == [] && inst.rooms[..0] == [];
    forall t, s' | t in inst.teachers && s' in inst.sessions
      ensures SessionDuties(t, s', inst.rooms, ActiveSet(inst), a.x) + BackupDuty(t, s', a.b) <= 1
    {
      assert t == t1 || t == t2 || t == t3;
    }
  }

  lemma TrioLoads(t1: Teacher, t2: Teacher, t3: Teacher, r: Room, s: Session)
    requires t1 != t2 && t1 != t3 && t2 != t3
    ensures var inst, a := Trio(t1, t2, t3, r, s), ThirdBacksUp(t1, t2, t3, r, s);
            Load(inst, a, t1) == 1 && Load(inst, a, t2) == 1 && Load(inst, a, t3) == 1
  {
    var inst := Trio(t1, t2, t3, r, s);
    assert inst.active[..0] == [] && inst.sessions[..0] == [];
  }

  lemma TrioCounts(t1: Teacher, t2: Teacher, t3: Teacher, r: Room, s: Session)
    requires t1 != t2 && t1 != t3 && t2 != t3
    ensures WellFormed(Trio(t1, t2, t3, r, s))
    ensures Coverage(Trio(t1, t2, t3, r, s), ThirdBacksUp(t1, t2, t3, r, s))
    ensures BackupQuotas(Trio(t1, t2, t3, r, s), ThirdBacksUp(t1, t2, t3, r, s))
  {
    TrioQuantities(t1, t2, t3, r, s);
    TrioColumns(t1, t2, t3, r, s);
  }

  lemma TrioBalanced(t1: Teacher, t2: Teacher, t3: Teacher, r: Room, s: Session)
    requires t1 != t2 && t1 != t3 && t2 != t3
    ensures WellFormed(Trio(t1, t2, t3, r, s))
    ensures LoadBounds(Trio(t1, t2, t3, r, s), ThirdBacksUp(t1, t2, t3, r, s))
    ensures Objective(Trio(t1, t2, t3, r, s), ThirdBacksUp(t1, t2, t3, r, s)) == 0
  {
    TrioOnAverage(t1, t2, t3, r, s);
  }

  lemma TrioOnAverage(t1: Teacher, t2: Teacher, t3: Teacher, r: Room, s: Session)
    requires t1 != t2 && t1 != t3 && t2 != t3
    ensures WellFormed(Trio(t1, t2, t3, r, s))
    ensures forall t :: t in Trio(t1, t2, t3, r, s).teachers ==>
      Load(Trio(t1, t2, t3, r, s), ThirdBacksUp(t1, t2, t3, r, s), t) == Avg(Trio(t1, t2, t3, r, s))
  {
    TrioQuantities(t1, t2, t3, r, s);
    TrioLoads(t1, t2, t3, r, s);
    EachOnAverage(Trio(t1, t2, t3, r, s), ThirdBacksUp(t1, t2, t3, r, s), t1, t2, t3);
  }

  /** Three teachers, each with the average load, are all the teachers on the average. */
  lemma EachOnAverage(inst: Instance, a: Assignment, t1: Teacher, t2: Teacher, t3: Teacher)
    requires WellFormed(inst) && inst.teachers == [t1, t2, t3]
    requires Load(inst, a, t1) == Avg(inst) && Load(inst, a, t2) == Avg(inst) && Load(inst, a, t3) == Avg(inst)
    ensures forall t :: t in inst.teachers ==> Load(inst, a, t) == Avg(inst)
  {
    forall t | t in inst.teachers
      ensures Load(inst, a, t) == Avg(inst)
    {
      assert t == t1 || t == t2 || t == t3;
    }
  }

  // ---------------------------------------------------------------------------
  // The same requests handed to the scheduler

  /** Whatever the solver answers for one teacher and two active rooms, the
      scheduler reports that there is no feasible schedule. */
  method OneTeacherTwoRoomsFails(t: Teacher, r1: Room, r2: Room, s: Session, solution: Solution)
    returns (result: Result<ScheduleOutput>)
    requires r1 != r2
    requires SolverContract(Instance([t], [s], [r1, r2], [(r1, s), (r2, s)], DefaultRatio), solution)
    ensures result == Err(NoFeasibleSchedule)
  {
    var inst := Instance([t], [s], [r1, r2], [(r1, s), (r2, s)], DefaultRatio);
    OneTeacherTwoRoomsInfeasible(t, r1, r2, s, solution.assignment);
    result := BuildSchedule(inst, solution);
  }

  /** Whatever the solver answers for two teachers and one active room, the
      scheduler reports that there is no feasible schedule. */
  method TwoTeachersFail(t1: Teacher, t2: Teacher, r: Room, s: Session, solution: Solution)
    returns (result: Result<ScheduleOutput>)
    requires t1 != t2
    requires SolverContract(OneRoom([t1, t2], r, s), solution)
    ensures result == Err(NoFeasibleSchedule)
  {
    TwoTeachersInfeasible(t1, t2, r, s, solution.assignment);
    result := BuildSchedule(OneRoom([t1, t2], r, s), solution);
  }

  /** When the solver answers OPTIMAL with the assignment of
      `ThirdBacksUp`, the scheduler returns that schedule: `t1` and `t2`
      supervise `r`, `t3` backs up `s`, and every load is 1. */
  method ThreeTeachersSchedule(t1: Teacher, t2: Teacher, t3: Teacher, r: Room, s: Session)
    returns (result: Result<ScheduleOutput>)
    requires t1 != t2 && t1 != t3 && t2 != t3
    ensures result.Ok?
    ensures result.value.supervisors == map[(r, s) := [t1, t2]]
    ensures result.value.backups == map[s := [t3]]
    ensures result.value.load == map[t1 := 1, t2 := 1, t3 := 1]
  {
    var inst, a := Trio(t1, t2, t3, r, s), ThirdBacksUp(t1, t2, t3, r, s);
    ThreeTeachersFeasible(t1, t2, t3, r, s);
    result := BuildSchedule(inst, Solution(Optimal, a));
    TrioSupervisors(t1, t2, t3, r, s, result.value.supervisors);
    TrioBackups(t1, t2, t3, r, s, result.value.backups);
    TrioLoadTable(t1, t2, t3, r, s, result.value.load);
  }

  lemma TrioSupervisors(t1: Teacher, t2: Teacher, t3: Teacher, r: Room, s: Session, sup: map<Pair, seq<Teacher>>)
    requires t1 != t2 && t1 != t3 && t2 != t3
    requires sup.Keys == ActiveSet(Trio(t1, t2, t3, r, s))
    requires forall p :: p in sup ==> sup[p] == Column([t1, t2, t3], p, ThirdBacksUp(t1, t2, t3, r, s).x)
    ensures sup == map[(r, s) := [t1, t2]]
  {
    assert forall p :: p in sup <==> p == (r, s);
    TrioColumns(t1, t2, t3, r, s);
    SingleKey(sup, (r, s), [t1, t2]);
  }

  lemma TrioBackups(t1: Teacher, t2: Teacher, t3: Teacher, r: Room, s: Session, bk: map<Session, seq<Teacher>>)
    requires t1 != t2 && t1 != t3 && t2 != t3
    requires forall s' :: s' in bk ==> s' in [s]
    requires s in bk
    requires forall s' :: s' in bk ==> bk[s'] == Column([t1, t2, t3], s', ThirdBacksUp(t1, t2, t3, r, s).b)
    ensures bk == map[s := [t3]]
  {
    TrioColumns(t1, t2, t3, r, s);
    SingleKey(bk, s, [t3]);
  }

  /** A map whose only key is `k` is the one-entry map of `k` to its value. */
  lemma SingleKey<K, V>(m: map<K, V>, k: K, v: V)
    requires forall k' :: k' in m <==> k' == k
    requires k in m && m[k] == v
    ensures m == map[k := v]
  {
    assert m.Keys == map[k := v].Keys;
  }

  lemma TrioLoadTable(t1: Teacher, t2: Teacher, t3: Teacher, r: Room, s: Session, load: map<Teacher, int>)
    requires t1 != t2 && t1 != t3 && t2 != t3
    requires load.Keys == (set t | t in [t1, t2, t3])
    requires forall t :: t in load ==> load[t] == Load(Trio(t1, t2, t3, r, s), ThirdBacksUp(t1, t2, t3, r, s), t)
    ensures load == map[t1 := 1, t2 := 1, t3 := 1]
  {
    TrioLoads(t1, t2, t3, r, s);
    assert load.Keys == {t1, t2, t3};
  }
}
