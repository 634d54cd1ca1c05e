/** The constraint model: the 0/1 decision variables as an assignment, the
    hard constraints posted on them, the objective, and what the constraints
    imply about any assignment that meets them. */
module Constraints {
  import opened Counting
  import opened Roster

  /** Values of the decision variables. `x` holds the triples (t, (r, s))
      whose supervision variable is 1, `b` the pairs (t, s) whose backup
      variable is 1. */
  datatype Assignment = Assignment(x: set<(Teacher, Pair)>, b: set<(Teacher, Session)>)

  /** Only declared variables can be 1: supervision variables exist for
      every teacher and active pair, backup variables for every teacher and
      session. */
  predicate InDomain(inst: Instance, a: Assignment) {
    && (forall e :: e in a.x ==> e.0 in inst.teachers && e.1 in inst.active)
    && (forall e :: e in a.b ==> e.0 in inst.teachers && e.1 in inst.sessions)
  }

  /** The sessions among the pairs `ps` in which `t` supervises room `r`. */
  function RoomDuties(t: Teacher, r: Room, ps: seq<Pair>, x: set<(Teacher, Pair)>): nat {
    if ps == [] then 0
    else
      var p := ps[|ps| - 1];
      RoomDuties(t, r, ps[..|ps| - 1], x) + if p.0 == r && (t, p) in x then 1 else 0
  }

  /** The rooms among `rs`, active during `s`, that `t` supervises during `s`. */
  function SessionDuties(t: Teacher, s: Session, rs: seq<Room>, active: set<Pair>, x: set<(Teacher, Pair)>): nat {
    if rs == [] then 0
    else
      var r := rs[|rs| - 1];
      SessionDuties(t, s, rs[..|rs| - 1], active, x) + if (r, s) in active && (t, (r, s)) in x then 1 else 0
  }

  function BackupDuty(t: Teacher, s: Session, b: set<(Teacher, Session)>): nat {
    if (t, s) in b then 1 else 0
  }

  /** A teacher's load: the active pairs it supervises plus the sessions it
      backs up. */
  function Load(inst: Instance, a: Assignment, t: Teacher): (n: nat)
    ensures n <= |inst.active| + |inst.sessions|
    ensures n == 0 <==> (forall p :: p in inst.active ==> (t, p) !in a.x)
                        && (forall s :: s in inst.sessions ==> (t, s) !in a.b)
  {
    RowCount(t, inst.active, a.x) + RowCount(t, inst.sessions, a.b)
  }

  /** Exactly two supervisors for every active pair. */
  predicate Coverage(inst: Instance, a: Assignment) {
    forall p :: p in inst.active ==> |Column(inst.teachers, p, a.x)| == 2
  }

  /** No teacher supervises one room in more than one session. */
  predicate NoRoomRepeat(inst: Instance, a: Assignment) {
    forall t, r :: t in inst.teachers && r in inst.rooms ==> RoomDuties(t, r, inst.active, a.x) <= 1
  }

  /** At most one duty, supervision or backup, per teacher and session. */
  predicate OneDutyPerSession(inst: Instance, a: Assignment) {
    forall t, s :: t in inst.teachers && s in inst.sessions ==>
      SessionDuties(t, s, inst.rooms, ActiveSet(inst), a.x) + BackupDuty(t, s, a.b) <= 1
  }

  /** Exactly the quota of backups in every session. */
  predicate BackupQuotas(inst: Instance, a: Assignment)
    requires inst.ratio.den > 0
  {
    forall s :: s in inst.sessions ==> |Column(inst.teachers, s, a.b)| == QuotaOf(inst, s)
  }

  /** Every load within one of the average. */
  predicate LoadBounds(inst: Instance, a: Assignment)
    requires WellFormed(inst)
  {
    forall t :: t in inst.teachers ==> Avg(inst) - 1 <= Load(inst, a, t) <= Avg(inst) + 1
  }

  /** Every hard constraint of the model holds. */
  predicate Satisfies(inst: Instance, a: Assignment)
    requires WellFormed(inst)
  {
    && InDomain(inst, a)
    && Coverage(inst, a)
    && NoRoomRepeat(inst, a)
    && OneDutyPerSession(inst, a)
    && BackupQuotas(inst, a)
    && LoadBounds(inst, a)
  }

  /** The squared deviations from the average of the loads of `ts`, added up. */
  function SquaredDeviations(inst: Instance, a: Assignment, ts: seq<Teacher>): (r: int)
    requires WellFormed(inst)
    ensures r >= 0
  {
    if ts == [] then 0
    else
      var init, last := ts[..|ts| - 1], ts[|ts| - 1];
      assert ts == init + [last];
      var diff := Load(inst, a, last) - Avg(inst);
      SquareSign(diff);
      SquaredDeviations(inst, a, init) + diff * diff
  }

  /** Adding a square to a sum of squares gives zero exactly when both are zero. */
  lemma ZeroStep(sq: int, load: int, avg: int)
    requires sq >= 0
    ensures var total := sq + (load - avg) * (load - avg);
            total >= 0 && (total == 0 <==> sq == 0 && load == avg)
  {
    SquareSign(load - avg);
  }

  lemma SquareSign(d: int)
    ensures d * d >= 0
    ensures d * d == 0 <==> d == 0
  {
    if d < 0 {
      assert d * d == (-d) * (-d);
    }
  }

  /** The number of teachers among `ts` whose load is not the average. */
  function OffAverage(inst: Instance, a: Assignment, ts: seq<Teacher>): nat
    requires WellFormed(inst)
  {
    if ts == [] then 0
    else OffAverage(inst, a, ts[..|ts| - 1]) + if Load(inst, a, ts[|ts| - 1]) != Avg(inst) then 1 else 0
  }

  /** The objective the solver minimises. */
  function Objective(inst: Instance, a: Assignment): (r: int)
    requires WellFormed(inst)
    ensures r >= 0
    ensures r == 0 <==> forall t :: t in inst.teachers ==> Load(inst, a, t) == Avg(inst)
  {
    DeviationsVanish(inst, a, inst.teachers);
    SquaredDeviations(inst, a, inst.teachers)
  }

  /** The squared deviations add up to zero exactly when every load is the average. */
  lemma {:induction false} DeviationsVanish(inst: Instance, a: Assignment, ts: seq<Teacher>)
    requires WellFormed(inst)
    ensures SquaredDeviations(inst, a, ts) == 0 <==> forall t :: t in ts ==> Load(inst, a, t) == Avg(inst)
    decreases |ts|
  {
    if ts != [] {
      var init, last := ts[..|ts| - 1], ts[|ts| - 1];
      assert ts == init + [last];
      DeviationsVanish(inst, a, init);
      ZeroStep(SquaredDeviations(inst, a, init), Load(inst, a, last), Avg(inst));
      assert forall t :: t in ts <==> t in init || t == last;
    }
  }

  /** The loads of `ts`, added up. */
  function TotalLoad(inst: Instance, a: Assignment, ts: seq<Teacher>): nat {
    if ts == [] then 0 else TotalLoad(inst, a, ts[..|ts| - 1]) + Load(inst, a, ts[|ts| - 1])
  }

  // ---------------------------------------------------------------------------
  // Counting facts behind the constraints

  lemma {:induction false} RoomDutyCounted(t: Teacher, ps: seq<Pair>, x: set<(Teacher, Pair)>, p: Pair)
    requires p in ps && (t, p) in x
    ensures RoomDuties(t, p.0, ps, x) >= 1
    decreases |ps|
  {
    if ps[|ps| - 1] != p {
      assert p in ps[..|ps| - 1] by {
        assert ps == ps[..|ps| - 1] + [ps[|ps| - 1]];
      }
      RoomDutyCounted(t, ps[..|ps| - 1], x, p);
    }
  }

  /** Two different pairs of one room, both supervised by `t`, make two room duties. */
  lemma {:induction false} RoomDutiesCounted(t: Teacher, ps: seq<Pair>, x: set<(Teacher, Pair)>, p1: Pair, p2: Pair)
    requires p1 in ps && p2 in ps && p1 != p2 && p1.0 == p2.0
    requires (t, p1) in x && (t, p2) in x
    ensures RoomDuties(t, p1.0, ps, x) >= 2
    decreases |ps|
  {
    var init, last := ps[..|ps| - 1], ps[|ps| - 1];
    assert ps == init + [last];
    if last == p1 {
      RoomDutyCounted(t, init, x, p2);
    } else if last == p2 {
      RoomDutyCounted(t, init, x, p1);
    } else {
      RoomDutiesCounted(t, init, x, p1, p2);
    }
  }

  lemma {:induction false} SessionDutyCounted(t: Teacher, s: Session, rs: seq<Room>, active: set<Pair>, x: set<(Teacher, Pair)>, r: Room)
    requires r in rs && (r, s) in active && (t, (r, s)) in x
    ensures SessionDuties(t, s, rs, active, x) >= 1
    decreases |rs|
  {
    if rs[|rs| - 1] != r {
      assert r in rs[..|rs| - 1] by {
        assert rs == rs[..|rs| - 1] + [rs[|rs| - 1]];
      }
      SessionDutyCounted(t, s, rs[..|rs| - 1], active, x, r);
    }
  }

  /** Two different active rooms supervised by `t` during `s` make two session duties. */
  lemma {:induction false} SessionDutiesCounted(t: Teacher, s: Session, rs: seq<Room>, active: set<Pair>, x: set<(Teacher, Pair)>, r1: Room, r2: Room)
    requires r1 in rs && r2 in rs && r1 != r2
    requires (r1, s) in active && (r2, s) in active
    requires (t, (r1, s)) in x && (t, (r2, s)) in x
    ensures SessionDuties(t, s, rs, active, x) >= 2
    decreases |rs|
  {
    var init, last := rs[..|rs| - 1], rs[|rs| - 1];
    assert rs == init + [last];
    if last == r1 {
      SessionDutyCounted(t, s, init, active, x, r2);
    } else if last == r2 {
      SessionDutyCounted(t, s, init, active, x, r1);
    } else {
      SessionDutiesCounted(t, s, init, active, x, r1, r2);
    }
  }

  // ---------------------------------------------------------------------------
  // What a satisfying assignment guarantees

  /** Every active pair has two different supervisors, both teachers, listed
      in the order of the teacher list. */
  lemma TwoDistinctSupervisors(inst: Instance, a: Assignment, p: Pair)
    requires WellFormed(inst) && Coverage(inst, a) && p in inst.active
    ensures var c := Column(inst.teachers, p, a.x);
            |c| == 2 && c[0] != c[1] && c[0] in inst.teachers && c[1] in inst.teachers
            && IsSubsequence(c, inst.teachers)
  {
    var c := Column(inst.teachers, p, a.x);
    assert Distinct(c);
    assert c[0] in c && c[1] in c;
  }

  /** No teacher supervises the same room in two different sessions. */
  lemma NoTeacherRepeatsRoom(inst: Instance, a: Assignment, t: Teacher, p1: Pair, p2: Pair)
    requires WellFormed(inst) && InDomain(inst, a) && NoRoomRepeat(inst, a)
    requires (t, p1) in a.x && (t, p2) in a.x && p1.0 == p2.0
    ensures p1 == p2
  {
    if p1 != p2 {
      assert t in inst.teachers && p1 in inst.active && p2 in inst.active;
      assert p1.0 in inst.rooms;
      RoomDutiesCounted(t, inst.active, a.x, p1, p2);
      assert false;
    }
  }

  /** Within one session a teacher supervises at most one room. */
  lemma OneRoomPerSession(inst: Instance, a: Assignment, t: Teacher, p1: Pair, p2: Pair)
    requires WellFormed(inst) && InDomain(inst, a) && OneDutyPerSession(inst, a)
    requires (t, p1) in a.x && (t, p2) in a.x && p1.1 == p2.1
    ensures p1 == p2
  {
    if p1 != p2 {
      assert t in inst.teachers && p1 in inst.active && p2 in inst.active;
      assert p1.0 in inst.rooms && p2.0 in inst.rooms && p1.1 in inst.sessions;
      assert p1 in ActiveSet(inst) && p2 in ActiveSet(inst);
      SessionDutiesCounted(t, p1.1, inst.rooms, ActiveSet(inst), a.x, p1.0, p2.0);
      assert false;
    }
  }

  /** Within one session a supervisor is not also a backup. */
  lemma SupervisorIsNotBackup(inst: Instance, a: Assignment, t: Teacher, p: Pair)
    requires WellFormed(inst) && InDomain(inst, a) && OneDutyPerSession(inst, a)
    requires (t, p) in a.x
    ensures (t, p.1) !in a.b
  {
    assert t in inst.teachers && p in inst.active;
    assert p.0 in inst.rooms && p.1 in inst.sessions && p in ActiveSet(inst);
    SessionDutyCounted(t, p.1, inst.rooms, ActiveSet(inst), a.x, p.0);
  }

  /** Because every deviation is -1, 0 or 1, the objective counts the
      teachers whose load is not the average. */
  lemma {:induction false} DeviationsCountOffAverage(inst: Instance, a: Assignment, ts: seq<Teacher>)
    requires WellFormed(inst) && LoadBounds(inst, a)
    requires forall t :: t in ts ==> t in inst.teachers
    ensures SquaredDeviations(inst, a, ts) == OffAverage(inst, a, ts)
    decreases |ts|
  {
    if ts != [] {
      var init, last := ts[..|ts| - 1], ts[|ts| - 1];
      assert last in ts;
      assert forall t :: t in init ==> t in ts;
      DeviationsCountOffAverage(inst, a, init);
      UnitStep(SquaredDeviations(inst, a, init), OffAverage(inst, a, init), Load(inst, a, last), Avg(inst));
    }
  }

  /** One more teacher whose load is within one of the average adds the
      same to the squared deviations as to the count of loads off it. */
  lemma UnitStep(sq: int, off: int, load: int, avg: int)
    requires sq == off && -1 <= load - avg <= 1
    ensures sq + (load - avg) * (load - avg) == off + if load != avg then 1 else 0
  {
    var d := load - avg;
    assert d == -1 || d == 0 || d == 1;
  }

  lemma ObjectiveCountsOffAverage(inst: Instance, a: Assignment)
    requires WellFormed(inst) && Satisfies(inst, a)
    ensures Objective(inst, a) == OffAverage(inst, a, inst.teachers)
    ensures 0 <= Objective(inst, a) <= |inst.teachers|
  {
    DeviationsCountOffAverage(inst, a, inst.teachers);
    OffAverageAtMost(inst, a, inst.teachers);
  }

  lemma {:induction false} OffAverageAtMost(inst: Instance, a: Assignment, ts: seq<Teacher>)
    requires WellFormed(inst)
    ensures OffAverage(inst, a, ts) <= |ts|
    decreases |ts|
  {
    if ts != [] {
      OffAverageAtMost(inst, a, ts[..|ts| - 1]);
    }
  }

  lemma {:induction false} TotalLoadByRows(inst: Instance, a: Assignment, ts: seq<Teacher>)
    ensures TotalLoad(inst, a, ts) == SumOfRows(ts, inst.active, a.x) + SumOfRows(ts, inst.sessions, a.b)
    decreases |ts|
  {
    if ts != [] {
      TotalLoadByRows(inst, a, ts[..|ts| - 1]);
    }
  }

  lemma {:induction false} BackupColumnsMeetQuotas(inst: Instance, a: Assignment, ss: seq<Session>)
    requires inst.ratio.den > 0
    requires forall s :: s in ss ==> |Column(inst.teachers, s, a.b)| == QuotaOf(inst, s)
    ensures SumOfColumns(inst.teachers, ss, a.b) == QuotaSum(inst, ss)
    decreases |ss|
  {
    if ss != [] {
      var init := ss[..|ss| - 1];
      assert forall s :: s in init ==> s in ss;
      BackupColumnsMeetQuotas(inst, a, init);
      assert ss[|ss| - 1] in ss;
    }
  }

  /** The loads of all teachers add up to the total number of slots. */
  lemma LoadsAddUpToTotalSlots(inst: Instance, a: Assignment)
    requires WellFormed(inst) && Coverage(inst, a) && BackupQuotas(inst, a)
    ensures TotalLoad(inst, a, inst.teachers) == TotalSlots(inst)
  {
    TotalLoadByRows(inst, a, inst.teachers);
    DoubleCounting(inst.teachers, inst.active, a.x);
    DoubleCounting(inst.teachers, inst.sessions, a.b);
    UniformColumns(inst.teachers, inst.active, a.x, 2);
    BackupColumnsMeetQuotas(inst, a, inst.sessions);
  }

  /** A satisfying assignment needs at least two teachers as soon as one pair is active. */
  lemma CoverageNeedsTwoTeachers(inst: Instance, a: Assignment)
    requires WellFormed(inst) && Coverage(inst, a) && |inst.active| > 0
    ensures |inst.teachers| >= 2
  {
    assert inst.active[0] in inst.active;
  }

  // ---------------------------------------------------------------------------
  // Capacity of one session

  /** The duties held during `s` by the teachers `ts`, added up. */
  function SessionLoad(inst: Instance, a: Assignment, s: Session, ts: seq<Teacher>): nat {
    if ts == [] then 0
    else
      var t := ts[|ts| - 1];
      SessionLoad(inst, a, s, ts[..|ts| - 1])
        + SessionDuties(t, s, inst.rooms, ActiveSet(inst), a.x) + BackupDuty(t, s, a.b)
  }

  /** The supervisors among `ts` of the rooms `rs` active during `s`, counted room by room. */
  function SupervisorsOfSession(inst: Instance, a: Assignment, s: Session, rs: seq<Room>, ts: seq<Teacher>): nat {
    if rs == [] then 0
    else
      var r := rs[|rs| - 1];
      SupervisorsOfSession(inst, a, s, rs[..|rs| - 1], ts)
        + if (r, s) in ActiveSet(inst) then |Column(ts, (r, s), a.x)| else 0
  }

  lemma {:induction false} SessionLoadAtMost(inst: Instance, a: Assignment, s: Session, ts: seq<Teacher>)
    requires OneDutyPerSession(inst, a) && s in inst.sessions
    requires forall t :: t in ts ==> t in inst.teachers
    ensures SessionLoad(inst, a, s, ts) <= |ts|
    decreases |ts|
  {
    if ts != [] {
      var init := ts[..|ts| - 1];
      assert forall t :: t in init ==> t in ts;
      SessionLoadAtMost(inst, a, s, init);
      assert ts[|ts| - 1] in ts;
    }
  }

  /** One more teacher adds that teacher's supervisions in `s` to the room-by-room count. */
  lemma {:induction false} SupervisorsOfSessionGainTeacher(inst: Instance, a: Assignment, s: Session, rs: seq<Room>, ts: seq<Teacher>)
    requires ts != []
    ensures SupervisorsOfSession(inst, a, s, rs, ts)
            == SupervisorsOfSession(inst, a, s, rs, ts[..|ts| - 1])
               + SessionDuties(ts[|ts| - 1], s, rs, ActiveSet(inst), a.x)
    decreases |rs|
  {
    if rs != [] {
      SupervisorsOfSessionGainTeacher(inst, a, s, rs[..|rs| - 1], ts);
    }
  }

  lemma {:induction false} SupervisorsOfNoTeachers(inst: Instance, a: Assignment, s: Session, rs: seq<Room>)
    ensures SupervisorsOfSession(inst, a, s, rs, []) == 0
    decreases |rs|
  {
    if rs != [] {
      SupervisorsOfNoTeachers(inst, a, s, rs[..|rs| - 1]);
    }
  }

  /** The duties of one session, counted teacher by teacher, are its
      supervisions counted room by room plus its backups. */
  lemma {:induction false} SessionLoadSplits(inst: Instance, a: Assignment, s: Session, ts: seq<Teacher>)
    ensures SessionLoad(inst, a, s, ts)
            == SupervisorsOfSession(inst, a, s, inst.rooms, ts) + |Column(ts, s, a.b)|
    decreases |ts|
  {
    if ts == [] {
      SupervisorsOfNoTeachers(inst, a, s, inst.rooms);
    } else {
      SessionLoadSplits(inst, a, s, ts[..|ts| - 1]);
      SupervisorsOfSessionGainTeacher(inst, a, s, inst.rooms, ts);
    }
  }

  lemma {:induction false} CoveredRoomsOfSession(inst: Instance, a: Assignment, s: Session, rs: seq<Room>)
    requires Coverage(inst, a)
    ensures SupervisorsOfSession(inst, a, s, rs, inst.teachers) == 2 * |Column(rs, s, ActiveSet(inst))|
    decreases |rs|
  {
    if rs != [] {
      var r := rs[|rs| - 1];
      CoveredRoomsOfSession(inst, a, s, rs[..|rs| - 1]);
      if (r, s) in ActiveSet(inst) {
        assert (r, s) in inst.active;
      }
    }
  }

  /** In a satisfying assignment every session finds two different
      supervisors for each of its active rooms and its quota of backups, all
      different teachers: a session needs that many teachers. */
  lemma SessionCapacity(inst: Instance, a: Assignment, s: Session)
    requires WellFormed(inst) && s in inst.sessions
    requires Coverage(inst, a) && OneDutyPerSession(inst, a) && BackupQuotas(inst, a)
    ensures 2 * RoomsPerSession(inst, s) + QuotaOf(inst, s) <= |inst.teachers|
  {
    SessionLoadAtMost(inst, a, s, inst.teachers);
    SessionLoadSplits(inst, a, s, inst.teachers);
    CoveredRoomsOfSession(inst, a, s, inst.rooms);
  }
}
