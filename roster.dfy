/** The scheduler's inputs and the quantities derived from them before any
    duty is assigned: the number of active rooms per session, the backup quota
    of a session, the total number of duty slots and the average load. */
module Roster {
  import opened Counting

  type Teacher = string
  type Room = string
  type Session = string

  /** A (room, session) combination that needs supervision. */
  type Pair = (Room, Session)

  /** The backup ratio as the exact rational num / den. */
  datatype Ratio = Ratio(num: nat, den: nat)

  /** The ratio used when the caller gives none: 0.2. */
  const DefaultRatio := Ratio(1, 5)

  /** One scheduling request. `active` is the set of active pairs, listed in
      the order in which the set is iterated. */
  datatype Instance = Instance(
    teachers: seq<Teacher>,
    sessions: seq<Session>,
    rooms: seq<Room>,
    active: seq<Pair>,
    ratio: Ratio)

  /** What the scheduler relies on without checking it: at least one teacher
      (the average load divides by their number), no name listed twice, every
      active pair made of a listed room and a listed session, and a ratio with
      a positive denominator. */
  predicate WellFormed(inst: Instance) {
    && |inst.teachers| > 0
    && Distinct(inst.teachers)
    && Distinct(inst.sessions)
    && Distinct(inst.rooms)
    && Distinct(inst.active)
    && (forall p :: p in inst.active ==> p.0 in inst.rooms && p.1 in inst.sessions)
    && inst.ratio.den > 0
  }

  function ActiveSet(inst: Instance): set<Pair> {
    set p | p in inst.active
  }

  /** Rounding up `n / d`. */
  function CeilDiv(n: nat, d: nat): (r: nat)
    requires d > 0
    ensures r * d >= n
    ensures (r - 1) * d < n || (n == 0 && r == 0)
  {
    (n + d - 1) / d
  }

  /** The backup quota of a session with `k` active rooms: the float
      expression `2 * k * ratio + 0.999`, truncated to an integer. Over the
      rationals, 0.999 = 999 / 1000. */
  function BackupQuota(k: nat, ratio: Ratio): (q: nat)
    requires ratio.den > 0
    ensures q * (1000 * ratio.den) <= 2000 * k * ratio.num + 999 * ratio.den
    ensures 2000 * k * ratio.num + 999 * ratio.den < (q + 1) * (1000 * ratio.den)
    ensures k == 0 || ratio.num == 0 ==> q == 0
  {
    QuotaIsFloor(k, ratio);
    (2000 * k * ratio.num + 999 * ratio.den) / (1000 * ratio.den)
  }

  /** The number of listed rooms active during session `s`. */
  function RoomsPerSession(inst: Instance, s: Session): (n: nat)
    ensures n <= |inst.rooms|
    ensures n == 0 <==> forall r :: r in inst.rooms ==> (r, s) !in inst.active
  {
    var c := Column(inst.rooms, s, ActiveSet(inst));
    assert c != [] ==> c[0] in c;
    |c|
  }

  /** The backup quota of session `s`: none for a session without active
      rooms or for a zero ratio, and at most two per room for a ratio of at
      most one. */
  function QuotaOf(inst: Instance, s: Session): (q: nat)
    requires inst.ratio.den > 0
    ensures RoomsPerSession(inst, s) == 0 || inst.ratio.num == 0 ==> q == 0
    ensures inst.ratio.num <= inst.ratio.den ==> q <= 2 * RoomsPerSession(inst, s)
  {
    var k := RoomsPerSession(inst, s);
    if inst.ratio.num <= inst.ratio.den then
      QuotaAtMostSupervisors(k, inst.ratio);
      BackupQuota(k, inst.ratio)
    else
      BackupQuota(k, inst.ratio)
  }

  /** The backup quotas of the sessions `ss`, added up. */
  function QuotaSum(inst: Instance, ss: seq<Session>): (n: nat)
    requires inst.ratio.den > 0
    ensures inst.ratio.num == 0 ==> n == 0
    decreases |ss|
  {
    if ss == [] then 0
    else
      var init, last := ss[..|ss| - 1], ss[|ss| - 1];
      assert ss == init + [last];
      QuotaSum(inst, init) + QuotaOf(inst, last)
  }

  /** Every duty the schedule must fill: two supervisors per active pair and
      each session's backups. With a zero ratio only the supervisors remain. */
  function TotalSlots(inst: Instance): (n: nat)
    requires inst.ratio.den > 0
    ensures n >= 2 * |inst.active|
    ensures inst.ratio.num == 0 ==> n == 2 * |inst.active|
  {
    2 * |inst.active| + QuotaSum(inst, inst.sessions)
  }

  /** The target load: total slots over the number of teachers, rounded up. */
  function Avg(inst: Instance): (avg: nat)
    requires WellFormed(inst)
    ensures avg * |inst.teachers| >= TotalSlots(inst)
    ensures (avg - 1) * |inst.teachers| < TotalSlots(inst) || (TotalSlots(inst) == 0 && avg == 0)
  {
    CeilDiv(TotalSlots(inst), |inst.teachers|)
  }

  lemma QuotaIsFloor(k: nat, ratio: Ratio)
    requires ratio.den > 0
    ensures var top, bottom := 2000 * k * ratio.num + 999 * ratio.den, 1000 * ratio.den;
            (top / bottom) * bottom <= top < (top / bottom + 1) * bottom
            && (k == 0 || ratio.num == 0 ==> top / bottom == 0)
  {
    var top, bottom := 2000 * k * ratio.num + 999 * ratio.den, 1000 * ratio.den;
    DivisionBounds(top, bottom);
    if k == 0 || ratio.num == 0 {
      assert top == 999 * ratio.den;
      DivisionIsUnique(top, bottom, 0);
    }
  }

  lemma DivisionBounds(n: nat, d: nat)
    requires d > 0
    ensures (n / d) * d <= n < (n / d + 1) * d
  {
    assert n == (n / d) * d + n % d;
  }

  lemma DivisionIsUnique(n: nat, d: nat, q: nat)
    requires d > 0 && q * d <= n < (q + 1) * d
    ensures n / d == q
  {
    DivisionBounds(n, d);
  }

  /** The quota is not the ceiling of `2 * k * ratio`: it falls one short of
      it exactly when that product has a fractional part strictly between 0
      and 1/1000, and equals it otherwise. */
  lemma QuotaVersusCeiling(k: nat, ratio: Ratio)
    requires ratio.den > 0
    ensures var n, d := 2 * k * ratio.num, ratio.den;
            var frac := n % d;
            BackupQuota(k, ratio) == if 0 < 1000 * frac < d then CeilDiv(n, d) - 1 else CeilDiv(n, d)
  {
    var n := 2 * k * ratio.num;
    assert 2000 * k * ratio.num == 1000 * n;
    ShiftedFloorVersusCeiling(n, ratio.den);
  }

  /** `floor(n / d + 999 / 1000)` against `ceil(n / d)`. */
  lemma ShiftedFloorVersusCeiling(n: nat, d: nat)
    requires d > 0
    ensures (1000 * n + 999 * d) / (1000 * d)
            == if 0 < 1000 * (n % d) < d then CeilDiv(n, d) - 1 else CeilDiv(n, d)
  {
    var whole, frac := n / d, n % d;
    DivisionBounds(n, d);
    assert n == whole * d + frac;
    ShiftedFloor(whole, frac, d);
    Ceiling(whole, frac, d);
  }

  lemma ShiftedFloor(whole: nat, frac: nat, d: nat)
    requires frac < d
    ensures var n := whole * d + frac;
            (1000 * n + 999 * d) / (1000 * d) == if 1000 * frac < d then whole else whole + 1
  {
    var n := whole * d + frac;
    var top, bottom := 1000 * n + 999 * d, 1000 * d;
    var wb := whole * bottom;
    assert wb == 1000 * (whole * d);
    assert top == wb + 1000 * frac + 999 * d;
    assert (whole + 1) * bottom == wb + bottom;
    assert (whole + 2) * bottom == wb + 2 * bottom;
    if 1000 * frac < d {
      DivisionIsUnique(top, bottom, whole);
    } else {
      DivisionIsUnique(top, bottom, whole + 1);
    }
  }

  lemma Ceiling(whole: nat, frac: nat, d: nat)
    requires frac < d
    ensures CeilDiv(whole * d + frac, d) == if frac == 0 then whole else whole + 1
  {
    var n := whole * d + frac;
    var wd := whole * d;
    assert (whole + 1) * d == wd + d;
    assert (whole + 2) * d == wd + 2 * d;
    if frac == 0 {
      DivisionIsUnique(n + d - 1, d, whole);
    } else {
      DivisionIsUnique(n + d - 1, d, whole + 1);
    }
  }

  /** With a ratio of at most one, a session never needs more backups than
      it has supervisors. */
  lemma QuotaAtMostSupervisors(k: nat, ratio: Ratio)
    requires 0 < ratio.den && ratio.num <= ratio.den
    ensures BackupQuota(k, ratio) <= 2 * k
  {
    var q, bottom := BackupQuota(k, ratio), 1000 * ratio.den;
    var top := 2000 * k * ratio.num + 999 * ratio.den;
    assert k * ratio.num <= k * ratio.den by {
      MulMonotone(k, ratio.num, ratio.den);
    }
    assert (2 * k + 1) * bottom == 2000 * (k * ratio.den) + bottom;
    assert top < (2 * k + 1) * bottom;
    assert q * bottom <= top;
    FactorLess(q, 2 * k + 1, bottom);
  }

  /** Cancelling a positive factor from a strict inequality. */
  lemma FactorLess(a: nat, b: nat, c: nat)
    requires a * c < b * c
    ensures a < b
  {
    if b <= a {
      MulMonotone(c, b, a);
    }
  }

  lemma MulMonotone(a: nat, b: nat, c: nat)
    requires b <= c
    ensures a * b <= a * c
  {
  }

  /** The default ratio 0.2 asks one backup for a session with one active
      room; a ratio of 1/4000 asks none for it, where a ceiling would ask one. */
  lemma QuotaExamples()
    ensures BackupQuota(1, DefaultRatio) == 1
    ensures BackupQuota(1, Ratio(1, 4000)) == 0 && CeilDiv(2, 4000) == 1
  {
  }
}
