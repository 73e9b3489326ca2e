/** The teacher view's per-category counts, the heuristic normal-attendance
    estimate and the weekly rollup. */
module Statistics {
  import opened Attendance
  import opened Sequences

  /** The fixed class size the normal-attendance estimate assumes; there is
      no roster behind it. */
  const ROSTER_SIZE: nat := 30

  /** The weekly rollup looks this many days back from today. */
  const WEEK_DAYS: nat := 7

  /** The three counters of the statistics panel. */
  datatype Stats = Stats(late: nat, absent: nat, early: nat)

  function Exceptions(s: Stats): nat {
    s.late + s.absent + s.early
  }

  function Plus(a: Stats, b: Stats): Stats {
    Stats(a.late + b.late, a.absent + b.absent, a.early + b.early)
  }

  /** The number of records of `rs` that fall into bucket `b`, counted from
      the front as the statistics loop does. */
  function CountOf(rs: seq<Record>, b: Bucket): nat
    decreases |rs|
  {
    if rs == [] then 0
    else CountOf(rs[..|rs| - 1], b) + (if BucketOf(rs[|rs| - 1].attendanceType) == b then 1 else 0)
  }

  /** The counters the statistics panel shows for `rs`. */
  function Tally(rs: seq<Record>): Stats {
    Stats(CountOf(rs, LateBucket), CountOf(rs, AbsentBucket), CountOf(rs, EarlyBucket))
  }

  /** Each record lands in at most one bucket, so the three counters never
      add up to more than the number of records. */
  lemma {:induction false} TallyBounded(rs: seq<Record>)
    ensures Exceptions(Tally(rs)) <= |rs|
    decreases |rs|
  {
    if rs != [] {
      TallyBounded(rs[..|rs| - 1]);
    }
  }

  /** Counting is additive over concatenation. */
  lemma {:induction false} CountAdditive(a: seq<Record>, b: seq<Record>, k: Bucket)
    ensures CountOf(a + b, k) == CountOf(a, k) + CountOf(b, k)
    decreases |b|
  {
    if b == [] {
      assert a + b == a;
    } else {
      var b' := b[..|b| - 1];
      assert (a + b)[..|a + b| - 1] == a + b';
      assert (a + b)[|a + b| - 1] == b[|b| - 1];
      CountAdditive(a, b', k);
    }
  }

  /** The statistics of two record sequences put together are the sums of
      their statistics. */
  lemma TallyAdditive(a: seq<Record>, b: seq<Record>)
    ensures Tally(a + b) == Plus(Tally(a), Tally(b))
  {
    CountAdditive(a, b, LateBucket);
    CountAdditive(a, b, AbsentBucket);
    CountAdditive(a, b, EarlyBucket);
    assert Tally(a + b) == Stats(CountOf(a + b, LateBucket), CountOf(a + b, AbsentBucket), CountOf(a + b, EarlyBucket));
  }

  /** The counters of a single record: one in its own bucket, if any. */
  lemma TallySingle(r: Record)
    ensures Tally([r]) == Stats(if BucketOf(r.attendanceType) == LateBucket then 1 else 0,
                                if BucketOf(r.attendanceType) == AbsentBucket then 1 else 0,
                                if BucketOf(r.attendanceType) == EarlyBucket then 1 else 0)
  {
    var s := [r];
    assert s[..0] == [] && s[0] == r;
    assert CountOf(s, LateBucket) == CountOf(s[..0], LateBucket) + (if BucketOf(r.attendanceType) == LateBucket then 1 else 0);
    assert CountOf(s, AbsentBucket) == CountOf(s[..0], AbsentBucket) + (if BucketOf(r.attendanceType) == AbsentBucket then 1 else 0);
    assert CountOf(s, EarlyBucket) == CountOf(s[..0], EarlyBucket) + (if BucketOf(r.attendanceType) == EarlyBucket then 1 else 0);
  }

  /** Counting a bucket is the same as taking the length of the records
      selected for it. */
  lemma {:induction false} CountIsFilterLength(rs: seq<Record>, b: Bucket)
    ensures CountOf(rs, b) == |Filter(rs, InBucket(b))|
    decreases |rs|
  {
    if rs != [] {
      var init := rs[..|rs| - 1];
      var last := rs[|rs| - 1];
      CountIsFilterLength(init, b);
      assert rs == init + [last];
      FilterConcat(init, [last], InBucket(b));
      FilterSingle(last, InBucket(b));
      assert InBucket(b)(last) == (BucketOf(last.attendanceType) == b);
    }
  }

  /** The early counter counts both the early-leave and the outing label. */
  lemma EarlyCountsBothLabels(rs: seq<Record>)
    ensures CountOf(rs, EarlyBucket) == |Filter(rs, HasLabel(EARLY_LEAVE))| + |Filter(rs, HasLabel(OUTING))|
  {
    assert EARLY_LEAVE != OUTING;
    CountIsFilterLength(rs, EarlyBucket);
    FilterDisjointUnion(rs, HasLabel(EARLY_LEAVE), HasLabel(OUTING), InBucket(EarlyBucket));
  }

  /** The estimated number of normally attending students: the roster size
      minus the exceptions, never below zero. */
  function NormalEstimate(s: Stats): (n: nat)
    ensures n <= ROSTER_SIZE
    ensures n == 0 <==> Exceptions(s) >= ROSTER_SIZE
    ensures n != 0 ==> n + Exceptions(s) == ROSTER_SIZE
  {
    if Exceptions(s) >= ROSTER_SIZE then 0 else ROSTER_SIZE - Exceptions(s)
  }

  /** The statistics panel's computation: one pass over the records
      incrementing the matching counter, then the clamped estimate. */
  method UpdateStatistics(records: seq<Record>) returns (stats: Stats, normal: nat)
    ensures stats == Tally(records)
    ensures Exceptions(stats) <= |records|
    ensures normal == NormalEstimate(stats)
  {
    stats := Stats(0, 0, 0);
    var i := 0;
    while i < |records|
      invariant 0 <= i <= |records|
      invariant stats == Tally(records[..i])
    {
      var record := records[i];
      assert records[..i + 1][..i] == records[..i];
      if record.attendanceType == LATE {
        stats := stats.(late := stats.late + 1);
      } else if record.attendanceType == ABSENT {
        stats := stats.(absent := stats.absent + 1);
      } else if record.attendanceType == EARLY_LEAVE || record.attendanceType == OUTING {
        stats := stats.(early := stats.early + 1);
      }
      i := i + 1;
    }
    assert records[..i] == records;
    TallyBounded(records);
    var rest := ROSTER_SIZE - stats.late - stats.absent - stats.early;
    normal := if rest > 0 then rest else 0;
  }

  /** The weekly window: the seven days before today and today itself. */
  predicate InWeek(d: Day, today: Day) {
    today - WEEK_DAYS <= d <= today
  }

  function InWeekOf(today: Day): Record -> bool {
    (r: Record) => InWeek(r.date, today)
  }

  /** The weekly rollup's figures. */
  datatype Weekly = Weekly(total: nat, late: nat, absent: nat, early: nat)

  /** The weekly rollup over the whole collection: the records dated inside
      the window, and among them the lengths of the per-label selections.
      Its figures are exactly the statistics panel's counts for the window. */
  function WeeklyStats(rs: seq<Record>, today: Day): (w: Weekly)
    ensures w.total == |Filter(rs, InWeekOf(today))| <= |rs|
    ensures Stats(w.late, w.absent, w.early) == Tally(Filter(rs, InWeekOf(today)))
    ensures w.late + w.absent + w.early <= w.total
  {
    var week := Filter(rs, InWeekOf(today));
    var early := (r: Record) => r.attendanceType == EARLY_LEAVE || r.attendanceType == OUTING;
    FilterAgrees(week, HasLabel(LATE), InBucket(LateBucket));
    FilterAgrees(week, HasLabel(ABSENT), InBucket(AbsentBucket));
    FilterAgrees(week, early, InBucket(EarlyBucket));
    CountIsFilterLength(week, LateBucket);
    CountIsFilterLength(week, AbsentBucket);
    CountIsFilterLength(week, EarlyBucket);
    TallyBounded(week);
    Weekly(|week|, |Filter(week, HasLabel(LATE))|, |Filter(week, HasLabel(ABSENT))|, |Filter(week, early)|)
  }
}
