/** The record store: the in-memory collection of attendance records, its
    durable copy in the browser's key-value storage, and the handlers that
    change or read it. */
module Store {
  import opened Attendance
  import opened Sequences
  import opened Query
  import opened Statistics
  import opened Display

  /** What the submit handler does with a candidate. */
  datatype SubmitOutcome = Accepted(record: Record) | MissingRequiredField

  /** The records left after deleting those with this id, in order. */
  function RemoveId(rs: seq<Record>, id: int): (r: seq<Record>)
    ensures forall x :: x in r <==> x in rs && x.id != id
    ensures forall x :: multiset(r)[x] == if x.id != id then multiset(rs)[x] else 0
    ensures IsSubsequence(r, rs)
  {
    FilterIsSubsequence(rs, (x: Record) => x.id != id);
    FilterContents(rs, (x: Record) => x.id != id);
    Filter(rs, (x: Record) => x.id != id)
  }

  /** Deleting an id no record carries changes nothing. */
  lemma RemoveAbsentId(rs: seq<Record>, id: int)
    requires forall x :: x in rs ==> x.id != id
    ensures RemoveId(rs, id) == rs
  {
    FilterAllKept(rs, (x: Record) => x.id != id);
  }

  /** A second delete of the same id changes nothing. */
  lemma RemoveIdTwice(rs: seq<Record>, id: int)
    ensures RemoveId(RemoveId(rs, id), id) == RemoveId(rs, id)
  {
    FilterIdempotent(rs, (x: Record) => x.id != id);
  }

  /** Every stored record carries its required fields. */
  predicate AllAdmissible(rs: seq<Record>) {
    forall x :: x in rs ==> IsAdmissible(x)
  }

  class RecordStore {
    /** The collection, in insertion order. */
    var records: seq<Record>
    /** The contents of the storage key: `None` while the key is absent. */
    ghost var persisted: Option<seq<Record>>

    /** In memory and in storage agree. */
    ghost predicate Synced()
      reads this
    {
      persisted == Some(records)
    }

    /** Startup: the stored collection, or an empty one when the key is
        absent. */
    constructor Load(stored: Option<seq<Record>>)
      ensures persisted == stored
      ensures records == (if stored.Some? then stored.value else [])
    {
      records := if stored.Some? then stored.value else [];
      persisted := stored;
    }

    /** The form's submit handler: a candidate missing a required field is
        rejected and nothing changes; otherwise the new record is appended
        and the whole collection is written back. */
    method Submit(c: Candidate, now: int, today: Day, stamp: string) returns (outcome: SubmitOutcome)
      modifies this
      ensures !IsComplete(c) ==> outcome == MissingRequiredField
                                 && records == old(records) && persisted == old(persisted)
      ensures IsComplete(c) ==> outcome == Accepted(NewRecord(c, now, today, stamp))
                                && records == old(records) + [outcome.record]
                                && Synced()
      ensures old(AllAdmissible(records)) ==> AllAdmissible(records)
    {
      var record := NewRecord(c, now, today, stamp);
      if !IsComplete(c) {
        return MissingRequiredField;
      }
      records := records + [record];
      persisted := Some(records);
      outcome := Accepted(record);
    }

    /** Deletes every record with this id once the teacher confirms, keeping
        the rest in order, and writes the collection back. */
    method Delete(id: int, confirmed: bool)
      modifies this
      ensures !confirmed ==> records == old(records) && persisted == old(persisted)
      ensures confirmed ==> records == RemoveId(old(records), id) && Synced()
      ensures confirmed ==> forall x :: x in records ==> x.id != id
      ensures old(AllAdmissible(records)) ==> AllAdmissible(records)
    {
      if confirmed {
        records := RemoveId(records, id);
        persisted := Some(records);
      }
    }

    /** Empties the collection once the teacher confirms, and writes the
        empty collection back. */
    method ClearAll(confirmed: bool)
      modifies this
      ensures !confirmed ==> records == old(records) && persisted == old(persisted)
      ensures confirmed ==> records == [] && Synced()
    {
      if confirmed {
        records := [];
        persisted := Some(records);
      }
    }

    /** The teacher view: the matching records, their counters and normal
        estimate, and the list as shown, newest first. */
    method TeacherView(selectedDate: Option<Day>, selectedClass: string)
      returns (stats: Stats, normal: nat, shown: seq<Record>)
      ensures stats == Tally(FilterRecords(records, selectedDate, selectedClass))
      ensures normal == NormalEstimate(stats)
      ensures multiset(shown) == multiset(FilterRecords(records, selectedDate, selectedClass))
      ensures DescendingById(shown)
    {
      var filtered := FilterRecords(records, selectedDate, selectedClass);
      stats, normal := UpdateStatistics(filtered);
      var a := new Record[|filtered|](k requires 0 <= k < |filtered| => filtered[k]);
      assert a[..] == filtered;
      SortForDisplay(a);
      shown := a[..];
    }

    /** The weekly rollup over the whole collection. */
    function WeeklyRollup(today: Day): (w: Statistics.Weekly)
      reads this
      ensures w.late + w.absent + w.early <= w.total <= |records|
    {
      WeeklyStats(records, today)
    }
  }

  /** The counters after a late submission on an empty store. */
  lemma FirstStepCounts(r1: Record, today: Day)
    requires r1.attendanceType == LATE && r1.date == today
    ensures Tally(FilterRecords([r1], Some(today), "")) == Stats(1, 0, 0)
    ensures NormalEstimate(Stats(1, 0, 0)) == 29
  {
    TallySingle(r1);
    AllMatchingKept([r1], Some(today), "");
  }

  /** The counters after an absent submission follows the late one. */
  lemma SecondStepCounts(r1: Record, r2: Record, today: Day)
    requires r1.attendanceType == LATE && r2.attendanceType == ABSENT
    requires r1.date == today && r2.date == today
    ensures Tally(FilterRecords([r1, r2], Some(today), "")) == Stats(1, 1, 0)
    ensures NormalEstimate(Stats(1, 1, 0)) == 28
  {
    assert Tally([r1]) == Stats(1, 0, 0) by { TallySingle(r1); }
    assert Tally([r2]) == Stats(0, 1, 0) by {
      assert ABSENT[0] != LATE[0];
      TallySingle(r2);
    }
    assert Tally([r1, r2]) == Stats(1, 1, 0) by {
      TallyAdditive([r1], [r2]);
      assert [r1] + [r2] == [r1, r2];
    }
    AllMatchingKept([r1, r2], Some(today), "");
  }

  /** Deleting the late record's id leaves only the absent one, and the
      counters revert. */
  lemma DeleteStepCounts(r1: Record, r2: Record, today: Day)
    requires r1.attendanceType == LATE && r2.attendanceType == ABSENT
    requires r2.date == today && r1.id != r2.id
    ensures RemoveId([r1, r2], r1.id) == [r2]
    ensures Tally(FilterRecords([r2], Some(today), "")) == Stats(0, 1, 0)
    ensures NormalEstimate(Stats(0, 1, 0)) == 29
  {
    assert [r1, r2][1..] == [r2];
    assert ABSENT[0] != LATE[0];
    TallySingle(r2);
    AllMatchingKept([r2], Some(today), "");
  }

  /** A client's walk through one day on a store that starts empty: a late
      submission, then an absent one; the counters follow each step. */
  method DayScenario(today: Day) returns (store: RecordStore, r1: Record, r2: Record)
    ensures fresh(store) && store.records == [r1, r2] && r1.id == 1000 && r2.id == 2000
    ensures r1.attendanceType == LATE && r2.attendanceType == ABSENT
    ensures r1.date == today && r2.date == today
  {
    store := new RecordStore.Load(None);
    var first := store.Submit(Candidate("Kim", "3-1", LATE, "overslept", ""), 1000, today, "t1");
    r1 := first.record;
    FirstStepCounts(r1, today);
    var stats, normal, shown := store.TeacherView(Some(today), "");
    assert stats == Stats(1, 0, 0) && normal == 29;

    var second := store.Submit(Candidate("Lee", "3-1", ABSENT, "sick", ""), 2000, today, "t2");
    r2 := second.record;
    assert store.records == [r1, r2];
    SecondStepCounts(r1, r2, today);
    stats, normal, shown := store.TeacherView(Some(today), "");
    assert stats == Stats(1, 1, 0) && normal == 28;
  }

  /** The same day continued: the teacher deletes the late record, and the
      counters revert. */
  method DeleteScenario(today: Day)
  {
    var store, r1, r2 := DayScenario(today);
    DeleteStepCounts(r1, r2, today);
    store.Delete(1000, true);
    var stats, normal, shown := store.TeacherView(Some(today), "");
    assert stats == Stats(0, 1, 0) && normal == 29;
  }
}
