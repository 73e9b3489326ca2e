/** The teacher view's record filter: a date and a class criterion, where
    an empty criterion places no constraint. */
module Query {
  import opened Attendance
  import opened Sequences

  /** Whether a record passes the teacher's criteria. `None` stands for an
      empty date input; an empty class string is "all classes". */
  predicate Matches(r: Record, selectedDate: Option<Day>, selectedClass: string) {
    (selectedDate.None? || r.date == selectedDate.value)
    && (selectedClass == "" || r.studentClass == selectedClass)
  }

  function MatchesOf(selectedDate: Option<Day>, selectedClass: string): Record -> bool {
    (r: Record) => Matches(r, selectedDate, selectedClass)
  }

  /** The records shown to the teacher, in storage order: exactly the
      matching ones, each as often as it is stored, none reordered. */
  function FilterRecords(rs: seq<Record>, selectedDate: Option<Day>, selectedClass: string): (r: seq<Record>)
    ensures forall x :: x in r <==> x in rs && Matches(x, selectedDate, selectedClass)
    ensures forall x :: multiset(r)[x] == if Matches(x, selectedDate, selectedClass) then multiset(rs)[x] else 0
    ensures IsSubsequence(r, rs)
  {
    FilterIsSubsequence(rs, MatchesOf(selectedDate, selectedClass));
    FilterContents(rs, MatchesOf(selectedDate, selectedClass));
    Filter(rs, MatchesOf(selectedDate, selectedClass))
  }

  /** With both criteria empty the teacher sees the whole collection. */
  lemma NoCriteriaKeepsAll(rs: seq<Record>)
    ensures FilterRecords(rs, None, "") == rs
  {
    FilterAllKept(rs, MatchesOf(None, ""));
  }

  /** When every record matches, the teacher sees the whole collection. */
  lemma AllMatchingKept(rs: seq<Record>, selectedDate: Option<Day>, selectedClass: string)
    requires forall x :: x in rs ==> Matches(x, selectedDate, selectedClass)
    ensures FilterRecords(rs, selectedDate, selectedClass) == rs
  {
    FilterAllKept(rs, MatchesOf(selectedDate, selectedClass));
  }

  /** The two criteria combine independently: filtering by date alone and
      then by class alone gives the same records as filtering by both. */
  lemma CriteriaCompose(rs: seq<Record>, selectedDate: Option<Day>, selectedClass: string)
    ensures FilterRecords(FilterRecords(rs, selectedDate, ""), None, selectedClass)
         == FilterRecords(rs, selectedDate, selectedClass)
  {
    FilterConjunction(rs, MatchesOf(selectedDate, ""), MatchesOf(None, selectedClass),
                      MatchesOf(selectedDate, selectedClass));
  }
}
