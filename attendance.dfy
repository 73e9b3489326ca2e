/** The attendance-exception record and the submission form's values. */
module Attendance {

  datatype Option<T> = None | Some(value: T)

  /** A calendar date as a day number (days since a fixed epoch). The
      application compares ISO `YYYY-MM-DD` strings, whose equality and
      order agree with those of day numbers. */
  type Day = int

  /** The four category labels the form offers. */
  const LATE: string := "지각"
  const ABSENT: string := "결석"
  const EARLY_LEAVE: string := "조퇴"
  const OUTING: string := "외출"

  /** One submitted exception. `id` is the creation instant in
      milliseconds, `date` the submission day, `timestamp` the localized
      submission time shown to the teacher. */
  datatype Record = Record(
    id: int,
    studentName: string,
    studentClass: string,
    attendanceType: string,
    reason: string,
    memo: string,
    date: Day,
    timestamp: string)

  /** The values read from the submission form; an unselected category
      arrives as the empty string. */
  datatype Candidate = Candidate(
    studentName: string,
    studentClass: string,
    attendanceType: string,
    reason: string,
    memo: string)

  /** The submit handler's guard: the four required fields are non-empty;
      the memo may be empty. */
  predicate IsComplete(c: Candidate) {
    c.studentName != "" && c.studentClass != "" && c.attendanceType != "" && c.reason != ""
  }

  /** A stored record that would have passed the submit guard. */
  predicate IsAdmissible(r: Record) {
    r.studentName != "" && r.studentClass != "" && r.attendanceType != "" && r.reason != ""
  }

  /** The record the submit handler builds from a candidate, the clock
      reading `now`, the current day and the localized time text. */
  function NewRecord(c: Candidate, now: int, today: Day, stamp: string): (r: Record)
    ensures IsAdmissible(r) <==> IsComplete(c)
    ensures r.id == now && r.date == today && r.timestamp == stamp && r.memo == c.memo
    ensures r.studentName == c.studentName && r.studentClass == c.studentClass
    ensures r.attendanceType == c.attendanceType && r.reason == c.reason
  {
    Record(now, c.studentName, c.studentClass, c.attendanceType, c.reason, c.memo, today, stamp)
  }

  /** The statistics bucket a category label falls into: early leave and
      outing share one bucket, any other category falls into none. */
  datatype Bucket = LateBucket | AbsentBucket | EarlyBucket | NoBucket

  function BucketOf(category: string): (b: Bucket)
    ensures b == LateBucket <==> category == LATE
    ensures b == AbsentBucket <==> category == ABSENT
    ensures b == EarlyBucket <==> category == EARLY_LEAVE || category == OUTING
  {
    if category == LATE then LateBucket
    else if category == ABSENT then AbsentBucket
    else if category == EARLY_LEAVE || category == OUTING then EarlyBucket
    else NoBucket
  }

  /** The selection "record falls into bucket `b`", as a predicate value. */
  function InBucket(b: Bucket): Record -> bool {
    (r: Record) => BucketOf(r.attendanceType) == b
  }

  /** The selection "record carries exactly this category label". */
  function HasLabel(category: string): Record -> bool {
    (r: Record) => r.attendanceType == category
  }
}
