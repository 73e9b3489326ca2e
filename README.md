# Attendance-exception record store, modelled in Dafny

The application is a single browser script (`script.js`). Students submit
attendance exceptions: late (지각), absent (결석), early leave (조퇴) and
outing (외출). Teachers see these records filtered by date and class, read
per-category counters and an estimated "normal attendance" figure, and
delete records one by one or all at once. The records live in one global
array that is mirrored into the browser's key-value storage after every
change. There is also a weekly rollup.

This project models that core in Dafny:

- `attendance.dfy` (module `Attendance`): the record and the form
  candidate, the submit guard, the four category labels, and the mapping
  from label to statistics bucket. Early leave and outing share one bucket.
- `sequences.dfy` (module `Sequences`): an order-preserving `Filter`, which
  models `Array.prototype.filter`, with its lemmas (subsequence, contents,
  concatenation, idempotence, conjunction).
- `query.dfy` (module `Query`): the teacher view's date/class filter.
- `statistics.dfy` (module `Statistics`): the counting loop of the
  statistics panel, the count specification `CountOf`/`Tally` and its
  laws, the clamped normal estimate, and the weekly rollup.
- `display.dfy` (module `Display`): the newest-first sort, done in place on
  an array as `records.sort` does it.
- `store.dfy` (module `Store`): the `RecordStore` class. It holds the
  collection as `records: seq<Record>` and the storage key's contents as the
  ghost field `persisted`. Its methods are the submit handler, the delete
  handler, the clear-all handler, the teacher view and the weekly rollup.
  Two client methods walk through one day: two submissions, then one deletion.

Modelling decisions:

- Dates are integer day numbers (`Day`). The script compares ISO
  `YYYY-MM-DD` strings, and equality and order of those agree with equality
  and order of day numbers.
- The date input of the teacher filter is `Option<Day>`: `None` stands for
  the empty input, which places no constraint. The class criterion stays a
  string, and `""` means "all classes", as in the script.
- The clock readings (`Date.now()` for `id`, today's date, the localized
  `timestamp` text) are parameters of `Submit`. "Today" is a parameter of
  the weekly rollup.
- The `confirm` prompt in front of delete and clear-all is a `confirmed`
  parameter. When it is false, nothing changes.
- `persisted` is `None` while the storage key is absent. Loading from an
  absent key gives an empty collection. After every mutation,
  `persisted == Some(records)` holds (`Synced()`).
- Ids are not claimed unique, because `Date.now()` does not guarantee it.
  A delete removes every record that carries the id, exactly as the
  script's `filter` does.

Two further behaviours of the code:

- The delete handler returns nothing; it does not report whether a record
  was removed.
- The weekly rollup reads the whole collection, not the filtered view.

## Model

| member | source | states |
|---|---|---|
| `Attendance.NewRecord` | script.js:50-59 | the built record takes its id from the clock reading, its date from today and its timestamp from the time text; name, class, category, reason and memo are copied from the form; it passes the required-field check exactly when the candidate is complete |
| `Attendance.BucketOf` | script.js:110-116 | a label is in the late bucket iff it is 지각, in the absent bucket iff it is 결석, in the early bucket iff it is 조퇴 or 외출; any other label is in no bucket |
| `Sequences.Filter` | script.js:88-92 | the selection is no longer than its input, and every element it keeps satisfies the predicate |
| `Sequences.FilterContents` | script.js:88-92 | an element is kept iff it is in the input and satisfies the predicate, with its full multiplicity |
| `Sequences.FilterIsSubsequence` | script.js:88-92 | the selection is a subsequence of the input, so relative order is kept |
| `Sequences.FilterIdempotent` | script.js:162 | a general law of the filter: selecting twice by the same predicate equals selecting once (the basis of `Store.RemoveIdTwice`) |
| `Query.FilterRecords` | script.js:88-92 | a record is shown iff (no date given or its date equals it) and (no class given or its class equals it); multiplicities are kept and the result is a subsequence of the collection |
| `Query.NoCriteriaKeepsAll` | script.js:89-90 | with both criteria empty, the whole collection is returned unchanged |
| `Query.AllMatchingKept` | script.js:88-92 | when every record matches, the filter returns the collection itself |
| `Query.CriteriaCompose` | script.js:89-91 | filtering by date alone and then by class alone gives the same result as filtering by both |
| `Statistics.TallyBounded` | script.js:109-117 | late + absent + early never exceeds the number of records |
| `Statistics.CountAdditive` | script.js:109-117 | each bucket's count over a concatenation is the sum of the counts over the parts |
| `Statistics.TallyAdditive` | script.js:109-117 | the three counters of a concatenation are the component-wise sums |
| `Statistics.TallySingle` | script.js:109-117 | a single record adds one to its own bucket's counter and nothing to the others |
| `Statistics.CountIsFilterLength` | script.js:216-218 | counting a bucket equals the length of the selection of that bucket's records |
| `Statistics.EarlyCountsBothLabels` | script.js:114-115 | the early counter is the number of 조퇴 records plus the number of 외출 records |
| `Statistics.NormalEstimate` | script.js:124 | the estimate is between 0 and 30; it is 0 iff the exceptions reach 30, and otherwise it is 30 minus the exceptions |
| `Statistics.UpdateStatistics` | script.js:102-125 | the loop's counters equal the count specification of the records; their sum is at most the number of records; the normal figure is the clamped estimate |
| `Statistics.WeeklyStats` | script.js:205-220 | `total` is the number of records dated in [today-7, today]; late, absent and early equal the statistics counters of those records; their sum is at most `total` |
| `Display.SortForDisplay` | script.js:137 | after the in-place sort the array is ordered by id, non-increasing, and is a permutation of its former contents |
| `Store.RemoveId` | script.js:162 | no record with the id survives; every other record survives with its multiplicity; survivors keep their relative order |
| `Store.RemoveAbsentId` | script.js:162 | deleting an id that no record carries changes nothing |
| `Store.RemoveIdTwice` | script.js:162 | a second delete of the same id changes nothing |
| `Store.RecordStore.Load` | script.js:3 | the collection is the stored one, or empty when the key is absent; the storage is unchanged |
| `Store.RecordStore.Submit` | script.js:46-80 | an incomplete candidate is rejected and the collection and storage are unchanged; a complete one appends exactly one record at the end, leaves earlier records untouched and writes the new collection to storage; admissibility of all stored records is preserved |
| `Store.RecordStore.Delete` | script.js:160-166 | once confirmed, the collection becomes `RemoveId` of the old one, no record with the id remains, and storage equals memory; unconfirmed, nothing changes |
| `Store.RecordStore.ClearAll` | script.js:169-176 | once confirmed, the collection is empty whatever its size and storage equals memory; unconfirmed, nothing changes |
| `Store.RecordStore.TeacherView` | script.js:83-99 | the counters are the tally of the filtered records; the normal figure is their clamped estimate; the shown list is a permutation of the filtered records, newest id first |
| `Store.RecordStore.WeeklyRollup` | script.js:205-220 | the rollup over the whole collection has late + absent + early <= total <= the collection's size |
| `Store.FirstStepCounts` | script.js:109-124 | a single late record of the selected day gives counters (1,0,0) and estimate 29 |
| `Store.SecondStepCounts` | script.js:109-124 | a late and an absent record of the selected day give counters (1,1,0) and estimate 28 |
| `Store.DeleteStepCounts` | script.js:162 | deleting the late record's id leaves only the absent record, whose counters are (0,1,0) with estimate 29 |

## Left out

- The DOM: element lookups, role switching, form reset, HTML templating of
  the record list, and the keyboard shortcuts. These are presentation only.
- The `alert` messages. The invalid submission's alert is the
  `MissingRequiredField` outcome; the prompts in front of delete and
  clear-all are the `confirmed` parameter.
- `localStorage`, `JSON.parse` and `JSON.stringify`. These are browser APIs
  and are represented only by the ghost `persisted` field. A failing
  `setItem` and a stored value that is not an array are not modelled.
- The clocks: `Date.now()`, `toISOString()` and `toLocaleString('ko-KR')`.
  Their readings are inputs.
- The re-render calls that follow each mutation (`updateTeacherView`). The
  teacher view is modelled as its own method.
- The CSV export. It builds a download link and URI-encodes an unescaped
  row template, so there is no round trip to state.
- Statistics.WeeklyStats: the window is the inclusive day range
  [today-7, today]. The script compares a record's date at UTC midnight with
  the instant seven days before now, so unless "now" is exactly midnight
  the oldest day in its window is today-6. That sub-day detail is not modelled.
- Store.RecordStore.WeeklyRollup: the window is the inclusive day range
  [today-7, today]. The script compares a record's date at UTC midnight with
  the instant seven days before now, so unless "now" is exactly midnight
  the oldest day in its window is today-6. That sub-day detail is not modelled.
- Display.SortForDisplay: proves the order and the permutation, but not the
  stability that JavaScript's `sort` also guarantees. It also sorts an empty
  list, where the script returns early before sorting; the result is the same.
- Identifiers and counters are unbounded integers. The script's
  floating-point numbers behave the same for the values they take.
