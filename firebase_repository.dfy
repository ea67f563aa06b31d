/** The repository's local caches of transactions, students and events and
    the offline queue it falls back on. Each mutation updates the cache
    first; then, online, the Firebase call is made (its outcome is a
    parameter) and, offline or on a failed save, the operation is queued.
    Firebase itself, the connectivity check, the random UUIDs, the clock and
    Gson are parameters: `online`, `saved`, the ids, `now` and `encode`. */
module FirebaseRepository {
  import opened Wrappers
  import opened Data
  import opened Sorting
  import opened Text
  import OQ = OfflineQueue

  function TransactionId(t: Transaction): int { t.id }
  function StudentId(s: WTStudent): int { s.id }
  function EventId(e: Event): int { e.id }

  // ---------------------------------------------------------- upsert by id

  /** Replace the first element with `x`'s id by `x`, or append `x` when
      there is none (the indexOfFirst / set-or-add pattern). */
  function Upsert<T>(s: seq<T>, x: T, id: T -> int): (r: seq<T>)
    ensures |s| <= |r| <= |s| + 1
    ensures x in r
    ensures forall j :: 0 <= j < |s| && id(s[j]) != id(x) ==> r[j] == s[j]
    ensures id(x) !in Keys(s, id) ==> r == s + [x]
  {
    var i := FirstIndex(s, id, id(x));
    if i != -1 then
      assert forall j :: 0 <= j < |s| ==> s[i := x][j] == (if j == i then x else s[j]);
      s[i := x]
    else s + [x]
  }

  /** Upserting adds x's id to the ids and no other. */
  lemma UpsertKeys<T>(s: seq<T>, x: T, id: T -> int)
    ensures Keys(Upsert(s, x, id), id) == Keys(s, id) + {id(x)}
  {
    var i := FirstIndex(s, id, id(x));
    if i != -1 {
      var r := s[i := x];
      forall k | k in Keys(r, id) ensures k in Keys(s, id) {
        var j :| 0 <= j < |r| && id(r[j]) == k;
        assert id(s[j]) == k;
      }
      forall k | k in Keys(s, id) ensures k in Keys(r, id) {
        var j :| 0 <= j < |s| && id(s[j]) == k;
        assert id(r[j]) == k;
      }
    } else {
      assert (s + [x])[..|s|] == s;
    }
  }

  /** The set-or-add code: `indexOfFirst` on the id, then `set` at that
      index or `add` at the end. */
  method SetOrAdd<T>(list: seq<T>, x: T, id: T -> int) returns (r: seq<T>)
    ensures r == Upsert(list, x, id)
  {
    var index := FirstIndex(list, id, id(x));
    if index != -1 {
      r := list[index := x];
    } else {
      r := list + [x];
    }
  }

  /** Upserting keeps distinct ids distinct. */
  lemma UpsertDistinct<T>(s: seq<T>, x: T, id: T -> int)
    requires DistinctKeys(s, id)
    ensures DistinctKeys(Upsert(s, x, id), id)
  {
    var i := FirstIndex(s, id, id(x));
    var r := Upsert(s, x, id);
    if i == -1 {
      assert r == s + [x];
    } else {
      forall a, b | 0 <= a < b < |r| ensures id(r[a]) != id(r[b]) {
        assert r[a] == (if a == i then x else s[a]);
        assert r[b] == (if b == i then x else s[b]);
      }
    }
  }

  /** Upserting the same element twice is upserting it once. */
  lemma UpsertIdempotent<T>(s: seq<T>, x: T, id: T -> int)
    ensures Upsert(Upsert(s, x, id), x, id) == Upsert(s, x, id)
  {
    var i := FirstIndex(s, id, id(x));
    var r := Upsert(s, x, id);
    if i == -1 {
      FirstIndexIs(r, id, id(x), |s|);
      assert r[|s| := x] == r;
    } else {
      FirstIndexIs(r, id, id(x), i);
      assert r[i := x] == r;
    }
  }

  /** `removeIf { it.id == id }`. */
  function WithoutId<T>(s: seq<T>, id: T -> int, k: int): (r: seq<T>)
    ensures k !in Keys(r, id)
    ensures forall j :: 0 <= j < |s| && id(s[j]) != k ==> s[j] in r
    ensures forall j :: 0 <= j < |r| ==> r[j] in s
  {
    Filter(s, (y: T) => id(y) != k)
  }

  // ---------------------------------------------------------- totals

  function Sum(s: seq<Transaction>): real {
    if s == [] then 0.0 else Sum(s[..|s| - 1]) + s[|s| - 1].amount
  }

  lemma {:induction false} SumConcat(a: seq<Transaction>, b: seq<Transaction>)
    ensures Sum(a + b) == Sum(a) + Sum(b)
    decreases |b|
  {
    if b != [] {
      assert (a + b)[..|a + b| - 1] == a + b[..|b| - 1];
      SumConcat(a, b[..|b| - 1]);
    } else {
      assert a + b == a;
    }
  }

  function IsOfType(isIncome: bool): Transaction -> bool {
    (t: Transaction) => t.isIncome == isIncome
  }

  /** getTotalByType, on a given list. */
  function TotalByType(s: seq<Transaction>, isIncome: bool): real {
    Sum(Filter(s, IsOfType(isIncome)))
  }

  /** Income and expense totals add up to the sum of all amounts. */
  lemma {:induction false} TotalsPartition(s: seq<Transaction>)
    ensures TotalByType(s, true) + TotalByType(s, false) == Sum(s)
    decreases |s|
  {
    if s != [] {
      var p := s[..|s| - 1];
      var x := s[|s| - 1];
      assert s == p + [x];
      TotalsPartition(p);
      TotalAfterAppend(p, x, true);
      TotalAfterAppend(p, x, false);
    }
  }

  /** Appending a transaction raises its own type's total by its amount and
      leaves the other total alone. */
  lemma {:induction false} TotalAfterAppend(s: seq<Transaction>, t: Transaction, isIncome: bool)
    ensures TotalByType(s + [t], isIncome)
      == TotalByType(s, isIncome) + (if t.isIncome == isIncome then t.amount else 0.0)
  {
    FilterConcat(s, [t], IsOfType(isIncome));
    SumConcat(Filter(s, IsOfType(isIncome)), Filter([t], IsOfType(isIncome)));
    assert [t][1..] == [];
    if t.isIncome == isIncome {
      assert Filter([t], IsOfType(isIncome)) == [t];
      assert Sum([t]) == Sum([t][..0]) + t.amount;
    }
  }

  // ---------------------------------------------------------- students

  /** The students updateStudent treats as the same person: same id, or the
      same name ignoring case. */
  predicate SameStudent(s: WTStudent, student: WTStudent) {
    s.id == student.id || ToLower(s.name) == ToLower(student.name)
  }

  function Matching(students: seq<WTStudent>, student: WTStudent): (r: seq<WTStudent>)
    ensures forall i :: 0 <= i < |r| ==> r[i] in students && SameStudent(r[i], student)
    ensures forall j :: 0 <= j < |students| && SameStudent(students[j], student) ==> students[j] in r
  {
    Filter(students, (s: WTStudent) => SameStudent(s, student))
  }

  /** The new data under an existing student's id. */
  function Renamed(student: WTStudent, id: int): WTStudent {
    student.(id := id)
  }

  /** The list after the forEach over the matches: for each match in turn,
      the first entry with its id is overwritten by the new data under that id. */
  function Overwritten(list: seq<WTStudent>, matches: seq<WTStudent>, student: WTStudent): (r: seq<WTStudent>)
    ensures |r| == |list|
    ensures forall j :: 0 <= j < |r| ==> r[j].id == list[j].id
  {
    if matches == [] then list
    else
      var prev := Overwritten(list, matches[..|matches| - 1], student);
      var e := matches[|matches| - 1];
      var i := FirstIndex(prev, StudentId, e.id);
      if i != -1 then prev[i := Renamed(student, e.id)] else prev
  }

  /** Lists with the same ids have the same first index for each id. */
  lemma SameIdsFirstIndex(a: seq<WTStudent>, b: seq<WTStudent>, k: int)
    requires |a| == |b| && forall j :: 0 <= j < |a| ==> a[j].id == b[j].id
    ensures FirstIndex(a, StudentId, k) == FirstIndex(b, StudentId, k)
  {
    FirstIndexIs(b, StudentId, k, FirstIndex(a, StudentId, k));
  }

  /** After the forEach, the first entry with a match's id holds the new data
      under that id. */
  lemma {:induction false} OverwrittenHolds(list: seq<WTStudent>, matches: seq<WTStudent>, student: WTStudent, m: int)
    requires 0 <= m < |matches| && matches[m].id in Keys(list, StudentId)
    ensures var i := FirstIndex(list, StudentId, matches[m].id);
      0 <= i < |list| && Overwritten(list, matches, student)[i] == Renamed(student, matches[m].id)
    decreases |matches|
  {
    var init := matches[..|matches| - 1];
    var e := matches[|matches| - 1];
    OverwrittenLast(list, matches, student);
    if m < |matches| - 1 {
      assert init[m] == matches[m];
      OverwrittenHolds(list, init, student, m);
      var i := FirstIndex(list, StudentId, matches[m].id);
      if i == FirstIndex(list, StudentId, e.id) {
        assert e.id == list[i].id == matches[m].id;
      }
    }
  }

  /** The last match overwrites the first entry of the original list with its id. */
  lemma OverwrittenLast(list: seq<WTStudent>, matches: seq<WTStudent>, student: WTStudent)
    requires matches != []
    ensures var prev := Overwritten(list, matches[..|matches| - 1], student);
      var e := matches[|matches| - 1];
      var i := FirstIndex(list, StudentId, e.id);
      Overwritten(list, matches, student) == if i != -1 then prev[i := Renamed(student, e.id)] else prev
  {
    var prev := Overwritten(list, matches[..|matches| - 1], student);
    SameIdsFirstIndex(prev, list, matches[|matches| - 1].id);
  }

  /** One step of the forEach: a match's id is always found, since the
      overwrites keep every id in place. */
  lemma OverwrittenStep(list: seq<WTStudent>, matches: seq<WTStudent>, student: WTStudent, k: int)
    requires 0 <= k < |matches| && matches[k] in list
    ensures var prev := Overwritten(list, matches[..k], student);
      var i := FirstIndex(prev, StudentId, matches[k].id);
      i != -1 && Overwritten(list, matches[..k + 1], student) == prev[i := Renamed(student, matches[k].id)]
  {
    var prev := Overwritten(list, matches[..k], student);
    var j :| 0 <= j < |list| && list[j] == matches[k];
    assert prev[j].id == matches[k].id;
    assert matches[..k + 1][..k] == matches[..k];
  }

  /** The forEach of updateStudent over the matching students, with the
      append when nothing was updated: the list before distinctBy, and the
      student to save. */
  method OverwriteMatches(initial: seq<WTStudent>, student: WTStudent)
    returns (currentList: seq<WTStudent>, studentToSave: WTStudent)
    ensures currentList == BeforeDistinct(initial, student)
    ensures studentToSave == StudentToSave(initial, student)
  {
    var existingStudents := Matching(initial, student);
    currentList := initial;
    var studentUpdated := false;
    studentToSave := student;
    var k := 0;
    while k < |existingStudents|
      invariant 0 <= k <= |existingStudents|
      invariant currentList == Overwritten(initial, existingStudents[..k], student)
      invariant studentUpdated == (k > 0)
      invariant studentToSave == (if k > 0 then Renamed(student, existingStudents[k - 1].id) else student)
    {
      var existingStudent := existingStudents[k];
      assert existingStudent in initial;
      OverwrittenStep(initial, existingStudents, student, k);
      var index := FirstIndex(currentList, StudentId, existingStudent.id);
      if index != -1 {
        var updatedStudent := Renamed(student, existingStudent.id);
        currentList := currentList[index := updatedStudent];
        studentToSave := updatedStudent;
        studentUpdated := true;
      }
      k := k + 1;
    }
    assert existingStudents[..k] == existingStudents;
    if !studentUpdated {
      currentList := currentList + [studentToSave];
    }
  }

  /** The list updateStudent builds before dropping repeated ids: the
      matches overwritten, or the student appended when there is none. */
  function BeforeDistinct(students: seq<WTStudent>, student: WTStudent): seq<WTStudent> {
    var matches := Matching(students, student);
    var list := Overwritten(students, matches, student);
    if matches != [] then list else list + [student]
  }

  /** The students list after updateStudent. */
  function UpdatedStudents(students: seq<WTStudent>, student: WTStudent): (r: seq<WTStudent>)
    ensures DistinctKeys(r, StudentId)
  {
    DistinctBy(BeforeDistinct(students, student), StudentId)
  }

  /** The student updateStudent saves (and queues): the new data under the
      id of the last match, or as given when nothing matched. */
  function StudentToSave(students: seq<WTStudent>, student: WTStudent): WTStudent {
    var matches := Matching(students, student);
    if matches != [] then Renamed(student, matches[|matches| - 1].id) else student
  }

  /** Every matched student is still listed, under its own id, with the new data. */
  lemma UpdatedKeepsMatchedIds(students: seq<WTStudent>, student: WTStudent, m: int)
    requires 0 <= m < |Matching(students, student)|
    ensures Renamed(student, Matching(students, student)[m].id) in UpdatedStudents(students, student)
  {
    var matches := Matching(students, student);
    var list := Overwritten(students, matches, student);
    var e := matches[m];
    assert e in students;
    OverwrittenHolds(students, matches, student, m);
    SameIdsFirstIndex(list, students, e.id);
    FirstOfIdKept(list, e.id);
  }

  /** distinctBy keeps the first entry of each id. */
  lemma FirstOfIdKept(list: seq<WTStudent>, k: int)
    requires FirstIndex(list, StudentId, k) != -1
    ensures list[FirstIndex(list, StudentId, k)] in DistinctBy(list, StudentId)
  {
    var i := FirstIndex(list, StudentId, k);
    assert forall j :: 0 <= j < |list[..i]| ==> list[..i][j].id != k;
    DistinctByHasFirst(list, StudentId, i);
  }

  /** An entry whose id no match has is not touched by the overwrites. */
  lemma {:induction false} OverwrittenOthers(list: seq<WTStudent>, matches: seq<WTStudent>, student: WTStudent, j: int)
    requires 0 <= j < |list|
    requires forall m :: 0 <= m < |matches| ==> matches[m].id != list[j].id
    ensures Overwritten(list, matches, student)[j] == list[j]
    decreases |matches|
  {
    if matches != [] {
      var init := matches[..|matches| - 1];
      assert forall m :: 0 <= m < |init| ==> init[m] == matches[m];
      OverwrittenOthers(list, init, student, j);
    }
  }

  /** Each entry after the overwrites is the old entry or the new data under its id. */
  lemma {:induction false} OverwrittenFrom(list: seq<WTStudent>, matches: seq<WTStudent>, student: WTStudent, j: int)
    requires 0 <= j < |list|
    ensures var r := Overwritten(list, matches, student);
      r[j] == list[j] || r[j] == Renamed(student, r[j].id)
    decreases |matches|
  {
    if matches != [] {
      OverwrittenFrom(list, matches[..|matches| - 1], student, j);
    }
  }

  /** A student whose id no matching student has, listed first under its id,
      is still listed unchanged after the update. */
  lemma UpdatedKeepsOthers(students: seq<WTStudent>, student: WTStudent, j: int)
    requires 0 <= j < |students|
    requires FirstIndex(students, StudentId, students[j].id) == j
    requires forall m :: 0 <= m < |Matching(students, student)| ==> Matching(students, student)[m].id != students[j].id
    ensures students[j] in UpdatedStudents(students, student)
  {
    var matches := Matching(students, student);
    var list := Overwritten(students, matches, student);
    var l := BeforeDistinct(students, student);
    var k := students[j].id;
    OverwrittenOthers(students, matches, student, j);
    SameIdsFirstIndex(list, students, k);
    assert l[j] == students[j];
    FirstIndexIs(l, StudentId, k, j);
    FirstOfIdKept(l, k);
  }

  /** Nothing else comes in: every listed student is an old one or the new
      data under some id. */
  lemma UpdatedFromOldOrNew(students: seq<WTStudent>, student: WTStudent, x: WTStudent)
    requires x in UpdatedStudents(students, student)
    ensures x in students || x == Renamed(student, x.id)
  {
    var l := BeforeDistinct(students, student);
    var r := DistinctBy(l, StudentId);
    var j :| 0 <= j < |r| && r[j] == x;
    BeforeDistinctFrom(students, student, x);
  }

  /** Each entry of the list before distinctBy is an old one or the new data under its id. */
  lemma BeforeDistinctFrom(students: seq<WTStudent>, student: WTStudent, x: WTStudent)
    requires x in BeforeDistinct(students, student)
    ensures x in students || x == Renamed(student, x.id)
  {
    var matches := Matching(students, student);
    var list := Overwritten(students, matches, student);
    var l := BeforeDistinct(students, student);
    var i :| 0 <= i < |l| && l[i] == x;
    if i < |list| {
      assert list[i] == x;
      OverwrittenFrom(students, matches, student, i);
    }
  }

  /** A student who matches nobody is appended as given. */
  lemma UpdatedAddsNew(students: seq<WTStudent>, student: WTStudent)
    requires Matching(students, student) == []
    ensures student in UpdatedStudents(students, student)
    ensures Keys(UpdatedStudents(students, student), StudentId) == Keys(students, StudentId) + {student.id}
  {
    var list := Overwritten(students, [], student);
    var l := list + [student];
    assert forall j :: 0 <= j < |students| ==> !SameStudent(students[j], student);
    assert student.id !in Keys(students, StudentId);
    assert l[..|students|] == students;
    DistinctByHasFirst(l, StudentId, |students|);
    assert Keys(l, StudentId) == Keys(students, StudentId) + {student.id};
  }

  /** A matched update adds no id. */
  lemma UpdatedKeepsIds(students: seq<WTStudent>, student: WTStudent)
    requires Matching(students, student) != []
    ensures Keys(UpdatedStudents(students, student), StudentId) == Keys(students, StudentId)
  {
    var list := Overwritten(students, Matching(students, student), student);
    SameIdsSameKeys(list, students);
    assert BeforeDistinct(students, student) == list;
  }

  /** Lists with the same id at every position have the same ids. */
  lemma SameIdsSameKeys(a: seq<WTStudent>, b: seq<WTStudent>)
    requires |a| == |b| && forall j :: 0 <= j < |a| ==> a[j].id == b[j].id
    ensures Keys(a, StudentId) == Keys(b, StudentId)
  {
    forall k | k in Keys(a, StudentId) ensures k in Keys(b, StudentId) {
      var j :| 0 <= j < |a| && a[j].id == k;
      assert StudentId(b[j]) == k;
    }
    forall k | k in Keys(b, StudentId) ensures k in Keys(a, StudentId) {
      var j :| 0 <= j < |b| && b[j].id == k;
      assert StudentId(a[j]) == k;
    }
  }

  // ---------------------------------------------------------- events

  const LONG_MAX_PLUS_ONE := 0x8000_0000_0000_0000

  /** The id insertEvent gives an event online: a zero id becomes the UUID's
      high 64 bits with the sign bit cleared (`and Long.MAX_VALUE`, which on
      a two's-complement long is the value modulo 2^63). */
  function EventWithId(event: Event, uuidBits: int): (r: Event)
    requires LONG_MIN <= uuidBits <= LONG_MAX
    ensures event.id == 0 ==> 0 <= r.id <= LONG_MAX && r.id % LONG_MAX_PLUS_ONE == uuidBits % LONG_MAX_PLUS_ONE
    ensures event.id != 0 ==> r == event
    ensures r.(id := event.id) == event
  {
    if event.id == 0 then event.(id := uuidBits % LONG_MAX_PLUS_ONE) else event
  }

  // ---------------------------------------------------------- the repository

  class FirebaseRepository {
    var transactions: seq<Transaction>
    var students: seq<WTStudent>
    var events: seq<Event>
    const offlineQueue: OQ.OfflineQueue

    constructor (queue: OQ.OfflineQueue)
      ensures transactions == [] && students == [] && events == [] && offlineQueue == queue
    {
      transactions := [];
      students := [];
      events := [];
      offlineQueue := queue;
    }

    /** getTotalByType. */
    function GetTotalByType(isIncome: bool): real
      reads this
    {
      TotalByType(transactions, isIncome)
    }

    /** insertTransaction: appends the new transaction; offline, queues an insert. */
    method InsertTransaction(amount: real, kind: string, description: Option<string>, isIncome: bool,
                             category: string, id: int, now: int, online: bool,
                             encode: Transaction -> string, queueId: string)
      modifies this, offlineQueue
      ensures var t := Transaction(id, amount, kind, Some(description.GetOr("")), isIncome, now, category);
        transactions == old(transactions) + [t]
        && offlineQueue.GetQueue() == old(offlineQueue.GetQueue())
             + (if online then [] else [OQ.QueueItem(queueId, OQ.Insert, OQ.TransactionData, Some(encode(t)), now)])
      ensures students == old(students) && events == old(events)
    {
      var transaction := Transaction(id, amount, kind, Some(description.GetOr("")), isIncome, now, category);
      var currentTransactions := transactions;
      currentTransactions := currentTransactions + [transaction];
      transactions := currentTransactions;
      if !online {
        offlineQueue.Enqueue(OQ.TransactionData, OQ.Insert, Some(encode(transaction)), queueId, now);
      }
    }

    /** updateTransaction: replaces the entry with the same id or appends it;
        queues an update offline or when the online save fails. */
    method UpdateTransaction(transaction: Transaction, online: bool, saved: bool,
                             encode: Transaction -> string, queueId: string, now: int)
      modifies this, offlineQueue
      ensures transactions == Upsert(old(transactions), transaction, TransactionId)
      ensures offlineQueue.GetQueue() == old(offlineQueue.GetQueue())
        + (if online && saved then []
           else [OQ.QueueItem(queueId, OQ.Update, OQ.TransactionData, Some(encode(transaction)), now)])
      ensures students == old(students) && events == old(events)
    {
      transactions := SetOrAdd(transactions, transaction, TransactionId);
      if !online || !saved {
        offlineQueue.Enqueue(OQ.TransactionData, OQ.Update, Some(encode(transaction)), queueId, now);
      }
    }

    /** deleteTransaction: drops every entry with the id; offline, queues a delete. */
    method DeleteTransaction(transaction: Transaction, online: bool,
                             encode: Transaction -> string, queueId: string, now: int)
      modifies this, offlineQueue
      ensures transactions == WithoutId(old(transactions), TransactionId, transaction.id)
      ensures offlineQueue.GetQueue() == old(offlineQueue.GetQueue())
        + (if online then [] else [OQ.QueueItem(queueId, OQ.Delete, OQ.TransactionData, Some(encode(transaction)), now)])
      ensures students == old(students) && events == old(events)
    {
      transactions := WithoutId(transactions, TransactionId, transaction.id);
      if !online {
        offlineQueue.Enqueue(OQ.TransactionData, OQ.Delete, Some(encode(transaction)), queueId, now);
      }
    }

    /** updateStudent: overwrites every student with the same id or name
        (keeping their ids), or appends the student; then drops repeated ids.
        The result is false only when the online save fails, and the student
        saved is queued offline or after that failure. */
    method UpdateStudent(student: WTStudent, online: bool, saved: bool,
                         encode: WTStudent -> string, queueId: string, now: int)
      returns (success: bool)
      modifies this, offlineQueue
      ensures students == UpdatedStudents(old(students), student)
      ensures success == (!online || saved)
      ensures offlineQueue.GetQueue() == old(offlineQueue.GetQueue())
        + (if online && saved then []
           else [OQ.QueueItem(queueId, OQ.Update, OQ.StudentData, Some(encode(StudentToSave(old(students), student))), now)])
      ensures transactions == old(transactions) && events == old(events)
    {
      var initial := students;
      var currentList, studentToSave := OverwriteMatches(initial, student);
      students := DistinctBy(currentList, StudentId);
      if online && saved {
        success := true;
      } else {
        offlineQueue.Enqueue(OQ.StudentData, OQ.Update, Some(encode(studentToSave)), queueId, now);
        success := !online;
      }
    }

    /** insertEvent: online, a zero id is replaced by a generated one and, once
        saved, the event is upserted; offline, the event as given is queued. */
    method InsertEvent(event: Event, online: bool, saved: bool, uuidBits: int,
                       encode: Event -> string, queueId: string, now: int)
      requires LONG_MIN <= uuidBits <= LONG_MAX
      modifies this, offlineQueue
      ensures events == (if online && saved then Upsert(old(events), EventWithId(event, uuidBits), EventId)
                         else old(events))
      ensures offlineQueue.GetQueue() == old(offlineQueue.GetQueue())
        + (if online then [] else [OQ.QueueItem(queueId, OQ.Insert, OQ.EventData, Some(encode(event)), now)])
      ensures transactions == old(transactions) && students == old(students)
    {
      if online {
        var eventWithId := EventWithId(event, uuidBits);
        if saved {
          events := SetOrAdd(events, eventWithId, EventId);
        }
      } else {
        offlineQueue.Enqueue(OQ.EventData, OQ.Insert, Some(encode(event)), queueId, now);
      }
    }

    /** deleteEvent: online and deleted, every event with the id goes;
        offline, a delete is queued. */
    method DeleteEvent(event: Event, online: bool, deleted: bool,
                       encode: Event -> string, queueId: string, now: int)
      modifies this, offlineQueue
      ensures events == (if online && deleted then WithoutId(old(events), EventId, event.id) else old(events))
      ensures offlineQueue.GetQueue() == old(offlineQueue.GetQueue())
        + (if online then [] else [OQ.QueueItem(queueId, OQ.Delete, OQ.EventData, Some(encode(event)), now)])
      ensures transactions == old(transactions) && students == old(students)
    {
      if online {
        if deleted {
          events := WithoutId(events, EventId, event.id);
        }
      } else {
        offlineQueue.Enqueue(OQ.EventData, OQ.Delete, Some(encode(event)), queueId, now);
      }
    }
  }
}
