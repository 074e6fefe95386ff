/**
 * The schedule and book endpoints of backend/tasks/views.py, over the
 * stored rows of backend/tasks/models.py. The database is a sequence of
 * rows in primary-key order; each endpoint is a method of the store that
 * reads and rewrites it, proved equal to a function of the old rows, and
 * the lemmas state what the endpoints promise.
 */
module Store {
  import opened Options
  import opened Week
  import opened Lists

  /** The HTTP outcome of an endpoint: 200, 400, 404, or 500 for an uncaught exception. */
  datatype Status = Ok | BadRequest | NotFound | ServerError

  // ---------------------------------------------------------------------
  // Row lookups
  // ---------------------------------------------------------------------

  /** Position of the row with primary key `id`, if any. */
  function IndexOfId(rows: seq<Row>, id: int): (r: Option<nat>)
    ensures r.Some? ==> r.value < |rows| && rows[r.value].id == id
    ensures r.Some? ==> forall j :: 0 <= j < r.value ==> rows[j].id != id
    ensures r.None? ==> forall j :: 0 <= j < |rows| ==> rows[j].id != id
  {
    if rows == [] then None
    else if rows[0].id == id then Some(0)
    else match IndexOfId(rows[1..], id)
      case None => None
      case Some(k) => Some(k + 1)
  }

  /** Number of rows for (`day`, `task`). */
  function Count(rows: seq<Row>, day: string, task: int): (n: nat)
    ensures n <= |rows|
  {
    if rows == [] then 0
    else (if rows[0].day == day && rows[0].task == task then 1 else 0) + Count(rows[1..], day, task)
  }

  /** Position of the first row for (`day`, `task`), if any. */
  function IndexOf(rows: seq<Row>, day: string, task: int): (r: Option<nat>)
    ensures r.Some? ==> r.value < |rows| && rows[r.value].day == day && rows[r.value].task == task
    ensures r.None? <==> Count(rows, day, task) == 0
  {
    if rows == [] then None
    else if rows[0].day == day && rows[0].task == task then Some(0)
    else match IndexOf(rows[1..], day, task)
      case None => None
      case Some(k) => Some(k + 1)
  }

  // ---------------------------------------------------------------------
  // mark_complete / mark_incomplete
  // ---------------------------------------------------------------------

  /** The rows after setting the completion flag of row `pk`; None (404) when there is no such row. */
  function Flagged(rows: seq<Row>, pk: int, done: bool): Option<seq<Row>> {
    match IndexOfId(rows, pk)
    case None => None
    case Some(i) => Some(rows[i := rows[i].(completed := done)])
  }

  /** Only the row's flag changes: every other field and every other row stays. */
  lemma FlaggedOnlyFlag(rows: seq<Row>, pk: int, done: bool)
    ensures (forall j :: 0 <= j < |rows| ==> rows[j].id != pk) <==> Flagged(rows, pk, done).None?
    ensures Flagged(rows, pk, done).Some? ==>
      var r := Flagged(rows, pk, done).value;
      |r| == |rows| &&
      forall j :: 0 <= j < |rows| ==>
        r[j].(completed := rows[j].completed) == rows[j] &&
        (r[j].completed != rows[j].completed ==> rows[j].id == pk && r[j].completed == done)
  {
  }

  /** Marking twice is marking once. */
  lemma FlaggedIdempotent(rows: seq<Row>, pk: int, done: bool)
    requires Flagged(rows, pk, done).Some?
    ensures Flagged(Flagged(rows, pk, done).value, pk, done) == Flagged(rows, pk, done)
  {
    var i := IndexOfId(rows, pk).value;
    var r := Flagged(rows, pk, done).value;
    IndexOfIdAfterUpdate(rows, i, rows[i].(completed := done));
    assert IndexOfId(r, pk) == Some(i);
    assert r[i].(completed := done) == r[i];
    assert r[i := r[i]] == r;
  }

  /** Marking complete and then incomplete (or the reverse) restores the row as it was. */
  lemma FlaggedUndo(rows: seq<Row>, pk: int, done: bool)
    requires Flagged(rows, pk, done).Some?
    requires rows[IndexOfId(rows, pk).value].completed == !done
    ensures Flagged(Flagged(rows, pk, done).value, pk, !done) == Some(rows)
  {
    var i := IndexOfId(rows, pk).value;
    var r := Flagged(rows, pk, done).value;
    IndexOfIdAfterUpdate(rows, i, rows[i].(completed := done));
    assert IndexOfId(r, pk) == Some(i);
    assert r[i].(completed := !done) == rows[i];
    assert r[i := rows[i]] == rows;
  }

  /** Rewriting a row in place without touching its key leaves the key lookup where it was. */
  lemma {:induction false} IndexOfIdAfterUpdate(rows: seq<Row>, i: nat, x: Row)
    requires i < |rows| && x.id == rows[i].id
    ensures IndexOfId(rows[i := x], x.id) == IndexOfId(rows, x.id)
  {
    if i > 0 && rows[0].id != x.id {
      IndexOfIdAfterUpdate(rows[1..], i - 1, x);
      assert rows[i := x][1..] == rows[1..][i - 1 := x];
    }
  }

  // ---------------------------------------------------------------------
  // create_bulk
  // ---------------------------------------------------------------------

  /**
   * One element of the `schedules` payload. `task` is None when the key is
   * absent or null, `hours` when it is null, and `completed` when the key is
   * absent (it then defaults to false).
   */
  datatype BulkItem = BulkItem(task: Option<int>, day: string, hours: Option<real>, completed: Option<bool>)

  /** The store after a bulk request: status, rows and the next primary key. */
  datatype BulkResult = BulkResult(status: Status, rows: seq<Row>, nextId: int)

  /**
   * The loop of `create_bulk` from item `items[0]` on, with `rows` created so
   * far: an unknown task id answers 400 and a null task or null hours fail
   * the insert (500); either way the rows already created stay.
   */
  function Bulk(items: seq<BulkItem>, tasks: seq<Task>, nextId: int, rows: seq<Row>): BulkResult
    decreases |items|
  {
    if items == [] then BulkResult(Ok, rows, nextId)
    else
      var item := items[0];
      if item.task.Some? && FindTask(tasks, item.task.value).None? then BulkResult(BadRequest, rows, nextId)
      else if item.task.None? || item.hours.None? then BulkResult(ServerError, rows, nextId)
      else
        var row := Row(nextId, item.day, item.task.value, item.hours.value, item.completed.GetOr(false));
        Bulk(items[1..], tasks, nextId + 1, rows + [row])
  }

  /** An item the loop stores. */
  predicate Storable(item: BulkItem, tasks: seq<Task>) {
    item.task.Some? && FindTask(tasks, item.task.value).Some? && item.hours.Some?
  }

  /** The row an item becomes under primary key `id`. */
  function RowOf(item: BulkItem, id: int): Row
    requires item.task.Some? && item.hours.Some?
  {
    Row(id, item.day, item.task.value, item.hours.value, item.completed.GetOr(false))
  }

  /** The number of leading items the loop stores before it stops. */
  function StorablePrefix(items: seq<BulkItem>, tasks: seq<Task>): (n: nat)
    ensures n <= |items|
    ensures forall i :: 0 <= i < n ==> Storable(items[i], tasks)
    ensures n < |items| ==> !Storable(items[n], tasks)
  {
    if items == [] || !Storable(items[0], tasks) then 0
    else 1 + StorablePrefix(items[1..], tasks)
  }

  /**
   * What a bulk request leaves: the old rows are gone, the leading storable
   * items are stored in order with consecutive keys and `completed`
   * defaulting to false, and the first item that is not storable decides the
   * status (400 for an unknown task, 500 for a null task or null hours).
   */
  lemma {:induction false} BulkOutcome(items: seq<BulkItem>, tasks: seq<Task>, nextId: int, rows: seq<Row>)
    ensures var n := StorablePrefix(items, tasks);
      var r := Bulk(items, tasks, nextId, rows);
      && r.nextId == nextId + n
      && |r.rows| == |rows| + n
      && r.rows[..|rows|] == rows
      && (forall i :: 0 <= i < n ==> r.rows[|rows| + i] == RowOf(items[i], nextId + i))
      && r.status == (if n == |items| then Ok
                      else if items[n].task.Some? && FindTask(tasks, items[n].task.value).None? then BadRequest
                      else ServerError)
    decreases |items|
  {
    if items != [] && Storable(items[0], tasks) {
      var row := RowOf(items[0], nextId);
      BulkOutcome(items[1..], tasks, nextId + 1, rows + [row]);
      var r := Bulk(items, tasks, nextId, rows);
      assert r == Bulk(items[1..], tasks, nextId + 1, rows + [row]);
      assert r.rows[..|rows| + 1][..|rows|] == rows;
      forall i | 0 <= i < StorablePrefix(items, tasks)
        ensures r.rows[|rows| + i] == RowOf(items[i], nextId + i)
      {
        if i > 0 {
          assert items[1..][i - 1] == items[i];
        }
      }
    }
  }

  /** A bulk request succeeds exactly when every item is storable, and then stores one row per item. */
  lemma BulkSucceeds(items: seq<BulkItem>, tasks: seq<Task>, nextId: int)
    ensures Bulk(items, tasks, nextId, []).status == Ok <==> forall i :: 0 <= i < |items| ==> Storable(items[i], tasks)
    ensures Bulk(items, tasks, nextId, []).status == Ok ==>
      var r := Bulk(items, tasks, nextId, []).rows;
      |r| == |items| && forall i :: 0 <= i < |items| ==> r[i] == RowOf(items[i], nextId + i)
  {
    BulkOutcome(items, tasks, nextId, []);
  }

  // ---------------------------------------------------------------------
  // move_task
  // ---------------------------------------------------------------------

  /** The `move_task` payload; None is a field that is absent or null. */
  datatype MoveRequest = MoveRequest(taskId: Option<int>, oldDay: Option<string>, newDay: Option<string>, newHours: Option<real>)

  /** `all([task_id, old_day, new_day, new_hours])`: every field present and truthy. */
  predicate AllPresent(req: MoveRequest) {
    && req.taskId.Some? && req.taskId.value != 0
    && req.oldDay.Some? && req.oldDay.value != ""
    && req.newDay.Some? && req.newDay.value != ""
    && req.newHours.Some? && req.newHours.value != 0.0
  }

  /**
   * `move_task`: the status and the rows afterwards. A missing target row
   * makes `get_or_create` insert a row without hours, which the database
   * refuses (500); two rows for one (day, task) make `get` fail (500). On the
   * same day both lookups load one row and the later save wins, so the row
   * gains the hours.
   */
  function Moved(rows: seq<Row>, tasks: seq<Task>, req: MoveRequest): (Status, seq<Row>) {
    if !AllPresent(req) then (BadRequest, rows)
    else
      var t := req.taskId.value;
      var h := req.newHours.value;
      if FindTask(tasks, t).None? then (NotFound, rows)
      else if Count(rows, req.oldDay.value, t) == 0 then (NotFound, rows)
      else if Count(rows, req.oldDay.value, t) > 1 then (ServerError, rows)
      else if Count(rows, req.newDay.value, t) != 1 then (ServerError, rows)
      else
        var o := IndexOf(rows, req.oldDay.value, t).value;
        var n := IndexOf(rows, req.newDay.value, t).value;
        if o == n then (Ok, rows[n := rows[n].(hours := rows[n].hours + h)])
        else
          var raised := rows[n := rows[n].(hours := rows[n].hours + h)];
          var left := rows[o].hours - h;
          if left <= 0.0 then (Ok, Remove(raised, o))
          else (Ok, raised[o := rows[o].(hours := left)])
  }

  /** A missing or falsy field, including zero hours, answers 400 and changes nothing. */
  lemma MoveNeedsAllFields(rows: seq<Row>, tasks: seq<Task>, req: MoveRequest)
    ensures !AllPresent(req) <==> Moved(rows, tasks, req).0 == BadRequest
    ensures req.newHours == Some(0.0) ==> Moved(rows, tasks, req) == (BadRequest, rows)
    ensures Moved(rows, tasks, req).0 != Ok ==> Moved(rows, tasks, req).1 == rows
  {
  }

  /** An unknown task or a missing source row answers 404 and changes nothing. */
  lemma MoveNotFound(rows: seq<Row>, tasks: seq<Task>, req: MoveRequest)
    requires AllPresent(req)
    ensures Moved(rows, tasks, req).0 == NotFound <==>
      FindTask(tasks, req.taskId.value).None? || Count(rows, req.oldDay.value, req.taskId.value) == 0
  {
  }

  /**
   * Moving hours to a day where the task has no row never succeeds: the row
   * `get_or_create` would insert has no hours.
   */
  lemma MoveToEmptyDayFails(rows: seq<Row>, tasks: seq<Task>, req: MoveRequest)
    requires AllPresent(req) && FindTask(tasks, req.taskId.value).Some?
    requires Count(rows, req.oldDay.value, req.taskId.value) == 1
    requires Count(rows, req.newDay.value, req.taskId.value) == 0
    ensures Moved(rows, tasks, req) == (ServerError, rows)
  {
  }

  /** Sum of the hours of the rows of `task`. */
  function TaskHours(rows: seq<Row>, task: int): real {
    if rows == [] then 0.0 else (if rows[0].task == task then rows[0].hours else 0.0) + TaskHours(rows[1..], task)
  }

  /** Rewriting one row's hours changes the task's total by the difference. */
  lemma {:induction false} TaskHoursUpdate(rows: seq<Row>, i: nat, x: Row, task: int)
    requires i < |rows| && x.task == rows[i].task
    ensures TaskHours(rows[i := x], task) ==
      TaskHours(rows, task) + (if x.task == task then x.hours - rows[i].hours else 0.0)
  {
    if i > 0 {
      TaskHoursUpdate(rows[1..], i - 1, x, task);
      assert rows[i := x][1..] == rows[1..][i - 1 := x];
    } else {
      assert rows[i := x][1..] == rows[1..];
    }
  }

  /** Deleting one row takes its hours out of its task's total. */
  lemma {:induction false} TaskHoursRemove(rows: seq<Row>, i: nat, task: int)
    requires i < |rows|
    ensures TaskHours(Remove(rows, i), task) ==
      TaskHours(rows, task) - (if rows[i].task == task then rows[i].hours else 0.0)
  {
    if i > 0 {
      TaskHoursRemove(rows[1..], i - 1, task);
      assert Remove(rows, i)[1..] == Remove(rows[1..], i - 1);
    } else {
      assert Remove(rows, i) == rows[1..];
    }
  }

  /**
   * A successful move between two different days keeps the task's weekly
   * total when the source row survives; when the source row is deleted the
   * total grows by what the row was short of the moved hours.
   */
  lemma MoveConservesHours(rows: seq<Row>, tasks: seq<Task>, req: MoveRequest, task: int)
    requires Moved(rows, tasks, req).0 == Ok && req.oldDay != req.newDay
    ensures var t := req.taskId.value;
      var o := IndexOf(rows, req.oldDay.value, t).value;
      var left := rows[o].hours - req.newHours.value;
      TaskHours(Moved(rows, tasks, req).1, task) ==
        TaskHours(rows, task) - (if t == task && left <= 0.0 then left else 0.0)
  {
    var t := req.taskId.value;
    var h := req.newHours.value;
    var o := IndexOf(rows, req.oldDay.value, t).value;
    var n := IndexOf(rows, req.newDay.value, t).value;
    assert o != n;
    var raised := rows[n := rows[n].(hours := rows[n].hours + h)];
    TaskHoursUpdate(rows, n, rows[n].(hours := rows[n].hours + h), task);
    var left := rows[o].hours - h;
    if left <= 0.0 {
      TaskHoursRemove(raised, o, task);
    } else {
      TaskHoursUpdate(raised, o, rows[o].(hours := left), task);
    }
  }

  /** Rewriting a row without touching its day and task keeps the (day, task) counts and lookups. */
  lemma {:induction false} CountAfterUpdate(rows: seq<Row>, i: nat, x: Row, day: string, task: int)
    requires i < |rows| && x.day == rows[i].day && x.task == rows[i].task
    ensures Count(rows[i := x], day, task) == Count(rows, day, task)
    ensures IndexOf(rows[i := x], day, task) == IndexOf(rows, day, task)
  {
    if i > 0 {
      CountAfterUpdate(rows[1..], i - 1, x, day, task);
      assert rows[i := x][1..] == rows[1..][i - 1 := x];
    } else {
      assert rows[i := x][1..] == rows[1..];
    }
  }

  /** The successful move between two rows of different days that both stay. */
  lemma MovedBetween(rows: seq<Row>, tasks: seq<Task>, req: MoveRequest, o: nat, n: nat)
    requires AllPresent(req) && FindTask(tasks, req.taskId.value).Some?
    requires Count(rows, req.oldDay.value, req.taskId.value) == 1
    requires Count(rows, req.newDay.value, req.taskId.value) == 1
    requires IndexOf(rows, req.oldDay.value, req.taskId.value) == Some(o)
    requires IndexOf(rows, req.newDay.value, req.taskId.value) == Some(n)
    requires o != n && rows[o].hours - req.newHours.value > 0.0
    ensures Moved(rows, tasks, req) == (Ok,
      rows[n := rows[n].(hours := rows[n].hours + req.newHours.value)][o := rows[o].(hours := rows[o].hours - req.newHours.value)])
  {
  }

  /** Rewriting the hours of two rows keeps the lookups of both (day, task) pairs. */
  lemma UpdateBothKeepsLookups(rows: seq<Row>, n: nat, xb: Row, o: nat, xa: Row, a: string, b: string, t: int)
    requires n < |rows| && o < |rows|
    requires xb.day == rows[n].day && xb.task == rows[n].task
    requires xa.day == rows[o].day && xa.task == rows[o].task
    ensures Count(rows[n := xb][o := xa], a, t) == Count(rows, a, t)
    ensures Count(rows[n := xb][o := xa], b, t) == Count(rows, b, t)
    ensures IndexOf(rows[n := xb][o := xa], a, t) == IndexOf(rows, a, t)
    ensures IndexOf(rows[n := xb][o := xa], b, t) == IndexOf(rows, b, t)
  {
    CountAfterUpdate(rows, n, xb, a, t);
    CountAfterUpdate(rows, n, xb, b, t);
    CountAfterUpdate(rows[n := xb], o, xa, a, t);
    CountAfterUpdate(rows[n := xb], o, xa, b, t);
  }

  /** Writing two rows and then writing their old values back restores the sequence. */
  lemma RestoreTwo(rows: seq<Row>, there: seq<Row>, n: nat, xb: Row, o: nat, xa: Row, ya: Row, yb: Row)
    requires n < |rows| && o < |rows| && n != o
    requires there == rows[n := xb][o := xa] && ya == rows[o] && yb == rows[n]
    ensures there[o := ya][n := yb] == rows
  {
  }

  /**
   * Moving hours to another day and the same hours back restores the rows,
   * as long as neither row runs out of hours on the way.
   */
  lemma MoveThereAndBack(rows: seq<Row>, tasks: seq<Task>, t: int, a: string, b: string, h: real)
    requires AllPresent(MoveRequest(Some(t), Some(a), Some(b), Some(h))) && a != b
    requires FindTask(tasks, t).Some?
    requires Count(rows, a, t) == 1 && Count(rows, b, t) == 1
    requires rows[IndexOf(rows, a, t).value].hours - h > 0.0
    requires rows[IndexOf(rows, b, t).value].hours > 0.0
    ensures var there := Moved(rows, tasks, MoveRequest(Some(t), Some(a), Some(b), Some(h)));
      there.0 == Ok && Moved(there.1, tasks, MoveRequest(Some(t), Some(b), Some(a), Some(h))) == (Ok, rows)
  {
    var o := IndexOf(rows, a, t).value;
    var n := IndexOf(rows, b, t).value;
    var xb := rows[n].(hours := rows[n].hours + h);
    var xa := rows[o].(hours := rows[o].hours - h);
    var there := rows[n := xb][o := xa];
    MoveThere(rows, tasks, MoveRequest(Some(t), Some(a), Some(b), Some(h)), o, n, xa, xb);
    MoveBack(rows, there, tasks, MoveRequest(Some(t), Some(b), Some(a), Some(h)), o, n, xa, xb);
  }

  /** The first half of the round trip: moving the hours from `a` to `b`, which keeps both lookups. */
  lemma MoveThere(rows: seq<Row>, tasks: seq<Task>, req: MoveRequest, o: nat, n: nat, xa: Row, xb: Row)
    requires AllPresent(req) && FindTask(tasks, req.taskId.value).Some? && req.oldDay != req.newDay
    requires Count(rows, req.oldDay.value, req.taskId.value) == 1 && Count(rows, req.newDay.value, req.taskId.value) == 1
    requires IndexOf(rows, req.oldDay.value, req.taskId.value) == Some(o)
    requires IndexOf(rows, req.newDay.value, req.taskId.value) == Some(n)
    requires xb == rows[n].(hours := rows[n].hours + req.newHours.value)
    requires xa == rows[o].(hours := rows[o].hours - req.newHours.value)
    requires xa.hours > 0.0
    ensures o != n
    ensures Moved(rows, tasks, req) == (Ok, rows[n := xb][o := xa])
    ensures var there := rows[n := xb][o := xa];
      && Count(there, req.oldDay.value, req.taskId.value) == 1 && Count(there, req.newDay.value, req.taskId.value) == 1
      && IndexOf(there, req.oldDay.value, req.taskId.value) == Some(o)
      && IndexOf(there, req.newDay.value, req.taskId.value) == Some(n)
  {
    MovedBetween(rows, tasks, req, o, n);
    UpdateBothKeepsLookups(rows, n, xb, o, xa, req.oldDay.value, req.newDay.value, req.taskId.value);
  }

  /** The second half of the round trip: moving the hours back from `b` to `a`. */
  lemma MoveBack(rows: seq<Row>, there: seq<Row>, tasks: seq<Task>, req: MoveRequest, o: nat, n: nat, xa: Row, xb: Row)
    requires AllPresent(req) && FindTask(tasks, req.taskId.value).Some?
    requires o < |rows| && n < |rows| && o != n
    requires xb == rows[n].(hours := rows[n].hours + req.newHours.value)
    requires xa == rows[o].(hours := rows[o].hours - req.newHours.value)
    requires there == rows[n := xb][o := xa]
    requires Count(there, req.oldDay.value, req.taskId.value) == 1 && Count(there, req.newDay.value, req.taskId.value) == 1
    requires IndexOf(there, req.oldDay.value, req.taskId.value) == Some(n)
    requires IndexOf(there, req.newDay.value, req.taskId.value) == Some(o)
    requires rows[n].hours > 0.0
    ensures Moved(there, tasks, req) == (Ok, rows)
  {
    assert there[o] == xa && there[n] == xb;
    MovedBetween(there, tasks, req, n, o);
    RestoreTwo(rows, there, n, xb, o, xa, rows[o], rows[n]);
  }

  // ---------------------------------------------------------------------
  // get_weekly_progress
  // ---------------------------------------------------------------------

  /** The day keys of the progress report, Monday first, in Turkish. */
  const TurkishDays: seq<string> := [
    "Pazartesi", "Sal\U{0131}", "\U{00C7}ar\U{015F}amba", "Per\U{015F}embe", "Cuma", "Cumartesi", "Pazar"]

  /** day -> title -> completed. */
  type Progress = map<string, map<string, bool>>

  /** The report before any row: the seven Turkish days, each with nothing in it. */
  function EmptyProgress(): (p: Progress)
    ensures p.Keys == set d | d in TurkishDays
  {
    map d | d in TurkishDays :: map[]
  }

  /** The report after the first `n` rows; None once a row's day is not a key (a KeyError, 500). */
  function ProgressUpTo(rows: seq<Row>, tasks: seq<Task>, n: nat): Option<Progress>
    requires n <= |rows|
  {
    if n == 0 then Some(EmptyProgress())
    else match ProgressUpTo(rows, tasks, n - 1)
      case None => None
      case Some(p) =>
        var row := rows[n - 1];
        match FindTask(tasks, row.task)
        case None => Some(p)
        case Some(task) =>
          if row.day in p then Some(p[row.day := p[row.day][task.title := row.completed]])
          else None
  }

  /** The answer of `get_weekly_progress` for the stored rows. */
  function Progressed(rows: seq<Row>, tasks: seq<Task>): Option<Progress> {
    ProgressUpTo(rows, tasks, |rows|)
  }

  /** The flag of the last of the first `n` rows on `day` whose task has `title`, if any. */
  function LastFlag(rows: seq<Row>, tasks: seq<Task>, n: nat, day: string, title: string): Option<bool>
    requires n <= |rows|
  {
    if n == 0 then None
    else
      var row := rows[n - 1];
      var task := FindTask(tasks, row.task);
      if row.day == day && task.Some? && task.value.title == title then Some(row.completed)
      else LastFlag(rows, tasks, n - 1, day, title)
  }

  /** A row whose task is known and whose day is not one of the Turkish keys. */
  predicate Foreign(row: Row, tasks: seq<Task>) {
    FindTask(tasks, row.task).Some? && row.day !in TurkishDays
  }

  /**
   * The report has exactly the seven Turkish keys, every (day, title) holds
   * the flag of the last row for it, and it is missing (500) exactly when
   * some row with a known task has another day.
   */
  lemma ProgressUpToIs(rows: seq<Row>, tasks: seq<Task>, n: nat)
    requires n <= |rows|
    ensures ProgressUpTo(rows, tasks, n).None? <==> exists j :: 0 <= j < n && Foreign(rows[j], tasks)
    ensures ProgressUpTo(rows, tasks, n).Some? ==>
      var p := ProgressUpTo(rows, tasks, n).value;
      && p.Keys == (set d | d in TurkishDays)
      && forall d, title :: d in TurkishDays ==>
           LastFlag(rows, tasks, n, d, title) == (if title in p[d] then Some(p[d][title]) else None)
  {
    ProgressFails(rows, tasks, n);
    if ProgressUpTo(rows, tasks, n).Some? {
      ProgressHolds(rows, tasks, n);
    }
  }

  /** The report is missing exactly when some row with a known task has a day that is not a key. */
  lemma {:induction false} ProgressFails(rows: seq<Row>, tasks: seq<Task>, n: nat)
    requires n <= |rows|
    ensures ProgressUpTo(rows, tasks, n).None? <==> exists j :: 0 <= j < n && Foreign(rows[j], tasks)
  {
    if n > 0 {
      ProgressFails(rows, tasks, n - 1);
      if ProgressUpTo(rows, tasks, n - 1).None? {
        var j :| 0 <= j < n - 1 && Foreign(rows[j], tasks);
      } else if ProgressUpTo(rows, tasks, n).None? {
        ProgressKeys(rows, tasks, n - 1);
        assert Foreign(rows[n - 1], tasks);
      } else {
        ProgressKeys(rows, tasks, n - 1);
        assert !Foreign(rows[n - 1], tasks);
        forall j | 0 <= j < n
          ensures !Foreign(rows[j], tasks)
        {
        }
      }
    }
  }

  /** A report that exists has exactly the seven Turkish keys. */
  lemma {:induction false} ProgressKeys(rows: seq<Row>, tasks: seq<Task>, n: nat)
    requires n <= |rows| && ProgressUpTo(rows, tasks, n).Some?
    ensures ProgressUpTo(rows, tasks, n).value.Keys == set d | d in TurkishDays
  {
    if n > 0 {
      ProgressKeys(rows, tasks, n - 1);
    }
  }

  /** A report that exists has the seven keys and the last flag of each (day, title). */
  lemma {:induction false} ProgressHolds(rows: seq<Row>, tasks: seq<Task>, n: nat)
    requires n <= |rows| && ProgressUpTo(rows, tasks, n).Some?
    ensures var p := ProgressUpTo(rows, tasks, n).value;
      && p.Keys == (set d | d in TurkishDays)
      && forall d, title :: d in TurkishDays ==>
           LastFlag(rows, tasks, n, d, title) == (if title in p[d] then Some(p[d][title]) else None)
  {
    if n > 0 {
      ProgressHolds(rows, tasks, n - 1);
    }
  }

  /**
   * Every day the planner saves is English, so once the planner has stored a
   * week with any task in it the progress report fails.
   */
  lemma PlannerDaysBreakProgress(rows: seq<Row>, tasks: seq<Task>, j: nat)
    requires j < |rows| && rows[j].day in Days && FindTask(tasks, rows[j].task).Some?
    ensures Progressed(rows, tasks).None?
  {
    assert Foreign(rows[j], tasks);
    ProgressUpToIs(rows, tasks, |rows|);
  }

  // ---------------------------------------------------------------------
  // The schedule store
  // ---------------------------------------------------------------------

  /** The schedule table, the task table it refers to, and the next primary key. */
  class ScheduleStore {
    var rows: seq<Row>
    var tasks: seq<Task>
    var nextId: int

    constructor (tasks: seq<Task>)
      ensures this.rows == [] && this.tasks == tasks && this.nextId == 1
    {
      this.rows := [];
      this.tasks := tasks;
      this.nextId := 1;
    }

    /** `mark_complete` (`done` true) and `mark_incomplete` (`done` false). */
    method Mark(pk: int, done: bool) returns (status: Status)
      modifies this
      ensures Flagged(old(rows), pk, done).None? ==> status == NotFound && rows == old(rows)
      ensures Flagged(old(rows), pk, done).Some? ==> status == Ok && rows == Flagged(old(rows), pk, done).value
      ensures tasks == old(tasks) && nextId == old(nextId)
    {
      var i := IndexOfId(rows, pk);
      if i.None? {
        return NotFound;
      }
      var row := rows[i.value];
      row := row.(completed := done);
      rows := rows[i.value := row];
      status := Ok;
    }

    /** The second `create_bulk`: clear the table, then store the items one by one. */
    method CreateBulk(items: seq<BulkItem>) returns (status: Status)
      modifies this
      ensures BulkResult(status, rows, nextId) == Bulk(items, old(tasks), old(nextId), [])
      ensures tasks == old(tasks)
    {
      rows := [];
      var i := 0;
      while i < |items|
        invariant 0 <= i <= |items|
        invariant tasks == old(tasks)
        invariant Bulk(items, tasks, old(nextId), []) == Bulk(items[i..], tasks, nextId, rows)
      {
        var item := items[i];
        assert items[i..][0] == item && items[i..][1..] == items[i + 1..];
        if item.task.Some? && FindTask(tasks, item.task.value).None? {
          return BadRequest;
        }
        if item.task.None? || item.hours.None? {
          return ServerError;
        }
        rows := rows + [Row(nextId, item.day, item.task.value, item.hours.value, item.completed.GetOr(false))];
        nextId := nextId + 1;
        i := i + 1;
      }
      status := Ok;
    }

    /** `move_task`. */
    method MoveTask(req: MoveRequest) returns (status: Status)
      modifies this
      ensures (status, rows) == Moved(old(rows), old(tasks), req)
      ensures tasks == old(tasks) && nextId == old(nextId)
    {
      if !AllPresent(req) {
        return BadRequest;
      }
      var t := req.taskId.value;
      var h := req.newHours.value;
      if FindTask(tasks, t).None? {
        return NotFound;
      }
      var oldCount := Count(rows, req.oldDay.value, t);
      if oldCount == 0 {
        return NotFound;
      } else if oldCount > 1 {
        return ServerError;
      }
      if Count(rows, req.newDay.value, t) != 1 {
        return ServerError;
      }
      var o := IndexOf(rows, req.oldDay.value, t).value;
      var n := IndexOf(rows, req.newDay.value, t).value;
      var newRow := rows[n].(hours := rows[n].hours + h);
      var oldRow := rows[o].(hours := rows[o].hours - h);
      if o == n {
        rows := rows[n := newRow];
      } else if oldRow.hours <= 0.0 {
        rows := Remove(rows[n := newRow], o);
      } else {
        rows := rows[n := newRow][o := oldRow];
      }
      status := Ok;
    }

    /** `get_weekly_progress`: fill the seven Turkish days from the rows, in order. */
    method WeeklyProgress() returns (r: Option<Progress>)
      ensures r == Progressed(rows, tasks)
    {
      var progress := EmptyProgress();
      var i := 0;
      while i < |rows|
        invariant 0 <= i <= |rows|
        invariant ProgressUpTo(rows, tasks, i) == Some(progress)
      {
        var row := rows[i];
        var task := FindTask(tasks, row.task);
        if task.Some? {
          if row.day !in progress {
            ProgressStaysFailed(rows, tasks, i + 1);
            return None;
          }
          progress := progress[row.day := progress[row.day][task.value.title := row.completed]];
        }
        i := i + 1;
      }
      r := Some(progress);
    }
  }

  /** Once a row has failed the lookup the report stays failed. */
  lemma {:induction false} ProgressStaysFailed(rows: seq<Row>, tasks: seq<Task>, n: nat)
    requires n <= |rows| && ProgressUpTo(rows, tasks, n).None?
    ensures Progressed(rows, tasks).None?
  {
    ProgressUpToIs(rows, tasks, n);
    ProgressUpToIs(rows, tasks, |rows|);
  }

  // ---------------------------------------------------------------------
  // BookViewSet.reorder
  // ---------------------------------------------------------------------

  /** A stored book (backend/tasks/models.py, Book), with the fields the endpoints read. */
  datatype BookRow = BookRow(id: int, title: string, author: string, status: string, pages: int, order: int)

  /** One element of the reorder payload. */
  datatype OrderItem = OrderItem(id: int, order: int)

  /** Position of the book with primary key `id`, if any. */
  function BookIndex(books: seq<BookRow>, id: int): (r: Option<nat>)
    ensures r.Some? ==> r.value < |books| && books[r.value].id == id
    ensures r.None? <==> forall j :: 0 <= j < |books| ==> books[j].id != id
  {
    if books == [] then None
    else if books[0].id == id then Some(0)
    else match BookIndex(books[1..], id)
      case None => None
      case Some(k) => Some(k + 1)
  }

  /** `reorder` from `items[0]` on: set each listed book's order; stop with 400 at the first unknown id. */
  function Reordered(books: seq<BookRow>, items: seq<OrderItem>): (Status, seq<BookRow>)
    decreases |items|
  {
    if items == [] then (Ok, books)
    else match BookIndex(books, items[0].id)
      case None => (BadRequest, books)
      case Some(i) => Reordered(books[i := books[i].(order := items[0].order)], items[1..])
  }

  /** The number of leading items whose book exists. */
  function KnownPrefix(ids: set<int>, items: seq<OrderItem>): (n: nat)
    ensures n <= |items|
  {
    if items == [] || items[0].id !in ids then 0
    else 1 + KnownPrefix(ids, items[1..])
  }

  /** Reordering rewrites `order` only: same books, same positions, same other fields. */
  lemma {:induction false} ReorderedOnlyOrders(books: seq<BookRow>, items: seq<OrderItem>)
    ensures |Reordered(books, items).1| == |books|
    ensures forall j :: 0 <= j < |books| ==> Reordered(books, items).1[j].(order := books[j].order) == books[j]
    decreases |items|
  {
    if items != [] && BookIndex(books, items[0].id).Some? {
      var i := BookIndex(books, items[0].id).value;
      ReorderedOnlyOrders(books[i := books[i].(order := items[0].order)], items[1..]);
    }
  }

  /**
   * The request fails exactly when some listed id is unknown; the updates of
   * the items before the first unknown one persist.
   */
  lemma {:induction false} ReorderedStops(books: seq<BookRow>, items: seq<OrderItem>)
    ensures BookIds(books) == BookIds(Reordered(books, items).1)
    ensures Reordered(books, items).0 == Ok <==> forall j :: 0 <= j < |items| ==> items[j].id in BookIds(books)
    ensures Reordered(books, items).0 != Ok ==> Reordered(books, items).0 == BadRequest
    ensures Reordered(books, items).1 == Reordered(books, items[..KnownPrefix(BookIds(books), items)]).1
    decreases |items|
  {
    if items != [] {
      match BookIndex(books, items[0].id)
      case None =>
        BookIndexIds(books, items[0].id);
        assert items[..0] == [];
      case Some(i) =>
        var next := books[i := books[i].(order := items[0].order)];
        ReorderedStops(next, items[1..]);
        BookIdsAfterUpdate(books, i, items[0].order);
        BookIndexIds(books, items[0].id);
        var k := KnownPrefix(BookIds(books), items);
        assert k == 1 + KnownPrefix(BookIds(next), items[1..]);
        assert items[..k][0] == items[0];
        assert items[..k][1..] == items[1..][..k - 1];
        forall j | 1 <= j < |items|
          ensures items[j] == items[1..][j - 1]
        {
        }
    }
  }

  /** A book is found exactly when its key is among the stored keys. */
  lemma BookIndexIds(books: seq<BookRow>, id: int)
    ensures BookIndex(books, id).Some? <==> id in BookIds(books)
  {
    if BookIndex(books, id).Some? {
      var i := BookIndex(books, id).value;
      assert books[i].id == id;
    }
  }

  /** The keys of the stored books. */
  function BookIds(books: seq<BookRow>): set<int> {
    set j | 0 <= j < |books| :: books[j].id
  }

  lemma BookIdsAfterUpdate(books: seq<BookRow>, i: nat, order: int)
    requires i < |books|
    ensures BookIds(books[i := books[i].(order := order)]) == BookIds(books)
    ensures forall id :: BookIndex(books[i := books[i].(order := order)], id) == BookIndex(books, id)
  {
    var next := books[i := books[i].(order := order)];
    forall id | id in BookIds(books)
      ensures id in BookIds(next)
    {
      var j :| 0 <= j < |books| && books[j].id == id;
      assert next[j].id == id;
    }
    forall id | id in BookIds(next)
      ensures id in BookIds(books)
    {
      var j :| 0 <= j < |next| && next[j].id == id;
      assert books[j].id == id;
    }
    forall id
      ensures BookIndex(books[i := books[i].(order := order)], id) == BookIndex(books, id)
    {
      BookIndexAfterUpdate(books, i, order, id);
    }
  }

  lemma {:induction false} BookIndexAfterUpdate(books: seq<BookRow>, i: nat, order: int, id: int)
    requires i < |books|
    ensures BookIndex(books[i := books[i].(order := order)], id) == BookIndex(books, id)
  {
    if i > 0 && books[0].id != id {
      BookIndexAfterUpdate(books[1..], i - 1, order, id);
      assert books[i := books[i].(order := order)][1..] == books[1..][i - 1 := books[i].(order := order)];
    }
  }

  /**
   * Sending every book with the order it already has changes nothing. The
   * page's drag-and-drop sends the moved list before renumbering, so each
   * book still carries its old order and the new arrangement is not stored.
   */
  lemma {:induction false} ReorderedWithCurrentOrders(books: seq<BookRow>, items: seq<OrderItem>)
    requires forall j :: 0 <= j < |items| ==>
      BookIndex(books, items[j].id).Some? && books[BookIndex(books, items[j].id).value].order == items[j].order
    ensures Reordered(books, items) == (Ok, books)
    decreases |items|
  {
    if items != [] {
      var i := BookIndex(books, items[0].id).value;
      assert books[i := books[i].(order := items[0].order)] == books;
      ReorderedWithCurrentOrders(books, items[1..]);
    }
  }

  /** The book table. */
  class BookStore {
    var books: seq<BookRow>

    constructor (books: seq<BookRow>)
      ensures this.books == books
    {
      this.books := books;
    }

    /** `reorder`: walk the payload, saving each book's new order as it goes. */
    method Reorder(items: seq<OrderItem>) returns (status: Status)
      modifies this
      ensures (status, books) == Reordered(old(books), items)
    {
      var i := 0;
      while i < |items|
        invariant 0 <= i <= |items|
        invariant Reordered(old(books), items) == Reordered(books, items[i..])
      {
        assert items[i..][0] == items[i] && items[i..][1..] == items[i + 1..];
        var k := BookIndex(books, items[i].id);
        if k.None? {
          return BadRequest;
        }
        books := books[k.value := books[k.value].(order := items[i].order)];
        i := i + 1;
      }
      status := Ok;
    }
  }
}
