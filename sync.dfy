/**
 * How the planner page of frontend/src/pages/Home.tsx reads the stored
 * schedule back: `fetchSchedule` folds the server's rows into a week of
 * named entries, and `handleTaskComplete` decides which stored row a click
 * on a task of the chart toggles.
 */
module Sync {
  import opened Options
  import opened Week
  import Store

  // ---------------------------------------------------------------------
  // fetchSchedule: rows to week
  // ---------------------------------------------------------------------

  /** The entry a stored row contributes under its task's title. */
  function EntryOf(row: Row): Entry {
    Entry(row.hours, row.completed, row.id)
  }

  /**
   * The week after the reduce has seen the first `n` rows: a row whose
   * task the registry knows is written under that task's title on its day,
   * overwriting an earlier row of the same title and day; a row of an
   * unknown task is skipped. A row whose day is none of the seven would
   * open an extra key that the chart never reads, so the seven days are
   * left as they are.
   */
  function RebuildUpTo(rows: seq<Row>, tasks: seq<Task>, n: nat): (w: Weekly)
    requires n <= |rows|
    ensures HasWeek(w)
  {
    if n == 0 then Blank()
    else
      var w := RebuildUpTo(rows, tasks, n - 1);
      var row := rows[n - 1];
      var k := DayIndex(row.day);
      match FindTask(tasks, row.task)
      case None => w
      case Some(task) =>
        if k < 0 then w else w[k := Put(w[k], task.title, EntryOf(row))]
  }

  /** The whole reduce of `fetchSchedule`. */
  function Rebuild(rows: seq<Row>, tasks: seq<Task>): (w: Weekly)
    ensures HasWeek(w)
  {
    RebuildUpTo(rows, tasks, |rows|)
  }

  /** A row that lands under `title` on day `day`. */
  predicate Lands(row: Row, tasks: seq<Task>, day: string, title: string) {
    row.day == day && FindTask(tasks, row.task).Some? && FindTask(tasks, row.task).value.title == title
  }

  /** The last of the first `n` rows that lands under `title` on `day`. */
  function LastLanding(rows: seq<Row>, tasks: seq<Task>, day: string, title: string, n: nat): (r: Option<nat>)
    requires n <= |rows|
    ensures r.Some? ==> r.value < n
  {
    if n == 0 then None
    else if Lands(rows[n - 1], tasks, day, title) then Some(n - 1)
    else LastLanding(rows, tasks, day, title, n - 1)
  }

  /** `LastLanding` finds the last landing row, and finds none exactly when no row lands. */
  lemma {:induction false} LastLandingIs(rows: seq<Row>, tasks: seq<Task>, day: string, title: string, n: nat)
    requires n <= |rows|
    ensures var r := LastLanding(rows, tasks, day, title, n);
      (r.Some? ==> Lands(rows[r.value], tasks, day, title)) &&
      (r.Some? ==> forall j :: r.value < j < n ==> !Lands(rows[j], tasks, day, title)) &&
      (r.None? <==> forall j :: 0 <= j < n ==> !Lands(rows[j], tasks, day, title))
  {
    if n > 0 {
      LastLandingIs(rows, tasks, day, title, n - 1);
    }
  }

  /**
   * What the rebuilt week shows under a title on a day is the entry of the
   * last row that lands there, and nothing when no row does: later rows win,
   * and rows of unknown tasks or of other days never show.
   */
  lemma {:induction false} RebuildFind(rows: seq<Row>, tasks: seq<Task>, n: nat, k: nat, title: string)
    requires n <= |rows| && k < 7
    ensures Find(RebuildUpTo(rows, tasks, n)[k], title) == Shown(rows, LastLanding(rows, tasks, Days[k], title, n))
  {
    if n > 0 {
      RebuildFind(rows, tasks, n - 1, k, title);
      if Lands(rows[n - 1], tasks, Days[k], title) {
        RebuildLands(rows, tasks, n, k, title);
      } else {
        RebuildSkips(rows, tasks, n, k, title);
      }
    }
  }

  /** The entry of the row at the given position, if there is one. */
  function Shown(rows: seq<Row>, i: Option<nat>): Option<Entry>
    requires i.Some? ==> i.value < |rows|
  {
    match i
    case None => None
    case Some(i) => Some(EntryOf(rows[i]))
  }

  /** A row that lands under a title on a day is what the day then shows there. */
  lemma RebuildLands(rows: seq<Row>, tasks: seq<Task>, n: nat, k: nat, title: string)
    requires 0 < n <= |rows| && k < 7
    requires Lands(rows[n - 1], tasks, Days[k], title)
    ensures Find(RebuildUpTo(rows, tasks, n)[k], title) == Some(EntryOf(rows[n - 1]))
  {
    var w := RebuildUpTo(rows, tasks, n - 1);
    var row := rows[n - 1];
    var t := FindTask(tasks, row.task).value;
    DaysDistinct();
    assert DayIndex(row.day) == k;
    assert RebuildUpTo(rows, tasks, n) == w[k := Put(w[k], t.title, EntryOf(row))];
  }

  /** A row that lands elsewhere leaves what the day shows under a title as it was. */
  lemma RebuildSkips(rows: seq<Row>, tasks: seq<Task>, n: nat, k: nat, title: string)
    requires 0 < n <= |rows| && k < 7
    requires !Lands(rows[n - 1], tasks, Days[k], title)
    ensures Find(RebuildUpTo(rows, tasks, n)[k], title) == Find(RebuildUpTo(rows, tasks, n - 1)[k], title)
  {
    var w := RebuildUpTo(rows, tasks, n - 1);
    var row := rows[n - 1];
    var j := DayIndex(row.day);
    var t := FindTask(tasks, row.task);
    if t.Some? && 0 <= j {
      assert RebuildUpTo(rows, tasks, n) == w[j := Put(w[j], t.value.title, EntryOf(row))];
      if j == k {
        PutFind(w[k], t.value.title, EntryOf(row), title);
      }
    } else {
      assert RebuildUpTo(rows, tasks, n) == w;
    }
  }

  /** Every title the rebuilt week shows is the title of a known task with a row on that day. */
  lemma RebuildShowsOnlyKnownTasks(rows: seq<Row>, tasks: seq<Task>, k: nat, title: string)
    requires k < 7
    requires Find(Rebuild(rows, tasks)[k], title).Some?
    ensures exists i :: 0 <= i < |rows| && Lands(rows[i], tasks, Days[k], title)
  {
    RebuildFind(rows, tasks, |rows|, k, title);
    LastLandingIs(rows, tasks, Days[k], title, |rows|);
    var i := LastLanding(rows, tasks, Days[k], title, |rows|).value;
    assert Lands(rows[i], tasks, Days[k], title);
  }

  // ---------------------------------------------------------------------
  // handleTaskComplete: which row a click toggles
  // ---------------------------------------------------------------------

  /** A completion toggle: the stored row to mark, the title clicked and the new flag. */
  datatype Toggle = Toggle(row: int, title: string, complete: bool)

  /** `Object.values(tasks).find(t => t.title === title)`. */
  function FirstTitled(tasks: seq<Task>, title: string): (r: Option<Task>)
    ensures r.Some? ==> r.value in tasks && r.value.title == title
    ensures r.None? <==> forall i :: 0 <= i < |tasks| ==> tasks[i].title != title
  {
    if tasks == [] then None
    else if tasks[0].title == title then Some(tasks[0])
    else FirstTitled(tasks[1..], title)
  }

  /** `scheduleData.find(...)`: the first row of `task` on `day`. */
  function FirstRowOf(rows: seq<Row>, task: int, day: string): (r: Option<nat>)
    ensures r.Some? ==> r.value < |rows| && rows[r.value].task == task && rows[r.value].day == day
    ensures r.Some? ==> forall j :: 0 <= j < r.value ==> !(rows[j].task == task && rows[j].day == day)
    ensures r.None? <==> forall j :: 0 <= j < |rows| ==> !(rows[j].task == task && rows[j].day == day)
  {
    if rows == [] then None
    else if rows[0].task == task && rows[0].day == day then Some(0)
    else match FirstRowOf(rows[1..], task, day)
      case None => None
      case Some(i) => Some(i + 1)
  }

  /**
   * The toggle a click on `title` in chart `dayIndex` asks for, when the
   * clock says it is day `weekday` of the week (0 is Sunday, as `getDay`
   * counts). Only today's chart reacts, today being `weekday - 1` in the
   * planner's Monday-first order; on a Sunday that is -1 and `days[-1]` is
   * undefined, so no row matches.
   */
  function CompletionTarget(title: string, dayIndex: int, weekday: int, tasks: seq<Task>, rows: seq<Row>): (r: Option<Toggle>)
    requires 0 <= weekday < 7
    ensures r.Some? <==>
      && dayIndex == weekday - 1 && 0 <= dayIndex
      && FirstTitled(tasks, title).Some?
      && FirstRowOf(rows, FirstTitled(tasks, title).value.id, Days[dayIndex]).Some?
    ensures r.Some? ==>
      && dayIndex < 6 && r.value.title == title
      && var task := FirstTitled(tasks, title).value;
      var i := FirstRowOf(rows, task.id, Days[dayIndex]).value;
      && rows[i].task == task.id && rows[i].day == Days[dayIndex]
      && r.value.row == rows[i].id && r.value.complete == !rows[i].completed
  {
    var today := weekday - 1;
    if dayIndex != today then None
    else match FirstTitled(tasks, title)
      case None => None
      case Some(task) =>
        if today < 0 then None
        else match FirstRowOf(rows, task.id, Days[today])
          case None => None
          case Some(i) => Some(Toggle(rows[i].id, title, !rows[i].completed))
  }

  /** On a Sunday no click toggles anything. */
  lemma SundayNeverToggles(title: string, dayIndex: int, tasks: seq<Task>, rows: seq<Row>)
    ensures CompletionTarget(title, dayIndex, 0, tasks, rows).None?
  {
  }

  /** The Sunday chart (index 6) never reacts to a click, whatever the day. */
  lemma SundayChartNeverToggles(title: string, weekday: int, tasks: seq<Task>, rows: seq<Row>)
    requires 0 <= weekday < 7
    ensures CompletionTarget(title, 6, weekday, tasks, rows).None?
  {
  }

  /** Primary keys are unique among the stored rows. */
  predicate DistinctIds(rows: seq<Row>) {
    forall i, j :: 0 <= i < j < |rows| ==> rows[i].id != rows[j].id
  }

  /** Changing a row's flag does not move the first row of a task on a day. */
  lemma {:induction false} FirstRowOfAfterFlag(rows: seq<Row>, i: nat, done: bool, task: int, day: string)
    requires i < |rows|
    ensures FirstRowOf(rows[i := rows[i].(completed := done)], task, day) == FirstRowOf(rows, task, day)
  {
    if i > 0 {
      FirstRowOfAfterFlag(rows[1..], i - 1, done, task, day);
      assert rows[i := rows[i].(completed := done)][1..] == rows[1..][i - 1 := rows[i].(completed := done)];
    }
  }

  /**
   * Clicking the same task twice on the same day, with the schedule fetched
   * again in between, first flips the row's flag and then asks to flip it
   * back, which restores the stored rows.
   */
  lemma ToggleTwiceRestores(title: string, dayIndex: int, weekday: int, tasks: seq<Task>, rows: seq<Row>)
    requires 0 <= weekday < 7 && DistinctIds(rows)
    requires CompletionTarget(title, dayIndex, weekday, tasks, rows).Some?
    ensures var tg := CompletionTarget(title, dayIndex, weekday, tasks, rows).value;
      var after := Store.Flagged(rows, tg.row, tg.complete);
      after.Some? &&
      CompletionTarget(title, dayIndex, weekday, tasks, after.value) == Some(Toggle(tg.row, title, !tg.complete)) &&
      Store.Flagged(after.value, tg.row, !tg.complete) == Some(rows)
  {
    var tg := CompletionTarget(title, dayIndex, weekday, tasks, rows).value;
    var task := FirstTitled(tasks, title).value;
    var i := FirstRowOf(rows, task.id, Days[dayIndex]).value;
    assert tg == Toggle(rows[i].id, title, !rows[i].completed);
    var p := Store.IndexOfId(rows, tg.row);
    assert p == Some(i);
    var after := rows[i := rows[i].(completed := tg.complete)];
    assert Store.Flagged(rows, tg.row, tg.complete) == Some(after);
    FirstRowOfAfterFlag(rows, i, tg.complete, task.id, Days[dayIndex]);
    assert after[i].id == tg.row && after[i].completed == tg.complete;
    Store.FlaggedUndo(rows, tg.row, tg.complete);
  }
}
