/**
 * The weekly planner's shared data model (frontend/src/pages/Home.tsx and
 * backend/tasks/models.py): the seven day names, a day's schedule as an
 * insertion-ordered title -> entry association list, a week as the seven
 * day schedules, the task registry and the stored schedule rows.
 */
module Week {
  import opened Options

  /** The canonical day names, in the order the planner renders them. */
  const Days: seq<string> := ["Monday", "Tuesday", "Wednesday", "Thursday", "Friday", "Saturday", "Sunday"]

  /** The two reserved titles injected into every day from the global budgets. */
  const Sleep: string := "Sleep"
  const Meal: string := "Meal"

  /** A task of the registry (the planner's `tasks` dictionary, one value per id). */
  datatype Task = Task(id: int, title: string, duration: real, days: int, isShort: bool)

  /** One (day, title) assignment: hours, completion flag and the id it carries. */
  datatype Entry = Entry(hours: real, completed: bool, id: int)

  /** A titled entry of a day. */
  datatype Slot = Slot(title: string, entry: Entry)

  /**
   * A day's schedule. JavaScript enumerates an object's keys in insertion
   * order, so the day is an association list: a new title is appended, an
   * existing one is overwritten in place.
   */
  type Daily = seq<Slot>

  /**
   * A week: the seven day schedules, Monday first. The source keys them by
   * day name; position k here is the day named `Days[k]`.
   */
  type Weekly = seq<Daily>

  /** A stored schedule row (backend/tasks/models.py, WeeklySchedule). */
  datatype Row = Row(id: int, day: string, task: int, hours: real, completed: bool)

  predicate IsReserved(title: string) {
    title == Sleep || title == Meal
  }

  /** The slots of a day that are tasks (not Sleep or Meal), in order. */
  function TaskSlots(d: Daily): (r: seq<Slot>)
    ensures forall i :: 0 <= i < |r| ==> !IsReserved(r[i].title)
  {
    if d == [] then []
    else TaskSlots(d[..|d| - 1]) + if IsReserved(d[|d| - 1].title) then [] else [d[|d| - 1]]
  }

  /** One more slot adds itself to the tasks unless it is Sleep or Meal. */
  lemma {:induction false} TaskSlotsSnoc(d: Daily, s: Slot)
    ensures TaskSlots(d + [s]) == TaskSlots(d) + if IsReserved(s.title) then [] else [s]
  {
    assert (d + [s])[..|d + [s]| - 1] == d;
  }

  /** A week has exactly the seven days. */
  predicate HasWeek(w: Weekly) {
    |w| == 7
  }

  /** `days.indexOf(name)`: the position of `name` among the day names, or -1. */
  function DayIndex(name: string): (k: int)
    ensures -1 <= k < 7
    ensures 0 <= k ==> Days[k] == name
    ensures k == -1 <==> name !in Days
  {
    if name in DayNumbers then DayNumbers[name] else -1
  }

  /** Each day name's position in `Days`. */
  const DayNumbers: map<string, int> :=
    map["Monday" := 0, "Tuesday" := 1, "Wednesday" := 2, "Thursday" := 3, "Friday" := 4, "Saturday" := 5, "Sunday" := 6]

  lemma DaysDistinct()
    ensures |Days| == 7
    ensures forall i, j :: 0 <= i < 7 && 0 <= j < 7 && Days[i] == Days[j] ==> i == j
  {
  }

  /** The week with the seven days and nothing in them. */
  function Blank(): (w: Weekly)
    ensures HasWeek(w)
    ensures forall k :: 0 <= k < 7 ==> w[k] == []
  {
    [[], [], [], [], [], [], []]
  }

  /** `day[title]`: the entry of the first slot titled `title`, if any. */
  function Find(d: Daily, title: string): (r: Option<Entry>)
  {
    if d == [] then None
    else if d[0].title == title then Some(d[0].entry)
    else Find(d[1..], title)
  }

  /** A title is missing from a day exactly when no slot carries it. */
  lemma {:induction false} FindNone(d: Daily, title: string)
    ensures Find(d, title).None? <==> forall j :: 0 <= j < |d| ==> d[j].title != title
  {
    if d != [] && d[0].title != title {
      FindNone(d[1..], title);
      assert forall j :: 1 <= j < |d| ==> d[j] == d[1..][j - 1];
    }
  }

  /** The position of the first slot titled `title`, the one `Find` reads. */
  function SlotIndex(d: Daily, title: string): (i: nat)
    requires Find(d, title).Some?
    ensures i < |d| && d[i].title == title && Find(d, title) == Some(d[i].entry)
    ensures forall j :: 0 <= j < i ==> d[j].title != title
  {
    if d[0].title == title then 0
    else
      var i := 1 + SlotIndex(d[1..], title);
      assert forall j :: 1 <= j < i ==> d[j] == d[1..][j - 1];
      i
  }

  /**
   * `day[title] = e`: overwrite the first slot with that title where it
   * stands, or append a new slot at the end.
   */
  function Put(d: Daily, title: string, e: Entry): (r: Daily)
    ensures Find(r, title) == Some(e)
    ensures Find(d, title).None? ==> r == d + [Slot(title, e)]
    ensures Find(d, title).Some? ==> r == d[SlotIndex(d, title) := Slot(title, e)]
  {
    if d == [] then [Slot(title, e)]
    else if d[0].title == title then [Slot(title, e)] + d[1..]
    else
      var r := [d[0]] + Put(d[1..], title, e);
      assert r[1..] == Put(d[1..], title, e);
      r
  }

  /** Writing one title leaves every other title's entry as it was. */
  lemma {:induction false} PutFind(d: Daily, title: string, e: Entry, t: string)
    ensures Find(Put(d, title, e), t) == if t == title then Some(e) else Find(d, t)
  {
    if d != [] && d[0].title != title {
      PutFind(d[1..], title, e, t);
      assert Put(d, title, e)[1..] == Put(d[1..], title, e);
    } else if d != [] {
      assert Put(d, title, e)[1..] == d[1..];
    }
  }

  /** The hours under `title` on one day (zero when it is absent). */
  function HoursOf(e: Option<Entry>): real {
    match e
    case Some(x) => x.hours
    case None => 0.0
  }

  /** The seven entries of `title`, Monday first. */
  function Column(w: Weekly, title: string): (col: seq<Option<Entry>>)
    requires HasWeek(w)
    ensures |col| == 7
    ensures forall k :: 0 <= k < 7 ==> col[k] == Find(w[k], title)
  {
    seq(7, k requires 0 <= k < 7 => Find(w[k], title))
  }

  /** Sum of the hours of a column. */
  function ColumnHours(col: seq<Option<Entry>>): real {
    if col == [] then 0.0 else HoursOf(col[0]) + ColumnHours(col[1..])
  }

  /** Number of days of a column that hold an entry. */
  function CountDays(col: seq<Option<Entry>>): nat
    ensures CountDays(col) <= |col|
  {
    if col == [] then 0 else (if col[0].Some? then 1 else 0) + CountDays(col[1..])
  }

  /** Total weekly hours of `title`. */
  function TitleHours(w: Weekly, title: string): real
    requires HasWeek(w)
  {
    ColumnHours(Column(w, title))
  }

  /** Replacing one entry of a column changes its hours by the difference. */
  lemma {:induction false} ColumnHoursUpdate(col: seq<Option<Entry>>, k: nat, x: Option<Entry>)
    requires k < |col|
    ensures ColumnHours(col[k := x]) == ColumnHours(col) - HoursOf(col[k]) + HoursOf(x)
  {
    if k > 0 {
      ColumnHoursUpdate(col[1..], k - 1, x);
      assert col[k := x][1..] == col[1..][k - 1 := x];
    } else {
      assert col[k := x][1..] == col[1..];
    }
  }

  /** Filling an empty day of a column adds one to its day count. */
  lemma {:induction false} CountDaysFill(col: seq<Option<Entry>>, k: nat, x: Entry)
    requires k < |col| && col[k].None?
    ensures CountDays(col[k := Some(x)]) == CountDays(col) + 1
  {
    if k > 0 {
      CountDaysFill(col[1..], k - 1, x);
      assert col[k := Some(x)][1..] == col[1..][k - 1 := Some(x)];
    } else {
      assert col[k := Some(x)][1..] == col[1..];
    }
  }

  /** Updating one day changes the column of a title only at that day. */
  lemma ColumnAfterUpdate(w: Weekly, k: nat, d: Daily, title: string)
    requires HasWeek(w) && k < 7
    ensures HasWeek(w[k := d])
    ensures Column(w[k := d], title) == Column(w, title)[k := Find(d, title)]
  {
  }

  /** `tasks[id]`: the first task of the registry with that id. */
  function FindTask(tasks: seq<Task>, id: int): (r: Option<Task>)
    ensures r.Some? ==> r.value in tasks && r.value.id == id
    ensures r.None? <==> forall i :: 0 <= i < |tasks| ==> tasks[i].id != id
  {
    if tasks == [] then None
    else if tasks[0].id == id then Some(tasks[0])
    else FindTask(tasks[1..], id)
  }

  /** Titles are unique among the registry's tasks. */
  predicate DistinctTitles(tasks: seq<Task>) {
    forall i, j :: 0 <= i < j < |tasks| ==> tasks[i].title != tasks[j].title
  }

  /** No task of the registry uses a reserved title. */
  predicate NoReservedTitles(tasks: seq<Task>) {
    forall i :: 0 <= i < |tasks| ==> !IsReserved(tasks[i].title)
  }
}
