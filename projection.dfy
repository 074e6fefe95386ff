/**
 * The doughnut charts of the planner page (frontend/src/pages/Home.tsx):
 * `generateChartData` turns a week of entries into one chart per day,
 * colouring tasks from a palette remembered across renders, and `moveTask`
 * edits the charts in place when hours move from one day to another.
 *
 * The page is a `Planner` object whose fields are the component's state:
 * the task registry, the colour cache (`taskColorsRef.current`) and the
 * charts on screen. Its methods are proved equal to the functions below,
 * and the lemmas state what the charts show.
 */
module Projection {
  import opened Options
  import opened Week
  import opened Lists
  import Sync

  const Palette: seq<string> := ["#FF6384", "#36A2EB", "#FFCE56", "#4BC0C0", "#9966FF", "#FF9F40", "#FFCD56"]
  const CompletedColor: string := "#4CAF50"
  const SleepColor: string := "#5FBCFA"
  const MealColor: string := "#FFA07A"
  const FreeColor: string := "#C0C0C0"
  const FreeTime: string := "Free Time"
  /** The colour `moveTask` uses for a title the cache has no colour for. */
  const FallbackColor: string := "#36A2EB"
  const FullDay: real := 24.0

  /** One day's doughnut: a label, a value and a colour per segment. */
  datatype DayChart = DayChart(labels: seq<string>, data: seq<real>, colors: seq<string>)

  predicate Aligned(c: DayChart) {
    |c.labels| == |c.data| == |c.colors|
  }

  /** Title to colour, kept across renders. */
  type Cache = map<string, string>

  /** `taskColors[title]` is truthy. */
  predicate Cached(cache: Cache, title: string) {
    title in cache && cache[title] != ""
  }

  /** Every colour `before` holds is still there, unchanged, in `after`. */
  ghost predicate Keeps(before: Cache, after: Cache) {
    forall t :: Cached(before, t) ==> Cached(after, t) && after[t] == before[t]
  }

  /** `reduce((acc, val) => acc + val, 0)`, left to right. */
  function Sum(v: seq<real>): real {
    if v == [] then 0.0 else Sum(v[..|v| - 1]) + v[|v| - 1]
  }

  // ---------------------------------------------------------------------
  // generateChartData
  // ---------------------------------------------------------------------

  /** The segments built so far for a day, with the cache and the palette cursor `colorIndex`. */
  datatype Paint = Paint(labels: seq<string>, data: seq<real>, colors: seq<string>, cache: Cache, next: nat)

  /**
   * One slot of a day: Sleep and Meal are skipped (they are added at the
   * end); a completed task is green; otherwise it shows its cached colour,
   * or, when it has none, the palette colour under the cursor, which then
   * advances. A title without a colour is given the palette colour under
   * the cursor as it stands after that step.
   */
  function PaintSlot(p: Paint, s: Slot): Paint {
    if IsReserved(s.title) then p
    else
      var unseen := !Cached(p.cache, s.title);
      var shown :=
        if s.entry.completed then CompletedColor
        else if !unseen then p.cache[s.title]
        else Palette[p.next % |Palette|];
      var next := if !s.entry.completed && unseen then p.next + 1 else p.next;
      Paint(p.labels + [s.title], p.data + [s.entry.hours], p.colors + [shown],
            if unseen then p.cache[s.title := Palette[next % |Palette|]] else p.cache, next)
  }

  /** The slots of a day in order, painted one after another. */
  function PaintDay(p: Paint, d: Daily): Paint {
    if d == [] then p else PaintSlot(PaintDay(p, d[..|d| - 1]), d[|d| - 1])
  }

  function Titles(s: seq<Slot>): (r: seq<string>)
    ensures |r| == |s| && forall i :: 0 <= i < |s| ==> r[i] == s[i].title
  {
    seq(|s|, i requires 0 <= i < |s| => s[i].title)
  }

  function Hours(s: seq<Slot>): (r: seq<real>)
    ensures |r| == |s| && forall i :: 0 <= i < |s| ==> r[i] == s[i].entry.hours
  {
    seq(|s|, i requires 0 <= i < |s| => s[i].entry.hours)
  }

  /** The end of a day's chart: Sleep, Meal, and Free Time when the day is not full. */
  function CloseDay(labels: seq<string>, data: seq<real>, colors: seq<string>, sleep: real, meal: real): DayChart {
    var l := labels + [Sleep] + [Meal];
    var v := data + [sleep] + [meal];
    var c := colors + [SleepColor] + [MealColor];
    var total := Sum(v);
    if total < FullDay then DayChart(l + [FreeTime], v + [FullDay - total], c + [FreeColor])
    else DayChart(l, v, c)
  }

  /** The charts of the first `n` days, the cache and the cursor after them. */
  datatype Render = Render(charts: seq<DayChart>, cache: Cache, next: nat)

  /** A new day's paint, continuing from where the previous days left the cache and cursor. */
  function Start(r: Render): Paint {
    Paint([], [], [], r.cache, r.next)
  }

  function RenderUpTo(w: Weekly, sleep: real, meal: real, cache: Cache, n: nat): (r: Render)
    requires HasWeek(w) && n <= 7
    ensures |r.charts| == n
  {
    if n == 0 then Render([], cache, 0)
    else
      var r := RenderUpTo(w, sleep, meal, cache, n - 1);
      var p := PaintDay(Start(r), w[n - 1]);
      Render(r.charts + [CloseDay(p.labels, p.data, p.colors, sleep, meal)], p.cache, p.next)
  }

  /** `generateChartData(schedule)` with the cache as it stood: the seven charts and the new cache. */
  function Charts(w: Weekly, sleep: real, meal: real, cache: Cache): Render
    requires HasWeek(w)
  {
    RenderUpTo(w, sleep, meal, cache, 7)
  }

  // ---- what one day's painting does ----

  /** Painting a day appends exactly its tasks' titles and hours, and one colour per task. */
  lemma {:induction false} PaintDayContents(p: Paint, d: Daily)
    ensures var q := PaintDay(p, d);
      q.labels == p.labels + Titles(TaskSlots(d)) &&
      q.data == p.data + Hours(TaskSlots(d)) &&
      |q.colors| == |p.colors| + |TaskSlots(d)| &&
      q.colors[..|p.colors|] == p.colors
  {
    if d != [] {
      var e := d[..|d| - 1];
      var s := d[|d| - 1];
      PaintDayContents(p, e);
      assert d == e + [s];
      TaskSlotsSnoc(e, s);
      var q := PaintDay(p, e);
      if !IsReserved(s.title) {
        assert Titles(TaskSlots(d)) == Titles(TaskSlots(e)) + [s.title];
        assert Hours(TaskSlots(d)) == Hours(TaskSlots(e)) + [s.entry.hours];
        assert PaintDay(p, d).colors[..|p.colors|] == q.colors[..|p.colors|];
      }
    }
  }

  /** Painting one slot never drops or changes a cached colour, and leaves a task's title with one. */
  lemma PaintSlotCache(p: Paint, s: Slot)
    ensures Keeps(p.cache, PaintSlot(p, s).cache)
    ensures !IsReserved(s.title) ==> Cached(PaintSlot(p, s).cache, s.title)
  {
  }

  lemma KeepsTransitive(a: Cache, b: Cache, c: Cache)
    requires Keeps(a, b) && Keeps(b, c)
    ensures Keeps(a, c)
  {
  }

  /** Painting never drops or changes a cached colour, and leaves every task of the day with one. */
  lemma {:induction false} PaintDayCache(p: Paint, d: Daily)
    ensures Keeps(p.cache, PaintDay(p, d).cache)
    ensures forall i :: 0 <= i < |TaskSlots(d)| ==> Cached(PaintDay(p, d).cache, TaskSlots(d)[i].title)
  {
    if d != [] {
      var e := d[..|d| - 1];
      var s := d[|d| - 1];
      PaintDayCache(p, e);
      TaskSlotsSnoc(e, s);
      assert d == e + [s];
      var q := PaintDay(p, e);
      var r := PaintSlot(q, s);
      assert PaintDay(p, d) == r;
      PaintSlotCache(q, s);
      KeepsTransitive(p.cache, q.cache, r.cache);
      forall i | 0 <= i < |TaskSlots(d)|
        ensures Cached(r.cache, TaskSlots(d)[i].title)
      {
        if i < |TaskSlots(e)| {
          assert TaskSlots(d)[i] == TaskSlots(e)[i];
        }
      }
    }
  }

  /**
   * The colour of the `j`-th task of a day: green when it is completed,
   * and, when it is not, the colour the cache held for its title before
   * the day was painted, if it held one.
   */
  lemma {:induction false} PaintDayColors(p: Paint, d: Daily, j: nat)
    requires j < |TaskSlots(d)|
    ensures |p.colors| + j < |PaintDay(p, d).colors|
    ensures var s := TaskSlots(d)[j];
      var c := PaintDay(p, d).colors[|p.colors| + j];
      (s.entry.completed ==> c == CompletedColor) &&
      (!s.entry.completed && Cached(p.cache, s.title) ==> c == p.cache[s.title])
  {
    var e := d[..|d| - 1];
    var s := d[|d| - 1];
    assert d == e + [s];
    TaskSlotsSnoc(e, s);
    PaintDayContents(p, e);
    PaintDayContents(p, d);
    var q := PaintDay(p, e);
    if j < |TaskSlots(e)| {
      PaintDayColors(p, e, j);
      assert TaskSlots(d)[j] == TaskSlots(e)[j];
      assert PaintDay(p, d).colors[|p.colors| + j] == q.colors[|p.colors| + j];
    } else {
      assert TaskSlots(d)[j] == s;
      PaintDayCache(p, e);
    }
  }

  /**
   * A task shown for the first time takes the palette colour under the
   * cursor, but the cache records the next palette colour: the two always
   * differ, so the task's colour changes on the next render.
   */
  lemma FreshTitleTwoColors(p: Paint, s: Slot)
    requires !IsReserved(s.title) && !s.entry.completed && !Cached(p.cache, s.title)
    ensures var q := PaintSlot(p, s);
      q.colors == p.colors + [Palette[p.next % 7]] &&
      q.cache == p.cache[s.title := Palette[(p.next + 1) % 7]] &&
      Palette[p.next % 7] != Palette[(p.next + 1) % 7]
  {
  }

  // ---- what the week's charts are ----

  /** Later days do not change the charts of earlier ones. */
  lemma {:induction false} RenderPrefix(w: Weekly, sleep: real, meal: real, cache: Cache, k: nat, n: nat)
    requires HasWeek(w) && k < n <= 7
    ensures RenderUpTo(w, sleep, meal, cache, n).charts[k] == RenderUpTo(w, sleep, meal, cache, k + 1).charts[k]
  {
    if n > k + 1 {
      RenderPrefix(w, sleep, meal, cache, k, n - 1);
    }
  }

  /** The chart of day `k`, painted from the cache and cursor the earlier days left. */
  lemma DayChartIs(w: Weekly, sleep: real, meal: real, cache: Cache, k: nat)
    requires HasWeek(w) && k < 7
    ensures var p := PaintDay(Start(RenderUpTo(w, sleep, meal, cache, k)), w[k]);
      Charts(w, sleep, meal, cache).charts[k] == CloseDay(p.labels, p.data, p.colors, sleep, meal)
  {
    RenderPrefix(w, sleep, meal, cache, k, 7);
  }

  /** A render never drops or changes a cached colour. */
  lemma {:induction false} RenderKeeps(w: Weekly, sleep: real, meal: real, cache: Cache, n: nat)
    requires HasWeek(w) && n <= 7
    ensures Keeps(cache, RenderUpTo(w, sleep, meal, cache, n).cache)
  {
    if n > 0 {
      RenderKeeps(w, sleep, meal, cache, n - 1);
      PaintDayCache(Start(RenderUpTo(w, sleep, meal, cache, n - 1)), w[n - 1]);
    }
  }

  /**
   * Day `k`'s chart: its tasks' titles and hours in their order, then
   * Sleep and Meal, then Free Time exactly when the day adds up to less
   * than 24 hours, sized so that the chart adds up to 24; the segments are
   * aligned and Sleep, Meal and Free Time have their fixed colours.
   */
  lemma ChartContents(w: Weekly, sleep: real, meal: real, cache: Cache, k: nat)
    requires HasWeek(w) && k < 7
    ensures var c := Charts(w, sleep, meal, cache).charts[k];
      var tasks := TaskSlots(w[k]);
      var base := Hours(tasks) + [sleep, meal];
      Aligned(c) &&
      (Sum(base) < FullDay ==>
        c.labels == Titles(tasks) + [Sleep, Meal, FreeTime] &&
        c.data == base + [FullDay - Sum(base)] && Sum(c.data) == FullDay) &&
      (FullDay <= Sum(base) ==> c.labels == Titles(tasks) + [Sleep, Meal] && c.data == base) &&
      c.colors[|tasks|..] == [SleepColor, MealColor] + (if Sum(base) < FullDay then [FreeColor] else [])
  {
    var p := Start(RenderUpTo(w, sleep, meal, cache, k));
    DayChartIs(w, sleep, meal, cache, k);
    PaintDayContents(p, w[k]);
    var q := PaintDay(p, w[k]);
    CloseDayContents(q.labels, q.data, q.colors, sleep, meal, TaskSlots(w[k]));
  }

  /** The closing segments of a day whose task segments are `tasks`. */
  lemma CloseDayContents(labels: seq<string>, data: seq<real>, colors: seq<string>, sleep: real, meal: real, tasks: seq<Slot>)
    requires labels == Titles(tasks) && data == Hours(tasks) && |colors| == |tasks|
    ensures var c := CloseDay(labels, data, colors, sleep, meal);
      var base := Hours(tasks) + [sleep, meal];
      Aligned(c) &&
      (Sum(base) < FullDay ==>
        c.labels == Titles(tasks) + [Sleep, Meal, FreeTime] &&
        c.data == base + [FullDay - Sum(base)] && Sum(c.data) == FullDay) &&
      (FullDay <= Sum(base) ==> c.labels == Titles(tasks) + [Sleep, Meal] && c.data == base) &&
      c.colors[|tasks|..] == [SleepColor, MealColor] + (if Sum(base) < FullDay then [FreeColor] else [])
  {
    var base := Hours(tasks) + [sleep, meal];
    assert data + [sleep] + [meal] == base;
    assert labels + [Sleep] + [Meal] == Titles(tasks) + [Sleep, Meal];
    if Sum(base) < FullDay {
      assert (base + [FullDay - Sum(base)])[..|base|] == base;
      assert (colors + [SleepColor] + [MealColor] + [FreeColor])[|tasks|..] == [SleepColor, MealColor, FreeColor];
    } else {
      assert (colors + [SleepColor] + [MealColor])[|tasks|..] == [SleepColor, MealColor];
    }
  }

  /**
   * The colours of day `k`'s tasks: a completed task is green; a task the
   * cache already coloured before the render keeps that colour on every
   * day it appears; after the render every task of the week has a colour.
   */
  lemma ChartColors(w: Weekly, sleep: real, meal: real, cache: Cache, k: nat, j: nat)
    requires HasWeek(w) && k < 7 && j < |TaskSlots(w[k])|
    ensures var c := Charts(w, sleep, meal, cache).charts[k];
      var s := TaskSlots(w[k])[j];
      j < |c.colors| &&
      (s.entry.completed ==> c.colors[j] == CompletedColor) &&
      (!s.entry.completed && Cached(cache, s.title) ==> c.colors[j] == cache[s.title]) &&
      Cached(Charts(w, sleep, meal, cache).cache, s.title)
  {
    var r := RenderUpTo(w, sleep, meal, cache, k);
    var p := Start(r);
    DayChartIs(w, sleep, meal, cache, k);
    PaintDayContents(p, w[k]);
    PaintDayColors(p, w[k], j);
    RenderKeeps(w, sleep, meal, cache, k);
    PaintDayCache(p, w[k]);
    RenderKeepsFrom(w, sleep, meal, cache, k + 1);
    assert RenderUpTo(w, sleep, meal, cache, k + 1).cache == PaintDay(p, w[k]).cache;
  }

  /** The cache after day `n` survives the rest of the week. */
  lemma {:induction false} RenderKeepsFrom(w: Weekly, sleep: real, meal: real, cache: Cache, n: nat)
    requires HasWeek(w) && n <= 7
    ensures Keeps(RenderUpTo(w, sleep, meal, cache, n).cache, Charts(w, sleep, meal, cache).cache)
    decreases 7 - n
  {
    if n < 7 {
      RenderKeepsFrom(w, sleep, meal, cache, n + 1);
      PaintDayCache(Start(RenderUpTo(w, sleep, meal, cache, n)), w[n]);
    }
  }

  /** Painting a day with no tasks changes nothing. */
  lemma {:induction false} PaintNoTasks(p: Paint, d: Daily)
    requires TaskSlots(d) == []
    ensures PaintDay(p, d) == p
  {
    if d != [] {
      TaskSlotsSnoc(d[..|d| - 1], d[|d| - 1]);
      assert d == d[..|d| - 1] + [d[|d| - 1]];
      PaintNoTasks(p, d[..|d| - 1]);
    }
  }

  /** A day's first task is painted as if it came first: its colour is the first new one, and the cache it leaves survives the day. */
  lemma {:induction false} PaintFirstTask(p: Paint, d: Daily)
    requires |TaskSlots(d)| > 0
    ensures var q := PaintSlot(p, TaskSlots(d)[0]);
      |p.colors| < |PaintDay(p, d).colors| &&
      PaintDay(p, d).colors[|p.colors|] == q.colors[|p.colors|] &&
      Keeps(q.cache, PaintDay(p, d).cache)
  {
    var e := d[..|d| - 1];
    var s := d[|d| - 1];
    assert d == e + [s];
    TaskSlotsSnoc(e, s);
    var q := PaintSlot(p, TaskSlots(d)[0]);
    if |TaskSlots(e)| > 0 {
      PaintFirstTask(p, e);
      PaintDayContents(p, e);
      var r := PaintDay(p, e);
      assert Keeps(r.cache, PaintSlot(r, s).cache);
      assert PaintDay(p, d).colors[|p.colors|] == r.colors[|p.colors|];
    } else {
      PaintNoTasks(p, e);
      assert TaskSlots(d)[0] == s;
    }
  }

  /**
   * The colour cache makes a task's colour change between the first two
   * renders: when Monday's first task is new to the cache and not done, it
   * is drawn in the first palette colour, but the cache stores the second,
   * which the next render shows.
   */
  lemma RerenderChangesColor(w: Weekly, sleep: real, meal: real, cache: Cache)
    requires HasWeek(w) && |TaskSlots(w[0])| > 0
    requires var s := TaskSlots(w[0])[0]; !s.entry.completed && !Cached(cache, s.title)
    ensures var s := TaskSlots(w[0])[0];
      var first := Charts(w, sleep, meal, cache);
      var second := Charts(w, sleep, meal, first.cache);
      0 < |first.charts[0].colors| && 0 < |second.charts[0].colors| && Cached(first.cache, s.title) &&
      first.charts[0].colors[0] == Palette[0] &&
      first.cache[s.title] == Palette[1] &&
      second.charts[0].colors[0] == Palette[1]
  {
    var first := Charts(w, sleep, meal, cache);
    FirstRender(w, sleep, meal, cache);
    ChartColors(w, sleep, meal, first.cache, 0, 0);
  }

  /** The first half of `RerenderChangesColor`: what the first render shows and stores. */
  lemma FirstRender(w: Weekly, sleep: real, meal: real, cache: Cache)
    requires HasWeek(w) && |TaskSlots(w[0])| > 0
    requires var s := TaskSlots(w[0])[0]; !s.entry.completed && !Cached(cache, s.title)
    ensures var s := TaskSlots(w[0])[0];
      var first := Charts(w, sleep, meal, cache);
      0 < |first.charts[0].colors| && Cached(first.cache, s.title) &&
      first.charts[0].colors[0] == Palette[0] &&
      first.cache[s.title] == Palette[1]
  {
    var p := Paint([], [], [], cache, 0);
    assert Start(RenderUpTo(w, sleep, meal, cache, 0)) == p;
    PaintNewFirstTask(p, w[0]);
    DayChartIs(w, sleep, meal, cache, 0);
    RenderKeepsFrom(w, sleep, meal, cache, 1);
  }

  /** A day whose first task is new to the cache and not done: its colour, and what the cache keeps for it. */
  lemma PaintNewFirstTask(p: Paint, d: Daily)
    requires |TaskSlots(d)| > 0
    requires var s := TaskSlots(d)[0]; !s.entry.completed && !Cached(p.cache, s.title)
    ensures var s := TaskSlots(d)[0];
      var e := PaintDay(p, d);
      |p.colors| < |e.colors| && e.colors[|p.colors|] == Palette[p.next % 7] &&
      Cached(e.cache, s.title) && e.cache[s.title] == Palette[(p.next + 1) % 7]
  {
    var s := TaskSlots(d)[0];
    FreshTitleTwoColors(p, s);
    PaintFirstTask(p, d);
    var q := PaintSlot(p, s);
    assert q.colors[|p.colors|] == Palette[p.next % 7];
    assert Cached(q.cache, s.title) && q.cache[s.title] == Palette[(p.next + 1) % 7];
  }

  // ---------------------------------------------------------------------
  // moveTask on the charts
  // ---------------------------------------------------------------------

  /** `labels.indexOf(title)`: the first segment with that label, or -1. */
  function IndexOfLabel(labels: seq<string>, title: string): (r: int)
    ensures -1 <= r < |labels|
    ensures 0 <= r ==> labels[r] == title && forall j :: 0 <= j < r ==> labels[j] != title
    ensures r == -1 <==> forall j :: 0 <= j < |labels| ==> labels[j] != title
  {
    if labels == [] then -1
    else if labels[0] == title then 0
    else
      var r := IndexOfLabel(labels[1..], title);
      if r == -1 then -1 else r + 1
  }

  /**
   * The old day after taking `h` hours off segment `i`: a segment that
   * drops to zero or below is removed with its label and colour; nothing
   * happens when the task has no segment (`i` is -1).
   */
  function Lowered(c: DayChart, i: int, h: real): (r: DayChart)
    requires Aligned(c) && -1 <= i < |c.labels|
    ensures Aligned(r)
  {
    if i < 0 then c
    else if c.data[i] - h <= 0.0 then DayChart(Remove(c.labels, i), Remove(c.data, i), Remove(c.colors, i))
    else c.(data := c.data[i := c.data[i] - h])
  }

  /** The new day after adding `h` hours to segment `i`, or a new segment at the end when `i` is -1. */
  function Raised(c: DayChart, i: int, title: string, h: real, color: string): (r: DayChart)
    requires Aligned(c) && -1 <= i < |c.labels|
    ensures Aligned(r)
  {
    if i < 0 then DayChart(c.labels + [title], c.data + [h], c.colors + [color])
    else c.(data := c.data[i := c.data[i] + h])
  }

  predicate AllAligned(charts: seq<DayChart>) {
    forall k :: 0 <= k < |charts| ==> Aligned(charts[k])
  }

  /**
   * Both segment indexes are looked up before the old day is lowered. On a
   * move within one day whose segment drops to zero, the second index is
   * stale: it names the segment that slid into the removed one's place, or,
   * when the removed segment was the last, a position past the end, where
   * the page writes NaN. Every move but that last one is modelled.
   */
  predicate MoveDefined(charts: seq<DayChart>, tasks: seq<Task>, taskId: int, oldDay: string, newDay: string, h: real)
    requires AllAligned(charts)
  {
    DayIndex(oldDay) != DayIndex(newDay) || FindTask(tasks, taskId).None? ||
    !(0 <= DayIndex(oldDay) < |charts|) ||
    var c := charts[DayIndex(oldDay)];
    var i := IndexOfLabel(c.labels, FindTask(tasks, taskId).value.title);
    i < 0 || c.data[i] - h > 0.0 || i < |c.labels| - 1
  }

  /**
   * The charts after `moveTask(taskId, oldDay, newDay, h)`: nothing changes
   * for an unknown task, or when either day is not one of the charts (the
   * page stops at the missing chart before touching anything); otherwise
   * the task's segment on the old day is lowered and the segment found on
   * the new day before that is raised, a new segment taking the task's
   * cached colour, or the fallback colour.
   */
  function MovedChart(charts: seq<DayChart>, tasks: seq<Task>, cache: Cache,
                      taskId: int, oldDay: string, newDay: string, h: real): (r: seq<DayChart>)
    requires AllAligned(charts) && MoveDefined(charts, tasks, taskId, oldDay, newDay, h)
    ensures |r| == |charts| && AllAligned(r)
    ensures FindTask(tasks, taskId).None? ==> r == charts
    ensures !(0 <= DayIndex(oldDay) < |charts| && 0 <= DayIndex(newDay) < |charts|) ==> r == charts
    ensures forall k :: 0 <= k < |charts| && k != DayIndex(oldDay) && k != DayIndex(newDay) ==> r[k] == charts[k]
  {
    match FindTask(tasks, taskId)
    case None => charts
    case Some(task) =>
      var o := DayIndex(oldDay);
      var n := DayIndex(newDay);
      if !(0 <= o < |charts| && 0 <= n < |charts|) then charts
      else
        var oi := IndexOfLabel(charts[o].labels, task.title);
        var ni := IndexOfLabel(charts[n].labels, task.title);
        var lowered := charts[o := Lowered(charts[o], oi, h)];
        var color := if Cached(cache, task.title) then cache[task.title] else FallbackColor;
        lowered[n := Raised(lowered[n], ni, task.title, h, color)]
  }

  /** `Sum` after one value changes. */
  lemma {:induction false} SumUpdate(v: seq<real>, i: nat, x: real)
    requires i < |v|
    ensures Sum(v[i := x]) == Sum(v) - v[i] + x
  {
    if i < |v| - 1 {
      SumUpdate(v[..|v| - 1], i, x);
      assert v[i := x][..|v| - 1] == v[..|v| - 1][i := x];
    } else {
      assert v[i := x][..|v| - 1] == v[..|v| - 1];
    }
  }

  /** `Sum` after one value is spliced out. */
  lemma {:induction false} SumRemove(v: seq<real>, i: nat)
    requires i < |v|
    ensures Sum(Remove(v, i)) == Sum(v) - v[i]
  {
    if i < |v| - 1 {
      SumRemove(v[..|v| - 1], i);
      assert Remove(v, i)[..|v| - 2] == Remove(v[..|v| - 1], i);
    } else {
      assert Remove(v, i) == v[..|v| - 1];
    }
  }

  /** Lowering a segment takes `h` off the day's total, or the whole segment when it drops to zero or below. */
  lemma LoweredSum(c: DayChart, i: int, h: real)
    requires Aligned(c) && -1 <= i < |c.labels|
    ensures Sum(Lowered(c, i, h).data) ==
      Sum(c.data) - (if i < 0 then 0.0 else if c.data[i] - h <= 0.0 then c.data[i] else h)
  {
    if i >= 0 {
      if c.data[i] - h <= 0.0 {
        SumRemove(c.data, i);
      } else {
        SumUpdate(c.data, i, c.data[i] - h);
      }
    }
  }

  /** Raising a segment, or adding one, puts `h` on the day's total. */
  lemma RaisedSum(c: DayChart, i: int, title: string, h: real, color: string)
    requires Aligned(c) && -1 <= i < |c.labels|
    ensures Sum(Raised(c, i, title, h, color).data) == Sum(c.data) + h
  {
    if i >= 0 {
      SumUpdate(c.data, i, c.data[i] + h);
    } else {
      assert (c.data + [h])[..|c.data|] == c.data;
    }
  }

  /**
   * The day totals after a move: the new day gains `h`; the old day loses
   * `h`, or the whole segment when it drops to zero or below, or nothing
   * when the task had no segment there.
   */
  lemma MovedTotals(charts: seq<DayChart>, tasks: seq<Task>, cache: Cache,
                    taskId: int, oldDay: string, newDay: string, h: real)
    requires AllAligned(charts) && DayIndex(oldDay) != DayIndex(newDay)
    requires FindTask(tasks, taskId).Some?
    requires 0 <= DayIndex(oldDay) < |charts| && 0 <= DayIndex(newDay) < |charts|
    ensures var r := MovedChart(charts, tasks, cache, taskId, oldDay, newDay, h);
      var o := DayIndex(oldDay);
      var n := DayIndex(newDay);
      var i := IndexOfLabel(charts[o].labels, FindTask(tasks, taskId).value.title);
      Sum(r[n].data) == Sum(charts[n].data) + h &&
      Sum(r[o].data) == Sum(charts[o].data) - (if i < 0 then 0.0 else if charts[o].data[i] - h <= 0.0 then charts[o].data[i] else h)
  {
    var title := FindTask(tasks, taskId).value.title;
    var o := DayIndex(oldDay);
    var n := DayIndex(newDay);
    var i := IndexOfLabel(charts[o].labels, title);
    var j := IndexOfLabel(charts[n].labels, title);
    var color := if Cached(cache, title) then cache[title] else FallbackColor;
    LoweredSum(charts[o], i, h);
    RaisedSum(charts[n], j, title, h, color);
    assert MovedChart(charts, tasks, cache, taskId, oldDay, newDay, h) ==
      charts[o := Lowered(charts[o], i, h)][n := Raised(charts[n], j, title, h, color)];
  }

  /**
   * One day's chart after lowering segment `i` and raising, with the index
   * taken before the lowering: a missing segment is appended, a segment
   * that stays above zero gets its hours back, and a segment that drops to
   * zero is removed while the one that slides into its place gains `h`.
   */
  lemma LowerRaiseSameIndex(c: DayChart, i: int, title: string, h: real, color: string)
    requires Aligned(c) && -1 <= i < |c.labels|
    requires i < 0 || c.data[i] - h > 0.0 || i < |c.labels| - 1
    ensures -1 <= i < |Lowered(c, i, h).labels|
    ensures var r := Raised(Lowered(c, i, h), i, title, h, color);
      && (i < 0 ==> r.labels == c.labels + [title] && r.data == c.data + [h])
      && (0 <= i && c.data[i] - h > 0.0 ==> r == c)
      && (0 <= i && c.data[i] - h <= 0.0 ==>
            && r.labels == Remove(c.labels, i) && r.colors == Remove(c.colors, i)
            && r.data == Remove(c.data, i)[i := c.data[i + 1] + h])
  {
    if 0 <= i && c.data[i] - h > 0.0 {
      assert c.data[i := c.data[i] - h][i := c.data[i] - h + h] == c.data;
    }
  }

  /**
   * A move within one day: a task without a segment gains one at the end;
   * a segment that stays above zero loses `h` and gets it back; a segment
   * that drops to zero is removed and the segment that slides into its
   * place gains `h` instead.
   */
  lemma SameDayMove(charts: seq<DayChart>, tasks: seq<Task>, cache: Cache, taskId: int, day: string, h: real)
    requires AllAligned(charts) && MoveDefined(charts, tasks, taskId, day, day, h)
    requires FindTask(tasks, taskId).Some? && 0 <= DayIndex(day) < |charts|
    ensures var title := FindTask(tasks, taskId).value.title;
      var c := charts[DayIndex(day)];
      var i := IndexOfLabel(c.labels, title);
      var r := MovedChart(charts, tasks, cache, taskId, day, day, h)[DayIndex(day)];
      && (i < 0 ==> r.labels == c.labels + [title] && r.data == c.data + [h])
      && (0 <= i && c.data[i] - h > 0.0 ==> r == c)
      && (0 <= i && c.data[i] - h <= 0.0 ==>
            && i + 1 < |c.labels|
            && r.labels == Remove(c.labels, i) && r.colors == Remove(c.colors, i)
            && r.data == Remove(c.data, i)[i := c.data[i + 1] + h])
  {
    var title := FindTask(tasks, taskId).value.title;
    var k := DayIndex(day);
    var c := charts[k];
    var i := IndexOfLabel(c.labels, title);
    var color := if Cached(cache, title) then cache[title] else FallbackColor;
    LowerRaiseSameIndex(c, i, title, h, color);
    assert MovedChart(charts, tasks, cache, taskId, day, day, h)[k] == Raised(Lowered(c, i, h), i, title, h, color);
  }

  /** A label that was absent is found at the end once appended. */
  lemma {:induction false} IndexOfLabelAppend(labels: seq<string>, title: string)
    requires IndexOfLabel(labels, title) == -1
    ensures IndexOfLabel(labels + [title], title) == |labels|
  {
    if labels != [] {
      IndexOfLabelAppend(labels[1..], title);
      assert (labels + [title])[1..] == labels[1..] + [title];
    }
  }

  /** Lowering a segment that stays above zero and raising it back restores the day. */
  lemma LowerThenRaise(c: DayChart, title: string, h: real, color: string)
    requires Aligned(c)
    requires var i := IndexOfLabel(c.labels, title); 0 <= i && c.data[i] - h > 0.0
    ensures var i := IndexOfLabel(c.labels, title);
      var l := Lowered(c, i, h);
      IndexOfLabel(l.labels, title) == i && Raised(l, i, title, h, color) == c
  {
    var i := IndexOfLabel(c.labels, title);
    assert c.data[i := c.data[i] - h][i := c.data[i] - h + h] == c.data;
  }

  /** Raising a segment, or adding it, and lowering it back restores the day, unless the segment was not above zero. */
  lemma RaiseThenLower(c: DayChart, title: string, h: real, color: string)
    requires Aligned(c)
    requires var i := IndexOfLabel(c.labels, title); i < 0 || c.data[i] > 0.0
    ensures var i := IndexOfLabel(c.labels, title);
      var r := Raised(c, i, title, h, color);
      Lowered(r, IndexOfLabel(r.labels, title), h) == c
  {
    var i := IndexOfLabel(c.labels, title);
    var r := Raised(c, i, title, h, color);
    if i < 0 {
      IndexOfLabelAppend(c.labels, title);
      assert Remove(r.labels, |c.labels|) == c.labels;
      assert Remove(r.data, |c.labels|) == c.data;
      assert Remove(r.colors, |c.labels|) == c.colors;
    } else {
      assert c.data[i := c.data[i] + h][i := c.data[i] + h - h] == c.data;
    }
  }

  /**
   * Moving `h` hours of a task from one day to another and back restores
   * the charts, when the old day keeps more than `h` hours of the task and
   * the new day either lacks the task or has it above zero.
   */
  lemma MoveThereAndBack(charts: seq<DayChart>, tasks: seq<Task>, cache: Cache,
                         taskId: int, a: string, b: string, h: real)
    requires AllAligned(charts) && a != b
    requires FindTask(tasks, taskId).Some?
    requires 0 <= DayIndex(a) < |charts| && 0 <= DayIndex(b) < |charts|
    requires var title := FindTask(tasks, taskId).value.title;
      var i := IndexOfLabel(charts[DayIndex(a)].labels, title);
      var j := IndexOfLabel(charts[DayIndex(b)].labels, title);
      0 <= i && charts[DayIndex(a)].data[i] - h > 0.0 &&
      (j < 0 || charts[DayIndex(b)].data[j] > 0.0)
    ensures var there := MovedChart(charts, tasks, cache, taskId, a, b, h);
      MovedChart(there, tasks, cache, taskId, b, a, h) == charts
  {
    var title := FindTask(tasks, taskId).value.title;
    var o := DayIndex(a);
    var n := DayIndex(b);
    var color := if Cached(cache, title) then cache[title] else FallbackColor;
    var i := IndexOfLabel(charts[o].labels, title);
    var j := IndexOfLabel(charts[n].labels, title);
    var lowered := Lowered(charts[o], i, h);
    var raised := Raised(charts[n], j, title, h, color);
    LowerThenRaise(charts[o], title, h, color);
    RaiseThenLower(charts[n], title, h, color);
    var there := charts[o := lowered][n := raised];
    assert MovedChart(charts, tasks, cache, taskId, a, b, h) == there;
    MoveBackChart(charts, there, tasks, cache, taskId, a, b, h, lowered, raised);
  }

  /** The second half of `MoveThereAndBack`: the move back, once the first move is known. */
  lemma MoveBackChart(charts: seq<DayChart>, there: seq<DayChart>, tasks: seq<Task>, cache: Cache,
                      taskId: int, a: string, b: string, h: real, lowered: DayChart, raised: DayChart)
    requires AllAligned(charts) && a != b
    requires FindTask(tasks, taskId).Some?
    requires 0 <= DayIndex(a) < |charts| && 0 <= DayIndex(b) < |charts|
    requires Aligned(lowered) && Aligned(raised)
    requires there == charts[DayIndex(a) := lowered][DayIndex(b) := raised]
    requires var title := FindTask(tasks, taskId).value.title;
      var color := if Cached(cache, title) then cache[title] else FallbackColor;
      var i := IndexOfLabel(lowered.labels, title);
      0 <= i && Raised(lowered, i, title, h, color) == charts[DayIndex(a)] &&
      Lowered(raised, IndexOfLabel(raised.labels, title), h) == charts[DayIndex(b)]
    ensures AllAligned(there)
    ensures MovedChart(there, tasks, cache, taskId, b, a, h) == charts
  {
    var o := DayIndex(a);
    var n := DayIndex(b);
    assert there[o] == lowered && there[n] == raised;
    assert charts == there[n := charts[n]][o := charts[o]];
  }

  // ---------------------------------------------------------------------
  // The page
  // ---------------------------------------------------------------------

  class Planner {
    /** The task registry (`tasks`), in its enumeration order. */
    var tasks: seq<Task>
    /** `taskColorsRef.current`. */
    var colors: Cache
    /** `chartData`: the charts on screen. */
    var chart: seq<DayChart>

    constructor(tasks: seq<Task>)
      ensures this.tasks == tasks && colors == map[] && chart == []
    {
      this.tasks := tasks;
      colors := map[];
      chart := [];
    }

    /** Every chart on screen has a label, a value and a colour per segment. */
    predicate Valid()
      reads this
    {
      AllAligned(chart)
    }

    /** `generateChartData(schedule)`: the seven charts, colouring from and into the cache. */
    method GenerateChartData(schedule: Weekly, sleep: real, meal: real) returns (charts: seq<DayChart>)
      requires HasWeek(schedule)
      modifies this
      ensures charts == Charts(schedule, sleep, meal, old(colors)).charts
      ensures colors == Charts(schedule, sleep, meal, old(colors)).cache
      ensures tasks == old(tasks) && chart == old(chart)
    {
      var colorIndex := 0;
      charts := [];
      var k := 0;
      while k < 7
        invariant 0 <= k <= 7
        invariant RenderUpTo(schedule, sleep, meal, old(colors), k) == Render(charts, colors, colorIndex)
        invariant tasks == old(tasks) && chart == old(chart)
      {
        var labels, data, dayColors;
        labels, data, dayColors, colorIndex := PaintTasks(schedule[k], colorIndex);
        ghost var painted := DayChart(labels, data, dayColors);
        data := data + [sleep];
        labels := labels + [Sleep];
        dayColors := dayColors + [SleepColor];
        data := data + [meal];
        labels := labels + [Meal];
        dayColors := dayColors + [MealColor];
        var totalHours := Sum(data);
        if totalHours < FullDay {
          data := data + [FullDay - totalHours];
          labels := labels + [FreeTime];
          dayColors := dayColors + [FreeColor];
        }
        assert DayChart(labels, data, dayColors) == CloseDay(painted.labels, painted.data, painted.colors, sleep, meal);
        charts := charts + [DayChart(labels, data, dayColors)];
        k := k + 1;
      }
    }

    /** The `forEach` over one day's entries: the task slices, coloured from and into the cache. */
    method PaintTasks(dayTasks: Daily, colorIndex0: nat) returns (labels: seq<string>, data: seq<real>, dayColors: seq<string>, colorIndex: nat)
      modifies this
      ensures PaintDay(Paint([], [], [], old(colors), colorIndex0), dayTasks) == Paint(labels, data, dayColors, colors, colorIndex)
      ensures tasks == old(tasks) && chart == old(chart)
    {
      colorIndex := colorIndex0;
      labels, data, dayColors := [], [], [];
      var j := 0;
      while j < |dayTasks|
        invariant 0 <= j <= |dayTasks|
        invariant PaintDay(Paint([], [], [], old(colors), colorIndex0), dayTasks[..j]) == Paint(labels, data, dayColors, colors, colorIndex)
        invariant tasks == old(tasks) && chart == old(chart)
      {
        var slot := dayTasks[j];
        if slot.title != Sleep && slot.title != Meal {
          data := data + [slot.entry.hours];
          labels := labels + [slot.title];
          var shown;
          if slot.entry.completed {
            shown := CompletedColor;
          } else if Cached(colors, slot.title) {
            shown := colors[slot.title];
          } else {
            shown := Palette[colorIndex % |Palette|];
            colorIndex := colorIndex + 1;
          }
          dayColors := dayColors + [shown];
          if !Cached(colors, slot.title) {
            colors := colors[slot.title := Palette[colorIndex % |Palette|]];
          }
        }
        assert dayTasks[..j + 1] == dayTasks[..j] + [slot];
        j := j + 1;
      }
      assert dayTasks[..j] == dayTasks;
    }

    /**
     * `fetchSchedule` once the rows have arrived: rebuild the week from the
     * rows and put its charts on screen.
     */
    method FetchSchedule(rows: seq<Row>, sleep: real, meal: real)
      modifies this
      ensures var r := Charts(Sync.Rebuild(rows, old(tasks)), sleep, meal, old(colors));
        chart == r.charts && colors == r.cache
      ensures tasks == old(tasks) && Valid()
    {
      var schedule := Sync.Rebuild(rows, tasks);
      var charts := GenerateChartData(schedule, sleep, meal);
      chart := charts;
      forall k | 0 <= k < 7
        ensures Aligned(chart[k])
      {
        ChartContents(schedule, sleep, meal, old(colors), k);
      }
    }

    /** `moveTask(taskId, oldDay, newDay, h)`, on the charts on screen. */
    method MoveTask(taskId: int, oldDay: string, newDay: string, h: real)
      requires Valid() && MoveDefined(chart, tasks, taskId, oldDay, newDay, h)
      modifies this
      ensures tasks == old(tasks) && colors == old(colors) && Valid()
      ensures chart == MovedChart(old(chart), tasks, colors, taskId, oldDay, newDay, h)
    {
      var task := FindTask(tasks, taskId);
      if task.None? {
        return;
      }
      var oldDayIndex := DayIndex(oldDay);
      var newDayIndex := DayIndex(newDay);
      if !(0 <= oldDayIndex < |chart| && 0 <= newDayIndex < |chart|) {
        return;
      }
      var title := task.value.title;
      var oldTaskIndex := IndexOfLabel(chart[oldDayIndex].labels, title);
      var newTaskIndex := IndexOfLabel(chart[newDayIndex].labels, title);
      chart := chart[oldDayIndex := Lowered(chart[oldDayIndex], oldTaskIndex, h)];
      var color := if Cached(colors, title) then colors[title] else FallbackColor;
      chart := chart[newDayIndex := Raised(chart[newDayIndex], newTaskIndex, title, h, color)];
    }
  }
}
