/**
 * The allocation engine: `distributeTasks` of frontend/src/pages/Home.tsx.
 *
 * `Math.random()` is an oracle: a finite sequence of draws in [0, 1),
 * consumed left to right. Where the source would keep drawing forever (a
 * long task spread over more than seven days, or draws that never use up a
 * short task's hours) the model runs out of draws and reports OutOfDraws.
 *
 * The spec functions below follow the loops step by step; `Distribute` is
 * the imperative procedure, proved equal to `Allocate`, and the lemmas at
 * the end state what the engine promises about the week it builds.
 */
module Allocation {
  import opened Options
  import opened Week

  /** One row of the batch sent to the store: `{day, task, hours}`. */
  datatype BatchRow = BatchRow(day: string, task: Option<int>, hours: real)

  datatype Outcome =
    | TooManyHours                                   // the capacity error; nothing is built or sent
    | OutOfDraws                                     // the draw sequence ran out
    | Planned(schedule: Weekly, batch: seq<BatchRow>)

  predicate ValidDraws(draws: seq<real>) {
    forall i :: 0 <= i < |draws| ==> 0.0 <= draws[i] < 1.0
  }

  /** Sum of `duration` over every task of the registry, long and short. */
  function TotalDuration(tasks: seq<Task>): real {
    if tasks == [] then 0.0 else tasks[0].duration + TotalDuration(tasks[1..])
  }

  /** Hours left in a week once sleep and meals are taken out. */
  function Available(sleep: real, meal: real): real {
    (24.0 - sleep - meal) * 7.0
  }

  /** `Math.floor(draw * 7)`: the day a draw selects. */
  function DayOf(r: real): (k: nat)
    requires 0.0 <= r < 1.0
    ensures k < 7
  {
    (r * 7.0).Floor
  }

  // ---------------------------------------------------------------------
  // Step 1: the skeleton with the reserved entries

  /** Day k's Sleep and Meal entries, with ids -(2k+1) and -(2k+2). */
  function ReservedDay(k: nat, sleep: real, meal: real): Daily {
    [Slot(Sleep, Entry(sleep, false, -(2 * k + 1))), Slot(Meal, Entry(meal, false, -(2 * k + 2)))]
  }

  /** The blank week with the first n days given their reserved entries. */
  function SkeletonUpTo(n: nat, sleep: real, meal: real): (w: Weekly)
    requires n <= 7
    ensures HasWeek(w)
  {
    if n == 0 then Blank()
    else SkeletonUpTo(n - 1, sleep, meal)[n - 1 := ReservedDay(n - 1, sleep, meal)]
  }

  /** Putting Sleep then Meal into an empty day gives the reserved day. */
  lemma ReservedDayPut(k: nat, sleep: real, meal: real)
    ensures Put(Put([], Sleep, Entry(sleep, false, -(2 * k + 1))), Meal, Entry(meal, false, -(2 * k + 2))) == ReservedDay(k, sleep, meal)
  {
    var e1 := Entry(sleep, false, -(2 * k + 1));
    var d1 := Put([], Sleep, e1);
    assert d1 == [Slot(Sleep, e1)];
    assert Find(d1, Meal).None?;
  }

  lemma {:induction false} SkeletonUpToDays(n: nat, sleep: real, meal: real)
    requires n <= 7
    ensures forall k :: 0 <= k < 7 ==> SkeletonUpTo(n, sleep, meal)[k] == if k < n then ReservedDay(k, sleep, meal) else []
  {
    if n > 0 {
      SkeletonUpToDays(n - 1, sleep, meal);
    }
  }

  function Skeleton(sleep: real, meal: real): (w: Weekly)
    ensures HasWeek(w)
  {
    SkeletonUpTo(7, sleep, meal)
  }

  // ---------------------------------------------------------------------
  // Step 2: long tasks, an even split over distinct days drawn by rejection

  /** A sequence of distinct day indices. */
  predicate DistinctDays(s: seq<nat>) {
    && (forall i :: 0 <= i < |s| ==> s[i] < 7)
    && (forall i, j :: 0 <= i < j < |s| ==> s[i] != s[j])
  }

  /**
   * Rejection sampling: starting from the days already `chosen`, draw days
   * from position `pos` on, skipping repeats, until `want` days are chosen.
   * Gives the chosen days and the next unused draw, or None if draws run out.
   */
  function PickDays(draws: seq<real>, pos: nat, want: int, chosen: seq<nat>): (r: Option<(seq<nat>, nat)>)
    requires ValidDraws(draws) && pos <= |draws| && DistinctDays(chosen)
    ensures r.Some? ==> pos <= r.value.1 <= |draws| && DistinctDays(r.value.0) && chosen <= r.value.0
    ensures r.Some? && |chosen| <= want ==> |r.value.0| == want
    decreases |draws| - pos
  {
    if |chosen| >= want then Some((chosen, pos))
    else if pos == |draws| then None
    else
      var k := DayOf(draws[pos]);
      if k in chosen then PickDays(draws, pos + 1, want, chosen)
      else PickDays(draws, pos + 1, want, chosen + [k])
  }

  /** One draw of the rejection sampling, while days are still missing. */
  lemma PickDaysStep(draws: seq<real>, pos: nat, want: int, chosen: seq<nat>, k: nat)
    requires ValidDraws(draws) && pos < |draws| && DistinctDays(chosen) && |chosen| < want
    requires k == DayOf(draws[pos])
    ensures k in chosen ==> PickDays(draws, pos, want, chosen) == PickDays(draws, pos + 1, want, chosen)
    ensures k !in chosen ==> DistinctDays(chosen + [k])
    ensures k !in chosen ==> PickDays(draws, pos, want, chosen) == PickDays(draws, pos + 1, want, chosen + [k])
  {
  }

  /** Write `title -> e` into each of the selected days, in selection order. */
  function PutOnDays(w: Weekly, sel: seq<nat>, title: string, e: Entry): (r: Weekly)
    requires HasWeek(w) && forall i :: 0 <= i < |sel| ==> sel[i] < 7
    ensures HasWeek(r)
    decreases |sel|
  {
    if sel == [] then w
    else
      var r0 := PutOnDays(w, sel[..|sel| - 1], title, e);
      var k := sel[|sel| - 1];
      r0[k := Put(r0[k], title, e)]
  }

  /** Selecting one more day writes the entry into that day and nowhere else. */
  lemma PutOnDaysAppend(w: Weekly, sel: seq<nat>, k: nat, title: string, e: Entry)
    requires HasWeek(w) && DistinctDays(sel + [k])
    ensures DistinctDays(sel) && k < 7
    ensures PutOnDays(w, sel + [k], title, e) == PutOnDays(w, sel, title, e)[k := Put(PutOnDays(w, sel, title, e)[k], title, e)]
  {
    assert (sel + [k])[|sel|] == k;
    assert (sel + [k])[..|sel|] == sel;
  }

  /** The entry a long task gets on each selected day: `duration / days` hours. */
  function LongEntry(t: Task): Entry
    requires t.days > 0
  {
    Entry(t.duration / (t.days as real), false, t.id)
  }

  /** One long task: pick `days` distinct days and write the even share into each. */
  function PlaceLong(w: Weekly, t: Task, draws: seq<real>, pos: nat): (r: Option<(Weekly, nat)>)
    requires HasWeek(w) && ValidDraws(draws) && pos <= |draws|
    ensures r.Some? ==> HasWeek(r.value.0) && pos <= r.value.1 <= |draws|
  {
    if t.days <= 0 then Some((w, pos))
    else
      match PickDays(draws, pos, t.days, [])
      case None => None
      case Some((sel, p)) => Some((PutOnDays(w, sel, t.title, LongEntry(t)), p))
  }

  /** The long tasks, in registry order. */
  function LongTasks(tasks: seq<Task>): (r: seq<Task>)
    ensures forall u :: u in r <==> u in tasks && !u.isShort
    ensures DistinctTitles(tasks) ==> DistinctTitles(r)
  {
    if tasks == [] then []
    else if !tasks[0].isShort then [tasks[0]] + LongTasks(tasks[1..])
    else LongTasks(tasks[1..])
  }

  /** The short tasks, in registry order. */
  function ShortTasks(tasks: seq<Task>): (r: seq<Task>)
    ensures forall u :: u in r <==> u in tasks && u.isShort
    ensures DistinctTitles(tasks) ==> DistinctTitles(r)
  {
    if tasks == [] then []
    else if tasks[0].isShort then [tasks[0]] + ShortTasks(tasks[1..])
    else ShortTasks(tasks[1..])
  }

  /** Each task goes to exactly one of the two phases, so together they hold the registry. */
  lemma {:induction false} TasksSplit(tasks: seq<Task>)
    ensures |LongTasks(tasks)| + |ShortTasks(tasks)| == |tasks|
    ensures multiset(LongTasks(tasks)) + multiset(ShortTasks(tasks)) == multiset(tasks)
  {
    if tasks != [] {
      TasksSplit(tasks[1..]);
      assert tasks == [tasks[0]] + tasks[1..];
    }
  }

  /**
   * The long filter keeps registry order: filtering a registry split in two
   * is filtering each part and joining the results.
   */
  lemma {:induction false} LongTasksAppend(a: seq<Task>, b: seq<Task>)
    ensures LongTasks(a + b) == LongTasks(a) + LongTasks(b)
  {
    if a == [] {
      assert a + b == b;
    } else {
      var ab := a + b;
      assert ab[0] == a[0];
      assert ab[1..] == a[1..] + b;
      LongTasksAppend(a[1..], b);
    }
  }

  /** The short filter keeps registry order in the same way. */
  lemma {:induction false} ShortTasksAppend(a: seq<Task>, b: seq<Task>)
    ensures ShortTasks(a + b) == ShortTasks(a) + ShortTasks(b)
  {
    if a == [] {
      assert a + b == b;
    } else {
      var ab := a + b;
      assert ab[0] == a[0];
      assert ab[1..] == a[1..] + b;
      ShortTasksAppend(a[1..], b);
    }
  }

  function LongPhase(w: Weekly, longs: seq<Task>, draws: seq<real>, pos: nat): (r: Option<(Weekly, nat)>)
    requires HasWeek(w) && ValidDraws(draws) && pos <= |draws|
    ensures r.Some? ==> HasWeek(r.value.0) && pos <= r.value.1 <= |draws|
    decreases |longs|
  {
    if longs == [] then Some((w, pos))
    else
      match PlaceLong(w, longs[0], draws, pos)
      case None => None
      case Some((w1, p1)) => LongPhase(w1, longs[1..], draws, p1)
  }

  // ---------------------------------------------------------------------
  // Step 3: short tasks, random chunks below two hours

  /** `Math.min(draw * 2, remaining)`. */
  function Chunk(r: real, remaining: real): (c: real)
    requires 0.0 <= r < 1.0 && remaining > 0.0
    ensures 0.0 <= c < 2.0 && c <= remaining
    ensures c == r * 2.0 || c == remaining
  {
    if r * 2.0 < remaining then r * 2.0 else remaining
  }

  /**
   * The day after a chunk of `c` hours of `title`: its entry gains `c` hours
   * in place, or, when the day lacks it, a new entry of `0 + c` hours is
   * appended.
   */
  function AddChunk(d: Daily, title: string, c: real, id: int): Daily
    decreases |d|
  {
    if d == [] then [Slot(title, Entry(0.0 + c, false, id))]
    else if d[0].title == title then [Slot(title, d[0].entry.(hours := d[0].entry.hours + c))] + d[1..]
    else [d[0]] + AddChunk(d[1..], title, c, id)
  }

  /** Adding a chunk for a missing title is `day[title] = {hours: 0, ...}` followed by `day[title].hours += c`. */
  lemma AddChunkNew(d: Daily, title: string, c: real, id: int)
    requires Find(d, title).None?
    ensures AddChunk(d, title, c, id) == Put(Put(d, title, Entry(0.0, false, id)), title, Entry(0.0 + c, false, id))
  {
    var e0 := Entry(0.0, false, id);
    var e1 := Entry(0.0 + c, false, id);
    assert Put(d, title, e0) == d + [Slot(title, e0)];
    PutAfterAppend(d, title, e0, e1);
    AddChunkAbsent(d, title, c, id);
  }

  lemma {:induction false} AddChunkAbsent(d: Daily, title: string, c: real, id: int)
    requires Find(d, title).None?
    ensures AddChunk(d, title, c, id) == d + [Slot(title, Entry(0.0 + c, false, id))]
    decreases |d|
  {
    if d != [] {
      AddChunkAbsent(d[1..], title, c, id);
      assert d == [d[0]] + d[1..];
    }
  }

  lemma {:induction false} PutAfterAppend(d: Daily, title: string, e0: Entry, e1: Entry)
    requires Find(d, title).None?
    ensures Put(d + [Slot(title, e0)], title, e1) == d + [Slot(title, e1)]
    decreases |d|
  {
    if d != [] {
      PutAfterAppend(d[1..], title, e0, e1);
      assert (d + [Slot(title, e0)])[1..] == d[1..] + [Slot(title, e0)];
      assert d == [d[0]] + d[1..];
    }
  }

  /** Adding a chunk for a title the day already has is `day[title].hours += c`. */
  lemma {:induction false} AddChunkPresent(d: Daily, title: string, c: real, id: int, e: Entry)
    requires Find(d, title) == Some(e)
    ensures AddChunk(d, title, c, id) == Put(d, title, e.(hours := e.hours + c))
    decreases |d|
  {
    if d[0].title != title {
      AddChunkPresent(d[1..], title, c, id, e);
    }
  }

  /** Adding a chunk creates the entry with the chunk's hours, or adds them to the existing entry, and touches no other title. */
  lemma AddChunkFind(d: Daily, title: string, c: real, id: int, t: string)
    ensures Find(AddChunk(d, title, c, id), t)
         == if t != title then Find(d, t)
            else if Find(d, title).None? then Some(Entry(0.0 + c, false, id))
            else Some(Find(d, title).value.(hours := Find(d, title).value.hours + c))
  {
    var f := Find(d, title);
    if f.None? {
      AddChunkNew(d, title, c, id);
      var d1 := Put(d, title, Entry(0.0, false, id));
      PutFind(d, title, Entry(0.0, false, id), t);
      PutFind(d1, title, Entry(0.0 + c, false, id), t);
    } else {
      var e := f.value;
      AddChunkPresent(d, title, c, id, e);
      PutFind(d, title, e.(hours := e.hours + c), t);
    }
  }

  /**
   * One short task with `remaining` hours still to place: each round draws a
   * day and a chunk (two draws) and adds the chunk to that day.
   */
  function SpreadShort(w: Weekly, t: Task, remaining: real, draws: seq<real>, pos: nat): (r: Option<(Weekly, nat)>)
    requires HasWeek(w) && ValidDraws(draws) && pos <= |draws|
    ensures r.Some? ==> HasWeek(r.value.0) && pos <= r.value.1 <= |draws|
    decreases |draws| - pos
  {
    if remaining <= 0.0 then Some((w, pos))
    else if |draws| - pos < 2 then None
    else
      var day := DayOf(draws[pos]);
      var c := Chunk(draws[pos + 1], remaining);
      SpreadShort(w[day := AddChunk(w[day], t.title, c, t.id)], t, remaining - c, draws, pos + 2)
  }

  /** One round of `SpreadShort`: chunk `c` goes to day `day`, giving week `w1`. */
  lemma SpreadShortStep(w: Weekly, t: Task, remaining: real, draws: seq<real>, pos: nat, day: nat, c: real, w1: Weekly)
    requires HasWeek(w) && ValidDraws(draws) && pos + 2 <= |draws| && remaining > 0.0
    requires day == DayOf(draws[pos]) && c == Chunk(draws[pos + 1], remaining)
    requires w1 == w[day := AddChunk(w[day], t.title, c, t.id)]
    ensures HasWeek(w1)
    ensures SpreadShort(w, t, remaining, draws, pos) == SpreadShort(w1, t, remaining - c, draws, pos + 2)
  {
  }

  function ShortPhase(w: Weekly, shorts: seq<Task>, draws: seq<real>, pos: nat): (r: Option<(Weekly, nat)>)
    requires HasWeek(w) && ValidDraws(draws) && pos <= |draws|
    ensures r.Some? ==> HasWeek(r.value.0) && pos <= r.value.1 <= |draws|
    decreases |shorts|
  {
    if shorts == [] then Some((w, pos))
    else
      match SpreadShort(w, shorts[0], shorts[0].duration, draws, pos)
      case None => None
      case Some((w1, p1)) => ShortPhase(w1, shorts[1..], draws, p1)
  }

  // ---------------------------------------------------------------------
  // Step 4: the batch

  /** `task.id ? task.id : null`. */
  function TaskRef(id: int): Option<int> {
    if id != 0 then Some(id) else None
  }

  /** The batch rows of one day: every slot but Sleep and Meal, in order. */
  function RowsOfDay(day: string, d: Daily): seq<BatchRow>
    decreases |d|
  {
    if d == [] then []
    else
      var s := d[|d| - 1];
      RowsOfDay(day, d[..|d| - 1]) + (if IsReserved(s.title) then [] else [BatchRow(day, TaskRef(s.entry.id), s.entry.hours)])
  }

  /** The batch rows of the first n days. */
  function FlattenUpTo(w: Weekly, n: nat): seq<BatchRow>
    requires HasWeek(w) && n <= 7
  {
    if n == 0 then [] else FlattenUpTo(w, n - 1) + RowsOfDay(Days[n - 1], w[n - 1])
  }

  function Flatten(w: Weekly): seq<BatchRow>
    requires HasWeek(w)
  {
    FlattenUpTo(w, 7)
  }

  // ---------------------------------------------------------------------
  // The whole run

  function Allocate(tasks: seq<Task>, sleep: real, meal: real, draws: seq<real>): Outcome
    requires ValidDraws(draws)
  {
    if TotalDuration(tasks) > Available(sleep, meal) then TooManyHours
    else
      match LongPhase(Skeleton(sleep, meal), LongTasks(tasks), draws, 0)
      case None => OutOfDraws
      case Some((w1, p1)) =>
        match ShortPhase(w1, ShortTasks(tasks), draws, p1)
        case None => OutOfDraws
        case Some((w2, _)) => Planned(w2, Flatten(w2))
  }

  // ---------------------------------------------------------------------
  // The imperative procedure

  /**
   * `distributeTasks`: check capacity, build the skeleton, spread the long
   * tasks, then the short tasks, then flatten the week into the batch.
   * (Sending the batch and rendering the chart are left to the caller.)
   */
  method Distribute(tasks: seq<Task>, sleep: real, meal: real, draws: seq<real>) returns (r: Outcome)
    requires ValidDraws(draws)
    ensures r == Allocate(tasks, sleep, meal, draws)
  {
    if TotalDuration(tasks) > Available(sleep, meal) {
      return TooManyHours;
    }
    var w := BuildSkeleton(sleep, meal);
    var long := SpreadLongTasks(w, LongTasks(tasks), draws);
    if long.None? {
      return OutOfDraws;
    }
    var short := SpreadShortTasks(long.value.0, ShortTasks(tasks), draws, long.value.1);
    if short.None? {
      return OutOfDraws;
    }
    var batch := FlattenWeek(short.value.0);
    return Planned(short.value.0, batch);
  }

  /** The seven days, each given Sleep then Meal with ids counting down from -1. */
  method BuildSkeleton(sleep: real, meal: real) returns (w: Weekly)
    ensures w == Skeleton(sleep, meal)
  {
    w := Blank();
    var nextNegativeId := -1;
    var i := 0;
    while i < 7
      invariant 0 <= i <= 7 && nextNegativeId == -(2 * i + 1)
      invariant w == SkeletonUpTo(i, sleep, meal)
    {
      SkeletonUpToDays(i, sleep, meal);
      var day := w[i];
      assert day == [];
      day := Put(day, Sleep, Entry(sleep, false, nextNegativeId));
      nextNegativeId := nextNegativeId - 1;
      day := Put(day, Meal, Entry(meal, false, nextNegativeId));
      nextNegativeId := nextNegativeId - 1;
      ReservedDayPut(i, sleep, meal);
      w := w[i := day];
      i := i + 1;
    }
  }

  /** `longTasks.forEach(...)`, starting at the first draw. */
  method SpreadLongTasks(w0: Weekly, longs: seq<Task>, draws: seq<real>) returns (r: Option<(Weekly, nat)>)
    requires HasWeek(w0) && ValidDraws(draws)
    ensures r == LongPhase(w0, longs, draws, 0)
  {
    var w: Weekly, pos: nat := w0, 0;
    var n := 0;
    while n < |longs|
      invariant 0 <= n <= |longs| && pos <= |draws| && HasWeek(w)
      invariant LongPhase(w, longs[n..], draws, pos) == LongPhase(w0, longs, draws, 0)
    {
      assert longs[n..][1..] == longs[n + 1..];
      var placed := PlaceLongTask(w, longs[n], draws, pos);
      if placed.None? {
        return None;
      }
      w, pos := placed.value.0, placed.value.1;
      n := n + 1;
    }
    return Some((w, pos));
  }

  /** One long task: `while (selectedDays.length < task.days)`. */
  method PlaceLongTask(w0: Weekly, t: Task, draws: seq<real>, p0: nat) returns (r: Option<(Weekly, nat)>)
    requires HasWeek(w0) && ValidDraws(draws) && p0 <= |draws|
    ensures r == PlaceLong(w0, t, draws, p0)
  {
    if t.days <= 0 {
      return Some((w0, p0));
    }
    var share := LongEntry(t);
    var w: Weekly, pos: nat := w0, p0;
    var selected: seq<nat> := [];
    ghost var picked := PickDays(draws, p0, t.days, []);
    while |selected| < t.days
      invariant p0 <= pos <= |draws| && HasWeek(w) && DistinctDays(selected)
      invariant PickDays(draws, pos, t.days, selected) == picked
      invariant w == PutOnDays(w0, selected, t.title, share)
      decreases |draws| - pos
    {
      if pos == |draws| {
        return None;
      }
      var k := DayOf(draws[pos]);
      PickDaysStep(draws, pos, t.days, selected, k);
      if k !in selected {
        PutOnDaysAppend(w0, selected, k, t.title, share);
        w := w[k := Put(w[k], t.title, share)];
        selected := selected + [k];
      }
      pos := pos + 1;
    }
    return Some((w, pos));
  }

  /** `shortTasks.forEach(...)`, from the first draw the long tasks left unused. */
  method SpreadShortTasks(w0: Weekly, shorts: seq<Task>, draws: seq<real>, p0: nat) returns (r: Option<(Weekly, nat)>)
    requires HasWeek(w0) && ValidDraws(draws) && p0 <= |draws|
    ensures r == ShortPhase(w0, shorts, draws, p0)
  {
    var w: Weekly, pos: nat := w0, p0;
    var n := 0;
    while n < |shorts|
      invariant 0 <= n <= |shorts| && pos <= |draws| && HasWeek(w)
      invariant ShortPhase(w, shorts[n..], draws, pos) == ShortPhase(w0, shorts, draws, p0)
    {
      assert shorts[n..][1..] == shorts[n + 1..];
      var spread := SpreadShortTask(w, shorts[n], draws, pos);
      if spread.None? {
        return None;
      }
      w, pos := spread.value.0, spread.value.1;
      n := n + 1;
    }
    return Some((w, pos));
  }

  /** One short task: `while (remainingHours > 0)`. */
  method SpreadShortTask(w0: Weekly, t: Task, draws: seq<real>, p0: nat) returns (r: Option<(Weekly, nat)>)
    requires HasWeek(w0) && ValidDraws(draws) && p0 <= |draws|
    ensures r == SpreadShort(w0, t, t.duration, draws, p0)
  {
    var w: Weekly, pos: nat := w0, p0;
    var remainingHours := t.duration;
    while remainingHours > 0.0
      invariant pos <= |draws| && HasWeek(w)
      invariant SpreadShort(w, t, remainingHours, draws, pos) == SpreadShort(w0, t, t.duration, draws, p0)
      decreases |draws| - pos
    {
      if |draws| - pos < 2 {
        return None;
      }
      var day := DayOf(draws[pos]);
      var randomHour := Chunk(draws[pos + 1], remainingHours);
      var entries := AddHours(w[day], t.title, randomHour, t.id);
      SpreadShortStep(w, t, remainingHours, draws, pos, day, randomHour, w[day := entries]);
      w := w[day := entries];
      remainingHours := remainingHours - randomHour;
      pos := pos + 2;
    }
    return Some((w, pos));
  }

  /** `if (!newSchedule[day][taskName]) {...}; newSchedule[day][taskName].hours += randomHour`. */
  method AddHours(d: Daily, title: string, c: real, id: int) returns (r: Daily)
    ensures r == AddChunk(d, title, c, id)
  {
    r := d;
    if Find(r, title).None? {
      AddChunkNew(d, title, c, id);
      r := Put(r, title, Entry(0.0, false, id));
    } else {
      AddChunkPresent(d, title, c, id, Find(d, title).value);
    }
    var e := Find(r, title).value;
    r := Put(r, title, e.(hours := e.hours + c));
  }

  /** The nested `forEach` that builds the batch. */
  method FlattenWeek(w: Weekly) returns (batch: seq<BatchRow>)
    requires HasWeek(w)
    ensures batch == Flatten(w)
  {
    batch := [];
    var i := 0;
    while i < 7
      invariant 0 <= i <= 7 && batch == FlattenUpTo(w, i)
    {
      var day := Days[i];
      var d := w[i];
      var j := 0;
      while j < |d|
        invariant 0 <= j <= |d| && batch == FlattenUpTo(w, i) + RowsOfDay(day, d[..j])
      {
        assert d[..j + 1][..j] == d[..j];
        if !IsReserved(d[j].title) {
          batch := batch + [BatchRow(day, TaskRef(d[j].entry.id), d[j].entry.hours)];
        }
        j := j + 1;
      }
      assert d[..|d|] == d;
      i := i + 1;
    }
  }
}
