/**
 * What `distributeTasks` (frontend/src/pages/Home.tsx) promises about the
 * week it builds, proved about `Allocation.Allocate`: the reserved entries
 * survive, every long task lands on exactly `days` distinct days with an
 * even share of its duration, every short task's chunks add up to its
 * duration, no task disturbs another's entries, and the batch holds exactly
 * the non-reserved entries of the week.
 */
module AllocationFacts {
  import opened Options
  import opened Week
  import opened Allocation

  /** A column with no entry on any day. */
  predicate Empty(col: seq<Option<Entry>>) {
    forall k :: 0 <= k < |col| ==> col[k].None?
  }

  /** `title` has no entry on any day of `w`. */
  predicate Absent(w: Weekly, title: string)
    requires HasWeek(w)
  {
    Empty(Column(w, title))
  }

  /** No task of `ts` is titled `title`. */
  predicate NotTitleOf(title: string, ts: seq<Task>) {
    forall i :: 0 <= i < |ts| ==> ts[i].title != title
  }

  /**
   * What a long task leaves in its column: nothing when `days <= 0`;
   * otherwise exactly `days` days, each holding `duration / days` hours,
   * summing to the task's duration.
   */
  predicate LongPlacedIn(col: seq<Option<Entry>>, t: Task)
    requires |col| == 7
  {
    if t.days <= 0 then Empty(col)
    else
      && CountDays(col) == t.days
      && ColumnHours(col) == t.duration
      && forall k :: 0 <= k < 7 ==> col[k].None? || col[k] == Some(LongEntry(t))
  }

  /** Every entry of the column belongs to task `t` and is not completed. */
  predicate OwnedBy(col: seq<Option<Entry>>, t: Task) {
    forall k :: 0 <= k < |col| ==> col[k].None? || (col[k].value.id == t.id && !col[k].value.completed)
  }

  /**
   * What a short task leaves in its column: nothing when its duration is not
   * positive; otherwise its own uncompleted entries, summing to its duration.
   */
  predicate ShortPlacedIn(col: seq<Option<Entry>>, t: Task)
    requires |col| == 7
  {
    if t.duration <= 0.0 then Empty(col)
    else ColumnHours(col) == t.duration && OwnedBy(col, t)
  }

  lemma {:induction false} EmptyColumn(col: seq<Option<Entry>>)
    requires Empty(col)
    ensures CountDays(col) == 0 && ColumnHours(col) == 0.0
  {
    if col != [] {
      EmptyColumn(col[1..]);
    }
  }

  // ---------------------------------------------------------------------
  // The skeleton

  /** Each day of the skeleton holds Sleep and Meal with their ids, and nothing else. */
  lemma SkeletonEntries(sleep: real, meal: real, k: nat, x: string)
    requires k < 7
    ensures Find(Skeleton(sleep, meal)[k], x)
         == if x == Sleep then Some(Entry(sleep, false, -(2 * k + 1)))
            else if x == Meal then Some(Entry(meal, false, -(2 * k + 2)))
            else None
  {
    SkeletonUpToDays(7, sleep, meal);
    var d := ReservedDay(k, sleep, meal);
    assert d[1..] == [d[1]] && d[1..][1..] == [];
    assert Find(d, x) == if x == Sleep then Some(d[0].entry) else Find(d[1..], x);
    assert Find(d[1..], x) == if x == Meal then Some(d[1].entry) else Find(d[1..][1..], x);
  }

  /** A title other than Sleep and Meal starts out absent. */
  lemma SkeletonAbsent(sleep: real, meal: real, x: string)
    requires !IsReserved(x)
    ensures Absent(Skeleton(sleep, meal), x)
  {
    forall k | 0 <= k < 7
      ensures Column(Skeleton(sleep, meal), x)[k] == None
    {
      SkeletonEntries(sleep, meal, k, x);
    }
  }

  // ---------------------------------------------------------------------
  // Long tasks

  /** The days a selection has picked. */
  function Picked(s: seq<nat>): (r: set<nat>)
    ensures forall x :: x in r ==> x in s
  {
    if s == [] then {} else {s[0]} + Picked(s[1..])
  }

  /** Seven days admit at most seven distinct picks. */
  lemma DistinctDaysBound(s: seq<nat>)
    requires DistinctDays(s)
    ensures |s| <= 7
  {
    DistinctCard(s);
    forall x | x in Picked(s)
      ensures x < 7
    {
      var i :| 0 <= i < |s| && s[i] == x;
    }
    BelowCard(Picked(s), 7);
  }

  lemma {:induction false} DistinctCard(s: seq<nat>)
    requires DistinctDays(s)
    ensures |Picked(s)| == |s|
  {
    if s != [] {
      var rest := s[1..];
      assert DistinctDays(rest);
      DistinctCard(rest);
      assert s[0] !in rest;
    }
  }

  /** A set of numbers below n has at most n members. */
  lemma {:induction false} BelowCard(a: set<nat>, n: nat)
    requires forall x :: x in a ==> x < n
    ensures |a| <= n
  {
    if n > 0 {
      BelowCard(a - {n - 1}, n - 1);
    }
  }

  /** `while (selectedDays.length < task.days)` with `days > 7` never ends: the model runs out of draws. */
  lemma OverSevenDaysNeverPlaced(w: Weekly, t: Task, draws: seq<real>, pos: nat)
    requires HasWeek(w) && ValidDraws(draws) && pos <= |draws| && t.days > 7
    ensures PlaceLong(w, t, draws, pos).None?
  {
    var picked := PickDays(draws, pos, t.days, []);
    if picked.Some? {
      DistinctDaysBound(picked.value.0);
    }
  }

  /** Writing a long task into the selected days, day by day. */
  lemma {:induction false} PutOnDaysFind(w: Weekly, sel: seq<nat>, title: string, e: Entry, k: nat, x: string)
    requires HasWeek(w) && DistinctDays(sel) && k < 7
    ensures Find(PutOnDays(w, sel, title, e)[k], x) == if x == title && k in sel then Some(e) else Find(w[k], x)
    decreases |sel|
  {
    if sel != [] {
      var init := sel[..|sel| - 1];
      var j := sel[|sel| - 1];
      assert DistinctDays(init);
      assert sel == init + [j];
      PutOnDaysFind(w, init, title, e, k, x);
      if k == j {
        PutFind(PutOnDays(w, init, title, e)[k], title, e, x);
      }
    }
  }

  /** The selected days' entries leave every other title's column as it was. */
  lemma PutOnDaysOther(w: Weekly, sel: seq<nat>, title: string, e: Entry, x: string)
    requires HasWeek(w) && DistinctDays(sel) && x != title
    ensures Column(PutOnDays(w, sel, title, e), x) == Column(w, x)
  {
    forall k | 0 <= k < 7
      ensures Column(PutOnDays(w, sel, title, e), x)[k] == Column(w, x)[k]
    {
      PutOnDaysFind(w, sel, title, e, k, x);
    }
  }

  /** Into an absent title's column, `sel` puts an entry on exactly `|sel|` days. */
  lemma {:induction false} PutOnDaysCount(w: Weekly, sel: seq<nat>, title: string, e: Entry)
    requires HasWeek(w) && DistinctDays(sel) && Absent(w, title)
    ensures CountDays(Column(PutOnDays(w, sel, title, e), title)) == |sel|
    decreases |sel|
  {
    if sel == [] {
      EmptyColumn(Column(w, title));
    } else {
      var init := sel[..|sel| - 1];
      var j := sel[|sel| - 1];
      assert DistinctDays(init);
      assert j !in init;
      PutOnDaysCount(w, init, title, e);
      var r0 := PutOnDays(w, init, title, e);
      var col := Column(r0, title);
      PutOnDaysFind(w, init, title, e, j, title);
      assert Column(w, title)[j] == None;
      assert col[j] == None;
      PutFind(r0[j], title, e, title);
      ColumnAfterUpdate(r0, j, Put(r0[j], title, e), title);
      assert PutOnDays(w, sel, title, e) == r0[j := Put(r0[j], title, e)];
      CountDaysFill(col, j, e);
    }
  }

  /** `n` copies of `h` added up. */
  function Times(n: nat, h: real): real {
    if n == 0 then 0.0 else Times(n - 1, h) + h
  }

  /** A column whose entries are all `e`, on `n` days, holds `n` copies of `e.hours`. */
  lemma {:induction false} UniformHours(col: seq<Option<Entry>>, e: Entry, n: nat)
    requires forall k :: 0 <= k < |col| ==> col[k].None? || col[k] == Some(e)
    requires CountDays(col) == n
    ensures ColumnHours(col) == Times(n, e.hours)
  {
    if col != [] {
      if col[0].Some? {
        UniformHours(col[1..], e, n - 1);
      } else {
        UniformHours(col[1..], e, n);
      }
    }
  }

  lemma {:induction false} TimesMul(n: nat, h: real)
    ensures Times(n, h) == n as real * h
  {
    if n > 0 {
      TimesMul(n - 1, h);
    }
  }

  /** `n` even shares of `d` add back up to `d`. */
  lemma EvenShares(n: nat, d: real)
    requires n > 0
    ensures Times(n, d / n as real) == d
  {
    TimesMul(n, d / n as real);
  }

  /** `days` entries of `duration / days` hours add back up to the duration. */
  lemma LongColumnHours(col: seq<Option<Entry>>, t: Task)
    requires t.days > 0 && CountDays(col) == t.days
    requires forall k :: 0 <= k < |col| ==> col[k].None? || col[k] == Some(LongEntry(t))
    ensures ColumnHours(col) == t.duration
  {
    UniformHours(col, LongEntry(t), t.days);
    EvenShares(t.days, t.duration);
  }

  /** A long task never touches another title. */
  lemma PlaceLongOther(w: Weekly, t: Task, draws: seq<real>, pos: nat, x: string)
    requires HasWeek(w) && ValidDraws(draws) && pos <= |draws| && x != t.title
    ensures PlaceLong(w, t, draws, pos).Some? ==> Column(PlaceLong(w, t, draws, pos).value.0, x) == Column(w, x)
  {
    if t.days > 0 {
      var picked := PickDays(draws, pos, t.days, []);
      if picked.Some? {
        PutOnDaysOther(w, picked.value.0, t.title, LongEntry(t), x);
      }
    }
  }

  /** A placed long task occupies exactly `days` days with an even share of its duration each. */
  lemma PlaceLongSpreads(w: Weekly, t: Task, draws: seq<real>, pos: nat)
    requires HasWeek(w) && ValidDraws(draws) && pos <= |draws| && Absent(w, t.title)
    ensures PlaceLong(w, t, draws, pos).Some? ==> LongPlacedIn(Column(PlaceLong(w, t, draws, pos).value.0, t.title), t)
  {
    if t.days > 0 {
      var picked := PickDays(draws, pos, t.days, []);
      if picked.Some? {
        var sel := picked.value.0;
        var w1 := PutOnDays(w, sel, t.title, LongEntry(t));
        PutOnDaysCount(w, sel, t.title, LongEntry(t));
        forall k | 0 <= k < 7
          ensures Column(w1, t.title)[k].None? || Column(w1, t.title)[k] == Some(LongEntry(t))
        {
          PutOnDaysFind(w, sel, t.title, LongEntry(t), k, t.title);
        }
        assert PlaceLong(w, t, draws, pos) == Some((w1, picked.value.1));
        LongColumnHours(Column(w1, t.title), t);
      }
    }
  }

  lemma {:induction false} LongPhaseOther(w: Weekly, longs: seq<Task>, draws: seq<real>, pos: nat, x: string)
    requires HasWeek(w) && ValidDraws(draws) && pos <= |draws| && NotTitleOf(x, longs)
    ensures LongPhase(w, longs, draws, pos).Some? ==> Column(LongPhase(w, longs, draws, pos).value.0, x) == Column(w, x)
    decreases |longs|
  {
    if longs != [] {
      var placed := PlaceLong(w, longs[0], draws, pos);
      if placed.Some? {
        PlaceLongOther(w, longs[0], draws, pos, x);
        LongPhaseOther(placed.value.0, longs[1..], draws, placed.value.1, x);
      }
    }
  }

  lemma {:induction false} LongPhasePlaces(w: Weekly, longs: seq<Task>, draws: seq<real>, pos: nat)
    requires HasWeek(w) && ValidDraws(draws) && pos <= |draws| && DistinctTitles(longs)
    requires forall i :: 0 <= i < |longs| ==> Absent(w, longs[i].title)
    ensures LongPhase(w, longs, draws, pos).Some? ==>
              forall i :: 0 <= i < |longs| ==> LongPlacedIn(Column(LongPhase(w, longs, draws, pos).value.0, longs[i].title), longs[i])
    decreases |longs|
  {
    if longs != [] {
      var placed := PlaceLong(w, longs[0], draws, pos);
      if placed.Some? {
        var w1 := placed.value.0;
        var rest := longs[1..];
        PlaceLongSpreads(w, longs[0], draws, pos);
        forall i | 0 <= i < |rest|
          ensures Absent(w1, rest[i].title)
        {
          assert rest[i] == longs[i + 1];
          PlaceLongOther(w, longs[0], draws, pos, rest[i].title);
        }
        assert DistinctTitles(rest);
        LongPhasePlaces(w1, rest, draws, placed.value.1);
        assert NotTitleOf(longs[0].title, rest);
        LongPhaseOther(w1, rest, draws, placed.value.1, longs[0].title);
        if LongPhase(w, longs, draws, pos).Some? {
          var w2 := LongPhase(w, longs, draws, pos).value.0;
          forall i | 0 <= i < |longs|
            ensures LongPlacedIn(Column(w2, longs[i].title), longs[i])
          {
            if i > 0 {
              assert longs[i] == rest[i - 1];
            }
          }
        }
      }
    }
  }

  lemma {:induction false} LongPhaseStuck(w: Weekly, longs: seq<Task>, draws: seq<real>, pos: nat, i: nat)
    requires HasWeek(w) && ValidDraws(draws) && pos <= |draws| && i < |longs| && longs[i].days > 7
    ensures LongPhase(w, longs, draws, pos).None?
    decreases |longs|
  {
    if i == 0 {
      OverSevenDaysNeverPlaced(w, longs[0], draws, pos);
    } else {
      var placed := PlaceLong(w, longs[0], draws, pos);
      if placed.Some? {
        LongPhaseStuck(placed.value.0, longs[1..], draws, placed.value.1, i - 1);
      }
    }
  }

  // ---------------------------------------------------------------------
  // Short tasks

  /** A short task never touches another title. */
  lemma {:induction false} SpreadShortOther(w: Weekly, t: Task, remaining: real, draws: seq<real>, pos: nat, x: string)
    requires HasWeek(w) && ValidDraws(draws) && pos <= |draws| && x != t.title
    ensures SpreadShort(w, t, remaining, draws, pos).Some? ==> Column(SpreadShort(w, t, remaining, draws, pos).value.0, x) == Column(w, x)
    decreases |draws| - pos
  {
    if remaining > 0.0 && |draws| - pos >= 2 {
      var day := DayOf(draws[pos]);
      var c := Chunk(draws[pos + 1], remaining);
      var d := AddChunk(w[day], t.title, c, t.id);
      var w1 := w[day := d];
      SpreadShortStep(w, t, remaining, draws, pos, day, c, w1);
      AddChunkFind(w[day], t.title, c, t.id, x);
      ColumnAfterUpdate(w, day, d, x);
      assert Column(w, x)[day := Find(d, x)] == Column(w, x);
      SpreadShortOther(w1, t, remaining - c, draws, pos + 2, x);
    }
  }

  /** The chunks of a short task add up to exactly the hours it started with (none when that is not positive). */
  lemma {:induction false} SpreadShortHours(w: Weekly, t: Task, remaining: real, draws: seq<real>, pos: nat)
    requires HasWeek(w) && ValidDraws(draws) && pos <= |draws|
    ensures SpreadShort(w, t, remaining, draws, pos).Some? ==>
              ColumnHours(Column(SpreadShort(w, t, remaining, draws, pos).value.0, t.title))
              == ColumnHours(Column(w, t.title)) + (if remaining > 0.0 then remaining else 0.0)
    decreases |draws| - pos
  {
    if remaining > 0.0 && |draws| - pos >= 2 {
      var day := DayOf(draws[pos]);
      var c := Chunk(draws[pos + 1], remaining);
      var d := AddChunk(w[day], t.title, c, t.id);
      var col := Column(w, t.title);
      var w1 := w[day := d];
      SpreadShortStep(w, t, remaining, draws, pos, day, c, w1);
      AddChunkFind(w[day], t.title, c, t.id, t.title);
      ColumnAfterUpdate(w, day, d, t.title);
      ColumnHoursUpdate(col, day, Find(d, t.title));
      assert HoursOf(Find(d, t.title)) == HoursOf(col[day]) + c;
      assert ColumnHours(Column(w1, t.title)) == ColumnHours(col) + c;
      SpreadShortHours(w1, t, remaining - c, draws, pos + 2);
      var r := SpreadShort(w1, t, remaining - c, draws, pos + 2);
      if r.Some? {
        assert ColumnHours(Column(r.value.0, t.title)) == ColumnHours(Column(w1, t.title)) + (remaining - c);
      }
    }
  }

  /** Every entry a short task creates is the task's own and not completed. */
  lemma {:induction false} SpreadShortOwned(w: Weekly, t: Task, remaining: real, draws: seq<real>, pos: nat)
    requires HasWeek(w) && ValidDraws(draws) && pos <= |draws|
    requires OwnedBy(Column(w, t.title), t)
    ensures SpreadShort(w, t, remaining, draws, pos).Some? ==> OwnedBy(Column(SpreadShort(w, t, remaining, draws, pos).value.0, t.title), t)
    decreases |draws| - pos
  {
    if remaining > 0.0 && |draws| - pos >= 2 {
      var day := DayOf(draws[pos]);
      var c := Chunk(draws[pos + 1], remaining);
      var d := AddChunk(w[day], t.title, c, t.id);
      var w1 := w[day := d];
      SpreadShortStep(w, t, remaining, draws, pos, day, c, w1);
      AddChunkFind(w[day], t.title, c, t.id, t.title);
      ColumnAfterUpdate(w, day, d, t.title);
      var col := Column(w, t.title);
      assert col[day] == Find(w[day], t.title);
      assert Find(d, t.title).Some? && Find(d, t.title).value.id == t.id && !Find(d, t.title).value.completed;
      assert Column(w1, t.title) == col[day := Find(d, t.title)];
      assert OwnedBy(Column(w1, t.title), t);
      SpreadShortOwned(w1, t, remaining - c, draws, pos + 2);
    }
  }

  lemma {:induction false} ShortPhaseOther(w: Weekly, shorts: seq<Task>, draws: seq<real>, pos: nat, x: string)
    requires HasWeek(w) && ValidDraws(draws) && pos <= |draws| && NotTitleOf(x, shorts)
    ensures ShortPhase(w, shorts, draws, pos).Some? ==> Column(ShortPhase(w, shorts, draws, pos).value.0, x) == Column(w, x)
    decreases |shorts|
  {
    if shorts != [] {
      var spread := SpreadShort(w, shorts[0], shorts[0].duration, draws, pos);
      if spread.Some? {
        SpreadShortOther(w, shorts[0], shorts[0].duration, draws, pos, x);
        ShortPhaseOther(spread.value.0, shorts[1..], draws, spread.value.1, x);
      }
    }
  }

  lemma SpreadShortPlaces(w: Weekly, t: Task, draws: seq<real>, pos: nat)
    requires HasWeek(w) && ValidDraws(draws) && pos <= |draws| && Absent(w, t.title)
    ensures SpreadShort(w, t, t.duration, draws, pos).Some? ==>
              ShortPlacedIn(Column(SpreadShort(w, t, t.duration, draws, pos).value.0, t.title), t)
  {
    EmptyColumn(Column(w, t.title));
    SpreadShortHours(w, t, t.duration, draws, pos);
    SpreadShortOwned(w, t, t.duration, draws, pos);
  }

  lemma {:induction false} ShortPhasePlaces(w: Weekly, shorts: seq<Task>, draws: seq<real>, pos: nat)
    requires HasWeek(w) && ValidDraws(draws) && pos <= |draws| && DistinctTitles(shorts)
    requires forall i :: 0 <= i < |shorts| ==> Absent(w, shorts[i].title)
    ensures ShortPhase(w, shorts, draws, pos).Some? ==>
              forall i :: 0 <= i < |shorts| ==> ShortPlacedIn(Column(ShortPhase(w, shorts, draws, pos).value.0, shorts[i].title), shorts[i])
    decreases |shorts|
  {
    if shorts != [] {
      var spread := SpreadShort(w, shorts[0], shorts[0].duration, draws, pos);
      if spread.Some? {
        var w1 := spread.value.0;
        var rest := shorts[1..];
        SpreadShortPlaces(w, shorts[0], draws, pos);
        forall i | 0 <= i < |rest|
          ensures Absent(w1, rest[i].title)
        {
          assert rest[i] == shorts[i + 1];
          SpreadShortOther(w, shorts[0], shorts[0].duration, draws, pos, rest[i].title);
        }
        assert DistinctTitles(rest);
        ShortPhasePlaces(w1, rest, draws, spread.value.1);
        assert NotTitleOf(shorts[0].title, rest);
        ShortPhaseOther(w1, rest, draws, spread.value.1, shorts[0].title);
        if ShortPhase(w, shorts, draws, pos).Some? {
          var w2 := ShortPhase(w, shorts, draws, pos).value.0;
          forall i | 0 <= i < |shorts|
            ensures ShortPlacedIn(Column(w2, shorts[i].title), shorts[i])
          {
            if i > 0 {
              assert shorts[i] == rest[i - 1];
            }
          }
        }
      }
    }
  }

  // ---------------------------------------------------------------------
  // The whole run

  /** A long task and a short task of a registry with distinct titles never share a title. */
  lemma LongShortApart(tasks: seq<Task>, x: string)
    requires DistinctTitles(tasks)
    ensures (exists i :: 0 <= i < |LongTasks(tasks)| && LongTasks(tasks)[i].title == x) ==> NotTitleOf(x, ShortTasks(tasks))
    ensures (exists i :: 0 <= i < |ShortTasks(tasks)| && ShortTasks(tasks)[i].title == x) ==> NotTitleOf(x, LongTasks(tasks))
  {
    var longs, shorts := LongTasks(tasks), ShortTasks(tasks);
    forall i, j | 0 <= i < |longs| && 0 <= j < |shorts|
      ensures longs[i].title != shorts[j].title
    {
      assert longs[i] in tasks && shorts[j] in tasks;
      var a :| 0 <= a < |tasks| && tasks[a] == longs[i];
      var b :| 0 <= b < |tasks| && tasks[b] == shorts[j];
      assert a != b;
    }
  }

  /**
   * A planned week keeps every day's Sleep and Meal entries, holds every long
   * task on exactly `days` days with an even share of its duration, and every
   * short task's chunks summing to its duration.
   */
  lemma PlannedWeek(tasks: seq<Task>, sleep: real, meal: real, draws: seq<real>)
    requires ValidDraws(draws) && DistinctTitles(tasks) && NoReservedTitles(tasks)
    ensures Allocate(tasks, sleep, meal, draws).Planned? ==>
      var w := Allocate(tasks, sleep, meal, draws).schedule;
      && HasWeek(w)
      && (forall k :: 0 <= k < 7 ==> Find(w[k], Sleep) == Some(Entry(sleep, false, -(2 * k + 1))))
      && (forall k :: 0 <= k < 7 ==> Find(w[k], Meal) == Some(Entry(meal, false, -(2 * k + 2))))
      && (forall u :: u in tasks && !u.isShort ==> LongPlacedIn(Column(w, u.title), u))
      && (forall u :: u in tasks && u.isShort ==> ShortPlacedIn(Column(w, u.title), u))
  {
    if Allocate(tasks, sleep, meal, draws).Planned? {
      var w0 := Skeleton(sleep, meal);
      var longs, shorts := LongTasks(tasks), ShortTasks(tasks);
      var (w1, p1) := LongPhase(w0, longs, draws, 0).value;
      var w2 := ShortPhase(w1, shorts, draws, p1).value.0;
      forall i | 0 <= i < |longs|
        ensures Absent(w0, longs[i].title)
      {
        assert longs[i] in tasks;
        SkeletonAbsent(sleep, meal, longs[i].title);
      }
      LongPhasePlaces(w0, longs, draws, 0);
      forall i | 0 <= i < |shorts|
        ensures Absent(w1, shorts[i].title)
      {
        assert shorts[i] in tasks;
        SkeletonAbsent(sleep, meal, shorts[i].title);
        LongShortApart(tasks, shorts[i].title);
        LongPhaseOther(w0, longs, draws, 0, shorts[i].title);
      }
      ShortPhasePlaces(w1, shorts, draws, p1);
      forall u | u in tasks && !u.isShort
        ensures LongPlacedIn(Column(w2, u.title), u)
      {
        var i :| 0 <= i < |longs| && longs[i] == u;
        LongShortApart(tasks, u.title);
        ShortPhaseOther(w1, shorts, draws, p1, u.title);
      }
      forall x | IsReserved(x)
        ensures Column(w2, x) == Column(w0, x)
      {
        LongPhaseOther(w0, longs, draws, 0, x);
        ShortPhaseOther(w1, shorts, draws, p1, x);
      }
      forall k | 0 <= k < 7
        ensures Find(w2[k], Sleep) == Some(Entry(sleep, false, -(2 * k + 1)))
        ensures Find(w2[k], Meal) == Some(Entry(meal, false, -(2 * k + 2)))
      {
        assert Column(w2, Sleep)[k] == Column(w0, Sleep)[k];
        assert Column(w2, Meal)[k] == Column(w0, Meal)[k];
        SkeletonEntries(sleep, meal, k, Sleep);
        SkeletonEntries(sleep, meal, k, Meal);
      }
    }
  }

  /** A long task asking for more than seven distinct days makes the run spin: no plan comes out. */
  lemma MoreThanSevenDays(tasks: seq<Task>, sleep: real, meal: real, draws: seq<real>, u: Task)
    requires ValidDraws(draws) && u in tasks && !u.isShort && u.days > 7
    ensures !Allocate(tasks, sleep, meal, draws).Planned?
  {
    var longs := LongTasks(tasks);
    var i :| 0 <= i < |longs| && longs[i] == u;
    LongPhaseStuck(Skeleton(sleep, meal), longs, draws, 0, i);
  }

  /** Two long tasks: both go to the long phase, in order, and none to the short one. */
  lemma TwoLongTasks(a1: Task, a2: Task)
    requires !a1.isShort && !a2.isShort
    ensures LongTasks([a1, a2]) == [a1, a2] && ShortTasks([a1, a2]) == []
    ensures TotalDuration([a1, a2]) == a1.duration + a2.duration
  {
    assert [a1, a2][1..] == [a2] && [a2][1..] == [];
    assert LongTasks([a2]) == [a2] + LongTasks([]);
    assert ShortTasks([a2]) == ShortTasks([]);
    assert TotalDuration([a2]) == a2.duration + TotalDuration([]);
  }

  /** A one-day long task lands on the day its next draw picks, using one draw. */
  lemma OneDayPlaced(w: Weekly, a: Task, draws: seq<real>, pos: nat)
    requires HasWeek(w) && ValidDraws(draws) && pos < |draws| && a.days == 1
    ensures var k := DayOf(draws[pos]);
      PlaceLong(w, a, draws, pos) == Some((w[k := Put(w[k], a.title, LongEntry(a))], pos + 1))
  {
    var k := DayOf(draws[pos]);
    PickDaysStep(draws, pos, 1, [], k);
    assert [] + [k] == [k] && [k][..0] == [];
    assert PickDays(draws, pos, 1, []) == Some(([k], pos + 1));
    assert [k][|[k]| - 1] == k;
    assert PutOnDays(w, [k], a.title, LongEntry(a)) == w[k := Put(w[k], a.title, LongEntry(a))];
  }

  /** Two one-day long tasks, placed one after the other on the days two draws pick. */
  lemma TwoOneDayTasks(w0: Weekly, a1: Task, a2: Task, draws: seq<real>)
    requires HasWeek(w0) && ValidDraws(draws) && |draws| == 2 && a1.days == 1 && a2.days == 1
    ensures var k1, k2 := DayOf(draws[0]), DayOf(draws[1]);
      var w1 := w0[k1 := Put(w0[k1], a1.title, LongEntry(a1))];
      LongPhase(w0, [a1, a2], draws, 0) == Some((w1[k2 := Put(w1[k2], a2.title, LongEntry(a2))], 2))
  {
    var k1, k2 := DayOf(draws[0]), DayOf(draws[1]);
    var longs := [a1, a2];
    assert longs[0] == a1 && longs[1..] == [a2];
    assert [a2][0] == a2 && [a2][1..] == [];
    OneDayPlaced(w0, a1, draws, 0);
    var w1 := w0[k1 := Put(w0[k1], a1.title, LongEntry(a1))];
    OneDayPlaced(w1, a2, draws, 1);
    var w2 := w1[k2 := Put(w1[k2], a2.title, LongEntry(a2))];
    assert LongPhase(w0, longs, draws, 0) == LongPhase(w1, [a2], draws, 1);
    assert LongPhase(w1, [a2], draws, 1) == LongPhase(w2, [], draws, 2);
  }

  /**
   * The schedule is keyed by title and the registry does not keep titles
   * unique. Two one-day long tasks with the same title, with draws that pick
   * Monday and then Thursday, give a planned week with that title on two
   * days, each day carrying a different task's entry, so the first task is
   * not placed as `LongPlacedIn` describes.
   */
  lemma SharedTitleSpreadsTwice(a1: Task, a2: Task, sleep: real, meal: real)
    requires a1.title == a2.title && a1.id != a2.id
    requires a1.days == 1 && a2.days == 1 && !a1.isShort && !a2.isShort
    requires a1.duration + a2.duration <= Available(sleep, meal)
    ensures var out := Allocate([a1, a2], sleep, meal, [0.0, 0.5]);
      && out.Planned?
      && Find(out.schedule[0], a1.title) == Some(LongEntry(a1))
      && Find(out.schedule[3], a1.title) == Some(LongEntry(a2))
      && !LongPlacedIn(Column(out.schedule, a1.title), a1)
  {
    var e1, e2 := LongEntry(a1), LongEntry(a2);
    var w0 := Skeleton(sleep, meal);
    var w1 := w0[0 := Put(w0[0], a1.title, e1)];
    var w2 := w1[3 := Put(w1[3], a1.title, e2)];
    TwoTasksPlanned(a1, a2, sleep, meal);
    PutFind(w0[0], a1.title, e1, a1.title);
    PutFind(w1[3], a1.title, e2, a1.title);
    assert Column(w2, a1.title)[3] == Some(e2) != Some(e1);
  }

  /** The run of two one-day long tasks on the draws 0.0 and 0.5, as a whole. */
  lemma TwoTasksPlanned(a1: Task, a2: Task, sleep: real, meal: real)
    requires a1.days == 1 && a2.days == 1 && !a1.isShort && !a2.isShort
    requires a1.duration + a2.duration <= Available(sleep, meal)
    ensures var w0 := Skeleton(sleep, meal);
      var w1 := w0[0 := Put(w0[0], a1.title, LongEntry(a1))];
      var w2 := w1[3 := Put(w1[3], a2.title, LongEntry(a2))];
      Allocate([a1, a2], sleep, meal, [0.0, 0.5]) == Planned(w2, Flatten(w2))
  {
    var w0 := Skeleton(sleep, meal);
    var draws := [0.0, 0.5];
    assert DayOf(draws[0]) == 0 && DayOf(draws[1]) == 3;
    TwoLongTasks(a1, a2);
    TwoOneDayTasks(w0, a1, a2, draws);
    var w1 := w0[0 := Put(w0[0], a1.title, LongEntry(a1))];
    var w2 := w1[3 := Put(w1[3], a2.title, LongEntry(a2))];
    assert ShortPhase(w2, [], [0.0, 0.5], 2) == Some((w2, 2));
  }

  // ---------------------------------------------------------------------
  // The batch

  /** The rows of one day are its non-reserved slots, in both directions. */
  lemma {:induction false} RowsOfDayExactly(day: string, d: Daily, row: BatchRow)
    ensures row in RowsOfDay(day, d) <==>
              exists s :: s in d && !IsReserved(s.title) && row == BatchRow(day, TaskRef(s.entry.id), s.entry.hours)
    decreases |d|
  {
    if d != [] {
      var init := d[..|d| - 1];
      RowsOfDayExactly(day, init, row);
      assert d == init + [d[|d| - 1]];
      assert forall s :: s in d <==> s in init || s == d[|d| - 1];
    }
  }

  lemma {:induction false} FlattenUpToExactly(w: Weekly, n: nat, row: BatchRow)
    requires HasWeek(w) && n <= 7
    ensures row in FlattenUpTo(w, n) <==>
              exists k, s :: 0 <= k < n && s in w[k] && !IsReserved(s.title) && row == BatchRow(Days[k], TaskRef(s.entry.id), s.entry.hours)
  {
    if n > 0 {
      FlattenUpToExactly(w, n - 1, row);
      RowsOfDayExactly(Days[n - 1], w[n - 1], row);
    }
  }

  /**
   * The batch sent to the store holds exactly one row per non-reserved entry
   * of the week, carrying that day's name, the entry's task id (null for id
   * 0) and its hours.
   */
  lemma BatchExactly(w: Weekly, row: BatchRow)
    requires HasWeek(w)
    ensures row in Flatten(w) <==>
              exists k, s :: 0 <= k < 7 && s in w[k] && !IsReserved(s.title) && row == BatchRow(Days[k], TaskRef(s.entry.id), s.entry.hours)
  {
    FlattenUpToExactly(w, 7, row);
  }

  /** The number of task slots (not Sleep or Meal) on the first `n` days. */
  function TaskCount(w: Weekly, n: nat): nat
    requires HasWeek(w) && n <= 7
  {
    if n == 0 then 0 else TaskCount(w, n - 1) + |TaskSlots(w[n - 1])|
  }

  /** A day's rows are its task slots, one row each, in the day's order. */
  lemma {:induction false} RowsOfDayInOrder(day: string, d: Daily)
    ensures |RowsOfDay(day, d)| == |TaskSlots(d)|
    ensures forall i :: 0 <= i < |TaskSlots(d)| ==>
              RowsOfDay(day, d)[i] == BatchRow(day, TaskRef(TaskSlots(d)[i].entry.id), TaskSlots(d)[i].entry.hours)
    decreases |d|
  {
    if d != [] {
      RowsOfDayInOrder(day, d[..|d| - 1]);
    }
  }

  /** The first `n` days give one row per task slot. */
  lemma {:induction false} FlattenUpToLength(w: Weekly, n: nat)
    requires HasWeek(w) && n <= 7
    ensures |FlattenUpTo(w, n)| == TaskCount(w, n)
  {
    if n > 0 {
      FlattenUpToLength(w, n - 1);
      RowsOfDayInOrder(Days[n - 1], w[n - 1]);
    }
  }

  /** Slot `i` of day `k` becomes row `TaskCount(w, k) + i` of the first `n` days' rows. */
  lemma {:induction false} FlattenUpToAt(w: Weekly, n: nat, k: nat, i: nat)
    requires HasWeek(w) && k < n <= 7 && i < |TaskSlots(w[k])|
    ensures TaskCount(w, k) + i < |FlattenUpTo(w, n)|
    ensures FlattenUpTo(w, n)[TaskCount(w, k) + i] ==
              BatchRow(Days[k], TaskRef(TaskSlots(w[k])[i].entry.id), TaskSlots(w[k])[i].entry.hours)
  {
    FlattenUpToLength(w, n - 1);
    if k == n - 1 {
      RowsOfDayInOrder(Days[k], w[k]);
    } else {
      FlattenUpToAt(w, n - 1, k, i);
    }
  }

  /** The batch holds one row per task slot of the week and nothing else. */
  lemma BatchLength(w: Weekly)
    requires HasWeek(w)
    ensures |Flatten(w)| == TaskCount(w, 7)
  {
    assert Flatten(w) == FlattenUpTo(w, 7);
    FlattenUpToLength(w, 7);
  }

  /**
   * The batch in order: Monday's slots first and each day's in the day's
   * order, so that slot
   * `i` of day `k` is row `TaskCount(w, k) + i`.
   */
  lemma BatchInOrder(w: Weekly, k: nat, i: nat)
    requires HasWeek(w) && k < 7 && i < |TaskSlots(w[k])|
    ensures TaskCount(w, k) + i < |Flatten(w)|
    ensures Flatten(w)[TaskCount(w, k) + i] ==
              BatchRow(Days[k], TaskRef(TaskSlots(w[k])[i].entry.id), TaskSlots(w[k])[i].entry.hours)
  {
    assert Flatten(w) == FlattenUpTo(w, 7);
    FlattenUpToAt(w, 7, k, i);
  }
}
