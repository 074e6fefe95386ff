/**
 * The planner form's steppers (frontend/src/pages/Home.tsx): the task's
 * hours and days, and the global sleep and meal budgets. Each stepper is a
 * pure update of the value it owns.
 */
module Inputs {
  import opened Options

  /** The hours stepper's step: a quarter hour for a short task, one hour per selected day otherwise. */
  function HourStep(isShort: bool, days: int): real {
    if isShort then 0.25 else days as real
  }

  /**
   * The most hours a week can hold once sleep and meals are set aside. The
   * two budgets are typed fields too (`setSleepHours(Number(...))`), so
   * they can be any number, fractions included.
   */
  function WeeklyCap(sleep: real, meal: real): real {
    168.0 - 7.0 * (meal + sleep)
  }

  /** `incrementHours`: one step up, never above the weekly cap. */
  function IncrementHours(hours: real, isShort: bool, days: int, sleep: real, meal: real): (r: real)
    ensures r <= WeeklyCap(sleep, meal)
    ensures r <= hours + HourStep(isShort, days)
    ensures r == hours + HourStep(isShort, days) || r == WeeklyCap(sleep, meal)
  {
    var raised := hours + HourStep(isShort, days);
    if raised < WeeklyCap(sleep, meal) then raised else WeeklyCap(sleep, meal)
  }

  /** `decrementHours`: one step down, never below zero. */
  function DecrementHours(hours: real, isShort: bool, days: int): (r: real)
    ensures r >= 0.0
    ensures r >= hours - HourStep(isShort, days)
    ensures r == hours - HourStep(isShort, days) || r == 0.0
  {
    var lowered := hours - HourStep(isShort, days);
    if lowered > 0.0 then lowered else 0.0
  }

  /** The ceiling on hours when the day count grows: 2 for a short task, 100 otherwise. */
  function DaysCeiling(isShort: bool): real {
    if isShort then 2.0 else 100.0
  }

  /** `prevHours * newDays / prevDays`: the hours rescaled to a new day count. */
  function Rescaled(hours: real, newDays: int, oldDays: int): real
    requires oldDays != 0
  {
    hours * newDays as real / oldDays as real
  }

  /**
   * The stepper state: the task's hours and its number of days. Both are
   * also typed fields (`setTaskHours(Number(...))`, `setTaskDays(Number(...))`),
   * so either can hold any number, zero and negatives included.
   */
  datatype Form = Form(hours: real, days: int)

  /** A day count the steppers alone produce: it starts at 7 and they keep it within 1..7. */
  predicate DaysInRange(f: Form) {
    1 <= f.days <= 7
  }

  /**
   * `incrementDays`: up to 6 days, add a day and scale the hours by the new
   * count over the old, capped by the ceiling; above 6 nothing changes.
   * From 0 days the scaling divides by zero: positive hours become
   * Infinity, which the cap turns into the ceiling; zero or negative hours
   * become NaN or -Infinity, which is None here.
   */
  function IncrementDays(f: Form, isShort: bool): (r: Option<Form>)
    ensures f.days > 6 ==> r == Some(f)
    ensures f.days <= 6 && f.days != 0 ==>
      && r.Some? && r.value.days == f.days + 1
      && r.value.hours <= DaysCeiling(isShort)
      && (Rescaled(f.hours, f.days + 1, f.days) < DaysCeiling(isShort) ==> r.value.hours == Rescaled(f.hours, f.days + 1, f.days))
      && (Rescaled(f.hours, f.days + 1, f.days) >= DaysCeiling(isShort) ==> r.value.hours == DaysCeiling(isShort))
    ensures f.days == 0 && f.hours > 0.0 ==> r == Some(Form(DaysCeiling(isShort), 1))
    ensures f.days == 0 && f.hours <= 0.0 ==> r.None?
    ensures DaysInRange(f) ==> r.Some? && DaysInRange(r.value)
  {
    var more := f.days + 1;
    if more <= 7 then
      if f.days == 0 then
        if f.hours > 0.0 then Some(Form(DaysCeiling(isShort), more)) else None
      else
        var scaled := Rescaled(f.hours, more, f.days);
        Some(Form(if scaled < DaysCeiling(isShort) then scaled else DaysCeiling(isShort), more))
    else Some(f)
  }

  /** `decrementDays`: above one day, drop a day and scale the hours by the new count over the old; otherwise nothing changes. */
  function DecrementDays(f: Form): (r: Form)
    ensures f.days > 1 ==> r.days == f.days - 1
    ensures f.days <= 1 ==> r == f
    ensures DaysInRange(f) ==> DaysInRange(r)
  {
    if f.days > 1 then
      var fewer := f.days - 1;
      Form(Rescaled(f.hours, fewer, f.days), fewer)
    else f
  }

  /** Hours per day before capping. */
  function PerDay(f: Form): real
    requires f.days != 0
  {
    f.hours / f.days as real
  }

  /** Dropping a day keeps the hours per day, whatever count was typed. */
  lemma DecrementDaysKeepsPerDay(f: Form)
    requires f.days != 0
    ensures DecrementDays(f).days != 0
    ensures PerDay(DecrementDays(f)) == PerDay(f)
  {
    if f.days > 1 {
      ScaleCancel(f.hours, (f.days - 1) as real, f.days as real, DecrementDays(f).hours);
    }
  }

  /** Adding a day keeps the hours per day unless the ceiling cut the hours. */
  lemma IncrementDaysKeepsPerDay(f: Form, isShort: bool)
    requires 0 < f.days < 7
    requires Rescaled(f.hours, f.days + 1, f.days) < DaysCeiling(isShort)
    ensures IncrementDays(f, isShort).Some?
    ensures PerDay(IncrementDays(f, isShort).value) == PerDay(f)
  {
    var scaled := Rescaled(f.hours, f.days + 1, f.days);
    assert IncrementDays(f, isShort).value.hours == scaled;
    ScaleCancel(f.hours, (f.days + 1) as real, f.days as real, scaled);
  }

  /** Dropping a day and adding it back restores the form when the ceiling does not cut in. */
  lemma DecrementThenIncrementDays(f: Form, isShort: bool)
    requires DaysInRange(f) && f.days > 1
    requires f.hours < DaysCeiling(isShort)
    ensures IncrementDays(DecrementDays(f), isShort) == Some(f)
  {
    var down := DecrementDays(f);
    assert down == Form(Rescaled(f.hours, f.days - 1, f.days), f.days - 1);
    ScaleBack(f.hours, f.days - 1, f.days);
  }

  /** Scaling by m/n and then dividing by m divides by n. */
  lemma ScaleCancel(x: real, m: real, n: real, scaled: real)
    requires m > 0.0 && n > 0.0 && scaled == x * m / n
    ensures scaled / m == x / n
  {
    assert scaled * n == x * m;
    var b := scaled / m;
    assert b * m == scaled;
    assert (b * n) * m == x * m;
  }

  /** Scaling by m/n and then by n/m gives back the value. */
  lemma ScaleBack(x: real, m: int, n: int)
    requires m > 0 && n > 0
    ensures Rescaled(Rescaled(x, m, n), n, m) == x
  {
    var a := Rescaled(x, m, n);
    assert a * n as real == x * m as real;
    assert a * n as real / m as real == x;
  }

  /** `incrementSleepHours` / `incrementMealHours`: one more hour. */
  function IncrementBudget(h: real): (r: real)
    ensures r == h + 1.0
  {
    h + 1.0
  }

  /**
   * `decrementSleepHours` / `decrementMealHours`: one hour less, but only
   * from a positive budget. A whole budget stays at zero or above; a typed
   * fraction below one hour goes negative (0.5 becomes -0.5).
   */
  function DecrementBudget(h: real): (r: real)
    ensures h > 0.0 ==> r == h - 1.0
    ensures h <= 0.0 ==> r == h
    ensures h >= 1.0 ==> r >= 0.0
    ensures 0.0 < h < 1.0 ==> -1.0 < r < 0.0
  {
    if h > 0.0 then h - 1.0 else h
  }

  /** A budget stepped down and back up returns to where it was when it was positive. */
  lemma BudgetRoundTrip(h: real)
    requires h > 0.0
    ensures IncrementBudget(DecrementBudget(h)) == h
    ensures DecrementBudget(IncrementBudget(h)) == h
  {
  }
}
