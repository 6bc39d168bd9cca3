/**
 * The weekly availability page: for each weekday an enabled switch and a
 * start/end time, the total study time of the enabled days, and the guard
 * that refuses to continue while no day is enabled.
 *
 * Times are minutes since midnight (0 <= m < 1440) and durations are whole
 * minutes.
 */
module Availability {

  datatype Weekday = Monday | Tuesday | Wednesday | Thursday | Friday | Saturday | Sunday

  /** The order in which the template's entries are listed and summed. */
  const Week: seq<Weekday> := [Monday, Tuesday, Wednesday, Thursday, Friday, Saturday, Sunday]

  type MinuteOfDay = m: int | 0 <= m < 1440

  datatype Slot = Slot(enabled: bool, startTime: MinuteOfDay, endTime: MinuteOfDay)

  datatype TimeField = StartTime | EndTime

  datatype ContinueOutcome = NoTimeSelected | GoToSchedule

  type Template = map<Weekday, Slot>

  const DefaultStart: MinuteOfDay := 9 * 60
  const DefaultEnd: MinuteOfDay := 17 * 60

  /** The position of a weekday in Week. */
  function DayIndex(d: Weekday): (i: nat)
    ensures i < |Week| && Week[i] == d
  {
    match d
    case Monday => 0
    case Tuesday => 1
    case Wednesday => 2
    case Thursday => 3
    case Friday => 4
    case Saturday => 5
    case Sunday => 6
  }

  /** A template has an entry for every weekday. */
  predicate Complete(slots: Template)
  {
    forall d: Weekday :: d in slots
  }

  /** The template the page starts with: every day disabled, 09:00 to 17:00. */
  function InitialSlots(): (slots: Template)
    ensures Complete(slots)
  {
    var result := map d | d in Week :: Slot(false, DefaultStart, DefaultEnd);
    assert forall d: Weekday :: d in result by {
      forall d: Weekday ensures d in result { assert Week[DayIndex(d)] == d; }
    }
    result
  }

  /** Object.values(timeSlots): the entries in weekday order. */
  function Values(slots: Template): (vs: seq<Slot>)
    requires Complete(slots)
    ensures |vs| == 7
    ensures forall d: Weekday :: vs[DayIndex(d)] == slots[d]
  {
    seq(7, i requires 0 <= i < 7 => slots[Week[i]])
  }

  /** toggleDay: flip one day's switch. */
  function Toggled(slots: Template, day: Weekday): Template
    requires day in slots
  {
    slots[day := slots[day].(enabled := !slots[day].enabled)]
  }

  /** updateTime: set one time field of one day. */
  function WithTime(slots: Template, day: Weekday, field: TimeField, value: MinuteOfDay): Template
    requires day in slots
  {
    match field
    case StartTime => slots[day := slots[day].(startTime := value)]
    case EndTime => slots[day := slots[day].(endTime := value)]
  }

  /** One day's available minutes: end minus start, floored at zero. */
  function SlotMinutes(slot: Slot): (r: nat)
    ensures r < 1440
    ensures r == 0 <==> slot.endTime <= slot.startTime
    ensures slot.startTime <= slot.endTime ==> slot.startTime + r == slot.endTime
  {
    if slot.endTime - slot.startTime > 0 then slot.endTime - slot.startTime else 0
  }

  /** The reduce callback: a disabled day adds nothing, an enabled one its minutes. */
  function Accumulate(total: int, slot: Slot): int
  {
    if !slot.enabled then total else total + SlotMinutes(slot)
  }

  /** Array.prototype.reduce: a left fold of Accumulate from `total`. */
  function Reduce(total: int, xs: seq<Slot>): int
    decreases |xs|
  {
    if |xs| == 0 then total else Reduce(Accumulate(total, xs[0]), xs[1..])
  }

  /** getTotalHours, in minutes. */
  function TotalMinutes(slots: Template): int
    requires Complete(slots)
  {
    Reduce(0, Values(slots))
  }

  /** handleContinue: refuse when no entry is enabled. */
  function HandleContinue(slots: Template): (r: ContinueOutcome)
    requires Complete(slots)
    ensures r == NoTimeSelected <==> forall d: Weekday :: !slots[d].enabled
  {
    var vs := Values(slots);
    EnabledCountZero(vs);
    if |EnabledSlots(vs)| == 0 then NoTimeSelected else GoToSchedule
  }

  // ---------------------------------------------------------------------
  // Reference definitions
  // ---------------------------------------------------------------------

  /** The enabled entries, in order. */
  function EnabledSlots(xs: seq<Slot>): (r: seq<Slot>)
    ensures forall i :: 0 <= i < |r| ==> r[i].enabled
    ensures forall x :: x in r <==> x in xs && x.enabled
    decreases |xs|
  {
    if |xs| == 0 then []
    else if xs[0].enabled then [xs[0]] + EnabledSlots(xs[1..])
    else EnabledSlots(xs[1..])
  }

  /** The sum of the minutes of the given entries. */
  function SumMinutes(xs: seq<Slot>): nat
    decreases |xs|
  {
    if |xs| == 0 then 0 else SlotMinutes(xs[0]) + SumMinutes(xs[1..])
  }

  /** What one entry adds to the total. */
  function Contribution(slot: Slot): nat
  {
    if slot.enabled then SlotMinutes(slot) else 0
  }

  // ---------------------------------------------------------------------
  // Properties
  // ---------------------------------------------------------------------

  /** No enabled entries exactly when every entry is disabled. */
  lemma {:induction false} EnabledCountZero(xs: seq<Slot>)
    ensures |EnabledSlots(xs)| == 0 <==> forall i :: 0 <= i < |xs| ==> !xs[i].enabled
    decreases |xs|
  {
    if |xs| > 0 {
      EnabledCountZero(xs[1..]);
      assert forall i :: 1 <= i < |xs| ==> xs[i] == xs[1..][i - 1];
    }
  }

  /** The fold equals its start value plus the summed minutes of the enabled entries. */
  lemma {:induction false} ReduceIsEnabledSum(total: int, xs: seq<Slot>)
    ensures Reduce(total, xs) == total + SumMinutes(EnabledSlots(xs))
    decreases |xs|
  {
    if |xs| > 0 {
      ReduceIsEnabledSum(Accumulate(total, xs[0]), xs[1..]);
      if xs[0].enabled {
        var rest := EnabledSlots(xs[1..]);
        assert ([xs[0]] + rest)[1..] == rest;
      }
    }
  }

  /**
   * The weekly total is the sum of the clamped durations of the enabled days,
   * and so never negative.
   */
  lemma TotalIsEnabledSum(slots: Template)
    requires Complete(slots)
    ensures TotalMinutes(slots) == SumMinutes(EnabledSlots(Values(slots)))
    ensures TotalMinutes(slots) >= 0
  {
    ReduceIsEnabledSum(0, Values(slots));
  }

  /** Replacing one entry changes the fold by what that entry contributes. */
  lemma {:induction false} ReduceUpdate(total: int, xs: seq<Slot>, i: nat, v: Slot)
    requires i < |xs|
    ensures Reduce(total, xs[i := v]) == Reduce(total, xs) - Contribution(xs[i]) + Contribution(v)
    decreases |xs|
  {
    var ys := xs[i := v];
    if i == 0 {
      assert ys[1..] == xs[1..];
      ReduceIsEnabledSum(Accumulate(total, v), xs[1..]);
      ReduceIsEnabledSum(Accumulate(total, xs[0]), xs[1..]);
    } else {
      assert ys[1..] == xs[1..][i - 1 := v];
      ReduceUpdate(Accumulate(total, xs[0]), xs[1..], i - 1, v);
    }
  }

  /** Replacing one day's entry changes the weekly total by what that day contributes. */
  lemma TotalUpdate(slots: Template, d: Weekday, v: Slot)
    requires Complete(slots)
    ensures Complete(slots[d := v])
    ensures TotalMinutes(slots[d := v]) == TotalMinutes(slots) - Contribution(slots[d]) + Contribution(v)
  {
    var u := slots[d := v];
    assert Values(u) == Values(slots)[DayIndex(d) := v];
    ReduceUpdate(0, Values(slots), DayIndex(d), v);
  }

  /** A disabled day contributes nothing: its times can be anything without changing the total. */
  lemma DisabledDayIgnored(slots: Template, d: Weekday, v: Slot)
    requires Complete(slots) && !slots[d].enabled && !v.enabled
    ensures Complete(slots[d := v]) && TotalMinutes(slots[d := v]) == TotalMinutes(slots)
  {
    TotalUpdate(slots, d, v);
  }

  /** Switching a day on adds its duration to the total; switching it off removes it. */
  lemma TotalAfterToggle(slots: Template, d: Weekday)
    requires Complete(slots)
    ensures Complete(Toggled(slots, d))
    ensures TotalMinutes(Toggled(slots, d)) ==
            if slots[d].enabled then TotalMinutes(slots) - SlotMinutes(slots[d])
            else TotalMinutes(slots) + SlotMinutes(slots[d])
  {
    TotalUpdate(slots, d, slots[d].(enabled := !slots[d].enabled));
  }

  /** toggleDay changes only that day's switch, and toggling twice restores the template. */
  lemma ToggleOnlyThatDay(slots: Template, d: Weekday)
    requires Complete(slots)
    ensures Complete(Toggled(slots, d))
    ensures Toggled(slots, d)[d].enabled == !slots[d].enabled
    ensures Toggled(slots, d)[d].startTime == slots[d].startTime
    ensures Toggled(slots, d)[d].endTime == slots[d].endTime
    ensures forall e: Weekday :: e != d ==> Toggled(slots, d)[e] == slots[e]
    ensures Toggled(Toggled(slots, d), d) == slots
  {
  }

  /** updateTime changes only the named field of the named day. */
  lemma WithTimeOnlyThatField(slots: Template, d: Weekday, f: TimeField, v: MinuteOfDay)
    requires Complete(slots)
    ensures Complete(WithTime(slots, d, f, v))
    ensures WithTime(slots, d, f, v)[d].enabled == slots[d].enabled
    ensures WithTime(slots, d, f, v)[d].startTime == if f == StartTime then v else slots[d].startTime
    ensures WithTime(slots, d, f, v)[d].endTime == if f == EndTime then v else slots[d].endTime
    ensures forall e: Weekday :: e != d ==> WithTime(slots, d, f, v)[e] == slots[e]
  {
  }

  /** The initial template: seven days, all disabled, each 09:00 to 17:00, so nothing to continue with. */
  lemma InitialTemplate()
    ensures Complete(InitialSlots()) && |InitialSlots()| == 7
    ensures forall d: Weekday :: InitialSlots()[d] == Slot(false, 540, 1020)
    ensures TotalMinutes(InitialSlots()) == 0
    ensures HandleContinue(InitialSlots()) == NoTimeSelected
  {
    var m := InitialSlots();
    var days := {Monday, Tuesday, Wednesday, Thursday, Friday, Saturday, Sunday};
    assert |days| == 7;
    assert m.Keys == days by {
      forall d: Weekday ensures d in m.Keys <==> d in days {
        match d {
          case Monday => case Tuesday => case Wednesday => case Thursday =>
          case Friday => case Saturday => case Sunday =>
        }
      }
    }
    var vs := Values(m);
    assert forall i :: 0 <= i < |vs| ==> !vs[i].enabled;
    EnabledCountZero(vs);
    assert EnabledSlots(vs) == [];
    TotalIsEnabledSum(m);
  }

  // ---------------------------------------------------------------------
  // The component's state, updated in place
  // ---------------------------------------------------------------------

  class TimeSlots {
    var slots: Template

    ghost predicate Valid()
      reads this
    {
      Complete(slots)
    }

    constructor ()
      ensures Valid() && slots == InitialSlots()
    {
      slots := InitialSlots();
    }

    method ToggleDay(day: Weekday)
      requires Valid()
      modifies this
      ensures Valid() && slots == Toggled(old(slots), day)
    {
      slots := slots[day := slots[day].(enabled := !slots[day].enabled)];
    }

    method UpdateTime(day: Weekday, field: TimeField, value: MinuteOfDay)
      requires Valid()
      modifies this
      ensures Valid() && slots == WithTime(old(slots), day, field, value)
    {
      var slot := slots[day];
      match field {
        case StartTime => slot := slot.(startTime := value);
        case EndTime => slot := slot.(endTime := value);
      }
      slots := slots[day := slot];
    }
  }
}
