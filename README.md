# Schedulix study planner — a Dafny model of its local logic

Schedulix is a browser study planner. Users add subjects, declare their weekly free time, and run a Pomodoro timer. Most of the application is UI and calls to a hosted backend. This project models the deterministic logic that runs in the browser and proves properties of it:

- **Pomodoro timer** (`pomodoros.dfy`, module `Pomodoros`). The timer has three modes: Pomodoro (1500 s), Short Break (300 s) and Long Break (900 s). After every fourth completed Pomodoro the next break is a long one. It offers reset, start, pause, reset-to-Pomodoro and the one-second tick, plus the `MM:SS` display. The transitions are pure functions on `TimerState`. The class `Timer` holds the component's state fields and updates them in place, and each of its methods is proved equal to the matching transition function of its old state. The class also keeps the interval handle and the mode and count that the interval callback captures when the timer starts. `Timer.Valid()` proves that the captured values always equal the current ones while an interval is scheduled: the callback's stale closure is harmless.
- **Weekly availability** (`available_time.dfy`, module `Availability`). Seven weekdays, each with an enabled switch and start/end times. Times are minutes since midnight. The module covers the day toggle, the time update, the weekly total and the guard that needs at least one enabled day. The class `TimeSlots` holds the template as a map and updates one entry per call. The total is the page's `reduce`: a left fold in the order Monday to Sunday. It is proved equal to an independent sum of the clamped durations of the enabled days.
- **Subject form** (`add_subject.dfy`, module `Subjects`). The class `SubjectPlanner` holds the four-field form and the list of subjects. A submit is refused unless every field is filled; otherwise it appends one subject and clears the form. Continuing is refused while the list is empty. `parseInt` is modelled as an optional sign followed by the longest run of leading digits, with `None` standing for NaN.
- **Session removal** (`schedule_utils.dfy`, module `ScheduleEdit`). `removeSessionFromSchedule` is a pure map/filter over a list of days.
- Shared helpers: `digits.dfy` (module `Digits`) covers how a template literal renders a non-negative whole number below 2^53 (all the timer ever shows), and the value of a run of digits. `wrappers.dfy` holds `Option`.

What the model takes as input: the clock reading used as a new subject's id is a parameter of `HandleSubmit`, and each firing of `setInterval` is a call to `Timer.Tick`.

The session generator, completion toggling and session deletion run against the remote store, and none of them is in the modelled files (the files contain only hard-coded schedule data). They are therefore not part of this model. Subjects' hours are not required to be positive: estimated hours are whatever `parseInt` makes of the typed text, and `handleSubmit` itself does not check that the value is positive. On the page, the browser's `min="1"` check on the hours input (src/pages/AddSubject.tsx:100) refuses text whose number value is below 1 or not whole ("0", "-3", "1.5"). Text in exponent notation such as "0.1e1" or ".1e1" has the value 1 and passes that check, yet `parseInt` gives 0 or NaN hours for it. The model accepts any text, which covers everything the page lets through.

## Model

| member | source | states |
|---|---|---|
| `Digits.NatToString` | src/pages/Pomodoros.tsx:113 | `${n}` renders a whole number as digits only, with at least one digit, a single digit exactly when n < 10, and no leading zero |
| `Digits.NatToStringRoundTrip` | src/pages/Pomodoros.tsx:113 | reading the decimal rendering of n back gives n |
| `Digits.LeadingZero` | src/pages/Pomodoros.tsx:113 | the '0' prefix that formatTime adds does not change the value of the field |
| `Digits.LeadingDigits` | src/pages/AddSubject.tsx:36 | parseInt's digit run is the longest prefix that is all digits: the character after it, if any, is not a digit |
| `Pomodoros.ResetDurations` | src/pages/Pomodoros.tsx:13-15 | resetTimer(m): mode becomes m, 1500/300/900 seconds for Pomodoro/Short Break/Long Break, not running, count unchanged |
| `Pomodoros.TickCountsDown` | src/pages/Pomodoros.tsx:67-87 | a running tick with more than one second left (the guard at lines 67-68 not taken) decrements secondsLeft by exactly 1, as `prevSeconds - 1` at line 87, and changes nothing else |
| `Pomodoros.PomodoroPhaseEnd` | src/pages/Pomodoros.tsx:68-81 | a finished Pomodoro adds exactly 1 to the count; the next mode is Long Break iff the new count is divisible by 4, otherwise Short Break; the timer is stopped at that break's full duration |
| `Pomodoros.BreakPhaseEnd` | src/pages/Pomodoros.tsx:82-84 | a finished break returns to a stopped, full 1500-second Pomodoro with the count unchanged |
| `Pomodoros.PauseOnlyStops` | src/pages/Pomodoros.tsx:92-98 | pausing sets isRunning to false and keeps seconds, mode and count |
| `Pomodoros.InvPreserved` | src/pages/Pomodoros.tsx:19-22 | the initial state and every transition keep 1 <= secondsLeft <= the current mode's duration |
| `Pomodoros.PhaseLasts` | src/pages/Pomodoros.tsx:66-89 | a running phase with d seconds left only counts down for d - 1 ticks, and the d-th tick changes the mode and stops the timer |
| `Pomodoros.FormatTimeRoundTrip` | src/pages/Pomodoros.tsx:110-114 | for every non-negative whole t (on unbounded integers; above 2^53 JavaScript prints shortest round-trip digits padded with zeros, and from 10^21 exponent notation, neither of which is modelled), parsing the "MM:SS" text back as MM * 60 + SS gives t |
| `Pomodoros.FormatTimeShape` | src/pages/Pomodoros.tsx:110-114 | for t < 6000 the text has 5 characters, ':' at index 2, two-digit fields, seconds field < 60, and MM * 60 + SS == t |
| `Pomodoros.DisplayFits` | src/pages/Pomodoros.tsx:181 | every reachable state displays as five characters with ':' at index 2 |
| `Pomodoros.Timer.constructor` | src/pages/Pomodoros.tsx:19-23 | the page starts at 1500 seconds, Pomodoro, stopped, count 0, with no interval scheduled |
| `Pomodoros.Timer.ResetTimer` | src/pages/Pomodoros.tsx:37-59 | clears the interval, then sets the new mode, its duration and not running |
| `Pomodoros.Timer.StartTimer` | src/pages/Pomodoros.tsx:61-66 | running, an interval scheduled, and the callback's captured mode and count equal to the current ones |
| `Pomodoros.Timer.Tick` | src/pages/Pomodoros.tsx:66-89 | the interval body, run on the captured mode and count, produces exactly the NextTick state |
| `Pomodoros.Timer.PauseTimer` | src/pages/Pomodoros.tsx:92-98 | stops and clears the interval; the state changes exactly as Pause says |
| `Pomodoros.Timer.ResetToPomodoro` | src/pages/Pomodoros.tsx:100-103 | the new state is the Restart transition of the old one: count 0, mode Pomodoro, 1500 seconds, not running |
| `Pomodoros.Duration` | src/pages/Pomodoros.tsx:13-15 | each mode's length in seconds; ResetDurations states the three values |
| `Pomodoros.Reset` | src/pages/Pomodoros.tsx:37-59 | resetTimer as a transition; ResetDurations and InvPreserved state its result |
| `Pomodoros.Start` | src/pages/Pomodoros.tsx:61-66 | startTimer as a transition: only isRunning becomes true; InvPreserved states that it keeps the invariant |
| `Pomodoros.Pause` | src/pages/Pomodoros.tsx:92-98 | pauseTimer as a transition; PauseOnlyStops states that only isRunning changes |
| `Pomodoros.Restart` | src/pages/Pomodoros.tsx:100-103 | resetToPomodoro as a transition: count 0, then resetTimer(Pomodoro); ResetToPomodoroIsInitial states the result equals the initial state, and InvPreserved that it keeps the invariant |
| `Pomodoros.ResetToPomodoroIsInitial` | src/pages/Pomodoros.tsx:100-103 | from any state, resetToPomodoro yields count 0, mode Pomodoro, 1500 seconds, not running |
| `Pomodoros.NextMode` | src/pages/Pomodoros.tsx:73-84 | the mode after a phase; PomodoroPhaseEnd and BreakPhaseEnd state that a Pomodoro leads to a long break iff the new count is a multiple of 4, and a break leads to a Pomodoro |
| `Pomodoros.PhaseEnd` | src/pages/Pomodoros.tsx:68-85 | the end of a phase: count a finished Pomodoro, then resetTimer to the next mode; stated by PomodoroPhaseEnd and BreakPhaseEnd |
| `Pomodoros.NextTick` | src/pages/Pomodoros.tsx:66-89 | one interval firing; TickCountsDown, PomodoroPhaseEnd, BreakPhaseEnd and PhaseLasts state its effect |
| `Pomodoros.ZeroPadded` | src/pages/Pomodoros.tsx:113 | one display field with its '0' pad; ZeroPaddedValue states that it is all digits, at least two long, exactly two below 100, and keeps the value |
| `Pomodoros.FormatTime` | src/pages/Pomodoros.tsx:110-114 | formatTime; FormatTimeRoundTrip and FormatTimeShape state its round trip and shape |
| `Availability.Toggled` | src/pages/AvailableTime.tsx:34-39 | toggleDay's new template; ToggleOnlyThatDay and TotalAfterToggle state its effect |
| `Availability.WithTime` | src/pages/AvailableTime.tsx:41-46 | updateTime's new template; WithTimeOnlyThatField states that only the named field of the named day changes |
| `Availability.Accumulate` | src/pages/AvailableTime.tsx:62-68 | the reduce callback: a disabled day returns the total unchanged, an enabled day adds its clamped minutes; ReduceIsEnabledSum states the fold it drives |
| `Availability.Reduce` | src/pages/AvailableTime.tsx:62-68 | the left fold of the callback; ReduceIsEnabledSum and ReduceUpdate state its value |
| `Availability.TotalMinutes` | src/pages/AvailableTime.tsx:61-69 | getTotalHours in minutes; TotalIsEnabledSum, TotalUpdate, DisabledDayIgnored and TotalAfterToggle state its value |
| `Subjects.Filled` | src/pages/AddSubject.tsx:24 | the submit guard: every field non-empty; HandleSubmit states that a submit is refused iff it fails |
| `Subjects.ParseInt` | src/pages/AddSubject.tsx:36 | parseInt of the hours text; ParseDigits, ParseIntRoundTrip and ParseIntNaN state its value on digit strings, decimal renderings and non-numeric text |
| `Subjects.NewSubject` | src/pages/AddSubject.tsx:33-37 | the appended subject: the given id, the typed name, priority and deadline, and parseInt of the typed hours; HandleSubmit states that it is the one appended |
| `Availability.InitialSlots` | src/pages/AvailableTime.tsx:14-22 | the initial template has an entry for every weekday |
| `Availability.InitialTemplate` | src/pages/AvailableTime.tsx:14-22 | exactly seven entries, each disabled from 09:00 (540) to 17:00 (1020); the total is 0 and continue is refused |
| `Availability.Values` | src/pages/AvailableTime.tsx:49 | Object.values lists the seven entries, the entry of each weekday at that weekday's position |
| `Availability.SlotMinutes` | src/pages/AvailableTime.tsx:131-136 | a day's duration is max(0, end - start): never negative, 0 exactly when end <= start (17:00 to 09:00 gives 0), and start + duration == end otherwise |
| `Availability.HandleContinue` | src/pages/AvailableTime.tsx:48-58 | continue is refused with "No Time Selected" iff no day is enabled |
| `Availability.EnabledSlots` | src/pages/AvailableTime.tsx:49 | the filter keeps only enabled entries, and an entry is in the result iff it is in the input and enabled |
| `Availability.ReduceIsEnabledSum` | src/pages/AvailableTime.tsx:62-68 | the reduce from any start value equals that value plus the sum of the clamped durations of the enabled entries |
| `Availability.TotalIsEnabledSum` | src/pages/AvailableTime.tsx:61-69 | the weekly total equals the sum of the enabled days' clamped durations, and so is never negative |
| `Availability.ReduceUpdate` | src/pages/AvailableTime.tsx:62-68 | replacing one entry changes the reduce by the difference between what the new and the old entry contribute |
| `Availability.TotalUpdate` | src/pages/AvailableTime.tsx:61-69 | replacing one day's entry changes the total by the difference of the two entries' contributions |
| `Availability.DisabledDayIgnored` | src/pages/AvailableTime.tsx:63 | a disabled day contributes nothing: changing it to any other disabled entry keeps the total |
| `Availability.TotalAfterToggle` | src/pages/AvailableTime.tsx:34-39 | switching a day on adds its clamped duration to the total; switching it off subtracts it |
| `Availability.ToggleOnlyThatDay` | src/pages/AvailableTime.tsx:34-39 | toggleDay flips only that day's switch, keeps its times and every other day, and toggling twice restores the template |
| `Availability.WithTimeOnlyThatField` | src/pages/AvailableTime.tsx:41-46 | updateTime changes only the named field of the named day |
| `Availability.TimeSlots.constructor` | src/pages/AvailableTime.tsx:14-22 | the state starts as the initial template |
| `Availability.TimeSlots.ToggleDay` | src/pages/AvailableTime.tsx:34-39 | replaces the state with the toggled template |
| `Availability.TimeSlots.UpdateTime` | src/pages/AvailableTime.tsx:41-46 | replaces the state with the template with that field set |
| `Subjects.ParseDigits` | src/pages/AddSubject.tsx:36 | parseInt of a non-empty string of digits is the value of those digits |
| `Subjects.ParseIntRoundTrip` | src/pages/AddSubject.tsx:36 | parseInt reads back the decimal text of every whole number (exact integers only; JavaScript rounds above 2^53, see Left out) |
| `Subjects.ParseIntNaN` | src/pages/AddSubject.tsx:36 | text that starts with neither a digit nor a sign followed by a digit (including "", "-" and "-x") is NaN; leading white space, which parseInt skips, is not modelled |
| `Subjects.SubjectPlanner.constructor` | src/pages/AddSubject.tsx:14-20 | the page starts with no subjects and four empty fields |
| `Subjects.SubjectPlanner.SetName` | src/pages/AddSubject.tsx:89 | typing a name changes only that field |
| `Subjects.SubjectPlanner.SetEstimatedHours` | src/pages/AddSubject.tsx:102 | typing the hours changes only that field |
| `Subjects.SubjectPlanner.SetPriority` | src/pages/AddSubject.tsx:109 | choosing a priority changes only that field |
| `Subjects.SubjectPlanner.SetDeadline` | src/pages/AddSubject.tsx:127 | picking a deadline changes only that field |
| `Subjects.SubjectPlanner.HandleSubmit` | src/pages/AddSubject.tsx:22-46 | refused iff some field is empty, with list and form unchanged; otherwise exactly one subject appended at the end (earlier ones kept in order) carrying the given id, the typed name, priority and deadline, and parseInt of the typed hours; the form is reset to four empty strings |
| `Subjects.SubjectPlanner.HandleContinue` | src/pages/AddSubject.tsx:48-58 | continue is refused iff the subject list is empty |
| `ScheduleEdit.WithoutId` | src/lib/utils.ts:17 | the filter result is no longer than the input, holds no session with that id, and holds exactly the input sessions with other ids |
| `ScheduleEdit.RemoveSessionFromSchedule` | src/lib/utils.ts:8-21 | same number of days; every day at another index unchanged; at dayIndex the day name and date are kept and the sessions are those with other ids |
| `ScheduleEdit.WithoutIdKeepsOthers` | src/lib/utils.ts:17 | the remaining sessions are a subsequence of the original (order kept); each session with another id occurs as often as before, and sessions with that id occur zero times |
| `ScheduleEdit.WithoutIdIdempotent` | src/lib/utils.ts:17 | filtering out the same id twice equals filtering it once |
| `ScheduleEdit.RemoveIdempotent` | src/lib/utils.ts:8-21 | removing twice with the same arguments equals removing once |
| `ScheduleEdit.RemoveOutOfRange` | src/lib/utils.ts:13-20 | an index outside the schedule returns it unchanged |
| `ScheduleEdit.RemoveAtDay` | src/lib/utils.ts:14-19 | at dayIndex: name and date kept, no session with that id, and the rest in their original order and multiplicity |

## Left out

- The interval itself (`setInterval`/`clearInterval`), audio playback and the empty effect hooks are timing and side effects. A tick is a call to `Timer.Tick`, and the interval handle is a boolean.
- `Pomodoros.Timer.Tick`: at the end of a phase the code calls `resetTimer` from inside the `setSecondsLeft` updater, which then returns 0. Which value wins depends on React's update batching. The model takes the intended result: the new mode's full duration, not running.
- `Availability`: times are whole minutes of the day (0 to 1439), not a `Date` parsed from "HH:MM". Totals are whole minutes, not floating-point hours rounded by `toFixed(1)`. A cleared time input is not modelled: the page then parses `"2000-01-01 "`, which the V8 engine reads as midnight and other engines may reject (NaN hours).
- `Subjects.ParseInt`: works on unbounded integers. JavaScript's parseInt rounds a digit string above 2^53 to the nearest double ("9007199254740993" gives 9007199254740992), and the model does not do that rounding. Leading white space and a "0x" prefix are not modelled, since a number input never yields them. "-0" gives 0 rather than negative zero.
- `Digits.NatToString`: renders every natural number exactly, as plain digits. Above 2^53 a JavaScript template literal prints the shortest digits that round to the same double, padded with zeros (`${2**64}` is "18446744073709552000"), and from 10^21 it switches to exponent notation (`${1e21}` is "1e+21"). The model reproduces neither. The timer never shows more than 1500 seconds, so nothing modelled meets these values.
- The identifier `Date.now()` is passed in as the `id` parameter of `HandleSubmit`. The toast notifications and navigation are modelled only as the returned outcome.
- `cn` in src/lib/utils.ts wraps the `clsx` and `tailwind-merge` libraries, which are not part of this model.
- Sign-in, profile, session hooks, routing, the dashboard and the schedule page are remote I/O, UI or hard-coded demo data, and are not part of this model. The same goes for their priority-to-colour lookups.
