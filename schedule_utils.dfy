/**
 * removeSessionFromSchedule: a schedule is a list of days, each with its own
 * list of sessions; removing a session rebuilds the one day at `dayIndex`
 * without the sessions carrying `sessionId` and keeps every other day as it is.
 */
module ScheduleEdit {

  datatype Session = Session(id: int, subject: string, time: string, priority: string, completed: bool)

  datatype ScheduleDay = ScheduleDay(day: string, date: string, sessions: seq<Session>)

  /** The filter callback: the sessions whose id differs from `sessionId`, in their original order. */
  function WithoutId(sessions: seq<Session>, sessionId: int): (r: seq<Session>)
    ensures |r| <= |sessions|
    ensures forall k :: 0 <= k < |r| ==> r[k].id != sessionId
    ensures forall x :: x in r <==> x in sessions && x.id != sessionId
    decreases |sessions|
  {
    if |sessions| == 0 then []
    else if sessions[0].id != sessionId then [sessions[0]] + WithoutId(sessions[1..], sessionId)
    else WithoutId(sessions[1..], sessionId)
  }

  function RemoveSessionFromSchedule(schedule: seq<ScheduleDay>, dayIndex: int, sessionId: int): (r: seq<ScheduleDay>)
    ensures |r| == |schedule|
    ensures forall i :: 0 <= i < |r| && i != dayIndex ==> r[i] == schedule[i]
    ensures 0 <= dayIndex < |r| ==>
              && r[dayIndex].day == schedule[dayIndex].day
              && r[dayIndex].date == schedule[dayIndex].date
              && (forall x :: x in r[dayIndex].sessions <==> x in schedule[dayIndex].sessions && x.id != sessionId)
  {
    seq(|schedule|, i requires 0 <= i < |schedule| =>
      if i == dayIndex then schedule[i].(sessions := WithoutId(schedule[i].sessions, sessionId))
      else schedule[i])
  }

  /** `r` is `s` with some elements left out and the rest in their original order. */
  predicate IsSubsequence<T(==)>(r: seq<T>, s: seq<T>)
    decreases |s|
  {
    if |r| == 0 then true
    else if |s| == 0 then false
    else if r[0] == s[0] then IsSubsequence(r[1..], s[1..])
    else IsSubsequence(r, s[1..])
  }

  /**
   * The remaining sessions are exactly the original ones with other ids: in
   * their original order, and each as often as it was there before.
   */
  lemma {:induction false} WithoutIdKeepsOthers(sessions: seq<Session>, sessionId: int)
    ensures IsSubsequence(WithoutId(sessions, sessionId), sessions)
    ensures forall x: Session :: x.id != sessionId ==>
              multiset(WithoutId(sessions, sessionId))[x] == multiset(sessions)[x]
    ensures forall x: Session :: x.id == sessionId ==> multiset(WithoutId(sessions, sessionId))[x] == 0
    decreases |sessions|
  {
    if |sessions| > 0 {
      var rest := WithoutId(sessions[1..], sessionId);
      WithoutIdKeepsOthers(sessions[1..], sessionId);
      assert sessions == [sessions[0]] + sessions[1..];
      if sessions[0].id != sessionId {
        assert ([sessions[0]] + rest)[1..] == rest;
      }
    }
  }

  /** Filtering out an id a second time removes nothing more. */
  lemma {:induction false} WithoutIdIdempotent(sessions: seq<Session>, sessionId: int)
    ensures WithoutId(WithoutId(sessions, sessionId), sessionId) == WithoutId(sessions, sessionId)
    decreases |sessions|
  {
    if |sessions| > 0 {
      WithoutIdIdempotent(sessions[1..], sessionId);
      var rest := WithoutId(sessions[1..], sessionId);
      if sessions[0].id != sessionId {
        var r := [sessions[0]] + rest;
        assert r[0] == sessions[0] && r[1..] == rest;
      }
    }
  }

  /** Removing the same session twice is the same as removing it once. */
  lemma RemoveIdempotent(schedule: seq<ScheduleDay>, dayIndex: int, sessionId: int)
    ensures RemoveSessionFromSchedule(RemoveSessionFromSchedule(schedule, dayIndex, sessionId), dayIndex, sessionId)
            == RemoveSessionFromSchedule(schedule, dayIndex, sessionId)
  {
    if 0 <= dayIndex < |schedule| {
      WithoutIdIdempotent(schedule[dayIndex].sessions, sessionId);
    }
  }

  /** An index outside the schedule leaves it unchanged. */
  lemma RemoveOutOfRange(schedule: seq<ScheduleDay>, dayIndex: int, sessionId: int)
    requires dayIndex < 0 || dayIndex >= |schedule|
    ensures RemoveSessionFromSchedule(schedule, dayIndex, sessionId) == schedule
  {
  }

  /** At `dayIndex`, the sessions left are the original ones with other ids, in order and with their multiplicities. */
  lemma RemoveAtDay(schedule: seq<ScheduleDay>, dayIndex: int, sessionId: int)
    requires 0 <= dayIndex < |schedule|
    ensures var day := RemoveSessionFromSchedule(schedule, dayIndex, sessionId)[dayIndex];
            && day.day == schedule[dayIndex].day && day.date == schedule[dayIndex].date
            && (forall k :: 0 <= k < |day.sessions| ==> day.sessions[k].id != sessionId)
            && IsSubsequence(day.sessions, schedule[dayIndex].sessions)
            && (forall x: Session :: x.id != sessionId ==> multiset(day.sessions)[x] == multiset(schedule[dayIndex].sessions)[x])
  {
    WithoutIdKeepsOthers(schedule[dayIndex].sessions, sessionId);
  }
}
