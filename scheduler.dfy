/**
 * The wall-clock alignment loop of the slave screen: poll the clock every
 * 10 ms, release on the first sample whose seconds field is 0 and whose
 * milliseconds field is below 100, otherwise show the seconds left to the
 * next minute and poll again. It releases at most once, and only if such a
 * sample is polled before teardown.
 *
 * The clock is the sequence of samples the successive polls read. Teardown
 * is `cancelAfter`: Some(k) when the view is destroyed after k polls
 * (k = 0: before the loop first checks `isActive`; k > 0: during the 10 ms
 * delay that follows poll k), None when it is not destroyed within the
 * sampled horizon.
 */
module Scheduler {
  import opened Wrappers

  type Second = s: int | 0 <= s < 60
  type Millis = m: int | 0 <= m < 1000

  /** One reading of the seconds and milliseconds fields of the wall clock. */
  datatype Sample = Sample(second: Second, millis: Millis)

  /** Width of the release window after the minute boundary, in milliseconds. */
  const Tolerance := 100

  /** The release predicate: at most `Tolerance` ms past a minute boundary. */
  predicate InWindow(s: Sample)
  {
    s.second == 0 && s.millis < Tolerance
  }

  /** The countdown shown while waiting: whole seconds to the next minute. */
  function Countdown(second: Second): (r: int)
    ensures 1 <= r <= 60
    ensures second == 0 <==> r == 60
  {
    60 - second
  }

  /** How a polling job ends. */
  datatype Exit =
    | Released(at: nat)        // the recording was started on poll `at`
    | Inactive                 // cancelled before the first check of `isActive`
    | Interrupted(polls: nat)  // cancelled during the delay after poll `polls`
    | Waiting                  // still polling when the sampled clock ends

  /** The job has been cancelled by the time of poll `i`. */
  predicate CancelledBy(cancelAfter: Option<nat>, i: nat)
  {
    cancelAfter.Some? && cancelAfter.value <= i
  }

  /** The job's outcome, polling from sample `i` on. */
  function ScheduleFrom(clock: seq<Sample>, cancelAfter: Option<nat>, i: nat): (e: Exit)
    requires i <= |clock|
    ensures e.Released? ==> i <= e.at < |clock|
    ensures e.Interrupted? ==> i < e.polls <= |clock|
    ensures !e.Inactive?
    decreases |clock| - i
  {
    if i == |clock| then Waiting
    else if InWindow(clock[i]) then Released(i)
    else if cancelAfter == Some(i + 1) then Interrupted(i + 1)
    else ScheduleFrom(clock, cancelAfter, i + 1)
  }

  /** The job's outcome for a clock and a teardown moment. */
  function Schedule(clock: seq<Sample>, cancelAfter: Option<nat>): (e: Exit)
    ensures e.Released? ==> e.at < |clock|
    ensures e.Interrupted? ==> 0 < e.polls <= |clock|
    ensures e.Inactive? <==> cancelAfter == Some(0)
  {
    if cancelAfter == Some(0) then Inactive else ScheduleFrom(clock, cancelAfter, 0)
  }

  /** How many countdowns the job showed before it ended. */
  function Shown(exit: Exit, clock: seq<Sample>): nat
  {
    match exit
    case Released(at) => at
    case Inactive => 0
    case Interrupted(polls) => polls
    case Waiting => |clock|
  }

  lemma {:induction false} ScheduleFromSound(clock: seq<Sample>, cancelAfter: Option<nat>, i: nat)
    requires i <= |clock| && !CancelledBy(cancelAfter, i)
    ensures var e := ScheduleFrom(clock, cancelAfter, i);
      match e
      case Released(k) =>
        i <= k < |clock| && InWindow(clock[k]) && !CancelledBy(cancelAfter, k)
        && forall j :: i <= j < k ==> !InWindow(clock[j])
      case Interrupted(n) =>
        i < n <= |clock| && cancelAfter == Some(n) && forall j :: i <= j < n ==> !InWindow(clock[j])
      case Waiting =>
        !CancelledBy(cancelAfter, |clock|) && forall j :: i <= j < |clock| ==> !InWindow(clock[j])
      case Inactive => false
    decreases |clock| - i
  {
    if i < |clock| && !InWindow(clock[i]) && cancelAfter != Some(i + 1) {
      ScheduleFromSound(clock, cancelAfter, i + 1);
    }
  }

  /**
   * A release happens only on a sample inside the window, on the first such
   * sample, and only if the job was not cancelled before it; a sample missed
   * by a late poll is never released late.
   */
  lemma ReleaseOnlyInWindow(clock: seq<Sample>, cancelAfter: Option<nat>)
    ensures Schedule(clock, cancelAfter).Released? ==>
      var k := Schedule(clock, cancelAfter).at;
      k < |clock| && InWindow(clock[k]) && !CancelledBy(cancelAfter, k)
      && forall j :: 0 <= j < k ==> !InWindow(clock[j])
  {
    if cancelAfter != Some(0) {
      ScheduleFromSound(clock, cancelAfter, 0);
    }
  }

  /**
   * The job releases exactly when some sample inside the window is polled
   * before teardown; after a cancellation nothing is released.
   */
  lemma ReleaseIff(clock: seq<Sample>, cancelAfter: Option<nat>)
    ensures Schedule(clock, cancelAfter).Released?
            <==> exists k :: 0 <= k < |clock| && InWindow(clock[k]) && !CancelledBy(cancelAfter, k)
  {
    if cancelAfter != Some(0) {
      ScheduleFromSound(clock, cancelAfter, 0);
      var e := Schedule(clock, cancelAfter);
      if exists k :: 0 <= k < |clock| && InWindow(clock[k]) && !CancelledBy(cancelAfter, k) {
        var k :| 0 <= k < |clock| && InWindow(clock[k]) && !CancelledBy(cancelAfter, k);
        assert !e.Waiting? && !e.Interrupted?;
      }
    }
  }

  /**
   * The poll loop. Returns how the job ended and the countdowns it showed,
   * one per poll that did not release.
   */
  method PollUntilBoundary(clock: seq<Sample>, cancelAfter: Option<nat>) returns (exit: Exit, shown: seq<int>)
    ensures exit == Schedule(clock, cancelAfter)
    ensures |shown| == Shown(exit, clock) <= |clock|
    ensures forall j :: 0 <= j < |shown| ==> shown[j] == Countdown(clock[j].second)
  {
    shown := [];
    if cancelAfter == Some(0) {
      return Inactive, shown;
    }
    var i := 0;
    while i < |clock|
      invariant 0 <= i <= |clock| && |shown| == i
      invariant ScheduleFrom(clock, cancelAfter, i) == Schedule(clock, cancelAfter)
      invariant forall j :: 0 <= j < i ==> shown[j] == Countdown(clock[j].second)
    {
      var sample := clock[i];
      if InWindow(sample) {
        return Released(i), shown;
      }
      shown := shown + [Countdown(sample.second)];
      if cancelAfter == Some(i + 1) {
        return Interrupted(i + 1), shown;
      }
      i := i + 1;
    }
    return Waiting, shown;
  }

  /** The boundary reached at :00.050 releases on that poll. */
  lemma ReleasesAtBoundary()
    ensures Schedule([Sample(59, 990), Sample(59, 1), Sample(0, 50)], None) == Released(2)
  {
  }

  /** A poll landing at :00.120 misses the window; the job keeps waiting for the next minute. */
  lemma MissedWindowWaits()
    ensures Schedule([Sample(59, 995), Sample(0, 120), Sample(0, 130), Sample(1, 0)], None) == Waiting
  {
  }
}
