/**
 When a schedule runs next (`computeNextRunAt` in `src/services/schedule-cron.ts`).

 The cron expression is the increasing sequence of its times, in milliseconds, indexed by the integers; the
 library's cursor stands behind the last time strictly before now and moves along the sequence.
 */
module ScheduleCron {
  import opened Wrappers

  const MIN_INTERVAL_MILLIS := 10_000
  const ITERATIONS := 11

  type Times = int -> int

  // ---------- The random offset ----------

  datatype Shortcut = Hourly | Daily | Weekly | Monthly | Yearly

  datatype Bounds = Bounds(minSecs: int, maxSecs: int, roundSecs: int)

  function OffsetBounds(shortcut: Shortcut): Bounds {
    match shortcut
    case Hourly => Bounds(60, 1800, 10)
    case Daily => Bounds(300, 21600, 30)
    case Weekly => Bounds(300, 43200, 60)
    case Monthly => Bounds(300, 86400, 600)
    case Yearly => Bounds(300, 86400, 600)
  }

  /** The shortest time between two runs of a shortcut, a day being an hour shorter when the clocks go forward. */
  function ShortestPeriodSecs(shortcut: Shortcut): int {
    match shortcut
    case Hourly => 3600
    case Daily => 23 * 3600
    case Weekly => 7 * 24 * 3600 - 3600
    case Monthly => 28 * 24 * 3600 - 3600
    case Yearly => 365 * 24 * 3600 - 3600
  }

  /** To the nearest integer, halves up. */
  function Round(x: real): int {
    (x + 0.5).Floor
  }

  /** Rounded to whole seconds first, to the bounds' own step second. */
  function OffsetSecs(shortcut: Option<Shortcut>, coefficient: real): int {
    if shortcut.None? || coefficient <= 0.0 then 0
    else
      var bounds := OffsetBounds(shortcut.value);
      var secs := Round(bounds.minSecs as real + coefficient * (bounds.maxSecs - bounds.minSecs) as real);
      Round(secs as real / bounds.roundSecs as real) * bounds.roundSecs
  }

  /** For every shortcut and coefficient the offset is within its bounds, and shorter than the period. */
  lemma OffsetIsWithinBounds(shortcut: Shortcut, coefficient: real)
    requires 0.0 < coefficient <= 1.0
    ensures OffsetBounds(shortcut).minSecs <= OffsetSecs(Some(shortcut), coefficient) <= OffsetBounds(shortcut).maxSecs
    ensures OffsetBounds(shortcut).maxSecs < ShortestPeriodSecs(shortcut)
  {
  }

  /**
   The offset is where the coefficient puts it between the bounds, give or take half a step and half a second, and
   whole steps; without a shortcut or a coefficient there is none.
   */
  lemma OffsetFollowsCoefficient(shortcut: Option<Shortcut>, coefficient: real)
    requires coefficient <= 1.0
    ensures shortcut.None? || coefficient <= 0.0 ==> OffsetSecs(shortcut, coefficient) == 0
    ensures shortcut.Some? && coefficient > 0.0 ==>
      var offset, bounds := OffsetSecs(shortcut, coefficient), OffsetBounds(shortcut.value);
      var exact := bounds.minSecs as real + coefficient * (bounds.maxSecs - bounds.minSecs) as real;
      var slack := bounds.roundSecs as real / 2.0 + 0.5;
      && offset % bounds.roundSecs == 0 && exact - slack <= offset as real <= exact + slack
  {
    if shortcut.Some? && coefficient > 0.0 {
      var bounds := OffsetBounds(shortcut.value);
      var exact := bounds.minSecs as real + coefficient * (bounds.maxSecs - bounds.minSecs) as real;
      RoundIsNear(exact);
      RoundIsNear(Round(exact) as real / bounds.roundSecs as real);
      hide Round;
    }
  }

  lemma RoundIsNear(x: real)
    ensures x - 0.5 <= Round(x) as real <= x + 0.5
  {
  }

  // ---------- The search ----------

  /** Two times are at least a second apart: cron expressions know nothing finer. */
  ghost predicate Spaced(times: Times, gapMillis: int) {
    forall i :: times(i + 1) - times(i) >= gapMillis
  }

  /** Where the library's cursor stands: behind the last time strictly before now. */
  predicate CursorAt(times: Times, below: int, now: int) {
    times(below) < now <= times(below + 1)
  }

  /** The time the search starts from: the previous one if an offset may still bring it ahead, else the next. */
  function First(times: Times, below: int, offsetSecs: int, now: int): int {
    if offsetSecs > 0 then below else if times(below + 1) == now then below + 2 else below + 1
  }

  function Shift(offsetSecs: int): int {
    if offsetSecs > 0 then offsetSecs * 1000 else 0
  }

  predicate FarEnough(at: int, now: int, last: Option<int>) {
    at >= now && (last.None? || at - last.value >= MIN_INTERVAL_MILLIS)
  }

  /** The first of some candidates, each a cron time plus the offset, that is far enough. */
  function Search(times: Times, index: int, offsetSecs: int, now: int, last: Option<int>, rounds: nat): Option<int>
    decreases rounds
  {
    if rounds == 0 then None
    else
      var at := times(index) + Shift(offsetSecs);
      if FarEnough(at, now, last) then Some(at) else Search(times, index + 1, offsetSecs, now, last, rounds - 1)
  }

  function NextRun(times: Times, below: int, offsetSecs: int, now: int, last: Option<int>): Option<int> {
    Search(times, First(times, below, offsetSecs, now), offsetSecs, now, last, ITERATIONS)
  }

  method RandomOffset(shortcut: Option<Shortcut>, coefficient: real) returns (offsetSecs: int)
    ensures offsetSecs == OffsetSecs(shortcut, coefficient)
  {
    hide Round;
    offsetSecs := 0;
    if shortcut.Some? && coefficient > 0.0 {
      var bounds := OffsetBounds(shortcut.value);
      offsetSecs := Round(bounds.minSecs as real + coefficient * (bounds.maxSecs - bounds.minSecs) as real);
      offsetSecs := Round(offsetSecs as real / bounds.roundSecs as real) * bounds.roundSecs;
    }
  }

  /** The cursor moves one time per round; after the last round `computeNextRunAt` throws. */
  method FindNextRun(times: Times, below: int, offsetSecs: int, now: int, last: Option<int>) returns (next: Option<int>)
    ensures next == NextRun(times, below, offsetSecs, now, last)
  {
    // What `next()` from now would answer: the cursor is at now, not at the time before it.
    var ahead := if times(below + 1) == now then below + 2 else below + 1;
    var cursor := if offsetSecs > 0 then below else ahead;
    assert cursor == First(times, below, offsetSecs, now);
    hide Search, First;
    ghost var goal := Search(times, cursor, offsetSecs, now, last, ITERATIONS);
    var i := 0;
    while i < ITERATIONS
      invariant 0 <= i <= ITERATIONS
      invariant Search(times, cursor, offsetSecs, now, last, ITERATIONS - i) == goal
    {
      SearchStep(times, cursor, offsetSecs, now, last, ITERATIONS - i);
      var nextRunAt := times(cursor);
      if offsetSecs > 0 {
        nextRunAt := nextRunAt + offsetSecs * 1000;
      }
      if nextRunAt >= now && (last.None? || nextRunAt - last.value >= MIN_INTERVAL_MILLIS) {
        return Some(nextRunAt);
      }
      cursor := cursor + 1;
      i := i + 1;
    }
    SearchStep(times, cursor, offsetSecs, now, last, 0);
    next := None;
  }

  method ComputeNextRunAt(times: Times, below: int, shortcut: Option<Shortcut>, coefficient: real, now: int,
                          last: Option<int>)
    returns (next: Option<int>)
    ensures next == NextRun(times, below, OffsetSecs(shortcut, coefficient), now, last)
  {
    hide NextRun, OffsetSecs;
    var offsetSecs := RandomOffset(shortcut, coefficient);
    next := FindNextRun(times, below, offsetSecs, now, last);
  }

  lemma SearchStep(times: Times, index: int, offsetSecs: int, now: int, last: Option<int>, rounds: nat)
    ensures Search(times, index, offsetSecs, now, last, rounds)
         == if rounds == 0 then None
            else if FarEnough(times(index) + Shift(offsetSecs), now, last) then Some(times(index) + Shift(offsetSecs))
            else Search(times, index + 1, offsetSecs, now, last, rounds - 1)
  {
  }

  // ---------- What it finds ----------

  lemma {:induction false} LaterByGaps(times: Times, gapMillis: int, i: int, j: int)
    requires Spaced(times, gapMillis) && i <= j
    ensures times(j) - times(i) >= (j - i) * gapMillis
    decreases j - i
  {
    if i < j {
      LaterByGaps(times, gapMillis, i, j - 1);
      assert times((j - 1) + 1) - times(j - 1) >= gapMillis;
    }
  }

  lemma {:induction false} LaterByAGap(times: Times, gapMillis: int, i: int, j: int)
    requires Spaced(times, gapMillis) && gapMillis >= 0 && i < j
    ensures times(j) - times(i) >= gapMillis
    decreases j - i
  {
    assert times((j - 1) + 1) - times(j - 1) >= gapMillis;
    if i < j - 1 {
      LaterByAGap(times, gapMillis, i, j - 1);
    }
  }

  /** A search that meets a time far enough ends there or before, with the first such time. */
  lemma {:induction false} SearchFindsFirst(
      times: Times, index: int, offsetSecs: int, now: int, last: Option<int>, rounds: nat, good: int)
    requires index <= good < index + rounds && FarEnough(times(good) + Shift(offsetSecs), now, last)
    ensures Search(times, index, offsetSecs, now, last, rounds).Some?
    ensures exists k :: (
      && index <= k <= good
      && Search(times, index, offsetSecs, now, last, rounds).value == times(k) + Shift(offsetSecs)
      && FarEnough(times(k) + Shift(offsetSecs), now, last)
      && (forall j :: index <= j < k ==> !FarEnough(times(j) + Shift(offsetSecs), now, last)))
    decreases rounds
  {
    if FarEnough(times(index) + Shift(offsetSecs), now, last) {
      assert Search(times, index, offsetSecs, now, last, rounds).value == times(index) + Shift(offsetSecs);
    } else {
      SearchFindsFirst(times, index + 1, offsetSecs, now, last, rounds - 1, good);
    }
  }

  /** The last of the eleven candidates is always far enough. */
  lemma EleventhIsFarEnough(times: Times, below: int, offsetSecs: int, now: int, last: Option<int>)
    requires Spaced(times, 1000) && CursorAt(times, below, now) && offsetSecs >= 0
    requires last.Some? ==> last.value <= now
    ensures FarEnough(times(First(times, below, offsetSecs, now) + 10) + Shift(offsetSecs), now, last)
  {
    var first := First(times, below, offsetSecs, now);
    if offsetSecs > 0 {
      LaterByGaps(times, 1000, below + 1, first + 10);
    } else {
      LaterByGaps(times, 1000, below + 1, first);
      LaterByGaps(times, 1000, first, first + 10);
    }
  }

  /** Nothing before the first candidate comes into question. */
  lemma EarlierAreTooEarly(times: Times, below: int, offsetSecs: int, now: int, j: int)
    requires Spaced(times, 1000) && CursorAt(times, below, now) && offsetSecs >= 0
    requires offsetSecs > 0 ==> Spaced(times, offsetSecs * 1000)
    requires offsetSecs > 0 ==> j < below
    requires offsetSecs == 0 ==> j < First(times, below, 0, now)
    ensures times(j) + Shift(offsetSecs) < now || (offsetSecs == 0 && times(j) == now)
  {
    if offsetSecs > 0 {
      LaterByAGap(times, offsetSecs * 1000, j, below);
    } else {
      LaterByGaps(times, 1000, j, First(times, below, 0, now) - 1);
    }
  }

  /** Whether a moment is a run this schedule could have: a cron time plus the offset, far enough ahead. */
  ghost predicate Possible(times: Times, offsetSecs: int, now: int, last: Option<int>, at: int) {
    && (exists j :: Candidate(times, offsetSecs, j) == at)
    && at >= now && (last.Some? ==> at - last.value >= 10_000)
  }

  function Candidate(times: Times, offsetSecs: int, j: int): int {
    times(j) + offsetSecs * 1000
  }

  /**
   For every cron sequence with times a second or more apart, the offset shorter than its period, and a last
   run not after now: eleven rounds suffice, and the answer is the earliest cron time plus offset that is not
   before now and 10 seconds behind the last run. Without an offset, now itself does not count.
   */
  lemma NextRunIsEarliest(times: Times, below: int, offsetSecs: int, now: int, last: Option<int>)
    requires Spaced(times, 1000) && CursorAt(times, below, now) && offsetSecs >= 0
    requires offsetSecs > 0 ==> Spaced(times, offsetSecs * 1000)
    requires last.Some? ==> last.value <= now
    ensures NextRun(times, below, offsetSecs, now, last).Some?
    ensures var at := NextRun(times, below, offsetSecs, now, last).value;
      && Possible(times, offsetSecs, now, last, at) && (offsetSecs == 0 ==> at > now)
      && forall other :: Possible(times, offsetSecs, now, last, other) && (offsetSecs == 0 ==> other > now) ==>
           at <= other
  {
    hide Spaced;
    var first := First(times, below, offsetSecs, now);
    EleventhIsFarEnough(times, below, offsetSecs, now, last);
    SearchFindsFirst(times, first, offsetSecs, now, last, ITERATIONS, first + 10);
    var at := NextRun(times, below, offsetSecs, now, last).value;
    var k :| first <= k <= first + 10 && at == times(k) + Shift(offsetSecs) && FarEnough(at, now, last)
          && forall j :: first <= j < k ==> !FarEnough(times(j) + Shift(offsetSecs), now, last);
    assert Candidate(times, offsetSecs, k) == at;
    if offsetSecs == 0 {
      LaterByGaps(times, 1000, below + 1, first);
      LaterByGaps(times, 1000, first, k);
    }
    forall other | Possible(times, offsetSecs, now, last, other) && (offsetSecs == 0 ==> other > now)
      ensures at <= other
    {
      var j :| Candidate(times, offsetSecs, j) == other;
      assert FarEnough(other, now, last);
      if j < first {
        EarlierAreTooEarly(times, below, offsetSecs, now, j);
      } else if j >= k {
        LaterByGaps(times, 1000, k, j);
      }
    }
  }

  lemma SpacedByLess(times: Times, gapMillis: int, lessMillis: int)
    requires Spaced(times, gapMillis) && lessMillis <= gapMillis
    ensures Spaced(times, lessMillis)
  {
    forall i ensures times(i + 1) - times(i) >= lessMillis {
      assert times(i + 1) - times(i) >= gapMillis;
    }
  }

  /** A shortcut with any coefficient: the offset it is given is one the search copes with. */
  lemma ShortcutsRunOnTime(times: Times, below: int, shortcut: Shortcut, coefficient: real, now: int, last: Option<int>)
    requires Spaced(times, ShortestPeriodSecs(shortcut) * 1000) && CursorAt(times, below, now)
    requires 0.0 < coefficient <= 1.0 && (last.Some? ==> last.value <= now)
    ensures var offsetSecs := OffsetSecs(Some(shortcut), coefficient);
      var next := NextRun(times, below, offsetSecs, now, last);
      && next.Some? && Possible(times, offsetSecs, now, last, next.value)
      && (forall other :: Possible(times, offsetSecs, now, last, other) ==> next.value <= other)
  {
    OffsetIsWithinBounds(shortcut, coefficient);
    var offsetSecs := OffsetSecs(Some(shortcut), coefficient);
    assert offsetSecs > 0;
    hide OffsetSecs, Spaced, NextRun, Possible;
    SpacedByLess(times, ShortestPeriodSecs(shortcut) * 1000, 1000);
    SpacedByLess(times, ShortestPeriodSecs(shortcut) * 1000, offsetSecs * 1000);
    NextRunIsEarliest(times, below, offsetSecs, now, last);
  }

  /** The documented "at or after now" holds without an offset exactly when no run is possible right now. */
  lemma NowIsSkipped(times: Times, below: int, now: int, last: Option<int>)
    requires Spaced(times, 1000) && CursorAt(times, below, now) && (last.Some? ==> last.value <= now)
    ensures NextRun(times, below, 0, now, last).Some?
    ensures (forall other :: Possible(times, 0, now, last, other) ==>
               NextRun(times, below, 0, now, last).value <= other)
            <==> !Possible(times, 0, now, last, now)
  {
    NextRunIsEarliest(times, below, 0, now, last);
    hide Spaced, NextRun;
  }

  /** Ten rounds would be too few: a run every second, the last one just now. */
  lemma ElevenRoundsAreNeeded()
    ensures var times: Times := i => i * 1000;
      && Spaced(times, 1000) && CursorAt(times, 0, 999)
      && Search(times, First(times, 0, 0, 999), 0, 999, Some(999), 10) == None
      && Search(times, First(times, 0, 0, 999), 0, 999, Some(999), 11) == Some(11000)
  {
  }
}
