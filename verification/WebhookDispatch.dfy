/**
 The delivery of one webhook dispatch (`src/services/webhook-dispatches.ts`).

 A dispatch is attempted when its timer fires; an attempt reads the dispatch, looks its webhook up, delivers,
 writes the outcome and schedules the next attempt, with awaits in between. A restart of the process drops
 timers and attempts and schedules what is still active.
 */
module WebhookDispatch {
  import opened Wrappers

  const MAX_RETRIES := 11
  const MAX_TEST_RETRIES := 3
  const BACKOFF_BASE_MILLIS := 60_000

  datatype Status = Active | Succeeded | Failed

  datatype Call = Call(startedAt: int, finishedAt: int)

  /** `doNotRetry` is the webhook's as the dispatch was created; `waits` is how far ahead each retry was scheduled. */
  datatype Dispatch = Dispatch(
    isTest: bool,
    doNotRetry: bool,
    status: Status,
    finishedAt: Option<int>,
    callAt: int,
    calls: seq<Call>,
    waits: seq<int>)

  /** What an attempt is waiting for. */
  datatype Attempt =
    | Reading
    | LookingUp(dispatch: Dispatch, startedAt: int)
    | Delivering(dispatch: Dispatch, startedAt: int)
    | Writing(call: Call, status: Status, callAt: int)
    | Scheduling(status: Status, callAt: int)

  datatype System = System(dispatch: Dispatch, timer: Option<int>, attempts: seq<Attempt>, clock: int)

  function Max(a: int, b: int): int {
    if a >= b then a else b
  }

  function Pow2(n: nat): nat {
    if n == 0 then 1 else 2 * Pow2(n - 1)
  }

  function MaxRetries(dispatch: Dispatch): nat {
    if dispatch.doNotRetry then 0 else if dispatch.isTest then MAX_TEST_RETRIES else MAX_RETRIES
  }

  /** Between 3/4 and 5/4; `random` is in [0, 1). */
  function Factor(random: real): real {
    1.0 + (random * 2.0 - 1.0) * 0.25
  }

  /** A delay give or take a quarter, in whole milliseconds. */
  function Jittered(delay: nat, random: real): int {
    (delay as real * Factor(random)).Floor
  }

  /** The delay doubles with every call made. */
  function Backoff(calls: nat, random: real): int {
    Jittered(BACKOFF_BASE_MILLIS * Pow2(calls), random)
  }

  predicate MayRetry(dispatch: Dispatch) {
    !dispatch.doNotRetry && |dispatch.calls| < if dispatch.isTest then MAX_TEST_RETRIES else MAX_RETRIES
  }

  /** `finishAttempt` up to its write. */
  function Concluded(dispatch: Dispatch, startedAt: int, outcome: Status, random: real, clock: int): Attempt {
    var call := Call(startedAt, clock);
    if outcome != Active then Writing(call, outcome, dispatch.callAt)
    else if MayRetry(dispatch) then Writing(call, Active, clock + Backoff(|dispatch.calls|, random))
    else Writing(call, Failed, dispatch.callAt)
  }

  /** The write: the call is appended, and a final outcome finishes the dispatch. */
  function Written(dispatch: Dispatch, call: Call, status: Status, callAt: int): Dispatch {
    dispatch.(
      status := status, callAt := callAt,
      finishedAt := if status == Active then None else Some(call.finishedAt),
      calls := dispatch.calls + [call],
      waits := if status == Active then dispatch.waits + [callAt - call.finishedAt] else dispatch.waits)
  }

  /** `insertDispatch`: stored as active and scheduled at once. */
  function Insert(isTest: bool, doNotRetry: bool, clock: int): System {
    System(Dispatch(isTest, doNotRetry, Active, None, clock, [], []), Some(clock), [], clock)
  }

  /**
   `Proceeds` is the next stretch of an attempt: `enabled` is what the lookup of the webhook answers (none:
   removed), `outcome` how the delivery ends. `Restarted` is a new process resuming what it finds active.
   */
  datatype Event =
    | TimerFires
    | Proceeds(n: nat, enabled: Option<bool>, outcome: Status, random: real)
    | Restarted
    | TimePasses(millis: nat)

  function Without(attempts: seq<Attempt>, n: nat): seq<Attempt>
    requires n < |attempts|
  {
    attempts[..n] + attempts[n + 1..]
  }

  function Fire(system: System): System {
    if system.timer.None? || system.clock < system.timer.value then system
    else system.(timer := None, attempts := system.attempts + [Reading])
  }

  function Proceed(system: System, n: nat, enabled: Option<bool>, outcome: Status, random: real): System
    requires n < |system.attempts|
  {
    match system.attempts[n]
    case Reading =>
      if system.dispatch.status != Active then system.(attempts := Without(system.attempts, n))
      else system.(attempts := system.attempts[n := LookingUp(system.dispatch, system.clock)])
    case LookingUp(dispatch, startedAt) =>
      if enabled.None? || (!enabled.value && !dispatch.isTest)
      then system.(attempts := system.attempts[n := Concluded(dispatch, startedAt, Failed, random, system.clock)])
      else system.(attempts := system.attempts[n := Delivering(dispatch, startedAt)])
    case Delivering(dispatch, startedAt) =>
      system.(attempts := system.attempts[n := Concluded(dispatch, startedAt, outcome, random, system.clock)])
    case Writing(call, status, callAt) =>
      system.(dispatch := Written(system.dispatch, call, status, callAt),
              attempts := system.attempts[n := Scheduling(status, callAt)])
    case Scheduling(status, callAt) =>
      system.(attempts := Without(system.attempts, n),
              timer := if status == Active then Some(Max(system.clock, callAt)) else system.timer)
  }

  function Restart(system: System): System {
    system.(attempts := [],
            timer := if system.dispatch.status == Active then Some(Max(system.clock, system.dispatch.callAt)) else None)
  }

  function Step(system: System, event: Event): System {
    match event
    case TimerFires => Fire(system)
    case Proceeds(n, enabled, outcome, random) =>
      if n < |system.attempts| && 0.0 <= random < 1.0 then Proceed(system, n, enabled, outcome, random) else system
    case Restarted => Restart(system)
    case TimePasses(millis) => system.(clock := system.clock + millis)
  }

  function After(system: System, events: seq<Event>): System
    decreases |events|
  {
    if events == [] then system else After(Step(system, events[0]), events[1..])
  }

  // ---------- The retry schedule ----------

  /** A wait is within a quarter of its delay, to the millisecond. */
  predicate InRange(wait: int, delay: nat) {
    3 * delay - 4 < 4 * wait <= 5 * delay
  }

  ghost predicate WaitsInRange(waits: seq<int>) {
    forall i {:trigger waits[i]} :: 0 <= i < |waits| ==> InRange(waits[i], 60_000 * Pow2(i))
  }

  function Sum(waits: seq<int>): int {
    if waits == [] then 0 else Sum(waits[..|waits| - 1]) + waits[|waits| - 1]
  }

  lemma {:induction false} BackoffInRange(calls: nat, random: real)
    requires 0.0 <= random < 1.0
    ensures InRange(Backoff(calls, random), BACKOFF_BASE_MILLIS * Pow2(calls))
  {
    hide Pow2, Jittered, InRange;
    JitterInRange(BACKOFF_BASE_MILLIS * Pow2(calls), random);
  }

  lemma JitterInRange(delay: nat, random: real)
    requires 0.0 <= random < 1.0
    ensures InRange(Jittered(delay, random), delay)
  {
    assert 0.75 <= Factor(random) <= 1.25;
    hide Factor, InRange;
    Scaled(delay as real, Factor(random));
    FloorInRange(delay as real * Factor(random), delay);
  }

  lemma FloorInRange(exact: real, delay: nat)
    requires 0.75 * delay as real <= exact <= 1.25 * delay as real
    ensures InRange(exact.Floor, delay)
  {
    var wait := exact.Floor;
    assert wait as real <= exact < wait as real + 1.0;
    assert (4 * wait) as real == 4.0 * wait as real && (3 * delay) as real == 3.0 * delay as real;
    assert (5 * delay) as real == 5.0 * delay as real;
  }

  lemma Scaled(d: real, factor: real)
    requires d >= 0.0 && 0.75 <= factor <= 1.25
    ensures 0.75 * d <= d * factor <= 1.25 * d
  {
    assert d * (factor - 0.75) >= 0.0 && d * (1.25 - factor) >= 0.0;
  }

  /** All waits together are at most a quarter more than the doubling delays together. */
  lemma {:induction false} WaitsAddUp(waits: seq<int>)
    requires WaitsInRange(waits)
    ensures 4 * Sum(waits) <= 5 * BACKOFF_BASE_MILLIS * (Pow2(|waits|) - 1)
  {
    if waits != [] {
      var n := |waits| - 1;
      assert InRange(waits[n], BACKOFF_BASE_MILLIS * Pow2(n));
      WaitsAddUp(waits[..n]);
    }
  }

  // ---------- What every interleaving keeps ----------

  /** A final dispatch is finished with its last call, an active one not at all. */
  function FinishTime(dispatch: Dispatch): Option<int> {
    if dispatch.status == Active || dispatch.calls == [] then None
    else Some(dispatch.calls[|dispatch.calls| - 1].finishedAt)
  }

  /** The record: finished exactly when final, and no more calls than allowed, each behind the wait before it. */
  ghost predicate RecordFits(dispatch: Dispatch) {
    && dispatch.finishedAt == FinishTime(dispatch)
    && |dispatch.calls| <= MaxRetries(dispatch) + 1
    && |dispatch.waits| == (if dispatch.status == Active then |dispatch.calls| else |dispatch.calls| - 1)
    && |dispatch.waits| <= MaxRetries(dispatch)
    && WaitsInRange(dispatch.waits)
    && CallsSpaced(dispatch.calls, dispatch.waits)
    && (dispatch.status == Active && dispatch.calls != [] ==> dispatch.callAt == NextCallAt(dispatch))
  }

  ghost predicate CallsSpaced(calls: seq<Call>, waits: seq<int>) {
    && |calls| <= |waits| + 1
    && forall i {:trigger calls[i + 1]} :: 0 <= i < |calls| - 1 ==>
         calls[i + 1].startedAt >= calls[i].finishedAt + waits[i]
  }

  function NextCallAt(dispatch: Dispatch): int
    requires dispatch.calls != [] && |dispatch.waits| == |dispatch.calls|
  {
    dispatch.calls[|dispatch.calls| - 1].finishedAt + dispatch.waits[|dispatch.waits| - 1]
  }

  /** An attempt works on the record as it is, and started no earlier than the record allows. */
  ghost predicate AttemptFits(system: System, attempt: Attempt) {
    match attempt
    case Reading => system.dispatch.status == Active && system.dispatch.callAt <= system.clock
    case LookingUp(dispatch, startedAt) =>
      dispatch == system.dispatch && dispatch.status == Active && dispatch.callAt <= startedAt
    case Delivering(dispatch, startedAt) =>
      dispatch == system.dispatch && dispatch.status == Active && dispatch.callAt <= startedAt
    case Writing(call, status, callAt) =>
      && system.dispatch.status == Active && system.dispatch.callAt <= call.startedAt
      && (status == Active ==>
            && MayRetry(system.dispatch)
            && InRange(callAt - call.finishedAt, BACKOFF_BASE_MILLIS * Pow2(|system.dispatch.calls|)))
    case Scheduling(status, callAt) => status == system.dispatch.status && callAt == system.dispatch.callAt
  }

  /** One timer or one attempt, never both, and one of them while the dispatch is active. */
  ghost predicate Inv(system: System) {
    && RecordFits(system.dispatch)
    && |system.attempts| <= 1
    && (forall i :: 0 <= i < |system.attempts| ==> AttemptFits(system, system.attempts[i]))
    && (system.timer.Some? ==>
          && system.attempts == [] && system.dispatch.status == Active
          && system.dispatch.callAt <= system.timer.value <= Max(system.clock, system.dispatch.callAt))
    && (system.dispatch.status == Active ==> system.timer.Some? || system.attempts != [])
  }

  lemma ConcludedFits(system: System, dispatch: Dispatch, startedAt: int, outcome: Status, random: real)
    requires dispatch == system.dispatch && dispatch.status == Active && dispatch.callAt <= startedAt
    requires 0.0 <= random < 1.0
    ensures AttemptFits(system, Concluded(dispatch, startedAt, outcome, random, system.clock))
  {
    BackoffInRange(|dispatch.calls|, random);
    hide Backoff, InRange, Pow2;
  }

  lemma WrittenFits(dispatch: Dispatch, call: Call, status: Status, callAt: int)
    requires RecordFits(dispatch) && dispatch.status == Active && dispatch.callAt <= call.startedAt
    requires status == Active ==>
      MayRetry(dispatch) && InRange(callAt - call.finishedAt, BACKOFF_BASE_MILLIS * Pow2(|dispatch.calls|))
    ensures RecordFits(Written(dispatch, call, status, callAt))
  {
    hide InRange, Pow2;
    var next := Written(dispatch, call, status, callAt);
    forall i {:trigger next.waits[i]} | 0 <= i < |next.waits|
      ensures InRange(next.waits[i], BACKOFF_BASE_MILLIS * Pow2(i))
    {
      if i < |dispatch.waits| {
        assert next.waits[i] == dispatch.waits[i];
      }
    }
    forall i {:trigger next.calls[i + 1]} | 0 <= i < |next.calls| - 1
      ensures next.calls[i + 1].startedAt >= next.calls[i].finishedAt + next.waits[i]
    {
      if i + 1 < |dispatch.calls| {
        assert next.calls[i + 1] == dispatch.calls[i + 1] && next.waits[i] == dispatch.waits[i];
      }
    }
  }

  lemma ProceedKeeps(system: System, enabled: Option<bool>, outcome: Status, random: real)
    requires Inv(system) && system.attempts != [] && 0.0 <= random < 1.0
    ensures Inv(Proceed(system, 0, enabled, outcome, random))
  {
    hide RecordFits, InRange, MayRetry, Concluded, Written;
    var attempt := system.attempts[0];
    assert AttemptFits(system, attempt);
    match attempt
    case Reading =>
    case LookingUp(dispatch, startedAt) => ConcludedFits(system, dispatch, startedAt, Failed, random);
    case Delivering(dispatch, startedAt) => ConcludedFits(system, dispatch, startedAt, outcome, random);
    case Writing(call, status, callAt) =>
      WrittenFits(system.dispatch, call, status, callAt);
      WrittenStatus(system.dispatch, call, status, callAt);
    case Scheduling(status, callAt) =>
  }

  lemma WrittenStatus(dispatch: Dispatch, call: Call, status: Status, callAt: int)
    ensures Written(dispatch, call, status, callAt).status == status
    ensures Written(dispatch, call, status, callAt).callAt == callAt
  {
  }

  lemma StepKeeps(system: System, event: Event)
    requires Inv(system)
    ensures Inv(Step(system, event))
  {
    hide RecordFits, Proceed, InRange, MayRetry;
    match event
    case Proceeds(n, enabled, outcome, random) =>
      if n < |system.attempts| && 0.0 <= random < 1.0 {
        ProceedKeeps(system, enabled, outcome, random);
      }
    case _ =>
  }

  lemma {:induction false} EveryInterleaving(system: System, events: seq<Event>)
    requires Inv(system)
    ensures Inv(After(system, events))
    decreases |events|
  {
    hide Inv, Step;
    if events != [] {
      StepKeeps(system, events[0]);
      EveryInterleaving(Step(system, events[0]), events[1..]);
    }
  }

  lemma InsertedFits(isTest: bool, doNotRetry: bool, clock: int)
    ensures Inv(Insert(isTest, doNotRetry, clock))
  {
  }

  /** At most 12 calls, 4 for a test, 1 without retries. */
  function CallLimit(isTest: bool, doNotRetry: bool): nat {
    if doNotRetry then 1 else if isTest then 4 else 12
  }

  lemma {:induction false} KindStays(system: System, events: seq<Event>)
    ensures After(system, events).dispatch.isTest == system.dispatch.isTest
    ensures After(system, events).dispatch.doNotRetry == system.dispatch.doNotRetry
    decreases |events|
  {
    if events != [] {
      hide Concluded;
      KindStays(Step(system, events[0]), events[1..]);
    }
  }

  /**
   After every interleaving of timers, lookups, deliveries and restarts: the calls stay within the limit, the
   dispatch is finished with its last call once it is final, while it is active it has a timer or an attempt but
   never both, the timer is due when the next call is or at once, each wait is within a quarter of its doubling
   delay, no call starts before the wait behind the last one is over, and so all waits add up.
   */
  lemma DispatchIsDelivered(isTest: bool, doNotRetry: bool, clock: int, events: seq<Event>)
    ensures var system := After(Insert(isTest, doNotRetry, clock), events); var dispatch := system.dispatch;
      && |dispatch.calls| <= CallLimit(isTest, doNotRetry)
      && dispatch.finishedAt == FinishTime(dispatch)
      && (dispatch.status == Active ==> system.timer.Some? || system.attempts != [])
      && (system.timer.Some? ==> system.attempts == []) && |system.attempts| <= 1
      && (system.timer.Some? ==>
            dispatch.callAt <= system.timer.value <= Max(system.clock, dispatch.callAt))
      && WaitsInRange(dispatch.waits) && CallsSpaced(dispatch.calls, dispatch.waits)
      && (dispatch.status == Active && dispatch.calls != [] ==>
            |dispatch.waits| == |dispatch.calls| && dispatch.callAt == NextCallAt(dispatch))
      && 4 * Sum(dispatch.waits) <= 5 * BACKOFF_BASE_MILLIS * (Pow2(MAX_RETRIES) - 1)
  {
    InsertedFits(isTest, doNotRetry, clock);
    EveryInterleaving(Insert(isTest, doNotRetry, clock), events);
    KindStays(Insert(isTest, doNotRetry, clock), events);
    hide *;
    FittingRecord(After(Insert(isTest, doNotRetry, clock), events));
  }

  lemma FittingRecord(system: System)
    requires Inv(system)
    ensures var dispatch := system.dispatch;
      && |dispatch.calls| <= CallLimit(dispatch.isTest, dispatch.doNotRetry)
      && dispatch.finishedAt == FinishTime(dispatch)
      && (dispatch.status == Active ==> system.timer.Some? || system.attempts != [])
      && (system.timer.Some? ==> system.attempts == []) && |system.attempts| <= 1
      && (system.timer.Some? ==>
            dispatch.callAt <= system.timer.value <= Max(system.clock, dispatch.callAt))
      && WaitsInRange(dispatch.waits) && CallsSpaced(dispatch.calls, dispatch.waits)
      && (dispatch.status == Active && dispatch.calls != [] ==>
            |dispatch.waits| == |dispatch.calls| && dispatch.callAt == NextCallAt(dispatch))
      && 4 * Sum(dispatch.waits) <= 5 * BACKOFF_BASE_MILLIS * (Pow2(MAX_RETRIES) - 1)
  {
    hide InRange, AttemptFits, CallsSpaced, WaitsInRange, Pow2, Sum;
    WaitsAddUp(system.dispatch.waits);
    PowGrows(|system.dispatch.waits|, MAX_RETRIES);
  }

  lemma {:induction false} PowGrows(a: nat, b: nat)
    requires a <= b
    ensures Pow2(a) <= Pow2(b)
    decreases b
  {
    if a < b {
      PowGrows(a, b - 1);
    }
  }

  lemma FinalStaysStep(system: System, event: Event)
    requires Inv(system) && system.dispatch.status != Active
    ensures Step(system, event).dispatch == system.dispatch
  {
    hide RecordFits, InRange, Concluded;
    if event.Proceeds? && event.n < |system.attempts| {
      assert AttemptFits(system, system.attempts[event.n]);
    }
  }

  /** Once final, a dispatch never changes. */
  lemma {:induction false} FinalStays(system: System, events: seq<Event>)
    requires Inv(system) && system.dispatch.status != Active
    ensures After(system, events).dispatch == system.dispatch
    decreases |events|
  {
    hide Inv, Step;
    if events != [] {
      StepKeeps(system, events[0]);
      FinalStaysStep(system, events[0]);
      FinalStays(Step(system, events[0]), events[1..]);
    }
  }

  // ---------- What the deliveries decide ----------

  /**
   What the events tell of the deliveries: when the attempt in flight was started, how its delivery ended and as
   which call, while that is not written yet, and the calls written with how each of them ended.
   */
  datatype Log = Log(started: Option<int>, ended: Option<(Call, Status)>, written: seq<(Call, Status)>)

  const NOTHING := Log(None, None, [])

  /** The webhook was removed, or switched off, which a test does not mind. */
  predicate IsMissing(dispatch: Dispatch, enabled: Option<bool>) {
    enabled.None? || (enabled == Some(false) && !dispatch.isTest)
  }

  function Ended(log: Log, clock: int, outcome: Status): Log {
    if log.started.None? then log else Log(None, Some((Call(log.started.value, clock), outcome)), log.written)
  }

  function Follow(log: Log, system: System, event: Event): Log {
    match event
    case Restarted => log.(started := None, ended := None)
    case Proceeds(n, enabled, outcome, random) =>
      if n >= |system.attempts| || !(0.0 <= random < 1.0) then log
      else (
        match system.attempts[n]
        case Reading => if system.dispatch.status == Active then log.(started := Some(system.clock)) else log
        case LookingUp(_, _) => if IsMissing(system.dispatch, enabled) then Ended(log, system.clock, Failed) else log
        case Delivering(_, _) => Ended(log, system.clock, outcome)
        case Writing(_, _, _) =>
          if log.ended.None? then log else Log(log.started, None, log.written + [log.ended.value])
        case Scheduling(_, _) => log
      )
    case _ => log
  }

  function LogOf(system: System, events: seq<Event>, log: Log): Log
    decreases |events|
  {
    if events == [] then log else LogOf(Step(system, events[0]), events[1..], Follow(log, system, events[0]))
  }

  /** How the last call ended decides; one that did not, active, gives up at the limit. */
  function StatusBy(written: seq<(Call, Status)>, limit: nat): Status {
    if written == [] then Active
    else
      var last := written[|written| - 1].1;
      if last == Active && |written| >= limit then Failed else last
  }

  function CallsOf(written: seq<(Call, Status)>): (calls: seq<Call>)
    ensures |calls| == |written|
  {
    if written == [] then []
    else CallsOf(written[..|written| - 1]) + [written[|written| - 1].0]
  }

  /** The attempt in flight is the one the log tells of. */
  predicate Tells(log: Log, attempts: seq<Attempt>, limit: nat) {
    if attempts == [] then log.started.None? && log.ended.None?
    else
      match attempts[0]
      case Reading | Scheduling(_, _) => log.started.None? && log.ended.None?
      case LookingUp(_, startedAt) => log.started == Some(startedAt) && log.ended.None?
      case Delivering(_, startedAt) => log.started == Some(startedAt) && log.ended.None?
      case Writing(call, status, _) =>
        && log.started.None? && log.ended.Some? && log.ended.value.0 == call
        && StatusBy(log.written + [log.ended.value], limit) == status
  }

  ghost predicate LogFits(log: Log, system: System) {
    var limit := CallLimit(system.dispatch.isTest, system.dispatch.doNotRetry);
    && system.dispatch.calls == CallsOf(log.written)
    && system.dispatch.status == StatusBy(log.written, limit)
    && (forall i :: 0 <= i < |log.written| - 1 ==> log.written[i].1 == Active)
    && Tells(log, system.attempts, limit)
  }

  lemma ConcludingTells(log: Log, system: System, dispatch: Dispatch, startedAt: int, outcome: Status, random: real)
    requires Inv(system) && LogFits(log, system) && system.dispatch == dispatch && dispatch.status == Active
    requires log.started == Some(startedAt) && log.ended.None?
    ensures var attempt := Concluded(dispatch, startedAt, outcome, random, system.clock);
      Tells(Ended(log, system.clock, outcome), [attempt], CallLimit(dispatch.isTest, dispatch.doNotRetry))
  {
    hide RecordFits, AttemptFits, InRange, Backoff;
  }

  lemma WritingTells(log: Log, system: System)
    requires Inv(system) && LogFits(log, system) && system.attempts != [] && system.attempts[0].Writing?
    ensures LogFits(Log(log.started, None, log.written + [log.ended.value]), Proceed(system, 0, None, Failed, 0.0))
  {
    assert AttemptFits(system, system.attempts[0]);
    var written := log.written + [log.ended.value];
    assert written[..|written| - 1] == log.written;
    hide RecordFits, InRange, MayRetry;
  }

  lemma StepTells(log: Log, system: System, event: Event)
    requires Inv(system) && LogFits(log, system)
    ensures LogFits(Follow(log, system, event), Step(system, event))
  {
    hide RecordFits, InRange, Concluded;
    if event.Proceeds? && event.n < |system.attempts| && 0.0 <= event.random < 1.0 {
      assert AttemptFits(system, system.attempts[0]);
      match system.attempts[0]
      case LookingUp(dispatch, startedAt) =>
        ConcludingTells(log, system, dispatch, startedAt, Failed, event.random);
        hide StatusBy;
      case Delivering(dispatch, startedAt) =>
        ConcludingTells(log, system, dispatch, startedAt, event.outcome, event.random);
        hide StatusBy;
      case Writing(_, _, _) =>
        WritingTells(log, system);
        hide StatusBy, LogFits, Written;
      case _ =>
    }
  }

  /**
   After every interleaving, with how each delivery ended taken from the events: the calls written are those whose
   delivery ended, from when they started to when they ended; all but the last ended without a final answer, and
   the dispatch is what the last one says, or failed if that one was the last allowed and had none either.
   */
  lemma {:induction false} OutcomeDecides(isTest: bool, doNotRetry: bool, clock: int, events: seq<Event>)
    ensures var dispatch := After(Insert(isTest, doNotRetry, clock), events).dispatch;
      var written := LogOf(Insert(isTest, doNotRetry, clock), events, NOTHING).written;
      && dispatch.calls == CallsOf(written)
      && (forall i :: 0 <= i < |written| - 1 ==> written[i].1 == Active)
      && dispatch.status == StatusBy(written, CallLimit(isTest, doNotRetry))
  {
    InsertedFits(isTest, doNotRetry, clock);
    FollowingTells(Insert(isTest, doNotRetry, clock), events, NOTHING);
    KindStays(Insert(isTest, doNotRetry, clock), events);
    hide After, LogOf;
  }

  lemma {:induction false} FollowingTells(system: System, events: seq<Event>, log: Log)
    requires Inv(system) && LogFits(log, system)
    ensures LogFits(LogOf(system, events, log), After(system, events))
    decreases |events|
  {
    hide Inv, Step, LogFits, Follow;
    if events != [] {
      StepTells(log, system, events[0]);
      StepKeeps(system, events[0]);
      FollowingTells(Step(system, events[0]), events[1..], Follow(log, system, events[0]));
    }
  }

  /** A scheduled attempt is made: once its timer is due it reads, looks up, delivers and writes its call. */
  lemma DueAttemptIsMade(system: System, outcome: Status, random: real)
    requires Inv(system) && system.timer.Some? && 0.0 <= random < 1.0
    ensures var onward := Proceeds(0, Some(true), outcome, random);
      var due := Step(system, TimePasses(Max(0, system.timer.value - system.clock)));
      var delivering := Step(Step(Step(due, TimerFires), onward), onward);
      var written := Step(Step(delivering, onward), onward).dispatch;
      && written.calls == system.dispatch.calls + [Call(due.clock, due.clock)]
      && (outcome != Active ==> written.status == outcome)
  {
    hide RecordFits, Backoff, MayRetry;
    var onward := Proceeds(0, Some(true), outcome, random);
    var due := Step(system, TimePasses(Max(0, system.timer.value - system.clock)));
    var reading := Step(due, TimerFires);
    assert reading.attempts == [Reading] && reading.dispatch == system.dispatch;
    var lookingUp := Step(reading, onward);
    assert lookingUp.attempts == [LookingUp(system.dispatch, due.clock)];
    var delivering := Step(lookingUp, onward);
    assert delivering.attempts == [Delivering(system.dispatch, due.clock)];
  }

  // ---------- The dispatcher itself ----------

  /** One dispatch's record, timer and attempts in flight, changed in place. */
  class Dispatcher {
    var dispatch: Dispatch
    var timer: Option<int>
    var attempts: seq<Attempt>
    var clock: int

    ghost function Current(): System
      reads this
    {
      System(dispatch, timer, attempts, clock)
    }

    constructor InsertDispatch(isTest: bool, doNotRetry: bool, now: int)
      ensures Current() == Insert(isTest, doNotRetry, now)
    {
      dispatch := Dispatch(isTest, doNotRetry, Active, None, now, [], []);
      clock, attempts := now, [];
      timer := Some(now);
    }

    /** Replaces the timer; one due in the past fires at once. */
    method ScheduleAttempt(at: int)
      modifies `timer
      ensures timer == Some(Max(clock, at))
    {
      var delay := at - clock;
      if delay < 0 {
        delay := 0;
      }
      timer := Some(clock + delay);
    }

    method TimerFired()
      requires timer.Some? && clock >= timer.value
      modifies this
      ensures Current() == Fire(old(Current()))
    {
      timer := None;
      attempts := attempts + [Reading];
    }

    /** Whether another attempt follows, and when; the outcome is written next. */
    method FinishAttempt(n: nat, seen: Dispatch, startedAt: int, outcome: Status, random: real)
      requires n < |attempts|
      modifies `attempts
      ensures attempts == old(attempts)[n := Concluded(seen, startedAt, outcome, random, clock)]
    {
      var status, callAt := outcome, seen.callAt;
      if status == Active {
        var maxRetries := if seen.isTest then MAX_TEST_RETRIES else MAX_RETRIES;
        if !seen.doNotRetry && |seen.calls| < maxRetries {
          callAt := clock + Backoff(|seen.calls|, random);
        } else {
          status := Failed;
        }
      }
      attempts := attempts[n := Writing(Call(startedAt, clock), status, callAt)];
    }

    method WriteOutcome(n: nat)
      requires n < |attempts| && attempts[n].Writing?
      modifies this
      ensures Current() == Proceed(old(Current()), n, None, Failed, 0.0)
    {
      var Writing(call, status, callAt) := attempts[n];
      dispatch := dispatch.(
        status := status, callAt := callAt,
        finishedAt := if status != Active then Some(call.finishedAt) else None,
        calls := dispatch.calls + [call],
        waits := if status == Active then dispatch.waits + [callAt - call.finishedAt] else dispatch.waits);
      attempts := attempts[n := Scheduling(status, callAt)];
    }

    method AttemptEnds(n: nat)
      requires n < |attempts| && attempts[n].Scheduling?
      modifies this
      ensures Current() == Proceed(old(Current()), n, None, Failed, 0.0)
    {
      var Scheduling(status, callAt) := attempts[n];
      attempts := attempts[..n] + attempts[n + 1..];
      if status == Active {
        ScheduleAttempt(callAt);
      }
    }
  }
}
