/**
 One run and everything that writes its record (`src/services/runs.ts`, `src/services/migrations.ts`).

 A run has a background handler, any number of abort calls, at most one open graceful-abort window, and
 migration and reboot requests; they interleave freely between their awaits. One event below is one
 stretch between two awaits: a status write and what its caller does with the answer are one event.
 */
module RunLifecycle {
  import opened JobStatus

  const RESTART_LIMIT := 3
  const RESTART_WINDOW_MILLIS := 60_000

  /** How a container ended, and whether it was a standby run being wound down. */
  datatype Exit = Exit(timedOut: bool, exitCode: int, standbyFinishing: bool)

  /** Where the background handler is. */
  datatype Phase =
    | Launched
    | Preparing
    | FinalizingAbort
    | InContainer
    | CheckingRestart(exit: Exit)
    | Deciding(now: int, exit: Exit)
    | Finishing(status: Status)
    | Cleanup
    | CleanupAbort
    | Ended

  datatype Run = Run(
    status: Status,
    restartOnError: bool,
    restartCount: nat,
    phase: Phase,
    // The graceful-abort window, the calls past its expiry, and the hard aborts past their `ABORTING` write.
    windowArmed: bool,
    expiredWindows: nat,
    hardAborts: nat,
    // Migrations and reboots: a stop timer, the calls on their way to their write, and the mark that makes
    // the next container exit a restart.
    stopTimer: bool,
    restartWrites: nat,
    restartPending: bool,
    // This incarnation: whether it created a container, when it restarted on error, and what came before.
    hadContainer: bool,
    errorRestarts: seq<int>,
    earlierRestarts: nat,
    clock: int)

  function NewRun(restartOnError: bool, clock: int): Run {
    Run(Ready, restartOnError, 0, Launched, false, 0, 0, false, 0, false, false, [], 0, clock)
  }

  // ---------- Abort calls ----------

  /** `abortRun` up to its first wait on the driver. */
  function Abort(run: Run, gracefully: bool): Run {
    var wrote := run.(status := Transition(run.status, Aborting));
    if wrote.status != Aborting then wrote
    else if gracefully && run.status == Aborting then wrote
    else if gracefully && run.status == Running then wrote.(windowArmed := true)
    else wrote.(windowArmed := false, hardAborts := run.hardAborts + 1)
  }

  function HardAbortFinishes(run: Run): Run {
    if run.hardAborts == 0 then run
    else run.(status := Transition(run.status, Aborted), hardAborts := run.hardAborts - 1)
  }

  function WindowExpires(run: Run): Run {
    if !run.windowArmed then run else run.(windowArmed := false, expiredWindows := run.expiredWindows + 1)
  }

  function ExpiredWindowFinishes(run: Run): Run {
    if run.expiredWindows == 0 then run
    else run.(status := Transition(run.status, Aborted), expiredWindows := run.expiredWindows - 1)
  }

  // ---------- Migrations and reboots ----------

  function Migrate(run: Run): Run {
    if run.status == Running then run.(stopTimer := true) else run
  }

  /** The timer only starts the stop; the status is looked at again inside its write. */
  function StopTimerFires(run: Run): Run {
    if !run.stopTimer then run else run.(stopTimer := false, restartWrites := run.restartWrites + 1)
  }

  /** A reboot cancels an open migration stop and goes on to its own write. */
  function Reboot(run: Run): Run {
    run.(stopTimer := false, restartWrites := run.restartWrites + 1)
  }

  /** The write of a migration stop or a reboot: it marks a running run, and that one only. */
  function RestartWriteLands(run: Run): Run {
    if run.restartWrites == 0 then run
    else run.(restartWrites := run.restartWrites - 1, restartPending := run.restartPending || run.status == Running)
  }

  // ---------- The background handler ----------

  /** The start of the handler: an abort during `READY` is finalised without a container. */
  function BeginRunning(run: Run): Run {
    var wrote := run.(status := Transition(run.status, Running));
    if wrote.status == Running then wrote.(phase := Preparing) else GiveUpBeforeContainer(wrote)
  }

  function GiveUpBeforeContainer(run: Run): Run {
    if run.status == Aborting then run.(windowArmed := false, phase := FinalizingAbort) else run.(phase := Ended)
  }

  /** `failBeforeContainer`, or an error nothing else caught: the run fails and the handler is done. */
  function PreparationFails(run: Run): Run {
    run.(status := Transition(run.status, Failed), phase := Ended)
  }

  /** The last look at the record before a container is created. */
  function PreStartCheck(run: Run): Run {
    if run.status == Running then run.(phase := InContainer, hadContainer := true) else GiveUpBeforeContainer(run)
  }

  function FinalStatus(exit: Exit): Status {
    if exit.standbyFinishing then Succeeded
    else if exit.timedOut then TimedOut
    else if exit.exitCode == 0 then Succeeded
    else Failed
  }

  /** The container's exit is to be a final one, unless the run restarts on error. */
  function AfterExit(run: Run, exit: Exit): Run {
    if !exit.standbyFinishing && !exit.timedOut && exit.exitCode != 0 then run.(phase := Deciding(run.clock, exit))
    else run.(phase := Finishing(FinalStatus(exit)))
  }

  /** The container exits; a pending migration or reboot is consumed by this exit. */
  function ContainerExits(run: Run, exit: Exit): Run {
    if run.restartPending then run.(restartPending := false, phase := CheckingRestart(exit))
    else AfterExit(run, exit)
  }

  function RestartCheck(run: Run, exit: Exit): Run {
    if run.status == Running then run.(phase := InContainer) else AfterExit(run, exit)
  }

  /** How many of the restarts are less than the window before `now`. */
  function Recent(times: seq<int>, now: int): (n: nat)
    ensures n <= |times|
  {
    if times == [] then 0
    else Recent(times[..|times| - 1], now) + if now - times[|times| - 1] < RESTART_WINDOW_MILLIS then 1 else 0
  }

  /** `restartAfterError`, decided inside one serialized write. */
  function Decide(run: Run, now: int, exit: Exit): Run {
    if run.status == Running && run.restartOnError && Recent(run.errorRestarts, now) < RESTART_LIMIT then
      run.(restartCount := run.restartCount + 1, errorRestarts := run.errorRestarts + [now], phase := InContainer)
    else run.(phase := Finishing(FinalStatus(exit)))
  }

  function ClearRestartState(run: Run): Run {
    run.(stopTimer := false, restartPending := false)
  }

  /** The `finally` block: an open window ends here, and the handler finalises the run itself. */
  function CleanUp(run: Run): Run {
    if run.windowArmed then run.(windowArmed := false, phase := CleanupAbort)
    else ClearRestartState(run).(phase := Ended)
  }

  /** The handler's next stretch. `exit` says how a container ends, `ok` whether preparation succeeds. */
  function HandlerStep(run: Run, exit: Exit, ok: bool): Run {
    match run.phase
    case Launched => BeginRunning(run)
    case Preparing => if ok then PreStartCheck(run) else PreparationFails(run)
    case FinalizingAbort => run.(status := Transition(run.status, Aborted), phase := Ended)
    case InContainer => if ok then ContainerExits(run, exit) else run.(phase := Finishing(Failed))
    case CheckingRestart(seen) => RestartCheck(run, seen)
    case Deciding(now, seen) => Decide(run, now, seen)
    case Finishing(status) => run.(status := Transition(run.status, status), phase := Cleanup)
    case Cleanup => CleanUp(run)
    case CleanupAbort => ClearRestartState(run).(status := Transition(run.status, Aborted), phase := Ended)
    case Ended => run
  }

  // ---------- Resurrection ----------

  /**
   A resurrection waits for the previous incarnation's handler. Abort calls of that incarnation still waiting
   on the driver are assumed to have returned by then.
   */
  predicate CanResurrect(run: Run) {
    IsTerminal(run.status) && run.phase == Ended && run.hardAborts == 0 && run.expiredWindows == 0
  }

  function Resurrect(run: Run, restartOnError: bool): Run {
    if !CanResurrect(run) then run
    else run.(status := Ready, restartOnError := restartOnError, phase := Launched, hadContainer := false,
              errorRestarts := [], earlierRestarts := run.restartCount)
  }

  datatype Event =
    | AbortCalled(gracefully: bool)
    | HardAbortReturns
    | WindowTimer
    | ExpiredWindowReturns
    | MigrateCalled
    | StopTimer
    | RebootCalled
    | RestartWrite
    | Handler(exit: Exit, ok: bool)
    | Resurrected(restartOnError: bool)
    | TimePasses(millis: nat)

  function Step(run: Run, event: Event): Run {
    match event
    case AbortCalled(gracefully) => Abort(run, gracefully)
    case HardAbortReturns => HardAbortFinishes(run)
    case WindowTimer => WindowExpires(run)
    case ExpiredWindowReturns => ExpiredWindowFinishes(run)
    case MigrateCalled => Migrate(run)
    case StopTimer => StopTimerFires(run)
    case RebootCalled => Reboot(run)
    case RestartWrite => RestartWriteLands(run)
    case Handler(exit, ok) => HandlerStep(run, exit, ok)
    case Resurrected(flag) => Resurrect(run, flag)
    case TimePasses(millis) => run.(clock := run.clock + millis)
  }

  function After(run: Run, events: seq<Event>): Run
    decreases |events|
  {
    if events == [] then run else After(Step(run, events[0]), events[1..])
  }

  // ---------- What every interleaving keeps ----------

  /** The handler is on its way to writing `ABORTED` itself. */
  predicate HandlerFinalizes(run: Run) {
    run.phase == FinalizingAbort || run.phase == CleanupAbort
  }

  predicate HasFinisher(run: Run) {
    run.windowArmed || run.expiredWindows > 0 || run.hardAborts > 0 || HandlerFinalizes(run)
  }

  /** Aborts: the window is open only while nobody else is finishing, and `ABORTING` is never left alone. */
  predicate AbortsConsistent(run: Run) {
    && (run.windowArmed ==>
          run.status == Aborting && run.expiredWindows == 0 && run.hardAborts == 0 && !HandlerFinalizes(run))
    && (run.expiredWindows > 0 || run.hardAborts > 0 || HandlerFinalizes(run) ==> run.status in {Aborting, Aborted})
    && (run.status == Aborting ==> HasFinisher(run))
  }

  /** Which statuses go with which phase: only the handler or an abort ends a run. */
  predicate PhaseConsistent(run: Run) {
    match run.phase
    case Launched => run.status in {Ready, Aborting, Aborted} && !run.hadContainer
    case Preparing => run.status in {Running, Aborting, Aborted} && !run.hadContainer
    case FinalizingAbort => run.status in {Aborting, Aborted} && !run.hadContainer
    case InContainer | CheckingRestart(_) | Deciding(_, _) =>
      run.status in {Running, Aborting, Aborted} && run.hadContainer
    case Finishing(status) =>
      run.status in {Running, Aborting, Aborted} && run.hadContainer && status in {Succeeded, Failed, TimedOut}
    case Cleanup => (IsTerminal(run.status) || run.status == Aborting) && run.hadContainer
    case CleanupAbort => run.status in {Aborting, Aborted} && run.hadContainer
    case Ended => IsTerminal(run.status) || run.status == Aborting
  }

  /** A handler that had a container leaves no stop timer and no restart mark behind. */
  predicate RestartStateCleared(run: Run) {
    run.phase == Ended && run.hadContainer ==> !run.stopTimer && !run.restartPending
  }

  predicate Consistent(run: Run) {
    AbortsConsistent(run) && PhaseConsistent(run) && RestartStateCleared(run)
  }

  /** Restarts happened in order of time; the one three before a restart is a full window older. */
  ghost predicate RestartsSpaced(times: seq<int>, latest: int) {
    && (forall i, j :: 0 <= i <= j < |times| ==> times[i] <= times[j] <= latest)
    && (forall i {:trigger times[i]} :: RESTART_LIMIT <= i < |times| ==>
          times[i] - times[i - RESTART_LIMIT] >= RESTART_WINDOW_MILLIS)
  }

  /** While a decision is pending its time is not before any restart. */
  function LatestDecision(run: Run): int {
    if run.phase.Deciding? then run.phase.now else run.clock
  }

  ghost predicate RestartHistory(run: Run) {
    && LatestDecision(run) <= run.clock
    && RestartsSpaced(run.errorRestarts, LatestDecision(run))
    && run.restartCount == run.earlierRestarts + |run.errorRestarts|
  }

  ghost predicate Inv(run: Run) {
    Consistent(run) && RestartHistory(run)
  }

  lemma {:induction false} RecentCounts(times: seq<int>, now: int, k: nat)
    requires forall i, j :: 0 <= i <= j < |times| ==> times[i] <= times[j]
    requires k < |times| && now - times[k] < RESTART_WINDOW_MILLIS
    ensures Recent(times, now) >= |times| - k
  {
    var n := |times| - 1;
    assert times[k] <= times[n];
    if k < n {
      RecentCounts(times[..n], now, k);
    }
  }

  /** A restart the limit allows keeps the spacing. */
  lemma RestartKeepsSpacing(times: seq<int>, now: int)
    requires RestartsSpaced(times, now) && Recent(times, now) < RESTART_LIMIT
    ensures RestartsSpaced(times + [now], now)
  {
    var n := |times|;
    if n >= RESTART_LIMIT && now - times[n - RESTART_LIMIT] < RESTART_WINDOW_MILLIS {
      RecentCounts(times, now, n - RESTART_LIMIT);
    }
    var more := times + [now];
    forall i {:trigger more[i]} | RESTART_LIMIT <= i < |more|
      ensures more[i] - more[i - RESTART_LIMIT] >= RESTART_WINDOW_MILLIS
    {
      if i < n {
        assert times[i] - times[i - RESTART_LIMIT] >= RESTART_WINDOW_MILLIS;
      }
    }
  }

  lemma SpacingLater(times: seq<int>, earlier: int, later: int)
    requires RestartsSpaced(times, earlier) && earlier <= later
    ensures RestartsSpaced(times, later)
  {
    forall i, j | 0 <= i <= j < |times| ensures times[i] <= times[j] <= later {
      assert times[j] <= earlier;
    }
  }

  // The restart history, stretch by stretch: only a decision adds to it, and only a resurrection clears it.

  lemma DecideKeepsHistory(run: Run, now: int, exit: Exit)
    requires RestartHistory(run) && run.phase == Deciding(now, exit)
    ensures RestartHistory(Decide(run, now, exit))
  {
    hide Recent, RestartsSpaced;
    SpacingLater(run.errorRestarts, now, run.clock);
    if Recent(run.errorRestarts, now) < RESTART_LIMIT {
      RestartKeepsSpacing(run.errorRestarts, now);
      SpacingLater(run.errorRestarts + [now], now, run.clock);
    }
  }

  lemma TimeKeeps(run: Run, millis: nat)
    requires Inv(run)
    ensures Inv(run.(clock := run.clock + millis))
  {
    hide RestartsSpaced;
    if !run.phase.Deciding? {
      SpacingLater(run.errorRestarts, run.clock, run.clock + millis);
    }
  }

  lemma HistoryUntouched(run: Run, next: Run)
    requires RestartHistory(run)
    requires next.errorRestarts == run.errorRestarts && next.clock == run.clock
    requires next.restartCount == run.restartCount && next.earlierRestarts == run.earlierRestarts
    requires LatestDecision(next) == LatestDecision(run)
    ensures RestartHistory(next)
  {
    hide RestartsSpaced;
  }

  // The rest, stretch by stretch.

  lemma BeforeContainerKeeps(run: Run)
    requires Consistent(run)
    ensures run.phase == Launched ==> Consistent(BeginRunning(run))
    ensures run.phase == Preparing ==> Consistent(PreparationFails(run)) && Consistent(PreStartCheck(run))
  {
  }

  lemma ExitKeeps(run: Run, exit: Exit)
    requires Consistent(run)
    ensures run.phase == InContainer ==>
      Consistent(ContainerExits(run, exit)) && Consistent(run.(phase := Finishing(Failed)))
    ensures run.phase == CheckingRestart(exit) ==> Consistent(RestartCheck(run, exit))
  {
  }

  lemma DecideKeeps(run: Run, now: int, exit: Exit)
    requires Consistent(run) && run.phase == Deciding(now, exit)
    ensures Consistent(Decide(run, now, exit))
  {
    hide Recent;
  }

  lemma LastWritesKeep(run: Run)
    requires Consistent(run)
    ensures run.phase.Finishing? ==>
      Consistent(run.(status := Transition(run.status, run.phase.status), phase := Cleanup))
    ensures run.phase == Cleanup ==> Consistent(CleanUp(run))
    ensures run.phase == FinalizingAbort ==>
      Consistent(run.(status := Transition(run.status, Aborted), phase := Ended))
    ensures run.phase == CleanupAbort ==>
      Consistent(ClearRestartState(run).(status := Transition(run.status, Aborted), phase := Ended))
  {
  }

  lemma HandlerKeepsConsistent(run: Run, exit: Exit, ok: bool)
    requires Consistent(run)
    ensures Consistent(HandlerStep(run, exit, ok))
  {
    hide Consistent, Decide, BeginRunning, PreStartCheck, PreparationFails, ContainerExits, RestartCheck, CleanUp;
    match run.phase
    case Launched => BeforeContainerKeeps(run);
    case Preparing => BeforeContainerKeeps(run);
    case InContainer => ExitKeeps(run, exit);
    case CheckingRestart(seen) => ExitKeeps(run, seen);
    case Deciding(now, seen) => DecideKeeps(run, now, seen);
    case Finishing(_) => LastWritesKeep(run);
    case Cleanup => LastWritesKeep(run);
    case FinalizingAbort => LastWritesKeep(run);
    case CleanupAbort => LastWritesKeep(run);
    case Ended =>
  }

  lemma BeginKeepsHistory(run: Run)
    requires RestartHistory(run) && !run.phase.Deciding?
    ensures RestartHistory(BeginRunning(run))
  {
    hide RestartHistory, Transition;
    HistoryUntouched(run, BeginRunning(run));
  }

  lemma PreparingKeepsHistory(run: Run)
    requires RestartHistory(run) && !run.phase.Deciding?
    ensures RestartHistory(PreparationFails(run)) && RestartHistory(PreStartCheck(run))
  {
    hide RestartHistory, Transition;
    HistoryUntouched(run, PreparationFails(run));
    HistoryUntouched(run, PreStartCheck(run));
  }

  lemma ExitKeepsHistory(run: Run, exit: Exit)
    requires RestartHistory(run) && !run.phase.Deciding?
    ensures RestartHistory(RestartCheck(run, exit)) && RestartHistory(ContainerExits(run, exit))
    ensures RestartHistory(run.(phase := Finishing(Failed)))
  {
    hide RestartHistory, FinalStatus;
    HistoryUntouched(run, ContainerExits(run, exit));
    HistoryUntouched(run, run.(phase := Finishing(Failed)));
    HistoryUntouched(run, RestartCheck(run, exit));
  }

  lemma LastStretchesKeepHistory(run: Run, status: Status)
    requires RestartHistory(run) && !run.phase.Deciding?
    ensures RestartHistory(run.(status := Transition(run.status, status), phase := Cleanup))
    ensures RestartHistory(CleanUp(run))
    ensures RestartHistory(run.(status := Transition(run.status, status), phase := Ended))
    ensures RestartHistory(ClearRestartState(run).(status := Transition(run.status, status), phase := Ended))
  {
    hide RestartHistory, Transition;
    HistoryUntouched(run, run.(status := Transition(run.status, status), phase := Cleanup));
    HistoryUntouched(run, CleanUp(run));
    HistoryUntouched(run, run.(status := Transition(run.status, status), phase := Ended));
    HistoryUntouched(run, ClearRestartState(run).(status := Transition(run.status, status), phase := Ended));
  }

  lemma HandlerKeepsHistory(run: Run, exit: Exit, ok: bool)
    requires RestartHistory(run)
    ensures RestartHistory(HandlerStep(run, exit, ok))
  {
    hide RestartHistory, Decide, BeginRunning, PreStartCheck, PreparationFails, ContainerExits, RestartCheck, CleanUp;
    hide ClearRestartState, Transition;
    match run.phase
    case Deciding(now, seen) => DecideKeepsHistory(run, now, seen);
    case InContainer => ExitKeepsHistory(run, exit);
    case CheckingRestart(seen) => ExitKeepsHistory(run, seen);
    case Finishing(status) => LastStretchesKeepHistory(run, status);
    case Cleanup | FinalizingAbort | CleanupAbort => LastStretchesKeepHistory(run, Aborted);
    case Launched => BeginKeepsHistory(run);
    case Preparing => PreparingKeepsHistory(run);
    case Ended =>
  }

  lemma AbortKeeps(run: Run, gracefully: bool)
    requires Consistent(run)
    ensures Consistent(Abort(run, gracefully))
  {
  }

  lemma AbortFinishersKeep(run: Run)
    requires Consistent(run)
    ensures Consistent(HardAbortFinishes(run)) && Consistent(WindowExpires(run))
    ensures Consistent(ExpiredWindowFinishes(run))
  {
  }

  lemma RestartRequestsKeep(run: Run)
    requires Consistent(run)
    ensures Consistent(Migrate(run)) && Consistent(StopTimerFires(run))
    ensures Consistent(Reboot(run)) && Consistent(RestartWriteLands(run))
  {
  }

  lemma AbortKeepsHistory(run: Run, gracefully: bool)
    requires RestartHistory(run)
    ensures RestartHistory(Abort(run, gracefully))
  {
    hide RestartHistory, Transition;
    HistoryUntouched(run, Abort(run, gracefully));
  }

  lemma AbortFinishersKeepHistory(run: Run)
    requires RestartHistory(run)
    ensures RestartHistory(HardAbortFinishes(run))
    ensures RestartHistory(WindowExpires(run)) && RestartHistory(ExpiredWindowFinishes(run))
  {
    hide RestartHistory, Transition;
    HistoryUntouched(run, HardAbortFinishes(run));
    HistoryUntouched(run, WindowExpires(run));
    HistoryUntouched(run, ExpiredWindowFinishes(run));
  }

  lemma RestartRequestsKeepHistory(run: Run)
    requires RestartHistory(run)
    ensures RestartHistory(Migrate(run)) && RestartHistory(StopTimerFires(run))
    ensures RestartHistory(Reboot(run)) && RestartHistory(RestartWriteLands(run))
  {
    hide RestartHistory;
    HistoryUntouched(run, Migrate(run));
    HistoryUntouched(run, StopTimerFires(run));
    HistoryUntouched(run, Reboot(run));
    HistoryUntouched(run, RestartWriteLands(run));
  }

  lemma ResurrectKeeps(run: Run, restartOnError: bool)
    requires Inv(run)
    ensures Inv(Resurrect(run, restartOnError))
  {
  }

  /** Whatever happens next, whoever it is that does it, the invariant holds afterwards. */
  lemma {:induction false} StepKeeps(run: Run, event: Event)
    requires Inv(run)
    ensures Inv(Step(run, event))
  {
    hide Consistent, RestartHistory, HandlerStep, Resurrect, Abort, HardAbortFinishes, WindowExpires;
    hide ExpiredWindowFinishes, Migrate, StopTimerFires, Reboot, RestartWriteLands;
    match event
    case Handler(exit, ok) =>
      HandlerKeepsConsistent(run, exit, ok);
      HandlerKeepsHistory(run, exit, ok);
    case Resurrected(flag) => ResurrectKeeps(run, flag);
    case TimePasses(millis) => TimeKeeps(run, millis);
    case AbortCalled(gracefully) =>
      AbortKeeps(run, gracefully);
      AbortKeepsHistory(run, gracefully);
    case HardAbortReturns | WindowTimer | ExpiredWindowReturns =>
      AbortFinishersKeep(run);
      AbortFinishersKeepHistory(run);
    case _ =>
      RestartRequestsKeep(run);
      RestartRequestsKeepHistory(run);
  }

  /** So it holds after every interleaving of calls, timers, exits and resurrections. */
  lemma {:induction false} EveryInterleaving(run: Run, events: seq<Event>)
    requires Inv(run)
    ensures Inv(After(run, events))
    decreases |events|
  {
    hide Inv, Step;
    if events != [] {
      StepKeeps(run, events[0]);
      EveryInterleaving(Step(run, events[0]), events[1..]);
    }
  }

  lemma ANewRunIsConsistent(restartOnError: bool, clock: int)
    ensures Inv(NewRun(restartOnError, clock))
  {
  }

  // ---------- Consequences over whole runs ----------

  /** No resurrection among the events: they stay within one incarnation. */
  ghost predicate OneIncarnation(events: seq<Event>) {
    forall i :: 0 <= i < |events| ==> !events[i].Resurrected?
  }

  lemma StayingIsForward(status: Status)
    ensures Reachable(status, status)
  {
  }

  lemma HandlerMovesForward(run: Run, exit: Exit, ok: bool)
    ensures Reachable(run.status, HandlerStep(run, exit, ok).status)
  {
    hide Transition, Reachable, Recent;
    var current := run.status;
    StayingIsForward(current);
    match run.phase
    case Launched => TransitionMovesForward(current, current, Running);
    case Preparing => TransitionMovesForward(current, current, Failed);
    case Finishing(status) => TransitionMovesForward(current, current, status);
    case _ => TransitionMovesForward(current, current, Aborted);
  }

  lemma StepMovesForward(run: Run, event: Event)
    requires !event.Resurrected?
    ensures Reachable(run.status, Step(run, event).status)
  {
    hide Transition, Reachable, HandlerStep;
    var current := run.status;
    StayingIsForward(current);
    match event
    case Handler(exit, ok) => HandlerMovesForward(run, exit, ok);
    case AbortCalled(_) => TransitionMovesForward(current, current, Aborting);
    case _ => TransitionMovesForward(current, current, Aborted);
  }

  /** Within an incarnation the status only moves forward; in particular only `ABORTED` follows `ABORTING`. */
  lemma {:induction false} StatusMovesForward(run: Run, events: seq<Event>)
    requires OneIncarnation(events)
    ensures Reachable(run.status, After(run, events).status)
    decreases |events|
  {
    if events != [] {
      hide Step;
      StepMovesForward(run, events[0]);
      StatusMovesForward(Step(run, events[0]), events[1..]);
    }
  }

  /** The events by which the finisher an `ABORTING` record still has brings it to `ABORTED`. */
  function FinisherOf(run: Run): seq<Event> {
    if run.windowArmed then [WindowTimer, ExpiredWindowReturns]
    else if run.expiredWindows > 0 then [ExpiredWindowReturns]
    else if run.hardAborts > 0 then [HardAbortReturns]
    else [Handler(Exit(false, 0, false), true)]
  }

  /** After every history, an `ABORTING` record has a finisher, and that finisher alone makes it `ABORTED`. */
  lemma AbortingAlwaysFinishes(restartOnError: bool, clock: int, events: seq<Event>)
    ensures var run := After(NewRun(restartOnError, clock), events);
      run.status == Aborting ==> HasFinisher(run) && After(run, FinisherOf(run)).status == Aborted
    ensures var run := After(NewRun(restartOnError, clock), events); run.windowArmed ==> run.status == Aborting
  {
    var run := After(NewRun(restartOnError, clock), events);
    assert Inv(run) by {
      ANewRunIsConsistent(restartOnError, clock);
      EveryInterleaving(NewRun(restartOnError, clock), events);
    }
    FinisherFinishes(run);
  }

  lemma FinisherFinishes(run: Run)
    requires Inv(run)
    ensures run.status == Aborting ==> HasFinisher(run) && After(run, FinisherOf(run)).status == Aborted
    ensures run.windowArmed ==> run.status == Aborting
  {
    hide RestartHistory, After;
    if run.status == Aborting {
      if run.windowArmed {
        TwoSteps(run, WindowTimer, ExpiredWindowReturns);
      } else {
        OneStep(run, FinisherOf(run)[0]);
        assert FinisherOf(run) == [FinisherOf(run)[0]];
      }
    }
  }

  lemma OneStep(run: Run, event: Event)
    ensures After(run, [event]) == Step(run, event)
  {
    hide Step;
    assert [event][1..] == [];
  }

  lemma TwoSteps(run: Run, first: Event, second: Event)
    ensures After(run, [first, second]) == Step(Step(run, first), second)
  {
    hide Step;
    assert [first, second][1..] == [second];
    OneStep(Step(run, first), second);
  }

  /** Whether this step hands a container to the driver. */
  predicate StartsContainer(run: Run, event: Event) {
    Step(run, event).phase == InContainer && run.phase != InContainer
  }

  /** Whether this step restarts the run after an error. */
  predicate RestartsOnError(run: Run, event: Event) {
    run.phase.Deciding? && StartsContainer(run, event)
  }

  function ErrorRestarts(run: Run, events: seq<Event>): nat
    decreases |events|
  {
    if events == [] then 0
    else (if RestartsOnError(run, events[0]) then 1 else 0) + ErrorRestarts(Step(run, events[0]), events[1..])
  }

  function ContainersStarted(run: Run, events: seq<Event>): nat
    decreases |events|
  {
    if events == [] then 0
    else (if StartsContainer(run, events[0]) then 1 else 0) + ContainersStarted(Step(run, events[0]), events[1..])
  }

  /** A container is only ever started for a running record; a restart on error also needs the flag still set. */
  lemma {:induction false} StartsNeedARunningRecord(run: Run, event: Event)
    ensures StartsContainer(run, event) ==> run.status == Running
    ensures RestartsOnError(run, event) ==> run.restartOnError
    ensures Step(run, event).restartCount == run.restartCount + if RestartsOnError(run, event) then 1 else 0
  {
    hide HandlerStep, Transition;
    if event.Handler? {
      HandlerStartsNeedARunningRecord(run, event.exit, event.ok);
    }
  }

  lemma HandlerStartsNeedARunningRecord(run: Run, exit: Exit, ok: bool)
    ensures HandlerStep(run, exit, ok).phase == InContainer && run.phase != InContainer ==> run.status == Running
    ensures HandlerStep(run, exit, ok).phase == InContainer && run.phase.Deciding? ==> run.restartOnError
    ensures HandlerStep(run, exit, ok).restartCount
         == run.restartCount + if run.phase.Deciding? && HandlerStep(run, exit, ok).phase == InContainer then 1 else 0
  {
    hide BeginRunning, PreStartCheck, PreparationFails, ContainerExits, RestartCheck, Decide, CleanUp;
    hide Transition;
    match run.phase
    case Launched => BeforeContainerStarts(run);
    case Preparing => BeforeContainerStarts(run);
    case InContainer => BehindContainerStarts(run, 0, exit);
    case CheckingRestart(seen) => BehindContainerStarts(run, 0, seen);
    case Deciding(now, seen) => BehindContainerStarts(run, now, seen);
    case Cleanup => BehindContainerStarts(run, 0, exit);
    case CleanupAbort =>
    case FinalizingAbort =>
    case Finishing(_) =>
    case Ended =>
  }

  lemma BeforeContainerStarts(run: Run)
    ensures BeginRunning(run).phase != InContainer && PreparationFails(run).phase != InContainer
    ensures PreStartCheck(run).phase == InContainer ==> run.status == Running
    ensures BeginRunning(run).restartCount == run.restartCount
    ensures PreparationFails(run).restartCount == PreStartCheck(run).restartCount == run.restartCount
  {
    hide Transition;
  }

  lemma BehindContainerStarts(run: Run, now: int, exit: Exit)
    ensures RestartCheck(run, exit).phase == InContainer ==> run.status == Running
    ensures Decide(run, now, exit).phase == InContainer ==> run.status == Running && run.restartOnError
    ensures Decide(run, now, exit).restartCount
         == run.restartCount + if Decide(run, now, exit).phase == InContainer then 1 else 0
    ensures ContainerExits(run, exit).restartCount == RestartCheck(run, exit).restartCount == run.restartCount
    ensures CleanUp(run).phase != InContainer && CleanUp(run).restartCount == run.restartCount
  {
    hide Recent, FinalStatus;
  }

  /** `restartCount` grows by exactly the restarts taken, over every history. */
  lemma {:induction false} RestartCountIsExact(run: Run, events: seq<Event>)
    ensures After(run, events).restartCount == run.restartCount + ErrorRestarts(run, events)
    decreases |events|
  {
    hide Step, StartsContainer, RestartsOnError;
    if events != [] {
      StartsNeedARunningRecord(run, events[0]);
      RestartCountIsExact(Step(run, events[0]), events[1..]);
    }
  }

  /** Once a record has left `READY` and `RUNNING`, its incarnation starts no further container. */
  lemma {:induction false} NoContainerAfterAbort(run: Run, events: seq<Event>)
    requires OneIncarnation(events) && run.status !in {Ready, Running}
    ensures ContainersStarted(run, events) == 0 && ErrorRestarts(run, events) == 0
    decreases |events|
  {
    hide Step, StartsContainer, RestartsOnError;
    if events != [] {
      StartsNeedARunningRecord(run, events[0]);
      StepMovesForward(run, events[0]);
      RestartsAreStarts(run, events[0]);
      NoContainerAfterAbort(Step(run, events[0]), events[1..]);
    }
  }

  lemma RestartsAreStarts(run: Run, event: Event)
    ensures RestartsOnError(run, event) ==> StartsContainer(run, event)
  {
    hide Step;
  }

  /** How many of the restarts fall into the window of 60 seconds that opens at `from`. */
  function InWindow(times: seq<int>, from: int): (n: nat)
    ensures n <= |times|
  {
    if times == [] then 0
    else
      var last := times[|times| - 1];
      InWindow(times[..|times| - 1], from) + if from <= last < from + 60_000 then 1 else 0
  }

  lemma {:induction false} NoneInWindow(times: seq<int>, from: int)
    requires forall i :: 0 <= i < |times| ==> times[i] < from
    ensures InWindow(times, from) == 0
  {
    if times != [] {
      NoneInWindow(times[..|times| - 1], from);
    }
  }

  /** Dropping the last few entries loses at most that many of them. */
  lemma {:induction false} LastFewInWindow(times: seq<int>, from: int, k: nat)
    requires k <= |times|
    ensures InWindow(times, from) <= InWindow(times[..|times| - k], from) + k
  {
    if k > 0 {
      var front := times[..|times| - 1];
      LastFewInWindow(front, from, k - 1);
      assert front[..|front| - (k - 1)] == times[..|times| - k];
    } else {
      assert times[..|times|] == times;
    }
  }

  lemma {:induction false} SpacedTimesFillNoWindow(times: seq<int>, latest: int, from: int)
    requires RestartsSpaced(times, latest)
    ensures InWindow(times, from) <= RESTART_LIMIT
  {
    var n := |times|;
    if n > RESTART_LIMIT {
      var last := times[n - 1];
      if last < from + RESTART_WINDOW_MILLIS {
        var early := times[..n - RESTART_LIMIT];
        assert times[n - 1] - times[n - 1 - RESTART_LIMIT] >= RESTART_WINDOW_MILLIS;
        NoneInWindow(early, from);
        LastFewInWindow(times, from, RESTART_LIMIT);
      } else {
        assert RestartsSpaced(times[..n - 1], latest) by { SpacedPrefix(times, latest); }
        SpacedTimesFillNoWindow(times[..n - 1], latest, from);
      }
    }
  }

  lemma SpacedPrefix(times: seq<int>, latest: int)
    requires RestartsSpaced(times, latest) && times != []
    ensures RestartsSpaced(times[..|times| - 1], latest)
  {
    var front := times[..|times| - 1];
    forall i {:trigger front[i]} | RESTART_LIMIT <= i < |front|
      ensures front[i] - front[i - RESTART_LIMIT] >= RESTART_WINDOW_MILLIS
    {
      assert times[i] - times[i - RESTART_LIMIT] >= RESTART_WINDOW_MILLIS;
    }
  }

  /** After every history, every window of 60 seconds holds at most three error restarts of the incarnation. */
  lemma AtMostThreeRestartsAWindow(restartOnError: bool, clock: int, events: seq<Event>, from: int)
    ensures InWindow(After(NewRun(restartOnError, clock), events).errorRestarts, from) <= 3
  {
    var run := After(NewRun(restartOnError, clock), events);
    assert Inv(run) by {
      ANewRunIsConsistent(restartOnError, clock);
      EveryInterleaving(NewRun(restartOnError, clock), events);
    }
    SpacedTimesFillNoWindow(run.errorRestarts, LatestDecision(run), from);
  }

  /**
   What an abort call does after every history: a new or hard one goes to the driver, a graceful one of a running
   record opens the window instead, a graceful one of an aborting record leaves everything as it is.
   */
  lemma AbortCallsExactly(restartOnError: bool, clock: int, events: seq<Event>, gracefully: bool)
    ensures var run := After(NewRun(restartOnError, clock), events); var next := Step(run, AbortCalled(gracefully));
      && next.status == (if IsTerminal(run.status) then run.status else Aborting)
      && next.hardAborts == run.hardAborts
         + (if run.status == Ready || (run.status in {Running, Aborting} && !gracefully) then 1 else 0)
      && (next.windowArmed <==> gracefully && (run.status == Running || run.windowArmed))
      && next == run.(status := next.status, hardAborts := next.hardAborts, windowArmed := next.windowArmed)
  {
    ReachedIsConsistent(restartOnError, clock, events);
    AbortCallOf(After(NewRun(restartOnError, clock), events), gracefully);
  }

  lemma AbortCallOf(run: Run, gracefully: bool)
    requires AbortsConsistent(run)
    ensures var next := Step(run, AbortCalled(gracefully));
      && next.status == (if IsTerminal(run.status) then run.status else Aborting)
      && next.hardAborts == run.hardAborts
         + (if run.status == Ready || (run.status in {Running, Aborting} && !gracefully) then 1 else 0)
      && (next.windowArmed <==> gracefully && (run.status == Running || run.windowArmed))
      && next == run.(status := next.status, hardAborts := next.hardAborts, windowArmed := next.windowArmed)
  {
  }

  lemma ReachedIsConsistent(restartOnError: bool, clock: int, events: seq<Event>)
    ensures Inv(After(NewRun(restartOnError, clock), events))
    ensures Consistent(After(NewRun(restartOnError, clock), events))
    ensures AbortsConsistent(After(NewRun(restartOnError, clock), events))
  {
    ANewRunIsConsistent(restartOnError, clock);
    EveryInterleaving(NewRun(restartOnError, clock), events);
    hide After, AbortsConsistent, PhaseConsistent, RestartStateCleared, RestartHistory;
  }

  /**
   A graceful abort of a running run leaves its container alone, and further graceful aborts join it: until the
   window expires, a hard abort comes or the handler moves, nobody goes to the driver.
   */
  lemma GracefulAbortWaits(restartOnError: bool, clock: int, before: seq<Event>, events: seq<Event>)
    requires After(NewRun(restartOnError, clock), before).status == Running
    requires forall i :: 0 <= i < |events| ==>
      events[i] != WindowTimer && events[i] != AbortCalled(false) && !events[i].Handler?
    ensures var run := After(NewRun(restartOnError, clock), before);
      var later := After(Step(run, AbortCalled(true)), events);
      && later.windowArmed && later.status == Aborting && later.phase == run.phase
      && later.hardAborts == run.hardAborts && later.expiredWindows == run.expiredWindows
  {
    ReachedIsConsistent(restartOnError, clock, before);
    var run := After(NewRun(restartOnError, clock), before);
    AbortCallOf(run, true);
    GracefulAbortsJoin(Step(run, AbortCalled(true)), events);
  }

  /** Nothing but its expiry, a hard abort or the handler ends an open window: further graceful aborts join it. */
  lemma {:induction false} GracefulAbortsJoin(run: Run, events: seq<Event>)
    requires run.windowArmed && run.status == Aborting
    requires forall i :: 0 <= i < |events| ==>
      events[i] != WindowTimer && events[i] != AbortCalled(false) && !events[i].Handler?
    requires run.hardAborts == 0 && run.expiredWindows == 0
    ensures var later := After(run, events);
      && later.windowArmed && later.status == Aborting && later.phase == run.phase
      && later.hardAborts == 0 && later.expiredWindows == 0
    decreases |events|
  {
    if events != [] {
      hide Step;
      WindowSurvives(run, events[0]);
      GracefulAbortsJoin(Step(run, events[0]), events[1..]);
    }
  }

  lemma WindowSurvives(run: Run, event: Event)
    requires run.windowArmed && run.status == Aborting && run.hardAborts == 0 && run.expiredWindows == 0
    requires event != WindowTimer && event != AbortCalled(false) && !event.Handler?
    ensures var next := Step(run, event);
      && next.windowArmed && next.status == Aborting && next.phase == run.phase
      && next.hardAborts == 0 && next.expiredWindows == 0
  {
    hide HandlerStep;
  }

  /** The handler's next stretches when nothing else happens, all seeing the same exit. */
  function Undisturbed(run: Run, exit: Exit, stretches: nat): Run
    decreases stretches
  {
    if stretches == 0 then run else Undisturbed(HandlerStep(run, exit, true), exit, stretches - 1)
  }

  predicate IsError(exit: Exit) {
    !exit.standbyFinishing && !exit.timedOut && exit.exitCode != 0
  }

  /** The flag is set, and fewer than three restarts fall into the 60 seconds that end now. */
  predicate MayRestart(run: Run) {
    run.restartOnError && InWindow(run.errorRestarts, run.clock - 60_000 + 1) < 3
  }

  lemma {:induction false} RecentIsInWindow(times: seq<int>, now: int)
    requires forall i :: 0 <= i < |times| ==> times[i] <= now
    ensures Recent(times, now) == InWindow(times, now - RESTART_WINDOW_MILLIS + 1)
  {
    if times != [] {
      RecentIsInWindow(times[..|times| - 1], now);
    }
  }

  /** Left alone, the exit of a running run's container alone decides how the run goes on or ends. */
  lemma ExitDecidesTheEnd(run: Run, exit: Exit)
    requires Inv(run) && run.phase == InContainer && run.status == Running
    ensures run.restartPending ==> Undisturbed(run, exit, 2) == run.(restartPending := false)
    ensures !run.restartPending && IsError(exit) && MayRestart(run) ==>
      && Undisturbed(run, exit, 2).phase == InContainer && Undisturbed(run, exit, 2).status == Running
      && Undisturbed(run, exit, 2).restartCount == run.restartCount + 1
    ensures !run.restartPending && IsError(exit) && !MayRestart(run) ==>
      Undisturbed(run, exit, 4).phase == Ended && Undisturbed(run, exit, 4).status == Failed
    ensures !run.restartPending && !IsError(exit) ==>
      && Undisturbed(run, exit, 3).phase == Ended
      && Undisturbed(run, exit, 3).status
         == if exit.standbyFinishing || (!exit.timedOut && exit.exitCode == 0) then Succeeded else TimedOut
  {
    assert forall i :: 0 <= i < |run.errorRestarts| ==> run.errorRestarts[i] <= run.clock;
    RecentIsInWindow(run.errorRestarts, run.clock);
    assert MayRestart(run) <==> run.restartOnError && Recent(run.errorRestarts, run.clock) < RESTART_LIMIT;
    hide *;
    assert Consistent(run) by { InvIsConsistent(run); }
    if run.restartPending || !IsError(exit) {
      FirstStretches(run, exit);
    } else {
      ErrorStretches(run, exit);
    }
  }

  lemma NoRestartAhead(run: Run)
    requires Inv(run) && run.phase == InContainer
    ensures forall i :: 0 <= i < |run.errorRestarts| ==> run.errorRestarts[i] <= run.clock
  {
  }

  lemma WaitingOpensTheLimit(run: Run)
    requires Inv(run) && run.phase == InContainer && run.restartOnError
    ensures var waited := Step(run, TimePasses(60_000));
      && Inv(waited) && MayRestart(waited) && waited == run.(clock := run.clock + 60_000)
  {
    hide Inv, InWindow;
    var waited := Step(run, TimePasses(60_000));
    StepKeeps(run, TimePasses(60_000));
    NoRestartAhead(run);
    NoneInWindow(waited.errorRestarts, waited.clock - 60_000 + 1);
  }

  /** A minute after its last restart a run that restarts on error does so again, however often it has. */
  lemma AMinuteLaterItRestartsAgain(run: Run, exit: Exit)
    requires Inv(run) && run.phase == InContainer && run.status == Running
    requires run.restartOnError && !run.restartPending && IsError(exit)
    ensures var later := Undisturbed(Step(run, TimePasses(60_000)), exit, 2);
      later.phase == InContainer && later.status == Running && later.restartCount == run.restartCount + 1
  {
    hide *;
    WaitingOpensTheLimit(run);
    ExitDecidesTheEnd(Step(run, TimePasses(60_000)), exit);
  }

  lemma InvIsConsistent(run: Run)
    requires Inv(run)
    ensures Consistent(run)
  {
  }

  lemma FirstStretches(run: Run, exit: Exit)
    requires Consistent(run) && run.phase == InContainer && run.status == Running
    ensures run.restartPending ==> Undisturbed(run, exit, 2) == run.(restartPending := false)
    ensures !run.restartPending && !IsError(exit) ==>
      && Undisturbed(run, exit, 3).phase == Ended
      && Undisturbed(run, exit, 3).status
         == if exit.standbyFinishing || (!exit.timedOut && exit.exitCode == 0) then Succeeded else TimedOut
  {
    FourStretches(run, exit);
    hide Undisturbed, Recent;
  }

  lemma ErrorStretches(run: Run, exit: Exit)
    requires Consistent(run) && run.phase == InContainer && run.status == Running
    requires !run.restartPending && IsError(exit)
    requires MayRestart(run) <==> run.restartOnError && Recent(run.errorRestarts, run.clock) < RESTART_LIMIT
    ensures MayRestart(run) ==>
      && Undisturbed(run, exit, 2).phase == InContainer && Undisturbed(run, exit, 2).status == Running
      && Undisturbed(run, exit, 2).restartCount == run.restartCount + 1
    ensures !MayRestart(run) ==>
      Undisturbed(run, exit, 4).phase == Ended && Undisturbed(run, exit, 4).status == Failed
  {
    FourStretches(run, exit);
    hide Undisturbed, Recent, MayRestart, PhaseConsistent, RestartStateCleared;
    var deciding := HandlerStep(run, exit, true);
    assert deciding == run.(phase := Deciding(run.clock, exit));
    if !MayRestart(run) {
      var finishing := HandlerStep(deciding, exit, true);
      assert finishing == run.(phase := Finishing(Failed));
    }
  }

  lemma FourStretches(run: Run, exit: Exit)
    ensures var second := HandlerStep(HandlerStep(run, exit, true), exit, true);
      var third := HandlerStep(second, exit, true);
      && Undisturbed(run, exit, 2) == second && Undisturbed(run, exit, 3) == third
      && Undisturbed(run, exit, 4) == HandlerStep(third, exit, true)
  {
    hide HandlerStep;
    var first := HandlerStep(run, exit, true);
    var second := HandlerStep(first, exit, true);
    assert forall n: nat :: Undisturbed(run, exit, n + 1) == Undisturbed(first, exit, n);
    assert forall n: nat :: Undisturbed(first, exit, n + 1) == Undisturbed(second, exit, n);
    assert Undisturbed(second, exit, 1) == HandlerStep(second, exit, true);
    assert Undisturbed(run, exit, 1 + 1) == second;
    assert Undisturbed(run, exit, 2 + 1) == Undisturbed(first, exit, 1 + 1) == Undisturbed(second, exit, 1);
    assert Undisturbed(run, exit, 3 + 1) == Undisturbed(first, exit, 2 + 1) == Undisturbed(second, exit, 1 + 1);
  }

  /** How many stretches the handler has left when the run is being aborted. */
  function StretchesLeft(phase: Phase): nat {
    match phase
    case InContainer => 6
    case CheckingRestart(_) => 5
    case Deciding(_, _) => 4
    case Finishing(_) => 3
    case Cleanup | Launched | Preparing => 2
    case FinalizingAbort | CleanupAbort => 1
    case Ended => 0
  }

  /** The handler will finish the abort: before its container, with an open window around it, or already. */
  predicate IsEnding(run: Run) {
    match run.phase
    case Launched | Preparing => run.status == Aborting
    case FinalizingAbort | CleanupAbort => run.status == Aborting && !run.windowArmed
    case Ended => run.status == Aborted && !run.windowArmed
    case Finishing(status) => run.status == Aborting && run.windowArmed && status != Aborted
    case _ => run.status == Aborting && run.windowArmed
  }

  /** What the exit of an aborting run's container leads to: never another container. */
  lemma ExitGoesOn(run: Run, now: int, exit: Exit)
    requires run.status == Aborting
    ensures var next := ContainerExits(run, exit);
      next.phase in {CheckingRestart(exit), Deciding(run.clock, exit), Finishing(FinalStatus(exit))}
      && next == run.(phase := next.phase, restartPending := next.restartPending)
    ensures var next := RestartCheck(run, exit);
      next.phase in {Deciding(run.clock, exit), Finishing(FinalStatus(exit))} && next == run.(phase := next.phase)
    ensures Decide(run, now, exit) == run.(phase := Finishing(FinalStatus(exit)))
    ensures FinalStatus(exit) != Aborted
  {
    hide Recent;
  }

  lemma EndingGoesOn(run: Run, exit: Exit)
    requires IsEnding(run)
    ensures var next := HandlerStep(run, exit, true);
      && IsEnding(next) && (run.phase == next.phase == Ended || StretchesLeft(next.phase) < StretchesLeft(run.phase))
      && next.hadContainer == run.hadContainer && next.restartCount == run.restartCount
  {
    hide ContainerExits, RestartCheck, Decide, AfterExit, FinalStatus;
    match run.phase
    case InContainer => ExitGoesOn(run, 0, exit);
    case CheckingRestart(seen) => ExitGoesOn(run, 0, seen);
    case Deciding(now, seen) => ExitGoesOn(run, now, seen);
    case _ =>
  }

  /**
   Left alone, the handler finishes an abort that came before its container without starting one, and an open
   window as soon as the container exits, without waiting for it to expire or restarting.
   */
  lemma {:induction false} HandlerFinishesTheAbort(run: Run, exit: Exit, stretches: nat)
    requires IsEnding(run) && stretches >= StretchesLeft(run.phase)
    ensures var done := Undisturbed(run, exit, stretches);
      && done.phase == Ended && done.status == Aborted && !done.windowArmed
      && done.hadContainer == run.hadContainer && done.restartCount == run.restartCount
    decreases stretches
  {
    if stretches > 0 {
      hide HandlerStep;
      EndingGoesOn(run, exit);
      HandlerFinishesTheAbort(HandlerStep(run, exit, true), exit, stretches - 1);
    }
  }

  /** A container the driver loses fails the run, unless an abort came first. */
  lemma LostContainerFails(run: Run, exit: Exit)
    requires Inv(run) && run.phase == InContainer && run.status == Running
    ensures After(run, [Handler(exit, false), Handler(exit, true), Handler(exit, true)]).status == Failed
    ensures After(run, [Handler(exit, false), Handler(exit, true), Handler(exit, true)]).phase == Ended
  {
    var lost, onward := Handler(exit, false), Handler(exit, true);
    InvIsConsistent(run);
    var first := Step(run, lost);
    assert first == run.(phase := Finishing(Failed));
    assert Step(Step(first, onward), onward).status == Failed && Step(Step(first, onward), onward).phase == Ended;
    assert [lost, onward, onward][1..] == [onward, onward];
    TwoSteps(first, onward, onward);
    hide Step;
    assert After(run, [lost, onward, onward]) == After(first, [onward, onward]);
  }

  /** A resurrected run is a new one but for its count of restarts and what it was handed on. */
  lemma ResurrectedIsNew(run: Run, restartOnError: bool)
    requires Inv(run) && CanResurrect(run)
    ensures Step(run, Resurrected(restartOnError))
      == NewRun(restartOnError, run.clock).(restartCount := run.restartCount, earlierRestarts := run.restartCount,
           stopTimer := run.stopTimer, restartWrites := run.restartWrites, restartPending := run.restartPending)
  {
  }

  // ---------- Exactly what an incarnation hands on to the next ----------

  /** The write of a reboot or of a migration stop finds the run running and marks it. */
  predicate LandsMark(run: Run, event: Event) {
    event == RestartWrite && run.restartWrites > 0 && run.status == Running
  }

  predicate MarkLanded(run: Run, events: seq<Event>)
    decreases |events|
  {
    events != [] && (LandsMark(run, events[0]) || MarkLanded(Step(run, events[0]), events[1..]))
  }

  /** Nothing among the events stops an armed stop timer: it does not fire, and no reboot cancels it. */
  predicate NothingStops(events: seq<Event>) {
    forall i :: 0 <= i < |events| ==> events[i] != StopTimer && events[i] != RebootCalled
  }

  /** A migration of the running run whose stop timer nothing stops afterwards. */
  predicate MigratedUnstopped(run: Run, events: seq<Event>)
    decreases |events|
  {
    && events != []
    && (|| (events[0] == MigrateCalled && run.status == Running && NothingStops(events[1..]))
        || MigratedUnstopped(Step(run, events[0]), events[1..]))
  }

  /** The handler's last stretch of an incarnation that had a container. */
  predicate Wraps(run: Run, event: Event) {
    event.Handler? && (run.phase == CleanupAbort || (run.phase == Cleanup && !run.windowArmed))
  }

  /** The mark, the timer and the writes on their way. */
  function Requests(run: Run): (bool, bool, nat) {
    (run.restartPending, run.stopTimer, run.restartWrites)
  }

  lemma BeforeContainerKeepsRequests(run: Run)
    ensures Requests(BeginRunning(run)) == Requests(PreStartCheck(run)) == Requests(PreparationFails(run))
         == Requests(run)
  {
    hide Transition;
  }

  lemma BehindContainerOnRequests(run: Run, now: int, exit: Exit)
    ensures Requests(RestartCheck(run, exit)) == Requests(Decide(run, now, exit)) == Requests(run)
    ensures Requests(ContainerExits(run, exit)) == (false, run.stopTimer, run.restartWrites)
  {
    hide Recent, FinalStatus;
  }

  lemma HandlerKeepsRequests(run: Run, exit: Exit, ok: bool)
    requires !(run.phase == InContainer && ok) && !Wraps(run, Handler(exit, ok))
    ensures Requests(HandlerStep(run, exit, ok)) == Requests(run)
  {
    hide Transition, BeginRunning, PreStartCheck, PreparationFails, ContainerExits, RestartCheck, Decide;
    match run.phase
    case CheckingRestart(seen) => BehindContainerOnRequests(run, 0, seen);
    case Deciding(now, seen) => BehindContainerOnRequests(run, now, seen);
    case _ => BeforeContainerKeepsRequests(run);
  }

  lemma HandlerOnRequests(run: Run, exit: Exit, ok: bool)
    ensures Requests(HandlerStep(run, exit, ok))
         == if Wraps(run, Handler(exit, ok)) then (false, false, run.restartWrites)
            else (run.restartPending && !(run.phase == InContainer && ok), run.stopTimer, run.restartWrites)
  {
    if run.phase == InContainer && ok {
      BehindContainerOnRequests(run, 0, exit);
      hide ContainerExits;
    } else if !Wraps(run, Handler(exit, ok)) {
      hide *;
      HandlerKeepsRequests(run, exit, ok);
    } else {
      hide Transition;
    }
  }

  /**
   What every event does to migrations and reboots: a mark is set by a write that finds the run running and taken
   by the container's next exit, a migration arms the stop timer of a running run, the timer's expiry and a reboot
   disarm it and go on to a write, and the end of an incarnation that had a container clears both.
   */
  lemma RestartRequestsExactly(run: Run, event: Event)
    ensures var next := Step(run, event);
      && (next.restartPending <==>
            && (run.restartPending || LandsMark(run, event))
            && !(event.Handler? && run.phase == InContainer && event.ok) && !Wraps(run, event))
      && (next.stopTimer <==>
            || (event == MigrateCalled && run.status == Running)
            || (run.stopTimer && event != StopTimer && event != RebootCalled && !Wraps(run, event)))
      && next.restartWrites == run.restartWrites
         + (if event == RebootCalled || (event == StopTimer && run.stopTimer) then 1 else 0)
         - (if event == RestartWrite && run.restartWrites > 0 then 1 else 0)
  {
    hide HandlerStep, Transition;
    if event.Handler? {
      HandlerOnRequests(run, event.exit, event.ok);
    }
  }

  lemma StepWithoutContainer(run: Run, event: Event)
    requires Consistent(run) && !event.Resurrected? && !Step(run, event).hadContainer
    ensures !run.hadContainer
    ensures Step(run, event).restartPending <==> run.restartPending || LandsMark(run, event)
    ensures Step(run, event).stopTimer <==>
      || (event == MigrateCalled && run.status == Running)
      || (run.stopTimer && event != StopTimer && event != RebootCalled)
  {
    RestartRequestsExactly(run, event);
    hide AbortsConsistent, RestartStateCleared, Transition, Recent, FinalStatus, LandsMark;
  }

  lemma {:induction false} MarksWithoutContainer(run: Run, events: seq<Event>)
    requires Inv(run) && OneIncarnation(events) && !After(run, events).hadContainer
    ensures !run.hadContainer
    ensures After(run, events).restartPending <==> run.restartPending || MarkLanded(run, events)
    decreases |events|
  {
    if events != [] {
      var event, rest := events[0], events[1..];
      OneStepOfMarks(run, event, rest, events);
      hide *;
      StepKeeps(run, event);
      MarksWithoutContainer(Step(run, event), rest);
      InvIsConsistent(run);
      StepWithoutContainer(run, event);
    }
  }

  lemma OneStepOfMarks(run: Run, event: Event, rest: seq<Event>, events: seq<Event>)
    requires events != [] && event == events[0] && rest == events[1..] && OneIncarnation(events)
    ensures !event.Resurrected? && OneIncarnation(rest) && After(run, events) == After(Step(run, event), rest)
    ensures MarkLanded(run, events) <==> LandsMark(run, event) || MarkLanded(Step(run, event), rest)
  {
    hide Step, LandsMark;
  }

  lemma {:induction false} TimerWithoutContainer(run: Run, events: seq<Event>)
    requires Inv(run) && OneIncarnation(events) && !After(run, events).hadContainer
    ensures After(run, events).stopTimer <==>
      MigratedUnstopped(run, events) || (run.stopTimer && NothingStops(events))
    decreases |events|
  {
    if events != [] {
      hide Step, Inv, LandsMark, NothingStops;
      StepKeeps(run, events[0]);
      MarksWithoutContainer(Step(run, events[0]), events[1..]);
      TimerWithoutContainer(Step(run, events[0]), events[1..]);
      InvIsConsistent(run);
      StepWithoutContainer(run, events[0]);
      NothingStopsFirst(events);
    }
  }

  lemma NothingStopsFirst(events: seq<Event>)
    requires events != []
    ensures NothingStops(events) <==> events[0] != StopTimer && events[0] != RebootCalled && NothingStops(events[1..])
  {
    assert events == [events[0]] + events[1..];
  }

  /**
   For every history of one incarnation, up to where it can be resurrected: it hands a restart mark on if and only
   if it had no container and came with a mark or had one land; and an armed stop timer if and only if it
   had no container and a migration, its own or an earlier one's, was never stopped.
   */
  lemma HandsOnExactly(run: Run, events: seq<Event>)
    requires Inv(run) && run.phase == Launched && OneIncarnation(events) && CanResurrect(After(run, events))
    ensures After(run, events).restartPending <==>
      !After(run, events).hadContainer && (run.restartPending || MarkLanded(run, events))
    ensures After(run, events).stopTimer <==>
      && !After(run, events).hadContainer
      && (MigratedUnstopped(run, events) || (run.stopTimer && NothingStops(events)))
  {
    EveryInterleaving(run, events);
    if After(run, events).hadContainer {
      ContainerClearsRestartState(After(run, events), false);
    } else {
      MarksWithoutContainer(run, events);
      TimerWithoutContainer(run, events);
    }
  }

  /** A run's first incarnation comes with nothing: what it hands on is its own. */
  lemma FirstIncarnationHandsOnExactly(restartOnError: bool, clock: int, events: seq<Event>)
    requires OneIncarnation(events) && CanResurrect(After(NewRun(restartOnError, clock), events))
    ensures var start := NewRun(restartOnError, clock); var run := After(start, events);
      && (run.restartPending <==> !run.hadContainer && MarkLanded(start, events))
      && (run.stopTimer <==> !run.hadContainer && MigratedUnstopped(start, events))
  {
    ANewRunIsConsistent(restartOnError, clock);
    HandsOnExactly(NewRun(restartOnError, clock), events);
  }

  /** An incarnation that had a container hands no restart request on to the next. */
  lemma ContainerClearsRestartState(run: Run, restartOnError: bool)
    requires Inv(run) && CanResurrect(run) && run.hadContainer
    ensures !Resurrect(run, restartOnError).restartPending && !Resurrect(run, restartOnError).stopTimer
    ensures !run.restartPending && !run.stopTimer
  {
    hide RestartHistory;
  }

  /**
   A mark handed on: rebooted while preparing, failed before its container, resurrected. The next incarnation's
   first exit, with code 0, then starts the container again instead of ending the run.
   */
  lemma LeftoverRestartRunsAgain(clock: int)
    ensures var fine := Exit(false, 0, false);
      var preparing := Step(NewRun(false, clock), Handler(fine, true));
      var marked := Step(Step(preparing, RebootCalled), RestartWrite);
      var failed := Step(marked, Handler(fine, false));
      var second := Step(Step(Step(failed, Resurrected(false)), Handler(fine, true)), Handler(fine, true));
      && failed.status == Failed && second.phase == InContainer && second.status == Running
      && StartsContainer(Step(second, Handler(fine, true)), Handler(fine, true))
  {
  }

  /** A stop timer handed on: migrated while preparing. It marks the next incarnation, which nobody migrated. */
  lemma LeftoverTimerMarksTheNext(clock: int)
    ensures var fine := Exit(false, 0, false);
      var preparing := Step(NewRun(false, clock), Handler(fine, true));
      var failed := Step(Step(preparing, MigrateCalled), Handler(fine, false));
      var second := Step(Step(Step(failed, Resurrected(false)), Handler(fine, true)), Handler(fine, true));
      && failed.status == Failed && second.phase == InContainer && !second.restartPending
      && Step(Step(second, StopTimer), RestartWrite).restartPending
  {
  }

  // ---------- The service itself ----------

  /** The record, the timers and the calls in flight of one run, changed in place by each stretch. */
  class RunService {
    var status: Status
    var restartOnError: bool
    var restartCount: nat
    var phase: Phase
    var windowArmed: bool
    var expiredWindows: nat
    var hardAborts: nat
    var stopTimer: bool
    var restartWrites: nat
    var restartPending: bool
    var hadContainer: bool
    var errorRestarts: seq<int>
    var earlierRestarts: nat
    var clock: int

    ghost function Current(): Run
      reads this
    {
      Run(status, restartOnError, restartCount, phase, windowArmed, expiredWindows, hardAborts, stopTimer,
          restartWrites, restartPending, hadContainer, errorRestarts, earlierRestarts, clock)
    }

    constructor (flag: bool, now: int)
      ensures Current() == NewRun(flag, now)
    {
      status, restartOnError, restartCount, phase := Ready, flag, 0, Launched;
      windowArmed, expiredWindows, hardAborts := false, 0, 0;
      stopTimer, restartWrites, restartPending := false, 0, false;
      hadContainer, errorRestarts, earlierRestarts, clock := false, [], 0, now;
    }

    /** The guarded write; the answer is the status the record ended up with. */
    method TransitionTo(next: Status) returns (result: Status)
      modifies `status
      ensures status == result == Transition(old(status), next)
    {
      if !IsTerminal(status) && next in AllowedNext(status) {
        status := next;
      }
      result := status;
    }

    /** Ends an open window early, reporting whether there was one. */
    method CancelGracefulAbort() returns (open: bool)
      modifies `windowArmed
      ensures open == old(windowArmed) && !windowArmed
    {
      open := windowArmed;
      windowArmed := false;
    }

    method AbortRun(gracefully: bool)
      modifies this
      ensures Current() == Abort(old(Current()), gracefully)
    {
      var wasRunning, alreadyAborting := status == Running, status == Aborting;
      var aborting := TransitionTo(Aborting);
      if aborting != Aborting {
        return;
      }
      if alreadyAborting && gracefully {
        return;
      }
      if !alreadyAborting && gracefully && wasRunning {
        windowArmed := true;
        return;
      }
      var _ := CancelGracefulAbort();
      hardAborts := hardAborts + 1;
    }

    method FinishGracefulAbort()
      modifies this
      ensures Current() == ExpiredWindowFinishes(old(Current()))
    {
      if expiredWindows > 0 {
        expiredWindows := expiredWindows - 1;
        var _ := TransitionTo(Aborted);
      }
    }

    /** The handler's first stretch: a record that is already aborting is finalised without a container. */
    method StartHandler()
      requires phase == Launched
      modifies this
      ensures Current() == BeginRunning(old(Current()))
    {
      var afterStart := TransitionTo(Running);
      if afterStart != Running {
        if afterStart == Aborting {
          var _ := CancelGracefulAbort();
          phase := FinalizingAbort;
        } else {
          phase := Ended;
        }
        return;
      }
      phase := Preparing;
    }

    /** Drops the restarts that are no longer recent, counts the rest, and decides inside one write. */
    method RestartAfterError(now: int, exit: Exit) returns (restarted: bool)
      requires phase == Deciding(now, exit)
      modifies this
      ensures Current() == Decide(old(Current()), now, exit)
      ensures restarted == (phase == InContainer)
    {
      var recentRestarts := 0;
      var i := 0;
      while i < |errorRestarts|
        invariant 0 <= i <= |errorRestarts|
        invariant recentRestarts == Recent(errorRestarts[..i], now)
      {
        assert errorRestarts[..i + 1][..i] == errorRestarts[..i];
        if now - errorRestarts[i] < RESTART_WINDOW_MILLIS {
          recentRestarts := recentRestarts + 1;
        }
        i := i + 1;
      }
      assert errorRestarts[..i] == errorRestarts;
      restarted := status == Running && restartOnError && recentRestarts < RESTART_LIMIT;
      if restarted {
        restartCount := restartCount + 1;
        errorRestarts := errorRestarts + [now];
        phase := InContainer;
      } else {
        phase := Finishing(FinalStatus(exit));
      }
    }

    /** The container is gone: a restart mark is consumed by this exit, whatever becomes of it. */
    method ContainerExited(exit: Exit)
      requires phase == InContainer
      modifies this
      ensures Current() == ContainerExits(old(Current()), exit)
    {
      if restartPending {
        restartPending := false;
        phase := CheckingRestart(exit);
      } else if !exit.standbyFinishing && !exit.timedOut && exit.exitCode != 0 {
        phase := Deciding(clock, exit);
      } else {
        phase := Finishing(FinalStatus(exit));
      }
    }

    method Finish()
      requires phase == Cleanup
      modifies this
      ensures Current() == CleanUp(old(Current()))
    {
      var open := CancelGracefulAbort();
      if open {
        phase := CleanupAbort;
        return;
      }
      restartPending, stopTimer := false, false;
      phase := Ended;
    }

    method MigrateRun()
      modifies this
      ensures Current() == Migrate(old(Current()))
    {
      if status == Running && !stopTimer {
        stopTimer := true;
      }
    }

    method RebootRun()
      modifies this
      ensures Current() == Reboot(old(Current()))
    {
      stopTimer := false;
      restartWrites := restartWrites + 1;
    }
  }
}
