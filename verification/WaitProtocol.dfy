/** The feeder, the resizers and the waiters of a terminal session as a step relation over the
    shared grid, its lock and the generation counter; no wakeup is ever lost. */
module WaitProtocol {

  /** What a waiter reads of the terminal: the trimmed screen text. */
  type Screen = string

  /** The feeder task: waiting for output, between `feed` and the bump, or finished. */
  datatype Feeder = Receiving | Fed | Exited

  /** A resize, which holds the terminal lock from the grid change to its end: before it has tried
      to upgrade the weak sender, or holding the sender it got. */
  datatype Resizer = NoResize | Resized | Upgraded

  datatype Outcome =
    | Matched(screen: Screen)
    | Ended(screen: Screen)
    | TimedOut(screen: Screen)

  datatype Pc =
    | Top                     // about to mark the generation seen
    | Marked                  // about to lock the terminal and check
    | Sleeping                // in the select
    | Reporting(ended: bool)  // about to lock the terminal for the final snapshot
    | Done(outcome: Outcome)

  datatype Waiter = Waiter(condition: Screen -> bool, seen: nat, pc: Pc)

  /** `silent` records that some resize changed the grid and found no sender to bump. */
  datatype State = State(
    grid: Screen,
    generation: nat,
    feeder: Feeder,
    resizer: Resizer,
    silent: bool,
    waiters: seq<Waiter>)

  predicate LockFree(s: State) { s.resizer.NoResize? }

  /** The channel is closed once no strong sender is left. */
  predicate SenderGone(s: State) { s.feeder.Exited? && !s.resizer.Upgraded? }

  ghost predicate Init(s: State) {
    && s.generation == 0 && s.feeder == Receiving && s.resizer == NoResize && !s.silent
    && forall i :: 0 <= i < |s.waiters| ==> s.waiters[i].pc == Top && s.waiters[i].seen == 0
  }

  datatype Step =
    | FeedGrid(grid: Screen)      // feeder: lock, feed, unlock
    | FeederBump
    | FeederExit
    | ResizeGrid(grid: Screen)    // resizer: lock, resize the grid
    | ResizeUpgrade               // resizer: try to get the sender; without one, unlock and return
    | ResizeBump                  // resizer: bump, drop the sender, unlock
    | Mark(i: nat)
    | Check(i: nat)
    | Wake(i: nat)
    | Closed(i: nat)
    | Deadline(i: nat)
    | Report(i: nat)

  predicate At(s: State, i: nat, pc: Pc) {
    i < |s.waiters| && s.waiters[i].pc == pc
  }

  predicate Enabled(s: State, step: Step) {
    match step
    case FeedGrid(_) => s.feeder.Receiving? && LockFree(s)
    case FeederBump => s.feeder.Fed?
    case FeederExit => s.feeder.Receiving?
    case ResizeGrid(_) => LockFree(s)
    case ResizeUpgrade => s.resizer.Resized?
    case ResizeBump => s.resizer.Upgraded?
    case Mark(i) => At(s, i, Top)
    case Check(i) => At(s, i, Marked) && LockFree(s)
    case Wake(i) => At(s, i, Sleeping) && s.waiters[i].seen != s.generation
    case Closed(i) => At(s, i, Sleeping) && s.waiters[i].seen == s.generation && SenderGone(s)
    case Deadline(i) => At(s, i, Sleeping)
    case Report(i) => i < |s.waiters| && s.waiters[i].pc.Reporting? && LockFree(s)
  }

  function WithWaiter(s: State, i: nat, w: Waiter): State
    requires i < |s.waiters|
  {
    s.(waiters := s.waiters[i := w])
  }

  function Next(s: State, step: Step): State
    requires Enabled(s, step)
  {
    match step
    case FeedGrid(grid) => s.(grid := grid, feeder := Fed)
    case FeederBump => s.(generation := s.generation + 1, feeder := Receiving)
    case FeederExit => s.(feeder := Exited)
    case ResizeGrid(grid) => s.(grid := grid, resizer := Resized)
    case ResizeUpgrade =>
      if s.feeder.Exited? then s.(resizer := NoResize, silent := true) else s.(resizer := Upgraded)
    case ResizeBump => s.(generation := s.generation + 1, resizer := NoResize)
    case Mark(i) => WithWaiter(s, i, s.waiters[i].(seen := s.generation, pc := Marked))
    case Check(i) =>
      var w := s.waiters[i];
      WithWaiter(s, i, w.(pc := if w.condition(s.grid) then Done(Matched(s.grid)) else Sleeping))
    case Wake(i) => WithWaiter(s, i, s.waiters[i].(seen := s.generation, pc := Top))
    case Closed(i) => WithWaiter(s, i, s.waiters[i].(pc := Reporting(true)))
    case Deadline(i) => WithWaiter(s, i, s.waiters[i].(pc := Reporting(false)))
    case Report(i) =>
      var w := s.waiters[i];
      WithWaiter(s, i, w.(pc := Done(if w.pc.ended then Ended(s.grid) else TimedOut(s.grid))))
  }

  /** A finite run: any interleaving of enabled steps from an initial state. */
  ghost predicate IsRun(run: seq<State>, steps: seq<Step>) {
    && |run| == |steps| + 1 && Init(run[0])
    && forall k :: 0 <= k < |steps| ==> Enabled(run[k], steps[k]) && run[k + 1] == Next(run[k], steps[k])
  }

  // ----- The invariant -----

  /** A writer is between its grid change and its bump. */
  predicate WriterPending(s: State) {
    s.feeder.Fed? || !s.resizer.NoResize?
  }

  ghost predicate WaiterOk(s: State, w: Waiter) {
    && w.seen <= s.generation
    && match w.pc
       case Sleeping => w.seen == s.generation ==> !w.condition(s.grid) || WriterPending(s) || s.silent
       case Reporting(ended) => ended ==> SenderGone(s) && (!w.condition(s.grid) || s.resizer.Resized? || s.silent)
       case Done(Matched(screen)) => w.condition(screen)
       case Done(Ended(screen)) =>
         && SenderGone(s) && (!w.condition(screen) || s.silent)
         && (screen == s.grid || s.resizer.Resized? || s.silent)
       case _ => true
  }

  ghost predicate Inv(s: State) {
    && (s.silent ==> SenderGone(s))
    && forall i :: 0 <= i < |s.waiters| ==> WaiterOk(s, s.waiters[i])
  }

  lemma {:induction false} StepKeepsInv(s: State, step: Step)
    requires Inv(s) && Enabled(s, step)
    ensures Inv(Next(s, step))
  {
    var t := Next(s, step);
    forall i | 0 <= i < |t.waiters| ensures WaiterOk(t, t.waiters[i]) {
      assert WaiterOk(s, s.waiters[i]);
    }
  }

  lemma {:induction false} RunKeepsInv(run: seq<State>, steps: seq<Step>, k: nat)
    requires IsRun(run, steps) && k < |run|
    ensures Inv(run[k])
  {
    if k > 0 {
      RunKeepsInv(run, steps, k - 1);
      StepKeepsInv(run[k - 1], steps[k - 1]);
    }
  }

  // ----- Main results -----

  /** In every interleaving: a sleeping waiter that has seen the current generation, with no writer
      between its grid change and its bump, has a false condition on the present grid. The one
      exception is a resize made after the feeder was gone, which announces nothing. */
  lemma {:induction false} NoLostWakeup(run: seq<State>, steps: seq<Step>, k: nat, i: nat)
    requires IsRun(run, steps) && k < |run| && At(run[k], i, Sleeping)
    requires !Enabled(run[k], Wake(i)) && !WriterPending(run[k]) && !run[k].silent
    ensures !run[k].waiters[i].condition(run[k].grid)
  {
    RunKeepsInv(run, steps, k);
    assert WaiterOk(run[k], run[k].waiters[i]);
  }

  /** Seen from the other side: while a sleeping waiter's condition holds and somebody can still bump,
      it can be woken at once, or a writer is pending whose next steps cannot be blocked and end in a
      bump that wakes it. */
  lemma {:induction false} WakeupIsComing(run: seq<State>, steps: seq<Step>, k: nat, i: nat)
    requires IsRun(run, steps) && k < |run| && At(run[k], i, Sleeping)
    requires run[k].waiters[i].condition(run[k].grid) && !SenderGone(run[k])
    ensures var s := run[k];
      || Enabled(s, Wake(i))
      || (Enabled(s, FeederBump) && Enabled(Next(s, FeederBump), Wake(i)))
      || (Enabled(s, ResizeBump) && Enabled(Next(s, ResizeBump), Wake(i)))
      || (Enabled(s, ResizeUpgrade) && Enabled(Next(s, ResizeUpgrade), ResizeBump)
          && Enabled(Next(Next(s, ResizeUpgrade), ResizeBump), Wake(i)))
  {
    RunKeepsInv(run, steps, k);
    assert WaiterOk(run[k], run[k].waiters[i]);
  }

  /** A match is reported only for a screen on which the condition held; "ended" is reported only for
      a screen on which it did not, unless a resize found the feeder gone. */
  lemma {:induction false} OutcomesAreRight(run: seq<State>, steps: seq<Step>, k: nat, i: nat)
    requires IsRun(run, steps) && k < |run| && i < |run[k].waiters| && run[k].waiters[i].pc.Done?
    ensures match run[k].waiters[i].pc.outcome
      case Matched(screen) => run[k].waiters[i].condition(screen)
      case Ended(screen) => run[k].silent || !run[k].waiters[i].condition(screen)
      case TimedOut(_) => true
  {
    RunKeepsInv(run, steps, k);
    assert WaiterOk(run[k], run[k].waiters[i]);
  }

  predicate Checking(w: Waiter) { w.pc == Marked || w.pc == Sleeping }

  /** What a waiter has seen while it checks and sleeps is the generation at its last mark. */
  lemma {:induction false} SeenAtMark(run: seq<State>, steps: seq<Step>, k: nat, i: nat) returns (j: nat)
    requires IsRun(run, steps) && k < |run| && i < |run[k].waiters| && Checking(run[k].waiters[i])
    ensures j < k && steps[j] == Mark(i) && run[k].waiters[i].seen == run[j].generation
    ensures forall m :: j < m < k ==> steps[m] != Mark(i) && steps[m] != Wake(i)
  {
    assert k > 0 by { assert Init(run[0]); }
    var before, step := run[k - 1], steps[k - 1];
    assert run[k] == Next(before, step);
    if step == Mark(i) {
      j := k - 1;
    } else {
      j := SeenAtMark(run, steps, k - 1, i);
    }
  }

  /** A sleeping waiter can be woken exactly when there was a bump since its last mark: never for nothing. */
  lemma {:induction false} WokenByBump(run: seq<State>, steps: seq<Step>, k: nat, i: nat) returns (j: nat)
    requires IsRun(run, steps) && k < |run| && At(run[k], i, Sleeping)
    ensures j < k && steps[j] == Mark(i) && forall m :: j < m < k ==> steps[m] != Mark(i) && steps[m] != Wake(i)
    ensures Enabled(run[k], Wake(i)) <==> run[j].generation < run[k].generation
  {
    j := SeenAtMark(run, steps, k, i);
    RunKeepsInv(run, steps, k);
    assert WaiterOk(run[k], run[k].waiters[i]);
  }

  /** Step `j` gives waiter `i` its outcome: the screen is the grid under the lock at that moment. */
  predicate Reports(s: State, step: Step, i: nat, outcome: Outcome) {
    i < |s.waiters| &&
    match outcome
    case Matched(screen) => step == Check(i) && screen == s.grid && s.waiters[i].condition(screen)
    case Ended(screen) => step == Report(i) && screen == s.grid && s.waiters[i].pc == Reporting(true)
    case TimedOut(screen) => step == Report(i) && screen == s.grid && s.waiters[i].pc == Reporting(false)
  }

  /** Whatever a waiter reports, match, end or time-out, it reports with the grid of the moment it did. */
  lemma {:induction false} OutcomeScreens(run: seq<State>, steps: seq<Step>, k: nat, i: nat)
    requires IsRun(run, steps) && k < |run| && i < |run[k].waiters| && run[k].waiters[i].pc.Done?
    ensures exists j :: 0 <= j < k && Reports(run[j], steps[j], i, run[k].waiters[i].pc.outcome)
  {
    assert k > 0 by { assert Init(run[0]); }
    var before, step := run[k - 1], steps[k - 1];
    assert run[k] == Next(before, step);
    if before.waiters[i].pc.Done? {
      OutcomeScreens(run, steps, k - 1, i);
    } else {
      assert Reports(before, step, i, run[k].waiters[i].pc.outcome);
    }
  }

  function CauseOf(ended: bool, i: nat): Step { if ended then Closed(i) else Deadline(i) }

  /** A waiter about to report a time-out has let its deadline pass, and one about to report the end has
      found the channel closed. */
  lemma {:induction false} ReportingHasCause(run: seq<State>, steps: seq<Step>, k: nat, i: nat)
    requires IsRun(run, steps) && k < |run| && i < |run[k].waiters| && run[k].waiters[i].pc.Reporting?
    ensures exists j :: 0 <= j < k && At(run[j], i, Sleeping) && steps[j] == CauseOf(run[k].waiters[i].pc.ended, i)
  {
    assert k > 0 by { assert Init(run[0]); }
    var before, step := run[k - 1], steps[k - 1];
    assert run[k] == Next(before, step);
    if before.waiters[i].pc.Reporting? {
      ReportingHasCause(run, steps, k - 1, i);
    } else {
      assert At(before, i, Sleeping);
    }
  }

  /** A waiter that is done stays as it is. */
  lemma {:induction false} DoneStays(run: seq<State>, steps: seq<Step>, k: nat, m: nat, i: nat)
    requires IsRun(run, steps) && k <= m < |run| && i < |run[k].waiters| && run[k].waiters[i].pc.Done?
    ensures i < |run[m].waiters| && run[m].waiters[i] == run[k].waiters[i]
  {
    if k < m {
      DoneStays(run, steps, k, m - 1, i);
      assert run[m] == Next(run[m - 1], steps[m - 1]);
    }
  }

  /** What "ended" promises: the reported screen is the grid of every later state, and the condition is
      false on it, as long as no resize has gone unannounced and none is at work there. */
  lemma {:induction false} EndedIsFinal(run: seq<State>, steps: seq<Step>, k: nat, m: nat, i: nat, screen: Screen)
    requires IsRun(run, steps) && k <= m < |run| && At(run[k], i, Done(Ended(screen)))
    requires !run[m].silent && run[m].resizer.NoResize?
    ensures run[m].grid == screen && !run[k].waiters[i].condition(run[m].grid)
  {
    DoneStays(run, steps, k, m, i);
    RunKeepsInv(run, steps, m);
    assert WaiterOk(run[m], run[m].waiters[i]);
  }

  /** Once no sender is left, only a resize can change the grid, and nothing the generation. */
  lemma {:induction false} ClosedGridIsFinal(run: seq<State>, steps: seq<Step>, k: nat, m: nat)
    requires IsRun(run, steps) && k <= m < |run| && SenderGone(run[k])
    requires forall j :: k <= j < m ==> !steps[j].ResizeGrid?
    ensures SenderGone(run[m]) && run[m].grid == run[k].grid && run[m].generation == run[k].generation
  {
    if k < m {
      ClosedGridIsFinal(run, steps, k, m - 1);
      assert run[m] == Next(run[m - 1], steps[m - 1]);
    }
  }

  /** `silent` means exactly that a resize tried to upgrade after the feeder had exited. */
  lemma {:induction false} SilentIff(run: seq<State>, steps: seq<Step>, k: nat)
    requires IsRun(run, steps) && k < |run|
    ensures run[k].silent <==> exists j :: 0 <= j < k && steps[j].ResizeUpgrade? && run[j].feeder.Exited?
  {
    if k > 0 {
      SilentIff(run, steps, k - 1);
      var last := steps[k - 1];
      assert run[k] == Next(run[k - 1], last);
      if last.ResizeUpgrade? && run[k - 1].feeder.Exited? {
        assert run[k].silent;
      } else {
        assert run[k].silent == run[k - 1].silent;
      }
    }
  }

  lemma {:induction false} RunFurther(run: seq<State>, steps: seq<Step>, step: Step)
    requires IsRun(run, steps) && Enabled(run[|run| - 1], step)
    ensures IsRun(run + [Next(run[|run| - 1], step)], steps + [step])
  {
    hide Enabled, Next, Init;
  }

  /** A waiter with a false condition goes to sleep after the feeder has exited. */
  lemma {:induction false} AsleepAfterExit(condition: Screen -> bool, before: Screen)
    returns (run: seq<State>, steps: seq<Step>)
    requires !condition(before)
    ensures IsRun(run, steps)
    ensures run[|run| - 1] == State(before, 0, Exited, NoResize, false, [Waiter(condition, 0, Sleeping)])
  {
    var s := State(before, 0, Receiving, NoResize, false, [Waiter(condition, 0, Top)]);
    run, steps := [s], [];
    hide IsRun;
    assert IsRun(run, steps) by { StartsRun(s); }
    RunFurther(run, steps, FeederExit);
    run, steps := run + [Next(s, FeederExit)], steps + [FeederExit];
    s := run[|run| - 1];
    RunFurther(run, steps, Mark(0));
    run, steps := run + [Next(s, Mark(0))], steps + [Mark(0)];
    s := run[|run| - 1];
    RunFurther(run, steps, Check(0));
    run, steps := run + [Next(s, Check(0))], steps + [Check(0)];
  }

  lemma StartsRun(s: State)
    requires Init(s)
    ensures IsRun([s], [])
  {
  }

  /** The exception is real: a resize after the feeder's exit can make the condition true while the
      waiter goes on to report "ended" with that very screen. */
  lemma {:induction false} SilentResizeWitness(condition: Screen -> bool, before: Screen, after: Screen)
    returns (run: seq<State>, steps: seq<Step>)
    requires !condition(before) && condition(after)
    ensures IsRun(run, steps)
    ensures run[|run| - 1].waiters == [Waiter(condition, 0, Done(Ended(after)))]
  {
    run, steps := AsleepAfterExit(condition, before);
    hide IsRun;
    RunFurther(run, steps, ResizeGrid(after));
    run, steps := run + [Next(run[|run| - 1], ResizeGrid(after))], steps + [ResizeGrid(after)];
    RunFurther(run, steps, ResizeUpgrade);
    run, steps := run + [Next(run[|run| - 1], ResizeUpgrade)], steps + [ResizeUpgrade];
    RunFurther(run, steps, Closed(0));
    run, steps := run + [Next(run[|run| - 1], Closed(0))], steps + [Closed(0)];
    RunFurther(run, steps, Report(0));
    run, steps := run + [Next(run[|run| - 1], Report(0))], steps + [Report(0)];
  }
}
