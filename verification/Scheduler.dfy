/** The hourly clock of the automatic ERP synchronisation. */
module Scheduler {
  import opened Text

  const HOUR: int := 3_600_000
  const START_HOUR := 7
  const END_HOUR := 19

  // ----- The clock (São Paulo at a fixed three hours behind UTC) -----

  function HourOf(t: int): int {
    (t / HOUR - 3) % 24
  }

  predicate InsideWindow(t: int) {
    START_HOUR <= HourOf(t) < END_HOUR
  }

  predicate WholeHour(t: int) {
    t % HOUR == 0
  }

  /** `next` is the earliest whole hour after `t` inside the window. */
  ghost predicate IsNextRun(t: int, next: int) {
    && t < next && WholeHour(next) && InsideWindow(next)
    && forall h | t < h < next && WholeHour(h) :: !InsideWindow(h)
  }

  lemma NextRunUnique(t: int, a: int, b: int)
    requires IsNextRun(t, a) && IsNextRun(t, b)
    ensures a == b
  {
  }

  /** The k-th whole hour after `t`. */
  function Probe(t: int, k: nat): int {
    (t / HOUR + 1 + k) * HOUR
  }

  lemma ProbeHour(t: int, k: nat)
    ensures WholeHour(Probe(t, k)) && Probe(t, k) / HOUR == t / HOUR + 1 + k
    ensures t < Probe(t, 0) <= t + HOUR && Probe(t, k) == Probe(t, 0) + k * HOUR
  {
  }

  /** Whole hours after `t` are the probes. */
  lemma WholeHourIsProbe(t: int, h: int) returns (k: nat)
    requires WholeHour(h) && h > t
    ensures h == Probe(t, k)
  {
    k := h / HOUR - t / HOUR - 1;
  }

  /** Whole hours from the next one to the first admissible one. */
  function Delay(t: int): (k: nat)
    ensures k <= 12
  {
    var x := (t / HOUR - 2) % 24;
    if START_HOUR <= x < END_HOUR then 0 else if x < START_HOUR then START_HOUR - x else START_HOUR + 24 - x
  }

  function NextRun(t: int): int {
    Probe(t, Delay(t))
  }

  lemma ProbeInside(t: int, k: nat)
    requires k <= 24
    ensures HourOf(Probe(t, k)) == (if (t / HOUR - 2) % 24 + k < 24 then (t / HOUR - 2) % 24 + k
                                    else if (t / HOUR - 2) % 24 + k < 48 then (t / HOUR - 2) % 24 + k - 24 else 0)
  {
    ProbeHour(t, k);
    var q := t / HOUR - 2;
    assert (q + k) % 24 == (q % 24 + k) % 24;
  }

  /** Thirteen consecutive whole hours always touch the window; nothing earlier does. */
  lemma DelayIsFirst(t: int, k: nat)
    requires k <= Delay(t)
    ensures InsideWindow(Probe(t, k)) <==> k == Delay(t)
  {
    ProbeInside(t, k);
  }

  lemma NextRunIs(t: int)
    ensures IsNextRun(t, NextRun(t)) && NextRun(t) <= t + 13 * HOUR
  {
    ProbeHour(t, 0);
    ProbeHour(t, Delay(t));
    DelayIsFirst(t, Delay(t));
    forall h | t < h < NextRun(t) && WholeHour(h) ensures !InsideWindow(h) {
      var k := WholeHourIsProbe(t, h);
      ProbeHour(t, k);
      DelayIsFirst(t, k);
    }
  }

  /** The probing loop always finds the earliest admissible hour, at most thirteen hours ahead; the fallback
      after 48 probes is never reached. */
  method CalculateNextAutomaticRunAt(from: int) returns (next: int)
    ensures IsNextRun(from, next) && next <= from + 13 * HOUR
    ensures next == NextRun(from)
  {
    NextRunIs(from);
    hide InsideWindow, WholeHour, Probe;
    var probe := (from / HOUR + 1) * HOUR;
    assert probe == Probe(from, 0) by {
      ProbeStart(from);
    }
    var i := 0;
    while i < 48
      invariant 0 <= i <= Delay(from)
      invariant probe == Probe(from, i)
    {
      DelayIsFirst(from, i);
      if InsideWindow(probe) {
        return probe;
      }
      ProbeStep(from, i);
      probe := probe + HOUR;
      i := i + 1;
    }
    assert false;
  }

  lemma ProbeStart(t: int)
    ensures Probe(t, 0) == (t / HOUR + 1) * HOUR
  {
  }

  lemma ProbeStep(t: int, k: nat)
    ensures Probe(t, k + 1) == Probe(t, k) + HOUR
  {
  }

  // ----- One tick -----

  datatype SkipReason = OutsideWindow | AlreadyRunning | ConfigurationError | LockActive | StepError

  /** The module's variables. */
  datatype State = State(nextRunAt: Option<int>, running: bool, skipped: Option<SkipReason>, failed: bool,
                         lastSuccess: Option<int>)

  /** How one synchronisation step went: fine, or failed with or without the lock status 409. Only the order
      status step is not critical. */
  datatype StepResult = Done | Failed(critical: bool, locked: bool)

  predicate Stops(step: StepResult) {
    step.Failed? && step.critical
  }

  /** What the outside world does during a tick: configuration, database writes, the steps and the clock when
      they end. */
  datatype World = World(now: int, configured: bool, runCreated: bool, steps: seq<StepResult>, finishedAt: int,
                         successSaved: bool, savedAgainAt: int, errorSaved: bool)

  predicate ClockForward(w: World) {
    w.now <= w.finishedAt <= w.savedAgainAt
  }

  datatype Exit = Returned | Rejected

  /** The first critical step that failed. */
  function FirstFailure(steps: seq<StepResult>): (r: Option<StepResult>)
    ensures r.Some? ==> Stops(r.value)
  {
    if steps == [] then None else if Stops(steps[0]) then Some(steps[0]) else FirstFailure(steps[1..])
  }

  /** The whole tick as a function. */
  function TickState(s: State, w: World): (State, Exit) {
    if !InsideWindow(w.now) then (s.(skipped := Some(OutsideWindow), nextRunAt := Some(NextRun(w.now))), Returned)
    else if s.running then (s.(skipped := Some(AlreadyRunning), nextRunAt := Some(NextRun(w.now))), Returned)
    else if !w.configured then
      (s.(skipped := Some(ConfigurationError), failed := true, nextRunAt := Some(NextRun(w.now))), Returned)
    else if !w.runCreated then (s.(skipped := None, running := true), Rejected)
    else
      match FirstFailure(w.steps)
      case Some(f) =>
        (s.(skipped := Some(if f.locked then LockActive else StepError), failed := true,
            nextRunAt := Some(NextRun(w.finishedAt)), running := false), if w.errorSaved then Returned else Rejected)
      case None =>
        if w.successSaved then
          (s.(skipped := None, failed := false, lastSuccess := Some(w.finishedAt),
              nextRunAt := Some(NextRun(w.finishedAt)), running := false), Returned)
        else
          (s.(skipped := Some(StepError), failed := true, lastSuccess := Some(w.finishedAt),
              nextRunAt := Some(NextRun(w.savedAgainAt)), running := false), if w.errorSaved then Returned
                else Rejected)
  }

  class ErpSyncScheduler {
    var nextRunAt: Option<int>
    var running: bool
    var skipped: Option<SkipReason>
    var failed: bool
    var lastSuccess: Option<int>

    function Now(): State
      reads this
    {
      State(nextRunAt, running, skipped, failed, lastSuccess)
    }

    /** `executeAutomaticErpSync`. */
    method Execute(w: World) returns (exit: Exit)
      modifies this
      ensures (Now(), exit) == TickState(old(Now()), w)
    {
      hide InsideWindow, NextRun;
      if !InsideWindow(w.now) {
        skipped := Some(OutsideWindow);
        var next := CalculateNextAutomaticRunAt(w.now);
        nextRunAt := Some(next);
        return Returned;
      }
      if running {
        skipped := Some(AlreadyRunning);
        var next := CalculateNextAutomaticRunAt(w.now);
        nextRunAt := Some(next);
        return Returned;
      }
      if !w.configured {
        var next := CalculateNextAutomaticRunAt(w.now);
        nextRunAt := Some(next);
        skipped, failed := Some(ConfigurationError), true;
        return Returned;
      }
      skipped, running := None, true;
      if !w.runCreated {
        return Rejected;   // the insert throws outside the `try`: `running` stays set
      }
      var error: Option<bool> := None;
      var index := 0;
      while index < |w.steps| && error.None?
        invariant 0 <= index <= |w.steps|
        invariant error == None ==> FirstFailure(w.steps) == FirstFailure(w.steps[index..])
        invariant error.Some? ==> FirstFailure(w.steps) == Some(Failed(true, error.value))
        decreases |w.steps| - index
      {
        if Stops(w.steps[index]) {
          error := Some(w.steps[index].locked);
        }
        index := index + 1;
      }
      var finishedAt := w.finishedAt;
      if error.None? {
        lastSuccess, failed := Some(finishedAt), false;
        if w.successSaved {
          var next := CalculateNextAutomaticRunAt(finishedAt);
          nextRunAt := Some(next);
        } else {
          error, finishedAt := Some(false), w.savedAgainAt;
        }
      }
      exit := Returned;
      if error.Some? {
        skipped := Some(if error.value then LockActive else StepError);
        failed := true;
        var next := CalculateNextAutomaticRunAt(finishedAt);
        nextRunAt := Some(next);
        exit := if w.errorSaved then Returned else Rejected;
      }
      running := false;
    }
  }

  // ----- What every tick guarantees -----

  /** Every tick that returns leaves a run hour strictly after the tick, whole and inside the window. */
  lemma TickLeavesFuture(s: State, w: World)
    requires ClockForward(w) && TickState(s, w).1 == Returned
    ensures var next := TickState(s, w).0.nextRunAt;
            next.Some? && w.now < next.value && WholeHour(next.value) && InsideWindow(next.value)
  {
    NextRunIs(w.now);
    NextRunIs(w.finishedAt);
    NextRunIs(w.savedAgainAt);
    hide NextRun, InsideWindow, WholeHour;
  }

  /** A tick that starts a run gives the running flag back exactly when the run row could be inserted. */
  lemma FlagGivenBack(s: State, w: World)
    requires InsideWindow(w.now) && !s.running && w.configured
    ensures TickState(s, w).0.running <==> !w.runCreated
  {
  }

  // ----- What each path of a tick leaves -----

  /** From seven to before seven in the evening in Sao Paulo, three hours behind UTC. */
  predicate Daytime(t: int) {
    7 <= (t / 3_600_000 - 3) % 24 < 19
  }

  /** Step `i` is the first critical one that failed. */
  predicate FailsAt(steps: seq<StepResult>, i: int) {
    0 <= i < |steps| && steps[i].Failed? && steps[i].critical
    && forall j | 0 <= j < i :: steps[j].Done? || !steps[j].critical
  }

  /** A tick that does not get to run: it says why, plans the next run from now and leaves the rest alone. */
  ghost predicate Skips(s: State, t: State, now: int, why: SkipReason) {
    && t.skipped == Some(why) && t.nextRunAt.Some? && IsNextRun(now, t.nextRunAt.value)
    && t.running == s.running && t.lastSuccess == s.lastSuccess
  }

  /** A run that ends: the flag is down again and the next run is planned from `at`. */
  ghost predicate Ends(t: State, at: int) {
    !t.running && t.nextRunAt.Some? && IsNextRun(at, t.nextRunAt.value)
  }

  /** Outside daytime, while running and without a configuration the tick is skipped with its reason; a run whose row
      cannot be inserted rejects with the flag up; the first critical failure leaves its reason (a lock or a step) and
      no new success; steps that all pass record the time they ended as the last success, and no reason unless saving
      it failed. */
  lemma TickAnswers(s: State, w: World)
    ensures var (t, exit) := TickState(s, w);
            if !Daytime(w.now) then exit == Returned && Skips(s, t, w.now, OutsideWindow) && t.failed == s.failed
            else if s.running then exit == Returned && Skips(s, t, w.now, AlreadyRunning) && t.failed == s.failed
            else if !w.configured then exit == Returned && Skips(s, t, w.now, ConfigurationError) && t.failed
            else if !w.runCreated then exit == Rejected && t == s.(skipped := None, running := true)
            else
              && (forall i | FailsAt(w.steps, i) ::
                    && t.skipped == Some(if w.steps[i].locked then LockActive else StepError) && t.failed
                    && t.lastSuccess == s.lastSuccess && Ends(t, w.finishedAt)
                    && (exit == Returned <==> w.errorSaved))
              && ((forall i :: !FailsAt(w.steps, i)) ==>
                    && t.lastSuccess == Some(w.finishedAt)
                    && if w.successSaved then
                         exit == Returned && t.skipped == None && !t.failed && Ends(t, w.finishedAt)
                       else
                         && t.skipped == Some(StepError) && t.failed && Ends(t, w.savedAgainAt)
                         && (exit == Returned <==> w.errorSaved))
  {
    NextRunIs(w.now);
    NextRunIs(w.finishedAt);
    NextRunIs(w.savedAgainAt);
    FirstFailureAt(w.steps);
    assert Daytime(w.now) <==> InsideWindow(w.now);
    hide NextRun, InsideWindow, Daytime, FirstFailure, FailsAt, IsNextRun;
  }

  lemma {:induction false} FirstFailureAt(steps: seq<StepResult>)
    ensures FirstFailure(steps) == None ==> forall i :: !FailsAt(steps, i)
    ensures FirstFailure(steps) != None ==> exists i :: FailsAt(steps, i)
    ensures forall i | FailsAt(steps, i) :: FirstFailure(steps) == Some(steps[i])
  {
    if steps != [] {
      FirstFailureAt(steps[1..]);
      forall i ensures FailsAt(steps, i) <==> if i == 0 then Stops(steps[0])
        else !Stops(steps[0]) && FailsAt(steps[1..], i - 1) {
        NextFailsAt(steps, i);
      }
      hide FailsAt;
      if Stops(steps[0]) {
        assert FailsAt(steps, 0);
      } else if FirstFailure(steps[1..]) != None {
        var i :| FailsAt(steps[1..], i);
        SomeIndex(steps[1..], i);
        assert FailsAt(steps[1..], (i + 1) - 1);
        assert FailsAt(steps, i + 1);
      }
    }
  }

  lemma SomeIndex(steps: seq<StepResult>, i: int)
    requires FailsAt(steps, i)
    ensures 0 <= i < |steps|
  {
  }

  lemma NextFailsAt(steps: seq<StepResult>, i: int)
    requires steps != []
    ensures FailsAt(steps, i) <==> if i == 0 then Stops(steps[0]) else !Stops(steps[0]) && FailsAt(steps[1..], i - 1)
  {
    if FailsAt(steps, i) && i > 0 {
      assert forall j | 0 <= j < i - 1 :: steps[1..][j] == steps[j + 1];
    }
    if i > 0 && !Stops(steps[0]) && FailsAt(steps[1..], i - 1) {
      assert forall j | 1 <= j < i :: steps[j] == steps[1..][j - 1];
    }
  }

  // ----- Runs of the interval timer -----

  /** One check of the interval timer: a tick when none is planned or the planned hour has come. */
  predicate Fires(s: State, w: World) {
    s.nextRunAt.None? || w.now >= s.nextRunAt.value
  }

  function Check(s: State, w: World): State {
    if Fires(s, w) then TickState(s, w).0 else s
  }

  function After(s: State, ws: seq<World>): State {
    if ws == [] then s else Check(After(s, ws[..|ws| - 1]), ws[|ws| - 1])
  }

  // ----- Runs with ticks by hand and changes of plan between the checks -----

  /** A check of the timer, a tick asked for by hand, which no plan holds back, or a new plan: switching the scheduler
      on or off sets the next run hour or clears it. */
  datatype Event = Timer(w: World) | Manual(w: World) | Replanned(next: Option<int>)

  function Happens(s: State, e: Event): State {
    match e
    case Timer(w) => Check(s, w)
    case Manual(w) => TickState(s, w).0
    case Replanned(next) => s.(nextRunAt := next)
  }

  function AfterEvents(s: State, events: seq<Event>): State {
    if events == [] then s else Happens(AfterEvents(s, events[..|events| - 1]), events[|events| - 1])
  }

  /** The event starts a run whose row cannot be inserted. */
  predicate InsertFails(s: State, e: Event) {
    match e
    case Timer(w) => Fires(s, w) && InsideWindow(w.now) && w.configured && !w.runCreated
    case Manual(w) => InsideWindow(w.now) && w.configured && !w.runCreated
    case Replanned(_) => false
  }

  /** Once an insert has failed, nothing ever starts a synchronisation again, neither the timer nor a tick by hand:
      the flag is never reset. */
  lemma {:induction false} StuckForever(s: State, events: seq<Event>)
    requires s.running
    ensures AfterEvents(s, events).running && AfterEvents(s, events).lastSuccess == s.lastSuccess
  {
    hide InsideWindow, NextRun;
    if events != [] {
      StuckForever(s, events[..|events| - 1]);
    }
  }

  /** From rest, a run of events ends stuck exactly when one of them started a run whose row could not be inserted. */
  lemma {:induction false} StuckExactly(s: State, events: seq<Event>)
    requires !s.running
    ensures AfterEvents(s, events).running <==>
              exists i | 0 <= i < |events| :: InsertFails(AfterEvents(s, events[..i]), events[i])
  {
    if events != [] {
      var n := |events| - 1;
      var init := events[..n];
      StuckExactly(s, init);
      EventSetsFlag(AfterEvents(s, init), events[n]);
      hide Happens, InsertFails;
      assert AfterEvents(s, events) == Happens(AfterEvents(s, init), events[n]);
      hide AfterEvents;
      forall i | 0 <= i < n ensures InsertFails(AfterEvents(s, init[..i]), init[i])
                                    <==> InsertFails(AfterEvents(s, events[..i]), events[i]) {
        assert init[..i] == events[..i];
      }
      if i :| 0 <= i < |events| && InsertFails(AfterEvents(s, events[..i]), events[i]) {
        assert i < n ==> InsertFails(AfterEvents(s, init[..i]), init[i]);
      }
    }
  }

  lemma EventSetsFlag(s: State, e: Event)
    ensures Happens(s, e).running <==> s.running || InsertFails(s, e)
  {
    hide InsideWindow, NextRun, FirstFailure;
  }

  ghost predicate InOrder(ws: seq<World>) {
    && (forall i | 0 <= i < |ws| :: ClockForward(ws[i]))
    && (forall i, j | 0 <= i < j < |ws| :: ws[i].finishedAt <= ws[j].now && ws[i].savedAgainAt <= ws[j].now)
  }

  /** After a tick at `ws[i]` that returned, the plan stays in force until its hour comes: no check before that
      hour fires, so two returned ticks never share a clock hour. */
  lemma {:induction false} PlanHolds(s: State, ws: seq<World>, plan: int)
    requires s.nextRunAt == Some(plan) && forall i | 0 <= i < |ws| :: ws[i].now < plan
    ensures After(s, ws) == s
  {
    if ws != [] {
      PlanHolds(s, ws[..|ws| - 1], plan);
    }
  }

  lemma OneTickPerHour(s: State, ws: seq<World>, i: nat, j: nat)
    requires InOrder(ws) && i < j < |ws|
    requires Fires(After(s, ws[..i]), ws[i]) && TickState(After(s, ws[..i]), ws[i]).1 == Returned
    requires Fires(After(s, ws[..j]), ws[j])
    requires forall k | i < k < j :: !Fires(After(s, ws[..k]), ws[k])
    ensures ws[i].now / HOUR < ws[j].now / HOUR
            && TickState(After(s, ws[..i]), ws[i]).0.nextRunAt == After(s, ws[..j]).nextRunAt
  {
    var before := After(s, ws[..i]);
    AfterNext(s, ws, i);
    assert ClockForward(ws[i]);
    TickLeavesFuture(before, ws[i]);
    hide TickState, InsideWindow, After, WholeHour, ClockForward;
    Quiet(s, ws, i + 1, j);
    HourPassed(ws[i].now, TickState(before, ws[i]).0.nextRunAt.value, ws[j].now);
  }

  lemma AfterNext(s: State, ws: seq<World>, i: nat)
    requires i < |ws|
    ensures After(s, ws[..i + 1]) == Check(After(s, ws[..i]), ws[i])
  {
    assert ws[..i + 1][..i] == ws[..i];
    hide Check;
  }

  lemma HourPassed(t: int, next: int, u: int)
    requires WholeHour(next) && t < next <= u
    ensures t / HOUR < u / HOUR
  {
  }

  lemma {:induction false} Quiet(s: State, ws: seq<World>, i: nat, j: nat)
    requires i <= j <= |ws| && forall k | i <= k < j :: !Fires(After(s, ws[..k]), ws[k])
    ensures After(s, ws[..j]) == After(s, ws[..i])
    decreases j - i
  {
    if i < j {
      Quiet(s, ws, i, j - 1);
      assert ws[..j][..j - 1] == ws[..j - 1];
      assert !Fires(After(s, ws[..j - 1]), ws[j - 1]);
    }
  }
}
