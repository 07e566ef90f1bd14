/**
 The wake-up protocol between the outcome executor and the resume scanner
 (packages/workflow/src/outcome-workflows.ts): park, register, sleep and recheck on one
 side; satisfy, signal and re-signal on the other. Signals may be lost, the runtime
 wait may time out, the executor may die and start over, and anyone may move the
 outcome away from waiting_external; only the executor moves it there.
 */
module Wakeups {
  import opened Prelude
  import opened OutcomeStore

  const MAX_RECHECKS := 8
  const RESIGNAL_MS := 300_000

  /** The run of the executor that a signal is addressed to. */
  type RunId = nat

  /** waiting_on */
  datatype On = On(run: RunId, signaledAt: Option<int>)

  /** Where the executor is in the wait lane; FellThrough is the exit after the last recheck. */
  datatype Phase = Elsewhere | Chosen | Registered | Parked | Asleep | Awake | Resumed | FellThrough

  /** One outcome with all the waits it ever had, its executor, and the signals sent and not yet received or lost. */
  datatype World = World(
    status: Status, waits: seq<WaitStatus>, on: Option<On>,
    phase: Phase, run: RunId, wait: nat, checks: nat, inFlight: multiset<RunId>)

  datatype Event =
    | Restart(newRun: RunId)   // the executor starts, or starts over after a death
    | Choose(w: nat)           // reuse the live wait w, or make it
    | Register                 // write waiting_on
    | Park                     // transition to waiting_external
    | Sleep                    // register the runtime wait
    | Receive                  // a signal for this run arrives
    | TimeOut                  // the runtime wait ends without one
    | Recheck                  // read the wait's row
    | Consume                  // consume the entry and go on running
    | Satisfy(w: nat)          // the scanner's compare-and-set on a wait
    | Expire(w: nat)           // the reaper's
    | Scan(now: int)           // one scan over the parked set
    | StraySignal(toRun: RunId) // a scan that died before it marked what it sent
    | StrayMark(at: int)       // a mark that came late
    | Lose(toRun: RunId)       // a signal nobody was registered for
    | Leave(to: Status)        // the owner or the reaper moves the outcome on

  // ---------------------------------------------------------------- the scan

  /** A signal never sent counts as sent at the epoch. */
  predicate DueAt(signaledAt: Option<int>, now: int) {
    now - (if signaledAt.Some? then signaledAt.value else 0) >= RESIGNAL_MS
  }

  predicate Due(on: On, now: int) { DueAt(on.signaledAt, now) }

  function CountSatisfied(waits: seq<WaitStatus>): nat {
    if waits == [] then 0
    else CountSatisfied(waits[..|waits| - 1]) + if waits[|waits| - 1] == Satisfied then 1 else 0
  }

  /** The signals a scan sends this outcome: one for each satisfied wait, all or none by the pacing. */
  function Sent(x: World, now: int): nat {
    if x.status == WaitingExternal && x.on.Some? && Due(x.on.value, now) then CountSatisfied(x.waits) else 0
  }

  function Scanned(x: World, now: int): World {
    if Sent(x, now) == 0 then x
    else x.(inFlight := x.inFlight[x.on.value.run := x.inFlight[x.on.value.run] + Sent(x, now)],
            on := Some(x.on.value.(signaledAt := Some(now))))
  }

  lemma {:induction false} SomeSatisfied(waits: seq<WaitStatus>)
    ensures CountSatisfied(waits) > 0 <==> exists i :: 0 <= i < |waits| && waits[i] == Satisfied
  {
    if waits != [] {
      SomeSatisfied(waits[..|waits| - 1]);
    }
  }

  // ---------------------------------------------------------------- the machine

  predicate Waits(p: Phase) { p in {Parked, Asleep, Awake} }

  predicate Possible(x: World, e: Event) {
    match e
    case Restart(_) => true
    case Choose(w) => x.phase == Elsewhere && (w == |x.waits| || (w < |x.waits| && x.waits[w] in {Waiting, Satisfied}))
    case Register => x.phase == Chosen
    case Park => x.phase == Registered
    case Sleep => x.phase == Parked
    case Receive => x.phase == Asleep && x.inFlight[x.run] > 0
    case TimeOut => x.phase == Asleep
    case Recheck => x.phase == Awake
    case Consume => x.phase in {Resumed, FellThrough}
    case Satisfy(w) => w < |x.waits| && x.waits[w] == Waiting
    case Expire(w) => w < |x.waits| && x.waits[w] == Waiting
    case Scan(_) => true
    case StraySignal(_) => true
    case StrayMark(_) => true
    case Lose(to) => x.inFlight[to] > 0
    case Leave(to) => Edge(x.status, to) && to != WaitingExternal
  }

  /** transitionOutcome to waiting_external; the executor throws where the guard refuses. */
  function AfterPark(x: World): World {
    if x.status == WaitingExternal then x.(phase := Parked)
    else if Edge(x.status, WaitingExternal) then
      x.(status := WaitingExternal, on := Some(On(x.run, None)), phase := Parked)
    else x.(phase := Elsewhere)
  }

  /** Back to running, also from blocked; from a terminal status the executor throws. */
  function AfterConsume(x: World): World {
    if x.status != Running && Edge(x.status, Running) then x.(phase := Elsewhere, status := Running, on := None)
    else x.(phase := Elsewhere)
  }

  function AfterRecheck(x: World): World
    requires x.wait < |x.waits|
  {
    var y := x.(checks := x.checks + 1);
    if x.waits[x.wait] == Satisfied then y.(phase := Resumed)
    else if y.checks < MAX_RECHECKS then y.(phase := Parked)
    else y.(phase := FellThrough)
  }

  function Do(x: World, e: Event): World
    requires Inv(x) && Possible(x, e)
  {
    match e
    case Restart(run) => x.(phase := Elsewhere, run := run, checks := 0)
    case Choose(w) => x.(phase := Chosen, wait := w, checks := 0, waits := if w < |x.waits| then x.waits else x.waits + [Waiting])
    case Register => x.(phase := Registered, on := Some(On(x.run, None)))
    case Park => AfterPark(x)
    case Sleep => x.(phase := Asleep)
    case Receive => x.(phase := Awake, inFlight := x.inFlight[x.run := x.inFlight[x.run] - 1])
    case TimeOut => x.(phase := Awake)
    case Recheck => AfterRecheck(x)
    case Consume => AfterConsume(x)
    case Satisfy(w) => x.(waits := x.waits[w := Satisfied])
    case Expire(w) => x.(waits := x.waits[w := Expired])
    case Scan(now) => Scanned(x, now)
    case StraySignal(to) => x.(inFlight := x.inFlight[to := x.inFlight[to] + 1])
    case StrayMark(at) => if x.on.Some? then x.(on := Some(x.on.value.(signaledAt := Some(at)))) else x
    case Lose(to) => x.(inFlight := x.inFlight[to := x.inFlight[to] - 1])
    case Leave(to) => x.(status := to, on := None)
  }

  /** While the executor waits in waiting_external, waiting_on names its run. */
  predicate Inv(x: World) {
    && (x.phase != Elsewhere ==> x.wait < |x.waits|)
    && (x.status == WaitingExternal && (x.phase == Registered || Waits(x.phase)) ==> x.on.Some? && x.on.value.run == x.run)
    && (x.phase == Resumed ==> x.waits[x.wait] == Satisfied)
    && (x.phase == FellThrough ==> x.checks == MAX_RECHECKS)
    && (Waits(x.phase) || x.phase in {Chosen, Registered} ==> x.checks < MAX_RECHECKS)
  }

  lemma InvKept(x: World, e: Event)
    requires Inv(x) && Possible(x, e)
    ensures Inv(Do(x, e))
    ensures |x.waits| <= |Do(x, e).waits|
    ensures forall i :: 0 <= i < |x.waits| && x.waits[i] == Satisfied ==> Do(x, e).waits[i] == Satisfied
  {
  }

  /** Parking: the outcome is waiting externally for this run, or the guard refused and the lane is over. */
  lemma ParksExactly(x: World)
    requires Inv(x) && Possible(x, Park)
    ensures var y := Do(x, Park);
      if x.status in {Running, Blocked, WaitingExternal} then
        y.phase == Parked && y.status == WaitingExternal && y.on.Some? && y.on.value.run == x.run && y.waits == x.waits
      else y == x.(phase := Elsewhere)
  {
  }

  /** Going on: the outcome runs again, wherever it may, and waits on nothing. */
  lemma GoesBackExactly(x: World)
    requires Inv(x) && Possible(x, Consume)
    ensures var y := Do(x, Consume);
      if x.status in {Queued, WaitingExternal, WaitingUser, Blocked, Verifying} then
        y == x.(phase := Elsewhere, status := Running, on := None)
      else y == x.(phase := Elsewhere)
  {
  }

  predicate Starts(x: World) { x.phase == Elsewhere && x.status != WaitingExternal && x.waits == [] && x.on.None? }

  ghost predicate Runs(x: World, es: seq<Event>, y: World)
    decreases |es|
  {
    if es == [] then x == y
    else Inv(x) && Possible(x, es[0]) && Runs(Do(x, es[0]), es[1..], y)
  }

  /** What every run keeps; a satisfied wait stays satisfied. */
  lemma {:induction false} RunKeeps(x: World, es: seq<Event>, y: World)
    requires Inv(x) && Runs(x, es, y)
    ensures Inv(y) && |x.waits| <= |y.waits|
    ensures forall i :: 0 <= i < |x.waits| && x.waits[i] == Satisfied ==> y.waits[i] == Satisfied
    decreases |es|
  {
    if es != [] {
      InvKept(x, es[0]);
      RunKeeps(Do(x, es[0]), es[1..], y);
    }
  }

  /**
   No stranded wake-up. After any run, if the executor sleeps on a satisfied wait in a
   parked outcome, then any scan that is due signals this very run, and when the signal
   arrives the recheck reads `satisfied` and the executor resumes.
   */
  lemma NoStrandedWakeup(start: World, es: seq<Event>, x: World, now: int)
    requires Starts(start) && Runs(start, es, x)
    requires x.phase == Asleep && x.status == WaitingExternal && x.wait < |x.waits| && x.waits[x.wait] == Satisfied
    ensures x.on.Some? && x.on.value.run == x.run
    ensures Due(x.on.value, now) ==>
      && Sent(x, now) > 0
      && Runs(x, [Scan(now), Receive, Recheck], Scanned(x, now).(phase := Resumed, checks := x.checks + 1,
           inFlight := x.inFlight[x.run := x.inFlight[x.run] + Sent(x, now) - 1]))
  {
    RunKeeps(start, es, x);
    if Due(x.on.value, now) {
      SomeSatisfied(x.waits);
      var a := Do(x, Scan(now));
      var b := Do(a, Receive);
      var c := Do(b, Recheck);
      assert Runs(c, [], c);
      assert [Recheck][1..] == [] && [Receive, Recheck][1..] == [Recheck];
      assert Runs(b, [Recheck], c);
      assert Runs(a, [Receive, Recheck], c);
      assert [Scan(now), Receive, Recheck][1..] == [Receive, Recheck];
      assert c.inFlight == x.inFlight[x.run := x.inFlight[x.run] + Sent(x, now) - 1];
    }
  }

  /** A second scan at the same instant sends nothing more. */
  lemma RescanIsQuiet(x: World, now: int)
    ensures Sent(Scanned(x, now), now) == 0
  {
  }

  /** The scan looks at all the outcome's waits: it signals a due parked outcome exactly when any of them is satisfied. */
  lemma SignalsExactly(x: World, now: int)
    requires x.status == WaitingExternal && x.on.Some? && Due(x.on.value, now)
    ensures Sent(x, now) > 0 <==> exists i :: 0 <= i < |x.waits| && x.waits[i] == Satisfied
  {
    SomeSatisfied(x.waits);
  }

  /**
   Asleep on an unsatisfied wait while another wait of the outcome is satisfied, with a
   scan due.
   */
  predicate Misled(x: World, now: int) {
    && Inv(x) && x.phase == Asleep && x.status == WaitingExternal && x.waits[x.wait] != Satisfied
    && (exists i :: 0 <= i < |x.waits| && x.waits[i] == Satisfied)
    && x.on.Some? && Due(x.on.value, now)
  }

  lemma {:induction false} RunsCons(x: World, e: Event, rest: seq<Event>, y: World)
    requires Inv(x) && Possible(x, e) && Runs(Do(x, e), rest, y)
    ensures Runs(x, [e] + rest, y)
  {
    assert ([e] + rest)[1..] == rest;
  }

  /** One round of scan, signal and recheck costs a recheck and changes no wait. */
  /** A scan, the signal it sends, and the recheck it costs. */
  lemma RoundOf(x: World, now: int) returns (z: World)
    requires Misled(x, now)
    ensures Runs(x, [Scan(now)] + ([Receive] + ([Recheck] + [])), z)
    ensures Inv(z) && z.waits == x.waits && z.wait == x.wait && z.checks == x.checks + 1
    ensures z.phase == (if z.checks < MAX_RECHECKS then Parked else FellThrough)
    ensures z.status == WaitingExternal && z.on == Some(x.on.value.(signaledAt := Some(now)))
  {
    SomeSatisfied(x.waits);
    var a := Do(x, Scan(now));
    var b := Do(a, Receive);
    z := Do(b, Recheck);
    InvKept(b, Recheck);
    RunsCons(b, Recheck, [], z);
    RunsCons(a, Receive, [Recheck] + [], z);
    RunsCons(x, Scan(now), [Receive] + ([Recheck] + []), z);
  }

  lemma {:induction false} RunsJoin(x: World, es: seq<Event>, y: World, more: seq<Event>, z: World)
    requires Runs(x, es, y) && Runs(y, more, z)
    ensures Runs(x, es + more, z)
    decreases |es|
  {
    if es == [] {
      assert es + more == more;
    } else {
      RunsJoin(Do(x, es[0]), es[1..], y, more, z);
      assert es + more == [es[0]] + (es[1..] + more);
      RunsCons(x, es[0], es[1..] + more, z);
    }
  }

  lemma SleepsMisled(z: World, next: int)
    requires Inv(z) && z.phase == Parked && z.status == WaitingExternal && z.waits[z.wait] != Satisfied
    requires (exists i :: 0 <= i < |z.waits| && z.waits[i] == Satisfied) && z.on.Some? && Due(z.on.value, next)
    ensures Misled(Do(z, Sleep), next)
  {
  }

  /** Scans five minutes apart, each answered by one recheck, until the rechecks are used up. */
  function Rounds(left: nat, now: int): seq<Event>
    requires left > 0
  {
    [Scan(now)] + ([Receive] + ([Recheck] + if left == 1 then [] else [Sleep] + Rounds(left - 1, now + RESIGNAL_MS)))
  }

  /**
   An older satisfied wait of the outcome keeps the scanner signalling, and every signal
   costs the sleeper a recheck of its own, unsatisfied wait: from any such state, scans
   alone drive the executor through the bound, and it consumes an entry whose event
   never came.
   */
  lemma OlderWaitDrivesThrough(x: World, now: int) returns (y: World)
    requires Misled(x, now)
    ensures Runs(x, Rounds(MAX_RECHECKS - x.checks, now), y)
    ensures y.phase == FellThrough && y.waits == x.waits && y.wait == x.wait && y.waits[y.wait] != Satisfied
  {
    y := RoundsDriveThrough(x, now, MAX_RECHECKS - x.checks);
  }

  lemma {:induction false} RoundsDriveThrough(x: World, now: int, left: nat) returns (y: World)
    requires Misled(x, now) && left == MAX_RECHECKS - x.checks
    ensures Runs(x, Rounds(left, now), y)
    ensures y.phase == FellThrough && y.waits == x.waits && y.wait == x.wait && y.waits[y.wait] != Satisfied
    decreases left
  {
    var z := RoundOf(x, now);
    var round := [Scan(now)] + ([Receive] + ([Recheck] + []));
    if left == 1 {
      y := z;
      assert Rounds(1, now) == round;
    } else {
      var next := now + RESIGNAL_MS;
      SleepsMisled(z, next);
      y := RoundsDriveThrough(Do(z, Sleep), next, left - 1);
      RunsCons(z, Sleep, Rounds(left - 1, next), y);
      RunsJoin(x, round, z, [Sleep] + Rounds(left - 1, next), y);
      OneMoreRound(left - 1, now);
    }
  }

  lemma OneMoreRound(left: nat, now: int)
    requires left > 0
    ensures Rounds(left + 1, now) == [Scan(now)] + ([Receive] + ([Recheck] + [])) + ([Sleep] + Rounds(left, now + RESIGNAL_MS))
  {
  }

  // ---------------------------------------------------------------- when the lane gives up

  /** No timeout, no death, and nobody else: scans, the signals that arrive, and what the sleeper does about them. */
  predicate IsSignalling(e: Event) { e.Scan? || e.Receive? || e.Recheck? || e.Sleep? }

  predicate OnlySignalling(es: seq<Event>) { forall i :: 0 <= i < |es| ==> IsSignalling(es[i]) }

  ghost predicate SignalsDriveThrough(x: World) {
    exists es, y :: OnlySignalling(es) && Runs(x, es, y) && y.phase == FellThrough
  }

  /** The rechecks that have been or can still be paid for, when no scan sends anything. */
  function Paid(x: World): nat { x.checks + x.inFlight[x.run] + if x.phase == Awake then 1 else 0 }

  /** Without a satisfied wait in a parked outcome a scan sends nothing. */
  predicate NothingToSend(x: World) { x.status != WaitingExternal || CountSatisfied(x.waits) == 0 }

  predicate InLane(x: World) {
    Inv(x) && (Waits(x.phase) || x.phase == FellThrough) && x.wait < |x.waits| && x.waits[x.wait] != Satisfied
  }

  lemma OneStepKeepsPaid(x: World, e: Event)
    requires InLane(x) && NothingToSend(x) && IsSignalling(e) && Possible(x, e)
    ensures InLane(Do(x, e)) && NothingToSend(Do(x, e)) && Paid(Do(x, e)) == Paid(x)
  {
    InvKept(x, e);
  }

  lemma {:induction false} SignalsAreSpent(x: World, es: seq<Event>, y: World)
    requires InLane(x) && NothingToSend(x) && OnlySignalling(es) && Runs(x, es, y)
    ensures InLane(y) && Paid(y) == Paid(x)
    decreases |es|
  {
    if es != [] {
      OneStepKeepsPaid(x, es[0]);
      assert forall i :: 0 <= i < |es| - 1 ==> es[1..][i] == es[i + 1];
      SignalsAreSpent(Do(x, es[0]), es[1..], y);
    }
  }

  /** One signal that was in flight, and the recheck it costs. */
  function Spending(left: nat): seq<Event>
    requires left > 0
  {
    [Receive] + ([Recheck] + if left == 1 then [] else [Sleep] + Spending(left - 1))
  }

  lemma {:induction false} SpendingSignals(left: nat)
    requires left > 0
    ensures OnlySignalling(Spending(left))
  {
    if left > 1 { SpendingSignals(left - 1); }
  }

  lemma {:induction false} RoundsSignal(left: nat, now: int)
    requires left > 0
    ensures OnlySignalling(Rounds(left, now))
  {
    if left > 1 { RoundsSignal(left - 1, now + RESIGNAL_MS); }
  }

  lemma {:induction false} StraySignalsDriveThrough(x: World, left: nat) returns (y: World)
    requires InLane(x) && x.phase == Asleep && left == MAX_RECHECKS - x.checks && x.inFlight[x.run] >= left
    ensures Runs(x, Spending(left), y) && y.phase == FellThrough
    decreases left
  {
    var a := Do(x, Receive);
    var b := Do(a, Recheck);
    InvKept(x, Receive);
    InvKept(a, Recheck);
    if left == 1 {
      y := b;
      RunsCons(a, Recheck, [], y);
      RunsCons(x, Receive, [Recheck] + [], y);
    } else {
      var c := Do(b, Sleep);
      InvKept(b, Sleep);
      y := StraySignalsDriveThrough(c, left - 1);
      var rest := Spending(left - 1);
      RunsCons(b, Sleep, rest, y);
      RunsCons(a, Recheck, [Sleep] + rest, y);
      RunsCons(x, Receive, [Recheck] + ([Sleep] + rest), y);
    }
  }

  /** A time at which the scan is due. */
  function DueTime(on: On): int { (if on.signaledAt.Some? then on.signaledAt.value else 0) + RESIGNAL_MS }

  lemma ScansDriveThrough(x: World)
    requires InLane(x) && x.phase == Asleep && x.status == WaitingExternal
    requires exists i :: 0 <= i < |x.waits| && x.waits[i] == Satisfied
    ensures SignalsDriveThrough(x)
  {
    var now := DueTime(x.on.value);
    var y := OlderWaitDrivesThrough(x, now);
    RoundsSignal(MAX_RECHECKS - x.checks, now);
  }

  /**
   When signals alone, without the runtime wait ever timing out, drive a sleeper on an
   unsatisfied wait through the bound: exactly when some wait of its parked outcome is
   satisfied, or enough signals for this run are still in flight.
   */
  lemma SignalsDriveThroughExactly(x: World)
    requires InLane(x) && x.phase == Asleep
    ensures SignalsDriveThrough(x) <==>
      (x.status == WaitingExternal && exists i :: 0 <= i < |x.waits| && x.waits[i] == Satisfied)
      || x.inFlight[x.run] >= MAX_RECHECKS - x.checks
  {
    SomeSatisfied(x.waits);
    if x.status == WaitingExternal && exists i :: 0 <= i < |x.waits| && x.waits[i] == Satisfied {
      ScansDriveThrough(x);
    } else if x.inFlight[x.run] >= MAX_RECHECKS - x.checks {
      var y := StraySignalsDriveThrough(x, MAX_RECHECKS - x.checks);
      SpendingSignals(MAX_RECHECKS - x.checks);
    } else if SignalsDriveThrough(x) {
      var es, y :| OnlySignalling(es) && Runs(x, es, y) && y.phase == FellThrough;
      SignalsAreSpent(x, es, y);
    }
  }

  function TimingOut(left: nat): seq<Event>
    requires left > 0
  {
    [TimeOut] + ([Recheck] + if left == 1 then [] else [Sleep] + TimingOut(left - 1))
  }

  /** Timeouts of the runtime wait alone get there from any such state. */
  lemma TimeoutsDriveThrough(x: World) returns (y: World)
    requires InLane(x) && x.phase == Asleep
    ensures Runs(x, TimingOut(MAX_RECHECKS - x.checks), y)
    ensures y.phase == FellThrough && y.waits == x.waits && y.wait == x.wait
  {
    y := TimeoutsUseUp(x, MAX_RECHECKS - x.checks);
  }

  lemma {:induction false} TimeoutsUseUp(x: World, left: nat) returns (y: World)
    requires InLane(x) && x.phase == Asleep && left == MAX_RECHECKS - x.checks
    ensures Runs(x, TimingOut(left), y)
    ensures y.phase == FellThrough && y.waits == x.waits && y.wait == x.wait
    decreases left
  {
    var a := Do(x, TimeOut);
    var b := Do(a, Recheck);
    InvKept(x, TimeOut);
    InvKept(a, Recheck);
    if left == 1 {
      y := b;
      RunsCons(a, Recheck, [], y);
      RunsCons(x, TimeOut, [Recheck] + [], y);
    } else {
      var c := Do(b, Sleep);
      InvKept(b, Sleep);
      y := TimeoutsUseUp(c, left - 1);
      var rest := TimingOut(left - 1);
      RunsCons(b, Sleep, rest, y);
      RunsCons(a, Recheck, [Sleep] + rest, y);
      RunsCons(x, TimeOut, [Recheck] + ([Sleep] + rest), y);
    }
  }

  lemma {:induction false} RunsSnoc(x: World, es: seq<Event>, m: World, e: Event)
    requires Inv(x) && Runs(x, es, m) && Inv(m) && Possible(m, e)
    ensures Runs(x, es + [e], Do(m, e))
    decreases |es|
  {
    if es == [] {
      assert [] + [e] == [e] && [e][1..] == [];
      assert Runs(Do(m, e), [], Do(m, e));
    } else {
      InvKept(x, es[0]);
      RunsSnoc(Do(x, es[0]), es[1..], m, e);
      assert (es + [e])[1..] == es[1..] + [e];
    }
  }

  /** The executor waits for a fresh wait, which nothing has satisfied yet. */
  lemma GoesToSleep(start: World, es: seq<Event>, x: World) returns (more: seq<Event>, y: World)
    requires Inv(start) && Runs(start, es, x) && Inv(x) && x.phase == Elsewhere && x.status == Running
    ensures Runs(start, more, y) && Inv(y)
    ensures y == x.(phase := Asleep, wait := |x.waits|, checks := 0, waits := x.waits + [Waiting],
                    status := WaitingExternal, on := Some(On(x.run, None)))
  {
    var a := Do(x, Choose(|x.waits|));
    var b := Do(a, Register);
    var c := Do(b, Park);
    RunsSnoc(start, es, x, Choose(|x.waits|));
    RunsSnoc(start, es + [Choose(|x.waits|)], a, Register);
    RunsSnoc(start, es + [Choose(|x.waits|)] + [Register], b, Park);
    RunsSnoc(start, es + [Choose(|x.waits|)] + [Register] + [Park], c, Sleep);
    more, y := es + [Choose(|x.waits|)] + [Register] + [Park] + [Sleep], Do(c, Sleep);
  }

  /** The event comes, and the runtime wait ends. */
  lemma IsWoken(start: World, es: seq<Event>, x: World) returns (more: seq<Event>, y: World)
    requires Inv(start) && Runs(start, es, x) && Inv(x)
    requires x.phase == Asleep && x.waits[x.wait] == Waiting
    ensures Runs(start, more, y) && Inv(y)
    ensures y == x.(phase := Awake, waits := x.waits[x.wait := Satisfied])
  {
    var a := Do(x, Satisfy(x.wait));
    RunsSnoc(start, es, x, Satisfy(x.wait));
    RunsSnoc(start, es + [Satisfy(x.wait)], a, TimeOut);
    more, y := es + [Satisfy(x.wait)] + [TimeOut], Do(a, TimeOut);
  }

  /** The executor reads its satisfied wait and goes on. */
  lemma GoesOn(start: World, es: seq<Event>, x: World) returns (more: seq<Event>, y: World)
    requires Inv(start) && Runs(start, es, x) && Inv(x)
    requires x.phase == Awake && x.status == WaitingExternal && x.waits[x.wait] == Satisfied
    ensures Runs(start, more, y) && Inv(y)
    ensures y == x.(phase := Elsewhere, status := Running, on := None, checks := x.checks + 1)
  {
    var a := Do(x, Recheck);
    RunsSnoc(start, es, x, Recheck);
    RunsSnoc(start, es + [Recheck], a, Consume);
    more, y := es + [Recheck] + [Consume], Do(a, Consume);
  }

  /** A plan of two waits comes to this by itself: the first is satisfied and consumed, and the second is asleep. */
  lemma TwoWaitsMislead(run: RunId, now: int) returns (start: World, es: seq<Event>, x: World)
    requires now >= RESIGNAL_MS
    ensures Starts(start) && Runs(start, es, x) && Misled(x, now)
  {
    start := World(Running, [], None, Elsewhere, run, 0, 0, multiset{});
    assert Runs(start, [], start);
    var to1, a := GoesToSleep(start, [], start);
    var to2, b := IsWoken(start, to1, a);
    var to3, c := GoesOn(start, to2, b);
    es, x := GoesToSleep(start, to3, c);
    assert x.waits[0] == Satisfied && x.waits[x.wait] == Waiting;
  }
}
