/**
 One tick of the resume scanner and one of the reaper over the rows of all outcomes
 (packages/workflow/src/outcome-workflows.ts), with satisfyWaitsForEvent
 (packages/core/src/outcomes/service.ts).
 */
module ResumeScanner {
  import opened Prelude
  import opened WaitPredicates
  import opened OutcomeStore
  import opened Wakeups

  /** An outcome's index among the rows. */
  type OutcomeId = nat

  datatype WaitOf = WaitOf(outcome: OutcomeId, eventType: string, condition: Fields, status: WaitStatus, expiresAt: Option<int>)

  /** waiting_on: the run to signal, when there is one, and when it was signalled. */
  datatype Target = Target(run: Option<RunId>, signaledAt: Option<int>)

  datatype OutcomeRow = OutcomeRow(status: Status, target: Option<Target>, deadline: Option<int>)

  datatype EventRow = EventRow(eventType: string, payload: Fields)

  datatype ScanResult = ScanResult(eventsScanned: nat, waitsSatisfied: nat, outcomesSignaled: nat, resignals: nat)

  datatype ReapResult = ReapResult(deadlineFailed: nat, waitsExpired: nat, blockedAfterExpiry: nat)

  type Signal = (RunId, OutcomeId)

  // ---------------------------------------------------------------- the scan, as values

  /** The event wakes this wait. */
  predicate Answers(w: WaitOf, e: EventRow, now: int) {
    && w.status == Waiting && w.eventType == e.eventType && IsWaitEventType(e.eventType)
    && (w.expiresAt.None? || w.expiresAt.value > now)
    && ParsePredicate(Some(w.condition)).Some?
    && MatchesEvent(ParsePredicate(Some(w.condition)).value, e.eventType, e.payload)
  }

  predicate Answered(w: WaitOf, es: seq<EventRow>, now: int) { exists k :: 0 <= k < |es| && Answers(w, es[k], now) }

  /** A wait after a scan: satisfied if any event of the window answers it, and otherwise untouched. */
  function Woken(w: WaitOf, es: seq<EventRow>, now: int): WaitOf {
    if Answered(w, es, now) then w.(status := Satisfied) else w
  }

  /** The event says it under this name. */
  predicate Says(e: EventRow, name: string, value: Json) { name in e.payload && e.payload[name] == value }

  /** What an event must be to be the one a stored condition asks for, condition by condition. */
  predicate AsksFor(p: Fields, e: EventRow)
    requires IsStored(p)
  {
    || (p["type"] == Text("arrival") && p["source"] == Text("gmail")
        && e.eventType == GMAIL && Says(e, "fromDomain", p["fromDomain"]))
    || (p["type"] == Text("arrival") && p["source"] == Text("calendar")
        && e.eventType in {CALENDAR_CREATED, CALENDAR_UPDATED})
    || (p["type"] == Text("state_change") && e.eventType == STATUS_CHANGED
        && ("toStatus" in p ==> Says(e, "toStatus", p["toStatus"]))
        && ("outcomeRef" in p ==> Says(e, "ref", p["outcomeRef"])))
  }

  /** A stored condition: canonical, and of a kind that events answer. */
  predicate IsStored(p: Fields) {
    && ParsePredicate(Some(p)) == Some(p)
    && "type" in p && p["type"] in {Text("arrival"), Text("state_change")}
    && (p["type"] == Text("arrival") ==> "source" in p && (p["source"] == Text("gmail") ==> "fromDomain" in p))
  }

  /** Every condition that createOutcomeWait stores is one. */
  lemma AdmittedIsStored(eventType: string, raw: Option<Fields>)
    requires AdmitWait(eventType, raw).Ok?
    ensures IsStored(AdmitWait(eventType, raw).value)
  {
    ParseIsIdempotent(raw);
  }

  /**
   When a scan of a window satisfies a wait: when it waits, has not expired, and some
   event of its own type says what the condition asks for. So a wait for mail is only
   satisfied by mail from its domain.
   */
  lemma SatisfiedExactly(w: WaitOf, es: seq<EventRow>, now: int)
    requires IsStored(w.condition) && IsWaitEventType(w.eventType)
    ensures Woken(w, es, now) != w <==>
      && w.status == Waiting && (w.expiresAt.Some? ==> now < w.expiresAt.value)
      && exists k :: 0 <= k < |es| && es[k].eventType == w.eventType && AsksFor(w.condition, es[k])
    ensures Woken(w, es, now) != w ==> Woken(w, es, now) == w.(status := Satisfied)
    ensures Woken(w, es, now) != w && w.eventType == GMAIL ==>
      exists k :: 0 <= k < |es| && es[k].eventType == GMAIL && Says(es[k], "fromDomain", w.condition["fromDomain"])
  {
    assert forall k :: 0 <= k < |es| && w.status == Waiting && (w.expiresAt.Some? ==> now < w.expiresAt.value) ==>
      (Answers(w, es[k], now) <==> es[k].eventType == w.eventType && AsksFor(w.condition, es[k]));
  }

  predicate IsParked(o: OutcomeRow) { o.status == WaitingExternal && o.target.Some? && o.target.value.run.Some? }

  predicate Signals(w: WaitOf, os: seq<OutcomeRow>, now: int)
    requires w.outcome < |os|
  {
    w.status == Satisfied && IsParked(os[w.outcome]) && DueAt(os[w.outcome].target.value.signaledAt, now)
  }

  predicate ForeignKeys(ws: seq<WaitOf>, os: seq<OutcomeRow>) { forall i :: 0 <= i < |ws| ==> ws[i].outcome < |os| }

  /** The signal of a parked outcome goes to the run that waiting_on names. */
  function SignalTo(o: OutcomeRow, id: OutcomeId): Signal
    requires o.target.Some? && o.target.value.run.Some?
  {
    (o.target.value.run.value, id)
  }

  /** The signals of one scan, one for each satisfied wait of a due outcome. */
  function SignalsOf(ws: seq<WaitOf>, os: seq<OutcomeRow>, now: int): seq<Signal>
    requires ForeignKeys(ws, os)
  {
    if ws == [] then []
    else
      var w := ws[|ws| - 1];
      SignalsOf(ws[..|ws| - 1], os, now) + if Signals(w, os, now) then [SignalTo(os[w.outcome], w.outcome)] else []
  }

  predicate SignalledIn(ws: seq<WaitOf>, os: seq<OutcomeRow>, o: OutcomeId, now: int)
    requires ForeignKeys(ws, os)
  {
    exists i :: 0 <= i < |ws| && ws[i].outcome == o && Signals(ws[i], os, now)
  }

  function Stamp(o: OutcomeRow, now: int): OutcomeRow
    requires o.target.Some?
  {
    o.(target := Some(o.target.value.(signaledAt := Some(now))))
  }

  /** An outcome after the scan: stamped if it was signalled. */
  function Stamped(ws: seq<WaitOf>, os: seq<OutcomeRow>, o: OutcomeId, now: int): OutcomeRow
    requires ForeignKeys(ws, os) && o < |os|
  {
    if SignalledIn(ws, os, o, now) then Stamp(os[o], now) else os[o]
  }

  function StampedAll(ws: seq<WaitOf>, os: seq<OutcomeRow>, now: int): (r: seq<OutcomeRow>)
    requires ForeignKeys(ws, os)
    ensures |r| == |os|
  {
    seq(|os|, o requires 0 <= o < |os| => Stamped(ws, os, o, now))
  }

  /** Every signal goes to the run that waiting_on names, of an outcome with a satisfied wait; and none is left out. */
  lemma {:induction false} SignalledExactly(ws: seq<WaitOf>, os: seq<OutcomeRow>, now: int, o: OutcomeId)
    requires ForeignKeys(ws, os) && o < |os|
    ensures SignalledIn(ws, os, o, now) ==> (os[o].target.value.run.value, o) in SignalsOf(ws, os, now)
    ensures forall s | s in SignalsOf(ws, os, now) && s.1 == o ::
      SignalledIn(ws, os, o, now) && s.0 == os[o].target.value.run.value
  {
    if ws != [] {
      var n := |ws| - 1;
      SignalledExactly(ws[..n], os, now, o);
      assert SignalledIn(ws[..n], os, o, now) ==> SignalledIn(ws, os, o, now) by {
        if SignalledIn(ws[..n], os, o, now) {
          var i :| 0 <= i < n && ws[..n][i].outcome == o && Signals(ws[..n][i], os, now);
          assert ws[i].outcome == o;
        }
      }
      assert SignalledIn(ws, os, o, now) ==> SignalledIn(ws[..n], os, o, now) || (ws[n].outcome == o && Signals(ws[n], os, now)) by {
        if SignalledIn(ws, os, o, now) {
          var i :| 0 <= i < |ws| && ws[i].outcome == o && Signals(ws[i], os, now);
          assert i < n ==> ws[..n][i] == ws[i];
        }
      }
    }
  }

  /**
   Which outcomes a scan signals, from the rows alone: those waiting externally, whose
   waiting_on names a run and was not signalled within the last five minutes (one never
   signalled counts from the epoch), and of which some wait is satisfied.
   */
  lemma SignalledFromRows(ws: seq<WaitOf>, os: seq<OutcomeRow>, now: int, o: OutcomeId)
    requires ForeignKeys(ws, os) && o < |os|
    ensures SignalledIn(ws, os, o, now) <==>
      && os[o].status == WaitingExternal && os[o].target.Some? && os[o].target.value.run.Some?
      && now >= 300_000 + (if os[o].target.value.signaledAt.Some? then os[o].target.value.signaledAt.value else 0)
      && exists i :: 0 <= i < |ws| && ws[i].outcome == o && ws[i].status == Satisfied
  {
    if i :| 0 <= i < |ws| && ws[i].outcome == o && ws[i].status == Satisfied {
      assert Signals(ws[i], os, now) ==> SignalledIn(ws, os, o, now);
    }
  }

  /** Scanning again at the same instant signals nobody. */
  lemma {:induction false} RescanSignalsNothing(ws: seq<WaitOf>, os: seq<OutcomeRow>, now: int, all: seq<WaitOf>)
    requires ForeignKeys(all, os) && ws <= all
    ensures ForeignKeys(ws, StampedAll(all, os, now)) && SignalsOf(ws, StampedAll(all, os, now), now) == []
  {
    if ws != [] {
      var n := |ws| - 1;
      RescanSignalsNothing(ws[..n], os, now, all);
      var w := ws[n];
      assert all[n] == w;
      assert Signals(all[n], os, now) ==> SignalledIn(all, os, w.outcome, now);
    }
  }

  // ---------------------------------------------------------------- the reaper, as values

  predicate Overdue(o: OutcomeRow, now: int) { o.deadline.Some? && o.deadline.value < now && !Terminal(o.status) }

  function AfterDeadline(o: OutcomeRow, now: int): OutcomeRow {
    if Overdue(o, now) then o.(status := Failing, target := None) else o
  }

  predicate ExpiresNow(w: WaitOf, now: int) { w.status == Waiting && w.expiresAt.Some? && w.expiresAt.value <= now }

  function AfterExpiry(w: WaitOf, now: int): WaitOf { if ExpiresNow(w, now) then w.(status := Expired) else w }

  predicate Touched(ws: seq<WaitOf>, o: OutcomeId, now: int) {
    exists i :: 0 <= i < |ws| && ws[i].outcome == o && ExpiresNow(ws[i], now)
  }

  predicate StillWaits(ws: seq<WaitOf>, o: OutcomeId, now: int) {
    exists i :: 0 <= i < |ws| && ws[i].outcome == o && ws[i].status == Waiting && !ExpiresNow(ws[i], now)
  }

  /** An outcome after a tick of the reaper. */
  function Reaped(ws: seq<WaitOf>, row: OutcomeRow, o: OutcomeId, now: int): OutcomeRow {
    var late := AfterDeadline(row, now);
    if late.status == WaitingExternal && Touched(ws, o, now) && !StillWaits(ws, o, now)
    then late.(status := Blocked, target := None) else late
  }

  function ExpiredAll(ws: seq<WaitOf>, now: int): (r: seq<WaitOf>)
    ensures |r| == |ws|
  {
    seq(|ws|, i requires 0 <= i < |ws| => AfterExpiry(ws[i], now))
  }

  function ReapedAll(ws: seq<WaitOf>, os: seq<OutcomeRow>, now: int): (r: seq<OutcomeRow>)
    ensures |r| == |os|
  {
    seq(|os|, o requires 0 <= o < |os| => Reaped(ws, os[o], o, now))
  }

  /** A due scan would signal this outcome. */
  predicate WouldSignal(ws: seq<WaitOf>, os: seq<OutcomeRow>, o: OutcomeId)
    requires o < |os|
  {
    IsParked(os[o]) && exists i :: 0 <= i < |ws| && ws[i].outcome == o && ws[i].status == Satisfied
  }

  /** Overdue, and in a status from which the guard lets nothing fail. */
  predicate Stuck(o: OutcomeRow, now: int) { Overdue(o, now) && o.status == Proposed }

  /** The first outcome at which the tick throws. */
  function FirstStuck(os: seq<OutcomeRow>, now: int): (r: Option<nat>)
    ensures r.Some? ==> r.value < |os| && Stuck(os[r.value], now) && forall o :: 0 <= o < r.value ==> !Stuck(os[o], now)
    ensures r.None? ==> forall o :: 0 <= o < |os| ==> !Stuck(os[o], now)
  {
    if os == [] then None
    else if FirstStuck(os[..|os| - 1], now).Some? then FirstStuck(os[..|os| - 1], now)
    else if Stuck(os[|os| - 1], now) then Some(|os| - 1) else None
  }

  /** The outcomes after the deadlines of the first n. */
  function FailedUntil(os: seq<OutcomeRow>, n: nat, now: int): (r: seq<OutcomeRow>)
    ensures |r| == |os|
  {
    seq(|os|, o requires 0 <= o < |os| => if o < n then AfterDeadline(os[o], now) else os[o])
  }

  /** The outcomes after a tick: it ends at the first stuck one, or goes through. */
  function TickOutcomes(ws: seq<WaitOf>, os: seq<OutcomeRow>, now: int): (r: seq<OutcomeRow>)
    ensures |r| == |os|
  {
    if FirstStuck(os, now).Some? then FailedUntil(os, FirstStuck(os, now).value, now) else ReapedAll(ws, os, now)
  }

  function TickWaits(ws: seq<WaitOf>, os: seq<OutcomeRow>, now: int): (r: seq<WaitOf>)
    ensures |r| == |ws|
  {
    if FirstStuck(os, now).Some? then ws else ExpiredAll(ws, now)
  }

  /** Which due wake-ups a tick leaves alone. */
  predicate Spared(ws: seq<WaitOf>, os: seq<OutcomeRow>, o: OutcomeId, now: int)
    requires o < |os|
  {
    var stuck := FirstStuck(os, now);
    if stuck.Some? then !(Overdue(os[o], now) && o < stuck.value)
    else !Overdue(os[o], now) && (!Touched(ws, o, now) || StillWaits(ws, o, now))
  }

  /**
   The reaper asks which waits expire and which still wait, never which are satisfied. An
   outcome whose wake-up is due keeps it over a tick exactly when its deadline has not
   passed and either nothing of it expires or something still waits; a tick that throws
   at an overdue proposed outcome takes it only from overdue outcomes before that one.
   Otherwise it is moved away and no later scan signals it.
   */
  lemma WakeupSurvivesReaperExactly(ws: seq<WaitOf>, os: seq<OutcomeRow>, o: OutcomeId, now: int)
    requires ForeignKeys(ws, os) && o < |os| && WouldSignal(ws, os, o)
    ensures WouldSignal(TickWaits(ws, os, now), TickOutcomes(ws, os, now), o) <==> Spared(ws, os, o, now)
    ensures !Spared(ws, os, o, now) ==>
      forall later :: !SignalledIn(TickWaits(ws, os, now), TickOutcomes(ws, os, now), o, later)
  {
    var i :| 0 <= i < |ws| && ws[i].outcome == o && ws[i].status == Satisfied;
    assert TickWaits(ws, os, now)[i] == ws[i];
  }

  /** The deadline has passed over an outcome that is still open. */
  predicate IsLate(o: OutcomeRow, now: int) {
    o.deadline.Some? && now > o.deadline.value && o.status !in {Completed, Failing, Cancelled}
  }

  /** A wait of the outcome that has run out, and one that has not. */
  predicate RunsOut(ws: seq<WaitOf>, i: nat, o: OutcomeId, now: int)
    requires i < |ws|
  {
    ws[i].outcome == o && ws[i].status == Waiting && ws[i].expiresAt.Some? && now >= ws[i].expiresAt.value
  }

  predicate RunsOn(ws: seq<WaitOf>, i: nat, o: OutcomeId, now: int)
    requires i < |ws|
  {
    ws[i].outcome == o && ws[i].status == Waiting && (ws[i].expiresAt.Some? ==> now < ws[i].expiresAt.value)
  }

  predicate LosesItsLastWait(ws: seq<WaitOf>, o: OutcomeId, now: int) {
    && (exists i: nat :: i < |ws| && RunsOut(ws, i, o, now))
    && forall i: nat :: i < |ws| ==> !RunsOn(ws, i, o, now)
  }

  /**
   What a tick of the reaper does to an outcome, from the rows alone. It throws if a late
   outcome is still proposed; otherwise late ones fail, and one that waits externally and
   loses its last wait is blocked; both lose what they waited on.
   */
  lemma {:induction false} ReapedExactly(ws: seq<WaitOf>, os: seq<OutcomeRow>, o: OutcomeId, now: int)
    requires o < |os|
    ensures FirstStuck(os, now).Some? <==> exists k: nat :: k < |os| && IsLate(os[k], now) && os[k].status == Proposed
    ensures FirstStuck(os, now).None? ==>
      TickOutcomes(ws, os, now)[o] == (
        if IsLate(os[o], now) then os[o].(status := Failing, target := None)
        else if os[o].status == WaitingExternal && LosesItsLastWait(ws, o, now) then os[o].(status := Blocked, target := None)
        else os[o])
  {
    assert forall k: nat :: k < |os| ==> (Overdue(os[k], now) <==> IsLate(os[k], now));
    assert forall i: nat :: i < |ws| ==> (RunsOut(ws, i, o, now) <==> ws[i].outcome == o && ExpiresNow(ws[i], now));
    assert forall i: nat :: i < |ws| ==>
      (RunsOn(ws, i, o, now) <==> ws[i].outcome == o && ws[i].status == Waiting && !ExpiresNow(ws[i], now));
    assert Touched(ws, o, now) <==> exists i: nat :: i < |ws| && RunsOut(ws, i, o, now);
    assert StillWaits(ws, o, now) <==> exists i: nat :: i < |ws| && RunsOn(ws, i, o, now);
  }

  /** And to a wait: a waiting one that has run out is expired, if the tick does not throw. */
  lemma {:induction false} ExpiredExactly(ws: seq<WaitOf>, os: seq<OutcomeRow>, i: nat, now: int)
    requires i < |ws|
    ensures TickWaits(ws, os, now)[i] ==
      if FirstStuck(os, now).None? && RunsOut(ws, i, ws[i].outcome, now) then ws[i].(status := Expired) else ws[i]
  {
  }

  /** The outcomes counted as blocked are those that the tick blocks. */
  lemma {:induction false} BlockedExactly(ws: seq<WaitOf>, os: seq<OutcomeRow>, o: OutcomeId, now: int)
    requires o < |os| && FirstStuck(os, now).None?
    ensures o in BlockedOnes(ws, os, now) <==>
      !IsLate(os[o], now) && os[o].status == WaitingExternal && LosesItsLastWait(ws, o, now)
    ensures o in OverdueOnes(os, now) <==> IsLate(os[o], now)
  {
    ReapedExactly(ws, os, o, now);
  }

  function BlockedOnes(ws: seq<WaitOf>, os: seq<OutcomeRow>, now: int): set<nat> {
    set o: nat | o < |os| && Reaped(ws, os[o], o, now) != AfterDeadline(os[o], now)
  }

  // ---------------------------------------------------------------- the tables

  class Tables {
    var waits: seq<WaitOf>
    var outcomes: seq<OutcomeRow>
    var sent: seq<Signal>

    ghost predicate Valid()
      reads this
    {
      ForeignKeys(waits, outcomes)
    }

    /** satisfyWaitsForEvent: each match is one compare-and-set. */
    method SatisfyWaitsForEvent(e: EventRow, now: int) returns (satisfied: seq<nat>)
      modifies `waits
      ensures |waits| == |old(waits)|
      ensures forall i :: 0 <= i < |waits| ==> waits[i] == Woken(old(waits)[i], [e], now)
      ensures forall i: nat :: i in satisfied <==> i < |waits| && Answers(old(waits)[i], e, now)
      ensures forall i, j :: 0 <= i < j < |satisfied| ==> satisfied[i] < satisfied[j]
    {
      satisfied := [];
      if !IsWaitEventType(e.eventType) { return; }
      for k := 0 to |waits|
        invariant |waits| == |old(waits)|
        invariant forall i :: 0 <= i < |waits| ==>
          waits[i] == if i < k then Woken(old(waits)[i], [e], now) else old(waits)[i]
        invariant forall i: nat :: i in satisfied <==> i < k && Answers(old(waits)[i], e, now)
        invariant forall i :: 0 <= i < |satisfied| ==> satisfied[i] < k
        invariant forall i, j :: 0 <= i < j < |satisfied| ==> satisfied[i] < satisfied[j]
      {
        assert Answered(waits[k], [e], now) <==> Answers(waits[k], [e][0], now);
        var w := waits[k];
        if w.status == Waiting && w.eventType == e.eventType && (w.expiresAt.None? || w.expiresAt.value > now) {
          var p := ParsePredicate(Some(w.condition));
          if p.Some? && MatchesEvent(p.value, e.eventType, e.payload) {
            waits := waits[k := w.(status := Satisfied)];
            satisfied := satisfied + [k];
          }
        }
      }
    }

    /** The window's events one after the other; counts the waits satisfied and collects their outcomes. */
    method SatisfyAll(events: seq<EventRow>, now: int) returns (count: nat, woken: set<OutcomeId>)
      modifies `waits
      ensures |waits| == |old(waits)|
      ensures forall i :: 0 <= i < |waits| ==> waits[i] == Woken(old(waits)[i], events, now)
      ensures count == |ChangedSince(old(waits), waits)|
      ensures woken == OutcomesOf(waits, ChangedSince(old(waits), waits))
    {
      ghost var before := waits;
      count, woken := 0, {};
      for k := 0 to |events|
        invariant |waits| == |before|
        invariant forall i :: 0 <= i < |waits| ==> waits[i] == Woken(before[i], events[..k], now)
        invariant count == |ChangedSince(before, waits)|
        invariant woken == OutcomesOf(waits, ChangedSince(before, waits))
      {
        ghost var here := waits;
        var satisfied := SatisfyWaitsForEvent(events[k], now);
        WokenOneMore(before, here, waits, events, k, now);
        ChangedOneMore(before, here, waits, events, k, now, satisfied);
        count := count + |satisfied|;
        woken := woken + set i | i in satisfied :: waits[i].outcome;
      }
      assert events[..|events|] == events;
    }

    /** The parked set as selected: signal and stamp each row that is due. */
    method SignalParked(now: int, woken: set<OutcomeId>) returns (signaled: nat, resignals: nat)
      requires Valid()
      modifies `outcomes, `sent
      ensures Valid() && ForeignKeys(waits, old(outcomes))
      ensures outcomes == StampedAll(waits, old(outcomes), now)
      ensures sent == old(sent) + SignalsOf(waits, old(outcomes), now)
      ensures signaled == |SignalsOf(waits, old(outcomes), now)|
      ensures resignals == CountOthers(SignalsOf(waits, old(outcomes), now), woken)
    {
      var parked := outcomes;
      signaled, resignals := 0, 0;
      for i := 0 to |waits|
        invariant ForeignKeys(waits, parked) && outcomes == StampedAll(waits[..i], parked, now)
        invariant sent == old(sent) + SignalsOf(waits[..i], parked, now)
        invariant signaled == |SignalsOf(waits[..i], parked, now)|
        invariant resignals == CountOthers(SignalsOf(waits[..i], parked, now), woken)
      {
        var w := waits[i];
        SignalsOneMore(waits, parked, i, now);
        StampedOneMore(waits, parked, i, now);
        if Signals(w, parked, now) {
          CountOthersOneMore(SignalsOf(waits[..i], parked, now), SignalTo(parked[w.outcome], w.outcome), woken);
          Send(SignalTo(parked[w.outcome], w.outcome), now);
          signaled := signaled + 1;
          if w.outcome !in woken { resignals := resignals + 1; }
        }
      }
      assert waits[..|waits|] == waits;
    }

    /** One signal, and the stamp on its outcome. */
    method Send(signal: Signal, now: int)
      requires signal.1 < |outcomes| && outcomes[signal.1].target.Some?
      modifies `outcomes, `sent
      ensures sent == old(sent) + [signal]
      ensures outcomes == old(outcomes)[signal.1 := Stamp(old(outcomes)[signal.1], now)]
    {
      sent := sent + [signal];
      outcomes := outcomes[signal.1 := Stamp(outcomes[signal.1], now)];
    }

    /** runOutcomeResumeScan: satisfy what the window answers, then signal what is parked on a satisfied wait and due. */
    method ResumeScan(events: seq<EventRow>, now: int) returns (r: ScanResult)
      requires Valid()
      modifies this
      ensures Valid() && |waits| == |old(waits)| && ForeignKeys(waits, old(outcomes))
      ensures forall i :: 0 <= i < |waits| ==> waits[i] == Woken(old(waits)[i], events, now)
      ensures outcomes == StampedAll(waits, old(outcomes), now)
      ensures sent == old(sent) + SignalsOf(waits, old(outcomes), now)
      ensures r.eventsScanned == |events| && r.waitsSatisfied == |ChangedSince(old(waits), waits)|
      ensures r.outcomesSignaled == |SignalsOf(waits, old(outcomes), now)|
      ensures r.resignals ==
        CountOthers(SignalsOf(waits, old(outcomes), now), OutcomesOf(waits, ChangedSince(old(waits), waits)))
    {
      var satisfied, woken := SatisfyAll(events, now);
      var signaled, resignals := SignalParked(now, woken);
      r := ScanResult(|events|, satisfied, signaled, resignals);
    }

    /** The deadlines; a proposed outcome cannot fail, and the guard's refusal ends the tick. */
    method FailOverdue(now: int) returns (r: Result<nat>)
      modifies `outcomes
      ensures |outcomes| == |old(outcomes)|
      ensures r.Thrown? <==> FirstStuck(old(outcomes), now).Some?
      ensures r.Thrown? ==> outcomes == FailedUntil(old(outcomes), FirstStuck(old(outcomes), now).value, now)
      ensures r.Ok? ==> forall o :: 0 <= o < |outcomes| ==> outcomes[o] == AfterDeadline(old(outcomes)[o], now)
      ensures r.Ok? ==> r.value == |OverdueOnes(old(outcomes), now)|
    {
      var overdue := outcomes;
      var failed := 0;
      for o := 0 to |overdue|
        invariant |outcomes| == |overdue| && failed == |OverdueOnes(overdue[..o], now)|
        invariant forall k :: 0 <= k < |overdue| ==> outcomes[k] == if k < o then AfterDeadline(overdue[k], now) else overdue[k]
        invariant forall k :: 0 <= k < o ==> !Stuck(overdue[k], now)
      {
        OverdueOneMore(overdue, o, now);
        if Overdue(overdue[o], now) {
          if !Edge(outcomes[o].status, Failing) {
            assert Stuck(overdue[o], now) && FirstStuck(overdue, now) == Some(o);
            return Thrown;
          }
          outcomes := outcomes[o := outcomes[o].(status := Failing, target := None)];
          failed := failed + 1;
        }
      }
      assert overdue[..|overdue|] == overdue;
      return Ok(failed);
    }

    /** One statement expires the waits; the outcomes it returns are visited once each. */
    method ExpireWaits(now: int) returns (expired: nat, touched: set<OutcomeId>)
      requires Valid()
      modifies `waits
      ensures Valid() && waits == ExpiredAll(old(waits), now)
      ensures expired == |ChangedSince(old(waits), waits)|
      ensures touched == set o: nat | o < |outcomes| && Touched(old(waits), o, now)
    {
      var before := waits;
      waits := ExpiredAll(before, now);
      expired := |set i: nat | i < |before| && before[i] != waits[i]|;
      touched := set i | 0 <= i < |before| && ExpiresNow(before[i], now) :: before[i].outcome;
    }

    method BlockExpired(touched: set<OutcomeId>) returns (blocked: nat)
      modifies `outcomes
      ensures |outcomes| == |old(outcomes)|
      ensures forall o :: 0 <= o < |outcomes| ==> outcomes[o] == AfterBlock(waits, old(outcomes)[o], o, touched)
      ensures blocked == |ChangedRows(old(outcomes), outcomes)|
    {
      var before := outcomes;
      blocked := 0;
      for o := 0 to |before|
        invariant |outcomes| == |before| && blocked == |ChangedRows(before, outcomes)|
        invariant forall k :: 0 <= k < o ==> outcomes[k] == AfterBlock(waits, before[k], k, touched)
        invariant forall k :: o <= k < |before| ==> outcomes[k] == before[k]
      {
        if Blocks(waits, before[o], o, touched) {
          ghost var here := outcomes;
          outcomes := outcomes[o := outcomes[o].(status := Blocked, target := None)];
          assert ChangedRows(before, outcomes) == ChangedRows(before, here) + {o};
          blocked := blocked + 1;
        }
      }
    }

    /** runOutcomeReapTick */
    method ReapTick(now: int) returns (r: Result<ReapResult>)
      requires Valid()
      modifies this
      ensures Valid() && sent == old(sent)
      ensures r.Thrown? <==> FirstStuck(old(outcomes), now).Some?
      ensures waits == TickWaits(old(waits), old(outcomes), now) && outcomes == TickOutcomes(old(waits), old(outcomes), now)
      ensures r.Ok? ==> r.value.deadlineFailed == |OverdueOnes(old(outcomes), now)|
      ensures r.Ok? ==> r.value.waitsExpired == |ChangedSince(old(waits), waits)|
      ensures r.Ok? ==> r.value.blockedAfterExpiry == |BlockedOnes(old(waits), old(outcomes), now)|
    {
      ghost var was := waits;
      var failed := FailOverdue(now);
      if failed.Thrown? { return Thrown; }
      var expired, touched := ExpireWaits(now);
      forall o | 0 <= o < |outcomes|
        ensures StillWaitsNow(waits, o) <==> StillWaits(was, o, now)
      {
        StillWaitingSame(was, o, now);
      }
      ghost var late := outcomes;
      var blocked := BlockExpired(touched);
      assert outcomes == ReapedAll(was, old(outcomes), now);
      assert ChangedRows(late, outcomes) == BlockedOnes(was, old(outcomes), now);
      return Ok(ReapResult(failed.value, expired, blocked));
    }
  }

  function OverdueOnes(os: seq<OutcomeRow>, now: int): set<nat> { set o: nat | o < |os| && Overdue(os[o], now) }

  lemma OverdueOneMore(os: seq<OutcomeRow>, o: nat, now: int)
    requires o < |os|
    ensures OverdueOnes(os[..o + 1], now) == if Overdue(os[o], now) then OverdueOnes(os[..o], now) + {o} else OverdueOnes(os[..o], now)
    ensures o !in OverdueOnes(os[..o], now)
  {
  }

  predicate StillWaitsNow(ws: seq<WaitOf>, o: OutcomeId) {
    exists i :: 0 <= i < |ws| && ws[i].outcome == o && ws[i].status == Waiting
  }

  lemma StillWaitingSame(ws: seq<WaitOf>, o: OutcomeId, now: int)
    ensures StillWaitsNow(ExpiredAll(ws, now), o) <==> StillWaits(ws, o, now)
  {
    var after := ExpiredAll(ws, now);
    if StillWaits(ws, o, now) {
      var i :| 0 <= i < |ws| && ws[i].outcome == o && ws[i].status == Waiting && !ExpiresNow(ws[i], now);
      assert after[i] == ws[i];
    }
  }

  predicate Blocks(ws: seq<WaitOf>, row: OutcomeRow, o: OutcomeId, touched: set<OutcomeId>) {
    o in touched && row.status == WaitingExternal && !StillWaitsNow(ws, o)
  }

  function AfterBlock(ws: seq<WaitOf>, row: OutcomeRow, o: OutcomeId, touched: set<OutcomeId>): OutcomeRow {
    if Blocks(ws, row, o, touched) then row.(status := Blocked, target := None) else row
  }

  function ChangedRows(a: seq<OutcomeRow>, b: seq<OutcomeRow>): set<nat>
    requires |a| == |b|
  {
    set o: nat | o < |a| && a[o] != b[o]
  }

  /** How many signals go to outcomes outside a set. */
  function CountOthers(signals: seq<Signal>, woken: set<OutcomeId>): nat {
    if signals == [] then 0
    else CountOthers(signals[..|signals| - 1], woken) + if signals[|signals| - 1].1 in woken then 0 else 1
  }

  /** Signals are resignals but for those to outcomes woken in this scan. */
  lemma {:induction false} ResignalsExactly(signals: seq<Signal>, woken: set<OutcomeId>)
    ensures CountOthers(signals, woken) == |set i | 0 <= i < |signals| && signals[i].1 !in woken|
  {
    if signals != [] {
      var n := |signals| - 1;
      ResignalsExactly(signals[..n], woken);
      var before := set i | 0 <= i < n && signals[..n][i].1 !in woken;
      var after := set i | 0 <= i < |signals| && signals[i].1 !in woken;
      assert after == if signals[n].1 in woken then before else before + {n};
    }
  }

  lemma {:induction false} CountOthersOneMore(signals: seq<Signal>, s: Signal, woken: set<OutcomeId>)
    ensures CountOthers(signals + [s], woken) == CountOthers(signals, woken) + if s.1 in woken then 0 else 1
  {
    assert (signals + [s])[..|signals|] == signals;
  }

  lemma {:induction false} SignalsOneMore(ws: seq<WaitOf>, os: seq<OutcomeRow>, i: nat, now: int)
    requires ForeignKeys(ws, os) && i < |ws|
    ensures SignalsOf(ws[..i + 1], os, now) ==
      if Signals(ws[i], os, now) then SignalsOf(ws[..i], os, now) + [SignalTo(os[ws[i].outcome], ws[i].outcome)]
      else SignalsOf(ws[..i], os, now)
  {
    assert ws[..i + 1][..i] == ws[..i] && ws[..i + 1][i] == ws[i];
  }

  lemma SignalledOneMore(ws: seq<WaitOf>, os: seq<OutcomeRow>, i: nat, now: int, o: OutcomeId)
    requires ForeignKeys(ws, os) && i < |ws|
    ensures SignalledIn(ws[..i + 1], os, o, now) <==>
      SignalledIn(ws[..i], os, o, now) || (ws[i].outcome == o && Signals(ws[i], os, now))
  {
    var a, b := ws[..i + 1], ws[..i];
    assert a[i] == ws[i] && forall j :: 0 <= j < i ==> a[j] == b[j];
  }

  lemma StampedOneMore(ws: seq<WaitOf>, os: seq<OutcomeRow>, i: nat, now: int)
    requires ForeignKeys(ws, os) && i < |ws|
    ensures var before, after, o := StampedAll(ws[..i], os, now), StampedAll(ws[..i + 1], os, now), ws[i].outcome;
      if Signals(ws[i], os, now) then
        before[o].target.Some? && after == before[o := Stamp(before[o], now)]
      else after == before
  {
    forall o | 0 <= o < |os|
      ensures SignalledIn(ws[..i + 1], os, o, now) <==>
        SignalledIn(ws[..i], os, o, now) || (ws[i].outcome == o && Signals(ws[i], os, now))
    {
      SignalledOneMore(ws, os, i, now, o);
    }
  }

  function ChangedSince(a: seq<WaitOf>, b: seq<WaitOf>): set<nat>
    requires |a| == |b|
  {
    set i: nat | i < |a| && a[i] != b[i]
  }

  function OutcomesOf(ws: seq<WaitOf>, indices: set<nat>): set<OutcomeId>
    requires forall i :: i in indices ==> i < |ws|
  {
    set i | i in indices :: ws[i].outcome
  }

  lemma {:induction false} CountOf(s: seq<nat>, members: set<nat>)
    requires forall i, j :: 0 <= i < j < |s| ==> s[i] < s[j]
    requires forall i: nat :: i in s <==> i in members
    ensures |s| == |members|
  {
    if s != [] {
      var n := |s| - 1;
      forall i: nat
        ensures i in s[..n] <==> i in members - {s[n]}
      {
        if i in s[..n] {
          var j :| 0 <= j < n && s[j] == i;
        }
      }
      CountOf(s[..n], members - {s[n]});
      assert s[n] in members;
    }
  }

  /** One more event of the window. */
  lemma WokenOneMore(before: seq<WaitOf>, here: seq<WaitOf>, there: seq<WaitOf>, events: seq<EventRow>, k: nat, now: int)
    requires k < |events| && |before| == |here| == |there|
    requires forall i :: 0 <= i < |here| ==> here[i] == Woken(before[i], events[..k], now)
    requires forall i :: 0 <= i < |there| ==> there[i] == Woken(here[i], [events[k]], now)
    ensures forall i :: 0 <= i < |there| ==> there[i] == Woken(before[i], events[..k + 1], now)
  {
    forall i | 0 <= i < |there|
      ensures there[i] == Woken(before[i], events[..k + 1], now)
    {
      AnsweredOneMore(before[i], events, k, now);
      assert Answered(here[i], [events[k]], now) <==> Answers(here[i], [events[k]][0], now);
    }
  }

  /** What this event changed, no earlier one had. */
  lemma ChangedOneMore(before: seq<WaitOf>, here: seq<WaitOf>, there: seq<WaitOf>, events: seq<EventRow>, k: nat, now: int,
                       satisfied: seq<nat>)
    requires k < |events| && |before| == |here| == |there|
    requires forall i :: 0 <= i < |here| ==> here[i] == Woken(before[i], events[..k], now)
    requires forall i :: 0 <= i < |there| ==> there[i] == Woken(here[i], [events[k]], now)
    requires forall i: nat :: i in satisfied <==> i < |here| && Answers(here[i], events[k], now)
    requires forall i, j :: 0 <= i < j < |satisfied| ==> satisfied[i] < satisfied[j]
    ensures |ChangedSince(before, there)| == |ChangedSince(before, here)| + |satisfied|
    ensures OutcomesOf(there, ChangedSince(before, there))
         == OutcomesOf(here, ChangedSince(before, here)) + set i | i in satisfied :: there[i].outcome
  {
    var a, b := ChangedSince(before, here), ChangedSince(here, there);
    forall i: nat
      ensures i in satisfied <==> i in b
    {
      if i < |here| {
        assert Answered(here[i], [events[k]], now) <==> Answers(here[i], [events[k]][0], now);
      }
    }
    CountOf(satisfied, b);
    assert ChangedSince(before, there) == a + b && a !! b;
    assert forall i :: 0 <= i < |here| ==> here[i].outcome == there[i].outcome;
  }

  lemma AnsweredOneMore(w: WaitOf, events: seq<EventRow>, k: nat, now: int)
    requires k < |events|
    ensures Answered(w, events[..k + 1], now) <==> Answered(w, events[..k], now) || Answers(w, events[k], now)
  {
    var a, b := events[..k + 1], events[..k];
    assert a[k] == events[k] && forall j :: 0 <= j < k ==> a[j] == b[j];
  }
}
