/** The outcome executor (packages/workflow/src/outcome-workflows.ts): its bounded loop, its lanes and its replays. */
module OutcomeExecutor {
  import opened Prelude
  import opened Verdicts
  import opened WaitPredicates
  import opened OutcomeStore

  /** The workers policy: a role it names is enabled, with its budget. */
  datatype Policy = Policy(enabled: bool, budgets: map<string, real>)

  datatype Outcome = Outcome(status: Status, completed: bool, iterations: nat)

  /** A lane hands the loop the row it last read, or ends the run. */
  datatype Flow = Onward(seen: Status, plan: seq<Entry>) | Return(status: Status, completed: bool)

  function FirstWait(plan: seq<Entry>): (r: Option<nat>)
    ensures r.Some? ==> r.value < |plan| && plan[r.value].wait.Some?
    ensures r.None? ==> forall i :: 0 <= i < |plan| ==> plan[i].wait.None?
  {
    if plan == [] then None
    else if plan[0].wait.Some? then Some(0)
    else var r := FirstWait(plan[1..]); if r.Some? then Some(r.value + 1) else None
  }

  function FirstAssign(plan: seq<Entry>): (r: Option<nat>)
    ensures r.Some? ==> r.value < |plan| && plan[r.value].assign.Some?
    ensures r.None? ==> forall i :: 0 <= i < |plan| ==> plan[i].assign.None?
  {
    if plan == [] then None
    else if plan[0].assign.Some? then Some(0)
    else var r := FirstAssign(plan[1..]); if r.Some? then Some(r.value + 1) else None
  }

  lemma PlainWithout(plan: seq<Entry>, i: nat)
    requires i < |plan| && PlainPlan(plan)
    ensures PlainPlan(Without(plan, i))
  {
    var r := Without(plan, i);
    forall j | 0 <= j < |r| && r[j].wait.Some? && r[j].wait.value.condition.Some?
      ensures PlainWait(r[j].wait.value.condition.value)
    {
      assert r[j] == plan[if j < i then j else j + 1];
    }
  }

  /**
   What a finished run may report: completed only over criteria that exist and are all
   resolved, and if that is what it last asked for; and the status the row took from
   that last transition, to completed, blocked or failed.
   */
  ghost predicate Honest(o: OutcomeRows, status: Status, completed: bool)
    reads o
  {
    if completed then
      && o.criteria != [] && AllResolved(o.criteria)
      && o.script.turn == Over(Completed) && status == Moved(o.lastRead, o.lastFound, Completed)
    else
      || (o.script.turn == Over(Blocked) && status == Moved(o.lastRead, o.lastFound, Blocked))
      || (o.script.turn == Over(Failing) && status == Moved(o.lastRead, o.lastFound, Failing))
  }

  /** The run found the outcome blocked, with nothing to do about it. */
  predicate LeftBlocked(turn: Turn, seen: Status, flow: Flow) {
    turn.AtLane? && seen == Blocked && flow == Return(Blocked, false)
  }

  /** The completing update found the row as it was read, or completed already. */
  predicate FoundForCompletion(read: Status, found: Status) { found == read || found == Completed || read == Completed }

  ghost predicate Finishes(o: OutcomeRows, flow: Flow)
    reads o
  {
    flow.Return? && Honest(o, flow.status, flow.completed)
  }

  /** A lane's flow: the row the loop goes on with is the stored one. */
  ghost predicate Flows(o: OutcomeRows, flow: Flow)
    reads o
  {
    if flow.Onward? then flow.plan == o.plan && flow.seen == o.status && o.script.turn.AtLane? else Honest(o, flow.status, flow.completed)
  }

  /** No assignment from index `base` on is live, save perhaps the one in hand. */
  predicate SettledBut(assignments: seq<Assignment>, base: nat, id: nat) {
    forall i :: base <= i < |assignments| && i != id ==> !Live(assignments[i])
  }

  // ---------------------------------------------------------------- lanes

  /** Advance to running from the earlier states only. */
  method StartUp(o: OutcomeRows) returns (r: Step<Flow>)
    requires o.Valid()
    modifies o`status, o`criteria, o`waits, o`lastRead, o`lastFound, o`script
    ensures o.Valid()
    ensures r.Done? ==> r.value.Onward? && Flows(o, r.value)
  {
    o.script := Extended(o.script, Begun);
    var row :- o.ReadRow();
    o.script := Extended(o.script, Seen(row.0));
    var _ :- Advance(o, row.0);
    r := Reread(o);
  }

  /** From the status that was read, on to running. */
  method Advance(o: OutcomeRows, read: Status) returns (r: Step<()>)
    requires o.Valid() && o.script.turn == AfterReading(read)
    modifies o`status, o`criteria, o`waits, o`lastRead, o`lastFound, o`script
    ensures o.Valid() && (r.Done? ==> o.script.turn.AtLane?)
  {
    if read in {Proposed, Accepted} {
      var _ :- Ask(o, Queued);
    }
    if read in {Proposed, Accepted, Queued} {
      var _ :- Ask(o, Running);
    }
    return Done(());
  }

  /** A transition, where nothing else about the rows matters. */
  method Ask(o: OutcomeRows, to: Status) returns (r: Step<Status>)
    requires o.Valid() && !AfterAsking(o.script.turn, to).Broken?
    modifies o`status, o`criteria, o`waits, o`lastRead, o`lastFound, o`script
    ensures o.Valid() && o.script.turn == AfterAsking(old(o.script.turn), to)
    ensures r.Done? ==> r.value == o.status == Moved(o.lastRead, o.lastFound, to)
  {
    r := o.Transition(to);
  }

  /** Block the outcome and end the run. */
  method Block(o: OutcomeRows) returns (r: Step<Flow>)
    requires o.Valid() && o.script.turn.GivingUp?
    modifies o`status, o`criteria, o`waits, o`lastRead, o`lastFound, o`script
    ensures o.Valid() && o.script.turn == Over(Blocked)
    ensures r.Done? ==> Finishes(o, r.value)
  {
    var status :- Ask(o, Blocked);
    return Done(Return(status, false));
  }

  /** All criteria resolved: verify and complete; otherwise None. */
  method CriteriaGate(o: OutcomeRows) returns (r: Step<Option<Flow>>)
    requires o.Valid() && o.script.turn.AtLane?
    modifies o`status, o`criteria, o`waits, o`lastRead, o`lastFound, o`script
    ensures o.Valid()
    ensures r.Done? && r.value.None? ==> o.script.turn == old(o.script.turn)
    ensures r.Done? && r.value.Some? ==> Finishes(o, r.value.value)
    ensures r.Done? && r.value.None? ==> o.criteria == [] || !AllResolved(o.criteria)
  {
    var cs :- o.ReadCriteria();
    if cs == [] || exists i :: 0 <= i < |cs| && !Resolved(cs[i]) {
      return Done(None);
    }
    var flow :- Finish(o);
    return Done(Some(flow));
  }

  /** Through verifying to completed. */
  method Finish(o: OutcomeRows) returns (r: Step<Flow>)
    requires o.Valid() && o.script.turn.AtLane? && o.criteria != [] && AllResolved(o.criteria)
    modifies o`status, o`criteria, o`waits, o`lastRead, o`lastFound, o`script
    ensures o.Valid() && (r.Done? ==> Finishes(o, r.value))
  {
    var _ :- o.Transition(Verifying);
    var status :- o.Transition(Completed);
    return Done(Return(status, true));
  }

  predicate IsAnswered(w: WaitRow, spec: WaitSpec) {
    w.status == Satisfied && spec.eventType.Some? && ForSpec(w, spec.eventType.value, spec.condition)
  }

  /**
   The wait lane: find or create the wait, park, and recheck after every wake-up. The
   entry is consumed once a recheck has read `satisfied`, or after the eighth.
   */
  method WaitLane(o: OutcomeRows, plan: seq<Entry>, at: nat)
    returns (r: Step<Flow>, ghost id: nat, ghost resumed: bool, ghost rechecks: nat)
    requires o.Valid() && plan == o.plan && at < |plan| && plan[at].wait.Some? && o.script.turn.AtLane?
    modifies o`status, o`criteria, o`waits, o`lastRead, o`lastFound, o`script, o`plan
    ensures o.Valid()
    ensures r.Done? ==> r.value.Onward? && r.value.plan == Without(plan, at) && Flows(o, r.value)
    ensures o.plan != plan ==> o.plan == Without(plan, at) && (resumed || rechecks == MAX_ITERATIONS)
    ensures resumed ==> id < |o.waits| && IsAnswered(o.waits[id], plan[at].wait.value)
  {
    id, resumed, rechecks := 0, false, 0;
    var spec := plan[at].wait.value;
    if spec.eventType.None? { r := Threw; return; }
    var waitId :- ParkFor(o, plan, spec.eventType.value, spec.condition);
    id := waitId;
    var slept;
    slept, rechecks := SleepAndRecheck(o, waitId);
    if !slept.Done? { r := slept.PropagateFailure(); return; }
    resumed := slept.value;
    r := GoOn(o, plan, at);
  }

  /** The wait's row, and the outcome parked on it. */
  method ParkFor(o: OutcomeRows, ghost plan: seq<Entry>, eventType: string, raw: Option<Fields>) returns (r: Step<nat>)
    requires o.Valid() && plan == o.plan && o.script.turn.AtLane?
    requires exists i :: 0 <= i < |plan| && plan[i].wait.Some? && plan[i].wait.value.condition == raw
    modifies o`status, o`criteria, o`waits, o`lastRead, o`lastFound, o`script
    ensures o.Valid()
    ensures r.Done? ==> r.value < |o.waits| && ForSpec(o.waits[r.value], eventType, raw) && o.script.turn.InWait?
  {
    var waitId :- EnsureWait(o, plan, eventType, raw);
    var _ :- o.Elsewhere();
    var _ :- o.Transition(WaitingExternal);
    return Done(waitId);
  }

  /** Consume the entry and run on. */
  method GoOn(o: OutcomeRows, plan: seq<Entry>, at: nat) returns (r: Step<Flow>)
    requires o.Valid() && plan == o.plan && at < |plan| && (o.script.turn.WaitMet? || o.script.turn.Rechecking?)
    modifies o`status, o`criteria, o`waits, o`lastRead, o`lastFound, o`script, o`plan
    ensures o.Valid() && WaitsKept(old(o.waits), o.waits) && (o.plan == plan || o.plan == Without(plan, at))
    ensures r.Done? ==> r.value.Onward? && r.value.plan == Without(plan, at) && Flows(o, r.value)
  {
    ConsumedEntry(plan, at);
    if o.plain { PlainWithout(plan, at); }
    var _ :- o.WritePlan(Without(plan, at), false);
    var seen :- o.Transition(Running);
    return Done(Onward(seen, Without(plan, at)));
  }

  /** Sleep on the runtime wait and re-read the wait's row, until it is satisfied or eight times. */
  method SleepAndRecheck(o: OutcomeRows, waitId: nat) returns (r: Step<bool>, ghost rechecks: nat)
    requires o.Valid() && waitId < |o.waits| && o.script.turn.InWait?
    modifies o`status, o`criteria, o`waits, o`script
    ensures o.Valid() && WaitsKept(old(o.waits), o.waits)
    ensures r.Done? ==> o.script.turn == if r.value then WaitMet else Rechecking
    ensures r.Done? && r.value ==> o.waits[waitId].status == Satisfied
    ensures r.Done? && !r.value ==> rechecks == MAX_ITERATIONS
  {
    var resumed, checks := false, 0;
    rechecks := 0;
    while !resumed && checks < MAX_ITERATIONS
      invariant o.Valid() && WaitsKept(old(o.waits), o.waits) && rechecks == checks <= MAX_ITERATIONS
      invariant resumed ==> o.waits[waitId].status == Satisfied
      invariant resumed ==> checks > 0
      invariant o.script.turn == if checks == 0 then InWait else if resumed then WaitMet else Rechecking
    {
      checks := checks + 1;
      rechecks := checks;
      var _ :- o.Elsewhere();
      var status :- o.WaitStatusOf(waitId);
      resumed := status == Satisfied;
    }
    return Done(resumed), rechecks;
  }

  /** Reuse the live wait of this entry, or create it. */
  method EnsureWait(o: OutcomeRows, ghost plan: seq<Entry>, eventType: string, raw: Option<Fields>) returns (r: Step<nat>)
    requires o.Valid() && plan == o.plan
    requires exists i :: 0 <= i < |plan| && plan[i].wait.Some? && plan[i].wait.value.condition == raw
    modifies o`status, o`criteria, o`waits
    ensures o.Valid() && (r.Done? ==> r.value < |o.waits| && ForSpec(o.waits[r.value], eventType, raw))
  {
    var found :- o.FindWait(eventType, raw);
    if found.Some? { return Done(found.value); }
    r := o.CreateWait(eventType, raw);
  }

  /** Terminate the assignment in hand and block the outcome. */
  method GiveUp(o: OutcomeRows, id: nat, to: Progress, ghost base: nat) returns (r: Step<Flow>)
    requires o.Valid() && id < |o.assignments| && to in {Failure, Hindered} && SettledBut(o.assignments, base, id)
    requires MayEnd(o.script.turn, to)
    modifies o`status, o`criteria, o`waits, o`lastRead, o`lastFound, o`script, o`assignments
    ensures o.Valid() && |o.assignments| == old(|o.assignments|)
    ensures r.Done? ==> Finishes(o, r.value) && SettledFrom(o.assignments, base)
    ensures r.Done? ==> o.assignments[id].progress == to && o.script.turn == Over(Blocked)
    ensures o.assignments[id].progress in {old(o.assignments[id]).progress, to}
  {
    var _ :- o.Terminate(id, to);
    r := Block(o);
  }

  predicate Enabled(policy: Policy, spec: AssignSpec) {
    policy.enabled && spec.role.Some? && spec.role.value in policy.budgets
  }

  /** A stored result has citations. */
  predicate HoldsResult(assignments: seq<Assignment>, id: nat) {
    id < |assignments| && assignments[id].progress == Succeeded && assignments[id].refs != []
  }

  /** The assign lane: mint, and consume the entry before anything is spent; then the work. */
  method AssignLane(o: OutcomeRows, policy: Policy, plan: seq<Entry>, at: nat, ghost base: nat) returns (r: Step<Flow>)
    requires o.Valid() && plan == o.plan && at < |plan| && plan[at].assign.Some? && NoWaits(plan) && o.script.turn.AtLane?
    requires SettledFrom(o.assignments, base) && base <= |o.assignments|
    modifies o`status, o`criteria, o`waits, o`lastRead, o`lastFound, o`script, o`plan, o`assignments, o`dispatched
    ensures o.Valid() && |o.assignments| >= old(|o.assignments|)
    ensures o.plan == plan || o.plan == Without(plan, at)
    ensures r.Done? ==> Flows(o, r.value) && SettledFrom(o.assignments, base)
    ensures r.Done? && r.value.Onward? ==>
      o.plan == Without(plan, at) && o.dispatched == old(o.dispatched) + 1 && HoldsResult(o.assignments, |old(o.assignments)|)
    ensures r.Done? && !Enabled(policy, plan[at].assign.value) ==> o.assignments == old(o.assignments) && r.value.Return?
  {
    var spec := plan[at].assign.value;
    if spec.role.None? || spec.task.None? { return Threw; }
    if !policy.enabled || spec.role.value !in policy.budgets {
      r := Disable(o);
      return;
    }
    var _ :- o.Elsewhere();
    var id :- o.Mint(spec.role.value, spec.task.value, None, policy.budgets[spec.role.value]);
    r := BeginWork(o, plan, at, id, base);
  }

  /** The policy does not enable the role: block. */
  method Disable(o: OutcomeRows) returns (r: Step<Flow>)
    requires o.Valid() && o.script.turn.AtLane?
    modifies o`status, o`criteria, o`waits, o`lastRead, o`lastFound, o`script
    ensures o.Valid() && (r.Done? ==> Finishes(o, r.value))
  {
    o.script := Extended(o.script, Disabled);
    r := Block(o);
  }

  /** Consume the entry; fail overdue work before anything is spent on it. */
  method BeginWork(o: OutcomeRows, plan: seq<Entry>, at: nat, id: nat, ghost base: nat) returns (r: Step<Flow>)
    requires o.Valid() && plan == o.plan && at < |plan| && plan[at].assign.Some? && o.script.turn.WithWork?
    requires id < |o.assignments| && SettledBut(o.assignments, base, id) && o.assignments[id].role == Research
    requires o.assignments[id].progress == Unstarted
    modifies o`status, o`criteria, o`waits, o`lastRead, o`lastFound, o`script, o`plan, o`assignments, o`dispatched
    ensures o.Valid() && |o.assignments| == old(|o.assignments|)
    ensures o.plan == plan || o.plan == Without(plan, at)
    ensures r.Done? ==> Flows(o, r.value) && SettledFrom(o.assignments, base)
    ensures r.Done? && r.value.Onward? ==>
      o.plan == Without(plan, at) && o.dispatched == old(o.dispatched) + 1 && HoldsResult(o.assignments, id)
  {
    ConsumedEntry(plan, at);
    if o.plain { PlainWithout(plan, at); }
    var _ :- o.WritePlan(Without(plan, at), true);
    var overdue: bool := *;
    if overdue {
      r := GiveUp(o, id, Failure, base);
      return;
    }
    r := Work(o, id, base);
  }

  /** The grant, and the assignment under way. */
  method StartWork(o: OutcomeRows, id: nat) returns (r: Step<()>)
    requires o.Valid() && id < |o.assignments| && o.assignments[id].progress == Unstarted
    modifies o`status, o`criteria, o`waits, o`assignments
    ensures o.Valid()
    ensures o.assignments == old(o.assignments) || o.assignments == old(o.assignments)[id := After(old(o.assignments[id]), Begin)]
    ensures r.Done? ==> o.assignments == old(o.assignments)[id := After(old(o.assignments[id]), Begin)]
  {
    var _ :- o.Elsewhere();
    var _ :- o.StartAssignment(id);
    r := o.Elsewhere();
  }

  /** Charge the call. */
  method Bill(o: OutcomeRows, id: nat, reply: Reply) returns (r: Step<Option<Reply>>)
    requires o.Valid() && id < |o.assignments| && o.script.turn == InCall(o.assignments[id].role)
    modifies o`status, o`criteria, o`waits, o`assignments, o`script
    ensures o.Valid()
    ensures o.assignments == old(o.assignments)
      || o.assignments == old(o.assignments)[id := Billed(old(o.assignments[id]), reply.cost)]
    ensures r.Done? && r.value.Some? ==>
      && r.value.value == reply && reply.ok && o.script.turn == Replied(old(o.assignments[id]).role, reply)
      && SpendFits(old(o.assignments[id]), reply.cost)
      && o.assignments == old(o.assignments)[id := Billed(old(o.assignments[id]), reply.cost)]
    ensures r.Done? && r.value.None? ==> OnlyFails(o.script.turn)
  {
    var charged := o.RecordSpend(id, reply.cost);
    if charged.Died? { return Died; }
    if charged.Done? { o.script := Extended(o.script, Charged(o.assignments[id].role, reply)); }
    return Done(if charged.Threw? || !reply.ok then None else Some(reply));
  }

  /** The work has failed: nothing but that may be recorded now. */
  predicate OnlyFails(t: Turn) { MayEnd(t, Failure) && !MayEnd(t, Hindered) }

  /**
   Start the assignment in hand, call the model once, and charge the call. None: the
   spend was denied or the run failed.
   */
  method Dispatch(o: OutcomeRows, id: nat, ghost base: nat) returns (r: Step<Option<Reply>>)
    requires o.Valid() && id < |o.assignments| && SettledBut(o.assignments, base, id)
    requires o.assignments[id].role == Research ==> o.dispatched + 1 + AssignEntries(o.plan) <= o.quota
    requires o.script.turn == MayCall(o.assignments[id].role) && o.assignments[id].progress == Unstarted
    modifies o`status, o`criteria, o`waits, o`assignments, o`dispatched, o`script
    ensures o.Valid() && |o.assignments| == old(|o.assignments|) && SettledBut(o.assignments, base, id)
    ensures o.assignments[id].role == old(o.assignments[id]).role
    ensures old(o.dispatched) <= o.dispatched <= old(o.dispatched) + (if o.assignments[id].role == Research then 1 else 0)
    ensures r.Done? && o.assignments[id].role == Research ==> o.dispatched == old(o.dispatched) + 1
    ensures r.Done? && r.value.Some? ==>
      r.value.value.ok && o.script.turn == Replied(o.assignments[id].role, r.value.value)
    ensures r.Done? && r.value.None? ==> OnlyFails(o.script.turn)
    ensures r.Done? && r.value.Some? ==>
      old(o.assignments[id]).spent + r.value.value.cost == o.assignments[id].spent <= o.assignments[id].budget
  {
    var _ :- StartWork(o, id);
    var reply :- o.CallModel(o.assignments[id].role == Research);
    r := Bill(o, id, reply);
  }

  /** The builder's work. */
  method Work(o: OutcomeRows, id: nat, ghost base: nat) returns (r: Step<Flow>)
    requires o.Valid() && id < |o.assignments| && SettledBut(o.assignments, base, id)
    requires o.assignments[id].role == Research
    requires o.dispatched + 1 + AssignEntries(o.plan) <= o.quota
    requires o.script.turn == MayCall(Research) && o.assignments[id].progress == Unstarted
    modifies o`status, o`criteria, o`waits, o`lastRead, o`lastFound, o`script, o`assignments, o`dispatched
    ensures o.Valid() && |o.assignments| == old(|o.assignments|)
    ensures old(o.dispatched) <= o.dispatched <= old(o.dispatched) + 1
    ensures r.Done? ==> Flows(o, r.value) && SettledFrom(o.assignments, base)
    ensures r.Done? && r.value.Onward? ==> o.dispatched == old(o.dispatched) + 1 && HoldsResult(o.assignments, id)
  {
    var reply :- Dispatch(o, id, base);
    if reply.None? {
      r := GiveUp(o, id, Failure, base);
    } else {
      r := StoreResult(o, id, reply.value, base);
    }
  }

  /** A result is stored only with at least one citation that survived reconciliation. */
  method StoreResult(o: OutcomeRows, id: nat, reply: Reply, ghost base: nat) returns (r: Step<Flow>)
    requires o.Valid() && id < |o.assignments| && SettledBut(o.assignments, base, id)
    requires o.assignments[id].role == Research && reply.ok && o.script.turn == Replied(Research, reply)
    modifies o`status, o`criteria, o`waits, o`lastRead, o`lastFound, o`script, o`assignments
    ensures o.Valid() && |o.assignments| == old(|o.assignments|)
    ensures r.Done? ==> Flows(o, r.value) && SettledFrom(o.assignments, base)
    ensures o.assignments[id].progress == Succeeded && old(o.assignments[id]).progress != Succeeded ==>
      reply.result.Some? && reply.result.value.refs != []
    ensures r.Done? && r.value.Onward? ==> HoldsResult(o.assignments, id)
  {
    if reply.result.None? || reply.result.value.refs == [] {
      r := GiveUp(o, id, Hindered, base);
      return;
    }
    var _ :- o.Elsewhere();
    var stored := o.Complete(id, reply.result.value);
    if stored.Died? { return Died; }
    if stored.Threw? {
      r := GiveUp(o, id, Failure, base);
      return;
    }
    var row :- o.ReadRow();
    return Done(Onward(row.0, row.1));
  }

  predicate HoldsVerifier(a: Assignment) { a.role == Verifier && (Live(a) || a.progress == Succeeded) }

  /** What the lane is for: an open criterion the owner did not reserve, a builder's result, and no verifier yet. */
  predicate VerifierDue(criteria: seq<Criterion>, assignments: seq<Assignment>, policy: Policy) {
    && LaneOpens(criteria) && policy.enabled && "verifier" in policy.budgets
    && (exists i :: 0 <= i < |assignments| && IsBuilder(assignments[i]))
    && forall i :: 0 <= i < |assignments| ==> !HoldsVerifier(assignments[i])
  }

  /** The lane's queries: the builder to verify and its refs, or None when the lane does not open. */
  method FindWork(o: OutcomeRows, policy: Policy) returns (r: Step<Option<(nat, seq<string>)>>, ghost read: seq<Criterion>)
    requires o.Valid()
    modifies o`status, o`criteria, o`waits
    ensures o.Valid()
    ensures r.Done? && r.value.None? ==> !VerifierDue(o.criteria, o.assignments, policy)
    ensures r.Done? && r.value.Some? ==>
      && VerifierDue(read, o.assignments, policy) && CriteriaKept(read, o.criteria)
      && r.value.value.0 < |o.assignments| && IsBuilder(o.assignments[r.value.value.0])
      && r.value.value.1 == o.assignments[r.value.value.0].refs
  {
    read := [];
    var all :- o.ReadCriteria();
    var eligible :- o.ReadCriteria();
    read := eligible;
    var builder :- o.FindBuilder();
    var _ :- o.Elsewhere();
    var hasPending := exists i :: 0 <= i < |all| && all[i].status == Pending;
    var hasVerifier := exists i :: 0 <= i < |o.assignments| && HoldsVerifier(o.assignments[i]);
    if !(hasPending && LaneOpens(eligible) && builder.Some? && !hasVerifier && policy.enabled && "verifier" in policy.budgets) {
      return Done(None), read;
    }
    return Done(Some((builder.value, o.assignments[builder.value].refs))), read;
  }

  /** The verifier lane; None when it does not open. */
  method VerifierLane(o: OutcomeRows, policy: Policy, ghost base: nat) returns (r: Step<Option<Flow>>)
    requires o.Valid() && SettledFrom(o.assignments, base) && base <= |o.assignments|
    requires o.script.turn.AtLane? && NoWaits(o.plan) && NoAssigns(o.plan)
    modifies o`status, o`criteria, o`waits, o`lastRead, o`lastFound, o`script, o`assignments, o`dispatched
    ensures o.Valid() && |o.assignments| >= old(|o.assignments|)
    ensures r.Done? && r.value.None? ==> o.script.turn == old(o.script.turn)
    ensures r.Done? && r.value.Some? ==>
      policy.enabled && forall i :: 0 <= i < |old(o.assignments)| ==> !HoldsVerifier(old(o.assignments)[i])
    ensures r.Done? ==> SettledFrom(o.assignments, base)
    ensures r.Done? && r.value.Some? ==> Flows(o, r.value.value)
    ensures r.Done? && r.value.None? ==> !VerifierDue(o.criteria, o.assignments, policy)
    ensures o.dispatched == old(o.dispatched)
  {
    ghost var read;
    var found;
    found, read := FindWork(o, policy);
    if !found.Done? { return found.PropagateFailure(); }
    var work := found.value;
    if work.None? { return Done(None); }
    var flow :- MintVerifier(o, work.value.0, work.value.1, policy.budgets["verifier"], base);
    return Done(Some(flow));
  }

  /** The verifier's assignment, and its work. */
  method MintVerifier(o: OutcomeRows, builder: nat, refs: seq<string>, budget: real, ghost base: nat) returns (r: Step<Flow>)
    requires o.Valid() && SettledFrom(o.assignments, base) && base <= |o.assignments|
    requires o.script.turn.AtLane? && NoWaits(o.plan) && NoAssigns(o.plan) && NoVerifier(o.assignments)
    requires forall i :: 0 <= i < |refs| ==> refs[i] != ""
    modifies o`status, o`criteria, o`waits, o`lastRead, o`lastFound, o`script, o`assignments, o`dispatched
    ensures o.Valid() && |o.assignments| >= old(|o.assignments|) && o.dispatched == old(o.dispatched)
    ensures r.Done? ==> Flows(o, r.value) && SettledFrom(o.assignments, base)
  {
    var cs :- o.ReadCriteria();
    var task: string := *;
    var id :- o.Mint("verifier", task, Some(builder), budget);
    r := Verify(o, id, cs, refs, base);
  }

  /** The verifier's work on a minted assignment. */
  method Verify(o: OutcomeRows, id: nat, cs: seq<Criterion>, refs: seq<string>, ghost base: nat) returns (r: Step<Flow>)
    requires o.Valid() && id < |o.assignments| && SettledBut(o.assignments, base, id)
    requires o.assignments[id] == Fresh("verifier", o.assignments[id].verifies, o.assignments[id].budget)
    requires forall i :: 0 <= i < |refs| ==> refs[i] != ""
    requires o.script.turn == MayCall(Verifier)
    modifies o`status, o`criteria, o`waits, o`lastRead, o`lastFound, o`script, o`assignments, o`dispatched
    ensures o.Valid() && |o.assignments| == old(|o.assignments|)
    ensures r.Done? ==> Flows(o, r.value) && SettledFrom(o.assignments, base)
    ensures o.dispatched == old(o.dispatched)
  {
    var replied :- Dispatch(o, id, base);
    if replied.None? {
      r := GiveUp(o, id, Failure, base);
      return;
    }
    var reply := replied.value;
    if reply.verdict.None? || reply.verdict.value.verdicts.None? || reply.verdict.value.verdicts.value == [] {
      r := GiveUp(o, id, Hindered, base);
      return;
    }
    var parsed := ParseVerifierResult(reply.verdict.value);
    if parsed.Thrown? { return Threw; }
    r := Judge(o, id, cs, refs, parsed.value, reply.cost, base);
  }

  /** Accept or refuse the parsed verdict; store it, then apply it. */
  method Judge(o: OutcomeRows, id: nat, cs: seq<Criterion>, refs: seq<string>, vs: seq<Verdict>, cost: real, ghost base: nat)
    returns (r: Step<Flow>)
    requires o.Valid() && id < |o.assignments| && SettledBut(o.assignments, base, id)
    requires o.assignments[id].role == Verifier && cost <= o.assignments[id].budget
    requires Distinct(vs) && forall i :: 0 <= i < |refs| ==> refs[i] != ""
    requires o.script.turn.Replied? && o.script.turn.role == Verifier && o.script.turn.reply.ok
      && HasResult(Verifier, o.script.turn.reply)
    modifies o`status, o`criteria, o`waits, o`lastRead, o`lastFound, o`script, o`assignments
    ensures o.Valid() && |o.assignments| == old(|o.assignments|)
    ensures r.Done? && o.assignments[id].progress == Hindered ==>
      !LaneAccepts(vs, cs, |refs|) || old(o.assignments[id]).progress == Hindered
    ensures r.Done? ==> Flows(o, r.value) && SettledFrom(o.assignments, base)
    ensures r.Done? && r.value.Onward? ==>
      LaneAccepts(vs, cs, |refs|) && o.assignments[id].progress == Succeeded && AllDecided(o.criteria, vs, id)
  {
    o.script := Extended(o.script, Weighed(LaneAccepts(vs, cs, |refs|)));
    if !LaneAccepts(vs, cs, |refs|) {
      r := GiveUp(o, id, Hindered, base);
      return;
    }
    r := Accept(o, id, cs, refs, vs, cost, base);
  }

  /** Store an accepted verdict, and apply it. */
  method Accept(o: OutcomeRows, id: nat, cs: seq<Criterion>, refs: seq<string>, vs: seq<Verdict>, cost: real, ghost base: nat)
    returns (r: Step<Flow>)
    requires o.Valid() && id < |o.assignments| && SettledBut(o.assignments, base, id) && MayStore(o.script.turn, Verifier)
    requires o.assignments[id].role == Verifier && cost <= o.assignments[id].budget
    requires LaneAccepts(vs, cs, |refs|) && Distinct(vs) && forall i :: 0 <= i < |refs| ==> refs[i] != ""
    modifies o`status, o`criteria, o`waits, o`lastRead, o`lastFound, o`script, o`assignments
    ensures o.Valid() && |o.assignments| == old(|o.assignments|)
    ensures o.assignments[id].progress in {old(o.assignments[id]).progress, Succeeded, Failure}
    ensures r.Done? ==> Flows(o, r.value) && SettledFrom(o.assignments, base)
    ensures r.Done? && r.value.Onward? ==> o.assignments[id].progress == Succeeded && AllDecided(o.criteria, vs, id)
  {
    var stored := StoreVerdict(o, id, cs, refs, vs, cost);
    if stored.Died? { return Died; }
    if stored.Threw? {
      r := GiveUp(o, id, Failure, base);
      return;
    }
    r := Apply(o, id, vs);
  }

  /** The verifier's result: the builder's refs that confirmed verdicts cite, at most twenty of them. */
  method StoreVerdict(o: OutcomeRows, id: nat, cs: seq<Criterion>, refs: seq<string>, vs: seq<Verdict>, cost: real)
    returns (r: Step<()>)
    requires o.Valid() && id < |o.assignments| && MayStore(o.script.turn, Verifier)
    requires o.assignments[id].role == Verifier && cost <= o.assignments[id].budget
    requires LaneAccepts(vs, cs, |refs|) && forall i :: 0 <= i < |refs| ==> refs[i] != ""
    modifies o`status, o`criteria, o`waits, o`script, o`assignments
    ensures o.Valid() && o.script.turn.Storing?
    ensures |o.assignments| == old(|o.assignments|)
    ensures o.assignments == old(o.assignments)[id := o.assignments[id]]
    ensures o.assignments[id].progress in {old(o.assignments[id]).progress, Succeeded}
    ensures r.Done? ==> o.assignments[id].progress == Succeeded
    ensures r.Done? && (exists k :: 0 <= k < |vs| && vs[k].value == Confirmed) ==> IsProof(o.assignments[id])
  {
    var found := CollectConfirmed(vs, refs);
    var cited := found[..if |found| < 20 then |found| else 20];
    var fits: bool := *;
    forall k: nat | k < |vs| && vs[k].value == Confirmed
      ensures cited != []
    {
      ConfirmationLeavesEvidence(vs, cs, refs, k);
    }
    r := o.Complete(id, WorkResult(cited, |cited|, cost, fits));
  }

  /** Apply the stored verdict, or block. */
  method Apply(o: OutcomeRows, id: nat, vs: seq<Verdict>) returns (r: Step<Flow>)
    requires o.Valid() && Distinct(vs) && o.script.turn.Storing?
    requires (exists k :: 0 <= k < |vs| && vs[k].value == Confirmed) ==> id < |o.assignments| && IsProof(o.assignments[id])
    modifies o`status, o`criteria, o`waits, o`lastRead, o`lastFound, o`script
    ensures o.Valid() && (r.Done? ==> Flows(o, r.value))
    ensures r.Done? && r.value.Onward? ==> AllDecided(o.criteria, vs, id)
  {
    var applied := o.ApplyVerdict(id, vs);
    if applied.Died? { return Died; }
    if applied.Threw? {
      r := Block(o);
      return;
    }
    r := Reread(o);
  }

  /** Read the row the loop goes on with. */
  method Reread(o: OutcomeRows) returns (r: Step<Flow>)
    requires o.Valid() && o.script.turn.AtLane?
    modifies o`status, o`criteria, o`waits
    ensures o.Valid() && CriteriaKept(old(o.criteria), o.criteria) && (r.Done? ==> r.value.Onward? && Flows(o, r.value))
  {
    var row :- o.ReadRow();
    return Done(Onward(row.0, row.1));
  }

  /** The park with the owner: never over a blocked outcome, never over a live assignment. */
  method ParkLane(o: OutcomeRows, seen: Status, ghost base: nat) returns (r: Step<Flow>)
    requires o.Valid() && SettledFrom(o.assignments, base) && o.script.turn.AtLane? && NoWaits(o.plan) && NoAssigns(o.plan)
    modifies o`status, o`criteria, o`waits, o`lastRead, o`lastFound, o`script, o`assignments, o`parkedOver
    ensures o.Valid() && |o.assignments| == old(|o.assignments|)
    ensures r.Done? && o.script.turn == Over(Failing) ==> r.value.Return?
    ensures r.Done? && o.parkedOver != old(o.parkedOver) ==> o.script.turn == Over(Failing) || r.value.Onward?
    ensures r.Done? ==> (Flows(o, r.value) || LeftBlocked(o.script.turn, seen, r.value)) && SettledFrom(o.assignments, base)
    ensures seen == Blocked ==> o.parkedOver == old(o.parkedOver)
    ensures r.Done? && r.value.Onward? ==> o.parkedOver == old(o.parkedOver) + [{}]
  {
    if seen == Blocked { return Done(Return(Blocked, false)); }
    var live :- o.FindLive();
    if live.Some? {
      r := GiveUp(o, live.value, Failure, base);
      return;
    }
    r := AskAndObey(o);
  }

  /** Ask the owner; fail on a no, run on after a yes. */
  method AskAndObey(o: OutcomeRows) returns (r: Step<Flow>)
    requires o.Valid() && LiveOnes(o.assignments) == {} && o.script.turn.AtLane? && NoWaits(o.plan) && NoAssigns(o.plan)
    modifies o`status, o`criteria, o`waits, o`lastRead, o`lastFound, o`script, o`parkedOver
    ensures o.Valid() && (r.Done? ==> Flows(o, r.value) && o.parkedOver == old(o.parkedOver) + [{}])
    ensures r.Done? && r.value.Return? ==> o.script.turn == Over(Failing)
  {
    var _ :- Ask(o, WaitingUser);
    var approved :- o.AskOwner();
    r := Obey(o, approved);
  }

  method Obey(o: OutcomeRows, approved: bool) returns (r: Step<Flow>)
    requires o.Valid() && o.script.turn == if approved then Turn.Approved else Turn.Refused
    modifies o`status, o`criteria, o`waits, o`lastRead, o`lastFound, o`script
    ensures o.Valid() && (r.Done? ==> Flows(o, r.value) && (r.value.Onward? <==> approved))
    ensures r.Done? && r.value.Return? ==> o.script.turn == Over(Failing)
  {
    if !approved {
      var failed :- Ask(o, Failing);
      return Done(Return(failed, false));
    }
    var now :- Ask(o, Running);
    return Done(Onward(now, o.plan));
  }

  // ---------------------------------------------------------------- the report of a completion

  /** What others do to the status between two statements of the executor. */
  predicate Walks(s: Status, path: seq<Status>)
    decreases |path|
  {
    path == [] || (Edge(s, path[0]) && Walks(path[0], path[1..]))
  }

  function EndOf(s: Status, path: seq<Status>): Status { if path == [] then s else path[|path| - 1] }

  /** The others' moves around the two transitions of a completion: before each read, and before each update. */
  datatype Moves = Moves(toRead1: seq<Status>, toUpdate1: seq<Status>, toRead2: seq<Status>, toUpdate2: seq<Status>)

  datatype Report = Report(read: Status, found: Status, status: Status) | Refused

  /** One transition: what it read and found, and the status it leaves; refused where the guard refuses. */
  function Transit(s: Status, toRead: seq<Status>, toUpdate: seq<Status>, to: Status): Report {
    var read := EndOf(s, toRead);
    if read == to then Report(read, read, to)
    else
      var found := EndOf(read, toUpdate);
      if found == read && !Edge(read, to) then Report.Refused else Report(read, found, Moved(read, found, to))
  }

  /** To verifying, then to completed: the run then reports `completed` with this status. */
  function Completing(s: Status, m: Moves): Report {
    var first := Transit(s, m.toRead1, m.toUpdate1, Verifying);
    if first.Refused? then Report.Refused else Transit(first.status, m.toRead2, m.toUpdate2, Completed)
  }

  predicate Legal(s: Status, m: Moves) {
    var read := EndOf(s, m.toRead1);
    var first := Transit(s, m.toRead1, m.toUpdate1, Verifying);
    && Walks(s, m.toRead1) && Walks(read, m.toUpdate1)
    && (read == Verifying ==> m.toUpdate1 == [])
    && (first.Report? ==> Walks(first.status, m.toRead2) && Walks(EndOf(first.status, m.toRead2), m.toUpdate2))
  }

  /** Where the others leave the row before the completing read. */
  function AtRead(s: Status, m: Moves): Status {
    var first := Transit(s, m.toRead1, m.toUpdate1, Verifying);
    EndOf(if first.Report? then first.status else s, m.toRead2)
  }

  /** Where their last walk ends: the row at the completing update. */
  function AtUpdate(s: Status, m: Moves): Status { EndOf(AtRead(s, m), m.toUpdate2) }

  lemma {:induction false} CompletedIsLast(path: seq<Status>)
    requires Walks(Completed, path)
    ensures path == []
  {
  }

  /**
   When the status reported beside `completed: true` is completed, over all legal moves of
   others: exactly when these leave the row at completed themselves, or at verifying both
   when it is read and when it is updated. Otherwise the report is where they left it.
   */
  lemma CompletedStatusExactly(s: Status, m: Moves)
    requires Legal(s, m) && Completing(s, m).Report?
    ensures var c := Completing(s, m);
      && (c.status == Completed <==>
          AtUpdate(s, m) == Completed || (AtRead(s, m) == Verifying && AtUpdate(s, m) == Verifying))
      && (c.status != Completed ==> c.status == AtUpdate(s, m))
      && (c.status == Completed <==> FoundForCompletion(c.read, c.found))
  {
    if AtRead(s, m) == Completed { CompletedIsLast(m.toUpdate2); }
  }

  /** The reaper fails the outcome between the completing read and its update: completed, and failed. */
  lemma CompletedBesideFailed() returns (m: Moves)
    ensures Legal(Running, m) && Completing(Running, m) == Report(Verifying, Failing, Failing)
  {
    m := Moves([], [], [], [Failing]);
    assert [Failing][1..] == [];
  }

  // ---------------------------------------------------------------- the run

  /** One iteration: the criteria gate, then the first lane that has something to do. */
  method Iterate(o: OutcomeRows, policy: Policy, seen: Status, plan: seq<Entry>, ghost base: nat) returns (r: Step<Flow>)
    requires o.Valid() && plan == o.plan && SettledFrom(o.assignments, base) && base <= |o.assignments| && o.script.turn.AtLane?
    modifies o
    ensures o.Valid() && |o.assignments| >= old(|o.assignments|) && o.laps == old(o.laps)
    ensures r.Done? ==> (Flows(o, r.value) || LeftBlocked(o.script.turn, seen, r.value)) && SettledFrom(o.assignments, base)
  {
    var gate :- CriteriaGate(o);
    if gate.Some? { return Done(gate.value); }
    var wait := FirstWait(plan);
    if wait.Some? {
      ghost var id, resumed, rechecks;
      r, id, resumed, rechecks := WaitLane(o, plan, wait.value);
      return;
    }
    var assign := FirstAssign(plan);
    if assign.Some? {
      r := AssignLane(o, policy, plan, assign.value, base);
      return;
    }
    var verified :- VerifierLane(o, policy, base);
    if verified.Some? { return Done(verified.value); }
    r := ParkLane(o, seen, base);
  }

  /**
   runOutcomeExecutor. However it ends, at whatever step, the rows are as Valid says.
   When it returns, no assignment it minted is live and its report is honest.
   */
  method RunExecutor(o: OutcomeRows, policy: Policy) returns (r: Step<Outcome>)
    requires o.Valid()
    modifies o
    ensures o.Valid()
    ensures r.Done? ==> 1 <= r.value.iterations == o.laps <= MAX_ITERATIONS
    ensures r.Done? ==> forall i :: old(|o.assignments|) <= i < |o.assignments| ==>
      o.assignments[i].progress in {Succeeded, Failure, Hindered}
    ensures r.Done? ==> Honest(o, r.value.status, r.value.completed) || (o.script.turn.AtLane? && r.value.status == Blocked && !r.value.completed)
    ensures r.Done? && r.value.completed ==> (r.value.status == Completed <==> FoundForCompletion(o.lastRead, o.lastFound))
    ensures Scripted(o.script.log, o.script.turns) && AnswersObeyed(o.script.log)
    ensures r.Done? && OwnerRefused(o.script.log) ==>
      !r.value.completed && r.value.status == Moved(o.lastRead, o.lastFound, Failing)
    ensures r.Done? && o.script.turn == Over(Failing) ==> OwnerRefused(o.script.log)
  {
    r := RunLoop(o, policy);
    ScriptObeysAnswers(o.script.log, o.script.turns);
    FailingIsRefused(o.script.log, o.script.turns);
  }

  /** So many laps and no end: block. */
  method OutOfLaps(o: OutcomeRows) returns (r: Step<Flow>)
    requires o.Valid() && o.script.turn.AtLane? && o.laps == MAX_ITERATIONS
    modifies o`status, o`criteria, o`waits, o`lastRead, o`lastFound, o`script
    ensures o.Valid() && o.script.turn == Over(Blocked)
    ensures r.Done? ==> Finishes(o, r.value)
  {
    o.script := Extended(o.script, Exhausted(o.laps));
    r := Block(o);
  }

  /** The start and the loop. */
  method RunLoop(o: OutcomeRows, policy: Policy) returns (r: Step<Outcome>)
    requires o.Valid()
    modifies o
    ensures o.Valid()
    ensures r.Done? ==> 1 <= r.value.iterations == o.laps <= MAX_ITERATIONS
    ensures r.Done? ==> SettledFrom(o.assignments, old(|o.assignments|))
    ensures r.Done? ==> Honest(o, r.value.status, r.value.completed) || (o.script.turn.AtLane? && r.value.status == Blocked && !r.value.completed)
    ensures r.Done? && r.value.completed ==> (r.value.status == Completed <==> FoundForCompletion(o.lastRead, o.lastFound))
  {
    ghost var base := |o.assignments|;
    var flow :- StartUp(o);
    var iterations := 0;
    o.laps := 0;
    while iterations < MAX_ITERATIONS
      invariant o.Valid() && base <= |o.assignments|
      invariant flow.Onward? && flow.plan == o.plan && SettledFrom(o.assignments, base) && o.script.turn.AtLane?
      invariant iterations == o.laps <= MAX_ITERATIONS
    {
      iterations, o.laps := iterations + 1, o.laps + 1;
      flow :- Iterate(o, policy, flow.seen, flow.plan, base);
      if flow.Return? { return Done(Outcome(flow.status, flow.completed, iterations)); }
    }
    var last :- OutOfLaps(o);
    return Done(Outcome(last.status, last.completed, iterations));
  }

  /**
   The life of an outcome: any number of runs of the executor, one after the other, each
   of which may die or throw at any step and be replayed from the top. Research calls
   made, and assign entries left, never exceed those it began with; an outcome that is
   completed has every criterion resolved; a criterion verified by a worker is backed by
   a succeeded verifier with evidence; no park was over live work; and if the plan's
   waits are stored as written, no two live waits are for the same thing.
   */
  method Lifetime(plan: seq<Entry>, criteria: seq<Criterion>, policy: Policy, runs: nat) returns (o: OutcomeRows)
    requires Numbered(criteria) && forall i :: 0 <= i < |criteria| ==> criteria[i].verifiedBy.None?
    ensures o.dispatched + AssignEntries(o.plan) <= AssignEntries(plan)
    ensures o.status == Completed ==> forall i :: 0 <= i < |o.criteria| ==> o.criteria[i].status in {Verified, Waived}
    ensures forall i :: 0 <= i < |o.criteria| && o.criteria[i].verifiedBy.Some? ==>
      && o.criteria[i].verifiedBy.value < |o.assignments|
      && var a := o.assignments[o.criteria[i].verifiedBy.value];
         a.role == Verifier && a.progress == Succeeded && a.evidence > 0
    ensures forall i :: 0 <= i < |o.parkedOver| ==> o.parkedOver[i] == {}
    ensures PlainPlan(plan) ==> forall i, j :: 0 <= i < j < |o.waits| ==>
      || o.waits[i].status !in {Waiting, Satisfied} || o.waits[j].status !in {Waiting, Satisfied}
      || o.waits[i].eventType != o.waits[j].eventType || o.waits[i].condition != o.waits[j].condition
    ensures Scripted(o.script.log, o.script.turns) && AnswersObeyed(o.script.log)
    ensures forall i, j :: 0 <= i < j < |o.assignments| && o.assignments[i].role == o.assignments[j].role == Verifier ==>
      o.assignments[i].progress in {Failure, Hindered} || o.assignments[j].progress in {Failure, Hindered}
    ensures forall i :: 0 <= i < |o.assignments| && (o.assignments[i].progress != Succeeded || o.assignments[i].role == Verifier) ==>
      0.0 <= o.assignments[i].spent <= o.assignments[i].budget
  {
    o := new OutcomeRows(plan, criteria);
    for k := 0 to runs
      invariant o.Valid() && fresh(o)
    {
      var _ := RunExecutor(o, policy);
    }
    ScriptObeysAnswers(o.script.log, o.script.turns);
  }
}
