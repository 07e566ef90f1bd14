/**
 The rows of one outcome: its status and plan, its criteria, waits and assignments,
 behind the triggers that guard them (packages/db/migrations/024, 026 and 027), and
 the services of packages/core that write them. Each statement is one atomic step of
 the executor; before it the owner, the reaper and the scanner may have acted, and the
 executor may throw or die at any of them.
 */
module OutcomeStore {
  import opened Prelude
  import opened Trimming
  import opened Verdicts
  import opened WaitPredicates

  /** What a step of the executor comes to. */
  datatype Step<+T> = Done(value: T) | Threw | Died
  {
    predicate IsFailure() { !Done? }

    function PropagateFailure<U>(): Step<U>
      requires IsFailure()
    {
      if Threw? then Threw else Died
    }

    function Extract(): T
      requires !IsFailure()
    {
      value
    }
  }

  // ---------------------------------------------------------------- rows

  datatype Status =
    | Proposed | Accepted | Queued | Running | WaitingExternal | WaitingUser
    | Blocked | Verifying | Completed | Failing | Cancelled

  predicate Terminal(s: Status) { s in {Completed, Failing, Cancelled} }

  /** outcomes_transition_guard */
  predicate Edge(a: Status, b: Status) {
    match a
    case Proposed => b in {Accepted, Cancelled}
    case Accepted => b in {Queued, Cancelled, Failing}
    case Queued => b in {Running, Cancelled, Failing}
    case Running => b in {WaitingExternal, WaitingUser, Blocked, Verifying, Failing, Cancelled}
    case WaitingExternal => b in {Running, Blocked, Failing, Cancelled}
    case WaitingUser => b in {Running, Verifying, Blocked, Failing, Cancelled}
    case Blocked => b in {Running, WaitingExternal, WaitingUser, Verifying, Failing, Cancelled}
    case Verifying => b in {Completed, Running, Blocked, Failing, Cancelled}
    case _ => false
  }

  /** The statuses from which the guard lets one be reached. */
  function Before(b: Status): set<Status> {
    match b
    case Proposed => {}
    case Accepted => {Proposed}
    case Queued => {Accepted}
    case Running => {Queued, WaitingExternal, WaitingUser, Blocked, Verifying}
    case WaitingExternal => {Running, Blocked}
    case WaitingUser => {Running, Blocked}
    case Blocked => {Running, WaitingExternal, WaitingUser, Verifying}
    case Verifying => {Running, WaitingUser, Blocked}
    case Completed => {Verifying}
    case Failing => {Accepted, Queued, Running, WaitingExternal, WaitingUser, Blocked, Verifying}
    case Cancelled => {Proposed, Accepted, Queued, Running, WaitingExternal, WaitingUser, Blocked, Verifying}
  }

  /**
   The guard by where it leads: every open outcome may be cancelled, and failed unless it
   is only proposed; completion comes from verifying alone.
   */
  lemma GuardByTarget(a: Status, b: Status)
    ensures Edge(a, b) <==> a in Before(b)
  {
  }

  datatype Role = Research | Verifier

  datatype Progress = Unstarted | InFlight | Succeeded | Failure | Hindered

  /** An assignment; refs are the citations of its result, evidence the rows it landed. */
  datatype Assignment = Assignment(
    role: Role, progress: Progress, verifies: Option<nat>, budget: real, spent: real,
    refs: seq<string>, evidence: nat)

  /** Queued or running. */
  predicate Live(a: Assignment) { a.progress == Unstarted || a.progress == InFlight }

  /** An assignment is live until it has ended, one way or another. */
  lemma LiveExactly(a: Assignment)
    ensures Live(a) <==> a.progress !in {Succeeded, Failure, Hindered}
    ensures forall assignments: seq<Assignment>, i: nat :: i < |assignments| && assignments[i] == a ==>
      (i in LiveOnes(assignments) <==> a.progress !in {Succeeded, Failure, Hindered})
  {
  }

  datatype WaitStatus = Waiting | Satisfied | Expired | Dropped

  datatype WaitRow = WaitRow(eventType: string, condition: Fields, status: WaitStatus)

  predicate LiveWait(w: WaitRow) { w.status == Waiting || w.status == Satisfied }

  datatype WaitSpec = WaitSpec(eventType: Option<string>, condition: Option<Fields>)

  datatype AssignSpec = AssignSpec(role: Option<string>, task: Option<string>)

  /** A plan entry: an entry may ask for a wait, an assignment, both or neither. */
  datatype Entry = Entry(wait: Option<WaitSpec>, assign: Option<AssignSpec>)

  /** The row's status after a transition, by the status it read and the one its update found. */
  function Moved(read: Status, found: Status, to: Status): Status {
    if read == to || found == read then to else found
  }

  // ---------------------------------------------------------------- what the executor does, in order

  const MAX_ITERATIONS := 8

  /** One thing an executor did to the outcome; a run begins with Begun, however the last one ended. */
  datatype Deed =
    | Begun
    | Seen(status: Status)                     // the row, as the run first reads it
    | To(status: Status)                       // it asked for this transition
    | Rechecked(satisfied: bool)               // it re-read its wait
    | Consumed(assign: bool)                   // it took an entry off the plan
    | Minted(role: Role, plan: seq<Entry>)     // and with which plan
    | Called(role: Role)                       // the model call
    | Charged(role: Role, reply: Reply)        // its reply, and the charge for it was accepted
    | Weighed(accepted: bool)                  // it checked a verdict against the criteria
    | Stored(role: Role)                       // it went to store the result
    | Ended(progress: Progress)                // it terminated the assignment in hand
    | Judged(applied: bool)                    // it went to apply the verdict
    | Disabled                                 // the policy does not enable the role of an entry
    | Exhausted(laps: nat)                     // it has been through the lanes so often
    | OwnerSaid(yes: bool, plan: seq<Entry>)    // the owner's answer, and to which plan

  /** What the executor's script allows next. */
  datatype Turn =
    | Over(status: Status)                 // a new run: the last one has asked for what ends it
    | Begins                               // to read the row
    | Early | AtQueue                      // to advance it, through queued
    | AtLane                               // to open a lane
    | AtGate                               // to complete
    | InWait | Rechecking | WaitMet          // to re-read the wait, and then to consume its entry
    | BackFromWait                         // to run on
    | WithWork                             // to consume the entry, before anything else
    | MayCall(role: Role)
    | InCall(role: Role)                   // to charge the reply
    | Replied(role: Role, reply: Reply)    // to store what is worth it
    | ToStore | ToDecline                  // the verdict, by what it was found
    | Storing                              // to apply the verdict
    | GivingUp                             // to block
    | WithOwner | Approved | Refused
    | Broken

  predicate NoWaits(plan: seq<Entry>) { forall i :: 0 <= i < |plan| ==> plan[i].wait.None? }

  predicate NoAssigns(plan: seq<Entry>) { forall i :: 0 <= i < |plan| ==> plan[i].assign.None? }

  /** A result with citations, or a verdict. */
  predicate HasResult(role: Role, reply: Reply) {
    if role == Research then reply.result.Some? && reply.result.value.refs != []
    else reply.verdict.Some? && reply.verdict.value.verdicts.Some? && reply.verdict.value.verdicts.value != []
  }

  /** Transitions have their places; blocked, failed and completed end the run. */
  function AfterAsking(t: Turn, s: Status): Turn {
    match s
    case Queued => if t.Early? then AtQueue else Broken
    case Running => if t.AtQueue? || t.BackFromWait? || t.Approved? then AtLane else Broken
    case Verifying => if t.AtLane? then AtGate else Broken
    case Completed => if t.AtGate? then Over(Completed) else Broken
    case WaitingExternal => if t.AtLane? then InWait else Broken
    case WaitingUser => if t.AtLane? then WithOwner else Broken
    case Blocked => if t.GivingUp? then Over(Blocked) else Broken
    case Failing => if t.Refused? then Over(Failing) else Broken
    case _ => Broken
  }

  /** Work that cannot be done fails; work that came to nothing is hindered. */
  predicate MayEnd(t: Turn, as_: Progress) {
    match t
    case AtLane => as_ == Failure
    case MayCall(role) => role == Research && as_ == Failure
    case InCall(_) => as_ == Failure
    case Replied(role, reply) =>
      if !reply.ok then as_ == Failure else as_ == Hindered && !HasResult(role, reply)
    case ToDecline => as_ == Hindered
    case Storing => as_ == Failure
    case _ => false
  }

  /** A reply that went through, with a result in it. */
  predicate MayStore(t: Turn, role: Role) {
    if role == Verifier then t.ToStore? else t.Replied? && t.role == Research && t.reply.ok && HasResult(Research, t.reply)
  }

  /** Only the earlier statuses are advanced, and only the earliest through queued. */
  function AfterReading(s: Status): Turn {
    if s in {Proposed, Accepted} then Early else if s == Queued then AtQueue else AtLane
  }

  /**
   The script. Waits come before work, and both before a verifier or the owner; an entry
   is consumed between the mint and the call; a verdict is applied once it is stored; and
   the owner's yes and no are obeyed.
   */
  function NextTurn(t: Turn, d: Deed): Turn {
    match d
    case Begun => Begins
    case Seen(s) => if t.Begins? then AfterReading(s) else Broken
    case To(s) => AfterAsking(t, s)
    case Rechecked(yes) => if t.InWait? || t.Rechecking? then (if yes then WaitMet else Rechecking) else Broken
    case Consumed(assign) =>
      if assign then (if t.WithWork? then MayCall(Research) else Broken)
      else if t.WaitMet? || t.Rechecking? then BackFromWait else Broken
    case Minted(role, plan) =>
      if !t.AtLane? || !NoWaits(plan) then Broken
      else if role == Research then WithWork
      else if NoAssigns(plan) then MayCall(Verifier) else Broken
    case Called(role) => if t == MayCall(role) then InCall(role) else Broken
    case Charged(role, reply) => if t == InCall(role) then Replied(role, reply) else Broken
    case Stored(role) =>
      if !MayStore(t, role) then Broken
      else if role == Research then AtLane else Storing
    case Weighed(accepted) =>
      if !(t.Replied? && t.role == Verifier && t.reply.ok && HasResult(Verifier, t.reply)) then Broken
      else if accepted then ToStore else ToDecline
    case Disabled => if t.AtLane? then GivingUp else Broken
    case Exhausted(laps) => if t.AtLane? && laps == MAX_ITERATIONS then GivingUp else Broken
    case Ended(p) => if MayEnd(t, p) then GivingUp else Broken
    case Judged(applied) => if !t.Storing? then Broken else if applied then AtLane else GivingUp
    case OwnerSaid(yes, plan) =>
      if !(t.WithOwner? && NoWaits(plan) && NoAssigns(plan)) then Broken else if yes then Approved else Refused
  }

  /** The turns between the deeds of a log: the script's, from before the first run on. */
  predicate Scripted(log: seq<Deed>, turns: seq<Turn>) {
    && |turns| == |log| + 1 && turns[0] == Over(Accepted)
    && forall i {:trigger log[i]} :: 0 <= i < |log| ==> turns[i + 1] == NextTurn(turns[i], log[i]) && !turns[i + 1].Broken?
  }

  lemma ScriptedOneMore(log: seq<Deed>, turns: seq<Turn>, d: Deed)
    requires Scripted(log, turns) && !NextTurn(turns[|log|], d).Broken?
    ensures Scripted(log + [d], turns + [NextTurn(turns[|log|], d)])
  {
    var more, after := log + [d], turns + [NextTurn(turns[|log|], d)];
    forall i {:trigger more[i]} | 0 <= i < |more|
      ensures after[i + 1] == NextTurn(after[i], more[i]) && !after[i + 1].Broken?
    {
      if i < |log| { assert more[i] == log[i] && after[i] == turns[i] && after[i + 1] == turns[i + 1]; }
    }
  }

  /** All that executors did so far, and whose turn it is. */
  datatype Record = Record(log: seq<Deed>, turns: seq<Turn>, turn: Turn)

  type Script = s: Record | Scripted(s.log, s.turns) && s.turn == s.turns[|s.log|]
    witness Record([], [Over(Accepted)], Over(Accepted))

  function Extended(s: Script, d: Deed): (after: Script)
    requires !NextTurn(s.turn, d).Broken?
    ensures after.log == s.log + [d] && after.turn == NextTurn(s.turn, d)
  {
    ScriptedOneMore(s.log, s.turns, d);
    Record(s.log + [d], s.turns + [NextTurn(s.turn, d)], NextTurn(s.turn, d))
  }

  /** After yes the outcome is asked to run on; after no it is asked to fail, and the run ends. */
  predicate AnswersObeyed(log: seq<Deed>) {
    forall i :: 0 <= i < |log| && log[i].OwnerSaid? ==>
      && (i + 1 < |log| ==> log[i + 1] in {Begun, To(if log[i].yes then Running else Failing)})
      && (i + 2 < |log| && !log[i].yes ==> log[i + 1].Begun? || log[i + 2].Begun?)
  }

  /** The owner's last answer was no, and after it the outcome was asked to fail. */
  predicate OwnerRefused(log: seq<Deed>) {
    |log| >= 2 && log[|log| - 1] == To(Failing) && log[|log| - 2].OwnerSaid? && !log[|log| - 2].yes
  }

  /** The script obeys the owner. */
  lemma ScriptObeysAnswers(log: seq<Deed>, turns: seq<Turn>)
    requires Scripted(log, turns)
    ensures AnswersObeyed(log)
  {
    forall i | 0 <= i < |log| && log[i].OwnerSaid?
      ensures i + 1 < |log| ==> log[i + 1] in {Begun, To(if log[i].yes then Running else Failing)}
      ensures i + 2 < |log| && !log[i].yes ==> log[i + 1].Begun? || log[i + 2].Begun?
    {
      assert turns[i + 1] == if log[i].yes then Approved else Refused;
      if i + 1 < |log| { assert turns[i + 2] == NextTurn(turns[i + 1], log[i + 1]); }
      if i + 2 < |log| { assert turns[i + 3] == NextTurn(turns[i + 2], log[i + 2]); }
    }
  }

  /** And only the owner's no lets the outcome fail. */
  lemma FailingIsRefused(log: seq<Deed>, turns: seq<Turn>)
    requires Scripted(log, turns)
    ensures turns[|log|] == Over(Failing) <==> OwnerRefused(log)
  {
    var n := |log| - 1;
    if n >= 1 {
      assert turns[n + 1] == NextTurn(turns[n], log[n]);
      assert turns[n] == NextTurn(turns[n - 1], log[n - 1]);
    } else if n == 0 {
      assert turns[1] == NextTurn(turns[0], log[0]);
    }
  }

  // ---------------------------------------------------------------- what always holds

  function AssignEntries(plan: seq<Entry>): nat {
    if plan == [] then 0 else (if plan[0].assign.Some? then 1 else 0) + AssignEntries(plan[1..])
  }

  function Without<T>(s: seq<T>, i: nat): (r: seq<T>)
    requires i < |s|
  {
    s[..i] + s[i + 1..]
  }

  lemma {:induction false} ConsumedEntry(plan: seq<Entry>, i: nat)
    requires i < |plan|
    ensures AssignEntries(Without(plan, i)) + (if plan[i].assign.Some? then 1 else 0) == AssignEntries(plan)
  {
    if i > 0 {
      ConsumedEntry(plan[1..], i - 1);
      assert Without(plan, i) == [plan[0]] + Without(plan[1..], i - 1);
    } else {
      assert Without(plan, i) == plan[1..];
    }
  }

  /** Every wait of the plan is stored as it is written. */
  predicate PlainPlan(plan: seq<Entry>) {
    forall i :: 0 <= i < |plan| && plan[i].wait.Some? && plan[i].wait.value.condition.Some? ==>
      PlainWait(plan[i].wait.value.condition.value)
  }

  predicate PlainWait(raw: Fields) { raw.Keys <= KnownKeys(raw) }

  predicate SameKey(a: WaitRow, b: WaitRow) { a.eventType == b.eventType && a.condition == b.condition }

  predicate OneLiveWaitEach(waits: seq<WaitRow>) {
    forall i, j :: 0 <= i < j < |waits| && LiveWait(waits[i]) && LiveWait(waits[j]) ==> !SameKey(waits[i], waits[j])
  }

  /** Stored conditions are canonical. */
  predicate Canonical(waits: seq<WaitRow>) {
    forall i :: 0 <= i < |waits| ==> ParsePredicate(Some(waits[i].condition)) == Some(waits[i].condition)
  }

  /** A criterion a worker verified points at a succeeded verifier that left evidence. */
  predicate Evidenced(c: Criterion, assignments: seq<Assignment>) {
    c.verifiedBy.Some? ==>
      && c.verifiedBy.value < |assignments|
      && IsProof(assignments[c.verifiedBy.value])
  }

  predicate IsProof(a: Assignment) { a.role == Verifier && a.progress == Succeeded && a.evidence > 0 }

  predicate CriteriaOk(status: Status, criteria: seq<Criterion>, assignments: seq<Assignment>) {
    && Numbered(criteria)
    && (status == Completed ==> AllResolved(criteria))
    && forall i :: 0 <= i < |criteria| ==> Evidenced(criteria[i], assignments)
  }

  /** Spend is within budget, until a builder's result replaces it with its own claim; stored refs are not empty. */
  predicate AssignmentOk(a: Assignment) {
    && (a.progress != Succeeded || a.role == Verifier ==> 0.0 <= a.spent <= a.budget)
    && forall i :: 0 <= i < |a.refs| ==> a.refs[i] != ""
  }

  predicate AssignmentsOk(assignments: seq<Assignment>) {
    forall i :: 0 <= i < |assignments| ==> AssignmentOk(assignments[i])
  }

  /** A verifier that is at work, or has succeeded. */
  predicate Verifies(a: Assignment) { a.role == Verifier && a.progress !in {Failure, Hindered} }

  predicate NoVerifier(assignments: seq<Assignment>) { forall i :: 0 <= i < |assignments| ==> !Verifies(assignments[i]) }

  predicate OneVerifier(assignments: seq<Assignment>) {
    forall i, j :: 0 <= i < j < |assignments| && Verifies(assignments[i]) ==> !Verifies(assignments[j])
  }

  /** No assignment from index `base` on is live. */
  predicate SettledFrom(assignments: seq<Assignment>, base: nat) {
    forall i :: base <= i < |assignments| ==> !Live(assignments[i])
  }

  function LiveOnes(assignments: seq<Assignment>): set<nat> {
    set i: nat | i < |assignments| && Live(assignments[i])
  }

  /** What others may do to the criteria: resolve some. */
  predicate CriteriaKept(a: seq<Criterion>, b: seq<Criterion>) {
    |a| == |b| && forall i :: 0 <= i < |a| ==>
      && a[i].ordinal == b[i].ordinal && a[i].ownerJudgment == b[i].ownerJudgment
      && a[i].verifiedBy == b[i].verifiedBy && (a[i].status == b[i].status || Resolved(b[i]))
  }

  /** What others may do to the waits: satisfy, expire or drop those that wait. */
  predicate WaitsKept(a: seq<WaitRow>, b: seq<WaitRow>) {
    |a| == |b| && forall i :: 0 <= i < |a| ==>
      SameKey(a[i], b[i]) && (a[i].status != Waiting ==> b[i].status == a[i].status)
  }

  // ---------------------------------------------------------------- the outcome

  class OutcomeRows {
    var status: Status
    var plan: seq<Entry>
    var criteria: seq<Criterion>
    var assignments: seq<Assignment>
    var waits: seq<WaitRow>

    /** Assign entries of the plan when counting began, and research dispatches since. */
    ghost const quota: nat
    ghost var dispatched: nat
    /** The first plan's waits were all plain. */
    ghost const plain: bool
    /** The live assignments at each park with the owner. */
    ghost var parkedOver: seq<set<nat>>
    /** The status the last transition read, and the one its update found. */
    ghost var lastRead: Status
    ghost var lastFound: Status
    /** What executors did. */
    ghost var script: Script
    /** How often the run has been through the lanes. */
    ghost var laps: nat

    ghost predicate CriteriaKeep()
      reads `status, `criteria, `assignments
    {
      CriteriaOk(status, criteria, assignments)
    }

    ghost predicate LedgerKeeps()
      reads `assignments
    {
      AssignmentsOk(assignments) && OneVerifier(assignments)
    }

    ghost predicate PlanKeeps()
      reads `plan, `dispatched
    {
      dispatched + AssignEntries(plan) <= quota && (plain ==> PlainPlan(plan))
    }

    ghost predicate WaitsKeep()
      reads `waits
    {
      Canonical(waits) && (plain ==> OneLiveWaitEach(waits))
    }

    ghost predicate ParksKeep()
      reads `parkedOver
    {
      forall i :: 0 <= i < |parkedOver| ==> parkedOver[i] == {}
    }

    ghost predicate Valid()
      reads `status, `plan, `criteria, `assignments, `waits, `dispatched, `parkedOver
    {
      CriteriaKeep() && LedgerKeeps() && PlanKeeps() && WaitsKeep() && ParksKeep()
    }

    constructor (plan: seq<Entry>, criteria: seq<Criterion>)
      requires Numbered(criteria) && forall i :: 0 <= i < |criteria| ==> criteria[i].verifiedBy.None?
      ensures Valid() && this.plan == plan && this.criteria == criteria && assignments == [] && status == Accepted
      ensures script.log == [] && script.turn == Over(Accepted) && dispatched == 0 && quota == AssignEntries(plan) && plain == PlainPlan(plan)
    {
      this.status, this.plan, this.criteria, assignments, waits := Accepted, plan, criteria, [], [];
      quota, dispatched, plain := AssignEntries(plan), 0, PlainPlan(plan);
      parkedOver, lastRead, lastFound, laps, script := [], Accepted, Accepted, 0, Record([], [Over(Accepted)], Over(Accepted));
    }

    /** The completion gates: every criterion resolved, and worker verification backed by a verifier. */
    predicate GateOpen(to: Status)
      reads this
    {
      to == Completed ==>
        && AllResolved(criteria)
        && ((exists i :: 0 <= i < |criteria| && criteria[i].verifiedBy.Some?) ==>
            exists k :: 0 <= k < |assignments| && IsProof(assignments[k]))
    }

    /** One act of the owner, the reaper or the scanner. */
    method Meddle()
      requires Valid()
      modifies `status, `criteria, `waits
      ensures Valid() && CriteriaKept(old(criteria), criteria) && WaitsKept(old(waits), waits)
      ensures Terminal(old(status)) ==> status == old(status)
    {
      if * {
        MoveOn();
      } else if * {
        ResolveOne();
      } else {
        WaitEnds();
      }
    }

    /** Somebody takes the outcome through the guard and the gates. */
    method MoveOn()
      requires Valid()
      modifies `status
      ensures Valid() && (Terminal(old(status)) ==> status == old(status))
    {
      var to: Status := *;
      if Edge(status, to) && GateOpen(to) { status := to; }
    }

    /** The owner verifies or waives a criterion. */
    method ResolveOne()
      requires Valid()
      modifies `criteria
      ensures Valid() && CriteriaKept(old(criteria), criteria)
    {
      var i: int, c: CriterionStatus := *, *;
      if 0 <= i < |criteria| && !Terminal(status) && (c == Verified || (c == Waived && criteria[i].verifiedBy.None?)) {
        criteria := criteria[i := criteria[i].(status := c)];
      }
    }

    /** A waiting wait is satisfied, expired or dropped. */
    method WaitEnds()
      requires Valid()
      modifies `waits
      ensures Valid() && WaitsKept(old(waits), waits)
    {
      var i: int, w: WaitStatus := *, *;
      if 0 <= i < |waits| && waits[i].status == Waiting {
        waits := waits[i := waits[i].(status := w)];
      }
    }

    method Interfere()
      requires Valid()
      modifies `status, `criteria, `waits
      ensures Valid() && CriteriaKept(old(criteria), criteria) && WaitsKept(old(waits), waits)
      ensures Terminal(old(status)) ==> status == old(status)
    {
      var n: int := *;
      while n > 0
        invariant Valid() && CriteriaKept(old(criteria), criteria) && WaitsKept(old(waits), waits)
        invariant Terminal(old(status)) ==> status == old(status)
      {
        Meddle();
        n := n - 1;
      }
    }

    /** A statement that touches none of these rows: grants, audit, the runs row, a durable sleep. */
    method Elsewhere() returns (r: Step<()>)
      requires Valid()
      modifies `status, `criteria, `waits
      ensures Valid() && CriteriaKept(old(criteria), criteria) && WaitsKept(old(waits), waits)
    {
      Interfere();
      if * { return Threw; }
      if * { return Died; }
      return Done(());
    }

    // -------------------------------------------------------------- the outcome row

    method ReadRow() returns (r: Step<(Status, seq<Entry>)>)
      requires Valid()
      modifies `status, `criteria, `waits
      ensures Valid() && CriteriaKept(old(criteria), criteria) && (r.Done? ==> r.value == (status, plan))
    {
      var _ :- Elsewhere();
      return Done((status, plan));
    }

    /**
     transitionOutcome: read, then update where the status is still the one read. What
     it returns is the row's status.
     */
    method Transition(to: Status) returns (r: Step<Status>)
      requires Valid() && !AfterAsking(script.turn, to).Broken?
      modifies `status, `criteria, `waits, `lastRead, `lastFound, `script
      ensures script.turn == AfterAsking(old(script.turn), to)
      ensures Valid() && CriteriaKept(old(criteria), criteria) && WaitsKept(old(waits), waits)
      ensures r.Done? ==> r.value == status == Moved(lastRead, lastFound, to)
      ensures r.Done? && lastRead != to && lastFound == lastRead ==> Edge(lastRead, to)
    {
      script := Extended(script, To(to));
      r := Move(to);
    }

    method Move(to: Status) returns (r: Step<Status>)
      requires Valid()
      modifies `status, `criteria, `waits, `lastRead, `lastFound
      ensures Valid() && CriteriaKept(old(criteria), criteria) && WaitsKept(old(waits), waits)
      ensures r.Done? ==> r.value == status == Moved(lastRead, lastFound, to)
      ensures r.Done? && lastRead != to && lastFound == lastRead ==> Edge(lastRead, to)
    {
      Interfere();
      if * { return Died; }
      var current := status;
      lastRead, lastFound := current, current;
      if current == to { return Done(to); }
      Interfere();
      lastFound := status;
      if status != current { return Done(status); }
      r := Update(to);
    }

    /** The update itself, behind the guard and the gates. */
    method Update(to: Status) returns (r: Step<Status>)
      requires Valid()
      modifies `status
      ensures Valid()
      ensures r.Done? ==> r.value == status == to && Edge(old(status), to)
    {
      if !Edge(status, to) || !GateOpen(to) { return Threw; }
      if * { return Threw; }
      status := to;
      if * { return Died; }
      return Done(to);
    }

    method WritePlan(remaining: seq<Entry>, ghost assign: bool) returns (r: Step<()>)
      requires Valid() && (if assign then script.turn.WithWork? else script.turn.WaitMet? || script.turn.Rechecking?)
      requires dispatched + AssignEntries(remaining) <= quota
      requires plain ==> PlainPlan(remaining)
      modifies `status, `criteria, `waits, `plan, `script
      ensures Valid() && WaitsKept(old(waits), waits) && (r.Done? ==> plan == remaining && script.turn == if assign then MayCall(Research) else BackFromWait)
      ensures plan == old(plan) || plan == remaining
    {
      var _ :- Elsewhere();
      plan := remaining;
      script := Extended(script, Consumed(assign));
      if * { return Died; }
      return Done(());
    }

    // -------------------------------------------------------------- criteria and waits

    method ReadCriteria() returns (r: Step<seq<Criterion>>)
      requires Valid()
      modifies `status, `criteria, `waits
      ensures Valid() && CriteriaKept(old(criteria), criteria) && (r.Done? ==> r.value == criteria)
    {
      var _ :- Elsewhere();
      return Done(criteria);
    }

    /** The newest live wait of this event type and condition, as the plan writes it. */
    method FindWait(eventType: string, raw: Option<Fields>) returns (r: Step<Option<nat>>)
      requires Valid()
      modifies `status, `criteria, `waits
      ensures Valid()
      ensures r.Done? && r.value.Some? ==> r.value.value < |waits| && IsFor(waits[r.value.value], eventType, raw)
      ensures r.Done? && r.value.None? ==> forall i :: 0 <= i < |waits| ==> !IsFor(waits[i], eventType, raw)
    {
      var _ :- Elsewhere();
      for i := |waits| downto 0
        invariant forall j :: i <= j < |waits| ==> !IsFor(waits[j], eventType, raw)
      {
        if IsFor(waits[i], eventType, raw) { return Done(Some(i)); }
      }
      return Done(None);
    }

    /** createOutcomeWait, called when no live wait was found. */
    method CreateWait(eventType: string, raw: Option<Fields>) returns (r: Step<nat>)
      requires Valid() && (plain && raw.Some? ==> PlainWait(raw.value))
      requires forall i :: 0 <= i < |waits| ==> !IsFor(waits[i], eventType, raw)
      modifies `status, `criteria, `waits
      ensures Valid() && (r.Done? ==> r.value < |waits| && ForSpec(waits[r.value], eventType, raw))
    {
      Interfere();
      var admitted := AdmitWait(eventType, raw);
      if admitted.Thrown? { return Threw; }
      if * { return Threw; }
      ParseIsIdempotent(raw);
      if plain { StoredAsWrittenExactly(raw.value); }
      waits := waits + [WaitRow(eventType, admitted.value, Waiting)];
      if * { return Threw; }
      if * { return Died; }
      return Done(|waits| - 1);
    }

    method WaitStatusOf(id: nat) returns (r: Step<WaitStatus>)
      requires Valid() && id < |waits| && (script.turn.InWait? || script.turn.Rechecking?)
      modifies `status, `criteria, `waits, `script
      ensures Valid() && WaitsKept(old(waits), waits)
      ensures r.Done? ==> r.value == waits[id].status && script.turn == if r.value == Satisfied then WaitMet else Rechecking
    {
      Interfere();
      if * { return Threw; }
      if * { return Died; }
      script := Extended(script, Rechecked(waits[id].status == Satisfied));
      return Done(waits[id].status);
    }

    // -------------------------------------------------------------- assignments

    /** createAssignment, with the checks that can fail for what the executor passes it. */
    method Mint(role: string, task: string, verifies: Option<nat>, budget: real) returns (r: Step<nat>)
      requires Valid() && script.turn.AtLane? && NoWaits(plan)
      requires role == "verifier" && verifies.Some? ==> NoAssigns(plan) && NoVerifier(assignments)
      modifies `status, `criteria, `waits, `assignments, `script
      ensures r.Done? ==> script.turn == if role == "verifier" then MayCall(Verifier) else WithWork
      ensures Valid()
      ensures r.Done? ==> MintsOk(role, task, verifies, budget, old(assignments)) && r.value == |old(assignments)|
      ensures r.Done? ==> assignments == old(assignments) + [Fresh(role, verifies, budget)]
      ensures r.Threw? && assignments != old(assignments) ==> MintsOk(role, task, verifies, budget, old(assignments))
      ensures !r.Done? ==> assignments == old(assignments) || assignments == old(assignments) + [Fresh(role, verifies, budget)]
    {
      Interfere();
      if !MintsOk(role, task, verifies, budget, assignments) { return Threw; }
      if * { return Threw; }
      if * { return Died; }
      assignments := assignments + [Fresh(role, verifies, budget)];
      script := Extended(script, Minted(RoleOf(role), plan));
      if * { return Threw; }
      if * { return Died; }
      return Done(|assignments| - 1);
    }

    /** transitionAssignment to running */
    method StartAssignment(id: nat) returns (r: Step<()>)
      requires Valid() && id < |assignments| && assignments[id].progress == Unstarted
      modifies `status, `criteria, `waits, `assignments
      ensures r.Done? ==> Allowed(old(assignments[id]), Begin)
      ensures Valid()
      ensures (assignments == old(assignments) && !r.Done?)
        || assignments == old(assignments)[id := After(old(assignments[id]), Begin)]
    {
      Interfere();
      if assignments[id].progress !in {Unstarted, InFlight, Hindered} { return Threw; }
      if * { return Threw; }
      if * { return Died; }
      assignments := assignments[id := assignments[id].(progress := InFlight)];
      if * { return Threw; }
      if * { return Died; }
      return Done(());
    }

    /** recordAssignmentSpend: added only while running and within the budget. */
    method RecordSpend(id: nat, cost: real) returns (r: Step<()>)
      requires Valid() && id < |assignments|
      modifies `status, `criteria, `waits, `assignments
      ensures r.Done? ==> Allowed(old(assignments[id]), Charge(cost))
      ensures Valid()
      ensures r.Done? ==> assignments == old(assignments)[id := After(old(assignments[id]), Charge(cost))]
      ensures r.Threw? ==> assignments == old(assignments)
      ensures assignments == old(assignments) || assignments == old(assignments)[id := After(old(assignments[id]), Charge(cost))]
    {
      Interfere();
      if * { return Died; }
      if !SpendFits(assignments[id], cost) { return Threw; }
      if * { return Threw; }
      assignments := assignments[id := Billed(assignments[id], cost)];
      if * { return Died; }
      return Done(());
    }

    /** terminateAssignment as failed or as blocked. */
    method Terminate(id: nat, to: Progress) returns (r: Step<()>)
      requires Valid() && id < |assignments| && to in {Failure, Hindered} && MayEnd(script.turn, to)
      modifies `status, `criteria, `waits, `assignments, `script
      ensures script.turn.GivingUp?
      ensures r.Done? ==> Allowed(old(assignments[id]), End(to))
      ensures Valid()
      ensures r.Done? ==> assignments == old(assignments)[id := After(old(assignments[id]), End(to))]
      ensures assignments == old(assignments)
        || assignments == old(assignments)[id := After(old(assignments[id]), End(to))]
    {
      script := Extended(script, Ended(to));
      r := Stop(id, to);
    }

    method Stop(id: nat, to: Progress) returns (r: Step<()>)
      requires Valid() && id < |assignments| && to in {Failure, Hindered}
      modifies `status, `criteria, `waits, `assignments
      ensures r.Done? ==> Allowed(old(assignments[id]), End(to))
      ensures Valid()
      ensures r.Done? ==> assignments == old(assignments)[id := After(old(assignments[id]), End(to))]
      ensures assignments == old(assignments)
        || assignments == old(assignments)[id := After(old(assignments[id]), End(to))]
    {
      Interfere();
      var a := assignments[id];
      if !Live(a) && a.progress != Hindered { return Threw; }
      if a.progress == Unstarted && to == Hindered { return Threw; }
      if * { return Threw; }
      if * { return Died; }
      assignments := assignments[id := a.(progress := to)];
      if * { return Threw; }
      if * { return Died; }
      return Done(());
    }

    /** completeAssignment: freezes the result, and the spend at what the result claims. */
    method Complete(id: nat, result: WorkResult) returns (r: Step<()>)
      requires Valid() && id < |assignments|
      requires assignments[id].role == Verifier ==> result.claimed <= assignments[id].budget
      requires MayStore(script.turn, assignments[id].role)
      modifies `status, `criteria, `waits, `assignments, `script
      ensures script.turn == if old(assignments[id]).role == Research then AtLane else Storing
      ensures r.Done? ==> Allowed(old(assignments[id]), Finish(result))
      ensures Valid()
      ensures r.Done? ==> assignments == old(assignments)[id := After(old(assignments[id]), Finish(result))]
      ensures assignments == old(assignments)
        || assignments == old(assignments)[id := After(old(assignments[id]), Finish(result))]
    {
      script := Extended(script, Stored(assignments[id].role));
      r := Freeze(id, result);
    }

    method Freeze(id: nat, result: WorkResult) returns (r: Step<()>)
      requires Valid() && id < |assignments|
      requires assignments[id].role == Verifier ==> result.claimed <= assignments[id].budget
      modifies `status, `criteria, `waits, `assignments
      ensures r.Done? ==> Allowed(old(assignments[id]), Finish(result))
      ensures Valid()
      ensures r.Done? ==> assignments == old(assignments)[id := After(old(assignments[id]), Finish(result))]
      ensures assignments == old(assignments)
        || assignments == old(assignments)[id := After(old(assignments[id]), Finish(result))]
    {
      Interfere();
      if !ResultFits(result) || assignments[id].progress != InFlight { return Threw; }
      if * { return Threw; }
      if * { return Died; }
      assignments := assignments[id := Finished(assignments[id], result)];
      if * { return Threw; }
      if * { return Died; }
      return Done(());
    }

    /** The model call: a research dispatch is counted when it is made. */
    method CallModel(research: bool) returns (r: Step<Reply>)
      requires Valid() && (research ==> dispatched + 1 + AssignEntries(plan) <= quota)
      requires script.turn == MayCall(if research then Research else Verifier)
      modifies `status, `criteria, `waits, `dispatched, `script
      ensures Valid() && script.turn == InCall(if research then Research else Verifier)
      ensures dispatched == old(dispatched) + (if research then 1 else 0)
    {
      Interfere();
      dispatched := dispatched + if research then 1 else 0;
      script := Extended(script, Called(if research then Research else Verifier));
      var reply: Reply := *;
      if * { return Threw; }
      if * { return Died; }
      return Done(reply);
    }

    /** A live assignment, if any. */
    method FindLive() returns (r: Step<Option<nat>>)
      requires Valid()
      modifies `status, `criteria, `waits
      ensures Valid()
      ensures r.Done? && r.value.Some? ==> r.value.value < |assignments| && Live(assignments[r.value.value])
      ensures r.Done? && r.value.None? ==> forall i :: 0 <= i < |assignments| ==> !Live(assignments[i])
    {
      var _ :- Elsewhere();
      var i := Newest(assignments, a => Live(a));
      return Done(i);
    }

    /** The builder the verifier lane takes: the succeeded research assignment updated last, whichever that is. */
    method FindBuilder() returns (r: Step<Option<nat>>)
      requires Valid()
      modifies `status, `criteria, `waits
      ensures Valid() && CriteriaKept(old(criteria), criteria)
      ensures r.Done? && r.value.Some? ==> r.value.value < |assignments| && IsBuilder(assignments[r.value.value])
      ensures r.Done? && r.value.None? ==> forall i :: 0 <= i < |assignments| ==> !IsBuilder(assignments[i])
    {
      var _ :- Elsewhere();
      var i: int := *;
      if 0 <= i < |assignments| && IsBuilder(assignments[i]) { return Done(Some(i)); }
      return Done(Newest(assignments, a => IsBuilder(a)));
    }

    // -------------------------------------------------------------- the verdict and the owner

    /** setCriterionStatus for one verdict: refused once the outcome is terminal. */
    method SetCriterion(v: Verdict, verifier: nat) returns (r: Step<()>)
      requires Valid() && (v.value == Confirmed ==> verifier < |assignments| && IsProof(assignments[verifier]))
      modifies `status, `criteria, `waits
      ensures Valid() && |criteria| == |old(criteria)|
      ensures r.Done? ==> forall i :: 0 <= i < |criteria| ==>
        if criteria[i].ordinal == v.ordinal then DecidedOrOwned(criteria[i], v, verifier)
        else KeptOrOwned(old(criteria)[i], criteria[i])
      ensures forall i :: 0 <= i < |criteria| ==> criteria[i].ordinal == old(criteria)[i].ordinal
    {
      Interfere();
      if Terminal(status) { return Threw; }
      if * { return Threw; }
      criteria := ApplyOne(criteria, v, verifier);
      if * { return Threw; }
      if * { return Died; }
      return Done(());
    }

    /** applyVerifierVerdict: its checks, then one update a verdict. */
    method ApplyVerdict(verifier: nat, vs: seq<Verdict>) returns (r: Step<()>)
      requires Valid() && Distinct(vs) && script.turn.Storing?
      requires (exists k :: 0 <= k < |vs| && vs[k].value == Confirmed) ==>
                 verifier < |assignments| && IsProof(assignments[verifier])
      modifies `status, `criteria, `waits, `script
      ensures Valid() && script.turn == (if r.Done? then AtLane else GivingUp)
      ensures r.Done? ==> AllDecided(criteria, vs, verifier)
    {
      r := Decide(verifier, vs);
      script := Extended(script, Judged(r.Done?));
    }

    method Decide(verifier: nat, vs: seq<Verdict>) returns (r: Step<()>)
      requires Valid() && Distinct(vs)
      requires (exists k :: 0 <= k < |vs| && vs[k].value == Confirmed) ==>
                 verifier < |assignments| && IsProof(assignments[verifier])
      modifies `status, `criteria, `waits
      ensures Valid() && (r.Done? ==> AllDecided(criteria, vs, verifier))
    {
      Interfere();
      if !Binds(assignments, verifier) || !ServiceAccepts(vs, criteria, |assignments[assignments[verifier].verifies.value].refs|) {
        return Threw;
      }
      for j := 0 to |vs|
        invariant Valid() && AllDecided(criteria, vs[..j], verifier)
      {
        ghost var before := criteria;
        var _ :- SetCriterion(vs[j], verifier);
        OneMoreDecided(before, criteria, vs, j, verifier);
      }
      assert vs[..|vs|] == vs;
      return Done(());
    }

    /** pauseForApproval: the outcome is with the owner, over whatever is live now. */
    method AskOwner() returns (r: Step<bool>)
      requires Valid() && LiveOnes(assignments) == {} && script.turn.WithOwner? && NoWaits(plan) && NoAssigns(plan)
      modifies `status, `criteria, `waits, `parkedOver, `script
      ensures Valid() && parkedOver == old(parkedOver) + [{}]
      ensures r.Done? ==> script.turn == if r.value then Approved else Refused
    {
      parkedOver := parkedOver + [LiveOnes(assignments)];
      var _ :- Elsewhere();
      var approved: bool := *;
      script := Extended(script, OwnerSaid(approved, plan));
      return Done(approved);
    }
  }

  // ---------------------------------------------------------------- assignments as values

  /** A worker's result after its citations were reconciled. */
  datatype WorkResult = WorkResult(refs: seq<string>, evidence: nat, claimed: real, fits: bool)

  /** What the harness returns; `verdict` is the text read as a verdict envelope. */
  datatype Reply = Reply(cost: real, ok: bool, result: Option<WorkResult>, verdict: Option<RawResult>)

  predicate ResultFits(w: WorkResult) {
    w.fits && w.claimed >= 0.0 && |w.refs| <= 20 && forall i :: 0 <= i < |w.refs| ==> w.refs[i] != ""
  }

  function Finished(a: Assignment, w: WorkResult): Assignment {
    a.(progress := Succeeded, refs := w.refs, evidence := w.evidence, spent := w.claimed)
  }

  predicate SpendFits(a: Assignment, cost: real) {
    cost >= 0.0 && a.progress == InFlight && a.spent + cost <= a.budget
  }

  function Billed(a: Assignment, cost: real): Assignment { a.(spent := a.spent + cost) }

  /** What can happen to an assignment after it is minted. */
  datatype Act = Begin | Charge(cost: real) | Finish(result: WorkResult) | End(to: Progress)

  predicate Allowed(a: Assignment, act: Act) {
    match act
    case Begin => a.progress in {Unstarted, InFlight, Hindered}
    case Charge(cost) => SpendFits(a, cost)
    case Finish(result) => a.progress == InFlight && ResultFits(result)
    case End(to) => to in {Failure, Hindered} && (Live(a) || a.progress == Hindered) && !(a.progress == Unstarted && to == Hindered)
  }

  function After(a: Assignment, act: Act): Assignment {
    match act
    case Begin => a.(progress := InFlight)
    case Charge(cost) => Billed(a, cost)
    case Finish(result) => Finished(a, result)
    case End(to) => a.(progress := to)
  }

  ghost predicate Lives(a: Assignment, acts: seq<Act>, b: Assignment)
    decreases |acts|
  {
    if acts == [] then a == b else Allowed(a, acts[0]) && Lives(After(a, acts[0]), acts[1..], b)
  }

  function Measured(acts: seq<Act>): real {
    if acts == [] then 0.0 else (if acts[0].Charge? then acts[0].cost else 0.0) + Measured(acts[1..])
  }

  /** The cost the stored result claims. */
  function Claimed(acts: seq<Act>): Option<real> {
    if acts == [] then None
    else if Claimed(acts[1..]).Some? then Claimed(acts[1..])
    else if acts[0].Finish? then Some(acts[0].result.claimed) else None
  }

  /** Once succeeded, nothing more happens. */
  lemma {:induction false} SucceededIsFinal(a: Assignment, acts: seq<Act>, b: Assignment)
    requires a.progress == Succeeded && Lives(a, acts, b)
    ensures acts == [] && a == b
  {
  }

  /**
   The ledger over an assignment's life: what was measured stays within the budget; what
   is recorded is that, until a result is stored, and then what the result claims. So
   the record is within the budget exactly when the claim is, and it is the measured
   spend exactly when the claim is.
   */
  lemma {:induction false} RecordedSpendExactly(a: Assignment, acts: seq<Act>, b: Assignment)
    requires Lives(a, acts, b) && a.spent <= a.budget
    ensures b.budget == a.budget && b.role == a.role && a.spent + Measured(acts) <= b.budget
    ensures b.spent == if Claimed(acts).Some? then Claimed(acts).value else a.spent + Measured(acts)
    ensures b.spent <= b.budget <==> Claimed(acts).None? || Claimed(acts).value <= b.budget
    decreases |acts|
  {
    if acts != [] {
      var next := After(a, acts[0]);
      if acts[0].Finish? {
        SucceededIsFinal(next, acts[1..], b);
      } else {
        RecordedSpendExactly(next, acts[1..], b);
      }
    }
  }

  /** A builder of one dollar that is recorded as having spent a thousand. */
  lemma ClaimOverBudget() returns (acts: seq<Act>, b: Assignment)
    ensures MintsOk("research", "t", None, 1.0, []) && Lives(Fresh("research", None, 1.0), acts, b)
    ensures b.progress == Succeeded && b.budget == 1.0 && Measured(acts) == 0.5 && b.spent == 1000.0
  {
    var a := Fresh("research", None, 1.0);
    var result := WorkResult(["r"], 1, 1000.0, true);
    acts := [Begin, Charge(0.5), Finish(result)];
    b := After(After(After(a, Begin), Charge(0.5)), Finish(result));
    assert Trim("t") == "t";
    AsciiUnits("t");
    assert acts[1..] == [Charge(0.5), Finish(result)] && acts[1..][1..] == [Finish(result)] && acts[1..][1..][1..] == [];
    assert Lives(b, [], b);
    assert Lives(After(After(a, Begin), Charge(0.5)), [Finish(result)], b);
    assert Measured([Finish(result)]) == 0.0;
  }

  function RoleOf(role: string): Role { if role == "verifier" then Verifier else Research }

  function Fresh(role: string, verifies: Option<nat>, budget: real): Assignment {
    Assignment(RoleOf(role), Unstarted, verifies, budget, 0.0, [], 0)
  }

  predicate MintsOk(role: string, task: string, verifies: Option<nat>, budget: real, assignments: seq<Assignment>) {
    && role in {"research", "verifier"} && Trim(task) != "" && CodeUnits(Trim(task)) <= 200 && 0.0 < budget <= 50.0
    && (role == "verifier" ==>
          && verifies.Some? && verifies.value < |assignments|
          && assignments[verifies.value].role == Research && assignments[verifies.value].progress == Succeeded)
  }

  predicate IsBuilder(a: Assignment) { a.role == Research && a.progress == Succeeded }

  /** The verifier assignment succeeded and is bound to a succeeded builder. */
  predicate Binds(assignments: seq<Assignment>, verifier: nat) {
    && verifier < |assignments| && assignments[verifier].role == Verifier && assignments[verifier].progress == Succeeded
    && assignments[verifier].verifies.Some? && assignments[verifier].verifies.value < |assignments|
    && assignments[assignments[verifier].verifies.value].role == Research
    && assignments[assignments[verifier].verifies.value].progress == Succeeded
  }

  /** The criterion is as the verdict says, unless the owner has resolved it since. */
  predicate DecidedOrOwned(c: Criterion, v: Verdict, verifier: nat) {
    && (c.status == StatusOf(v.value) || Resolved(c))
    && (v.value == Confirmed ==> c.verifiedBy == Some(verifier))
  }

  predicate AllDecided(criteria: seq<Criterion>, vs: seq<Verdict>, verifier: nat) {
    forall i, k :: 0 <= i < |criteria| && 0 <= k < |vs| && criteria[i].ordinal == vs[k].ordinal ==>
      DecidedOrOwned(criteria[i], vs[k], verifier)
  }

  /** A criterion that only its owner may have touched. */
  predicate KeptOrOwned(a: Criterion, b: Criterion) {
    a.ordinal == b.ordinal && a.verifiedBy == b.verifiedBy && (a.status == b.status || Resolved(b))
  }

  lemma OneMoreDecided(before: seq<Criterion>, after: seq<Criterion>, vs: seq<Verdict>, j: nat, verifier: nat)
    requires j < |vs| && Distinct(vs) && |before| == |after| && AllDecided(before, vs[..j], verifier)
    requires forall i :: 0 <= i < |after| ==>
      if after[i].ordinal == vs[j].ordinal then DecidedOrOwned(after[i], vs[j], verifier) else KeptOrOwned(before[i], after[i])
    ensures AllDecided(after, vs[..j + 1], verifier)
  {
    forall i, k | 0 <= i < |after| && 0 <= k < j + 1 && after[i].ordinal == vs[k].ordinal
      ensures DecidedOrOwned(after[i], vs[k], verifier)
    {
      if k < j {
        assert vs[..j][k] == vs[k] && vs[k].ordinal != vs[j].ordinal;
      }
    }
  }

  /** The last index whose assignment is `wanted`. */
  function Newest(assignments: seq<Assignment>, wanted: Assignment -> bool): (r: Option<nat>)
    ensures r.Some? ==> r.value < |assignments| && wanted(assignments[r.value])
    ensures r.None? ==> forall i :: 0 <= i < |assignments| ==> !wanted(assignments[i])
  {
    if assignments == [] then None
    else if wanted(assignments[|assignments| - 1]) then Some(|assignments| - 1)
    else Newest(assignments[..|assignments| - 1], wanted)
  }

  /** The wait is for this event and, canonically, this condition. */
  predicate ForSpec(w: WaitRow, eventType: string, raw: Option<Fields>) {
    w.eventType == eventType && ParsePredicate(raw) == Some(w.condition)
  }

  predicate IsFor(w: WaitRow, eventType: string, raw: Option<Fields>) {
    w.eventType == eventType && raw == Some(w.condition) && LiveWait(w)
  }

  // ---------------------------------------------------------------- replaying the wait

  predicate Finds(waits: seq<WaitRow>, eventType: string, raw: Option<Fields>) {
    exists i :: 0 <= i < |waits| && IsFor(waits[i], eventType, raw)
  }

  /** Reuse the wait or make it, as one undisturbed pass over a plan entry does. */
  function WaitEnsured(waits: seq<WaitRow>, eventType: string, raw: Option<Fields>): seq<WaitRow> {
    var admitted := AdmitWait(eventType, raw);
    if Finds(waits, eventType, raw) || admitted.Thrown? then waits
    else waits + [WaitRow(eventType, admitted.value, Waiting)]
  }

  /**
   Replaying the pass makes no second wait exactly when the condition is stored as it
   is written: the lookup compares what the plan says with what was stored.
   */
  lemma ReplayReusesWaitExactly(waits: seq<WaitRow>, eventType: string, raw: Option<Fields>)
    requires Canonical(waits) && AdmitWait(eventType, raw).Ok?
    ensures WaitEnsured(WaitEnsured(waits, eventType, raw), eventType, raw) == WaitEnsured(waits, eventType, raw)
       <==> PlainWait(raw.value)
  {
    var once := WaitEnsured(waits, eventType, raw);
    StoredAsWrittenExactly(raw.value);
    ParseIsIdempotent(raw);
    if PlainWait(raw.value) {
      assert !Finds(waits, eventType, raw) ==> IsFor(once[|waits|], eventType, raw);
    } else {
      assert ParsePredicate(raw) != raw;
      assert forall i :: 0 <= i < |waits| ==> Some(waits[i].condition) != raw;
      assert once == waits + [WaitRow(eventType, ParsePredicate(raw).value, Waiting)];
    }
  }

  /** A condition with a note in it, waited for twice. */
  lemma NotedConditionMintsTwice() returns (raw: Option<Fields>)
    ensures AdmitWait(CALENDAR_CREATED, raw).Ok?
    ensures |WaitEnsured(WaitEnsured([], CALENDAR_CREATED, raw), CALENDAR_CREATED, raw)| == 2
  {
    raw := Some(map["v" := Number(1.0), "type" := Text("arrival"), "source" := Text("calendar"), "note" := OtherJson]);
    assert "note" in raw.value && "note" !in KnownKeys(raw.value);
    ReplayReusesWaitExactly([], CALENDAR_CREATED, raw);
  }
}
