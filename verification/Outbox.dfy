/**
 The outbox dispatcher (apps/api/src/outbox.ts): claim, hand to the handler, mark,
 requeue. Each SQL statement is one atomic step; drains may overlap and die.
 */
module Outbox {
  import opened Prelude

  type Id = nat

  datatype Status = Pending | Dispatched | Failed

  /** A row of the outbox table; updatedAt in milliseconds. */
  datatype Row = Row(status: Status, attempts: nat, updatedAt: real)

  datatype Policy = Policy(maxAttempts: int, baseMs: real, capMs: real)

  // ---------------------------------------------------------------- backoff

  function Pow2(k: int): (r: real)
    ensures r > 0.0
    decreases if k < 0 then -k else k
  {
    if k == 0 then 1.0 else if k > 0 then 2.0 * Pow2(k - 1) else Pow2(k + 1) / 2.0
  }

  function Least(a: real, b: real): real { if a <= b then a else b }

  /** outboxBackoffMs */
  function BackoffMs(attempts: nat, policy: Policy): real {
    var exponent := if attempts - 1 < 0 then 0 else attempts - 1;
    Least(policy.capMs, policy.baseMs * Pow2(exponent))
  }

  /** The window the requeue statement computes. */
  function SqlWindow(attempts: nat, policy: Policy): real {
    Least(policy.capMs, policy.baseMs * Pow2(attempts - 1))
  }

  /** The two formulas agree for every row that has been claimed, and only then unless the cap hides the difference. */
  lemma WindowsAgreeExactly(attempts: nat, policy: Policy)
    requires policy.baseMs > 0.0
    ensures SqlWindow(attempts, policy) == BackoffMs(attempts, policy)
       <==> attempts >= 1 || policy.capMs <= policy.baseMs / 2.0
  {
    assert Pow2(-1) == 0.5;
  }

  /**
   The backoff is the base after the first attempt and doubles with every further one,
   up to the cap.
   */
  lemma BackoffDoubles(attempts: nat, policy: Policy)
    requires policy.baseMs >= 0.0 && policy.capMs >= 0.0
    ensures BackoffMs(0, policy) == BackoffMs(1, policy) == Least(policy.capMs, policy.baseMs)
    ensures attempts >= 1 ==> BackoffMs(attempts + 1, policy) == Least(policy.capMs, 2.0 * BackoffMs(attempts, policy))
  {
    assert Pow2(0) == 1.0;
    if attempts >= 1 {
      assert Pow2(attempts) == 2.0 * Pow2(attempts - 1);
      assert policy.baseMs * Pow2(attempts) == 2.0 * (policy.baseMs * Pow2(attempts - 1));
    }
  }

  /** How long a row rests after so many attempts. */
  function Rest(attempts: nat, policy: Policy): real {
    if attempts == 0 then 0.0
    else if attempts == 1 then Least(policy.capMs, policy.baseMs)
    else Least(policy.capMs, 2.0 * Rest(attempts - 1, policy))
  }

  lemma {:induction false} RestIsBackoff(attempts: nat, policy: Policy)
    requires attempts >= 1 && policy.baseMs >= 0.0 && policy.capMs >= 0.0
    ensures Rest(attempts, policy) == BackoffMs(attempts, policy) == SqlWindow(attempts, policy)
  {
    if attempts > 1 {
      RestIsBackoff(attempts - 1, policy);
      BackoffDoubles(attempts - 1, policy);
    } else {
      BackoffDoubles(0, policy);
    }
  }

  const DEFAULT_POLICY := Policy(5, 30_000.0, 900_000.0)

  /** Half a minute, one, two and four. */
  lemma DefaultRests()
    ensures Rest(1, DEFAULT_POLICY) == 30_000.0 && Rest(2, DEFAULT_POLICY) == 60_000.0
    ensures Rest(3, DEFAULT_POLICY) == 120_000.0 && Rest(4, DEFAULT_POLICY) == 240_000.0
  {
    assert Rest(2, DEFAULT_POLICY) == 60_000.0;
  }

  predicate Eligible(row: Row, policy: Policy, now: real) {
    && row.status == Failed && row.attempts < policy.maxAttempts
    && row.updatedAt <= now - SqlWindow(row.attempts, policy)
  }

  // ---------------------------------------------------------------- the machine

  /**
   A row with what has happened to it: claims not yet handed to the handler, calls
   in the handler, calls it resolved that are not marked yet; and, over all time,
   calls made, calls resolved, claims that ended before their call, and claims lost
   to a death before their mark.
   */
  datatype Entry = Entry(
    row: Row, claimed: nat, inHandler: nat, resolved: nat,
    calls: nat, resolutions: nat, uncalled: nat, lost: nat)

  type World = map<Id, Entry>

  datatype Stage = Claimed | InHandler | Resolved

  datatype Event =
    | Enqueue(id: Id, now: real)
    | Requeue(policy: Policy, now: real)
    | Claim(ids: set<Id>, now: real)
    | EnvelopeMissing(id: Id, now: real)
    | Call(id: Id)
    | Resolve(id: Id)
    | Reject(id: Id, now: real)          // the handler failed: marked failed
    | MarkDispatched(id: Id, now: real)
    | MarkFails(id: Id, now: real)       // the mark itself failed: caught, marked failed
    | Die(id: Id, stage: Stage)          // a drain died holding this claim

  predicate Enabled(w: World, e: Event) {
    match e
    case Enqueue(id, _) => id !in w
    case Requeue(_, _) => true
    case Claim(ids, _) => forall id :: id in ids ==> id in w && w[id].row.status == Pending
    case EnvelopeMissing(id, _) => id in w && w[id].claimed > 0
    case Call(id) => id in w && w[id].claimed > 0
    case Resolve(id) => id in w && w[id].inHandler > 0
    case Reject(id, _) => id in w && w[id].inHandler > 0
    case MarkDispatched(id, _) => id in w && w[id].resolved > 0
    case MarkFails(id, _) => id in w && w[id].resolved > 0
    case Die(id, Claimed) => id in w && w[id].claimed > 0
    case Die(id, InHandler) => id in w && w[id].inHandler > 0
    case Die(id, Resolved) => id in w && w[id].resolved > 0
  }

  function FreshEntry(now: real): Entry { Entry(Row(Pending, 0, now), 0, 0, 0, 0, 0, 0, 0) }

  function Marked(row: Row, status: Status, now: real): Row { row.(status := status, updatedAt := now) }

  /** What an event does to the one entry it is about. */
  function Touch(x: Entry, e: Event): Entry
    requires !e.Enqueue?
    requires e.EnvelopeMissing? || e.Call? || (e.Die? && e.stage.Claimed?) ==> x.claimed > 0
    requires e.Resolve? || e.Reject? || (e.Die? && e.stage.InHandler?) ==> x.inHandler > 0
    requires e.MarkDispatched? || e.MarkFails? || (e.Die? && e.stage.Resolved?) ==> x.resolved > 0
  {
    match e
    case Requeue(policy, now) =>
      if Eligible(x.row, policy, now) then x.(row := Marked(x.row, Pending, now)) else x
    case Claim(_, now) => x.(row := x.row.(attempts := x.row.attempts + 1, updatedAt := now), claimed := x.claimed + 1)
    case EnvelopeMissing(_, now) =>
      x.(row := Marked(x.row, Failed, now), claimed := x.claimed - 1, uncalled := x.uncalled + 1)
    case Call(_) => x.(claimed := x.claimed - 1, inHandler := x.inHandler + 1, calls := x.calls + 1)
    case Resolve(_) => x.(inHandler := x.inHandler - 1, resolved := x.resolved + 1, resolutions := x.resolutions + 1)
    case Reject(_, now) => x.(row := Marked(x.row, Failed, now), inHandler := x.inHandler - 1)
    case MarkDispatched(_, now) => x.(row := Marked(x.row, Dispatched, now), resolved := x.resolved - 1)
    case MarkFails(_, now) => x.(row := Marked(x.row, Failed, now), resolved := x.resolved - 1)
    case Die(_, Claimed) => x.(claimed := x.claimed - 1, uncalled := x.uncalled + 1, lost := x.lost + 1)
    case Die(_, InHandler) => x.(inHandler := x.inHandler - 1, lost := x.lost + 1)
    case Die(_, Resolved) => x.(resolved := x.resolved - 1, lost := x.lost + 1)
  }

  function Next(w: World, e: Event): World
    requires Enabled(w, e)
  {
    match e
    case Enqueue(id, now) => w[id := FreshEntry(now)]
    case Requeue(_, _) => map id | id in w :: Touch(w[id], e)
    case Claim(ids, _) => map id | id in w :: if id in ids then Touch(w[id], e) else w[id]
    case _ => w[e.id := Touch(w[e.id], e)]
  }

  /** Events that are not possible are passed over. */
  function Run(w: World, events: seq<Event>): World {
    if events == [] then w
    else
      var before := Run(w, events[..|events| - 1]);
      var e := events[|events| - 1];
      if Enabled(before, e) then Next(before, e) else before
  }

  // ------------------------------------------------- safety, any number of drains

  /** Every claim is pending, called or ended; every call is pending, resolved or ended. */
  predicate Accounted(x: Entry) {
    && x.row.attempts == x.claimed + x.calls + x.uncalled
    && x.inHandler + x.resolutions <= x.calls
    && x.resolved <= x.resolutions
    && (x.row.status == Dispatched ==> x.resolutions > 0)
    && (x.row.status == Failed ==> x.row.attempts > 0)
  }

  predicate AllAccounted(w: World) { forall id :: id in w ==> Accounted(w[id]) }

  lemma StepKeepsAccounts(w: World, e: Event)
    requires AllAccounted(w) && Enabled(w, e)
    ensures AllAccounted(Next(w, e))
  {
  }

  lemma {:induction false} RunKeepsAccounts(w: World, events: seq<Event>)
    requires AllAccounted(w)
    ensures AllAccounted(Run(w, events))
  {
    if events != [] {
      RunKeepsAccounts(w, events[..|events| - 1]);
      var before := Run(w, events[..|events| - 1]);
      if Enabled(before, events[|events| - 1]) {
        StepKeepsAccounts(before, events[|events| - 1]);
      }
    }
  }

  /**
   From an empty outbox, however drains overlap and die: a dispatched row has been
   resolved by its handler, and the handler was called at most `attempts` times.
   */
  lemma {:induction false} DispatchedMeansHandled(events: seq<Event>, id: Id)
    requires id in Run(map[], events)
    ensures var x := Run(map[], events)[id];
      && x.calls <= x.row.attempts
      && x.resolutions <= x.calls
      && (x.row.status == Dispatched ==> x.resolutions > 0)
      && (x.row.status == Failed ==> x.row.attempts >= 1)
  {
    RunKeepsAccounts(map[], events);
  }

  /** On every row a run can leave failed, the requeue statement uses the documented backoff. */
  lemma {:induction false} RequeueUsesBackoff(events: seq<Event>, id: Id, policy: Policy)
    requires id in Run(map[], events) && Run(map[], events)[id].row.status == Failed
    requires policy.baseMs > 0.0
    ensures var attempts := Run(map[], events)[id].row.attempts;
      SqlWindow(attempts, policy) == BackoffMs(attempts, policy)
  {
    RunKeepsAccounts(map[], events);
  }

  /** Claims of this row that no mark has closed yet. */
  function Outstanding(x: Entry): nat { x.claimed + x.inHandler + x.resolved }

  /** A dispatched row nobody holds a claim on stays dispatched in every run. */
  lemma {:induction false} UnclaimedDispatchedStays(w: World, events: seq<Event>, id: Id)
    requires id in w && w[id].row.status == Dispatched && Outstanding(w[id]) == 0
    ensures id in Run(w, events) && Run(w, events)[id] == w[id]
  {
    if events != [] {
      UnclaimedDispatchedStays(w, events[..|events| - 1], id);
    }
  }

  predicate StillDispatched(w: World, events: seq<Event>, id: Id) {
    id in Run(w, events) && Run(w, events)[id].row.status == Dispatched
  }

  /** The event by which an outstanding claim marks its row failed. */
  function Unmarking(x: Entry, id: Id): Event {
    if x.claimed > 0 then EnvelopeMissing(id, 0.0) else if x.inHandler > 0 then Reject(id, 0.0) else MarkFails(id, 0.0)
  }

  lemma ClaimUnmarks(w: World, id: Id)
    requires id in w && w[id].row.status == Dispatched && Outstanding(w[id]) > 0
    ensures !StillDispatched(w, [Unmarking(w[id], id)], id)
  {
    var e := Unmarking(w[id], id);
    assert [e][..0] == [];
    assert Run(w, [e]) == Next(w, e);
  }

  /**
   Marking a row failed asks for no status, so with overlapping drains dispatched
   is not final. It is final exactly when no drain still holds a claim on the row.
   */
  lemma DispatchedIsFinalExactly(w: World, id: Id)
    requires id in w && w[id].row.status == Dispatched
    ensures (forall events :: StillDispatched(w, events, id)) <==> Outstanding(w[id]) == 0
  {
    if Outstanding(w[id]) == 0 {
      forall events
        ensures StillDispatched(w, events, id)
      {
        UnclaimedDispatchedStays(w, events, id);
      }
    } else {
      ClaimUnmarks(w, id);
      assert !StillDispatched(w, [Unmarking(w[id], id)], id);
    }
  }

  function Held(x: Entry, stage: Stage): nat {
    match stage
    case Claimed => x.claimed
    case InHandler => x.inHandler
    case Resolved => x.resolved
  }

  /** A drain may die wherever it holds a claim; the row stays as it was, and the claim is lost. */
  lemma DyingLosesTheClaim(w: World, id: Id, stage: Stage)
    requires id in w && Held(w[id], stage) > 0
    ensures Enabled(w, Die(id, stage))
    ensures var x, y := w[id], Next(w, Die(id, stage))[id];
      y.row == x.row && y.lost == x.lost + 1 && Outstanding(y) + 1 == Outstanding(x)
      && y.calls == x.calls && y.resolutions == x.resolutions
  {
  }

  predicate NoDeaths(events: seq<Event>) { forall i :: 0 <= i < |events| ==> !events[i].Die? }

  // ---------------------------------------------------------------- one drainer

  /** With one drainer, requeues and claims happen only when no claim is open. */
  predicate Alone(w: World, e: Event, policy: Policy) {
    match e
    case Requeue(p, _) => p == policy && forall id :: id in w ==> Outstanding(w[id]) == 0
    case Claim(_, _) => forall id :: id in w ==> Outstanding(w[id]) == 0
    case _ => true
  }

  function RunAlone(w: World, events: seq<Event>, policy: Policy): World {
    if events == [] then w
    else
      var before := RunAlone(w, events[..|events| - 1], policy);
      var e := events[|events| - 1];
      if Enabled(before, e) && Alone(before, e, policy) then Next(before, e) else before
  }

  predicate Bounded(x: Entry, policy: Policy) {
    && Outstanding(x) <= 1
    && (Outstanding(x) == 1 ==> x.row.status == Pending)
    && x.row.attempts <= policy.maxAttempts + x.lost
    && (x.row.status == Pending && Outstanding(x) == 0 ==> x.row.attempts < policy.maxAttempts + x.lost)
  }

  predicate AllBounded(w: World, policy: Policy) { forall id :: id in w ==> Bounded(w[id], policy) }

  lemma AloneKeepsBounds(w: World, e: Event, policy: Policy)
    requires policy.maxAttempts >= 1 && AllBounded(w, policy) && Enabled(w, e) && Alone(w, e, policy)
    ensures AllBounded(Next(w, e), policy)
    ensures forall id :: id in w && w[id].row.status == Dispatched ==> Next(w, e)[id] == w[id]
  {
  }

  /** Where no drain dies, no claim is lost. */
  lemma {:induction false} NothingLost(events: seq<Event>, policy: Policy, id: Id)
    requires NoDeaths(events) && id in RunAlone(map[], events, policy)
    ensures RunAlone(map[], events, policy)[id].lost == 0
  {
    if events != [] {
      var before := RunAlone(map[], events[..|events| - 1], policy);
      if id in before { NothingLost(events[..|events| - 1], policy, id); }
    }
  }

  lemma {:induction false} RunAloneKeepsBounds(w: World, events: seq<Event>, policy: Policy)
    requires policy.maxAttempts >= 1 && AllBounded(w, policy)
    ensures AllBounded(RunAlone(w, events, policy), policy)
    ensures forall id :: id in w && w[id].row.status == Dispatched ==>
      id in RunAlone(w, events, policy) && RunAlone(w, events, policy)[id] == w[id]
  {
    if events != [] {
      RunAloneKeepsBounds(w, events[..|events| - 1], policy);
      var before := RunAlone(w, events[..|events| - 1], policy);
      var e := events[|events| - 1];
      if Enabled(before, e) && Alone(before, e, policy) {
        AloneKeepsBounds(before, e, policy);
      }
    }
  }

  /**
   With one drainer: dispatched is final, and the attempts of a row never exceed
   the policy by more than the times a drain died holding its claim.
   */
  lemma {:induction false} OneDrainer(events: seq<Event>, more: seq<Event>, policy: Policy, id: Id)
    requires policy.maxAttempts >= 1 && id in RunAlone(map[], events, policy)
    ensures var w := RunAlone(map[], events, policy);
      && w[id].row.attempts <= policy.maxAttempts + w[id].lost
      && (w[id].row.status == Dispatched ==>
            id in RunAlone(w, more, policy) && RunAlone(w, more, policy)[id] == w[id])
      && (NoDeaths(events) ==> w[id].row.attempts <= policy.maxAttempts)
  {
    if NoDeaths(events) { NothingLost(events, policy, id); }
    RunAloneKeepsBounds(map[], events, policy);
    RunAloneKeepsBounds(RunAlone(map[], events, policy), more, policy);
  }

  lemma {:induction false} AloneOneMore(w: World, events: seq<Event>, e: Event, policy: Policy)
    requires Enabled(RunAlone(w, events, policy), e) && Alone(RunAlone(w, events, policy), e, policy)
    ensures RunAlone(w, events + [e], policy) == Next(RunAlone(w, events, policy), e)
  {
    assert (events + [e])[..|events|] == events;
  }

  /** One attempt that the handler rejects. */
  lemma FirstAttemptRejected(id: Id, policy: Policy) returns (events: seq<Event>)
    ensures RunAlone(map[], events, policy) == map[id := Entry(Row(Failed, 1, 0.0), 0, 0, 0, 1, 0, 0, 0)]
  {
    events := [];
    AloneOneMore(map[], events, Enqueue(id, 0.0), policy);
    events := events + [Enqueue(id, 0.0)];
    AloneOneMore(map[], events, Claim({id}, 0.0), policy);
    events := events + [Claim({id}, 0.0)];
    assert RunAlone(map[], events, policy) == map[id := Entry(Row(Pending, 1, 0.0), 1, 0, 0, 0, 0, 0, 0)];
    AloneOneMore(map[], events, Call(id), policy);
    events := events + [Call(id)];
    AloneOneMore(map[], events, Reject(id, 0.0), policy);
    events := events + [Reject(id, 0.0)];
  }

  /** When it has rested, it is claimed again. */
  lemma ClaimedAgain(id: Id, policy: Policy) returns (events: seq<Event>)
    requires policy.maxAttempts >= 2 && policy.baseMs >= 0.0 && policy.capMs >= 0.0
    ensures RunAlone(map[], events, policy) == map[id := Entry(Row(Pending, 2, Rest(1, policy)), 1, 0, 0, 1, 0, 0, 0)]
  {
    var rested := Rest(1, policy);
    RestIsBackoff(1, policy);
    events := FirstAttemptRejected(id, policy);
    AloneOneMore(map[], events, Requeue(policy, rested), policy);
    events := events + [Requeue(policy, rested)];
    assert RunAlone(map[], events, policy) == map[id := Entry(Row(Pending, 1, rested), 0, 0, 0, 1, 0, 0, 0)];
    AloneOneMore(map[], events, Claim({id}, rested), policy);
    events := events + [Claim({id}, rested)];
  }

  /** One drainer does deliver: this time the handler resolves, and the row is dispatched. */
  lemma OneDrainerDelivers(id: Id, policy: Policy) returns (events: seq<Event>)
    requires policy.maxAttempts >= 2 && policy.baseMs >= 0.0 && policy.capMs >= 0.0
    ensures RunAlone(map[], events, policy) == map[id := Entry(Row(Dispatched, 2, 0.0), 0, 0, 0, 2, 1, 0, 0)]
  {
    events := ClaimedAgain(id, policy);
    AloneOneMore(map[], events, Call(id), policy);
    events := events + [Call(id)];
    AloneOneMore(map[], events, Resolve(id), policy);
    events := events + [Resolve(id)];
    assert RunAlone(map[], events, policy) == map[id := Entry(Row(Pending, 2, Rest(1, policy)), 0, 0, 1, 2, 1, 0, 0)];
    AloneOneMore(map[], events, MarkDispatched(id, 0.0), policy);
    events := events + [MarkDispatched(id, 0.0)];
  }
}
