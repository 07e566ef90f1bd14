/**
 drainOutbox and requeueFailed (apps/api/src/outbox.ts) over the table itself, and
 what repeated passes of one drainer achieve.
 */
module OutboxDrain {
  import opened Prelude
  import opened Outbox

  type Table = map<Id, Row>

  /** What a pass meets outside the table. */
  datatype Service = Service(
    present: Id -> bool,     // the event row exists
    resolves: Id -> bool,    // the handler resolves
    marks: Id -> bool,       // the dispatched mark goes through
    markedAt: Id -> real,    // the database clock at the mark
    claimedAt: real)

  datatype Options = Options(limit: nat, requeue: bool, policy: Policy, now: real)

  datatype DrainResult = DrainResult(requeued: nat, claimed: nat, dispatched: nat, failed: nat)

  // ---------------------------------------------------------------- what a pass computes

  function Requeued(rows: Table, policy: Policy, now: real): Table {
    map id | id in rows ::
      if Eligible(rows[id], policy, now) then Marked(rows[id], Pending, now) else rows[id]
  }

  /** The first `limit` pending rows in creation order. */
  function Pick(rows: Table, order: seq<Id>, limit: nat): (r: seq<Id>)
    ensures |r| <= limit && |r| <= |order|
    ensures forall id :: id in r ==> id in order && id in rows && rows[id].status == Pending
  {
    if order == [] || limit == 0 then []
    else if order[0] in rows && rows[order[0]].status == Pending then
      [order[0]] + Pick(rows, order[1..], limit - 1)
    else Pick(rows, order[1..], limit)
  }

  function IdSet(ids: seq<Id>): set<Id> { set id | id in ids }

  predicate Distinct(ids: seq<Id>) { forall i, j :: 0 <= i < j < |ids| ==> ids[i] != ids[j] }

  lemma {:induction false} PickIsDistinct(rows: Table, order: seq<Id>, limit: nat)
    requires Distinct(order)
    ensures Distinct(Pick(rows, order, limit))
  {
    if order != [] && limit > 0 {
      assert Distinct(order[1..]);
      assert order[0] !in order[1..];
      PickIsDistinct(rows, order[1..], limit - 1);
      PickIsDistinct(rows, order[1..], limit);
    }
  }

  predicate Delivered(id: Id, s: Service) { s.present(id) && s.resolves(id) && s.marks(id) }

  /** A claimed row at the end of the pass. */
  function Settled(row: Row, id: Id, s: Service): Row {
    Row(if Delivered(id, s) then Dispatched else Failed, row.attempts + 1, s.markedAt(id))
  }

  function Readied(rows: Table, o: Options): Table {
    if o.requeue then Requeued(rows, o.policy, o.now) else rows
  }

  /** The rows a pass claims, in its order. */
  function Picked(rows: Table, order: seq<Id>, o: Options): seq<Id> { Pick(Readied(rows, o), order, o.limit) }

  function Pass(rows: Table, order: seq<Id>, o: Options, s: Service): Table {
    var ready := Readied(rows, o);
    var picked := Picked(rows, order, o);
    map id | id in ready :: if id in picked then Settled(ready[id], id, s) else ready[id]
  }

  /** A failed row is made pending again exactly when attempts are left and it has rested since its last one. */
  lemma {:induction false} RequeuedExactly(rows: Table, id: Id, policy: Policy, now: real)
    requires id in rows && rows[id].status == Failed && rows[id].attempts >= 1
    requires policy.baseMs >= 0.0 && policy.capMs >= 0.0
    ensures Requeued(rows, policy, now)[id].status == Pending <==>
      rows[id].attempts < policy.maxAttempts && rows[id].updatedAt + Rest(rows[id].attempts, policy) <= now
  {
    RestIsBackoff(rows[id].attempts, policy);
  }

  /** Before that, a pass leaves it alone; and it never touches a dispatched row. */
  lemma RestingRowsAreLeftAlone(rows: Table, order: seq<Id>, o: Options, s: Service, id: Id)
    requires id in rows && o.policy.baseMs >= 0.0 && o.policy.capMs >= 0.0
    requires rows[id].status == Dispatched ||
      (rows[id].status == Failed && rows[id].attempts >= 1
       && (!o.requeue || rows[id].attempts >= o.policy.maxAttempts || o.now < rows[id].updatedAt + Rest(rows[id].attempts, o.policy)))
    ensures Pass(rows, order, o, s)[id] == rows[id]
  {
    if rows[id].status == Failed { RequeuedExactly(rows, id, o.policy, o.now); }
  }

  // ---------------------------------------------------------------- the table

  class OutboxTable {
    var rows: Table
    /** The rows with their history, and the events that led here. */
    ghost var world: World
    ghost var history: seq<Event>

    ghost predicate Valid()
      reads this
    {
      && world == Run(map[], history)
      && rows.Keys == world.Keys
      && forall id :: id in rows ==> rows[id] == world[id].row
    }

    constructor ()
      ensures Valid() && rows == map[] && history == []
    {
      rows, world, history := map[], map[], [];
    }

    /** One more event, in the model's books. */
    ghost method Record(e: Event)
      requires world == Run(map[], history) && Enabled(world, e)
      modifies this`world, this`history
      ensures world == Next(old(world), e) && history == old(history) + [e]
      ensures world == Run(map[], history)
    {
      world := Next(world, e);
      history := history + [e];
      assert history[..|history| - 1] == old(history);
    }

    method RequeueFailed(policy: Policy, now: real) returns (requeued: nat)
      requires Valid()
      modifies this
      ensures Valid() && rows == Requeued(old(rows), policy, now)
      ensures world == Next(old(world), Event.Requeue(policy, now))
      ensures history == old(history) + [Event.Requeue(policy, now)]
      ensures requeued == |set id | id in old(rows) && Eligible(old(rows)[id], policy, now)|
    {
      requeued := |set id | id in rows && Eligible(rows[id], policy, now)|;
      rows := Requeued(rows, policy, now);
      Record(Event.Requeue(policy, now));
    }

    method ClaimPending(order: seq<Id>, limit: nat, now: real) returns (picked: seq<Id>)
      requires Valid() && Distinct(order)
      modifies this
      ensures Valid() && picked == Pick(old(rows), order, limit) && Distinct(picked)
      ensures rows.Keys == old(rows).Keys
      ensures forall id :: id in rows ==>
        rows[id] == if id in picked then old(rows)[id].(attempts := old(rows)[id].attempts + 1, updatedAt := now)
                    else old(rows)[id]
      ensures forall id :: id in picked ==> id in world && world[id].claimed > 0
      ensures history == old(history) + [Event.Claim(IdSet(picked), now)]
    {
      picked := Pick(rows, order, limit);
      PickIsDistinct(rows, order, limit);
      Record(Event.Claim(IdSet(picked), now));
      rows := map id | id in rows ::
        if id in picked then rows[id].(attempts := rows[id].attempts + 1, updatedAt := now) else rows[id];
    }

    /** An event about one row leaves every other row's history alone. */
    ghost method RecordOne(e: Event)
      requires world == Run(map[], history) && Enabled(world, e)
      requires !e.Enqueue? && !e.Requeue? && !e.Claim?
      modifies this`world, this`history
      ensures world == old(world)[e.id := Touch(old(world)[e.id], e)] && history == old(history) + [e]
      ensures world == Run(map[], history)
    {
      Record(e);
    }

    method MarkDispatched(id: Id, now: real)
      requires Valid() && id in rows && world[id].resolved > 0
      modifies this
      ensures Valid() && rows == old(rows)[id := Marked(old(rows)[id], Dispatched, now)]
      ensures OnlyTouched(old(world), world, id) && history == old(history) + [Event.MarkDispatched(id, now)]
    {
      RecordOne(Event.MarkDispatched(id, now));
      rows := rows[id := Marked(rows[id], Dispatched, now)];
    }

    /** The one statement behind every failure; e says which failure it records. */
    method MarkFailed(id: Id, now: real, ghost e: Event)
      requires Valid() && id in rows && Enabled(world, e)
      requires e == EnvelopeMissing(id, now) || e == Reject(id, now) || e == MarkFails(id, now)
      modifies this
      ensures Valid() && rows == old(rows)[id := Marked(old(rows)[id], Failed, now)]
      ensures OnlyTouched(old(world), world, id) && history == old(history) + [e]
    {
      RecordOne(e);
      rows := rows[id := Marked(rows[id], Failed, now)];
    }

    method CallHandler(id: Id, s: Service) returns (ok: bool)
      requires Valid() && id in rows && world[id].claimed > 0
      modifies this`world, this`history
      ensures Valid() && ok == s.resolves(id)
      ensures if ok then world[id].resolved > 0 else world[id].inHandler > 0
      ensures OnlyTouched(old(world), world, id) && old(history) <= history
    {
      RecordOne(Event.Call(id));
      ok := s.resolves(id);
      if ok {
        RecordOne(Event.Resolve(id));
      }
    }

    /** One claimed row: handler and mark. */
    method Deliver(id: Id, s: Service) returns (dispatched: bool)
      requires Valid() && id in rows && world[id].claimed > 0
      modifies this
      ensures Valid() && dispatched == Delivered(id, s)
      ensures rows == old(rows)[id := AtEnd(old(rows)[id], id, s)]
      ensures OnlyTouched(old(world), world, id) && old(history) <= history
    {
      var now := s.markedAt(id);
      if !s.present(id) {
        MarkFailed(id, now, EnvelopeMissing(id, now));
        return false;
      }
      var ok := CallHandler(id, s);
      if !ok {
        MarkFailed(id, now, Reject(id, now));
        return false;
      }
      if !s.marks(id) {
        MarkFailed(id, now, MarkFails(id, now));
        return false;
      }
      MarkDispatched(id, now);
      dispatched := true;
    }

    /** Every claimed row in turn. */
    method DeliverAll(picked: seq<Id>, s: Service) returns (dispatched: nat, failed: nat)
      requires Valid() && Distinct(picked)
      requires forall id :: id in picked ==> id in rows && world[id].claimed > 0
      modifies this
      ensures Valid() && old(history) <= history
      ensures dispatched == CountDelivered(picked, s) && dispatched + failed == |picked|
      ensures rows.Keys == old(rows).Keys
      ensures forall id :: id in rows ==>
        rows[id] == if id in picked then AtEnd(old(rows)[id], id, s) else old(rows)[id]
    {
      dispatched, failed := 0, 0;
      for i := 0 to |picked|
        invariant Valid() && old(history) <= history
        invariant dispatched == CountDelivered(picked[..i], s) && dispatched + failed == i
        invariant AtEnds(old(rows), rows, picked[..i], s)
        invariant forall j :: i <= j < |picked| ==> world[picked[j]].claimed > 0
      {
        CountOneMore(picked, i, s);
        AtEndsOneMore(old(rows), rows, picked, i, s);
        var ok := Deliver(picked[i], s);
        if ok {
          dispatched := dispatched + 1;
        } else {
          failed := failed + 1;
        }
      }
      assert picked[..|picked|] == picked;
    }

    /**
     One pass. The table ends as Pass computes it, and every state on the way is one
     the event machine reaches (Valid), so what holds of all its runs holds here.
     */
    method DrainOutbox(order: seq<Id>, o: Options, s: Service) returns (r: DrainResult)
      requires Valid() && Distinct(order)
      modifies this
      ensures Valid() && rows == Pass(old(rows), order, o, s)
      ensures old(history) <= history
      ensures Counted(r, Picked(old(rows), order, o), s)
      ensures r.requeued == if o.requeue then |set id | id in old(rows) && Eligible(old(rows)[id], o.policy, o.now)| else 0
    {
      var requeued := 0;
      if o.requeue {
        requeued := RequeueFailed(o.policy, o.now);
      }
      ghost var ready := rows;
      var picked := ClaimPending(order, o.limit, s.claimedAt);
      if |picked| == 0 {
        PassComputed(old(rows), ready, rows, picked, order, o, s);
        return DrainResult(requeued, 0, 0, 0);
      }
      var dispatched, failed := DeliverAll(picked, s);
      PassComputed(old(rows), ready, rows, picked, order, o, s);
      r := DrainResult(requeued, |picked|, dispatched, failed);
    }
  }

  lemma {:induction false} PassComputed(rows: Table, ready: Table, after: Table, picked: seq<Id>, order: seq<Id>, o: Options, s: Service)
    requires ready == if o.requeue then Requeued(rows, o.policy, o.now) else rows
    requires picked == Pick(ready, order, o.limit) && after.Keys == ready.Keys
    requires forall id :: id in after ==>
      after[id] == if id in picked then Settled(ready[id], id, s) else ready[id]
    ensures after == Pass(rows, order, o, s)
  {
  }

  /** The counts of a pass over the rows it picked. */
  predicate Counted(r: DrainResult, picked: seq<Id>, s: Service) {
    r.claimed == |picked| && r.dispatched == CountDelivered(picked, s) && r.failed == |picked| - r.dispatched
  }

  lemma {:induction false} CountOneMore(ids: seq<Id>, i: nat, s: Service)
    requires i < |ids|
    ensures CountDelivered(ids[..i + 1], s) == CountDelivered(ids[..i], s) + if Delivered(ids[i], s) then 1 else 0
  {
    assert ids[..i + 1][..i] == ids[..i];
  }

  /** How many of these rows a handler took and the mark reached. */
  function CountDelivered(ids: seq<Id>, s: Service): (n: nat)
    ensures n <= |ids|
  {
    if ids == [] then 0
    else CountDelivered(ids[..|ids| - 1], s) + if Delivered(ids[|ids| - 1], s) then 1 else 0
  }

  /** A claimed row after its mark. */
  function AtEnd(row: Row, id: Id, s: Service): Row {
    Marked(row, if Delivered(id, s) then Dispatched else Failed, s.markedAt(id))
  }

  /** These rows after their marks, and the others as they were. */
  predicate AtEnds(before: Table, after: Table, done: seq<Id>, s: Service) {
    && after.Keys == before.Keys
    && forall id :: id in after ==> after[id] == if id in done then AtEnd(before[id], id, s) else before[id]
  }

  lemma AtEndsOneMore(before: Table, after: Table, picked: seq<Id>, i: nat, s: Service)
    requires Distinct(picked) && i < |picked| && picked[i] in after && AtEnds(before, after, picked[..i], s)
    ensures AtEnds(before, after[picked[i] := AtEnd(after[picked[i]], picked[i], s)], picked[..i + 1], s)
  {
    assert picked[i] !in picked[..i];
    assert picked[..i + 1] == picked[..i] + [picked[i]];
  }

  predicate OnlyTouched(before: World, after: World, id: Id) {
    after.Keys == before.Keys && forall other :: other in before && other != id ==> after[other] == before[other]
  }

  /**
   What every table state has in common, whatever drains have done to it: it is the
   table of a run of the event machine.
   */
  lemma TableIsSafe(t: OutboxTable, id: Id)
    requires t.Valid() && id in t.rows
    ensures t.world[id].calls <= t.rows[id].attempts
    ensures t.rows[id].status == Dispatched ==> t.world[id].resolutions > 0
  {
    DispatchedMeansHandled(t.history, id);
  }

  // ---------------------------------------------------------------- repeated passes

  datatype PassInput = PassInput(options: Options, service: Service)

  function Passes(rows: Table, order: seq<Id>, inputs: seq<PassInput>): Table {
    if inputs == [] then rows
    else
      var n := |inputs| - 1;
      Pass(Passes(rows, order, inputs[..n]), order, inputs[n].options, inputs[n].service)
  }

  /** Every pass requeues under one policy and takes the whole backlog. */
  predicate Draining(inputs: seq<PassInput>, policy: Policy, backlog: nat) {
    forall i :: 0 <= i < |inputs| ==>
      inputs[i].options.requeue && inputs[i].options.policy == policy && inputs[i].options.limit >= backlog
  }

  /** Passes lie at least the backoff cap apart. */
  ghost predicate Spaced(inputs: seq<PassInput>, policy: Policy) {
    forall i, id: Id {:trigger inputs[i].service.markedAt(id)} :: 0 <= i < |inputs| - 1 ==>
      inputs[i].service.markedAt(id) <= inputs[i + 1].options.now - policy.capMs
  }

  predicate Settles(row: Row, policy: Policy) {
    row.status == Dispatched || (row.status == Failed && row.attempts >= policy.maxAttempts)
  }

  lemma {:induction false} PickTakesAll(rows: Table, order: seq<Id>, limit: nat)
    requires limit >= |order|
    ensures forall id :: id in order && id in rows && rows[id].status == Pending ==> id in Pick(rows, order, limit)
  {
    if order != [] {
      PickTakesAll(rows, order[1..], limit - 1);
      PickTakesAll(rows, order[1..], limit);
    }
  }

  /** After n passes a row is settled or has failed n times, its last failure a backoff cap ago. */
  predicate Advanced(row: Row, n: nat, policy: Policy, before: real) {
    || row.status == Dispatched
    || (row.status == Failed && row.attempts >= policy.maxAttempts)
    || (row.status == Failed && row.attempts >= n && row.updatedAt <= before)
  }

  lemma OnePassAdvances(rows: Table, order: seq<Id>, input: PassInput, n: nat, policy: Policy)
    requires forall id :: id in rows ==> id in order
    requires Draining([input], policy, |order|)
    requires forall id :: id in rows ==>
      (rows[id].status == Pending && n == 0) || Advanced(rows[id], n, policy, input.options.now - policy.capMs)
    ensures var after := Pass(rows, order, input.options, input.service);
      && after.Keys == rows.Keys
      && forall id :: id in rows ==>
           Settles(after[id], policy)
           || (after[id].status == Failed && after[id].attempts >= n + 1 && after[id].updatedAt == input.service.markedAt(id))
  {
    assert [input][0] == input;
    var ready := Requeued(rows, policy, input.options.now);
    PickTakesAll(ready, order, input.options.limit);
    var picked := Pick(ready, order, input.options.limit);
    var after := Pass(rows, order, input.options, input.service);
    forall id | id in rows
      ensures Settles(after[id], policy)
        || (after[id].status == Failed && after[id].attempts >= n + 1 && after[id].updatedAt == input.service.markedAt(id))
    {
      assert id in picked ==> after[id] == Settled(ready[id], id, input.service);
      assert id !in picked ==> after[id] == ready[id];
    }
  }

  lemma {:induction false} PassesAdvance(rows: Table, order: seq<Id>, inputs: seq<PassInput>, policy: Policy)
    requires inputs != []
    requires forall id :: id in rows ==> id in order
    requires Draining(inputs, policy, |order|) && Spaced(inputs, policy)
    requires forall id :: id in rows && rows[id].status == Failed ==>
      rows[id].updatedAt <= inputs[0].options.now - policy.capMs
    ensures var after := Passes(rows, order, inputs);
      var last := inputs[|inputs| - 1].service;
      && after.Keys == rows.Keys
      && forall id :: id in rows ==>
           Settles(after[id], policy)
           || (after[id].status == Failed && after[id].attempts >= |inputs| && after[id].updatedAt == last.markedAt(id))
  {
    var n := |inputs| - 1;
    var before := Passes(rows, order, inputs[..n]);
    if n == 0 {
      OnePassAdvances(rows, order, inputs[0], 0, policy);
    } else {
      PassesAdvance(rows, order, inputs[..n], policy);
      forall id | id in before
        ensures Advanced(before[id], n, policy, inputs[n].options.now - policy.capMs)
      {
        var at := inputs[n - 1].service.markedAt(id);
        assert at <= inputs[n].options.now - policy.capMs;
      }
      OnePassAdvances(before, order, inputs[n], n, policy);
    }
  }

  /**
   With one drainer that does not die, no new rows, a limit above the backlog and
   passes a backoff cap apart, maxAttempts requeueing passes leave every row
   dispatched or exhausted, whatever the handlers do.
   */
  lemma {:induction false} OutboxDrains(rows: Table, order: seq<Id>, inputs: seq<PassInput>, policy: Policy)
    requires policy.maxAttempts >= 1 && |inputs| == policy.maxAttempts
    requires forall id :: id in rows ==> id in order
    requires Draining(inputs, policy, |order|) && Spaced(inputs, policy)
    requires forall id :: id in rows && rows[id].status == Failed ==>
      rows[id].updatedAt <= inputs[0].options.now - policy.capMs
    ensures forall id :: id in rows ==>
      id in Passes(rows, order, inputs) && Settles(Passes(rows, order, inputs)[id], policy)
  {
    PassesAdvance(rows, order, inputs, policy);
  }

  /**
   The same on the table itself: the passes one after the other compute what Passes says,
   every row ends dispatched or exhausted, none was handed over more often than it was
   claimed, and each dispatched one had a handler resolve.
   */
  method DrainRepeatedly(t: OutboxTable, order: seq<Id>, inputs: seq<PassInput>, policy: Policy)
    requires t.Valid() && Distinct(order) && policy.maxAttempts >= 1 && |inputs| == policy.maxAttempts
    requires forall id :: id in t.rows ==> id in order
    requires Draining(inputs, policy, |order|) && Spaced(inputs, policy)
    requires forall id :: id in t.rows && t.rows[id].status == Failed ==>
      t.rows[id].updatedAt <= inputs[0].options.now - policy.capMs
    modifies t
    ensures t.Valid() && t.rows == Passes(old(t.rows), order, inputs)
    ensures forall id :: id in old(t.rows) ==> id in t.rows && Settles(t.rows[id], policy)
    ensures forall id :: id in t.rows ==>
      t.world[id].calls <= t.rows[id].attempts && (t.rows[id].status == Dispatched ==> t.world[id].resolutions > 0)
  {
    ghost var before := t.rows;
    for n := 0 to |inputs|
      invariant t.Valid() && t.rows == Passes(before, order, inputs[..n])
    {
      assert inputs[..n + 1][..n] == inputs[..n] && inputs[..n + 1][n] == inputs[n];
      var _ := t.DrainOutbox(order, inputs[n].options, inputs[n].service);
    }
    assert inputs[..|inputs|] == inputs;
    OutboxDrains(before, order, inputs, policy);
    forall id | id in t.rows
      ensures t.world[id].calls <= t.rows[id].attempts && (t.rows[id].status == Dispatched ==> t.world[id].resolutions > 0)
    {
      TableIsSafe(t, id);
    }
  }
}
