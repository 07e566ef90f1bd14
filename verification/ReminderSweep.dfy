/**
 The reminder sweep (packages/workflow/src/reminder-workflows.ts) with its schedule
 (packages/core/src/reminders/lifecycle.ts) and its claim (queries.ts): claim before
 send, over overlapping ticks that may die at any step. Instants are local milliseconds
 of a zone whose days are all 24 hours long.
 */
module ReminderSweep {
  import opened Prelude

  const MINUTE := 60_000
  const HOUR := 3_600_000
  const DAY := 86_400_000

  datatype Kind = Morning | Probe | Nudge

  // REMINDER_POLICY
  const WORKDAY_START := 9 * HOUR
  const PROBE_TIME := 15 * HOUR + 30 * MINUTE
  const PROBE_OFFSET := 3 * HOUR
  const PROBE_LATEST_HOUR := 20
  const QUIET_START_HOUR := 22
  const QUIET_END_HOUR := 7
  const NUDGE_CAP := 2

  function DayOf(t: nat): nat { t / DAY * DAY }

  function HourOf(t: nat): nat { t % DAY / HOUR }

  /** An instant at the precision of the wall clock. */
  function WholeMinute(t: nat): nat { t / MINUTE * MINUTE }

  predicate IsQuiet(t: nat) { HourOf(t) >= QUIET_START_HOUR || HourOf(t) < QUIET_END_HOUR }

  function NextWorkday(t: nat): nat { DayOf(t) + DAY + WORKDAY_START }

  /** The probe after a morning touch that came later than the probe time. */
  function LateProbe(at: nat): nat {
    var offset := WholeMinute(at + PROBE_OFFSET);
    var capped := if HourOf(offset) > PROBE_LATEST_HOUR then DayOf(offset) + PROBE_LATEST_HOUR * HOUR else offset;
    if DayOf(capped) != DayOf(at) || capped <= at then NextWorkday(at) else capped
  }

  /** scheduleAfterTouch; None parks the reminder. */
  function ScheduleAfter(kind: Kind, at: nat, escalations: nat): Option<(nat, Kind)> {
    match kind
    case Morning =>
      if WholeMinute(at) - DayOf(at) <= PROBE_TIME then Some((DayOf(at) + PROBE_TIME, Probe))
      else Some((LateProbe(at), Probe))
    case Probe => Some((NextWorkday(at), Nudge))
    case Nudge => if escalations < NUDGE_CAP - 1 then Some((NextWorkday(at), Nudge)) else None
  }

  lemma DayBounds(t: nat)
    ensures DayOf(t) <= t < DayOf(t) + DAY && t - DayOf(t) == t % DAY
    ensures WholeMinute(t) <= t < WholeMinute(t) + MINUTE
  {
  }

  /** The follow-up of a touch at or after the probe time, claimed within the probe minute, is not later than the touch. */
  predicate AtProbeMinute(kind: Kind, touchAt: nat, now: nat) {
    && kind == Morning && DayOf(now) + PROBE_TIME <= touchAt <= now < DayOf(now) + PROBE_TIME + MINUTE
  }

  /** When a follow-up is later than the touch it follows, for every touch that is due. */
  lemma FollowUpIsLaterExactly(kind: Kind, touchAt: nat, now: nat, escalations: nat)
    requires touchAt <= now && ScheduleAfter(kind, now, escalations).Some?
    ensures ScheduleAfter(kind, now, escalations).value.0 > touchAt <==> !AtProbeMinute(kind, touchAt, now)
  {
    DayBounds(now);
    DayBounds(now + PROBE_OFFSET);
    if kind == Morning {
      MinuteOfDay(now);
    }
  }

  /** A morning touch of exactly the probe time, claimed within that minute, is scheduled again for the same instant. */
  predicate Repeats(kind: Kind, touchAt: nat, now: nat) {
    kind == Morning && touchAt == DayOf(now) + PROBE_TIME && now < touchAt + MINUTE
  }

  /** When a follow-up is for the very instant of the touch it follows. */
  lemma FollowUpRepeatsExactly(kind: Kind, touchAt: nat, now: nat, escalations: nat)
    requires touchAt <= now && ScheduleAfter(kind, now, escalations).Some?
    ensures ScheduleAfter(kind, now, escalations).value.0 == touchAt <==> Repeats(kind, touchAt, now)
  {
    FollowUpIsLaterExactly(kind, touchAt, now, escalations);
    MinuteOfDay(now);
  }

  /** Within the minute of its day's probe time, but after its start. */
  predicate InsideProbeMinute(t: nat) { DayOf(t) + PROBE_TIME < t < DayOf(t) + PROBE_TIME + MINUTE }

  predicate OnProbeTime(t: nat) { t == DayOf(t) + PROBE_TIME }

  lemma DayPlus(day: nat, k: nat)
    requires k < DAY
    ensures DayOf(DayOf(day) + k) == DayOf(day)
  {
    ClockOf(day / DAY, k);
  }

  lemma NextWorkdayIsLater(t: nat)
    ensures NextWorkday(t) > t && !InsideProbeMinute(NextWorkday(t)) && NextWorkday(t) >= DayOf(t) + DAY
  {
    DayBounds(t);
    ClockOf(t / DAY + 1, WORKDAY_START);
  }

  lemma LateProbePlace(at: nat)
    requires at >= DayOf(at) + PROBE_TIME + MINUTE
    ensures LateProbe(at) > at && !InsideProbeMinute(LateProbe(at))
  {
    NextWorkdayIsLater(at);
    DayBounds(at);
  }

  /** Where a follow-up that is no repetition lies. */
  lemma FollowUpPlace(kind: Kind, touchAt: nat, now: nat, escalations: nat)
    requires touchAt <= now && ScheduleAfter(kind, now, escalations).Some? && !Repeats(kind, touchAt, now)
    ensures var next := ScheduleAfter(kind, now, escalations).value.0;
      && !InsideProbeMinute(next)
      && (next > touchAt || (InsideProbeMinute(touchAt) && OnProbeTime(next) && next < touchAt < next + MINUTE))
      && (OnProbeTime(touchAt) ==> next >= touchAt + MINUTE)
  {
    DayBounds(now);
    DayBounds(touchAt);
    MinuteOfDay(now);
    NextWorkdayIsLater(now);
    DayPlus(now, PROBE_TIME);
    SameOrEarlierDay(touchAt, now);
    if kind == Morning && now >= DayOf(now) + PROBE_TIME + MINUTE {
      LateProbePlace(now);
    }
  }

  lemma SameOrEarlierDay(a: nat, b: nat)
    requires a <= b
    ensures DayOf(a) == DayOf(b) || DayOf(a) + DAY <= DayOf(b)
  {
    assert a / DAY <= b / DAY;
  }

  /** The wall clock's minute is past the probe time exactly when the probe minute is over. */
  lemma MinuteOfDay(now: nat)
    ensures WholeMinute(now) - DayOf(now) <= PROBE_TIME <==> now < DayOf(now) + PROBE_TIME + MINUTE
  {
    var day := now / DAY;
    assert DayOf(now) == day * 1440 * MINUTE;
    assert now < DayOf(now) + PROBE_TIME + MINUTE <==> now / MINUTE < day * 1440 + 931;
  }

  /** The clock on a given day. */
  lemma ClockOf(day: nat, k: nat)
    requires k < DAY
    ensures DayOf(day * DAY + k) == day * DAY && HourOf(day * DAY + k) == k / HOUR
  {
    assert (day * DAY + k) / DAY == day && (day * DAY + k) % DAY == k;
  }

  lemma WholeMinuteOf(day: nat, k: nat)
    ensures WholeMinute(day * DAY + k) == day * DAY + WholeMinute(k)
  {
    assert day * DAY + k == day * 1440 * MINUTE + k;
    assert (day * 1440 * MINUTE + k) / MINUTE == day * 1440 + k / MINUTE;
  }

  lemma LateProbeIsNeverQuiet(day: nat, k: nat)
    requires PROBE_TIME <= k < QUIET_START_HOUR * HOUR
    ensures !IsQuiet(LateProbe(day * DAY + k))
  {
    ClockOf(day, k);
    ClockOf(day + 1, WORKDAY_START);
    WholeMinuteOf(day, k + PROBE_OFFSET);
    var m := WholeMinute(k + PROBE_OFFSET);
    assert k + PROBE_OFFSET - MINUTE < m <= k + PROBE_OFFSET;
    if m < DAY {
      ClockOf(day, m);
      ClockOf(day, PROBE_LATEST_HOUR * HOUR);
    } else {
      ClockOf(day + 1, m - DAY);
    }
  }

  /** A touch outside the quiet hours never schedules one inside them. */
  lemma FollowUpIsNeverQuiet(kind: Kind, at: nat, escalations: nat)
    requires ScheduleAfter(kind, at, escalations).Some? && !IsQuiet(at)
    ensures !IsQuiet(ScheduleAfter(kind, at, escalations).value.0)
  {
    var day, k := at / DAY, at % DAY;
    ClockOf(day, k);
    ClockOf(day, PROBE_TIME);
    ClockOf(day + 1, WORKDAY_START);
    if kind == Morning && !(WholeMinute(at) - DayOf(at) <= PROBE_TIME) {
      DayBounds(at);
      assert at == day * DAY + k;
      LateProbeIsNeverQuiet(day, k);
    }
  }

  // ---------------------------------------------------------------- overlapping ticks over one reminder

  datatype Status = Armed | Done | Parked

  /** A touch that was claimed: of which schedule of the reminder, for when, and by a tick of which clock. */
  datatype Touch = Touch(epoch: nat, touchAt: nat, kind: Kind, now: nat)

  /** Where a tick is with the reminder; from the claim on it holds the claim's index. */
  datatype Stage = Selected | Checked | Parking(claim: nat) | Claimed(claim: nat) | Audited(claim: nat)

  datatype Tick = Tick(now: nat, touchAt: nat, kind: Kind, escalations: nat, stage: Stage)

  datatype World = World(
    status: Status, next: Option<(nat, Kind)>, escalations: nat, epoch: nat,
    ticks: map<nat, Tick>, claims: seq<Touch>, audited: set<nat>, sent: seq<nat>)

  datatype Event =
    | Select(id: nat, now: nat)  // a tick reads the due row
    | Check(id: nat)             // quiet hours, then the fresh re-read
    | Claim(id: nat)             // the compare-and-set
    | Park(id: nat)              // only after the last nudge's claim
    | Audit(id: nat)
    | Send(id: nat)              // enqueue the notification
    | Die(id: nat)
    | Resolve
    | Renegotiate(at: nat)

  predicate HasStage(x: World, id: nat, stage: Stage) { id in x.ticks && x.ticks[id].stage == stage }

  predicate Possible(x: World, e: Event) {
    match e
    case Select(id, now) => id !in x.ticks && x.status == Armed && x.next.Some? && x.next.value.0 <= now
    case Check(id) => HasStage(x, id, Selected)
    case Claim(id) => HasStage(x, id, Checked)
    case Park(id) => id in x.ticks && x.ticks[id].stage.Parking?
    case Audit(id) => id in x.ticks && x.ticks[id].stage.Claimed?
    case Send(id) => id in x.ticks && x.ticks[id].stage.Audited?
    case Die(id) => id in x.ticks
    case Resolve => x.status == Armed
    case Renegotiate(_) => x.status == Armed
  }

  function Moved(x: World, id: nat, stage: Stage): World
    requires id in x.ticks
  {
    x.(ticks := x.ticks[id := x.ticks[id].(stage := stage)])
  }

  function Ended(x: World, id: nat): World { x.(ticks := x.ticks - {id}) }

  predicate StillDue(x: World, t: Tick) { x.status == Armed && x.next.Some? && x.next.value.0 == t.touchAt }

  /** claimDueTouch with the follow-up pre-scheduled; a lost claim ends the tick's business here. */
  function AfterClaim(x: World, id: nat): World
    requires id in x.ticks
  {
    var t := x.ticks[id];
    var next := ScheduleAfter(t.kind, t.now, t.escalations);
    var claim := |x.claims|;
    if StillDue(x, t) then
      Moved(x, id, if next.None? then Parking(claim) else Claimed(claim))
        .(next := next, escalations := x.escalations + if t.kind == Nudge then 1 else 0,
          claims := x.claims + [Touch(x.epoch, t.touchAt, t.kind, t.now)])
    else Ended(x, id)
  }

  function Do(x: World, e: Event): World
    requires Possible(x, e)
  {
    match e
    case Select(id, now) =>
      x.(ticks := x.ticks[id := Tick(now, x.next.value.0, x.next.value.1, x.escalations, Selected)])
    case Check(id) =>
      if IsQuiet(x.ticks[id].now) || !StillDue(x, x.ticks[id]) then Ended(x, id) else Moved(x, id, Checked)
    case Claim(id) => AfterClaim(x, id)
    case Park(id) =>
      if x.status == Armed then Moved(x, id, Claimed(x.ticks[id].stage.claim)).(status := Parked, next := None)
      else Ended(x, id)
    case Audit(id) =>
      Moved(x, id, Audited(x.ticks[id].stage.claim)).(audited := x.audited + {x.ticks[id].stage.claim})
    case Send(id) => Ended(x, id).(sent := x.sent + [x.ticks[id].stage.claim])
    case Die(id) => Ended(x, id)
    case Resolve => x.(status := Done, next := None)
    case Renegotiate(at) => x.(next := Some((at, Morning)), escalations := 0, epoch := x.epoch + 1)
  }

  predicate Holds(s: Stage) { s.Parking? || s.Claimed? || s.Audited? }

  predicate TickOk(x: World, t: Tick) {
    && t.touchAt <= t.now
    && (t.stage != Selected ==> !IsQuiet(t.now))
    && (Holds(t.stage) ==> t.stage.claim < |x.claims| && t.stage.claim !in x.sent)
    && (t.stage.Audited? ==> t.stage.claim in x.audited)
  }

  /** What always holds: a send has its own claim and its audit, and no claim was made in the quiet hours. */
  ghost predicate Inv(x: World) {
    && (forall id :: id in x.ticks ==> TickOk(x, x.ticks[id]))
    && (forall a, b :: a in x.ticks && b in x.ticks && a != b && Holds(x.ticks[a].stage) && Holds(x.ticks[b].stage) ==>
      x.ticks[a].stage.claim != x.ticks[b].stage.claim)
    && (forall i :: 0 <= i < |x.claims| ==> !IsQuiet(x.claims[i].now))
    && (forall i :: 0 <= i < |x.sent| ==> x.sent[i] < |x.claims| && x.sent[i] in x.audited)
    && (forall i, j :: 0 <= i < j < |x.sent| ==> x.sent[i] != x.sent[j])
  }

  lemma EndKept(x: World, id: nat)
    requires Inv(x) && id in x.ticks
    ensures Inv(Ended(x, id))
  {
  }

  lemma ClaimKept(x: World, id: nat)
    requires Inv(x) && Possible(x, Claim(id))
    ensures Inv(Do(x, Claim(id)))
  {
    if !StillDue(x, x.ticks[id]) { EndKept(x, id); }
  }

  lemma SendKept(x: World, id: nat)
    requires Inv(x) && Possible(x, Send(id))
    ensures Inv(Do(x, Send(id)))
  {
    EndKept(x, id);
  }

  lemma AuditKept(x: World, id: nat)
    requires Inv(x) && (Possible(x, Audit(id)) || Possible(x, Park(id)) || Possible(x, Check(id)))
    ensures Possible(x, Audit(id)) ==> Inv(Do(x, Audit(id)))
    ensures Possible(x, Park(id)) ==> Inv(Do(x, Park(id)))
    ensures Possible(x, Check(id)) ==> Inv(Do(x, Check(id)))
  {
    EndKept(x, id);
  }

  lemma InvKept(x: World, e: Event)
    requires Inv(x) && Possible(x, e)
    ensures Inv(Do(x, e))
  {
    match e
    case Claim(id) => ClaimKept(x, id);
    case Send(id) => SendKept(x, id);
    case Audit(id) => AuditKept(x, id);
    case Park(id) => AuditKept(x, id);
    case Check(id) => AuditKept(x, id);
    case Die(id) => EndKept(x, id);
    case _ =>
  }

  /** A claim of this schedule against what is scheduled next: earlier, or inside the probe minute that begins there. */
  predicate Before(claimed: nat, next: nat) {
    claimed < next || (OnProbeTime(next) && next < claimed < next + MINUTE)
  }

  /** Within one schedule of the reminder, no touch is claimed twice. */
  ghost predicate Apart(x: World) {
    && (forall i, j :: 0 <= i < j < |x.claims| && x.claims[i].epoch == x.claims[j].epoch ==>
      x.claims[i].touchAt != x.claims[j].touchAt)
    && (forall i :: 0 <= i < |x.claims| ==> x.claims[i].epoch <= x.epoch)
    && (forall i :: 0 <= i < |x.claims| && x.claims[i].epoch == x.epoch && x.next.Some? ==>
      Before(x.claims[i].touchAt, x.next.value.0) && !InsideProbeMinute(x.next.value.0))
  }

  /** Not a claim that succeeds and schedules its own touch again. */
  predicate Clean(x: World, e: Event) {
    e.Claim? && e.id in x.ticks && StillDue(x, x.ticks[e.id]) ==>
      !Repeats(x.ticks[e.id].kind, x.ticks[e.id].touchAt, x.ticks[e.id].now)
  }

  lemma BeforeFollowUp(claimed: nat, touchAt: nat, next: nat)
    requires Before(claimed, touchAt) && !InsideProbeMinute(touchAt)
    requires next > touchAt || InsideProbeMinute(touchAt)
    requires OnProbeTime(touchAt) ==> next >= touchAt + MINUTE
    ensures Before(claimed, next)
  {
  }

  lemma ClaimKeepsApart(x: World, id: nat)
    requires Inv(x) && Apart(x) && Possible(x, Claim(id)) && Clean(x, Claim(id)) && StillDue(x, x.ticks[id])
    ensures Apart(Do(x, Claim(id)))
  {
    var t := x.ticks[id];
    assert TickOk(x, t);
    var y := Do(x, Claim(id));
    if y.next.Some? {
      var next := y.next.value.0;
      FollowUpPlace(t.kind, t.touchAt, t.now, t.escalations);
      forall i | 0 <= i < |y.claims| && y.claims[i].epoch == y.epoch
        ensures Before(y.claims[i].touchAt, next)
      {
        if i < |x.claims| { BeforeFollowUp(x.claims[i].touchAt, t.touchAt, next); }
      }
    }
  }

  lemma ApartKept(x: World, e: Event)
    requires Inv(x) && Apart(x) && Possible(x, e) && Clean(x, e)
    ensures Apart(Do(x, e))
  {
    if e.Claim? && StillDue(x, x.ticks[e.id]) { ClaimKeepsApart(x, e.id); }
  }

  ghost predicate Runs(x: World, es: seq<Event>, y: World)
    decreases |es|
  {
    if es == [] then x == y else Possible(x, es[0]) && Runs(Do(x, es[0]), es[1..], y)
  }

  /** No claim of the run schedules its own touch again. */
  ghost predicate AllClean(x: World, es: seq<Event>)
    decreases |es|
  {
    es == [] || (Possible(x, es[0]) && Clean(x, es[0]) && AllClean(Do(x, es[0]), es[1..]))
  }

  predicate Starts(x: World) { x.ticks == map[] && x.claims == [] && x.audited == {} && x.sent == [] }

  lemma {:induction false} RunKeeps(x: World, es: seq<Event>, y: World)
    requires Inv(x) && Runs(x, es, y)
    ensures Inv(y)
    ensures Apart(x) && AllClean(x, es) ==> Apart(y)
    decreases |es|
  {
    if es != [] {
      InvKept(x, es[0]);
      if Apart(x) && AllClean(x, es) { ApartKept(x, es[0]); }
      RunKeeps(Do(x, es[0]), es[1..], y);
    }
  }

  /**
   Over any interleaving of ticks and deaths, resolutions and renegotiations: every send
   has a claim of its own and an audit, and its tick's clock was not in the quiet hours;
   and if no claim repeats its touch, no two sends are for the same touch.
   */
  lemma {:induction false} OneSendPerTouch(start: World, es: seq<Event>, x: World)
    requires Starts(start) && Runs(start, es, x)
    ensures forall i :: 0 <= i < |x.sent| ==>
      x.sent[i] < |x.claims| && x.sent[i] in x.audited && !IsQuiet(x.claims[x.sent[i]].now)
    ensures forall i, j :: 0 <= i < j < |x.sent| ==> x.sent[i] != x.sent[j]
    ensures AllClean(start, es) ==> forall i, j :: 0 <= i < j < |x.sent| ==> !SameTouch(x, x.sent[i], x.sent[j])
  {
    RunKeeps(start, es, x);
    if AllClean(start, es) {
      forall i, j | 0 <= i < j < |x.sent|
        ensures !SameTouch(x, x.sent[i], x.sent[j])
      {
        assert x.sent[i] < x.sent[j] || x.sent[j] < x.sent[i];
      }
    }
  }

  predicate SameTouch(x: World, a: nat, b: nat) {
    a < |x.claims| && b < |x.claims| && x.claims[a].epoch == x.claims[b].epoch && x.claims[a].touchAt == x.claims[b].touchAt
  }

  lemma {:induction false} RunsSnoc(x: World, es: seq<Event>, m: World, e: Event)
    requires Runs(x, es, m) && Possible(m, e)
    ensures Runs(x, es + [e], Do(m, e))
    decreases |es|
  {
    if es == [] {
      assert [] + [e] == [e] && [e][1..] == [];
      assert Runs(Do(m, e), [], Do(m, e));
    } else {
      RunsSnoc(Do(x, es[0]), es[1..], m, e);
      assert (es + [e])[1..] == es[1..] + [e];
    }
  }

  /** A selected tick whose touch is still due, outside the quiet hours, with a follow-up, runs to its send. */
  lemma TickSends(start: World, es: seq<Event>, x: World, id: nat) returns (more: seq<Event>, y: World)
    requires Runs(start, es, x) && HasStage(x, id, Selected)
    requires StillDue(x, x.ticks[id]) && !IsQuiet(x.ticks[id].now) && x.ticks[id].kind == Morning
    ensures Runs(start, more, y)
    ensures y.ticks == x.ticks - {id} && y.status == x.status && y.epoch == x.epoch
    ensures y.next == ScheduleAfter(Morning, x.ticks[id].now, x.ticks[id].escalations)
    ensures y.claims == x.claims + [Touch(x.epoch, x.ticks[id].touchAt, Morning, x.ticks[id].now)]
    ensures y.sent == x.sent + [|x.claims|]
  {
    var a := Do(x, Check(id));
    var b := Do(a, Claim(id));
    var c := Do(b, Audit(id));
    RunsSnoc(start, es, x, Check(id));
    RunsSnoc(start, es + [Check(id)], a, Claim(id));
    RunsSnoc(start, es + [Check(id)] + [Claim(id)], b, Audit(id));
    RunsSnoc(start, es + [Check(id)] + [Claim(id)] + [Audit(id)], c, Send(id));
    more, y := es + [Check(id)] + [Claim(id)] + [Audit(id)] + [Send(id)], Do(c, Send(id));
  }

  /** The steps after a check: claim, audit, send. */
  lemma CheckedSends(start: World, es: seq<Event>, x: World, id: nat) returns (more: seq<Event>, y: World)
    requires Runs(start, es, x) && HasStage(x, id, Checked) && StillDue(x, x.ticks[id])
    requires ScheduleAfter(x.ticks[id].kind, x.ticks[id].now, x.ticks[id].escalations).Some?
    ensures Runs(start, more, y)
    ensures y.ticks == x.ticks - {id} && y.status == x.status && y.epoch == x.epoch
    ensures y.next == ScheduleAfter(x.ticks[id].kind, x.ticks[id].now, x.ticks[id].escalations)
    ensures y.claims == x.claims + [Touch(x.epoch, x.ticks[id].touchAt, x.ticks[id].kind, x.ticks[id].now)]
    ensures y.sent == x.sent + [|x.claims|]
  {
    var a := Do(x, Claim(id));
    var b := Do(a, Audit(id));
    RunsSnoc(start, es, x, Claim(id));
    RunsSnoc(start, es + [Claim(id)], a, Audit(id));
    RunsSnoc(start, es + [Claim(id)] + [Audit(id)], b, Send(id));
    more, y := es + [Claim(id)] + [Audit(id)] + [Send(id)], Do(b, Send(id));
  }

  lemma {:induction false} NewTick(taken: set<nat>) returns (bound: nat)
    ensures forall id :: id in taken ==> id < bound
    decreases |taken|
  {
    if taken == {} { return 0; }
    var id :| id in taken;
    var others := NewTick(taken - {id});
    bound := if others <= id then id + 1 else others;
    assert forall k :: k in taken ==> k == id || k in taken - {id};
  }

  /**
   The converse, from any reachable state: while the reminder is still scheduled for it, a
   claim that is about to succeed and repeats its morning touch goes on, in some run, to
   see that morning touch sent twice: a second tick selects it first, and its claim finds
   the follow-up at the instant it expects.
   */
  lemma RepeatedIsSentTwice(start: World, es: seq<Event>, x: World, id: nat) returns (more: seq<Event>, y: World)
    requires Starts(start) && Runs(start, es, x)
    requires HasStage(x, id, Checked) && StillDue(x, x.ticks[id]) && x.next.value.1 == Morning
    requires Repeats(x.ticks[id].kind, x.ticks[id].touchAt, x.ticks[id].now)
    ensures Runs(start, more, y) && y.sent == x.sent + [|x.claims|, |x.claims| + 1]
    ensures SameTouch(y, |x.claims|, |x.claims| + 1)
    ensures y.claims[|x.claims|].kind == Morning && y.claims[|x.claims| + 1].kind == Morning
  {
    RunKeeps(start, es, x);
    var t := x.ticks[id];
    assert TickOk(x, t);
    FollowUpRepeatsExactly(t.kind, t.touchAt, t.now, t.escalations);
    var other := NewTick(x.ticks.Keys);
    var a := Do(x, Select(other, t.now));
    RunsSnoc(start, es, x, Select(other, t.now));
    var to1, b := CheckedSends(start, es + [Select(other, t.now)], a, id);
    more, y := TickSends(start, to1, b, other);
  }

  /** Without a second tick: the morning touch is sent, and its own follow-up at the same instant. */
  lemma RepeatedIsFollowedAtOnce(start: World, es: seq<Event>, x: World, id: nat) returns (more: seq<Event>, y: World)
    requires Starts(start) && Runs(start, es, x)
    requires HasStage(x, id, Checked) && StillDue(x, x.ticks[id])
    requires Repeats(x.ticks[id].kind, x.ticks[id].touchAt, x.ticks[id].now)
    ensures Runs(start, more, y) && y.sent == x.sent + [|x.claims|, |x.claims| + 1]
    ensures SameTouch(y, |x.claims|, |x.claims| + 1)
    ensures y.claims[|x.claims|].kind == Morning && y.claims[|x.claims| + 1].kind == Probe
  {
    RunKeeps(start, es, x);
    var t := x.ticks[id];
    assert TickOk(x, t);
    FollowUpRepeatsExactly(t.kind, t.touchAt, t.now, t.escalations);
    var to1, a := CheckedSends(start, es, x, id);
    assert a.next == Some((t.touchAt, Probe));
    var b := Do(a, Select(id, t.now));
    RunsSnoc(start, to1, a, Select(id, t.now));
    var c := Do(b, Check(id));
    RunsSnoc(start, to1 + [Select(id, t.now)], b, Check(id));
    assert HasStage(c, id, Checked) && StillDue(c, c.ticks[id]);
    more, y := CheckedSends(start, to1 + [Select(id, t.now)] + [Check(id)], c, id);
  }

  // ---------------------------------------------------------------- the ladder of touches

  /** What follows a reminder's morning touches. */
  const AFTER_MORNING := [Probe, Nudge, Nudge]

  function KindsOf(claims: seq<Touch>): seq<Kind> { seq(|claims|, i requires 0 <= i < |claims| => claims[i].kind) }

  function Mornings(n: nat): seq<Kind> { seq(n, _ => Morning) }

  /** After n morning touches and r further ones, this is scheduled. */
  predicate Scheduled(x: World, n: nat, r: nat) {
    match r
    case 0 => x.next.Some? && x.next.value.1 == (if n == 0 then Morning else Probe) && x.escalations == 0
    case 1 => x.next.Some? && x.next.value.1 == Nudge && x.escalations == 0
    case 2 => x.next.Some? && x.next.value.1 == Nudge && x.escalations == 1
    case _ => x.next.None?
  }

  predicate Climbed(x: World, n: nat, r: nat) {
    && r <= |AFTER_MORNING| && (n == 0 ==> r == 0)
    && KindsOf(x.claims) == Mornings(n) + AFTER_MORNING[..r]
    && (x.status != Done ==> Scheduled(x, n, r))
    && (x.claims != [] && x.next.Some? ==> !InsideProbeMinute(x.next.value.0))
    && (x.status == Parked || AnyoneParks(x) ==> r == |AFTER_MORNING|)
  }

  predicate Unclaimed(t: Tick) { t.stage.Selected? || t.stage.Checked? }

  /** The tick read the touch that is scheduled. */
  predicate IsCurrent(x: World, t: Tick) { x.next == Some((t.touchAt, t.kind)) && t.escalations == x.escalations }

  /** The tick read a touch that is behind the scheduled one. */
  predicate IsPast(x: World, t: Tick) { x.next.Some? ==> x.claims != [] && Before(t.touchAt, x.next.value.0) }

  /** The tick read a morning touch whose own probe is scheduled for the same instant. */
  predicate IsRepeat(x: World, t: Tick) { t.kind == Morning && x.next == Some((t.touchAt, Probe)) && OnProbeTime(t.touchAt) }

  predicate Placed(x: World, clean: bool) {
    forall id :: id in x.ticks && Unclaimed(x.ticks[id]) ==>
      IsCurrent(x, x.ticks[id]) || IsPast(x, x.ticks[id]) || (!clean && IsRepeat(x, x.ticks[id]))
  }

  lemma OneMoreMorning(x: World, n: nat, touch: Touch)
    requires KindsOf(x.claims) == Mornings(n) + AFTER_MORNING[..0] && touch.kind == Morning
    ensures KindsOf(x.claims + [touch]) == Mornings(n + 1) + AFTER_MORNING[..0]
  {
    assert Mornings(n + 1) == Mornings(n) + [Morning] && AFTER_MORNING[..0] == [];
    assert KindsOf(x.claims + [touch]) == KindsOf(x.claims) + [touch.kind];
  }

  lemma OneMoreRung(x: World, n: nat, r: nat, touch: Touch)
    requires r < |AFTER_MORNING| && KindsOf(x.claims) == Mornings(n) + AFTER_MORNING[..r] && touch.kind == AFTER_MORNING[r]
    ensures KindsOf(x.claims + [touch]) == Mornings(n) + AFTER_MORNING[..r + 1]
  {
    assert AFTER_MORNING[..r + 1] == AFTER_MORNING[..r] + [AFTER_MORNING[r]];
    assert KindsOf(x.claims + [touch]) == KindsOf(x.claims) + [touch.kind];
  }

  /** A successful claim climbs: another morning touch, or the next rung. */
  lemma ClaimClimbs(x: World, id: nat, n: nat, r: nat, clean: bool) returns (n': nat, r': nat)
    requires Inv(x) && Climbed(x, n, r) && Placed(x, clean) && Possible(x, Claim(id)) && StillDue(x, x.ticks[id])
    requires clean ==> n <= 1
    ensures Climbed(Do(x, Claim(id)), n', r') && (clean ==> n' <= 1)
  {
    var t := x.ticks[id];
    assert TickOk(x, t) && !IsPast(x, t);
    var touch := Touch(x.epoch, t.touchAt, t.kind, t.now);
    if t.kind == Morning {
      n', r' := n + 1, 0;
      OneMoreMorning(x, n, touch);
    } else {
      n', r' := n, r + 1;
      OneMoreRung(x, n, r, touch);
    }
    if Do(x, Claim(id)).next.Some? { ClaimedPlace(t); }
  }

  lemma ClaimedPlace(t: Tick)
    requires t.touchAt <= t.now && ScheduleAfter(t.kind, t.now, t.escalations).Some?
    ensures !InsideProbeMinute(ScheduleAfter(t.kind, t.now, t.escalations).value.0)
  {
    if Repeats(t.kind, t.touchAt, t.now) {
      DayPlus(t.now, PROBE_TIME);
      FollowUpRepeatsExactly(t.kind, t.touchAt, t.now, t.escalations);
    } else {
      FollowUpPlace(t.kind, t.touchAt, t.now, t.escalations);
    }
  }

  /** And every other tick that has not claimed yet is placed against the new schedule. */
  lemma ClaimPlaces(x: World, id: nat, n: nat, r: nat, clean: bool, other: nat)
    requires Inv(x) && Climbed(x, n, r) && Placed(x, clean) && Possible(x, Claim(id)) && StillDue(x, x.ticks[id])
    requires clean ==> Clean(x, Claim(id))
    requires other in x.ticks && other != id && Unclaimed(x.ticks[other])
    ensures var y, t := Do(x, Claim(id)), x.ticks[other];
      IsCurrent(y, t) || IsPast(y, t) || (!clean && IsRepeat(y, t))
  {
    var c, t, y := x.ticks[id], x.ticks[other], Do(x, Claim(id));
    assert TickOk(x, c) && !IsPast(x, c);
    if y.next.Some? {
      if Repeats(c.kind, c.touchAt, c.now) {
        FollowUpRepeatsExactly(c.kind, c.touchAt, c.now, c.escalations);
        DayPlus(c.now, PROBE_TIME);
        assert y.next == Some((c.touchAt, Probe));
      } else {
        FollowUpPlace(c.kind, c.touchAt, c.now, c.escalations);
        if IsPast(x, t) { BeforeFollowUp(t.touchAt, c.touchAt, y.next.value.0); }
      }
    }
  }

  predicate Renegotiates(es: seq<Event>) { exists i :: 0 <= i < |es| && es[i].Renegotiate? }

  lemma OthersClimb(x: World, e: Event, n: nat, r: nat)
    requires Climbed(x, n, r) && Possible(x, e) && !e.Renegotiate? && !(e.Claim? && StillDue(x, x.ticks[e.id]))
    ensures Climbed(Do(x, e), n, r)
  {
    var y := Do(x, e);
    if AnyoneParks(y) {
      var id :| id in y.ticks && y.ticks[id].stage.Parking?;
      assert id in x.ticks && x.ticks[id].stage.Parking?;
    }
  }

  lemma OthersPlace(x: World, e: Event, clean: bool)
    requires Placed(x, clean) && Possible(x, e) && !e.Renegotiate? && !(e.Claim? && StillDue(x, x.ticks[e.id]))
    ensures Placed(Do(x, e), clean)
  {
  }

  lemma StepClimbs(x: World, e: Event, n: nat, r: nat, clean: bool) returns (n': nat, r': nat)
    requires Inv(x) && Climbed(x, n, r) && Placed(x, clean) && Possible(x, e) && !e.Renegotiate?
    requires clean ==> n <= 1 && Clean(x, e)
    ensures Climbed(Do(x, e), n', r') && Placed(Do(x, e), clean) && (clean ==> n' <= 1)
  {
    n', r' := n, r;
    if e.Claim? && StillDue(x, x.ticks[e.id]) {
      n', r' := ClaimClimbs(x, e.id, n, r, clean);
      forall other | other in x.ticks && other != e.id && Unclaimed(x.ticks[other])
        ensures IsCurrent(Do(x, e), x.ticks[other]) || IsPast(Do(x, e), x.ticks[other])
          || (!clean && IsRepeat(Do(x, e), x.ticks[other]))
      {
        ClaimPlaces(x, e.id, n, r, clean, other);
      }
    } else {
      OthersClimb(x, e, n, r);
      OthersPlace(x, e, clean);
    }
  }

  lemma {:induction false} RunClimbs(x: World, es: seq<Event>, y: World, n: nat, r: nat, clean: bool) returns (n': nat, r': nat)
    requires Inv(x) && Climbed(x, n, r) && Placed(x, clean) && Runs(x, es, y) && !Renegotiates(es)
    requires clean ==> n <= 1 && AllClean(x, es)
    ensures Climbed(y, n', r') && (clean ==> n' <= 1)
    decreases |es|
  {
    n', r' := n, r;
    if es != [] {
      assert es[0] in es && forall i :: 0 <= i < |es[1..]| ==> es[1..][i] == es[i + 1];
      InvKept(x, es[0]);
      n', r' := StepClimbs(x, es[0], n, r, clean);
      n', r' := RunClimbs(Do(x, es[0]), es[1..], y, n', r', clean);
    }
  }

  /** A reminder that was just armed, for a morning touch. */
  predicate JustArmed(x: World) {
    Starts(x) && x.status == Armed && x.escalations == 0 && x.next.Some? && x.next.value.1 == Morning
  }

  /**
   The order of the touches and their end, over any interleaving of ticks, deaths and a
   resolution, of one schedule. What was claimed is morning touches, then a probe, then
   two nudges, as far as it got; one morning touch, unless a claim repeated its touch. It
   is parked only after the last nudge was claimed, and then it is parked, or a tick is
   about to, or the one that was died or found it resolved.
   */
  lemma ClaimsClimbTheLadder(start: World, es: seq<Event>, x: World) returns (n: nat, r: nat)
    requires JustArmed(start) && Runs(start, es, x) && !Renegotiates(es)
    ensures r <= |AFTER_MORNING| && KindsOf(x.claims) == Mornings(n) + AFTER_MORNING[..r] && (n == 0 ==> r == 0)
    ensures AllClean(start, es) ==> n <= 1
    ensures x.status == Parked || AnyoneParks(x) ==> r == |AFTER_MORNING|
    ensures NoParkerDies(start, es) && r == |AFTER_MORNING| ==> x.status != Armed || AnyoneParks(x)
  {
    assert AFTER_MORNING[..0] == [] && KindsOf(start.claims) == Mornings(0) + [];
    n, r := RunClimbs(start, es, x, 0, 0, false);
    if AllClean(start, es) { n, r := RunClimbs(start, es, x, 0, 0, true); }
    if NoParkerDies(start, es) { NeverSilent(start, es, x); }
  }

  // ---------------------------------------------------------------- reminders that fall silent

  predicate AnyoneParks(x: World) { exists id :: id in x.ticks && x.ticks[id].stage.Parking? }

  /** Armed, with nothing scheduled and no tick about to park it. */
  predicate Silent(x: World) { x.status == Armed && x.next.None? && !AnyoneParks(x) }

  /** The last tick that was to park an armed reminder dies first. */
  predicate ParkerDies(x: World, e: Event) {
    && e.Die? && e.id in x.ticks && x.ticks[e.id].stage.Parking? && x.status == Armed && x.next.None?
    && forall id :: id in x.ticks && id != e.id ==> !x.ticks[id].stage.Parking?
  }

  lemma ParkersKept(x: World, e: Event, id: nat)
    requires Possible(x, e) && id in x.ticks && x.ticks[id].stage.Parking?
    requires !((e.Die? || e.Park?) && e.id == id)
    ensures AnyoneParks(Do(x, e))
  {
    assert id in Do(x, e).ticks && Do(x, e).ticks[id].stage.Parking?;
  }

  /** An armed reminder has a touch to come or a tick parking it, until such a tick dies between claim and park: exactly then it falls silent. */
  lemma FallsSilentExactly(x: World, e: Event)
    requires !Silent(x) && Possible(x, e)
    ensures Silent(Do(x, e)) <==> ParkerDies(x, e)
  {
    var y := Do(x, e);
    if AnyoneParks(x) && !ParkerDies(x, e) && x.status == Armed && x.next.None? && !e.Park? {
      if e.Die? && x.ticks[e.id].stage.Parking? {
        var id :| id in x.ticks && id != e.id && x.ticks[id].stage.Parking?;
        ParkersKept(x, e, id);
      } else {
        var id :| id in x.ticks && x.ticks[id].stage.Parking?;
        ParkersKept(x, e, id);
      }
    } else if e.Claim? && StillDue(x, x.ticks[e.id]) && y.next.None? {
      assert y.ticks[e.id].stage.Parking?;
    }
  }

  /** A silent reminder stays silent until its owner resolves or renegotiates it: no tick ever picks it up. */
  lemma SilenceLasts(x: World, e: Event)
    requires Silent(x) && Possible(x, e) && !e.Resolve? && !e.Renegotiate?
    ensures Silent(Do(x, e)) && !e.Select?
  {
  }

  ghost predicate NoParkerDies(x: World, es: seq<Event>)
    decreases |es|
  {
    es == [] || (Possible(x, es[0]) && !ParkerDies(x, es[0]) && NoParkerDies(Do(x, es[0]), es[1..]))
  }

  /** Over whole runs: while no parker dies, an armed reminder always has something to come. */
  lemma {:induction false} NeverSilent(x: World, es: seq<Event>, y: World)
    requires !Silent(x) && Runs(x, es, y) && NoParkerDies(x, es)
    ensures !Silent(y)
    decreases |es|
  {
    if es != [] {
      FallsSilentExactly(x, es[0]);
      NeverSilent(Do(x, es[0]), es[1..], y);
    }
  }

  /** Two ticks within the probe minute, and the morning touch of that time goes out twice. */
  lemma ProbeMinuteSendsTwice() returns (start: World, es: seq<Event>, x: World)
    ensures Starts(start) && Runs(start, es, x)
    ensures |x.sent| == 2 && x.sent[0] != x.sent[1] && SameTouch(x, x.sent[0], x.sent[1])
    ensures x.claims[x.sent[0]].kind == x.claims[x.sent[1]].kind == Morning
  {
    start := World(Armed, Some((PROBE_TIME, Morning)), 0, 0, map[], [], {}, []);
    assert Runs(start, [], start);
    var a := Do(start, Select(0, PROBE_TIME));
    RunsSnoc(start, [], start, Select(0, PROBE_TIME));
    var b := Do(a, Select(1, PROBE_TIME + 1));
    RunsSnoc(start, [] + [Select(0, PROBE_TIME)], a, Select(1, PROBE_TIME + 1));
    ClockOf(0, PROBE_TIME);
    ClockOf(0, PROBE_TIME + 1);
    var to1, c := TickSends(start, [] + [Select(0, PROBE_TIME)] + [Select(1, PROBE_TIME + 1)], b, 0);
    MinuteOfDay(PROBE_TIME);
    assert c.next == Some((PROBE_TIME, Probe));
    assert HasStage(c, 1, Selected) && c.ticks[1] == b.ticks[1];
    es, x := TickSends(start, to1, c, 1);
  }

  // ---------------------------------------------------------------- one undisturbed tick over the table

  datatype Row = Row(status: Status, nextAt: Option<nat>, nextKind: Option<Kind>, escalations: nat)

  datatype SweepResult = SweepResult(sent: nat, skippedQuiet: nat, parked: nat)

  predicate IsDue(r: Row, now: nat) { r.status == Armed && r.nextAt.Some? && r.nextAt.value <= now }

  predicate Sends(r: Row, now: nat) { IsDue(r, now) && !IsQuiet(now) && r.nextKind.Some? }

  /** A row after the tick: claimed with its follow-up, or parked after the last nudge. */
  function Swept(r: Row, now: nat): Row {
    if !Sends(r, now) then r
    else
      var next := ScheduleAfter(r.nextKind.value, now, r.escalations);
      var escalations := r.escalations + if r.nextKind == Some(Nudge) then 1 else 0;
      if next.None? then Row(Parked, None, None, escalations)
      else Row(Armed, Some(next.value.0), Some(next.value.1), escalations)
  }

  /**
   When a second sweep at the same clock finds a reminder due that the first has seen:
   one the first skipped, in the quiet hours or for want of a kind, and a morning touch
   swept within the probe minute.
   */
  lemma SecondSweepExactly(r: Row, now: nat)
    ensures IsDue(Swept(r, now), now) <==>
      IsDue(r, now) && (IsQuiet(now) || r.nextKind.None?
        || (r.nextKind.value == Morning && DayOf(now) + PROBE_TIME <= now < DayOf(now) + PROBE_TIME + MINUTE))
  {
    if Sends(r, now) && ScheduleAfter(r.nextKind.value, now, r.escalations).Some? {
      FollowUpIsLaterExactly(r.nextKind.value, now, now, r.escalations);
    }
  }

  function SentOf(rows: seq<Row>, now: nat): seq<(nat, Kind)> {
    if rows == [] then []
    else
      var n := |rows| - 1;
      SentOf(rows[..n], now) + SentBy(rows[n], n, now)
  }

  function SentBy(r: Row, i: nat, now: nat): seq<(nat, Kind)> {
    if Sends(r, now) then [(i, r.nextKind.value)] else []
  }

  predicate Parks(r: Row, now: nat) { Sends(r, now) && Swept(r, now).status == Parked }

  /** One more reminder in the counters. */
  function Counted(t: SweepResult, r: Row, now: nat): SweepResult {
    SweepResult(
      t.sent + (if Sends(r, now) then 1 else 0),
      t.skippedQuiet + (if IsDue(r, now) && IsQuiet(now) then 1 else 0),
      t.parked + (if Parks(r, now) then 1 else 0))
  }

  /** How many reminders were sent, due in the quiet hours, and parked. */
  function Tally(rows: seq<Row>, now: nat): SweepResult {
    if rows == [] then SweepResult(0, 0, 0) else Counted(Tally(rows[..|rows| - 1], now), rows[|rows| - 1], now)
  }

  lemma Regroup(a: seq<(nat, Kind)>, b: seq<(nat, Kind)>, c: seq<(nat, Kind)>)
    ensures a + b + c == a + (b + c)
  {
  }

  lemma {:induction false} OneMoreRow(rows: seq<Row>, i: nat, now: nat)
    requires i < |rows|
    ensures Tally(rows[..i + 1], now) == Counted(Tally(rows[..i], now), rows[i], now)
    ensures SentOf(rows[..i + 1], now) == SentOf(rows[..i], now) + SentBy(rows[i], i, now)
  {
    assert rows[..i + 1][..i] == rows[..i] && rows[..i + 1][i] == rows[i];
  }

  class Reminders {
    var rows: seq<Row>
    /** Audit rows and queued notifications, by reminder. */
    var audits: seq<(nat, Kind)>
    var queue: seq<(nat, Kind)>

    /** One due reminder: quiet hours, claim, audit, enqueue. */
    method SweepOne(i: nat, now: nat)
      requires i < |rows| && IsDue(rows[i], now)
      modifies this
      ensures rows == old(rows)[i := Swept(old(rows)[i], now)]
      ensures queue == old(queue) + SentBy(old(rows)[i], i, now) && audits == old(audits) + SentBy(old(rows)[i], i, now)
    {
      var r := rows[i];
      if IsQuiet(now) || r.nextKind.None? { return; }
      var kind := r.nextKind.value;
      var next := ScheduleAfter(kind, now, r.escalations);
      var escalations := r.escalations + if kind == Nudge then 1 else 0;
      if next.None? {
        rows := rows[i := Row(Parked, None, None, escalations)];
      } else {
        rows := rows[i := Row(Armed, Some(next.value.0), Some(next.value.1), escalations)];
      }
      audits := audits + [(i, kind)];
      queue := queue + [(i, kind)];
    }

    /** runReminderSweepTick, when nothing else runs beside it. */
    method SweepTick(now: nat) returns (result: SweepResult)
      modifies this
      ensures |rows| == |old(rows)| && forall i :: 0 <= i < |rows| ==> rows[i] == Swept(old(rows)[i], now)
      ensures queue == old(queue) + SentOf(old(rows), now) && audits == old(audits) + SentOf(old(rows), now)
      ensures result == Tally(old(rows), now)
    {
      var due := rows;
      result := SweepResult(0, 0, 0);
      for i := 0 to |due|
        invariant |rows| == |due|
        invariant forall k :: 0 <= k < i ==> rows[k] == Swept(due[k], now)
        invariant forall k :: i <= k < |due| ==> rows[k] == due[k]
        invariant queue == old(queue) + SentOf(due[..i], now) && audits == old(audits) + SentOf(due[..i], now)
        invariant result == Tally(due[..i], now)
      {
        OneMoreRow(due, i, now);
        Regroup(old(queue), SentOf(due[..i], now), SentBy(due[i], i, now));
        Regroup(old(audits), SentOf(due[..i], now), SentBy(due[i], i, now));
        if IsDue(rows[i], now) {
          result := Counted(result, rows[i], now);
          SweepOne(i, now);
        }
      }
      assert due[..|due|] == due;
    }
  }

  // ---------------------------------------------------------------- an unanswered reminder, sweep by sweep

  /** The row after sweeps at these clocks. */
  function SweptAt(r: Row, clocks: seq<nat>): Row {
    if clocks == [] then r else Swept(SweptAt(r, clocks[..|clocks| - 1]), clocks[|clocks| - 1])
  }

  /** Each of these sweeps finds it due, outside the quiet hours. */
  predicate AllSend(r: Row, clocks: seq<nat>) {
    clocks == []
    || (AllSend(r, clocks[..|clocks| - 1]) && Sends(SweptAt(r, clocks[..|clocks| - 1]), clocks[|clocks| - 1]))
  }

  /** A reminder just armed is a morning touch, a probe, a nudge and a last nudge, and then it is parked. */
  lemma {:induction false} SweptDownTheLadder(r: Row, clocks: seq<nat>)
    requires r.status == Armed && r.nextKind == Some(Morning) && r.escalations == 0 && AllSend(r, clocks)
    ensures |clocks| <= 4
    ensures var s := SweptAt(r, clocks);
      s == if |clocks| == 4 then Row(Parked, None, None, 2)
        else Row(Armed, s.nextAt, Some([Morning, Probe, Nudge, Nudge][|clocks|]), if |clocks| == 3 then 1 else 0)
  {
    if clocks != [] {
      SweptDownTheLadder(r, clocks[..|clocks| - 1]);
    }
  }

  /** The same on the table, for one reminder that is never answered. */
  method SweepUnanswered(s: Reminders, r: Row, clocks: seq<nat>)
    requires s.rows == [r] && s.queue == [] && s.audits == []
    requires r.status == Armed && r.nextKind == Some(Morning) && r.escalations == 0
    requires |clocks| == 4 && AllSend(r, clocks)
    modifies s
    ensures s.rows == [Row(Parked, None, None, 2)]
    ensures s.queue == s.audits == [(0, Morning), (0, Probe), (0, Nudge), (0, Nudge)]
  {
    var kinds := [(0, Morning), (0, Probe), (0, Nudge), (0, Nudge)];
    for k := 0 to 4
      invariant s.rows == [SweptAt(r, clocks[..k])] && AllSend(r, clocks[..k]) && s.queue == s.audits == kinds[..k]
    {
      AllSendPrefix(r, clocks, k + 1);
      assert clocks[..k + 1][..k] == clocks[..k];
      SweptDownTheLadder(r, clocks[..k]);
      SentOfOne(SweptAt(r, clocks[..k]), clocks[k]);
      assert kinds[..k + 1] == kinds[..k] + [kinds[k]];
      var _ := s.SweepTick(clocks[k]);
    }
    assert clocks[..4] == clocks;
    SweptDownTheLadder(r, clocks);
  }

  lemma {:induction false} AllSendPrefix(r: Row, clocks: seq<nat>, k: nat)
    requires AllSend(r, clocks) && k <= |clocks|
    ensures AllSend(r, clocks[..k])
  {
    if k < |clocks| {
      AllSendPrefix(r, clocks[..|clocks| - 1], k);
      assert clocks[..|clocks| - 1][..k] == clocks[..k];
    } else {
      assert clocks[..k] == clocks;
    }
  }

  lemma {:induction false} SentOfOne(r: Row, now: nat)
    ensures SentOf([r], now) == SentBy(r, 0, now)
  {
    var rows := [r];
    assert rows[..|rows| - 1] == [];
    assert SentOf(rows, now) == [] + SentBy(r, 0, now);
  }

  // ---------------------------------------------------------------- the times of day

  /** When an unanswered touch is followed up, by the time of day at which it was sent. */
  lemma FollowUpTimes(kind: Kind, day: nat, k: nat, escalations: nat)
    requires k < DAY && ScheduleAfter(kind, day * DAY + k, escalations).Some?
    ensures var next := ScheduleAfter(kind, day * DAY + k, escalations).value.0;
      next ==
        if kind != Morning then (day + 1) * DAY + 9 * HOUR
        else if k < 15 * HOUR + 31 * MINUTE then day * DAY + 15 * HOUR + 30 * MINUTE
        else if k < 18 * HOUR then day * DAY + WholeMinute(k) + 3 * HOUR
        else if k < 20 * HOUR then day * DAY + 20 * HOUR
        else (day + 1) * DAY + 9 * HOUR
  {
    var at := day * DAY + k;
    ClockOf(day, k);
    MinuteOfDay(at);
    assert NextWorkday(at) == (day + 1) * DAY + 9 * HOUR;
    if kind == Morning && k >= 15 * HOUR + 31 * MINUTE {
      LateProbeTimes(day, k);
    }
  }

  /** The quiet hours are from ten in the evening to seven in the morning. */
  lemma QuietHours(day: nat, k: nat)
    requires k < DAY
    ensures IsQuiet(day * DAY + k) <==> k < 7 * HOUR || 22 * HOUR <= k
  {
    ClockOf(day, k);
  }

  lemma ThreeHoursOn(k: nat)
    ensures WholeMinute(k + PROBE_OFFSET) == WholeMinute(k) + 3 * HOUR
  {
    assert (k + 180 * MINUTE) / MINUTE == k / MINUTE + 180;
  }

  lemma LateProbeTimes(day: nat, k: nat)
    requires 15 * HOUR + 31 * MINUTE <= k < DAY
    ensures LateProbe(day * DAY + k) ==
      if k < 18 * HOUR then day * DAY + WholeMinute(k) + 3 * HOUR
      else if k < 20 * HOUR then day * DAY + 20 * HOUR
      else (day + 1) * DAY + 9 * HOUR
  {
    var at := day * DAY + k;
    ClockOf(day, k);
    WholeMinuteOf(day, k + PROBE_OFFSET);
    ThreeHoursOn(k);
    var m := WholeMinute(k) + 3 * HOUR;
    assert k - MINUTE < WholeMinute(k) <= k;
    assert at + PROBE_OFFSET == day * DAY + (k + PROBE_OFFSET);
    if m < DAY {
      ClockOf(day, m);
      ClockOf(day, PROBE_LATEST_HOUR * HOUR);
    } else {
      ClockOf(day + 1, m - DAY);
    }
  }
}
