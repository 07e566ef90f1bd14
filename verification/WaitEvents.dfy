/**
 The events that can wake a wait: what the mail sync (packages/core/src/gmail/sync.ts),
 the calendar sync (packages/core/src/calendar/sync.ts) and transitionOutcome
 (packages/core/src/outcomes/service.ts) really send.
 */
module WaitEvents {
  import opened Prelude
  import opened Trimming
  import opened WaitPredicates
  import opened OutcomeStore

  function StatusText(s: Status): string {
    match s
    case Proposed => "proposed"
    case Accepted => "accepted"
    case Queued => "queued"
    case Running => "running"
    case WaitingExternal => "waiting_external"
    case WaitingUser => "waiting_user"
    case Blocked => "blocked"
    case Verifying => "verifying"
    case Completed => "completed"
    case Failing => "failed"
    case Cancelled => "cancelled"
  }

  /** The vocabulary of statuses is that of the outcomes. */
  lemma StatusesAreAll(s: string)
    ensures s in STATUSES <==> exists status :: StatusText(status) == s
  {
    if s in STATUSES {
      var all := [Proposed, Accepted, Queued, Running, WaitingExternal, WaitingUser, Blocked, Verifying, Completed, Failing, Cancelled];
      var texts := seq(|all|, i requires 0 <= i < |all| => StatusText(all[i]));
      assert texts == ["proposed", "accepted", "queued", "running", "waiting_external", "waiting_user",
                       "blocked", "verifying", "completed", "failed", "cancelled"];
      assert s in texts;
      var i :| 0 <= i < |texts| && texts[i] == s;
      assert StatusText(all[i]) == s;
    }
  }

  /** The statuses that some caller asks transitionOutcome for; `accepted` is only ever inserted. */
  predicate IsRequested(to: Status) {
    to in {Queued, Running, WaitingExternal, WaitingUser, Verifying, Blocked, Completed, Failing}
  }

  /** The event a transition is announced by: four statuses have one of their own. */
  function AnnouncedAs(to: Status): string {
    match to
    case Completed => "outcome.completed"
    case Failing => "outcome.failed"
    case Cancelled => "outcome.cancelled"
    case Blocked => "outcome.blocked"
    case _ => STATUS_CHANGED
  }

  const REF_ALPHABET := "0123456789ABCDEFGHJKMNPQRSTVWXYZ"

  /** A ref that mintOutcomeRef can make. */
  predicate IsMinted(ref: string) { |ref| == 3 && forall c :: c in ref ==> c in REF_ALPHABET }

  /** The domain part of a normalized sender address. */
  predicate IsMailDomain(s: string) { s != "" && forall c :: c in s ==> c != '@' && !IsSpace(c) && !('A' <= c <= 'Z') }

  datatype CalendarChange = Created | Updated | CalledOff

  datatype Happening =
    | Mail(fromDomain: Option<string>)
    | Calendar(change: CalendarChange)
    | Transition(from: Status, to: Status, ref: string)

  predicate CanHappen(h: Happening) {
    match h
    case Mail(d) => d.Some? ==> IsMailDomain(d.value)
    case Calendar(_) => true
    case Transition(from, to, ref) => Edge(from, to) && IsRequested(to) && IsMinted(ref)
  }

  function TypeOf(h: Happening): string {
    match h
    case Mail(_) => GMAIL
    case Calendar(c) =>
      if c.Created? then CALENDAR_CREATED else if c.Updated? then CALENDAR_UPDATED else "calendar.event.cancelled"
    case Transition(_, to, _) => AnnouncedAs(to)
  }

  /** The payload, as far as a condition can look at it. */
  function PayloadOf(h: Happening): Fields {
    match h
    case Mail(d) => map["fromDomain" := if d.Some? then Text(d.value) else OtherJson]
    case Calendar(_) => map[]
    case Transition(from, to, ref) =>
      map["ref" := Text(ref), "fromStatus" := Text(StatusText(from)), "toStatus" := Text(StatusText(to))]
  }

  predicate Wakes(h: Happening, eventType: string, p: Fields) {
    CanHappen(h) && TypeOf(h) == eventType && MatchesEvent(p, eventType, PayloadOf(h))
  }

  ghost predicate IsWakeable(eventType: string, p: Fields) { exists h :: Wakes(h, eventType, p) }

  /** The text a field holds. */
  predicate Names(p: Fields, key: string, text: string) { key in p && p[key] == Text(text) }

  /**
   Which happenings wake an admitted wait, one by one. Mail wakes a wait for mail from
   that very domain. A calendar change wakes a wait for its own kind of change. A
   transition wakes a wait for a status change, if it is announced as one, and if status
   and ref are those that are asked for, where any are.
   */
  lemma WakesExactly(h: Happening, eventType: string, raw: Option<Fields>)
    requires AdmitWait(eventType, raw).Ok? && CanHappen(h)
    ensures var p := AdmitWait(eventType, raw).value;
      Wakes(h, eventType, p) <==>
        match h
        case Mail(domain) =>
          && eventType == GMAIL && Names(p, "type", "arrival") && Names(p, "source", "gmail")
          && domain.Some? && Names(p, "fromDomain", domain.value)
        case Calendar(change) =>
          && Names(p, "type", "arrival") && Names(p, "source", "calendar")
          && ((change.Created? && eventType == CALENDAR_CREATED) || (change.Updated? && eventType == CALENDAR_UPDATED))
        case Transition(_, to, ref) =>
          && eventType == STATUS_CHANGED && Names(p, "type", "state_change")
          && to in {Queued, Running, WaitingExternal, WaitingUser, Verifying}
          && ("toStatus" in p ==> Names(p, "toStatus", StatusText(to)))
          && ("outcomeRef" in p ==> Names(p, "outcomeRef", ref))
  {
    ParsedShape(raw.value);
  }

  /** The statuses announced as a status change. */
  const ANNOUNCED := {"queued", "running", "waiting_external", "waiting_user", "verifying"}

  /**
   The event type is one the condition's source sends; a status that is asked for is
   announced under that type; and a ref that is asked for is one that is ever minted.
   */
  predicate Compatible(eventType: string, p: Fields) {
    if Has(p, "type", "state_change") then
      && eventType == STATUS_CHANGED
      && ("toStatus" in p ==> p["toStatus"].Text? && p["toStatus"].text in ANNOUNCED)
      && ("outcomeRef" in p ==> p["outcomeRef"].Text? && IsMinted(p["outcomeRef"].text))
    else if Has(p, "source", "gmail") then eventType == GMAIL
    else eventType == CALENDAR_CREATED || eventType == CALENDAR_UPDATED
  }

  /** Every announced status is reached by a legal transition that some caller asks for. */
  function Into(status: string): (h: (Status, Status))
    requires status in ANNOUNCED
    ensures Edge(h.0, h.1) && IsRequested(h.1) && StatusText(h.1) == status && AnnouncedAs(h.1) == STATUS_CHANGED
  {
    if status == "queued" then (Accepted, Queued)
    else if status == "running" then (Queued, Running)
    else if status == "waiting_external" then (Running, WaitingExternal)
    else if status == "waiting_user" then (Running, WaitingUser)
    else (Running, Verifying)
  }

  lemma AnnouncedExactly(to: Status)
    requires IsRequested(to)
    ensures AnnouncedAs(to) == STATUS_CHANGED <==> StatusText(to) in ANNOUNCED
  {
  }

  lemma CompatibleWakes(eventType: string, p: Fields)
    requires ParsePredicate(Some(p)) == Some(p) && (Has(p, "type", "arrival") || Has(p, "type", "state_change"))
    requires Compatible(eventType, p)
    ensures IsWakeable(eventType, p)
  {
    if Has(p, "type", "state_change") {
      var step := Into(if "toStatus" in p then p["toStatus"].text else "running");
      var ref := if "outcomeRef" in p then p["outcomeRef"].text else "000";
      assert Wakes(Transition(step.0, step.1, ref), eventType, p);
    } else if Has(p, "source", "gmail") {
      assert IsDomain(p["fromDomain"].text);
      assert Wakes(Mail(Some(p["fromDomain"].text)), eventType, p);
    } else {
      assert Wakes(Calendar(if eventType == CALENDAR_CREATED then Created else Updated), eventType, p);
    }
  }

  lemma WokenIsCompatible(h: Happening, eventType: string, p: Fields)
    requires ParsePredicate(Some(p)) == Some(p) && (Has(p, "type", "arrival") || Has(p, "type", "state_change"))
    requires Wakes(h, eventType, p)
    ensures Compatible(eventType, p)
  {
    if Has(p, "type", "state_change") && h.Transition? {
      AnnouncedExactly(h.to);
    }
  }

  /**
   Which admitted waits the syncs and the transitions can ever wake. Event type, status and ref are admitted
   apart from what is sent, so a wait may be asked of another source's events, for a
   status announced under a type of its own, or for a ref that is never minted.
   */
  lemma WakeableExactly(eventType: string, raw: Option<Fields>)
    requires AdmitWait(eventType, raw).Ok?
    ensures IsWakeable(eventType, AdmitWait(eventType, raw).value) <==> Compatible(eventType, AdmitWait(eventType, raw).value)
  {
    var p := AdmitWait(eventType, raw).value;
    ParseIsIdempotent(raw);
    if Compatible(eventType, p) {
      CompatibleWakes(eventType, p);
    }
    if IsWakeable(eventType, p) {
      var h :| Wakes(h, eventType, p);
      WokenIsCompatible(h, eventType, p);
    }
  }

  /** The owner may post an event of any of these types, with any payload (apps/api/src/routes/events.ts). */
  ghost predicate WakeableByPost(eventType: string, p: Fields) { exists payload :: MatchesEvent(p, eventType, payload) }

  predicate FitsSource(eventType: string, p: Fields) {
    if Has(p, "type", "state_change") then eventType == STATUS_CHANGED
    else if Has(p, "source", "gmail") then eventType == GMAIL
    else eventType == CALENDAR_CREATED || eventType == CALENDAR_UPDATED
  }

  /** Which admitted waits the owner can wake by posting: those asked of their own source's events, whatever the status and ref. */
  lemma WakeableByPostExactly(eventType: string, raw: Option<Fields>)
    requires AdmitWait(eventType, raw).Ok?
    ensures WakeableByPost(eventType, AdmitWait(eventType, raw).value) <==> FitsSource(eventType, AdmitWait(eventType, raw).value)
  {
    var p := AdmitWait(eventType, raw).value;
    if FitsSource(eventType, p) {
      var payload := if "outcomeRef" in p then p["ref" := p["outcomeRef"]] else p;
      assert MatchesEvent(p, eventType, payload);
    }
  }

  /** An admitted wait nothing wakes, not even a post: mail from a domain, asked of calendar events. */
  lemma SilentArrival() returns (eventType: string, raw: Option<Fields>)
    ensures AdmitWait(eventType, raw).Ok? && !IsWakeable(eventType, AdmitWait(eventType, raw).value)
    ensures !WakeableByPost(eventType, AdmitWait(eventType, raw).value)
  {
    eventType := CALENDAR_CREATED;
    raw := Some(map["v" := Number(1.0), "type" := Text("arrival"), "source" := Text("gmail"),
                    "fromDomain" := Text("a.b")]);
    assert "a.b"[1] == '.';
    assert Has(AdmitWait(eventType, raw).value, "source", "gmail");
    WakeableExactly(eventType, raw);
    WakeableByPostExactly(eventType, raw);
  }

  function StateChange(key: string, value: string): Fields {
    map["v" := Number(1.0), "type" := Text("state_change"), "entity" := Text("outcome"), key := Text(value)]
  }

  /** And one that only a post wakes: an outcome's completion, which is announced as outcome.completed. */
  lemma SilentCompletion() returns (raw: Option<Fields>)
    ensures raw == Some(StateChange("toStatus", "completed"))
    ensures AdmitWait(STATUS_CHANGED, raw).Ok? && !IsWakeable(STATUS_CHANGED, AdmitWait(STATUS_CHANGED, raw).value)
    ensures WakeableByPost(STATUS_CHANGED, AdmitWait(STATUS_CHANGED, raw).value)
  {
    raw := Some(StateChange("toStatus", "completed"));
    var p := AdmitWait(STATUS_CHANGED, raw).value;
    assert p["toStatus"] == Text("completed");
    WakeableExactly(STATUS_CHANGED, raw);
    WakeableByPostExactly(STATUS_CHANGED, raw);
  }

  /** And another: a ref of two letters, where every ref has three. */
  lemma SilentRef() returns (raw: Option<Fields>)
    ensures raw == Some(StateChange("outcomeRef", "AB"))
    ensures AdmitWait(STATUS_CHANGED, raw).Ok? && !IsWakeable(STATUS_CHANGED, AdmitWait(STATUS_CHANGED, raw).value)
    ensures WakeableByPost(STATUS_CHANGED, AdmitWait(STATUS_CHANGED, raw).value)
  {
    raw := Some(StateChange("outcomeRef", "AB"));
    var p := AdmitWait(STATUS_CHANGED, raw).value;
    assert p["outcomeRef"] == Text("AB");
    WakeableExactly(STATUS_CHANGED, raw);
    WakeableByPostExactly(STATUS_CHANGED, raw);
  }
}
