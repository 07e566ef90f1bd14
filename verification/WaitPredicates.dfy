/** The typed wait vocabulary and its event matcher (packages/core/src/outcomes/predicates.ts). */
module WaitPredicates {
  import opened Prelude

  datatype Json = Text(text: string) | Number(value: real) | OtherJson

  /** A JSON object's own fields. */
  type Fields = map<string, Json>

  predicate Has(r: Fields, key: string, value: string) { key in r && r[key] == Text(value) }

  predicate IsAlphanumeric(c: char) { 'a' <= c <= 'z' || '0' <= c <= '9' }

  /** DOMAIN_RE: two or more labels, none of which begins or ends with a hyphen. */
  predicate IsDomain(s: string) {
    && '.' in s
    && (forall c :: c in s ==> IsAlphanumeric(c) || c == '-' || c == '.')
    && IsAlphanumeric(s[0]) && IsAlphanumeric(s[|s| - 1])
    && forall i :: 0 < i < |s| - 1 && s[i] == '.' ==> IsAlphanumeric(s[i - 1]) && IsAlphanumeric(s[i + 1])
  }

  /** The parts of a text between its dots. */
  function Labels(s: string): (r: seq<string>)
    ensures |r| >= 1 && (|r| >= 2 <==> '.' in s)
  {
    if s == "" then [""]
    else
      var rest := Labels(s[1..]);
      assert s == [s[0]] + s[1..];
      if s[0] == '.' then [""] + rest else [[s[0]] + rest[0]] + rest[1..]
  }

  /** Letters, digits and hyphens, with no hyphen at either end. */
  predicate IsLabel(s: string) {
    && s != "" && IsAlphanumeric(s[0]) && IsAlphanumeric(s[|s| - 1])
    && forall i :: 0 <= i < |s| ==> IsAlphanumeric(s[i]) || s[i] == '-'
  }

  /** The same, but that it may begin with a hyphen, or be empty: the end of a label. */
  predicate IsTail(s: string) {
    && (s != "" ==> IsAlphanumeric(s[|s| - 1]))
    && forall i :: 0 <= i < |s| ==> IsAlphanumeric(s[i]) || s[i] == '-'
  }

  predicate AllLabels(ls: seq<string>) { forall i :: 0 <= i < |ls| ==> IsLabel(ls[i]) }

  /** What follows the first character of a domain, read from the left: `inLabel` says that character was a letter or digit. */
  predicate GoesOn(s: string, inLabel: bool) {
    && (forall c :: c in s ==> IsAlphanumeric(c) || c == '-' || c == '.')
    && (if s == "" then inLabel else IsAlphanumeric(s[|s| - 1]))
    && (s != "" && s[0] == '.' ==> inLabel)
    && (forall i :: 0 <= i < |s| - 1 && s[i] == '.' ==> IsAlphanumeric(s[i + 1]))
    && forall i :: 0 < i < |s| && s[i] == '.' ==> IsAlphanumeric(s[i - 1])
  }

  lemma GoesOnFrom(s: string, inLabel: bool)
    requires s != "" && s[0] != '.' && GoesOn(s, inLabel)
    ensures (IsAlphanumeric(s[0]) || s[0] == '-') && GoesOn(s[1..], IsAlphanumeric(s[0]))
  {
    var t := s[1..];
    assert forall i :: 0 <= i < |t| ==> t[i] == s[i + 1];
  }

  lemma GoesOnBefore(s: string, inLabel: bool)
    requires s != "" && s[0] != '.'
    requires (IsAlphanumeric(s[0]) || s[0] == '-') && GoesOn(s[1..], IsAlphanumeric(s[0]))
    ensures GoesOn(s, inLabel)
  {
    var t := s[1..];
    assert s == [s[0]] + t;
    assert forall i :: 0 <= i < |t| ==> t[i] == s[i + 1];
    forall i | 0 < i < |s| && s[i] == '.'
      ensures IsAlphanumeric(s[i - 1])
    {
      assert t[i - 1] == '.';
    }
    forall i | 0 <= i < |s| - 1 && s[i] == '.'
      ensures IsAlphanumeric(s[i + 1])
    {
      assert t[i - 1] == '.';
    }
  }

  lemma GoesOnAfterDot(s: string)
    requires s != "" && s[0] == '.'
    ensures GoesOn(s, true) <==> s[1..] != "" && IsAlphanumeric(s[1]) && GoesOn(s[1..], false)
  {
    var t := s[1..];
    assert s == [s[0]] + t;
    assert forall i :: 0 <= i < |t| ==> t[i] == s[i + 1];
    if t != "" && IsAlphanumeric(t[0]) && GoesOn(t, false) {
      forall i | 0 < i < |s| && s[i] == '.'
        ensures IsAlphanumeric(s[i - 1])
      {
        assert t[i - 1] == '.';
      }
      forall i | 0 <= i < |s| - 1 && s[i] == '.'
        ensures IsAlphanumeric(s[i + 1])
      {
        if i > 0 { assert t[i - 1] == '.'; }
      }
    }
  }

  lemma {:induction false} GoesOnExactly(s: string, inLabel: bool)
    ensures GoesOn(s, inLabel) <==>
      && IsTail(Labels(s)[0]) && (Labels(s)[0] == "" ==> inLabel) && AllLabels(Labels(s)[1..])
  {
    if s != "" {
      var t := s[1..];
      var ls, rest := Labels(s), Labels(t);
      if s[0] == '.' {
        assert ls[1..] == rest;
        if inLabel { GoesOnAfterDot(s); }
        GoesOnExactly(t, false);
        FirstLabel(t);
        assert AllLabels(rest) <==> IsLabel(rest[0]) && AllLabels(rest[1..]) by {
          assert forall i :: 1 <= i < |rest| ==> rest[i] == rest[1..][i - 1];
        }
      } else {
        assert ls[1..] == rest[1..];
        if GoesOn(s, inLabel) { GoesOnFrom(s, inLabel); }
        GoesOnExactly(t, IsAlphanumeric(s[0]));
        if (IsAlphanumeric(s[0]) || s[0] == '-') && GoesOn(t, IsAlphanumeric(s[0])) { GoesOnBefore(s, inLabel); }
        assert ls[0] == [s[0]] + rest[0];
        TailOneMore(s[0], rest[0]);
      }
    }
  }

  lemma TailOneMore(c: char, tail: string)
    ensures IsTail([c] + tail) <==> (IsAlphanumeric(c) || c == '-') && IsTail(tail) && (tail == "" ==> IsAlphanumeric(c))
  {
    var all := [c] + tail;
    assert all[0] == c && forall i :: 0 <= i < |tail| ==> tail[i] == all[i + 1];
    if tail != "" { assert all[|all| - 1] == tail[|tail| - 1]; }
  }

  lemma {:induction false} FirstLabel(t: string)
    ensures Labels(t)[0] != "" ==> t != "" && t[0] != '.' && Labels(t)[0][0] == t[0]
    ensures Labels(t)[0] == "" ==> t == "" || t[0] == '.'
  {
  }

  /** A domain is two or more labels with dots between them. */
  lemma {:induction false} DomainExactly(s: string)
    ensures IsDomain(s) <==> |Labels(s)| >= 2 && AllLabels(Labels(s))
  {
    var ls := Labels(s);
    FirstLabel(s);
    GoesOnExactly(s, false);
    assert AllLabels(ls) <==> IsLabel(ls[0]) && AllLabels(ls[1..]) by {
      assert forall i :: 1 <= i < |ls| ==> ls[i] == ls[1..][i - 1];
    }
    if s != "" && IsAlphanumeric(s[0]) {
      assert IsDomain(s) ==> GoesOn(s, false) by {
        if IsDomain(s) {
          forall i | 0 <= i < |s| && s[i] == '.'
            ensures 0 < i < |s| - 1
          {
          }
        }
      }
    }
  }

  lemma RefSamples()
    ensures IsRef("A0") && IsRef("ZZZZ9999") && !IsRef("A") && !IsRef("AAAABBBBC") && !IsRef("Aa")
    ensures IsAlphanumeric('a') && IsAlphanumeric('z') && IsAlphanumeric('0') && IsAlphanumeric('9')
  {
    assert "Aa"[1] == 'a' && 'a' in "Aa";
  }

  const STATUSES := {"proposed", "accepted", "queued", "running", "waiting_external", "waiting_user",
    "blocked", "verifying", "completed", "failed", "cancelled"}

  predicate IsRef(s: string) { 2 <= |s| <= 8 && forall c :: c in s ==> 'A' <= c <= 'Z' || '0' <= c <= '9' }

  const ARRIVAL_KEYS := {"v", "type", "source", "fromDomain"}
  const STATE_CHANGE_KEYS := {"v", "type", "entity", "outcomeRef", "toStatus"}
  const ABSENCE_KEYS := {"v", "type", "subject", "olderThanHours"}
  const THRESHOLD_KEYS := {"v", "type", "metric", "gt"}

  function Keep(r: Fields, keys: set<string>): Fields { map k | k in r && k in keys :: r[k] }

  predicate ArrivalOk(r: Fields) {
    && (Has(r, "source", "gmail") || Has(r, "source", "calendar"))
    && ("fromDomain" in r ==> r["fromDomain"].Text? && IsDomain(r["fromDomain"].text))
    && (Has(r, "source", "gmail") ==> "fromDomain" in r)
  }

  predicate StateChangeOk(r: Fields) {
    && Has(r, "entity", "outcome")
    && ("outcomeRef" in r ==> r["outcomeRef"].Text? && IsRef(r["outcomeRef"].text))
    && ("toStatus" in r ==> r["toStatus"].Text? && r["toStatus"].text in STATUSES)
    && ("outcomeRef" in r || "toStatus" in r)
  }

  predicate AbsenceOk(r: Fields) {
    && (Has(r, "subject", "commitment") || Has(r, "subject", "reminder") || Has(r, "subject", "outcome"))
    && "olderThanHours" in r && r["olderThanHours"].Number? && r["olderThanHours"].value > 0.0
  }

  predicate ThresholdOk(r: Fields) {
    Has(r, "metric", "outcome_spend_usd") && "gt" in r && r["gt"].Number? && r["gt"].value >= 0.0
  }

  /** parseOutcomeWaitPredicate; a domain that passes IsDomain is lower case already. */
  function ParsePredicate(raw: Option<Fields>): Option<Fields> {
    if raw.None? || !("v" in raw.value && raw.value["v"] == Number(1.0)) then None
    else
      var r := raw.value;
      if Has(r, "type", "arrival") then if ArrivalOk(r) then Some(Keep(r, ARRIVAL_KEYS)) else None
      else if Has(r, "type", "state_change") then
        if StateChangeOk(r) then Some(Keep(r, STATE_CHANGE_KEYS)) else None
      else if Has(r, "type", "absence_past") then if AbsenceOk(r) then Some(Keep(r, ABSENCE_KEYS)) else None
      else if Has(r, "type", "threshold") then if ThresholdOk(r) then Some(Keep(r, THRESHOLD_KEYS)) else None
      else None
  }

  function KnownKeys(r: Fields): set<string> {
    if Has(r, "type", "arrival") then ARRIVAL_KEYS
    else if Has(r, "type", "state_change") then STATE_CHANGE_KEYS
    else if Has(r, "type", "absence_past") then ABSENCE_KEYS
    else THRESHOLD_KEYS
  }

  lemma KeepAll(r: Fields, keys: set<string>)
    ensures Keep(r, keys) == r <==> r.Keys <= keys
  {
    if r.Keys <= keys {
      assert Keep(r, keys) == r;
    } else {
      var k :| k in r.Keys && k !in keys;
      assert k !in Keep(r, keys);
    }
  }

  lemma ParsedShape(raw: Fields)
    requires ParsePredicate(Some(raw)).Some?
    ensures ParsePredicate(Some(raw)) == Some(Keep(raw, KnownKeys(raw)))
  {
  }

  /** A stored predicate is its own canonical form: reading it back changes nothing. */
  lemma ParseIsIdempotent(raw: Option<Fields>)
    requires ParsePredicate(raw).Some?
    ensures ParsePredicate(ParsePredicate(raw)) == ParsePredicate(raw)
  {
    var r := raw.value;
    ParsedShape(r);
    var p := Keep(r, KnownKeys(r));
    assert p["type"] == r["type"] && KnownKeys(p) == KnownKeys(r);
    KeepAll(p, KnownKeys(r));
  }

  /** A predicate is stored as it was written exactly when it has no field outside the vocabulary. */
  lemma StoredAsWrittenExactly(raw: Fields)
    requires ParsePredicate(Some(raw)).Some?
    ensures ParsePredicate(Some(raw)).value == raw <==> raw.Keys <= KnownKeys(raw)
  {
    ParsedShape(raw);
    KeepAll(raw, KnownKeys(raw));
  }

  // ---------------------------------------------------------------- waits

  const GMAIL := "gmail.message.received"
  const CALENDAR_CREATED := "calendar.event.created"
  const CALENDAR_UPDATED := "calendar.event.updated"
  const STATUS_CHANGED := "outcome.status_changed"

  predicate IsWaitEventType(t: string) { t in {GMAIL, CALENDAR_CREATED, CALENDAR_UPDATED, STATUS_CHANGED} }

  /** What createOutcomeWait stores, or its refusal (packages/core/src/outcomes/service.ts). */
  function AdmitWait(eventType: string, raw: Option<Fields>): Result<Fields> {
    var p := ParsePredicate(raw);
    if IsWaitEventType(eventType) && p.Some? && (Has(p.value, "type", "arrival") || Has(p.value, "type", "state_change"))
    then Ok(p.value) else Thrown
  }

  predicate SameField(p: Fields, key: string, payload: Fields, name: string) {
    key in p ==> name in payload && payload[name] == p[key]
  }

  /** predicateMatchesEvent */
  predicate MatchesEvent(p: Fields, eventType: string, payload: Fields) {
    if Has(p, "type", "arrival") then
      if Has(p, "source", "gmail") then eventType == GMAIL && SameField(p, "fromDomain", payload, "fromDomain")
      else eventType == CALENDAR_CREATED || eventType == CALENDAR_UPDATED
    else
      && Has(p, "type", "state_change") && eventType == STATUS_CHANGED
      && SameField(p, "toStatus", payload, "toStatus") && SameField(p, "outcomeRef", payload, "ref")
  }
}
