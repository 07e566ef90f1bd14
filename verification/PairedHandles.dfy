/**
 The paired-handle cache (apps/imessage-sensor/src/paired.ts): which handles may
 have their message content forwarded. Lower-casing is a parameter.
 */
module PairedHandles {
  import opened Prelude
  import opened Trimming

  type Lowercase = string -> string

  /** What lower-casing is relied on for. */
  ghost predicate LowercaseLaws(lower: Lowercase) {
    && (forall s: string :: lower(lower(s)) == lower(s))
    && (forall s: string :: (lower(s) == "") == (s == ""))
    && (forall s: string :: Trim(s) == s ==> Trim(lower(s)) == lower(s))
    && (forall s: string :: ('@' in lower(s)) == ('@' in s))
    && (forall s: string :: (Digits(lower(s)) == "") == (Digits(s) == ""))
  }

  /** The digits of s, in order. */
  function Digits(s: string): string {
    if s == "" then "" else (if IsDigit(s[0]) then [s[0]] else "") + Digits(s[1..])
  }

  function NormalizeHandle(raw: string, lower: Lowercase): string {
    var trimmed := Trim(raw);
    if trimmed == "" then ""
    else if '@' in trimmed then lower(trimmed)
    else if Digits(trimmed) != "" then "+" + Digits(trimmed)
    else lower(trimmed)
  }

  predicate OnlyDigits(s: string) { forall i :: 0 <= i < |s| ==> IsDigit(s[i]) }

  lemma {:induction false} DigitsAreDigits(s: string)
    ensures OnlyDigits(Digits(s))
  {
    if s != "" {
      DigitsAreDigits(s[1..]);
    }
  }

  lemma {:induction false} DigitsFixed(s: string)
    requires OnlyDigits(s)
    ensures Digits(s) == s
  {
    if s != "" {
      DigitsFixed(s[1..]);
    }
  }

  lemma PhoneIsFixed(digits: string, lower: Lowercase)
    requires digits != "" && OnlyDigits(digits)
    ensures NormalizeHandle("+" + digits, lower) == "+" + digits
  {
    var h := "+" + digits;
    assert Trim(h) == h;
    assert h[1..] == digits;
    DigitsFixed(digits);
    assert Digits(h) == digits;
  }

  /** Normalizing twice is normalizing once: both sides of a comparison may do it. */
  lemma NormalizeIsIdempotent(raw: string, lower: Lowercase)
    requires LowercaseLaws(lower)
    ensures NormalizeHandle(NormalizeHandle(raw, lower), lower) == NormalizeHandle(raw, lower)
  {
    var trimmed := Trim(raw);
    TrimIsIdempotent(raw);
    if trimmed != "" {
      if '@' !in trimmed && Digits(trimmed) != "" {
        DigitsAreDigits(trimmed);
        PhoneIsFixed(Digits(trimmed), lower);
      } else {
        var l := lower(trimmed);
        assert l != "" && Trim(l) == l && lower(l) == l;
        assert ('@' in l) == ('@' in trimmed);
        assert (Digits(l) == "") == (Digits(trimmed) == "");
      }
    }
  }

  /** Only blank text normalizes to the empty handle. */
  lemma NormalizeIsBlankOnlyForBlank(raw: string, lower: Lowercase)
    requires LowercaseLaws(lower)
    ensures NormalizeHandle(raw, lower) == "" <==> Trim(raw) == ""
  {
  }

  // ------------------------------------------------------- the heartbeat response

  /** The decoded response body, as far as the parser looks at it. */
  datatype Body =
    | NoBody
    | NotAnObject
    | Object(handles: Option<seq<Option<string>>>)  // None: not an array; an entry None: not a string

  datatype ParsedBody = Handles(handles: seq<string>) | Absent | Invalid

  predicate ValidEntry(entry: Option<string>) { entry.Some? && Trim(entry.value) != "" }

  function ParseBody(body: Body): ParsedBody {
    match body
    case NoBody => Absent
    case NotAnObject => Invalid
    case Object(None) => Invalid
    case Object(Some(entries)) =>
      if forall i :: 0 <= i < |entries| ==> ValidEntry(entries[i]) then
        Handles(seq(|entries|, i requires 0 <= i < |entries| => entries[i].value))
      else Invalid
  }

  /** What a body is read as: absent without one; its entries, if it is an object whose list holds non-blank texts alone; and otherwise malformed. */
  lemma BodyExactly(body: Body)
    ensures ParseBody(body).Absent? <==> body.NoBody?
    ensures ParseBody(body).Handles? <==>
      body.Object? && body.handles.Some? && forall e :: e in body.handles.value ==> e.Some? && Trim(e.value) != ""
    ensures ParseBody(body).Handles? ==>
      |ParseBody(body).handles| == |body.handles.value|
      && forall i :: 0 <= i < |ParseBody(body).handles| ==> Some(ParseBody(body).handles[i]) == body.handles.value[i]
  {
    if body.Object? && body.handles.Some? {
      assert forall i :: 0 <= i < |body.handles.value| ==> body.handles.value[i] in body.handles.value;
    }
  }

  method ParsePairedHandlesBody(body: Body) returns (r: ParsedBody)
    ensures r == ParseBody(body)
  {
    if body.NoBody? {
      return Absent;
    }
    if body.NotAnObject? || body.handles.None? {
      return Invalid;
    }
    var entries := body.handles.value;
    var handles := [];
    for i := 0 to |entries|
      invariant |handles| == i
      invariant forall j :: 0 <= j < i ==> ValidEntry(entries[j]) && handles[j] == entries[j].value
    {
      if !ValidEntry(entries[i]) {
        return Invalid;
      }
      handles := handles + [entries[i].value];
    }
    r := Handles(handles);
  }

  /** The handles a response installs: none unless the body is valid. */
  function HandlesOf(body: Body): seq<string> {
    if ParseBody(body).Handles? then ParseBody(body).handles else []
  }

  function NormalizedSet(handles: seq<string>, lower: Lowercase): set<string> {
    set h | h in handles :: NormalizeHandle(h, lower)
  }

  predicate Has(normalized: set<string>, rawHandle: Option<string>, lower: Lowercase) {
    rawHandle.Some? && rawHandle.value != "" && NormalizeHandle(rawHandle.value, lower) in normalized
  }

  class PairedHandleCache {
    const lower: Lowercase
    var normalized: set<string>

    constructor (lower: Lowercase)
      ensures this.lower == lower && normalized == {}
    {
      this.lower := lower;
      normalized := {};
    }

    method Refresh(handles: seq<string>)
      modifies this
      ensures normalized == NormalizedSet(handles, lower)
    {
      normalized := NormalizedSet(handles, lower);
    }

    method HasHandle(rawHandle: Option<string>) returns (r: bool)
      ensures r == Has(normalized, rawHandle, lower)
    {
      if rawHandle.None? || rawHandle.value == "" {
        return false;
      }
      r := NormalizeHandle(rawHandle.value, lower) in normalized;
    }
  }

  /**
   What a response's cache admits: exactly the handles that a listed handle
   normalizes alike, so never a blank one, and nothing at all after a bad body.
   */
  lemma CacheOfBody(body: Body, rawHandle: Option<string>, lower: Lowercase)
    requires LowercaseLaws(lower)
    ensures Has(NormalizedSet(HandlesOf(body), lower), rawHandle, lower)
      <==> (rawHandle.Some? && exists h :: h in HandlesOf(body) && SameHandle(h, rawHandle.value, lower))
    ensures "" !in NormalizedSet(HandlesOf(body), lower)
    ensures rawHandle.Some? && Trim(rawHandle.value) == "" ==>
      !Has(NormalizedSet(HandlesOf(body), lower), rawHandle, lower)
  {
    var handles := HandlesOf(body);
    forall h | h in handles
      ensures Trim(h) != "" && NormalizeHandle(h, lower) != ""
    {
      var i :| 0 <= i < |handles| && handles[i] == h;
      assert ValidEntry(body.handles.value[i]);
      NormalizeIsBlankOnlyForBlank(h, lower);
    }
    if rawHandle.Some? {
      NormalizeIsBlankOnlyForBlank(rawHandle.value, lower);
    }
  }

  predicate SameHandle(a: string, b: string, lower: Lowercase) {
    NormalizeHandle(a, lower) == NormalizeHandle(b, lower)
  }
}
