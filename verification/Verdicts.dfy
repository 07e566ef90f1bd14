/**
 A verifier's verdict: reading it (packages/core/src/assignments/verdict.ts), the
 executor's checks before it counts, and what it does to the criteria.
 */
module Verdicts {
  import opened Prelude
  import opened Trimming

  datatype Value = Confirmed | Refuted | Uncertain

  /** citation_ids as written; an element that is not an integer is None. */
  datatype RawIds = NoIds | NotAList | Ids(ids: seq<Option<int>>)

  /** One verdict as written; a field of the wrong type is None. */
  datatype RawVerdict =
    | NotAnObject
    | RawVerdict(ordinal: Option<int>, value: Option<Value>, reasoning: Option<string>, citations: RawIds)

  /** The whole envelope; `restOk` says the confidence and the open questions pass their checks. */
  datatype RawResult = RawResult(summary: Option<string>, verdicts: Option<seq<RawVerdict>>, restOk: bool)

  datatype Verdict = Verdict(ordinal: int, value: Value, reasoning: string, citationIds: seq<int>)

  const SUMMARY_MAX := 500
  const MAX_VERDICTS := 10

  predicate TextOk(t: Option<string>) { t.Some? && Trim(t.value) != "" && CodeUnits(t.value) <= SUMMARY_MAX }

  predicate IdsOk(r: RawIds) {
    match r
    case NoIds => true
    case NotAList => false
    case Ids(ids) => forall i :: 0 <= i < |ids| ==> ids[i].Some? && ids[i].value >= 1
  }

  function IdsOf(r: RawIds): seq<int>
    requires IdsOk(r)
  {
    if r.Ids? then seq(|r.ids|, i requires 0 <= i < |r.ids| => r.ids[i].value) else []
  }

  predicate VerdictOk(v: RawVerdict) {
    && v.RawVerdict? && v.ordinal.Some? && v.ordinal.value >= 1 && v.value.Some?
    && TextOk(v.reasoning) && IdsOk(v.citations)
  }

  /** Which verdicts pass: some that do, and one for each thing that can be wrong. */
  lemma VerdictSamples()
    ensures var good := RawVerdict(Some(1), Some(Confirmed), Some(" ok "), Ids([Some(2), Some(1)]));
      && VerdictOk(good) && VerdictOf(good) == Verdict(1, Confirmed, Trim(" ok "), [2, 1])
      && VerdictOk(good.(citations := NoIds)) && VerdictOf(good.(citations := NoIds)).citationIds == []
      && !VerdictOk(NotAnObject) && !VerdictOk(good.(ordinal := None)) && !VerdictOk(good.(ordinal := Some(0)))
      && !VerdictOk(good.(value := None)) && !VerdictOk(good.(reasoning := None)) && !VerdictOk(good.(reasoning := Some("")))
      && !VerdictOk(good.(citations := NotAList)) && !VerdictOk(good.(citations := Ids([None])))
      && !VerdictOk(good.(citations := Ids([Some(0)])))
  {
    AsciiUnits(" ok ");
    assert Trim(" ok ") != "" by { assert TrimStart(" ok ") == TrimStart("ok ") by { assert " ok "[1..] == "ok "; } }
    assert Ids([None]).ids[0] == None && Ids([Some(0)]).ids[0] == Some(0);
  }

  /** Summaries and reasonings of up to five hundred units. */
  lemma {:induction false} TextLimits(text: string)
    requires Trim(text) != ""
    ensures TextOk(Some(text)) <==> CodeUnits(text) <= 500
  {
  }

  function VerdictOf(v: RawVerdict): Verdict
    requires VerdictOk(v)
  {
    Verdict(v.ordinal.value, v.value.value, Trim(v.reasoning.value), IdsOf(v.citations))
  }

  predicate DistinctOrdinals(raw: seq<RawVerdict>) {
    forall i, j :: 0 <= i < j < |raw| && raw[i].RawVerdict? && raw[j].RawVerdict? ==> raw[i].ordinal != raw[j].ordinal
  }

  predicate AllOk(raw: seq<RawVerdict>) { forall i :: 0 <= i < |raw| ==> VerdictOk(raw[i]) }

  predicate ResultOk(r: RawResult) {
    && TextOk(r.summary) && r.verdicts.Some? && 1 <= |r.verdicts.value| <= MAX_VERDICTS && r.restOk
    && AllOk(r.verdicts.value) && DistinctOrdinals(r.verdicts.value)
  }

  function VerdictsFrom(raw: seq<RawVerdict>): (vs: seq<Verdict>)
    requires AllOk(raw)
    ensures |vs| == |raw| && forall i :: 0 <= i < |raw| ==> vs[i] == VerdictOf(raw[i])
  {
    seq(|raw|, i requires 0 <= i < |raw| => VerdictOf(raw[i]))
  }

  function VerdictsOf(r: RawResult): (vs: seq<Verdict>)
    requires ResultOk(r)
    ensures |vs| == |r.verdicts.value| && Distinct(vs) && forall v :: v in vs ==> WellFormed(v)
  {
    VerdictsFrom(r.verdicts.value)
  }

  predicate WellFormed(v: Verdict) { v.ordinal >= 1 && forall id :: id in v.citationIds ==> id >= 1 }

  predicate Distinct(vs: seq<Verdict>) {
    forall i, j :: 0 <= i < j < |vs| ==> vs[i].ordinal != vs[j].ordinal
  }

  /** parseVerifierResult: the verdicts in order, or a throw at the first bad one. */
  method ParseVerifierResult(r: RawResult) returns (out: Result<seq<Verdict>>)
    ensures out == if ResultOk(r) then Ok(VerdictsOf(r)) else Thrown
  {
    if !TextOk(r.summary) || r.verdicts.None? || r.verdicts.value == [] || |r.verdicts.value| > MAX_VERDICTS {
      return Thrown;
    }
    var parsed := ParseVerdicts(r.verdicts.value);
    if parsed.Thrown? || !r.restOk {
      return Thrown;
    }
    assert parsed.value == VerdictsOf(r);
    return parsed;
  }

  method ParseVerdicts(raw: seq<RawVerdict>) returns (out: Result<seq<Verdict>>)
    ensures out.Ok? <==> AllOk(raw) && DistinctOrdinals(raw)
    ensures out.Ok? ==> out.value == VerdictsFrom(raw)
  {
    var seen: set<int> := {};
    var verdicts: seq<Verdict> := [];
    for i := 0 to |raw|
      invariant AllOk(raw[..i]) && DistinctOrdinals(raw[..i])
      invariant seen == SeenIn(raw[..i]) && verdicts == VerdictsFrom(raw[..i])
    {
      OneMoreVerdict(raw, i);
      if !VerdictOk(raw[i]) || raw[i].ordinal.value in seen {
        return Thrown;
      }
      VerdictsOneMore(raw, i);
      seen := seen + {raw[i].ordinal.value};
      verdicts := verdicts + [VerdictOf(raw[i])];
    }
    assert raw[..|raw|] == raw;
    return Ok(verdicts);
  }

  lemma VerdictsOneMore(raw: seq<RawVerdict>, i: nat)
    requires i < |raw| && AllOk(raw[..i]) && VerdictOk(raw[i]) && AllOk(raw[..i + 1])
    ensures VerdictsFrom(raw[..i + 1]) == VerdictsFrom(raw[..i]) + [VerdictOf(raw[i])]
  {
  }

  function SeenIn(raw: seq<RawVerdict>): set<int>
    requires AllOk(raw)
  {
    set i | 0 <= i < |raw| :: raw[i].ordinal.value
  }

  /** One more verdict: what goes wrong with it goes wrong with the whole. */
  lemma OneMoreVerdict(raw: seq<RawVerdict>, i: nat)
    requires i < |raw| && AllOk(raw[..i]) && DistinctOrdinals(raw[..i])
    ensures !VerdictOk(raw[i]) ==> !AllOk(raw)
    ensures VerdictOk(raw[i]) ==> AllOk(raw[..i + 1]) && SeenIn(raw[..i + 1]) == SeenIn(raw[..i]) + {raw[i].ordinal.value}
    ensures VerdictOk(raw[i]) && raw[i].ordinal.value in SeenIn(raw[..i]) ==> !DistinctOrdinals(raw)
    ensures VerdictOk(raw[i]) && raw[i].ordinal.value !in SeenIn(raw[..i]) ==> DistinctOrdinals(raw[..i + 1])
  {
    var a, b := raw[..i + 1], raw[..i];
    assert a[i] == raw[i] && forall j :: 0 <= j < i ==> a[j] == b[j] == raw[j];
    if VerdictOk(raw[i]) {
      forall x | x in SeenIn(b) + {raw[i].ordinal.value}
        ensures x in SeenIn(a)
      {
        if x in SeenIn(b) {
          var j :| 0 <= j < i && b[j].ordinal.value == x;
          assert a[j].ordinal.value == x;
        } else {
          assert a[i].ordinal.value == x;
        }
      }
    }
  }

  // ---------------------------------------------------------------- the criteria

  datatype CriterionStatus = Pending | Verified | Unverified | Failed | Waived

  /** A criterion; verifiedBy is the index of the verifier assignment that confirmed it. */
  datatype Criterion = Criterion(ordinal: int, ownerJudgment: bool, status: CriterionStatus, verifiedBy: Option<nat>)

  predicate Resolved(c: Criterion) { c.status == Verified || c.status == Waived }

  predicate AllResolved(cs: seq<Criterion>) { forall i :: 0 <= i < |cs| ==> Resolved(cs[i]) }

  /** The unique constraint on (outcome, ordinal). */
  predicate Numbered(cs: seq<Criterion>) {
    && (forall i, j :: 0 <= i < j < |cs| ==> cs[i].ordinal != cs[j].ordinal)
    && forall i :: 0 <= i < |cs| ==> cs[i].ordinal >= 1
  }

  function Ordinals(vs: seq<Verdict>): set<int> { set i | 0 <= i < |vs| :: vs[i].ordinal }

  function CriteriaOrdinals(cs: seq<Criterion>): set<int> { set i | 0 <= i < |cs| :: cs[i].ordinal }

  predicate CitesInRange(v: Verdict, citations: nat) {
    v.value == Confirmed ==> v.citationIds != [] && forall id :: id in v.citationIds ==> 1 <= id <= citations
  }

  /** The executor's check before the assignment is completed. */
  predicate LaneAccepts(vs: seq<Verdict>, cs: seq<Criterion>, citations: nat) {
    && |cs| == |Ordinals(vs)| && (forall i :: 0 <= i < |cs| ==> cs[i].ordinal in Ordinals(vs))
    && forall v :: v in vs ==> CitesInRange(v, citations)
  }

  /** applyVerifierVerdict's own check. */
  predicate ServiceAccepts(vs: seq<Verdict>, cs: seq<Criterion>, citations: nat) {
    && |vs| == |cs| && (forall i :: 0 <= i < |cs| ==> cs[i].ordinal in Ordinals(vs))
    && forall v :: v in vs && v.value == Confirmed ==>
      v.citationIds != [] && !exists id :: id in v.citationIds && id > citations
  }

  /** As many ordinals as verdicts, when none is repeated. */
  lemma {:induction false} DistinctCount(vs: seq<Verdict>)
    requires Distinct(vs)
    ensures |Ordinals(vs)| == |vs|
  {
    if vs != [] {
      var rest := vs[..|vs| - 1];
      DistinctCount(rest);
      assert Ordinals(vs) == Ordinals(rest) + {vs[|vs| - 1].ordinal};
      assert vs[|vs| - 1].ordinal !in Ordinals(rest);
    }
  }

  lemma {:induction false} NumberedCount(cs: seq<Criterion>)
    requires Numbered(cs)
    ensures |CriteriaOrdinals(cs)| == |cs|
  {
    if cs != [] {
      var rest := cs[..|cs| - 1];
      NumberedCount(rest);
      assert CriteriaOrdinals(cs) == CriteriaOrdinals(rest) + {cs[|cs| - 1].ordinal};
      assert cs[|cs| - 1].ordinal !in CriteriaOrdinals(rest);
    }
  }

  lemma SubsetOfSameSize(a: set<int>, b: set<int>)
    requires a <= b && |a| == |b|
    ensures a == b
  {
    assert b == a + (b - a) && |b| == |a| + |b - a|;
    assert b - a == {};
  }

  /** What the executor accepts is what the service accepts, so a verdict that reaches the service is applied. */
  lemma LaneCheckIsServiceCheck(r: RawResult, cs: seq<Criterion>, citations: nat)
    requires ResultOk(r)
    ensures LaneAccepts(VerdictsOf(r), cs, citations) <==> ServiceAccepts(VerdictsOf(r), cs, citations)
  {
    var vs := VerdictsOf(r);
    DistinctCount(vs);
    forall v | v in vs
      ensures CitesInRange(v, citations) <==>
        (v.value == Confirmed ==> v.citationIds != [] && !exists id :: id in v.citationIds && id > citations)
    {
    }
  }

  /** An accepted verdict speaks once of each criterion and of nothing else. */
  lemma AcceptedCoversExactly(vs: seq<Verdict>, cs: seq<Criterion>, citations: nat)
    requires Distinct(vs) && Numbered(cs) && LaneAccepts(vs, cs, citations)
    ensures |vs| == |cs| && Ordinals(vs) == CriteriaOrdinals(cs)
  {
    DistinctCount(vs);
    NumberedCount(cs);
    SubsetOfSameSize(CriteriaOrdinals(cs), Ordinals(vs));
  }

  /**
   Which outcomes a verifier can settle at all: intake admits twelve criteria and a
   verdict holds ten, so eleven or twelve criteria are beyond every verdict.
   */
  lemma SomeVerdictFitsExactly(cs: seq<Criterion>, citations: nat)
    requires Numbered(cs) && cs != []
    ensures (exists r :: ResultOk(r) && LaneAccepts(VerdictsOf(r), cs, citations)) <==> |cs| <= MAX_VERDICTS
  {
    if |cs| <= MAX_VERDICTS {
      MeddlingFits(cs, citations);
    }
    forall r | ResultOk(r) && LaneAccepts(VerdictsOf(r), cs, citations)
      ensures |cs| <= MAX_VERDICTS
    {
      AcceptedCoversExactly(VerdictsOf(r), cs, citations);
    }
  }

  /** Eleven criteria, which intake admits and no verdict settles. */
  lemma ElevenNeverFit(citations: nat) returns (cs: seq<Criterion>)
    ensures Numbered(cs) && |cs| == 11 && LaneOpens(cs)
    ensures forall r :: ResultOk(r) ==> !LaneAccepts(VerdictsOf(r), cs, citations)
  {
    cs := seq(11, i requires 0 <= i < 11 => Criterion(i + 1, false, Pending, None));
    assert cs[0].status == Pending && !cs[0].ownerJudgment;
    SomeVerdictFitsExactly(cs, citations);
  }

  // ---------------------------------------------------------------- applying a verdict

  function StatusOf(v: Value): CriterionStatus {
    match v
    case Confirmed => Verified
    case Refuted => Failed
    case Uncertain => Unverified
  }

  /** What one verdict makes of a criterion: only a confirmation names its verifier. */
  function Decided(c: Criterion, v: Verdict, verifier: nat): Criterion {
    c.(status := StatusOf(v.value), verifiedBy := if v.value == Confirmed then Some(verifier) else c.verifiedBy)
  }

  /** setCriterionStatus for one verdict: every row with its ordinal. */
  function ApplyOne(cs: seq<Criterion>, v: Verdict, verifier: nat): (r: seq<Criterion>)
    ensures |r| == |cs|
  {
    seq(|cs|, i requires 0 <= i < |cs| => if cs[i].ordinal == v.ordinal then Decided(cs[i], v, verifier) else cs[i])
  }

  function ApplyAll(cs: seq<Criterion>, vs: seq<Verdict>, verifier: nat): (r: seq<Criterion>)
    ensures |r| == |cs|
  {
    if vs == [] then cs else ApplyOne(ApplyAll(cs, vs[..|vs| - 1], verifier), vs[|vs| - 1], verifier)
  }

  /** Criteria nobody speaks of stay as they were; one that a single verdict speaks of is decided by it. */
  lemma {:induction false} AppliedAt(cs: seq<Criterion>, vs: seq<Verdict>, verifier: nat, i: nat)
    requires Distinct(vs) && i < |cs|
    ensures cs[i].ordinal !in Ordinals(vs) ==> ApplyAll(cs, vs, verifier)[i] == cs[i]
    ensures forall k :: 0 <= k < |vs| && vs[k].ordinal == cs[i].ordinal ==>
      ApplyAll(cs, vs, verifier)[i] == Decided(cs[i], vs[k], verifier)
  {
    if vs != [] {
      var n := |vs| - 1;
      var rest := vs[..n];
      AppliedAt(cs, rest, verifier, i);
      assert Ordinals(vs) == Ordinals(rest) + {vs[n].ordinal};
      assert vs[n].ordinal !in Ordinals(rest);
      assert forall k :: 0 <= k < n ==> vs[k] == rest[k] && vs[k].ordinal in Ordinals(rest);
    }
  }

  /** An applied verdict leaves no criterion pending and none waived: each has the status its verdict says. */
  lemma {:induction false} AppliedVerdictDecidesEveryCriterion(cs: seq<Criterion>, vs: seq<Verdict>, citations: nat, verifier: nat, i: nat)
    requires Distinct(vs) && LaneAccepts(vs, cs, citations) && i < |cs|
    ensures exists k | 0 <= k < |vs| ::
      vs[k].ordinal == cs[i].ordinal && ApplyAll(cs, vs, verifier)[i] == Decided(cs[i], vs[k], verifier)
  {
    AppliedAt(cs, vs, verifier, i);
    assert cs[i].ordinal in Ordinals(vs);
    var k :| 0 <= k < |vs| && vs[k].ordinal == cs[i].ordinal;
  }

  /** The criterion after a verdict of its own: verified by this verifier if confirmed, failed if refuted, and otherwise unverified. */
  predicate SaysSo(before: Criterion, v: Verdict, verifier: nat, after: Criterion) {
    && after.ordinal == before.ordinal && after.ownerJudgment == before.ownerJudgment
    && (v.value == Confirmed ==> after.status == Verified && after.verifiedBy == Some(verifier))
    && (v.value == Refuted ==> after.status == Failed && after.verifiedBy == before.verifiedBy)
    && (v.value == Uncertain ==> after.status == Unverified && after.verifiedBy == before.verifiedBy)
  }

  /** Applied, an accepted verdict says of each criterion what its own line said; and a criterion it does not name stays. */
  lemma {:induction false} AppliedAsSaid(cs: seq<Criterion>, vs: seq<Verdict>, verifier: nat, i: nat)
    requires Distinct(vs) && i < |cs|
    ensures |ApplyAll(cs, vs, verifier)| == |cs|
    ensures forall k | 0 <= k < |vs| && vs[k].ordinal == cs[i].ordinal ::
      SaysSo(cs[i], vs[k], verifier, ApplyAll(cs, vs, verifier)[i])
    ensures (forall k :: 0 <= k < |vs| ==> vs[k].ordinal != cs[i].ordinal) ==> ApplyAll(cs, vs, verifier)[i] == cs[i]
  {
    AppliedAt(cs, vs, verifier, i);
  }

  /** The lane's guard on the criteria: some pending one that the owner did not reserve. */
  predicate LaneOpens(cs: seq<Criterion>) {
    exists i :: 0 <= i < |cs| && cs[i].status == Pending && !cs[i].ownerJudgment
  }

  predicate AnyReserved(cs: seq<Criterion>) { exists i :: 0 <= i < |cs| && cs[i].ownerJudgment }

  /** Applying these verdicts changes nothing about the criteria the owner reserved. */
  predicate KeepsReserved(cs: seq<Criterion>, vs: seq<Verdict>, verifier: nat) {
    forall i :: 0 <= i < |cs| && cs[i].ownerJudgment ==> ApplyAll(cs, vs, verifier)[i] == cs[i]
  }

  /** Which single criterion a verdict leaves as it was: one that had failed it refutes again, or an unverified one it leaves open. */
  predicate Repeats(c: Criterion, v: Verdict) {
    (c.status == Failed && v.value == Refuted) || (c.status == Unverified && v.value == Uncertain)
  }

  /**
   What an applied verdict leaves alone, verdict by verdict. The verifier is new, so no
   criterion names it yet; a confirmation writes its name even where it changes no
   status, also over an owner's own verification or waiver.
   */
  lemma {:induction false} VerdictKeepsExactly(cs: seq<Criterion>, vs: seq<Verdict>, verifier: nat, i: nat, k: nat)
    requires Distinct(vs) && i < |cs| && k < |vs| && vs[k].ordinal == cs[i].ordinal && cs[i].verifiedBy != Some(verifier)
    ensures ApplyAll(cs, vs, verifier)[i] == cs[i] <==> Repeats(cs[i], vs[k])
    ensures ApplyAll(cs, vs, verifier)[i].status == cs[i].status <==> cs[i].status == StatusOf(vs[k].value)
  {
    AppliedAt(cs, vs, verifier, i);
  }

  /** A verdict on every criterion: uncertain, but a refusal where the criterion is unverified already. */
  function Meddling(cs: seq<Criterion>): RawResult {
    RawResult(Some("?"), Some(seq(|cs|, i requires 0 <= i < |cs| => MeddlingOn(cs[i]))), true)
  }

  function MeddlingOn(c: Criterion): RawVerdict {
    RawVerdict(Some(c.ordinal), Some(if c.status == Unverified then Refuted else Uncertain), Some("?"), NoIds)
  }

  predicate Contradicts(v: Verdict, c: Criterion) {
    v.ordinal == c.ordinal && v.value == if c.status == Unverified then Refuted else Uncertain
  }

  lemma MeddlingFits(cs: seq<Criterion>, citations: nat)
    requires Numbered(cs) && 1 <= |cs| <= MAX_VERDICTS
    ensures ResultOk(Meddling(cs)) && |VerdictsOf(Meddling(cs))| == |cs| && LaneAccepts(VerdictsOf(Meddling(cs)), cs, citations)
    ensures forall i :: 0 <= i < |cs| ==> Contradicts(VerdictsOf(Meddling(cs))[i], cs[i])
  {
    assert Trim("?") == "?";
    AsciiUnits("?");
    var raw := Meddling(cs).verdicts.value;
    assert forall i :: 0 <= i < |raw| ==> VerdictOk(raw[i]);
    var vs := VerdictsOf(Meddling(cs));
    DistinctCount(vs);
    assert forall i :: 0 <= i < |cs| ==> vs[i].ordinal == cs[i].ordinal;
  }

  lemma MeddlingTouches(cs: seq<Criterion>, verifier: nat)
    requires AnyReserved(cs) && forall i :: 0 <= i < |cs| ==> cs[i].verifiedBy != Some(verifier)
    requires ResultOk(Meddling(cs)) && |VerdictsOf(Meddling(cs))| == |cs|
    requires forall i :: 0 <= i < |cs| ==> Contradicts(VerdictsOf(Meddling(cs))[i], cs[i])
    ensures !KeepsReserved(cs, VerdictsOf(Meddling(cs)), verifier)
  {
    var i :| 0 <= i < |cs| && cs[i].ownerJudgment;
    VerdictKeepsExactly(cs, VerdictsOf(Meddling(cs)), verifier, i, i);
  }

  /**
   The lane promises that a verifier never flips a criterion the owner reserved. Its
   guard only looks for one pending criterion that is not reserved, and then a verdict
   must speak of all of them, whatever their status: no verdict it accepts touches a
   reserved criterion exactly when none is reserved, or when there are more criteria
   than any verdict holds.
   */
  lemma ReservedJudgmentKeptExactly(cs: seq<Criterion>, citations: nat, verifier: nat)
    requires Numbered(cs) && LaneOpens(cs) && forall i :: 0 <= i < |cs| ==> cs[i].verifiedBy != Some(verifier)
    ensures (forall r :: ResultOk(r) && LaneAccepts(VerdictsOf(r), cs, citations) ==> KeepsReserved(cs, VerdictsOf(r), verifier))
       <==> !AnyReserved(cs) || |cs| > MAX_VERDICTS
  {
    if AnyReserved(cs) && |cs| <= MAX_VERDICTS {
      MeddlingFits(cs, citations);
      MeddlingTouches(cs, verifier);
    }
    forall r | ResultOk(r) && LaneAccepts(VerdictsOf(r), cs, citations)
      ensures |cs| <= MAX_VERDICTS
    {
      AcceptedCoversExactly(VerdictsOf(r), cs, citations);
    }
  }

  /** The owner has verified the second criterion, and the first is still pending. */
  function OwnersRow(): seq<Criterion> { [Criterion(1, false, Pending, None), Criterion(2, true, Verified, None)] }

  /** A verifier that confirms the first and refutes the second. */
  function Overruling(): RawResult {
    var confirmed := RawVerdict(Some(1), Some(Confirmed), Some("?"), Ids([Some(1)]));
    var refuted := RawVerdict(Some(2), Some(Refuted), Some("?"), NoIds);
    RawResult(Some("?"), Some([confirmed, refuted]), true)
  }

  lemma OverrulingIsRead()
    ensures ResultOk(Overruling())
    ensures VerdictsOf(Overruling()) == [Verdict(1, Confirmed, "?", [1]), Verdict(2, Refuted, "?", [])]
  {
    var raw := Overruling().verdicts.value;
    assert Trim("?") == "?";
    AsciiUnits("?");
    assert VerdictOk(raw[0]) && VerdictOk(raw[1]);
    var vs := VerdictsOf(Overruling());
    assert |vs| == 2 && vs[0] == VerdictOf(raw[0]) && vs[1] == VerdictOf(raw[1]);
    assert vs[0] == Verdict(1, Confirmed, "?", [1]) && vs[1] == Verdict(2, Refuted, "?", []);
  }

  /** The lane opens on such a row, accepts such a verifier, and the owner's criterion fails. */
  lemma OwnerIsOverruled()
    ensures var cs, r := OwnersRow(), Overruling();
      && Numbered(cs) && LaneOpens(cs) && ResultOk(r) && LaneAccepts(VerdictsOf(r), cs, 1)
      && cs[1].ownerJudgment && cs[1].status == Verified
      && ApplyAll(cs, VerdictsOf(r), 7)[1].status == Failed
  {
    OverrulingIsRead();
    var cs, vs := OwnersRow(), VerdictsOf(Overruling());
    assert cs[0].status == Pending;
    DistinctCount(vs);
    AppliedAt(cs, vs, 7, 1);
  }

  // ---------------------------------------------------------------- the evidence trail

  /** The builder's refs that confirmed verdicts cite. */
  function ConfirmedRefs(vs: seq<Verdict>, refs: seq<string>): set<string> {
    set k, id | 0 <= k < |vs| && vs[k].value == Confirmed && id in vs[k].citationIds
      && 1 <= id <= |refs| && refs[id - 1] != "" :: refs[id - 1]
  }

  /** A confirmation always leaves a ref to store as the verifier's own evidence. */
  lemma ConfirmationLeavesEvidence(vs: seq<Verdict>, cs: seq<Criterion>, refs: seq<string>, k: nat)
    requires LaneAccepts(vs, cs, |refs|) && k < |vs| && vs[k].value == Confirmed
    requires forall i :: 0 <= i < |refs| ==> refs[i] != ""
    ensures ConfirmedRefs(vs, refs) != {}
  {
    assert vs[k] in vs && CitesInRange(vs[k], |refs|);
    var id := vs[k].citationIds[0];
    assert id in vs[k].citationIds && refs[id - 1] in ConfirmedRefs(vs, refs);
  }

  function RefsAt(ids: seq<int>, refs: seq<string>): set<string> {
    set id | id in ids && 1 <= id <= |refs| && refs[id - 1] != "" :: refs[id - 1]
  }

  function RefsOf(v: Verdict, refs: seq<string>): set<string> {
    if v.value == Confirmed then RefsAt(v.citationIds, refs) else {}
  }

  lemma ConfirmedOneMore(vs: seq<Verdict>, refs: seq<string>, k: nat)
    requires k < |vs|
    ensures ConfirmedRefs(vs[..k + 1], refs) == ConfirmedRefs(vs[..k], refs) + RefsOf(vs[k], refs)
  {
    var a, b := vs[..k + 1], vs[..k];
    assert forall j :: 0 <= j < k ==> a[j] == b[j];
    forall ref | ref in RefsOf(vs[k], refs)
      ensures ref in ConfirmedRefs(a, refs)
    {
      var id :| id in vs[k].citationIds && vs[k].value == Confirmed && 1 <= id <= |refs| && refs[id - 1] == ref && ref != "";
      assert a[k] == vs[k];
    }
    forall ref | ref in ConfirmedRefs(b, refs)
      ensures ref in ConfirmedRefs(a, refs)
    {
      var j, id :| 0 <= j < |b| && b[j].value == Confirmed && id in b[j].citationIds
        && 1 <= id <= |refs| && refs[id - 1] != "" && refs[id - 1] == ref;
      assert a[j] == b[j];
    }
  }

  function Members(s: seq<string>): set<string> { set x | x in s }

  predicate NoRepeats(s: seq<string>) { forall i, j :: 0 <= i < j < |s| ==> s[i] != s[j] }

  /** The refs of the confirmed verdicts, each once, in the order they are met. */
  method CollectConfirmed(vs: seq<Verdict>, refs: seq<string>) returns (found: seq<string>)
    ensures Members(found) == ConfirmedRefs(vs, refs) && NoRepeats(found)
  {
    found := [];
    for k := 0 to |vs|
      invariant Members(found) == ConfirmedRefs(vs[..k], refs) && NoRepeats(found)
    {
      ConfirmedOneMore(vs, refs, k);
      if vs[k].value == Confirmed {
        found := CollectFrom(vs[k], refs, found);
      }
    }
    assert vs[..|vs|] == vs;
  }

  method CollectFrom(v: Verdict, refs: seq<string>, before: seq<string>) returns (found: seq<string>)
    requires v.value == Confirmed && NoRepeats(before)
    ensures Members(found) == Members(before) + RefsOf(v, refs) && NoRepeats(found)
  {
    found := before;
    var ids := v.citationIds;
    for j := 0 to |ids|
      invariant NoRepeats(found)
      invariant Members(found) == Members(before) + RefsAt(ids[..j], refs)
    {
      RefsOneMore(ids, refs, j);
      if 1 <= ids[j] <= |refs| && refs[ids[j] - 1] != "" && refs[ids[j] - 1] !in found {
        ghost var had := found;
        found := found + [refs[ids[j] - 1]];
        assert Members(found) == Members(had) + {refs[ids[j] - 1]};
      }
    }
    assert ids[..|ids|] == ids;
  }

  lemma RefsOneMore(ids: seq<int>, refs: seq<string>, j: nat)
    requires j < |ids|
    ensures RefsAt(ids[..j + 1], refs) == RefsAt(ids[..j], refs) +
      if 1 <= ids[j] <= |refs| && refs[ids[j] - 1] != "" then {refs[ids[j] - 1]} else {}
  {
    assert ids[..j + 1] == ids[..j] + [ids[j]];
    assert forall id :: id in ids[..j + 1] <==> id in ids[..j] || id == ids[j];
    var more := if 1 <= ids[j] <= |refs| && refs[ids[j] - 1] != "" then {refs[ids[j] - 1]} else {};
    forall ref
      ensures ref in RefsAt(ids[..j + 1], refs) <==> ref in RefsAt(ids[..j], refs) || ref in more
    {
      if ref in RefsAt(ids[..j], refs) {
        var id :| id in ids[..j] && 1 <= id <= |refs| && refs[id - 1] != "" && refs[id - 1] == ref;
        assert id in ids[..j + 1];
      }
      if ref in more {
        assert ids[j] in ids[..j + 1];
      }
    }
  }
}
