/**
 The bake-off's spend guard: the live grid loop (evals/model-bakeoff/track-a.ts), its
 in-run projection (evals/answer-quality/runner.ts) and the smoke gate
 (evals/model-bakeoff/gating.ts). Money is real; call outcomes are inputs.
 */
module SpendGuard {
  import opened Prelude

  const SMOKE_SCENARIOS := 2

  /** A call that failed, or that answered with a cost if the provider named one. */
  datatype Call = Failed | Answered(cost: Option<real>)

  /** The calls of one cell of the grid: the judge is asked only when the candidate answered. */
  datatype Cell = Cell(reply: Call, judge: Call)

  function CostOf(c: Call): real { if c.Answered? && c.cost.Some? then c.cost.value else 0.0 }

  function JudgeCost(c: Cell): real { if c.reply.Answered? then CostOf(c.judge) else 0.0 }

  function CellCost(c: Cell): real { CostOf(c.reply) + JudgeCost(c) }

  function CellCalls(c: Cell): nat { if c.reply.Answered? then 2 else 1 }

  predicate NonNegative(c: Cell) { CostOf(c.reply) >= 0.0 && CostOf(c.judge) >= 0.0 }

  predicate AllNonNegative(cells: seq<Cell>) { forall k :: 0 <= k < |cells| ==> NonNegative(cells[k]) }

  function Spend(cells: seq<Cell>): real {
    if cells == [] then 0.0 else Spend(cells[..|cells| - 1]) + CellCost(cells[|cells| - 1])
  }

  function Calls(cells: seq<Cell>): nat {
    if cells == [] then 0 else Calls(cells[..|cells| - 1]) + CellCalls(cells[|cells| - 1])
  }

  function JudgeSpend(cells: seq<Cell>): real {
    if cells == [] then 0.0 else JudgeSpend(cells[..|cells| - 1]) + JudgeCost(cells[|cells| - 1])
  }

  /** projectedWithinCeiling */
  predicate WithinCeiling(spend: real, completed: nat, planned: nat, ceiling: real) {
    completed == 0 || spend + spend / completed as real * (planned as real - completed as real) <= ceiling
  }

  /** While calls remain planned, a projection within the ceiling means that what is spent already is. */
  lemma ProjectionBoundsSpend(spend: real, completed: nat, planned: nat, ceiling: real)
    requires spend >= 0.0 && 0 < completed <= planned && WithinCeiling(spend, completed, planned, ceiling)
    ensures spend <= ceiling
  {
    assert spend / completed as real >= 0.0;
    assert spend / completed as real * (planned as real - completed as real) >= 0.0;
  }

  /** Calls of equal cost: the guard lets the whole plan through exactly when the plan fits. */
  lemma EqualCostsPassExactly(each: real, completed: nat, planned: nat, ceiling: real)
    requires 0 < completed
    ensures WithinCeiling(each * completed as real, completed, planned, ceiling) <==> each * planned as real <= ceiling
  {
    var c, p := completed as real, planned as real;
    assert each * c / c == each;
    assert each * c + each * (p - c) == each * p;
  }

  // ---------------------------------------------------------------- the smoke gate

  function Sum(values: seq<real>): real {
    if values == [] then 0.0 else Sum(values[..|values| - 1]) + values[|values| - 1]
  }

  function Remaining(total: nat, smoke: nat): nat { if total < smoke then 0 else total - smoke }

  /** The cost of the full run, from the smoke's spend and what its answers and judgements cost on average. */
  function Projection(perAnswer: seq<real>, judgePerCall: real, smokeSpend: real, total: nat): real {
    smokeSpend + Expected(perAnswer, judgePerCall, Remaining(total, SMOKE_SCENARIOS))
  }

  /** So many scenarios at these means. */
  function Expected(perAnswer: seq<real>, judgePerCall: real, scenarios: nat): real {
    scenarios as real * Sum(perAnswer) + judgePerCall * scenarios as real * |perAnswer| as real
  }

  /** projectFullRun: one mean for each candidate that has a measured cost. */
  method ProjectFullRun(perAnswer: seq<real>, judgePerCall: real, smokeSpend: real, total: nat) returns (projected: real)
    ensures projected == Projection(perAnswer, judgePerCall, smokeSpend, total)
  {
    var remaining := Remaining(total, SMOKE_SCENARIOS) as real;
    projected := smokeSpend;
    for i := 0 to |perAnswer|
      invariant projected == smokeSpend + remaining * Sum(perAnswer[..i])
    {
      assert perAnswer[..i + 1][..i] == perAnswer[..i];
      projected := projected + perAnswer[i] * remaining;
      assert remaining * (Sum(perAnswer[..i]) + perAnswer[i]) == remaining * Sum(perAnswer[..i]) + perAnswer[i] * remaining;
    }
    assert perAnswer[..|perAnswer|] == perAnswer;
    projected := projected + judgePerCall * remaining * |perAnswer| as real;
  }

  // ---------------------------------------------------------------- the grid

  datatype Grid = Grid(spend: real, replySpend: real, judgeSpend: real, calls: nat, judgeCalls: nat)

  function ReplySpend(cells: seq<Cell>): real {
    if cells == [] then 0.0 else ReplySpend(cells[..|cells| - 1]) + CostOf(cells[|cells| - 1].reply)
  }

  function JudgeCalls(cells: seq<Cell>): nat {
    if cells == [] then 0 else JudgeCalls(cells[..|cells| - 1]) + if cells[|cells| - 1].reply.Answered? then 1 else 0
  }

  /** The counters are those of the cells bought so far. */
  predicate Counts(g: Grid, bought: seq<Cell>) {
    && g.spend == Spend(bought) && g.calls == Calls(bought) && g.judgeSpend == JudgeSpend(bought)
    && g.replySpend == ReplySpend(bought) && g.judgeCalls == JudgeCalls(bought)
  }

  /** The smoke's own spend, which the gate adds up from the records and the judge's total, is all that was spent. */
  lemma {:induction false} RecordsAccountForSpend(bought: seq<Cell>)
    ensures ReplySpend(bought) + JudgeSpend(bought) == Spend(bought)
  {
    if bought != [] {
      RecordsAccountForSpend(bought[..|bought| - 1]);
    }
  }

  /** A call for every cell bought, and one more for every answer. */
  lemma {:induction false} CallsAccounted(bought: seq<Cell>)
    ensures Calls(bought) == |bought| + JudgeCalls(bought)
  {
    if bought != [] {
      CallsAccounted(bought[..|bought| - 1]);
    }
  }

  lemma {:induction false} SpendFacts(bought: seq<Cell>)
    requires AllNonNegative(bought)
    ensures Spend(bought) >= 0.0 && |bought| <= Calls(bought) <= 2 * |bought|
  {
    if bought != [] {
      SpendFacts(bought[..|bought| - 1]);
    }
  }

  /** Every cell was bought within the ceiling, as spent and as projected. */
  predicate Guarded(bought: seq<Cell>, planned: nat, ceiling: real) {
    forall k :: 0 <= k < |bought| ==>
      Spend(bought[..k]) <= ceiling && WithinCeiling(Spend(bought[..k]), Calls(bought[..k]), planned, ceiling)
  }

  method BuyCell(g: Grid, cell: Cell, ghost bought: seq<Cell>) returns (r: Grid)
    requires Counts(g, bought)
    ensures Counts(r, bought + [cell])
  {
    assert (bought + [cell])[..|bought|] == bought;
    r := g.(calls := g.calls + 1);
    if cell.reply.Failed? { return; }
    r := r.(spend := r.spend + CostOf(cell.reply), replySpend := r.replySpend + CostOf(cell.reply));
    r := r.(calls := r.calls + 1, judgeCalls := r.judgeCalls + 1, judgeSpend := r.judgeSpend + CostOf(cell.judge));
    if cell.judge.Failed? { return; }
    r := r.(spend := r.spend + CostOf(cell.judge));
  }

  /** One scenario: every candidate in turn, each behind the projection. */
  method RunScenario(g: Grid, row: seq<Cell>, planned: nat, ceiling: real, ghost before: seq<Cell>)
    returns (r: Grid, ghost bought: seq<Cell>, stopped: bool)
    requires Counts(g, before) && Guarded(before, planned, ceiling) && ceiling >= 0.0
    requires 2 * (|before| + |row|) <= planned
    requires AllNonNegative(before) && AllNonNegative(row)
    ensures Counts(r, bought) && Guarded(bought, planned, ceiling)
    ensures before <= bought <= before + row && (!stopped ==> bought == before + row)
    ensures stopped ==> !WithinCeiling(r.spend, r.calls, planned, ceiling)
  {
    r, bought, stopped := g, before, false;
    for c := 0 to |row|
      invariant Counts(r, bought) && Guarded(bought, planned, ceiling) && bought == before + row[..c]
    {
      SpendFacts(bought);
      if !WithinCeiling(r.spend, r.calls, planned, ceiling) {
        stopped := true;
        return;
      }
      if r.calls > 0 { ProjectionBoundsSpend(r.spend, r.calls, planned, ceiling); }
      GuardedOneMore(bought, row[c], planned, ceiling);
      r := BuyCell(r, row[c], bought);
      bought := bought + [row[c]];
    }
  }

  lemma {:induction false} GuardedOneMore(bought: seq<Cell>, cell: Cell, planned: nat, ceiling: real)
    requires Guarded(bought, planned, ceiling) && Spend(bought) <= ceiling
    requires WithinCeiling(Spend(bought), Calls(bought), planned, ceiling)
    ensures Guarded(bought + [cell], planned, ceiling)
  {
    var more := bought + [cell];
    forall k | 0 <= k < |more|
      ensures Spend(more[..k]) <= ceiling && WithinCeiling(Spend(more[..k]), Calls(more[..k]), planned, ceiling)
    {
      assert more[..k] == if k < |bought| then bought[..k] else bought;
    }
  }

  datatype Abort = NoAbort | Projected | SmokeOnly | GateRefused

  function Flat(rows: seq<seq<Cell>>): seq<Cell> {
    if rows == [] then [] else Flat(rows[..|rows| - 1]) + rows[|rows| - 1]
  }

  predicate IsGrid(rows: seq<seq<Cell>>, candidates: nat) {
    forall s :: 0 <= s < |rows| ==> |rows[s]| == candidates && AllNonNegative(rows[s])
  }

  lemma {:induction false} FlatFacts(rows: seq<seq<Cell>>, candidates: nat)
    requires IsGrid(rows, candidates)
    ensures |Flat(rows)| == |rows| * candidates && AllNonNegative(Flat(rows))
  {
    if rows != [] {
      FlatFacts(rows[..|rows| - 1], candidates);
      assert |rows| * candidates == (|rows| - 1) * candidates + candidates;
    }
  }

  lemma {:induction false} FlatPrefix(rows: seq<seq<Cell>>, s: nat)
    requires s <= |rows|
    ensures Flat(rows[..s]) <= Flat(rows)
  {
    if s < |rows| {
      var rest := rows[..|rows| - 1];
      FlatPrefix(rest, s);
      assert rest[..s] == rows[..s];
    } else {
      assert rows[..s] == rows;
    }
  }

  lemma PartsAreNonNegative(here: seq<Cell>, row: seq<Cell>, all: seq<Cell>)
    requires here + row <= all && AllNonNegative(all)
    ensures AllNonNegative(here) && AllNonNegative(row) && AllNonNegative(here + row)
  {
    assert forall k :: 0 <= k < |here| ==> here[k] == all[k];
    assert forall c :: 0 <= c < |row| ==> row[c] == all[|here| + c];
  }

  lemma {:induction false} NextRow(rows: seq<seq<Cell>>, s: nat)
    requires s < |rows| && AllNonNegative(Flat(rows))
    ensures Flat(rows[..s + 1]) == Flat(rows[..s]) + rows[s] && Flat(rows[..s + 1]) <= Flat(rows)
    ensures AllNonNegative(Flat(rows[..s])) && AllNonNegative(rows[s]) && AllNonNegative(Flat(rows[..s + 1]))
  {
    assert rows[..s + 1][..s] == rows[..s];
    FlatPrefix(rows, s + 1);
    PartsAreNonNegative(Flat(rows[..s]), rows[s], Flat(rows));
  }

  /** What the guard over each cell means for the total. */
  lemma {:induction false} LastCellBounds(bought: seq<Cell>, all: seq<Cell>, planned: nat, ceiling: real)
    requires bought <= all && AllNonNegative(all) && 2 * |all| <= planned && ceiling >= 0.0
    requires Guarded(bought, planned, ceiling)
    ensures Calls(bought) <= planned
    ensures Spend(bought) <= ceiling + if bought == [] then 0.0 else CellCost(bought[|bought| - 1])
  {
    SpendFacts(bought);
  }

  predicate NoneNegative(values: seq<real>) { forall i :: 0 <= i < |values| ==> values[i] >= 0.0 }

  lemma {:induction false} SumIsNonNegative(values: seq<real>)
    requires NoneNegative(values)
    ensures Sum(values) >= 0.0
  {
    if values != [] {
      SumIsNonNegative(values[..|values| - 1]);
    }
  }

  function JudgeMean(g: Grid): real { if g.judgeCalls > 0 then g.judgeSpend / g.judgeCalls as real else 0.0 }

  function GateProjection(g: Grid, perAnswer: seq<real>, total: nat): real {
    Projection(perAnswer, JudgeMean(g), g.spend, total)
  }

  /** The gate after the smoke: where it opens, the smoke itself was within the ceiling. */
  method SmokeGate(g: Grid, ghost bought: seq<Cell>, total: nat, ceiling: real, smokeOnly: bool, perAnswer: seq<real>)
    returns (abort: Abort)
    requires Counts(g, bought) && AllNonNegative(bought) && NoneNegative(perAnswer)
    ensures abort == if smokeOnly then SmokeOnly
      else if GateProjection(g, perAnswer, total) <= ceiling then NoAbort else GateRefused
    ensures abort == NoAbort ==> g.spend <= ceiling
  {
    var judgePerCall := if g.judgeCalls > 0 then g.judgeSpend / g.judgeCalls as real else 0.0;
    var projected := ProjectFullRun(perAnswer, judgePerCall, g.replySpend + g.judgeSpend, total);
    RecordsAccountForSpend(bought);
    JudgeSpendIsNonNegative(bought);
    SumIsNonNegative(perAnswer);
    ProjectionCoversSmoke(perAnswer, judgePerCall, Remaining(total, SMOKE_SCENARIOS));
    abort := if smokeOnly then SmokeOnly else if projected <= ceiling then NoAbort else GateRefused;
  }

  lemma {:induction false} JudgeSpendIsNonNegative(bought: seq<Cell>)
    requires AllNonNegative(bought)
    ensures JudgeSpend(bought) >= 0.0
  {
    if bought != [] {
      JudgeSpendIsNonNegative(bought[..|bought| - 1]);
    }
  }

  lemma {:induction false} ProjectionCoversSmoke(perAnswer: seq<real>, judgePerCall: real, remaining: nat)
    requires Sum(perAnswer) >= 0.0 && judgePerCall >= 0.0
    ensures Expected(perAnswer, judgePerCall, remaining) >= 0.0
  {
    assert remaining as real * Sum(perAnswer) >= 0.0;
    assert judgePerCall * remaining as real >= 0.0;
    assert judgePerCall * remaining as real * |perAnswer| as real >= 0.0;
  }

  /** A candidate's recorded costs: answers that named one and were judged. */
  function CostsOf(smoke: seq<seq<Cell>>, c: nat): seq<real>
    requires forall s :: 0 <= s < |smoke| ==> c < |smoke[s]|
  {
    if smoke == [] then []
    else
      var cell := smoke[|smoke| - 1][c];
      CostsOf(smoke[..|smoke| - 1], c)
      + if cell.reply.Answered? && cell.reply.cost.Some? && cell.judge.Answered? then [cell.reply.cost.value] else []
  }

  function Mean(values: seq<real>): real
    requires values != []
  {
    Sum(values) / |values| as real
  }

  /** The recorded costs of each of the first n candidates that has any. */
  function Recorded(smoke: seq<seq<Cell>>, n: nat): seq<seq<real>>
    requires forall s :: 0 <= s < |smoke| ==> n <= |smoke[s]|
  {
    if n == 0 then []
    else Recorded(smoke, n - 1) + if CostsOf(smoke, n - 1) == [] then [] else [CostsOf(smoke, n - 1)]
  }

  function MeanEach(costs: seq<seq<real>>): seq<real> {
    if costs == [] then []
    else
      var last := costs[|costs| - 1];
      MeanEach(costs[..|costs| - 1]) + [if last == [] then 0.0 else Mean(last)]
  }

  /** smokeMeasuresOf: one mean for each of the first n candidates that has a recorded cost. */
  function Means(smoke: seq<seq<Cell>>, n: nat): seq<real>
    requires forall s :: 0 <= s < |smoke| ==> n <= |smoke[s]|
  {
    MeanEach(Recorded(smoke, n))
  }

  lemma {:induction false} CostsAreNonNegative(smoke: seq<seq<Cell>>, c: nat)
    requires forall s :: 0 <= s < |smoke| ==> c < |smoke[s]| && AllNonNegative(smoke[s])
    ensures NoneNegative(CostsOf(smoke, c))
  {
    if smoke != [] {
      CostsAreNonNegative(smoke[..|smoke| - 1], c);
      assert NonNegative(smoke[|smoke| - 1][c]);
    }
  }

  lemma {:induction false} RecordedAreNonNegative(smoke: seq<seq<Cell>>, n: nat)
    requires forall s :: 0 <= s < |smoke| ==> n <= |smoke[s]| && AllNonNegative(smoke[s])
    ensures forall c :: 0 <= c < |Recorded(smoke, n)| ==> NoneNegative(Recorded(smoke, n)[c])
  {
    if n > 0 {
      RecordedAreNonNegative(smoke, n - 1);
      CostsAreNonNegative(smoke, n - 1);
    }
  }

  lemma {:induction false} MeansAreNonNegative(costs: seq<seq<real>>)
    requires forall c :: 0 <= c < |costs| ==> NoneNegative(costs[c])
    ensures NoneNegative(MeanEach(costs))
  {
    if costs != [] {
      MeansAreNonNegative(costs[..|costs| - 1]);
      var last := costs[|costs| - 1];
      SumIsNonNegative(last);
      assert last != [] ==> Mean(last) >= 0.0;
    }
  }

  /** What the gate projects from the smoke is more than the ceiling. */
  predicate TooDear(smoke: seq<seq<Cell>>, candidates: nat, total: nat, ceiling: real)
    requires forall s :: 0 <= s < |smoke| ==> candidates <= |smoke[s]|
  {
    GateProjection(Smoked(smoke), Means(smoke, candidates), total) > ceiling
  }

  /** What the smoke's cells come to. */
  function Smoked(smoke: seq<seq<Cell>>): Grid {
    var cells := Flat(smoke);
    Grid(Spend(cells), ReplySpend(cells), JudgeSpend(cells), Calls(cells), JudgeCalls(cells))
  }

  /** The gate, at the means of the smoke's own cells. */
  method AskGate(g: Grid, ghost bought: seq<Cell>, smoke: seq<seq<Cell>>, candidates: nat, total: nat, ceiling: real, smokeOnly: bool)
    returns (abort: Abort)
    requires bought == Flat(smoke) && Counts(g, bought) && AllNonNegative(bought) && IsGrid(smoke, candidates)
    ensures abort == if smokeOnly then SmokeOnly
      else if TooDear(smoke, candidates, total, ceiling) then GateRefused else NoAbort
  {
    RecordedAreNonNegative(smoke, candidates);
    MeansAreNonNegative(Recorded(smoke, candidates));
    abort := SmokeGate(g, bought, total, ceiling, smokeOnly, Means(smoke, candidates));
  }

  /** The next scenario of the grid. */
  method RunNext(g: Grid, rows: seq<seq<Cell>>, s: nat, planned: nat, ceiling: real, ghost before: seq<Cell>)
    returns (r: Grid, ghost bought: seq<Cell>, stopped: bool)
    requires s < |rows| && before == Flat(rows[..s]) && Counts(g, before) && Guarded(before, planned, ceiling)
    requires ceiling >= 0.0 && AllNonNegative(Flat(rows)) && 2 * |Flat(rows)| <= planned
    ensures Counts(r, bought) && Guarded(bought, planned, ceiling) && bought <= Flat(rows)
    ensures !stopped ==> bought == Flat(rows[..s + 1])
    ensures stopped ==> !WithinCeiling(r.spend, r.calls, planned, ceiling)
  {
    NextRow(rows, s);
    r, bought, stopped := RunScenario(g, rows[s], planned, ceiling, before);
  }

  /** The scenarios in turn, from one to another. */
  method RunRows(g: Grid, rows: seq<seq<Cell>>, from: nat, to: nat, planned: nat, ceiling: real, ghost before: seq<Cell>)
    returns (r: Grid, stopped: bool, ghost bought: seq<Cell>)
    requires from <= to <= |rows| && before == Flat(rows[..from]) && Counts(g, before) && Guarded(before, planned, ceiling)
    requires ceiling >= 0.0 && AllNonNegative(Flat(rows)) && 2 * |Flat(rows)| <= planned
    ensures bought <= Flat(rows) && Counts(r, bought) && Guarded(bought, planned, ceiling)
    ensures !stopped ==> bought == Flat(rows[..to])
    ensures stopped ==> !WithinCeiling(r.spend, r.calls, planned, ceiling)
  {
    r, stopped, bought := g, false, before;
    FlatPrefix(rows, from);
    for s := from to to
      invariant Counts(r, bought) && Guarded(bought, planned, ceiling) && bought <= Flat(rows)
      invariant !stopped && bought == Flat(rows[..s])
    {
      r, bought, stopped := RunNext(r, rows, s, planned, ceiling, bought);
      if stopped { return; }
    }
  }

  /** All scenarios, with the smoke gate after the second. */
  method RunGated(rows: seq<seq<Cell>>, candidates: nat, planned: nat, ceiling: real, smokeOnly: bool)
    returns (r: Grid, abort: Abort, ghost bought: seq<Cell>)
    requires IsGrid(rows, candidates)
    requires ceiling >= 0.0 && AllNonNegative(Flat(rows)) && 2 * |Flat(rows)| <= planned
    ensures bought <= Flat(rows) && Counts(r, bought) && Guarded(bought, planned, ceiling)
    ensures abort == NoAbort ==> bought == Flat(rows)
    ensures abort == Projected ==> !WithinCeiling(r.spend, r.calls, planned, ceiling)
    ensures abort in {SmokeOnly, GateRefused} ==> |rows| >= SMOKE_SCENARIOS && bought == Flat(rows[..SMOKE_SCENARIOS])
    ensures abort == GateRefused ==> TooDear(rows[..SMOKE_SCENARIOS], candidates, |rows|, ceiling)
    ensures abort == NoAbort && |rows| >= SMOKE_SCENARIOS ==>
      !smokeOnly && !TooDear(rows[..SMOKE_SCENARIOS], candidates, |rows|, ceiling)
  {
    var stopped;
    var smoke := if |rows| < SMOKE_SCENARIOS then |rows| else SMOKE_SCENARIOS;
    assert rows[..|rows|] == rows;
    r, stopped, bought := RunRows(Grid(0.0, 0.0, 0.0, 0, 0), rows, 0, smoke, planned, ceiling, []);
    if stopped { return r, Projected, bought; }
    if smoke == SMOKE_SCENARIOS {
      SmokeIsNonNegative(rows, smoke);
      abort := AskGate(r, bought, rows[..smoke], candidates, |rows|, ceiling, smokeOnly);
      if abort != NoAbort { return; }
    }
    r, stopped, bought := RunRows(r, rows, smoke, |rows|, planned, ceiling, bought);
    abort := if stopped then Projected else NoAbort;
  }

  lemma {:induction false} SmokeIsNonNegative(rows: seq<seq<Cell>>, s: nat)
    requires s <= |rows| && AllNonNegative(Flat(rows))
    ensures AllNonNegative(Flat(rows[..s]))
  {
    FlatPrefix(rows, s);
    PartsAreNonNegative(Flat(rows[..s]), [], Flat(rows));
  }

  /**
   The live grid, scenario by scenario. What was bought is a prefix of the grid, and the
   counters are its own; no cell was bought once the spend or its projection was over
   the ceiling, so the spend is over by at most the last cell.
   */
  method RunGrid(rows: seq<seq<Cell>>, candidates: nat, ceiling: real, smokeOnly: bool)
    returns (r: Grid, abort: Abort, ghost bought: seq<Cell>)
    requires ceiling >= 0.0 && IsGrid(rows, candidates)
    ensures bought <= Flat(rows) && Counts(r, bought) && r.calls <= |rows| * candidates * 2
    ensures Guarded(bought, |rows| * candidates * 2, ceiling)
    ensures r.spend <= ceiling + if bought == [] then 0.0 else CellCost(bought[|bought| - 1])
    ensures abort == NoAbort ==> bought == Flat(rows)
    ensures abort == Projected ==> !WithinCeiling(r.spend, r.calls, |rows| * candidates * 2, ceiling)
    ensures abort in {SmokeOnly, GateRefused} ==> |rows| >= SMOKE_SCENARIOS && bought == Flat(rows[..SMOKE_SCENARIOS])
    ensures abort == GateRefused ==> TooDear(rows[..SMOKE_SCENARIOS], candidates, |rows|, ceiling)
    ensures abort == NoAbort && |rows| >= SMOKE_SCENARIOS ==>
      !smokeOnly && !TooDear(rows[..SMOKE_SCENARIOS], candidates, |rows|, ceiling)
  {
    var planned := |rows| * candidates * 2;
    FlatFacts(rows, candidates);
    r, abort, bought := RunGated(rows, candidates, planned, ceiling, smokeOnly);
    LastCellBounds(bought, Flat(rows), planned, ceiling);
  }

  // ---------------------------------------------------------------- what the gate is worth

  lemma {:induction false} SpendOfConcat(a: seq<Cell>, b: seq<Cell>)
    ensures Spend(a + b) == Spend(a) + Spend(b)
  {
    if b == [] {
      assert a + b == a;
    } else {
      SpendOfConcat(a, b[..|b| - 1]);
      assert (a + b)[..|a + b| - 1] == a + b[..|b| - 1];
    }
  }

  lemma {:induction false} FlatOfConcat(a: seq<seq<Cell>>, b: seq<seq<Cell>>)
    ensures Flat(a + b) == Flat(a) + Flat(b)
  {
    if b == [] {
      assert a + b == a;
    } else {
      FlatOfConcat(a, b[..|b| - 1]);
      assert (a + b)[..|a + b| - 1] == a + b[..|b| - 1];
      assert Flat(a) + (Flat(b[..|b| - 1]) + b[|b| - 1]) == Flat(a) + Flat(b[..|b| - 1]) + b[|b| - 1];
    }
  }

  /** Without scenarios after the smoke, the projection is what the smoke has spent. */
  lemma NothingIsLeft(g: Grid, perAnswer: seq<real>, total: nat)
    requires total <= 2
    ensures GateProjection(g, perAnswer, total) == g.spend
  {
    assert Remaining(total, SMOKE_SCENARIOS) == 0;
    assert JudgeMean(g) * 0.0 == 0.0;
  }

  /** What the smoke has spent counts on both sides: the scenarios after it decide. */
  lemma {:induction false} RestDecides(smoke: seq<seq<Cell>>, rest: seq<seq<Cell>>, candidates: nat)
    requires |smoke| == SMOKE_SCENARIOS && forall s :: 0 <= s < |smoke| ==> candidates <= |smoke[s]|
    ensures var means := Means(smoke, candidates);
      Spend(Flat(smoke + rest)) <= GateProjection(Smoked(smoke), means, |smoke + rest|)
      <==> Spend(Flat(rest)) <= Expected(means, JudgeMean(Smoked(smoke)), |rest|)
  {
    FlatOfConcat(smoke, rest);
    SpendOfConcat(Flat(smoke), Flat(rest));
  }

  /** Each candidate's answers have one price and each judgement another, as far as a cell was answered. */
  predicate Settled(row: seq<Cell>, prices: seq<real>, judge: real) {
    |row| == |prices| && forall c :: 0 <= c < |row| ==> row[c].reply.Failed? || row[c] == Priced(prices[c], judge)
  }

  predicate AllSettled(rows: seq<seq<Cell>>, prices: seq<real>, judge: real) {
    forall s :: 0 <= s < |rows| ==> Settled(rows[s], prices, judge)
  }

  /** Every candidate answers every scenario, at those prices. */
  predicate InFull(rows: seq<seq<Cell>>, prices: seq<real>, judge: real) {
    forall s :: 0 <= s < |rows| ==> rows[s] == PricedRow(prices, judge)
  }

  function PricedRow(prices: seq<real>, judge: real): (row: seq<Cell>)
    ensures |row| == |prices|
  {
    seq(|prices|, c requires 0 <= c < |prices| => Priced(prices[c], judge))
  }

  /** Enough columns for n candidates. */
  predicate Wide(smoke: seq<seq<Cell>>, n: nat) { forall s :: 0 <= s < |smoke| ==> n <= |smoke[s]| }

  /** n times x, as a sum. */
  function Times(n: nat, x: real): real { if n == 0 then 0.0 else Times(n - 1, x) + x }

  lemma {:induction false} TimesIsProduct(n: nat, x: real)
    ensures Times(n, x) == n as real * x
  {
    if n > 0 { TimesIsProduct(n - 1, x); }
  }

  lemma {:induction false} TimesOfSum(a: nat, b: nat, x: real)
    ensures Times(a + b, x) == Times(a, x) + Times(b, x)
  {
    if b > 0 { TimesOfSum(a, b - 1, x); }
  }

  lemma {:induction false} TimesExactly(n: nat, x: real, y: real)
    ensures n > 0 ==> (Times(n, x) <= Times(n, y) <==> x <= y)
  {
    if n > 1 { TimesExactly(n - 1, x, y); }
  }

  /** What one scenario costs with the first n candidates. */
  function PriceOfAll(prices: seq<real>, judge: real, n: nat): real
    requires n <= |prices|
  {
    if n == 0 then 0.0 else PriceOfAll(prices, judge, n - 1) + (prices[n - 1] + judge)
  }

  /** And with those of them that have a recorded cost. */
  function PriceOfRecorded(smoke: seq<seq<Cell>>, prices: seq<real>, judge: real, n: nat): real
    requires n <= |prices| && Wide(smoke, n)
  {
    if n == 0 then 0.0
    else PriceOfRecorded(smoke, prices, judge, n - 1) + if CostsOf(smoke, n - 1) == [] then 0.0 else prices[n - 1] + judge
  }

  /** Every one of the first n candidates that costs anything has a recorded cost. */
  predicate PayingAreRecorded(smoke: seq<seq<Cell>>, prices: seq<real>, judge: real, n: nat)
    requires n <= |prices| && Wide(smoke, n)
  {
    forall c :: 0 <= c < n && prices[c] + judge > 0.0 ==> CostsOf(smoke, c) != []
  }

  lemma PayingOneMore(smoke: seq<seq<Cell>>, prices: seq<real>, judge: real, n: nat)
    requires n < |prices| && Wide(smoke, n + 1)
    ensures PayingAreRecorded(smoke, prices, judge, n + 1) <==>
      PayingAreRecorded(smoke, prices, judge, n) && (prices[n] + judge > 0.0 ==> CostsOf(smoke, n) != [])
  {
  }

  lemma {:induction false} RecordedCoverExactly(smoke: seq<seq<Cell>>, prices: seq<real>, judge: real, n: nat)
    requires n <= |prices| && Wide(smoke, n) && NoneNegative(prices) && judge >= 0.0
    ensures PriceOfRecorded(smoke, prices, judge, n) <= PriceOfAll(prices, judge, n)
    ensures PriceOfAll(prices, judge, n) <= PriceOfRecorded(smoke, prices, judge, n) <==> PayingAreRecorded(smoke, prices, judge, n)
  {
    if n > 0 {
      RecordedCoverExactly(smoke, prices, judge, n - 1);
      var price := prices[n - 1] + judge;
      assert price >= 0.0 by { assert prices[n - 1] >= 0.0; }
      PayingOneMore(smoke, prices, judge, n - 1);
      assert PriceOfAll(prices, judge, n) == PriceOfAll(prices, judge, n - 1) + price;
      if CostsOf(smoke, n - 1) == [] {
        assert PriceOfRecorded(smoke, prices, judge, n) == PriceOfRecorded(smoke, prices, judge, n - 1);
      } else {
        assert PriceOfRecorded(smoke, prices, judge, n) == PriceOfRecorded(smoke, prices, judge, n - 1) + price;
      }
    }
  }

  // What the means come to.

  predicate AllEqual(values: seq<real>, each: real) { forall i :: 0 <= i < |values| ==> values[i] == each }

  lemma {:induction false} SettledCosts(smoke: seq<seq<Cell>>, prices: seq<real>, judge: real, c: nat)
    requires AllSettled(smoke, prices, judge) && c < |prices|
    ensures AllEqual(CostsOf(smoke, c), prices[c])
  {
    if smoke != [] {
      SettledCosts(smoke[..|smoke| - 1], prices, judge, c);
      assert Settled(smoke[|smoke| - 1], prices, judge);
    }
  }

  lemma {:induction false} SumOfEqual(values: seq<real>, each: real)
    requires AllEqual(values, each)
    ensures Sum(values) == Times(|values|, each)
  {
    if values != [] {
      SumOfEqual(values[..|values| - 1], each);
    }
  }

  lemma MeanOfEqualValues(values: seq<real>, each: real)
    requires values != [] && AllEqual(values, each)
    ensures Mean(values) == each
  {
    SumOfEqual(values, each);
    TimesIsProduct(|values|, each);
    MeanOfEqual(|values|, each);
  }

  /** The prices of the first n candidates that have a recorded cost. */
  function RecordedPrices(smoke: seq<seq<Cell>>, prices: seq<real>, n: nat): seq<real>
    requires n <= |prices| && Wide(smoke, n)
  {
    if n == 0 then []
    else RecordedPrices(smoke, prices, n - 1) + if CostsOf(smoke, n - 1) == [] then [] else [prices[n - 1]]
  }

  predicate CostAlways(costs: seq<seq<real>>, prices: seq<real>) {
    |costs| == |prices| && forall c :: 0 <= c < |costs| ==> costs[c] != [] && AllEqual(costs[c], prices[c])
  }

  lemma {:induction false} RecordedCostAlways(smoke: seq<seq<Cell>>, prices: seq<real>, judge: real, n: nat)
    requires n <= |prices| && AllSettled(smoke, prices, judge)
    ensures CostAlways(Recorded(smoke, n), RecordedPrices(smoke, prices, n))
  {
    if n > 0 {
      RecordedCostAlways(smoke, prices, judge, n - 1);
      SettledCosts(smoke, prices, judge, n - 1);
    }
  }

  lemma {:induction false} MeansArePrices(costs: seq<seq<real>>, prices: seq<real>)
    requires CostAlways(costs, prices)
    ensures MeanEach(costs) == prices
  {
    if costs != [] {
      var n := |costs| - 1;
      MeansArePrices(costs[..n], prices[..n]);
      MeanOfEqualValues(costs[n], prices[n]);
    }
  }

  /** The recorded candidates' prices, and a judgement for each. */
  lemma {:induction false} RecordedPricesSum(smoke: seq<seq<Cell>>, prices: seq<real>, judge: real, n: nat)
    requires n <= |prices| && Wide(smoke, n)
    ensures var kept := RecordedPrices(smoke, prices, n);
      Sum(kept) + Times(|kept|, judge) == PriceOfRecorded(smoke, prices, judge, n)
  {
    if n > 0 {
      RecordedPricesSum(smoke, prices, judge, n - 1);
      var before := RecordedPrices(smoke, prices, n - 1);
      var after := before + [prices[n - 1]];
      assert after[..|after| - 1] == before;
      assert RecordedPrices(smoke, prices, n) == if CostsOf(smoke, n - 1) == [] then before else after;
    }
  }

  // What the judge's mean is.

  lemma {:induction false} SettledRowJudged(row: seq<Cell>, prices: seq<real>, judge: real)
    requires Settled(row, prices, judge)
    ensures JudgeSpend(row) == Times(JudgeCalls(row), judge)
    ensures JudgeCalls(row) == 0 ==> forall c :: 0 <= c < |row| ==> row[c].reply.Failed?
  {
    if row != [] {
      var n := |row| - 1;
      SettledRowJudged(row[..n], prices[..n], judge);
    }
  }

  lemma {:induction false} JudgedOfConcat(a: seq<Cell>, b: seq<Cell>)
    ensures JudgeSpend(a + b) == JudgeSpend(a) + JudgeSpend(b) && JudgeCalls(a + b) == JudgeCalls(a) + JudgeCalls(b)
  {
    if b == [] {
      assert a + b == a;
    } else {
      JudgedOfConcat(a, b[..|b| - 1]);
      assert (a + b)[..|a + b| - 1] == a + b[..|b| - 1];
    }
  }

  predicate NoneRecorded(smoke: seq<seq<Cell>>, n: nat)
    requires Wide(smoke, n)
  {
    forall c :: 0 <= c < n ==> CostsOf(smoke, c) == []
  }

  /** A smoke that was never judged recorded nothing. */
  lemma {:induction false} SettledJudged(smoke: seq<seq<Cell>>, prices: seq<real>, judge: real)
    requires AllSettled(smoke, prices, judge)
    ensures JudgeSpend(Flat(smoke)) == Times(JudgeCalls(Flat(smoke)), judge)
    ensures JudgeCalls(Flat(smoke)) == 0 ==> NoneRecorded(smoke, |prices|)
  {
    if smoke != [] {
      var before, last := smoke[..|smoke| - 1], smoke[|smoke| - 1];
      SettledJudged(before, prices, judge);
      SettledRowJudged(last, prices, judge);
      JudgedOfConcat(Flat(before), last);
      TimesOfSum(JudgeCalls(Flat(before)), JudgeCalls(last), judge);
    }
  }

  lemma {:induction false} NothingRecorded(smoke: seq<seq<Cell>>, prices: seq<real>, n: nat)
    requires n <= |prices| && Wide(smoke, n) && NoneRecorded(smoke, n)
    ensures RecordedPrices(smoke, prices, n) == []
  {
    if n > 0 { NothingRecorded(smoke, prices, n - 1); }
  }

  lemma {:induction false} MeanOfTimes(n: nat, each: real)
    requires n > 0
    ensures Times(n, each) / n as real == each
  {
    TimesIsProduct(n, each);
    MeanOfEqual(n, each);
  }

  /** The judge's mean is the judgement's price, unless there are no means to use it with. */
  lemma {:induction false} SettledJudgeMean(smoke: seq<seq<Cell>>, prices: seq<real>, judge: real)
    requires AllSettled(smoke, prices, judge)
    ensures JudgeMean(Smoked(smoke)) == judge || RecordedPrices(smoke, prices, |prices|) == []
  {
    SettledJudged(smoke, prices, judge);
    var n := JudgeCalls(Flat(smoke));
    if n == 0 {
      NothingRecorded(smoke, prices, |prices|);
    } else {
      MeanOfTimes(n, judge);
    }
  }

  lemma {:induction false} ExpectedAt(means: seq<real>, mean: real, judge: real, scenarios: nat)
    requires mean == judge || means == []
    ensures Expected(means, mean, scenarios) == Times(scenarios, Sum(means) + Times(|means|, judge))
  {
    var r, m := scenarios as real, |means| as real;
    TimesIsProduct(|means|, judge);
    TimesIsProduct(scenarios, Sum(means) + Times(|means|, judge));
    if means != [] {
      assert judge * r * m == r * (m * judge);
      assert r * Sum(means) + r * (m * judge) == r * (Sum(means) + m * judge);
    }
  }

  // What the rest of the grid costs.

  lemma {:induction false} SpendOfPricedRow(prices: seq<real>, judge: real, n: nat)
    requires n <= |prices|
    ensures Spend(PricedRow(prices, judge)[..n]) == PriceOfAll(prices, judge, n)
  {
    if n > 0 {
      SpendOfPricedRow(prices, judge, n - 1);
      var row := PricedRow(prices, judge);
      assert row[..n][..n - 1] == row[..n - 1] && row[..n][n - 1] == Priced(prices[n - 1], judge);
    }
  }

  lemma {:induction false} SpendInFull(rest: seq<seq<Cell>>, prices: seq<real>, judge: real)
    requires InFull(rest, prices, judge)
    ensures Spend(Flat(rest)) == Times(|rest|, PriceOfAll(prices, judge, |prices|))
  {
    if rest != [] {
      var before, row := rest[..|rest| - 1], rest[|rest| - 1];
      SpendInFull(before, prices, judge);
      SpendOfConcat(Flat(before), row);
      SpendOfPricedRow(prices, judge, |prices|);
      assert row[..|prices|] == row == PricedRow(prices, judge);
    }
  }

  lemma {:induction false} MeansAreRecordedPrices(smoke: seq<seq<Cell>>, prices: seq<real>, judge: real)
    requires AllSettled(smoke, prices, judge)
    ensures Means(smoke, |prices|) == RecordedPrices(smoke, prices, |prices|)
  {
    RecordedCostAlways(smoke, prices, judge, |prices|);
    MeansArePrices(Recorded(smoke, |prices|), RecordedPrices(smoke, prices, |prices|));
  }

  /** What the gate expects of the rest, at those prices. */
  lemma {:induction false} SettledExpected(smoke: seq<seq<Cell>>, prices: seq<real>, judge: real, scenarios: nat)
    requires AllSettled(smoke, prices, judge)
    ensures Expected(Means(smoke, |prices|), JudgeMean(Smoked(smoke)), scenarios)
         == Times(scenarios, PriceOfRecorded(smoke, prices, judge, |prices|))
  {
    var n := |prices|;
    MeansAreRecordedPrices(smoke, prices, judge);
    SettledJudgeMean(smoke, prices, judge);
    RecordedPricesSum(smoke, prices, judge, n);
    ExpectedAt(RecordedPrices(smoke, prices, n), JudgeMean(Smoked(smoke)), judge, scenarios);
  }

  /**
   The gate calls its projection conservative. Where every candidate's answers have one
   price and every judgement has another, it bounds the grid, if the rest of that is
   answered in full, exactly when each candidate that costs anything has a recorded cost:
   one without has no mean, and its remaining answers and judgements are not projected.
   */
  lemma {:induction false} GateBoundsGridExactly(smoke: seq<seq<Cell>>, rest: seq<seq<Cell>>, prices: seq<real>, judge: real)
    requires |smoke| == SMOKE_SCENARIOS && rest != [] && NoneNegative(prices) && judge >= 0.0
    requires AllSettled(smoke, prices, judge) && InFull(rest, prices, judge)
    ensures Spend(Flat(smoke + rest)) <= GateProjection(Smoked(smoke), Means(smoke, |prices|), |smoke + rest|)
      <==> PayingAreRecorded(smoke, prices, judge, |prices|)
  {
    RestDecides(smoke, rest, |prices|);
    SpendInFull(rest, prices, judge);
    SettledExpected(smoke, prices, judge, |rest|);
    TimesExactly(|rest|, PriceOfAll(prices, judge, |prices|), PriceOfRecorded(smoke, prices, judge, |prices|));
    RecordedCoverExactly(smoke, prices, judge, |prices|);
  }

  /** A cell whose answer costs `answer` and whose judgement costs `judge`. */
  function Priced(answer: real, judge: real): Cell { Cell(Answered(Some(answer)), Answered(Some(judge))) }

  lemma {:induction false} FlatOfTwo(rows: seq<seq<Cell>>)
    requires |rows| == 2
    ensures Flat(rows) == rows[0] + rows[1]
  {
    var one := rows[..|rows| - 1];
    assert one[..|one| - 1] == [] && one[0] == rows[0];
    assert Flat(one) == rows[0];
  }

  lemma {:induction false} InFullIsRecorded(smoke: seq<seq<Cell>>, prices: seq<real>, judge: real, n: nat)
    requires smoke != [] && InFull(smoke, prices, judge) && n <= |prices|
    ensures AllSettled(smoke, prices, judge)
    ensures PriceOfRecorded(smoke, prices, judge, n) == PriceOfAll(prices, judge, n)
  {
    if n > 0 {
      InFullIsRecorded(smoke, prices, judge, n - 1);
      assert smoke[|smoke| - 1][n - 1] == Priced(prices[n - 1], judge);
      assert CostsOf(smoke, n - 1) != [];
    }
  }

  /** After a smoke in which everything was answered, at one price for each candidate and one for judgements, the gate projects that for the whole grid. */
  lemma {:induction false} ProjectionIsExactForEqualCosts(smoke: seq<seq<Cell>>, prices: seq<real>, judge: real, total: nat)
    requires |smoke| == SMOKE_SCENARIOS <= total && InFull(smoke, prices, judge)
    ensures GateProjection(Smoked(smoke), Means(smoke, |prices|), total) == Times(total, PriceOfAll(prices, judge, |prices|))
  {
    var left, price := Remaining(total, SMOKE_SCENARIOS), PriceOfAll(prices, judge, |prices|);
    InFullIsRecorded(smoke, prices, judge, |prices|);
    SpendInFull(smoke, prices, judge);
    SettledExpected(smoke, prices, judge, left);
    SmokeAndRest(Smoked(smoke).spend, Expected(Means(smoke, |prices|), JudgeMean(Smoked(smoke)), left), left, total, price);
  }

  lemma {:induction false} SmokeAndRest(spend: real, expected: real, left: nat, total: nat, price: real)
    requires spend == Times(SMOKE_SCENARIOS, price) && expected == Times(left, price) && total == SMOKE_SCENARIOS + left
    ensures spend + expected == Times(total, price)
  {
    TimesOfSum(SMOKE_SCENARIOS, left, price);
  }

  lemma MeanOfEqual(n: nat, each: real)
    requires n > 0
    ensures n as real * each / n as real == each
  {
  }

  /** One candidate that answers neither of the smoke's scenarios. */
  function Unanswered(): seq<seq<Cell>> {
    var silent := Cell(Failed, Failed);
    [[silent], [silent]]
  }

  lemma UnansweredCostsNothing()
    ensures Spend(Flat(Unanswered())) == 0.0 && CostsOf(Unanswered(), 0) == [] && Means(Unanswered(), 1) == []
  {
    var smoke := Unanswered();
    FlatOfTwo(smoke);
    var silent := smoke[0];
    assert silent[..|silent| - 1] == [];
    assert Spend(silent) == 0.0;
    SpendOfConcat(silent, silent);
    var one := smoke[..|smoke| - 1];
    assert one[..|one| - 1] == [];
    assert CostsOf(one, 0) == [];
    assert CostsOf(smoke, 0) == [];
    assert Recorded(smoke, 0) == [] && Recorded(smoke, 1) == [];
  }

  lemma {:induction false} SpendOfOne(rows: seq<seq<Cell>>, cell: Cell)
    requires rows == [[cell]]
    ensures Spend(Flat(rows)) == CellCost(cell)
  {
    var row := [cell];
    assert rows[..|rows| - 1] == [] && row[..|row| - 1] == [];
    assert Flat(rows) == [] + row == row;
  }

  /** A candidate that answers nothing in the smoke is free to the gate: it opens, and the grid costs more than it projected and than the ceiling. */
  lemma UnansweredIsFree(ceiling: real) returns (rest: seq<seq<Cell>>)
    requires ceiling >= 0.0
    ensures IsGrid(Unanswered() + rest, 1)
    ensures AllSettled(Unanswered(), [ceiling + 1.0], 0.0) && InFull(rest, [ceiling + 1.0], 0.0)
    ensures !PayingAreRecorded(Unanswered(), [ceiling + 1.0], 0.0, 1)
    ensures GateProjection(Smoked(Unanswered()), Means(Unanswered(), 1), |Unanswered() + rest|) <= ceiling
    ensures ceiling < Spend(Flat(Unanswered() + rest))
  {
    var dear := Priced(ceiling + 1.0, 0.0);
    rest := [[dear]];
    UnansweredCostsNothing();
    assert PricedRow([ceiling + 1.0], 0.0) == [dear];
    assert Sum([]) == 0.0;
    FlatOfConcat(Unanswered(), rest);
    SpendOfConcat(Flat(Unanswered()), Flat(rest));
    SpendOfOne(rest, dear);
  }
}
