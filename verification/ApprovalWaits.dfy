/**
 Approval waits: the correlator's guarded row updates
 (packages/workflow/src/correlator.ts) and pauseForApproval
 (packages/workflow/src/definition.ts) under crash and replay.
 */
module ApprovalWaits {
  import opened Prelude
  import opened WorkflowNames

  type RunId = string

  datatype RunStatus = Running | WaitingForSignal | WaitingForApproval | Completed | Cancelled | FailedRun

  datatype RunRow = RunRow(status: RunStatus, ended: bool)

  /** A human_waits row, joined to its run. */
  datatype Wait = Wait(run: RunId, reason: string, isOpen: bool)

  datatype Db = Db(runs: map<RunId, RunRow>, waits: seq<Wait>)

  // ---------------------------------------------------------------- the statements

  /** SQL LIKE: `%` any text, `_` any character, a backslash the next character itself. A pattern may not end in a lone backslash. */
  predicate Like(s: string, pattern: string)
    decreases |s| + |pattern|
  {
    if pattern == "" then s == ""
    else if pattern[0] == '%' then Like(s, pattern[1..]) || (s != "" && Like(s[1..], pattern))
    else if pattern[0] == '_' then s != "" && Like(s[1..], pattern[1..])
    else if pattern[0] == '\\' then
      |pattern| > 1 && s != "" && s[0] == pattern[1] && Like(s[1..], pattern[2..])
    else s != "" && s[0] == pattern[0] && Like(s[1..], pattern[1..])
  }

  function ReasonOf(id: string, reason: Option<string>): string {
    "approval:" + id + (if reason.Some? && reason.value != "" then " " + reason.value else "")
  }

  function Started(db: Db, run: RunId): Db {
    if run in db.runs then db else db.(runs := db.runs[run := RunRow(Running, false)])
  }

  function StatusSet(db: Db, run: RunId, status: RunStatus): Db {
    if run !in db.runs then db
    else
      var terminal := status == Completed || status == Cancelled || status == FailedRun;
      db.(runs := db.runs[run := RunRow(status, terminal || db.runs[run].ended)])
  }

  predicate HasOpen(waits: seq<Wait>, run: RunId, reason: string) { Wait(run, reason, true) in waits }

  function Opened(db: Db, run: RunId, id: string, reason: Option<string>): Db {
    if run !in db.runs || HasOpen(db.waits, run, ReasonOf(id, reason)) then db
    else db.(waits := db.waits + [Wait(run, ReasonOf(id, reason), true)])
  }

  /** The rows that approvalResolved closes. */
  predicate Matches(w: Wait, db: Db, run: RunId, id: string) {
    w.isOpen && w.run == run && run in db.runs && Like(w.reason, "approval:" + id + "%")
  }

  function Resolved(db: Db, run: RunId, id: string): Db {
    db.(waits := seq(|db.waits|, i requires 0 <= i < |db.waits| =>
          if Matches(db.waits[i], db, run, id) then db.waits[i].(isOpen := false) else db.waits[i]))
  }

  function AllResolved(db: Db, run: RunId): Db {
    db.(waits := seq(|db.waits|, i requires 0 <= i < |db.waits| =>
          if db.waits[i].isOpen && db.waits[i].run == run && run in db.runs
          then db.waits[i].(isOpen := false) else db.waits[i]))
  }

  class Correlator {
    var runs: map<RunId, RunRow>
    var waits: seq<Wait>

    ghost function View(): Db
      reads this
    {
      Db(runs, waits)
    }

    method RunStarted(run: RunId)
      modifies this
      ensures View() == Started(old(View()), run)
    {
      if run !in runs {
        runs := runs[run := RunRow(Running, false)];
      }
    }

    method SetRunStatus(run: RunId, status: RunStatus)
      modifies this
      ensures View() == StatusSet(old(View()), run, status)
    {
      if run in runs {
        var terminal := status == Completed || status == Cancelled || status == FailedRun;
        runs := runs[run := RunRow(status, terminal || runs[run].ended)];
      }
    }

    method ApprovalOpened(run: RunId, id: string, reason: Option<string>)
      modifies this
      ensures View() == Opened(old(View()), run, id, reason)
    {
      var text := ReasonOf(id, reason);
      if run in runs && Wait(run, text, true) !in waits {
        waits := waits + [Wait(run, text, true)];
      }
    }

    method ApprovalResolved(run: RunId, id: string)
      modifies this
      ensures View() == Resolved(old(View()), run, id)
    {
      ghost var before := View();
      for i := 0 to |waits|
        invariant runs == before.runs && |waits| == |before.waits|
        invariant forall j :: 0 <= j < i ==>
          waits[j] == if Matches(before.waits[j], before, run, id) then before.waits[j].(isOpen := false) else before.waits[j]
        invariant forall j :: i <= j < |waits| ==> waits[j] == before.waits[j]
      {
        if run in runs && waits[i].isOpen && waits[i].run == run && Like(waits[i].reason, "approval:" + id + "%") {
          waits := waits[i := waits[i].(isOpen := false)];
        }
      }
    }

    method OpenWaitsResolved(run: RunId)
      modifies this
      ensures View() == AllResolved(old(View()), run)
    {
      ghost var before := View();
      for i := 0 to |waits|
        invariant runs == before.runs && |waits| == |before.waits|
        invariant forall j :: 0 <= j < |waits| ==>
          waits[j] == if j < i && before.waits[j].isOpen && before.waits[j].run == run && run in runs
                      then before.waits[j].(isOpen := false) else before.waits[j]
      {
        if run in runs && waits[i].isOpen && waits[i].run == run {
          waits := waits[i := waits[i].(isOpen := false)];
        }
      }
    }
  }

  // ---------------------------------------------------------------- what LIKE matches

  predicate NoWildcards(s: string) { '%' !in s && '_' !in s && '\\' !in s }

  lemma {:induction false} LikeAnything(s: string)
    ensures Like(s, "%")
  {
    if s != "" {
      LikeAnything(s[1..]);
    } else {
      assert "%"[1..] == "";
    }
  }

  lemma {:induction false} LikePrefix(s: string, p: string)
    requires NoWildcards(p)
    ensures Like(s, p + "%") <==> p <= s
  {
    if p == "" {
      LikeAnything(s);
      assert p + "%" == "%";
    } else {
      assert p[0] != '%' && p[0] != '_' && p[0] != '\\' && forall c :: c in p[1..] ==> c in p;
      assert (p + "%")[1..] == p[1..] + "%" && (p + "%")[0] == p[0];
      if s != "" {
        LikePrefix(s[1..], p[1..]);
        assert p <= s <==> p[0] == s[0] && p[1..] <= s[1..];
      }
    }
  }

  /** Every character of a text, taken literally. */
  function Escaped(p: string): string { if p == "" then "" else ['\\', p[0]] + Escaped(p[1..]) }

  /** With its characters escaped, any text is a literal prefix, wildcards and all. */
  lemma {:induction false} EscapedPrefix(s: string, p: string)
    ensures Like(s, Escaped(p) + "%") <==> p <= s
  {
    var pattern := Escaped(p) + "%";
    if p == "" {
      LikeAnything(s);
      assert pattern == "%";
    } else {
      assert pattern[0] == '\\' && pattern[1] == p[0] && pattern[2..] == Escaped(p[1..]) + "%";
      if s != "" {
        EscapedPrefix(s[1..], p[1..]);
        assert p <= s <==> p[0] == s[0] && p[1..] <= s[1..];
      }
    }
  }

  lemma PrefixOfReason(id: string, other: string, reason: Option<string>)
    requires IsToken(id) && IsToken(other)
    ensures "approval:" + id <= ReasonOf(other, reason) <==> id <= other
  {
    var a, r := "approval:" + id, ReasonOf(other, reason);
    assert r[9..] == other + (if reason.Some? && reason.value != "" then " " + reason.value else "");
    assert a[9..] == id;
    assert a <= r <==> id <= r[9..] by {
      assert a == "approval:" + id && r == "approval:" + r[9..];
    }
    if |other| < |id| && |other| < |r[9..]| {
      assert r[9..][|other|] == ' ' && id[|other|] != ' ';
    }
  }

  /**
   Resolving an approval closes a wait of its run exactly when its id is a prefix of
   the wait's id: its own, and any longer id that starts with it.
   */
  lemma ResolvedClosesExactly(db: Db, run: RunId, id: string, i: nat, other: string, reason: Option<string>)
    requires IsToken(id) && IsToken(other) && run in db.runs
    requires i < |db.waits| && db.waits[i] == Wait(run, ReasonOf(other, reason), true)
    ensures Resolved(db, run, id).waits[i].isOpen <==> !(id <= other)
  {
    var p := "approval:" + id;
    assert NoWildcards(p) by {
      assert forall c :: c in p ==> c in "approval:" || c in id;
    }
    LikePrefix(db.waits[i].reason, p);
    PrefixOfReason(id, other, reason);
  }

  // ---------------------------------------------------------------- replay

  datatype Op =
    | OpStart(run: RunId)
    | OpStatus(run: RunId, status: RunStatus)
    | OpOpen(run: RunId, id: string, reason: Option<string>)
    | OpResolve(run: RunId, id: string)
    | OpResolveAll(run: RunId)

  function Apply(db: Db, op: Op): Db {
    match op
    case OpStart(run) => Started(db, run)
    case OpStatus(run, status) => StatusSet(db, run, status)
    case OpOpen(run, id, reason) => Opened(db, run, id, reason)
    case OpResolve(run, id) => Resolved(db, run, id)
    case OpResolveAll(run) => AllResolved(db, run)
  }

  /** Open rows are told apart by run and reason. */
  predicate OneOpenEach(waits: seq<Wait>) {
    forall i, j :: 0 <= i < j < |waits| && waits[i].isOpen && waits[j].isOpen ==>
      waits[i].run != waits[j].run || waits[i].reason != waits[j].reason
  }

  function Replayed(db: Db, ops: seq<Op>): Db {
    if ops == [] then db else Apply(Replayed(db, ops[..|ops| - 1]), ops[|ops| - 1])
  }

  /** However often and in whatever order bodies rerun, no run has two open rows for one reason. */
  lemma {:induction false} NeverTwoOpen(db: Db, ops: seq<Op>)
    requires OneOpenEach(db.waits)
    ensures OneOpenEach(Replayed(db, ops).waits)
  {
    if ops != [] {
      NeverTwoOpen(db, ops[..|ops| - 1]);
    }
  }

  /** The statuses written to a run's row since it was started. */
  function StatusesOf(ops: seq<Op>, run: RunId): Option<seq<RunStatus>> {
    if ops == [] then None
    else
      var before, op := StatusesOf(ops[..|ops| - 1], run), ops[|ops| - 1];
      if before.None? then (if op == OpStart(run) then Some([]) else None)
      else if op.OpStatus? && op.run == run then Some(before.value + [op.status])
      else before
  }

  /** A run's row over any writes: it is there once started, its status is the last one written, and it has ended once any written one was final. */
  lemma {:induction false} RunRowExactly(ops: seq<Op>, run: RunId)
    ensures var db, written := Replayed(Db(map[], []), ops), StatusesOf(ops, run);
      && (run in db.runs <==> written.Some?)
      && (run in db.runs ==>
            && db.runs[run].status == (if written.value == [] then Running else written.value[|written.value| - 1])
            && (db.runs[run].ended <==>
                Completed in written.value || Cancelled in written.value || FailedRun in written.value))
  {
    if ops != [] {
      RunRowExactly(ops[..|ops| - 1], run);
    }
  }

  /** Resolving all waits of a run leaves none of it open, and every other row alone. */
  lemma AllResolvedExactly(db: Db, run: RunId, i: nat)
    requires i < |db.waits| && forall w :: w in db.waits ==> w.run in db.runs
    ensures |AllResolved(db, run).waits| == |db.waits| && AllResolved(db, run).runs == db.runs
    ensures db.waits[i].run == run ==> AllResolved(db, run).waits[i] == Wait(run, db.waits[i].reason, false)
    ensures db.waits[i].run != run ==> AllResolved(db, run).waits[i] == db.waits[i]
  {
  }

  /** Where one pauseForApproval call is; `ran` means run at least once, `stored` means memoized. */
  datatype Pause = Pause(
    run: RunId, id: string, reason: Option<string>,
    openRan: bool, openStored: bool, woken: bool, closeRan: bool, closeStored: bool)

  datatype Step =
    | OpenBody | OpenStored | Woken  // the decision, or the timeout
    | CloseBody | CloseStored
    | Elsewhere(op: Op)

  /** Work on other waits: another run, or ids that neither equal this one nor are a prefix of it. */
  predicate Unrelated(op: Op, p: Pause) {
    match op
    case OpStart(_) => true
    case OpStatus(_, _) => true
    case OpOpen(run, id, _) => run != p.run || (IsToken(id) && id != p.id)
    case OpResolve(run, id) => run != p.run || (IsToken(id) && !(id <= p.id))
    case OpResolveAll(run) => run != p.run
  }

  /** A body may run until its result is stored, so again after a crash; a stored step never runs again. */
  predicate Possible(p: Pause, s: Step) {
    match s
    case OpenBody => !p.openStored
    case OpenStored => p.openRan
    case Woken => p.openStored
    case CloseBody => p.woken && !p.closeStored
    case CloseStored => p.closeRan
    case Elsewhere(op) => Unrelated(op, p)
  }

  datatype System = System(db: Db, pause: Pause)

  function Do(x: System, s: Step): System {
    var p := x.pause;
    match s
    case OpenBody => System(Opened(x.db, p.run, p.id, p.reason), p.(openRan := true))
    case OpenStored => x.(pause := p.(openStored := true))
    case Woken => x.(pause := p.(woken := true))
    case CloseBody => System(Resolved(x.db, p.run, p.id), p.(closeRan := true))
    case CloseStored => x.(pause := p.(closeStored := true))
    case Elsewhere(op) => x.(db := Apply(x.db, op))
  }

  function Schedule(x: System, steps: seq<Step>): System {
    if steps == [] then x
    else
      var before := Schedule(x, steps[..|steps| - 1]);
      if Possible(before.pause, steps[|steps| - 1]) then Do(before, steps[|steps| - 1]) else before
  }

  /** An open row of this approval id, under any reason. */
  predicate IsOpenForId(w: Wait, run: RunId, id: string) {
    w.isOpen && w.run == run && (w.reason == "approval:" + id || "approval:" + id + " " <= w.reason)
  }

  predicate AnyOpenForId(waits: seq<Wait>, run: RunId, id: string) {
    exists i :: 0 <= i < |waits| && IsOpenForId(waits[i], run, id)
  }

  predicate PauseInv(x: System) {
    var p := x.pause;
    && IsToken(p.id) && p.run in x.db.runs && OneOpenEach(x.db.waits)
    && (p.openStored ==> p.openRan) && (p.woken ==> p.openStored) && (p.closeRan ==> p.woken)
    && (p.closeStored ==> p.closeRan)
    && (p.openRan && !p.closeRan ==> HasOpen(x.db.waits, p.run, ReasonOf(p.id, p.reason)))
    && (!p.openRan || p.closeRan ==> !AnyOpenForId(x.db.waits, p.run, p.id))
  }

  /** Text that starts with an id and goes on, or ends, after it. */
  lemma OpenForIdIsPrefix(w: Wait, run: RunId, id: string)
    requires IsOpenForId(w, run, id)
    ensures "approval:" + id <= w.reason
  {
  }

  lemma OtherIdIsNotOpenForId(other: string, reason: Option<string>, run: RunId, id: string)
    requires IsToken(id) && IsToken(other) && other != id
    ensures !IsOpenForId(Wait(run, ReasonOf(other, reason), true), run, id)
  {
    var w := Wait(run, ReasonOf(other, reason), true);
    PrefixOfReason(id, other, reason);
    if |id| < |other| {
      assert w.reason[9 + |id|] == other[|id|];
      assert ("approval:" + id + " ")[9 + |id|] == ' ';
    }
  }

  lemma OpenBodyOpens(x: System)
    requires PauseInv(x) && Possible(x.pause, OpenBody)
    ensures PauseInv(Do(x, OpenBody))
  {
    var p := x.pause;
    var w := Wait(p.run, ReasonOf(p.id, p.reason), true);
    if !HasOpen(x.db.waits, p.run, w.reason) {
      assert (x.db.waits + [w])[|x.db.waits|] == w;
    }
  }

  lemma CloseBodyCloses(x: System)
    requires PauseInv(x) && Possible(x.pause, CloseBody)
    ensures PauseInv(Do(x, CloseBody))
  {
    var p := x.pause;
    var after := Resolved(x.db, p.run, p.id).waits;
    var q := "approval:" + p.id;
    assert NoWildcards(q) by {
      assert forall c :: c in q ==> c in "approval:" || c in p.id;
    }
    forall i | 0 <= i < |after|
      ensures !IsOpenForId(after[i], p.run, p.id)
    {
      if IsOpenForId(x.db.waits[i], p.run, p.id) {
        OpenForIdIsPrefix(x.db.waits[i], p.run, p.id);
      }
      LikePrefix(x.db.waits[i].reason, q);
    }
  }

  lemma ElsewhereKeepsRow(x: System, op: Op)
    requires PauseInv(x) && Unrelated(op, x.pause)
    requires HasOpen(x.db.waits, x.pause.run, ReasonOf(x.pause.id, x.pause.reason))
    ensures HasOpen(Apply(x.db, op).waits, x.pause.run, ReasonOf(x.pause.id, x.pause.reason))
  {
    var p := x.pause;
    var w := Wait(p.run, ReasonOf(p.id, p.reason), true);
    var i :| 0 <= i < |x.db.waits| && x.db.waits[i] == w;
    if op.OpResolve? && op.run == p.run {
      ResolvedClosesExactly(x.db, p.run, op.id, i, p.id, p.reason);
    }
    assert Apply(x.db, op).waits[i] == w;
  }

  lemma ElsewhereOpensNothing(x: System, op: Op)
    requires PauseInv(x) && Unrelated(op, x.pause)
    requires !AnyOpenForId(x.db.waits, x.pause.run, x.pause.id)
    ensures !AnyOpenForId(Apply(x.db, op).waits, x.pause.run, x.pause.id)
  {
    var after := Apply(x.db, op).waits;
    if op.OpOpen? && op.run == x.pause.run {
      OtherIdIsNotOpenForId(op.id, op.reason, op.run, x.pause.id);
    }
    forall i | 0 <= i < |after|
      ensures !IsOpenForId(after[i], x.pause.run, x.pause.id)
    {
      assert i < |x.db.waits| ==> !IsOpenForId(x.db.waits[i], x.pause.run, x.pause.id);
    }
  }

  lemma StepKeepsPauseInv(x: System, s: Step)
    requires PauseInv(x) && Possible(x.pause, s)
    ensures PauseInv(Do(x, s))
  {
    match s
    case OpenBody => OpenBodyOpens(x);
    case CloseBody => CloseBodyCloses(x);
    case Elsewhere(op) =>
      assert Replayed(x.db, [op][..0]) == x.db;
      NeverTwoOpen(x.db, [op]);
      assert Replayed(x.db, [op]) == Apply(x.db, op);
      if x.pause.openRan && !x.pause.closeRan {
        ElsewhereKeepsRow(x, op);
      } else {
        ElsewhereOpensNothing(x, op);
      }
    case _ =>
  }

  lemma {:induction false} ScheduleKeepsPauseInv(x: System, steps: seq<Step>)
    requires PauseInv(x)
    ensures PauseInv(Schedule(x, steps)) && SameCall(Schedule(x, steps).pause, x.pause)
  {
    if steps != [] {
      ScheduleKeepsPauseInv(x, steps[..|steps| - 1]);
      var before := Schedule(x, steps[..|steps| - 1]);
      if Possible(before.pause, steps[|steps| - 1]) {
        StepKeepsPauseInv(before, steps[|steps| - 1]);
      }
    }
  }

  predicate SameCall(a: Pause, b: Pause) { a.run == b.run && a.id == b.id && a.reason == b.reason }

  /**
   Main result. A pause that starts with no open row for its id, under any schedule
   of crashes, reruns and unrelated waits: while it is parked its one row is open;
   once it has returned, approved or timed out, no row of its id is.
   */
  lemma {:induction false} PauseOpensAndClosesOnce(db: Db, run: RunId, id: string, reason: Option<string>, steps: seq<Step>)
    requires IsToken(id) && run in db.runs && OneOpenEach(db.waits) && !AnyOpenForId(db.waits, run, id)
    ensures var end := Schedule(System(db, Pause(run, id, reason, false, false, false, false, false)), steps);
      && OneOpenEach(end.db.waits)
      && (end.pause.openStored && !end.pause.closeRan ==> HasOpen(end.db.waits, run, ReasonOf(id, reason)))
      && (end.pause.closeStored ==> !AnyOpenForId(end.db.waits, run, id))
  {
    ScheduleKeepsPauseInv(System(db, Pause(run, id, reason, false, false, false, false, false)), steps);
  }

  lemma {:induction false} ScheduleOneMore(x: System, steps: seq<Step>, s: Step)
    requires Possible(Schedule(x, steps).pause, s)
    ensures Schedule(x, steps + [s]) == Do(Schedule(x, steps), s)
  {
    assert (steps + [s])[..|steps|] == steps;
  }

  /** And a pause does get there: its row is opened, and closed when it has been woken. */
  lemma PauseReturns(run: RunId, id: string) returns (parked: System, done: System)
    requires IsToken(id)
    ensures var start := System(Db(map[run := RunRow(Running, false)], []), Pause(run, id, None, false, false, false, false, false));
      && parked == Schedule(start, [] + [OpenBody] + [OpenStored])
      && done == Schedule(start, [] + [OpenBody] + [OpenStored] + [Woken] + [CloseBody] + [CloseStored])
      && HasOpen(parked.db.waits, run, ReasonOf(id, None)) && !parked.pause.closeStored
      && done.pause.closeStored && done.db.waits == [Wait(run, ReasonOf(id, None), false)]
  {
    var start := System(Db(map[run := RunRow(Running, false)], []), Pause(run, id, None, false, false, false, false, false));
    var open := [] + [OpenBody] + [OpenStored];
    ScheduleOneMore(start, [], OpenBody);
    ScheduleOneMore(start, [] + [OpenBody], OpenStored);
    parked := Schedule(start, open);
    assert parked.db.waits == [Wait(run, ReasonOf(id, None), true)];
    ScheduleOneMore(start, open, Woken);
    ScheduleOneMore(start, open + [Woken], CloseBody);
    ResolvedClosesExactly(parked.db, run, id, 0, id, None);
    ScheduleOneMore(start, open + [Woken] + [CloseBody], CloseStored);
    done := Schedule(start, open + [Woken] + [CloseBody] + [CloseStored]);
  }

  // ---------------------------------------------------------------- the same on the tables

  method Perform(c: Correlator, op: Op)
    modifies c
    ensures c.View() == Apply(old(c.View()), op)
  {
    match op
    case OpStart(run) => c.RunStarted(run);
    case OpStatus(run, status) => c.SetRunStatus(run, status);
    case OpOpen(run, id, reason) => c.ApprovalOpened(run, id, reason);
    case OpResolve(run, id) => c.ApprovalResolved(run, id);
    case OpResolveAll(run) => c.OpenWaitsResolved(run);
  }

  method PerformStep(c: Correlator, p: Pause, s: Step) returns (q: Pause)
    requires Possible(p, s)
    modifies c
    ensures System(c.View(), q) == Do(System(old(c.View()), p), s)
  {
    q := p;
    match s
    case OpenBody => c.ApprovalOpened(p.run, p.id, p.reason); q := p.(openRan := true);
    case OpenStored => q := p.(openStored := true);
    case Woken => q := p.(woken := true);
    case CloseBody => c.ApprovalResolved(p.run, p.id); q := p.(closeRan := true);
    case CloseStored => q := p.(closeStored := true);
    case Elsewhere(op) => Perform(c, op);
  }

  /** A pause run on the correlator's tables, under any schedule. */
  method PauseOnTables(c: Correlator, run: RunId, id: string, reason: Option<string>, steps: seq<Step>) returns (p: Pause)
    requires IsToken(id) && run in c.runs && OneOpenEach(c.waits) && !AnyOpenForId(c.waits, run, id)
    modifies c
    ensures OneOpenEach(c.waits)
    ensures p.openStored && !p.closeRan ==> HasOpen(c.waits, run, ReasonOf(id, reason))
    ensures p.closeStored ==> !AnyOpenForId(c.waits, run, id)
  {
    p := Pause(run, id, reason, false, false, false, false, false);
    ghost var start := System(c.View(), p);
    for n := 0 to |steps|
      invariant System(c.View(), p) == Schedule(start, steps[..n])
    {
      assert steps[..n + 1][..n] == steps[..n] && steps[..n + 1][n] == steps[n];
      if Possible(p, steps[n]) { p := PerformStep(c, p, steps[n]); }
    }
    assert steps[..|steps|] == steps;
    PauseOpensAndClosesOnce(start.db, run, id, reason, steps);
  }
}
