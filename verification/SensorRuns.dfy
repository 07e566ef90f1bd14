/**
 Whole runs of the sensor: rows arrive, cycles post, answers get lost, the process
 dies and starts again. The server keeps the set of guids it has taken.
 */
module SensorRuns {
  import opened Prelude
  import opened PairedHandles
  import opened SensorPoll
  import opened SensorAgent

  datatype World = World(
    rows: seq<Row>,
    disk: Persisted,
    running: Option<Context>,
    accepted: set<string>,
    high: nat,                        // the last row the server has ever taken
    attempts: seq<bool>,              // decode attempts since the process started
    lastReply: Option<HealthReply>,   // the last heartbeat attempted since then
    answered: seq<Pulse>)              // the heartbeats answered since then

  /** When a heartbeat was answered, and whether it was sent because the database did not open. */
  datatype Pulse = Pulse(at: int, forced: bool)

  /** One cycle seen from outside; the server takes the first `taken` events of a batch it does not acknowledge. */
  datatype Round = Round(
    now: int, opens: bool, schemaOk: bool, fingerprint: string, generation: string,
    acknowledged: bool, taken: nat, reply: HealthReply)

  datatype Step =
    | Append(row: Row)
    | Tick(round: Round)
    | DieAfterPost(round: Round)  // the process dies before it saves its state
    | Die
    | Start(round: Round)

  function ChatOf(w: World, r: Round): Chat { Chat(w.rows, r.schemaOk, r.fingerprint, r.generation) }

  function EnvOf(w: World, r: Round): Surroundings {
    Surroundings(r.now, if r.opens then Some(ChatOf(w, r)) else None, r.acknowledged, r.reply)
  }

  /** The events of a posted batch that reached the server. */
  function Taken(posted: Option<seq<Event>>, r: Round): seq<Event> {
    if posted.None? then []
    else if r.acknowledged || r.taken >= |posted.value| then posted.value
    else posted.value[..r.taken]
  }

  function Reach(high: nat, events: seq<Event>): nat {
    if events == [] || events[|events| - 1].rowid <= high then high else events[|events| - 1].rowid
  }

  function AnsweredBeat(beat: Option<HealthReply>, r: Round): seq<Pulse> {
    if beat.Some? && beat.value.Answered? then [Pulse(r.now, !r.opens)] else []
  }

  /** The rows a tick polls. */
  function Polled(w: World, cfg: Config, r: Round): seq<Row>
    requires w.running.Some?
  {
    var cursor := w.running.value.state.cursor;
    if r.opens && r.schemaOk && MaxRowid(w.rows) > cursor then Batch(w.rows, cursor, cfg.batchCap) else []
  }

  predicate Enabled(w: World, s: Step) {
    match s
    case Append(row) => row.rowid > MaxRowid(w.rows)
    case Start(_) => w.running.None?
    case _ => w.running.Some?
  }

  function Next(w: World, cfg: Config, s: Step): World
    requires Enabled(w, s)
  {
    match s
    case Append(row) => w.(rows := w.rows + [row])
    case Tick(r) =>
      var c := RunCycle(w.running.value, cfg, EnvOf(w, r));
      var taken := Taken(c.posted, r);
      w.(running := Some(c.ctx),
         disk := if c.saved.Some? then c.saved.value else w.disk,
         accepted := w.accepted + EventGuids(taken), high := Reach(w.high, taken),
         attempts := w.attempts + DecodeRun(Polled(w, cfg, r), cfg.reader),
         lastReply := if c.beat.Some? then c.beat else w.lastReply,
         answered := w.answered + AnsweredBeat(c.beat, r))
    case DieAfterPost(r) =>
      var taken := Taken(RunCycle(w.running.value, cfg, EnvOf(w, r)).posted, r);
      w.(running := None, accepted := w.accepted + EventGuids(taken), high := Reach(w.high, taken))
    case Die => w.(running := None)
    case Start(r) =>
      w.(running := Some(Started(w.disk, cfg, EnvOf(w, r))), attempts := [], lastReply := Some(r.reply),
         answered := AnsweredBeat(Some(r.reply), r.(opens := false)))
  }

  /** The worlds a run of steps goes through ends here; steps that are not possible are passed over. */
  function Run(w: World, cfg: Config, steps: seq<Step>): World {
    if steps == [] then w
    else
      var before := Run(w, cfg, steps[..|steps| - 1]);
      var s := steps[|steps| - 1];
      if Enabled(before, s) then Next(before, cfg, s) else before
  }

  /** First run: the baseline is the newest row, nothing is sent yet. */
  function First(rows: seq<Row>, disk: Persisted): World {
    World(rows, disk, None, {}, disk.cursor, [], None, [])
  }

  predicate Sound(cfg: Config) { cfg.batchCap > 0 && cfg.driftThreshold > 0 }

  function CacheAfter(reply: Option<HealthReply>, cfg: Config): set<string> {
    if reply.None? then {} else NormalizedSet(HandlesOfReply(reply.value), cfg.reader.lower)
  }

  ghost predicate Inv(w: World, cfg: Config, baseline: nat) {
    && Ascending(w.rows)
    && baseline <= w.disk.cursor <= w.high <= MaxRowid(w.rows)
    && w.accepted == Guids(w.rows, baseline, w.high)
    && (w.running.Some? ==>
          && w.running.value.state == w.disk
          && w.running.value.decodeFailures == TailRun(w.attempts)
          && w.running.value.decoderStopped == (TailRun(w.attempts) >= cfg.driftThreshold)
          && w.running.value.paired == CacheAfter(w.lastReply, cfg))
  }

  // ---------------------------------------------------------------- single steps

  lemma PostShape(ctx: Context, cfg: Config, env: Surroundings, chat: Chat, poll: PollOutcome)
    ensures var c := PostAndAudit(ctx, cfg, env, chat, poll, false);
      && c.posted == (if poll.events != [] && !ctx.decoderStopped then Some(poll.events) else None)
      && (c.saved.Some? <==> c.posted.Some? && env.postAccepted)
      && (c.saved.Some? ==> c.saved.value.cursor == poll.cursor)
      && c.ctx.state == (if c.saved.Some? then c.saved.value else ctx.state)
      && c.ctx.decodeFailures == ctx.decodeFailures && c.ctx.decoderStopped == ctx.decoderStopped
  {
  }

  /** Without a replaced database a cycle that opens a readable one is a poll and a post. */
  lemma CycleIsPost(ctx: Context, cfg: Config, w: World, r: Round)
    requires ctx.state.cursor <= MaxRowid(w.rows) && r.opens && r.schemaOk
    ensures var poll := Poll(ChatOf(w, r), ctx.state.cursor, cfg.batchCap, ctx.paired, cfg.reader);
      RunCycle(ctx, cfg, EnvOf(w, r))
        == PostAndAudit(AfterPoll(ctx, cfg, ChatOf(w, r), poll), cfg, EnvOf(w, r), ChatOf(w, r), poll, false)
  {
  }

  lemma CycleIsBlind(ctx: Context, cfg: Config, w: World, r: Round)
    requires ctx.state.cursor <= MaxRowid(w.rows) && !(r.opens && r.schemaOk)
    ensures var c := RunCycle(ctx, cfg, EnvOf(w, r));
      && c.posted.None? && c.saved.None? && c.ctx.state == ctx.state
      && c.ctx.decodeFailures == ctx.decodeFailures && c.ctx.decoderStopped == ctx.decoderStopped
  {
  }

  /** Without a replaced database the reset branch is never taken. */
  lemma CycleShape(ctx: Context, cfg: Config, w: World, r: Round)
    requires ctx.state.cursor <= MaxRowid(w.rows)
    ensures var c := RunCycle(ctx, cfg, EnvOf(w, r));
      var poll := Poll(ChatOf(w, r), ctx.state.cursor, cfg.batchCap, ctx.paired, cfg.reader);
      && c.posted == (if r.opens && r.schemaOk && poll.events != []
                         && NextFailures(ctx.decodeFailures, poll) < cfg.driftThreshold
                      then Some(poll.events) else None)
      && (c.saved.Some? <==> c.posted.Some? && r.acknowledged)
      && (c.saved.Some? ==> c.saved.value.cursor == poll.cursor)
      && c.ctx.state == (if c.saved.Some? then c.saved.value else ctx.state)
  {
    if r.opens && r.schemaOk {
      CycleIsPost(ctx, cfg, w, r);
      var poll := Poll(ChatOf(w, r), ctx.state.cursor, cfg.batchCap, ctx.paired, cfg.reader);
      PostShape(AfterPoll(ctx, cfg, ChatOf(w, r), poll), cfg, EnvOf(w, r), ChatOf(w, r), poll);
    } else {
      CycleIsBlind(ctx, cfg, w, r);
    }
  }

  lemma CycleCounters(ctx: Context, cfg: Config, w: World, r: Round)
    requires ctx.state.cursor <= MaxRowid(w.rows)
    ensures var c := RunCycle(ctx, cfg, EnvOf(w, r));
      var poll := Poll(ChatOf(w, r), ctx.state.cursor, cfg.batchCap, ctx.paired, cfg.reader);
      var failures := NextFailures(ctx.decodeFailures, poll);
      if r.opens && r.schemaOk then
        c.ctx.decodeFailures == failures && c.ctx.decoderStopped == (failures >= cfg.driftThreshold)
      else
        c.ctx.decodeFailures == ctx.decodeFailures && c.ctx.decoderStopped == ctx.decoderStopped
  {
    if r.opens && r.schemaOk {
      CycleIsPost(ctx, cfg, w, r);
      var poll := Poll(ChatOf(w, r), ctx.state.cursor, cfg.batchCap, ctx.paired, cfg.reader);
      PostShape(AfterPoll(ctx, cfg, ChatOf(w, r), poll), cfg, EnvOf(w, r), ChatOf(w, r), poll);
    } else {
      CycleIsBlind(ctx, cfg, w, r);
    }
  }

  function CacheOf(before: set<string>, beat: Option<HealthReply>, cfg: Config): set<string> {
    if beat.None? then before else NormalizedSet(HandlesOfReply(beat.value), cfg.reader.lower)
  }

  lemma BeatCache(ctx: Context, cfg: Config, env: Surroundings, force: bool)
    ensures Beat(ctx, cfg, env, force).paired == CacheOf(ctx.paired, BeatReply(ctx, cfg, env, force), cfg)
  {
  }

  lemma PostCache(ctx: Context, cfg: Config, env: Surroundings, chat: Chat, poll: PollOutcome)
    ensures var c := PostAndAudit(ctx, cfg, env, chat, poll, false);
      c.ctx.paired == CacheOf(ctx.paired, c.beat, cfg)
  {
    if poll.events == [] || ctx.decoderStopped {
      BeatCache(AfterAudit(ctx, poll), cfg, env, false);
    } else if env.postAccepted {
      BeatCache(AfterAudit(AfterAccept(ctx, chat, poll), poll), cfg, env, false);
    } else {
      BeatCache(ctx.(ingestFailing := true), cfg, env, false);
    }
  }

  lemma CycleCache(ctx: Context, cfg: Config, w: World, r: Round)
    requires ctx.state.cursor <= MaxRowid(w.rows)
    ensures var c := RunCycle(ctx, cfg, EnvOf(w, r));
      c.ctx.paired == CacheOf(ctx.paired, c.beat, cfg)
  {
    if r.opens && r.schemaOk {
      var poll := Poll(ChatOf(w, r), ctx.state.cursor, cfg.batchCap, ctx.paired, cfg.reader);
      PostCache(AfterPoll(ctx, cfg, ChatOf(w, r), poll), cfg, EnvOf(w, r), ChatOf(w, r), poll);
    }
  }

  lemma {:induction false} GuidsJoin(rows: seq<Row>, low: nat, from: nat, high: nat, to: nat)
    requires low <= from <= high
    ensures Guids(rows, low, high) + Guids(rows, from, to) == Guids(rows, low, if to <= high then high else to)
  {
  }

  lemma GuidsOfOneMore(rows: seq<Row>, row: Row, low: nat, high: nat)
    requires high < row.rowid
    ensures Guids(rows + [row], low, high) == Guids(rows, low, high)
  {
    assert forall x :: x in rows + [row] <==> x in rows || x == row;
  }

  /** Some events, those of all the rows after the cursor up to the last of them. */
  predicate EventsFollow(rows: seq<Row>, cursor: nat, events: seq<Event>) {
    && events != [] && EventGuids(events) == Guids(rows, cursor, events[|events| - 1].rowid)
    && cursor < events[|events| - 1].rowid <= MaxRowid(rows)
  }

  /** The events of a whole batch are those of an interval of rowids. */
  lemma EventsAreContiguous(rows: seq<Row>, cursor: nat, cap: nat, paired: set<string>, reader: Reader)
    requires Ascending(rows) && MaxRowid(rows) > cursor && cap > 0
    ensures EventsFollow(rows, cursor, EventsOf(Batch(rows, cursor, cap), paired, reader))
  {
    var batch := Batch(rows, cursor, cap);
    var events := EventsOf(batch, paired, reader);
    BatchRows(rows, cursor, cap);
    EventGuidsOfRows(batch, paired, reader);
    assert events[|events| - 1].rowid == batch[|batch| - 1].rowid;
  }

  /** The beginning of a batch is a smaller batch. */
  lemma FirstOfBatch(rows: seq<Row>, cursor: nat, cap: nat, k: nat)
    requires k <= |Batch(rows, cursor, cap)|
    ensures Batch(rows, cursor, k) == Batch(rows, cursor, cap)[..k]
  {
  }

  /** Whatever part of a batch the server takes, it takes the rows up to some rowid. */
  lemma TakenIsContiguous(rows: seq<Row>, cursor: nat, cap: nat, k: nat, paired: set<string>, reader: Reader)
    requires Ascending(rows) && MaxRowid(rows) > cursor && 0 < k <= |Batch(rows, cursor, cap)|
    ensures EventsFollow(rows, cursor, EventsOf(Batch(rows, cursor, cap), paired, reader)[..k])
  {
    FirstOfBatch(rows, cursor, cap, k);
    EventsOfPrefix(Batch(rows, cursor, cap), k, paired, reader);
    EventsAreContiguous(rows, cursor, k, paired, reader);
  }

  lemma EventsOfPrefix(batch: seq<Row>, k: nat, paired: set<string>, reader: Reader)
    requires k <= |batch|
    ensures EventsOf(batch[..k], paired, reader) == EventsOf(batch, paired, reader)[..k]
  {
  }

  /** What the server takes extends the interval it has. */
  lemma TakenExtends(rows: seq<Row>, low: nat, cursor: nat, high: nat, taken: seq<Event>)
    requires low <= cursor <= high <= MaxRowid(rows) && taken != []
    requires EventGuids(taken) == Guids(rows, cursor, taken[|taken| - 1].rowid) && taken[|taken| - 1].rowid <= MaxRowid(rows)
    ensures Guids(rows, low, high) + EventGuids(taken) == Guids(rows, low, Reach(high, taken))
    ensures high <= Reach(high, taken) <= MaxRowid(rows)
  {
    GuidsJoin(rows, low, cursor, high, taken[|taken| - 1].rowid);
  }

  /** What a round saves is a cursor the server has reached. */
  lemma SavedIsReached(w: World, cfg: Config, baseline: nat, r: Round)
    requires Inv(w, cfg, baseline) && Sound(cfg) && w.running.Some?
    ensures var c := RunCycle(w.running.value, cfg, EnvOf(w, r));
      c.saved.Some? ==> w.disk.cursor <= c.saved.value.cursor <= Reach(w.high, Taken(c.posted, r))
  {
    var ctx := w.running.value;
    CycleShape(ctx, cfg, w, r);
    if RunCycle(ctx, cfg, EnvOf(w, r)).saved.Some? {
      EventsAreContiguous(w.rows, w.disk.cursor, cfg.batchCap, ctx.paired, cfg.reader);
    }
  }

  /** What reaches the server in one round extends what it has without a gap. */
  lemma ServerStaysContiguous(w: World, cfg: Config, baseline: nat, r: Round)
    requires Inv(w, cfg, baseline) && Sound(cfg) && w.running.Some?
    ensures var c := RunCycle(w.running.value, cfg, EnvOf(w, r));
      var taken := Taken(c.posted, r);
      var high := Reach(w.high, taken);
      && w.accepted + EventGuids(taken) == Guids(w.rows, baseline, high)
      && w.high <= high <= MaxRowid(w.rows)
      && (c.saved.Some? ==> w.disk.cursor <= c.saved.value.cursor <= high)
  {
    var ctx := w.running.value;
    SavedIsReached(w, cfg, baseline, r);
    TakenFromBatch(w, cfg, r);
    var taken := Taken(RunCycle(ctx, cfg, EnvOf(w, r)).posted, r);
    if taken == [] {
      assert EventGuids(taken) == {};
    } else {
      TakenIsContiguous(w.rows, w.disk.cursor, cfg.batchCap, |taken|, ctx.paired, cfg.reader);
      TakenExtends(w.rows, baseline, w.disk.cursor, w.high, taken);
    }
  }

  /** What the server takes of a round is the beginning of the polled batch. */
  lemma TakenFromBatch(w: World, cfg: Config, r: Round)
    requires w.running.Some? && w.running.value.state == w.disk && w.disk.cursor <= MaxRowid(w.rows)
    ensures var ctx := w.running.value;
      var taken := Taken(RunCycle(ctx, cfg, EnvOf(w, r)).posted, r);
      var batch := Batch(w.rows, w.disk.cursor, cfg.batchCap);
      taken == [] || (MaxRowid(w.rows) > w.disk.cursor && |taken| <= |batch|
                      && taken == EventsOf(batch, ctx.paired, cfg.reader)[..|taken|])
  {
    CycleShape(w.running.value, cfg, w, r);
  }

  lemma DriftStays(w: World, cfg: Config, baseline: nat, r: Round)
    requires Inv(w, cfg, baseline) && w.running.Some?
    ensures var c := RunCycle(w.running.value, cfg, EnvOf(w, r));
      var seen := w.attempts + DecodeRun(Polled(w, cfg, r), cfg.reader);
      && c.ctx.decodeFailures == TailRun(seen)
      && c.ctx.decoderStopped == (TailRun(seen) >= cfg.driftThreshold)
  {
    var ctx := w.running.value;
    CycleCounters(ctx, cfg, w, r);
    var batch := Polled(w, cfg, r);
    if r.opens && r.schemaOk {
      var poll := Poll(ChatOf(w, r), ctx.state.cursor, cfg.batchCap, ctx.paired, cfg.reader);
      CounterFollowsStream(w.attempts, batch, cfg.reader, poll);
    } else {
      assert w.attempts + DecodeRun(batch, cfg.reader) == w.attempts;
    }
  }

  lemma StepKeepsInv(w: World, cfg: Config, baseline: nat, s: Step)
    requires Inv(w, cfg, baseline) && Sound(cfg) && Enabled(w, s)
    ensures Inv(Next(w, cfg, s), cfg, baseline)
    ensures w.disk.cursor <= Next(w, cfg, s).disk.cursor
  {
    match s
    case Append(row) =>
      GuidsOfOneMore(w.rows, row, baseline, w.high);
    case Tick(r) =>
      ServerStaysContiguous(w, cfg, baseline, r);
      DriftStays(w, cfg, baseline, r);
      CycleShape(w.running.value, cfg, w, r);
      CycleCache(w.running.value, cfg, w, r);
    case DieAfterPost(r) =>
      ServerStaysContiguous(w, cfg, baseline, r);
    case Die =>
    case Start(r) =>
  }

  // ---------------------------------------------------------------- whole runs

  lemma {:induction false} RunKeepsInv(w: World, cfg: Config, baseline: nat, steps: seq<Step>)
    requires Inv(w, cfg, baseline) && Sound(cfg)
    ensures Inv(Run(w, cfg, steps), cfg, baseline)
    ensures w.disk.cursor <= Run(w, cfg, steps).disk.cursor
  {
    if steps != [] {
      var front := steps[..|steps| - 1];
      RunKeepsInv(w, cfg, baseline, front);
      var before := Run(w, cfg, front);
      if Enabled(before, steps[|steps| - 1]) {
        StepKeepsInv(before, cfg, baseline, steps[|steps| - 1]);
      }
    }
  }

  /**
   Main result. After any run from a first start, with any failed posts, lost
   answers, deaths and restarts, the server holds exactly the rows above the
   baseline up to some row no older than the saved cursor: nothing up to the
   cursor is missing, and no row counts twice.
   */
  lemma {:induction false} NoGapNoDuplicate(rows: seq<Row>, disk: Persisted, cfg: Config, steps: seq<Step>)
    requires Ascending(rows) && disk.cursor <= MaxRowid(rows) && Sound(cfg)
    ensures var end := Run(First(rows, disk), cfg, steps);
      && end.accepted == Guids(end.rows, disk.cursor, end.high)
      && disk.cursor <= end.disk.cursor <= end.high
      && forall row | row in end.rows && disk.cursor < row.rowid <= end.disk.cursor :: GuidOf(row) in end.accepted
  {
    assert Guids(rows, disk.cursor, disk.cursor) == {};
    RunKeepsInv(First(rows, disk), cfg, disk.cursor, steps);
  }

  /** The saved cursor never moves back, at any point of any run. */
  lemma {:induction false} CursorNeverDecreases(rows: seq<Row>, disk: Persisted, cfg: Config, steps: seq<Step>, more: seq<Step>)
    requires Ascending(rows) && disk.cursor <= MaxRowid(rows) && Sound(cfg)
    ensures Run(First(rows, disk), cfg, steps).disk.cursor
         <= Run(Run(First(rows, disk), cfg, steps), cfg, more).disk.cursor
  {
    assert Guids(rows, disk.cursor, disk.cursor) == {};
    RunKeepsInv(First(rows, disk), cfg, disk.cursor, steps);
    RunKeepsInv(Run(First(rows, disk), cfg, steps), cfg, disk.cursor, more);
  }

  /** In any run the drift counter is the trailing failure run of all attempts, and its latch the threshold on it. */
  lemma {:induction false} DriftCounterRefinesStream(rows: seq<Row>, disk: Persisted, cfg: Config, steps: seq<Step>)
    requires Ascending(rows) && disk.cursor <= MaxRowid(rows) && Sound(cfg)
    ensures var end := Run(First(rows, disk), cfg, steps);
      end.running.Some? ==>
        && end.running.value.decodeFailures == TailRun(end.attempts)
        && end.running.value.decoderStopped == (TailRun(end.attempts) >= cfg.driftThreshold)
  {
    assert Guids(rows, disk.cursor, disk.cursor) == {};
    RunKeepsInv(First(rows, disk), cfg, disk.cursor, steps);
  }

  /** While the decoder counts as broken, nothing leaves and the cursor stands still. */
  lemma StoppedDecoderForwardsNothing(w: World, cfg: Config, baseline: nat, r: Round)
    requires Inv(w, cfg, baseline) && Sound(cfg) && w.running.Some? && r.opens && r.schemaOk
    requires Next(w, cfg, Tick(r)).running.value.decoderStopped
    ensures RunCycle(w.running.value, cfg, EnvOf(w, r)).posted.None?
    ensures Next(w, cfg, Tick(r)).disk == w.disk && Next(w, cfg, Tick(r)).accepted == w.accepted
  {
    CycleShape(w.running.value, cfg, w, r);
    CycleCounters(w.running.value, cfg, w, r);
    assert EventGuids([]) == {};
  }

  /**
   The content rule over whole runs: an event carries content only when someone
   else wrote it from a handle that the last heartbeat attempted listed.
   */
  lemma {:induction false} ContentOnlyForListedHandles(rows: seq<Row>, disk: Persisted, cfg: Config, steps: seq<Step>, r: Round, e: Event)
    requires Ascending(rows) && disk.cursor <= MaxRowid(rows) && Sound(cfg) && LowercaseLaws(cfg.reader.lower)
    requires var w := Run(First(rows, disk), cfg, steps);
      && w.running.Some?
      && var posted := RunCycle(w.running.value, cfg, EnvOf(w, r)).posted;
         posted.Some? && e in posted.value
    ensures var w := Run(First(rows, disk), cfg, steps);
      exists row | row in w.rows :: e == EventOf(row, w.running.value.paired, cfg.reader)
        && (e.content.Some? ==>
              && !row.isFromMe && row.handle.Some? && Trimming.Trim(row.handle.value) != ""
              && w.lastReply.Some?
              && exists h :: h in HandlesOfReply(w.lastReply.value) && SameHandle(h, row.handle.value, cfg.reader.lower))
  {
    var w := Run(First(rows, disk), cfg, steps);
    assert Guids(rows, disk.cursor, disk.cursor) == {};
    RunKeepsInv(First(rows, disk), cfg, disk.cursor, steps);
    CycleShape(w.running.value, cfg, w, r);
    var ctx := w.running.value;
    var batch := Batch(w.rows, ctx.state.cursor, cfg.batchCap);
    var i :| 0 <= i < |batch| && e == EventOf(batch[i], ctx.paired, cfg.reader);
    var row := batch[i];
    RowOfBatch(w.rows, ctx.state.cursor, cfg.batchCap, i);
    ContentRule(row, ctx.paired, cfg.reader);
    if e.content.Some? {
      var body := if w.lastReply.value.Answered? then w.lastReply.value.body else NoBody;
      assert HandlesOfReply(w.lastReply.value) == HandlesOf(body);
      CacheOfBody(body, row.handle, cfg.reader.lower);
    }
  }

  lemma RowOfBatch(rows: seq<Row>, cursor: nat, cap: nat, i: nat)
    requires Ascending(rows) && i < |Batch(rows, cursor, cap)|
    ensures Batch(rows, cursor, cap)[i] in rows
  {
    AboveIsTheRest(rows, cursor);
    var k :| SplitsAt(rows, cursor, k);
    assert Batch(rows, cursor, cap)[i] == rows[k + i];
  }

  // ---------------------------------------------------------------- catching up

  /** A round in which nothing goes wrong. */
  predicate Smooth(r: Round) { r.opens && r.schemaOk && r.acknowledged }

  function Ticks(rounds: seq<Round>): seq<Step> {
    seq(|rounds|, i requires 0 <= i < |rounds| => Tick(rounds[i]))
  }

  lemma BacklogAfterBatch(rows: seq<Row>, cursor: nat, cap: nat)
    requires Ascending(rows) && cap > 0 && MaxRowid(rows) > cursor
    ensures var batch := Batch(rows, cursor, cap);
      batch != [] && |Above(rows, batch[|batch| - 1].rowid)| == |Above(rows, cursor)| - |batch|
  {
    AboveIsTheRest(rows, cursor);
    var k :| SplitsAt(rows, cursor, k);
    var batch := Batch(rows, cursor, cap);
    var m := k + |batch|;
    BatchIsSlice(rows, cursor, cap, k);
    assert batch[|batch| - 1] == rows[m - 1];
    AboveIsTheRest(rows, rows[m - 1].rowid);
    var n :| SplitsAt(rows, rows[m - 1].rowid, n);
    assert n >= m;
    assert rows[n - 1].rowid <= rows[m - 1].rowid;
  }

  lemma {:induction false} NoBacklogAtMax(rows: seq<Row>, cursor: nat)
    requires Ascending(rows)
    ensures Above(rows, cursor) == [] <==> MaxRowid(rows) <= cursor
  {
    AboveIsTheRest(rows, cursor);
    var k :| SplitsAt(rows, cursor, k);
    if rows != [] && MaxRowid(rows) > cursor { assert k < |rows|; }
  }

  function Backlog(w: World): nat { |Above(w.rows, w.disk.cursor)| }

  /**
   Where delivery from a cursor ends, batch by batch, after these decode attempts: at the
   newest row, or before the first batch at whose end the decoder is stopped.
   */
  function StopsAt(rows: seq<Row>, cursor: nat, seen: seq<bool>, cfg: Config): (stop: nat)
    requires Ascending(rows) && Sound(cfg)
    ensures cursor <= stop && (cursor <= MaxRowid(rows) ==> stop <= MaxRowid(rows))
    decreases |Above(rows, cursor)|
  {
    if MaxRowid(rows) <= cursor then cursor
    else
      BacklogAfterBatch(rows, cursor, cfg.batchCap);
      BatchRows(rows, cursor, cfg.batchCap);
      var batch := Batch(rows, cursor, cfg.batchCap);
      var after := seen + DecodeRun(batch, cfg.reader);
      if TailRun(after) >= cfg.driftThreshold then cursor
      else StopsAt(rows, batch[|batch| - 1].rowid, after, cfg)
  }

  predicate IsMultiple(n: nat, cap: nat)
    requires cap > 0
  {
    n == cap || (n > cap && IsMultiple(n - cap, cap))
  }

  /** The end of a batch among so many rows. */
  predicate IsBatchEnd(n: nat, total: nat, cap: nat)
    requires cap > 0
  {
    0 < n <= total && (n == total || IsMultiple(n, cap))
  }

  /** At no batch's end do the attempts so far trail with as many failures as stop the decoder. */
  ghost predicate NoBatchLatches(above: seq<Row>, seen: seq<bool>, cfg: Config)
    requires Sound(cfg)
  {
    forall n: nat | IsBatchEnd(n, |above|, cfg.batchCap) ::
      TailRun(seen + DecodeRun(above[..n], cfg.reader)) < cfg.driftThreshold
  }

  lemma {:induction false} DecodeRunJoins(a: seq<Row>, b: seq<Row>, reader: Reader)
    ensures DecodeRun(a + b, reader) == DecodeRun(a, reader) + DecodeRun(b, reader)
  {
    if b == [] {
      assert a + b == a;
    } else {
      var n := |b| - 1;
      DecodeRunJoins(a, b[..n], reader);
      assert (a + b)[..|a + b| - 1] == a + b[..n];
      assert (a + b)[|a + b| - 1] == b[n];
    }
  }

  /** The rest of the backlog after its first batch. */
  lemma RestOfBacklog(rows: seq<Row>, cursor: nat, cap: nat)
    requires Ascending(rows) && cap > 0 && MaxRowid(rows) > cursor
    ensures var batch := Batch(rows, cursor, cap);
      && batch != [] && (|batch| == cap || |batch| == |Above(rows, cursor)|)
      && Above(rows, cursor) == batch + Above(rows, batch[|batch| - 1].rowid)
  {
    BacklogAfterBatch(rows, cursor, cap);
    var k, m := SliceOf(rows, cursor, cap);
    AboveIsTheRest(rows, rows[m - 1].rowid);
    var n :| SplitsAt(rows, rows[m - 1].rowid, n);
    assert rows[k..m][m - k - 1] == rows[m - 1];
    assert n == m;
  }

  /** Behind a full batch, the ends are those of the rest. */
  lemma {:induction false} EndsBehind(batch: seq<Row>, rest: seq<Row>, seen: seq<bool>, cfg: Config, n: nat)
    requires Sound(cfg) && 0 < n <= |rest| && |batch| == cfg.batchCap
    ensures var after := seen + DecodeRun(batch, cfg.reader);
      && (IsBatchEnd(n, |rest|, cfg.batchCap) <==> IsBatchEnd(|batch| + n, |batch + rest|, cfg.batchCap))
      && seen + DecodeRun((batch + rest)[..|batch| + n], cfg.reader) == after + DecodeRun(rest[..n], cfg.reader)
  {
    assert (batch + rest)[..|batch| + n] == batch + rest[..n];
    DecodeRunJoins(batch, rest[..n], cfg.reader);
  }

  predicate FirstIsWhole(batch: seq<Row>, rest: seq<Row>, cfg: Config) {
    batch != [] && |batch| <= cfg.batchCap && (|batch| == cfg.batchCap || rest == [])
  }

  lemma {:induction false} LatchesInRest(batch: seq<Row>, rest: seq<Row>, seen: seq<bool>, cfg: Config)
    requires Sound(cfg) && FirstIsWhole(batch, rest, cfg) && NoBatchLatches(batch + rest, seen, cfg)
    ensures var after := seen + DecodeRun(batch, cfg.reader);
      TailRun(after) < cfg.driftThreshold && NoBatchLatches(rest, after, cfg)
  {
    var all := batch + rest;
    assert IsBatchEnd(|batch|, |all|, cfg.batchCap) && all[..|batch|] == batch;
    forall n: nat | IsBatchEnd(n, |rest|, cfg.batchCap)
      ensures TailRun(seen + DecodeRun(batch, cfg.reader) + DecodeRun(rest[..n], cfg.reader)) < cfg.driftThreshold
    {
      EndsBehind(batch, rest, seen, cfg, n);
    }
  }

  lemma {:induction false} LatchesInAll(batch: seq<Row>, rest: seq<Row>, seen: seq<bool>, cfg: Config)
    requires Sound(cfg) && FirstIsWhole(batch, rest, cfg)
    requires var after := seen + DecodeRun(batch, cfg.reader);
      TailRun(after) < cfg.driftThreshold && NoBatchLatches(rest, after, cfg)
    ensures NoBatchLatches(batch + rest, seen, cfg)
  {
    var all := batch + rest;
    assert all[..|batch|] == batch;
    forall n: nat | IsBatchEnd(n, |all|, cfg.batchCap)
      ensures TailRun(seen + DecodeRun(all[..n], cfg.reader)) < cfg.driftThreshold
    {
      if n > |batch| {
        EndsBehind(batch, rest, seen, cfg, n - |batch|);
      }
    }
  }

  /** Delivery reaches the newest row exactly when no batch's end finds the decoder stopped. */
  lemma {:induction false} ReachesNewestExactly(rows: seq<Row>, cursor: nat, seen: seq<bool>, cfg: Config)
    requires Ascending(rows) && Sound(cfg) && cursor <= MaxRowid(rows)
    ensures StopsAt(rows, cursor, seen, cfg) == MaxRowid(rows) <==> NoBatchLatches(Above(rows, cursor), seen, cfg)
    decreases |Above(rows, cursor)|
  {
    NoBacklogAtMax(rows, cursor);
    if MaxRowid(rows) > cursor {
      var batch := Batch(rows, cursor, cfg.batchCap);
      BacklogAfterBatch(rows, cursor, cfg.batchCap);
      BatchRows(rows, cursor, cfg.batchCap);
      RestOfBacklog(rows, cursor, cfg.batchCap);
      var next := batch[|batch| - 1].rowid;
      var after := seen + DecodeRun(batch, cfg.reader);
      ReachesNewestExactly(rows, next, after, cfg);
      if NoBatchLatches(Above(rows, cursor), seen, cfg) {
        LatchesInRest(batch, Above(rows, next), seen, cfg);
      } else if TailRun(after) < cfg.driftThreshold && NoBatchLatches(Above(rows, next), after, cfg) {
        LatchesInAll(batch, Above(rows, next), seen, cfg);
      }
    }
  }

  /** A stopped decoder that reads the same batch again stays stopped. */
  lemma {:induction false} LatchHolds(seen: seq<bool>, run: seq<bool>, threshold: nat)
    requires TailRun(seen + run) >= threshold
    ensures TailRun(seen + run + run) >= threshold
  {
    TailRunOfConcat(seen, run);
    TailRunOfConcat(seen + run, run);
  }

  /** Where the cursor stands after a smooth round. */
  function Advanced(rows: seq<Row>, cursor: nat, seen: seq<bool>, cfg: Config): nat {
    if MaxRowid(rows) <= cursor then cursor
    else
      var batch := Batch(rows, cursor, cfg.batchCap);
      if batch == [] || TailRun(seen + DecodeRun(batch, cfg.reader)) >= cfg.driftThreshold then cursor
      else batch[|batch| - 1].rowid
  }

  function Higher(a: nat, b: nat): nat { if a < b then b else a }

  /** What a smooth round saves and sends. */
  lemma SmoothRoundPosts(w: World, cfg: Config, baseline: nat, r: Round)
    requires Inv(w, cfg, baseline) && Sound(cfg) && w.running.Some? && Smooth(r)
    ensures var c := RunCycle(w.running.value, cfg, EnvOf(w, r));
      var batch := Batch(w.rows, w.disk.cursor, cfg.batchCap);
      if Advanced(w.rows, w.disk.cursor, w.attempts, cfg) == w.disk.cursor then c.posted.None? && c.saved.None?
      else
        && c.posted == Some(EventsOf(batch, w.running.value.paired, cfg.reader)) && c.saved.Some?
        && c.saved.value.cursor == Advanced(w.rows, w.disk.cursor, w.attempts, cfg)
        && EventsFollow(w.rows, w.disk.cursor, c.posted.value)
        && c.posted.value[|c.posted.value| - 1].rowid == c.saved.value.cursor
  {
    var ctx := w.running.value;
    CycleShape(ctx, cfg, w, r);
    if MaxRowid(w.rows) > w.disk.cursor {
      var poll := Poll(ChatOf(w, r), ctx.state.cursor, cfg.batchCap, ctx.paired, cfg.reader);
      CounterFollowsStream(w.attempts, Batch(w.rows, w.disk.cursor, cfg.batchCap), cfg.reader, poll);
      EventsAreContiguous(w.rows, w.disk.cursor, cfg.batchCap, ctx.paired, cfg.reader);
    }
  }

  lemma SmoothRoundMovesCursor(w: World, cfg: Config, baseline: nat, r: Round)
    requires Inv(w, cfg, baseline) && Sound(cfg) && w.running.Some? && Smooth(r)
    ensures var next := Next(w, cfg, Tick(r));
      && next.disk.cursor == Advanced(w.rows, w.disk.cursor, w.attempts, cfg)
      && next.high == Higher(w.high, next.disk.cursor)
  {
    SmoothRoundPosts(w, cfg, baseline, r);
  }

  /** A smooth round does not change where delivery will end, and takes a batch off the backlog until it does. */
  lemma {:induction false} AdvancedKeepsStop(rows: seq<Row>, cursor: nat, seen: seq<bool>, cfg: Config)
    requires Ascending(rows) && Sound(cfg) && cursor <= MaxRowid(rows)
    ensures var next := Advanced(rows, cursor, seen, cfg);
      var batch := if MaxRowid(rows) <= cursor then [] else Batch(rows, cursor, cfg.batchCap);
      && StopsAt(rows, next, seen + DecodeRun(batch, cfg.reader), cfg) == StopsAt(rows, cursor, seen, cfg)
      && (next == StopsAt(rows, cursor, seen, cfg) || |Above(rows, next)| + cfg.batchCap <= |Above(rows, cursor)|)
  {
    if MaxRowid(rows) <= cursor {
      assert seen + DecodeRun([], cfg.reader) == seen;
    } else {
      var batch := Batch(rows, cursor, cfg.batchCap);
      BacklogAfterBatch(rows, cursor, cfg.batchCap);
      BatchRows(rows, cursor, cfg.batchCap);
      var run := DecodeRun(batch, cfg.reader);
      if TailRun(seen + run) >= cfg.driftThreshold {
        LatchHolds(seen, run, cfg.driftThreshold);
      } else {
        NoBacklogAtMax(rows, batch[|batch| - 1].rowid);
      }
    }
  }

  lemma {:induction false} SmoothRoundOnRun(w: World, cfg: Config, baseline: nat, r: Round)
    requires Inv(w, cfg, baseline) && Sound(cfg) && w.running.Some? && Smooth(r)
    ensures var next := Next(w, cfg, Tick(r));
      var stop := StopsAt(w.rows, w.disk.cursor, w.attempts, cfg);
      && next.rows == w.rows && next.running.Some? && Inv(next, cfg, baseline)
      && next.high == Higher(w.high, next.disk.cursor) && w.disk.cursor <= next.disk.cursor
      && StopsAt(next.rows, next.disk.cursor, next.attempts, cfg) == stop
      && (next.disk.cursor == stop || Backlog(next) + cfg.batchCap <= Backlog(w))
  {
    StepKeepsInv(w, cfg, baseline, Tick(r));
    SmoothRoundMovesCursor(w, cfg, baseline, r);
    AdvancedKeepsStop(w.rows, w.disk.cursor, w.attempts, cfg);
  }

  lemma {:induction false} SmoothRoundsReachStop(w: World, cfg: Config, baseline: nat, rounds: seq<Round>)
    requires Inv(w, cfg, baseline) && Sound(cfg) && w.running.Some?
    requires forall i :: 0 <= i < |rounds| ==> Smooth(rounds[i])
    ensures var end := Run(w, cfg, Ticks(rounds));
      var stop := StopsAt(w.rows, w.disk.cursor, w.attempts, cfg);
      && end.rows == w.rows && end.running.Some? && Inv(end, cfg, baseline)
      && end.high == Higher(w.high, end.disk.cursor) && w.disk.cursor <= end.disk.cursor
      && StopsAt(end.rows, end.disk.cursor, end.attempts, cfg) == stop
      && (end.disk.cursor == stop || Backlog(end) + |rounds| * cfg.batchCap <= Backlog(w))
  {
    if rounds != [] {
      var n := |rounds| - 1;
      SmoothRoundsReachStop(w, cfg, baseline, rounds[..n]);
      var before := Run(w, cfg, Ticks(rounds[..n]));
      SmoothRoundOnRun(before, cfg, baseline, rounds[n]);
      LastRound(w, cfg, rounds);
      assert |rounds| * cfg.batchCap == n * cfg.batchCap + cfg.batchCap;
    }
  }

  lemma {:induction false} LastRound(w: World, cfg: Config, rounds: seq<Round>)
    requires rounds != []
    ensures var n := |rounds| - 1;
      var before := Run(w, cfg, Ticks(rounds[..n]));
      Run(w, cfg, Ticks(rounds)) == if before.running.Some? then Next(before, cfg, Tick(rounds[n])) else before
  {
    var n := |rounds| - 1;
    assert Ticks(rounds)[..n] == Ticks(rounds[..n]);
  }

  /**
   From any state a run can be in, a restart and enough smooth rounds bring the cursor to
   where delivery stops, and no further rounds move it: the server has every row above
   the baseline up to there, or up to what it had. It has them all exactly when that is
   the newest row, and delivery gets there exactly when no batch of the backlog ends in
   as many failed decodes as stop the decoder.
   */
  lemma {:induction false} CatchesUp(w: World, cfg: Config, baseline: nat, first: Round, rounds: seq<Round>)
    requires Inv(w, cfg, baseline) && Sound(cfg)
    requires forall i :: 0 <= i < |rounds| ==> Smooth(rounds[i])
    requires |rounds| * cfg.batchCap > Backlog(w)
    ensures var end := Run(Restarted(w, cfg, first), cfg, Ticks(rounds));
      var stop := StopsAt(w.rows, w.disk.cursor, [], cfg);
      && end.disk.cursor == stop
      && end.accepted == Guids(w.rows, baseline, Higher(w.high, stop))
      && (stop == MaxRowid(w.rows) <==> NoBatchLatches(Above(w.rows, w.disk.cursor), [], cfg))
      && (stop == MaxRowid(w.rows) ==> end.accepted == Guids(w.rows, baseline, MaxRowid(w.rows)))
  {
    SmoothRoundsReachStop(Restarted(w, cfg, first), cfg, baseline, rounds);
    ReachesNewestExactly(w.rows, w.disk.cursor, [], cfg);
  }

  function Restarted(w: World, cfg: Config, first: Round): World {
    var down := w.(running := None);
    Next(down, cfg, Start(first))
  }

  predicate TwoAndTwo(cfg: Config, good: Blob, bad: Blob) {
    && cfg.batchCap == 2 && cfg.driftThreshold == 2
    && cfg.reader.decode(good).Decoded? && !cfg.reader.decode(bad).Decoded?
  }

  function Bodied(rowid: nat, guid: string, body: Blob): Row { Row(rowid, guid, false, None, Some(body), None, None) }

  lemma {:induction false} TwoAttempts(a: Row, b: Row, reader: Reader)
    requires Attempts(a) && Attempts(b)
    ensures DecodeRun([a, b], reader) == [DecodeFails(a, reader), DecodeFails(b, reader)]
  {
    assert [a, b] == [a] + [b] && [a][..0] == [] && [b][..0] == [];
    DecodeRunJoins([a], [b], reader);
  }

  lemma TailOfTwo(x: bool, y: bool)
    ensures TailRun([x, y]) == if !y then 0 else if !x then 1 else 2
  {
    var one, two := [x], [x, y];
    assert one[..|one| - 1] == [] && two[..|two| - 1] == one;
    assert TailRun(one) == if x then 1 else 0;
  }

  /** Two bodies that cannot be read between two that can. */
  function FourRows(good: Blob, bad: Blob): seq<Row> {
    [Bodied(1, "a", good), Bodied(2, "b", bad), Bodied(3, "c", bad), Bodied(4, "d", good)]
  }

  lemma FourRowsInBatches(good: Blob, bad: Blob)
    ensures var rows := FourRows(good, bad);
      && Ascending(rows) && MaxRowid(rows) == 4
      && Batch(rows, 0, 2) == [rows[0], rows[1]] && Batch(rows, 2, 2) == [rows[2], rows[3]]
      && Batch(rows, 1, 2) == [rows[1], rows[2]]
  {
    var rows := FourRows(good, bad);
    assert Above(rows, 0) == rows;
    assert Above(rows, 1) == rows[1..];
    assert rows[1..][1..] == rows[2..] && Above(rows[1..], 2) == Above(rows[2..], 2) == rows[2..];
    assert Above(rows, 2) == rows[2..];
  }

  /**
   Where the batches fall decides: a readable body, two that are not, and a readable one
   are all delivered from the first in batches of two, and not from the second.
   */
  lemma {:induction false} RestartCanLatch(cfg: Config, good: Blob, bad: Blob)
    requires TwoAndTwo(cfg, good, bad)
    ensures var rows := FourRows(good, bad);
      && Ascending(rows) && MaxRowid(rows) == 4
      && StopsAt(rows, 0, [], cfg) == 4 && StopsAt(rows, 1, [], cfg) == 1
  {
    var rows := FourRows(good, bad);
    FourRowsInBatches(good, bad);
    TwoAttempts(rows[0], rows[1], cfg.reader);
    TwoAttempts(rows[1], rows[2], cfg.reader);
    TwoAttempts(rows[2], rows[3], cfg.reader);
    TailOfTwo(false, true);
    TailOfTwo(true, true);
    assert [] + [false, true] == [false, true] && [] + [true, true] == [true, true];
    assert [true, false][1] == false && ([false, true] + [true, false])[3] == false;
    assert StopsAt(rows, 4, [false, true] + [true, false], cfg) == 4;
    assert StopsAt(rows, 2, [false, true], cfg) == 4;
  }

  lemma {:induction false} RunOneMore(w: World, cfg: Config, steps: seq<Step>, s: Step)
    requires Enabled(Run(w, cfg, steps), s)
    ensures Run(w, cfg, steps + [s]) == Next(Run(w, cfg, steps), cfg, s)
  {
    assert (steps + [s])[..|steps|] == steps;
  }

  /** The sensor starts and delivers the first of the four rows, and then the others arrive. */
  function Interrupted(good: Blob, bad: Blob, r: Round): seq<Step> {
    var rows := FourRows(good, bad);
    [Start(r)] + [Tick(r)] + [Append(rows[1])] + [Append(rows[2])] + [Append(rows[3])]
  }

  lemma {:induction false} FirstRowDelivered(cfg: Config, good: Blob, bad: Blob, disk: Persisted, r: Round)
    requires TwoAndTwo(cfg, good, bad) && disk.cursor == 0 && Smooth(r)
    ensures var one := [FourRows(good, bad)[0]];
      var b := Run(First(one, disk), cfg, [Start(r)] + [Tick(r)]);
      b.rows == one && b.running.Some? && b.disk.cursor == b.high == 1 && Inv(b, cfg, 0)
  {
    var one := [FourRows(good, bad)[0]];
    var w := First(one, disk);
    assert Guids(one, 0, 0) == {} && Run(w, cfg, []) == w;
    RunOneMore(w, cfg, [], Start(r));
    assert [] + [Start(r)] == [Start(r)];
    StepKeepsInv(w, cfg, 0, Start(r));
    var a := Next(w, cfg, Start(r));
    RunOneMore(w, cfg, [Start(r)], Tick(r));
    StepKeepsInv(a, cfg, 0, Tick(r));
    SmoothRoundMovesCursor(a, cfg, 0, r);
    OneRowAdvances(cfg, good, bad);
  }

  lemma OneRowAdvances(cfg: Config, good: Blob, bad: Blob)
    requires TwoAndTwo(cfg, good, bad)
    ensures Advanced([FourRows(good, bad)[0]], 0, [], cfg) == 1
  {
    var one := [FourRows(good, bad)[0]];
    assert Above(one, 0) == one && Batch(one, 0, 2) == one;
    assert one[..|one| - 1] == [];
    assert DecodeRun(one, cfg.reader) == [false] && [] + [false] == [false];
  }

  lemma {:induction false} InterruptedRun(cfg: Config, good: Blob, bad: Blob, disk: Persisted, r: Round)
    requires TwoAndTwo(cfg, good, bad) && disk.cursor == 0 && Smooth(r)
    ensures var rows := FourRows(good, bad);
      var w := Run(First([rows[0]], disk), cfg, Interrupted(good, bad, r));
      w.rows == rows && w.disk.cursor == w.high == 1 && Inv(w, cfg, 0)
  {
    FirstRowDelivered(cfg, good, bad, disk, r);
    var rows := FourRows(good, bad);
    var first := First([rows[0]], disk);
    var steps := [Start(r)] + [Tick(r)];
    var b := Run(first, cfg, steps);
    RunOneMore(first, cfg, steps, Append(rows[1]));
    StepKeepsInv(b, cfg, 0, Append(rows[1]));
    var c := Next(b, cfg, Append(rows[1]));
    RunOneMore(first, cfg, steps + [Append(rows[1])], Append(rows[2]));
    StepKeepsInv(c, cfg, 0, Append(rows[2]));
    var d := Next(c, cfg, Append(rows[2]));
    RunOneMore(first, cfg, steps + [Append(rows[1])] + [Append(rows[2])], Append(rows[3]));
    StepKeepsInv(d, cfg, 0, Append(rows[3]));
    assert [rows[0]] + [rows[1]] + [rows[2]] + [rows[3]] == rows;
  }

  /**
   Two runs over those rows. One sensor delivers the first, the others arrive, it starts
   again and never delivers more, however often it polls; one that finds all four at once
   delivers all four.
   */
  lemma {:induction false} RestartDeliversLess(cfg: Config, good: Blob, bad: Blob, disk: Persisted, r: Round, rounds: seq<Round>)
    requires TwoAndTwo(cfg, good, bad) && disk.cursor == 0 && Smooth(r) && |rounds| >= 3
    requires forall i :: 0 <= i < |rounds| ==> Smooth(rounds[i])
    ensures var rows := FourRows(good, bad);
      var w := Run(First([rows[0]], disk), cfg, Interrupted(good, bad, r));
      && w.rows == rows && Ascending(rows)
      && Run(Restarted(w, cfg, r), cfg, Ticks(rounds)).accepted == {"a"}
      && Run(Restarted(First(rows, disk), cfg, r), cfg, Ticks(rounds)).accepted == {"a", "b", "c", "d"}
  {
    var rows := FourRows(good, bad);
    var w := Run(First([rows[0]], disk), cfg, Interrupted(good, bad, r));
    InterruptedRun(cfg, good, bad, disk, r);
    RestartCanLatch(cfg, good, bad);
    FourBacklogs(good, bad);
    CatchesUp(w, cfg, 0, r, rounds);
    CatchesUp(First(rows, disk), cfg, 0, r, rounds);
  }

  lemma FourBacklogs(good: Blob, bad: Blob)
    ensures var rows := FourRows(good, bad);
      && |Above(rows, 0)| == 4 && |Above(rows, 1)| == 3
      && Guids(rows, 0, 0) == {} && Guids(rows, 0, 1) == {"a"} && Guids(rows, 0, 4) == {"a", "b", "c", "d"}
  {
    var rows := FourRows(good, bad);
    assert Above(rows, 0) == rows;
    assert Above(rows, 1) == rows[1..];
    assert GuidOf(rows[0]) == "a" && GuidOf(rows[1]) == "b" && GuidOf(rows[2]) == "c" && GuidOf(rows[3]) == "d";
    assert forall row :: row in rows <==> row == rows[0] || row == rows[1] || row == rows[2] || row == rows[3];
  }

  predicate DistinctGuids(rows: seq<Row>) {
    forall i, j :: 0 <= i < j < |rows| ==> GuidOf(rows[i]) != GuidOf(rows[j])
  }

  predicate NoneBetween(rows: seq<Row>, low: nat, high: nat) { forall row | row in rows :: !(low < row.rowid <= high) }

  /** Two intervals from one baseline hold the same guids exactly when no row tells them apart. */
  lemma SameIntervalExactly(rows: seq<Row>, baseline: nat, a: nat, b: nat)
    requires DistinctGuids(rows) && baseline <= a && baseline <= b
    ensures Guids(rows, baseline, a) == Guids(rows, baseline, b) <==> NoneBetween(rows, a, b) && NoneBetween(rows, b, a)
  {
    forall row | row in rows && (a < row.rowid <= b || b < row.rowid <= a)
      ensures GuidOf(row) in Guids(rows, baseline, Higher(a, b))
      ensures GuidOf(row) !in Guids(rows, baseline, if a < b then a else b)
    {
    }
  }

  /**
   At-least-once with deduplication against one uninterrupted delivery from the
   baseline. Both end where the decoder lets them: the broken run has delivered the same
   exactly when no row lies between the two ends, and so whenever neither latches.
   */
  lemma {:induction false} BrokenRunEqualsUninterrupted(
      rows: seq<Row>, disk: Persisted, cfg: Config, steps: seq<Step>,
      first: Round, rounds: seq<Round>, calmFirst: Round, calmRounds: seq<Round>)
    requires Ascending(rows) && disk.cursor <= MaxRowid(rows) && Sound(cfg)
    requires forall i :: 0 <= i < |rounds| ==> Smooth(rounds[i])
    requires forall i :: 0 <= i < |calmRounds| ==> Smooth(calmRounds[i])
    requires var w := Run(First(rows, disk), cfg, steps);
      && DistinctGuids(w.rows)
      && |rounds| * cfg.batchCap > Backlog(w)
      && |calmRounds| * cfg.batchCap > |Above(w.rows, disk.cursor)|
    ensures var w := Run(First(rows, disk), cfg, steps);
      var broken := Run(Restarted(w, cfg, first), cfg, Ticks(rounds)).accepted;
      var calm := Run(Restarted(First(w.rows, disk), cfg, calmFirst), cfg, Ticks(calmRounds)).accepted;
      && Ascending(w.rows)
      && var here, there := Higher(w.high, StopsAt(w.rows, w.disk.cursor, [], cfg)), StopsAt(w.rows, disk.cursor, [], cfg);
         && (broken == calm <==> NoneBetween(w.rows, here, there) && NoneBetween(w.rows, there, here))
         && (NoBatchLatches(Above(w.rows, w.disk.cursor), [], cfg) && NoBatchLatches(Above(w.rows, disk.cursor), [], cfg)
             ==> broken == calm)
  {
    assert Guids(rows, disk.cursor, disk.cursor) == {};
    RunKeepsInv(First(rows, disk), cfg, disk.cursor, steps);
    var w := Run(First(rows, disk), cfg, steps);
    CatchesUp(w, cfg, disk.cursor, first, rounds);
    assert Guids(w.rows, disk.cursor, disk.cursor) == {};
    CatchesUp(First(w.rows, disk), cfg, disk.cursor, calmFirst, calmRounds);
    SameIntervalExactly(w.rows, disk.cursor, Higher(w.high, StopsAt(w.rows, w.disk.cursor, [], cfg)),
                        StopsAt(w.rows, disk.cursor, [], cfg));
  }

  // ---------------------------------------------------------------- the pace of the heartbeat

  /** The clock the process keeps is that of the last answer, and answers it did not force lie a period apart. */
  predicate IsPaced(answered: seq<Pulse>, periodMs: int) {
    forall i :: 0 < i < |answered| && !answered[i].forced ==> answered[i].at >= answered[i - 1].at + periodMs
  }

  function LastAnswer(answered: seq<Pulse>): Option<int> {
    if answered == [] then None else Some(answered[|answered| - 1].at)
  }

  predicate Paced(w: World, cfg: Config) {
    && (w.running.Some? ==> w.running.value.lastHeartbeatAt == LastAnswer(w.answered))
    && IsPaced(w.answered, cfg.heartbeatMs)
  }

  lemma OneMorePulse(answered: seq<Pulse>, more: seq<Pulse>, periodMs: int)
    requires |more| <= 1 && IsPaced(answered, periodMs)
    requires more != [] && answered != [] && !more[0].forced ==> more[0].at >= answered[|answered| - 1].at + periodMs
    ensures IsPaced(answered + more, periodMs)
  {
  }

  lemma TickKeepsPace(w: World, cfg: Config, r: Round)
    requires w.running.Some? && w.running.value.state.cursor <= MaxRowid(w.rows) && Paced(w, cfg)
    ensures Paced(Next(w, cfg, Tick(r)), cfg)
  {
    BeatsExactly(w.running.value, cfg, EnvOf(w, r));
    var beat := RunCycle(w.running.value, cfg, EnvOf(w, r)).beat;
    OneMorePulse(w.answered, AnsweredBeat(beat, r), cfg.heartbeatMs);
  }

  /**
   Over any run of a process: between an answered heartbeat and the next that is answered
   unforced, at least a period passes.
   */
  lemma {:induction false} BeatsArePaced(rows: seq<Row>, disk: Persisted, cfg: Config, steps: seq<Step>)
    requires Ascending(rows) && disk.cursor <= MaxRowid(rows) && Sound(cfg)
    ensures Paced(Run(First(rows, disk), cfg, steps), cfg)
  {
    if steps != [] {
      var n := |steps| - 1;
      BeatsArePaced(rows, disk, cfg, steps[..n]);
      assert Guids(rows, disk.cursor, disk.cursor) == {};
      RunKeepsInv(First(rows, disk), cfg, disk.cursor, steps[..n]);
      var before := Run(First(rows, disk), cfg, steps[..n]);
      if steps[n].Tick? && before.running.Some? { TickKeepsPace(before, cfg, steps[n].round); }
    }
  }

  /** And no longer: after any cycle the last answer is younger than a period, or the cycle attempted a heartbeat. */
  lemma {:induction false} NoCycleIsLate(rows: seq<Row>, disk: Persisted, cfg: Config, steps: seq<Step>, r: Round)
    requires Ascending(rows) && disk.cursor <= MaxRowid(rows) && Sound(cfg)
    requires Run(First(rows, disk), cfg, steps).running.Some?
    ensures var w := Run(First(rows, disk), cfg, steps);
      || RunCycle(w.running.value, cfg, EnvOf(w, r)).beat.Some?
      || (w.answered != [] && r.now < w.answered[|w.answered| - 1].at + cfg.heartbeatMs)
  {
    BeatsArePaced(rows, disk, cfg, steps);
    var w := Run(First(rows, disk), cfg, steps);
    BeatsExactly(w.running.value, cfg, EnvOf(w, r));
  }

  // ---------------------------------------------------------------- what the cursor dimension shows

  /** The counter after a poll of this batch. */
  function FailuresAfter(stored: nat, run: seq<bool>): nat { if false in run then TailRun(run) else stored + |run| }

  /** The decode attempts of the batch a cycle polls. */
  function NextRun(rows: seq<Row>, cursor: nat, cfg: Config): seq<bool> {
    if MaxRowid(rows) <= cursor then [] else DecodeRun(Batch(rows, cursor, cfg.batchCap), cfg.reader)
  }

  /** This cycle's poll stops the decoder. */
  predicate Latches(ctx: Context, rows: seq<Row>, cfg: Config) {
    FailuresAfter(ctx.decodeFailures, NextRun(rows, ctx.state.cursor, cfg)) >= cfg.driftThreshold
  }

  lemma {:induction false} AllFailed(run: seq<bool>)
    ensures false !in run ==> Failures(run) == |run|
  {
    if run != [] { AllFailed(run[..|run| - 1]); }
  }

  /** The cursor dimension after a cycle, from what the cycle is given. */
  function CursorHealth(ctx: Context, rows: seq<Row>, cfg: Config, r: Round): Dim {
    if !r.opens || !r.schemaOk then ctx.health.cursor
    else if MaxRowid(rows) <= ctx.state.cursor then Healthy
    else if Latches(ctx, rows, cfg) then Degraded
    else if r.acknowledged then Healthy
    else ctx.health.cursor
  }

  lemma CursorHealthOfCycle(ctx: Context, cfg: Config, w: World, r: Round)
    requires ctx.state.cursor <= MaxRowid(w.rows) && Ascending(w.rows) && Sound(cfg)
    ensures var c := RunCycle(ctx, cfg, EnvOf(w, r));
      && c.ctx.health.cursor == CursorHealth(ctx, w.rows, cfg, r)
      && (c.ctx.state.cursor == ctx.state.cursor <==>
          !r.opens || !r.schemaOk || MaxRowid(w.rows) <= ctx.state.cursor || Latches(ctx, w.rows, cfg) || !r.acknowledged)
  {
    var chat := ChatOf(w, r);
    if r.opens && r.schemaOk {
      BatchIsContiguous(chat, ctx.state.cursor, cfg.batchCap, ctx.paired, cfg.reader);
      var poll := Poll(chat, ctx.state.cursor, cfg.batchCap, ctx.paired, cfg.reader);
      AllFailed(NextRun(w.rows, ctx.state.cursor, cfg));
      assert NextFailures(ctx.decodeFailures, poll) == FailuresAfter(ctx.decodeFailures, NextRun(w.rows, ctx.state.cursor, cfg));
      CycleIsPost(ctx, cfg, w, r);
      PostShape(AfterPoll(ctx, cfg, chat, poll), cfg, EnvOf(w, r), chat, poll);
      PostHealth(AfterPoll(ctx, cfg, chat, poll), cfg, EnvOf(w, r), chat, poll);
    } else {
      CycleIsBlind(ctx, cfg, w, r);
    }
  }

  /** The cycle left the cursor where it was, below the newest row. */
  predicate Stuck(ctx: Context, cfg: Config, w: World, r: Round) {
    RunCycle(ctx, cfg, EnvOf(w, r)).ctx.state.cursor == ctx.state.cursor < MaxRowid(w.rows)
  }

  /**
   The promise that a cursor stuck below the newest row does not read healthy. It is
   broken exactly in a cycle that starts below the newest row with the dimension still
   healthy, and then cannot read the database, or polls without stopping the decoder and
   has its post refused: those paths return before the dimension is computed.
   */
  lemma CursorHealthExactly(ctx: Context, cfg: Config, w: World, r: Round)
    requires Ascending(w.rows) && Sound(cfg)
    ensures (Stuck(ctx, cfg, w, r) ==> RunCycle(ctx, cfg, EnvOf(w, r)).ctx.health.cursor != Healthy) <==>
      !(ctx.health.cursor == Healthy && ctx.state.cursor < MaxRowid(w.rows)
        && (!r.opens || !r.schemaOk || (!Latches(ctx, w.rows, cfg) && !r.acknowledged)))
  {
    if ctx.state.cursor <= MaxRowid(w.rows) {
      CursorHealthOfCycle(ctx, cfg, w, r);
    }
  }

  lemma PostHealth(ctx: Context, cfg: Config, env: Surroundings, chat: Chat, poll: PollOutcome)
    requires poll.events == [] ==> poll.maxRowid <= ctx.state.cursor
    ensures var c := PostAndAudit(ctx, cfg, env, chat, poll, false);
      && (c.outcome.failed <==> c.posted.Some? && !env.postAccepted)
      && c.ctx.decoderStopped == ctx.decoderStopped
      && c.ctx.health.cursor
         == if c.outcome.failed then ctx.health.cursor
            else if ctx.decoderStopped && c.ctx.state.cursor < poll.maxRowid then Degraded else Healthy
  {
  }

  /** The counter after so many polls of one batch. */
  function CounterAfter(stored: nat, run: seq<bool>, n: nat): nat {
    if n == 0 then stored else if false in run then TailRun(run) else stored + n * |run|
  }

  lemma CounterGrows(stored: nat, run: seq<bool>, n: nat)
    ensures FailuresAfter(CounterAfter(stored, run, n), run) == CounterAfter(stored, run, n + 1)
    ensures n > 0 ==> CounterAfter(stored, run, n) <= CounterAfter(stored, run, n + 1)
  {
    assert (n + 1) * |run| == n * |run| + |run|;
  }

  lemma {:induction false} FailuresAreTail(seen: seq<bool>, run: seq<bool>)
    ensures TailRun(seen + run) == FailuresAfter(TailRun(seen), run)
  {
    TailRunOfConcat(seen, run);
  }

  /**
   Refused posts alone: the cursor stands still below the newest row, and after any
   number of rounds its dimension still reads healthy exactly when the failed decodes of
   re-reading the one batch have not stopped the decoder.
   */
  lemma {:induction false} RefusedPostsReadHealthyExactly(w: World, cfg: Config, baseline: nat, rounds: seq<Round>)
    requires Inv(w, cfg, baseline) && Sound(cfg) && w.running.Some?
    requires w.running.value.health.cursor == Healthy && w.disk.cursor < MaxRowid(w.rows)
    requires forall i :: 0 <= i < |rounds| ==> rounds[i].opens && rounds[i].schemaOk && !rounds[i].acknowledged
    ensures var end := Run(w, cfg, Ticks(rounds));
      var counter := CounterAfter(TailRun(w.attempts), NextRun(w.rows, w.disk.cursor, cfg), |rounds|);
      && Inv(end, cfg, baseline) && end.running.Some? && end.rows == w.rows && end.disk == w.disk
      && TailRun(end.attempts) == counter
      && (end.running.value.health.cursor == Healthy <==> rounds == [] || counter < cfg.driftThreshold)
  {
    if rounds != [] {
      var n := |rounds| - 1;
      RefusedPostsReadHealthyExactly(w, cfg, baseline, rounds[..n]);
      LastRound(w, cfg, rounds);
      var before := Run(w, cfg, Ticks(rounds[..n]));
      var run := NextRun(w.rows, w.disk.cursor, cfg);
      RefusedRound(before, cfg, baseline, rounds[n]);
      CounterGrows(TailRun(w.attempts), run, n);
      FailuresAreTail(before.attempts, run);
    }
  }

  lemma RefusedRound(w: World, cfg: Config, baseline: nat, r: Round)
    requires Inv(w, cfg, baseline) && Sound(cfg) && w.running.Some? && w.disk.cursor < MaxRowid(w.rows)
    requires r.opens && r.schemaOk && !r.acknowledged
    ensures var next := Next(w, cfg, Tick(r));
      var run := NextRun(w.rows, w.disk.cursor, cfg);
      && Inv(next, cfg, baseline) && next.running.Some? && next.rows == w.rows && next.disk == w.disk
      && next.attempts == w.attempts + run
      && next.running.value.health.cursor ==
         if FailuresAfter(TailRun(w.attempts), run) >= cfg.driftThreshold then Degraded else w.running.value.health.cursor
  {
    StepKeepsInv(w, cfg, baseline, Tick(r));
    CycleShape(w.running.value, cfg, w, r);
    CursorHealthOfCycle(w.running.value, cfg, w, r);
  }
}
