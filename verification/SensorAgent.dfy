/**
 The sensor loop (apps/imessage-sensor/src/agent.ts): one cycle polls, posts the
 batch, and moves the persisted cursor only after the server said yes.
 */
module SensorAgent {
  import opened Prelude
  import opened PairedHandles
  import opened SensorPoll

  datatype Dim = Healthy | Degraded | Failed

  datatype Health = Health(process: Dim, database: Dim, decoder: Dim, cursor: Dim, shadow: Dim)

  /** The state file. */
  datatype Persisted = Persisted(
    cursor: nat, generation: Option<string>, fingerprint: Option<string>, everOwnObserved: bool)

  datatype Rebaseline = ExplicitMaxRowid | At(rowid: nat)

  datatype Config = Config(
    heartbeatMs: int, driftThreshold: nat, batchCap: nat, rebaseline: Option<Rebaseline>, reader: Reader)

  /** What the health endpoint answered; its body is the paired-handle configuration. */
  datatype HealthReply = Answered(body: Body) | Unanswered

  /** What the outside does during one cycle; chat is None when chat.db does not open. */
  datatype Surroundings = Surroundings(now: int, chat: Option<Chat>, postAccepted: bool, reply: HealthReply)

  /** CycleContext: what the loop keeps in memory. */
  datatype Context = Context(
    state: Persisted, health: Health, decodeFailures: nat, decoderStopped: bool, resetAlerted: bool,
    lastHeartbeatAt: Option<int>, schemaDrift: bool, ingestFailing: bool, paired: set<string>)

  datatype Outcome = Outcome(ingested: bool, rows: nat, resetDetected: bool, rebaselined: bool, failed: bool)

  /** A cycle's effect: the batch it posted, the state it saved, the health reply it got, if any. */
  datatype Cycle = Cycle(
    ctx: Context, outcome: Outcome, posted: Option<seq<Event>>, saved: Option<Persisted>, beat: Option<HealthReply>)

  // ---------------------------------------------------------------- the specification

  function HandlesOfReply(reply: HealthReply): seq<string> {
    if reply.Answered? then HandlesOf(reply.body) else []
  }

  predicate Due(ctx: Context, cfg: Config, now: int) {
    ctx.lastHeartbeatAt.None? || now - ctx.lastHeartbeatAt.value >= cfg.heartbeatMs
  }

  /** `heartbeat`: a post when forced or due, whose reply always decides the cache. */
  function Beat(ctx: Context, cfg: Config, env: Surroundings, force: bool): Context {
    if !force && !Due(ctx, cfg, env.now) then ctx
    else
      ctx.(paired := NormalizedSet(HandlesOfReply(env.reply), cfg.reader.lower),
           lastHeartbeatAt := if env.reply.Answered? then Some(env.now) else ctx.lastHeartbeatAt)
  }

  function BeatReply(ctx: Context, cfg: Config, env: Surroundings, force: bool): Option<HealthReply> {
    if force || Due(ctx, cfg, env.now) then Some(env.reply) else None
  }

  function Attempt(reply: Option<HealthReply>, now: int): seq<(int, HealthReply)> {
    if reply.Some? then [(now, reply.value)] else []
  }

  predicate ResetSeen(ctx: Context, chat: Chat) { MaxRowid(chat.rows) < ctx.state.cursor }

  function RebaselineTarget(ack: Rebaseline, maxRowid: nat): nat {
    match ack
    case ExplicitMaxRowid => maxRowid
    case At(rowid) => if rowid <= maxRowid then rowid else maxRowid
  }

  /** The context after an acknowledged reset. */
  function AfterRebaseline(ctx: Context, ack: Rebaseline, chat: Chat): Context {
    ctx.(state := ctx.state.(cursor := RebaselineTarget(ack, MaxRowid(chat.rows)),
                             generation := Some(chat.generation), fingerprint := Some(chat.fingerprint)),
         resetAlerted := false)
  }

  predicate Drifted(ctx: Context, chat: Chat) {
    ctx.state.fingerprint.Some? && ctx.state.fingerprint.value != chat.fingerprint
  }

  /** The context after a poll's counters and the health they decide. */
  function AfterPoll(ctx: Context, cfg: Config, chat: Chat, poll: PollOutcome): Context {
    var failures := NextFailures(ctx.decodeFailures, poll);
    var stopped := failures >= cfg.driftThreshold;
    ctx.(decodeFailures := failures, decoderStopped := stopped, schemaDrift := Drifted(ctx, chat),
         health := ctx.health.(
           decoder :=
             if stopped then Failed
             else if poll.decodeAttempted > 0 && failures > 0 then Degraded
             else Healthy,
           database := if Drifted(ctx, chat) then Degraded else Healthy))
  }

  function AfterAccept(ctx: Context, chat: Chat, poll: PollOutcome): Context {
    ctx.(ingestFailing := false,
         state := Persisted(poll.cursor, Some(chat.generation), Some(chat.fingerprint),
                            ctx.state.everOwnObserved || poll.ownObserved))
  }

  /** The last two dimensions, computed at the end of a cycle that reaches it. */
  function AfterAudit(ctx: Context, poll: PollOutcome): Context {
    ctx.(health := ctx.health.(
           cursor :=
             if ctx.state.cursor < poll.maxRowid && (ctx.decoderStopped || ctx.ingestFailing)
             then Degraded else Healthy,
           shadow := if ctx.state.everOwnObserved && !poll.ownDecodeFailure then Healthy else Degraded))
  }

  /** From the schema gate on. */
  function CycleFrom(ctx: Context, cfg: Config, env: Surroundings, chat: Chat, rebaselined: bool): Cycle {
    var saved := if rebaselined then Some(ctx.state) else None;
    if !chat.schemaOk then
      var blind := ctx.(health := ctx.health.(database := Failed));
      Cycle(Beat(blind, cfg, env, false), Outcome(false, 0, false, rebaselined, true), None, saved,
            BeatReply(blind, cfg, env, false))
    else
      var poll := Poll(chat, ctx.state.cursor, cfg.batchCap, ctx.paired, cfg.reader);
      PostAndAudit(AfterPoll(ctx, cfg, chat, poll), cfg, env, chat, poll, rebaselined)
  }

  /** From the post on, with the counters already updated. */
  function PostAndAudit(ctx: Context, cfg: Config, env: Surroundings, chat: Chat, poll: PollOutcome, rebaselined: bool): Cycle {
    var saved := if rebaselined then Some(ctx.state) else None;
    if poll.events == [] || ctx.decoderStopped then
      var audited := AfterAudit(ctx, poll);
      Cycle(Beat(audited, cfg, env, false), Outcome(false, 0, false, rebaselined, false), None, saved,
            BeatReply(audited, cfg, env, false))
    else if env.postAccepted then
      var accepted := AfterAccept(ctx, chat, poll);
      var audited := AfterAudit(accepted, poll);
      Cycle(Beat(audited, cfg, env, false), Outcome(true, |poll.events|, false, rebaselined, false),
            Some(poll.events), Some(accepted.state), BeatReply(audited, cfg, env, false))
    else
      var refused := ctx.(ingestFailing := true);
      Cycle(Beat(refused, cfg, env, false), Outcome(false, |poll.events|, false, rebaselined, true),
            Some(poll.events), saved, BeatReply(refused, cfg, env, false))
  }

  function RunCycle(ctx: Context, cfg: Config, env: Surroundings): Cycle {
    if env.chat.None? then
      var closed := ctx.(health := ctx.health.(database := Failed));
      Cycle(Beat(closed, cfg, env, true), Outcome(false, 0, false, false, true), None, None, Some(env.reply))
    else if ResetSeen(ctx, env.chat.value) then
      if cfg.rebaseline.None? then
        var alerted := ctx.(resetAlerted := true, health := ctx.health.(cursor := Failed));
        Cycle(Beat(alerted, cfg, env, true), Outcome(false, 0, true, false, true), None, None, Some(env.reply))
      else
        CycleFrom(AfterRebaseline(ctx, cfg.rebaseline.value, env.chat.value), cfg, env, env.chat.value, true)
    else
      CycleFrom(ctx, cfg, env, env.chat.value, false)
  }

  /** A cycle with this heartbeat, from the clock and the handles it started with. */
  predicate BeatsAs(c: Cycle, last: Option<int>, paired: set<string>, cfg: Config, env: Surroundings, always: bool) {
    && (c.beat.Some? <==> always || last.None? || env.now >= last.value + cfg.heartbeatMs)
    && (c.beat.Some? ==> c.beat.value == env.reply)
    && c.ctx.lastHeartbeatAt == (if c.beat.Some? && env.reply.Answered? then Some(env.now) else last)
    && c.ctx.paired == if c.beat.Some? then NormalizedSet(HandlesOfReply(env.reply), cfg.reader.lower) else paired
  }

  lemma PostBeats(ctx: Context, cfg: Config, env: Surroundings, chat: Chat, poll: PollOutcome, rebaselined: bool)
    ensures BeatsAs(PostAndAudit(ctx, cfg, env, chat, poll, rebaselined), ctx.lastHeartbeatAt, ctx.paired, cfg, env, false)
  {
  }

  lemma CycleBeats(ctx: Context, cfg: Config, env: Surroundings, chat: Chat, rebaselined: bool)
    ensures BeatsAs(CycleFrom(ctx, cfg, env, chat, rebaselined), ctx.lastHeartbeatAt, ctx.paired, cfg, env, false)
  {
    if chat.schemaOk {
      var poll := Poll(chat, ctx.state.cursor, cfg.batchCap, ctx.paired, cfg.reader);
      PostBeats(AfterPoll(ctx, cfg, chat, poll), cfg, env, chat, poll, rebaselined);
    }
  }

  /**
   When a cycle attempts a heartbeat, from the clocks alone: always when the database does
   not open or a reset is not acknowledged, and otherwise exactly when none was ever
   answered or the last one answered is at least a period old. An answer starts the
   period anew, and every attempt decides the paired handles.
   */
  lemma BeatsExactly(ctx: Context, cfg: Config, env: Surroundings)
    ensures BeatsAs(RunCycle(ctx, cfg, env), ctx.lastHeartbeatAt, ctx.paired, cfg, env,
      env.chat.None? || (MaxRowid(env.chat.value.rows) < ctx.state.cursor && cfg.rebaseline.None?))
  {
    if env.chat.Some? && !(MaxRowid(env.chat.value.rows) < ctx.state.cursor) {
      CycleBeats(ctx, cfg, env, env.chat.value, false);
    } else if env.chat.Some? && cfg.rebaseline.Some? {
      CycleBeats(AfterRebaseline(ctx, cfg.rebaseline.value, env.chat.value), cfg, env, env.chat.value, true);
    }
  }

  /** The database lost rows below the cursor. */
  predicate IsReset(ctx: Context, env: Surroundings) {
    env.chat.Some? && MaxRowid(env.chat.value.rows) < ctx.state.cursor
  }

  lemma PostOutcome(ctx: Context, cfg: Config, env: Surroundings, chat: Chat, poll: PollOutcome, rebaselined: bool)
    ensures var c := PostAndAudit(ctx, cfg, env, chat, poll, rebaselined);
      && c.outcome == Outcome(c.posted.Some? && env.postAccepted, if c.posted.Some? then |c.posted.value| else 0, false, rebaselined,
                              c.posted.Some? && !env.postAccepted)
      && (c.posted.Some? ==> c.posted.value == poll.events != [])
  {
  }

  /** What a cycle reports, from what it met and what it posted. */
  lemma OutcomeExactly(ctx: Context, cfg: Config, env: Surroundings)
    ensures var c := RunCycle(ctx, cfg, env);
      && (c.outcome.resetDetected <==> IsReset(ctx, env) && cfg.rebaseline.None?)
      && (c.outcome.rebaselined <==> IsReset(ctx, env) && cfg.rebaseline.Some?)
      && (c.outcome.ingested <==> c.posted.Some? && env.postAccepted)
      && c.outcome.rows == (if c.posted.Some? then |c.posted.value| else 0)
      && (c.outcome.failed <==>
          || env.chat.None? || !env.chat.value.schemaOk || (IsReset(ctx, env) && cfg.rebaseline.None?)
          || (c.posted.Some? && !env.postAccepted))
  {
    if env.chat.Some? && env.chat.value.schemaOk && (!IsReset(ctx, env) || cfg.rebaseline.Some?) {
      var chat := env.chat.value;
      var from := if IsReset(ctx, env) then AfterRebaseline(ctx, cfg.rebaseline.value, chat) else ctx;
      var poll := Poll(chat, from.state.cursor, cfg.batchCap, from.paired, cfg.reader);
      PostOutcome(AfterPoll(from, cfg, chat, poll), cfg, env, chat, poll, IsReset(ctx, env));
    }
  }

  /** An acknowledged reset puts the cursor where it is asked for, but not above the newest row, and clears the alert. */
  lemma RebaselineExactly(ctx: Context, ack: Rebaseline, chat: Chat)
    ensures var after := AfterRebaseline(ctx, ack, chat);
      && after.state.generation == Some(chat.generation) && after.state.fingerprint == Some(chat.fingerprint)
      && !after.resetAlerted && after.state.everOwnObserved == ctx.state.everOwnObserved
      && after.state.cursor <= MaxRowid(chat.rows)
      && (ack.ExplicitMaxRowid? ==> after.state.cursor == MaxRowid(chat.rows))
      && (ack.At? ==> after.state.cursor <= ack.rowid && after.state.cursor in {ack.rowid, MaxRowid(chat.rows)})
  {
  }

  /** What the batch of a cycle comes to for the health it shows. */
  lemma PostHealthDims(ctx: Context, cfg: Config, env: Surroundings, chat: Chat, poll: PollOutcome, rebaselined: bool)
    ensures var c := PostAndAudit(ctx, cfg, env, chat, poll, rebaselined);
      && c.ctx.health.process == ctx.health.process && c.ctx.health.database == ctx.health.database
      && c.ctx.health.decoder == ctx.health.decoder && c.ctx.decodeFailures == ctx.decodeFailures
      && c.ctx.state.everOwnObserved == (ctx.state.everOwnObserved || (c.outcome.ingested && poll.ownObserved))
      && c.ctx.health.shadow ==
         if c.outcome.failed then ctx.health.shadow
         else if c.ctx.state.everOwnObserved && !poll.ownDecodeFailure then Healthy else Degraded
  {
    if poll.events == [] || ctx.decoderStopped {
      BeatKeeps(AfterAudit(ctx, poll), cfg, env, false);
    } else if env.postAccepted {
      BeatKeeps(AfterAudit(AfterAccept(ctx, chat, poll), poll), cfg, env, false);
    } else {
      BeatKeeps(ctx.(ingestFailing := true), cfg, env, false);
    }
  }

  lemma BeatKeeps(ctx: Context, cfg: Config, env: Surroundings, force: bool)
    ensures var b := Beat(ctx, cfg, env, force);
      b.health == ctx.health && b.state == ctx.state && b.decodeFailures == ctx.decodeFailures
  {
  }

  /** The batch a readable database gives. */
  function Read(ctx: Context, cfg: Config, chat: Chat): seq<Row> {
    if MaxRowid(chat.rows) <= ctx.state.cursor then [] else Batch(chat.rows, ctx.state.cursor, cfg.batchCap)
  }

  /**
   The health after a cycle, from the rows it read. The database has failed when it cannot
   be read and is degraded when its schema is not the stored one; the decoder has failed
   at the threshold and is degraded while this batch was decoded and the last attempt
   failed; the shadow dimension asks for own messages observed and none undecodable.
   */
  lemma HealthExactly(ctx: Context, cfg: Config, env: Surroundings)
    requires env.chat.Some? && !IsReset(ctx, env)
    ensures var c, chat := RunCycle(ctx, cfg, env), env.chat.value;
      if !chat.schemaOk then c.ctx.health == ctx.health.(database := Failed)
      else
        var batch := Read(ctx, cfg, chat);
        && c.ctx.health.process == ctx.health.process
        && c.ctx.health.database ==
           (if ctx.state.fingerprint == None || ctx.state.fingerprint == Some(chat.fingerprint) then Healthy else Degraded)
        && c.ctx.health.decoder ==
           (if c.ctx.decodeFailures >= cfg.driftThreshold then Failed
            else if DecodeRun(batch, cfg.reader) != [] && c.ctx.decodeFailures != 0 then Degraded else Healthy)
        && (!c.outcome.failed ==>
              (c.ctx.health.shadow == Healthy <==> c.ctx.state.everOwnObserved && !OwnDecodeFailure(batch, cfg.reader))
              && c.ctx.health.shadow in {Healthy, Degraded})
        && c.ctx.state.everOwnObserved == (ctx.state.everOwnObserved || (c.outcome.ingested && OwnObserved(batch, cfg.reader)))
  {
    var chat := env.chat.value;
    if chat.schemaOk {
      var poll := Poll(chat, ctx.state.cursor, cfg.batchCap, ctx.paired, cfg.reader);
      PostHealthDims(AfterPoll(ctx, cfg, chat, poll), cfg, env, chat, poll, false);
    }
  }

  /** And when there is nothing to read. */
  lemma HealthUnread(ctx: Context, cfg: Config, env: Surroundings)
    ensures env.chat.None? ==> RunCycle(ctx, cfg, env).ctx.health == ctx.health.(database := Failed)
    ensures IsReset(ctx, env) && cfg.rebaseline.None? ==>
      RunCycle(ctx, cfg, env).ctx.health == ctx.health.(cursor := Failed) && RunCycle(ctx, cfg, env).ctx.resetAlerted
  {
  }

  /** The context a started process begins with, before its startup heartbeat. */
  function Fresh(state: Persisted): Context {
    Context(state,
            Health(Healthy, Healthy, Healthy, Healthy, if state.everOwnObserved then Healthy else Degraded),
            0, false, false, None, false, false, {})
  }

  function Started(state: Persisted, cfg: Config, env: Surroundings): Context {
    Beat(Fresh(state), cfg, env, true)
  }

  // ---------------------------------------------------------------- the agent

  class Agent {
    const cfg: Config
    const cache: PairedHandleCache
    var state: Persisted
    var health: Health
    var decodeFailures: nat
    var decoderStopped: bool
    var resetAlerted: bool
    var lastHeartbeatAt: Option<int>
    var schemaDrift: bool
    var ingestFailing: bool
    /** The state file. */
    var disk: Persisted
    /** The heartbeats attempted, with their clocks and replies. */
    ghost var beats: seq<(int, HealthReply)>

    ghost predicate Valid()
      reads this, cache
    {
      cache.lower == cfg.reader.lower
    }

    ghost function View(): Context
      reads this, cache
    {
      Context(state, health, decodeFailures, decoderStopped, resetAlerted,
              lastHeartbeatAt, schemaDrift, ingestFailing, cache.normalized)
    }

    constructor (cfg: Config, loaded: Persisted, env: Surroundings)
      ensures Valid() && fresh(cache)
      ensures View() == Started(loaded, cfg, env) && disk == loaded && this.cfg == cfg
      ensures beats == [(env.now, env.reply)]
    {
      this.cfg := cfg;
      cache := new PairedHandleCache(cfg.reader.lower);
      state, disk := loaded, loaded;
      health := Fresh(loaded).health;
      decodeFailures, decoderStopped, resetAlerted := 0, false, false;
      lastHeartbeatAt, schemaDrift, ingestFailing := None, false, false;
      beats := [];
      new;
      Heartbeat(env, true);
    }

    method Heartbeat(env: Surroundings, force: bool)
      requires Valid()
      modifies this`lastHeartbeatAt, this`beats, cache
      ensures Valid() && View() == Beat(old(View()), cfg, env, force)
      ensures beats == old(beats) + Attempt(BeatReply(old(View()), cfg, env, force), env.now)
    {
      var due := lastHeartbeatAt.None? || env.now - lastHeartbeatAt.value >= cfg.heartbeatMs;
      if !force && !due {
        return;
      }
      beats := beats + [(env.now, env.reply)];
      if env.reply.Answered? {
        lastHeartbeatAt := Some(env.now);
        var parsed := ParsePairedHandlesBody(env.reply.body);
        if parsed.Handles? {
          cache.Refresh(parsed.handles);
        } else {
          cache.Refresh([]);
        }
      } else {
        cache.Refresh([]);
      }
    }

    method Cycle(env: Surroundings) returns (outcome: Outcome, posted: Option<seq<Event>>)
      requires Valid()
      modifies this, cache
      ensures Valid()
      ensures var c := RunCycle(old(View()), cfg, env);
        && View() == c.ctx && outcome == c.outcome && posted == c.posted
        && beats == old(beats) + Attempt(c.beat, env.now)
        && disk == if c.saved.Some? then c.saved.value else old(disk)
    {
      posted := None;
      if env.chat.None? {
        health := health.(database := Failed);
        Heartbeat(env, true);
        return Outcome(false, 0, false, false, true), posted;
      }
      var chat := env.chat.value;
      var rebaselined := false;
      if MaxRowid(chat.rows) < state.cursor {
        if cfg.rebaseline.Some? {
          var target := RebaselineTarget(cfg.rebaseline.value, MaxRowid(chat.rows));
          state := state.(cursor := target, generation := Some(chat.generation), fingerprint := Some(chat.fingerprint));
          disk := state;
          resetAlerted := false;
          rebaselined := true;
        } else {
          resetAlerted := true;
          health := health.(cursor := Failed);
          Heartbeat(env, true);
          return Outcome(false, 0, true, false, true), posted;
        }
      }
      outcome, posted := PollAndPost(env, chat, rebaselined);
    }

    method PollAndPost(env: Surroundings, chat: Chat, rebaselined: bool)
      returns (outcome: Outcome, posted: Option<seq<Event>>)
      requires Valid() && (rebaselined ==> disk == state)
      modifies this, cache
      ensures Valid()
      ensures var c := CycleFrom(old(View()), cfg, env, chat, rebaselined);
        && View() == c.ctx && outcome == c.outcome && posted == c.posted
        && beats == old(beats) + Attempt(c.beat, env.now)
        && disk == if c.saved.Some? then c.saved.value else old(disk)
    {
      posted := None;
      if !chat.schemaOk {
        health := health.(database := Failed);
        Heartbeat(env, false);
        return Outcome(false, 0, false, rebaselined, true), posted;
      }
      var poll := PollAndCount(chat);
      outcome, posted := Post(env, chat, poll, rebaselined);
    }

    method PollAndCount(chat: Chat) returns (poll: PollOutcome)
      requires Valid()
      modifies this`schemaDrift, this`decodeFailures, this`decoderStopped, this`health
      ensures poll == Poll(chat, state.cursor, cfg.batchCap, cache.normalized, cfg.reader)
      ensures View() == AfterPoll(old(View()), cfg, chat, poll)
    {
      poll := PollOnce(chat, state.cursor, cfg.batchCap, cache.normalized, cfg.reader);
      Settle(chat, poll);
    }

    /** What a poll decides about the database and the decoder. */
    method Settle(chat: Chat, poll: PollOutcome)
      requires Valid()
      modifies this`schemaDrift, this`decodeFailures, this`decoderStopped, this`health
      ensures View() == AfterPoll(old(View()), cfg, chat, poll)
    {
      schemaDrift := state.fingerprint.Some? && state.fingerprint.value != chat.fingerprint;
      Count(poll);
      health := health.(database := if schemaDrift then Degraded else Healthy);
    }

    method Post(env: Surroundings, chat: Chat, poll: PollOutcome, rebaselined: bool)
      returns (outcome: Outcome, posted: Option<seq<Event>>)
      requires Valid() && (rebaselined ==> disk == state)
      modifies this, cache
      ensures Valid()
      ensures var c := PostAndAudit(old(View()), cfg, env, chat, poll, rebaselined);
        && View() == c.ctx && outcome == c.outcome && posted == c.posted
        && beats == old(beats) + Attempt(c.beat, env.now)
        && disk == if c.saved.Some? then c.saved.value else old(disk)
    {
      posted := None;
      if |poll.events| > 0 && !decoderStopped {
        posted := Some(poll.events);
        if env.postAccepted {
          ingestFailing := false;
          state := Persisted(poll.cursor, Some(chat.generation), Some(chat.fingerprint),
                             state.everOwnObserved || poll.ownObserved);
          disk := state;
          outcome := Outcome(true, |poll.events|, false, rebaselined, false);
        } else {
          ingestFailing := true;
          Heartbeat(env, false);
          return Outcome(false, |poll.events|, false, rebaselined, true), posted;
        }
      } else {
        outcome := Outcome(false, 0, false, rebaselined, false);
      }
      Audit(poll);
      Heartbeat(env, false);
    }

    /** The drift counter, its latch and the decoder dimension. */
    method Count(poll: PollOutcome)
      modifies this`decodeFailures, this`decoderStopped, this`health
      ensures decodeFailures == NextFailures(old(decodeFailures), poll)
      ensures decoderStopped == (decodeFailures >= cfg.driftThreshold)
      ensures health == old(health).(decoder :=
        if decoderStopped then Failed
        else if poll.decodeAttempted > 0 && decodeFailures > 0 then Degraded
        else Healthy)
    {
      decodeFailures := if poll.hasDecodeSuccess then poll.tailRun else decodeFailures + poll.decodeFailed;
      if decodeFailures >= cfg.driftThreshold {
        if !decoderStopped {
          decoderStopped := true;
        }
      } else if decoderStopped && decodeFailures < cfg.driftThreshold {
        decoderStopped := false;
      }
      var dim := if decoderStopped then Failed
                 else if poll.decodeAttempted == 0 then Healthy
                 else if decodeFailures > 0 then Degraded else Healthy;
      health := health.(decoder := dim);
    }

    /** The cursor and shadow dimensions. */
    method Audit(poll: PollOutcome)
      modifies this`health
      ensures View() == AfterAudit(old(View()), poll)
    {
      var stuckBelowMax := state.cursor < poll.maxRowid;
      var cursorDim := if stuckBelowMax && (decoderStopped || ingestFailing) then Degraded else Healthy;
      health := health.(cursor := cursorDim);
      var shadowDim := if state.everOwnObserved then
                         (if poll.ownDecodeFailure then Degraded else Healthy)
                       else Degraded;
      health := health.(shadow := shadowDim);
    }
  }
}
