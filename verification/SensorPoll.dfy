/**
 The read half of the iMessage sensor (apps/imessage-sensor/src/poll.ts): one
 batch of rows above the cursor, classified to wire events, with the counters the
 drift detector runs on. The attributed-body decoder is a parameter.
 */
module SensorPoll {
  import opened Prelude
  import opened CanonicalText
  import opened PairedHandles
  import opened Trimming

  type Blob = seq<bv8>

  /** A row of chat.db; an absent text or body is None. */
  datatype Row = Row(
    rowid: nat, guid: string, isFromMe: bool, text: Option<string>, body: Option<Blob>,
    service: Option<string>, handle: Option<string>)

  datatype Decoded = Decoded(text: string) | UnknownArchive | MalformedBody

  /** What classification takes from outside. */
  datatype Reader = Reader(platform: Platform, lower: Lowercase, decode: Blob -> Decoded)

  datatype Status = Ok | OwnOk | SkippedMalformed | SkippedUnknown | NotAttempted

  datatype Event = Event(
    guid: string, rowid: nat, isFromMe: bool, handle: string, service: Option<string>,
    hasText: bool, hasBody: bool, status: Status, textLength: Option<nat>,
    ownHash: Option<string>, content: Option<string>, pairingHash: Option<string>)

  datatype Classification = Classification(event: Event, attempted: bool, failed: bool)

  // ---------------------------------------------------------------- one row

  const CAP := 4000

  /** capContent, in UTF-16 units. */
  function CapContent(text: string): (r: string)
    ensures CodeUnits(r) <= CAP && (CodeUnits(text) <= CAP ==> r == text)
  {
    MarkerUnits();
    CutTo(text, CAP, 14, TRUNCATION_MARKER)
  }

  function Decimal(n: nat): string {
    (if n < 10 then "" else Decimal(n / 10)) + ["0123456789"[n % 10]]
  }

  /** The identity the server deduplicates on. */
  function GuidOf(row: Row): string {
    if row.guid != "" then row.guid else "rowid:" + Decimal(row.rowid)
  }

  function Utf8Length(s: string): nat {
    if s == "" then 0
    else
      (if s[0] < '\U{80}' then 1 else if s[0] < '\U{800}' then 2
       else if s[0] < '\U{10000}' then 3 else 4) + Utf8Length(s[1..])
  }

  predicate HasText(row: Row) { row.text.Some? && row.text.value != "" }

  /** The decoder runs only when there is a body and no text. */
  predicate Attempts(row: Row) { !HasText(row) && row.body.Some? }

  predicate DecodeFails(row: Row, reader: Reader) {
    Attempts(row) && !reader.decode(row.body.value).Decoded?
  }

  /** The text a row carries, if it can be had at all. */
  function ContentOf(row: Row, reader: Reader): Option<string> {
    if HasText(row) then Some(CapContent(row.text.value))
    else if row.body.Some? && reader.decode(row.body.value).Decoded? then
      Some(CapContent(reader.decode(row.body.value).text))
    else None
  }

  function StatusOf(row: Row, reader: Reader): Status {
    if ContentOf(row, reader).Some? then (if row.isFromMe then OwnOk else Status.Ok)
    else if row.body.None? then NotAttempted
    else if reader.decode(row.body.value).UnknownArchive? then SkippedUnknown
    else SkippedMalformed
  }

  predicate IsPaired(row: Row, paired: set<string>, reader: Reader) {
    !row.isFromMe && Has(paired, row.handle, reader.lower)
  }

  function EventOf(row: Row, paired: set<string>, reader: Reader): Event {
    var content := ContentOf(row, reader);
    var hash := if content.None? then None else Some(CanonicalHash(content.value, reader.platform));
    Event(
      GuidOf(row), row.rowid, row.isFromMe,
      if row.handle.Some? && row.handle.value != "" then
        SliceUnits(row.handle.value, 255)
      else "unknown",
      row.service, HasText(row), row.body.Some?, StatusOf(row, reader),
      if content.None? then None else Some(Utf8Length(content.value)),
      if row.isFromMe then hash else None,
      if IsPaired(row, paired, reader) then content else None,
      if row.isFromMe || IsPaired(row, paired, reader) then None else hash)
  }

  method ClassifyRow(row: Row, paired: set<string>, reader: Reader) returns (r: Classification)
    ensures r == Classification(EventOf(row, paired, reader), Attempts(row), DecodeFails(row, reader))
  {
    var hasText := row.text.Some? && row.text.value != "";
    var content := if hasText then Some(CapContent(row.text.value)) else None;
    var status := NotAttempted;
    var decodeAttempted, decodeFailed := false, false;
    if content.None? && row.body.Some? {
      decodeAttempted := true;
      var result := reader.decode(row.body.value);
      if result.Decoded? {
        content := Some(CapContent(result.text));
      } else {
        decodeFailed := true;
        status := if result.UnknownArchive? then SkippedUnknown else SkippedMalformed;
      }
    }
    if content.Some? {
      status := if row.isFromMe then OwnOk else Status.Ok;
    }
    var pairedRow := !row.isFromMe && content.Some? && Has(paired, row.handle, reader.lower);
    var unpairedRow := !row.isFromMe && content.Some? && !pairedRow;
    var event := Event(
      if |row.guid| > 0 then row.guid else "rowid:" + Decimal(row.rowid),
      row.rowid, row.isFromMe,
      if row.handle.Some? && row.handle.value != "" then
        SliceUnits(row.handle.value, 255)
      else "unknown",
      row.service, hasText, row.body.Some?, status,
      if content.Some? then Some(Utf8Length(content.value)) else None,
      if row.isFromMe && content.Some? then Some(CanonicalHash(content.value, reader.platform)) else None,
      if pairedRow then content else None,
      if unpairedRow then Some(CanonicalHash(content.value, reader.platform)) else None);
    r := Classification(event, decodeAttempted, decodeFailed);
  }

  /** The text of a row, from what it holds: its own, or what its body decodes to. */
  function TextFrom(row: Row, reader: Reader): Option<string> {
    if row.text.Some? && |row.text.value| > 0 then row.text
    else if row.body.None? then None
    else match reader.decode(row.body.value)
      case Decoded(text) => Some(text)
      case _ => None
  }

  /**
   What a row becomes, from its columns. The decoder runs on a body without a text; an own
   row and another's are told apart in the status, and a body that does not decode by
   what the decoder found.
   */
  lemma EventExactly(row: Row, paired: set<string>, reader: Reader)
    ensures var e, text := EventOf(row, paired, reader), TextFrom(row, reader);
      && e.guid == (if row.guid == "" then "rowid:" + Decimal(row.rowid) else row.guid)
      && e.rowid == row.rowid && e.isFromMe == row.isFromMe && e.service == row.service
      && e.handle == (if row.handle in {None, Some("")} then "unknown" else SliceUnits(row.handle.value, 255))
      && e.hasText == (row.text !in {None, Some("")}) && e.hasBody == (row.body != None)
      && (e.textLength.Some? <==> text.Some?) && (text.Some? ==> e.textLength == Some(Utf8Length(CapContent(text.value))))
      && (e.status.OwnOk? <==> text.Some? && row.isFromMe) && (e.status.Ok? <==> text.Some? && !row.isFromMe)
      && (e.status.NotAttempted? <==> text.None? && row.body.None?)
      && (e.status.SkippedUnknown? <==> text.None? && row.body.Some? && reader.decode(row.body.value).UnknownArchive?)
      && (e.status.SkippedMalformed? <==> text.None? && row.body.Some? && reader.decode(row.body.value).MalformedBody?)
    ensures Attempts(row) <==> row.text in {None, Some("")} && row.body.Some?
    ensures DecodeFails(row, reader) <==>
      row.text in {None, Some("")} && row.body.Some? && reader.decode(row.body.value) in {UnknownArchive, MalformedBody}
  {
  }

  /** Row ids in decimal, and lengths in UTF-8 at the ends of its four ranges. */
  lemma NumberSamples()
    ensures Decimal(0) == "0" && Decimal(9) == "9" && Decimal(10) == "10" && Decimal(407) == "407"
    ensures Utf8Length("") == 0 && Utf8Length("a\U{7f}") == 2 && Utf8Length("\U{80}") == Utf8Length("\U{7ff}") == 2
    ensures Utf8Length("\U{800}") == Utf8Length("\U{ffff}") == 3 && Utf8Length("\U{10000}") == 4
  {
    assert Decimal(40) == "40";
    assert "a\U{7f}"[1..] == "\U{7f}";
  }

  function Count(o: Option<string>): nat { if o.Some? then 1 else 0 }

  /**
   The content rule: a row with content is forwarded with exactly one of content,
   own hash and pairing hash, and its content leaves only when somebody else wrote
   it from a paired handle.
   */
  lemma ContentRule(row: Row, paired: set<string>, reader: Reader)
    ensures var e := EventOf(row, paired, reader);
      && Count(e.content) + Count(e.ownHash) + Count(e.pairingHash) == Count(ContentOf(row, reader))
      && (e.content.Some? <==>
            ContentOf(row, reader).Some? && !row.isFromMe && Has(paired, row.handle, reader.lower))
      && (e.ownHash.Some? <==> ContentOf(row, reader).Some? && row.isFromMe)
      && (e.content.Some? ==> e.content == ContentOf(row, reader) && CodeUnits(e.content.value) <= CAP)
  {
  }

  // ---------------------------------------------------------------- a batch

  datatype Chat = Chat(rows: seq<Row>, schemaOk: bool, fingerprint: string, generation: string)

  predicate Ascending(rows: seq<Row>) {
    forall i, j :: 0 <= i < j < |rows| ==> rows[i].rowid < rows[j].rowid
  }

  function MaxRowid(rows: seq<Row>): nat { if rows == [] then 0 else rows[|rows| - 1].rowid }

  /** The rows above the cursor. */
  function Above(rows: seq<Row>, cursor: nat): seq<Row> {
    if rows == [] || rows[0].rowid > cursor then rows else Above(rows[1..], cursor)
  }

  /** `readBatch`: the first `cap` rows above the cursor. */
  function Batch(rows: seq<Row>, cursor: nat, cap: nat): seq<Row> {
    var above := Above(rows, cursor);
    if |above| <= cap then above else above[..cap]
  }

  function EventsOf(rows: seq<Row>, paired: set<string>, reader: Reader): (r: seq<Event>)
    ensures |r| == |rows|
    ensures forall i :: 0 <= i < |rows| ==> r[i] == EventOf(rows[i], paired, reader)
  {
    seq(|rows|, i requires 0 <= i < |rows| => EventOf(rows[i], paired, reader))
  }

  /** The decode attempts of a batch in order: true for a failure. */
  function DecodeRun(rows: seq<Row>, reader: Reader): seq<bool> {
    if rows == [] then []
    else
      var n := |rows| - 1;
      DecodeRun(rows[..n], reader) + (if Attempts(rows[n]) then [DecodeFails(rows[n], reader)] else [])
  }

  function Failures(run: seq<bool>): nat {
    if run == [] then 0
    else Failures(run[..|run| - 1]) + (if run[|run| - 1] then 1 else 0)
  }

  /** The failures after the last success. */
  function TailRun(run: seq<bool>): nat {
    if run == [] || !run[|run| - 1] then 0 else 1 + TailRun(run[..|run| - 1])
  }

  predicate OwnObserved(rows: seq<Row>, reader: Reader) {
    exists i :: 0 <= i < |rows| && rows[i].isFromMe && ContentOf(rows[i], reader).Some?
  }

  predicate OwnDecodeFailure(rows: seq<Row>, reader: Reader) {
    exists i :: 0 <= i < |rows| && rows[i].isFromMe && DecodeFails(rows[i], reader)
  }

  datatype PollOutcome = PollOutcome(
    events: seq<Event>, cursor: nat, maxRowid: nat, decodeAttempted: nat, decodeFailed: nat,
    hasDecodeSuccess: bool, tailRun: nat, ownObserved: bool, ownDecodeFailure: bool)

  /** What a batch comes to. */
  function Outcome(rows: seq<Row>, cursor: nat, maxRowid: nat, paired: set<string>, reader: Reader): PollOutcome {
    var run := DecodeRun(rows, reader);
    PollOutcome(
      EventsOf(rows, paired, reader),
      if rows == [] then cursor else rows[|rows| - 1].rowid,
      maxRowid, |run|, Failures(run), false in run, TailRun(run),
      OwnObserved(rows, reader), OwnDecodeFailure(rows, reader))
  }

  function Poll(chat: Chat, cursor: nat, cap: nat, paired: set<string>, reader: Reader): PollOutcome {
    var maxRowid := MaxRowid(chat.rows);
    Outcome(if maxRowid <= cursor then [] else Batch(chat.rows, cursor, cap), cursor, maxRowid, paired, reader)
  }

  method PollOnce(chat: Chat, cursor: nat, cap: nat, paired: set<string>, reader: Reader)
    returns (r: PollOutcome)
    ensures r == Poll(chat, cursor, cap, paired, reader)
  {
    var maxRowid := MaxRowid(chat.rows);
    if maxRowid <= cursor {
      return PollOutcome([], cursor, maxRowid, 0, 0, false, 0, false, false);
    }
    var rows := Batch(chat.rows, cursor, cap);
    r := PollBatch(rows, cursor, maxRowid, paired, reader);
  }

  method PollBatch(rows: seq<Row>, cursor: nat, maxRowid: nat, paired: set<string>, reader: Reader)
    returns (r: PollOutcome)
    ensures r == Outcome(rows, cursor, maxRowid, paired, reader)
  {
    var decodeAttempted, decodeFailed, hasDecodeSuccess := 0, 0, false;
    var failureRun, tailRun := 0, 0;
    var ownObserved, ownDecodeFailure := false, false;
    var events := [];
    for i := 0 to |rows|
      invariant events == EventsOf(rows[..i], paired, reader)
      invariant decodeAttempted == |DecodeRun(rows[..i], reader)|
      invariant decodeFailed == Failures(DecodeRun(rows[..i], reader))
      invariant hasDecodeSuccess == (false in DecodeRun(rows[..i], reader))
      invariant failureRun == tailRun == TailRun(DecodeRun(rows[..i], reader))
      invariant ownObserved == OwnObserved(rows[..i], reader)
      invariant ownDecodeFailure == OwnDecodeFailure(rows[..i], reader)
    {
      var row := rows[i];
      var classified := ClassifyRow(row, paired, reader);
      EventsOfOneMore(rows, i, paired, reader);
      RunOfOneMore(rows, i, reader);
      OwnFlagsOfOneMore(rows, i, paired, reader);
      if classified.attempted {
        decodeAttempted := decodeAttempted + 1;
        if classified.failed {
          decodeFailed := decodeFailed + 1;
          failureRun := failureRun + 1;
          tailRun := failureRun;
          if row.isFromMe {
            ownDecodeFailure := true;
          }
        } else {
          hasDecodeSuccess := true;
          failureRun := 0;
          tailRun := 0;
        }
      }
      if row.isFromMe && classified.event.status == OwnOk {
        ownObserved := true;
      }
      events := events + [classified.event];
    }
    assert rows[..|rows|] == rows;
    r := PollOutcome(
      events, if |rows| > 0 then rows[|rows| - 1].rowid else cursor, maxRowid, decodeAttempted,
      decodeFailed, hasDecodeSuccess, tailRun, ownObserved, ownDecodeFailure);
  }

  lemma EventsOfOneMore(rows: seq<Row>, i: nat, paired: set<string>, reader: Reader)
    requires i < |rows|
    ensures EventsOf(rows[..i + 1], paired, reader)
         == EventsOf(rows[..i], paired, reader) + [EventOf(rows[i], paired, reader)]
  {
  }

  lemma {:induction false} RunOfOneMore(rows: seq<Row>, i: nat, reader: Reader)
    requires i < |rows|
    ensures var before, after := DecodeRun(rows[..i], reader), DecodeRun(rows[..i + 1], reader);
      if !Attempts(rows[i]) then after == before
      else
        var fails := DecodeFails(rows[i], reader);
        && |after| == |before| + 1
        && Failures(after) == Failures(before) + (if fails then 1 else 0)
        && TailRun(after) == (if fails then TailRun(before) + 1 else 0)
        && ((false in after) == (false in before || !fails))
  {
    var before := DecodeRun(rows[..i], reader);
    assert rows[..i + 1][..i] == rows[..i];
    if Attempts(rows[i]) {
      var after := before + [DecodeFails(rows[i], reader)];
      assert DecodeRun(rows[..i + 1], reader) == after;
      assert after[..|before|] == before;
    }
  }

  lemma OwnFlagsOfOneMore(rows: seq<Row>, i: nat, paired: set<string>, reader: Reader)
    requires i < |rows|
    ensures OwnObserved(rows[..i + 1], reader)
         == (OwnObserved(rows[..i], reader) || (rows[i].isFromMe && EventOf(rows[i], paired, reader).status == OwnOk))
    ensures OwnDecodeFailure(rows[..i + 1], reader)
         == (OwnDecodeFailure(rows[..i], reader) || (rows[i].isFromMe && DecodeFails(rows[i], reader)))
  {
    var more, less := rows[..i + 1], rows[..i];
    assert forall j :: 0 <= j < i ==> more[j] == less[j];
    assert more[i] == rows[i];
  }

  // ------------------------------------------------- the drift counter's arithmetic

  /** What the agent does to its stored counter after a poll. */
  function NextFailures(stored: nat, poll: PollOutcome): nat {
    if poll.hasDecodeSuccess then poll.tailRun else stored + poll.decodeFailed
  }

  lemma {:induction false} AllFailures(run: seq<bool>)
    requires false !in run
    ensures Failures(run) == |run|
  {
    if run != [] {
      AllFailures(run[..|run| - 1]);
    }
  }

  lemma {:induction false} TailRunOfConcat(seen: seq<bool>, run: seq<bool>)
    ensures TailRun(seen + run) == if false in run then TailRun(run) else TailRun(seen) + |run|
  {
    if run == [] {
      assert seen + run == seen;
    } else {
      var n := |run| - 1;
      assert (seen + run)[..|seen + run| - 1] == seen + run[..n];
      assert false in run <==> (false in run[..n] || !run[n]);
      TailRunOfConcat(seen, run[..n]);
    }
  }

  /** The stored counter follows the trailing failure run of the whole stream of attempts. */
  lemma {:induction false} CounterFollowsStream(seen: seq<bool>, batch: seq<Row>, reader: Reader, poll: PollOutcome)
    requires var run := DecodeRun(batch, reader);
      poll.decodeFailed == Failures(run) && poll.hasDecodeSuccess == (false in run) && poll.tailRun == TailRun(run)
    ensures NextFailures(TailRun(seen), poll) == TailRun(seen + DecodeRun(batch, reader))
  {
    var run := DecodeRun(batch, reader);
    TailRunOfConcat(seen, run);
    if false !in run {
      AllFailures(run);
    }
  }

  // ---------------------------------------------------------------- what a batch covers

  lemma {:induction false} AboveIsTheRest(rows: seq<Row>, cursor: nat)
    requires Ascending(rows)
    ensures exists k :: SplitsAt(rows, cursor, k)
  {
    if rows == [] || rows[0].rowid > cursor {
      assert rows[0..] == rows;
      assert SplitsAt(rows, cursor, 0);
    } else {
      AboveIsTheRest(rows[1..], cursor);
      var k :| SplitsAt(rows[1..], cursor, k);
      assert rows[1..][k..] == rows[k + 1..];
      assert forall i :: 1 <= i < |rows| ==> rows[i] == rows[1..][i - 1];
      assert SplitsAt(rows, cursor, k + 1);
    }
  }

  /** The rows up to the cursor are the first k. */
  predicate SplitsAt(rows: seq<Row>, cursor: nat, k: int) {
    && 0 <= k <= |rows| && Above(rows, cursor) == rows[k..]
    && (forall i :: 0 <= i < k ==> rows[i].rowid <= cursor)
    && (forall i :: k <= i < |rows| ==> cursor < rows[i].rowid)
  }

  /** The identities of the rows in (low, high]. */
  function Guids(rows: seq<Row>, low: nat, high: nat): set<string> {
    set row | row in rows && low < row.rowid <= high :: GuidOf(row)
  }

  function EventGuids(events: seq<Event>): set<string> {
    set e | e in events :: e.guid
  }

  /** A batch carries exactly the rows between the old cursor and the new one. */
  lemma BatchIsContiguous(chat: Chat, cursor: nat, cap: nat, paired: set<string>, reader: Reader)
    requires Ascending(chat.rows) && cap > 0
    ensures var poll := Poll(chat, cursor, cap, paired, reader);
      && EventGuids(poll.events) == Guids(chat.rows, cursor, poll.cursor)
      && cursor <= poll.cursor
      && (poll.events == [] <==> MaxRowid(chat.rows) <= cursor)
      && (poll.events != [] ==> cursor < poll.cursor <= MaxRowid(chat.rows))
  {
    if MaxRowid(chat.rows) > cursor {
      var batch := Batch(chat.rows, cursor, cap);
      BatchRows(chat.rows, cursor, cap);
      EventGuidsOfRows(batch, paired, reader);
    } else {
      assert EventsOf([], paired, reader) == [];
    }
  }

  /** The batch is the slice of rows that follows the cursor. */
  lemma BatchIsSlice(rows: seq<Row>, cursor: nat, cap: nat, k: nat)
    requires SplitsAt(rows, cursor, k) && k <= |rows|
    ensures var n := if |rows| - k <= cap then |rows| - k else cap;
      Batch(rows, cursor, cap) == rows[k..k + n]
  {
    var above := Above(rows, cursor);
    var n := if |rows| - k <= cap then |rows| - k else cap;
    assert |above| == |rows| - k;
    assert above[..n] == rows[k..k + n];
  }

  /** A non-empty batch is all the rows after the cursor up to its last. */
  predicate FollowsCursor(rows: seq<Row>, cursor: nat, batch: seq<Row>) {
    && batch != []
    && cursor < batch[|batch| - 1].rowid <= MaxRowid(rows)
    && (set row | row in batch :: GuidOf(row)) == Guids(rows, cursor, batch[|batch| - 1].rowid)
  }

  lemma BatchRows(rows: seq<Row>, cursor: nat, cap: nat)
    requires Ascending(rows) && cap > 0 && MaxRowid(rows) > cursor
    ensures FollowsCursor(rows, cursor, Batch(rows, cursor, cap))
  {
    var k, m := SliceOf(rows, cursor, cap);
    SliceRows(rows, cursor, k, m);
  }

  lemma SliceOf(rows: seq<Row>, cursor: nat, cap: nat) returns (k: nat, m: nat)
    requires Ascending(rows) && cap > 0 && MaxRowid(rows) > cursor
    ensures SplitsAt(rows, cursor, k) && k < m <= |rows| && Batch(rows, cursor, cap) == rows[k..m]
  {
    AboveIsTheRest(rows, cursor);
    k :| SplitsAt(rows, cursor, k);
    RestIsNotEmpty(rows, cursor, k);
    BatchIsSlice(rows, cursor, cap, k);
    m := k + if |rows| - k <= cap then |rows| - k else cap;
  }

  lemma RestIsNotEmpty(rows: seq<Row>, cursor: nat, k: nat)
    requires SplitsAt(rows, cursor, k) && MaxRowid(rows) > cursor
    ensures k < |rows|
  {
  }

  lemma SliceRows(rows: seq<Row>, cursor: nat, k: nat, m: nat)
    requires Ascending(rows) && SplitsAt(rows, cursor, k) && k < m <= |rows|
    ensures FollowsCursor(rows, cursor, rows[k..m])
  {
    assert rows[k..m][m - k - 1] == rows[m - 1];
    SliceIsInterval(rows, k, m, cursor);
    SameGuids(rows, rows[k..m], cursor, rows[m - 1].rowid);
  }

  lemma SliceIsInterval(rows: seq<Row>, k: nat, m: nat, cursor: nat)
    requires Ascending(rows) && SplitsAt(rows, cursor, k) && k < m <= |rows|
    ensures forall row | row in rows :: (cursor < row.rowid <= rows[m - 1].rowid <==> row in rows[k..m])
  {
    forall row | row in rows
      ensures cursor < row.rowid <= rows[m - 1].rowid <==> row in rows[k..m]
    {
      var i :| 0 <= i < |rows| && rows[i] == row;
      if k <= i < m {
        assert rows[k..m][i - k] == row;
      }
    }
  }

  lemma SameGuids(rows: seq<Row>, batch: seq<Row>, low: nat, high: nat)
    requires forall row | row in rows :: (low < row.rowid <= high <==> row in batch)
    requires forall row | row in batch :: row in rows
    ensures (set row | row in batch :: GuidOf(row)) == Guids(rows, low, high)
  {
  }

  lemma EventGuidsOfRows(batch: seq<Row>, paired: set<string>, reader: Reader)
    ensures EventGuids(EventsOf(batch, paired, reader)) == set row | row in batch :: GuidOf(row)
  {
    var events := EventsOf(batch, paired, reader);
    forall g | g in EventGuids(events)
      ensures exists row :: row in batch && GuidOf(row) == g
    {
      var i :| 0 <= i < |events| && events[i].guid == g;
      assert batch[i] in batch && GuidOf(batch[i]) == g;
    }
    forall row | row in batch
      ensures GuidOf(row) in EventGuids(events)
    {
      var i :| 0 <= i < |batch| && batch[i] == row;
      assert events[i] in events && events[i].guid == GuidOf(row);
    }
  }
}
