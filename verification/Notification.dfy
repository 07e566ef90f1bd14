/** Rendering a notification to message text (apps/edge-agent/src/render.ts). */
module Notification {
  import opened Prelude
  import opened Trimming

  const LIMIT := 1500

  /** The claimed row: `payload` holds the payload's string-valued entries. */
  datatype Notification = Notification(kind: string, title: string, payload: map<string, string>)

  /** truncateForImessage: lengths and cuts count UTF-16 units. */
  function Truncate(text: string): (r: string)
    ensures CodeUnits(r) <= LIMIT
    ensures CodeUnits(text) <= LIMIT ==> r == text
    ensures CodeUnits(text) > LIMIT ==>
      CodeUnits(r) == LIMIT && r == SliceUnits(text, LIMIT - |TRUNCATION_MARKER|) + TRUNCATION_MARKER
  {
    MarkerUnits();
    SliceShape(text, LIMIT - 12);
    UnitsOfConcat(SliceUnits(text, LIMIT - 12), TRUNCATION_MARKER);
    CutTo(text, LIMIT, 12, TRUNCATION_MARKER)
  }

  /** asString: a non-empty string entry of the payload. */
  function Entry(n: Notification, key: string): Option<string> {
    if key in n.payload && n.payload[key] != "" then Some(n.payload[key]) else None
  }

  function Labelled(prefix: string, value: Option<string>): Option<string> {
    if value.None? then None else Some(prefix + value.value)
  }

  /** `filter(Boolean).join("\n")`: the non-empty lines, newline separated. */
  function JoinLines(lines: seq<Option<string>>): string {
    if lines == [] then ""
    else if lines[0].None? || lines[0].value == "" then JoinLines(lines[1..])
    else if JoinLines(lines[1..]) == "" then lines[0].value
    else lines[0].value + "\n" + JoinLines(lines[1..])
  }

  /** The kind-specific projection, before truncation. */
  function Project(n: Notification): string {
    match n.kind
    case "brief" =>
      JoinLines([Some(n.title), Entry(n, "content"), Labelled("Open in Today: ", Entry(n, "todayUrl"))])
    case "reply" =>
      if Entry(n, "content").Some? then Entry(n, "content").value else n.title
    case "calibration" =>
      if Entry(n, "content").Some? then Entry(n, "content").value else n.title
    case "calendar-change" => n.title
    case "escalation" =>
      if Entry(n, "consequenceOfWaiting").None? then n.title
      else n.title + "\n" + Entry(n, "consequenceOfWaiting").value
    case "attention" =>
      JoinLines([Some(n.title), Entry(n, "content"), Entry(n, "whyItMatters"),
                 Labelled("Review in Today: ", Entry(n, "todayUrl"))])
    case _ => n.title
  }

  function Render(n: Notification): string { Truncate(Project(n)) }

  /** The payload keys a kind may show. */
  function VisibleKeys(kind: string): set<string> {
    match kind
    case "brief" => {"content", "todayUrl"}
    case "reply" => {"content"}
    case "calibration" => {"content"}
    case "escalation" => {"consequenceOfWaiting"}
    case "attention" => {"content", "whyItMatters", "todayUrl"}
    case _ => {}
  }

  /** The envelope never leaks: entries outside the visible keys cannot change the text. */
  lemma EnvelopeIsInvisible(n: Notification, m: Notification)
    requires n.kind == m.kind && n.title == m.title
    requires forall k :: k in VisibleKeys(n.kind) ==> Entry(n, k) == Entry(m, k)
    ensures Render(n) == Render(m)
  {
    var keys := ["content", "todayUrl", "whyItMatters", "consequenceOfWaiting"];
    assert forall i :: 0 <= i < 4 && keys[i] in VisibleKeys(n.kind) ==> Entry(n, keys[i]) == Entry(m, keys[i]);
    assert keys[0] == "content" && keys[1] == "todayUrl" && keys[2] == "whyItMatters"
        && keys[3] == "consequenceOfWaiting";
  }

  // ---------------------------------------------------------------- what each kind shows

  /** Non-empty lines one under the other, from the top. */
  function Stacked(lines: seq<string>): string {
    if lines == [] then ""
    else
      var above, last := Stacked(lines[..|lines| - 1]), lines[|lines| - 1];
      if last == "" then above else if above == "" then last else above + "\n" + last
  }

  function Texts(lines: seq<Option<string>>): seq<string> {
    seq(|lines|, i requires 0 <= i < |lines| => if lines[i].Some? then lines[i].value else "")
  }

  lemma {:induction false} StackedFromTop(first: string, rest: seq<string>)
    ensures Stacked([first] + rest) ==
      if first == "" then Stacked(rest) else if Stacked(rest) == "" then first else first + "\n" + Stacked(rest)
  {
    var all := [first] + rest;
    if rest == [] {
      assert all[..|all| - 1] == [] && Stacked([]) == "";
    } else {
      StackedFromTop(first, rest[..|rest| - 1]);
      assert all[..|all| - 1] == [first] + rest[..|rest| - 1];
    }
  }

  lemma {:induction false} JoinStacks(lines: seq<Option<string>>)
    ensures JoinLines(lines) == Stacked(Texts(lines))
  {
    if lines != [] {
      JoinStacks(lines[1..]);
      StackedFromTop(Texts(lines)[0], Texts(lines[1..]));
      assert Texts(lines) == [Texts(lines)[0]] + Texts(lines[1..]);
    }
  }

  /** What the payload has under this key, the empty text for nothing. */
  predicate Holds(n: Notification, key: string, value: string) {
    if key in n.payload then n.payload[key] == value else value == ""
  }

  function Under(title: string, line: string): string { if line == "" then title else title + "\n" + line }

  function Prefixed(prefix: string, value: string): string { if value == "" then "" else prefix + value }

  /**
   What a notification says, by its kind and what its payload holds: a reply and the daily
   check their content alone; a brief and an attention item one line for each thing they
   have; an escalation what waiting costs; every other kind its title.
   */
  lemma RendersExactly(n: Notification, content: string, url: string, cost: string, why: string)
    requires Holds(n, "content", content) && Holds(n, "todayUrl", url)
    requires Holds(n, "consequenceOfWaiting", cost) && Holds(n, "whyItMatters", why)
    ensures Render(n) == Truncate(
      if n.kind in {"reply", "calibration"} then (if content == "" then n.title else content)
      else if n.kind == "brief" then Stacked([n.title, content, Prefixed("Open in Today: ", url)])
      else if n.kind == "attention" then Stacked([n.title, content, why, Prefixed("Review in Today: ", url)])
      else if n.kind == "escalation" then Under(n.title, cost)
      else n.title)
  {
    var brief := [Some(n.title), Entry(n, "content"), Labelled("Open in Today: ", Entry(n, "todayUrl"))];
    var attention :=
      [Some(n.title), Entry(n, "content"), Entry(n, "whyItMatters"), Labelled("Review in Today: ", Entry(n, "todayUrl"))];
    JoinStacks(brief);
    JoinStacks(attention);
    assert Texts(brief) == [n.title, content, Prefixed("Open in Today: ", url)];
    assert Texts(attention) == [n.title, content, why, Prefixed("Review in Today: ", url)];
  }
}
