/**
 The AppleScript printer of apps/edge-agent/src/imessage-transport.ts and a
 reader for the string expressions it prints.
 */
module AppleScript {
  import opened CanonicalText

  // ---------------------------------------------------------------- the printer

  const BREAK := "\" & linefeed & \""

  /** The first replace: every backslash is doubled. */
  function EscapeBackslashes(s: string): string {
    if s == "" then ""
    else (if s[0] == '\\' then "\\\\" else [s[0]]) + EscapeBackslashes(s[1..])
  }

  /** The second replace: a backslash before every double quote. */
  function EscapeQuotes(s: string): string {
    if s == "" then ""
    else (if s[0] == '"' then "\\\"" else [s[0]]) + EscapeQuotes(s[1..])
  }

  /** The third replace: every line ending (CRLF is one) becomes a concatenated linefeed. */
  function EscapeBreaks(s: string): string {
    if s == "" then ""
    else if s[0] == '\r' && |s| >= 2 && s[1] == '\n' then BREAK + EscapeBreaks(s[2..])
    else if s[0] == '\r' || s[0] == '\n' then BREAK + EscapeBreaks(s[1..])
    else [s[0]] + EscapeBreaks(s[1..])
  }

  /** escapeAppleScriptString: the three replaces, one after the other. */
  function Escape(s: string): string { EscapeBreaks(EscapeQuotes(EscapeBackslashes(s))) }

  /** The same encoder in one pass. */
  function Encode(s: string): string {
    if s == "" then ""
    else if s[0] == '\r' && |s| >= 2 && s[1] == '\n' then BREAK + Encode(s[2..])
    else EncodeChar(s[0]) + Encode(s[1..])
  }

  function EncodeChar(c: char): string {
    if c == '\r' || c == '\n' then BREAK
    else if c == '\\' then "\\\\"
    else if c == '"' then "\\\""
    else [c]
  }

  function SendCommand(target: string, text: string): string {
    "tell application \"Messages\" to send \"" + Escape(text) + "\" to buddy \"" + Escape(target) + "\""
  }

  /** The two replaces that come first, on one character. */
  function EscapeChar(c: char): string {
    if c == '\\' then "\\\\" else if c == '"' then "\\\"" else [c]
  }

  lemma {:induction false} QuotesOfConcat(a: string, b: string)
    ensures EscapeQuotes(a + b) == EscapeQuotes(a) + EscapeQuotes(b)
  {
    if a == "" {
      assert a + b == b;
    } else {
      assert (a + b)[1..] == a[1..] + b;
      QuotesOfConcat(a[1..], b);
    }
  }

  lemma {:induction false} QuotesAfterBackslashes(s: string)
    requires s != ""
    ensures EscapeQuotes(EscapeBackslashes(s)) == EscapeChar(s[0]) + EscapeQuotes(EscapeBackslashes(s[1..]))
  {
    var first := if s[0] == '\\' then "\\\\" else [s[0]];
    QuotesOfConcat(first, EscapeBackslashes(s[1..]));
    assert EscapeQuotes([s[0]]) == if s[0] == '"' then "\\\"" else [s[0]];
    assert EscapeQuotes("\\\\") == "\\\\" by {
      assert "\\\\"[1..] == "\\";
    }
  }

  lemma {:induction false} BreaksOfEscapedChar(c: char, rest: string)
    requires c != '\r' && c != '\n'
    ensures EscapeBreaks(EscapeChar(c) + rest) == EncodeChar(c) + EscapeBreaks(rest)
  {
    var e := EscapeChar(c);
    assert (e + rest)[1..] == e[1..] + rest;
    if |e| == 2 {
      assert e[1..] + rest == [e[1]] + rest && ([e[1]] + rest)[1..] == rest;
      assert EscapeBreaks([e[1]] + rest) == [e[1]] + EscapeBreaks(rest);
    } else {
      assert e[1..] + rest == rest;
    }
  }

  /** The three replaces are the one-pass encoder: none of them sees what another one wrote. */
  lemma {:induction false} EscapeIsEncode(s: string)
    ensures Escape(s) == Encode(s)
  {
    if s != "" {
      var done := EscapeQuotes(EscapeBackslashes(s));
      var rest := EscapeQuotes(EscapeBackslashes(s[1..]));
      QuotesAfterBackslashes(s);
      EscapeIsEncode(s[1..]);
      if s[0] == '\r' && |s| >= 2 && s[1] == '\n' {
        QuotesAfterBackslashes(s[1..]);
        assert rest[0] == '\n' && rest[1..] == EscapeQuotes(EscapeBackslashes(s[2..])) by {
          assert s[1..][1..] == s[2..];
        }
        assert done[2..] == rest[1..];
        EscapeIsEncode(s[2..]);
      } else if s[0] == '\r' || s[0] == '\n' {
        assert done == [s[0]] + rest && done[1..] == rest;
        if |s| >= 2 {
          QuotesAfterBackslashes(s[1..]);
          assert rest[0] == '\n' ==> s[1] == '\n';
        }
      } else {
        BreaksOfEscapedChar(s[0], rest);
      }
    }
  }

  // ---------------------------------------------------------------- the reader

  /** A value read off the front of a text, and what is left of it. */
  datatype Reading = Reading(value: string, rest: string) | Malformed

  function Prepend(v: string, r: Reading): Reading {
    match r
    case Malformed => Malformed
    case Reading(value, rest) => Reading(v + value, rest)
  }

  /** A string literal after its opening quote, with AppleScript's escapes. */
  function ReadLiteral(s: string): (r: Reading)
    ensures r.Reading? ==> |r.rest| < |s|
  {
    if s == "" then Malformed
    else if s[0] == '"' then Reading("", s[1..])
    else if s[0] != '\\' then Prepend([s[0]], ReadLiteral(s[1..]))
    else if |s| < 2 then Malformed
    else if s[1] == '\\' || s[1] == '"' then Prepend([s[1]], ReadLiteral(s[2..]))
    else if s[1] == 'n' then Prepend("\n", ReadLiteral(s[2..]))
    else if s[1] == 'r' then Prepend("\r", ReadLiteral(s[2..]))
    else if s[1] == 't' then Prepend("\t", ReadLiteral(s[2..]))
    else Malformed
  }

  /** A string literal or the constant `linefeed`. */
  function ReadTerm(s: string): (r: Reading)
    ensures r.Reading? ==> |r.rest| < |s|
  {
    if s != "" && s[0] == '"' then ReadLiteral(s[1..])
    else if "linefeed" <= s then Reading("\n", s[8..])
    else Malformed
  }

  function SkipSpaces(s: string): (r: string)
    ensures |r| <= |s|
  {
    if s != "" && s[0] == ' ' then SkipSpaces(s[1..]) else s
  }

  /** Terms joined by `&`, read as far as they go. */
  function ReadExpression(s: string): Reading
    decreases |s|
  {
    var first := ReadTerm(s);
    if first.Malformed? then Malformed else Continue(first.value, first.rest)
  }

  function Continue(value: string, rest: string): Reading
    decreases |rest|
  {
    var after := SkipSpaces(rest);
    if after != "" && after[0] == '&' then
      var next := ReadTerm(SkipSpaces(after[1..]));
      if next.Malformed? then Malformed else Continue(value + next.value, next.rest)
    else Reading(value, rest)
  }

  /** The text after a literal's opening quote, read to the end of the whole expression. */
  function ReadFromLiteral(value: string, s: string): Reading {
    var literal := ReadLiteral(s);
    if literal.Malformed? then Malformed else Continue(value + literal.value, literal.rest)
  }

  predicate EndsExpression(rest: string) {
    var after := SkipSpaces(rest);
    after == "" || after[0] != '&'
  }

  lemma ReadChar(value: string, c: char, s: string)
    requires c != '\r' && c != '\n'
    ensures ReadFromLiteral(value, EncodeChar(c) + s) == ReadFromLiteral(value + [c], s)
  {
    var e := EncodeChar(c);
    assert (e + s)[|e|..] == s;
    if ReadLiteral(s).Reading? {
      assert value + ([c] + ReadLiteral(s).value) == value + [c] + ReadLiteral(s).value;
    }
  }

  lemma {:induction false} ContinueJoined(value: string, s: string)
    requires s != "" && s[0] != ' '
    ensures var next := ReadTerm(s);
      Continue(value, " & " + s)
      == if next.Malformed? then Malformed else Continue(value + next.value, next.rest)
  {
    var t := " & " + s;
    assert t[1..][1..] == " " + s && (" " + s)[1..] == s;
    assert SkipSpaces(t) == t[1..];
    assert SkipSpaces(" " + s) == s;
  }

  lemma BreakParts(s: string)
    ensures BREAK + s == "\"" + (" & " + ("linefeed" + (" & " + ("\"" + s))))
  {
  }

  lemma ReadBreak(value: string, s: string)
    ensures ReadFromLiteral(value, BREAK + s) == ReadFromLiteral(value + "\n", s)
  {
    var reopened := "\"" + s;
    var word := "linefeed" + (" & " + reopened);
    BreakParts(s);
    assert ("\"" + (" & " + word))[1..] == " & " + word;
    assert value + "" == value;
    ContinueJoined(value, word);
    assert word[8..] == " & " + reopened;
    ContinueJoined(value + "\n", reopened);
    assert reopened[1..] == s;
  }

  /** One encoded piece and what follows it, regrouped. */
  lemma ReadPiece(value: string, piece: string, read: string, more: string, moreRead: string, close: string, rest: string)
    requires ReadFromLiteral(value, piece + (more + close)) == ReadFromLiteral(value + read, more + close)
    requires ReadFromLiteral(value + read, more + close) == Reading(value + read + moreRead, rest)
    ensures ReadFromLiteral(value, (piece + more) + close) == Reading(value + (read + moreRead), rest)
  {
    assert (piece + more) + close == piece + (more + close);
    assert value + (read + moreRead) == value + read + moreRead;
  }

  lemma {:induction false} ReadEncoded(value: string, text: string, rest: string)
    requires EndsExpression(rest)
    ensures ReadFromLiteral(value, Encode(text) + ("\"" + rest)) == Reading(value + Fold(text), rest)
    decreases |text|
  {
    var close := "\"" + rest;
    if text == "" {
      assert Encode(text) + close == close && close[1..] == rest;
      assert value + "" == value;
    } else if text[0] == '\r' && |text| >= 2 && text[1] == '\n' {
      ReadEncoded(value + "\n", text[2..], rest);
      ReadBreak(value, Encode(text[2..]) + close);
      ReadPiece(value, BREAK, "\n", Encode(text[2..]), Fold(text[2..]), close, rest);
    } else {
      var c := text[0];
      var read := if c == '\r' then "\n" else [c];
      ReadEncoded(value + read, text[1..], rest);
      if c == '\r' || c == '\n' {
        ReadBreak(value, Encode(text[1..]) + close);
      } else {
        ReadChar(value, c, Encode(text[1..]) + close);
      }
      ReadPiece(value, EncodeChar(c), read, Encode(text[1..]), Fold(text[1..]), close, rest);
    }
  }

  /**
   Main result: between its quotes, the escaped text is one AppleScript
   expression, read to its end, whose value is the text with line endings folded.
   */
  lemma {:induction false} EscapeRoundTrip(text: string, rest: string)
    requires EndsExpression(rest)
    ensures ReadExpression("\"" + Escape(text) + "\"" + rest) == Reading(Fold(text), rest)
  {
    EscapeIsEncode(text);
    var s := "\"" + Escape(text) + "\"" + rest;
    assert s[1..] == Encode(text) + ("\"" + rest);
    ReadEncoded("", text, rest);
    assert "" + Fold(text) == Fold(text);
    assert ReadExpression(s) == ReadFromLiteral("", s[1..]) by {
      if ReadLiteral(s[1..]).Reading? {
        assert "" + ReadLiteral(s[1..]).value == ReadLiteral(s[1..]).value;
      }
    }
  }

  const SEND_VERB := "tell application \"Messages\" to send "
  const TO_BUDDY := " to buddy "

  /** What a send command does: the text and the buddy it names. */
  datatype Send = Send(text: string, buddy: string) | NotASend

  function ReadSend(command: string): Send {
    if !(SEND_VERB <= command) then NotASend
    else
      var text := ReadExpression(command[|SEND_VERB|..]);
      if text.Malformed? || !(TO_BUDDY <= text.rest) then NotASend
      else
        var buddy := ReadExpression(text.rest[|TO_BUDDY|..]);
        if buddy.Malformed? || buddy.rest != "" then NotASend else Send(text.value, buddy.value)
  }

  /** Whatever its arguments, the command is one send of that text to that buddy and nothing else. */
  lemma {:induction false} SendCommandIsOneSend(target: string, text: string)
    ensures ReadSend(SendCommand(target, text)) == Send(Fold(text), Fold(target))
  {
    var command := SendCommand(target, text);
    var buddyPart := "\"" + Escape(target) + "\"" + "";
    var rest := TO_BUDDY + buddyPart;
    var textPart := "\"" + Escape(text) + "\"" + rest;
    SendCommandParts(target, text);
    assert command[|SEND_VERB|..] == textPart;
    assert SkipSpaces(rest) == rest[1..] && rest[1] == 't';
    EscapeRoundTrip(text, rest);
    assert rest[|TO_BUDDY|..] == buddyPart;
    EscapeRoundTrip(target, "");
  }

  lemma SendCommandParts(target: string, text: string)
    ensures SendCommand(target, text)
         == SEND_VERB + ("\"" + Escape(text) + "\"" + (TO_BUDDY + ("\"" + Escape(target) + "\"" + "")))
  {
    assert "tell application \"Messages\" to send \"" == SEND_VERB + "\"";
    assert "\" to buddy \"" == "\"" + TO_BUDDY + "\"";
  }
}
