/**
 The envelope parser of packages/workflow/src/research-web.ts: strip a code
 fence, try the text as it is, and otherwise cut the first balanced {...} out of
 the surrounding prose with a string-aware brace scan.

 JSON text is given by the grammar of RFC 8259 as a syntax tree and its printer.
 The parser proper (JSON.parse) is a parameter.
 */
module EnvelopeScanner {
  import opened Prelude
  import opened Trimming

  // ---------------------------------------------------------------- JSON text

  /** One character of a JSON string (RFC 8259, section 7). */
  datatype StringChar =
    | Plain(c: char)
    | Escape(c: char)
    | Unicode(hex: string)

  /** A JSON value with the insignificant whitespace of its text (RFC 8259, sections 2 to 7). */
  datatype Json =
    | Word(word: string)
    | Number(negative: bool, whole: string, fraction: Option<string>, exponent: Option<Exponent>)
    | Text(chars: seq<StringChar>)
    | Array(blank: string, items: Items)
    | Object(blank: string, members: Members)

  datatype Exponent = Exponent(mark: char, sign: string, digits: string)

  datatype Items = NoItems | Item(before: string, value: Json, after: string, rest: Items)

  datatype Members =
    | NoMembers
    | Member(before: string, key: seq<StringChar>, colonBefore: string, colonAfter: string,
             value: Json, after: string, rest: Members)

  predicate IsHex(c: char) { IsDigit(c) || 'a' <= c <= 'f' || 'A' <= c <= 'F' }

  predicate AllDigits(s: string) { s != [] && forall i :: 0 <= i < |s| ==> IsDigit(s[i]) }

  /** JSON whitespace: space, tab, line feed, carriage return. */
  predicate IsBlank(s: string) {
    forall i :: 0 <= i < |s| ==> s[i] == ' ' || s[i] == '\t' || s[i] == '\n' || s[i] == '\r'
  }

  predicate WellFormedChar(c: StringChar) {
    match c
    case Plain(x) => ' ' <= x && x != '"' && x != '\\'
    case Escape(x) => x in "\"\\/bfnrt"
    case Unicode(hex) => |hex| == 4 && forall i :: 0 <= i < 4 ==> IsHex(hex[i])
  }

  predicate WellFormedChars(cs: seq<StringChar>) {
    forall i :: 0 <= i < |cs| ==> WellFormedChar(cs[i])
  }

  predicate WellFormed(j: Json) {
    match j
    case Word(w) => w == "true" || w == "false" || w == "null"
    case Number(_, whole, fraction, exponent) =>
      && AllDigits(whole) && (whole[0] == '0' ==> |whole| == 1)
      && (fraction.Some? ==> AllDigits(fraction.value))
      && (exponent.Some? ==>
            && (exponent.value.mark == 'e' || exponent.value.mark == 'E')
            && (exponent.value.sign == "" || exponent.value.sign == "+" || exponent.value.sign == "-")
            && AllDigits(exponent.value.digits))
    case Text(cs) => WellFormedChars(cs)
    case Array(blank, items) => IsBlank(blank) && WellFormedItems(items)
    case Object(blank, members) => IsBlank(blank) && WellFormedMembers(members)
  }

  predicate WellFormedItems(items: Items) {
    match items
    case NoItems => true
    case Item(before, v, after, rest) =>
      IsBlank(before) && WellFormed(v) && IsBlank(after) && WellFormedItems(rest)
  }

  predicate WellFormedMembers(members: Members) {
    match members
    case NoMembers => true
    case Member(before, key, cb, ca, v, after, rest) =>
      && IsBlank(before) && WellFormedChars(key) && IsBlank(cb) && IsBlank(ca)
      && WellFormed(v) && IsBlank(after) && WellFormedMembers(rest)
  }

  function PrintChar(c: StringChar): string {
    match c
    case Plain(x) => [x]
    case Escape(x) => ['\\', x]
    case Unicode(hex) => "\\u" + hex
  }

  function PrintChars(cs: seq<StringChar>): string {
    if cs == [] then "" else PrintChar(cs[0]) + PrintChars(cs[1..])
  }

  function Quoted(cs: seq<StringChar>): string { "\"" + (PrintChars(cs) + "\"") }

  function PrintNumber(j: Json): string
    requires j.Number?
  {
    (if j.negative then "-" else "") + j.whole
    + (if j.fraction.Some? then "." + j.fraction.value else "")
    + (if j.exponent.Some? then
         [j.exponent.value.mark] + j.exponent.value.sign + j.exponent.value.digits
       else "")
  }

  /** The text of a JSON value. */
  function Print(j: Json): string {
    match j
    case Word(w) => w
    case Number(_, _, _, _) => PrintNumber(j)
    case Text(cs) => Quoted(cs)
    case Array(blank, items) => "[" + blank + PrintItems(items) + "]"
    case Object(blank, members) => "{" + blank + PrintMembers(members) + "}"
  }

  function PrintItems(items: Items): string {
    match items
    case NoItems => ""
    case Item(before, v, after, rest) =>
      before + Print(v) + after + (if rest.NoItems? then "" else "," + PrintItems(rest))
  }

  function PrintMembers(members: Members): string {
    match members
    case NoMembers => ""
    case Member(before, key, cb, ca, v, after, rest) =>
      before + Quoted(key) + cb + ":" + ca + Print(v) + after
      + (if rest.NoMembers? then "" else "," + PrintMembers(rest))
  }

  /** Some values of each kind, and some texts that are none (RFC 8259, sections 3, 6 and 7). */
  lemma GrammarSamples()
    ensures WellFormed(Word("true")) && WellFormed(Word("false")) && WellFormed(Word("null")) && !WellFormed(Word("True"))
    ensures WellFormed(Array("", NoItems)) && WellFormed(Object("", NoMembers)) && Print(Array("", NoItems)) == "[" + "" + "" + "]"
    ensures var n := Number(true, "0", Some("5"), Some(Exponent('E', "+", "3")));
      WellFormed(n) && Print(n) == "-" + "0" + ("." + "5") + (['E'] + "+" + "3")
    ensures var n := Number(false, "10", None, None); WellFormed(n) && Print(n) == "" + "10" + "" + ""
    ensures !WellFormed(Number(false, "01", None, None))
    ensures WellFormedChar(Plain(' ')) && WellFormedChar(Escape('n')) && !WellFormedChar(Plain('\n')) && !WellFormedChar(Escape('x'))
    ensures WellFormedChar(Unicode("09af")) && WellFormedChar(Unicode("09AF")) && !WellFormedChar(Unicode("00g0"))
  {
    assert "01"[0] == '0';
    assert !IsHex("00g0"[2]);
  }

  /** The texts of JSON objects. */
  ghost predicate IsObjectText(s: string) {
    exists o: Json :: o.Object? && WellFormed(o) && s == Print(o)
  }

  // ---------------------------------------------------------------- the scan

  /** The three variables of the scan loop. */
  datatype Scan = Scan(depth: int, inString: bool, escaped: bool)

  /** One iteration of the loop, without its early return. */
  function Advance(st: Scan, c: char): Scan {
    if st.inString then
      if st.escaped then st.(escaped := false)
      else if c == '\\' then st.(escaped := true)
      else if c == '"' then st.(inString := false)
      else st
    else if c == '"' then st.(inString := true)
    else if c == '{' then st.(depth := st.depth + 1)
    else if c == '}' then st.(depth := st.depth - 1)
    else st
  }

  /** The iteration that returns: a closing brace outside strings that brings the depth to 0. */
  predicate Closes(st: Scan, c: char) { !st.inString && c == '}' && st.depth == 1 }

  /** How many characters the scan reads, from state st, up to and with the closing one. */
  function ScanLength(s: string, st: Scan): (r: Option<nat>)
    ensures r.Some? ==> 0 < r.value <= |s| && s[r.value - 1] == '}'
  {
    if s == [] then None
    else if Closes(st, s[0]) then Some(1)
    else
      match ScanLength(s[1..], Advance(st, s[0]))
      case None => None
      case Some(n) => Some(n + 1)
  }

  function Shift(k: nat, r: Option<nat>): Option<nat> {
    match r
    case None => None
    case Some(n) => Some(n + k)
  }

  lemma {:induction false} ScanOneChar(text: string, i: nat, st: Scan)
    requires i < |text|
    ensures ScanLength(text[i..], st)
         == if Closes(st, text[i]) then Some(1) else Shift(1, ScanLength(text[i + 1..], Advance(st, text[i])))
  {
    assert text[i..][1..] == text[i + 1..];
  }

  /** The scan from `start` ends where the scan from i in state st does. */
  predicate EndsAs(all: Option<nat>, text: string, start: nat, i: nat, st: Scan)
    requires start <= i <= |text|
  {
    all == Shift(i - start, ScanLength(text[i..], st))
  }

  /** One iteration, in terms of where the whole scan ends. */
  lemma ScanAdvances(text: string, start: nat, i: nat, st: Scan, all: Option<nat>)
    requires start <= i < |text| && EndsAs(all, text, start, i, st)
    ensures if Closes(st, text[i]) then all == Some(i + 1 - start)
      else EndsAs(all, text, start, i + 1, Advance(st, text[i]))
  {
    ScanOneChar(text, i, st);
  }

  /** The scan loop, run in place over the text from `start`. */
  method ScanFrom(text: string, start: nat) returns (end: Option<nat>)
    requires start < |text| && text[start] == '{'
    ensures end == Shift(start, ScanLength(text[start..], Open(0)))
  {
    var depth, inString, escaped := 0, false, false;
    var i := start;
    ghost var all := ScanLength(text[start..], Open(0));
    while i < |text|
      invariant start <= i <= |text|
      invariant EndsAs(all, text, start, i, Scan(depth, inString, escaped))
    {
      var ch := text[i];
      ghost var st := Scan(depth, inString, escaped);
      ScanAdvances(text, start, i, st, all);
      i := i + 1;
      if inString {
        if escaped {
          escaped := false;
        } else if ch == '\\' {
          escaped := true;
        } else if ch == '"' {
          inString := false;
        }
      } else if ch == '"' {
        inString := true;
      } else if ch == '{' {
        depth := depth + 1;
      } else if ch == '}' {
        depth := depth - 1;
        if depth == 0 {
          return Some(i);
        }
      }
      assert Scan(depth, inString, escaped) == Advance(st, ch);
    }
    return None;
  }

  // -------------------------------------------------- the scan over JSON text

  /** Between values, d objects deep and outside strings. */
  function Open(d: nat): Scan { Scan(d, false, false) }

  /** The state after reading all of s, or None if the scan returns inside s. */
  function Pass(s: string, st: Scan): Option<Scan> {
    if s == "" then Some(st)
    else if Closes(st, s[0]) then None
    else Pass(s[1..], Advance(st, s[0]))
  }

  lemma {:induction false} PassAppend(a: string, b: string, st: Scan, mid: Scan)
    requires Pass(a, st) == Some(mid)
    ensures Pass(a + b, st) == Pass(b, mid)
  {
    if a == "" {
      assert a + b == b;
    } else {
      assert (a + b)[1..] == a[1..] + b;
      PassAppend(a[1..], b, Advance(st, a[0]), mid);
    }
  }

  lemma {:induction false} ScanAfterPass(s: string, rest: string, st: Scan, mid: Scan)
    requires Pass(s, st) == Some(mid)
    ensures ScanLength(s + rest, st) == Shift(|s|, ScanLength(rest, mid))
  {
    if s == "" {
      assert s + rest == rest;
    } else {
      assert (s + rest)[1..] == s[1..] + rest;
      ScanAfterPass(s[1..], rest, Advance(st, s[0]), mid);
    }
  }

  /** Characters that neither open a string nor move the depth. */
  predicate Inert(s: string) {
    forall i :: 0 <= i < |s| ==> s[i] != '"' && s[i] != '{' && s[i] != '}'
  }

  lemma {:induction false} PassInert(s: string, d: nat)
    requires Inert(s)
    ensures Pass(s, Open(d)) == Some(Open(d))
  {
    if s != "" {
      PassInert(s[1..], d);
    }
  }

  lemma {:induction false} PassHex(hex: string, d: nat)
    requires forall i :: 0 <= i < |hex| ==> IsHex(hex[i])
    ensures Pass(hex, Scan(d, true, false)) == Some(Scan(d, true, false))
  {
    if hex != "" {
      PassHex(hex[1..], d);
    }
  }

  lemma PassEscape(x: char, d: nat)
    ensures Pass(['\\', x], Scan(d, true, false)) == Some(Scan(d, true, false))
  {
    var s := ['\\', x];
    assert s[1..] == [x];
    assert Advance(Scan(d, true, false), s[0]) == Scan(d, true, true);
    assert Pass([x], Scan(d, true, true)) == Some(Scan(d, true, false));
  }

  lemma PassStringChar(c: StringChar, d: nat)
    requires WellFormedChar(c)
    ensures Pass(PrintChar(c), Scan(d, true, false)) == Some(Scan(d, true, false))
  {
    var inside := Scan(d, true, false);
    match c
    case Plain(x) =>
    case Escape(x) =>
      PassEscape(x, d);
    case Unicode(hex) =>
      PassEscape('u', d);
      PassHex(hex, d);
      PassAppend("\\u", hex, inside, inside);
  }

  /** Inside a string, plain characters and whole escape sequences are passed over. */
  lemma {:induction false} PassStringBody(cs: seq<StringChar>, d: nat)
    requires WellFormedChars(cs)
    ensures Pass(PrintChars(cs), Scan(d, true, false)) == Some(Scan(d, true, false))
  {
    if cs != [] {
      PassStringChar(cs[0], d);
      PassStringBody(cs[1..], d);
      PassAppend(PrintChar(cs[0]), PrintChars(cs[1..]), Scan(d, true, false), Scan(d, true, false));
    }
  }

  lemma PassString(cs: seq<StringChar>, d: nat)
    requires WellFormedChars(cs)
    ensures Pass(Quoted(cs), Open(d)) == Some(Open(d))
  {
    var inside := Scan(d, true, false);
    PassStringBody(cs, d);
    PassAppend(PrintChars(cs), "\"", inside, inside);
    assert Pass("\"", Open(d)) == Some(inside);
    assert Pass("\"", inside) == Some(Open(d));
    PassAppend("\"", PrintChars(cs) + "\"", Open(d), inside);
  }

  lemma DigitsAreInert(s: string)
    requires AllDigits(s)
    ensures Inert(s)
  {
  }

  lemma {:induction false} PassNumber(j: Json, d: nat)
    requires j.Number? && WellFormed(j)
    ensures Pass(Print(j), Open(d)) == Some(Open(d))
  {
    DigitsAreInert(j.whole);
    if j.fraction.Some? { DigitsAreInert(j.fraction.value); }
    if j.exponent.Some? { DigitsAreInert(j.exponent.value.digits); }
    PassInert(Print(j), d);
  }

  /** A whole JSON value, read inside an object, leaves the scan where it was. */
  lemma {:induction false} PassValue(j: Json, d: nat)
    requires WellFormed(j) && d > 0
    ensures Pass(Print(j), Open(d)) == Some(Open(d))
    decreases j, 0
  {
    match j
    case Word(w) =>
      PassInert(w, d);
    case Number(_, _, _, _) =>
      PassNumber(j, d);
    case Text(cs) =>
      PassString(cs, d);
    case Array(blank, items) =>
      PassInert("[" + blank, d);
      PassItems(items, d);
      PassInert("]", d);
      PassAppend("[" + blank, PrintItems(items), Open(d), Open(d));
      PassAppend("[" + blank + PrintItems(items), "]", Open(d), Open(d));
    case Object(blank, members) =>
      PassObject(j, d);
      assert Pass("}", Open(d + 1)) == Some(Open(d));
      PassAppend(ObjectWithoutBrace(j), "}", Open(d), Open(d + 1));
  }

  /** An object up to its closing brace. */
  function ObjectWithoutBrace(o: Json): string
    requires o.Object?
  {
    "{" + o.blank + PrintMembers(o.members)
  }

  lemma {:induction false} PassObject(o: Json, d: nat)
    requires o.Object? && WellFormed(o)
    ensures Pass(ObjectWithoutBrace(o), Open(d)) == Some(Open(d + 1))
    decreases o.members, 1
  {
    assert Pass("{", Open(d)) == Some(Open(d + 1));
    PassInert(o.blank, d + 1);
    PassAppend("{", o.blank, Open(d), Open(d + 1));
    PassMembers(o.members, d + 1);
    PassAppend("{" + o.blank, PrintMembers(o.members), Open(d), Open(d + 1));
  }

  lemma {:induction false} PassItems(items: Items, d: nat)
    requires WellFormedItems(items) && d > 0
    ensures Pass(PrintItems(items), Open(d)) == Some(Open(d))
    decreases items, 0
  {
    match items
    case NoItems =>
    case Item(before, v, after, rest) =>
      PassInert(before, d);
      PassValue(v, d);
      PassInert(after, d);
      PassAppend(before, Print(v), Open(d), Open(d));
      PassAppend(before + Print(v), after, Open(d), Open(d));
      var tail := if rest.NoItems? then "" else "," + PrintItems(rest);
      if rest.Item? {
        PassInert(",", d);
        PassItems(rest, d);
        PassAppend(",", PrintItems(rest), Open(d), Open(d));
      }
      PassAppend(before + Print(v) + after, tail, Open(d), Open(d));
  }

  lemma {:induction false} PassMembers(members: Members, d: nat)
    requires WellFormedMembers(members) && d > 0
    ensures Pass(PrintMembers(members), Open(d)) == Some(Open(d))
    decreases members, 0
  {
    match members
    case NoMembers =>
    case Member(before, key, cb, ca, v, after, rest) =>
      var name := before + Quoted(key) + cb + ":" + ca;
      PassName(before, key, cb, ca, d);
      PassValue(v, d);
      PassInert(after, d);
      PassAppend(name, Print(v), Open(d), Open(d));
      PassAppend(name + Print(v), after, Open(d), Open(d));
      var tail := if rest.NoMembers? then "" else "," + PrintMembers(rest);
      if rest.Member? {
        PassInert(",", d);
        PassMembers(rest, d);
        PassAppend(",", PrintMembers(rest), Open(d), Open(d));
      }
      PassAppend(name + Print(v) + after, tail, Open(d), Open(d));
  }

  lemma {:induction false} PassName(before: string, key: seq<StringChar>, cb: string, ca: string, d: nat)
    requires IsBlank(before) && WellFormedChars(key) && IsBlank(cb) && IsBlank(ca)
    ensures Pass(before + Quoted(key) + cb + ":" + ca, Open(d)) == Some(Open(d))
  {
    PassInert(before, d);
    PassString(key, d);
    PassInert(cb, d);
    PassInert(":", d);
    PassInert(ca, d);
    PassAppend(before, Quoted(key), Open(d), Open(d));
    PassAppend(before + Quoted(key), cb, Open(d), Open(d));
    PassAppend(before + Quoted(key) + cb, ":", Open(d), Open(d));
    PassAppend(before + Quoted(key) + cb + ":", ca, Open(d), Open(d));
  }

  /** The scan stops exactly at the end of the object it starts on, whatever follows. */
  lemma {:induction false} ScanStopsAtObjectEnd(o: Json, rest: string)
    requires o.Object? && WellFormed(o)
    ensures ScanLength(Print(o) + rest, Open(0)) == Some(|Print(o)|)
  {
    var front := ObjectWithoutBrace(o);
    assert Print(o) == front + "}";
    PassObject(o, 0);
    ScanAfterPass(front, "}" + rest, Open(0), Open(1));
    assert Print(o) + rest == front + ("}" + rest);
  }

  /** At most one object text starts at a given place: no object text is a proper prefix of another. */
  lemma ObjectTextsArePrefixFree(s: string, rest1: string, t: string, rest2: string)
    requires IsObjectText(s) && IsObjectText(t) && s + rest1 == t + rest2
    ensures s == t && rest1 == rest2
  {
    var o1: Json :| o1.Object? && WellFormed(o1) && s == Print(o1);
    var o2: Json :| o2.Object? && WellFormed(o2) && t == Print(o2);
    ScanStopsAtObjectEnd(o1, rest1);
    ScanStopsAtObjectEnd(o2, rest2);
    assert s == (s + rest1)[..|s|];
    assert t == (t + rest2)[..|t|];
    assert rest1 == (s + rest1)[|s|..];
    assert rest2 == (t + rest2)[|t|..];
  }

  // ---------------------------------------------------------------- the envelope

  predicate StartsWithJson(s: string) {
    && |s| >= 4
    && s[0] in "jJ" && s[1] in "sS" && s[2] in "oO" && s[3] in "nN"
  }

  /** The first replace: an opening fence with its optional language word. */
  function StripOpeningFence(s: string): string {
    if "```" <= s then
      TrimStart(if StartsWithJson(s[3..]) then s[7..] else s[3..])
    else s
  }

  /** The language word, however it is spelt. */
  predicate IsJsonWord(w: string) { |w| == 4 && forall i :: 0 <= i < 4 ==> w[i] == "json"[i] || w[i] == "JSON"[i] }

  lemma WordExactly(s: string)
    ensures StartsWithJson(s) <==> |s| >= 4 && IsJsonWord(s[..4])
  {
    if |s| >= 4 {
      var w := s[..4];
      assert w[0] == s[0] && w[1] == s[1] && w[2] == s[2] && w[3] == s[3];
      assert "json"[0] == 'j' && "json"[1] == 's' && "json"[2] == 'o' && "json"[3] == 'n';
      assert "JSON"[0] == 'J' && "JSON"[1] == 'S' && "JSON"[2] == 'O' && "JSON"[3] == 'N';
    }
  }

  /** An opening fence is cut off with the word, if there is one, and the blanks behind it; and nothing else is. */
  lemma {:induction false} OpeningFenceExactly(word: string, rest: string)
    requires IsJsonWord(word) || (word == "" && !(|rest| >= 4 && IsJsonWord(rest[..4])))
    ensures StripOpeningFence("```" + (word + rest)) == TrimStart(rest)
    ensures !("```" <= rest) ==> StripOpeningFence(rest) == rest
  {
    var s := "```" + (word + rest);
    assert s[3..] == word + rest;
    WordExactly(word + rest);
    if word == "" {
      assert word + rest == rest;
    } else {
      assert (word + rest)[..4] == word;
      assert s[7..] == rest;
    }
  }

  /** The second replace: a closing fence at the very end. */
  function StripClosingFence(s: string): string {
    if |s| >= 3 && s[|s| - 3..] == "```" then TrimEnd(s[..|s| - 3]) else s
  }

  function StripFences(s: string): string { Trim(StripClosingFence(StripOpeningFence(s))) }

  /** The index of the first opening brace, or the length. */
  function FirstBrace(s: string): (i: nat)
    ensures i <= |s| && '{' !in s[..i] && (i < |s| ==> s[i] == '{')
  {
    if s == "" || s[0] == '{' then 0
    else
      assert s == [s[0]] + s[1..];
      1 + FirstBrace(s[1..])
  }

  /** tryParseObject: `parse` is JSON.parse restricted to results that are objects. */
  function TryParseObject<V>(raw: string, parse: string -> Option<V>): Option<V> {
    parse(Trim(raw))
  }

  /** What the brace scan cuts out, from the brace at `start`. */
  function ObjectAt(s: string, start: nat): Option<string>
    requires start <= |s|
  {
    match ScanLength(s[start..], Open(0))
    case None => None
    case Some(n) => Some(s[start..start + n])
  }

  /** The second half of the parser: cut the object out of the prose around it. */
  function Heal<V>(trimmed: string, parse: string -> Option<V>): Option<V> {
    if "[" <= trimmed || FirstBrace(trimmed) == |trimmed| then None
    else
      match ObjectAt(trimmed, FirstBrace(trimmed))
      case None => None
      case Some(raw) => TryParseObject(raw, parse)
  }

  function Envelope<V>(text: string, parse: string -> Option<V>): Option<V> {
    var direct := TryParseObject(StripFences(text), parse);
    if direct.Some? then direct else Heal(Trim(text), parse)
  }

  method ParseJsonEnvelope<V>(text: string, parse: string -> Option<V>) returns (r: Option<V>)
    ensures r == Envelope(text, parse)
  {
    var direct := TryParseObject(StripFences(text), parse);
    if direct.Some? {
      return direct;
    }
    var trimmed := Trim(text);
    if "[" <= trimmed {
      return None;
    }
    var start := FirstBrace(trimmed);
    if start == |trimmed| {
      return None;
    }
    var end := ScanFrom(trimmed, start);
    CutEnds(trimmed, start, end);
    if end.None? {
      return None;
    }
    r := TryParseObject(trimmed[start..end.value], parse);
  }

  lemma CutEnds(trimmed: string, start: nat, end: Option<nat>)
    requires start < |trimmed| && end == Shift(start, ScanLength(trimmed[start..], Open(0)))
    ensures end.None? ==> ObjectAt(trimmed, start).None?
    ensures end.Some? ==> start <= end.value <= |trimmed| && ObjectAt(trimmed, start) == Some(trimmed[start..end.value])
  {
  }

  /** `parse` accepts, among trimmed texts, exactly the object texts of RFC 8259. */
  ghost predicate ParsesObjects<V(!new)>(parse: string -> Option<V>) {
    forall s: string :: Trim(s) == s ==> (parse(s).Some? <==> IsObjectText(s))
  }

  /** obj is an object text and its opening brace is the first one of text. */
  ghost predicate ObjectAtFirstBrace(text: string, before: string, obj: string, after: string) {
    text == before + obj + after && '{' !in before && IsObjectText(obj)
  }

  ghost predicate HasObjectAtFirstBrace(text: string) {
    exists before: string, obj: string, after: string :: ObjectAtFirstBrace(text, before, obj, after)
  }

  lemma ObjectTextShape(obj: string)
    requires IsObjectText(obj)
    ensures |obj| >= 2 && obj[0] == '{' && Trim(obj) == obj
  {
    var o: Json :| o.Object? && WellFormed(o) && obj == Print(o);
    assert obj == ObjectWithoutBrace(o) + "}";
    assert ObjectWithoutBrace(o)[0] == '{';
    assert obj[|obj| - 1] == '}';
  }

  lemma {:induction false} TrimStartCuts(s: string) returns (before: string)
    ensures s == before + TrimStart(s) && '{' !in before
    ensures TrimStart(s) == "" || !IsSpace(TrimStart(s)[0])
  {
    before := "";
    if s != "" && IsSpace(s[0]) {
      var more := TrimStartCuts(s[1..]);
      before := [s[0]] + more;
      assert s == [s[0]] + s[1..];
    }
  }

  lemma {:induction false} TrimEndCuts(s: string) returns (after: string)
    ensures s == TrimEnd(s) + after
  {
    after := "";
    if s != "" && IsSpace(s[|s| - 1]) {
      var more := TrimEndCuts(s[..|s| - 1]);
      after := more + [s[|s| - 1]];
      assert s == s[..|s| - 1] + [s[|s| - 1]];
    }
  }

  lemma TrimCuts(s: string) returns (before: string, after: string)
    ensures s == before + Trim(s) + after && '{' !in before
    ensures Trim(s) == "" || !IsSpace(Trim(s)[0])
  {
    before := TrimStartCuts(s);
    after := TrimEndCuts(TrimStart(s));
    assert s == before + (Trim(s) + after);
    assert Trim(s) <= TrimStart(s);
  }

  lemma FenceWord(text: string) returns (n: nat)
    requires "```" <= text
    ensures n <= |text| && StripOpeningFence(text) == TrimStart(text[n..]) && '{' !in text[..n]
  {
    n := if StartsWithJson(text[3..]) then 7 else 3;
    assert forall i :: 3 <= i < n ==> text[i] == text[3..][i - 3];
    assert forall i :: 0 <= i < n ==> text[i] != '{';
  }

  lemma OpeningFenceCuts(text: string) returns (fence: string)
    ensures text == fence + StripOpeningFence(text) && '{' !in fence
  {
    fence := "";
    if "```" <= text {
      var n := FenceWord(text);
      var blanks := TrimStartCuts(text[n..]);
      fence := text[..n] + blanks;
      assert text == text[..n] + text[n..];
    }
  }

  lemma ClosingFenceCuts(s: string) returns (fence: string)
    ensures s == StripClosingFence(s) + fence
  {
    fence := "";
    if |s| >= 3 && s[|s| - 3..] == "```" {
      var blanks := TrimEndCuts(s[..|s| - 3]);
      fence := blanks + "```";
      assert s == s[..|s| - 3] + "```";
    }
  }

  lemma StripFencesCuts(text: string) returns (before: string, after: string)
    ensures text == before + StripFences(text) + after && '{' !in before
  {
    var fence := OpeningFenceCuts(text);
    var body := StripOpeningFence(text);
    var ending := ClosingFenceCuts(body);
    var b, a := TrimCuts(StripClosingFence(body));
    before, after := fence + b, a + ending;
    Regroup(fence, b, StripFences(text), a, ending);
  }

  lemma Regroup(f: string, b: string, t: string, a: string, e: string)
    ensures f + (b + t + a + e) == (f + b) + t + (a + e)
  {
  }

  lemma {:induction false} FirstBraceAt(before: string, rest: string)
    requires '{' !in before && rest != "" && rest[0] == '{'
    ensures FirstBrace(before + rest) == |before|
  {
    if before == "" {
      assert before + rest == rest;
    } else {
      assert (before + rest)[1..] == before[1..] + rest;
      FirstBraceAt(before[1..], rest);
    }
  }

  /** Two object texts at the first brace of one text are the same. */
  lemma FirstObjectIsUnique(text: string, b1: string, o1: string, a1: string, b2: string, o2: string, a2: string)
    requires ObjectAtFirstBrace(text, b1, o1, a1) && ObjectAtFirstBrace(text, b2, o2, a2)
    ensures b1 == b2 && o1 == o2
  {
    ObjectTextShape(o1);
    ObjectTextShape(o2);
    assert text == b1 + (o1 + a1) == b2 + (o2 + a2);
    FirstBraceAt(b1, o1 + a1);
    FirstBraceAt(b2, o2 + a2);
    assert text[|b1|..] == o1 + a1 == o2 + a2;
    assert b1 == text[..|b1|] == b2;
    ObjectTextsArePrefixFree(o1, a1, o2, a2);
  }

  lemma TrimKeepsObject(text: string, before: string, obj: string, after: string)
    returns (b: string, a: string)
    requires ObjectAtFirstBrace(text, before, obj, after)
    ensures ObjectAtFirstBrace(Trim(text), b, obj, a)
  {
    ObjectTextShape(obj);
    TrimStartKeeps(before, obj + after);
    assert text == before + (obj + after);
    b := TrimStart(before);
    var cut := TrimStartCuts(before);
    assert forall c :: c in b ==> c in before;
    TrimEndKeeps(b + obj, after);
    assert b + obj + after == b + (obj + after);
    a := TrimEnd(after);
    LastCharIsBrace(obj);
  }

  lemma LastCharIsBrace(obj: string)
    requires IsObjectText(obj)
    ensures obj != "" && obj[|obj| - 1] == '}'
  {
    var o: Json :| o.Object? && WellFormed(o) && obj == Print(o);
    assert obj == ObjectWithoutBrace(o) + "}";
  }

  lemma {:induction false} TrimStartKeeps(before: string, s: string)
    requires s != "" && !IsSpace(s[0])
    ensures TrimStart(before + s) == TrimStart(before) + s
  {
    if before == "" {
      assert before + s == s;
    } else if IsSpace(before[0]) {
      assert (before + s)[1..] == before[1..] + s;
      TrimStartKeeps(before[1..], s);
    }
  }

  lemma {:induction false} TrimEndKeeps(s: string, after: string)
    requires s != "" && !IsSpace(s[|s| - 1])
    ensures TrimEnd(s + after) == s + TrimEnd(after)
  {
    if after == "" {
      assert s + after == s;
    } else {
      var last := after[|after| - 1];
      assert (s + after)[|s + after| - 1] == last;
      if IsSpace(last) {
        assert (s + after)[..|s + after| - 1] == s + after[..|after| - 1];
        TrimEndKeeps(s, after[..|after| - 1]);
      }
    }
  }

  /** Healing finds the object whose brace comes first. */
  lemma HealFindsObject<V>(trimmed: string, parse: string -> Option<V>, before: string, obj: string, after: string)
    requires ObjectAtFirstBrace(trimmed, before, obj, after) && !("[" <= trimmed)
    ensures Heal(trimmed, parse) == parse(obj)
  {
    ObjectTextShape(obj);
    assert trimmed == before + (obj + after);
    FirstBraceAt(before, obj + after);
    ScanOfObjectText(obj, after);
    assert trimmed[|before|..] == obj + after;
    assert trimmed[|before|..|before| + |obj|] == obj;
  }

  lemma {:induction false} ScanOfObjectText(obj: string, after: string)
    requires IsObjectText(obj)
    ensures ScanLength(obj + after, Open(0)) == Some(|obj|)
  {
    var o: Json :| o.Object? && WellFormed(o) && obj == Print(o);
    ScanStopsAtObjectEnd(o, after);
  }

  /**
   Main result. When the first brace of the text opens a JSON object, whatever
   prose, fences or braces stand around or inside it, the envelope is the parse
   of exactly that object.
   */
  lemma EnvelopeRecoversObject<V(!new)>(text: string, parse: string -> Option<V>, before: string, obj: string, after: string)
    requires ParsesObjects(parse)
    requires ObjectAtFirstBrace(text, before, obj, after) && !("[" <= Trim(text))
    ensures Envelope(text, parse) == parse(obj) && parse(obj).Some?
  {
    ObjectTextShape(obj);
    var direct := StripFences(text);
    TrimIsIdempotent(StripClosingFence(StripOpeningFence(text)));
    if parse(direct).Some? {
      var b, a := StripFencesCuts(text);
      FirstObjectIsUnique(text, before, obj, after, b, direct, a);
    } else {
      var b, a := TrimKeepsObject(text, before, obj, after);
      HealFindsObject(Trim(text), parse, b, obj, a);
    }
  }

  /**
   Conversely, an envelope is never made up: it is the parse of the object at
   the first brace of a text that does not start with an array.
   */
  lemma EnvelopeOnlyFromFirstBrace<V(!new)>(text: string, parse: string -> Option<V>)
    returns (before: string, obj: string, after: string)
    requires ParsesObjects(parse) && Envelope(text, parse).Some?
    ensures ObjectAtFirstBrace(text, before, obj, after) && !("[" <= Trim(text))
    ensures Envelope(text, parse) == parse(obj)
  {
    DirectIsTrimmed(text);
    if parse(StripFences(text)).Some? {
      obj := StripFences(text);
      before, after := FencedObject(text, obj);
    } else {
      before, obj, after := HealedObject(text, parse);
    }
  }

  lemma DirectIsTrimmed(text: string)
    ensures Trim(StripFences(text)) == StripFences(text)
  {
    TrimIsIdempotent(StripClosingFence(StripOpeningFence(text)));
  }

  lemma FencedObject(text: string, obj: string) returns (before: string, after: string)
    requires StripFences(text) == obj && IsObjectText(obj)
    ensures ObjectAtFirstBrace(text, before, obj, after) && !("[" <= Trim(text))
  {
    before, after := StripFencesCuts(text);
    ObjectTextShape(obj);
    NoArrayBeforeObject(text, before, obj, after);
  }

  lemma HealedObject<V(!new)>(text: string, parse: string -> Option<V>)
    returns (before: string, obj: string, after: string)
    requires ParsesObjects(parse) && Heal(Trim(text), parse).Some?
    ensures ObjectAtFirstBrace(text, before, obj, after) && !("[" <= Trim(text))
    ensures Heal(Trim(text), parse) == parse(obj)
  {
    before, obj, after := HealedText(Trim(text), parse);
    var b, a := TrimCuts(text);
    Regroup(b, before, obj, after, a);
    before, after := b + before, after + a;
  }

  lemma HealedText<V(!new)>(trimmed: string, parse: string -> Option<V>)
    returns (before: string, obj: string, after: string)
    requires ParsesObjects(parse) && Heal(trimmed, parse).Some?
    ensures ObjectAtFirstBrace(trimmed, before, obj, after) && !("[" <= trimmed)
    ensures Heal(trimmed, parse) == parse(obj)
  {
    var start := FirstBrace(trimmed);
    var n := ScanLength(trimmed[start..], Open(0)).value;
    before, obj, after := trimmed[..start], trimmed[start..start + n], trimmed[start + n..];
    assert obj[0] == '{' && obj[|obj| - 1] == trimmed[start..][n - 1] == '}';
    BracedIsTrimmed(obj);
    InThree(trimmed, start, start + n);
  }

  lemma BracedIsTrimmed(obj: string)
    requires obj != "" && obj[0] == '{' && obj[|obj| - 1] == '}'
    ensures Trim(obj) == obj
  {
  }

  lemma InThree(text: string, i: nat, j: nat)
    requires i <= j <= |text|
    ensures text == text[..i] + text[i..j] + text[j..]
  {
  }

  /** A direct parse never comes from a text that starts with an array. */
  lemma NoArrayBeforeObject(text: string, before: string, obj: string, after: string)
    requires StripFences(text) == obj && IsObjectText(obj)
    ensures !("[" <= Trim(text))
  {
    if "[" <= Trim(text) {
      TrimEndFixed(TrimStart(text));
      assert TrimStart(text)[0] == '[';
      FencedTextIsTrimmed(text);
      ClosedStartsAlike(text);
      ObjectTextShape(obj);
      assert false;
    }
  }

  lemma {:induction false} FencedTextIsTrimmed(text: string)
    ensures "```" <= text ==> TrimStart(text) == text && text[0] == '`'
  {
  }

  /** Without an opening fence, the direct text starts where the trimmed text does. */
  lemma {:induction false} ClosedStartsAlike(text: string)
    requires TrimStart(text) != "" && TrimStart(text)[0] == '['
    ensures var s := Trim(StripClosingFence(text)); s == "" || s[0] == '['
  {
    var closed := StripClosingFence(text);
    assert closed <= text by {
      if |text| >= 3 { TrimEndFixed(text[..|text| - 3]); }
    }
    TrimStartOfPrefix(closed, text);
    TrimEndFixed(TrimStart(closed));
  }

  lemma {:induction false} TrimStartOfPrefix(p: string, s: string)
    requires p <= s
    ensures TrimStart(p) == "" || (TrimStart(s) != "" && TrimStart(p)[0] == TrimStart(s)[0])
  {
    if p != "" && IsSpace(p[0]) {
      TrimStartOfPrefix(p[1..], s[1..]);
    }
  }

  /** Main result, both ways: when an envelope comes out of a text at all. */
  lemma EnvelopeExactly<V(!new)>(text: string, parse: string -> Option<V>)
    requires ParsesObjects(parse)
    ensures Envelope(text, parse).Some? <==> !("[" <= Trim(text)) && HasObjectAtFirstBrace(text)
  {
    if Envelope(text, parse).Some? {
      var before, obj, after := EnvelopeOnlyFromFirstBrace(text, parse);
    } else if !("[" <= Trim(text)) {
      forall before: string, obj: string, after: string | ObjectAtFirstBrace(text, before, obj, after)
        ensures false
      {
        EnvelopeRecoversObject(text, parse, before, obj, after);
      }
    }
  }

  /** An object inside an array, with something before the array and anything after the object. */
  function InArray(lead: string, before: string, obj: string, after: string): string {
    (lead + "[" + before) + obj + after
  }

  /**
   An object is not to be fished out of an array. Only a trimmed text that begins with the
   bracket is refused: the array's first object is recovered exactly when it does not.
   */
  lemma FishedOutOfArrayExactly<V(!new)>(lead: string, before: string, obj: string, after: string, parse: string -> Option<V>)
    requires ParsesObjects(parse) && '{' !in lead && '{' !in before && IsObjectText(obj)
    ensures var text := InArray(lead, before, obj, after);
      if "[" <= Trim(text) then Envelope(text, parse).None? else Envelope(text, parse) == parse(obj) && parse(obj).Some?
  {
    var text := InArray(lead, before, obj, after);
    assert ObjectAtFirstBrace(text, lead + "[" + before, obj, after);
    if "[" <= Trim(text) {
      EnvelopeExactly(text, parse);
    } else {
      EnvelopeRecoversObject(text, parse, lead + "[" + before, obj, after);
    }
  }

  /** A fenced array of one object, out of which the object is fished. */
  lemma FencedArrayIsOpened<V(!new)>(parse: string -> Option<V>) returns (text: string)
    requires ParsesObjects(parse)
    ensures text == "```json\n[" + "{}" + "]\n```"
    ensures Envelope(text, parse) == parse("{}") && parse("{}").Some?
  {
    text := InArray("```json\n", "", "{}", "]\n```");
    assert "```json\n" + "[" + "" == "```json\n[";
    assert Print(Object("", NoMembers)) == "{}" && WellFormed(Object("", NoMembers));
    assert text[0] == '`';
    TrimEndFixed(TrimStart(text));
    FishedOutOfArrayExactly("```json\n", "", "{}", "]\n```", parse);
  }
}
