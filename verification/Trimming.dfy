/** The string operations of JavaScript that several components share. */
module Trimming {

  predicate IsDigit(c: char) { '0' <= c <= '9' }

  /** The characters `trim` removes and `\\s` matches in JavaScript. */
  predicate IsSpace(c: char) {
    || '\t' <= c <= '\r' || c == ' ' || c == '\U{00A0}' || c == '\U{1680}'
    || '\U{2000}' <= c <= '\U{200A}' || c == '\U{2028}' || c == '\U{2029}'
    || c == '\U{202F}' || c == '\U{205F}' || c == '\U{3000}' || c == '\U{FEFF}'
  }

  function TrimStart(s: string): string {
    if s != "" && IsSpace(s[0]) then TrimStart(s[1..]) else s
  }

  function TrimEnd(s: string): string {
    if s != "" && IsSpace(s[|s| - 1]) then TrimEnd(s[..|s| - 1]) else s
  }

  function Trim(s: string): string { TrimEnd(TrimStart(s)) }

  lemma {:induction false} TrimEndFixed(s: string)
    ensures TrimEnd(TrimEnd(s)) == TrimEnd(s)
    ensures TrimEnd(s) <= s
  {
    if s != "" && IsSpace(s[|s| - 1]) {
      TrimEndFixed(s[..|s| - 1]);
    }
  }

  lemma {:induction false} TrimStartShape(s: string)
    ensures TrimStart(s) == "" || !IsSpace(TrimStart(s)[0])
  {
    if s != "" && IsSpace(s[0]) {
      TrimStartShape(s[1..]);
    }
  }

  lemma TrimIsIdempotent(s: string)
    ensures Trim(Trim(s)) == Trim(s)
  {
    TrimStartShape(s);
    TrimEndFixed(TrimStart(s));
    assert TrimStart(Trim(s)) == Trim(s);
  }

  /** The UTF-16 code units of a character. */
  function Units(c: char): nat { if c < '\U{10000}' then 1 else 2 }

  /** `length` */
  function CodeUnits(s: string): nat {
    if s == "" then 0 else Units(s[0]) + CodeUnits(s[1..])
  }

  /**
   `slice(0, n)`. Where it cuts a surrogate pair in two it leaves half of one, which
   every UTF-8 writer replaces by U+FFFD.
   */
  function SliceUnits(s: string, n: nat): string {
    if s == "" || n == 0 then ""
    else if Units(s[0]) <= n then [s[0]] + SliceUnits(s[1..], n - Units(s[0]))
    else "\U{FFFD}"
  }

  /** A slice is as long as asked, or the whole text; all but a cut pair of it is the text's beginning. */
  lemma {:induction false} SliceShape(s: string, n: nat)
    ensures CodeUnits(SliceUnits(s, n)) == if CodeUnits(s) <= n then CodeUnits(s) else n
    ensures CodeUnits(s) <= n ==> SliceUnits(s, n) == s
    ensures SliceUnits(s, n) <= s || (SliceUnits(s, n) != "" && SliceUnits(s, n)[..|SliceUnits(s, n)| - 1] <= s)
  {
    if s != "" && n != 0 && Units(s[0]) <= n {
      var rest := SliceUnits(s[1..], n - Units(s[0]));
      SliceShape(s[1..], n - Units(s[0]));
      assert ([s[0]] + rest)[1..] == rest;
      if !(rest <= s[1..]) {
        assert ([s[0]] + rest)[..|rest|] == [s[0]] + rest[..|rest| - 1];
      }
    }
  }

  lemma {:induction false} UnitsOfConcat(a: string, b: string)
    ensures CodeUnits(a + b) == CodeUnits(a) + CodeUnits(b)
  {
    if a == "" {
      assert a + b == b;
    } else {
      assert (a + b)[1..] == a[1..] + b;
      UnitsOfConcat(a[1..], b);
    }
  }

  /** A text cut to at most `limit` units, the last `room` of which are room for the marker. */
  function CutTo(text: string, limit: nat, room: nat, marker: string): (r: string)
    requires CodeUnits(marker) <= room <= limit
    ensures CodeUnits(r) <= limit && (CodeUnits(text) <= limit ==> r == text)
  {
    if CodeUnits(text) <= limit then text
    else
      SliceShape(text, limit - room);
      UnitsOfConcat(SliceUnits(text, limit - room), marker);
      SliceUnits(text, limit - room) + marker
  }

  const TRUNCATION_MARKER := "…[truncated]"

  lemma MarkerUnits()
    ensures CodeUnits(TRUNCATION_MARKER) == 12 == |TRUNCATION_MARKER|
  {
    assert TRUNCATION_MARKER[1..] == "[truncated]";
    AsciiUnits("[truncated]");
  }

  lemma {:induction false} AsciiUnits(s: string)
    requires forall i :: 0 <= i < |s| ==> s[i] < '\U{80}'
    ensures CodeUnits(s) == |s|
  {
    if s != "" {
      AsciiUnits(s[1..]);
    }
  }
}
