/**
 The canonical form both edges hash (apps/edge-agent/src/render.ts and
 apps/imessage-sensor/src/poll.ts): NFC, then line endings folded to LF.
 NFC and SHA-256 are parameters.
 */
module CanonicalText {
  import opened Trimming

  /** CRLF and CR folded to LF. */
  function Fold(s: string): string {
    if s == "" then ""
    else if s[0] == '\r' && |s| >= 2 && s[1] == '\n' then "\n" + Fold(s[2..])
    else (if s[0] == '\r' then "\n" else [s[0]]) + Fold(s[1..])
  }

  /** Text without carriage returns is already folded. */
  lemma {:induction false} FoldFixed(s: string)
    requires '\r' !in s
    ensures Fold(s) == s
  {
    if s != "" {
      FoldFixed(s[1..]);
    }
  }

  lemma {:induction false} FoldShape(s: string)
    ensures '\r' !in Fold(s) && CodeUnits(Fold(s)) <= CodeUnits(s) && (s != "" ==> Fold(s) != "")
  {
    if s != "" {
      if s[0] == '\r' && |s| >= 2 && s[1] == '\n' {
        FoldShape(s[2..]);
      } else {
        FoldShape(s[1..]);
      }
    }
  }

  lemma {:induction false} FoldIsIdempotent(s: string)
    ensures Fold(Fold(s)) == Fold(s)
  {
    FoldShape(s);
    FoldFixed(Fold(s));
  }

  /** Unicode composition and the digest, as given. */
  datatype Platform = Platform(nfc: string -> string, sha256: string -> string)

  function CanonicalNormalize(text: string, p: Platform): string { Fold(p.nfc(text)) }

  /** renderedTextSha256 on the edge, canonicalTextSha256 on the sensor. */
  function CanonicalHash(text: string, p: Platform): string { p.sha256(CanonicalNormalize(text, p)) }

  /** Composing characters neither makes nor breaks line endings. */
  ghost predicate NfcCommutesWithFold(p: Platform) {
    forall s: string :: p.nfc(Fold(s)) == Fold(p.nfc(s))
  }

  /** Folding line endings on the way does not change the fingerprint. */
  lemma {:induction false} HashOfFolded(text: string, p: Platform)
    requires NfcCommutesWithFold(p)
    ensures CanonicalHash(Fold(text), p) == CanonicalHash(text, p)
  {
    assert p.nfc(Fold(text)) == Fold(p.nfc(text));
    FoldIsIdempotent(p.nfc(text));
  }
}
