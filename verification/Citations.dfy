/**
 Citation reconciliation (packages/workflow/src/research-web.ts): a citation that
 names a URL survives only if the provider's retrieval record holds that URL.
 URL normalization is a parameter.
 */
module Citations {
  import opened Prelude

  /** A citation as the worker wrote it; a field is None when it is not a non-empty string. */
  datatype RawCitation =
    | NotAnObject
    | Fields(ref: Option<string>, note: Option<string>, url: Option<string>, title: Option<string>)

  datatype Citation = Citation(ref: string, note: Option<string>, url: Option<string>, title: Option<string>)

  /** One entry of the provider's retrieval record. */
  datatype Annotation = Annotation(url: Option<string>, title: Option<string>)

  type Normalize = string -> string

  /** The retrieval record by normalized URL; a later entry replaces an earlier one. */
  function Index(annotations: seq<Annotation>, norm: Normalize): map<string, Annotation> {
    if annotations == [] then map[]
    else
      var rest := Index(annotations[..|annotations| - 1], norm);
      var last := annotations[|annotations| - 1];
      if last.url.Some? then rest[norm(last.url.value) := last] else rest
  }

  /** The record at position i speaks for this URL. */
  predicate Corroborates(annotations: seq<Annotation>, norm: Normalize, i: nat, url: string) {
    && i < |annotations|
    && annotations[i].url.Some?
    && norm(annotations[i].url.value) == norm(url)
  }

  /** A URL that the retrieval record holds. */
  ghost predicate Retrieved(annotations: seq<Annotation>, norm: Normalize, url: string) {
    exists i: nat :: Corroborates(annotations, norm, i, url)
  }

  ghost predicate LastCorroborates(annotations: seq<Annotation>, norm: Normalize, i: nat, url: string) {
    && Corroborates(annotations, norm, i, url)
    && forall j: nat :: i < j ==> !Corroborates(annotations, norm, j, url)
  }

  /** The index holds a URL exactly when some record corroborates it, and answers with the last one. */
  lemma {:induction false} IndexMeaning(annotations: seq<Annotation>, norm: Normalize, url: string)
    ensures norm(url) in Index(annotations, norm) <==> Retrieved(annotations, norm, url)
    ensures forall i: nat | LastCorroborates(annotations, norm, i, url) ::
              norm(url) in Index(annotations, norm) && Index(annotations, norm)[norm(url)] == annotations[i]
  {
    if annotations != [] {
      var n := |annotations| - 1;
      var front := annotations[..n];
      IndexMeaning(front, norm, url);
      assert forall i: nat :: i < n ==> (Corroborates(annotations, norm, i, url) <==> Corroborates(front, norm, i, url));
      if !Corroborates(annotations, norm, n, url) {
        assert forall i: nat :: Corroborates(annotations, norm, i, url) ==> Corroborates(front, norm, i, url);
        assert forall i: nat :: LastCorroborates(annotations, norm, i, url) ==> LastCorroborates(front, norm, i, url);
      }
    }
  }

  /** What one citation becomes: kept (perhaps with a title from the record) or dropped. */
  function Keep(c: RawCitation, index: map<string, Annotation>, norm: Normalize): Option<Citation> {
    if c.NotAnObject? || c.ref.None? then None
    else if c.url.None? then Some(Citation(c.ref.value, c.note, c.url, c.title))
    else if norm(c.url.value) !in index then None
    else
      var title := if c.title.None? then index[norm(c.url.value)].title else c.title;
      Some(Citation(c.ref.value, c.note, c.url, title))
  }

  function KeepAll(cs: seq<RawCitation>, index: map<string, Annotation>, norm: Normalize): seq<Citation> {
    if cs == [] then []
    else
      var n := |cs| - 1;
      var front := KeepAll(cs[..n], index, norm);
      match Keep(cs[n], index, norm)
      case None => front
      case Some(c) => front + [c]
  }

  method Reconcile(citations: seq<RawCitation>, annotations: seq<Annotation>, norm: Normalize)
    returns (kept: seq<Citation>, dropped: nat)
    ensures kept == KeepAll(citations, Index(annotations, norm), norm)
    ensures |kept| + dropped == |citations|
  {
    var byUrl: map<string, Annotation> := map[];
    for i := 0 to |annotations|
      invariant byUrl == Index(annotations[..i], norm)
    {
      assert annotations[..i + 1][..i] == annotations[..i];
      if annotations[i].url.Some? {
        byUrl := byUrl[norm(annotations[i].url.value) := annotations[i]];
      }
    }
    assert annotations[..|annotations|] == annotations;
    kept, dropped := [], 0;
    for i := 0 to |citations|
      invariant kept == KeepAll(citations[..i], byUrl, norm)
      invariant |kept| + dropped == i
    {
      assert citations[..i + 1][..i] == citations[..i];
      var raw := citations[i];
      if raw.NotAnObject? {
        dropped := dropped + 1;
      } else if raw.ref.None? {
        dropped := dropped + 1;
      } else {
        var base := Citation(raw.ref.value, raw.note, raw.url, raw.title);
        if base.url.None? {
          kept := kept + [base];
        } else if norm(base.url.value) !in byUrl {
          dropped := dropped + 1;
        } else {
          var match_ := byUrl[norm(base.url.value)];
          kept := kept + [if base.title.None? then base.(title := match_.title) else base];
        }
      }
    }
    assert citations[..|citations|] == citations;
  }

  /** Named, and either without a URL or with a retrieved one. */
  ghost predicate Grounded(raw: RawCitation, annotations: seq<Annotation>, norm: Normalize) {
    raw.Fields? && raw.ref.Some? && (raw.url.None? || Retrieved(annotations, norm, raw.url.value))
  }

  /** c is raw, up to a title filled in from the record. */
  predicate SameCitation(raw: RawCitation, c: Citation) {
    && raw.Fields? && Some(c.ref) == raw.ref && c.note == raw.note && c.url == raw.url
    && (raw.title.Some? ==> c.title == raw.title)
  }

  /** No invented URL survives, and every citation that has nothing to prove does. */
  lemma {:induction false} KeptAreCorroborated(cs: seq<RawCitation>, annotations: seq<Annotation>, norm: Normalize)
    ensures forall c | c in KeepAll(cs, Index(annotations, norm), norm) ::
              c.url.Some? ==> Retrieved(annotations, norm, c.url.value)
    ensures forall raw | raw in cs && Grounded(raw, annotations, norm) ::
              exists c :: c in KeepAll(cs, Index(annotations, norm), norm) && SameCitation(raw, c)
  {
    var index := Index(annotations, norm);
    if cs != [] {
      var n := |cs| - 1;
      KeptAreCorroborated(cs[..n], annotations, norm);
      var raw := cs[n];
      assert forall r :: r in cs ==> r in cs[..n] || r == raw;
      if raw.Fields? && raw.url.Some? {
        IndexMeaning(annotations, norm, raw.url.value);
      }
      var front := KeepAll(cs[..n], index, norm);
      var all := KeepAll(cs, index, norm);
      assert forall c :: c in front ==> c in all;
      if Grounded(raw, annotations, norm) {
        var c := Keep(raw, index, norm).value;
        assert all[|all| - 1] == c && SameCitation(raw, c);
      }
    }
  }

  lemma {:induction false} LastExists(annotations: seq<Annotation>, norm: Normalize, url: string) returns (i: nat)
    requires Retrieved(annotations, norm, url)
    ensures LastCorroborates(annotations, norm, i, url)
  {
    var n := |annotations| - 1;
    if Corroborates(annotations, norm, n, url) { return n; }
    var front := annotations[..n];
    assert forall j: nat :: j < n ==> (Corroborates(annotations, norm, j, url) <==> Corroborates(front, norm, j, url));
    var k: nat :| Corroborates(annotations, norm, k, url);
    assert Corroborates(front, norm, k, url);
    i := LastExists(front, norm, url);
    assert forall j: nat :: i < j ==> !Corroborates(annotations, norm, j, url);
  }

  /** The citation's own title, or that of the last record that speaks for its URL. */
  ghost predicate TitledAs(raw: RawCitation, annotations: seq<Annotation>, norm: Normalize, title: Option<string>)
    requires raw.Fields?
  {
    if raw.title.Some? || raw.url.None? then title == raw.title
    else exists i: nat :: LastCorroborates(annotations, norm, i, raw.url.value) && title == annotations[i].title
  }

  /** What is kept of one citation, field by field: it is kept exactly when it is grounded, as it is but for a missing title. */
  lemma {:induction false} KeptExactly(raw: RawCitation, annotations: seq<Annotation>, norm: Normalize, c: Citation)
    ensures Keep(raw, Index(annotations, norm), norm) == Some(c) <==>
      && Grounded(raw, annotations, norm) && Some(c.ref) == raw.ref && c.note == raw.note && c.url == raw.url
      && TitledAs(raw, annotations, norm, c.title)
  {
    if raw.Fields? && raw.url.Some? {
      var url := raw.url.value;
      IndexMeaning(annotations, norm, url);
      if Retrieved(annotations, norm, url) {
        var last := LastExists(annotations, norm, url);
        assert Index(annotations, norm)[norm(url)] == annotations[last];
        assert forall i: nat :: LastCorroborates(annotations, norm, i, url) ==> i == last;
      }
    }
  }

  /** And what is kept of several is what is kept of each, in their order. */
  lemma {:induction false} KeptInOrder(a: seq<RawCitation>, b: seq<RawCitation>, index: map<string, Annotation>, norm: Normalize)
    ensures KeepAll(a + b, index, norm) == KeepAll(a, index, norm) + KeepAll(b, index, norm)
  {
    if b == [] {
      assert a + b == a;
    } else {
      var n := |b| - 1;
      KeptInOrder(a, b[..n], index, norm);
      assert (a + b)[..|a + b| - 1] == a + b[..n];
    }
  }

  /** A kept citation, handed back as the worker's own. */
  function AsRaw(c: Citation): RawCitation { Fields(Some(c.ref), c.note, c.url, c.title) }

  function AsRaws(cs: seq<Citation>): (r: seq<RawCitation>)
    ensures |r| == |cs|
  {
    if cs == [] then [] else AsRaws(cs[..|cs| - 1]) + [AsRaw(cs[|cs| - 1])]
  }

  lemma {:induction false} KeepAllOfOneMore(raws: seq<RawCitation>, raw: RawCitation, index: map<string, Annotation>, norm: Normalize)
    ensures KeepAll(raws + [raw], index, norm)
         == KeepAll(raws, index, norm)
          + (if Keep(raw, index, norm).Some? then [Keep(raw, index, norm).value] else [])
  {
    assert (raws + [raw])[..|raws|] == raws;
  }

  lemma {:induction false} AsRawsOfOneMore(cs: seq<Citation>, c: Citation)
    ensures AsRaws(cs + [c]) == AsRaws(cs) + [AsRaw(c)]
  {
    assert (cs + [c])[..|cs|] == cs;
  }

  /** Reconciling what was kept once more, against the same record, changes and drops nothing. */
  lemma {:induction false} ReconcileIsIdempotent(cs: seq<RawCitation>, index: map<string, Annotation>, norm: Normalize)
    ensures KeepAll(AsRaws(KeepAll(cs, index, norm)), index, norm) == KeepAll(cs, index, norm)
  {
    if cs != [] {
      var n := |cs| - 1;
      ReconcileIsIdempotent(cs[..n], index, norm);
      if Keep(cs[n], index, norm).Some? {
        var front := KeepAll(cs[..n], index, norm);
        var c := Keep(cs[n], index, norm).value;
        AsRawsOfOneMore(front, c);
        KeepAllOfOneMore(AsRaws(front), AsRaw(c), index, norm);
        assert Keep(AsRaw(c), index, norm) == Some(c);
      }
    }
  }
}
