/** Fail-closed validation of an analysis provider's candidates, and the redaction pass after it. */
module Analysis {
  import opened Text

  const MAX_ANALYSIS_RESPONSE_BYTES := 256 * 1024
  const MAX_LINK_CANDIDATES := 32
  const MAX_INSIGHT_CANDIDATES := 16
  const MAX_SOURCE_URIS_PER_INSIGHT := 16
  const MAX_TAGS_PER_CANDIDATE := 64
  const MAX_URI_BYTES := 2 * 1024
  const MAX_RELATION_BYTES := 64
  const MAX_INSIGHT_TYPE_BYTES := 64
  const MAX_TITLE_BYTES := 256
  const MAX_STATEMENT_BYTES := 8 * 1024
  const MAX_RATIONALE_BYTES := 2 * 1024
  const MAX_TAG_BYTES := 128

  datatype Kind = LinkKind | InsightKind

  datatype Code =
    | InvalidCandidateSchema | EmptyField | FieldTooLong | InvalidUri | UnauthorizedUri | SelfLink
    | UnsupportedRelation | InvalidScore | MissingEvidenceUri | TooManySourceUris | TooManyTags | InvalidTag
    | DuplicateCandidate

  datatype Rejection = Rejection(kind: Kind, index: nat, code: Code)

  datatype OutputError =
    | ResponseTooLarge | InvalidJson | InvalidEnvelope | CandidateLimitExceeded(kind: Kind, index: nat)

  /** A provider score; rounding to single precision is not modelled. */
  datatype Score = NotFinite | Finite(value: real)

  /** A candidate as parsed; None stands for a value that does not fit the candidate schema. */
  datatype RawLink = RawLink(
    sourceUri: string, targetUri: string, relation: string, rationale: Option<string>, confidence: Score,
        tags: seq<string>)

  datatype RawInsight = RawInsight(
    insightType: string, title: string, statement: string, confidence: Score, salience: Score,
    sourceUris: seq<string>, tags: seq<string>)

  datatype Response = NotJson | NotEnvelope | Envelope(links: seq<Option<RawLink>>, insights: seq<Option<RawInsight>>)

  datatype Link = Link(
    sourceUri: string, targetUri: string, relation: string, rationale: Option<string>, confidence: real,
        tags: seq<string>)

  datatype Insight = Insight(
    insightType: string, title: string, statement: string, confidence: real, salience: real,
    sourceUris: seq<string>, tags: seq<string>)

  datatype Output = Output(links: seq<Link>, insights: seq<Insight>, rejections: seq<Rejection>)

  // ---- Fields ----

  predicate NoControls(s: string) { forall i :: 0 <= i < |s| ==> !IsControl(s[i]) }

  /** A trimmed, visible text of at most `max` bytes without control characters. */
  predicate Bounded(s: string, max: nat) {
    s != "" && Trim(s) == s && ByteLen(s) <= max && NoControls(s)
  }

  function RequiredField(value: string, max: nat): (r: Result<string, Code>)
    ensures r.Ok? ==> r.value == Trim(value) && Bounded(r.value, max)
  {
    var v := Trim(value);
    TrimIsIdempotent(value);
    if v == "" then Err(EmptyField)
    else if ByteLen(v) > max then Err(FieldTooLong)
    else if !NoControls(v) then Err(InvalidCandidateSchema)
    else Ok(v)
  }

  function OptionalField(value: Option<string>, max: nat): (r: Result<Option<string>, Code>)
    ensures r.Ok? && r.value.Some? ==> Bounded(r.value.value, max)
  {
    if value.None? then Ok(None)
    else
      var v := Trim(value.value);
      TrimIsIdempotent(value.value);
      if v == "" then Ok(None)
      else if ByteLen(v) > max then Err(FieldTooLong)
      else if !NoControls(v) then Err(InvalidCandidateSchema)
      else Ok(Some(v))
  }

  function ValidateScore(s: Score): (r: Result<real, Code>)
    ensures r.Ok? ==> 0.0 <= r.value <= 1.0
  {
    if s.Finite? && 0.0 <= s.value <= 1.0 then Ok(s.value) else Err(InvalidScore)
  }

  const SCHEME := "ctx://"

  function StripSuffix(s: string, suffix: string): Option<string> {
    if |s| >= |suffix| && s[|s| - |suffix|..] == suffix then Some(s[..|s| - |suffix|]) else None
  }

  /** At most one layer suffix is removed. */
  function StripLayer(uri: string): string {
    if StripSuffix(uri, "/.abstract").Some? then StripSuffix(uri, "/.abstract").value
    else if StripSuffix(uri, "/.overview").Some? then StripSuffix(uri, "/.overview").value
    else if StripSuffix(uri, "/detail").Some? then StripSuffix(uri, "/detail").value
    else if StripSuffix(uri, "/chunks/0001").Some? then StripSuffix(uri, "/chunks/0001").value
    else uri
  }

  function NormalizeUri(uri: string): Result<string, Code> {
    var u := Trim(uri);
    if u == "" then Err(EmptyField)
    else if ByteLen(u) > MAX_URI_BYTES then Err(FieldTooLong)
    else if !(SCHEME <= u) || u == SCHEME || (exists i :: 0 <= i < |u| && IsWhitespace(u[i])) || !NoControls(u)
        then Err(InvalidUri)
    else if ByteLen(StripLayer(u)) == ByteLen(SCHEME) then Err(InvalidUri)
    else Ok(StripLayer(u))
  }

  function Lower(c: char): char {
    if 'A' <= c <= 'Z' then (c as int + 32) as char else c
  }

  function LowerAll(s: string): string { seq(|s|, i requires 0 <= i < |s| => Lower(s[i])) }

  function NormalizeRelation(relation: string): (r: Result<string, Code>)
    ensures r.Ok? ==> r.value in {"related", "supports"}
  {
    var v := Trim(relation);
    if v == "" then Err(EmptyField)
    else if ByteLen(v) > MAX_RELATION_BYTES then Err(FieldTooLong)
    else if LowerAll(v) !in {"related", "supports"} then Err(UnsupportedRelation)
    else Ok(LowerAll(v))
  }

  predicate Distinct<T(==)>(s: seq<T>) { forall i, j :: 0 <= i < j < |s| ==> s[i] != s[j] }

  /** Append unless already present. */
  function AddNew<T(==,!new)>(s: seq<T>, x: T): (r: seq<T>)
    ensures Distinct(s) ==> Distinct(r)
    ensures forall y :: y in r <==> y in s || y == x
  {
    if x in s then s else s + [x]
  }

  function CheckTag(tag: string): (r: Result<string, Code>)
    ensures r.Ok? ==> r.value == Trim(tag) && Bounded(r.value, MAX_TAG_BYTES)
  {
    var t := Trim(tag);
    TrimIsIdempotent(tag);
    if t == "" then Err(InvalidTag)
    else if ByteLen(t) > MAX_TAG_BYTES then Err(FieldTooLong)
    else if !NoControls(t) then Err(InvalidTag)
    else Ok(t)
  }

  predicate GoodTags(tags: seq<string>) {
    Distinct(tags) && forall i :: 0 <= i < |tags| ==> Bounded(tags[i], MAX_TAG_BYTES)
  }

  /** The tags so far, extended by the rest; the first bad tag decides. */
  function TagsFrom(tags: seq<string>, done: seq<string>): (r: Result<seq<string>, Code>)
    requires GoodTags(done)
    ensures r.Ok? ==> GoodTags(r.value)
    decreases |tags|
  {
    if tags == [] then Ok(done)
    else
      var t :- CheckTag(tags[0]);
      assert forall i :: 0 <= i < |AddNew(done, t)| ==> AddNew(done, t)[i] in AddNew(done, t);
      assert forall x :: x in AddNew(done, t) ==> Bounded(x, MAX_TAG_BYTES) by {
        assert forall x :: x in done ==> Bounded(x, MAX_TAG_BYTES);
      }
      TagsFrom(tags[1..], AddNew(done, t))
  }

  function Tags(tags: seq<string>): (r: Result<seq<string>, Code>)
    ensures r.Ok? ==> GoodTags(r.value)
  {
    if |tags| > MAX_TAGS_PER_CANDIDATE then Err(TooManyTags) else TagsFrom(tags, [])
  }

  method NormalizeTags(tags: seq<string>) returns (r: Result<seq<string>, Code>)
    ensures r == Tags(tags)
  {
    hide CheckTag, AddNew, Distinct, Bounded, GoodTags, Trim;
    if |tags| > MAX_TAGS_PER_CANDIDATE { return Err(TooManyTags); }
    var normalized: seq<string>, seen: set<string> := [], {};
    EmptyTags();
    for i := 0 to |tags|
      invariant GoodTags(normalized) && seen == set t | t in normalized
      invariant TagsFrom(tags, []) == TagsFrom(tags[i..], normalized)
    {
      assert tags[i..][0] == tags[i] && tags[i..][1..] == tags[i + 1..];
      var tag := CheckTag(tags[i]);
      if tag.Err? { return Err(tag.error); }
      GoodAfterAdd(normalized, tag.value);
      if tag.value !in seen {
        seen := seen + {tag.value};
        normalized := normalized + [tag.value];
      }
    }
    assert tags[|tags|..] == [];
    r := Ok(normalized);
  }

  lemma EmptyTags()
    ensures GoodTags([])
  {}

  lemma GoodAfterAdd(tags: seq<string>, t: string)
    requires GoodTags(tags) && Bounded(t, MAX_TAG_BYTES)
    ensures GoodTags(AddNew(tags, t)) && AddNew(tags, t) == if t in tags then tags else tags + [t]
  {}

  // ---- Candidates ----

  function ValidateLink(c: RawLink, allowed: set<string>): Result<Link, Code> {
    var source :- NormalizeUri(c.sourceUri);
    var target :- NormalizeUri(c.targetUri);
    if source !in allowed || target !in allowed then Err(UnauthorizedUri)
    else if source == target then Err(SelfLink)
    else
      var relation :- NormalizeRelation(c.relation);
      var rationale :- OptionalField(c.rationale, MAX_RATIONALE_BYTES);
      var confidence :- ValidateScore(c.confidence);
      var tags :- Tags(c.tags);
      Ok(Link(source, target, relation, rationale, confidence, tags))
  }

  /** The evidence URIs so far, extended by the rest; the first bad one decides. */
  function UrisFrom(uris: seq<string>, allowed: set<string>, done: seq<string>): (r: Result<seq<string>, Code>)
    requires Distinct(done) && forall u :: u in done ==> u in allowed
    ensures r.Ok? ==> Distinct(r.value) && (forall u :: u in r.value ==> u in allowed) && |r.value| >= |done|
    ensures r.Ok? && uris != [] ==> r.value != []
    decreases |uris|
  {
    if uris == [] then Ok(done)
    else
      var u :- NormalizeUri(uris[0]);
      if u !in allowed then Err(UnauthorizedUri) else UrisFrom(uris[1..], allowed, AddNew(done, u))
  }

  function ValidateInsight(c: RawInsight, allowed: set<string>): Result<Insight, Code> {
    var insightType :- RequiredField(c.insightType, MAX_INSIGHT_TYPE_BYTES);
    var title :- RequiredField(c.title, MAX_TITLE_BYTES);
    var statement :- RequiredField(c.statement, MAX_STATEMENT_BYTES);
    var confidence :- ValidateScore(c.confidence);
    var salience :- ValidateScore(c.salience);
    if c.sourceUris == [] then Err(MissingEvidenceUri)
    else if |c.sourceUris| > MAX_SOURCE_URIS_PER_INSIGHT then Err(TooManySourceUris)
    else
      var uris :- UrisFrom(c.sourceUris, allowed, []);
      var tags :- Tags(c.tags);
      Ok(Insight(insightType, title, statement, confidence, salience, uris, tags))
  }

  method ValidateInsightCandidate(c: RawInsight, allowed: set<string>) returns (r: Result<Insight, Code>)
    ensures r == ValidateInsight(c, allowed)
  {
    hide RequiredField, ValidateScore, NormalizeUri, Tags, Distinct;
    var insightType :- RequiredField(c.insightType, MAX_INSIGHT_TYPE_BYTES);
    var title :- RequiredField(c.title, MAX_TITLE_BYTES);
    var statement :- RequiredField(c.statement, MAX_STATEMENT_BYTES);
    var confidence :- ValidateScore(c.confidence);
    var salience :- ValidateScore(c.salience);
    if c.sourceUris == [] { return Err(MissingEvidenceUri); }
    if |c.sourceUris| > MAX_SOURCE_URIS_PER_INSIGHT { return Err(TooManySourceUris); }
    var uris: seq<string>, seen: set<string> := [], {};
    EmptyIsDistinct();
    for i := 0 to |c.sourceUris|
      invariant Distinct(uris) && (forall u :: u in uris ==> u in allowed) && seen == set u | u in uris
      invariant UrisFrom(c.sourceUris, allowed, []) == UrisFrom(c.sourceUris[i..], allowed, uris)
    {
      assert c.sourceUris[i..][0] == c.sourceUris[i] && c.sourceUris[i..][1..] == c.sourceUris[i + 1..];
      var uri :- NormalizeUri(c.sourceUris[i]);
      if uri !in allowed { return Err(UnauthorizedUri); }
      if uri !in seen {
        assert uris + [uri] == AddNew(uris, uri);
        seen := seen + {uri};
        uris := uris + [uri];
      }
    }
    assert c.sourceUris[|c.sourceUris|..] == [];
    var tags := NormalizeTags(c.tags);
    if tags.Err? { return Err(tags.error); }
    r := Ok(Insight(insightType, title, statement, confidence, salience, uris, tags.value));
  }

  lemma EmptyIsDistinct()
    ensures Distinct<string>([])
  {}

  // ---- First valid candidate wins ----

  /** A candidate is kept when it is valid and no earlier valid one has its identity. */
  predicate Kept<V, K(==)>(results: seq<Result<V, Code>>, key: V -> K, i: nat)
    requires i < |results|
  {
    results[i].Ok? && forall j :: 0 <= j < i && results[j].Ok? ==> key(results[j].value) != key(results[i].value)
  }

  /** What the diagnostics say of a candidate that is not kept. */
  function Verdict<V>(result: Result<V, Code>): Code {
    if result.Ok? then DuplicateCandidate else result.error
  }

  /** The kept indices below n, in order. */
  function KeptIndices<V, K(==)>(results: seq<Result<V, Code>>, key: V -> K, n: nat): seq<nat>
    requires n <= |results|
  {
    if n == 0 then [] else KeptIndices(results, key, n - 1) + if Kept(results, key, n - 1) then [n - 1] else []
  }

  function KeptValues<V, K(==)>(results: seq<Result<V, Code>>, key: V -> K, n: nat): seq<V>
    requires n <= |results|
  {
    if n == 0 then []
    else KeptValues(results, key, n - 1) + if Kept(results, key, n - 1) then [results[n - 1].value] else []
  }

  function Rejections<V, K(==)>(kind: Kind, results: seq<Result<V, Code>>, key: V -> K, n: nat): seq<Rejection>
    requires n <= |results|
  {
    if n == 0 then []
    else
      Rejections(kind, results, key, n - 1)
      + if Kept(results, key, n - 1) then [] else [Rejection(kind, n - 1, Verdict(results[n - 1]))]
  }

  /** The identities of the valid candidates below n. */
  function Seen<V, K(==)>(results: seq<Result<V, Code>>, key: V -> K, n: nat): set<K>
    requires n <= |results|
  {
    if n == 0 then {}
    else Seen(results, key, n - 1) + if results[n - 1].Ok? then {key(results[n - 1].value)} else {}
  }

  lemma {:induction false} SeenMembers<V, K>(results: seq<Result<V, Code>>, key: V -> K, n: nat, k: K)
    requires n <= |results|
    ensures k in Seen(results, key, n) <==> exists j :: 0 <= j < n && results[j].Ok? && key(results[j].value) == k
  {
    if n > 0 { SeenMembers(results, key, n - 1, k); }
  }

  /** The set of identities seen so far decides what is kept. */
  lemma KeptBySeen<V, K>(results: seq<Result<V, Code>>, key: V -> K, i: nat)
    requires i < |results|
    ensures Kept(results, key, i) <==> results[i].Ok? && key(results[i].value) !in Seen(results, key, i)
  {
    if results[i].Ok? { SeenMembers(results, key, i, key(results[i].value)); }
  }

  /** Reading one more candidate, in the terms of a loop that keeps a set of seen identities. */
  lemma OneMore<V, K>(kind: Kind, results: seq<Result<V, Code>>, key: V -> K, i: nat)
    requires i < |results|
    ensures
      var r := results[i];
      var unseen := r.Ok? && key(r.value) !in Seen(results, key, i);
      && KeptValues(results, key, i + 1) == KeptValues(results, key, i) + (if unseen then [r.value] else [])
      && Seen(results, key, i + 1) == Seen(results, key, i) + (if unseen then {key(r.value)} else {})
      && Rejections(kind, results, key, i + 1)
         == Rejections(kind, results, key, i) + (if unseen then [] else [Rejection(kind, i, Verdict(r))])
  {
    hide Kept;
    KeptBySeen(results, key, i);
  }

  lemma NothingYet<V, K>(kind: Kind, results: seq<Result<V, Code>>, key: V -> K)
    ensures KeptValues(results, key, 0) == [] && Seen(results, key, 0) == {} && Rejections(kind, results, key, 0) == []
  {}

  type LinkId = (string, string, string)

  function LinkKey(l: Link): LinkId { (l.sourceUri, l.targetUri, l.relation) }

  /** The natural identity of an insight: the context URI it is projected to. */
  function InsightUri(slug: string -> string, insightType: string, title: string): string {
    "ctx://user/insights/" + slug(insightType) + "/" + slug(title)
  }

  function InsightKey(slug: string -> string): Insight -> string {
    (i: Insight) => InsightUri(slug, i.insightType, i.title)
  }

  function LinkResult(c: Option<RawLink>, allowed: set<string>): Result<Link, Code> {
    if c.None? then Err(InvalidCandidateSchema) else ValidateLink(c.value, allowed)
  }

  function InsightResult(c: Option<RawInsight>, allowed: set<string>): Result<Insight, Code> {
    if c.None? then Err(InvalidCandidateSchema) else ValidateInsight(c.value, allowed)
  }

  function LinkResults(links: seq<Option<RawLink>>, allowed: set<string>): seq<Result<Link, Code>> {
    seq(|links|, i requires 0 <= i < |links| => LinkResult(links[i], allowed))
  }

  function InsightResults(insights: seq<Option<RawInsight>>, allowed: set<string>): seq<Result<Insight, Code>> {
    seq(|insights|, i requires 0 <= i < |insights| => InsightResult(insights[i], allowed))
  }

  function Validated(
    slug: string -> string, links: seq<Option<RawLink>>, insights: seq<Option<RawInsight>>,
        allowed: set<string>): Output
  {
    var lr, ir := LinkResults(links, allowed), InsightResults(insights, allowed);
    Output(KeptValues(lr, LinkKey, |lr|), KeptValues(ir, InsightKey(slug), |ir|),
           Rejections(LinkKind, lr, LinkKey, |lr|) + Rejections(InsightKind, ir, InsightKey(slug), |ir|))
  }

  function ValidateResponse(slug: string -> string, bytes: nat, response: Response, allowed: set<string>)
    : Result<Output, OutputError>
  {
    if bytes > MAX_ANALYSIS_RESPONSE_BYTES then Err(ResponseTooLarge)
    else
      match response
      case NotJson => Err(InvalidJson)
      case NotEnvelope => Err(InvalidEnvelope)
      case Envelope(links, insights) =>
        if |links| > MAX_LINK_CANDIDATES then Err(CandidateLimitExceeded(LinkKind, MAX_LINK_CANDIDATES))
        else if |insights| > MAX_INSIGHT_CANDIDATES
            then Err(CandidateLimitExceeded(InsightKind, MAX_INSIGHT_CANDIDATES))
        else Ok(Validated(slug, links, insights, allowed))
  }

  /** `bytes` is the length of the response, `response` what parsing it as JSON and as an envelope yields. */
  method ValidateAnalysisOutput(slug: string -> string, bytes: nat, response: Response, allowed: set<string>)
    returns (r: Result<Output, OutputError>)
    ensures r == ValidateResponse(slug, bytes, response, allowed)
  {
    if bytes > MAX_ANALYSIS_RESPONSE_BYTES { return Err(ResponseTooLarge); }
    if response.NotJson? { return Err(InvalidJson); }
    if response.NotEnvelope? { return Err(InvalidEnvelope); }
    if |response.links| > MAX_LINK_CANDIDATES { return Err(CandidateLimitExceeded(LinkKind, MAX_LINK_CANDIDATES)); }
    if |response.insights| > MAX_INSIGHT_CANDIDATES {
      return Err(CandidateLimitExceeded(InsightKind, MAX_INSIGHT_CANDIDATES));
    }
    hide KeptValues, Rejections, ValidateLink, ValidateInsight, LinkKey, InsightKey;
    var links, linkRejections := KeepFirstValidLinks(response.links, allowed);
    var insights, insightRejections := KeepFirstValidInsights(slug, response.insights, allowed);
    r := Ok(Output(links, insights, linkRejections + insightRejections));
  }

  method KeepFirstValidLinks(candidates: seq<Option<RawLink>>, allowed: set<string>)
    returns (links: seq<Link>, rejections: seq<Rejection>)
    ensures var lr := LinkResults(candidates, allowed);
      links == KeptValues(lr, LinkKey, |lr|) && rejections == Rejections(LinkKind, lr, LinkKey, |lr|)
  {
    hide KeptValues, Seen, Rejections, ValidateLink, LinkKey;
    ghost var lr := LinkResults(candidates, allowed);
    NothingYet(LinkKind, lr, LinkKey);
    links, rejections := [], [];
    var seen: set<LinkId> := {};
    for i := 0 to |candidates|
      invariant links == KeptValues(lr, LinkKey, i) && seen == Seen(lr, LinkKey, i)
      invariant rejections == Rejections(LinkKind, lr, LinkKey, i)
    {
      OneMore(LinkKind, lr, LinkKey, i);
      if candidates[i].None? {
        rejections := rejections + [Rejection(LinkKind, i, InvalidCandidateSchema)];
      } else {
        var candidate := ValidateLink(candidates[i].value, allowed);
        if candidate.Err? {
          rejections := rejections + [Rejection(LinkKind, i, candidate.error)];
        } else if LinkKey(candidate.value) !in seen {
          seen := seen + {LinkKey(candidate.value)};
          links := links + [candidate.value];
        } else {
          rejections := rejections + [Rejection(LinkKind, i, DuplicateCandidate)];
        }
      }
    }
  }

  method KeepFirstValidInsights(slug: string -> string, candidates: seq<Option<RawInsight>>, allowed: set<string>)
    returns (insights: seq<Insight>, rejections: seq<Rejection>)
    ensures var ir := InsightResults(candidates, allowed);
      insights == KeptValues(ir, InsightKey(slug), |ir|)
          && rejections == Rejections(InsightKind, ir, InsightKey(slug), |ir|)
  {
    hide KeptValues, Seen, Rejections, ValidateInsight, InsightKey;
    ghost var ir := InsightResults(candidates, allowed);
    var key := InsightKey(slug);
    NothingYet(InsightKind, ir, key);
    insights, rejections := [], [];
    var seen: set<string> := {};
    for i := 0 to |candidates|
      invariant insights == KeptValues(ir, key, i) && seen == Seen(ir, key, i)
      invariant rejections == Rejections(InsightKind, ir, key, i)
    {
      OneMore(InsightKind, ir, key, i);
      if candidates[i].None? {
        rejections := rejections + [Rejection(InsightKind, i, InvalidCandidateSchema)];
      } else {
        var candidate := ValidateInsightCandidate(candidates[i].value, allowed);
        if candidate.Err? {
          rejections := rejections + [Rejection(InsightKind, i, candidate.error)];
        } else if key(candidate.value) !in seen {
          seen := seen + {key(candidate.value)};
          insights := insights + [candidate.value];
        } else {
          rejections := rejections + [Rejection(InsightKind, i, DuplicateCandidate)];
        }
      }
    }
  }

  // ---- Redaction ----

  /** The configured secrets act through these functions, about which nothing is assumed. */
  datatype Redactor = Redactor(field: string -> string, egress: string -> string, slug: string -> string)

  predicate UsableTag(t: string) {
    t != "" && ByteLen(t) <= MAX_TAG_BYTES && NoControls(t)
  }

  /** The tags so far, extended by those of the rest that are usable once redacted. */
  function TagsRedactedFrom(rd: Redactor, tags: seq<string>, done: seq<string>): (r: seq<string>)
    requires GoodTags(done)
    ensures GoodTags(r)
    decreases |tags|
  {
    if tags == [] then done
    else
      var t := Trim(rd.field(tags[0]));
      TrimIsIdempotent(rd.field(tags[0]));
      if UsableTag(t) then
        GoodAfterAdd(done, t);
        TagsRedactedFrom(rd, tags[1..], AddNew(done, t))
      else TagsRedactedFrom(rd, tags[1..], done)
  }

  function TagsRedacted(rd: Redactor, tags: seq<string>): (r: seq<string>)
    ensures GoodTags(r)
  {
    EmptyTags();
    TagsRedactedFrom(rd, tags, [])
  }

  method RedactTags(rd: Redactor, tags: seq<string>) returns (r: seq<string>)
    ensures r == TagsRedacted(rd, tags)
  {
    hide AddNew, Distinct, Bounded, UsableTag;
    var seen: set<string> := {};
    r := [];
    EmptyTags();
    for i := 0 to |tags|
      invariant GoodTags(r) && seen == set t | t in r
      invariant TagsRedacted(rd, tags) == TagsRedactedFrom(rd, tags[i..], r)
    {
      assert tags[i..][0] == tags[i] && tags[i..][1..] == tags[i + 1..];
      var tag := Trim(rd.field(tags[i]));
      TagIsBounded(rd.field(tags[i]));
      if UsableTag(tag) {
        GoodAfterAdd(r, tag);
        if tag !in seen {
          seen := seen + {tag};
          r := r + [tag];
        }
      }
    }
    assert tags[|tags|..] == [];
  }

  lemma TagIsBounded(s: string)
    ensures UsableTag(Trim(s)) ==> Bounded(Trim(s), MAX_TAG_BYTES)
  {
    TrimIsIdempotent(s);
  }

  function RationaleRedacted(rd: Redactor, rationale: Option<string>): Option<string> {
    if rationale.None? then None
    else
      var field := OptionalField(Some(rd.egress(rationale.value)), MAX_RATIONALE_BYTES);
      if field.Ok? then field.value else None
  }

  /** Only the rationale and the tags change. */
  function LinkRedacted(rd: Redactor, l: Link): Link {
    l.(rationale := RationaleRedacted(rd, l.rationale), tags := TagsRedacted(rd, l.tags))
  }

  function InsightRedacted(rd: Redactor, i: Insight): Result<Insight, Code> {
    var insightType :- RequiredField(rd.field(i.insightType), MAX_INSIGHT_TYPE_BYTES);
    var title :- RequiredField(rd.egress(i.title), MAX_TITLE_BYTES);
    var statement :- RequiredField(rd.egress(i.statement), MAX_STATEMENT_BYTES);
    Ok(i.(insightType := insightType, title := title, statement := statement, tags := TagsRedacted(rd, i.tags)))
  }

  function InsightsRedacted(rd: Redactor, insights: seq<Insight>): seq<Result<Insight, Code>> {
    seq(|insights|, i requires 0 <= i < |insights| => InsightRedacted(rd, insights[i]))
  }

  /** Identities can collide once redacted, so the first surviving insight wins again. */
  function Redacted(rd: Redactor, out: Output): Output {
    var ir := InsightsRedacted(rd, out.insights);
    Output(seq(|out.links|, i requires 0 <= i < |out.links| => LinkRedacted(rd, out.links[i])),
           KeptValues(ir, InsightKey(rd.slug), |ir|), out.rejections)
  }

  method RedactInsight(rd: Redactor, i: Insight) returns (r: Result<Insight, Code>)
    ensures r == InsightRedacted(rd, i)
  {
    hide RequiredField, TagsRedacted;
    var insightType :- RequiredField(rd.field(i.insightType), MAX_INSIGHT_TYPE_BYTES);
    var title :- RequiredField(rd.egress(i.title), MAX_TITLE_BYTES);
    var statement :- RequiredField(rd.egress(i.statement), MAX_STATEMENT_BYTES);
    var tags := RedactTags(rd, i.tags);
    r := Ok(i.(insightType := insightType, title := title, statement := statement, tags := tags));
  }

  method RedactValidatedAnalysisOutput(rd: Redactor, out: Output) returns (r: Output)
    ensures r == Redacted(rd, out)
  {
    hide Kept, InsightRedacted, TagsRedacted, RationaleRedacted;
    var links := out.links;
    for i := 0 to |out.links|
      invariant |links| == |out.links|
      invariant forall j :: 0 <= j < |links| ==> links[j] == if j < i then LinkRedacted(rd, out.links[j])
          else out.links[j]
    {
      var tags := RedactTags(rd, links[i].tags);
      links := links[i := links[i].(rationale := RationaleRedacted(rd, links[i].rationale), tags := tags)];
    }
    ghost var ir := InsightsRedacted(rd, out.insights);
    var key := InsightKey(rd.slug);
    var insights: seq<Insight>, seen: set<string> := [], {};
    for i := 0 to |out.insights|
      invariant insights == KeptValues(ir, key, i) && seen == Seen(ir, key, i)
    {
      KeptBySeen(ir, key, i);
      var insight := RedactInsight(rd, out.insights[i]);
      if insight.Ok? && key(insight.value) !in seen {
        seen := seen + {key(insight.value)};
        insights := insights + [insight.value];
      }
    }
    r := Output(links, insights, out.rejections);
  }
}
