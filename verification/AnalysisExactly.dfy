/** Exactly which candidates are valid, with which values, and what redaction makes of them. */
module AnalysisExactly {
  import opened Basics
  import opened Text
  import opened Analysis
  import opened AnalysisUris

  // ---- Keeping each value where it first stands ----

  function Firsts(xs: seq<string>): seq<string> {
    if xs == [] then []
    else
      var front, last := xs[..|xs| - 1], xs[|xs| - 1];
      if last in front then Firsts(front) else Firsts(front) + [last]
  }

  /** All values, each once. */
  lemma {:induction false} FirstsAreAll(xs: seq<string>)
    ensures Distinct(Firsts(xs)) && forall x :: x in Firsts(xs) <==> x in xs
  {
    if xs != [] {
      var front := xs[..|xs| - 1];
      FirstsAreAll(front);
      assert xs == front + [xs[|xs| - 1]];
    }
  }

  function AddAll(xs: seq<string>, done: seq<string>): seq<string>
    decreases |xs|
  {
    if xs == [] then done else AddAll(xs[1..], AddNew(done, xs[0]))
  }

  lemma {:induction false} AddAllSnoc(xs: seq<string>, x: string, done: seq<string>)
    ensures AddAll(xs + [x], done) == AddNew(AddAll(xs, done), x)
    decreases |xs|
  {
    if xs == [] {
      assert (xs + [x])[1..] == [];
    } else {
      assert (xs + [x])[0] == xs[0] && (xs + [x])[1..] == xs[1..] + [x];
      AddAllSnoc(xs[1..], x, AddNew(done, xs[0]));
    }
  }

  lemma {:induction false} AddAllIsFirsts(xs: seq<string>)
    ensures AddAll(xs, []) == Firsts(xs)
  {
    hide Distinct;
    if xs != [] {
      var front, last := xs[..|xs| - 1], xs[|xs| - 1];
      AddAllIsFirsts(front);
      AddAllSnoc(front, last, []);
      FirstsAreAll(front);
      assert xs == front + [last];
      assert AddAll(xs, []) == AddNew(Firsts(front), last);
      assert last in Firsts(front) <==> last in front;
    }
  }

  // ---- Tags ----

  function Trims(tags: seq<string>): seq<string> {
    seq(|tags|, i requires 0 <= i < |tags| => Trim(tags[i]))
  }

  predicate AllUsable(tags: seq<string>) {
    forall i :: 0 <= i < |tags| ==>
      Trim(tags[i]) != "" && ByteLen(Trim(tags[i])) <= 128 && NoControls(Trim(tags[i]))
  }

  lemma {:induction false} TagsFromExactly(tags: seq<string>, done: seq<string>)
    requires GoodTags(done)
    ensures TagsFrom(tags, done).Ok? <==> AllUsable(tags)
    ensures TagsFrom(tags, done).Ok? ==> TagsFrom(tags, done).value == AddAll(Trims(tags), done)
    decreases |tags|
  {
    hide GoodTags, Bounded, NoControls, Trim, ByteLen;
    if tags == [] {
      assert Trims(tags) == [];
    } else {
      assert Trims(tags) == [Trim(tags[0])] + Trims(tags[1..]);
      assert AllUsable(tags) ==> AllUsable(tags[1..]);
      if CheckTag(tags[0]).Ok? {
        GoodAfterAdd(done, CheckTag(tags[0]).value);
        TagsFromExactly(tags[1..], AddNew(done, CheckTag(tags[0]).value));
        assert forall i :: 0 < i < |tags| ==> tags[i] == tags[1..][i - 1];
      }
    }
  }

  /** Tags are valid exactly if there are at most 64 and each is usable; then each is kept where it first stands. */
  lemma TagsExactly(tags: seq<string>, kept: seq<string>)
    ensures Tags(tags) == Ok(kept) <==> |tags| <= 64 && AllUsable(tags) && kept == Firsts(Trims(tags))
  {
    hide GoodTags, AllUsable;
    EmptyTags();
    TagsFromExactly(tags, []);
    AddAllIsFirsts(Trims(tags));
  }

  // ---- Fields ----

  lemma RequiredExactly(value: string, max: nat, kept: string)
    ensures RequiredField(value, max) == Ok(kept) <==>
            kept == Trim(value) && kept != "" && ByteLen(kept) <= max && NoControls(kept)
    ensures RequiredField(value, max) == Err(EmptyField) <==> Trim(value) == ""
    ensures RequiredField(value, max) == Err(FieldTooLong) <==> Trim(value) != "" && ByteLen(Trim(value)) > max
  {
    hide NoControls, ByteLen, Trim;
  }

  /** A rationale is left out when blank; otherwise it is kept trimmed, if it is short and plain enough. */
  predicate RationaleFits(raw: Option<string>, kept: Option<string>) {
    if raw.None? || Trim(raw.value) == "" then kept.None?
    else kept == Some(Trim(raw.value)) && ByteLen(Trim(raw.value)) <= 2048 && NoControls(Trim(raw.value))
  }

  lemma RationaleExactly(raw: Option<string>, kept: Option<string>)
    ensures OptionalField(raw, MAX_RATIONALE_BYTES) == Ok(kept) <==> RationaleFits(raw, kept)
  {
    hide NoControls, ByteLen, Trim;
  }

  predicate ScoreFits(raw: Score, kept: real) { raw == Finite(kept) && 0.0 <= kept <= 1.0 }

  lemma ScoreExactly(raw: Score, kept: real)
    ensures ValidateScore(raw) == Ok(kept) <==> ScoreFits(raw, kept)
  {}

  /** The same text up to ASCII capitals. */
  predicate SameLetters(small: string, text: string) {
    && |small| == |text|
    && forall i :: 0 <= i < |text| ==>
         if 'A' <= text[i] <= 'Z' then small[i] as int == text[i] as int + 32 else small[i] == text[i]
  }

  lemma SmallLetters(text: string, small: string)
    ensures LowerAll(text) == small <==> SameLetters(small, text)
  {
    if SameLetters(small, text) {
      assert forall i :: 0 <= i < |text| ==> small[i] == LowerAll(text)[i];
    }
  }

  /** The two relations a provider may propose, in any ASCII case. */
  lemma RelationExactly(raw: string, kept: string)
    ensures NormalizeRelation(raw) == Ok(kept) <==> kept in {"related", "supports"} && SameLetters(kept, Trim(raw))
  {
    hide Trim, LowerAll;
    SmallLetters(Trim(raw), kept);
    if kept in {"related", "supports"} && SameLetters(kept, Trim(raw)) { ShortRelation(kept, Trim(raw)); }
  }

  lemma ShortRelation(kept: string, text: string)
    requires |kept| <= 8 && SameLetters(kept, text)
    ensures ByteLen(text) <= 32 && (kept != "" ==> text != "")
  {
    FourBytesEach(text);
  }

  lemma {:induction false} FourBytesEach(s: string)
    ensures ByteLen(s) <= 4 * |s|
  {
    if s != "" { FourBytesEach(s[1..]); }
  }

  // ---- URIs ----

  /** What is left of a URI without at most one layer suffix. */
  predicate Unlayered(u: string, v: string) {
    || (exists k: nat :: k < 4 && u == v + Layer(k))
    || (v == u && forall k: nat :: k < 4 ==> !EndsWith(u, Layer(k)))
  }

  lemma UnlayeredExactly(u: string, v: string)
    ensures StripLayer(u) == v <==> Unlayered(u, v)
  {
    hide StripLayer, Layer, EndsWith;
    StripIsPrefix(u);
    if StripLayer(u) == v && v == u {
      forall k: nat | k < 4 ensures !EndsWith(u, Layer(k)) { NotItsLayer(u, k); }
    }
    if exists k: nat :: k < 4 && u == v + Layer(k) {
      var k: nat :| k < 4 && u == v + Layer(k);
      LayerStrips(v, k);
    } else if Unlayered(u, v) && StripLayer(u) != u {
      var k: nat :| k < 4 && u == StripLayer(u) + Layer(k);
      EndsInLayer(StripLayer(u), k);
    }
  }

  lemma NotItsLayer(u: string, k: nat)
    requires k < 4 && StripLayer(u) == u
    ensures !EndsWith(u, Layer(k))
  {
    hide StripLayer, Layer;
    EndSplits(u, "", Layer(k));
    assert "" + Layer(k) == Layer(k);
    NoSuffix(u, u[..SatSub(|u|, |Layer(k)|)] + "", k);
  }

  lemma EndsInLayer(v: string, k: nat)
    requires k < 4
    ensures EndsWith(v + Layer(k), Layer(k))
  {}

  /** The canonical form of a URI: trimmed, unbroken, under the scheme and not bare, without one layer suffix. */
  lemma UriExactly(uri: string, v: string)
    ensures NormalizeUri(uri) == Ok(v) <==>
            var u := Trim(uri);
            && u != "" && ByteLen(u) <= 2048 && "ctx://" < u && Unbroken(u)
            && Unlayered(u, v) && ByteLen(v) != ByteLen("ctx://")
  {
    hide Trim, ByteLen, StripLayer, IsWhitespace, IsControl, Unlayered;
    UnlayeredExactly(Trim(uri), v);
  }

  // ---- Links ----

  /** A valid link is exactly its candidate: canonical authorised ends, and every other field the candidate's own. */
  predicate LinkFits(c: RawLink, allowed: set<string>, l: Link) {
    && NormalizeUri(c.sourceUri) == Ok(l.sourceUri) && NormalizeUri(c.targetUri) == Ok(l.targetUri)
    && l.sourceUri in allowed && l.targetUri in allowed && l.sourceUri != l.targetUri
    && l.relation in {"related", "supports"} && SameLetters(l.relation, Trim(c.relation))
    && RationaleFits(c.rationale, l.rationale) && ScoreFits(c.confidence, l.confidence)
    && |c.tags| <= 64 && AllUsable(c.tags) && l.tags == Firsts(Trims(c.tags))
  }

  lemma LinkIsKeptExactly(c: RawLink, allowed: set<string>, l: Link)
    ensures ValidateLink(c, allowed) == Ok(l) <==> LinkFits(c, allowed, l)
  {
    hide NormalizeUri, NormalizeRelation, OptionalField, ValidateScore, Tags, SameLetters, RationaleFits, AllUsable,
      Firsts, Trims, Trim, ScoreFits;
    var r := ValidateLink(c, allowed);
    RelationExactly(c.relation, l.relation);
    RationaleExactly(c.rationale, l.rationale);
    ScoreExactly(c.confidence, l.confidence);
    TagsExactly(c.tags, l.tags);
  }

  /** A diagnostic names what is wrong. */
  lemma LinkFaultsAreReal(c: RawLink, allowed: set<string>)
    ensures var r, source, target := ValidateLink(c, allowed), NormalizeUri(c.sourceUri), NormalizeUri(c.targetUri);
            && (source.Ok? && target.Ok? && (source.value !in allowed || target.value !in allowed)
                <==> r == Err(UnauthorizedUri))
            && (source.Ok? && target.Ok? && source.value in allowed && target == source <==> r == Err(SelfLink))
            && (r == Err(UnsupportedRelation) ==>
                  forall k :: k in {"related", "supports"} ==> !SameLetters(k, Trim(c.relation)))
            && (r == Err(InvalidScore) ==> forall x :: !ScoreFits(c.confidence, x))
            && (r == Err(TooManyTags) ==> |c.tags| > 64) && (r == Err(InvalidTag) ==> !AllUsable(c.tags))
            && (source.Err? ==> r == Err(source.error)) && (source.Ok? && target.Err? ==> r == Err(target.error))
  {
    hide NormalizeUri, NormalizeRelation, OptionalField, ValidateScore, Tags, SameLetters, AllUsable, Trim, ScoreFits;
    FieldFaults(c);
    UriFaults(c.sourceUri);
    UriFaults(c.targetUri);
  }

  lemma UriFaults(uri: string)
    ensures NormalizeUri(uri).Err? ==> NormalizeUri(uri).error in {EmptyField, FieldTooLong, InvalidUri}
  {
    hide Trim, ByteLen, StripLayer, NoControls;
  }

  lemma FieldFaults(c: RawLink)
    ensures var relation := NormalizeRelation(c.relation);
            && (relation.Err? ==> relation.error in {EmptyField, FieldTooLong, UnsupportedRelation})
            && (relation == Err(UnsupportedRelation) ==>
                  forall k :: k in {"related", "supports"} ==> !SameLetters(k, Trim(c.relation)))
    ensures var rationale := OptionalField(c.rationale, MAX_RATIONALE_BYTES);
            rationale.Err? ==> rationale.error in {FieldTooLong, InvalidCandidateSchema}
    ensures ValidateScore(c.confidence).Err? ==>
              ValidateScore(c.confidence).error == InvalidScore && forall x :: !ScoreFits(c.confidence, x)
    ensures var tags := Tags(c.tags);
            && (tags.Err? ==> tags.error in {TooManyTags, InvalidTag, FieldTooLong})
            && (tags == Err(TooManyTags) ==> |c.tags| > 64) && (tags == Err(InvalidTag) ==> !AllUsable(c.tags))
  {
    hide Trim, ByteLen, NoControls, GoodTags, Bounded, AllUsable, SameLetters, LowerAll;
    forall k | k in {"related", "supports"}
      ensures NormalizeRelation(c.relation) == Ok(k) <==> SameLetters(k, Trim(c.relation))
    {
      RelationExactly(c.relation, k);
    }
    EmptyTags();
    TagFaults(c.tags, []);
    TagsFromExactly(c.tags, []);
  }

  lemma {:induction false} TagFaults(tags: seq<string>, done: seq<string>)
    requires GoodTags(done)
    ensures TagsFrom(tags, done).Err? ==> TagsFrom(tags, done).error in {InvalidTag, FieldTooLong}
    decreases |tags|
  {
    hide Trim, ByteLen, NoControls, GoodTags, Bounded;
    if tags != [] && CheckTag(tags[0]).Ok? {
      GoodAfterAdd(done, CheckTag(tags[0]).value);
      TagFaults(tags[1..], AddNew(done, CheckTag(tags[0]).value));
    }
  }

  // ---- Insights ----

  /** The canonical forms of the evidence, all of them authorised. */
  predicate Canonicals(uris: seq<string>, allowed: set<string>, canon: seq<string>) {
    && |canon| == |uris|
    && forall i :: 0 <= i < |uris| ==> NormalizeUri(uris[i]) == Ok(canon[i]) && canon[i] in allowed
  }

  lemma {:induction false} UrisFromExactly(uris: seq<string>, allowed: set<string>, done: seq<string>)
    requires Distinct(done) && forall u :: u in done ==> u in allowed
    ensures UrisFrom(uris, allowed, done).Ok? <==> exists canon :: Canonicals(uris, allowed, canon)
    ensures forall canon :: Canonicals(uris, allowed, canon) ==>
              UrisFrom(uris, allowed, done) == Ok(AddAll(canon, done))
    decreases |uris|
  {
    hide NormalizeUri, Distinct;
    if uris == [] {
      assert Canonicals([], allowed, []);
    } else {
      var first := NormalizeUri(uris[0]);
      forall canon | Canonicals(uris, allowed, canon)
        ensures first == Ok(canon[0]) && canon[0] in allowed && Canonicals(uris[1..], allowed, canon[1..])
      {
        assert forall i :: 0 <= i < |uris| - 1 ==> uris[1..][i] == uris[i + 1] && canon[1..][i] == canon[i + 1];
      }
      if first.Ok? && first.value in allowed {
        UrisFromExactly(uris[1..], allowed, AddNew(done, first.value));
        forall rest | Canonicals(uris[1..], allowed, rest) ensures Canonicals(uris, allowed, [first.value] + rest) {
          var canon := [first.value] + rest;
          assert forall i :: 1 <= i < |uris| ==> uris[i] == uris[1..][i - 1] && canon[i] == rest[i - 1];
        }
      }
    }
  }

  /** A valid insight is exactly its candidate: texts trimmed and within their bounds, both scores, and the evidence. */
  ghost predicate InsightFits(c: RawInsight, allowed: set<string>, i: Insight) {
    && i.insightType == Trim(c.insightType) && Bounded(i.insightType, 64)
    && i.title == Trim(c.title) && Bounded(i.title, 256)
    && i.statement == Trim(c.statement) && Bounded(i.statement, 8192)
    && ScoreFits(c.confidence, i.confidence) && ScoreFits(c.salience, i.salience)
    && 1 <= |c.sourceUris| <= 16 && EvidenceFits(c.sourceUris, allowed, i.sourceUris)
    && |c.tags| <= 64 && AllUsable(c.tags) && i.tags == Firsts(Trims(c.tags))
  }

  ghost predicate EvidenceFits(uris: seq<string>, allowed: set<string>, kept: seq<string>) {
    exists canon :: Canonicals(uris, allowed, canon) && kept == Firsts(canon)
  }

  lemma EvidenceExactly(uris: seq<string>, allowed: set<string>, kept: seq<string>)
    ensures UrisFrom(uris, allowed, []) == Ok(kept) <==> EvidenceFits(uris, allowed, kept)
  {
    hide Canonicals;
    EmptyIsDistinct();
    UrisFromExactly(uris, allowed, []);
    forall canon ensures AddAll(canon, []) == Firsts(canon) { AddAllIsFirsts(canon); }
  }

  lemma RequiredIsBounded(value: string, max: nat, kept: string)
    ensures RequiredField(value, max) == Ok(kept) <==> kept == Trim(value) && Bounded(kept, max)
  {
    RequiredExactly(value, max, kept);
    TrimIsIdempotent(value);
    hide NoControls, ByteLen, Trim;
  }

  lemma InsightIsKeptExactly(c: RawInsight, allowed: set<string>, i: Insight)
    ensures ValidateInsight(c, allowed) == Ok(i) <==> InsightFits(c, allowed, i)
  {
    hide RequiredField, ValidateScore, Tags, UrisFrom, AllUsable, Firsts, Trims, Trim, ScoreFits, EvidenceFits, Bounded;
    RequiredIsBounded(c.insightType, 64, i.insightType);
    RequiredIsBounded(c.title, 256, i.title);
    RequiredIsBounded(c.statement, 8192, i.statement);
    ScoreExactly(c.confidence, i.confidence);
    ScoreExactly(c.salience, i.salience);
    EvidenceExactly(c.sourceUris, allowed, i.sourceUris);
    TagsExactly(c.tags, i.tags);
  }

  // ---- The response ----

  /** A response is validated exactly if it is small enough, an envelope, and within both candidate limits. */
  lemma ResponseExactly(slug: string -> string, bytes: nat, response: Response, allowed: set<string>)
    ensures var r := ValidateResponse(slug, bytes, response, allowed);
            && (r.Ok? <==> bytes <= 262144 && response.Envelope? && |response.links| <= 32 && |response.insights| <= 16)
            && (r == Err(ResponseTooLarge) <==> bytes > 262144)
            && (r == Err(InvalidJson) <==> bytes <= 262144 && response.NotJson?)
            && (r == Err(InvalidEnvelope) <==> bytes <= 262144 && response.NotEnvelope?)
            && (r.Err? && r.error.CandidateLimitExceeded? ==>
                  r.error == if |response.links| > 32 then CandidateLimitExceeded(LinkKind, 32)
                             else CandidateLimitExceeded(InsightKind, 16))
  {
    hide Validated;
  }

  // ---- Redaction ----

  /** The tags that are still usable once redacted, trimmed. */
  function UsableTrims(rd: Redactor, tags: seq<string>): seq<string> {
    if tags == [] then []
    else
      var t := Trim(rd.field(tags[0]));
      (if t != "" && ByteLen(t) <= 128 && NoControls(t) then [t] else []) + UsableTrims(rd, tags[1..])
  }

  lemma {:induction false} RedactedTagsFrom(rd: Redactor, tags: seq<string>, done: seq<string>)
    requires GoodTags(done)
    ensures TagsRedactedFrom(rd, tags, done) == AddAll(UsableTrims(rd, tags), done)
    decreases |tags|
  {
    hide GoodTags, Bounded, NoControls, Trim, ByteLen;
    if tags != [] {
      var t, rest := Trim(rd.field(tags[0])), UsableTrims(rd, tags[1..]);
      TagIsBounded(rd.field(tags[0]));
      if UsableTag(t) {
        GoodAfterAdd(done, t);
        RedactedTagsFrom(rd, tags[1..], AddNew(done, t));
        assert ([t] + rest)[0] == t && ([t] + rest)[1..] == rest;
      } else {
        RedactedTagsFrom(rd, tags[1..], done);
        assert [] + rest == rest;
      }
    }
  }

  /** Redacted tags are the usable ones, each where it first stands. */
  lemma RedactedTagsExactly(rd: Redactor, tags: seq<string>)
    ensures TagsRedacted(rd, tags) == Firsts(UsableTrims(rd, tags))
  {
    hide GoodTags;
    EmptyTags();
    RedactedTagsFrom(rd, tags, []);
    AddAllIsFirsts(UsableTrims(rd, tags));
  }

  /** A redacted rationale is kept exactly if it is still visible, short and plain. */
  lemma RedactedRationaleExactly(rd: Redactor, rationale: Option<string>, kept: string)
    ensures RationaleRedacted(rd, rationale) == Some(kept) <==>
            rationale.Some? && kept == Trim(rd.egress(rationale.value)) && Bounded(kept, 2048)
  {
    if rationale.Some? { TrimIsIdempotent(rd.egress(rationale.value)); }
    hide NoControls, ByteLen, Trim;
  }

  /** A redacted insight survives exactly if its three texts are still bounded; only they and the tags change. */
  lemma RedactedInsightExactly(rd: Redactor, i: Insight, kept: Insight)
    ensures InsightRedacted(rd, i) == Ok(kept) <==>
            && kept.insightType == Trim(rd.field(i.insightType)) && Bounded(kept.insightType, 64)
            && kept.title == Trim(rd.egress(i.title)) && Bounded(kept.title, 256)
            && kept.statement == Trim(rd.egress(i.statement)) && Bounded(kept.statement, 8192)
            && kept.tags == Firsts(UsableTrims(rd, i.tags)) && kept.sourceUris == i.sourceUris
            && kept.confidence == i.confidence && kept.salience == i.salience
  {
    hide RequiredField, TagsRedacted, Firsts, UsableTrims, Bounded, Trim;
    RequiredIsBounded(rd.field(i.insightType), 64, kept.insightType);
    RequiredIsBounded(rd.egress(i.title), 256, kept.title);
    RequiredIsBounded(rd.egress(i.statement), 8192, kept.statement);
    RedactedTagsExactly(rd, i.tags);
  }

  // ---- Identities ----

  /** Two links are the same to the service when their ends and their relation are; direction matters. */
  lemma LinkIdentity(a: Link, b: Link)
    ensures LinkKey(a) == LinkKey(b) <==>
            a.sourceUri == b.sourceUri && a.targetUri == b.targetUri && a.relation == b.relation
  {}

  /** Two insights are the same when they are projected to one context URI. */
  lemma InsightIdentity(slug: string -> string, a: Insight, b: Insight)
    ensures InsightKey(slug)(a) == InsightKey(slug)(b) <==>
            "ctx://user/insights/" + slug(a.insightType) + "/" + slug(a.title)
            == "ctx://user/insights/" + slug(b.insightType) + "/" + slug(b.title)
  {}
}
