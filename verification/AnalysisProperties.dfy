/** What the validated and redacted output guarantees, whatever the provider proposed. */
module AnalysisProperties {
  import opened Text
  import opened Analysis

  // ---- Listing what is kept and what is rejected ----

  lemma {:induction false} KeptListing<V, K>(results: seq<Result<V, Code>>, key: V -> K, n: nat)
    requires n <= |results|
    ensures var ks := KeptIndices(results, key, n);
      && (forall s, t :: 0 <= s < t < |ks| ==> ks[s] < ks[t])
      && (forall i :: i in ks <==> 0 <= i < n && Kept(results, key, i))
  {
    hide Kept;
    if n > 0 {
      KeptListing(results, key, n - 1);
      var ks, rest := KeptIndices(results, key, n), KeptIndices(results, key, n - 1);
      assert ks == rest + if Kept(results, key, n - 1) then [n - 1] else [];
      forall s, t | 0 <= s < t < |ks| ensures ks[s] < ks[t] {
        assert ks[s] == rest[s] && rest[s] in rest;
      }
    }
  }

  lemma {:induction false} KeptValuesAt<V, K>(results: seq<Result<V, Code>>, key: V -> K, n: nat)
    requires n <= |results|
    ensures var ks, vs := KeptIndices(results, key, n), KeptValues(results, key, n);
      && |vs| == |ks|
      && (forall t :: 0 <= t < |ks| ==> ks[t] < n && Kept(results, key, ks[t]) && vs[t] == results[ks[t]].value)
  {
    hide Kept;
    if n > 0 { KeptValuesAt(results, key, n - 1); }
  }

  lemma {:induction false} RejectionListing<V, K>(kind: Kind, results: seq<Result<V, Code>>, key: V -> K, n: nat)
    requires n <= |results|
    ensures var rs := Rejections(kind, results, key, n);
      && (forall s, t :: 0 <= s < t < |rs| ==> rs[s].index < rs[t].index)
      && (forall r :: r in rs <==>
            && r.kind == kind && r.index < n && !Kept(results, key, r.index) && r.code == Verdict(results[r.index]))
  {
    hide Kept, Verdict;
    if n > 0 {
      RejectionListing(kind, results, key, n - 1);
      var rs, rest := Rejections(kind, results, key, n), Rejections(kind, results, key, n - 1);
      assert rs == rest + if Kept(results, key, n - 1) then [] else [Rejection(kind, n - 1, Verdict(results[n - 1]))];
      forall s, t | 0 <= s < t < |rs| ensures rs[s].index < rs[t].index {
        assert rs[s] == rest[s] && rest[s] in rest;
      }
    }
  }

  lemma {:induction false} KeptPlusRejected<V, K>(kind: Kind, results: seq<Result<V, Code>>, key: V -> K, n: nat)
    requires n <= |results|
    ensures |Rejections(kind, results, key, n)| + |KeptIndices(results, key, n)| == n
  {
    hide Kept, Verdict;
    if n > 0 { KeptPlusRejected(kind, results, key, n - 1); }
  }

  /** No two kept candidates share an identity. */
  lemma KeptAreDistinct<V, K>(results: seq<Result<V, Code>>, key: V -> K)
    ensures var vs := KeptValues(results, key, |results|);
      forall s, t :: 0 <= s < t < |vs| ==> key(vs[s]) != key(vs[t])
  {
    KeptListing(results, key, |results|);
    KeptValuesAt(results, key, |results|);
    var vs, ks := KeptValues(results, key, |results|), KeptIndices(results, key, |results|);
    forall s, t | 0 <= s < t < |vs| ensures key(vs[s]) != key(vs[t]) {
      assert Kept(results, key, ks[t]) && Kept(results, key, ks[s]) && ks[s] < ks[t];
    }
  }

  /** Every valid identity has a survivor: the first candidate that carries it. */
  lemma {:induction false} FirstValidSurvives<V, K>(results: seq<Result<V, Code>>, key: V -> K, i: nat)
    requires i < |results| && results[i].Ok?
    ensures exists j :: 0 <= j <= i && Kept(results, key, j) && key(results[j].value) == key(results[i].value)
  {
    if !Kept(results, key, i) {
      var j :| 0 <= j < i && results[j].Ok? && key(results[j].value) == key(results[i].value);
      FirstValidSurvives(results, key, j);
    }
  }

  // ---- One pass over a kind ----

  /** The kept values are those of the ascending indices ks; no identity appears twice. */
  ghost predicate KeptAt<V(!new), K(!new)>(results: seq<Result<V, Code>>, key: V -> K, ks: seq<nat>, kept: seq<V>) {
    && |kept| == |ks|
    && (forall s, t :: 0 <= s < t < |ks| ==> ks[s] < ks[t])
    && (forall t :: 0 <= t < |ks| ==> ks[t] < |results| && results[ks[t]] == Ok(kept[t]))
    && (forall s, t :: 0 <= s < t < |kept| ==> key(kept[s]) != key(kept[t]))
  }

  /** The rejections ascend too; a valid candidate among them repeats the identity of an earlier kept one. */
  ghost predicate RejectedAt<V(!new), K(!new)>(
    kind: Kind, results: seq<Result<V, Code>>, key: V -> K, ks: seq<nat>, rejected: seq<Rejection>)
  {
    && (forall s, t :: 0 <= s < t < |rejected| ==> rejected[s].index < rejected[t].index)
    && (forall r :: r in rejected ==> r.kind == kind && r.index < |results| && r.code == Verdict(results[r.index]))
    && (forall r :: r in rejected && results[r.index].Ok? ==> Repeats(results, key, ks, r.index))
  }

  ghost predicate Repeats<V(!new), K(!new)>(results: seq<Result<V, Code>>, key: V -> K, ks: seq<nat>, i: nat)
    requires i < |results| && results[i].Ok?
  {
    exists j :: 0 <= j < i && j in ks && results[j].Ok? && key(results[j].value) == key(results[i].value)
  }

  /** Each candidate index is either kept or rejected, never both. */
  ghost predicate Splits(kind: Kind, n: nat, ks: seq<nat>, rejected: seq<Rejection>) {
    && |ks| + |rejected| == n
    && forall i :: 0 <= i < n ==> (i in ks <==> !exists code :: Rejection(kind, i, code) in rejected)
  }

  /** `kept` and `rejected` account for the candidates of a kind. */
  ghost predicate Accounts<V(!new), K(!new)>(
    kind: Kind, results: seq<Result<V, Code>>, key: V -> K, kept: seq<V>, rejected: seq<Rejection>)
  {
    exists ks: seq<nat> ::
      KeptAt(results, key, ks, kept) && RejectedAt(kind, results, key, ks, rejected)
          && Splits(kind, |results|, ks, rejected)
  }

  lemma DuplicatesHaveAnOriginal<V(!new), K(!new)>(results: seq<Result<V, Code>>, key: V -> K, i: nat)
    requires i < |results| && results[i].Ok? && !Kept(results, key, i)
    ensures Repeats(results, key, KeptIndices(results, key, |results|), i)
  {
    KeptListing(results, key, |results|);
    FirstValidSurvives(results, key, i);
    var j :| 0 <= j <= i && Kept(results, key, j) && key(results[j].value) == key(results[i].value);
    hide KeptIndices;
    assert j in KeptIndices(results, key, |results|);
  }

  lemma KeptOrRejected<V, K>(kind: Kind, results: seq<Result<V, Code>>, key: V -> K, i: nat)
    requires i < |results|
    ensures i in KeptIndices(results, key, |results|)
      <==> !exists code :: Rejection(kind, i, code) in Rejections(kind, results, key, |results|)
  {
    RejectionListing(kind, results, key, |results|);
    KeptListing(results, key, |results|);
    hide Kept, Verdict, KeptIndices, Rejections;
    var rejected := Rejections(kind, results, key, |results|);
    if Kept(results, key, i) {
      forall code ensures Rejection(kind, i, code) !in rejected {}
    } else {
      assert Rejection(kind, i, Verdict(results[i])) in rejected;
    }
  }

  lemma KeptAreWhereListed<V(!new), K(!new)>(results: seq<Result<V, Code>>, key: V -> K)
    ensures KeptAt(results, key, KeptIndices(results, key, |results|), KeptValues(results, key, |results|))
  {
    var ks, kept := KeptIndices(results, key, |results|), KeptValues(results, key, |results|);
    KeptListing(results, key, |results|);
    KeptValuesAt(results, key, |results|);
    KeptAreDistinct(results, key);
    hide KeptIndices, KeptValues, Kept;
    forall t | 0 <= t < |ks|
      ensures ks[t] < |results| && results[ks[t]] == Ok(kept[t])
    {
      assert Kept(results, key, ks[t]);
      KeptIsValid(results, key, ks[t]);
    }
  }

  lemma RejectedAreWhereListed<V(!new), K(!new)>(kind: Kind, results: seq<Result<V, Code>>, key: V -> K)
    ensures RejectedAt(kind, results, key, KeptIndices(results, key, |results|),
        Rejections(kind, results, key, |results|))
  {
    var rejected := Rejections(kind, results, key, |results|);
    RejectionListing(kind, results, key, |results|);
    hide KeptIndices, Rejections, Kept, Verdict, Repeats;
    forall r | r in rejected && results[r.index].Ok?
      ensures Repeats(results, key, KeptIndices(results, key, |results|), r.index)
    {
      DuplicatesHaveAnOriginal(results, key, r.index);
    }
  }

  lemma FirstValidWinsAccounts<V(!new), K(!new)>(kind: Kind, results: seq<Result<V, Code>>, key: V -> K)
    ensures Accounts(kind, results, key, KeptValues(results, key, |results|), Rejections(kind, results, key, |results|))
  {
    hide KeptAt, RejectedAt, Rejections, KeptValues, KeptIndices, Kept;
    var ks, rejected := KeptIndices(results, key, |results|), Rejections(kind, results, key, |results|);
    KeptAreWhereListed(results, key);
    RejectedAreWhereListed(kind, results, key);
    KeptPlusRejected(kind, results, key, |results|);
    assert Splits(kind, |results|, ks, rejected) by {
      forall i: nat | i < |results|
        ensures i in ks <==> !exists code :: Rejection(kind, i, code) in rejected
      {
        KeptOrRejected(kind, results, key, i);
      }
    }
    hide Splits;
  }

  // ---- Validation as a whole ----

  lemma ValidLink(c: RawLink, allowed: set<string>)
    ensures ValidateLink(c, allowed) != Err(DuplicateCandidate)
    ensures ValidateLink(c, allowed).Ok? ==> SoundLink(ValidateLink(c, allowed).value, allowed)
  {
    hide NormalizeUri, NormalizeRelation, OptionalField, Tags, ValidateScore, Bounded, GoodTags;
    FieldErrors(c.sourceUri, c.targetUri, c.relation, c.rationale, c.tags, c.confidence);
  }

  /** Only the pass over all candidates reports duplicates. */
  lemma FieldErrors(u: string, v: string, relation: string, rationale: Option<string>, tags: seq<string>, score: Score)
    ensures NormalizeUri(u) != Err(DuplicateCandidate) && NormalizeUri(v) != Err(DuplicateCandidate)
    ensures NormalizeRelation(relation) != Err(DuplicateCandidate)
    ensures OptionalField(rationale, MAX_RATIONALE_BYTES) != Err(DuplicateCandidate)
    ensures Tags(tags) != Err(DuplicateCandidate) && ValidateScore(score) != Err(DuplicateCandidate)
  {
    hide NormalizeUri, GoodTags, Bounded, NoControls, Trim, ByteLen, LowerAll, Tags;
    UriIsNoDuplicate(u);
    UriIsNoDuplicate(v);
    TagsAreNoDuplicate(tags);
  }

  lemma UriIsNoDuplicate(u: string)
    ensures NormalizeUri(u) != Err(DuplicateCandidate)
  {}

  lemma TagsAreNoDuplicate(tags: seq<string>)
    ensures Tags(tags) != Err(DuplicateCandidate)
  {
    hide GoodTags, Bounded, NoControls;
    EmptyTags();
    if |tags| <= MAX_TAGS_PER_CANDIDATE { TagErrors(tags, []); }
  }

  lemma {:induction false} TagErrors(tags: seq<string>, done: seq<string>)
    requires GoodTags(done)
    ensures TagsFrom(tags, done) != Err(DuplicateCandidate)
    decreases |tags|
  {
    hide GoodTags, Bounded, NoControls;
    if tags != [] && CheckTag(tags[0]).Ok? {
      GoodAfterAdd(done, CheckTag(tags[0]).value);
      TagErrors(tags[1..], AddNew(done, CheckTag(tags[0]).value));
    }
  }

  lemma {:induction false} UriErrors(uris: seq<string>, allowed: set<string>, done: seq<string>)
    requires Distinct(done) && forall u :: u in done ==> u in allowed
    ensures UrisFrom(uris, allowed, done) != Err(DuplicateCandidate)
    decreases |uris|
  {
    hide NormalizeUri;
    if uris != [] {
      FieldErrors(uris[0], "", "", None, [], NotFinite);
      if NormalizeUri(uris[0]).Ok? && NormalizeUri(uris[0]).value in allowed {
        UriErrors(uris[1..], allowed, AddNew(done, NormalizeUri(uris[0]).value));
      }
    }
  }

  predicate SoundLink(l: Link, allowed: set<string>) {
    && l.sourceUri in allowed && l.targetUri in allowed && l.sourceUri != l.targetUri
    && l.relation in {"related", "supports"} && 0.0 <= l.confidence <= 1.0
    && (l.rationale.Some? ==> Bounded(l.rationale.value, MAX_RATIONALE_BYTES))
    && GoodTags(l.tags)
  }

  predicate SoundInsight(i: Insight, allowed: set<string>) {
    && Bounded(i.insightType, MAX_INSIGHT_TYPE_BYTES) && Bounded(i.title, MAX_TITLE_BYTES)
    && Bounded(i.statement, MAX_STATEMENT_BYTES)
    && 0.0 <= i.confidence <= 1.0 && 0.0 <= i.salience <= 1.0
    && i.sourceUris != [] && Distinct(i.sourceUris) && (forall u :: u in i.sourceUris ==> u in allowed)
    && GoodTags(i.tags)
  }

  lemma ValidInsight(c: RawInsight, allowed: set<string>)
    ensures ValidateInsight(c, allowed) != Err(DuplicateCandidate)
    ensures ValidateInsight(c, allowed).Ok? ==> SoundInsight(ValidateInsight(c, allowed).value, allowed)
  {
    hide NormalizeUri, UrisFrom, Tags, ValidateScore, Bounded, GoodTags, NoControls;
    FieldErrors("", "", "", None, c.tags, c.confidence);
    FieldErrors("", "", "", None, c.tags, c.salience);
    UriErrors(c.sourceUris, allowed, []);
  }

  /**
   * Every candidate of either kind is kept or rejected exactly once, in provider order; it is rejected as a
   * duplicate exactly when it is valid and an earlier valid one has its identity; everything kept is sound.
   */
  lemma ValidationAccountsForEveryCandidate(
    slug: string -> string, links: seq<Option<RawLink>>, insights: seq<Option<RawInsight>>, allowed: set<string>)
    ensures var out := Validated(slug, links, insights, allowed);
      exists lx, ix ::
        && out.rejections == lx + ix
        && Accounts(LinkKind, LinkResults(links, allowed), LinkKey, out.links, lx)
        && Accounts(InsightKind, InsightResults(insights, allowed), InsightKey(slug), out.insights, ix)
    ensures var out := Validated(slug, links, insights, allowed);
      && (forall l :: l in out.links ==> SoundLink(l, allowed))
      && (forall i :: i in out.insights ==> SoundInsight(i, allowed))
  {
    hide Accounts, KeptValues, Rejections, SoundLink, SoundInsight, InsightKey, LinkResults, InsightResults;
    var lr, ir := LinkResults(links, allowed), InsightResults(insights, allowed);
    FirstValidWinsAccounts(LinkKind, lr, LinkKey);
    FirstValidWinsAccounts(InsightKind, ir, InsightKey(slug));
    var out := Validated(slug, links, insights, allowed);
    var lx, ix := Rejections(LinkKind, lr, LinkKey, |lr|), Rejections(InsightKind, ir, InsightKey(slug), |ir|);
    assert out.rejections == lx + ix
      && Accounts(LinkKind, lr, LinkKey, out.links, lx)
          && Accounts(InsightKind, ir, InsightKey(slug), out.insights, ix);
    LinksAreSound(links, allowed);
    InsightsAreSound(slug, insights, allowed);
  }

  lemma LinksAreSound(links: seq<Option<RawLink>>, allowed: set<string>)
    ensures var lr := LinkResults(links, allowed);
      forall l :: l in KeptValues(lr, LinkKey, |lr|) ==> SoundLink(l, allowed)
  {
    var lr := LinkResults(links, allowed);
    KeptAreWhereListed(lr, LinkKey);
    hide KeptValues, KeptIndices, SoundLink, ValidateLink;
    forall l | l in KeptValues(lr, LinkKey, |lr|) ensures SoundLink(l, allowed) {
      var t :| 0 <= t < |KeptValues(lr, LinkKey, |lr|)| && KeptValues(lr, LinkKey, |lr|)[t] == l;
      ValidLink(links[KeptIndices(lr, LinkKey, |lr|)[t]].value, allowed);
    }
  }

  lemma InsightsAreSound(slug: string -> string, insights: seq<Option<RawInsight>>, allowed: set<string>)
    ensures var ir := InsightResults(insights, allowed);
      forall i :: i in KeptValues(ir, InsightKey(slug), |ir|) ==> SoundInsight(i, allowed)
  {
    var ir := InsightResults(insights, allowed);
    KeptAreWhereListed(ir, InsightKey(slug));
    hide KeptValues, KeptIndices, SoundInsight, ValidateInsight, InsightKey;
    forall l | l in KeptValues(ir, InsightKey(slug), |ir|) ensures SoundInsight(l, allowed) {
      var t :| 0 <= t < |KeptValues(ir, InsightKey(slug), |ir|)| && KeptValues(ir, InsightKey(slug), |ir|)[t] == l;
      ValidInsight(insights[KeptIndices(ir, InsightKey(slug), |ir|)[t]].value, allowed);
    }
  }

  lemma KeptIsValid<V, K>(results: seq<Result<V, Code>>, key: V -> K, i: nat)
    requires i < |results|
    ensures Kept(results, key, i) ==> results[i].Ok?
  {}

  /** A duplicate is reported exactly for a valid candidate whose identity an earlier valid one already has. */
  lemma DuplicateExactly(
    slug: string -> string, links: seq<Option<RawLink>>, insights: seq<Option<RawInsight>>, allowed: set<string>,
        n: nat)
    ensures
      var lr, out := LinkResults(links, allowed), Validated(slug, links, insights, allowed);
      n < |links| ==>
        (Rejection(LinkKind, n, DuplicateCandidate) in out.rejections
         <==> lr[n].Ok? && exists j :: 0 <= j < n && lr[j].Ok? && LinkKey(lr[j].value) == LinkKey(lr[n].value))
    ensures
      var ir, out := InsightResults(insights, allowed), Validated(slug, links, insights, allowed);
      n < |insights| ==>
        (Rejection(InsightKind, n, DuplicateCandidate) in out.rejections
         <==> ir[n].Ok? && exists j ::
                0 <= j < n && ir[j].Ok? && InsightKey(slug)(ir[j].value) == InsightKey(slug)(ir[n].value))
  {
    var lr, ir := LinkResults(links, allowed), InsightResults(insights, allowed);
    RejectionListing(LinkKind, lr, LinkKey, |lr|);
    RejectionListing(InsightKind, ir, InsightKey(slug), |ir|);
    var lx, ix := Rejections(LinkKind, lr, LinkKey, |lr|), Rejections(InsightKind, ir, InsightKey(slug), |ir|);
    hide Rejections, ValidateLink, ValidateInsight, InsightKey;
    if n < |links| {
      if links[n].Some? { ValidLink(links[n].value, allowed); }
      assert Rejection(LinkKind, n, DuplicateCandidate) in lx <==> lr[n].Ok? && !Kept(lr, LinkKey, n);
    }
    if n < |insights| {
      if insights[n].Some? { ValidInsight(insights[n].value, allowed); }
      assert Rejection(InsightKind, n, DuplicateCandidate) in ix <==> ir[n].Ok? && !Kept(ir, InsightKey(slug), n);
    }
  }

  // ---- Redaction ----

  lemma RedactedLinkIsSound(rd: Redactor, l: Link, allowed: set<string>)
    requires SoundLink(l, allowed)
    ensures SoundLink(LinkRedacted(rd, l), allowed) && LinkKey(LinkRedacted(rd, l)) == LinkKey(l)
  {
    hide TagsRedacted, OptionalField, Bounded, GoodTags;
  }

  lemma RedactedInsightIsSound(rd: Redactor, i: Insight, allowed: set<string>)
    requires SoundInsight(i, allowed)
    ensures var r := InsightRedacted(rd, i);
      r.Ok? ==>
        && SoundInsight(r.value, allowed)
        && r.value.sourceUris == i.sourceUris && r.value.confidence == i.confidence && r.value.salience == i.salience
  {
    hide TagsRedacted, Bounded, GoodTags, NoControls;
  }

  /**
   * Whatever redaction makes of the texts: links keep their number, order and identities; the surviving insights
   * are a subsequence, sound, with pairwise distinct identities, and each identity that a redacted insight still
   * has is carried by the first such insight.
   */
  lemma RedactionKeepsGuarantees(rd: Redactor, out: Output, allowed: set<string>)
    requires forall l :: l in out.links ==> SoundLink(l, allowed)
    requires forall i :: i in out.insights ==> SoundInsight(i, allowed)
    ensures var r := Redacted(rd, out);
      && |r.links| == |out.links| && r.rejections == out.rejections
      && (forall t :: 0 <= t < |r.links| ==>
            LinkKey(r.links[t]) == LinkKey(out.links[t]) && SoundLink(r.links[t], allowed))
      && (forall i :: i in r.insights ==> SoundInsight(i, allowed))
    ensures
      var r, ir, ks := Redacted(rd, out), InsightsRedacted(rd, out.insights), SurvivorsOf(rd, out);
      && |ks| == |r.insights|
      && (forall s, t :: 0 <= s < t < |ks| ==> ks[s] < ks[t])
      && (forall t :: 0 <= t < |ks| ==>
            ks[t] < |out.insights| && ir[ks[t]] == Ok(r.insights[t])
            && r.insights[t].sourceUris == out.insights[ks[t]].sourceUris)
      && (forall i :: 0 <= i < |ir| && ir[i].Ok? ==>
            exists j ::
              && 0 <= j <= i && j in ks && ir[j].Ok?
              && InsightKey(rd.slug)(ir[j].value) == InsightKey(rd.slug)(ir[i].value))
      && (forall s, t :: 0 <= s < t < |r.insights| ==>
            InsightKey(rd.slug)(r.insights[s]) != InsightKey(rd.slug)(r.insights[t]))
  {
    var r, ir, ks, key := Redacted(rd, out), InsightsRedacted(rd, out.insights), SurvivorsOf(rd, out),
        InsightKey(rd.slug);
    KeptListing(ir, key, |ir|);
    KeptValuesAt(ir, key, |ir|);
    KeptAreDistinct(ir, key);
    hide KeptValues, KeptIndices, Kept, SoundLink, SoundInsight, LinkRedacted, InsightRedacted, InsightKey;
    forall t | 0 <= t < |r.links|
      ensures LinkKey(r.links[t]) == LinkKey(out.links[t]) && SoundLink(r.links[t], allowed)
    {
      RedactedLinkIsSound(rd, out.links[t], allowed);
    }
    forall t | 0 <= t < |ks|
      ensures ks[t] < |out.insights| && ir[ks[t]] == Ok(r.insights[t]) && SoundInsight(r.insights[t], allowed)
      ensures r.insights[t].sourceUris == out.insights[ks[t]].sourceUris
    {
      KeptIsValid(ir, key, ks[t]);
      RedactedInsightIsSound(rd, out.insights[ks[t]], allowed);
    }
    forall i | 0 <= i < |ir| && ir[i].Ok?
      ensures exists j :: 0 <= j <= i && j in ks && ir[j].Ok? && key(ir[j].value) == key(ir[i].value)
    {
      FirstValidSurvives(ir, key, i);
      var j :| 0 <= j <= i && Kept(ir, key, j) && key(ir[j].value) == key(ir[i].value);
      KeptIsValid(ir, key, j);
      assert j in ks;
    }
  }

  function SurvivorsOf(rd: Redactor, out: Output): seq<nat> {
    KeptIndices(InsightsRedacted(rd, out.insights), InsightKey(rd.slug), |out.insights|)
  }

  /** End to end: an accepted provider response, once redacted, is sound and free of duplicates. */
  lemma AcceptedOutputIsSafe(rd: Redactor, bytes: nat, response: Response, allowed: set<string>)
    ensures var v := ValidateResponse(rd.slug, bytes, response, allowed);
      v.Ok? ==>
        var r := Redacted(rd, v.value);
        && |r.links| <= MAX_LINK_CANDIDATES && |r.insights| <= MAX_INSIGHT_CANDIDATES
        && (forall l :: l in r.links ==> SoundLink(l, allowed))
        && (forall i :: i in r.insights ==> SoundInsight(i, allowed))
        && (forall s, t :: 0 <= s < t < |r.links| ==> LinkKey(r.links[s]) != LinkKey(r.links[t]))
        && (forall s, t :: 0 <= s < t < |r.insights| ==>
              InsightKey(rd.slug)(r.insights[s]) != InsightKey(rd.slug)(r.insights[t]))
  {
    hide SoundLink, SoundInsight, Kept, KeptValues, KeptIndices, Rejections, InsightKey, LinkResults, InsightResults,
      LinkKey, InsightsRedacted, LinkRedacted, Accounts;
    var v := ValidateResponse(rd.slug, bytes, response, allowed);
    if v.Ok? {
      var out := v.value;
      assert out == Validated(rd.slug, response.links, response.insights, allowed);
      ValidationAccountsForEveryCandidate(rd.slug, response.links, response.insights, allowed);
      RedactionKeepsGuarantees(rd, out, allowed);
      LinksDistinct(rd.slug, response.links, response.insights, allowed);
      SizesBounded(rd, response.links, response.insights, allowed);
    }
  }

  lemma LinksDistinct(slug: string -> string, links: seq<Option<RawLink>>, insights: seq<Option<RawInsight>>,
      allowed: set<string>)
    ensures var out := Validated(slug, links, insights, allowed);
      forall s, t :: 0 <= s < t < |out.links| ==> LinkKey(out.links[s]) != LinkKey(out.links[t])
  {
    hide KeptValues, LinkResult, InsightResults, Rejections, InsightKey;
    var lr, out := LinkResults(links, allowed), Validated(slug, links, insights, allowed);
    KeptAreDistinct(lr, LinkKey);
    assert out.links == KeptValues(lr, LinkKey, |lr|);
  }

  lemma SizesBounded(rd: Redactor, links: seq<Option<RawLink>>, insights: seq<Option<RawInsight>>, allowed: set<string>)
    ensures var out := Validated(rd.slug, links, insights, allowed);
      && |out.links| <= |links| && |out.insights| <= |insights| && |Redacted(rd, out).insights| <= |out.insights|
  {
    hide LinkResult, InsightResult, InsightRedacted, InsightKey;
    var lr, ir := LinkResults(links, allowed), InsightResults(insights, allowed);
    var rr := InsightsRedacted(rd, Validated(rd.slug, links, insights, allowed).insights);
    KeptAtMost(lr, LinkKey, |lr|);
    KeptAtMost(ir, InsightKey(rd.slug), |ir|);
    KeptAtMost(rr, InsightKey(rd.slug), |rr|);
  }

  lemma {:induction false} KeptAtMost<V, K>(results: seq<Result<V, Code>>, key: V -> K, n: nat)
    requires n <= |results|
    ensures |KeptValues(results, key, n)| <= n
  {
    hide Kept;
    if n > 0 { KeptAtMost(results, key, n - 1); }
  }
}
