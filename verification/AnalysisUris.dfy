/** Canonical context URIs: what the authorised list and a candidate's URIs agree on. */
module AnalysisUris {
  import opened Basics
  import opened Text
  import opened Analysis

  /** AnalysisUriAllowlist::from_authorized: the canonical forms; what has none is left out. */
  function Allowlist(authorized: set<string>): (allowed: set<string>)
    ensures forall u :: u in authorized && NormalizeUri(u).Ok? ==> NormalizeUri(u).value in allowed
    ensures forall v :: v in allowed ==> exists u :: u in authorized && NormalizeUri(u) == Ok(v)
  {
    set u | u in authorized && NormalizeUri(u).Ok? :: NormalizeUri(u).value
  }

  predicate Unbroken(s: string) { forall i :: 0 <= i < |s| ==> !IsWhitespace(s[i]) && !IsControl(s[i]) }

  lemma TrimUnbroken(s: string)
    requires Unbroken(s)
    ensures Trim(s) == s
  {
    assert s != "" ==> !IsWhitespace(s[0]) && !IsWhitespace(s[|s| - 1]);
    var a := TrimStartIsSuffix(s);
    assert a == 0;
    var b := TrimEndIsPrefix(s);
    assert b == |s|;
  }

  lemma {:induction false} ByteLenOfPrefix(s: string, n: nat)
    requires n <= |s|
    ensures ByteLen(s[..n]) <= ByteLen(s) && n <= ByteLen(s[..n])
  {
    if n > 0 {
      ByteLenOfPrefix(s[1..], n - 1);
      assert s[..n][1..] == s[1..][..n - 1];
    }
  }

  /** The suffix a read of one layer of a resource adds to its URI. */
  function Layer(k: nat): string
    requires k < 4
  {
    ["/.abstract", "/.overview", "/detail", "/chunks/0001"][k]
  }

  lemma StripIsPrefix(uri: string)
    ensures StripLayer(uri) <= uri
    ensures StripLayer(uri) == uri || exists k: nat :: k < 4 && uri == StripLayer(uri) + Layer(k)
  {
    if StripLayer(uri) != uri {
      var k := if StripSuffix(uri, Layer(0)).Some? then 0
               else if StripSuffix(uri, Layer(1)).Some? then 1
               else if StripSuffix(uri, Layer(2)).Some? then 2 else 3;
      assert uri == StripSuffix(uri, Layer(k)).value + Layer(k);
      assert StripLayer(uri) == StripSuffix(uri, Layer(k)).value;
    }
  }

  /** What is accepted: a non-empty unbroken prefix of the trimmed URI, at most one layer shorter. */
  lemma AcceptedShape(uri: string)
    requires NormalizeUri(uri).Ok?
    ensures var u, v := Trim(uri), NormalizeUri(uri).value;
      SCHEME <= u && Unbroken(u) && v == StripLayer(u) && v <= u && v != "" && Unbroken(v)
      && ByteLen(v) <= MAX_URI_BYTES && ByteLen(v) != ByteLen(SCHEME)
  {
    hide Trim, ByteLen, StripLayer, IsWhitespace, IsControl;
    var u, v := Trim(uri), NormalizeUri(uri).value;
    StripIsPrefix(u);
    ByteLenOfPrefix(u, |v|);
    assert u[..|v|] == v;
    if v == "" {
      LayersAreNoUris(u);
    }
  }

  lemma LayersAreNoUris(u: string)
    requires SCHEME <= u
    ensures StripLayer(u) != ""
  {
    StripIsPrefix(u);
    assert forall k: nat :: k < 4 ==> Layer(k)[0] == '/' && u[0] == 'c';
  }

  /** On an unbroken URI with a scheme only the layer suffix matters. */
  lemma UnbrokenIsStripped(u: string)
    requires Unbroken(u) && SCHEME <= u && u != SCHEME && ByteLen(u) <= MAX_URI_BYTES
    ensures NormalizeUri(u) == if ByteLen(StripLayer(u)) == ByteLen(SCHEME) then Err(InvalidUri) else Ok(StripLayer(u))
  {
    TrimUnbroken(u);
    hide Trim, StripLayer, IsWhitespace, IsControl, ByteLen;
  }

  /** On a canonical form a second pass only looks at the scheme and at one more suffix. */
  lemma StableResult(uri: string)
    requires NormalizeUri(uri).Ok?
    ensures var v := NormalizeUri(uri).value;
      NormalizeUri(v) == Ok(v) <==> SCHEME <= v && StripLayer(v) == v
  {
    AcceptedShape(uri);
    var v := NormalizeUri(uri).value;
    TrimUnbroken(v);
    hide Trim, StripLayer, IsWhitespace, IsControl;
    assert v != SCHEME;
  }

  predicate EndsWith(u: string, suffix: string) { |suffix| <= |u| && u[|u| - |suffix|..] == suffix }

  /** The URI ends in one layer suffix after another. */
  predicate EndsInTwoLayers(u: string) {
    exists j: nat, k: nat :: j < 4 && k < 4 && EndsWith(u, Layer(j) + Layer(k))
  }

  /** Nothing but the scheme's last slash and the suffix: stripping the suffix cuts into the scheme. */
  predicate IsBareLayer(u: string) {
    exists k: nat :: k < 4 && u == "ctx:/" + Layer(k)
  }

  lemma EndsWithAppend(v: string, a: string, b: string)
    ensures EndsWith(v + b, a + b) <==> EndsWith(v, a)
  {
    var u := v + b;
    if |a| <= |v| {
      assert u[|u| - |a + b|..] == v[|v| - |a|..] + b;
      assert (v[|v| - |a|..] + b)[..|a|] == v[|v| - |a|..] && (a + b)[..|a|] == a;
    }
  }

  /** What is left after stripping a layer has another exactly when the URI ended in two. */
  lemma TwoLayers(v: string, k: nat)
    requires k < 4
    ensures EndsInTwoLayers(v + Layer(k)) <==> StripLayer(v) != v
  {
    hide StripLayer;
    var u := v + Layer(k);
    StripIsPrefix(v);
    if StripLayer(v) != v {
      var j: nat :| j < 4 && v == StripLayer(v) + Layer(j);
      assert EndsWith(v, Layer(j));
      EndsWithAppend(v, Layer(j), Layer(k));
    }
    if EndsInTwoLayers(u) {
      var j: nat, i: nat :| j < 4 && i < 4 && EndsWith(u, Layer(j) + Layer(i));
      LastLayer(v, k, Layer(j), i);
      EndsWithAppend(v, Layer(j), Layer(k));
      assert v == v[..|v| - |Layer(j)|] + Layer(j);
      LayerStrips(v[..|v| - |Layer(j)|], j);
    }
  }

  lemma LastLayer(v: string, k: nat, prefix: string, i: nat)
    requires k < 4 && i < 4 && EndsWith(v + Layer(k), prefix + Layer(i))
    ensures i == k
  {
    var u, w := v + Layer(k), prefix + Layer(i);
    assert u[|u| - 1] == Layer(k)[|Layer(k)| - 1] && w[|w| - 1] == Layer(i)[|Layer(i)| - 1];
    assert u[|u| - |w|..][|w| - 1] == u[|u| - 1];
  }

  /** Stripping a layer leaves the scheme in place unless there is nothing else. */
  lemma SchemeSurvives(v: string, k: nat)
    requires k < 4 && SCHEME <= v + Layer(k)
    ensures SCHEME <= v <==> !IsBareLayer(v + Layer(k))
  {
    var u := v + Layer(k);
    assert forall i :: 0 <= i < 6 ==> u[i] == SCHEME[i];
    if |v| >= 6 {
      assert forall i :: 0 <= i < 6 ==> v[i] == u[i];
      forall i: nat | i < 4 ensures u != "ctx:/" + Layer(i) {
        if u == "ctx:/" + Layer(i) {
          assert EndsWith(u, "" + Layer(i)) by { assert u[5..] == Layer(i) && "" + Layer(i) == Layer(i); }
          LastLayer(v, k, "", i);
          assert false;
        }
      }
    } else {
      assert u[|v|] == '/' && u[|v| + 1] == Layer(k)[1] && Layer(k)[1] != '/';
      assert |v| == 5;
      assert v == u[..5] == "ctx:/";
    }
  }

  lemma NoSuffix(u: string, v: string, k: nat)
    requires StripLayer(u) == u && k < 4
    ensures u != v + Layer(k)
  {
    hide StripLayer;
    LayerStrips(v, k);
    assert |v + Layer(k)| > |v|;
  }

  lemma EndSplits(u: string, a: string, b: string)
    ensures EndsWith(u, a + b) ==> u == u[..SatSub(|u|, |a + b|)] + a + b
  {
    if EndsWith(u, a + b) { assert u == u[..|u| - |a + b|] + (a + b); }
  }

  lemma NoLayerAtAll(u: string)
    requires StripLayer(u) == u
    ensures !EndsInTwoLayers(u) && !IsBareLayer(u)
  {
    hide StripLayer, Layer;
    forall j: nat, k: nat | j < 4 && k < 4 ensures !EndsWith(u, Layer(j) + Layer(k)) {
      EndSplits(u, Layer(j), Layer(k));
      NoSuffix(u, u[..SatSub(|u|, |Layer(j) + Layer(k)|)] + Layer(j), k);
    }
    forall k: nat | k < 4 ensures u != "ctx:/" + Layer(k) {
      NoSuffix(u, "ctx:/", k);
    }
  }

  /**
   * Canonicalising an accepted URI twice is canonicalising it once exactly when the URI does not end in two layer
   * suffixes and is not a bare layer suffix behind the scheme.
   */
  lemma StableExactly(uri: string)
    requires NormalizeUri(uri).Ok?
    ensures var u, v := Trim(uri), NormalizeUri(uri).value;
      NormalizeUri(v) == Ok(v) <==> !EndsInTwoLayers(u) && !IsBareLayer(u)
  {
    hide NormalizeUri, StripLayer, Layer, EndsInTwoLayers, IsBareLayer, Trim, Unbroken;
    var u, v := Trim(uri), NormalizeUri(uri).value;
    AcceptedShape(uri);
    StableResult(uri);
    StripIsPrefix(u);
    if v == u {
      NoLayerAtAll(u);
    } else {
      var k: nat :| k < 4 && u == v + Layer(k);
      TwoLayers(v, k);
      SchemeSurvives(v, k);
    }
  }

  lemma UnbrokenAppend(v: string, w: string)
    requires Unbroken(v) && Unbroken(w)
    ensures Unbroken(v + w)
  {}

  lemma {:induction false} PrintableAscii(s: string)
    requires forall i :: 0 <= i < |s| ==> '!' <= s[i] <= '~'
    ensures Unbroken(s) && ByteLen(s) == |s|
  {
    if s != [] {
      PrintableAscii(s[1..]);
      assert forall i :: 0 < i < |s| ==> s[i] == s[1..][i - 1];
    }
  }

  lemma LayerIsUnbroken(k: nat)
    requires k < 4
    ensures Unbroken(Layer(k)) && ByteLen(Layer(k)) == |Layer(k)|
  {
    hide Unbroken, ByteLen;
    PrintableAscii(Layer(k));
  }

  /** A doubled suffix: the canonical form of "ctx://a/detail/detail" is not its own canonical form. */
  lemma DoubledLayerIsUnstable()
    ensures var v := "ctx://a";
      && NormalizeUri(v + Layer(2) + Layer(2)) == Ok(v + Layer(2))
      && NormalizeUri(v + Layer(2)) == Ok(v)
      && v !in Allowlist({v + Layer(2) + Layer(2)})
  {
    var v := "ctx://a";
    hide NormalizeUri, StripLayer, ByteLen, Trim, Unbroken, StripSuffix;
    PrintableAscii(v);
    PrintableAscii(SCHEME);
    assert |Layer(2)| == 7;
    hide Layer;
    LayerIsUnbroken(2);
    UnbrokenAppend(v, Layer(2));
    ByteLenAppend(v, Layer(2));
    StripsOne(v, 2);
    ByteLenAppend(v + Layer(2), Layer(2));
    assert SCHEME < v && v <= v + Layer(2);
    assert forall i :: 0 <= i < |SCHEME| ==> (v + Layer(2))[i] == SCHEME[i];
    StripsOne(v + Layer(2), 2);
    assert |v + Layer(2)| > |v|;
  }

  /** Any unbroken URI with a layer suffix loses exactly that suffix. */
  lemma StripsOne(v: string, k: nat)
    requires k < 4 && Unbroken(v) && SCHEME < v && ByteLen(v + Layer(k)) <= MAX_URI_BYTES
    ensures NormalizeUri(v + Layer(k)) == if ByteLen(v) == ByteLen(SCHEME) then Err(InvalidUri) else Ok(v)
  {
    hide NormalizeUri, StripLayer, ByteLen, Trim, Layer, Unbroken, StripSuffix;
    LayerStrips(v, k);
    LayerIsUnbroken(k);
    UnbrokenAppend(v, Layer(k));
    UnbrokenIsStripped(v + Layer(k));
  }

  lemma LayerStrips(v: string, k: nat)
    requires k < 4
    ensures StripLayer(v + Layer(k)) == v
  {
    hide StripSuffix;
    var u := v + Layer(k);
    OtherLayerStays(v, k, 0);
    OtherLayerStays(v, k, 1);
    OtherLayerStays(v, k, 2);
    OtherLayerStays(v, k, 3);
    StripsSuffix(v, Layer(k));
  }

  lemma StripsSuffix(v: string, suffix: string)
    ensures StripSuffix(v + suffix, suffix) == Some(v)
  {
    assert (v + suffix)[|v|..] == suffix && (v + suffix)[..|v|] == v;
  }

  /** The layers end in different characters. */
  lemma OtherLayerStays(v: string, k: nat, j: nat)
    requires k < 4 && j < 4
    ensures j != k ==> StripSuffix(v + Layer(k), Layer(j)).None?
  {
    var u := v + Layer(k);
    var lk, lj := |Layer(k)|, |Layer(j)|;
    assert j != k ==> Layer(k)[lk - 1] != Layer(j)[lj - 1];
    assert u[|u| - 1] == Layer(k)[lk - 1];
    if |u| >= lj { assert u[|u| - lj..][lj - 1] == u[|u| - 1]; }
  }

  /** Every layer of a resource resolves to the resource itself, so citing a layer cites the resource. */
  lemma LayersResolve(v: string, k: nat)
    requires k < 4 && NormalizeUri(v) == Ok(v) && ByteLen(v + Layer(k)) <= MAX_URI_BYTES
    ensures NormalizeUri(v + Layer(k)) == Ok(v)
  {
    hide NormalizeUri, StripLayer, ByteLen, Trim, Layer, Unbroken, StripSuffix;
    AcceptedShape(v);
    TrimStartsWithScheme(v);
    StripsOne(v, k);
  }

  /** A URI whose canonical form is its own can be cited by itself and by each of its layers, once it is authorised. */
  lemma EveryLayerIsCitable(authorized: set<string>, v: string, k: nat)
    requires v in authorized && NormalizeUri(v) == Ok(v) && k < 4
    ensures NormalizeUri(v).value in Allowlist(authorized)
    ensures ByteLen(v + Layer(k)) <= MAX_URI_BYTES ==>
      NormalizeUri(v + Layer(k)).Ok? && NormalizeUri(v + Layer(k)).value in Allowlist(authorized)
  {
    if ByteLen(v + Layer(k)) <= MAX_URI_BYTES { LayersResolve(v, k); }
  }

  /** A bare layer suffix: the canonical form of "ctx://detail" is "ctx:/", which is no URI at all. */
  lemma BareLayerCutsTheScheme()
    ensures NormalizeUri("ctx:/" + Layer(2)) == Ok("ctx:/") && NormalizeUri("ctx:/") == Err(InvalidUri)
  {
    var v := "ctx:/";
    hide NormalizeUri, StripLayer, ByteLen, Trim, Unbroken, StripSuffix;
    PrintableAscii(v);
    PrintableAscii(SCHEME);
    assert |Layer(2)| == 7 && SCHEME < v + Layer(2);
    LayerIsUnbroken(2);
    UnbrokenAppend(v, Layer(2));
    ByteLenAppend(v, Layer(2));
    LayerStrips(v, 2);
    UnbrokenIsStripped(v + Layer(2));
    NoScheme(v);
  }

  lemma NoScheme(v: string)
    requires Unbroken(v) && v != "" && ByteLen(v) <= MAX_URI_BYTES && !(SCHEME <= v)
    ensures NormalizeUri(v) == Err(InvalidUri)
  {
    TrimUnbroken(v);
    hide Trim, ByteLen;
  }

  lemma TrimStartsWithScheme(v: string)
    requires NormalizeUri(v) == Ok(v)
    ensures SCHEME < v
  {
    AcceptedShape(v);
    TrimUnbroken(v);
  }
}
