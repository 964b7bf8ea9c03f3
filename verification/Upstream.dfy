// The claims pipeline of an upstream login: renaming, cleanup and the local
// enrichment that ends in the user the tokens are issued for.

module Upstream {
  import opened Claims
  import opened Identity
  import HttpProvider

  // ---------- renaming ----------

  datatype Rule = Rule(oldName: string, newName: string, operation: string)

  const OPERATION_COPY := "copy"

  function ApplyRule<V>(m: map<string, V>, rule: Rule): map<string, V> {
    if rule.oldName == "" || rule.newName == "" || rule.oldName !in m then m
    else if rule.operation == OPERATION_COPY then m[rule.newName := m[rule.oldName]]
    else (m - {rule.oldName})[rule.newName := m[rule.oldName]]
  }

  function Rename<V>(rules: seq<Rule>, m: map<string, V>): map<string, V>
    decreases |rules|
  {
    if rules == [] then m
    else ApplyRule(Rename(rules[..|rules| - 1], m), rules[|rules| - 1])
  }

  method PerformRenaming(rules: seq<Rule>, claims: ClaimMap) returns (out: ClaimMap)
    ensures out == Rename(rules, claims)
  {
    if rules == [] {
      return claims;
    }
    out := CopyMap(claims);
    for i := 0 to |rules|
      invariant out == Rename(rules[..i], claims)
    {
      var rule := rules[i];
      assert rules[..i + 1][..i] == rules[..i];
      if rule.oldName == "" || rule.newName == "" {
        continue;
      }
      if rule.oldName !in out {
        continue;
      }
      var val := out[rule.oldName];
      if rule.operation == OPERATION_COPY {
        out := out[rule.newName := val];
      } else {
        out := out - {rule.oldName};
        out := out[rule.newName := val];
      }
    }
    assert rules[..|rules|] == rules;
  }

  // Where the value found at key k after the rules comes from, chased backwards
  // through the rules; only the input's keys matter.
  function Source(rules: seq<Rule>, keys: set<string>, k: string): Option<string>
    decreases |rules|
  {
    if rules == [] then
      if k in keys then Some(k) else None
    else
      var before := rules[..|rules| - 1];
      var rule := rules[|rules| - 1];
      if rule.oldName == "" || rule.newName == "" || Source(before, keys, rule.oldName).None? then
        Source(before, keys, k)
      else if k == rule.newName then Source(before, keys, rule.oldName)
      else if k == rule.oldName && rule.operation != OPERATION_COPY then None
      else Source(before, keys, k)
  }

  // Renaming rule by rule is one simultaneous lookup.
  lemma {:induction false} RenameIsParallelLookup<V>(rules: seq<Rule>, m: map<string, V>, k: string)
    ensures k in Rename(rules, m) <==> Source(rules, m.Keys, k).Some?
    ensures Source(rules, m.Keys, k).Some? ==> Source(rules, m.Keys, k).value in m
    ensures k in Rename(rules, m) ==> Rename(rules, m)[k] == m[Source(rules, m.Keys, k).value]
    decreases |rules|
  {
    if rules == [] {
    } else {
      var before := rules[..|rules| - 1];
      RenameIsParallelLookup(before, m, k);
      RenameIsParallelLookup(before, m, rules[|rules| - 1].oldName);
    }
  }

  function MapValues<V, W>(f: V -> W, m: map<string, V>): map<string, W> {
    map k | k in m :: f(m[k])
  }

  lemma RenameCommutes<V, W>(rules: seq<Rule>, f: V -> W, m: map<string, V>)
    ensures Rename(rules, MapValues(f, m)) == MapValues(f, Rename(rules, m))
  {
    var n := MapValues(f, m);
    assert n.Keys == m.Keys;
    forall k ensures k in Rename(rules, n) <==> k in Rename(rules, m)
      ensures k in Rename(rules, m) ==> Rename(rules, n)[k] == f(Rename(rules, m)[k])
    {
      RenameIsParallelLookup(rules, n, k);
      RenameIsParallelLookup(rules, m, k);
    }
    assert Rename(rules, n).Keys == Rename(rules, m).Keys;
  }

  lemma RenameCommutesWithNorm(rules: seq<Rule>, m: ClaimMap)
    ensures Rename(rules, NormMap(m)) == NormMap(Rename(rules, m))
  {
    RenameCommutes(rules, Norm, m);
    assert MapValues(Norm, m) == NormMap(m);
    assert MapValues(Norm, Rename(rules, m)) == NormMap(Rename(rules, m));
  }

  function CopyRules(rules: seq<Rule>): nat {
    if rules == [] then 0
    else CopyRules(rules[..|rules| - 1]) + if rules[|rules| - 1].operation == OPERATION_COPY then 1 else 0
  }

  lemma {:induction false} RenameGrowth<V>(rules: seq<Rule>, m: map<string, V>)
    ensures |Rename(rules, m)| <= |m| + CopyRules(rules)
    decreases |rules|
  {
    if rules == [] {
    } else {
      var before := Rename(rules[..|rules| - 1], m);
      var rule := rules[|rules| - 1];
      RenameGrowth(rules[..|rules| - 1], m);
      var after := ApplyRule(before, rule);
      if rule.operation == OPERATION_COPY {
        assert after.Keys <= before.Keys + {rule.newName};
        CardinalityGrows(after.Keys, before.Keys, rule.newName);
      } else if after != before {
        var kept := before.Keys - {rule.oldName};
        assert |kept| == |before.Keys| - 1;
        assert after.Keys <= kept + {rule.newName};
        CardinalityGrows(after.Keys, kept, rule.newName);
      }
    }
  }

  lemma CardinalityGrows(a: set<string>, b: set<string>, x: string)
    requires a <= b + {x}
    ensures |a| <= |b| + 1
  {
    SubsetCardinality(a, b + {x});
  }

  lemma {:induction false} SubsetCardinality(a: set<string>, b: set<string>)
    requires a <= b
    ensures |a| <= |b|
    decreases |a|
  {
    if a == {} {
    } else {
      var x :| x in a;
      SubsetCardinality(a - {x}, b - {x});
    }
  }

  // ---------- cleanup ----------

  const REGISTERED_CLAIMS: set<string> :=
    {"iss", "aud", "exp", "iat", "auth_time", "nonce", "acr", "amr", "azp", "at_hash", "c_hash"}

  function Dropped(removals: seq<string>): set<string> {
    REGISTERED_CLAIMS + set k | k in removals && k != ""
  }

  function Cleanup(removals: seq<string>, m: ClaimMap): ClaimMap {
    m - Dropped(removals)
  }

  method DeleteKeys(claims: ClaimMap, keys: set<string>) returns (out: ClaimMap)
    ensures out == claims - keys
  {
    out := claims;
    var todo := keys;
    while todo != {}
      invariant todo <= keys
      invariant out == claims - (keys - todo)
      decreases |todo|
    {
      var k :| k in todo;
      out := out - {k};
      todo := todo - {k};
    }
  }

  method CleanupClaims(removals: seq<string>, claims: ClaimMap) returns (out: ClaimMap)
    ensures out == Cleanup(removals, claims)
    ensures "sub" in claims && "sub" !in removals ==> "sub" in out && out["sub"] == claims["sub"]
  {
    out := CopyMap(claims);
    out := DeleteKeys(out, REGISTERED_CLAIMS);
    for i := 0 to |removals|
      invariant out == claims - REGISTERED_CLAIMS - (set k | k in removals[..i] && k != "")
    {
      if removals[i] != "" {
        out := out - {removals[i]};
      }
    }
    assert removals[..|removals|] == removals;
  }

  lemma CleanupDistributes(removals: seq<string>, a: ClaimMap, b: ClaimMap)
    ensures Cleanup(removals, Merge(a, b)) == Merge(Cleanup(removals, a), Cleanup(removals, b))
  {
    var l := Cleanup(removals, Merge(a, b));
    var r := Merge(Cleanup(removals, a), Cleanup(removals, b));
    assert l.Keys == r.Keys;
  }

  // ---------- the whole pipeline ----------

  datatype Config = Config(useUserInfo: bool, localEnrichment: bool, rules: seq<Rule>, removals: seq<string>)

  // Claims from the upstream alone: normalised, merged, renamed, cleaned.
  function UpstreamClaims(cfg: Config, idClaims: ClaimMap, userInfo: ClaimMap): ClaimMap {
    var base := if cfg.useUserInfo then Merge(NormMap(idClaims), NormMap(userInfo)) else NormMap(idClaims);
    Cleanup(cfg.removals, Rename(cfg.rules, base))
  }

  // local is the user the local identity lookup returned, None when it failed;
  // the callback then goes on with the upstream's claims alone.
  function UpstreamUser(cfg: Config, idClaims: ClaimMap, userInfo: ClaimMap, local: Option<OidcUser>): OidcUser {
    var claims := UpstreamClaims(cfg, idClaims, userInfo);
    if cfg.localEnrichment && local.Some? then
      local.value.(claims := Merge(claims, NormMap(local.value.claims)))
    else
      OidcUser(StringClaim(claims, "sub"), claims, StringClaim(claims, "name"))
  }

  // The lookup of sub without a password: a user whatever the status, unless it fails.
  function LocalUser(sub: string, a: HttpProvider.Answer): Option<OidcUser> {
    if a.Answered? && HttpProvider.Readable(a.user) then
      Some(OidcUser(sub, HttpProvider.EnrichedClaims(a), a.user.name))
    else None
  }

  // A missing sub or a failed lookup writes an error response before the callback goes on.
  predicate WritesError(cfg: Config, claims: ClaimMap, a: HttpProvider.Answer) {
    var sub := StringClaim(claims, "sub");
    sub == "" || (cfg.localEnrichment && LocalUser(sub, a).None?)
  }

  method GatherClaims(cfg: Config, idToken: Option<ClaimMap>, userInfo: ClaimMap) returns (claims: ClaimMap)
    ensures claims == UpstreamClaims(cfg, if idToken.Some? then idToken.value else map[], userInfo)
    ensures NormalFormMap(claims)
  {
    claims := map[];
    if idToken.Some? {
      claims := NormalizeStringArray(idToken.value);
    }
    if cfg.useUserInfo {
      var uiClaims := NormalizeStringArray(userInfo);
      claims := MergeMaps(claims, uiClaims);
    }
    claims := PerformRenaming(cfg.rules, claims);
    claims := CleanupClaims(cfg.removals, claims);
    PipelineNormalForm(cfg, if idToken.Some? then idToken.value else map[], userInfo, None);
  }

  method BuildUpstreamUser(cfg: Config, idToken: Option<ClaimMap>, userInfo: ClaimMap, a: HttpProvider.Answer)
      returns (user: OidcUser, errorWritten: bool)
    ensures var ids := if idToken.Some? then idToken.value else map[];
            var claims := UpstreamClaims(cfg, ids, userInfo);
            && user == UpstreamUser(cfg, ids, userInfo, LocalUser(StringClaim(claims, "sub"), a))
            && errorWritten == WritesError(cfg, claims, a)
    ensures NormalFormMap(user.claims)
  {
    var idClaims := GatherClaims(cfg, idToken, userInfo);
    var sub := StringClaim(idClaims, "sub");
    errorWritten := sub == "";
    var found: Option<OidcUser> := None;
    if cfg.localEnrichment {
      var got := HttpProvider.Identify(sub, a);
      if got.Err? {
        errorWritten := true;
      } else {
        var local := got.value.0;
        var localClaims := NormalizeStringArray(local.claims);
        var x := MergeMaps(idClaims, localClaims);
        found := Some(local.(claims := x));
      }
    }
    if found.None? {
      user := OidcUser(sub, idClaims, StringClaim(idClaims, "name"));
    } else {
      user := found.value;
    }
    PipelineNormalForm(cfg, if idToken.Some? then idToken.value else map[], userInfo, LocalUser(sub, a));
  }

  // Whoever enriches the claims, the tokens are issued for the upstream's sub.
  lemma LoginIsSub(cfg: Config, idClaims: ClaimMap, userInfo: ClaimMap, a: HttpProvider.Answer)
    ensures var sub := StringClaim(UpstreamClaims(cfg, idClaims, userInfo), "sub");
            UpstreamUser(cfg, idClaims, userInfo, LocalUser(sub, a)).login == sub
  {
  }

  lemma NormMapNormalForm(m: ClaimMap)
    ensures NormalFormMap(NormMap(m))
  {
    forall k | k in m ensures NormalForm(Norm(m[k])) { NormYieldsNormalForm(m[k]); }
  }

  lemma RenamePreservesNormalForm(rules: seq<Rule>, m: ClaimMap)
    requires NormalFormMap(m)
    ensures NormalFormMap(Rename(rules, m))
  {
    forall k | k in Rename(rules, m) ensures NormalForm(Rename(rules, m)[k]) {
      RenameIsParallelLookup(rules, m, k);
    }
  }

  lemma PipelineNormalForm(cfg: Config, idClaims: ClaimMap, userInfo: ClaimMap, local: Option<OidcUser>)
    ensures NormalFormMap(UpstreamClaims(cfg, idClaims, userInfo))
    ensures NormalFormMap(UpstreamUser(cfg, idClaims, userInfo, local).claims)
  {
    NormMapNormalForm(idClaims);
    NormMapNormalForm(userInfo);
    MergePreservesNormalForm(Map(NormMap(idClaims)), Map(NormMap(userInfo)));
    var base := if cfg.useUserInfo then Merge(NormMap(idClaims), NormMap(userInfo)) else NormMap(idClaims);
    RenamePreservesNormalForm(cfg.rules, base);
    var claims := UpstreamClaims(cfg, idClaims, userInfo);
    if local.Some? {
      NormMapNormalForm(local.value.claims);
      MergePreservesNormalForm(Map(claims), Map(NormMap(local.value.claims)));
    }
  }

  predicate SameDocuments(a: Option<OidcUser>, b: Option<OidcUser>) {
    && a.Some? == b.Some?
    && (a.Some? ==>
          a.value.login == b.value.login && a.value.fullName == b.value.fullName &&
          JsonMap(a.value.claims) == JsonMap(b.value.claims))
  }

  // Inputs that are the same JSON documents give the same user: no difference
  // between typed and generic lists survives the pipeline.
  lemma PipelineReadsOnlyJson(cfg: Config, id1: ClaimMap, id2: ClaimMap, ui1: ClaimMap, ui2: ClaimMap,
                              local1: Option<OidcUser>, local2: Option<OidcUser>)
    requires JsonMap(id1) == JsonMap(id2) && JsonMap(ui1) == JsonMap(ui2) && SameDocuments(local1, local2)
    ensures UpstreamUser(cfg, id1, ui1, local1) == UpstreamUser(cfg, id2, ui2, local2)
  {
    assert UpstreamClaims(cfg, id1, ui1) == UpstreamClaims(cfg, id2, ui2) by {
      NormMapCanonical(id1, id2);
      NormMapCanonical(ui1, ui2);
    }
    if local1.Some? {
      NormMapCanonical(local1.value.claims, local2.value.claims);
    }
  }

  lemma NormMapCanonical(a: ClaimMap, b: ClaimMap)
    ensures NormMap(a) == NormMap(b) <==> JsonMap(a) == JsonMap(b)
  {
    assert NormMap(a).Keys == a.Keys == JsonMap(a).Keys;
    assert NormMap(b).Keys == b.Keys == JsonMap(b).Keys;
    forall k | k in a && k in b
      ensures NormMap(a)[k] == NormMap(b)[k] <==> JsonMap(a)[k] == JsonMap(b)[k]
    {
      NormCanonical(a[k], b[k]);
    }
  }

  // ---------- where each claim comes from ----------

  predicate Registered(k: string) {
    || k == "iss" || k == "aud" || k == "exp" || k == "iat" || k == "auth_time" || k == "nonce"
    || k == "acr" || k == "amr" || k == "azp" || k == "at_hash" || k == "c_hash"
  }

  // The input key whose value ends up at k.
  function Origin(cfg: Config, idClaims: ClaimMap, userInfo: ClaimMap, k: string): Option<string> {
    Source(cfg.rules, idClaims.Keys + (if cfg.useUserInfo then userInfo.Keys else {}), k)
  }

  // At k, claims holds exactly what the rules lead back to an input claim, unless
  // k is registered or removed: the user info's value on top of the ID token's.
  ghost predicate ClaimFrom(cfg: Config, idClaims: ClaimMap, userInfo: ClaimMap, claims: ClaimMap, k: string) {
    var src := Origin(cfg, idClaims, userInfo, k);
    && (k in claims <==> src.Some? && !Registered(k) && (k == "" || k !in cfg.removals))
    && (k in claims ==>
          var s := src.value;
          && (s in idClaims || (cfg.useUserInfo && s in userInfo))
          && (!cfg.useUserInfo || s !in userInfo ==> claims[k] == Norm(idClaims[s]))
          && (cfg.useUserInfo && s in userInfo && s !in idClaims ==> claims[k] == Norm(userInfo[s]))
          && (cfg.useUserInfo && s in userInfo && s in idClaims ==>
                claims[k] == MergeVal(Norm(idClaims[s]), Norm(userInfo[s])) &&
                Keeps(claims[k], Norm(userInfo[s]))))
  }

  lemma ClaimOrigin(cfg: Config, idClaims: ClaimMap, userInfo: ClaimMap, k: string)
    ensures ClaimFrom(cfg, idClaims, userInfo, UpstreamClaims(cfg, idClaims, userInfo), k)
  {
    var base := if cfg.useUserInfo then Merge(NormMap(idClaims), NormMap(userInfo)) else NormMap(idClaims);
    var keys := idClaims.Keys + (if cfg.useUserInfo then userInfo.Keys else {});
    assert base.Keys == keys;
    RenameIsParallelLookup(cfg.rules, base, k);
    assert k in Dropped(cfg.removals) <==> Registered(k) || (k != "" && k in cfg.removals);
    var src := Source(cfg.rules, keys, k);
    if src.Some? && cfg.useUserInfo && src.value in userInfo && src.value in idClaims {
      MergeKeepsSecond(Norm(idClaims[src.value]), Norm(userInfo[src.value]));
    }
  }

  // The enriched user: the local claims on top of the upstream's, key by key,
  // and the local name; without a local user the upstream's claims and name.
  lemma UserOrigin(cfg: Config, idClaims: ClaimMap, userInfo: ClaimMap, local: Option<OidcUser>, k: string)
    ensures var user, up := UpstreamUser(cfg, idClaims, userInfo, local), UpstreamClaims(cfg, idClaims, userInfo);
            if cfg.localEnrichment && local.Some? then
              var own := local.value.claims;
              && user.login == local.value.login && user.fullName == local.value.fullName
              && (k in user.claims <==> k in up || k in own)
              && (k in up && k !in own ==> user.claims[k] == up[k])
              && (k !in up && k in own ==> user.claims[k] == Norm(own[k]))
              && (k in up && k in own ==> user.claims[k] == MergeVal(up[k], Norm(own[k])))
            else
              && user.claims == up
              && user.login == (if "sub" in up && up["sub"].Str? then up["sub"].s else "")
              && user.fullName == (if "name" in up && up["name"].Str? then up["name"].s else "")
  {
  }

  // Without a local user every registered and removed claim is gone; with one,
  // the local claims win and only they can bring such a claim back.
  lemma PipelineDropsTechnicalClaims(cfg: Config, idClaims: ClaimMap, userInfo: ClaimMap,
                                     local: Option<OidcUser>, k: string)
    requires k in Dropped(cfg.removals)
    ensures k in UpstreamUser(cfg, idClaims, userInfo, local).claims <==>
            cfg.localEnrichment && local.Some? && k in local.value.claims
  {
  }

  lemma LocalClaimsWin(cfg: Config, idClaims: ClaimMap, userInfo: ClaimMap, local: OidcUser)
    requires cfg.localEnrichment
    ensures Keeps(Map(UpstreamUser(cfg, idClaims, userInfo, Some(local)).claims), Map(NormMap(local.claims)))
  {
    MergeKeepsSecond(Map(UpstreamClaims(cfg, idClaims, userInfo)), Map(NormMap(local.claims)));
  }

  // Claims that waited in the JSON session come back as the same documents but
  // out of normal form as soon as they held a string list; normalising restores them.
  lemma SessionRoundTrip(claims: ClaimMap)
    requires NormalFormMap(claims)
    ensures NormMap(JsonMap(claims)) == claims
    ensures NormalFormMap(JsonMap(claims)) <==> forall k :: k in claims ==> NoTypedList(claims[k])
  {
    forall k | k in claims
      ensures Norm(Json(claims[k])) == claims[k] && (NormalForm(Json(claims[k])) <==> NoTypedList(claims[k]))
    {
      NormOfJson(claims[k]);
      NormFixesNormalForm(claims[k]);
      JsonNormalFormIff(claims[k]);
    }
    assert NormMap(JsonMap(claims)).Keys == claims.Keys;
  }

  lemma {:induction false} JsonNormalFormIff(v: Val)
    requires NormalForm(v)
    ensures NormalForm(Json(v)) <==> NoTypedList(v)
  {
    match v
    case Map(m) =>
      forall k | k in m ensures NormalForm(Json(m[k])) <==> NoTypedList(m[k]) { JsonNormalFormIff(m[k]); }
      assert Json(v).m.Keys == m.Keys;
      if NormalForm(Json(v)) {
        forall k | k in m ensures NoTypedList(m[k]) { assert NormalForm(Json(v).m[k]); }
      }
    case Strs(ss) =>
      assert AllStr(Json(v).vs);
    case List(vs) =>
      var js := Json(v).vs;
      forall i | 0 <= i < |vs|
        ensures (NormalForm(js[i]) <==> NoTypedList(vs[i])) && (js[i].Str? <==> vs[i].Str?)
      {
        JsonNormalFormIff(vs[i]);
        NormOfJson(vs[i]);
      }
      var i :| 0 <= i < |vs| && !vs[i].Str?;
      assert !js[i].Str?;
    case _ =>
  }

  lemma JsonMapIdempotent(m: ClaimMap)
    ensures JsonMap(JsonMap(m)) == JsonMap(m)
  {
    forall k | k in m ensures Json(Json(m[k])) == Json(m[k]) { JsonIdempotent(m[k]); }
  }

  lemma {:induction false} JsonIdempotent(v: Val)
    ensures Json(Json(v)) == Json(v)
  {
    match v
    case Map(m) =>
      forall k | k in m ensures Json(Json(m[k])) == Json(m[k]) { JsonIdempotent(m[k]); }
      assert Json(Json(v)).m == Json(v).m;
    case Strs(ss) =>
      assert Json(Json(v)).vs == Json(v).vs;
    case List(vs) =>
      forall i | 0 <= i < |vs| ensures Json(Json(vs[i])) == Json(vs[i]) { JsonIdempotent(vs[i]); }
      assert Json(Json(v)).vs == Json(v).vs;
    case _ =>
  }
}
