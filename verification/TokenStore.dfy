// The in-memory token and code store: tokens by signature, side indexes from
// request ID to signature, active flags.

module TokenStore {
  import opened ReplayList

  // A stored request; session stands for everything but the ID.
  datatype Requester = Requester(id: string, session: string)

  datatype AuthorizeCode = AuthorizeCode(active: bool, request: Requester)

  datatype RefreshToken = RefreshToken(active: bool, accessTokenSignature: string, request: Requester)

  datatype State = State(codes: map<string, AuthorizeCode>,
                         access: map<string, Requester>,
                         refresh: map<string, RefreshToken>,
                         accessIds: map<string, string>,
                         refreshIds: map<string, string>)

  const EMPTY := State(map[], map[], map[], map[], map[])

  datatype Op =
    | CreateCode(code: string, req: Requester)
    | InvalidateCode(code: string)
    | CreateAccess(sig: string, req: Requester)
    | DeleteAccess(sig: string)
    | CreateRefresh(sig: string, accessSig: string, req: Requester)
    | DeleteRefresh(sig: string)
    | RevokeRefresh(id: string)
    | RevokeAccess(id: string)
    | Rotate(id: string)

  // What a lookup answers; an inactive entry comes with its request.
  datatype Read = Missing | Inactive(request: Requester) | Live(request: Requester)

  // ---------- one operation ----------

  // The refresh index of this ID points at a token that is gone.
  predicate Dangling(s: State, id: string) {
    id in s.refreshIds && s.refreshIds[id] !in s.refresh
  }

  predicate Succeeds(s: State, op: Op) {
    match op
    case InvalidateCode(code) => code in s.codes
    case RevokeRefresh(id) => !Dangling(s, id)
    case Rotate(id) => !Dangling(s, id)
    case _ => true
  }

  function DropAccess(s: State, id: string): State {
    if id in s.accessIds then s.(access := s.access - {s.accessIds[id]}) else s
  }

  function Deactivate(s: State, id: string): State {
    if id in s.refreshIds && s.refreshIds[id] in s.refresh then
      var sig := s.refreshIds[id];
      s.(refresh := s.refresh[sig := s.refresh[sig].(active := false)])
    else s
  }

  function Apply(s: State, op: Op): State {
    match op
    case CreateCode(code, req) => s.(codes := s.codes[code := AuthorizeCode(true, req)])
    case InvalidateCode(code) =>
      if code in s.codes then s.(codes := s.codes[code := s.codes[code].(active := false)]) else s
    case CreateAccess(sig, req) => s.(access := s.access[sig := req], accessIds := s.accessIds[req.id := sig])
    case DeleteAccess(sig) => s.(access := s.access - {sig})
    case CreateRefresh(sig, accessSig, req) =>
      s.(refresh := s.refresh[sig := RefreshToken(true, accessSig, req)], refreshIds := s.refreshIds[req.id := sig])
    case DeleteRefresh(sig) => s.(refresh := s.refresh - {sig})
    case RevokeRefresh(id) => Deactivate(s, id)
    case RevokeAccess(id) => DropAccess(s, id)
    case Rotate(id) => if Dangling(s, id) then s else DropAccess(Deactivate(s, id), id)
  }

  function ReadCode(s: State, code: string): Read {
    if code !in s.codes then Missing
    else if s.codes[code].active then Live(s.codes[code].request)
    else Inactive(s.codes[code].request)
  }

  function ReadAccess(s: State, sig: string): Read {
    if sig in s.access then Live(s.access[sig]) else Missing
  }

  function ReadRefresh(s: State, sig: string): Read {
    if sig !in s.refresh then Missing
    else if s.refresh[sig].active then Live(s.refresh[sig].request)
    else Inactive(s.refresh[sig].request)
  }

  // ---------- the store ----------

  class MemoryStore {
    var authorizeCodes: map<string, AuthorizeCode>
    var accessTokens: map<string, Requester>
    var refreshTokens: map<string, RefreshToken>
    var accessTokenRequestIDs: map<string, string>
    var refreshTokenRequestIDs: map<string, string>
    var blacklistedJTIs: map<string, int>

    function View(): State
      reads this
    {
      State(authorizeCodes, accessTokens, refreshTokens, accessTokenRequestIDs, refreshTokenRequestIDs)
    }

    constructor ()
      ensures View() == EMPTY && blacklistedJTIs == map[]
    {
      authorizeCodes, accessTokens, refreshTokens := map[], map[], map[];
      accessTokenRequestIDs, refreshTokenRequestIDs := map[], map[];
      blacklistedJTIs := map[];
    }

    method CreateAuthorizeCodeSession(code: string, req: Requester)
      modifies this`authorizeCodes
      ensures View() == Apply(old(View()), CreateCode(code, req))
    {
      authorizeCodes := authorizeCodes[code := AuthorizeCode(true, req)];
    }

    method GetAuthorizeCodeSession(code: string) returns (r: Read)
      ensures r == ReadCode(View(), code)
    {
      if code !in authorizeCodes {
        return Missing;
      }
      var rel := authorizeCodes[code];
      if !rel.active {
        return Inactive(rel.request);
      }
      r := Live(rel.request);
    }

    method InvalidateAuthorizeCodeSession(code: string) returns (ok: bool)
      modifies this`authorizeCodes
      ensures ok == Succeeds(old(View()), InvalidateCode(code))
      ensures View() == Apply(old(View()), InvalidateCode(code))
    {
      if code !in authorizeCodes {
        return false;
      }
      var rel := authorizeCodes[code].(active := false);
      authorizeCodes := authorizeCodes[code := rel];
      ok := true;
    }

    method CreateAccessTokenSession(signature: string, req: Requester)
      modifies this`accessTokens, this`accessTokenRequestIDs
      ensures View() == Apply(old(View()), CreateAccess(signature, req))
    {
      accessTokens := accessTokens[signature := req];
      accessTokenRequestIDs := accessTokenRequestIDs[req.id := signature];
    }

    method GetAccessTokenSession(signature: string) returns (r: Read)
      ensures r == ReadAccess(View(), signature)
    {
      if signature !in accessTokens {
        return Missing;
      }
      r := Live(accessTokens[signature]);
    }

    method DeleteAccessTokenSession(signature: string)
      modifies this`accessTokens
      ensures View() == Apply(old(View()), DeleteAccess(signature))
    {
      accessTokens := accessTokens - {signature};
    }

    method CreateRefreshTokenSession(signature: string, accessTokenSignature: string, req: Requester)
      modifies this`refreshTokens, this`refreshTokenRequestIDs
      ensures View() == Apply(old(View()), CreateRefresh(signature, accessTokenSignature, req))
    {
      refreshTokens := refreshTokens[signature := RefreshToken(true, accessTokenSignature, req)];
      refreshTokenRequestIDs := refreshTokenRequestIDs[req.id := signature];
    }

    method GetRefreshTokenSession(signature: string) returns (r: Read)
      ensures r == ReadRefresh(View(), signature)
    {
      if signature !in refreshTokens {
        return Missing;
      }
      var rel := refreshTokens[signature];
      if !rel.active {
        return Inactive(rel.request);
      }
      r := Live(rel.request);
    }

    method DeleteRefreshTokenSession(signature: string)
      modifies this`refreshTokens
      ensures View() == Apply(old(View()), DeleteRefresh(signature))
    {
      refreshTokens := refreshTokens - {signature};
    }

    method RevokeRefreshToken(requestID: string) returns (ok: bool)
      modifies this`refreshTokens
      ensures ok == Succeeds(old(View()), RevokeRefresh(requestID))
      ensures View() == Apply(old(View()), RevokeRefresh(requestID))
    {
      if requestID in refreshTokenRequestIDs {
        var signature := refreshTokenRequestIDs[requestID];
        if signature !in refreshTokens {
          return false;
        }
        var rel := refreshTokens[signature].(active := false);
        refreshTokens := refreshTokens[signature := rel];
      }
      ok := true;
    }

    method RevokeAccessToken(requestID: string)
      modifies this`accessTokens
      ensures View() == Apply(old(View()), RevokeAccess(requestID))
    {
      if requestID in accessTokenRequestIDs {
        DeleteAccessTokenSession(accessTokenRequestIDs[requestID]);
      }
    }

    method RotateRefreshToken(requestID: string) returns (ok: bool)
      modifies this`refreshTokens, this`accessTokens
      ensures ok == Succeeds(old(View()), Rotate(requestID))
      ensures View() == Apply(old(View()), Rotate(requestID))
    {
      ok := RevokeRefreshToken(requestID);
      if !ok {
        return;
      }
      RevokeAccessToken(requestID);
    }

    // now is the clock reading of this call.
    method ClientAssertionJWTValid(jti: string, now: int) returns (ok: bool)
      ensures ok == !Known(blacklistedJTIs, jti, now)
    {
      if jti in blacklistedJTIs && blacklistedJTIs[jti] > now {
        return false;
      }
      ok := true;
    }

    // The clock is read once per visited entry, anywhere between start and end
    // and never backwards; at reports the reading that concerned jti.
    method SetClientAssertionJWT(jti: string, exp: int, start: int, end: int) returns (ok: bool, ghost at: int)
      requires start <= end
      modifies this`blacklistedJTIs
      ensures UseStep(old(blacklistedJTIs), blacklistedJTIs, Use(jti, exp, start, end, at, ok))
    {
      at := start;
      var last := start;
      var todo := blacklistedJTIs.Keys;
      while todo != {}
        invariant todo <= blacklistedJTIs.Keys
        invariant start <= last <= end && start <= at <= end
        invariant forall j :: j in blacklistedJTIs ==>
                    j in old(blacklistedJTIs) && blacklistedJTIs[j] == old(blacklistedJTIs)[j]
        invariant forall j :: j in blacklistedJTIs && j !in todo ==> blacklistedJTIs[j] >= start
        invariant forall j :: j in old(blacklistedJTIs) && j !in blacklistedJTIs ==> old(blacklistedJTIs)[j] < end
        invariant jti in old(blacklistedJTIs) && jti !in todo ==>
                    (jti in blacklistedJTIs <==> old(blacklistedJTIs)[jti] >= at)
        decreases |todo|
      {
        var j :| j in todo;
        todo := todo - {j};
        var now: int :| last <= now <= end;
        last := now;
        if j == jti {
          at := now;
        }
        if blacklistedJTIs[j] < now {
          blacklistedJTIs := blacklistedJTIs - {j};
        }
      }
      ghost var kept := blacklistedJTIs;
      assert Pruned(old(blacklistedJTIs), kept, start, end);
      if jti in blacklistedJTIs {
        return false, at;
      }
      blacklistedJTIs := blacklistedJTIs[jti := exp];
      ok := true;
    }
  }

  // ---------- runs ----------

  function Run(ops: seq<Op>): State
    decreases |ops|
  {
    if ops == [] then EMPTY else Apply(Run(ops[..|ops| - 1]), ops[|ops| - 1])
  }

  // ---------- codes: over every run ----------

  // How one event changes what a code reads as.
  function CodeEvent(r: Read, op: Op, code: string): Read {
    if op.CreateCode? && op.code == code then Live(op.req)
    else if op == InvalidateCode(code) && r != Missing then Inactive(r.request)
    else r
  }

  function CodeHistory(ops: seq<Op>, code: string): Read
    decreases |ops|
  {
    if ops == [] then Missing else CodeEvent(CodeHistory(ops[..|ops| - 1], code), ops[|ops| - 1], code)
  }

  lemma CodeStep(s: State, op: Op, code: string)
    ensures ReadCode(Apply(s, op), code) == CodeEvent(ReadCode(s, code), op, code)
  {
  }

  // A code reads successfully exactly when the last event on it was its
  // creation; once invalidated it keeps returning the request it was created for.
  lemma {:induction false} CodeFollowsLastEvent(ops: seq<Op>, code: string)
    ensures ReadCode(Run(ops), code) == CodeHistory(ops, code)
    decreases |ops|
  {
    if ops == [] {
    } else {
      CodeFollowsLastEvent(ops[..|ops| - 1], code);
      CodeStep(Run(ops[..|ops| - 1]), ops[|ops| - 1], code);
    }
  }

  predicate Recreates(op: Op, code: string) {
    op.CreateCode? && op.code == code
  }

  lemma {:induction false} CodeStaysUsed(ops: seq<Op>, later: seq<Op>, code: string, r: Requester)
    requires ReadCode(Run(ops), code) == Live(r)
    requires forall i :: 0 <= i < |later| ==> !Recreates(later[i], code)
    ensures ReadCode(Run(ops + [InvalidateCode(code)] + later), code) == Inactive(r)
    decreases |later|
  {
    var all := ops + [InvalidateCode(code)] + later;
    CodeStep(Run(all[..|all| - 1]), all[|all| - 1], code);
    if later == [] {
      assert all[..|all| - 1] == ops;
    } else {
      assert all[..|all| - 1] == ops + [InvalidateCode(code)] + later[..|later| - 1];
      CodeStaysUsed(ops, later[..|later| - 1], code, r);
    }
  }

  predicate Invalidates(op: Op, code: string) {
    op.InvalidateCode? && op.code == code
  }

  // Position i holds the last creation of this code, for request r.
  predicate LastCreation(ops: seq<Op>, code: string, r: Requester, i: int) {
    && 0 <= i < |ops| && ops[i] == CreateCode(code, r)
    && forall j :: i < j < |ops| ==> !Recreates(ops[j], code)
  }

  predicate InvalidatedAfter(ops: seq<Op>, code: string, i: int) {
    exists j :: i < j < |ops| && 0 <= j && Invalidates(ops[j], code)
  }

  lemma {:induction false} CodeHistoryPositions(ops: seq<Op>, code: string)
    ensures CodeHistory(ops, code) == Missing <==> forall i :: 0 <= i < |ops| ==> !Recreates(ops[i], code)
    ensures forall i, r :: LastCreation(ops, code, r, i) ==>
              CodeHistory(ops, code) == if InvalidatedAfter(ops, code, i) then Inactive(r) else Live(r)
    decreases |ops|
  {
    if ops == [] {
    } else {
      var n := |ops| - 1;
      var before := ops[..n];
      CodeHistoryPositions(before, code);
      forall i, r | LastCreation(ops, code, r, i)
        ensures CodeHistory(ops, code) == if InvalidatedAfter(ops, code, i) then Inactive(r) else Live(r)
      {
        if i < n {
          assert LastCreation(before, code, r, i);
          if InvalidatedAfter(before, code, i) {
            var j :| i < j < |before| && 0 <= j && Invalidates(before[j], code);
            assert Invalidates(ops[j], code);
          }
          if InvalidatedAfter(ops, code, i) && !Invalidates(ops[n], code) {
            var j :| i < j < |ops| && 0 <= j && Invalidates(ops[j], code);
            assert Invalidates(before[j], code);
          }
        }
      }
    }
  }

  // A code is unknown until created, readable while its creation is the last
  // event on it, and afterwards refused with the request it was created for.
  lemma CodeSingleUse(ops: seq<Op>, code: string)
    ensures ReadCode(Run(ops), code) == Missing <==> forall i :: 0 <= i < |ops| ==> !Recreates(ops[i], code)
    ensures forall i, r :: LastCreation(ops, code, r, i) ==>
              ReadCode(Run(ops), code) == if InvalidatedAfter(ops, code, i) then Inactive(r) else Live(r)
  {
    CodeFollowsLastEvent(ops, code);
    CodeHistoryPositions(ops, code);
  }

  // ---------- token families ----------

  // Live tokens are the ones their request-ID index points to, and an index
  // entry that hits a stored token hits one of its own request ID.
  predicate AccessCoherent(s: State) {
    && (forall sig :: sig in s.access ==>
          s.access[sig].id in s.accessIds && s.accessIds[s.access[sig].id] == sig)
    && (forall id :: id in s.accessIds && s.accessIds[id] in s.access ==> s.access[s.accessIds[id]].id == id)
  }

  predicate RefreshCoherent(s: State) {
    && (forall sig :: sig in s.refresh && s.refresh[sig].active ==>
          s.refresh[sig].request.id in s.refreshIds && s.refreshIds[s.refresh[sig].request.id] == sig)
    && (forall id :: id in s.refreshIds && s.refreshIds[id] in s.refresh ==>
          s.refresh[s.refreshIds[id]].request.id == id)
  }

  predicate NoLiveAccess(s: State, id: string) {
    forall sig :: sig in s.access ==> s.access[sig].id != id
  }

  predicate NoActiveRefresh(s: State, id: string) {
    forall sig :: sig in s.refresh && s.refresh[sig].active ==> s.refresh[sig].request.id != id
  }

  predicate FreshAccessSig(s: State, sig: string) {
    sig !in s.access && forall id :: id in s.accessIds ==> s.accessIds[id] != sig
  }

  predicate FreshRefreshSig(s: State, sig: string) {
    sig !in s.refresh && forall id :: id in s.refreshIds ==> s.refreshIds[id] != sig
  }

  // Issuing a fresh access token keeps the index exact if and only if the
  // request ID had no live one left: that is why rotation must come first.
  lemma IssueAccessIff(s: State, sig: string, req: Requester)
    requires AccessCoherent(s) && FreshAccessSig(s, sig)
    ensures AccessCoherent(Apply(s, CreateAccess(sig, req))) <==> NoLiveAccess(s, req.id)
  {
    var t := Apply(s, CreateAccess(sig, req));
    if !NoLiveAccess(s, req.id) {
      var prior :| prior in s.access && s.access[prior].id == req.id;
      assert prior in t.access && t.accessIds[t.access[prior].id] == sig;
    }
  }

  lemma IssueRefreshIff(s: State, sig: string, accessSig: string, req: Requester)
    requires RefreshCoherent(s) && FreshRefreshSig(s, sig)
    ensures RefreshCoherent(Apply(s, CreateRefresh(sig, accessSig, req))) <==> NoActiveRefresh(s, req.id)
  {
    var t := Apply(s, CreateRefresh(sig, accessSig, req));
    if !NoActiveRefresh(s, req.id) {
      var prior :| prior in s.refresh && s.refresh[prior].active && s.refresh[prior].request.id == req.id;
      assert prior in t.refresh && t.refreshIds[t.refresh[prior].request.id] == sig;
    }
  }

  // Re-issuing without rotation puts the old token out of revocation's reach.
  lemma UnrotatedTokenSurvivesRevocation(s: State, prior: string, sig: string, req: Requester)
    requires AccessCoherent(s) && FreshAccessSig(s, sig)
    requires prior in s.access && s.access[prior].id == req.id
    ensures ReadAccess(Apply(Apply(s, CreateAccess(sig, req)), RevokeAccess(req.id)), prior) == Live(s.access[prior])
  {
  }

  predicate LiveSiblings(s: State, a: string, b: string) {
    a in s.access && b in s.access && s.access[a].id == s.access[b].id
  }

  predicate ActiveSiblings(s: State, a: string, b: string) {
    && a in s.refresh && b in s.refresh
    && s.refresh[a].active && s.refresh[b].active
    && s.refresh[a].request.id == s.refresh[b].request.id
  }

  // ---------- the caller's discipline ----------

  predicate IssuesAccess(op: Op, id: string) {
    op.CreateAccess? && op.req.id == id
  }

  predicate IssuesRefresh(op: Op, id: string) {
    op.CreateRefresh? && op.req.id == id
  }

  predicate UsesAccessSig(op: Op, sig: string) {
    op.CreateAccess? && op.sig == sig
  }

  predicate UsesRefreshSig(op: Op, sig: string) {
    op.CreateRefresh? && op.sig == sig
  }

  // The last refresh signature issued to this ID has been deleted since.
  predicate LatestRefreshDeleted(ops: seq<Op>, id: string)
    decreases |ops|
  {
    if ops == [] then false
    else
      var n := |ops| - 1;
      if IssuesRefresh(ops[n], id) then false
      else if ops[n].CreateRefresh? then
        LatestRefreshDeleted(ops[..n], id) && LatestRefresh(ops[..n], id) != [ops[n].sig]
      else if ops[n].DeleteRefresh? then
        LatestRefreshDeleted(ops[..n], id) || LatestRefresh(ops[..n], id) == [ops[n].sig]
      else LatestRefreshDeleted(ops[..n], id)
  }

  // The refresh signature last issued to this ID, if any.
  function LatestRefresh(ops: seq<Op>, id: string): seq<string>
    decreases |ops|
  {
    if ops == [] then []
    else if IssuesRefresh(ops[|ops| - 1], id) then [ops[|ops| - 1].sig]
    else LatestRefresh(ops[..|ops| - 1], id)
  }

  // Rotation fails exactly when the last refresh token issued to this ID was deleted.
  lemma {:induction false} DanglingIff(ops: seq<Op>, id: string)
    ensures LatestRefresh(ops, id) == if id in Run(ops).refreshIds then [Run(ops).refreshIds[id]] else []
    ensures Dangling(Run(ops), id) <==> LatestRefreshDeleted(ops, id)
    decreases |ops|
  {
    if ops == [] {
    } else {
      var n := |ops| - 1;
      DanglingIff(ops[..n], id);
      RefreshIndexStep(Run(ops[..n]), ops[n], id);
      DanglingStep(Run(ops[..n]), ops[n], id);
    }
  }

  lemma RefreshIndexStep(s: State, op: Op, id: string)
    ensures var t := Apply(s, op);
            && (id in t.refreshIds <==> id in s.refreshIds || IssuesRefresh(op, id))
            && (id in t.refreshIds ==> t.refreshIds[id] == if IssuesRefresh(op, id) then op.sig else s.refreshIds[id])
  {
  }

  lemma RefreshTableStep(s: State, op: Op, sig: string)
    ensures sig in Apply(s, op).refresh <==> (sig in s.refresh && op != DeleteRefresh(sig)) || UsesRefreshSig(op, sig)
  {
  }

  lemma DanglingStep(s: State, op: Op, id: string)
    ensures var t := Apply(s, op);
            && (Dangling(t, id) <==>
                  && !IssuesRefresh(op, id) && id in s.refreshIds
                  && (Dangling(s, id) || op == DeleteRefresh(s.refreshIds[id]))
                  && !UsesRefreshSig(op, s.refreshIds[id]))
  {
    RefreshIndexStep(s, op, id);
    if id in s.refreshIds { RefreshTableStep(s, op, s.refreshIds[id]); }
    if IssuesRefresh(op, id) { RefreshTableStep(s, op, op.sig); }
  }

  // Since its last access token, this ID was revoked or successfully rotated.
  predicate AccessRetired(ops: seq<Op>, id: string)
    decreases |ops|
  {
    if ops == [] then true
    else
      var n := |ops| - 1;
      if IssuesAccess(ops[n], id) then false
      else if ops[n] == RevokeAccess(id) || (ops[n] == Rotate(id) && !LatestRefreshDeleted(ops[..n], id)) then true
      else AccessRetired(ops[..n], id)
  }

  // Since its last refresh token, this ID was revoked or rotated, successfully or not.
  predicate RefreshRetired(ops: seq<Op>, id: string)
    decreases |ops|
  {
    if ops == [] then true
    else
      var n := |ops| - 1;
      if IssuesRefresh(ops[n], id) then false
      else if ops[n] == RevokeRefresh(id) || ops[n] == Rotate(id) then true
      else RefreshRetired(ops[..n], id)
  }

  predicate Allowed(before: seq<Op>, op: Op) {
    && (op.CreateAccess? ==>
          AccessRetired(before, op.req.id) &&
          forall i :: 0 <= i < |before| ==> !UsesAccessSig(before[i], op.sig))
    && (op.CreateRefresh? ==>
          RefreshRetired(before, op.req.id) &&
          forall i :: 0 <= i < |before| ==> !UsesRefreshSig(before[i], op.sig))
  }

  // Signatures are never reused, and an ID that already has a token gets a new
  // one only after the old one was retired.
  predicate Disciplined(ops: seq<Op>) {
    forall i :: 0 <= i < |ops| ==> Allowed(ops[..i], ops[i])
  }

  lemma DisciplinedPrefix(ops: seq<Op>)
    requires Disciplined(ops) && ops != []
    ensures Disciplined(ops[..|ops| - 1]) && Allowed(ops[..|ops| - 1], ops[|ops| - 1])
  {
    var before := ops[..|ops| - 1];
    assert forall i :: 0 <= i < |before| ==> before[..i] == ops[..i];
  }

  // ---------- what every disciplined run keeps ----------

  predicate SignaturesUsed(ops: seq<Op>) {
    var s := Run(ops);
    && (forall sig :: sig in s.access ==> AccessUsed(ops, sig))
    && (forall id :: id in s.accessIds ==> AccessUsed(ops, s.accessIds[id]))
    && (forall sig :: sig in s.refresh ==> RefreshUsed(ops, sig))
    && (forall id :: id in s.refreshIds ==> RefreshUsed(ops, s.refreshIds[id]))
  }

  predicate AccessUsed(ops: seq<Op>, sig: string) {
    exists i :: 0 <= i < |ops| && UsesAccessSig(ops[i], sig)
  }

  predicate RefreshUsed(ops: seq<Op>, sig: string) {
    exists i :: 0 <= i < |ops| && UsesRefreshSig(ops[i], sig)
  }

  lemma UsedGrows(ops: seq<Op>, sig: string)
    requires ops != []
    ensures AccessUsed(ops, sig) <==> AccessUsed(ops[..|ops| - 1], sig) || UsesAccessSig(ops[|ops| - 1], sig)
    ensures RefreshUsed(ops, sig) <==> RefreshUsed(ops[..|ops| - 1], sig) || UsesRefreshSig(ops[|ops| - 1], sig)
  {
    var n := |ops| - 1;
    if AccessUsed(ops, sig) {
      var i :| 0 <= i < |ops| && UsesAccessSig(ops[i], sig);
      assert i < n ==> UsesAccessSig(ops[..n][i], sig);
    }
    if AccessUsed(ops[..n], sig) {
      var i :| 0 <= i < n && UsesAccessSig(ops[..n][i], sig);
      assert UsesAccessSig(ops[i], sig);
    }
    if RefreshUsed(ops, sig) {
      var i :| 0 <= i < |ops| && UsesRefreshSig(ops[i], sig);
      assert i < n ==> UsesRefreshSig(ops[..n][i], sig);
    }
    if RefreshUsed(ops[..n], sig) {
      var i :| 0 <= i < n && UsesRefreshSig(ops[..n][i], sig);
      assert UsesRefreshSig(ops[i], sig);
    }
  }

  lemma AccessSources(s: State, op: Op, t: State)
    requires t == Apply(s, op)
    ensures forall sig :: sig in t.access ==> sig in s.access || UsesAccessSig(op, sig)
    ensures forall id :: id in t.accessIds ==>
              (id in s.accessIds && t.accessIds[id] == s.accessIds[id]) || UsesAccessSig(op, t.accessIds[id])
  {
  }

  lemma RefreshSources(s: State, op: Op, t: State)
    requires t == Apply(s, op)
    ensures forall sig :: sig in t.refresh ==> sig in s.refresh || UsesRefreshSig(op, sig)
    ensures forall id :: id in t.refreshIds ==>
              (id in s.refreshIds && t.refreshIds[id] == s.refreshIds[id]) || UsesRefreshSig(op, t.refreshIds[id])
  {
  }

  lemma {:induction false} SignaturesAreUsed(ops: seq<Op>)
    ensures SignaturesUsed(ops)
    decreases |ops|
  {
    if ops == [] {
    } else {
      var n := |ops| - 1;
      SignaturesAreUsed(ops[..n]);
      AccessSources(Run(ops[..n]), ops[n], Run(ops));
      RefreshSources(Run(ops[..n]), ops[n], Run(ops));
      forall sig { UsedGrows(ops, sig); }
    }
  }

  predicate Coherent(s: State) {
    AccessCoherent(s) && RefreshCoherent(s)
  }

  lemma AccessCoherentStep(s: State, op: Op)
    requires AccessCoherent(s)
    requires op.CreateAccess? ==> FreshAccessSig(s, op.sig) && NoLiveAccess(s, op.req.id)
    ensures AccessCoherent(Apply(s, op))
  {
    if op.CreateAccess? {
      IssueAccessIff(s, op.sig, op.req);
    }
  }

  lemma RefreshCoherentStep(s: State, op: Op)
    requires RefreshCoherent(s)
    requires op.CreateRefresh? ==> FreshRefreshSig(s, op.sig) && NoActiveRefresh(s, op.req.id)
    ensures RefreshCoherent(Apply(s, op))
  {
    if op.CreateRefresh? {
      IssueRefreshIff(s, op.sig, op.accessSig, op.req);
    }
  }

  lemma CoherentStep(s: State, op: Op)
    requires Coherent(s)
    requires op.CreateAccess? ==> FreshAccessSig(s, op.sig) && NoLiveAccess(s, op.req.id)
    requires op.CreateRefresh? ==> FreshRefreshSig(s, op.sig) && NoActiveRefresh(s, op.req.id)
    ensures Coherent(Apply(s, op))
  {
    AccessCoherentStep(s, op);
    RefreshCoherentStep(s, op);
  }

  // Revocation reaches every token of the ID, even when it reports a failure.
  lemma RevocationComplete(s: State, id: string)
    requires Coherent(s)
    ensures NoLiveAccess(Apply(s, RevokeAccess(id)), id)
    ensures NoActiveRefresh(Apply(s, RevokeRefresh(id)), id)
    ensures NoActiveRefresh(Apply(s, Rotate(id)), id)
    ensures Succeeds(s, Rotate(id)) ==> NoLiveAccess(Apply(s, Rotate(id)), id)
    ensures !Succeeds(s, Rotate(id)) ==> Apply(s, Rotate(id)) == s
  {
  }

  // Only issuing a token to the ID can undo that.
  lemma RevocationSticks(s: State, op: Op, id: string)
    ensures NoLiveAccess(s, id) && !IssuesAccess(op, id) ==> NoLiveAccess(Apply(s, op), id)
    ensures NoActiveRefresh(s, id) && !IssuesRefresh(op, id) ==> NoActiveRefresh(Apply(s, op), id)
  {
  }

  lemma {:induction false} RunCoherent(ops: seq<Op>)
    requires Disciplined(ops)
    ensures Coherent(Run(ops))
    ensures forall id :: AccessRetired(ops, id) ==> NoLiveAccess(Run(ops), id)
    ensures forall id :: RefreshRetired(ops, id) ==> NoActiveRefresh(Run(ops), id)
    decreases |ops|
  {
    if ops == [] {
    } else {
      var n := |ops| - 1;
      var before, op := ops[..n], ops[n];
      DisciplinedPrefix(ops);
      RunCoherent(before);
      SignaturesAreUsed(before);
      CoherentStep(Run(before), op);
      forall id
        ensures AccessRetired(ops, id) ==> NoLiveAccess(Run(ops), id)
        ensures RefreshRetired(ops, id) ==> NoActiveRefresh(Run(ops), id)
      {
        RetiredStep(ops, id);
      }
    }
  }

  lemma RetiredStep(ops: seq<Op>, id: string)
    requires ops != [] && Coherent(Run(ops[..|ops| - 1]))
    requires AccessRetired(ops[..|ops| - 1], id) ==> NoLiveAccess(Run(ops[..|ops| - 1]), id)
    requires RefreshRetired(ops[..|ops| - 1], id) ==> NoActiveRefresh(Run(ops[..|ops| - 1]), id)
    ensures AccessRetired(ops, id) ==> NoLiveAccess(Run(ops), id)
    ensures RefreshRetired(ops, id) ==> NoActiveRefresh(Run(ops), id)
  {
    var before, op := ops[..|ops| - 1], ops[|ops| - 1];
    DanglingIff(before, id);
    RevocationComplete(Run(before), id);
    RevocationSticks(Run(before), op, id);
  }

  // In every disciplined run each request ID has at most one live access token
  // and one active refresh token.
  lemma OneLiveTokenPerFamily(ops: seq<Op>, a: string, b: string)
    requires Disciplined(ops)
    ensures LiveSiblings(Run(ops), a, b) ==> a == b
    ensures ActiveSiblings(Run(ops), a, b) ==> a == b
  {
    RunCoherent(ops);
  }

  // ---------- what reading a token answers, from the events alone ----------

  predicate RevokesRefresh(op: Op, id: string) {
    op == RevokeRefresh(id) || op == Rotate(id)
  }

  // How one event changes what a refresh token reads as.
  function RefreshEvent(r: Read, op: Op, sig: string): Read {
    if UsesRefreshSig(op, sig) then Live(op.req)
    else if op == DeleteRefresh(sig) then Missing
    else if r.Live? && RevokesRefresh(op, r.request.id) then Inactive(r.request)
    else r
  }

  function RefreshHistory(ops: seq<Op>, sig: string): Read
    decreases |ops|
  {
    if ops == [] then Missing else RefreshEvent(RefreshHistory(ops[..|ops| - 1], sig), ops[|ops| - 1], sig)
  }

  lemma DeactivatedRead(s: State, id: string, sig: string)
    requires RefreshCoherent(s)
    ensures var r := ReadRefresh(s, sig);
            ReadRefresh(Deactivate(s, id), sig) == if r.Live? && r.request.id == id then Inactive(r.request) else r
  {
  }

  lemma RefreshReadStep(s: State, op: Op, sig: string)
    requires RefreshCoherent(s)
    ensures ReadRefresh(Apply(s, op), sig) == RefreshEvent(ReadRefresh(s, sig), op, sig)
  {
    if op.RevokeRefresh? || op.Rotate? {
      DeactivatedRead(s, op.id, sig);
      assert Apply(s, op).refresh == if op.Rotate? && Dangling(s, op.id) then s.refresh else Deactivate(s, op.id).refresh;
    } else {
      RefreshTableStep(s, op, sig);
    }
  }

  lemma {:induction false} RefreshFollowsEvents(ops: seq<Op>, sig: string)
    requires Disciplined(ops)
    ensures ReadRefresh(Run(ops), sig) == RefreshHistory(ops, sig)
    decreases |ops|
  {
    if ops == [] {
    } else {
      var n := |ops| - 1;
      DisciplinedPrefix(ops);
      RefreshFollowsEvents(ops[..n], sig);
      RunCoherent(ops[..n]);
      RefreshReadStep(Run(ops[..n]), ops[n], sig);
    }
  }

  // Position i issues the refresh token sig to r, and no later position issues it again.
  predicate RefreshIssuedAt(ops: seq<Op>, sig: string, r: Requester, i: nat) {
    && i < |ops| && UsesRefreshSig(ops[i], sig) && ops[i].req == r
    && forall j :: i < j < |ops| ==> !UsesRefreshSig(ops[j], sig)
  }

  predicate RefreshDeletedAfter(ops: seq<Op>, sig: string, i: nat) {
    exists j :: i < j < |ops| && ops[j] == DeleteRefresh(sig)
  }

  predicate RefreshRevokedAfter(ops: seq<Op>, id: string, i: nat) {
    exists j :: i < j < |ops| && RevokesRefresh(ops[j], id)
  }

  lemma {:induction false} RefreshHistoryPositions(ops: seq<Op>, sig: string)
    ensures !RefreshUsed(ops, sig) ==> RefreshHistory(ops, sig) == Missing
    ensures forall i: nat, r :: RefreshIssuedAt(ops, sig, r, i) ==>
              RefreshHistory(ops, sig) ==
              if RefreshDeletedAfter(ops, sig, i) then Missing
              else if RefreshRevokedAfter(ops, r.id, i) then Inactive(r)
              else Live(r)
    decreases |ops|
  {
    if ops == [] {
    } else {
      var n := |ops| - 1;
      RefreshHistoryPositions(ops[..n], sig);
      UsedGrows(ops, sig);
      forall i: nat, r | RefreshIssuedAt(ops, sig, r, i)
        ensures RefreshHistory(ops, sig) ==
                if RefreshDeletedAfter(ops, sig, i) then Missing
                else if RefreshRevokedAfter(ops, r.id, i) then Inactive(r)
                else Live(r)
      {
        if i < n {
          assert RefreshIssuedAt(ops[..n], sig, r, i);
          RefreshEndsLater(ops, sig, r.id, i);
        }
      }
    }
  }

  lemma RefreshEndsLater(ops: seq<Op>, sig: string, id: string, i: nat)
    requires i < |ops| - 1
    ensures RefreshDeletedAfter(ops, sig, i) <==>
            RefreshDeletedAfter(ops[..|ops| - 1], sig, i) || ops[|ops| - 1] == DeleteRefresh(sig)
    ensures RefreshRevokedAfter(ops, id, i) <==>
            RefreshRevokedAfter(ops[..|ops| - 1], id, i) || RevokesRefresh(ops[|ops| - 1], id)
  {
    var n := |ops| - 1;
    assert forall j :: 0 <= j < n ==> ops[..n][j] == ops[j];
    if j :| i < j < n && ops[..n][j] == DeleteRefresh(sig) {
      assert ops[j] == DeleteRefresh(sig);
    }
    if j :| i < j < n && RevokesRefresh(ops[..n][j], id) {
      assert RevokesRefresh(ops[j], id);
    }
    if j :| i < j < |ops| && RevokesRefresh(ops[j], id) {
      assert j < n ==> RevokesRefresh(ops[..n][j], id);
    }
  }

  // In every disciplined run a refresh token reads as live while neither deleted
  // nor revoked or rotated by its request ID since it was issued, as inactive
  // with its request once revoked, and as missing once deleted or never issued.
  lemma RefreshReadIs(ops: seq<Op>, sig: string)
    requires Disciplined(ops)
    ensures !RefreshUsed(ops, sig) ==> ReadRefresh(Run(ops), sig) == Missing
    ensures forall i: nat, r :: RefreshIssuedAt(ops, sig, r, i) ==>
              ReadRefresh(Run(ops), sig) ==
              if RefreshDeletedAfter(ops, sig, i) then Missing
              else if RefreshRevokedAfter(ops, r.id, i) then Inactive(r)
              else Live(r)
  {
    RefreshFollowsEvents(ops, sig);
    RefreshHistoryPositions(ops, sig);
  }

  // Event j of the run takes away the access token sig of request ID id.
  predicate EndsAccess(ops: seq<Op>, j: nat, sig: string, id: string)
    requires j < |ops|
  {
    || ops[j] == DeleteAccess(sig) || ops[j] == RevokeAccess(id)
    || (ops[j] == Rotate(id) && !LatestRefreshDeleted(ops[..j], id))
  }

  function AccessHistory(ops: seq<Op>, sig: string): Read
    decreases |ops|
  {
    if ops == [] then Missing
    else
      var n := |ops| - 1;
      var r := AccessHistory(ops[..n], sig);
      if UsesAccessSig(ops[n], sig) then Live(ops[n].req)
      else if r.Live? && EndsAccess(ops, n, sig, r.request.id) then Missing
      else r
  }

  lemma AccessReadStep(s: State, op: Op, sig: string)
    requires AccessCoherent(s)
    ensures var r := ReadAccess(s, sig);
            ReadAccess(Apply(s, op), sig) ==
            if UsesAccessSig(op, sig) then Live(op.req)
            else if r.Live? && (op == DeleteAccess(sig) || op == RevokeAccess(r.request.id) ||
                                (op == Rotate(r.request.id) && !Dangling(s, r.request.id))) then Missing
            else r
  {
  }

  lemma {:induction false} AccessFollowsEvents(ops: seq<Op>, sig: string)
    requires Disciplined(ops)
    ensures ReadAccess(Run(ops), sig) == AccessHistory(ops, sig)
    decreases |ops|
  {
    if ops == [] {
    } else {
      var n := |ops| - 1;
      DisciplinedPrefix(ops);
      AccessFollowsEvents(ops[..n], sig);
      RunCoherent(ops[..n]);
      AccessReadStep(Run(ops[..n]), ops[n], sig);
      var r := AccessHistory(ops[..n], sig);
      if r.Live? { DanglingIff(ops[..n], r.request.id); }
    }
  }

  predicate AccessIssuedAt(ops: seq<Op>, sig: string, r: Requester, i: nat) {
    && i < |ops| && UsesAccessSig(ops[i], sig) && ops[i].req == r
    && forall j :: i < j < |ops| ==> !UsesAccessSig(ops[j], sig)
  }

  predicate AccessEndedAfter(ops: seq<Op>, sig: string, id: string, i: nat) {
    exists j: nat :: i < j < |ops| && EndsAccess(ops, j, sig, id)
  }

  lemma AccessEndsLater(ops: seq<Op>, sig: string, id: string, i: nat)
    requires i < |ops| - 1
    ensures AccessEndedAfter(ops, sig, id, i) <==>
            AccessEndedAfter(ops[..|ops| - 1], sig, id, i) || EndsAccess(ops, |ops| - 1, sig, id)
  {
    var n := |ops| - 1;
    assert forall j :: 0 <= j < n ==> ops[..n][j] == ops[j] && ops[..n][..j] == ops[..j];
    if j: nat :| i < j < n && EndsAccess(ops[..n], j, sig, id) {
      assert EndsAccess(ops, j, sig, id);
    }
    if j: nat :| i < j < |ops| && EndsAccess(ops, j, sig, id) {
      assert j < n ==> EndsAccess(ops[..n], j, sig, id);
    }
  }

  lemma {:induction false} AccessHistoryPositions(ops: seq<Op>, sig: string)
    ensures !AccessUsed(ops, sig) ==> AccessHistory(ops, sig) == Missing
    ensures forall i: nat, r :: AccessIssuedAt(ops, sig, r, i) ==>
              AccessHistory(ops, sig) == if AccessEndedAfter(ops, sig, r.id, i) then Missing else Live(r)
    decreases |ops|
  {
    if ops == [] {
    } else {
      var n := |ops| - 1;
      AccessHistoryPositions(ops[..n], sig);
      UsedGrows(ops, sig);
      forall i: nat, r | AccessIssuedAt(ops, sig, r, i)
        ensures AccessHistory(ops, sig) == if AccessEndedAfter(ops, sig, r.id, i) then Missing else Live(r)
      {
        if i < n {
          assert AccessIssuedAt(ops[..n], sig, r, i);
          AccessEndsLater(ops, sig, r.id, i);
        }
      }
    }
  }

  // In every disciplined run an access token reads as live with its request from
  // its issue until it is deleted, its request ID is revoked, or a rotation of
  // that ID finds its refresh token; otherwise it is missing.
  lemma AccessReadIs(ops: seq<Op>, sig: string)
    requires Disciplined(ops)
    ensures !AccessUsed(ops, sig) ==> ReadAccess(Run(ops), sig) == Missing
    ensures forall i: nat, r :: AccessIssuedAt(ops, sig, r, i) ==>
              ReadAccess(Run(ops), sig) == if AccessEndedAfter(ops, sig, r.id, i) then Missing else Live(r)
  {
    AccessFollowsEvents(ops, sig);
    AccessHistoryPositions(ops, sig);
  }

  // Which calls report success, in every run.
  lemma SucceedsIff(ops: seq<Op>, op: Op)
    ensures Succeeds(Run(ops), op) <==>
            && (op.InvalidateCode? ==> exists i :: 0 <= i < |ops| && Recreates(ops[i], op.code))
            && (op.RevokeRefresh? || op.Rotate? ==> !LatestRefreshDeleted(ops, op.id))
  {
    if op.InvalidateCode? {
      CodeSingleUse(ops, op.code);
    } else if op.RevokeRefresh? || op.Rotate? {
      DanglingIff(ops, op.id);
    }
  }

  // ---------- revocation is complete and permanent ----------

  predicate Quiet(later: seq<Op>, id: string) {
    forall i :: 0 <= i < |later| ==> !IssuesAccess(later[i], id) && !IssuesRefresh(later[i], id)
  }

  lemma {:induction false} RevocationLasts(ops: seq<Op>, later: seq<Op>, id: string)
    requires NoLiveAccess(Run(ops), id) && NoActiveRefresh(Run(ops), id) && Quiet(later, id)
    ensures NoLiveAccess(Run(ops + later), id) && NoActiveRefresh(Run(ops + later), id)
    decreases |later|
  {
    if later == [] {
      assert ops + later == ops;
    } else {
      var n := |later| - 1;
      RevocationLasts(ops, later[..n], id);
      assert (ops + later)[..|ops + later| - 1] == ops + later[..n];
      RevocationSticks(Run(ops + later[..n]), later[n], id);
    }
  }

  lemma RotationRevokesForGood(ops: seq<Op>, later: seq<Op>, id: string)
    requires Disciplined(ops) && Quiet(later, id)
    ensures Succeeds(Run(ops), Rotate(id)) ==>
              NoLiveAccess(Run(ops + [Rotate(id)] + later), id) && NoActiveRefresh(Run(ops + [Rotate(id)] + later), id)
    ensures !Succeeds(Run(ops), Rotate(id)) ==> Run(ops + [Rotate(id)]) == Run(ops)
  {
    RunCoherent(ops);
    RevocationComplete(Run(ops), id);
    assert (ops + [Rotate(id)])[..|ops|] == ops;
    if Succeeds(Run(ops), Rotate(id)) {
      RevocationLasts(ops + [Rotate(id)], later, id);
    }
  }

  // After a disciplined run, a rotation leaves no live access token of the ID
  // exactly when there was none or the last refresh token issued to it is stored.
  lemma RotationDropsAccessIff(ops: seq<Op>, id: string)
    requires Disciplined(ops)
    ensures NoLiveAccess(Run(ops + [Rotate(id)]), id) <==>
            NoLiveAccess(Run(ops), id) || !LatestRefreshDeleted(ops, id)
  {
    DanglingIff(ops, id);
    RotationRevokesForGood(ops, [], id);
    assert ops + [Rotate(id)] + [] == ops + [Rotate(id)];
    assert (ops + [Rotate(id)])[..|ops|] == ops;
    RevocationSticks(Run(ops), Rotate(id), id);
  }

  // A deleted refresh token makes the rotation fail and keeps the access token live.
  lemma FailedRotationKeepsAccess(req: Requester)
    ensures var ops := [CreateAccess("a", req), CreateRefresh("r", "a", req), DeleteRefresh("r")];
            && Disciplined(ops) && !Succeeds(Run(ops), Rotate(req.id))
            && ReadAccess(Run(ops + [Rotate(req.id)]), "a") == Live(req)
  {
    var one, two := [CreateAccess("a", req)], [CreateAccess("a", req), CreateRefresh("r", "a", req)];
    var ops := [CreateAccess("a", req), CreateRefresh("r", "a", req), DeleteRefresh("r")];
    assert one[..0] == [] && two[..1] == one && ops[..2] == two && ops[..1] == one && ops[..0] == [];
    assert Run([]) == EMPTY;
    assert Run(one) == EMPTY.(access := map["a" := req], accessIds := map[req.id := "a"]);
    assert Run(two) == Run(one).(refresh := map["r" := RefreshToken(true, "a", req)], refreshIds := map[req.id := "r"]);
    assert Run(ops) == Run(two).(refresh := map[]);
    assert (ops + [Rotate(req.id)])[..3] == ops;
    assert RefreshRetired(one, req.id);
    assert Allowed([], ops[0]) && Allowed(one, ops[1]) && Allowed(two, ops[2]);
  }

  lemma RevokeBoth(ops: seq<Op>, id: string)
    requires Disciplined(ops)
    ensures var s := Run(ops + [RevokeRefresh(id), RevokeAccess(id)]); NoLiveAccess(s, id) && NoActiveRefresh(s, id)
  {
    var one := ops + [RevokeRefresh(id)];
    var two := ops + [RevokeRefresh(id), RevokeAccess(id)];
    RunCoherent(ops);
    RevocationComplete(Run(ops), id);
    assert one[..|ops|] == ops && two[..|ops| + 1] == one;
    CoherentStep(Run(ops), RevokeRefresh(id));
    RevocationComplete(Run(one), id);
    RevocationSticks(Run(one), RevokeAccess(id), id);
  }

  // A replayed code is refused with the request it was created for, and revoking
  // by that request's ID leaves no usable token of it, now or later, whatever the
  // two revocations report.
  lemma CodeReplayRevokesFamily(ops: seq<Op>, code: string, r: Requester, i: int, later: seq<Op>)
    requires Disciplined(ops) && LastCreation(ops, code, r, i) && InvalidatedAfter(ops, code, i)
    requires Quiet(later, r.id)
    ensures ReadCode(Run(ops), code) == Inactive(r)
    ensures var id := ReadCode(Run(ops), code).request.id;
            var s := Run(ops + [RevokeRefresh(id), RevokeAccess(id)] + later);
            NoLiveAccess(s, r.id) && NoActiveRefresh(s, r.id)
  {
    CodeSingleUse(ops, code);
    RevokeBoth(ops, r.id);
    RevocationLasts(ops + [RevokeRefresh(r.id), RevokeAccess(r.id)], later, r.id);
  }

  // ---------- the indexed store refines an unindexed one ----------

  // The token tables alone, with revocation by search over all tokens.
  datatype Tables = Tables(access: map<string, Requester>, refresh: map<string, RefreshToken>)

  function WipeAccess(t: Tables, id: string): Tables {
    t.(access := map sig | sig in t.access && t.access[sig].id != id :: t.access[sig])
  }

  function WipeRefresh(t: Tables, id: string): Tables {
    t.(refresh := map sig | sig in t.refresh ::
         if t.refresh[sig].request.id == id then t.refresh[sig].(active := false) else t.refresh[sig])
  }

  function PlainApply(t: Tables, op: Op, stuck: bool): Tables {
    match op
    case CreateAccess(sig, req) => t.(access := t.access[sig := req])
    case DeleteAccess(sig) => t.(access := t.access - {sig})
    case CreateRefresh(sig, accessSig, req) => t.(refresh := t.refresh[sig := RefreshToken(true, accessSig, req)])
    case DeleteRefresh(sig) => t.(refresh := t.refresh - {sig})
    case RevokeRefresh(id) => WipeRefresh(t, id)
    case RevokeAccess(id) => WipeAccess(t, id)
    case Rotate(id) => if stuck then t else WipeAccess(WipeRefresh(t, id), id)
    case _ => t
  }

  function PlainRun(ops: seq<Op>): Tables
    decreases |ops|
  {
    if ops == [] then Tables(map[], map[])
    else
      var n := |ops| - 1;
      PlainApply(PlainRun(ops[..n]), ops[n], ops[n].Rotate? && LatestRefreshDeleted(ops[..n], ops[n].id))
  }

  function TablesOf(s: State): Tables {
    Tables(s.access, s.refresh)
  }

  lemma DropAccessIsWipe(s: State, id: string)
    requires AccessCoherent(s)
    ensures TablesOf(DropAccess(s, id)) == WipeAccess(TablesOf(s), id)
  {
    assert DropAccess(s, id).access == WipeAccess(TablesOf(s), id).access;
  }

  lemma DeactivateIsWipe(s: State, id: string)
    requires RefreshCoherent(s)
    ensures TablesOf(Deactivate(s, id)) == WipeRefresh(TablesOf(s), id)
  {
    assert Deactivate(s, id).refresh == WipeRefresh(TablesOf(s), id).refresh;
  }

  // Following the request-ID index finds exactly what a search would find.
  lemma {:induction false} IndexRefinesSearch(ops: seq<Op>)
    requires Disciplined(ops)
    ensures TablesOf(Run(ops)) == PlainRun(ops)
    decreases |ops|
  {
    if ops == [] {
    } else {
      var n := |ops| - 1;
      DisciplinedPrefix(ops);
      IndexRefinesSearch(ops[..n]);
      RunCoherent(ops[..n]);
      var s, op := Run(ops[..n]), ops[n];
      match op
      case RevokeAccess(id) => DropAccessIsWipe(s, id);
      case RevokeRefresh(id) => DeactivateIsWipe(s, id);
      case Rotate(id) =>
        DanglingIff(ops[..n], id);
        DeactivateIsWipe(s, id);
        DropAccessIsWipe(Deactivate(s, id), id);
      case _ =>
    }
  }
}
