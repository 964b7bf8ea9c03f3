// The login and upstream flows of one browser: each handler call is one step
// over the login session and the SSO session.

module Sessions {
  import opened Claims
  import opened History
  import opened Identity
  import opened Upstream
  import HttpProvider

  datatype SsoMode = Always | OnDemand | Never

  // String keys of the login session.
  datatype Key = AuthQuery | ClientId | UpstreamState | UpstreamNonce | UpstreamVerifier | UpstreamPkce | UpstreamProvider

  const TX_KEYS: set<Key> := {UpstreamState, UpstreamNonce, UpstreamVerifier, UpstreamPkce, UpstreamProvider}

  // Both sessions are kept as JSON, so stored users come back with JsonMap'ed claims.
  datatype State = State(login: map<Key, string>, pending: Option<OidcUser>, sso: Option<OidcUser>)

  const FRESH := State(map[], None, None)

  function GetString(m: map<Key, string>, k: Key): string {
    if k in m then m[k] else ""
  }

  // ---------- requests, with everything the environment decides ----------

  datatype AuthResult = AuthError | Refused | Granted(user: OidcUser)

  datatype Target = UnknownUpstream | NoCodeFlow | CodeFlow(supportsPkce: bool)

  datatype Secrets = Secrets(state: string, nonce: string, verifier: string)

  datatype IdToken = NoIdToken | InvalidIdToken | VerifiedIdToken(claims: ClaimMap)

  // The upstream's side of a callback: its configuration if still known, whether
  // it honours the code, the verifier the code is bound to, and what it returns;
  // local is the local identity endpoint's answer for the user's sub.
  datatype UpstreamSide = UpstreamSide(config: Option<Config>, honoursCode: bool, boundVerifier: Option<string>,
                                       idToken: IdToken, userInfo: Option<ClaimMap>,
                                       local: HttpProvider.Answer)

  // authorizeOk: whether the protocol engine accepts the preserved query.
  // lateWrites: whether session changes made after a response was written still
  // reach the store, which the session middleware around the handler decides.
  datatype Request =
    | LoginGet(rawQuery: string, clientId: string, authorizeOk: bool)
    | LoginPost(auth: AuthResult, remember: bool, authorizeOk: bool)
    | UpstreamGo(name: string, target: Target, random: Option<Secrets>)
    | Callback(error: string, code: string, state: string, side: UpstreamSide, authorizeOk: bool, lateWrites: bool)
    | WelcomeGet
    | WelcomePost(remember: bool, authorizeOk: bool)
    | Logout(ssoDestroyed: bool, loginDestroyed: bool)

  datatype Output = Page | Failure | Redirected | Authorized(user: OidcUser)

  // ---------- specification of one step ----------

  function Stored(u: OidcUser): OidcUser {
    u.(claims := JsonMap(u.claims))
  }

  function Finish(authorizeOk: bool, u: OidcUser): Output {
    if authorizeOk then Authorized(u) else Failure
  }

  predicate Usable(u: Option<OidcUser>) {
    u.Some? && u.value.login != ""
  }

  predicate GoOpens(s: State, req: Request) {
    && req.UpstreamGo? && req.name != "" && GetString(s.login, AuthQuery) != ""
    && req.target.CodeFlow? && req.random.Some?
  }

  function Opened(login: map<Key, string>, req: Request): map<Key, string>
    requires req.UpstreamGo? && req.target.CodeFlow? && req.random.Some?
  {
    var tx := req.random.value;
    var m := login[UpstreamState := tx.state][UpstreamNonce := tx.nonce][UpstreamProvider := req.name][UpstreamPkce := ""];
    if req.target.supportsPkce then m[UpstreamVerifier := tx.verifier][UpstreamPkce := "1"] else m
  }

  // The verifier sent with the code exchange.
  function Presented(login: map<Key, string>): Option<string> {
    if GetString(login, UpstreamPkce) == "1" then Some(GetString(login, UpstreamVerifier)) else None
  }

  predicate NonceOk(login: map<Key, string>, t: IdToken) {
    t.VerifiedIdToken? ==>
      var want := GetString(login, UpstreamNonce);
      want == "" || StringClaim(NormMap(t.claims), "nonce") == want
  }

  // The callback gets past every check.
  predicate CallbackPasses(s: State, req: Request) {
    && req.Callback? && req.error == "" && req.code != "" && req.state != ""
    && GetString(s.login, UpstreamState) == req.state
    && GetString(s.login, UpstreamProvider) != "" && GetString(s.login, AuthQuery) != ""
    && req.side.config.Some?
    && req.side.honoursCode
    && (req.side.boundVerifier.Some? ==> Presented(s.login) == req.side.boundVerifier)
    && !req.side.idToken.InvalidIdToken? && NonceOk(s.login, req.side.idToken)
    && (req.side.config.value.useUserInfo ==> req.side.userInfo.Some?)
  }

  function CallbackClaims(side: UpstreamSide): ClaimMap
    requires side.config.Some?
  {
    UpstreamClaims(side.config.value,
                   if side.idToken.VerifiedIdToken? then side.idToken.claims else map[],
                   if side.userInfo.Some? then side.userInfo.value else map[])
  }

  function CallbackUser(side: UpstreamSide): OidcUser
    requires side.config.Some?
  {
    UpstreamUser(side.config.value,
                 if side.idToken.VerifiedIdToken? then side.idToken.claims else map[],
                 if side.userInfo.Some? then side.userInfo.value else map[],
                 LocalUser(StringClaim(CallbackClaims(side), "sub"), side.local))
  }

  predicate ErrorWritten(side: UpstreamSide)
    requires side.config.Some?
  {
    WritesError(side.config.value, CallbackClaims(side), side.local)
  }

  // A callback that wrote an error still runs to its end, but whether its
  // session changes are kept is up to the middleware.
  predicate CallbackCompletes(s: State, req: Request) {
    CallbackPasses(s, req) && (!ErrorWritten(req.side) || req.lateWrites)
  }

  // The end of a callback that completes: close the transaction, apply the SSO mode.
  function Commit(mode: SsoMode, s: State, side: UpstreamSide, authorizeOk: bool): (State, Output)
    requires side.config.Some?
  {
    var u := CallbackUser(side);
    var t := s.(login := s.login - TX_KEYS);
    if mode == OnDemand then
      (t.(pending := Some(Stored(u))), if ErrorWritten(side) then Failure else Redirected)
    else
      (if mode == Always then t.(sso := Some(Stored(u))) else t,
       if ErrorWritten(side) then Failure else Finish(authorizeOk, u))
  }

  function Handle(mode: SsoMode, s: State, req: Request): (State, Output) {
    match req
    case LoginGet(rawQuery, clientId, authorizeOk) =>
      var t := s.(login := s.login[AuthQuery := rawQuery][ClientId := clientId]);
      if Usable(s.sso) && rawQuery != "" && authorizeOk then
        (t, Authorized(OidcUser(s.sso.value.login, s.sso.value.claims, "")))
      else (t, Page)
    case LoginPost(auth, remember, authorizeOk) =>
      if GetString(s.login, AuthQuery) == "" || auth.AuthError? then (s, Failure)
      else if auth.Refused? then (s, Page)
      else
        var keep := mode == Always || (mode == OnDemand && remember);
        (if keep then s.(sso := Some(Stored(auth.user))) else s, Finish(authorizeOk, auth.user))
    case UpstreamGo(_, _, _) =>
      if GoOpens(s, req) then (s.(login := Opened(s.login, req)), Redirected) else (s, Failure)
    case Callback(_, _, _, side, authorizeOk, _) =>
      if CallbackCompletes(s, req) then Commit(mode, s, side, authorizeOk) else (s, Failure)
    case WelcomeGet =>
      (s, if mode == OnDemand && Usable(s.pending) then Page else Failure)
    case WelcomePost(remember, authorizeOk) =>
      if mode != OnDemand || !Usable(s.pending) || GetString(s.login, AuthQuery) == "" then (s, Failure)
      else
        var u := s.pending.value;
        (s.(pending := None, sso := if remember then Some(u) else s.sso), Finish(authorizeOk, u))
    case Logout(ssoDestroyed, loginDestroyed) =>
      (State((if loginDestroyed then map[] else s.login)[ClientId := GetString(s.login, ClientId)],
             if loginDestroyed then None else s.pending,
             if ssoDestroyed then None else s.sso),
       Redirected)
  }

  // ---------- the handlers ----------

  class OidcServer {
    const mode: SsoMode
    var loginSession: map<Key, string>
    var pendingUpstreamUser: Option<OidcUser>
    var ssoUser: Option<OidcUser>

    function View(): State
      reads this
    {
      State(loginSession, pendingUpstreamUser, ssoUser)
    }

    constructor (mode: SsoMode)
      ensures this.mode == mode && View() == FRESH
    {
      this.mode := mode;
      loginSession, pendingUpstreamUser, ssoUser := map[], None, None;
    }

    method HandleLoginGet(rawQuery: string, clientId: string, authorizeOk: bool) returns (out: Output)
      modifies this
      ensures (View(), out) == Handle(mode, old(View()), LoginGet(rawQuery, clientId, authorizeOk))
    {
      loginSession := loginSession[AuthQuery := rawQuery];
      loginSession := loginSession[ClientId := clientId];
      if ssoUser.Some? {
        var login := ssoUser.value.login;
        if login != "" {
          var claims := ssoUser.value.claims;
          if rawQuery != "" {
            if authorizeOk {
              return Authorized(OidcUser(login, claims, ""));
            }
          }
        }
      }
      out := Page;
    }

    method HandleLoginPost(auth: AuthResult, remember: bool, authorizeOk: bool) returns (out: Output)
      modifies this
      ensures (View(), out) == Handle(mode, old(View()), LoginPost(auth, remember, authorizeOk))
    {
      var rawQuery := GetString(loginSession, AuthQuery);
      if rawQuery == "" {
        return Failure;
      }
      if auth.AuthError? {
        return Failure;
      }
      if auth.Refused? {
        return Page;
      }
      if mode == Always || (mode == OnDemand && remember) {
        ssoUser := Some(Stored(auth.user));
      }
      if !authorizeOk {
        return Failure;
      }
      out := Authorized(auth.user);
    }

    method HandleUpstreamGo(name: string, target: Target, random: Option<Secrets>) returns (out: Output)
      modifies this
      ensures (View(), out) == Handle(mode, old(View()), UpstreamGo(name, target, random))
    {
      if name == "" {
        return Failure;
      }
      if GetString(loginSession, AuthQuery) == "" {
        return Failure;
      }
      if !target.CodeFlow? || random.None? {
        return Failure;
      }
      loginSession := loginSession[UpstreamState := random.value.state];
      loginSession := loginSession[UpstreamNonce := random.value.nonce];
      loginSession := loginSession[UpstreamProvider := name];
      loginSession := loginSession[UpstreamPkce := ""];
      if target.supportsPkce {
        loginSession := loginSession[UpstreamVerifier := random.value.verifier];
        loginSession := loginSession[UpstreamPkce := "1"];
      }
      out := Redirected;
    }

    method CheckCallback(error: string, code: string, state: string, side: UpstreamSide,
                         ghost authorizeOk: bool, ghost lateWrites: bool)
        returns (ok: bool)
      ensures ok == CallbackPasses(View(), Callback(error, code, state, side, authorizeOk, lateWrites))
    {
      if error != "" || code == "" || state == "" {
        return false;
      }
      var wantState := GetString(loginSession, UpstreamState);
      if wantState == "" || wantState != state {
        return false;
      }
      var name := GetString(loginSession, UpstreamProvider);
      var rawQuery := GetString(loginSession, AuthQuery);
      if name == "" || rawQuery == "" {
        return false;
      }
      if side.config.None? {
        return false;
      }
      var verifier: Option<string> := None;
      if GetString(loginSession, UpstreamPkce) == "1" {
        verifier := Some(GetString(loginSession, UpstreamVerifier));
      }
      if !side.honoursCode || (side.boundVerifier.Some? && verifier != side.boundVerifier) {
        return false;
      }
      if side.idToken.InvalidIdToken? {
        return false;
      }
      if side.idToken.VerifiedIdToken? {
        var idClaims := NormalizeStringArray(side.idToken.claims);
        var wantNonce := GetString(loginSession, UpstreamNonce);
        var gotNonce := StringClaim(idClaims, "nonce");
        if wantNonce != "" && gotNonce != wantNonce {
          return false;
        }
      }
      ok := !side.config.value.useUserInfo || side.userInfo.Some?;
    }

    method HandleUpstreamCallback(error: string, code: string, state: string, side: UpstreamSide,
                                  authorizeOk: bool, lateWrites: bool)
        returns (out: Output)
      modifies this
      ensures (View(), out) == Handle(mode, old(View()), Callback(error, code, state, side, authorizeOk, lateWrites))
    {
      var ok := CheckCallback(error, code, state, side, authorizeOk, lateWrites);
      if !ok {
        return Failure;
      }
      out := CommitCallback(side, authorizeOk, lateWrites);
    }

    method CloseTransaction()
      modifies this`loginSession
      ensures loginSession == old(loginSession) - TX_KEYS
    {
      loginSession := loginSession - {UpstreamState};
      loginSession := loginSession - {UpstreamNonce};
      loginSession := loginSession - {UpstreamVerifier};
      loginSession := loginSession - {UpstreamPkce};
      loginSession := loginSession - {UpstreamProvider};
    }

    method CommitCallback(side: UpstreamSide, authorizeOk: bool, lateWrites: bool) returns (out: Output)
      requires side.config.Some?
      modifies this
      ensures (View(), out) ==
              if ErrorWritten(side) && !lateWrites then (old(View()), Failure)
              else Commit(mode, old(View()), side, authorizeOk)
    {
      var idToken := if side.idToken.VerifiedIdToken? then Some(side.idToken.claims) else None;
      var userInfo: ClaimMap := if side.userInfo.Some? then side.userInfo.value else map[];
      var user, errorWritten := BuildUpstreamUser(side.config.value, idToken, userInfo, side.local);
      if errorWritten && !lateWrites {
        return Failure;
      }
      CloseTransaction();
      match mode {
        case OnDemand =>
          pendingUpstreamUser := Some(Stored(user));
          return if errorWritten then Failure else Redirected;
        case Always =>
          ssoUser := Some(Stored(user));
        case Never =>
      }
      out := if errorWritten || !authorizeOk then Failure else Authorized(user);
    }

    method LoadPendingUpstreamUser() returns (u: Option<OidcUser>)
      ensures u == if Usable(pendingUpstreamUser) then pendingUpstreamUser else None
    {
      if pendingUpstreamUser.None? {
        return None;
      }
      if pendingUpstreamUser.value.login == "" {
        return None;
      }
      u := pendingUpstreamUser;
    }

    method HandleUpstreamWelcomePost(remember: bool, authorizeOk: bool) returns (out: Output)
      modifies this
      ensures (View(), out) == Handle(mode, old(View()), WelcomePost(remember, authorizeOk))
    {
      if mode != OnDemand {
        return Failure;
      }
      var user := LoadPendingUpstreamUser();
      if user.None? {
        return Failure;
      }
      var rawQuery := GetString(loginSession, AuthQuery);
      if rawQuery == "" {
        return Failure;
      }
      pendingUpstreamUser := None;
      if remember {
        ssoUser := user;
      }
      out := if authorizeOk then Authorized(user.value) else Failure;
    }

    method HandleLogout(ssoDestroyed: bool, loginDestroyed: bool) returns (out: Output)
      modifies this
      ensures (View(), out) == Handle(mode, old(View()), Logout(ssoDestroyed, loginDestroyed))
    {
      if ssoDestroyed {
        ssoUser := None;
      }
      var clientId := GetString(loginSession, ClientId);
      if loginDestroyed {
        loginSession, pendingUpstreamUser := map[], None;
      }
      loginSession := loginSession[ClientId := clientId];
      out := Redirected;
    }
  }

  // ---------- runs ----------

  function Run(mode: SsoMode, h: seq<Request>): State
    decreases |h|
  {
    if h == [] then FRESH else Handle(mode, Run(mode, h[..|h| - 1]), h[|h| - 1]).0
  }

  // The same from an arbitrary state.
  function RunFrom(mode: SsoMode, s: State, h: seq<Request>): State
    decreases |h|
  {
    if h == [] then s else Handle(mode, RunFrom(mode, s, h[..|h| - 1]), h[|h| - 1]).0
  }

  // What request i of the run h answers.
  function OutputAt(mode: SsoMode, h: seq<Request>, i: nat): Output
    requires i < |h|
  {
    Handle(mode, Run(mode, h[..i]), h[i]).1
  }

  // ---------- upstream transactions ----------

  predicate DestroysLogin(req: Request) {
    req.Logout? && req.loginDestroyed
  }

  // What a step does to the open transaction.
  function TxEvent(s: State, req: Request): Event<Request> {
    if GoOpens(s, req) then Put(req)
    else if CallbackCompletes(s, req) || DestroysLogin(req) then Clear
    else Keep
  }

  function TxLog(mode: SsoMode, h: seq<Request>): seq<Event<Request>> {
    seq(|h|, i requires 0 <= i < |h| => TxEvent(Run(mode, h[..i]), h[i]))
  }

  lemma TxLogPrefix(mode: SsoMode, h: seq<Request>, n: nat)
    requires n <= |h|
    ensures TxLog(mode, h[..n]) == TxLog(mode, h)[..n]
  {
    assert forall i :: 0 <= i < n ==> h[..n][..i] == h[..i];
  }

  // The login session holds exactly the transaction opened by go, or none.
  predicate HoldsTransaction(login: map<Key, string>, go: Option<Request>) {
    match go
    case None => forall k :: k in TX_KEYS ==> k !in login
    case Some(req) =>
      && req.UpstreamGo? && req.target.CodeFlow? && req.random.Some? && req.name != ""
      && GetString(login, UpstreamState) == req.random.value.state
      && GetString(login, UpstreamNonce) == req.random.value.nonce
      && GetString(login, UpstreamProvider) == req.name
      && GetString(login, UpstreamPkce) == (if req.target.supportsPkce then "1" else "")
      && (req.target.supportsPkce ==> GetString(login, UpstreamVerifier) == req.random.value.verifier)
  }

  lemma TransactionStep(mode: SsoMode, s: State, req: Request, go: Option<Request>)
    requires HoldsTransaction(s.login, go)
    ensures HoldsTransaction(Handle(mode, s, req).0.login, After(go, TxEvent(s, req)))
  {
  }

  // In every run, state, nonce, provider and (under PKCE) verifier are those of
  // the one open upstream-go step, present together or absent together.
  lemma {:induction false} TransactionCoherence(mode: SsoMode, h: seq<Request>)
    ensures HoldsTransaction(Run(mode, h).login, Held(TxLog(mode, h)))
    decreases |h|
  {
    if h == [] {
    } else {
      var n := |h| - 1;
      TransactionCoherence(mode, h[..n]);
      TransactionStep(mode, Run(mode, h[..n]), h[n], Held(TxLog(mode, h[..n])));
      TxLogPrefix(mode, h, n);
      HeldAfter(TxLog(mode, h));
    }
  }

  // A callback gets through only on the most recent upstream-go, with that
  // step's state, and its code must be bound to that step's verifier.
  lemma CallbackUsesOpenTransaction(mode: SsoMode, h: seq<Request>, req: Request)
    requires CallbackPasses(Run(mode, h), req)
    ensures Held(TxLog(mode, h)).Some?
    ensures var go := Held(TxLog(mode, h)).value;
            && go.UpstreamGo? && go.random.Some? && go.target.CodeFlow?
            && req.state == go.random.value.state
            && GetString(Run(mode, h).login, UpstreamProvider) == go.name
            && Presented(Run(mode, h).login) == (if go.target.supportsPkce then Some(go.random.value.verifier) else None)
            && (req.side.boundVerifier.Some? ==>
                  go.target.supportsPkce && req.side.boundVerifier.value == go.random.value.verifier)
            && (req.side.idToken.VerifiedIdToken? && go.random.value.nonce != "" ==>
                  StringClaim(NormMap(req.side.idToken.claims), "nonce") == go.random.value.nonce)
  {
    TransactionCoherence(mode, h);
  }

  // After a callback completed, no callback gets past the checks without an
  // upstream-go between them.
  lemma GoBetweenCallbacks(mode: SsoMode, h: seq<Request>, i: nat, k: nat)
    requires i < k < |h|
    requires CallbackCompletes(Run(mode, h[..i]), h[i]) && CallbackPasses(Run(mode, h[..k]), h[k])
    ensures exists j: nat :: i < j < k && TxLog(mode, h)[j].Put?
  {
    var es := TxLog(mode, h);
    TxLogPrefix(mode, h, k);
    CallbackUsesOpenTransaction(mode, h[..k], h[k]);
    var j := LastPut(es[..k]).value;
    assert es[..k][i] == es[i] == Clear;
    ClearedBefore(es[..k], i, j);
    assert es[j].Put?;
  }

  // ---------- which query is answered ----------

  // What a step does to the stored authorize query.
  function QueryEvent(req: Request): Event<string> {
    if req.LoginGet? then Put(req.rawQuery) else if DestroysLogin(req) then Clear else Keep
  }

  function QueryLog(h: seq<Request>): seq<Event<string>> {
    seq(|h|, i requires 0 <= i < |h| => QueryEvent(h[i]))
  }

  function StoredQuery(login: map<Key, string>): Option<string> {
    if AuthQuery in login then Some(login[AuthQuery]) else None
  }

  lemma QueryStep(mode: SsoMode, s: State, req: Request)
    ensures StoredQuery(Handle(mode, s, req).0.login) == After(StoredQuery(s.login), QueryEvent(req))
  {
  }

  // The stored query is the one of the last login GET since the login session
  // was destroyed.
  lemma {:induction false} StoredQueryIs(mode: SsoMode, h: seq<Request>)
    ensures StoredQuery(Run(mode, h).login) == Held(QueryLog(h))
    decreases |h|
  {
    if h == [] {
    } else {
      var n := |h| - 1;
      StoredQueryIs(mode, h[..n]);
      QueryStep(mode, Run(mode, h[..n]), h[n]);
      assert QueryLog(h)[..n] == QueryLog(h[..n]);
      HeldAfter(QueryLog(h));
    }
  }

  // What a callback must bring for the open step go and the stored query.
  predicate Acceptable(go: Request, query: Option<string>, req: Request) {
    && go.UpstreamGo? && go.target.CodeFlow? && go.random.Some?
    && req.Callback? && req.error == "" && req.code != "" && req.state != ""
    && req.state == go.random.value.state
    && query.Some? && query.value != ""
    && req.side.config.Some? && req.side.honoursCode
    && (req.side.boundVerifier.Some? ==>
          go.target.supportsPkce && req.side.boundVerifier == Some(go.random.value.verifier))
    && (match req.side.idToken
        case NoIdToken => true
        case InvalidIdToken => false
        case VerifiedIdToken(claims) =>
          go.random.value.nonce == "" || ("nonce" in claims && claims["nonce"] == Str(go.random.value.nonce)))
    && (req.side.config.value.useUserInfo ==> req.side.userInfo.Some?)
  }

  lemma NonceIs(claims: ClaimMap, nonce: string)
    requires nonce != ""
    ensures StringClaim(NormMap(claims), "nonce") == nonce <==> "nonce" in claims && claims["nonce"] == Str(nonce)
  {
    if "nonce" in claims { NormYieldsNormalForm(claims["nonce"]); }
  }

  lemma LoginDecides(s: State, go: Option<Request>, req: Request)
    requires HoldsTransaction(s.login, go) && req.Callback?
    ensures CallbackPasses(s, req) <==> go.Some? && Acceptable(go.value, StoredQuery(s.login), req)
  {
    if go.Some? && req.side.idToken.VerifiedIdToken? && go.value.random.value.nonce != "" {
      NonceIs(req.side.idToken.claims, go.value.random.value.nonce);
    }
  }

  // In every run a callback gets past the checks exactly when it is acceptable
  // for the open upstream-go step and the query of the last login GET.
  lemma CallbackPassesIff(mode: SsoMode, h: seq<Request>, req: Request)
    requires req.Callback?
    ensures CallbackPasses(Run(mode, h), req) <==>
            Held(TxLog(mode, h)).Some? && Acceptable(Held(TxLog(mode, h)).value, Held(QueryLog(h)), req)
  {
    TransactionCoherence(mode, h);
    StoredQueryIs(mode, h);
    LoginDecides(Run(mode, h), Held(TxLog(mode, h)), req);
  }

  // The claims step finds a sub and, where configured, the local user.
  predicate Identifies(side: UpstreamSide)
    requires side.config.Some?
  {
    var claims := CallbackClaims(side);
    && "sub" in claims && claims["sub"].Str? && claims["sub"].s != ""
    && (side.config.value.localEnrichment ==> side.local.Answered? && HttpProvider.Readable(side.local.user))
  }

  lemma CallbackEffect(mode: SsoMode, s: State, req: Request)
    requires req.Callback?
    ensures Handle(mode, s, req) == (s, Failure) <==> !CallbackCompletes(s, req)
  {
    if CallbackCompletes(s, req) {
      assert UpstreamState in s.login;
      assert UpstreamState !in Handle(mode, s, req).0.login;
    }
  }

  // In every run a callback has an effect exactly when it is acceptable and
  // identifies a user, or late changes are kept; otherwise it leaves the
  // sessions alone and fails.
  lemma CallbackEffectIff(mode: SsoMode, h: seq<Request>, req: Request)
    requires req.Callback?
    ensures Handle(mode, Run(mode, h), req) != (Run(mode, h), Failure) <==>
            && Held(TxLog(mode, h)).Some? && Acceptable(Held(TxLog(mode, h)).value, Held(QueryLog(h)), req)
            && (Identifies(req.side) || req.lateWrites)
  {
    CallbackPassesIff(mode, h, req);
    CallbackEffect(mode, Run(mode, h), req);
  }

  // An upstream-go opens a transaction exactly for a named, known code-flow
  // upstream, with a stored query and working randomness.
  lemma GoIff(mode: SsoMode, h: seq<Request>, req: Request)
    requires req.UpstreamGo?
    ensures Handle(mode, Run(mode, h), req).1 == Redirected <==>
            && req.name != "" && req.target.CodeFlow? && req.random.Some?
            && Held(QueryLog(h)).Some? && Held(QueryLog(h)).value != ""
    ensures Handle(mode, Run(mode, h), req).1 != Redirected ==> Handle(mode, Run(mode, h), req) == (Run(mode, h), Failure)
  {
    StoredQueryIs(mode, h);
  }

  // The client of the last login GET, which a logout keeps.
  function LastClient(h: seq<Request>): string
    decreases |h|
  {
    if h == [] then ""
    else if h[|h| - 1].LoginGet? then h[|h| - 1].clientId
    else LastClient(h[..|h| - 1])
  }

  lemma ClientStep(mode: SsoMode, s: State, req: Request)
    ensures GetString(Handle(mode, s, req).0.login, ClientId) ==
            if req.LoginGet? then req.clientId else GetString(s.login, ClientId)
  {
  }

  lemma {:induction false} StoredClientIs(mode: SsoMode, h: seq<Request>)
    ensures GetString(Run(mode, h).login, ClientId) == LastClient(h)
    decreases |h|
  {
    if h == [] {
    } else {
      StoredClientIs(mode, h[..|h| - 1]);
      ClientStep(mode, Run(mode, h[..|h| - 1]), h[|h| - 1]);
    }
  }

  // While the transaction opened at step j is open, the stored query is the one
  // step j started from exactly when the last login GET since then, if any,
  // repeated it; a callback that passes answers the stored query.
  lemma TransactionKeepsQueryIff(mode: SsoMode, h: seq<Request>, j: nat)
    requires HeldSince(TxLog(mode, h), j)
    ensures StoredQuery(Run(mode, h).login) == StoredQuery(Run(mode, h[..j]).login) <==>
            forall g: nat :: LastGet(h, g) && g >= j ==>
              Some(h[g].rawQuery) == StoredQuery(Run(mode, h[..j]).login)
  {
    StoredQueryIs(mode, h);
    StoredQueryIs(mode, h[..j]);
    TxKeepsLogin(mode, h, j);
    QueryAfter(h, j);
  }

  predicate LastGet(h: seq<Request>, g: nat) {
    g < |h| && h[g].LoginGet? && forall k: nat :: g < k < |h| ==> !h[k].LoginGet?
  }

  lemma TxKeepsLogin(mode: SsoMode, h: seq<Request>, j: nat)
    requires HeldSince(TxLog(mode, h), j)
    ensures forall k: nat :: j <= k < |h| ==> !DestroysLogin(h[k])
  {
    forall k: nat | j <= k < |h| ensures !DestroysLogin(h[k]) {
      assert k > j ==> TxLog(mode, h)[k].Keep?;
    }
  }

  // From position j on the login session is not destroyed: the query held at the
  // end is the last later GET's, or the one held at j.
  lemma {:induction false} QueryAfter(h: seq<Request>, j: nat)
    requires j <= |h| && forall k: nat :: j <= k < |h| ==> !DestroysLogin(h[k])
    ensures Held(QueryLog(h)) == Held(QueryLog(h[..j])) <==>
            forall g: nat :: LastGet(h, g) && g >= j ==> Some(h[g].rawQuery) == Held(QueryLog(h[..j]))
    decreases |h|
  {
    if j == |h| {
      assert h[..j] == h;
    } else {
      var n := |h| - 1;
      QueryAfter(h[..n], j);
      assert h[..n][..j] == h[..j] && QueryLog(h)[..n] == QueryLog(h[..n]);
      HeldAfter(QueryLog(h));
      if h[n].LoginGet? {
        assert LastGet(h, n);
      } else {
        forall g: nat ensures LastGet(h, g) <==> LastGet(h[..n], g) {
          assert forall k: nat :: k < n ==> h[..n][k] == h[k];
        }
      }
    }
  }

  // ---------- provenance of authorize responses ----------

  // The user this very step authenticated.
  function Authenticates(s: State, req: Request): Option<OidcUser> {
    if req.LoginPost? && req.auth.Granted? && GetString(s.login, AuthQuery) != "" then Some(req.auth.user)
    else if CallbackCompletes(s, req) then Some(CallbackUser(req.side))
    else None
  }

  predicate SamePrincipal(u: OidcUser, v: OidcUser) {
    u.login == v.login && JsonMap(u.claims) == JsonMap(v.claims)
  }

  predicate FullLogout(req: Request) {
    req.Logout? && req.ssoDestroyed && req.loginDestroyed
  }

  // The users the steps of h authenticated.
  function AuthLog(mode: SsoMode, h: seq<Request>): seq<Option<OidcUser>> {
    seq(|h|, i requires 0 <= i < |h| => Authenticates(Run(mode, h[..i]), h[i]))
  }

  lemma AuthLogPrefix(mode: SsoMode, h: seq<Request>, n: nat)
    requires n <= |h|
    ensures AuthLog(mode, h[..n]) == AuthLog(mode, h)[..n]
  {
    assert forall i :: 0 <= i < n ==> h[..n][..i] == h[..i];
  }

  // Step j of h authenticated u, and no complete logout came after it.
  predicate BackedBy(auths: seq<Option<OidcUser>>, h: seq<Request>, u: OidcUser, j: nat)
    requires |auths| == |h|
  {
    && j < |h| && auths[j].Some? && SamePrincipal(u, auths[j].value)
    && forall k :: j < k < |h| ==> !FullLogout(h[k])
  }

  ghost predicate Backed(auths: seq<Option<OidcUser>>, h: seq<Request>, u: OidcUser)
    requires |auths| == |h|
  {
    exists j: nat :: BackedBy(auths, h, u, j)
  }

  ghost predicate BackedState(mode: SsoMode, h: seq<Request>) {
    && (Run(mode, h).sso.Some? ==> Backed(AuthLog(mode, h), h, Run(mode, h).sso.value))
    && (Run(mode, h).pending.Some? ==> Backed(AuthLog(mode, h), h, Run(mode, h).pending.value))
  }

  lemma BackedLater(auths: seq<Option<OidcUser>>, h: seq<Request>, u: OidcUser)
    requires |auths| == |h| > 0 && Backed(auths[..|h| - 1], h[..|h| - 1], u) && !FullLogout(h[|h| - 1])
    ensures Backed(auths, h, u)
  {
    var n := |h| - 1;
    var j: nat :| BackedBy(auths[..n], h[..n], u, j);
    assert BackedBy(auths, h, u, j);
  }

  lemma BackedNow(auths: seq<Option<OidcUser>>, h: seq<Request>, u: OidcUser)
    requires |auths| == |h| > 0 && auths[|h| - 1].Some? && SamePrincipal(u, auths[|h| - 1].value)
    ensures Backed(auths, h, u)
  {
    assert BackedBy(auths, h, u, |h| - 1);
  }

  // What a step stores is what was stored before or a user it authenticated.
  lemma StoredUsers(mode: SsoMode, s: State, req: Request)
    ensures var t := Handle(mode, s, req).0;
            && (t.sso.Some? ==>
                  || (t.sso == s.sso && !FullLogout(req))
                  || (t.sso == s.pending && !FullLogout(req))
                  || (Authenticates(s, req).Some? && SamePrincipal(t.sso.value, Authenticates(s, req).value)))
            && (t.pending.Some? ==>
                  || (t.pending == s.pending && !FullLogout(req))
                  || (Authenticates(s, req).Some? && SamePrincipal(t.pending.value, Authenticates(s, req).value)))
  {
    if Authenticates(s, req).Some? { JsonMapIdempotent(Authenticates(s, req).value.claims); }
  }

  lemma {:induction false} StoredUsersBacked(mode: SsoMode, h: seq<Request>)
    ensures BackedState(mode, h)
    decreases |h|
  {
    if h == [] {
    } else {
      var n := |h| - 1;
      var s, t, auths := Run(mode, h[..n]), Run(mode, h), AuthLog(mode, h);
      StoredUsersBacked(mode, h[..n]);
      StoredUsers(mode, s, h[n]);
      AuthLogPrefix(mode, h, n);
      if t.sso.Some? {
        if (t.sso == s.sso || t.sso == s.pending) && !FullLogout(h[n]) { BackedLater(auths, h, t.sso.value); }
        else { BackedNow(auths, h, t.sso.value); }
      }
      if t.pending.Some? {
        if t.pending == s.pending && !FullLogout(h[n]) { BackedLater(auths, h, t.pending.value); }
        else { BackedNow(auths, h, t.pending.value); }
      }
    }
  }

  lemma AnsweredUser(mode: SsoMode, s: State, req: Request)
    requires Handle(mode, s, req).1.Authorized?
    ensures var u := Handle(mode, s, req).1.user;
            || Authenticates(s, req) == Some(u)
            || (s.sso.Some? && SamePrincipal(u, s.sso.value) && req.LoginGet?)
            || (s.pending.Some? && SamePrincipal(u, s.pending.value) && req.WelcomePost? && mode == OnDemand)
  {
  }

  // Every authorize response is for a user who authenticated in that step or in
  // an earlier one, with no complete logout since.
  lemma ResponseProvenance(mode: SsoMode, h: seq<Request>, i: nat)
    requires i < |h| && OutputAt(mode, h, i).Authorized?
    ensures var u := OutputAt(mode, h, i).user;
            AuthLog(mode, h)[i] == Some(u) || Backed(AuthLog(mode, h)[..i], h[..i], u)
  {
    AnsweredUser(mode, Run(mode, h[..i]), h[i]);
    StoredUsersBacked(mode, h[..i]);
    AuthLogPrefix(mode, h, i);
    var s, u := Run(mode, h[..i]), OutputAt(mode, h, i).user;
    if AuthLog(mode, h)[i] != Some(u) {
      BackedSame(AuthLog(mode, h)[..i], h[..i], if h[i].LoginGet? then s.sso.value else s.pending.value, u);
    }
  }

  lemma BackedSame(auths: seq<Option<OidcUser>>, h: seq<Request>, v: OidcUser, u: OidcUser)
    requires |auths| == |h| && Backed(auths, h, v) && SamePrincipal(u, v)
    ensures Backed(auths, h, u)
  {
    var j: nat :| BackedBy(auths, h, v, j);
    assert BackedBy(auths, h, u, j);
  }

  // After a complete logout nothing is answered before someone authenticates again.
  lemma NothingAfterLogout(mode: SsoMode, h: seq<Request>, l: nat, i: nat)
    requires l < i < |h| && FullLogout(h[l]) && OutputAt(mode, h, i).Authorized?
    ensures exists j :: l < j <= i && AuthLog(mode, h)[j].Some?
  {
    ResponseProvenance(mode, h, i);
    var auths, u := AuthLog(mode, h), OutputAt(mode, h, i).user;
    if auths[i] != Some(u) {
      var j: nat :| BackedBy(auths[..i], h[..i], u, j);
      assert h[..i][l] == h[l];
      assert auths[..i][j] == auths[j];
    }
  }

  // ---------- SSO policy ----------

  // Mode never: no user is ever kept, so only the authenticating step answers.
  lemma {:induction false} NeverKeepsNothing(h: seq<Request>)
    ensures Run(Never, h).sso == None && Run(Never, h).pending == None
    decreases |h|
  {
    if h == [] {
    } else {
      NeverKeepsNothing(h[..|h| - 1]);
    }
  }

  lemma NeverAnswersOnlyAuthentications(h: seq<Request>, i: nat)
    requires i < |h| && OutputAt(Never, h, i).Authorized?
    ensures Authenticates(Run(Never, h[..i]), h[i]) == Some(OutputAt(Never, h, i).user)
  {
    NeverKeepsNothing(h[..i]);
    AnsweredUser(Never, Run(Never, h[..i]), h[i]);
  }

  // A welcome POST that gets past its checks and uses the pending user up.
  predicate Consumes(mode: SsoMode, s: State, req: Request) {
    mode == OnDemand && req.WelcomePost? && Usable(s.pending) && GetString(s.login, AuthQuery) != ""
  }

  // The user that this step's user asked to be remembered: a login or welcome
  // POST with remember on, for the user it authenticates.
  function Remembered(s: State, req: Request): Option<OidcUser> {
    if req.LoginPost? && req.remember && Authenticates(s, req).Some? then Some(Stored(Authenticates(s, req).value))
    else if req.WelcomePost? && req.remember && Consumes(OnDemand, s, req) then s.pending
    else None
  }

  // The policy: which user a step may write to the SSO session.
  function SsoWrite(mode: SsoMode, s: State, req: Request): Option<OidcUser> {
    match mode
    case Never => None
    case Always => if Authenticates(s, req).Some? then Some(Stored(Authenticates(s, req).value)) else None
    case OnDemand => Remembered(s, req)
  }

  predicate DestroysSso(req: Request) {
    req.Logout? && req.ssoDestroyed
  }

  lemma SsoStep(mode: SsoMode, s: State, req: Request)
    ensures Handle(mode, s, req).0.sso ==
            if SsoWrite(mode, s, req).Some? then SsoWrite(mode, s, req)
            else if DestroysSso(req) then None
            else s.sso
  {
  }

  function SsoEvent(mode: SsoMode, s: State, req: Request): Event<OidcUser> {
    if SsoWrite(mode, s, req).Some? then Put(SsoWrite(mode, s, req).value)
    else if DestroysSso(req) then Clear
    else Keep
  }

  function SsoLog(mode: SsoMode, h: seq<Request>): seq<Event<OidcUser>> {
    seq(|h|, i requires 0 <= i < |h| => SsoEvent(mode, Run(mode, h[..i]), h[i]))
  }

  lemma RunNext(mode: SsoMode, h: seq<Request>, i: nat)
    requires i < |h|
    ensures Run(mode, h[..i + 1]) == Handle(mode, Run(mode, h[..i]), h[i]).0
  {
    assert h[..i + 1][..i] == h[..i];
  }

  // The SSO session holds u exactly when the last step that wrote or destroyed
  // it wrote u, as the mode's policy allows.
  lemma SsoKeptIff(mode: SsoMode, h: seq<Request>, u: OidcUser)
    ensures Run(mode, h).sso == Some(u) <==>
            exists j: nat :: HeldSince(SsoLog(mode, h), j) && SsoLog(mode, h)[j] == Put(u)
  {
    var vals := seq(|h| + 1, i requires 0 <= i <= |h| => Run(mode, h[..i]).sso);
    forall i | 0 <= i < |h| ensures vals[i + 1] == After(vals[i], SsoLog(mode, h)[i]) {
      SsoStepAt(mode, h, i);
    }
    HeldIff(vals, SsoLog(mode, h), u);
    assert h[..|h|] == h;
  }

  lemma SsoStepAt(mode: SsoMode, h: seq<Request>, i: nat)
    requires i < |h|
    ensures Run(mode, h[..i + 1]).sso == After(Run(mode, h[..i]).sso, SsoLog(mode, h)[i])
  {
    RunNext(mode, h, i);
    SsoStep(mode, Run(mode, h[..i]), h[i]);
  }

  // The users the steps of an onDemand run remembered.
  function RememberLog(h: seq<Request>): seq<Option<OidcUser>> {
    seq(|h|, i requires 0 <= i < |h| => Remembered(Run(OnDemand, h[..i]), h[i]))
  }

  // Step j remembered u, and no later step remembered anyone or destroyed the session.
  predicate RememberedSince(marks: seq<Option<OidcUser>>, h: seq<Request>, u: OidcUser, j: nat)
    requires |marks| == |h|
  {
    && j < |h| && marks[j] == Some(u)
    && forall k :: j < k < |h| ==> marks[k].None? && !DestroysSso(h[k])
  }

  function RememberEvent(mark: Option<OidcUser>, req: Request): Event<OidcUser> {
    if mark.Some? then Put(mark.value) else if DestroysSso(req) then Clear else Keep
  }

  lemma RememberedSinceIff(es: seq<Event<OidcUser>>, marks: seq<Option<OidcUser>>, h: seq<Request>, u: OidcUser)
    requires |es| == |marks| == |h| && forall i :: 0 <= i < |h| ==> es[i] == RememberEvent(marks[i], h[i])
    ensures forall j: nat :: HeldSince(es, j) && es[j] == Put(u) <==> RememberedSince(marks, h, u, j)
  {
  }

  // Mode onDemand: the SSO session holds u exactly when a POST with remember on
  // remembered exactly u, with no later remembering and no destroying logout.
  lemma OnDemandNeedsRemember(h: seq<Request>, u: OidcUser)
    ensures Run(OnDemand, h).sso == Some(u) <==> exists j: nat :: RememberedSince(RememberLog(h), h, u, j)
  {
    SsoKeptIff(OnDemand, h, u);
    RememberedSinceIff(SsoLog(OnDemand, h), RememberLog(h), h, u);
    if exists j: nat :: HeldSince(SsoLog(OnDemand, h), j) && SsoLog(OnDemand, h)[j] == Put(u) {
      var j: nat :| HeldSince(SsoLog(OnDemand, h), j) && SsoLog(OnDemand, h)[j] == Put(u);
      assert RememberedSince(RememberLog(h), h, u, j);
    }
  }

  // Neither a new authentication nor a logout that empties the SSO session.
  predicate LeavesSso(s: State, req: Request) {
    Authenticates(s, req).None? && !DestroysSso(req)
  }

  lemma {:induction false} SsoKept(s: State, later: seq<Request>)
    requires forall k :: 0 <= k < |later| ==> LeavesSso(RunFrom(Always, s, later[..k]), later[k])
    ensures RunFrom(Always, s, later).sso == s.sso
    decreases |later|
  {
    if later == [] {
    } else {
      var n := |later| - 1;
      assert forall k :: 0 <= k < n ==> later[..n][..k] == later[..k];
      SsoKept(s, later[..n]);
      SsoStep(Always, RunFrom(Always, s, later[..n]), later[n]);
    }
  }

  // Mode always: a user who authenticated at any point is the one the SSO session
  // keeps, and until the next authentication or logout every authorize query is
  // answered for them without a password.
  lemma AlwaysReusesLastUser(s: State, req: Request, later: seq<Request>, rawQuery: string, clientId: string)
    requires Authenticates(s, req).Some? && Authenticates(s, req).value.login != "" && rawQuery != ""
    requires var t := Handle(Always, s, req).0;
             forall k :: 0 <= k < |later| ==> LeavesSso(RunFrom(Always, t, later[..k]), later[k])
    ensures var u := Authenticates(s, req).value;
            Handle(Always, RunFrom(Always, Handle(Always, s, req).0, later), LoginGet(rawQuery, clientId, true)).1 ==
            Authorized(OidcUser(u.login, JsonMap(u.claims), ""))
  {
    SsoStep(Always, s, req);
    SsoKept(Handle(Always, s, req).0, later);
  }

  // ---------- the pending user ----------

  function PendingEvent(mode: SsoMode, s: State, req: Request): Event<OidcUser> {
    if mode == OnDemand && CallbackCompletes(s, req) then Put(Stored(CallbackUser(req.side)))
    else if Consumes(mode, s, req) || DestroysLogin(req) then Clear
    else Keep
  }

  lemma PendingStep(mode: SsoMode, s: State, req: Request)
    ensures Handle(mode, s, req).0.pending == After(s.pending, PendingEvent(mode, s, req))
  {
  }

  function PendingLog(mode: SsoMode, h: seq<Request>): seq<Event<OidcUser>> {
    seq(|h|, i requires 0 <= i < |h| => PendingEvent(mode, Run(mode, h[..i]), h[i]))
  }

  // A user waits for the welcome page exactly when the last callback that
  // completed was theirs and neither a welcome POST nor a logout came since.
  lemma PendingIff(mode: SsoMode, h: seq<Request>, u: OidcUser)
    ensures Run(mode, h).pending == Some(u) <==>
            exists j: nat :: HeldSince(PendingLog(mode, h), j) && PendingLog(mode, h)[j] == Put(u)
  {
    var vals := seq(|h| + 1, i requires 0 <= i <= |h| => Run(mode, h[..i]).pending);
    forall i | 0 <= i < |h| ensures vals[i + 1] == After(vals[i], PendingLog(mode, h)[i]) {
      PendingStepAt(mode, h, i);
    }
    HeldIff(vals, PendingLog(mode, h), u);
    assert h[..|h|] == h;
  }

  lemma PendingStepAt(mode: SsoMode, h: seq<Request>, i: nat)
    requires i < |h|
    ensures Run(mode, h[..i + 1]).pending == After(Run(mode, h[..i]).pending, PendingLog(mode, h)[i])
  {
    RunNext(mode, h, i);
    PendingStep(mode, Run(mode, h[..i]), h[i]);
  }

  lemma PendingLogPrefix(mode: SsoMode, h: seq<Request>, n: nat)
    requires n <= |h|
    ensures PendingLog(mode, h[..n]) == PendingLog(mode, h)[..n]
  {
    assert forall i :: 0 <= i < n ==> h[..n][..i] == h[..i];
  }

  lemma PendingPut(h: seq<Request>, j: nat, u: OidcUser)
    requires j < |h| && PendingLog(OnDemand, h)[j] == Put(u)
    ensures CallbackCompletes(Run(OnDemand, h[..j]), h[j]) && u == Stored(CallbackUser(h[j].side))
  {
  }

  // A pending user is used once: between two welcome POSTs that got through a
  // callback completed, and the second POST is for that callback's user.
  lemma PendingUsedOnce(h: seq<Request>, i: nat, k: nat)
    requires i < k < |h|
    requires Consumes(OnDemand, Run(OnDemand, h[..i]), h[i]) && Consumes(OnDemand, Run(OnDemand, h[..k]), h[k])
    ensures exists j: nat :: i < j < k && PendingLog(OnDemand, h)[j] == Put(Run(OnDemand, h[..k]).pending.value)
  {
    var u, es := Run(OnDemand, h[..k]).pending.value, PendingLog(OnDemand, h);
    PendingIff(OnDemand, h[..k], u);
    PendingLogPrefix(OnDemand, h, k);
    var j: nat :| HeldSince(es[..k], j) && es[..k][j] == Put(u);
    assert es[..k][i] == es[i] == Clear;
    ClearedBefore(es[..k], i, j);
    assert es[j] == Put(u);
  }

  // ---------- the user a callback builds ----------

  function IdClaims(t: IdToken): ClaimMap {
    match t
    case VerifiedIdToken(claims) => claims
    case _ => map[]
  }

  // The callback's claims come from the verified ID token and the user info, and
  // its user from those and the local answer, key by key.
  lemma CallbackOrigin(side: UpstreamSide, k: string)
    requires side.config.Some?
    ensures ClaimFrom(side.config.value, IdClaims(side.idToken),
                      if side.userInfo.Some? then side.userInfo.value else map[], CallbackClaims(side), k)
    ensures var user, up := CallbackUser(side), CallbackClaims(side);
            && user.login == StringClaim(up, "sub")
            && (if side.config.value.localEnrichment && side.local.Answered? && HttpProvider.Readable(side.local.user) then
                  var own := HttpProvider.EnrichedClaims(side.local);
                  && user.fullName == side.local.user.name
                  && (k in user.claims <==> k in up || k in own)
                  && (k in up && k !in own ==> user.claims[k] == up[k])
                  && (k !in up && k in own ==> user.claims[k] == Norm(own[k]))
                  && (k in up && k in own ==> user.claims[k] == MergeVal(up[k], Norm(own[k])))
                else
                  user.fullName == StringClaim(up, "name") && user.claims == up)
  {
    var cfg, ids := side.config.value, IdClaims(side.idToken);
    var info := if side.userInfo.Some? then side.userInfo.value else map[];
    assert CallbackClaims(side) == UpstreamClaims(cfg, ids, info);
    ClaimOrigin(cfg, ids, info, k);
    UserOrigin(cfg, ids, info, LocalUser(StringClaim(CallbackClaims(side), "sub"), side.local), k);
  }

  // ---------- what each request answers ----------

  predicate QueryStored(s: State) {
    StoredQuery(s.login).Some? && StoredQuery(s.login).value != ""
  }

  // A response for u: from the SSO session, to a granted login, to a callback, or
  // to a welcome POST for the pending user, each under its own conditions.
  lemma AnswerIff(mode: SsoMode, s: State, req: Request, u: OidcUser)
    ensures Handle(mode, s, req).1 == Authorized(u) <==>
            match req
            case LoginGet(query, _, ok) =>
              && s.sso.Some? && s.sso.value.login != "" && query != "" && ok
              && u == OidcUser(s.sso.value.login, s.sso.value.claims, "")
            case LoginPost(auth, _, ok) => auth == Granted(u) && QueryStored(s) && ok
            case Callback(_, _, _, side, ok, _) =>
              mode != OnDemand && CallbackPasses(s, req) && Identifies(side) && ok && u == CallbackUser(side)
            case WelcomePost(_, ok) => mode == OnDemand && s.pending == Some(u) && u.login != "" && QueryStored(s) && ok
            case _ => false
  {
  }

  // The login page, again after a refused login, and the welcome page.
  lemma PageIff(mode: SsoMode, s: State, req: Request)
    ensures Handle(mode, s, req).1 == Page <==>
            || (req.LoginGet? && !(s.sso.Some? && s.sso.value.login != "" && req.rawQuery != "" && req.authorizeOk))
            || (req.LoginPost? && QueryStored(s) && req.auth == Refused)
            || (req.WelcomeGet? && mode == OnDemand && s.pending.Some? && s.pending.value.login != "")
  {
  }

  lemma RedirectIff(mode: SsoMode, s: State, req: Request)
    ensures Handle(mode, s, req).1 == Redirected <==>
            || req.Logout?
            || (req.UpstreamGo? && req.name != "" && QueryStored(s) && req.target.CodeFlow? && req.random.Some?)
            || (req.Callback? && mode == OnDemand && CallbackPasses(s, req) && Identifies(req.side))
  {
  }

  // ---------- upstream logins and the local status ----------

  // A callback is answered exactly when it gets past the checks, yields a sub,
  // the lookup it needs works and the query is still good. In mode onDemand the
  // answer waits for the welcome page.
  lemma CallbackAnsweredIff(mode: SsoMode, s: State, req: Request)
    requires req.Callback?
    ensures Handle(mode, s, req).1.Authorized? <==>
            && mode != OnDemand && CallbackPasses(s, req) && req.authorizeOk
            && StringClaim(CallbackClaims(req.side), "sub") != ""
            && (req.side.config.value.localEnrichment ==>
                  req.side.local.Answered? && HttpProvider.Readable(req.side.local.user))
    ensures Handle(mode, s, req).1.Authorized? ==>
              Handle(mode, s, req).1.user.login == StringClaim(CallbackClaims(req.side), "sub")
  {
  }

  function WithLocalStatus(req: Request, status: Status): Request
    requires req.Callback? && req.side.local.Answered?
  {
    req.(side := req.side.(local := req.side.local.(status := status)))
  }

  // The status of the local lookup is discarded: whatever it is, the same
  // sessions and the same response follow, so a locally disabled user is
  // answered after an upstream login exactly when any other would be.
  lemma LocalStatusIgnored(mode: SsoMode, s: State, req: Request, status: Status)
    requires req.Callback? && req.side.local.Answered?
    ensures Handle(mode, s, WithLocalStatus(req, status)) == Handle(mode, s, req)
  {
    var other := WithLocalStatus(req, status);
    assert CallbackPasses(s, other) == CallbackPasses(s, req);
    if CallbackPasses(s, req) {
      SideWithoutStatus(req.side, status);
      assert CallbackCompletes(s, other) == CallbackCompletes(s, req);
      CommitReads(mode, s, req.side, other.side, req.authorizeOk);
    }
  }

  lemma SideWithoutStatus(side: UpstreamSide, status: Status)
    requires side.config.Some? && side.local.Answered?
    ensures var other := side.(local := side.local.(status := status));
            CallbackUser(other) == CallbackUser(side) && ErrorWritten(other) == ErrorWritten(side)
  {
    var other := side.(local := side.local.(status := status));
    var sub := StringClaim(CallbackClaims(side), "sub");
    assert CallbackClaims(other) == CallbackClaims(side);
    assert LocalUser(sub, other.local) == LocalUser(sub, side.local);
  }

  lemma CommitReads(mode: SsoMode, s: State, a: UpstreamSide, b: UpstreamSide, authorizeOk: bool)
    requires a.config.Some? && b.config.Some?
    requires CallbackUser(a) == CallbackUser(b) && ErrorWritten(a) == ErrorWritten(b)
    ensures Commit(mode, s, a, authorizeOk) == Commit(mode, s, b, authorizeOk)
  {
  }

  // ---------- when a logout really logs out ----------

  predicate Unauthenticated(mode: SsoMode, s: State, h: seq<Request>) {
    forall i :: 0 <= i < |h| ==> Authenticates(RunFrom(mode, s, h[..i]), h[i]).None?
  }

  // From s, no continuation without a new authentication gets a response.
  ghost predicate Silent(mode: SsoMode, s: State) {
    forall h, req ::
      Unauthenticated(mode, s, h) && Authenticates(RunFrom(mode, s, h), req).None? ==>
      !Handle(mode, RunFrom(mode, s, h), req).1.Authorized?
  }

  predicate Inert(mode: SsoMode, s: State) {
    !Usable(s.sso) && (mode == OnDemand ==> !Usable(s.pending))
  }

  lemma InertStep(mode: SsoMode, s: State, req: Request)
    requires Inert(mode, s) && Authenticates(s, req).None?
    ensures Inert(mode, Handle(mode, s, req).0) && !Handle(mode, s, req).1.Authorized?
  {
  }

  lemma {:induction false} InertLasts(mode: SsoMode, s: State, h: seq<Request>)
    requires Inert(mode, s) && Unauthenticated(mode, s, h)
    ensures Inert(mode, RunFrom(mode, s, h))
    decreases |h|
  {
    if h == [] {
    } else {
      var n := |h| - 1;
      assert forall i :: 0 <= i < n ==> h[..n][..i] == h[..i];
      InertLasts(mode, s, h[..n]);
      InertStep(mode, RunFrom(mode, s, h[..n]), h[n]);
    }
  }

  lemma SilentIffInert(mode: SsoMode, s: State)
    ensures Silent(mode, s) <==> Inert(mode, s)
  {
    if Inert(mode, s) {
      forall h, req | Unauthenticated(mode, s, h) && Authenticates(RunFrom(mode, s, h), req).None?
        ensures !Handle(mode, RunFrom(mode, s, h), req).1.Authorized?
      {
        InertLasts(mode, s, h);
        InertStep(mode, RunFrom(mode, s, h), req);
      }
    } else if Usable(s.sso) {
      var req := LoginGet("q", "", true);
      assert RunFrom(mode, s, []) == s;
      assert Handle(mode, RunFrom(mode, s, []), req).1.Authorized?;
    } else {
      var get, post := LoginGet("q", "", true), WelcomePost(false, true);
      assert [get][..0] == [];
      assert RunFrom(mode, s, [get]) == Handle(mode, s, get).0;
      assert Unauthenticated(mode, s, [get]);
      assert Handle(mode, RunFrom(mode, s, [get]), post).1.Authorized?;
    }
  }

  // The handler ignores a failed Destroy, so a logout silences the browser
  // exactly when each session was destroyed or had nothing usable in it.
  lemma LogoutEffectiveIff(mode: SsoMode, s: State, ssoDestroyed: bool, loginDestroyed: bool)
    ensures Silent(mode, Handle(mode, s, Logout(ssoDestroyed, loginDestroyed)).0) <==>
            (ssoDestroyed || !Usable(s.sso)) && (loginDestroyed || mode != OnDemand || !Usable(s.pending))
  {
    SilentIffInert(mode, Handle(mode, s, Logout(ssoDestroyed, loginDestroyed)).0);
  }
}
