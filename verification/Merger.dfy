// The identity merger: one provider's translated answer (cmd/merger/provider)
// and the fold over the provider list (cmd/merger/authenticator).

module Merger {
  import opened StringLists
  import opened Claims
  import opened Identity
  import opened Layers
  import opened Word64

  // ---------- a provider's answer ----------

  datatype ProviderSpec = ProviderSpec(name: string, credentialAuthority: bool, groupAuthority: bool,
                                       claimAuthority: bool, emailAuthority: bool, nameAuthority: bool)

  // A pattern with one %s: what stands before and after the name.
  datatype Pattern = Pattern(prefix: string, suffix: string)

  datatype Provider = Provider(spec: ProviderSpec, critical: bool, groupPattern: Pattern,
                               claimPattern: Pattern, uidOffset: int)

  // Outcome of the HTTP exchange with the provider.
  datatype Reply = Failed | Replied(user: User, status: Status)

  datatype Translated = Translated(uid: Option<int>, groups: seq<string>, claims: ClaimMap)

  datatype Detail = Detail(user: User, status: Status, spec: ProviderSpec, translated: Translated)

  function Format(p: Pattern, name: string): string {
    p.prefix + name + p.suffix
  }

  // The name stands between the pattern's two halves.
  lemma FormatSurrounds(p: Pattern, name: string)
    ensures var s := Format(p, name);
            && |s| == |p.prefix| + |name| + |p.suffix| && p.prefix <= s
            && s[|p.prefix|..|p.prefix| + |name|] == name && s[|p.prefix| + |name|..] == p.suffix
  {
  }

  lemma FormatInjective(p: Pattern, a: string, b: string)
    requires Format(p, a) == Format(p, b)
    ensures a == b
  {
    assert a == Format(p, a)[|p.prefix|..|Format(p, a)| - |p.suffix|];
    assert b == Format(p, b)[|p.prefix|..|Format(p, b)| - |p.suffix|];
  }

  // claims with every top-level key rewritten by the pattern.
  ghost predicate Translates(p: Pattern, claims: ClaimMap, out: ClaimMap) {
    && (forall k :: k in claims ==> Format(p, k) in out && out[Format(p, k)] == claims[k])
    && (forall k' :: k' in out ==> exists k :: k in claims && Format(p, k) == k')
  }

  lemma TranslatesUnique(p: Pattern, claims: ClaimMap, a: ClaimMap, b: ClaimMap)
    requires Translates(p, claims, a) && Translates(p, claims, b)
    ensures a == b
  {
    assert a.Keys == b.Keys;
  }

  function TranslateClaims(p: Pattern, claims: ClaimMap): (out: ClaimMap)
    ensures Translates(p, claims, out)
  {
    var keys := set k | k in claims :: Format(p, k);
    assert forall k :: k in claims ==> Format(p, k)[|p.prefix|..|Format(p, k)| - |p.suffix|] == k;
    map k' | k' in keys :: claims[k'[|p.prefix|..|k'| - |p.suffix|]]
  }

  function Placeholder(p: Provider, login: string): Detail {
    Detail(InitUser(login), Undefined, p.spec, Translated(None, [], map[]))
  }

  function DetailOf(p: Provider, login: string, reply: Reply): Detail {
    match reply
    case Failed => Placeholder(p, login)
    case Replied(user, status) =>
      Detail(user, status, p.spec,
             Translated(if user.uid.Some? then Some(Wrap64(user.uid.value + p.uidOffset)) else None,
                        seq(|user.groups|, i requires 0 <= i < |user.groups| => Format(p.groupPattern, user.groups[i])),
                        TranslateClaims(p.claimPattern, user.claims)))
  }

  predicate Aborts(p: Provider, reply: Reply) {
    p.critical && reply.Failed?
  }

  method GetUserDetail(p: Provider, login: string, reply: Reply) returns (r: Result<Detail>)
    ensures r == if Aborts(p, reply) then Err else Ok(DetailOf(p, login, reply))
  {
    if reply.Failed? {
      if p.critical {
        return Err;
      }
      return Ok(Placeholder(p, login));
    }
    var groups: seq<string> := [];
    for i := 0 to |reply.user.groups|
      invariant |groups| == i
      invariant forall j :: 0 <= j < i ==> groups[j] == Format(p.groupPattern, reply.user.groups[j])
    {
      groups := groups + [Format(p.groupPattern, reply.user.groups[i])];
    }
    assert groups == DetailOf(p, login, reply).translated.groups;
    var claims := TranslateLoop(p.claimPattern, reply.user.claims);
    var uid: Option<int> := None;
    if reply.user.uid.Some? {
      uid := Some(Wrap64(reply.user.uid.value + p.uidOffset));
    }
    r := Ok(Detail(reply.user, reply.status, p.spec, Translated(uid, groups, claims)));
  }

  lemma TranslatesMore(p: Pattern, part: ClaimMap, out: ClaimMap, claim: string, v: Val)
    requires Translates(p, part, out) && claim !in part
    ensures Translates(p, part[claim := v], out[Format(p, claim) := v])
  {
    var part', out' := part[claim := v], out[Format(p, claim) := v];
    forall k | k in part ensures out'[Format(p, k)] == part[k] {
      if Format(p, k) == Format(p, claim) { FormatInjective(p, k, claim); }
    }
    forall k' | k' in out' ensures exists k :: k in part' && Format(p, k) == k' {
      if k' == Format(p, claim) {
        assert claim in part';
      } else {
        var k :| k in part && Format(p, k) == k';
        assert k in part';
      }
    }
  }

  method TranslateLoop(p: Pattern, claims: ClaimMap) returns (out: ClaimMap)
    ensures out == TranslateClaims(p, claims)
  {
    out := map[];
    var todo := claims.Keys;
    ghost var part: ClaimMap := map[];
    while todo != {}
      invariant todo <= claims.Keys
      invariant part == map k | k in claims.Keys - todo :: claims[k]
      invariant Translates(p, part, out)
      decreases |todo|
    {
      var claim :| claim in todo;
      TranslatesMore(p, part, out, claim, claims[claim]);
      out := out[Format(p, claim) := claims[claim]];
      part := part[claim := claims[claim]];
      todo := todo - {claim};
    }
    assert part == claims;
    TranslatesUnique(p, claims, out, TranslateClaims(p, claims));
  }

  // ---------- the fold ----------

  datatype Response = Response(user: User, status: Status, details: seq<Detail>, authority: string)

  function Priority(s: Status): int {
    match s
    case UserNotFound => 1
    case PasswordMissing => 2
    case PasswordUnchecked => 3
    case PasswordChecked => 4
    case PasswordFail => 4
    case Disabled => 5
    case _ => 0
  }

  function Start(login: string): Response {
    Response(InitUser(login), UserNotFound, [], "")
  }

  function Step(r: Response, d: Detail): Response {
    var raised := d.spec.credentialAuthority && Priority(d.status) > Priority(r.status);
    var decided := raised && Priority(d.status) > Priority(PasswordMissing);
    Response(
      User(r.user.login,
           if decided then d.translated.uid else r.user.uid,
           if d.spec.nameAuthority && r.user.name == "" then d.user.name else r.user.name,
           if d.spec.emailAuthority then AppendMissing(r.user.emails, d.user.emails) else r.user.emails,
           if d.spec.groupAuthority then r.user.groups + d.translated.groups else r.user.groups,
           if d.spec.claimAuthority then Merge(d.translated.claims, r.user.claims) else r.user.claims),
      if raised then d.status else r.status,
      r.details + [d],
      if decided then d.spec.name else r.authority)
  }

  function Fold(r: Response, ds: seq<Detail>): Response
    decreases |ds|
  {
    if ds == [] then r else Step(Fold(r, ds[..|ds| - 1]), ds[|ds| - 1])
  }

  function Finish(r: Response): Response {
    r.(user := r.user.(groups := SortStrings(Dedup(r.user.groups))))
  }

  function Merged(login: string, ds: seq<Detail>): Response {
    Finish(Fold(Start(login), ds))
  }

  function Details(ps: seq<Provider>, login: string, replies: seq<Reply>): seq<Detail>
    requires |ps| == |replies|
  {
    seq(|ps|, i requires 0 <= i < |ps| => DetailOf(ps[i], login, replies[i]))
  }

  predicate SomeAbort(ps: seq<Provider>, replies: seq<Reply>)
    requires |ps| == |replies|
  {
    exists i :: 0 <= i < |ps| && Aborts(ps[i], replies[i])
  }

  function Authenticated(ps: seq<Provider>, login: string, replies: seq<Reply>): Result<Response>
    requires |ps| == |replies|
  {
    if SomeAbort(ps, replies) then Err else Ok(Merged(login, Details(ps, login, replies)))
  }

  // The merger fails exactly when a provider marked critical fails.
  lemma AbortsIff(ps: seq<Provider>, login: string, replies: seq<Reply>)
    requires |ps| == |replies|
    ensures Authenticated(ps, login, replies).Err? <==> exists i :: 0 <= i < |ps| && ps[i].critical && replies[i].Failed?
  {
    if i :| 0 <= i < |ps| && ps[i].critical && replies[i].Failed? {
      assert Aborts(ps[i], replies[i]);
    }
  }

  // The loop body: fold one provider's detail into the response.
  method TakeDetail(response: Response, d: Detail) returns (r: Response)
    ensures r == Step(response, d)
  {
    r := response;
    if d.spec.credentialAuthority {
      if Priority(d.status) > Priority(r.status) {
        r := r.(status := d.status);
        if Priority(d.status) > Priority(PasswordMissing) {
          r := r.(user := r.user.(uid := d.translated.uid), authority := d.spec.name);
        }
      }
    }
    if d.spec.groupAuthority {
      r := r.(user := r.user.(groups := r.user.groups + d.translated.groups));
    }
    if d.spec.emailAuthority {
      var emails := AppendIfNotPresent(r.user.emails, d.user.emails);
      r := r.(user := r.user.(emails := emails));
    }
    if d.spec.nameAuthority && r.user.name == "" {
      r := r.(user := r.user.(name := d.user.name));
    }
    if d.spec.claimAuthority {
      var claims := MergeMaps(d.translated.claims, r.user.claims);
      r := r.(user := r.user.(claims := claims));
    }
    r := r.(details := r.details + [d]);
  }

  lemma FoldOneMore(ps: seq<Provider>, login: string, replies: seq<Reply>, i: nat)
    requires i < |ps| == |replies|
    ensures Fold(Start(login), Details(ps[..i + 1], login, replies[..i + 1])) ==
            Step(Fold(Start(login), Details(ps[..i], login, replies[..i])), DetailOf(ps[i], login, replies[i]))
  {
    assert Details(ps[..i + 1], login, replies[..i + 1])[..i] == Details(ps[..i], login, replies[..i]);
  }

  // replies[i] is what the exchange with provider i gives when it is reached.
  method Authenticate(ps: seq<Provider>, login: string, replies: seq<Reply>) returns (r: Result<Response>)
    requires |ps| == |replies|
    ensures r == Authenticated(ps, login, replies)
  {
    var response := Start(login);
    for i := 0 to |ps|
      invariant forall j :: 0 <= j < i ==> !Aborts(ps[j], replies[j])
      invariant response == Fold(Start(login), Details(ps[..i], login, replies[..i]))
    {
      var got := GetUserDetail(ps[i], login, replies[i]);
      if got.Err? {
        return Err;
      }
      FoldOneMore(ps, login, replies, i);
      response := TakeDetail(response, got.value);
    }
    assert ps[..|ps|] == ps && replies[..|replies|] == replies;
    var groups := DedupAndSort(response.user.groups);
    r := Ok(response.(user := response.user.(groups := groups)));
  }

  lemma {:induction false} FoldConcat(r: Response, ds: seq<Detail>, es: seq<Detail>)
    ensures Fold(r, ds + es) == Fold(Fold(r, ds), es)
    decreases |es|
  {
    if es == [] {
      assert ds + es == ds;
    } else {
      assert (ds + es)[..|ds + es| - 1] == ds + es[..|es| - 1];
      FoldConcat(r, ds, es[..|es| - 1]);
    }
  }

  // ---------- a failing non-critical provider is invisible ----------

  predicate SameButDetails(a: Response, b: Response) {
    a.user == b.user && a.status == b.status && a.authority == b.authority
  }

  lemma {:induction false} FoldIgnoresDetails(a: Response, b: Response, ds: seq<Detail>)
    requires SameButDetails(a, b)
    ensures SameButDetails(Fold(a, ds), Fold(b, ds))
    decreases |ds|
  {
    if ds == [] {
    } else {
      FoldIgnoresDetails(a, b, ds[..|ds| - 1]);
    }
  }

  lemma StepOfPlaceholder(r: Response, p: Provider, login: string)
    requires Priority(r.status) >= 1
    ensures SameButDetails(Step(r, Placeholder(p, login)), r)
  {
    MergeIdentity(r.user.claims);
    assert r.user.groups + [] == r.user.groups;
  }

  lemma {:induction false} FoldStatusFloor(login: string, ds: seq<Detail>)
    ensures Priority(Fold(Start(login), ds).status) >= 1
    decreases |ds|
  {
    if ds == [] {
    } else {
      FoldStatusFloor(login, ds[..|ds| - 1]);
    }
  }

  lemma MergedWithoutPlaceholder(login: string, ds: seq<Detail>, i: nat, p: Provider)
    requires i < |ds| && ds[i] == Placeholder(p, login)
    ensures SameButDetails(Merged(login, ds), Merged(login, Without(ds, i)))
  {
    var s := Start(login);
    var before, rest := Fold(s, ds[..i]), ds[i + 1..];
    assert ds == ds[..i] + [ds[i]] + rest;
    FoldConcat(s, ds[..i] + [ds[i]], rest);
    FoldConcat(s, ds[..i], rest);
    assert (ds[..i] + [ds[i]])[..i] == ds[..i];
    FoldStatusFloor(login, ds[..i]);
    StepOfPlaceholder(before, p, login);
    FoldIgnoresDetails(Step(before, ds[i]), before, rest);
  }

  lemma DetailsWithout(ps: seq<Provider>, login: string, replies: seq<Reply>, i: nat)
    requires i < |ps| == |replies|
    ensures Details(Without(ps, i), login, Without(replies, i)) == Without(Details(ps, login, replies), i)
    ensures !Aborts(ps[i], replies[i]) ==>
              (SomeAbort(ps, replies) <==> SomeAbort(Without(ps, i), Without(replies, i)))
  {
    var qs, ss := Without(ps, i), Without(replies, i);
    if SomeAbort(ps, replies) && !Aborts(ps[i], replies[i]) {
      var j :| 0 <= j < |ps| && Aborts(ps[j], replies[j]);
      var j' := if j < i then j else j - 1;
      assert Aborts(qs[j'], ss[j']);
    }
    if SomeAbort(qs, ss) {
      var j :| 0 <= j < |qs| && Aborts(qs[j], ss[j]);
      var j' := if j < i then j else j + 1;
      assert Aborts(ps[j'], replies[j']);
    }
  }

  lemma FailingProviderInvisible(ps: seq<Provider>, login: string, replies: seq<Reply>, i: nat)
    requires i < |ps| == |replies|
    requires !ps[i].critical && replies[i].Failed?
    ensures var all := Authenticated(ps, login, replies);
            var rest := Authenticated(Without(ps, i), login, Without(replies, i));
            && (all.Ok? <==> rest.Ok?)
            && (all.Ok? ==> SameButDetails(all.value, rest.value) && |all.value.details| == |ps| &&
                            rest.value.details == Without(all.value.details, i))
  {
    var ds := Details(ps, login, replies);
    DetailsWithout(ps, login, replies, i);
    MergedWithoutPlaceholder(login, ds, i, ps[i]);
    MergedDetails(login, ds);
    MergedDetails(login, Without(ds, i));
  }

  lemma MergedDetails(login: string, ds: seq<Detail>)
    ensures Merged(login, ds).details == ds
  {
    FoldDetails(Start(login), ds);
  }

  lemma {:induction false} FoldDetails(r: Response, ds: seq<Detail>)
    ensures Fold(r, ds).details == r.details + ds
    decreases |ds|
  {
    if ds == [] {
    } else {
      FoldDetails(r, ds[..|ds| - 1]);
      assert ds == ds[..|ds| - 1] + [ds[|ds| - 1]];
    }
  }

  // ---------- one winner decides credentials ----------

  predicate Rated(d: Detail, rank: int) {
    d.spec.credentialAuthority && Priority(d.status) >= rank
  }

  // The first credential-authority provider with the highest status above userNotFound.
  predicate IsWinner(ds: seq<Detail>, w: nat) {
    && w < |ds|
    && Rated(ds[w], 2)
    && (forall j :: 0 <= j < |ds| ==> !Rated(ds[j], Priority(ds[w].status) + 1))
    && (forall j :: 0 <= j < w ==> !Rated(ds[j], Priority(ds[w].status)))
  }

  ghost function Winner(ds: seq<Detail>): (w: Option<nat>)
    ensures w.Some? ==> IsWinner(ds, w.value)
    ensures w.None? ==> forall j :: 0 <= j < |ds| ==> !Rated(ds[j], 2)
    decreases |ds|
  {
    if ds == [] then None
    else
      var n := |ds| - 1;
      var before := Winner(ds[..n]);
      if before.None? then
        if Rated(ds[n], 2) then Some(n) else None
      else if Rated(ds[n], Priority(ds[before.value].status) + 1) then Some(n)
      else before
  }

  // The response carries the verdict of the provider w, or none.
  predicate Follows(r: Response, ds: seq<Detail>, w: Option<nat>)
    requires w.Some? ==> w.value < |ds|
  {
    if w.None? then r.status == UserNotFound && r.user.uid == None && r.authority == ""
    else
      var d := ds[w.value];
      && r.status == d.status
      && (if Priority(d.status) > Priority(PasswordMissing)
          then r.user.uid == d.translated.uid && r.authority == d.spec.name
          else r.user.uid == None && r.authority == "")
  }

  lemma FollowsStep(r: Response, ds: seq<Detail>, w: Option<nat>)
    requires ds != [] && (w.Some? ==> IsWinner(ds[..|ds| - 1], w.value)) && Follows(r, ds[..|ds| - 1], w)
    ensures var n := |ds| - 1;
            Follows(Step(r, ds[n]), ds,
                    if Rated(ds[n], if w.None? then 2 else Priority(ds[w.value].status) + 1) then Some(n) else w)
  {
  }

  lemma {:induction false} FoldFollowsWinner(login: string, ds: seq<Detail>)
    ensures Follows(Fold(Start(login), ds), ds, Winner(ds))
    decreases |ds|
  {
    if ds == [] {
    } else {
      var n := |ds| - 1;
      FoldFollowsWinner(login, ds[..n]);
      FollowsStep(Fold(Start(login), ds[..n]), ds, Winner(ds[..n]));
    }
  }

  lemma OneWinnerDecides(login: string, ds: seq<Detail>, w: nat)
    requires IsWinner(ds, w)
    ensures Merged(login, ds).status == ds[w].status
    ensures Priority(ds[w].status) > Priority(PasswordMissing) ==>
              Merged(login, ds).user.uid == ds[w].translated.uid && Merged(login, ds).authority == ds[w].spec.name
    ensures Priority(ds[w].status) <= Priority(PasswordMissing) ==>
              Merged(login, ds).user.uid == None && Merged(login, ds).authority == ""
  {
    FoldFollowsWinner(login, ds);
    var v := Winner(ds);
    assert Rated(ds[w], 2);
    WinnerUnique(ds, w, v.value);
  }

  lemma WinnerUnique(ds: seq<Detail>, v: nat, w: nat)
    requires IsWinner(ds, v) && IsWinner(ds, w)
    ensures v == w
  {
    assert !Rated(ds[v], Priority(ds[w].status) + 1) && !Rated(ds[w], Priority(ds[v].status) + 1);
    assert Rated(ds[v], Priority(ds[w].status)) && Rated(ds[w], Priority(ds[v].status));
  }

  lemma NoWinner(login: string, ds: seq<Detail>)
    requires forall j :: 0 <= j < |ds| ==> !Rated(ds[j], 2)
    ensures Merged(login, ds).status == UserNotFound
    ensures Merged(login, ds).user.uid == None && Merged(login, ds).authority == ""
  {
    FoldFollowsWinner(login, ds);
  }

  predicate Says(d: Detail, s: Status) {
    d.spec.credentialAuthority && d.status == s
  }

  // The password counts as checked exactly when some authority checked it, no
  // authority disabled the user, and none before it refused the password.
  lemma PasswordCheckedIff(login: string, ds: seq<Detail>)
    ensures Merged(login, ds).status == PasswordChecked <==>
            && (forall j :: 0 <= j < |ds| ==> !Says(ds[j], Disabled))
            && (exists i :: 0 <= i < |ds| && Says(ds[i], PasswordChecked) &&
                  forall j :: 0 <= j < i ==> !Says(ds[j], PasswordFail))
  {
    FoldFollowsWinner(login, ds);
    var w := Winner(ds);
    if Merged(login, ds).status == PasswordChecked {
      var i := w.value;
      assert forall j :: 0 <= j < |ds| ==> !Rated(ds[j], 5);
      assert forall j :: 0 <= j < i ==> !Rated(ds[j], 4);
      assert Says(ds[i], PasswordChecked);
    } else if forall j :: 0 <= j < |ds| ==> !Says(ds[j], Disabled) {
      forall i | 0 <= i < |ds| && Says(ds[i], PasswordChecked)
        ensures exists j :: 0 <= j < i && Says(ds[j], PasswordFail)
      {
        assert Rated(ds[i], 2) && Rated(ds[i], 4);
        assert w.Some?;
        assert Rated(ds[w.value], 2);
        assert !Rated(ds[i], Priority(ds[w.value].status) + 1);
        assert Says(ds[w.value], PasswordFail);
        assert Rated(ds[i], Priority(ds[w.value].status));
      }
    }
  }

  lemma DisabledWins(login: string, ds: seq<Detail>, i: nat)
    requires i < |ds| && Says(ds[i], Disabled)
    ensures Merged(login, ds).status == Disabled
  {
    FoldFollowsWinner(login, ds);
    assert Rated(ds[i], 2) && Rated(ds[i], 5);
    var w := Winner(ds);
    assert !Rated(ds[i], Priority(ds[w.value].status) + 1);
  }

  ghost predicate Someone(ds: seq<Detail>, s: Status) {
    exists j :: 0 <= j < |ds| && Says(ds[j], s)
  }

  // The winner ranks at least as high as anyone, and comes first among equals.
  lemma WinnerBeats(ds: seq<Detail>, j: nat, s: Status)
    requires j < |ds| && Says(ds[j], s) && Priority(s) >= 2
    ensures Winner(ds).Some? && Priority(ds[Winner(ds).value].status) >= Priority(s)
    ensures Priority(ds[Winner(ds).value].status) == Priority(s) ==> Winner(ds).value <= j
  {
    assert Rated(ds[j], 2) && Rated(ds[j], Priority(s));
    var w := Winner(ds).value;
    assert !Rated(ds[j], Priority(ds[w].status) + 1);
  }

  lemma BeatenBy(ds: seq<Detail>, s: Status)
    requires Priority(s) >= 2 && Someone(ds, s)
    ensures Winner(ds).Some? && Priority(ds[Winner(ds).value].status) >= Priority(s)
  {
    var j :| 0 <= j < |ds| && Says(ds[j], s);
    WinnerBeats(ds, j, s);
  }

  lemma WinnerSays(ds: seq<Detail>)
    requires Winner(ds).Some?
    ensures Someone(ds, ds[Winner(ds).value].status) && Priority(ds[Winner(ds).value].status) >= 2
  {
    assert Rated(ds[Winner(ds).value], 2);
    assert Says(ds[Winner(ds).value], ds[Winner(ds).value].status);
  }

  // Every merged status, read off what the credential authorities said.
  lemma MergedStatusIff(login: string, ds: seq<Detail>)
    ensures var status := Merged(login, ds).status;
            var verdict := Someone(ds, PasswordChecked) || Someone(ds, PasswordFail);
            && (status == Disabled <==> Someone(ds, Disabled))
            && (status == PasswordChecked || status == PasswordFail <==> !Someone(ds, Disabled) && verdict)
            && (status == PasswordUnchecked <==>
                  !Someone(ds, Disabled) && !verdict && Someone(ds, PasswordUnchecked))
            && (status == PasswordMissing <==>
                  !Someone(ds, Disabled) && !verdict && !Someone(ds, PasswordUnchecked) && Someone(ds, PasswordMissing))
            && (status == UserNotFound <==>
                  !Someone(ds, Disabled) && !verdict && !Someone(ds, PasswordUnchecked) && !Someone(ds, PasswordMissing))
  {
    FoldFollowsWinner(login, ds);
    if Someone(ds, Disabled) { BeatenBy(ds, Disabled); }
    if Someone(ds, PasswordChecked) { BeatenBy(ds, PasswordChecked); }
    if Someone(ds, PasswordFail) { BeatenBy(ds, PasswordFail); }
    if Someone(ds, PasswordUnchecked) { BeatenBy(ds, PasswordUnchecked); }
    if Someone(ds, PasswordMissing) { BeatenBy(ds, PasswordMissing); }
    if Winner(ds).Some? { WinnerSays(ds); }
  }

  // uid and authority are those of the first credential authority that said the
  // merged status, and unset when nobody got as far as knowing the user's password.
  lemma DecidedBy(login: string, ds: seq<Detail>, i: nat)
    requires i < |ds| && Says(ds[i], Merged(login, ds).status)
    requires forall j :: 0 <= j < i ==> !Says(ds[j], Merged(login, ds).status)
    ensures Merged(login, ds).status in {PasswordUnchecked, PasswordChecked, PasswordFail, Disabled} ==>
              Merged(login, ds).user.uid == ds[i].translated.uid && Merged(login, ds).authority == ds[i].spec.name
    ensures Merged(login, ds).status in {PasswordMissing, UserNotFound} ==>
              Merged(login, ds).user.uid == None && Merged(login, ds).authority == ""
  {
    FoldFollowsWinner(login, ds);
    var s := Merged(login, ds).status;
    if Priority(s) >= 2 {
      WinnerBeats(ds, i, s);
      assert Rated(ds[Winner(ds).value], 2);
      assert Says(ds[Winner(ds).value], s);
    }
  }

  // The same on the providers' replies, with the uid shifted by the provider's offset.
  lemma UidFromReplies(ps: seq<Provider>, login: string, replies: seq<Reply>, i: nat)
    requires i < |ps| == |replies| && replies[i].Replied? && replies[i].user.uid.Some?
    requires var ds := Details(ps, login, replies);
             && Says(ds[i], Merged(login, ds).status)
             && forall j :: 0 <= j < i ==> !Says(ds[j], Merged(login, ds).status)
    ensures var r := Merged(login, Details(ps, login, replies));
            r.status in {PasswordUnchecked, PasswordChecked, PasswordFail, Disabled} ==>
              r.user.uid.Some? && Wraps(r.user.uid.value, replies[i].user.uid.value + ps[i].uidOffset)
  {
    DecidedBy(login, Details(ps, login, replies), i);
    Wrap64Exact(replies[i].user.uid.value + ps[i].uidOffset);
  }

  // ---------- groups, emails, name ----------

  predicate GivesGroup(d: Detail, g: string) {
    d.spec.groupAuthority && g in d.translated.groups
  }

  lemma {:induction false} FoldGroups(login: string, ds: seq<Detail>, g: string)
    ensures g in Fold(Start(login), ds).user.groups <==> exists i :: 0 <= i < |ds| && GivesGroup(ds[i], g)
    decreases |ds|
  {
    if ds == [] {
    } else {
      var n := |ds| - 1;
      FoldGroups(login, ds[..n], g);
      assert g in Fold(Start(login), ds).user.groups <==>
        g in Fold(Start(login), ds[..n]).user.groups || GivesGroup(ds[n], g);
      if i :| 0 <= i < n && GivesGroup(ds[..n][i], g) {
        assert GivesGroup(ds[i], g);
      }
      if i :| 0 <= i < n && GivesGroup(ds[i], g) {
        assert GivesGroup(ds[..n][i], g);
      }
    }
  }

  lemma MergedGroups(login: string, ds: seq<Detail>)
    ensures StrictlySorted(Merged(login, ds).user.groups)
    ensures forall g :: g in Merged(login, ds).user.groups <==>
              exists i :: 0 <= i < |ds| && GivesGroup(ds[i], g)
  {
    SortedDedup(Fold(Start(login), ds).user.groups);
    forall g ensures g in Merged(login, ds).user.groups <==>
        exists i :: 0 <= i < |ds| && GivesGroup(ds[i], g)
    {
      FoldGroups(login, ds, g);
    }
  }

  // The merged groups are exactly the replies' groups inside their providers' patterns.
  lemma GroupsFromReplies(ps: seq<Provider>, login: string, replies: seq<Reply>, g: string)
    requires |ps| == |replies|
    ensures g in Merged(login, Details(ps, login, replies)).user.groups <==>
            exists i: nat, j: nat :: GroupFrom(ps, replies, g, i, j)
  {
    var ds := Details(ps, login, replies);
    MergedGroups(login, ds);
    if i :| 0 <= i < |ds| && GivesGroup(ds[i], g) {
      var j :| 0 <= j < |ds[i].translated.groups| && ds[i].translated.groups[j] == g;
      assert GroupFrom(ps, replies, g, i, j);
    }
    if i: nat, j: nat :| GroupFrom(ps, replies, g, i, j) {
      assert ds[i].translated.groups[j] == g;
      assert GivesGroup(ds[i], g);
    }
  }

  predicate GroupFrom(ps: seq<Provider>, replies: seq<Reply>, g: string, i: nat, j: nat)
    requires |ps| == |replies|
  {
    && i < |ps| && ps[i].spec.groupAuthority && replies[i].Replied? && j < |replies[i].user.groups|
    && g == ps[i].groupPattern.prefix + replies[i].user.groups[j] + ps[i].groupPattern.suffix
  }

  lemma GroupsOrderIndependent(login: string, ds: seq<Detail>, es: seq<Detail>)
    requires multiset(ds) == multiset(es)
    ensures Merged(login, ds).user.groups == Merged(login, es).user.groups
  {
    MergedGroups(login, ds);
    MergedGroups(login, es);
    SameMembers(ds, es);
    var a, b := Merged(login, ds).user.groups, Merged(login, es).user.groups;
    forall g ensures g in a <==> g in b {
      if g in a {
        var i :| 0 <= i < |ds| && GivesGroup(ds[i], g);
        assert ds[i] in es;
      }
      if g in b {
        var i :| 0 <= i < |es| && GivesGroup(es[i], g);
        assert es[i] in ds;
      }
    }
    StrictlySortedUnique(a, b);
  }

  lemma SameMembers(ds: seq<Detail>, es: seq<Detail>)
    requires multiset(ds) == multiset(es)
    ensures forall d :: d in ds <==> d in es
  {
    forall d ensures d in ds <==> d in es {
      assert d in ds <==> d in multiset(ds);
      assert d in es <==> d in multiset(es);
    }
  }

  // Permuting the providers keeps the priority of the status.
  lemma RankOrderIndependent(login: string, ds: seq<Detail>, es: seq<Detail>)
    requires multiset(ds) == multiset(es)
    ensures Priority(Merged(login, ds).status) == Priority(Merged(login, es).status)
  {
    RankAtMost(login, ds, es);
    RankAtMost(login, es, ds);
  }

  lemma RankAtMost(login: string, ds: seq<Detail>, es: seq<Detail>)
    requires multiset(ds) == multiset(es)
    ensures Priority(Merged(login, ds).status) <= Priority(Merged(login, es).status)
  {
    FoldFollowsWinner(login, ds);
    FoldFollowsWinner(login, es);
    FoldStatusFloor(login, es);
    SameMembers(ds, es);
    var v, w := Winner(ds), Winner(es);
    if v.Some? {
      assert ds[v.value] in es;
      var j :| 0 <= j < |es| && es[j] == ds[v.value];
      assert Rated(es[j], 2) && Rated(es[j], Priority(ds[v.value].status));
      assert w.Some? && !Rated(es[j], Priority(es[w.value].status) + 1);
    }
  }

  function EmailsOf(ds: seq<Detail>): seq<string>
    decreases |ds|
  {
    if ds == [] then []
    else EmailsOf(ds[..|ds| - 1]) + if ds[|ds| - 1].spec.emailAuthority then ds[|ds| - 1].user.emails else []
  }

  lemma {:induction false} MergedEmails(login: string, ds: seq<Detail>)
    ensures Merged(login, ds).user.emails == Dedup(EmailsOf(ds))
    decreases |ds|
  {
    if ds == [] {
    } else {
      var n := |ds| - 1;
      MergedEmails(login, ds[..n]);
      var last := if ds[n].spec.emailAuthority then ds[n].user.emails else [];
      AppendMissingConcat([], EmailsOf(ds[..n]), last);
    }
  }

  predicate Names(d: Detail) {
    d.spec.nameAuthority && d.user.name != ""
  }

  // The first name authority with a name gives the name.
  lemma {:induction false} MergedName(login: string, ds: seq<Detail>, i: nat)
    requires i <= |ds| && (forall j :: 0 <= j < i ==> !Names(ds[j])) && (i < |ds| ==> Names(ds[i]))
    ensures Merged(login, ds).user.name == if i < |ds| then ds[i].user.name else ""
    decreases |ds|
  {
    if ds == [] {
    } else {
      var n := |ds| - 1;
      MergedName(login, ds[..n], if i < n then i else n);
      assert Fold(Start(login), ds) == Step(Fold(Start(login), ds[..n]), ds[n]);
    }
  }

  // ---------- claims ----------

  lemma {:induction false} FoldOnlyAddsClaims(r: Response, es: seq<Detail>)
    ensures Keeps(Map(Fold(r, es).user.claims), Map(r.user.claims))
    decreases |es|
  {
    if es == [] {
      KeepsReflexive(Map(r.user.claims));
    } else {
      var n := |es| - 1;
      var before := Fold(r, es[..n]);
      FoldOnlyAddsClaims(r, es[..n]);
      if es[n].spec.claimAuthority {
        MergeKeepsSecond(Map(es[n].translated.claims), Map(before.user.claims));
        KeepsTransitive(Map(Fold(r, es).user.claims), Map(before.user.claims), Map(r.user.claims));
      }
    }
  }

  // Providers further down the list keep every claim already there.
  lemma LaterProvidersOnlyAddClaims(login: string, ds: seq<Detail>, es: seq<Detail>)
    ensures Keeps(Map(Merged(login, ds + es).user.claims), Map(Merged(login, ds).user.claims))
  {
    FoldConcat(Start(login), ds, es);
    FoldOnlyAddsClaims(Fold(Start(login), ds), es);
  }

  predicate Defines(d: Detail, k: string) {
    d.spec.claimAuthority && k in d.translated.claims
  }

  // No claim authority among the first i providers, and the i-th one does.
  predicate FirstDefiner(ds: seq<Detail>, k: string, i: nat) {
    && i <= |ds|
    && (forall j :: 0 <= j < i ==> !Defines(ds[j], k))
    && (i < |ds| ==> Defines(ds[i], k))
  }

  function FirstDefinerOf(ds: seq<Detail>, k: string): (i: nat)
    ensures FirstDefiner(ds, k, i)
    decreases |ds|
  {
    if ds == [] then 0
    else
      var i := FirstDefinerOf(ds[..|ds| - 1], k);
      if i == |ds| - 1 && !Defines(ds[i], k) then |ds| else i
  }

  // A top-level claim exists exactly when some claim authority defines it, and
  // it has the kind, and keeps the content, that the first of them gave it.
  lemma {:induction false} FirstDefinerFixesKind(login: string, ds: seq<Detail>, k: string, i: nat)
    requires FirstDefiner(ds, k, i)
    ensures k in Merged(login, ds).user.claims <==> i < |ds|
    ensures i < |ds| ==>
              SameKind(Merged(login, ds).user.claims[k], ds[i].translated.claims[k]) &&
              Keeps(Merged(login, ds).user.claims[k], ds[i].translated.claims[k])
    decreases |ds|
  {
    if ds == [] {
    } else {
      var n := |ds| - 1;
      FirstDefinerFixesKind(login, ds[..n], k, if i < n then i else n);
      var before := Fold(Start(login), ds[..n]).user.claims;
      var after := Fold(Start(login), ds).user.claims;
      assert after == Step(Fold(Start(login), ds[..n]), ds[n]).user.claims;
      if i == n {
        KeepsReflexive(ds[n].translated.claims[k]);
      } else if i < n && Defines(ds[n], k) {
        MergeKeepsSecond(ds[n].translated.claims[k], before[k]);
        KeepsTransitive(after[k], before[k], ds[i].translated.claims[k]);
      }
    }
  }

  // ---------- exact content of the merged claims ----------

  // The claim authorities' maps, the first provider's on top.
  function ClaimLayers(ds: seq<Detail>): (vs: seq<Val>)
    ensures vs != []
    decreases |ds|
  {
    if ds == [] then [Map(map[])]
    else
      var d := ds[|ds| - 1];
      (if d.spec.claimAuthority then [Map(d.translated.claims)] else []) + ClaimLayers(ds[..|ds| - 1])
  }

  lemma {:induction false} MergedIsStack(login: string, ds: seq<Detail>)
    ensures Map(Merged(login, ds).user.claims) == Nested(RightFirst, ClaimLayers(ds))
    decreases |ds|
  {
    if ds == [] {
    } else {
      var n := |ds| - 1;
      MergedIsStack(login, ds[..n]);
      var below := ClaimLayers(ds[..n]);
      assert Fold(Start(login), ds) == Step(Fold(Start(login), ds[..n]), ds[n]);
      if ds[n].spec.claimAuthority {
        assert ClaimLayers(ds)[1..] == below;
      } else {
        assert ClaimLayers(ds) == below;
      }
    }
  }

  // At every path, the merged claims are what the claim authorities' values there
  // add up to: the first provider that reaches the path fixes the kind, maps
  // unite their keys, string lists are joined from the last provider to the first.
  lemma MergedClaimAt(login: string, ds: seq<Detail>, path: seq<string>)
    ensures Shows(At(Map(Merged(login, ds).user.claims), path), Seen(RightFirst, ClaimLayers(ds), path))
  {
    MergedIsStack(login, ds);
    StackShows(RightFirst, ClaimLayers(ds), path);
  }

  // Replies decoded from JSON carry no typed lists, so lists are not joined: the
  // first provider that reaches a path with anything but a map decides alone.
  lemma MergedDecodedAt(login: string, ds: seq<Detail>, path: seq<string>)
    requires forall i :: 0 <= i < |ds| ==> NoTypedList(Map(ds[i].translated.claims))
    ensures var seen := Seen(RightFirst, ClaimLayers(ds), path);
            seen != [] && !Top(seen).Map? ==> At(Map(Merged(login, ds).user.claims), path) == Some(Top(seen))
  {
    MergedIsStack(login, ds);
    LayersDecoded(ds);
    DecodedStackShows(RightFirst, ClaimLayers(ds), path);
  }

  lemma {:induction false} LayersDecoded(ds: seq<Detail>)
    requires forall i :: 0 <= i < |ds| ==> NoTypedList(Map(ds[i].translated.claims))
    ensures forall i :: 0 <= i < |ClaimLayers(ds)| ==> NoTypedList(ClaimLayers(ds)[i])
    decreases |ds|
  {
    if ds == [] {
    } else {
      LayersDecoded(ds[..|ds| - 1]);
    }
  }

  // Two claim authorities with a typed list each: joined, the later one first.
  // Decoded from JSON, the earlier list stands alone.
  lemma TwoLists(login: string, a: Detail, b: Detail)
    requires a.spec.claimAuthority && b.spec.claimAuthority
    ensures a.translated.claims == map["roles" := Strs(["a"])] && b.translated.claims == map["roles" := Strs(["b"])] ==>
              At(Map(Merged(login, [a, b]).user.claims), ["roles"]) == Some(Strs(["b", "a"]))
    ensures a.translated.claims == map["roles" := List([Str("a")])] && b.translated.claims == map["roles" := List([Str("b")])] ==>
              At(Map(Merged(login, [a, b]).user.claims), ["roles"]) == Some(List([Str("a")]))
  {
    TwoDetails(login, a, b);
    assert Dedup(["b"] + ["a"]) == ["b", "a"] by {
      AppendMissingConcat([], ["b"], ["a"]);
      assert ["b"][..0] == [] && ["a"][..0] == [];
    }
    assert ["roles"][1..] == [];
    var claims := Merge(b.translated.claims, a.translated.claims);
    assert "roles" in claims ==> At(Map(claims), ["roles"]) == Some(claims["roles"]);
  }

  lemma TwoDetails(login: string, a: Detail, b: Detail)
    requires a.spec.claimAuthority && b.spec.claimAuthority
    ensures Merged(login, [a, b]).user.claims == Merge(b.translated.claims, a.translated.claims)
  {
    assert [a, b][..1] == [a] && [a][..0] == [];
    assert Fold(Start(login), []) == Start(login);
    assert Fold(Start(login), [a]) == Step(Start(login), a);
    assert Fold(Start(login), [a, b]) == Step(Fold(Start(login), [a]), b);
    MergeIdentity(a.translated.claims);
  }

  lemma {:induction false} MergedLogin(login: string, ds: seq<Detail>)
    ensures Merged(login, ds).user.login == login
    decreases |ds|
  {
    if ds == [] {
    } else {
      MergedLogin(login, ds[..|ds| - 1]);
    }
  }
}
