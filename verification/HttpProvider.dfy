// The OIDC server's side of the identity exchange: from a provider's answer to
// the user tokens are issued for.

module HttpProvider {
  import opened StringLists
  import opened Claims
  import opened Identity
  import GroupBindings
  import Merger

  // The answer of the identity endpoint, or a failed exchange.
  datatype Answer = Failed | Answered(user: User, status: Status, authority: string)

  // ---------- specification ----------

  // The strings of a generic list; other elements are skipped.
  function StringsIn(vs: seq<Val>): seq<string>
    decreases |vs|
  {
    if vs == [] then []
    else StringsIn(vs[..|vs| - 1]) + if vs[|vs| - 1].Str? then [vs[|vs| - 1].s] else []
  }

  function StringArray(m: ClaimMap, key: string): Result<seq<string>> {
    if key !in m || m[key] == Other(Null) then Ok([])
    else match m[key]
      case Strs(ss) => Ok(ss)
      case List(vs) => Ok(StringsIn(vs))
      case Str(s) => Ok([s])
      case _ => Err
  }

  // Reading a generic list goes element by element: strings stay, in order.
  lemma {:induction false} StringsInConcat(a: seq<Val>, b: seq<Val>)
    ensures StringsIn(a + b) == StringsIn(a) + StringsIn(b)
    decreases |b|
  {
    if b == [] {
      assert a + b == a;
    } else {
      assert (a + b)[..|a + b| - 1] == a + b[..|b| - 1];
      StringsInConcat(a, b[..|b| - 1]);
    }
  }

  lemma StringsInOne(v: Val)
    ensures StringsIn([v]) == if v.Str? then [v.s] else []
  {
    assert [v][..0] == [];
  }

  lemma {:induction false} StringsInAll(vs: seq<Val>)
    requires AllStr(vs)
    ensures |StringsIn(vs)| == |vs| && forall i :: 0 <= i < |vs| ==> StringsIn(vs)[i] == vs[i].s
    decreases |vs|
  {
    if vs == [] {
    } else {
      StringsInAll(vs[..|vs| - 1]);
    }
  }

  // What a list claim reads as, whatever Go type it arrives with.
  lemma StringArrayIs(m: ClaimMap, key: string)
    ensures key !in m ==> StringArray(m, key) == Ok([])
    ensures key in m ==>
              && (Norm(m[key]).Strs? ==> StringArray(m, key) == Ok(Norm(m[key]).ss))
              && (forall s :: m[key] == Str(s) ==> StringArray(m, key) == Ok([s]))
              && (m[key] == Other(Null) ==> StringArray(m, key) == Ok([]))
              && (m[key].Map? || (m[key].Other? && m[key].scalar != Null) ==> StringArray(m, key).Err?)
  {
    if key in m && m[key].List? && AllStr(m[key].vs) {
      StringsInAll(m[key].vs);
      assert StringsIn(m[key].vs) == Norm(m[key]).ss;
    }
  }

  // ---------- the code ----------

  method GetStringArrayInMap(m: ClaimMap, key: string) returns (r: Result<seq<string>>)
    ensures r == StringArray(m, key)
  {
    if key in m && m[key] != Other(Null) {
      match m[key]
      case Strs(ss) => r := Ok(ss);
      case List(vs) =>
        var result: seq<string> := [];
        for i := 0 to |vs|
          invariant result == StringsIn(vs[..i])
        {
          assert vs[..i + 1][..i] == vs[..i];
          if vs[i].Str? {
            result := result + [vs[i].s];
          }
        }
        assert vs[..|vs|] == vs;
        r := Ok(result);
      case Str(s) => r := Ok([s]);
      case _ => r := Err;
    } else {
      r := Ok([]);
    }
  }

  function Put(claims: ClaimMap, present: bool, key: string, v: Val): ClaimMap {
    if present then claims[key := v] else claims
  }

  function NamedClaims(u: User): ClaimMap {
    Put(u.claims, u.name != "", "name", Str(u.name))
  }

  predicate Readable(u: User) {
    StringArray(u.claims, "groups").Ok? && StringArray(u.claims, "emails").Ok?
  }

  function AllGroups(u: User): seq<string>
    requires Readable(u)
  {
    SortStrings(Dedup(u.groups + StringArray(u.claims, "groups").value))
  }

  function AllEmails(u: User): seq<string>
    requires Readable(u)
  {
    AppendMissing(u.emails, StringArray(u.claims, "emails").value)
  }

  // The answer's claims with the user's name, groups and emails written in.
  function ProfileClaims(u: User): ClaimMap
    requires Readable(u)
  {
    var groups, emails := AllGroups(u), AllEmails(u);
    var c := Put(NamedClaims(u), groups != [], "groups", Strs(groups));
    if emails == [] then c else c["emails" := Strs(emails)]["email" := Str(emails[0])]
  }

  function EnrichedClaims(a: Answer): ClaimMap
    requires a.Answered? && Readable(a.user)
  {
    var c := Put(ProfileClaims(a.user), a.authority != "", "authority", Str(a.authority));
    if a.user.uid.Some? then c["uid" := Other(Number(a.user.uid.value as real))] else c
  }

  // The groups claim is the strictly sorted union of the groups the answer
  // lists and those its claims carry; it is left alone when both are empty.
  lemma GroupsClaim(a: Answer)
    requires a.Answered? && Readable(a.user)
    ensures StrictlySorted(AllGroups(a.user))
    ensures forall g :: g in AllGroups(a.user) <==>
              g in a.user.groups || g in StringArray(a.user.claims, "groups").value
    ensures AllGroups(a.user) != [] ==>
              "groups" in EnrichedClaims(a) && EnrichedClaims(a)["groups"] == Strs(AllGroups(a.user))
  {
    SortedDedup(a.user.groups + StringArray(a.user.claims, "groups").value);
    assert "groups" != "emails" && "groups" != "email" && "groups" != "authority" && "groups" != "uid";
  }

  // The emails claim lists the answer's emails first, in order, then new ones
  // from its claims; email is the first of them.
  lemma EmailsClaim(a: Answer)
    requires a.Answered? && Readable(a.user)
    ensures a.user.emails <= AllEmails(a.user)
    ensures forall e :: e in AllEmails(a.user) <==>
              e in a.user.emails || e in StringArray(a.user.claims, "emails").value
    ensures AllEmails(a.user) != [] ==>
              && "emails" in EnrichedClaims(a) && EnrichedClaims(a)["emails"] == Strs(AllEmails(a.user))
              && "email" in EnrichedClaims(a) && EnrichedClaims(a)["email"] == Str(AllEmails(a.user)[0])
  {
    AppendMissingMembers(a.user.emails, StringArray(a.user.claims, "emails").value);
    assert "emails" != "email" && "emails" != "authority" && "emails" != "uid";
    assert "email" != "authority" && "email" != "uid";
  }

  predicate Unchanged(a: ClaimMap, b: ClaimMap, k: string) {
    (k in a <==> k in b) && (k in a ==> a[k] == b[k])
  }

  // Name, authority and uid are written when the answer has them; every claim
  // that is not written stays as it was.
  lemma ProfileValues(a: Answer)
    requires a.Answered? && Readable(a.user)
    ensures var c := EnrichedClaims(a);
            && (if a.user.name != "" then "name" in c && c["name"] == Str(a.user.name) else Unchanged(c, a.user.claims, "name"))
            && (if a.authority != "" then "authority" in c && c["authority"] == Str(a.authority)
                else Unchanged(c, a.user.claims, "authority"))
            && (if a.user.uid.Some? then "uid" in c && c["uid"] == Other(Number(a.user.uid.value as real))
                else Unchanged(c, a.user.claims, "uid"))
            && (AllGroups(a.user) == [] ==> Unchanged(c, a.user.claims, "groups"))
            && (AllEmails(a.user) == [] ==> Unchanged(c, a.user.claims, "emails") && Unchanged(c, a.user.claims, "email"))
  {
    assert "name" != "groups" && "name" != "emails" && "name" != "email" && "name" != "authority" && "name" != "uid";
    assert "authority" != "groups" && "authority" != "emails" && "authority" != "email" && "authority" != "uid";
    assert "uid" != "groups" && "uid" != "emails" && "uid" != "email";
  }

  // Claims outside the reserved six pass through untouched.
  lemma OtherClaimsUntouched(a: Answer, k: string)
    requires a.Answered? && Readable(a.user)
    requires k !in {"groups", "emails", "email", "name", "authority", "uid"}
    ensures k in EnrichedClaims(a) <==> k in a.user.claims
    ensures k in a.user.claims ==> EnrichedClaims(a)[k] == a.user.claims[k]
  {
  }

  // Name and groups first, then emails, each read from the claims as they stand.
  method AddGroups(u: User) returns (r: Result<ClaimMap>)
    ensures r.Ok? <==> StringArray(u.claims, "groups").Ok?
    ensures r.Ok? ==>
              var groups := SortStrings(Dedup(u.groups + StringArray(u.claims, "groups").value));
              r.value == Put(NamedClaims(u), groups != [], "groups", Strs(groups))
  {
    var claims := u.claims;
    if u.name != "" {
      claims := claims["name" := Str(u.name)];
    }
    assert "groups" != "name";
    var groupsFromClaims := GetStringArrayInMap(claims, "groups");
    if groupsFromClaims.Err? {
      return Err;
    }
    var groups := DedupAndSort(u.groups + groupsFromClaims.value);
    if |groups| != 0 {
      claims := claims["groups" := Strs(groups)];
    }
    r := Ok(claims);
  }

  lemma EmailsUnaffected(u: User, groups: seq<string>)
    ensures StringArray(Put(NamedClaims(u), groups != [], "groups", Strs(groups)), "emails") ==
            StringArray(u.claims, "emails")
  {
    assert "emails" != "name" && "emails" != "groups";
  }

  method AddProfile(u: User) returns (r: Result<ClaimMap>)
    ensures r == if Readable(u) then Ok(ProfileClaims(u)) else Err
  {
    var withGroups := AddGroups(u);
    if withGroups.Err? {
      return Err;
    }
    var claims := withGroups.value;
    EmailsUnaffected(u, SortStrings(Dedup(u.groups + StringArray(u.claims, "groups").value)));
    var emailsFromClaims := GetStringArrayInMap(claims, "emails");
    if emailsFromClaims.Err? {
      return Err;
    }
    var emails := AppendIfNotPresent(u.emails, emailsFromClaims.value);
    if |emails| != 0 {
      claims := claims["emails" := Strs(emails)];
      claims := claims["email" := Str(emails[0])];
    }
    r := Ok(claims);
  }

  method Identify(login: string, a: Answer) returns (r: Result<(OidcUser, Status)>)
    ensures r.Ok? <==> a.Answered? && Readable(a.user)
    ensures r.Ok? ==> r.value == (OidcUser(login, EnrichedClaims(a), a.user.name), a.status)
  {
    if a.Failed? {
      return Err;
    }
    var profile := AddProfile(a.user);
    if profile.Err? {
      return Err;
    }
    var claims := profile.value;
    if a.authority != "" {
      claims := claims["authority" := Str(a.authority)];
    }
    if a.user.uid.Some? {
      claims := claims["uid" := Other(Number(a.user.uid.value as real))];
    }
    r := Ok((OidcUser(login, claims, a.user.name), a.status));
  }

  // A user comes back exactly when the exchange worked, the list claims are
  // readable and the password was checked; nobody else is let in.
  method Authenticate(login: string, a: Answer) returns (r: Result<Option<OidcUser>>)
    ensures r.Err? <==> a.Failed? || !Readable(a.user)
    ensures r.Ok? ==> (r.value.Some? <==> a.status == PasswordChecked)
    ensures r.Ok? && r.value.Some? ==>
              r.value.value == OidcUser(login, EnrichedClaims(a), a.user.name)
  {
    var got := Identify(login, a);
    if got.Err? {
      return Err;
    }
    if got.value.1 != PasswordChecked {
      return Ok(None);
    }
    r := Ok(Some(got.value.0));
  }

  // The merger's response as it arrives at the OIDC server.
  function Transported(r: Result<Merger.Response>): Answer {
    if r.Err? then Failed
    else Answered(r.value.user.(claims := JsonMap(r.value.user.claims)), r.value.status, r.value.authority)
  }

  ghost predicate Accepted(ps: seq<Merger.Provider>, replies: seq<Merger.Reply>)
    requires |ps| == |replies|
  {
    && (forall j :: 0 <= j < |ps| ==> !Merger.Aborts(ps[j], replies[j]))
    && (forall j :: 0 <= j < |ps| ==> !Vouches(ps[j], replies[j], Disabled))
    && (exists i :: 0 <= i < |ps| && Vouches(ps[i], replies[i], PasswordChecked) &&
          forall j :: 0 <= j < i ==> !Vouches(ps[j], replies[j], PasswordFail))
  }

  predicate Vouches(p: Merger.Provider, reply: Merger.Reply, s: Status) {
    p.spec.credentialAuthority && reply.Replied? && reply.status == s
  }

  // ---------- a login, read off the providers' replies ----------

  predicate Listable(v: Val) {
    v.Strs? || v.List? || v.Str? || v == Other(Null)
  }

  // The provider's claim k arrives under this key.
  predicate Offers(p: Merger.Provider, reply: Merger.Reply, k: string, key: string) {
    p.spec.claimAuthority && reply.Replied? && k in reply.user.claims && Merger.Format(p.claimPattern, k) == key
  }

  ghost predicate OffersKey(p: Merger.Provider, reply: Merger.Reply, key: string) {
    exists k :: Offers(p, reply, k, key)
  }

  // Provider i is the first claim authority with this key, and gives something
  // that cannot be read as a list of strings.
  ghost predicate SpoiledBy(ps: seq<Merger.Provider>, replies: seq<Merger.Reply>, key: string, i: nat, k: string)
    requires |ps| == |replies|
  {
    && i < |ps| && Offers(ps[i], replies[i], k, key) && !Listable(replies[i].user.claims[k])
    && forall j :: 0 <= j < i ==> !OffersKey(ps[j], replies[j], key)
  }

  ghost predicate Spoiled(ps: seq<Merger.Provider>, replies: seq<Merger.Reply>, key: string)
    requires |ps| == |replies|
  {
    exists i: nat, k :: SpoiledBy(ps, replies, key, i, k)
  }

  lemma DefinesIff(p: Merger.Provider, login: string, reply: Merger.Reply, key: string)
    ensures Merger.Defines(Merger.DetailOf(p, login, reply), key) <==> OffersKey(p, reply, key)
    ensures forall k :: Offers(p, reply, k, key) ==>
              Merger.DetailOf(p, login, reply).translated.claims[key] == reply.user.claims[k]
  {
    if Merger.Defines(Merger.DetailOf(p, login, reply), key) {
      var k :| k in reply.user.claims && Merger.Format(p.claimPattern, k) == key;
      assert Offers(p, reply, k, key);
    }
  }

  lemma ReadableIff(m: ClaimMap, key: string)
    ensures StringArray(JsonMap(m), key).Ok? <==> key !in m || Listable(m[key])
  {
  }

  // The merged list claim is unreadable exactly when its first definer's is.
  lemma UnreadableIff(ps: seq<Merger.Provider>, login: string, replies: seq<Merger.Reply>, key: string)
    requires |ps| == |replies|
    ensures var claims := Merger.Merged(login, Merger.Details(ps, login, replies)).user.claims;
            StringArray(JsonMap(claims), key).Err? <==> Spoiled(ps, replies, key)
  {
    var ds := Merger.Details(ps, login, replies);
    var claims := Merger.Merged(login, ds).user.claims;
    var i := Merger.FirstDefinerOf(ds, key);
    Merger.FirstDefinerFixesKind(login, ds, key, i);
    ReadableIff(claims, key);
    forall j | 0 <= j < |ps| ensures Merger.Defines(ds[j], key) <==> OffersKey(ps[j], replies[j], key) {
      DefinesIff(ps[j], login, replies[j], key);
    }
    if i < |ps| {
      DefinesIff(ps[i], login, replies[i], key);
      var k :| Offers(ps[i], replies[i], k, key);
      KindFixesListable(claims[key], replies[i].user.claims[k]);
      assert !Listable(claims[key]) ==> SpoiledBy(ps, replies, key, i, k);
    }
    if j: nat, k :| SpoiledBy(ps, replies, key, j, k) {
      assert OffersKey(ps[j], replies[j], key);
      assert i == j;
      KindFixesListable(claims[key], replies[i].user.claims[k]);
    }
  }

  lemma KindFixesListable(w: Val, v: Val)
    requires SameKind(w, v) && Keeps(w, v)
    ensures Listable(w) <==> Listable(v)
  {
  }

  // A login through merger and OIDC server fails exactly when a critical provider
  // fails or the first claim authority with a groups or emails claim gives one
  // that is no list of strings; otherwise it succeeds only on the word of the
  // first credential authority that checked or refused the password.
  method Login(ps: seq<Merger.Provider>, login: string, replies: seq<Merger.Reply>)
      returns (r: Result<Option<OidcUser>>)
    requires |ps| == |replies|
    ensures r.Err? <==>
              Merger.SomeAbort(ps, replies) || Spoiled(ps, replies, "groups") || Spoiled(ps, replies, "emails")
    ensures r.Ok? ==> (r.value.Some? <==> Accepted(ps, replies))
    ensures r.Ok? && r.value.Some? ==>
              var m := Merger.Merged(login, Merger.Details(ps, login, replies));
              var a := Answered(m.user.(claims := JsonMap(m.user.claims)), PasswordChecked, m.authority);
              Readable(a.user) && r.value.value == OidcUser(login, EnrichedClaims(a), m.user.name)
  {
    var merged := Merger.Authenticate(ps, login, replies);
    r := Authenticate(login, Transported(merged));
    if merged.Ok? {
      CheckedByProviders(ps, login, replies);
      UnreadableIff(ps, login, replies, "groups");
      UnreadableIff(ps, login, replies, "emails");
    }
  }

  lemma SaysIff(p: Merger.Provider, login: string, reply: Merger.Reply, s: Status)
    requires s != Undefined
    ensures Merger.Says(Merger.DetailOf(p, login, reply), s) <==> Vouches(p, reply, s)
  {
  }

  lemma CheckedByProviders(ps: seq<Merger.Provider>, login: string, replies: seq<Merger.Reply>)
    requires |ps| == |replies| && !Merger.SomeAbort(ps, replies)
    ensures Merger.Authenticated(ps, login, replies).value.status == PasswordChecked <==> Accepted(ps, replies)
  {
    var ds := Merger.Details(ps, login, replies);
    Merger.PasswordCheckedIff(login, ds);
    forall j, s | 0 <= j < |ps| && s != Undefined
      ensures Merger.Says(ds[j], s) <==> Vouches(ps[j], replies[j], s)
    {
      SaysIff(ps[j], login, replies[j], s);
    }
    if Accepted(ps, replies) {
      var i :| 0 <= i < |ps| && Vouches(ps[i], replies[i], PasswordChecked) &&
               forall j :: 0 <= j < i ==> !Vouches(ps[j], replies[j], PasswordFail);
      assert Merger.Says(ds[i], PasswordChecked);
    }
  }

  // ---------- with the Kubernetes-backed provider behind the merger ----------

  // A provider's outcome as it arrives at the merger.
  function Sent(o: GroupBindings.Outcome): Merger.Reply {
    match o
    case Answer(user, status) => Merger.Replied(user.(claims := JsonMap(user.claims)), status)
    case Failed(_) => Merger.Failed
  }

  // A disabled entry behind a credential authority keeps the user out, whatever
  // the other providers say.
  lemma DisabledEntryDenies(ps: seq<Merger.Provider>, replies: seq<Merger.Reply>, i: nat,
                            login: string, password: string, c: GroupBindings.Cluster)
    requires i < |ps| == |replies| && ps[i].spec.credentialAuthority
    requires replies[i] == Sent(GroupBindings.Identified(login, password, c))
    requires GroupBindings.Reachable(c) && c.user.UserFound? && c.user.spec.disabled
    ensures !Accepted(ps, replies)
  {
    GroupBindings.StatusIff(login, password, c);
    assert GroupBindings.Answers(login, password, c, Disabled);
    assert Vouches(ps[i], replies[i], Disabled);
  }

  // With that provider alone, a user gets in exactly when the cluster has an
  // enabled entry whose stored hash matches the given password.
  lemma ClusterLoginIff(p: Merger.Provider, login: string, password: string, c: GroupBindings.Cluster)
    requires p.spec.credentialAuthority
    ensures Accepted([p], [Sent(GroupBindings.Identified(login, password, c))]) <==>
            && GroupBindings.Reachable(c) && c.user.UserFound? && !c.user.spec.disabled
            && c.user.spec.passwordHash != "" && password != "" && c.passwordMatches
  {
    GroupBindings.CheckedIff(login, password, c);
    var reply := Sent(GroupBindings.Identified(login, password, c));
    assert Accepted([p], [reply]) <==> Vouches(p, reply, PasswordChecked) by {
      if Vouches(p, reply, PasswordChecked) {
        assert Vouches([p][0], [reply][0], PasswordChecked);
      }
    }
  }
}
