// The identity provider backed by Kubernetes resources (cmd/ucrd): group
// bindings, claims hosted in groups, and the user's own entry.

module GroupBindings {
  import opened StringLists
  import opened Claims
  import opened Identity
  import opened Layers

  datatype Binding = Binding(name: string, group: string)

  // A raw JSON claims field: not set, not a JSON object, or decoded.
  datatype ClaimsField = Absent | Malformed | Decoded(m: ClaimMap)

  datatype GroupLookup = GroupError | NoGroup | GroupFound(claims: ClaimsField)

  datatype UserSpec = UserSpec(uid: Option<int>, name: string, emails: seq<string>, claims: ClaimsField,
                               disabled: bool, passwordHash: string)

  datatype UserLookup = UserError | NoUser | UserFound(spec: UserSpec)

  // What the API server answers during one request; passwordMatches is bcrypt's verdict.
  datatype Cluster = Cluster(bindings: Result<seq<Binding>>, groups: map<string, GroupLookup>,
                             user: UserLookup, passwordMatches: bool)

  datatype Failure = ListFailed | GroupFailed(group: string) | UserFailed

  datatype Outcome = Answer(user: User, status: Status) | Failed(failure: Failure)

  datatype Folded = Folded(claims: ClaimMap) | Broke(group: string)

  // ---------- specification ----------

  // A malformed field yields no claims at all, not even those merged before it:
  // the decoding error is overwritten and the nil map kept.
  function MergeField(a: ClaimMap, f: ClaimsField): ClaimMap {
    match f
    case Absent => a
    case Malformed => map[]
    case Decoded(m) => Merge(a, m)
  }

  function Lookup(groups: map<string, GroupLookup>, g: string): GroupLookup {
    if g in groups then groups[g] else NoGroup
  }

  function FoldGroups(groups: map<string, GroupLookup>, acc: ClaimMap, names: seq<string>): Folded
    decreases |names|
  {
    if names == [] then Folded(acc)
    else match Lookup(groups, names[0])
      case GroupError => Broke(names[0])
      case NoGroup => FoldGroups(groups, acc, names[1..])
      case GroupFound(f) => FoldGroups(groups, MergeField(acc, f), names[1..])
  }

  function GroupsOf(bs: seq<Binding>): seq<string> {
    seq(|bs|, i requires 0 <= i < |bs| => bs[i].group)
  }

  function StatusOf(spec: UserSpec, password: string, matches: bool): Status {
    if spec.disabled then Disabled
    else if spec.passwordHash == "" then PasswordMissing
    else if password == "" then PasswordUnchecked
    else if matches then PasswordChecked
    else PasswordFail
  }

  function Identified(login: string, password: string, c: Cluster): Outcome {
    if c.bindings.Err? then Failed(ListFailed) else
    var names := SortStrings(GroupsOf(c.bindings.value));
    match FoldGroups(c.groups, map[], names)
    case Broke(g) => Failed(GroupFailed(g))
    case Folded(claims) =>
      match c.user
      case UserError => Failed(UserFailed)
      case NoUser => Answer(InitUser(login).(groups := names, claims := claims), UserNotFound)
      case UserFound(spec) =>
        Answer(User(login, spec.uid, spec.name, spec.emails, names, MergeField(claims, spec.claims)),
               StatusOf(spec, password, c.passwordMatches))
  }

  // ---------- the code ----------

  function InsertBinding(x: Binding, s: seq<Binding>): seq<Binding>
    decreases |s|
  {
    if s == [] || !Less(s[0].group, x.group) then [x] + s
    else [s[0]] + InsertBinding(x, s[1..])
  }

  function SortBindings(s: seq<Binding>): seq<Binding>
    decreases |s|
  {
    if s == [] then [] else InsertBinding(s[0], SortBindings(s[1..]))
  }

  lemma {:induction false} InsertBindingGroups(x: Binding, s: seq<Binding>)
    ensures GroupsOf(InsertBinding(x, s)) == Insert(x.group, GroupsOf(s))
    decreases |s|
  {
    if s == [] || !Less(s[0].group, x.group) {
      assert GroupsOf([x] + s) == [x.group] + GroupsOf(s);
    } else {
      InsertBindingGroups(x, s[1..]);
      assert GroupsOf(s)[1..] == GroupsOf(s[1..]);
      assert GroupsOf([s[0]] + InsertBinding(x, s[1..])) == [s[0].group] + GroupsOf(InsertBinding(x, s[1..]));
    }
  }

  lemma {:induction false} InsertBindingContents(x: Binding, s: seq<Binding>)
    ensures multiset(InsertBinding(x, s)) == multiset([x] + s)
    decreases |s|
  {
    if s == [] {
    } else {
      InsertBindingContents(x, s[1..]);
      assert s == [s[0]] + s[1..];
    }
  }

  lemma {:induction false} SortBindingsGroups(s: seq<Binding>)
    ensures GroupsOf(SortBindings(s)) == SortStrings(GroupsOf(s))
    ensures multiset(SortBindings(s)) == multiset(s)
    decreases |s|
  {
    if s == [] {
    } else {
      SortBindingsGroups(s[1..]);
      InsertBindingGroups(s[0], SortBindings(s[1..]));
      InsertBindingContents(s[0], SortBindings(s[1..]));
      assert s == [s[0]] + s[1..];
      assert GroupsOf(s)[1..] == GroupsOf(s[1..]);
    }
  }

  // sort.Slice promises only a permutation sorted by group; ties come in any order.
  method SortByGroup(items: seq<Binding>) returns (r: seq<Binding>)
    ensures multiset(r) == multiset(items) && Sorted(GroupsOf(r))
  {
    r := SortBindings(items);
    SortBindingsGroups(items);
    SortStringsCorrect(GroupsOf(items));
  }

  lemma TakeOut(b: seq<Binding>, i: nat)
    requires i < |b|
    ensures multiset(Without(b, i)) == multiset(b) - multiset{b[i]}
    ensures multiset(GroupsOf(b)) == multiset(GroupsOf(Without(b, i))) + multiset{b[i].group}
  {
    assert b == b[..i] + [b[i]] + b[i + 1..];
    assert GroupsOf(b) == GroupsOf(b[..i]) + [b[i].group] + GroupsOf(b[i + 1..]);
    assert GroupsOf(Without(b, i)) == GroupsOf(b[..i]) + GroupsOf(b[i + 1..]);
  }

  lemma {:induction false} SameGroups(a: seq<Binding>, b: seq<Binding>)
    requires multiset(a) == multiset(b)
    ensures multiset(GroupsOf(a)) == multiset(GroupsOf(b))
    decreases |a|
  {
    if a == [] {
      assert |multiset(b)| == 0;
    } else {
      assert a[0] in multiset(b);
      var i :| 0 <= i < |b| && b[i] == a[0];
      TakeOut(a, 0);
      TakeOut(b, i);
      SameGroups(Without(a, 0), Without(b, i));
    }
  }

  lemma SortedGroups(items: seq<Binding>, r: seq<Binding>)
    requires multiset(r) == multiset(items) && Sorted(GroupsOf(r))
    ensures GroupsOf(r) == SortStrings(GroupsOf(items))
  {
    SameGroups(r, items);
    SortStringsCorrect(GroupsOf(items));
    SortedUnique(GroupsOf(r), SortStrings(GroupsOf(items)));
  }

  method MergeGroups(groups: map<string, GroupLookup>, bs: seq<Binding>)
      returns (names: seq<string>, folded: Folded)
    ensures folded == FoldGroups(groups, map[], GroupsOf(bs))
    ensures folded.Folded? ==> names == GroupsOf(bs)
  {
    names := [];
    var claims: ClaimMap := map[];
    for i := 0 to |bs|
      invariant names == GroupsOf(bs[..i])
      invariant FoldGroups(groups, claims, GroupsOf(bs[i..])) == FoldGroups(groups, map[], GroupsOf(bs))
    {
      names := names + [bs[i].group];
      assert GroupsOf(bs[i..])[1..] == GroupsOf(bs[i + 1..]);
      match Lookup(groups, bs[i].group) {
        case GroupError => return names, Broke(bs[i].group);
        case NoGroup =>
        case GroupFound(f) =>
          claims := MergeClaims(claims, f);
      }
    }
    folded := Folded(claims);
    assert bs[..|bs|] == bs;
  }

  method MergeClaims(a: ClaimMap, f: ClaimsField) returns (r: ClaimMap)
    ensures r == MergeField(a, f)
  {
    match f
    case Absent => r := a;
    case Malformed => r := map[];
    case Decoded(m) => r := MergeMaps(a, m);
  }

  method Authenticate(login: string, password: string, c: Cluster) returns (r: Outcome)
    ensures r == Identified(login, password, c)
  {
    if c.bindings.Err? {
      return Failed(ListFailed);
    }
    var sorted := SortByGroup(c.bindings.value);
    SortedGroups(c.bindings.value, sorted);
    var names, folded := MergeGroups(c.groups, sorted);
    if folded.Broke? {
      return Failed(GroupFailed(folded.group));
    }
    var user := InitUser(login).(groups := names, claims := folded.claims);
    match c.user
    case UserError => r := Failed(UserFailed);
    case NoUser => r := Answer(user, UserNotFound);
    case UserFound(spec) =>
      if spec.uid.Some? {
        user := user.(uid := spec.uid);
      }
      user := user.(name := spec.name);
      if |spec.emails| > 0 {
        user := user.(emails := spec.emails);
      }
      var claims := MergeClaims(user.claims, spec.claims);
      user := user.(claims := claims);
      if spec.disabled {
        return Answer(user, Disabled);
      }
      var status := PasswordFail;
      if spec.passwordHash == "" {
        status := PasswordMissing;
      } else if password == "" {
        status := PasswordUnchecked;
      } else if c.passwordMatches {
        status := PasswordChecked;
      }
      r := Answer(user, status);
  }

  // ---------- what the answer does and does not depend on ----------

  lemma SortedNamesAgree(a: seq<Binding>, b: seq<Binding>)
    requires multiset(a) == multiset(b)
    ensures SortStrings(GroupsOf(a)) == SortStrings(GroupsOf(b))
  {
    SameGroups(a, b);
    SortStringsCorrect(GroupsOf(a));
    SortStringsCorrect(GroupsOf(b));
    SortedUnique(SortStrings(GroupsOf(a)), SortStrings(GroupsOf(b)));
  }

  // The order in which the API server lists the bindings is irrelevant, for the
  // answer and for which failure is reported.
  lemma BindingOrderIrrelevant(login: string, password: string, c: Cluster, bs: seq<Binding>)
    requires c.bindings.Ok? && multiset(c.bindings.value) == multiset(bs)
    ensures Identified(login, password, c) == Identified(login, password, c.(bindings := Ok(bs)))
  {
    SortedNamesAgree(c.bindings.value, bs);
  }

  lemma {:induction false} FoldGroupsConcat(groups: map<string, GroupLookup>, acc: ClaimMap,
                                            xs: seq<string>, ys: seq<string>)
    ensures FoldGroups(groups, acc, xs + ys) ==
            (var f := FoldGroups(groups, acc, xs); if f.Broke? then f else FoldGroups(groups, f.claims, ys))
    decreases |xs|
  {
    if xs == [] {
      assert xs + ys == ys;
    } else {
      assert (xs + ys)[1..] == xs[1..] + ys;
      var l := Lookup(groups, xs[0]);
      FoldGroupsConcat(groups, if l.GroupFound? then MergeField(acc, l.claims) else acc, xs[1..], ys);
    }
  }

  // A group with malformed claims silently discards everything merged before it.
  lemma MalformedGroupResets(groups: map<string, GroupLookup>, acc: ClaimMap, xs: seq<string>, g: string, ys: seq<string>)
    requires Lookup(groups, g) == GroupFound(Malformed)
    requires FoldGroups(groups, acc, xs).Folded?
    ensures FoldGroups(groups, acc, xs + [g] + ys) == FoldGroups(groups, map[], ys)
  {
    assert xs + [g] + ys == xs + ([g] + ys);
    FoldGroupsConcat(groups, acc, xs, [g] + ys);
    assert ([g] + ys)[1..] == ys;
  }

  // ---------- which claims survive ----------

  predicate Spoiled(groups: map<string, GroupLookup>, g: string) {
    Lookup(groups, g) == GroupFound(Malformed)
  }

  predicate Carries(groups: map<string, GroupLookup>, g: string, k: string) {
    var l := Lookup(groups, g);
    l.GroupFound? && l.claims.Decoded? && k in l.claims.m
  }

  // No group from position i on is malformed.
  predicate CleanFrom(groups: map<string, GroupLookup>, names: seq<string>, i: nat) {
    forall j :: i <= j < |names| ==> !Spoiled(groups, names[j])
  }

  predicate CarriedAt(groups: map<string, GroupLookup>, names: seq<string>, i: nat, k: string) {
    i < |names| && Carries(groups, names[i], k) && CleanFrom(groups, names, i + 1)
  }

  ghost predicate Carried(groups: map<string, GroupLookup>, names: seq<string>, k: string) {
    exists i: nat :: CarriedAt(groups, names, i, k)
  }

  // A claim key is in the fold's result exactly when something defined it and no
  // malformed group came later.
  lemma {:induction false} FoldKeyIff(groups: map<string, GroupLookup>, acc: ClaimMap, names: seq<string>, k: string)
    requires FoldGroups(groups, acc, names).Folded?
    ensures k in FoldGroups(groups, acc, names).claims <==>
            || (k in acc && CleanFrom(groups, names, 0))
            || Carried(groups, names, k)
    decreases |names|
  {
    if names == [] {
    } else {
      var l, rest := Lookup(groups, names[0]), names[1..];
      FoldKeyIff(groups, if l.GroupFound? then MergeField(acc, l.claims) else acc, rest, k);
      CarriedTail(groups, names, k);
      CleanTail(groups, names);
      assert CleanFrom(groups, names, 0) <==> !Spoiled(groups, names[0]) && CleanFrom(groups, names, 1);
    }
  }

  lemma CarriedTail(groups: map<string, GroupLookup>, names: seq<string>, k: string)
    requires names != []
    ensures Carried(groups, names, k) <==>
            || CarriedAt(groups, names, 0, k)
            || Carried(groups, names[1..], k)
  {
    CleanTail(groups, names);
    if i: nat :| i > 0 && CarriedAt(groups, names, i, k) {
      assert CarriedAt(groups, names[1..], i - 1, k);
    }
    if i: nat :| CarriedAt(groups, names[1..], i, k) {
      assert CarriedAt(groups, names, i + 1, k);
    }
  }

  lemma CleanTail(groups: map<string, GroupLookup>, names: seq<string>)
    requires names != []
    ensures forall i: nat :: CleanFrom(groups, names, i + 1) <==> CleanFrom(groups, names[1..], i)
  {
    forall i: nat ensures CleanFrom(groups, names, i + 1) <==> CleanFrom(groups, names[1..], i) {
      assert forall j :: i + 1 <= j < |names| ==> names[j] == names[1..][j - 1];
    }
  }

  // Group i is the last one to define k, and no malformed group comes after it.
  predicate LastDefines(groups: map<string, GroupLookup>, names: seq<string>, i: nat, k: string) {
    CarriedAt(groups, names, i, k) && forall j :: i < j < |names| ==> !Carries(groups, names[j], k)
  }

  // The last group in name order that defines a key has the last word on it.
  lemma {:induction false} LaterGroupsOverride(groups: map<string, GroupLookup>, acc: ClaimMap, names: seq<string>,
                                               i: nat, k: string)
    requires FoldGroups(groups, acc, names).Folded? && LastDefines(groups, names, i, k)
    ensures var claims := FoldGroups(groups, acc, names).claims;
            var m := Lookup(groups, names[i]).claims.m;
            k in claims && SameKind(claims[k], m[k]) && Keeps(claims[k], m[k])
    decreases |names|
  {
    var l, rest := Lookup(groups, names[0]), names[1..];
    var next := if l.GroupFound? then MergeField(acc, l.claims) else acc;
    CleanTail(groups, names);
    if i > 0 {
      assert forall j :: i < j < |names| ==> names[j] == rest[j - 1];
      LaterGroupsOverride(groups, next, rest, i - 1, k);
    } else {
      assert forall j :: 0 <= j < |rest| ==> rest[j] == names[j + 1];
      FoldLeavesKey(groups, next, rest, k);
      if k in acc {
        MergeKeepsSecond(acc[k], l.claims.m[k]);
      } else {
        KeepsReflexive(l.claims.m[k]);
      }
    }
  }

  lemma {:induction false} FoldLeavesKey(groups: map<string, GroupLookup>, acc: ClaimMap, names: seq<string>, k: string)
    requires FoldGroups(groups, acc, names).Folded? && CleanFrom(groups, names, 0)
    requires k in acc && forall j :: 0 <= j < |names| ==> !Carries(groups, names[j], k)
    ensures k in FoldGroups(groups, acc, names).claims && FoldGroups(groups, acc, names).claims[k] == acc[k]
    decreases |names|
  {
    if names == [] {
    } else {
      var l, rest := Lookup(groups, names[0]), names[1..];
      assert forall j :: 0 <= j < |rest| ==> rest[j] == names[j + 1];
      FoldLeavesKey(groups, if l.GroupFound? then MergeField(acc, l.claims) else acc, rest, k);
    }
  }

  // Some bound group defines k and no malformed bound group sorts after it.
  ghost predicate GroupsGive(c: Cluster, k: string)
    requires c.bindings.Ok?
  {
    exists b :: b in c.bindings.value && GivenBy(c, b, k)
  }

  predicate GivenBy(c: Cluster, b: Binding, k: string)
    requires c.bindings.Ok?
  {
    && Carries(c.groups, b.group, k)
    && forall other :: other in c.bindings.value && Less(b.group, other.group) ==> !Spoiled(c.groups, other.group)
  }

  // The answer has a claim exactly when the user's own claims define it, or a
  // group gives it and the user's claims field is not malformed.
  lemma ClaimSurvivesIff(login: string, password: string, c: Cluster, k: string)
    requires Identified(login, password, c).Answer?
    ensures k in Identified(login, password, c).user.claims <==>
            || (c.user.UserFound? && c.user.spec.claims.Decoded? && k in c.user.spec.claims.m)
            || (GroupsGive(c, k) && !(c.user.UserFound? && c.user.spec.claims.Malformed?))
  {
    var names := SortStrings(GroupsOf(c.bindings.value));
    FoldKeyIff(c.groups, map[], names, k);
    CarriedIffGiven(c, k);
    var claims := FoldGroups(c.groups, map[], names).claims;
    assert k in claims <==> GroupsGive(c, k);
    if c.user.UserFound? {
      assert Identified(login, password, c).user.claims == MergeField(claims, c.user.spec.claims);
    }
  }

  lemma NamesAreGroups(bs: seq<Binding>, g: string)
    ensures g in SortStrings(GroupsOf(bs)) <==> exists b :: b in bs && b.group == g
  {
    SortStringsCorrect(GroupsOf(bs));
    assert g in SortStrings(GroupsOf(bs)) <==> g in multiset(GroupsOf(bs));
    if b :| b in bs && b.group == g {
      var i :| 0 <= i < |bs| && bs[i] == b;
      assert GroupsOf(bs)[i] == g;
    }
  }

  lemma CarriedIffGiven(c: Cluster, k: string)
    requires c.bindings.Ok?
    ensures Carried(c.groups, SortStrings(GroupsOf(c.bindings.value)), k) <==> GroupsGive(c, k)
  {
    var names := SortStrings(GroupsOf(c.bindings.value));
    if i: nat :| CarriedAt(c.groups, names, i, k) {
      CarriedIsGiven(c, i, k);
    }
    if b :| b in c.bindings.value && GivenBy(c, b, k) {
      GivenIsCarried(c, b, k);
    }
  }

  lemma CarriedIsGiven(c: Cluster, i: nat, k: string)
    requires c.bindings.Ok? && CarriedAt(c.groups, SortStrings(GroupsOf(c.bindings.value)), i, k)
    ensures GroupsGive(c, k)
  {
    var bs := c.bindings.value;
    var names := SortStrings(GroupsOf(bs));
    SortStringsCorrect(GroupsOf(bs));
    NamesAreGroups(bs, names[i]);
    var b :| b in bs && b.group == names[i];
    forall other | other in bs && Less(b.group, other.group) ensures !Spoiled(c.groups, other.group) {
      NamesAreGroups(bs, other.group);
      var j :| 0 <= j < |names| && names[j] == other.group;
      LessTrichotomy(names[i], names[j]);
    }
    assert GivenBy(c, b, k);
  }

  lemma GivenIsCarried(c: Cluster, b: Binding, k: string)
    requires c.bindings.Ok? && b in c.bindings.value && GivenBy(c, b, k)
    ensures Carried(c.groups, SortStrings(GroupsOf(c.bindings.value)), k)
  {
    var bs := c.bindings.value;
    var names := SortStrings(GroupsOf(bs));
    SortStringsCorrect(GroupsOf(bs));
    NamesAreGroups(bs, b.group);
    var i: nat :| i < |names| && names[i] == b.group;
    forall j | i + 1 <= j < |names| ensures !Spoiled(c.groups, names[j]) {
      NamesAreGroups(bs, names[j]);
      var other :| other in bs && other.group == names[j];
      LessTrichotomy(names[i], names[j]);
    }
    assert CarriedAt(c.groups, names, i, k);
  }

  // A malformed claims field of the user discards every group's claims as well.
  lemma MalformedUserResets(login: string, password: string, c: Cluster)
    requires c.user.UserFound? && c.user.spec.claims.Malformed?
    requires Identified(login, password, c).Answer?
    ensures Identified(login, password, c).user.claims == map[]
  {
  }

  // ---------- exact content of the claims ----------

  // The maps that count, the last group in name order on top; a malformed group
  // hides all that came before it.
  function GroupLayers(groups: map<string, GroupLookup>, names: seq<string>): (vs: seq<Val>)
    ensures vs != []
    decreases |names|
  {
    if names == [] then [Map(map[])]
    else
      var below := GroupLayers(groups, names[..|names| - 1]);
      match Lookup(groups, names[|names| - 1])
      case GroupFound(Malformed) => [Map(map[])]
      case GroupFound(Decoded(m)) => below + [Map(m)]
      case _ => below
  }

  lemma FoldLast(groups: map<string, GroupLookup>, names: seq<string>)
    requires names != [] && FoldGroups(groups, map[], names).Folded?
    ensures var before := FoldGroups(groups, map[], names[..|names| - 1]);
            var l := Lookup(groups, names[|names| - 1]);
            before.Folded? && l != GroupError &&
            FoldGroups(groups, map[], names).claims == if l.GroupFound? then MergeField(before.claims, l.claims) else before.claims
  {
    var n := |names| - 1;
    var last := [names[n]];
    assert names == names[..n] + last;
    FoldGroupsConcat(groups, map[], names[..n], last);
    assert last[1..] == [];
  }

  lemma {:induction false} FoldIsStack(groups: map<string, GroupLookup>, names: seq<string>)
    requires FoldGroups(groups, map[], names).Folded?
    ensures Map(FoldGroups(groups, map[], names).claims) == Nested(LeftFirst, GroupLayers(groups, names))
    decreases |names|
  {
    if names == [] {
    } else {
      var n := |names| - 1;
      FoldLast(groups, names);
      FoldIsStack(groups, names[..n]);
      var vs := GroupLayers(groups, names);
      if vs == GroupLayers(groups, names[..n]) + [Top(vs)] {
        assert vs[..|vs| - 1] == GroupLayers(groups, names[..n]);
      }
    }
  }

  function AnswerLayers(c: Cluster): (vs: seq<Val>)
    requires c.bindings.Ok?
    ensures vs != []
  {
    var groups := GroupLayers(c.groups, SortStrings(GroupsOf(c.bindings.value)));
    match c.user
    case UserFound(spec) =>
      (match spec.claims
       case Malformed => [Map(map[])]
       case Decoded(m) => groups + [Map(m)]
       case Absent => groups)
    case _ => groups
  }

  // At every path, the answer's claims are what the groups' and the user's
  // values there add up to, the user's on top and the last group's next.
  lemma ClaimAt(login: string, password: string, c: Cluster, path: seq<string>)
    requires Identified(login, password, c).Answer?
    ensures Shows(At(Map(Identified(login, password, c).user.claims), path), Seen(LeftFirst, AnswerLayers(c), path))
  {
    var names := SortStrings(GroupsOf(c.bindings.value));
    FoldIsStack(c.groups, names);
    var vs, groups := AnswerLayers(c), GroupLayers(c.groups, names);
    if c.user.UserFound? && c.user.spec.claims.Decoded? {
      assert vs[..|vs| - 1] == groups;
    }
    assert Map(Identified(login, password, c).user.claims) == Nested(LeftFirst, vs);
    StackShows(LeftFirst, vs, path);
  }

  // Every claims field is what decoding a JSON document yields.
  ghost predicate FieldsDecoded(c: Cluster) {
    && (forall g :: Lookup(c.groups, g).GroupFound? && Lookup(c.groups, g).claims.Decoded? ==>
          NoTypedList(Map(Lookup(c.groups, g).claims.m)))
    && (c.user.UserFound? && c.user.spec.claims.Decoded? ==> NoTypedList(Map(c.user.spec.claims.m)))
  }

  lemma {:induction false} GroupLayersDecoded(c: Cluster, names: seq<string>)
    requires FieldsDecoded(c)
    ensures forall i :: 0 <= i < |GroupLayers(c.groups, names)| ==> NoTypedList(GroupLayers(c.groups, names)[i])
    decreases |names|
  {
    if names == [] {
    } else {
      GroupLayersDecoded(c, names[..|names| - 1]);
    }
  }

  // Decoded fields carry no typed lists, so the lists of several groups are not
  // joined: the last one to define a path with anything but a map decides alone.
  lemma ClaimDecodedAt(login: string, password: string, c: Cluster, path: seq<string>)
    requires Identified(login, password, c).Answer? && FieldsDecoded(c)
    ensures var seen := Seen(LeftFirst, AnswerLayers(c), path);
            seen != [] && !Top(seen).Map? ==>
              At(Map(Identified(login, password, c).user.claims), path) == Some(Top(seen))
  {
    ClaimAt(login, password, c, path);
    GroupLayersDecoded(c, SortStrings(GroupsOf(c.bindings.value)));
    SeenDecoded(LeftFirst, AnswerLayers(c), path);
  }

  // The user's own claims win over every group's.
  lemma UserClaimsWin(login: string, password: string, c: Cluster)
    requires c.user.UserFound? && c.user.spec.claims.Decoded?
    requires Identified(login, password, c).Answer?
    ensures Keeps(Map(Identified(login, password, c).user.claims), Map(c.user.spec.claims.m))
  {
    var folded := FoldGroups(c.groups, map[], SortStrings(GroupsOf(c.bindings.value)));
    MergeKeepsSecond(Map(folded.claims), Map(c.user.spec.claims.m));
  }

  // ---------- status, failure and the other fields ----------

  // The API server lists the bindings and answers for every bound group.
  ghost predicate Reachable(c: Cluster) {
    c.bindings.Ok? && forall b :: b in c.bindings.value ==> Lookup(c.groups, b.group) != GroupError
  }

  lemma FoldedIffReachable(c: Cluster)
    requires c.bindings.Ok?
    ensures FoldGroups(c.groups, map[], SortStrings(GroupsOf(c.bindings.value))).Folded? <==> Reachable(c)
  {
    var bs := c.bindings.value;
    FoldBreaksIff(c.groups, map[], SortStrings(GroupsOf(bs)));
    forall g ensures g in SortStrings(GroupsOf(bs)) <==> exists b :: b in bs && b.group == g {
      NamesAreGroups(bs, g);
    }
  }

  ghost predicate Answers(login: string, password: string, c: Cluster, s: Status) {
    Identified(login, password, c).Answer? && Identified(login, password, c).status == s
  }

  // A password is checked only against a stored hash of an enabled user, and
  // any API failure denies.
  lemma CheckedIff(login: string, password: string, c: Cluster)
    ensures Identified(login, password, c).Answer? && Identified(login, password, c).status == PasswordChecked <==>
            && c.bindings.Ok?
            && (forall b :: b in c.bindings.value ==> Lookup(c.groups, b.group) != GroupError)
            && c.user.UserFound? && !c.user.spec.disabled
            && c.user.spec.passwordHash != "" && password != "" && c.passwordMatches
  {
    if c.bindings.Ok? { FoldedIffReachable(c); }
  }

  // Every other status, read off the cluster.
  lemma StatusIff(login: string, password: string, c: Cluster)
    ensures Answers(login, password, c, UserNotFound) <==> Reachable(c) && c.user == NoUser
    ensures Answers(login, password, c, Disabled) <==> Reachable(c) && c.user.UserFound? && c.user.spec.disabled
    ensures Answers(login, password, c, PasswordMissing) <==>
            Reachable(c) && c.user.UserFound? && !c.user.spec.disabled && c.user.spec.passwordHash == ""
    ensures Answers(login, password, c, PasswordUnchecked) <==>
            && Reachable(c) && c.user.UserFound? && !c.user.spec.disabled && c.user.spec.passwordHash != ""
            && password == ""
    ensures Answers(login, password, c, PasswordFail) <==>
            && Reachable(c) && c.user.UserFound? && !c.user.spec.disabled && c.user.spec.passwordHash != ""
            && password != "" && !c.passwordMatches
  {
    if c.bindings.Ok? { FoldedIffReachable(c); }
  }

  // The bound group that fails first in name order.
  ghost predicate FirstFailing(c: Cluster, g: string)
    requires c.bindings.Ok?
  {
    && Lookup(c.groups, g) == GroupError
    && (exists b :: b in c.bindings.value && b.group == g)
    && (forall b :: b in c.bindings.value && Less(b.group, g) ==> Lookup(c.groups, b.group) != GroupError)
  }

  // Which failure is reported.
  lemma FailureIff(login: string, password: string, c: Cluster, g: string)
    ensures Identified(login, password, c) == Failed(ListFailed) <==> c.bindings.Err?
    ensures Identified(login, password, c) == Failed(GroupFailed(g)) <==> c.bindings.Ok? && FirstFailing(c, g)
    ensures Identified(login, password, c) == Failed(UserFailed) <==> Reachable(c) && c.user == UserError
  {
    if c.bindings.Ok? {
      FoldedIffReachable(c);
      BrokeIffFirst(c, g);
    }
  }

  predicate BreaksAt(groups: map<string, GroupLookup>, names: seq<string>, i: nat) {
    i < |names| && Lookup(groups, names[i]) == GroupError && forall j :: 0 <= j < i ==> Lookup(groups, names[j]) != GroupError
  }

  lemma {:induction false} FoldBreaksAt(groups: map<string, GroupLookup>, acc: ClaimMap, names: seq<string>, g: string)
    ensures FoldGroups(groups, acc, names) == Broke(g) <==> exists i: nat :: BreaksAt(groups, names, i) && names[i] == g
    decreases |names|
  {
    if names == [] {
    } else {
      var l, rest := Lookup(groups, names[0]), names[1..];
      FoldBreaksAt(groups, if l.GroupFound? then MergeField(acc, l.claims) else acc, rest, g);
      if l == GroupError {
        assert BreaksAt(groups, names, 0);
      } else {
        if i: nat :| BreaksAt(groups, rest, i) && rest[i] == g {
          assert BreaksAt(groups, names, i + 1);
        }
        if i: nat :| BreaksAt(groups, names, i) && names[i] == g {
          assert forall j :: 0 <= j < |rest| ==> rest[j] == names[j + 1];
          assert BreaksAt(groups, rest, i - 1);
        }
      }
    }
  }

  lemma BrokeIffFirst(c: Cluster, g: string)
    requires c.bindings.Ok?
    ensures FoldGroups(c.groups, map[], SortStrings(GroupsOf(c.bindings.value))) == Broke(g) <==> FirstFailing(c, g)
  {
    var names := SortStrings(GroupsOf(c.bindings.value));
    FoldBreaksAt(c.groups, map[], names, g);
    if i: nat :| BreaksAt(c.groups, names, i) && names[i] == g {
      BreakIsFirst(c, i);
    }
    if FirstFailing(c, g) {
      NamesAreGroups(c.bindings.value, g);
      FirstBreaks(c, FirstIndex(names, g));
    }
  }

  lemma BreakIsFirst(c: Cluster, i: nat)
    requires c.bindings.Ok? && BreaksAt(c.groups, SortStrings(GroupsOf(c.bindings.value)), i)
    ensures FirstFailing(c, SortStrings(GroupsOf(c.bindings.value))[i])
  {
    var bs := c.bindings.value;
    var names := SortStrings(GroupsOf(bs));
    SortStringsCorrect(GroupsOf(bs));
    NamesAreGroups(bs, names[i]);
    forall b | b in bs && Less(b.group, names[i]) ensures Lookup(c.groups, b.group) != GroupError {
      NamesAreGroups(bs, b.group);
      var j :| 0 <= j < |names| && names[j] == b.group;
      LessTrichotomy(names[j], names[i]);
    }
  }

  lemma FirstBreaks(c: Cluster, i: nat)
    requires c.bindings.Ok?
    requires var names := SortStrings(GroupsOf(c.bindings.value));
             i < |names| && names[i] !in names[..i] && FirstFailing(c, names[i])
    ensures BreaksAt(c.groups, SortStrings(GroupsOf(c.bindings.value)), i)
  {
    var bs := c.bindings.value;
    var names := SortStrings(GroupsOf(bs));
    SortStringsCorrect(GroupsOf(bs));
    forall j | 0 <= j < i ensures Lookup(c.groups, names[j]) != GroupError {
      NamesAreGroups(bs, names[j]);
      assert names[..i][j] == names[j];
      LessTrichotomy(names[j], names[i]);
    }
  }

  function FirstIndex(names: seq<string>, g: string): (i: nat)
    requires g in names
    ensures i < |names| && names[i] == g && g !in names[..i]
  {
    if names[0] == g then 0
    else
      var i := 1 + FirstIndex(names[1..], g);
      assert names[..i] == [names[0]] + names[1..][..i - 1];
      i
  }

  // The bound groups in name order, and the entry's own fields if there is one.
  lemma AnswerFields(login: string, password: string, c: Cluster)
    requires Identified(login, password, c).Answer?
    ensures var u := Identified(login, password, c).user;
            && u.login == login && Sorted(u.groups) && multiset(u.groups) == multiset(GroupsOf(c.bindings.value))
            && (c.user.UserFound? ==>
                  u.uid == c.user.spec.uid && u.name == c.user.spec.name && u.emails == c.user.spec.emails)
            && (!c.user.UserFound? ==> u.uid == None && u.name == "" && u.emails == [])
  {
    SortStringsCorrect(GroupsOf(c.bindings.value));
  }

  lemma {:induction false} FoldBreaksIff(groups: map<string, GroupLookup>, acc: ClaimMap, names: seq<string>)
    ensures FoldGroups(groups, acc, names).Folded? <==> forall g :: g in names ==> Lookup(groups, g) != GroupError
    decreases |names|
  {
    if names == [] {
    } else {
      var l := Lookup(groups, names[0]);
      assert names == [names[0]] + names[1..];
      FoldBreaksIff(groups, if l.GroupFound? then MergeField(acc, l.claims) else acc, names[1..]);
    }
  }
}
