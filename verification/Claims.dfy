// Claim values and the two recursive claim operations of internal/misc/merge.go:
// the merge and the normalisation of generic lists.

module Claims {
  import opened StringLists

  datatype Scalar = Null | Bool(b: bool) | Number(n: real)

  // A decoded claim value. Strs is a typed list of strings, List a generic one.
  datatype Val =
    | Map(m: ClaimMap)
    | Strs(ss: seq<string>)
    | List(vs: seq<Val>)
    | Str(s: string)
    | Other(scalar: Scalar)

  type ClaimMap = map<string, Val>

  // ---------- merge: specification ----------

  function MergeVal(a: Val, b: Val): Val
    decreases b, 1
  {
    if a.Map? && b.Map? then Map(Merge(a.m, b.m))
    else if a.Strs? && b.Strs? then Strs(Dedup(a.ss + b.ss))
    else b
  }

  function Merge(a: ClaimMap, b: ClaimMap): ClaimMap
    decreases Map(b), 0
  {
    map k | k in a.Keys + b.Keys ::
      if k !in b then a[k] else if k !in a then b[k] else MergeVal(a[k], b[k])
  }

  // ---------- merge: the loops ----------

  method MergeStringSlicesDeduped(a: seq<string>, b: seq<string>) returns (out: seq<string>)
    ensures out == Dedup(a + b)
    ensures NoDup(out) && forall x :: x in out <==> x in a || x in b
  {
    var seen: set<string> := {};
    out := [];
    for i := 0 to |a|
      invariant out == Dedup(a[..i])
      invariant forall x :: x in seen <==> x in out
    {
      assert a[..i + 1][..i] == a[..i];
      if a[i] !in seen {
        seen := seen + {a[i]};
        out := out + [a[i]];
      }
    }
    assert a[..|a|] == a;
    for i := 0 to |b|
      invariant out == AppendMissing(Dedup(a), b[..i])
      invariant forall x :: x in seen <==> x in out
    {
      assert b[..i + 1][..i] == b[..i];
      if b[i] !in seen {
        seen := seen + {b[i]};
        out := out + [b[i]];
      }
    }
    assert b[..|b|] == b;
    AppendMissingConcat([], a, b);
    DedupLaws(a + b, []);
  }

  // Loops over a Go map pick the next key arbitrarily.
  method CopyMap(a: ClaimMap) returns (out: ClaimMap)
    ensures out == a
  {
    out := map[];
    var todo := a.Keys;
    while todo != {}
      invariant todo <= a.Keys
      invariant out == map k | k in a.Keys - todo :: a[k]
      decreases |todo|
    {
      var k :| k in todo;
      out := out[k := a[k]];
      todo := todo - {k};
    }
  }

  // The value written at a key of b, given what out holds there.
  method MergeEntry(held: Val, v: Val) returns (r: Val)
    ensures r == MergeVal(held, v)
    decreases v, 1
  {
    if v.Map? && held.Map? {
      var nested := MergeMaps(held.m, v.m);
      r := Map(nested);
    } else if v.Strs? && held.Strs? {
      var list := MergeStringSlicesDeduped(held.ss, v.ss);
      r := Strs(list);
    } else {
      r := v;
    }
  }

  // b's entries outside todo have been merged into out, the others not.
  ghost predicate MergedBut(a: ClaimMap, b: ClaimMap, todo: set<string>, out: ClaimMap) {
    && todo <= b.Keys
    && out.Keys == a.Keys + (b.Keys - todo)
    && forall k :: k in out ==> out[k] == if k in todo then a[k] else Merge(a, b)[k]
  }

  lemma MergedButEnds(a: ClaimMap, b: ClaimMap)
    ensures MergedBut(a, b, b.Keys, a)
    ensures forall out :: MergedBut(a, b, {}, out) ==> out == Merge(a, b)
  {
    forall out | MergedBut(a, b, {}, out) ensures out == Merge(a, b) {
      assert out.Keys == Merge(a, b).Keys;
    }
  }

  lemma MergeOneKey(a: ClaimMap, b: ClaimMap, todo: set<string>, out: ClaimMap, k: string)
    requires MergedBut(a, b, todo, out) && k in todo
    ensures MergedBut(a, b, todo - {k}, out[k := if k in out then MergeVal(out[k], b[k]) else b[k]])
  {
    assert k in out <==> k in a;
  }

  method MergeMaps(a: ClaimMap, b: ClaimMap) returns (out: ClaimMap)
    ensures out == Merge(a, b)
    decreases Map(b), 0
  {
    out := CopyMap(a);
    MergedButEnds(a, b);
    var todo := b.Keys;
    while todo != {}
      invariant MergedBut(a, b, todo, out)
      decreases |todo|
    {
      var k :| k in todo;
      MergeOneKey(a, b, todo, out, k);
      if k in out {
        var v := MergeEntry(out[k], b[k]);
        out := out[k := v];
      } else {
        out := out[k := b[k]];
      }
      todo := todo - {k};
    }
  }

  // ---------- merge: laws ----------

  lemma MergeIdentity(a: ClaimMap)
    ensures Merge(a, map[]) == a && Merge(map[], a) == a
  {
  }

  predicate NoDupLists(v: Val) {
    match v
    case Map(m) => forall k :: k in m ==> NoDupLists(m[k])
    case Strs(ss) => NoDup(ss)
    case _ => true
  }

  // Whether c swallows a under the merge, read off the two values.
  predicate Absorbs(c: Val, a: Val)
    decreases c
  {
    if a.Map? && c.Map? then forall k :: k in a.m ==> k in c.m && Absorbs(c.m[k], a.m[k])
    else if a.Strs? && c.Strs? then NoDup(c.ss) && Dedup(a.ss) <= c.ss
    else true
  }

  lemma {:induction false} AbsorbsIff(c: Val, a: Val)
    ensures MergeVal(a, c) == c <==> Absorbs(c, a)
    decreases c
  {
    if a.Map? && c.Map? {
      var r := Merge(a.m, c.m);
      forall k | k in a.m && k in c.m
        ensures r[k] == c.m[k] <==> Absorbs(c.m[k], a.m[k])
      {
        AbsorbsIff(c.m[k], a.m[k]);
      }
      if Absorbs(c, a) {
        assert r.Keys == c.m.Keys;
        assert r == c.m;
      } else {
        var k :| k in a.m && !(k in c.m && Absorbs(c.m[k], a.m[k]));
        assert k in r;
      }
    } else if a.Strs? && c.Strs? {
      DedupAbsorbs(a.ss, c.ss);
    }
  }

  // The only obstacle to associativity: outer values of one mergeable kind
  // around a middle value of another kind, unless the right one swallows the left.
  predicate Associable(a: Val, b: Val, c: Val)
    decreases c
  {
    if a.Map? && b.Map? && c.Map? then
      forall k :: k in a.m && k in b.m && k in c.m ==> Associable(a.m[k], b.m[k], c.m[k])
    else if (a.Map? && c.Map?) || (a.Strs? && c.Strs? && !b.Strs?) then Absorbs(c, a)
    else true
  }

  lemma {:induction false} MergeAssociativeIff(a: Val, b: Val, c: Val)
    ensures MergeVal(MergeVal(a, b), c) == MergeVal(a, MergeVal(b, c)) <==> Associable(a, b, c)
    decreases c
  {
    if a.Map? && b.Map? && c.Map? {
      forall k | k in a.m && k in b.m && k in c.m
        ensures MergeVal(MergeVal(a.m[k], b.m[k]), c.m[k]) == MergeVal(a.m[k], MergeVal(b.m[k], c.m[k]))
                <==> Associable(a.m[k], b.m[k], c.m[k])
      {
        MergeAssociativeIff(a.m[k], b.m[k], c.m[k]);
      }
      MergeMapsPointwise(a.m, b.m, c.m);
    } else if a.Strs? && b.Strs? && c.Strs? {
      DedupAssociative(a.ss, b.ss, c.ss);
    } else {
      AbsorbsIff(c, a);
    }
  }

  lemma DedupAssociative(a: seq<string>, b: seq<string>, c: seq<string>)
    ensures Dedup(Dedup(a + b) + c) == Dedup(a + Dedup(b + c))
  {
    DedupLaws(a + b, c);
    DedupLaws(a, b + c);
    assert a + b + c == a + (b + c);
  }

  function BracketLeft(a: ClaimMap, b: ClaimMap, c: ClaimMap): ClaimMap {
    Merge(Merge(a, b), c)
  }

  function BracketRight(a: ClaimMap, b: ClaimMap, c: ClaimMap): ClaimMap {
    Merge(a, Merge(b, c))
  }

  lemma BracketingAt(a: ClaimMap, b: ClaimMap, c: ClaimMap, k: string)
    ensures k in BracketLeft(a, b, c) <==> k in BracketRight(a, b, c)
    ensures k in a && k in b && k in c ==>
              && k in BracketLeft(a, b, c)
              && BracketLeft(a, b, c)[k] == MergeVal(MergeVal(a[k], b[k]), c[k])
              && BracketRight(a, b, c)[k] == MergeVal(a[k], MergeVal(b[k], c[k]))
    ensures k in BracketLeft(a, b, c) && !(k in a && k in b && k in c) ==>
              BracketLeft(a, b, c)[k] == BracketRight(a, b, c)[k]
  {
  }

  // Bracketing matters only at the keys all three maps share.
  lemma MergeMapsPointwise(a: ClaimMap, b: ClaimMap, c: ClaimMap)
    ensures Merge(Merge(a, b), c) == Merge(a, Merge(b, c)) <==>
            forall k :: k in a && k in b && k in c ==>
              MergeVal(MergeVal(a[k], b[k]), c[k]) == MergeVal(a[k], MergeVal(b[k], c[k]))
  {
    forall k { BracketingAt(a, b, c, k); }
    assert BracketLeft(a, b, c) == BracketRight(a, b, c) <==>
      forall k :: k in a && k in b && k in c ==> BracketLeft(a, b, c)[k] == BracketRight(a, b, c)[k];
  }

  // No such sandwich at any shared path: enough for associativity.
  predicate NoSandwich(a: Val, b: Val, c: Val)
    decreases c
  {
    if a.Map? && b.Map? && c.Map? then
      forall k :: k in a.m && k in b.m && k in c.m ==> NoSandwich(a.m[k], b.m[k], c.m[k])
    else !(a.Map? && c.Map?) && !(a.Strs? && c.Strs? && !b.Strs?)
  }

  lemma {:induction false} NoSandwichAssociable(a: Val, b: Val, c: Val)
    requires NoSandwich(a, b, c)
    ensures Associable(a, b, c)
    decreases c
  {
    if a.Map? && b.Map? && c.Map? {
      forall k | k in a.m && k in b.m && k in c.m
        ensures Associable(a.m[k], b.m[k], c.m[k])
      {
        NoSandwichAssociable(a.m[k], b.m[k], c.m[k]);
      }
    }
  }

  lemma MergeAssociative(a: ClaimMap, b: ClaimMap, c: ClaimMap)
    requires NoSandwich(Map(a), Map(b), Map(c))
    ensures Merge(Merge(a, b), c) == Merge(a, Merge(b, c))
  {
    NoSandwichAssociable(Map(a), Map(b), Map(c));
    MergeAssociativeIff(Map(a), Map(b), Map(c));
  }

  // A sandwich that breaks the law: {x: [p]}, {x: null}, {x: [q]}.
  lemma MergeNotAssociative()
    ensures var a, b, c: ClaimMap := map["x" := Strs(["p"])], map["x" := Other(Null)], map["x" := Strs(["q"])];
            Merge(Merge(a, b), c)["x"] == Strs(["q"]) && Merge(a, Merge(b, c))["x"] == Strs(["p", "q"])
  {
    assert Dedup(["p"] + ["q"]) == ["p", "q"] by {
      AppendMissingConcat([], ["p"], ["q"]);
      assert ["p"][..0] == [] && ["q"][..0] == [];
    }
  }

  // b repeats harmlessly exactly where a's list already deduplicated it.
  predicate Repeatable(a: Val, b: Val)
    decreases b
  {
    if a.Map? && b.Map? then
      forall k :: k in b.m ==> if k in a.m then Repeatable(a.m[k], b.m[k]) else NoDupLists(b.m[k])
    else (a.Strs? && b.Strs?) || NoDupLists(b)
  }

  lemma {:induction false} MergeWithSelfIff(b: Val)
    ensures MergeVal(b, b) == b <==> NoDupLists(b)
    decreases b
  {
    if b.Map? {
      var r := Merge(b.m, b.m);
      forall k | k in b.m ensures r[k] == b.m[k] <==> NoDupLists(b.m[k]) {
        MergeWithSelfIff(b.m[k]);
      }
      if NoDupLists(b) {
        assert r == b.m;
      }
    } else if b.Strs? {
      DedupLaws(b.ss, b.ss);
      AppendMissingConcat([], b.ss, b.ss);
      AppendKnownItems(Dedup(b.ss), b.ss);
      DedupFixpoint(b.ss);
    }
  }

  lemma {:induction false} MergeTwiceIff(a: Val, b: Val)
    ensures MergeVal(MergeVal(a, b), b) == MergeVal(a, b) <==> Repeatable(a, b)
    decreases b
  {
    if a.Map? && b.Map? {
      var once := Merge(a.m, b.m);
      var twice := Merge(once, b.m);
      assert twice.Keys == once.Keys;
      forall k | k in b.m
        ensures twice[k] == once[k] <==> if k in a.m then Repeatable(a.m[k], b.m[k]) else NoDupLists(b.m[k])
      {
        if k in a.m { MergeTwiceIff(a.m[k], b.m[k]); } else { MergeWithSelfIff(b.m[k]); }
      }
      if Repeatable(a, b) {
        assert twice == once;
      }
    } else if a.Strs? && b.Strs? {
      DedupLaws(a.ss, b.ss);
      AppendMissingConcat([], Dedup(a.ss + b.ss), b.ss);
      DedupLaws(a.ss + b.ss, []);
      AppendMissingOfDedup([], a.ss + b.ss);
      AppendKnownItems(Dedup(a.ss + b.ss), b.ss);
    } else {
      MergeWithSelfIff(b);
    }
  }

  lemma MergeTwice(a: ClaimMap, b: ClaimMap)
    requires NoDupLists(Map(b))
    ensures Merge(Merge(a, b), b) == Merge(a, b)
  {
    NoDupRepeatable(Map(a), Map(b));
    MergeTwiceIff(Map(a), Map(b));
  }

  lemma {:induction false} NoDupRepeatable(a: Val, b: Val)
    requires NoDupLists(b)
    ensures Repeatable(a, b)
    decreases b
  {
    if a.Map? && b.Map? {
      forall k | k in b.m && k in a.m ensures Repeatable(a.m[k], b.m[k]) {
        NoDupRepeatable(a.m[k], b.m[k]);
      }
    }
  }

  // ---------- merge: what the second argument keeps ----------

  predicate SameKind(a: Val, b: Val) {
    a.Map? == b.Map? && a.Strs? == b.Strs? && a.List? == b.List? && a.Str? == b.Str?
  }

  // w keeps every path of v, every leaf that is not a string list, and at
  // least the elements of every string list.
  predicate Keeps(w: Val, v: Val)
    decreases v
  {
    match v
    case Map(m) => w.Map? && forall k :: k in m ==> k in w.m && Keeps(w.m[k], m[k])
    case Strs(ss) => w.Strs? && forall x :: x in ss ==> x in w.ss
    case _ => w == v
  }

  lemma {:induction false} KeepsReflexive(v: Val)
    ensures Keeps(v, v)
  {
    if v.Map? {
      forall k | k in v.m ensures Keeps(v.m[k], v.m[k]) { KeepsReflexive(v.m[k]); }
    }
  }

  lemma {:induction false} KeepsTransitive(u: Val, w: Val, v: Val)
    requires Keeps(u, w) && Keeps(w, v)
    ensures Keeps(u, v)
    decreases v
  {
    if v.Map? {
      forall k | k in v.m ensures Keeps(u.m[k], v.m[k]) { KeepsTransitive(u.m[k], w.m[k], v.m[k]); }
    }
  }

  lemma {:induction false} MergeKeepsSecond(a: Val, b: Val)
    ensures Keeps(MergeVal(a, b), b)
    decreases b
  {
    if a.Map? && b.Map? {
      forall k | k in b.m ensures Keeps(Merge(a.m, b.m)[k], b.m[k]) {
        if k in a.m { MergeKeepsSecond(a.m[k], b.m[k]); } else { KeepsReflexive(b.m[k]); }
      }
    } else if a.Strs? && b.Strs? {
      DedupLaws(a.ss + b.ss, []);
    } else {
      KeepsReflexive(b);
    }
  }

  // ---------- merge: the documented rule for null ----------

  // The merge as docs/upstream-claims-merge.md words it: a null of b does not
  // replace a value of a.
  function DocumentedVal(a: Val, b: Val): Val
    decreases b, 1
  {
    if a.Map? && b.Map? then Map(DocumentedMerge(a.m, b.m))
    else if a.Strs? && b.Strs? then Strs(Dedup(a.ss + b.ss))
    else if b == Other(Null) then a
    else b
  }

  function DocumentedMerge(a: ClaimMap, b: ClaimMap): ClaimMap
    decreases Map(b), 0
  {
    map k | k in a.Keys + b.Keys ::
      if k !in b then a[k] else if k !in a then b[k] else DocumentedVal(a[k], b[k])
  }

  // At some path shared through maps, b is null over a value of a.
  predicate NullOverValue(a: Val, b: Val)
    decreases b
  {
    if a.Map? && b.Map? then exists k :: k in a.m && k in b.m && NullOverValue(a.m[k], b.m[k])
    else b == Other(Null) && a != b
  }

  // The code merges as documented exactly where b has no null over a value.
  lemma {:induction false} DocumentedIff(a: Val, b: Val)
    ensures MergeVal(a, b) == DocumentedVal(a, b) <==> !NullOverValue(a, b)
    decreases b
  {
    if a.Map? && b.Map? {
      var code, note := Merge(a.m, b.m), DocumentedMerge(a.m, b.m);
      assert code.Keys == note.Keys;
      forall k | k in a.m && k in b.m ensures code[k] == note[k] <==> !NullOverValue(a.m[k], b.m[k]) {
        DocumentedIff(a.m[k], b.m[k]);
      }
      if NullOverValue(a, b) {
        var k :| k in a.m && k in b.m && NullOverValue(a.m[k], b.m[k]);
        assert code[k] != note[k];
      } else {
        assert code == note;
      }
    }
  }

  // {x: [p]} merged with {x: null}: the code yields null, the note keeps the list.
  lemma NullOverrides()
    ensures var a, b: ClaimMap := map["x" := Strs(["p"])], map["x" := Other(Null)];
            Merge(a, b)["x"] == Other(Null) && DocumentedMerge(a, b)["x"] == Strs(["p"])
  {
  }

  // ---------- normalisation: specification ----------

  predicate AllStr(vs: seq<Val>) {
    forall i :: 0 <= i < |vs| ==> vs[i].Str?
  }

  function Norm(v: Val): Val {
    match v
    case Map(m) => Map(map k | k in m :: Norm(m[k]))
    case List(vs) =>
      if AllStr(vs) then Strs(seq(|vs|, i requires 0 <= i < |vs| => vs[i].s))
      else List(seq(|vs|, i requires 0 <= i < |vs| => Norm(vs[i])))
    case _ => v
  }

  function NormMap(m: ClaimMap): ClaimMap {
    map k | k in m :: Norm(m[k])
  }

  predicate NormalForm(v: Val) {
    match v
    case Map(m) => forall k :: k in m ==> NormalForm(m[k])
    case List(vs) => !AllStr(vs) && forall i :: 0 <= i < |vs| ==> NormalForm(vs[i])
    case _ => true
  }

  predicate NormalFormMap(m: ClaimMap) {
    forall k :: k in m ==> NormalForm(m[k])
  }

  // The JSON document a value stands for: a typed string list is just a list.
  function Json(v: Val): Val {
    match v
    case Map(m) => Map(map k | k in m :: Json(m[k]))
    case Strs(ss) => List(seq(|ss|, i requires 0 <= i < |ss| => Str(ss[i])))
    case List(vs) => List(seq(|vs|, i requires 0 <= i < |vs| => Json(vs[i])))
    case _ => v
  }

  // No string list typed as such, at any depth: what decoding JSON yields.
  predicate NoTypedList(v: Val) {
    match v
    case Map(m) => forall k :: k in m ==> NoTypedList(m[k])
    case List(vs) => forall i :: 0 <= i < |vs| ==> NoTypedList(vs[i])
    case Strs(_) => false
    case _ => true
  }

  // ---------- normalisation: the loops ----------

  method InterfaceSliceToStringSlice(xs: seq<Val>) returns (out: seq<string>, ok: bool)
    ensures ok <==> AllStr(xs)
    ensures ok ==> Strs(out) == Norm(List(xs))
  {
    out := [];
    for i := 0 to |xs|
      invariant |out| == i
      invariant forall j :: 0 <= j < i ==> xs[j].Str? && out[j] == xs[j].s
    {
      if !xs[i].Str? {
        return [], false;
      }
      out := out + [xs[i].s];
    }
    ok := true;
  }

  method NormalizeStringArray(m: ClaimMap) returns (out: ClaimMap)
    ensures out == NormMap(m)
    decreases Map(m), 0
  {
    out := map[];
    var todo := m.Keys;
    while todo != {}
      invariant todo <= m.Keys
      invariant out == map k | k in m.Keys - todo :: Norm(m[k])
      decreases |todo|
    {
      var k :| k in todo;
      var v := NormalizeStringArrayValue(m[k]);
      out := out[k := v];
      todo := todo - {k};
    }
  }

  method NormalizeStringArrayValue(v: Val) returns (r: Val)
    ensures r == Norm(v)
    decreases v, 1
  {
    match v
    case Map(m) =>
      var n := NormalizeStringArray(m);
      r := Map(n);
    case List(vs) =>
      var ss, ok := InterfaceSliceToStringSlice(vs);
      if ok {
        return Strs(ss);
      }
      var out: seq<Val> := [];
      for i := 0 to |vs|
        invariant |out| == i
        invariant forall j :: 0 <= j < i ==> out[j] == Norm(vs[j])
      {
        var e := NormalizeStringArrayValue(vs[i]);
        out := out + [e];
      }
      r := List(out);
    case _ =>
      r := v;
  }

  // ---------- normalisation: laws ----------

  lemma {:induction false} NormYieldsNormalForm(v: Val)
    ensures NormalForm(Norm(v))
    ensures Norm(v).Str? <==> v.Str?
  {
    match v
    case Map(m) =>
      forall k | k in m ensures NormalForm(Norm(m[k])) { NormYieldsNormalForm(m[k]); }
    case List(vs) =>
      if !AllStr(vs) {
        var ns := Norm(v).vs;
        forall i | 0 <= i < |vs| ensures NormalForm(ns[i]) && (ns[i].Str? <==> vs[i].Str?) {
          NormYieldsNormalForm(vs[i]);
        }
        var i :| 0 <= i < |vs| && !vs[i].Str?;
        assert !ns[i].Str?;
      }
    case _ =>
  }

  // A value is in normal form exactly when normalising leaves it alone.
  lemma {:induction false} NormalFormIff(v: Val)
    ensures NormalForm(v) <==> Norm(v) == v
  {
    NormYieldsNormalForm(v);
    if NormalForm(v) { NormFixesNormalForm(v); }
  }

  lemma {:induction false} NormFixesNormalForm(v: Val)
    requires NormalForm(v)
    ensures Norm(v) == v
  {
    match v
    case Map(m) =>
      forall k | k in m ensures Norm(m[k]) == m[k] { NormFixesNormalForm(m[k]); }
      assert Norm(v).m == m;
    case List(vs) =>
      forall i | 0 <= i < |vs| ensures Norm(vs[i]) == vs[i] { NormFixesNormalForm(vs[i]); }
      assert Norm(v).vs == vs;
    case _ =>
  }

  lemma NormIdempotent(v: Val)
    ensures Norm(Norm(v)) == Norm(v)
  {
    NormYieldsNormalForm(v);
    NormFixesNormalForm(Norm(v));
  }

  lemma {:induction false} NormKeepsJson(v: Val)
    ensures Json(Norm(v)) == Json(v)
  {
    match v
    case Map(m) =>
      forall k | k in m ensures Json(Norm(m[k])) == Json(m[k]) { NormKeepsJson(m[k]); }
      assert Json(Norm(v)).m == Json(v).m;
    case List(vs) =>
      forall i | 0 <= i < |vs| ensures Json(Norm(vs[i])) == Json(vs[i]) { NormKeepsJson(vs[i]); }
      assert Json(Norm(v)).vs == Json(v).vs;
    case _ =>
  }

  lemma {:induction false} NormOfJson(v: Val)
    ensures Norm(Json(v)) == Norm(v)
    ensures Json(v).Str? <==> v.Str?
  {
    match v
    case Map(m) =>
      forall k | k in m ensures Norm(Json(m[k])) == Norm(m[k]) { NormOfJson(m[k]); }
      assert Norm(Json(v)).m == Norm(v).m;
    case Strs(ss) =>
      assert Norm(Json(v)).ss == ss;
    case List(vs) =>
      var js := Json(v).vs;
      forall i | 0 <= i < |vs|
        ensures Norm(js[i]) == Norm(vs[i]) && (js[i].Str? <==> vs[i].Str?) && (vs[i].Str? ==> js[i] == vs[i])
      {
        NormOfJson(vs[i]);
      }
      if AllStr(vs) {
        assert Norm(Json(v)).ss == Norm(v).ss;
      } else {
        var i :| 0 <= i < |vs| && !vs[i].Str?;
        assert !js[i].Str?;
        assert Norm(Json(v)).vs == Norm(v).vs;
      }
    case _ =>
  }

  // Normal forms are canonical: two values normalise alike exactly when they
  // stand for the same document.
  lemma NormCanonical(v: Val, w: Val)
    ensures Norm(v) == Norm(w) <==> Json(v) == Json(w)
  {
    NormKeepsJson(v);
    NormKeepsJson(w);
    NormOfJson(v);
    NormOfJson(w);
  }

  lemma {:induction false} MergePreservesNormalForm(a: Val, b: Val)
    requires NormalForm(a) && NormalForm(b)
    ensures NormalForm(MergeVal(a, b))
    decreases b
  {
    if a.Map? && b.Map? {
      forall k | k in Merge(a.m, b.m) ensures NormalForm(Merge(a.m, b.m)[k]) {
        if k in a.m && k in b.m { MergePreservesNormalForm(a.m[k], b.m[k]); }
      }
    }
  }
}
