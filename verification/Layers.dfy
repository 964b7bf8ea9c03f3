// What a stack of claim maps shows at every path once it is merged: which of
// the layers are still visible there, and what they add up to.

module Layers {
  import opened StringLists
  import opened Claims
  import opened Identity

  // The order in which a stack is merged: ((a b) c) or (a (b c)).
  datatype Nesting = LeftFirst | RightFirst

  function Top(vs: seq<Val>): Val
    requires vs != []
  {
    vs[|vs| - 1]
  }

  // The stack merged, the last layer on top.
  function Nested(n: Nesting, vs: seq<Val>): Val
    requires vs != []
    decreases |vs|
  {
    if |vs| == 1 then vs[0]
    else match n
      case LeftFirst => MergeVal(Nested(n, vs[..|vs| - 1]), Top(vs))
      case RightFirst => MergeVal(vs[0], Nested(n, vs[1..]))
  }

  // ---------- reference ----------

  // The value at a path through maps.
  function At(v: Val, path: seq<string>): Option<Val>
    decreases |path|
  {
    if path == [] then Some(v)
    else if v.Map? && path[0] in v.m then At(v.m[path[0]], path[1..])
    else None
  }

  // Two values of a kind that adds up.
  predicate Kin(a: Val, b: Val) {
    (a.Map? && b.Map?) || (a.Strs? && b.Strs?)
  }

  // The layers the top one does not hide: all of its kind, or under left-first
  // merging only those above the last change of kind.
  function Visible(n: Nesting, vs: seq<Val>): (r: seq<Val>)
    requires vs != []
    ensures r != [] && Top(r) == Top(vs) && (|r| == 1 || forall i :: 0 <= i < |r| ==> Kin(r[i], Top(vs)))
    decreases |vs|
  {
    if |vs| == 1 then vs
    else match n
      case LeftFirst =>
        var below := vs[..|vs| - 1];
        if Kin(Top(below), Top(vs)) then Visible(n, below) + [Top(vs)] else [Top(vs)]
      case RightFirst =>
        (if Kin(vs[0], Top(vs)) then [vs[0]] else []) + Visible(n, vs[1..])
  }

  // What the layers hold at key k, in order.
  function Under(vs: seq<Val>, k: string): seq<Val>
    decreases |vs|
  {
    if vs == [] then []
    else (if vs[0].Map? && k in vs[0].m then [vs[0].m[k]] else []) + Under(vs[1..], k)
  }

  // The layers that make up the value at a path.
  function Seen(n: Nesting, vs: seq<Val>, path: seq<string>): seq<Val>
    decreases |path|
  {
    if vs == [] then []
    else if path == [] then Visible(n, vs)
    else Seen(n, Under(Visible(n, vs), path[0]), path[1..])
  }

  function Lists(vs: seq<Val>): seq<string>
    decreases |vs|
  {
    if vs == [] then [] else (if vs[0].Strs? then vs[0].ss else []) + Lists(vs[1..])
  }

  // A single list stays as it is, several are concatenated without duplicates.
  function Joined(vs: seq<Val>): seq<string> {
    if |vs| == 1 then Lists(vs) else Dedup(Lists(vs))
  }

  predicate HasKey(v: Val, k: string) {
    v.Map? && k in v.m
  }

  // v is what the visible layers add up to.
  ghost predicate Shows(v: Option<Val>, seen: seq<Val>) {
    if seen == [] then v.None?
    else match Top(seen)
      case Strs(_) => v == Some(Strs(Joined(seen)))
      case Map(_) =>
        v.Some? && v.value.Map? &&
        forall k :: k in v.value.m <==> exists i :: 0 <= i < |seen| && HasKey(seen[i], k)
      case _ => v == Some(Top(seen))
  }

  // ---------- the merged stack shows exactly its visible layers ----------

  lemma {:induction false} NestedKind(n: Nesting, vs: seq<Val>)
    requires vs != []
    ensures SameKind(Nested(n, vs), Top(vs))
    decreases |vs|
  {
    if |vs| == 1 {
    } else if n == RightFirst {
      NestedKind(n, vs[1..]);
    }
  }

  lemma {:induction false} VisibleSuffices(n: Nesting, vs: seq<Val>)
    requires vs != []
    ensures Nested(n, Visible(n, vs)) == Nested(n, vs)
    decreases |vs|
  {
    if |vs| == 1 {
    } else if n == LeftFirst {
      var below := vs[..|vs| - 1];
      VisibleSuffices(n, below);
      NestedKind(n, below);
      var seen := Visible(n, below) + [Top(vs)];
      assert seen[..|seen| - 1] == Visible(n, below);
    } else {
      VisibleSuffices(n, vs[1..]);
      NestedKind(n, vs[1..]);
      var seen := [vs[0]] + Visible(n, vs[1..]);
      assert seen[1..] == Visible(n, vs[1..]);
      assert [] + Visible(n, vs[1..]) == Visible(n, vs[1..]);
    }
  }

  lemma {:induction false} ListsConcat(a: seq<Val>, b: seq<Val>)
    ensures Lists(a + b) == Lists(a) + Lists(b)
    decreases |a|
  {
    if a == [] {
      assert a + b == b;
    } else {
      assert (a + b)[1..] == a[1..] + b;
      ListsConcat(a[1..], b);
    }
  }

  lemma {:induction false} UnderConcat(a: seq<Val>, b: seq<Val>, k: string)
    ensures Under(a + b, k) == Under(a, k) + Under(b, k)
    decreases |a|
  {
    if a == [] {
      assert a + b == b;
    } else {
      assert (a + b)[1..] == a[1..] + b;
      UnderConcat(a[1..], b, k);
    }
  }

  lemma SingleLayer(v: Val, k: string)
    ensures Lists([v]) == if v.Strs? then v.ss else []
    ensures Under([v], k) == if HasKey(v, k) then [v.m[k]] else []
  {
    assert [v][1..] == [];
  }

  lemma {:induction false} NestedLists(n: Nesting, vs: seq<Val>)
    requires vs != [] && forall i :: 0 <= i < |vs| ==> vs[i].Strs?
    ensures Nested(n, vs) == Strs(Joined(vs))
    decreases |vs|
  {
    if |vs| == 1 {
      assert vs == [vs[0]];
      SingleLayer(vs[0], "");
    } else if n == LeftFirst {
      var below := vs[..|vs| - 1];
      NestedLists(n, below);
      assert vs == below + [Top(vs)];
      ListsConcat(below, [Top(vs)]);
      SingleLayer(Top(vs), "");
      DedupLaws(Lists(below), Top(vs).ss);
      assert Dedup(Joined(below) + Top(vs).ss) == Dedup(Lists(vs));
    } else {
      NestedLists(n, vs[1..]);
      DedupLaws(vs[0].ss, Lists(vs[1..]));
    }
  }

  predicate AllMaps(vs: seq<Val>) {
    forall i :: 0 <= i < |vs| ==> vs[i].Map?
  }

  // What a stack of maps holds at a key is the stack of what they hold there.
  ghost predicate NestsAt(n: Nesting, vs: seq<Val>, k: string)
    requires vs != []
  {
    var r, under := Nested(n, vs), Under(vs, k);
    r.Map? && (k in r.m <==> under != []) && (under != [] ==> r.m[k] == Nested(n, under))
  }

  lemma {:induction false} NestedMaps(n: Nesting, vs: seq<Val>, k: string)
    requires vs != [] && AllMaps(vs)
    ensures NestsAt(n, vs, k)
    decreases |vs|
  {
    if |vs| == 1 {
      assert vs == [vs[0]];
      SingleLayer(vs[0], k);
    } else if n == LeftFirst {
      NestedMaps(n, vs[..|vs| - 1], k);
      MapOnTop(vs[..|vs| - 1], Top(vs), k);
      assert vs == vs[..|vs| - 1] + [Top(vs)];
    } else {
      NestedMaps(n, vs[1..], k);
      MapBelow(vs[0], vs[1..], k);
      assert vs == [vs[0]] + vs[1..];
    }
  }

  lemma MapOnTop(below: seq<Val>, top: Val, k: string)
    requires below != [] && NestsAt(LeftFirst, below, k) && top.Map?
    ensures NestsAt(LeftFirst, below + [top], k)
  {
    var vs := below + [top];
    assert vs[..|vs| - 1] == below;
    assert Nested(LeftFirst, vs) == Map(Merge(Nested(LeftFirst, below).m, top.m));
    UnderConcat(below, [top], k);
    SingleLayer(top, k);
    if k in top.m {
      var under := Under(vs, k);
      assert under[..|under| - 1] == Under(below, k);
    } else {
      assert Under(vs, k) == Under(below, k);
    }
  }

  lemma MapBelow(bottom: Val, above: seq<Val>, k: string)
    requires above != [] && NestsAt(RightFirst, above, k) && bottom.Map?
    ensures NestsAt(RightFirst, [bottom] + above, k)
  {
    var vs := [bottom] + above;
    assert vs[1..] == above;
    assert Nested(RightFirst, vs) == Map(Merge(bottom.m, Nested(RightFirst, above).m));
    if k in bottom.m {
      assert Under(vs, k)[1..] == Under(above, k);
    } else {
      assert Under(vs, k) == Under(above, k);
    }
  }

  lemma {:induction false} UnderIff(vs: seq<Val>, k: string)
    ensures Under(vs, k) != [] <==> exists i :: 0 <= i < |vs| && HasKey(vs[i], k)
    decreases |vs|
  {
    if vs == [] {
    } else {
      UnderIff(vs[1..], k);
      if i :| 0 <= i < |vs| && HasKey(vs[i], k) {
        assert i > 0 ==> HasKey(vs[1..][i - 1], k);
      }
      if i :| 0 <= i < |vs[1..]| && HasKey(vs[1..][i], k) {
        assert HasKey(vs[i + 1], k);
      }
    }
  }

  lemma VisibleKind(n: Nesting, vs: seq<Val>)
    requires vs != []
    ensures forall i :: 0 <= i < |Visible(n, vs)| ==> SameKind(Visible(n, vs)[i], Top(vs))
  {
    var seen := Visible(n, vs);
    assert |seen| == 1 ==> seen[0] == Top(seen);
  }

  // The root: the visible layers are of one kind and add up to the merged value.
  lemma RootShows(n: Nesting, vs: seq<Val>)
    requires vs != []
    ensures Shows(Some(Nested(n, vs)), Visible(n, vs))
  {
    var seen := Visible(n, vs);
    VisibleSuffices(n, vs);
    VisibleKind(n, vs);
    if Top(vs).Strs? {
      NestedLists(n, seen);
    } else if Top(vs).Map? {
      NestedMaps(n, seen, "");
      forall k ensures k in Nested(n, vs).m <==> exists i :: 0 <= i < |seen| && HasKey(seen[i], k) {
        NestedMaps(n, seen, k);
        UnderIff(seen, k);
      }
    } else {
      assert |seen| == 1;
    }
  }

  // One key further down: the merged stack's value there is the stack of what
  // the visible layers hold there.
  lemma KeyDown(n: Nesting, vs: seq<Val>, k: string)
    requires vs != []
    ensures var r, under := Nested(n, vs), Under(Visible(n, vs), k);
            (HasKey(r, k) <==> under != []) && (under != [] ==> r.m[k] == Nested(n, under))
  {
    VisibleSuffices(n, vs);
    VisibleKind(n, vs);
    NestedKind(n, vs);
    if Top(vs).Map? {
      NestedMaps(n, Visible(n, vs), k);
    } else {
      UnderIff(Visible(n, vs), k);
    }
  }

  // At every path the merged stack holds exactly what its visible layers add up to.
  lemma {:induction false} StackShows(n: Nesting, vs: seq<Val>, path: seq<string>)
    requires vs != []
    ensures Shows(At(Nested(n, vs), path), Seen(n, vs, path))
    decreases |path|
  {
    if path == [] {
      RootShows(n, vs);
    } else {
      var under := Under(Visible(n, vs), path[0]);
      KeyDown(n, vs, path[0]);
      assert Seen(n, vs, path) == Seen(n, under, path[1..]);
      if under == [] {
        assert At(Nested(n, vs), path) == None;
      } else {
        StackShows(n, under, path[1..]);
        assert At(Nested(n, vs), path) == At(Nested(n, under), path[1..]);
      }
    }
  }

  // ---------- decoded documents hold no typed list ----------

  lemma {:induction false} UnderDecoded(vs: seq<Val>, k: string)
    requires forall i :: 0 <= i < |vs| ==> NoTypedList(vs[i])
    ensures forall i :: 0 <= i < |Under(vs, k)| ==> NoTypedList(Under(vs, k)[i])
    decreases |vs|
  {
    if vs == [] {
    } else {
      UnderDecoded(vs[1..], k);
    }
  }

  lemma {:induction false} VisibleDecoded(n: Nesting, vs: seq<Val>)
    requires vs != [] && forall i :: 0 <= i < |vs| ==> NoTypedList(vs[i])
    ensures forall i :: 0 <= i < |Visible(n, vs)| ==> NoTypedList(Visible(n, vs)[i])
    decreases |vs|
  {
    if |vs| == 1 {
    } else if n == LeftFirst {
      VisibleDecoded(n, vs[..|vs| - 1]);
    } else {
      VisibleDecoded(n, vs[1..]);
    }
  }

  lemma {:induction false} SeenDecoded(n: Nesting, vs: seq<Val>, path: seq<string>)
    requires forall i :: 0 <= i < |vs| ==> NoTypedList(vs[i])
    ensures forall i :: 0 <= i < |Seen(n, vs, path)| ==> NoTypedList(Seen(n, vs, path)[i])
    decreases |path|
  {
    if vs == [] {
    } else {
      VisibleDecoded(n, vs);
      if path != [] {
        UnderDecoded(Visible(n, vs), path[0]);
        SeenDecoded(n, Under(Visible(n, vs), path[0]), path[1..]);
      }
    }
  }

  // Layers decoded from JSON never concatenate lists: wherever the top visible
  // layer is no map, it alone decides.
  lemma DecodedStackShows(n: Nesting, vs: seq<Val>, path: seq<string>)
    requires vs != [] && forall i :: 0 <= i < |vs| ==> NoTypedList(vs[i])
    ensures var seen := Seen(n, vs, path);
            seen != [] && !Top(seen).Map? ==> At(Nested(n, vs), path) == Some(Top(seen))
  {
    StackShows(n, vs, path);
    SeenDecoded(n, vs, path);
  }
}
