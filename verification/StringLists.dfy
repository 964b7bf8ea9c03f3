// String-list helpers: the byte-wise order, first-occurrence deduplication and
// sorting that the identity merger and the claim merge are built on.

module StringLists {

  function Without<T>(s: seq<T>, i: nat): seq<T>
    requires i < |s|
  {
    s[..i] + s[i + 1..]
  }

  // ---------- the order of sort.Strings ----------

  predicate Less(a: string, b: string)
    decreases |b|
  {
    if b == [] then false
    else if a == [] then true
    else a[0] < b[0] || (a[0] == b[0] && Less(a[1..], b[1..]))
  }

  // Position i is the first where b goes on or has the larger byte.
  predicate DiffersAt(a: string, b: string, i: nat) {
    i <= |a| && i < |b| && a[..i] == b[..i] && (i == |a| || a[i] < b[i])
  }

  // Byte-wise lexicographic order.
  lemma {:induction false} LessIff(a: string, b: string)
    ensures Less(a, b) <==> exists i: nat :: DiffersAt(a, b, i)
    decreases |b|
  {
    if b == [] {
    } else if a == [] {
      assert DiffersAt(a, b, 0);
    } else {
      LessIff(a[1..], b[1..]);
      if a[0] < b[0] {
        assert DiffersAt(a, b, 0);
      } else if i: nat :| a[0] == b[0] && DiffersAt(a[1..], b[1..], i) {
        assert a[..i + 1] == [a[0]] + a[1..][..i] && b[..i + 1] == [b[0]] + b[1..][..i];
        assert DiffersAt(a, b, i + 1);
      }
      if i: nat :| DiffersAt(a, b, i) {
        if i > 0 {
          assert a[..i][0] == a[0] && b[..i][0] == b[0];
          assert a[1..][..i - 1] == a[..i][1..] && b[1..][..i - 1] == b[..i][1..];
          assert DiffersAt(a[1..], b[1..], i - 1);
        }
      }
    }
  }

  lemma {:induction false} LessTrichotomy(a: string, b: string)
    ensures a != b ==> Less(a, b) || Less(b, a)
    ensures !(Less(a, b) && Less(b, a))
    ensures !Less(a, a)
    decreases |a| + |b|
  {
    if a != [] && b != [] && a[0] == b[0] {
      assert a == [a[0]] + a[1..] && b == [b[0]] + b[1..];
      LessTrichotomy(a[1..], b[1..]);
    }
    if a == [] {
    } else {
      LessIrreflexive(a);
    }
  }

  lemma {:induction false} LessIrreflexive(a: string)
    ensures !Less(a, a)
    decreases |a|
  {
    if a == [] {
    } else {
      LessIrreflexive(a[1..]);
    }
  }

  lemma {:induction false} LessTransitive(a: string, b: string, c: string)
    requires Less(a, b) && Less(b, c)
    ensures Less(a, c)
    decreases |c|
  {
    if a != [] && a[0] == b[0] && b[0] == c[0] {
      LessTransitive(a[1..], b[1..], c[1..]);
    }
  }

  predicate Sorted(s: seq<string>) {
    forall i, j :: 0 <= i < j < |s| ==> !Less(s[j], s[i])
  }

  predicate StrictlySorted(s: seq<string>) {
    forall i, j :: 0 <= i < j < |s| ==> Less(s[i], s[j])
  }

  // ---------- first-occurrence deduplication ----------

  predicate NoDup(s: seq<string>) {
    forall i, j :: 0 <= i < j < |s| ==> s[i] != s[j]
  }

  // s followed by the items it does not hold yet, in order, each once.
  function AppendMissing(s: seq<string>, items: seq<string>): seq<string>
    decreases |items|
  {
    if items == [] then s
    else
      var front := AppendMissing(s, items[..|items| - 1]);
      var x := items[|items| - 1];
      if x in front then front else front + [x]
  }

  function Dedup(s: seq<string>): seq<string> {
    AppendMissing([], s)
  }

  lemma {:induction false} AppendMissingMembers(s: seq<string>, items: seq<string>)
    ensures s <= AppendMissing(s, items)
    ensures forall x :: x in AppendMissing(s, items) <==> x in s || x in items
    ensures NoDup(s) ==> NoDup(AppendMissing(s, items))
    decreases |items|
  {
    if items == [] {
    } else {
      var front, x := items[..|items| - 1], items[|items| - 1];
      AppendMissingMembers(s, front);
      assert items == front + [x];
    }
  }

  lemma {:induction false} AppendMissingConcat(s: seq<string>, a: seq<string>, b: seq<string>)
    ensures AppendMissing(s, a + b) == AppendMissing(AppendMissing(s, a), b)
    decreases |b|
  {
    if b == [] {
      assert a + b == a;
    } else {
      AppendMissingConcat(s, a, b[..|b| - 1]);
      assert (a + b)[..|a + b| - 1] == a + b[..|b| - 1];
    }
  }

  // Deduplicating the appended items first changes nothing.
  lemma {:induction false} AppendMissingOfDedup(s: seq<string>, items: seq<string>)
    ensures AppendMissing(s, Dedup(items)) == AppendMissing(s, items)
    decreases |items|
  {
    if items == [] {
    } else {
      var front, x := items[..|items| - 1], items[|items| - 1];
      assert items == front + [x];
      AppendMissingOfDedup(s, front);
      AppendMissingMembers(s, front);
      AppendMissingMembers([], front);
      if x !in Dedup(front) {
        var d := Dedup(front) + [x];
        assert d[..|d| - 1] == Dedup(front);
      }
    }
  }

  lemma {:induction false} AppendKnownItems(s: seq<string>, items: seq<string>)
    requires forall x :: x in items ==> x in s
    ensures AppendMissing(s, items) == s
    decreases |items|
  {
    if items == [] {
    } else {
      assert items[|items| - 1] in items;
      AppendKnownItems(s, items[..|items| - 1]);
    }
  }

  lemma {:induction false} AppendFreshItems(s: seq<string>, items: seq<string>)
    requires NoDup(s + items)
    ensures AppendMissing(s, items) == s + items
    decreases |items|
  {
    if items == [] {
      assert s + items == s;
    } else {
      var front, x := items[..|items| - 1], items[|items| - 1];
      assert items == front + [x];
      assert s + items == (s + front) + [x];
      assert (s + items)[..|s + front|] == s + front;
      assert forall i :: 0 <= i < |s + front| ==> (s + items)[i] == (s + front)[i];
      assert (s + items)[|s + front|] == x;
      AppendFreshItems(s, front);
    }
  }

  lemma DedupLaws(a: seq<string>, b: seq<string>)
    ensures Dedup(Dedup(a) + b) == Dedup(a + b) == Dedup(a + Dedup(b))
    ensures NoDup(Dedup(a))
    ensures forall x :: x in Dedup(a) <==> x in a
  {
    AppendMissingConcat([], Dedup(a), b);
    AppendMissingConcat([], a, b);
    AppendMissingConcat([], a, Dedup(b));
    AppendMissingOfDedup([], a);
    AppendMissingOfDedup(Dedup(a), b);
    AppendMissingMembers([], a);
  }

  lemma DedupFixpoint(a: seq<string>)
    ensures Dedup(a) == a <==> NoDup(a)
  {
    AppendMissingMembers([], a);
    if NoDup(a) {
      assert [] + a == a;
      AppendFreshItems([], a);
    }
  }

  // c swallows a exactly when c is duplicate-free and already starts with a's
  // distinct items in their order.
  lemma DedupAbsorbs(a: seq<string>, c: seq<string>)
    ensures Dedup(a + c) == c <==> NoDup(c) && Dedup(a) <= c
  {
    DedupLaws(a, c);
    DedupLaws(a + c, []);
    AppendMissingConcat([], a, c);
    AppendMissingMembers(Dedup(a), c);
    if NoDup(c) && Dedup(a) <= c {
      var d := Dedup(a);
      var rest := c[|d|..];
      assert c == d + rest;
      AppendMissingConcat(d, d, rest);
      AppendKnownItems(d, d);
      AppendFreshItems(d, rest);
    }
  }

  // ---------- sorting ----------

  function Insert(x: string, s: seq<string>): seq<string>
    decreases |s|
  {
    if s == [] || !Less(s[0], x) then [x] + s
    else [s[0]] + Insert(x, s[1..])
  }

  function SortStrings(s: seq<string>): seq<string>
    decreases |s|
  {
    if s == [] then [] else Insert(s[0], SortStrings(s[1..]))
  }

  lemma {:induction false} InsertSorted(x: string, s: seq<string>)
    requires Sorted(s)
    ensures Sorted(Insert(x, s))
    ensures multiset(Insert(x, s)) == multiset([x] + s)
    decreases |s|
  {
    if s == [] {
    } else if !Less(s[0], x) {
      var r := [x] + s;
      forall i, j | 0 <= i < j < |r| ensures !Less(r[j], r[i]) {
        if i == 0 && j > 1 {
          LessTrichotomy(x, s[0]);
          LessTrichotomy(s[0], r[j]);
          if Less(r[j], x) {
            if x == s[0] { } else { LessTransitive(r[j], x, s[0]); }
          }
        }
      }
    } else {
      InsertSorted(x, s[1..]);
      assert s == [s[0]] + s[1..];
      var t := Insert(x, s[1..]);
      forall j | 0 <= j < |t| ensures !Less(t[j], s[0]) {
        assert t[j] in multiset(t);
        assert t[j] == x || t[j] in s[1..];
        if t[j] == x { LessTrichotomy(s[0], x); }
      }
    }
  }

  lemma {:induction false} SortStringsCorrect(s: seq<string>)
    ensures Sorted(SortStrings(s))
    ensures multiset(SortStrings(s)) == multiset(s)
    decreases |s|
  {
    if s == [] {
    } else {
      SortStringsCorrect(s[1..]);
      InsertSorted(s[0], SortStrings(s[1..]));
      assert s == [s[0]] + s[1..];
    }
  }

  lemma SortedHead(a: seq<string>, b: seq<string>)
    requires Sorted(a) && Sorted(b) && multiset(a) == multiset(b) && a != []
    ensures b != [] && a[0] == b[0]
  {
    assert a[0] in multiset(b);
    assert b[0] in multiset(b);
    assert b[0] in a && a[0] in b;
    LessTrichotomy(a[0], b[0]);
  }

  lemma TailMultiset(a: seq<string>)
    requires a != []
    ensures multiset(a[1..]) == multiset(a) - multiset{a[0]}
  {
    assert a == [a[0]] + a[1..];
  }

  // A sorted list is determined by its elements with multiplicity ...
  lemma {:induction false} SortedUnique(a: seq<string>, b: seq<string>)
    requires Sorted(a) && Sorted(b) && multiset(a) == multiset(b)
    ensures a == b
    decreases |a|
  {
    if a == [] {
      assert |multiset(b)| == 0;
    } else {
      SortedHead(a, b);
      TailMultiset(a);
      TailMultiset(b);
      SortedUnique(a[1..], b[1..]);
      assert a == [a[0]] + a[1..] && b == [b[0]] + b[1..];
    }
  }

  // ... and a strictly sorted one by its elements alone.
  lemma {:induction false} StrictlySortedUnique(a: seq<string>, b: seq<string>)
    requires StrictlySorted(a) && StrictlySorted(b)
    requires forall x :: x in a <==> x in b
    ensures a == b
    decreases |a|
  {
    if a == [] {
      assert forall i :: 0 <= i < |b| ==> b[i] in b;
    } else {
      assert a[0] in a;
      assert b != [];
      assert b[0] in b;
      var i :| 0 <= i < |b| && b[i] == a[0];
      var j :| 0 <= j < |a| && a[j] == b[0];
      LessTrichotomy(a[0], b[0]);
      LessIrreflexive(a[0]);
      forall x ensures x in a[1..] <==> x in b[1..] {
        if x in a[1..] { assert x in a; var k :| 0 <= k < |b| && b[k] == x; }
        if x in b[1..] { assert x in b; var k :| 0 <= k < |a| && a[k] == x; }
      }
      StrictlySortedUnique(a[1..], b[1..]);
    }
  }

  // ---------- internal/misc/misc.go ----------

  lemma SortedDedup(s: seq<string>)
    ensures StrictlySorted(SortStrings(Dedup(s)))
    ensures forall x :: x in SortStrings(Dedup(s)) <==> x in s
  {
    var d := Dedup(s);
    var r := SortStrings(d);
    DedupLaws(s, []);
    SortStringsCorrect(d);
    forall x ensures x in r <==> x in s {
      assert x in r <==> x in multiset(r);
      assert x in d <==> x in multiset(d);
    }
    forall i, j | 0 <= i < j < |r| ensures Less(r[i], r[j]) {
      if r[i] == r[j] {
        TwiceInMultiset(r, i, j);
        NoDupMultiset(d, r[i]);
      }
      LessTrichotomy(r[i], r[j]);
    }
  }

  lemma TwiceInMultiset(s: seq<string>, i: nat, j: nat)
    requires i < j < |s| && s[i] == s[j]
    ensures multiset(s)[s[i]] >= 2
  {
    assert s == s[..j] + [s[j]] + s[j + 1..];
    assert s[..j][i] == s[i];
    assert s[i] in multiset(s[..j]);
  }

  lemma {:induction false} NoDupMultiset(s: seq<string>, x: string)
    requires NoDup(s)
    ensures multiset(s)[x] <= 1
    decreases |s|
  {
    if s == [] {
    } else {
      assert s == [s[0]] + s[1..];
      NoDupMultiset(s[1..], x);
      assert s[0] !in s[1..];
    }
  }

  method DedupAndSort(stringSlice: seq<string>) returns (list: seq<string>)
    ensures StrictlySorted(list)
    ensures forall x :: x in list <==> x in stringSlice
    ensures list == SortStrings(Dedup(stringSlice))
  {
    var keys: set<string> := {};
    list := [];
    for i := 0 to |stringSlice|
      invariant list == Dedup(stringSlice[..i])
      invariant forall x :: x in keys <==> x in list
    {
      var entry := stringSlice[i];
      assert stringSlice[..i + 1][..i] == stringSlice[..i];
      if entry !in keys {
        keys := keys + {entry};
        list := list + [entry];
      }
    }
    assert stringSlice[..|stringSlice|] == stringSlice;
    SortedDedup(stringSlice);
    list := SortStrings(list);
  }

  method AppendIfNotPresent(slice: seq<string>, items: seq<string>) returns (r: seq<string>)
    ensures r == AppendMissing(slice, items)
    ensures slice <= r
    ensures forall x :: x in r <==> x in slice || x in items
  {
    var existing: set<string> := {};
    for i := 0 to |slice|
      invariant forall x :: x in existing <==> x in slice[..i]
    {
      existing := existing + {slice[i]};
    }
    r := slice;
    for i := 0 to |items|
      invariant r == AppendMissing(slice, items[..i])
      invariant forall x :: x in existing <==> x in r
    {
      assert items[..i + 1][..i] == items[..i];
      if items[i] !in existing {
        r := r + [items[i]];
        existing := existing + {items[i]};
      }
    }
    assert items[..|items|] == items;
    AppendMissingMembers(slice, items);
  }
}
