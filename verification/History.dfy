// What a slot holds after a sequence of writes and clears.

module History {
  import opened Identity

  datatype Event<+T> = Put(value: T) | Clear | Keep

  function After<T>(held: Option<T>, e: Event<T>): Option<T> {
    match e
    case Put(v) => Some(v)
    case Clear => None
    case Keep => held
  }

  // Event j wrote what the slot still holds after all of es.
  predicate HeldSince<T(==)>(es: seq<Event<T>>, j: nat) {
    j < |es| && es[j].Put? && forall k: nat :: j < k < |es| ==> es[k].Keep?
  }

  // vals[i] is what the slot holds before event i.
  predicate Follows<T(==)>(vals: seq<Option<T>>, es: seq<Event<T>>) {
    && |vals| == |es| + 1 && vals[0] == None
    && forall i :: 0 <= i < |es| ==> vals[i + 1] == After(vals[i], es[i])
  }

  // The slot holds exactly what the last event other than Keep wrote.
  lemma {:induction false} HeldIff<T>(vals: seq<Option<T>>, es: seq<Event<T>>, u: T)
    requires Follows(vals, es)
    ensures vals[|es|] == Some(u) <==> exists j: nat :: HeldSince(es, j) && es[j] == Put(u)
    decreases |es|
  {
    if es == [] {
    } else {
      var n := |es| - 1;
      HeldIff(vals[..n + 1], es[..n], u);
      forall j: nat | j < n ensures HeldSince(es, j) <==> HeldSince(es[..n], j) && es[n].Keep? {
        assert forall k: nat :: k < n ==> es[..n][k] == es[k];
      }
      if es[n] == Put(u) {
        assert HeldSince(es, n);
      } else if vals[n + 1] == Some(u) {
        var j: nat :| HeldSince(es[..n], j) && es[..n][j] == Put(u);
        assert HeldSince(es, j) && es[j] == Put(u);
      }
    }
  }

  // The position of the write still held at the end, if any.
  function LastPut<T(==)>(es: seq<Event<T>>): (j: Option<nat>)
    ensures j.Some? ==> HeldSince(es, j.value)
    decreases |es|
  {
    if es == [] then None
    else
      var n := |es| - 1;
      match es[n]
      case Put(_) => Some(n)
      case Clear => None
      case Keep => LastPut(es[..n])
  }

  function Held<T(==)>(es: seq<Event<T>>): Option<T> {
    var j := LastPut(es);
    if j.Some? then Some(es[j.value].value) else None
  }

  lemma HeldAfter<T>(es: seq<Event<T>>)
    requires es != []
    ensures Held(es) == After(Held(es[..|es| - 1]), es[|es| - 1])
  {
  }

  // A write still held comes after every clear.
  lemma ClearedBefore<T>(es: seq<Event<T>>, i: nat, j: nat)
    requires HeldSince(es, j) && i < |es| && es[i] == Clear
    ensures i < j
  {
  }
}
