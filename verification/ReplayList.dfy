// The self-pruning list of used JWT identifiers, as a relation between the list
// before and after one use, and its agreement with the full log of uses.

module ReplayList {

  // One SetClientAssertionJWT call: the clock moves from start to end while the
  // call runs, and at is the reading taken at this identifier's own entry.
  datatype Use = Use(jti: string, exp: int, start: int, end: int, at: int, accepted: bool)

  // Entries may be dropped once a reading within the call is past them.
  ghost predicate Pruned(list: map<string, int>, kept: map<string, int>, start: int, end: int) {
    && (forall j :: j in kept ==> j in list && kept[j] == list[j] && list[j] >= start)
    && (forall j :: j in list && j !in kept ==> list[j] < end)
  }

  ghost predicate UseStep(list: map<string, int>, list': map<string, int>, u: Use) {
    && u.start <= u.at <= u.end
    && exists kept ::
         && Pruned(list, kept, u.start, u.end)
         && (u.jti in list ==> (u.jti in kept <==> list[u.jti] >= u.at))
         && u.accepted == (u.jti !in kept)
         && list' == if u.accepted then kept[u.jti := u.exp] else kept
  }

  ghost predicate StepAt(log: seq<Use>, states: seq<map<string, int>>, i: int)
    requires 0 <= i < |log| && |states| == |log| + 1
  {
    UseStep(states[i], states[i + 1], log[i])
  }

  // states[i] is the list before use i; the clock never runs backwards.
  ghost predicate IsRun(log: seq<Use>, states: seq<map<string, int>>) {
    && |states| == |log| + 1
    && states[0] == map[]
    && (forall i :: 0 <= i < |log| ==> StepAt(log, states, i))
    && (forall i, j :: 0 <= i < j < |log| ==> log[i].end <= log[j].start)
  }

  ghost predicate Accepts(log: seq<Use>, i: int, jti: string) {
    0 <= i < |log| && log[i].accepted && log[i].jti == jti
  }

  // Every entry is an accepted use, and an accepted use without its entry has expired.
  ghost predicate Agrees(log: seq<Use>, list: map<string, int>, now: int) {
    && (forall j :: j in list ==> exists i :: Accepts(log, i, j) && log[i].exp == list[j])
    && (forall i, j :: Accepts(log, i, j) ==> (j in list && list[j] == log[i].exp) || log[i].exp < now)
  }

  lemma UseDecides(log: seq<Use>, list: map<string, int>, list': map<string, int>, u: Use, now: int)
    requires Agrees(log, list, now) && now <= u.start && UseStep(list, list', u)
    ensures u.accepted <==> forall i :: Accepts(log, i, u.jti) ==> log[i].exp < u.at
  {
    if u.jti in list {
      var i :| Accepts(log, i, u.jti) && log[i].exp == list[u.jti];
    }
  }

  lemma AgreesStep(log: seq<Use>, list: map<string, int>, list': map<string, int>, u: Use, now: int)
    requires Agrees(log, list, now) && now <= u.start && UseStep(list, list', u)
    ensures Agrees(log + [u], list', u.end)
  {
    var log' := log + [u];
    assert forall i, j :: i < |log| ==> (Accepts(log', i, j) <==> Accepts(log, i, j));
    assert u.accepted ==> Accepts(log', |log|, u.jti);
    forall j | j in list' ensures exists i :: Accepts(log', i, j) && log'[i].exp == list'[j] {
      if j == u.jti && u.accepted {
        assert log'[|log|].exp == list'[j];
      } else {
        var i :| Accepts(log, i, j) && log[i].exp == list[j];
        assert Accepts(log', i, j) && log'[i].exp == list'[j];
      }
    }
    UseDecides(log, list, list', u, now);
  }

  lemma AgreesLater(log: seq<Use>, list: map<string, int>, now: int, later: int)
    requires Agrees(log, list, now) && now <= later
    ensures Agrees(log, list, later)
  {
  }

  lemma AgreesNext(log: seq<Use>, states: seq<map<string, int>>, n: nat, now: int)
    requires |states| == |log| + 1 && n < |log| && StepAt(log, states, n) && log[n].end <= now
    requires Agrees(log[..n], states[n], log[n].start)
    ensures Agrees(log[..n + 1], states[n + 1], now)
  {
    assert log[..n + 1] == log[..n] + [log[n]];
    AgreesStep(log[..n], states[n], states[n + 1], log[n], log[n].start);
    AgreesLater(log[..n + 1], states[n + 1], log[n].end, now);
  }

  lemma {:induction false} RunAgrees(log: seq<Use>, states: seq<map<string, int>>, n: nat, now: int)
    requires IsRun(log, states) && n <= |log| && (n > 0 ==> log[n - 1].end <= now)
    ensures Agrees(log[..n], states[n], now)
    decreases n
  {
    if n == 0 {
      assert log[..0] == [] && states[0] == map[];
    } else {
      RunAgrees(log, states, n - 1, log[n - 1].start);
      assert StepAt(log, states, n - 1);
      AgreesNext(log, states, n - 1, now);
    }
  }

  // The pruned list decides as the full log would: a use is accepted exactly
  // when every earlier accepted use of the same identifier has expired.
  lemma PrunedListDecidesLikeLog(log: seq<Use>, states: seq<map<string, int>>, n: nat)
    requires IsRun(log, states) && n < |log|
    ensures log[n].accepted <==> forall i :: i < n && Accepts(log, i, log[n].jti) ==> log[i].exp < log[n].at
  {
    RunAgrees(log, states, n, log[n].start);
    assert StepAt(log, states, n);
    UseDecides(log[..n], states[n], states[n + 1], log[n], log[n].start);
    assert forall i, j :: i < n ==> (Accepts(log, i, j) <==> Accepts(log[..n], i, j));
  }

  lemma AcceptedUsesSeparated(log: seq<Use>, states: seq<map<string, int>>, i: nat, k: nat)
    requires IsRun(log, states) && i < k < |log|
    requires log[i].accepted && log[k].accepted && log[i].jti == log[k].jti
    ensures log[i].exp < log[k].at
  {
    PrunedListDecidesLikeLog(log, states, k);
    assert Accepts(log, i, log[k].jti);
  }

  predicate Known(list: map<string, int>, jti: string, now: int) {
    jti in list && list[jti] > now
  }

  // The read-only check sees exactly the accepted uses that outlive now.
  lemma KnownIff(log: seq<Use>, states: seq<map<string, int>>, jti: string, now: int)
    requires IsRun(log, states) && (log != [] ==> log[|log| - 1].end <= now)
    ensures Known(states[|log|], jti, now) <==> exists i :: Accepts(log, i, jti) && log[i].exp > now
  {
    RunAgrees(log, states, |log|, now);
    assert log[..|log|] == log;
    var list := states[|log|];
    if Known(list, jti, now) {
      var i :| Accepts(log, i, jti) && log[i].exp == list[jti];
    }
  }

  // The read-only check and the marking call agree at one instant exactly when
  // no entry of this identifier expires at that very instant.
  lemma CheckAgreesIff(list: map<string, int>, list': map<string, int>, u: Use)
    requires UseStep(list, list', u)
    ensures (!Known(list, u.jti, u.at) <==> u.accepted) <==> !(u.jti in list && list[u.jti] == u.at)
  {
  }

  // Over a whole run: they disagree on use n exactly when an earlier accepted
  // use of the identifier expires at the instant of use n.
  lemma RunCheckAgreesIff(log: seq<Use>, states: seq<map<string, int>>, n: nat)
    requires IsRun(log, states) && n < |log|
    ensures (!Known(states[n], log[n].jti, log[n].at) <==> log[n].accepted) <==>
            !exists i :: i < n && Accepts(log, i, log[n].jti) && log[i].exp == log[n].at
  {
    var u, list := log[n], states[n];
    assert StepAt(log, states, n);
    CheckAgreesIff(list, states[n + 1], u);
    RunAgrees(log, states, n, u.start);
    assert forall i, j :: i < n ==> (Accepts(log, i, j) <==> Accepts(log[..n], i, j));
    if u.jti in list && list[u.jti] == u.at {
      var i :| Accepts(log[..n], i, u.jti) && log[..n][i].exp == list[u.jti];
      assert Accepts(log, i, u.jti) && log[i].exp == u.at;
    }
    if i :| i < n && Accepts(log, i, u.jti) && log[i].exp == u.at {
      assert Accepts(log[..n], i, u.jti) && log[..n][i].exp == u.at;
    }
  }

  // Two uses of one identifier, the second at the first one's expiry: the check
  // finds it unused, the marking call refuses it.
  lemma CheckAndMarkDisagree()
    ensures var log := [Use("j", 5, 0, 0, 0, true), Use("j", 9, 5, 5, 5, false)];
            var states: seq<map<string, int>> := [map[], map["j" := 5], map["j" := 5]];
            IsRun(log, states) && !Known(states[1], "j", 5) && !log[1].accepted
  {
    var log := [Use("j", 5, 0, 0, 0, true), Use("j", 9, 5, 5, 5, false)];
    var none: map<string, int> := map[];
    var one := map["j" := 5];
    var states := [none, one, one];
    assert Pruned(none, none, 0, 0);
    assert UseStep(none, one, log[0]);
    assert Pruned(one, one, 5, 5);
    assert UseStep(one, one, log[1]);
    assert StepAt(log, states, 0) && StepAt(log, states, 1);
  }
}
