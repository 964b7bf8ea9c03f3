// The brute-force protector: calls sleep inside failure while others record
// failures and a cleaner unlinks old entries. loginState objects have heap
// identities, because a call keeps its object after the cleaner unlinked it.

module Protector {
  import opened Identity
  import opened Word64

  // Durations and times in nanoseconds.
  datatype Settings = Settings(cleanDelay: int, freeFailure: int, maxPenalty: int,
                               penaltyByFailure: int, maxPendingFailure: int)

  datatype LoginState = LoginState(lastFailure: int, nbrOfFailure: int, pendingFailures: int)

  // Where a running failure call is: past its locked section, or in its sleep.
  datatype Call =
    | Recorded(obj: nat, at: int, count: int)
    | Sleeping(obj: nat, until: int)

  datatype State = State(now: int, heap: map<nat, LoginState>, byLogin: map<string, nat>,
                         calls: map<nat, Call>, next: nat)

  const START := State(0, map[], map[], map[], 0)

  const UNKNOWN_USER := "_unknownUser_"
  const UNKNOWN_TOKEN := "_unknownToken_"

  // ---------- the penalty ----------

  function DelayFromFailureCount(p: Settings, count: int): int {
    if count <= p.freeFailure then 0
    else
      var penalty := Wrap64((count - p.freeFailure) * p.penaltyByFailure);
      if penalty > p.maxPenalty then p.maxPenalty else penalty
  }

  // The penalty the settings describe, without a word size.
  function IdealDelay(p: Settings, count: int): int {
    if count <= p.freeFailure then 0
    else if (count - p.freeFailure) * p.penaltyByFailure > p.maxPenalty then p.maxPenalty
    else (count - p.freeFailure) * p.penaltyByFailure
  }

  predicate Sane(p: Settings) {
    0 <= p.freeFailure && 0 <= p.maxPenalty <= MAX64 && 0 <= p.penaltyByFailure
  }

  lemma DelayNeverAboveMax(p: Settings, count: int)
    requires 0 <= p.maxPenalty
    ensures DelayFromFailureCount(p, count) <= p.maxPenalty
  {
  }

  lemma ProductMonotone(a: int, b: int, c: int)
    requires a <= b && 0 <= c
    ensures a * c <= b * c
  {
  }

  // The 64-bit computation gives the described penalty exactly when the product
  // fits, or lies above the cap both before and after it wraps.
  lemma DelayIdealIff(p: Settings, count: int)
    ensures var product := (count - p.freeFailure) * p.penaltyByFailure;
            DelayFromFailureCount(p, count) == IdealDelay(p, count) <==>
            || count <= p.freeFailure || -MAX64 - 1 <= product <= MAX64
            || (product >= p.maxPenalty && Wrap64(product) >= p.maxPenalty)
  {
  }

  lemma DelayBoundedAndMonotone(p: Settings, a: int, b: int)
    requires Sane(p) && a <= b && (b - p.freeFailure) * p.penaltyByFailure <= MAX64
    ensures 0 <= DelayFromFailureCount(p, a) <= DelayFromFailureCount(p, b) <= p.maxPenalty
  {
    ProductMonotone(a - p.freeFailure, b - p.freeFailure, p.penaltyByFailure);
    if a > p.freeFailure { ProductMonotone(0, a - p.freeFailure, p.penaltyByFailure); }
    if b > p.freeFailure { ProductMonotone(0, b - p.freeFailure, p.penaltyByFailure); }
    DelayIdealIff(p, a);
    DelayIdealIff(p, b);
  }

  // With the default settings the penalty turns negative, that is, vanishes,
  // at failure number 9223372041.
  lemma DelayOverflows()
    ensures DelayFromFailureCount(Settings(1800_000_000_000, 4, 15_000_000_000, 1_000_000_000, 20), 9_223_372_041) < 0
  {
  }

  // ---------- atomic steps ----------

  datatype Op =
    | Record(t: nat, login: string)  // the locked section of failure, by call t
    | Sleep(t: nat)                  // pendingFailures goes up, the sleep starts
    | Wake(t: nat)                   // the sleep is over, pendingFailures goes down
    | Clean
    | Tick(d: nat)                   // time passes

  predicate Enabled(s: State, op: Op) {
    match op
    case Record(t, _) => t !in s.calls
    case Sleep(t) => t in s.calls && s.calls[t].Recorded? && s.calls[t].obj in s.heap
    case Wake(t) => t in s.calls && s.calls[t].Sleeping? && s.calls[t].until <= s.now && s.calls[t].obj in s.heap
    case _ => true
  }

  predicate Stale(p: Settings, s: State, login: string) {
    && login in s.byLogin && s.byLogin[login] in s.heap
    && s.heap[s.byLogin[login]].lastFailure + p.cleanDelay < s.now
  }

  function Slept(p: Settings, count: int): nat {
    var d := DelayFromFailureCount(p, count);
    if d < 0 then 0 else d
  }

  function AddPending(s: State, obj: nat, d: int): map<nat, LoginState>
    requires obj in s.heap
  {
    s.heap[obj := s.heap[obj].(pendingFailures := s.heap[obj].pendingFailures + d)]
  }

  function Target(s: State, login: string): nat {
    if login in s.byLogin then s.byLogin[login] else s.next
  }

  function Hit(s: State, login: string): LoginState {
    var held := if login in s.byLogin && s.byLogin[login] in s.heap then s.heap[s.byLogin[login]] else LoginState(0, 0, 0);
    LoginState(s.now, held.nbrOfFailure + 1, held.pendingFailures)
  }

  // The entries left when the cleaner has visited all but those in todo.
  function CleanedBut(p: Settings, s: State, todo: set<string>): map<string, nat> {
    map l | l in s.byLogin && (l in todo || !Stale(p, s, l)) :: s.byLogin[l]
  }

  function Apply(p: Settings, s: State, op: Op): State
    requires Enabled(s, op)
  {
    match op
    case Record(t, login) =>
      var obj, hit := Target(s, login), Hit(s, login);
      s.(heap := s.heap[obj := hit],
         byLogin := s.byLogin[login := obj],
         calls := s.calls[t := Recorded(obj, s.now, hit.nbrOfFailure)],
         next := if login in s.byLogin then s.next else s.next + 1)
    case Sleep(t) =>
      var c := s.calls[t];
      s.(heap := AddPending(s, c.obj, 1), calls := s.calls[t := Sleeping(c.obj, s.now + Slept(p, c.count))])
    case Wake(t) => s.(heap := AddPending(s, s.calls[t].obj, -1), calls := s.calls - {t})
    case Clean => s.(byLogin := CleanedBut(p, s, {}))
    case Tick(d) => s.(now := s.now + d)
  }

  predicate LoginLocked(p: Settings, s: State, login: string) {
    TooMany(p, s, login) || TooMany(p, s, UNKNOWN_USER)
  }

  predicate TokenLocked(p: Settings, s: State) {
    TooMany(p, s, UNKNOWN_TOKEN)
  }

  predicate TooMany(p: Settings, s: State, login: string) {
    && login in s.byLogin && s.byLogin[login] in s.heap
    && s.heap[s.byLogin[login]].pendingFailures > p.maxPendingFailure
  }

  // ---------- the code, one method per atomic section ----------

  class BfaProtector {
    const settings: Settings
    var clock: int
    var heap: map<nat, LoginState>
    var stateByLogin: map<string, nat>
    var calls: map<nat, Call>
    var next: nat

    function View(): State
      reads this
    {
      State(clock, heap, stateByLogin, calls, next)
    }

    constructor (settings: Settings)
      ensures this.settings == settings && View() == START && Linked(View())
    {
      this.settings := settings;
      clock, heap, stateByLogin, calls, next := 0, map[], map[], map[], 0;
    }

    method EntryForLogin(login: string) returns (locked: bool)
      requires Linked(View())
      ensures locked == LoginLocked(settings, View(), login)
    {
      if login in stateByLogin && heap[stateByLogin[login]].pendingFailures > settings.maxPendingFailure {
        return true;
      }
      if UNKNOWN_USER in stateByLogin && heap[stateByLogin[UNKNOWN_USER]].pendingFailures > settings.maxPendingFailure {
        return true;
      }
      locked := false;
    }

    method EntryForToken() returns (locked: bool)
      requires Linked(View())
      ensures locked == TokenLocked(settings, View())
    {
      locked := UNKNOWN_TOKEN in stateByLogin &&
                heap[stateByLogin[UNKNOWN_TOKEN]].pendingFailures > settings.maxPendingFailure;
    }

    // The login's object, allocated and linked if there is none.
    method EntryOf(login: string) returns (state: nat)
      requires Linked(View())
      modifies this
      ensures state == Target(old(View()), login) && state in heap
      ensures View() == if login in old(stateByLogin) then old(View())
                        else State(old(clock), old(heap)[state := LoginState(0, 0, 0)],
                                   old(stateByLogin)[login := state], old(calls), old(next) + 1)
    {
      if login !in stateByLogin {
        heap := heap[next := LoginState(0, 0, 0)];
        stateByLogin := stateByLogin[login := next];
        next := next + 1;
      }
      state := stateByLogin[login];
    }

    // failure, lines under the mutex.
    method FailureLocked(t: nat, login: string)
      requires Linked(View()) && t !in calls
      modifies this
      ensures Linked(View())
      ensures View() == Apply(settings, old(View()), Record(t, login))
    {
      ghost var before := View();
      var state := EntryOf(login);
      heap := heap[state := heap[state].(lastFailure := clock)];
      heap := heap[state := heap[state].(nbrOfFailure := heap[state].nbrOfFailure + 1)];
      calls := calls[t := Recorded(state, clock, heap[state].nbrOfFailure)];
      assert View() == Apply(settings, before, Record(t, login));
      assert Linked(View()) by { LinkedStep(settings, before, Record(t, login)); }
    }

    // failure, up to and including the start of time.Sleep.
    method FailureSleep(t: nat)
      requires Linked(View()) && Enabled(View(), Sleep(t))
      modifies this
      ensures Linked(View())
      ensures View() == Apply(settings, old(View()), Sleep(t))
    {
      LinkedStep(settings, View(), Sleep(t));
      var c := calls[t];
      var delay := DelayFromFailureCount(settings, c.count);
      heap := heap[c.obj := heap[c.obj].(pendingFailures := heap[c.obj].pendingFailures + 1)];
      calls := calls[t := Sleeping(c.obj, clock + if delay < 0 then 0 else delay)];
    }

    // failure, after time.Sleep returned.
    method FailureWake(t: nat)
      requires Linked(View()) && Enabled(View(), Wake(t))
      modifies this
      ensures Linked(View())
      ensures View() == Apply(settings, old(View()), Wake(t))
    {
      LinkedStep(settings, View(), Wake(t));
      var obj := calls[t].obj;
      heap := heap[obj := heap[obj].(pendingFailures := heap[obj].pendingFailures - 1)];
      calls := calls - {t};
    }

    method ProtectLoginResult(t: nat, login: string, status: Status)
      requires Linked(View()) && t !in calls
      modifies this
      ensures Linked(View())
      ensures status == PasswordFail || status == OtherStatus("invalidOldPassword") ==>
                View() == Apply(settings, old(View()), Record(t, login))
      ensures status != PasswordFail && status != OtherStatus("invalidOldPassword") ==> View() == old(View())
    {
      if status == PasswordFail || status == OtherStatus("invalidOldPassword") {
        FailureLocked(t, login);
      }
    }

    method TokenNotFound(t: nat)
      requires Linked(View()) && t !in calls
      modifies this
      ensures Linked(View())
      ensures View() == Apply(settings, old(View()), Record(t, UNKNOWN_TOKEN))
    {
      FailureLocked(t, UNKNOWN_TOKEN);
    }

    method CleanUp()
      requires Linked(View())
      modifies this
      ensures Linked(View())
      ensures View() == Apply(settings, old(View()), Clean)
    {
      ghost var before := View();
      var now := clock;
      var todo := stateByLogin.Keys;
      while todo != {}
        invariant todo <= stateByLogin.Keys && before == old(View()) && Linked(before)
        invariant stateByLogin == CleanedBut(settings, before, todo)
        invariant heap == old(heap) && clock == old(clock) && calls == old(calls) && next == old(next)
        decreases |todo|
      {
        var k :| k in todo;
        CleanOne(settings, before, todo, k);
        todo := todo - {k};
        if heap[stateByLogin[k]].lastFailure + settings.cleanDelay < now {
          stateByLogin := stateByLogin - {k};
        }
      }
      assert View() == Apply(settings, before, Clean);
      assert Linked(View()) by { LinkedStep(settings, before, Clean); }
    }
  }

  // ---------- runs: any interleaving ----------

  ghost predicate IsRun(p: Settings, h: seq<Op>)
    decreases |h|, 0
  {
    h == [] || (IsRun(p, h[..|h| - 1]) && Enabled(Run(p, h[..|h| - 1]), h[|h| - 1]))
  }

  ghost function Run(p: Settings, h: seq<Op>): State
    requires IsRun(p, h)
    decreases |h|, 1
  {
    if h == [] then START else Apply(p, Run(p, h[..|h| - 1]), h[|h| - 1])
  }

  lemma CleanOne(p: Settings, s: State, todo: set<string>, k: string)
    requires todo <= s.byLogin.Keys && k in todo && s.byLogin[k] in s.heap
    ensures CleanedBut(p, s, todo - {k}) ==
            if Stale(p, s, k) then CleanedBut(p, s, todo) - {k} else CleanedBut(p, s, todo)
    ensures CleanedBut(p, s, todo)[k] == s.byLogin[k]
    ensures todo - {k} <= CleanedBut(p, s, todo - {k}).Keys
  {
  }

  // Entries and calls point at allocated objects, and no two entries share one.
  predicate Linked(s: State) {
    && (forall l :: l in s.byLogin ==> s.byLogin[l] in s.heap)
    && (forall l, m :: l in s.byLogin && m in s.byLogin && s.byLogin[l] == s.byLogin[m] ==> l == m)
    && (forall t :: t in s.calls ==> s.calls[t].obj in s.heap)
    && (forall o :: o in s.heap ==> o < s.next)
  }

  predicate SleepsOn(c: Call, obj: nat) {
    c.Sleeping? && c.obj == obj
  }

  function SleepersIn(calls: map<nat, Call>, obj: nat): set<nat> {
    set t | t in calls && SleepsOn(calls[t], obj)
  }

  function Sleepers(s: State, obj: nat): set<nat> {
    SleepersIn(s.calls, obj)
  }

  predicate PendingExact(s: State) {
    forall o :: o in s.heap ==> s.heap[o].pendingFailures == |Sleepers(s, o)|
  }

  // Change in the number of sleepers on o when op is taken.
  function SleeperChange(s: State, op: Op, o: nat): int
    requires Enabled(s, op)
  {
    if op.Sleep? && s.calls[op.t].obj == o then 1
    else if op.Wake? && s.calls[op.t].obj == o then -1
    else 0
  }

  lemma SleepersUpdate(calls: map<nat, Call>, t: nat, c: Call, o: nat)
    ensures SleepersIn(calls[t := c], o) == if SleepsOn(c, o) then SleepersIn(calls, o) + {t} else SleepersIn(calls, o) - {t}
    ensures SleepersIn(calls - {t}, o) == SleepersIn(calls, o) - {t}
  {
  }

  lemma SleepersStep(p: Settings, s: State, op: Op, o: nat)
    requires Enabled(s, op)
    ensures |Sleepers(Apply(p, s, op), o)| == |Sleepers(s, o)| + SleeperChange(s, op, o)
  {
    match op
    case Record(t, _) => SleepersUpdate(s.calls, t, Apply(p, s, op).calls[t], o);
    case Sleep(t) => SleepersUpdate(s.calls, t, Apply(p, s, op).calls[t], o);
    case Wake(t) => SleepersUpdate(s.calls, t, s.calls[t], o);
    case _ =>
  }

  lemma LinkedStep(p: Settings, s: State, op: Op)
    requires Linked(s) && Enabled(s, op)
    ensures Linked(Apply(p, s, op))
  {
  }

  lemma PendingStep(p: Settings, s: State, op: Op)
    requires Linked(s) && PendingExact(s) && Enabled(s, op)
    ensures PendingExact(Apply(p, s, op))
  {
    var t := Apply(p, s, op);
    forall o | o in t.heap ensures t.heap[o].pendingFailures == |Sleepers(t, o)| {
      SleepersStep(p, s, op, o);
      if o !in s.heap {
        assert Sleepers(s, o) == {};
      }
    }
  }

  // For any interleaving, each object's pending count is the number of calls
  // sleeping on it, whether or not the cleaner has unlinked the object.
  lemma {:induction false} PendingCountsSleepers(p: Settings, h: seq<Op>)
    requires IsRun(p, h)
    ensures Linked(Run(p, h)) && PendingExact(Run(p, h))
    decreases |h|
  {
    if h == [] {
    } else {
      var n := |h| - 1;
      PendingCountsSleepers(p, h[..n]);
      LinkedStep(p, Run(p, h[..n]), h[n]);
      PendingStep(p, Run(p, h[..n]), h[n]);
    }
  }

  // So once every call has returned no object has anything pending.
  lemma PendingDrains(p: Settings, h: seq<Op>, o: nat)
    requires IsRun(p, h) && o in Run(p, h).heap
    ensures Run(p, h).heap[o].pendingFailures >= 0
    ensures Run(p, h).calls == map[] ==> Run(p, h).heap[o].pendingFailures == 0
  {
    PendingCountsSleepers(p, h);
    if Run(p, h).calls == map[] {
      assert Sleepers(Run(p, h), o) == {};
    }
  }

  // An entry is full exactly while more calls than allowed sleep on it.
  lemma LockedIff(p: Settings, h: seq<Op>, login: string)
    requires IsRun(p, h)
    ensures var s := Run(p, h);
            TooMany(p, s, login) <==> login in s.byLogin && |Sleepers(s, s.byLogin[login])| > p.maxPendingFailure
  {
    PendingCountsSleepers(p, h);
  }

  ghost predicate Crowded(p: Settings, s: State, name: string) {
    name in s.byLogin && |Sleepers(s, s.byLogin[name])| > p.maxPendingFailure
  }

  // A login is locked out exactly while too many calls sleep on its entry or on
  // the unknown user's, a token exactly while they do on the unknown token's.
  lemma EntryLockedIff(p: Settings, h: seq<Op>, login: string)
    requires IsRun(p, h)
    ensures LoginLocked(p, Run(p, h), login) <==>
            Crowded(p, Run(p, h), login) || Crowded(p, Run(p, h), "_unknownUser_")
    ensures TokenLocked(p, Run(p, h)) <==> Crowded(p, Run(p, h), "_unknownToken_")
  {
    LockedIff(p, h, login);
    LockedIff(p, h, UNKNOWN_USER);
    LockedIff(p, h, UNKNOWN_TOKEN);
  }

  // Failures of this login since its entry was last created.
  ghost function FailuresSince(p: Settings, h: seq<Op>, login: string): nat
    requires IsRun(p, h)
    decreases |h|
  {
    if h == [] then 0
    else
      var n := |h| - 1;
      var before := FailuresSince(p, h[..n], login);
      match h[n]
      case Record(_, l) => if l == login then before + 1 else before
      case Clean => if Stale(p, Run(p, h[..n]), login) then 0 else before
      case _ => before
  }

  lemma {:induction false} FailureCountExact(p: Settings, h: seq<Op>, login: string)
    requires IsRun(p, h)
    ensures var s := Run(p, h);
            && (login !in s.byLogin ==> FailuresSince(p, h, login) == 0)
            && (login in s.byLogin ==>
                  s.byLogin[login] in s.heap && s.heap[s.byLogin[login]].nbrOfFailure == FailuresSince(p, h, login))
    decreases |h|
  {
    if h == [] {
    } else {
      var n := |h| - 1;
      FailureCountExact(p, h[..n], login);
      PendingCountsSleepers(p, h[..n]);
      FailureCountStep(p, Run(p, h[..n]), h[n], login);
    }
  }

  lemma FailureCountStep(p: Settings, s: State, op: Op, login: string)
    requires Linked(s) && Enabled(s, op)
    ensures var t := Apply(p, s, op);
            && (login in t.byLogin <==>
                  (login in s.byLogin && !(op.Clean? && Stale(p, s, login))) || (op.Record? && op.login == login))
            && (login in t.byLogin ==>
                  t.byLogin[login] in t.heap &&
                  t.heap[t.byLogin[login]].nbrOfFailure ==
                    (if login in s.byLogin then s.heap[s.byLogin[login]].nbrOfFailure else 0) +
                    (if op.Record? && op.login == login then 1 else 0))
  {
  }

  // ---------- runs with bounded scheduling lag ----------

  // ---------- every call sleeps its own penalty ----------

  // What call t itself does.
  predicate Moves(op: Op, t: nat) {
    (op.Record? || op.Sleep? || op.Wake?) && op.t == t
  }

  lemma {:induction false} RunPrefix(p: Settings, h: seq<Op>, j: nat)
    requires IsRun(p, h) && j <= |h|
    ensures IsRun(p, h[..j])
    decreases |h|
  {
    if j == |h| {
      assert h[..j] == h;
    } else {
      RunPrefix(p, h[..|h| - 1], j);
      assert h[..|h| - 1][..j] == h[..j];
    }
  }

  lemma {:induction false} CallWaits(p: Settings, h: seq<Op>, i: nat, t: nat)
    requires IsRun(p, h) && i < |h| && forall m :: i < m < |h| ==> !Moves(h[m], t)
    ensures IsRun(p, h[..i + 1])
    ensures var s := Run(p, h[..i + 1]);
            t in s.calls ==> t in Run(p, h).calls && Run(p, h).calls[t] == s.calls[t]
    decreases |h|
  {
    var n := |h| - 1;
    if i == n {
      assert h[..i + 1] == h;
    } else {
      assert h[..n][..i + 1] == h[..i + 1];
      CallWaits(p, h[..n], i, t);
      assert !Moves(h[n], t);
    }
  }

  function Penalty(p: Settings, failures: int): int {
    var d := DelayFromFailureCount(p, failures);
    if d < 0 then 0 else d
  }

  lemma RecordedAt(p: Settings, h: seq<Op>, t: nat, login: string)
    requires h != [] && IsRun(p, h) && h[|h| - 1] == Record(t, login)
    ensures var s := Run(p, h);
            t in s.calls && s.calls[t].Recorded? && s.calls[t].count == FailuresSince(p, h, login)
  {
    FailureCountExact(p, h, login);
  }

  // A call that recorded a failure sleeps, whenever it gets to it, exactly the
  // penalty for the failures its login had at that moment.
  lemma CallSleepsItsPenalty(p: Settings, h: seq<Op>, i: nat, t: nat, login: string)
    requires IsRun(p, h) && i < |h| - 1 && h[i] == Record(t, login) && h[|h| - 1] == Sleep(t)
    requires forall m :: i < m < |h| - 1 ==> !Moves(h[m], t)
    ensures IsRun(p, h[..i + 1])
    ensures var s := Run(p, h);
            && t in s.calls && s.calls[t].Sleeping?
            && s.calls[t].until == s.now + Penalty(p, FailuresSince(p, h[..i + 1], login))
  {
    var n := |h| - 1;
    RunPrefix(p, h, i + 1);
    assert h[..n][..i + 1] == h[..i + 1];
    CallWaits(p, h[..n], i, t);
    RecordedAt(p, h[..i + 1], t, login);
  }

  // startLag bounds the time a call may stay between its locked section and its
  // sleep, wakeLag the time between the end of its sleep and its return.
  datatype Lag = Lag(start: nat, wake: nat)

  predicate InTime(s: State, lag: Lag) {
    forall t :: t in s.calls ==>
      match s.calls[t]
      case Recorded(_, at, _) => s.now <= at + lag.start
      case Sleeping(_, until) => s.now <= until + lag.wake
  }

  ghost predicate IsTimely(p: Settings, h: seq<Op>, lag: Lag)
    requires IsRun(p, h)
    decreases |h|
  {
    h == [] || (IsTimely(p, h[..|h| - 1], lag) && InTime(Run(p, h), lag))
  }

  // Every failure count a run can reach is slept for at most cap.
  ghost predicate Capped(p: Settings, cap: int) {
    forall n: int :: n >= 1 ==> Slept(p, n) <= cap
  }

  // A call ends its sleep within lag.start + cap of its object's last failure.
  predicate SleepsBounded(s: State, lag: Lag, cap: int) {
    forall t :: t in s.calls ==>
      match s.calls[t]
      case Recorded(o, at, count) => o in s.heap && at <= s.heap[o].lastFailure && count >= 1
      case Sleeping(o, until) => o in s.heap && until <= s.heap[o].lastFailure + lag.start + cap
  }

  predicate ClockAhead(s: State) {
    forall o :: o in s.heap ==> s.heap[o].lastFailure <= s.now && s.heap[o].nbrOfFailure >= 0
  }

  lemma SleepsBoundedStep(p: Settings, s: State, op: Op, lag: Lag, cap: int)
    requires Linked(s) && SleepsBounded(s, lag, cap) && InTime(s, lag) && ClockAhead(s)
    requires Enabled(s, op) && Capped(p, cap)
    ensures SleepsBounded(Apply(p, s, op), lag, cap) && ClockAhead(Apply(p, s, op))
  {
    if op.Sleep? {
      assert Slept(p, s.calls[op.t].count) <= cap;
    }
  }

  lemma {:induction false} TimelyRunsBounded(p: Settings, h: seq<Op>, lag: Lag, cap: int)
    requires IsRun(p, h) && IsTimely(p, h, lag) && Capped(p, cap)
    ensures SleepsBounded(Run(p, h), lag, cap) && InTime(Run(p, h), lag) && ClockAhead(Run(p, h))
    decreases |h|
  {
    if h == [] {
    } else {
      var n := |h| - 1;
      TimelyRunsBounded(p, h[..n], lag, cap);
      PendingCountsSleepers(p, h[..n]);
      SleepsBoundedStep(p, Run(p, h[..n]), h[n], lag, cap);
    }
  }

  // Cleaning now would unlink an entry that a call still works on.
  predicate Unsafe(p: Settings, s: State) {
    exists t, l :: t in s.calls && l in s.byLogin && s.calls[t].obj == s.byLogin[l] && Stale(p, s, l)
  }

  lemma LongDelayIsSafe(p: Settings, h: seq<Op>, lag: Lag)
    requires IsRun(p, h) && IsTimely(p, h, lag) && Capped(p, p.cleanDelay - lag.start - lag.wake)
    ensures !Unsafe(p, Run(p, h))
  {
    TimelyRunsBounded(p, h, lag, p.cleanDelay - lag.start - lag.wake);
    assert Slept(p, 1) >= 0;
  }

  // ---------- the bound on cleanDelay is tight ----------

  lemma Snoc(p: Settings, h: seq<Op>, op: Op, lag: Lag)
    requires IsRun(p, h) && IsTimely(p, h, lag) && Enabled(Run(p, h), op) && InTime(Apply(p, Run(p, h), op), lag)
    ensures IsRun(p, h + [op]) && IsTimely(p, h + [op], lag) && Run(p, h + [op]) == Apply(p, Run(p, h), op)
  {
    assert (h + [op])[..|h|] == h;
  }

  // After n failures of one login, each slept through before the next.
  ghost predicate AfterFailures(p: Settings, h: seq<Op>, n: nat, lag: Lag) {
    && IsRun(p, h) && IsTimely(p, h, lag)
    && var s := Run(p, h);
    && s.calls == map[]
    && (n == 0 ==> s == START)
    && (n > 0 ==> "x" in s.byLogin && s.byLogin["x"] in s.heap && s.heap[s.byLogin["x"]].nbrOfFailure == n)
  }

  // Call 0 sleeps on the entry of "x", whose failure n was recorded at time t0.
  predicate OneAsleep(p: Settings, s: State, n: nat, t0: int, wait: nat) {
    && "x" in s.byLogin && s.byLogin["x"] in s.heap
    && s.heap[s.byLogin["x"]].lastFailure == t0 && s.heap[s.byLogin["x"]].nbrOfFailure == n
    && s.now == t0 + wait
    && s.calls == map[0 := Sleeping(s.byLogin["x"], s.now + Slept(p, n))]
  }

  // Call 0 has recorded failure n of "x" at time t0 and nothing else runs.
  predicate OneRecorded(s: State, n: nat, t0: int, wait: nat) {
    && "x" in s.byLogin && s.byLogin["x"] in s.heap
    && s.heap[s.byLogin["x"]].lastFailure == t0 && s.heap[s.byLogin["x"]].nbrOfFailure == n
    && s.now == t0 + wait
    && s.calls == map[0 := Recorded(s.byLogin["x"], t0, n)]
  }

  lemma RecordOne(p: Settings, s: State, n: nat)
    requires s.calls == map[] && (n == 0 ==> s == START)
    requires n > 0 ==> "x" in s.byLogin && s.byLogin["x"] in s.heap && s.heap[s.byLogin["x"]].nbrOfFailure == n
    ensures OneRecorded(Apply(p, s, Record(0, "x")), n + 1, s.now, 0)
  {
  }

  lemma WaitRecorded(p: Settings, s: State, n: nat, t0: int, wait: nat)
    requires OneRecorded(s, n, t0, 0)
    ensures OneRecorded(Apply(p, s, Tick(wait)), n, t0, wait)
  {
  }

  lemma SleepOne(p: Settings, s: State, n: nat, t0: int, wait: nat)
    requires OneRecorded(s, n, t0, wait)
    ensures Enabled(s, Sleep(0)) && OneAsleep(p, Apply(p, s, Sleep(0)), n, t0, wait)
  {
  }

  lemma PutToSleep(p: Settings, h: seq<Op>, n: nat, lag: Lag, wait: nat) returns (h': seq<Op>)
    requires AfterFailures(p, h, n, lag) && wait <= lag.start
    ensures IsRun(p, h') && IsTimely(p, h', lag) && OneAsleep(p, Run(p, h'), n + 1, Run(p, h).now, wait)
  {
    var t0 := Run(p, h).now;
    RecordOne(p, Run(p, h), n);
    Snoc(p, h, Record(0, "x"), lag);
    h' := h + [Record(0, "x")];
    WaitRecorded(p, Run(p, h'), n + 1, t0, wait);
    Snoc(p, h', Tick(wait), lag);
    h' := h' + [Tick(wait)];
    SleepOne(p, Run(p, h'), n + 1, t0, wait);
    Snoc(p, h', Sleep(0), lag);
    h' := h' + [Sleep(0)];
  }

  lemma OneMoreFailure(p: Settings, h: seq<Op>, n: nat, lag: Lag) returns (h': seq<Op>)
    requires AfterFailures(p, h, n, lag)
    ensures AfterFailures(p, h', n + 1, lag)
  {
    var h1 := PutToSleep(p, h, n, lag, 0);
    var d := Slept(p, n + 1);
    Snoc(p, h1, Tick(d), lag);
    var h2 := h1 + [Tick(d)];
    Snoc(p, h2, Wake(0), lag);
    h' := h2 + [Wake(0)];
    assert Run(p, h').calls == map[];
  }

  lemma {:induction false} ManyFailures(p: Settings, n: nat, lag: Lag) returns (h: seq<Op>)
    ensures AfterFailures(p, h, n, lag)
    decreases n
  {
    if n == 0 {
      h := [];
    } else {
      var before := ManyFailures(p, n - 1, lag);
      h := OneMoreFailure(p, before, n - 1, lag);
    }
  }

  // One call as late as the lag allows, at failure number n + 1.
  lemma LateCall(p: Settings, h: seq<Op>, n: nat, lag: Lag) returns (h': seq<Op>)
    requires AfterFailures(p, h, n, lag)
    requires p.cleanDelay < Slept(p, n + 1) + lag.start + lag.wake
    ensures IsRun(p, h') && IsTimely(p, h', lag) && Unsafe(p, Run(p, h'))
  {
    var h1 := PutToSleep(p, h, n, lag, lag.start);
    var d := Slept(p, n + 1) + lag.wake;
    Snoc(p, h1, Tick(d), lag);
    h' := h1 + [Tick(d)];
    var t := Run(p, h');
    assert Stale(p, t, "x");
    assert 0 in t.calls && t.calls[0].obj == t.byLogin["x"];
  }

  ghost predicate SafeIfTimely(p: Settings, h: seq<Op>, lag: Lag) {
    IsRun(p, h) && IsTimely(p, h, lag) ==> !Unsafe(p, Run(p, h))
  }

  // The cleaner never unlinks an entry a call still works on, in every run with
  // that lag, if and only if cleanDelay covers every penalty plus the lag.
  lemma CleanerSafeIff(p: Settings, lag: Lag)
    ensures (forall h :: SafeIfTimely(p, h, lag)) <==> Capped(p, p.cleanDelay - lag.start - lag.wake)
  {
    if Capped(p, p.cleanDelay - lag.start - lag.wake) {
      forall h ensures SafeIfTimely(p, h, lag) {
        if IsRun(p, h) && IsTimely(p, h, lag) { LongDelayIsSafe(p, h, lag); }
      }
    } else {
      var n: int :| n >= 1 && Slept(p, n) > p.cleanDelay - lag.start - lag.wake;
      var h := ManyFailures(p, n - 1, lag);
      var h' := LateCall(p, h, n - 1, lag);
      assert !SafeIfTimely(p, h', lag);
    }
  }

  // A failure count at which the full penalty applies.
  lemma FullPenaltyCount(p: Settings) returns (n: int)
    requires Sane(p) && p.penaltyByFailure > 0 && p.maxPenalty + p.penaltyByFailure <= MAX64
    ensures n >= 1 && DelayFromFailureCount(p, n) == p.maxPenalty
  {
    var k := p.maxPenalty / p.penaltyByFailure;
    n := p.freeFailure + k + 1;
    var product := (k + 1) * p.penaltyByFailure;
    assert k * p.penaltyByFailure <= p.maxPenalty < product;
    assert product == k * p.penaltyByFailure + p.penaltyByFailure;
    DelayIdealIff(p, n);
  }

  // When the full penalty is reached before the product overflows, that is the
  // bound cleanDelay >= maxPenalty + lag.
  lemma CleanerSafeByMaxPenalty(p: Settings, lag: Lag)
    requires Sane(p) && p.penaltyByFailure > 0 && p.maxPenalty + p.penaltyByFailure <= MAX64
    ensures (forall h :: SafeIfTimely(p, h, lag)) <==> p.cleanDelay >= p.maxPenalty + lag.start + lag.wake
  {
    CleanerSafeIff(p, lag);
    var n := FullPenaltyCount(p);
    assert Slept(p, n) == p.maxPenalty;
    forall m: int | m >= 1 ensures Slept(p, m) <= p.maxPenalty {
      DelayNeverAboveMax(p, m);
    }
  }
}
