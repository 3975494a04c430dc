/** Exactly when the retry protocol comes to rest with keys left behind: a policy that is not positive
    sets a key without expiry, which wakes nobody (libs/redis/redis_notification.go). */
module RetryRest {
  import opened GoStrings
  import opened Payloads
  import opened RetryProtocol
  import opened RetryTermination
  import opened RetryIndex
  import opened RetryLocks
  import opened RetryMaximum

  /** The key of this payload is set and has no expiry. */
  ghost predicate Inert(c: Config, s: State, p: Payload) {
    && Clean(p.value) && 0 <= p.count < |c.policies| && c.policies[p.count] <= 0
    && c.RetryKey(p) in s.store && s.store[c.RetryKey(p)] == Timer(c.policies[p.count])
  }

  /** Such a key stays: it does not expire, no lock is kept under it, and it is set again only for the
      same payload. */
  lemma InertStays(c: Config, s: State, e: Event, p: Payload)
    requires c.Valid() && Safe(c, s) && Enabled(c, s, e) && !e.Put? && Inert(c, s, p)
    ensures Inert(c, Step(c, s, e), p)
  {
    if e.Arm? {
      var q := s.subs[e.i].pc.p;
      assert SubSafe(c, s, e.i);
      if 0 <= q.count < |c.policies| {
        ArmedDecodes(c, p);
        ArmedDecodes(c, q);
      }
    } else if e.Release? {
      assert SubSafe(c, s, e.i);
    }
  }

  /** What the extension to a stuck state keeps. */
  ghost predicate Kept(c: Config, s: State, p: Payload) {
    Safe(c, s) && InBounds(c, s) && ArmsBelow(|c.policies|, s) && Inert(c, s, p)
  }

  lemma KeptStep(c: Config, s: State, e: Event, p: Payload)
    requires c.Valid() && Kept(c, s, p) && Enabled(c, s, e) && !e.Put?
    ensures Kept(c, Step(c, s, e), p)
    ensures Weight(Steps, c, |c.policies|, Step(c, s, e)) < Weight(Steps, c, |c.policies|, s)
  {
    SafeStep(c, s, e);
    InBoundsStep(c, s, e);
    ArmsBelowStep(c, |c.policies|, s, e);
    InertStays(c, s, e, p);
    StepWeight(Steps, c, |c.policies|, s, e);
  }

  /** Every run can be continued until no reliable step is left. */
  lemma {:induction false} Exhaust(c: Config, s: State, p: Payload) returns (es: seq<Event>, t: State)
    requires c.Valid() && Kept(c, s, p)
    ensures Run(c, s, es, t) && Internal(c, es) && Stuck(c, t) && Kept(c, t, p)
    decreases Weight(Steps, c, |c.policies|, s)
  {
    es, t := [], s;
    if e: Event :| !e.Put? && Reliable(c, e) && Enabled(c, s, e) {
      KeptStep(c, s, e, p);
      var more, end := Exhaust(c, Step(c, s, e), p);
      Prepend(c, s, e, more, end);
      es, t := [e] + more, end;
    }
  }

  /** Subscriber 0 has just the message for this payload to work on. */
  ghost predicate Front(c: Config, s: State, p: Payload) {
    Calm(c, s, p.value) && CanAttempt(c, s, 0, p) && |s.subs[0].queue| == 1
  }

  /** From there the attempts go on until the key for the count `k` is set. */
  lemma {:induction false} ArmsUpTo(c: Config, s: State, p: Payload, k: nat) returns (es: seq<Event>, t: State)
    requires c.Valid() && Clean(p.value) && Front(c, s, p) && 0 <= p.count < k < |c.policies| && c.policies[k] <= 0
    requires forall j | p.count < j < k :: c.Wakes(j)
    ensures Run(c, s, es, t) && Internal(c, es) && Inert(c, t, Payload(p.value, k)) && Blocked(c, t, p.value)
    decreases k - p.count
  {
    hide Calm, Blocked;
    if p.count + 1 == k {
      es, t := ArmsLast(c, s, p);
    } else {
      var q := p.(count := p.count + 1);
      var es1, m := Attempt(c, s, 0, p);
      var es2, m2 := AskAgain(c, m, 0, q);
      InternalConcat(c, s, es1, m, es2, m2);
      NextFront(c, s, p, m2);
      var es3, m3 := ArmsUpTo(c, m2, q, k);
      InternalConcat(c, s, es1 + es2, m2, es3, m3);
      es, t := es1 + es2 + es3, m3;
    }
  }

  lemma NextFront(c: Config, s: State, p: Payload, t: State)
    requires c.Valid() && Clean(p.value) && Front(c, s, p) && c.Wakes(p.count + 1)
    requires Repeated(c, s, 0, p.(count := p.count + 1), t)
    ensures Front(c, t, p.(count := p.count + 1))
  {
    hide Calm;
    var q := p.(count := p.count + 1);
    RepeatedCalm(c, s, p.value, 0, p, t);
    ArmedDecodes(c, q);
    KeysDisjoint(c, p.value, q);
    assert 0 in Everyone(|c.nodes|);
    assert t.subs[0] == Sub([c.Channel(c.RetryKey(q))], Idle);
  }

  /** The last key is one without expiry. */
  lemma ArmsLast(c: Config, s: State, p: Payload) returns (es: seq<Event>, t: State)
    requires c.Valid() && Clean(p.value) && Front(c, s, p) && 0 <= p.count + 1 < |c.policies| && c.policies[p.count + 1] <= 0
    ensures Run(c, s, es, t) && Internal(c, es) && Inert(c, t, Payload(p.value, p.count + 1)) && Blocked(c, t, p.value)
  {
    var q := p.(count := p.count + 1);
    var m, m2;
    es, m := Attempt(c, s, 0, p);
    Extend(c, s, es, m, Return(0, true));
    es, m2 := es + [Return(0, true)], Step(c, m, Return(0, true));
    Extend(c, s, es, m2, Arm(0, true));
    es, t := es + [Arm(0, true)], Step(c, m2, Arm(0, true));
    KeysDisjoint(c, p.value, q);
    assert t.subs == s.subs[0 := Sub([], Idle)];
    assert t.store == s.store[c.LockKey(q.value) := Owner(c.Id(0))][c.RetryKey(q) := Timer(c.policies[q.count])];
    QueueShorter(s, 0, p.value, t);
  }

  // ---- a lock that nobody comes back for ----

  /** Subscriber 0 holds the lock of `v` and waits for nothing; all that the others can do is to try
      for it. */
  ghost predicate Blocked(c: Config, s: State, v: string) {
    && !s.fault && |s.subs| == |c.nodes| > 0 && Owns(c, s, 0, v) && s.subs[0] == Sub([], Idle)
    && QueuesConcern(s, v)
    && (forall i | 0 <= i < |s.subs| :: Trying(s.subs[i].pc, v))
    && (forall key | key in s.store && s.store[key].Timer? :: s.store[key].delay <= 0)
  }

  predicate Trying(pc: Pc, v: string) {
    pc.Idle? || ((pc.Locking? || pc.Checking?) && pc.p.value == v)
  }

  lemma BlockedStep(c: Config, s: State, e: Event, v: string)
    requires c.Valid() && Blocked(c, s, v) && Enabled(c, s, e) && !e.Put?
    ensures Blocked(c, Step(c, s, e), v)
  {
    assert e.Receive? || e.TryLock? || e.CheckOwner?;
    assert Trying(s.subs[e.i].pc, v);
    if e.Receive? {
      assert Concerns(s.subs[e.i].queue[0], v);
      QueueShorter(s, e.i, v, s.(subs := s.subs[e.i := Sub(s.subs[e.i].queue[1..], Idle)]));
    } else if c.Id(e.i) == c.Id(0) {
      IdInjective(c, e.i, 0);
    }
  }

  lemma {:induction false} BlockedRun(c: Config, s: State, es: seq<Event>, t: State, v: string)
    requires c.Valid() && Blocked(c, s, v) && Run(c, s, es, t) && Internal(c, es)
    ensures Blocked(c, t, v)
    decreases |es|
  {
    if es != [] {
      assert !es[0].Put?;
      BlockedStep(c, s, es[0], v);
      assert forall k | 0 <= k < |es[1..]| :: es[1..][k] == es[k + 1];
      BlockedRun(c, Step(c, s, es[0]), es[1..], t, v);
    }
  }

  // ---- the two results ----

  /** The policy that a run can come to rest at. */
  ghost predicate Dead(c: Config, k: nat) {
    k < |c.policies| && c.policies[k] <= 0 && (k == 0 || |c.nodes| > 0)
  }

  ghost predicate FirstDead(c: Config, k: nat) {
    Dead(c, k) && forall j | 0 <= j < k :: c.Wakes(j)
  }

  /** A run from one notification sets the key of the first policy that is not positive. */
  lemma ReachInert(c: Config, s: State, k: nat) returns (es: seq<Event>, t: State)
    requires c.Valid() && Init(c, s) && FirstDead(c, k)
    ensures Run(c, s, es, t) && ReliableRun(c, es) && OnlyPuts(es, "x") && Inert(c, t, Payload("x", k))
    ensures k > 0 ==> Blocked(c, t, "x")
  {
    XIsClean();
    var put := Put("x", true);
    if k == 0 {
      es, t := [put], Step(c, s, put);
      assert es[1..] == [];
    } else {
      hide Blocked, Inert;
      var first, m := FirstMessage(c, s, "x");
      XIsFront(c, m);
      var more;
      more, t := ArmsUpTo(c, m, Payload("x", 0), k);
      AfterFirst(c, s, first, m, more, t, "x");
      es := first + more;
    }
  }

  lemma XIsFront(c: Config, t: State)
    requires c.Valid() && |c.nodes| > 0 && JustNotified(c, t, "x")
    ensures Front(c, t, Payload("x", 0))
  {
    XIsClean();
    ArmedDecodes(c, Payload("x", 0));
  }

  lemma XIsClean()
    ensures Clean("x")
  {
    forall i: nat ensures !OccursAt("x", "||", i) { BarsOccur("x", i); }
  }

  lemma XSound(c: Config, es: seq<Event>)
    requires OnlyPuts(es, "x")
    ensures SoundRun(c, es)
  {
    XIsClean();
    FirstCounted(c, "x", Payload("x", 0));
  }

  /** A reliable run that cannot be continued, except by a new notification. */
  ghost predicate ComesToRest(c: Config, s: State, es: seq<Event>, t: State) {
    Run(c, s, es, t) && ReliableRun(c, es) && !t.fault && Stuck(c, t)
  }

  lemma InertRun(c: Config, s: State, k: nat) returns (es: seq<Event>, t: State)
    requires c.Valid() && Init(c, s) && FirstDead(c, k)
    ensures ComesToRest(c, s, es, t) && c.RetryKey(Payload("x", k)) in t.store
    ensures k > 0 ==> c.LockKey("x") in t.store && t.store[c.LockKey("x")].Owner?
  {
    var es1, m := ReachInert(c, s, k);
    XSound(c, es1);
    InBoundsRun(c, s, es1, m);
    assert forall i | 0 <= i < |m.subs| :: SubInBounds(c, m.subs[i]);
    var es2;
    es2, t := Exhaust(c, m, Payload("x", k));
    if k > 0 { BlockedRun(c, m, es2, t, "x"); }
    RunConcat(c, s, es1, m, es2, t);
    es := es1 + es2;
  }

  lemma {:induction false} FindFirstDead(c: Config, k: nat) returns (j: nat)
    requires Dead(c, k)
    ensures FirstDead(c, j) && j <= k
    decreases k
  {
    j := k;
    if i: nat :| i < k && !c.Wakes(i) { j := FindFirstDead(c, i); }
  }

  ghost predicate CanRestWithKeys(c: Config, s: State) {
    exists es, t :: ComesToRest(c, s, es, t) && t.store != map[]
  }

  /** Exactly when a reliable run can come to rest with keys left in the store: if and only if some
      policy is not positive, the first one or one that somebody can arm. */
  lemma RestsWithKeysIff(c: Config, s: State)
    requires c.Valid() && Init(c, s)
    ensures CanRestWithKeys(c, s) <==> exists k: nat :: Dead(c, k)
  {
    if k: nat :| Dead(c, k) {
      var j := FindFirstDead(c, k);
      var es, t := InertRun(c, s, j);
      assert ComesToRest(c, s, es, t) && t.store != map[];
    } else {
      AllWakeUnlessDead(c);
      forall es, t | ComesToRest(c, s, es, t) ensures t.store == map[] { RestsEmpty(c, s, es, t); }
    }
  }

  lemma AllWakeUnlessDead(c: Config)
    requires c.Valid() && forall k: nat :: !Dead(c, k)
    ensures c.Wakes(0) && (c.AllWake() || |c.nodes| == 0)
  {
    assert !Dead(c, 0);
    if |c.nodes| > 0 {
      forall k: nat | k < |c.policies| ensures c.Wakes(k) { assert !Dead(c, k); }
    }
  }

  ghost predicate HasLock(s: State, key: string) {
    key in s.store && s.store[key].Owner?
  }

  ghost predicate CanRestLocked(c: Config, s: State) {
    exists es, t, key :: ComesToRest(c, s, es, t) && HasLock(t, key)
  }

  /** Exactly when a lock can be held for good though nothing was lost: if and only if the first policy
      wakes somebody and a later one does not. */
  lemma RestsLockedIff(c: Config, s: State)
    requires c.Valid() && Init(c, s)
    ensures CanRestLocked(c, s) <==> |c.nodes| > 0 && c.Wakes(0) && !c.AllWake()
  {
    if |c.nodes| > 0 && c.Wakes(0) && !c.AllWake() {
      var k :| 0 <= k < |c.policies| && !c.Wakes(k);
      var j := FindFirstDead(c, k);
      var es, t := InertRun(c, s, j);
      assert ComesToRest(c, s, es, t) && HasLock(t, c.LockKey("x"));
    } else {
      forall es, t, key | ComesToRest(c, s, es, t) ensures !HasLock(t, key) {
        if c.Wakes(0) { RestsEmpty(c, s, es, t); } else { StaysDormant(c, s, es, t); }
      }
    }
  }
}
