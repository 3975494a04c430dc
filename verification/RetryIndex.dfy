/** Exactly when the retry protocol indexes outside its policies (libs/redis/redis_notification.go). */
module RetryIndex {
  import opened GoStrings
  import opened Payloads
  import opened RetryProtocol

  ghost predicate SoundPut(c: Config, e: Event) {
    e.Put? ==> FirstCount(c, e.value) >= -1
  }

  predicate ChannelInBounds(channel: string) {
    Decode(channel).Some? && -1 <= Decode(channel).value.count
  }

  predicate SubInBounds(c: Config, sub: Sub) {
    && (forall k | 0 <= k < |sub.queue| :: ChannelInBounds(sub.queue[k]))
    && (!sub.pc.Idle? ==> 0 <= sub.pc.p.count)
    && (sub.pc.Arming? ==> sub.pc.p.count < |c.policies|)
  }

  ghost predicate InBounds(c: Config, s: State) {
    && !s.fault
    && (forall key | key in s.store && s.store[key].Timer? :: ChannelInBounds(c.Channel(key)))
    && forall i | 0 <= i < |s.subs| :: SubInBounds(c, s.subs[i])
  }

  lemma InBoundsSet(c: Config, s: State, e: Event)
    requires c.Valid() && Safe(c, s) && InBounds(c, s) && Enabled(c, s, e) && SoundPut(c, e) && (e.Put? || e.Arm?)
    ensures InBounds(c, Step(c, s, e))
  {
    if e.Put? {
      PutDecodes(c, e.value);
    } else {
      assert SubSafe(c, s, e.i) && SubInBounds(c, s.subs[e.i]);
      ArmedDecodes(c, s.subs[e.i].pc.p);
    }
  }

  lemma InBoundsStep(c: Config, s: State, e: Event)
    requires c.Valid() && Safe(c, s) && InBounds(c, s) && Enabled(c, s, e) && SoundPut(c, e)
    ensures InBounds(c, Step(c, s, e))
  {
    if e.Put? || e.Arm? {
      InBoundsSet(c, s, e);
    } else {
      var t := Step(c, s, e);
      forall i | 0 <= i < |t.subs| ensures SubInBounds(c, t.subs[i]) {
        assert SubInBounds(c, s.subs[i]);
      }
    }
  }

  ghost predicate SoundRun(c: Config, es: seq<Event>) {
    forall k | 0 <= k < |es| :: SoundPut(c, es[k])
  }

  lemma {:induction false} InBoundsRun(c: Config, s: State, es: seq<Event>, t: State)
    requires c.Valid() && Safe(c, s) && InBounds(c, s) && Run(c, s, es, t) && SoundRun(c, es)
    ensures Safe(c, t) && InBounds(c, t)
    decreases |es|
  {
    if es != [] {
      assert SoundPut(c, es[0]);
      SafeStep(c, s, es[0]);
      InBoundsStep(c, s, es[0]);
      assert forall k | 0 <= k < |es[1..]| :: es[1..][k] == es[k + 1];
      InBoundsRun(c, Step(c, s, es[0]), es[1..], t);
    }
  }

  ghost predicate OnlyPuts(es: seq<Event>, value: string) {
    forall k | 0 <= k < |es| && es[k].Put? :: es[k].value == value
  }

  /** The panic of a bad index is reachable when only `value` is put, once or more often. */
  ghost predicate CanFault(c: Config, s: State, value: string) {
    exists es: seq<Event>, t: State :: Run(c, s, es, t) && t.fault && OnlyPuts(es, value)
  }

  /** Nobody is ever woken: when the first policy is not positive, a notification sets a key that
      has no expiry. */
  ghost predicate Dormant(s: State) {
    && !s.fault
    && (forall key | key in s.store :: s.store[key].Timer? && s.store[key].delay <= 0)
    && forall i | 0 <= i < |s.subs| :: s.subs[i] == Sub([], Idle)
  }

  lemma {:induction false} StaysDormant(c: Config, s: State, es: seq<Event>, t: State)
    requires c.Valid() && !c.Wakes(0) && Dormant(s) && Run(c, s, es, t)
    ensures Dormant(t) && t.calls == s.calls
    decreases |es|
  {
    if es != [] { StaysDormant(c, Step(c, s, es[0]), es[1..], t); }
  }

  /** Exactly when `policies[count]` goes out of bounds: some run that only puts `value` reaches the
      panic if and only if the first message of `value` is read with a count below -1, and its key
      expires at all. */
  lemma PoliciesInBounds(c: Config, s: State, value: string)
    requires c.Valid() && Init(c, s) && |c.nodes| > 0
    ensures CanFault(c, s, value) <==> FirstCount(c, value) < -1 && c.Wakes(0)
  {
    if FirstCount(c, value) < -1 && c.Wakes(0) {
      var es, t := FaultingRun(c, s, value);
      assert Run(c, s, es, t);
    } else {
      forall es: seq<Event>, t: State | Run(c, s, es, t) && OnlyPuts(es, value) ensures !t.fault {
        if c.Wakes(0) { InBoundsRun(c, s, es, t); } else { StaysDormant(c, s, es, t); }
      }
    }
  }

  /** From a subscriber about to lock for a negative count, three more steps reach the panic. */
  lemma LockedFault(c: Config, s: State) returns (es: seq<Event>, t: State)
    requires |c.nodes| > 0 && |s.subs| == |c.nodes| && !s.fault
    requires s.subs[0].pc.Locking? && s.subs[0].pc.p.count < 0 && c.LockKey(s.subs[0].pc.p.value) !in s.store
    ensures Run(c, s, es, t) && t.fault && forall k | 0 <= k < |es| :: !es[k].Put?
  {
    var s1 := Step(c, s, TryLock(0, true, true));
    var s2 := Step(c, s1, Return(0, true));
    t := Step(c, s2, Arm(0, true));
    es := [];
    Prepend(c, s2, Arm(0, true), es, t);
    Prepend(c, s1, Return(0, true), [Arm(0, true)] + es, t);
    Prepend(c, s, TryLock(0, true, true), [Return(0, true)] + ([Arm(0, true)] + es), t);
    es := [TryLock(0, true, true)] + ([Return(0, true)] + ([Arm(0, true)] + es));
  }

  lemma FaultingRun(c: Config, s: State, value: string) returns (es: seq<Event>, t: State)
    requires c.Valid() && Init(c, s) && |c.nodes| > 0 && FirstCount(c, value) < -1 && c.Wakes(0)
    ensures Run(c, s, es, t) && t.fault && OnlyPuts(es, value)
  {
    var key := c.RetryKey(Payload(value, 0));
    var s1 := Step(c, s, Put(value, true));
    var s2 := Step(c, s1, Expire(key, {0}));
    assert s2.subs[0].queue == [c.Channel(key)] && s2.store == map[];
    var s3 := Step(c, s2, Receive(0));
    es, t := LockedFault(c, s3);
    Prepend(c, s2, Receive(0), es, t);
    Prepend(c, s1, Expire(key, {0}), [Receive(0)] + es, t);
    Prepend(c, s, Put(value, true), [Expire(key, {0})] + ([Receive(0)] + es), t);
    es := [Put(value, true)] + ([Expire(key, {0})] + ([Receive(0)] + es));
  }

  /** Values without "||" are safe, and so is one that carries a count of at least -1; a value such as
      "x||-7" is not. */
  lemma SafeAndUnsafeValues(c: Config, s: State, value: string, q: Payload)
    requires c.Valid() && Init(c, s) && |c.nodes| > 0
    requires Clean(q.value) && -INT32_LIMIT <= q.count < INT32_LIMIT
    ensures !Contains(value, "||") ==> !CanFault(c, s, value)
    ensures CanFault(c, s, Encode(q)) <==> q.count < -1 && c.Wakes(0)
  {
    PoliciesInBounds(c, s, value);
    PoliciesInBounds(c, s, Encode(q));
    FirstCounted(c, value, q);
  }
}
