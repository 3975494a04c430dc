/** The retry protocol with one subscriber: which counts and delays a notification goes through
    (libs/redis/redis_notification.go). */
module RetrySingle {
  import opened GoStrings
  import opened Payloads
  import opened RetryProtocol
  import opened RetryTermination
  import opened RetryIndex
  import opened RetryMaximum

  predicate NoTimers(store: map<string, Cell>) {
    forall key | key in store :: store[key].Owner?
  }

  ghost predicate OneTimer(c: Config, store: map<string, Cell>, count: int, delay: int) {
    exists key :: IsOnlyTimer(c, store, key, count, delay)
  }

  ghost predicate IsOnlyTimer(c: Config, store: map<string, Cell>, key: string, count: int, delay: int) {
    && key in store && store[key] == Timer(delay) && HasCount(c.Channel(key), count)
    && forall k | k in store && store[k].Timer? :: k == key
  }

  predicate HasCount(channel: string, count: int) {
    Decode(channel).Some? && Decode(channel).value.count == count
  }

  /** The delays of the keys set: the first policy for the notification, whatever count it is then
      read with, and after that the policies from the count after that on. */
  predicate DelaysFollow(c: Config, d: int, delays: seq<int>) {
    && (delays != [] ==> 0 < |c.policies| && delays[0] == c.policies[0])
    && forall k: nat | 1 <= k < |delays| :: FollowsAt(c, d, delays, k)
  }

  predicate FollowsAt(c: Config, d: int, delays: seq<int>, k: nat)
    requires k < |delays|
  {
    0 <= d + k < |c.policies| && delays[k] == c.policies[d + k]
  }

  /** One notification, first read with the count `d`, is one token that moves along: after j calls
      it is a key or a message with count d+j, or a goroutine on its way to the next call or back
      from the last one, or it is gone. */
  ghost predicate Line(c: Config, s: State, d: int) {
    && |s.subs| == 1
    && (forall k | 0 <= k < |s.calls| :: s.calls[k].p.count == d + 1 + k)
    && DelaysFollow(c, d, s.delays)
    && var sub, j := s.subs[0], |s.calls|;
       if s.puts == 0 then NoTimers(s.store) && sub == Sub([], Idle) && j == 0 && s.delays == []
       else
         || (NoTimers(s.store) && sub == Sub([], Idle))
         || (|s.delays| == j + 1 && OneTimer(c, s.store, d + j, s.delays[j]) && sub == Sub([], Idle))
         || (|s.delays| == j + 1 && NoTimers(s.store) && sub.pc.Idle? && |sub.queue| == 1 && HasCount(sub.queue[0], d + j))
         || (|s.delays| == j + 1 && NoTimers(s.store) && sub.queue == []
             && (sub.pc.Locking? || sub.pc.Checking?) && sub.pc.p.count == d + j + 1)
         || (|s.delays| == j > 0 && NoTimers(s.store) && sub.queue == [] && InCritical(sub.pc) && sub.pc.p.count == d + j)
  }

  lemma LinePut(c: Config, s: State, e: Event)
    requires c.Valid() && Enabled(c, s, e) && e.Put? && s.puts == 0 && Line(c, s, FirstCount(c, e.value))
    ensures Line(c, Step(c, s, e), FirstCount(c, e.value))
  {
    PutDecodes(c, e.value);
    if e.effect {
      assert IsOnlyTimer(c, Step(c, s, e).store, c.RetryKey(Payload(e.value, 0)), FirstCount(c, e.value), c.policies[0]);
    }
  }

  lemma DelayAppended(c: Config, d: int, delays: seq<int>, count: int)
    requires DelaysFollow(c, d, delays) && |delays| > 0 && count == d + |delays| && 0 <= count < |c.policies|
    ensures DelaysFollow(c, d, delays + [c.policies[count]])
  {
    var all := delays + [c.policies[count]];
    assert all[0] == delays[0];
    forall k: nat | 1 <= k < |all| ensures FollowsAt(c, d, all, k) {
      if k < |delays| { assert all[k] == delays[k] && FollowsAt(c, d, delays, k); }
    }
  }

  lemma LineArm(c: Config, s: State, e: Event, d: int)
    requires c.Valid() && Safe(c, s) && Line(c, s, d) && Enabled(c, s, e) && e.Arm?
    ensures Line(c, Step(c, s, e), d)
  {
    assert SubSafe(c, s, 0);
    var p := s.subs[0].pc.p;
    assert |s.delays| == |s.calls| > 0 && NoTimers(s.store) && p.count == d + |s.calls|;
    var t := Step(c, s, e);
    assert t.subs[0] == Sub([], Idle) && t.calls == s.calls && t.puts == s.puts;
    if 0 <= p.count < |c.policies| && e.effect {
      ArmedDecodes(c, p);
      assert IsOnlyTimer(c, t.store, c.RetryKey(p), p.count, c.policies[p.count]);
      DelayAppended(c, d, s.delays, p.count);
      assert |t.delays| == |t.calls| + 1 && OneTimer(c, t.store, d + |t.calls|, t.delays[|t.calls|]);
    } else {
      assert NoTimers(t.store) && t.delays == s.delays;
    }
  }

  lemma LineExpire(c: Config, s: State, e: Event, d: int)
    requires Line(c, s, d) && Enabled(c, s, e) && e.Expire?
    ensures Line(c, Step(c, s, e), d)
  {
    var t := Step(c, s, e);
    assert IsOnlyTimer(c, s.store, e.key, d + |s.calls|, s.store[e.key].delay);
    assert NoTimers(t.store);
    assert 0 in e.to ==> t.subs[0].queue == [c.Channel(e.key)];
    assert 0 !in e.to ==> t.subs[0] == s.subs[0];
  }

  lemma LineMove(c: Config, s: State, e: Event, d: int)
    requires Line(c, s, d) && Enabled(c, s, e) && !e.Put? && !e.Arm? && !e.Expire?
    ensures Line(c, Step(c, s, e), d)
  {
    assert e.i == 0 && s.puts > 0 && NoTimers(s.store);
    assert NoTimers(Step(c, s, e).store);
  }

  lemma {:induction false} LineRun(c: Config, s: State, es: seq<Event>, t: State, value: string)
    requires c.Valid() && Safe(c, s) && Line(c, s, FirstCount(c, value)) && Run(c, s, es, t)
    requires OnlyPuts(es, value) && t.puts <= 1
    ensures Line(c, t, FirstCount(c, value))
    decreases |es|
  {
    if es != [] {
      var e, d := es[0], FirstCount(c, value);
      TotalsOfRun(c, Step(c, s, e), es[1..], t);
      SafeStep(c, s, e);
      if e.Put? { LinePut(c, s, e); }
      else if e.Arm? { LineArm(c, s, e, d); }
      else if e.Expire? { LineExpire(c, s, e, d); }
      else { LineMove(c, s, e, d); }
      assert forall k | 0 <= k < |es[1..]| :: es[1..][k] == es[k + 1];
      LineRun(c, Step(c, s, e), es[1..], t, value);
    }
  }

  lemma DelaysFromZero(c: Config, delays: seq<int>)
    requires DelaysFollow(c, 0, delays)
    ensures |delays| <= |c.policies| && delays == c.policies[..|delays|]
  {
    assert |delays| > 1 ==> FollowsAt(c, 0, delays, |delays| - 1);
    forall k: nat | k < |delays| ensures k < |c.policies| && delays[k] == c.policies[k] {
      assert k > 0 ==> FollowsAt(c, 0, delays, k);
    }
  }

  /** With one subscriber and one notification of `value`, first read with the count d, the calls
      carry the counts d+1, d+2, ...; there are at most L-d of them, or one when d is below -1 or not
      below L; and the keys are set with the first policy and then with those from d+1 on, the one
      that is pending with the last of these.  For a
      value without "||" d is 0: counts 1, 2, ... up to L, and all policies in order. */
  lemma SingleSubscriber(c: Config, s: State, es: seq<Event>, t: State, value: string)
    requires c.Valid() && |c.nodes| == 1 && Init(c, s) && Run(c, s, es, t) && OnlyPuts(es, value) && t.puts <= 1
    ensures |t.calls| <= FirstRounds(c, |c.policies|, value) <= Depth(|c.policies|, FirstCount(c, value))
    ensures forall k | 0 <= k < |t.calls| :: t.calls[k].p.count == FirstCount(c, value) + 1 + k
    ensures DelaysFollow(c, FirstCount(c, value), t.delays)
    ensures forall key | key in t.store && t.store[key].Timer? ::
              t.delays != [] && t.store[key].delay == t.delays[|t.delays| - 1]
    ensures !Contains(value, "||") ==>
              FirstCount(c, value) == 0 && |t.delays| <= |c.policies| && t.delays == c.policies[..|t.delays|]
  {
    LineRun(c, s, es, t, value);
    FirstRoundsBounded(c, |c.policies|, value);
    OneNotification(c, s, es, t, value);
    PowersOfOne(FirstRounds(c, |c.policies|, value));
    FirstCounted(c, value, Payload(value, 0));
    if !Contains(value, "||") { DelaysFromZero(c, t.delays); }
  }

  lemma {:induction false} PowersOfOne(k: nat)
    ensures Power(1, k) == 1 && PowerSum(1, k) == k
  {
    if k > 0 { PowersOfOne(k - 1); }
  }
}
