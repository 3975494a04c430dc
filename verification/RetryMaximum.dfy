/** The most handler calls that one notification can cause, for any number of subscribers: the bound of
    module `RetryTermination` is attained, and exactly when it exceeds N + ... + N^L
    (libs/redis/redis_notification.go). */
module RetryMaximum {
  import opened GoStrings
  import opened Options
  import opened Payloads
  import opened RetryProtocol
  import opened RetryTermination
  import opened RetryIndex
  import opened RetryLocks

  /** The calls of a run with one notification. */
  lemma OneNotification(c: Config, s: State, es: seq<Event>, t: State, value: string)
    requires c.Valid() && Init(c, s) && Run(c, s, es, t) && OnlyPuts(es, value) && t.puts <= 1
    ensures |t.calls| <= PowerSum(|c.nodes|, FirstRounds(c, |c.policies|, value))
  {
    var r := FirstRounds(c, |c.policies|, value);
    assert AtMostRounds(c, |c.policies|, es, r);
    CallsWithin(c, s, es, t, r);
    Scale(PowerSum(|c.nodes|, r), t.puts, 1);
  }

  // ---- one attempt ----

  /** Only reliable steps, and no notification. */
  ghost predicate Internal(c: Config, es: seq<Event>) {
    forall k | 0 <= k < |es| :: !es[k].Put? && Reliable(c, es[k])
  }

  lemma {:induction false} Extend(c: Config, s: State, es: seq<Event>, m: State, e: Event)
    requires Run(c, s, es, m) && Internal(c, es) && Enabled(c, m, e) && !e.Put? && Reliable(c, e)
    ensures Run(c, s, es + [e], Step(c, m, e)) && Internal(c, es + [e])
  {
    assert [e][1..] == [];
    RunConcat(c, s, es, m, [e], Step(c, m, e));
  }

  lemma InternalConcat(c: Config, s: State, es: seq<Event>, m: State, more: seq<Event>, t: State)
    requires Run(c, s, es, m) && Internal(c, es) && Run(c, m, more, t) && Internal(c, more)
    ensures Run(c, s, es + more, t) && Internal(c, es + more)
  {
    RunConcat(c, s, es, m, more, t);
  }

  /** Subscriber `i` is idle, its next message carries `p`, and it holds the lock of the value or
      finds it free. */
  ghost predicate CanAttempt(c: Config, s: State, i: nat, p: Payload) {
    && !s.fault && i < |s.subs| == |c.nodes|
    && s.subs[i].pc.Idle? && s.subs[i].queue != [] && Decode(s.subs[i].queue[0]) == Some(p)
    && (c.LockKey(p.value) in s.store ==> Owns(c, s, i, p.value))
  }

  /** The state inside the handler. */
  function Attempted(c: Config, s: State, i: nat, q: Payload): State
    requires i < |s.subs| && i < |c.nodes| && s.subs[i].queue != []
  {
    s.(subs := s.subs[i := Sub(s.subs[i].queue[1..], Handling(q))],
       store := s.store[c.LockKey(q.value) := Owner(c.Id(i))],
       calls := s.calls + [Call(i, q)])
  }

  lemma Attempt(c: Config, s: State, i: nat, p: Payload) returns (es: seq<Event>, t: State)
    requires CanAttempt(c, s, i, p)
    ensures t == Attempted(c, s, i, p.(count := p.count + 1))
    ensures Run(c, s, es, t) && Internal(c, es)
  {
    es, t := [], s;
    Extend(c, s, es, t, Receive(i));
    es, t := es + [Receive(i)], Step(c, t, Receive(i));
    assert t.subs[i] == Sub(s.subs[i].queue[1..], Locking(p.(count := p.count + 1)));
    Extend(c, s, es, t, TryLock(i, true, true));
    es, t := es + [TryLock(i, true, true)], Step(c, t, TryLock(i, true, true));
    if c.LockKey(p.value) in s.store {
      assert s.store == s.store[c.LockKey(p.value) := Owner(c.Id(i))];
      Extend(c, s, es, t, CheckOwner(i, true));
      es, t := es + [CheckOwner(i, true)], Step(c, t, CheckOwner(i, true));
    }
    assert t.subs == Attempted(c, s, i, p.(count := p.count + 1)).subs;
  }

  function Resting(s: State, i: nat): seq<Sub>
    requires i < |s.subs|
  {
    s.subs[i := Sub(s.subs[i].queue, Idle)]
  }

  /** The handler asks for a next attempt, whose key expires at once and reaches everybody. */
  lemma AskAgain(c: Config, s: State, i: nat, q: Payload) returns (es: seq<Event>, t: State)
    requires c.Valid() && !s.fault && i < |s.subs| == |c.nodes| && s.subs[i].pc == Handling(q) && c.Wakes(q.count)
    ensures Run(c, s, es, t) && Internal(c, es)
    ensures t.subs == Deliver(Resting(s, i), Everyone(|c.nodes|), c.Channel(c.RetryKey(q)))
    ensures t.store == s.store - {c.RetryKey(q)} && t.calls == s.calls && !t.fault && t.puts == s.puts
  {
    es, t := [], s;
    Extend(c, s, es, t, Return(i, true));
    es, t := es + [Return(i, true)], Step(c, t, Return(i, true));
    Extend(c, s, es, t, Arm(i, true));
    es, t := es + [Arm(i, true)], Step(c, t, Arm(i, true));
    var e := Expire(c.RetryKey(q), Everyone(|c.nodes|));
    assert t.subs == Resting(s, i);
    Extend(c, s, es, t, e);
    es, t := es + [e], Step(c, t, e);
  }

  /** The handler is done with the value. */
  lemma GiveUp(c: Config, s: State, i: nat, q: Payload) returns (es: seq<Event>, t: State)
    requires !s.fault && i < |s.subs| == |c.nodes| && s.subs[i].pc == Handling(q)
    ensures Run(c, s, es, t) && Internal(c, es)
    ensures t == s.(subs := Resting(s, i), store := s.store - {c.LockKey(q.value)})
  {
    es, t := [], s;
    Extend(c, s, es, t, Return(i, false));
    es, t := es + [Return(i, false)], Step(c, t, Return(i, false));
    Extend(c, s, es, t, Release(i, true));
    es, t := es + [Release(i, true)], Step(c, t, Release(i, true));
    assert t.subs == Resting(s, i);
  }

  // ---- a schedule that wastes no message ----

  ghost predicate QueuesConcern(s: State, v: string) {
    forall i, k | 0 <= i < |s.subs| && 0 <= k < |s.subs[i].queue| :: Concerns(s.subs[i].queue[k], v)
  }

  ghost predicate Holds(c: Config, s: State, i: nat, v: string) {
    i < |s.subs| && i < |c.nodes| && Owns(c, s, i, v) && s.subs[i].queue != []
  }

  /** Between two attempts of the schedule: everybody is idle, all messages are about `v`, no key is
      pending, and whoever holds the lock has a message to go on with. */
  ghost predicate Calm(c: Config, s: State, v: string) {
    && c.Valid() && !s.fault && |s.subs| == |c.nodes| && Clean(v)
    && (forall i | 0 <= i < |s.subs| :: s.subs[i].pc.Idle?)
    && QueuesConcern(s, v)
    && (forall key | key in s.store :: key == c.LockKey(v))
    && (c.LockKey(v) in s.store ==> exists i: nat :: Holds(c, s, i, v))
  }

  ghost function CallsAhead(c: Config, s: State): nat {
    SubsWeight(Calls, c, |c.policies|, s.subs)
  }

  /** Somebody who can make an attempt, if there is any message left. */
  lemma WhoIsNext(c: Config, s: State, v: string, j: nat) returns (i: nat, p: Payload)
    requires Calm(c, s, v) && j < |s.subs| && s.subs[j].queue != []
    ensures CanAttempt(c, s, i, p) && p.value == v
  {
    i := j;
    if c.LockKey(v) in s.store { i :| Holds(c, s, i, v); }
    assert Concerns(s.subs[i].queue[0], v);
    p := Decode(s.subs[i].queue[0]).value;
  }

  lemma {:induction false} DeliverAllWeight(m: Meter, c: Config, l: nat, subs: seq<Sub>, subs': seq<Sub>, channel: string)
    requires |subs'| == |subs|
    requires forall i | 0 <= i < |subs| :: subs'[i] == subs[i].(queue := subs[i].queue + [channel])
    ensures SubsWeight(m, c, l, subs') == SubsWeight(m, c, l, subs) + |subs| * ChannelWeight(m, c, l, channel)
    decreases |subs|
  {
    if subs != [] {
      QueueAppend(m, c, l, subs[0].queue, channel);
      DeliverAllWeight(m, c, l, subs[1..], subs'[1..], channel);
      OneMore(|subs| - 1, ChannelWeight(m, c, l, channel));
    }
  }

  /** What an attempt takes off the calls ahead: its own, and those of the next key. */
  lemma AttemptWeight(c: Config, s: State, i: nat, p: Payload)
    requires CanAttempt(c, s, i, p)
    ensures var q := p.(count := p.count + 1);
            SubsWeight(Calls, c, |c.policies|, Resting(Attempted(c, s, i, q), i)) + 1 + NextKey(Calls, c, |c.policies|, q.count)
            == CallsAhead(c, s)
  {
    var l, q := |c.policies|, p.(count := p.count + 1);
    var rest := Sub(s.subs[i].queue[1..], Idle);
    assert Resting(Attempted(c, s, i, q), i) == s.subs[i := rest];
    SubsUpdate(Calls, c, l, s.subs, i, rest);
    assert ChannelWeight(Calls, c, l, s.subs[i].queue[0]) == 1 + NextKey(Calls, c, l, q.count);
  }

  lemma LastAttempt(c: Config, s: State, v: string, i: nat, p: Payload) returns (es: seq<Event>, t: State)
    requires Calm(c, s, v) && CanAttempt(c, s, i, p) && p.value == v && !c.Wakes(p.count + 1)
    ensures Run(c, s, es, t) && Internal(c, es) && Calm(c, t, v)
    ensures |t.calls| == |s.calls| + 1 && CallsAhead(c, t) + 1 == CallsAhead(c, s)
  {
    var q := p.(count := p.count + 1);
    var es1, m := Attempt(c, s, i, p);
    var es2, t2 := GiveUp(c, m, i, q);
    InternalConcat(c, s, es1, m, es2, t2);
    es, t := es1 + es2, t2;
    AttemptWeight(c, s, i, p);
    QueueShorter(s, i, v, t);
  }

  lemma QueueShorter(s: State, i: nat, v: string, t: State)
    requires i < |s.subs| && s.subs[i].queue != [] && QueuesConcern(s, v)
    requires t.subs == s.subs[i := Sub(s.subs[i].queue[1..], Idle)]
    ensures QueuesConcern(t, v)
  {
    forall j, k | 0 <= j < |t.subs| && 0 <= k < |t.subs[j].queue| ensures Concerns(t.subs[j].queue[k], v) {
      if j == i { assert t.subs[j].queue[k] == s.subs[j].queue[k + 1]; }
    }
  }

  lemma QueuesLonger(s: State, channel: string, v: string, t: State)
    requires QueuesConcern(s, v) && Concerns(channel, v) && |t.subs| == |s.subs|
    requires forall i | 0 <= i < |s.subs| :: t.subs[i] == s.subs[i].(queue := s.subs[i].queue + [channel])
    ensures QueuesConcern(t, v)
  {
    forall j, k | 0 <= j < |t.subs| && 0 <= k < |t.subs[j].queue| ensures Concerns(t.subs[j].queue[k], v) {
      if k < |s.subs[j].queue| { assert t.subs[j].queue[k] == s.subs[j].queue[k]; }
    }
  }

  /** The state after an attempt whose next key has expired and reached everybody. */
  ghost predicate Repeated(c: Config, s: State, i: nat, q: Payload, t: State)
    requires i < |s.subs| == |c.nodes| && s.subs[i].queue != []
  {
    var m := Attempted(c, s, i, q);
    && t.subs == Deliver(Resting(m, i), Everyone(|c.nodes|), c.Channel(c.RetryKey(q)))
    && t.store == m.store - {c.RetryKey(q)} && t.calls == m.calls && !t.fault
  }

  lemma RepeatedCalm(c: Config, s: State, v: string, i: nat, p: Payload, t: State)
    requires Calm(c, s, v) && CanAttempt(c, s, i, p) && p.value == v && c.Wakes(p.count + 1)
    requires Repeated(c, s, i, p.(count := p.count + 1), t)
    ensures Calm(c, t, v)
  {
    var q := p.(count := p.count + 1);
    var channel, rest := c.Channel(c.RetryKey(q)), s.(subs := Resting(Attempted(c, s, i, q), i));
    ArmedDecodes(c, q);
    KeysDisjoint(c, v, q);
    QueueShorter(s, i, v, rest);
    QueuesLonger(rest, channel, v, t);
    assert Holds(c, t, i, v);
  }

  lemma RepeatedWeight(c: Config, s: State, i: nat, p: Payload, t: State)
    requires c.Valid() && CanAttempt(c, s, i, p) && Clean(p.value) && c.Wakes(p.count + 1)
    requires Repeated(c, s, i, p.(count := p.count + 1), t)
    ensures CallsAhead(c, t) + 1 == CallsAhead(c, s)
  {
    var q := p.(count := p.count + 1);
    var rest, channel := Resting(Attempted(c, s, i, q), i), c.Channel(c.RetryKey(q));
    ArmedDecodes(c, q);
    AttemptWeight(c, s, i, p);
    DeliverAllWeight(Calls, c, |c.policies|, rest, t.subs, channel);
    KeyUnfolds(Calls, c, |c.policies|, q.count);
  }

  lemma NextAttempt(c: Config, s: State, v: string, i: nat, p: Payload) returns (es: seq<Event>, t: State)
    requires Calm(c, s, v) && c.Valid() && Clean(v)
    requires CanAttempt(c, s, i, p) && p.value == v && c.Wakes(p.count + 1)
    ensures Run(c, s, es, t) && Internal(c, es) && Calm(c, t, v)
    ensures |t.calls| == |s.calls| + 1 && CallsAhead(c, t) + 1 == CallsAhead(c, s)
  {
    hide Calm;
    var q := p.(count := p.count + 1);
    var es1, m := Attempt(c, s, i, p);
    var es2, t2 := AskAgain(c, m, i, q);
    InternalConcat(c, s, es1, m, es2, t2);
    es, t := es1 + es2, t2;
    RepeatedCalm(c, s, v, i, p, t);
    RepeatedWeight(c, s, i, p, t);
  }

  /** Each message becomes a call, until none is left. */
  lemma {:induction false} Drain(c: Config, s: State, v: string) returns (es: seq<Event>, t: State)
    requires Calm(c, s, v)
    ensures Run(c, s, es, t) && Internal(c, es) && !t.fault
    ensures |t.calls| == |s.calls| + CallsAhead(c, s)
    decreases CallsAhead(c, s)
  {
    es, t := [], s;
    if j: nat :| j < |s.subs| && s.subs[j].queue != [] {
      var i, p := WhoIsNext(c, s, v, j);
      if c.Wakes(p.count + 1) {
        es, t := NextAttempt(c, s, v, i, p);
      } else {
        es, t := LastAttempt(c, s, v, i, p);
      }
      var more, end := Drain(c, t, v);
      InternalConcat(c, s, es, t, more, end);
      es, t := es + more, end;
    } else {
      forall i | 0 <= i < |s.subs| ensures s.subs[i] == Sub([], Idle) { }
      IdleWeight(Calls, c, |c.policies|, s.subs);
    }
  }

  /** The message of a notification has just reached everybody. */
  ghost predicate JustNotified(c: Config, t: State, value: string) {
    && t.calls == [] && t.puts == 1 && t.store == map[] && !t.fault && |t.subs| == |c.nodes|
    && forall i | 0 <= i < |t.subs| :: t.subs[i] == Sub([c.Channel(c.RetryKey(Payload(value, 0)))], Idle)
  }

  /** The notification's key is set, expires and reaches everybody. */
  lemma FirstMessage(c: Config, s: State, value: string) returns (es: seq<Event>, t: State)
    requires c.Valid() && Init(c, s) && c.Wakes(0)
    ensures Run(c, s, es, t) && ReliableRun(c, es) && OnlyPuts(es, value) && JustNotified(c, t, value)
  {
    var put, e := Put(value, true), Expire(c.RetryKey(Payload(value, 0)), Everyone(|c.nodes|));
    var m := Step(c, s, put);
    t := Step(c, m, e);
    forall i | 0 <= i < |t.subs| ensures t.subs[i] == Sub([c.Channel(c.RetryKey(Payload(value, 0)))], Idle) {
      assert i in Everyone(|c.nodes|);
    }
    Prepend(c, m, e, [], t);
    Prepend(c, s, put, [e] + [], t);
    es := [put] + ([e] + []);
  }

  lemma AfterFirst(c: Config, s: State, es: seq<Event>, m: State, more: seq<Event>, t: State, value: string)
    requires Run(c, s, es, m) && ReliableRun(c, es) && OnlyPuts(es, value)
    requires Run(c, m, more, t) && Internal(c, more)
    ensures Run(c, s, es + more, t) && ReliableRun(c, es + more) && OnlyPuts(es + more, value) && t.puts == m.puts
  {
    RunConcat(c, s, es, m, more, t);
    PutsKept(c, m, more, t);
  }

  lemma {:induction false} EqualQueues(m: Meter, c: Config, l: nat, subs: seq<Sub>, channel: string)
    requires forall i | 0 <= i < |subs| :: subs[i] == Sub([channel], Idle)
    ensures SubsWeight(m, c, l, subs) == |subs| * ChannelWeight(m, c, l, channel)
    decreases |subs|
  {
    if subs != [] {
      EqualQueues(m, c, l, subs[1..], channel);
      assert QueueWeight(m, c, l, [channel]) == ChannelWeight(m, c, l, channel);
      OneMore(|subs| - 1, ChannelWeight(m, c, l, channel));
    }
  }

  lemma FirstCalm(c: Config, t: State, value: string)
    requires c.Valid() && c.Wakes(0) && JustNotified(c, t, value)
    ensures exists v :: Calm(c, t, v)
    ensures CallsAhead(c, t) == PowerSum(|c.nodes|, FirstRounds(c, |c.policies|, value))
  {
    var channel := c.Channel(c.RetryKey(Payload(value, 0)));
    PutDecodes(c, value);
    DecodedIsClean(channel);
    var p := Decode(channel).value;
    assert Calm(c, t, p.value);
    EqualQueues(Calls, c, |c.policies|, t.subs, channel);
    KeyUnfolds(Calls, c, |c.policies|, p.count);
    CallWeight(|c.nodes|, FirstRounds(c, |c.policies|, value));
  }

  /** The bound is attained: one notification of `value` can cause N + ... + N^r calls, r being its
      rounds, in a run without losses and without a panic. */
  lemma Attained(c: Config, s: State, value: string) returns (es: seq<Event>, t: State)
    requires c.Valid() && Init(c, s)
    ensures Run(c, s, es, t) && OnlyPuts(es, value) && t.puts == 1 && ReliableRun(c, es) && !t.fault
    ensures |t.calls| == PowerSum(|c.nodes|, FirstRounds(c, |c.policies|, value))
  {
    var put := Put(value, true);
    if !c.Wakes(0) {
      es, t := [put], Step(c, s, put);
      assert es[1..] == [];
    } else {
      var first, m := FirstMessage(c, s, value);
      FirstCalm(c, m, value);
      var v :| Calm(c, m, v);
      var more;
      more, t := Drain(c, m, v);
      AfterFirst(c, s, first, m, more, t, value);
      es := first + more;
    }
  }

  lemma {:induction false} PutsKept(c: Config, s: State, es: seq<Event>, t: State)
    requires Run(c, s, es, t) && Internal(c, es)
    ensures t.puts == s.puts
    decreases |es|
  {
    if es != [] {
      assert !es[0].Put?;
      assert forall k | 0 <= k < |es[1..]| :: es[1..][k] == es[k + 1];
      PutsKept(c, Step(c, s, es[0]), es[1..], t);
    }
  }

  // ---- the maximum ----

  /** From one notification of `value` there is a run with `n` calls. */
  ghost predicate CanCall(c: Config, s: State, value: string, n: nat) {
    exists es: seq<Event>, t: State :: Run(c, s, es, t) && OnlyPuts(es, value) && t.puts <= 1 && |t.calls| == n
  }

  /** The most calls that one notification can cause, for any number of subscribers, any policies and
      any value: exactly N + ... + N^r. */
  lemma MostCalls(c: Config, s: State, value: string)
    requires c.Valid() && Init(c, s)
    ensures CanCall(c, s, value, PowerSum(|c.nodes|, FirstRounds(c, |c.policies|, value)))
    ensures forall n: nat | CanCall(c, s, value, n) :: n <= PowerSum(|c.nodes|, FirstRounds(c, |c.policies|, value))
  {
    var es, t := Attained(c, s, value);
    assert Run(c, s, es, t);
    forall n: nat | CanCall(c, s, value, n) ensures n <= PowerSum(|c.nodes|, FirstRounds(c, |c.policies|, value)) {
      var es', t' :| Run(c, s, es', t') && OnlyPuts(es', value) && t'.puts <= 1 && |t'.calls| == n;
      OneNotification(c, s, es', t', value);
    }
  }

  /** A message with this count runs through all policies only when each of them is positive. */
  lemma {:induction false} FullRounds(c: Config, count: int)
    requires -1 <= count < |c.policies|
    ensures Rounds(c, |c.policies|, count) <= |c.policies| - count
    ensures Rounds(c, |c.policies|, count) == |c.policies| - count <==> forall k | count < k < |c.policies| :: c.Wakes(k)
    decreases |c.policies| - count
  {
    if count + 1 < |c.policies| {
      FullRounds(c, count + 1);
    }
  }

  lemma RoundsExceedIff(c: Config, value: string)
    requires c.Valid()
    ensures FirstRounds(c, |c.policies|, value) > |c.policies| <==> FirstCount(c, value) == -1 && c.AllWake()
    ensures FirstCount(c, value) == -1 && c.AllWake() ==> FirstRounds(c, |c.policies|, value) == |c.policies| + 1
  {
    FirstRoundsBounded(c, |c.policies|, value);
    FullRounds(c, -1);
    assert FirstCount(c, value) == -1 && FirstRounds(c, |c.policies|, value) > |c.policies| ==> c.AllWake();
  }

  lemma PositivePower(n: nat, k: nat)
    requires n > 0
    ensures Power(n, k) > 0
  {}

  /** Exactly when one notification can cause more than N + ... + N^L calls: if and only if its first
      message is read with the count -1 and every policy is positive. */
  lemma ExceedsIffMinusOne(c: Config, s: State, value: string)
    requires c.Valid() && |c.nodes| > 0 && Init(c, s)
    ensures (exists n: nat :: CanCall(c, s, value, n) && n > PowerSum(|c.nodes|, |c.policies|))
            <==> FirstCount(c, value) == -1 && c.AllWake()
  {
    var n, l, r := |c.nodes|, |c.policies|, FirstRounds(c, |c.policies|, value);
    MostCalls(c, s, value);
    RoundsExceedIff(c, value);
    if r <= l {
      PowerSumGrows(n, r, l);
    } else {
      PositivePower(n, l + 1);
      assert CanCall(c, s, value, PowerSum(n, l + 1));
    }
  }

  /** The witness: the value "x||-1". */
  lemma MinusOneExceeds(c: Config, s: State)
    requires c.Valid() && |c.nodes| > 0 && Init(c, s) && c.AllWake()
    ensures exists n: nat :: CanCall(c, s, "x||-1", n) && n > PowerSum(|c.nodes|, |c.policies|)
  {
    var q := Payload("x", -1);
    forall i: nat ensures !OccursAt("x", "||", i) { BarsOccur("x", i); }
    FirstCounted(c, "", q);
    assert Digits(1) == "1";
    assert Encode(q) == "x||-1";
    ExceedsIffMinusOne(c, s, "x||-1");
  }
}
