/** Termination of the retry protocol: one weighted measure over pending keys, queued messages and
    goroutine positions bounds both the handler calls and the internal steps of every run
    (libs/redis/redis_notification.go). */
module RetryTermination {
  import opened GoStrings
  import opened Payloads
  import opened RetryProtocol

  /** What is being counted: handler calls, or all steps other than external notifications. */
  datatype Meter = Calls | Steps

  function StepCost(m: Meter): nat { if m.Steps? then 1 else 0 }
  function CallCost(m: Meter): nat { if m.Calls? then 1 else 0 }

  /** How many rounds of calls a message with this count can lead to, when handlers ask for a next
      attempt only below the count `l`: its own, and those of the key with the next count.  There is
      no such key for a negative count, since setting it panics, and one without expiry wakes nobody. */
  function Rounds(c: Config, l: nat, count: int): nat
    decreases l - count
  {
    1 + if count + 1 < l && c.Wakes(count + 1) then Rounds(c, l, count + 1) else 0
  }

  /** The same for a goroutine that holds a payload with the incremented count. */
  function NextRounds(c: Config, l: nat, count: int): nat {
    if count < l && c.Wakes(count) then Rounds(c, l, count) else 0
  }

  /** All that a retry key can still cause in `r` rounds among `n` subscribers: its expiry, and at
      each subscriber a reception, two lock commands, a call, and a last command that may set the
      next key. */
  function RoundsWeight(m: Meter, n: nat, r: nat): nat {
    if r == 0 then 0 else StepCost(m) + n * (5 * StepCost(m) + CallCost(m) + RoundsWeight(m, n, r - 1))
  }

  function KeyWeight(m: Meter, c: Config, l: nat, count: int): nat {
    RoundsWeight(m, |c.nodes|, Rounds(c, l, count))
  }

  function MessageWeight(m: Meter, c: Config, l: nat, count: int): nat {
    5 * StepCost(m) + CallCost(m) + NextKey(m, c, l, count + 1)
  }

  function NextKey(m: Meter, c: Config, l: nat, count: int): nat {
    RoundsWeight(m, |c.nodes|, NextRounds(c, l, count))
  }

  lemma KeyUnfolds(m: Meter, c: Config, l: nat, count: int)
    ensures KeyWeight(m, c, l, count) == StepCost(m) + |c.nodes| * MessageWeight(m, c, l, count)
  {
    assert Rounds(c, l, count) - 1 == NextRounds(c, l, count + 1);
  }

  function ChannelWeight(m: Meter, c: Config, l: nat, channel: string): nat {
    match Decode(channel)
    case None => StepCost(m)
    case Some(p) => MessageWeight(m, c, l, p.count)
  }

  function PcWeight(m: Meter, c: Config, l: nat, pc: Pc): nat {
    var u := StepCost(m);
    match pc
    case Idle => 0
    case Locking(p) => 4 * u + CallCost(m) + NextKey(m, c, l, p.count)
    case Checking(p) => 3 * u + CallCost(m) + NextKey(m, c, l, p.count)
    case Handling(p) => 2 * u + NextKey(m, c, l, p.count)
    case Arming(p) => u + NextKey(m, c, l, p.count)
    case Releasing(p) => u
  }

  function QueueWeight(m: Meter, c: Config, l: nat, q: seq<string>): nat {
    if q == [] then 0 else ChannelWeight(m, c, l, q[0]) + QueueWeight(m, c, l, q[1..])
  }

  function SubWeight(m: Meter, c: Config, l: nat, sub: Sub): nat {
    PcWeight(m, c, l, sub.pc) + QueueWeight(m, c, l, sub.queue)
  }

  function SubsWeight(m: Meter, c: Config, l: nat, subs: seq<Sub>): nat {
    if subs == [] then 0 else SubWeight(m, c, l, subs[0]) + SubsWeight(m, c, l, subs[1..])
  }

  function CellWeight(m: Meter, c: Config, l: nat, key: string, cell: Cell): nat {
    if cell.Owner? || cell.delay <= 0 then 0 else StepCost(m) + |c.nodes| * ChannelWeight(m, c, l, c.Channel(key))
  }

  ghost function StoreWeight(m: Meter, c: Config, l: nat, store: map<string, Cell>): nat
    decreases |store|
  {
    if store == map[] then 0
    else
      var key :| key in store;
      CellWeight(m, c, l, key, store[key]) + StoreWeight(m, c, l, store - {key})
  }

  ghost function Weight(m: Meter, c: Config, l: nat, s: State): nat {
    StoreWeight(m, c, l, s.store) + SubsWeight(m, c, l, s.subs)
  }

  // ---- sums ----

  lemma {:induction false} StoreSplit(m: Meter, c: Config, l: nat, store: map<string, Cell>, k: string)
    requires k in store
    ensures StoreWeight(m, c, l, store) == CellWeight(m, c, l, k, store[k]) + StoreWeight(m, c, l, store - {k})
    decreases |store|
  {
    var x :| x in store && StoreWeight(m, c, l, store) == CellWeight(m, c, l, x, store[x]) + StoreWeight(m, c, l, store - {x});
    if x != k {
      StoreSplit(m, c, l, store - {x}, k);
      StoreSplit(m, c, l, store - {k}, x);
      assert store - {x} - {k} == store - {k} - {x};
    }
  }

  lemma StoreSet(m: Meter, c: Config, l: nat, store: map<string, Cell>, k: string, cell: Cell)
    ensures StoreWeight(m, c, l, store[k := cell]) == CellWeight(m, c, l, k, cell) + StoreWeight(m, c, l, store - {k})
    ensures StoreWeight(m, c, l, store - {k}) <= StoreWeight(m, c, l, store)
  {
    StoreSplit(m, c, l, store[k := cell], k);
    assert store[k := cell] - {k} == store - {k};
    if k in store { StoreSplit(m, c, l, store, k); } else { assert store - {k} == store; }
  }

  lemma {:induction false} SubsUpdate(m: Meter, c: Config, l: nat, subs: seq<Sub>, i: nat, sub: Sub)
    requires i < |subs|
    ensures SubsWeight(m, c, l, subs[i := sub]) + SubWeight(m, c, l, subs[i]) == SubsWeight(m, c, l, subs) + SubWeight(m, c, l, sub)
    decreases |subs|
  {
    if i == 0 {
      assert subs[i := sub][1..] == subs[1..];
    } else {
      assert subs[i := sub][1..] == subs[1..][i - 1 := sub];
      SubsUpdate(m, c, l, subs[1..], i - 1, sub);
    }
  }

  lemma {:induction false} QueueAppend(m: Meter, c: Config, l: nat, q: seq<string>, channel: string)
    ensures QueueWeight(m, c, l, q + [channel]) == QueueWeight(m, c, l, q) + ChannelWeight(m, c, l, channel)
    decreases |q|
  {
    if q == [] {
      assert q + [channel] == [channel];
    } else {
      assert (q + [channel])[1..] == q[1..] + [channel];
      QueueAppend(m, c, l, q[1..], channel);
    }
  }

  /** A subscriber that gets the message or not. */
  predicate GotOrNot(sub: Sub, sub': Sub, channel: string) {
    sub' == sub || sub' == sub.(queue := sub.queue + [channel])
  }

  lemma DeliverOne(m: Meter, c: Config, l: nat, sub: Sub, sub': Sub, channel: string)
    requires GotOrNot(sub, sub', channel)
    ensures SubWeight(m, c, l, sub') <= SubWeight(m, c, l, sub) + ChannelWeight(m, c, l, channel)
  {
    QueueAppend(m, c, l, sub.queue, channel);
  }

  lemma OneMore(k: nat, w: nat)
    ensures (k + 1) * w == w + k * w
  {}

  /** Delivering a message to some of the subscribers costs at most its weight once for each. */
  lemma {:induction false} DeliverWeight(m: Meter, c: Config, l: nat, subs: seq<Sub>, subs': seq<Sub>, channel: string)
    requires |subs'| == |subs| && forall i | 0 <= i < |subs| :: GotOrNot(subs[i], subs'[i], channel)
    ensures SubsWeight(m, c, l, subs') <= SubsWeight(m, c, l, subs) + |subs| * ChannelWeight(m, c, l, channel)
    decreases |subs|
  {
    if subs != [] {
      DeliverOne(m, c, l, subs[0], subs'[0], channel);
      forall i | 0 <= i < |subs[1..]| ensures GotOrNot(subs[1..][i], subs'[1..][i], channel) {
        assert GotOrNot(subs[i + 1], subs'[i + 1], channel);
      }
      DeliverWeight(m, c, l, subs[1..], subs'[1..], channel);
      OneMore(|subs| - 1, ChannelWeight(m, c, l, channel));
    }
  }

  // ---- one step ----

  /** What an event spends: itself, and the handler call it may begin. */
  function Spent(m: Meter, c: Config, s: State, e: Event): nat
    requires Enabled(c, s, e)
  {
    var called := if |Step(c, s, e).calls| > |s.calls| then 1 else 0;
    if m.Calls? then called else if e.Put? then 0 else 1
  }

  /** The rounds of calls that an external notification can lead to, by the count it is read with. */
  function FirstRounds(c: Config, l: nat, value: string): nat {
    if c.Wakes(0) then Rounds(c, l, FirstCount(c, value)) else 0
  }

  /** An external notification brings in the weight of these rounds. */
  function Gained(m: Meter, c: Config, l: nat, e: Event): nat {
    if e.Put? then RoundsWeight(m, |c.nodes|, FirstRounds(c, l, e.value)) else 0
  }

  lemma PutWeight(m: Meter, c: Config, l: nat, s: State, e: Event)
    requires c.Valid() && Enabled(c, s, e) && e.Put?
    ensures Weight(m, c, l, Step(c, s, e)) <= Weight(m, c, l, s) + Gained(m, c, l, e)
  {
    var p := Payload(e.value, 0);
    PutDecodes(c, e.value);
    KeyUnfolds(m, c, l, FirstCount(c, e.value));
    StoreSet(m, c, l, s.store, c.RetryKey(p), Timer(c.policies[0]));
  }

  /** Setting the next key uses up what its goroutine had left; outside the policies it panics. */
  lemma ArmWeight(m: Meter, c: Config, l: nat, s: State, e: Event)
    requires c.Valid() && Safe(c, s) && Enabled(c, s, e) && e.Arm? && ArmsBelow(l, s)
    ensures StepCost(m) + Weight(m, c, l, Step(c, s, e)) <= Weight(m, c, l, s)
  {
    var p := s.subs[e.i].pc.p;
    assert SubSafe(c, s, e.i);
    GotoWeight(m, c, l, s, e.i, Idle);
    if 0 <= p.count < |c.policies| {
      ArmedDecodes(c, p);
      KeyUnfolds(m, c, l, p.count);
      StoreSet(m, c, l, s.store, c.RetryKey(p), Timer(c.policies[p.count]));
    }
  }

  lemma ExpireWeight(m: Meter, c: Config, l: nat, s: State, e: Event)
    requires Enabled(c, s, e) && e.Expire? && |s.subs| == |c.nodes|
    ensures StepCost(m) + Weight(m, c, l, Step(c, s, e)) <= Weight(m, c, l, s)
  {
    StoreSplit(m, c, l, s.store, e.key);
    var t := Step(c, s, e);
    forall i | 0 <= i < |s.subs| ensures GotOrNot(s.subs[i], t.subs[i], c.Channel(e.key)) { }
    DeliverWeight(m, c, l, s.subs, t.subs, c.Channel(e.key));
  }

  lemma GotoWeight(m: Meter, c: Config, l: nat, s: State, i: nat, pc: Pc)
    requires i < |s.subs|
    ensures Weight(m, c, l, Goto(s, i, pc)) + PcWeight(m, c, l, s.subs[i].pc) == Weight(m, c, l, s) + PcWeight(m, c, l, pc)
  {
    SubsUpdate(m, c, l, s.subs, i, s.subs[i].(pc := pc));
  }

  lemma ReceiveWeight(m: Meter, c: Config, l: nat, s: State, e: Event)
    requires Enabled(c, s, e) && e.Receive?
    ensures StepCost(m) + Weight(m, c, l, Step(c, s, e)) <= Weight(m, c, l, s)
  {
    var t := Step(c, s, e);
    assert t.subs == s.subs[e.i := t.subs[e.i]];
    SubsUpdate(m, c, l, s.subs, e.i, t.subs[e.i]);
  }

  lemma TryLockWeight(m: Meter, c: Config, l: nat, s: State, e: Event)
    requires Enabled(c, s, e) && e.TryLock?
    ensures Spent(m, c, s, e) + Weight(m, c, l, Step(c, s, e)) <= Weight(m, c, l, s)
  {
    var k := c.LockKey(s.subs[e.i].pc.p.value);
    StoreSet(m, c, l, s.store, k, Owner(c.Id(e.i)));
    var s' := s.(store := Step(c, s, e).store);
    assert Weight(m, c, l, s') <= Weight(m, c, l, s);
    GotoWeight(m, c, l, s', e.i, Step(c, s, e).subs[e.i].pc);
  }

  /** The handler asks for a next attempt, and there is a policy for it, only below the count `l`. */
  predicate Declines(c: Config, l: nat, s: State, e: Event) {
    (Enabled(c, s, e) && e.Return? && e.putNext && s.subs[e.i].pc.p.count < |c.policies|) ==>
      s.subs[e.i].pc.p.count < l
  }

  ghost predicate ArmsBelow(l: nat, s: State) {
    forall i | 0 <= i < |s.subs| && s.subs[i].pc.Arming? :: s.subs[i].pc.p.count < l
  }

  lemma ArmsBelowStep(c: Config, l: nat, s: State, e: Event)
    requires Enabled(c, s, e) && ArmsBelow(l, s) && Declines(c, l, s, e)
    ensures ArmsBelow(l, Step(c, s, e))
  {}

  /** Every step pays for itself: what it spends plus the weight it leaves is at most the weight
      before it, plus the weight that an external notification brings in. */
  lemma StepWeight(m: Meter, c: Config, l: nat, s: State, e: Event)
    requires c.Valid() && Safe(c, s) && Enabled(c, s, e) && ArmsBelow(l, s)
    ensures Spent(m, c, s, e) + Weight(m, c, l, Step(c, s, e)) <= Weight(m, c, l, s) + Gained(m, c, l, e)
  {
    match e
    case Put(_, _) => PutWeight(m, c, l, s, e);
    case Expire(_, _) => ExpireWeight(m, c, l, s, e);
    case Receive(_) => ReceiveWeight(m, c, l, s, e);
    case TryLock(_, _, _) => TryLockWeight(m, c, l, s, e);
    case CheckOwner(i, _) => GotoWeight(m, c, l, s, i, Step(c, s, e).subs[i].pc);
    case Return(i, _) => GotoWeight(m, c, l, s, i, Step(c, s, e).subs[i].pc);
    case Arm(_, _) => ArmWeight(m, c, l, s, e);
    case Release(i, _) =>
      GotoWeight(m, c, l, s, i, Idle);
      StoreSet(m, c, l, s.store, c.LockKey(s.subs[i].pc.p.value), Timer(0));
  }

  // ---- whole runs ----

  ghost function Total(m: Meter, c: Config, s: State, es: seq<Event>): nat
    decreases |es|
  {
    if es == [] || !Enabled(c, s, es[0]) then 0
    else Spent(m, c, s, es[0]) + Total(m, c, Step(c, s, es[0]), es[1..])
  }

  /** All that the notifications of a run bring in. */
  function Brought(m: Meter, c: Config, l: nat, es: seq<Event>): nat {
    if es == [] then 0 else Gained(m, c, l, es[0]) + Brought(m, c, l, es[1..])
  }

  function Puts(es: seq<Event>): nat {
    if es == [] then 0 else (if es[0].Put? then 1 else 0) + Puts(es[1..])
  }

  ghost predicate DeclinesFrom(c: Config, l: nat, s: State, es: seq<Event>)
    decreases |es|
  {
    es == [] || (Enabled(c, s, es[0]) && Declines(c, l, s, es[0]) && DeclinesFrom(c, l, Step(c, s, es[0]), es[1..]))
  }

  /** No handler gets a next attempt at or beyond the number of policies. */
  lemma {:induction false} PoliciesRunOut(c: Config, s: State, es: seq<Event>, t: State)
    requires Run(c, s, es, t)
    ensures DeclinesFrom(c, |c.policies|, s, es)
    decreases |es|
  {
    if es != [] { PoliciesRunOut(c, Step(c, s, es[0]), es[1..], t); }
  }

  /** The budget of a run: everything it spends is paid for by the external notifications. */
  lemma {:induction false} Budget(m: Meter, c: Config, l: nat, s: State, es: seq<Event>, t: State)
    requires c.Valid() && Safe(c, s) && Run(c, s, es, t) && ArmsBelow(l, s) && DeclinesFrom(c, l, s, es)
    ensures Total(m, c, s, es) + Weight(m, c, l, t) <= Weight(m, c, l, s) + Brought(m, c, l, es)
    decreases |es|
  {
    if es != [] {
      SafeStep(c, s, es[0]);
      StepWeight(m, c, l, s, es[0]);
      ArmsBelowStep(c, l, s, es[0]);
      Budget(m, c, l, Step(c, s, es[0]), es[1..], t);
    }
  }

  lemma {:induction false} TotalsOfRun(c: Config, s: State, es: seq<Event>, t: State)
    requires Run(c, s, es, t)
    ensures |t.calls| == |s.calls| + Total(Calls, c, s, es)
    ensures |es| == Puts(es) + Total(Steps, c, s, es)
    ensures t.puts == s.puts + Puts(es)
    decreases |es|
  {
    if es != [] { TotalsOfRun(c, Step(c, s, es[0]), es[1..], t); }
  }

  lemma EmptyWeight(m: Meter, c: Config, l: nat, s: State)
    requires Init(c, s)
    ensures Weight(m, c, l, s) == 0
  {
    IdleWeight(m, c, l, s.subs);
  }

  lemma {:induction false} IdleWeight(m: Meter, c: Config, l: nat, subs: seq<Sub>)
    requires forall i | 0 <= i < |subs| :: subs[i] == Sub([], Idle)
    ensures SubsWeight(m, c, l, subs) == 0
  {
    if subs != [] { IdleWeight(m, c, l, subs[1..]); }
  }

  // ---- closed forms ----

  function Power(n: nat, k: nat): nat {
    if k == 0 then 1 else n * Power(n, k - 1)
  }

  /** n + n^2 + ... + n^l. */
  function PowerSum(n: nat, l: nat): nat {
    if l == 0 then 0 else PowerSum(n, l - 1) + Power(n, l)
  }

  lemma Distribute(n: nat, a: nat, b: nat)
    ensures n * (a + b) == n * a + n * b
  {}

  lemma {:induction false} PowerSumFactor(n: nat, l: nat)
    ensures PowerSum(n, l + 1) == n * (1 + PowerSum(n, l))
  {
    var next := Power(n, l + 1);
    assert next == n * Power(n, l) && PowerSum(n, l + 1) == PowerSum(n, l) + next;
    if l > 0 {
      PowerSumFactor(n, l - 1);
      Distribute(n, 1 + PowerSum(n, l - 1), Power(n, l));
    }
  }

  lemma OneRoundSum(n: nat)
    ensures PowerSum(n, 1) == n
  {
    assert Power(n, 0) == 1 && PowerSum(n, 0) == 0;
  }

  lemma {:induction false} PowerSumGrows(n: nat, k: nat, l: nat)
    requires k <= l
    ensures PowerSum(n, k) <= PowerSum(n, l)
  {
    if k < l { PowerSumGrows(n, k, l - 1); }
  }

  lemma {:induction false} CallWeight(n: nat, r: nat)
    ensures RoundsWeight(Calls, n, r) == PowerSum(n, r)
  {
    if r > 0 {
      CallWeight(n, r - 1);
      PowerSumFactor(n, r - 1);
    }
  }

  /** The number of rounds when all policies are positive, and the most there can be. */
  function Depth(l: nat, count: int): nat {
    if -1 <= count < l then l - count else 1
  }

  lemma {:induction false} RoundsBounded(c: Config, l: nat, count: int)
    requires l > 0
    ensures Rounds(c, l, count) <= Depth(l, count)
    ensures l <= |c.policies| && c.AllWake() ==> Rounds(c, l, count) == Depth(l, count)
    decreases if count < l then l - count else 0
  {
    if count + 1 < l && 0 <= count + 1 { RoundsBounded(c, l, count + 1); }
  }

  lemma Scale(n: nat, a: nat, b: nat)
    requires a <= b
    ensures n * a <= n * b
  {}

  lemma {:induction false} MoreRounds(m: Meter, n: nat, r: nat, r': nat)
    requires r <= r'
    ensures RoundsWeight(m, n, r) <= RoundsWeight(m, n, r')
    decreases r'
  {
    if r > 0 {
      MoreRounds(m, n, r - 1, r' - 1);
      var u := 5 * StepCost(m) + CallCost(m);
      Scale(n, u + RoundsWeight(m, n, r - 1), u + RoundsWeight(m, n, r' - 1));
    }
  }

  // ---- the bounds ----

  /** The calls that the notifications of a run allow: N + ... + N^r for each with r rounds. */
  function CallAllowance(c: Config, l: nat, es: seq<Event>): nat {
    if es == [] then 0
    else
      (if es[0].Put? then PowerSum(|c.nodes|, FirstRounds(c, l, es[0].value)) else 0)
      + CallAllowance(c, l, es[1..])
  }

  lemma {:induction false} BroughtIsAllowed(c: Config, l: nat, es: seq<Event>)
    ensures Brought(Calls, c, l, es) == CallAllowance(c, l, es)
    decreases |es|
  {
    if es != [] {
      if es[0].Put? { CallWeight(|c.nodes|, FirstRounds(c, l, es[0].value)); }
      BroughtIsAllowed(c, l, es[1..]);
    }
  }

  /** When handlers ask for a next attempt only below the count `l`, every external notification
      causes at most N + N^2 + ... + N^r handler calls, r being its rounds, whatever the
      interleaving and whichever commands or messages are lost. */
  lemma CallsBoundedByDepth(c: Config, l: nat, s: State, es: seq<Event>, t: State)
    requires c.Valid() && Init(c, s) && Run(c, s, es, t) && DeclinesFrom(c, l, s, es)
    ensures |t.calls| <= CallAllowance(c, l, es)
  {
    Budget(Calls, c, l, s, es, t);
    TotalsOfRun(c, s, es, t);
    EmptyWeight(Calls, c, l, s);
    BroughtIsAllowed(c, l, es);
  }

  lemma FirstRoundsBounded(c: Config, l: nat, value: string)
    requires l > 0
    ensures FirstRounds(c, l, value) <= Depth(l, FirstCount(c, value)) <= l + 1
  {
    RoundsBounded(c, l, FirstCount(c, value));
  }

  /** Every notification of the run is read with a first count that satisfies the bounds. */
  ghost predicate FirstCounts(c: Config, es: seq<Event>, low: int, high: int) {
    forall k | 0 <= k < |es| && es[k].Put? :: low <= FirstCount(c, es[k].value) <= high
  }

  /** No notification of the run has more than `r` rounds. */
  ghost predicate AtMostRounds(c: Config, l: nat, es: seq<Event>, r: nat) {
    forall k | 0 <= k < |es| && es[k].Put? :: FirstRounds(c, l, es[k].value) <= r
  }

  lemma {:induction false} AllowanceAtMost(c: Config, l: nat, es: seq<Event>, r: nat)
    requires AtMostRounds(c, l, es, r)
    ensures CallAllowance(c, l, es) <= Puts(es) * PowerSum(|c.nodes|, r)
    decreases |es|
  {
    if es != [] {
      assert forall k | 0 <= k < |es[1..]| :: es[1..][k] == es[k + 1];
      AllowanceAtMost(c, l, es[1..], r);
      if es[0].Put? {
        PowerSumGrows(|c.nodes|, FirstRounds(c, l, es[0].value), r);
        OneMore(Puts(es[1..]), PowerSum(|c.nodes|, r));
      }
    }
  }

  lemma CountsToRounds(c: Config, l: nat, es: seq<Event>)
    requires l > 0
    ensures AtMostRounds(c, l, es, l + 1)
    ensures FirstCounts(c, es, 0, INT32_LIMIT) ==> AtMostRounds(c, l, es, l)
    ensures FirstCounts(c, es, -INT32_LIMIT, -2) ==> AtMostRounds(c, l, es, 1)
  {
    forall k | 0 <= k < |es| && es[k].Put?
      ensures FirstRounds(c, l, es[k].value) <= Depth(l, FirstCount(c, es[k].value)) <= l + 1
    { FirstRoundsBounded(c, l, es[k].value); }
  }

  lemma CallsWithin(c: Config, s: State, es: seq<Event>, t: State, r: nat)
    requires c.Valid() && Init(c, s) && Run(c, s, es, t) && AtMostRounds(c, |c.policies|, es, r)
    ensures |t.calls| <= t.puts * PowerSum(|c.nodes|, r)
  {
    PoliciesRunOut(c, s, es, t);
    CallsBoundedByDepth(c, |c.policies|, s, es, t);
    TotalsOfRun(c, s, es, t);
    AllowanceAtMost(c, |c.policies|, es, r);
  }

  /** The call bound of every run, for L policies and N subscribers.  A notification that is read
      with a count of at least 0 causes at most N + ... + N^L calls, one read with -1 at most
      N + ... + N^(L+1), and one read below -1 at most N, since its next attempt panics. */
  lemma CallsBounded(c: Config, s: State, es: seq<Event>, t: State)
    requires c.Valid() && Init(c, s) && Run(c, s, es, t)
    ensures |t.calls| <= CallAllowance(c, |c.policies|, es)
    ensures FirstCounts(c, es, 0, INT32_LIMIT) ==> |t.calls| <= t.puts * PowerSum(|c.nodes|, |c.policies|)
    ensures FirstCounts(c, es, -INT32_LIMIT, -2) ==> |t.calls| <= t.puts * |c.nodes|
    ensures |t.calls| <= t.puts * PowerSum(|c.nodes|, |c.policies| + 1)
  {
    PoliciesRunOut(c, s, es, t);
    CallsBoundedByDepth(c, |c.policies|, s, es, t);
    CountsToRounds(c, |c.policies|, es);
    CallsWithin(c, s, es, t, |c.policies| + 1);
    if FirstCounts(c, es, 0, INT32_LIMIT) { CallsWithin(c, s, es, t, |c.policies|); }
    if FirstCounts(c, es, -INT32_LIMIT, -2) {
      CallsWithin(c, s, es, t, 1);
      OneRoundSum(|c.nodes|);
    }
  }

  lemma {:induction false} BroughtAtMost(m: Meter, c: Config, l: nat, es: seq<Event>)
    requires l > 0
    ensures Brought(m, c, l, es) <= Puts(es) * RoundsWeight(m, |c.nodes|, l + 1)
    decreases |es|
  {
    if es != [] {
      BroughtAtMost(m, c, l, es[1..]);
      if es[0].Put? {
        FirstRoundsBounded(c, l, es[0].value);
        MoreRounds(m, |c.nodes|, FirstRounds(c, l, es[0].value), l + 1);
        OneMore(Puts(es[1..]), RoundsWeight(m, |c.nodes|, l + 1));
      }
    }
  }

  /** The protocol terminates: beside its notifications a run has at most the steps that these bring
      in, each by the count it is first read with, and never more than a fixed number for each. */
  lemma Terminates(c: Config, s: State, es: seq<Event>, t: State)
    requires c.Valid() && Init(c, s) && Run(c, s, es, t)
    ensures |es| <= t.puts + Brought(Steps, c, |c.policies|, es)
    ensures |es| <= t.puts + t.puts * RoundsWeight(Steps, |c.nodes|, |c.policies| + 1)
  {
    PoliciesRunOut(c, s, es, t);
    Budget(Steps, c, |c.policies|, s, es, t);
    TotalsOfRun(c, s, es, t);
    EmptyWeight(Steps, c, |c.policies|, s);
    BroughtAtMost(Steps, c, |c.policies|, es);
  }
}
