/** The distributed retry protocol of libs/redis/redis_notification.go.

    Any number of subscribers listen for the expiry of retry keys, compete for a per-value lock
    (SETNX, then GET, as two separate commands), run a handler, and either re-arm a key with the
    next delay or delete the lock.  The store maps real key texts, so that a collision between a
    lock key and a retry key would be visible.  Time, scheduling, lost messages and failing
    commands are the nondeterminism of the events; the text of every key is what the code writes. */
module RetryProtocol {
  import opened GoStrings
  import opened Options
  import opened Payloads

  /** The node name and goroutine number that make up a lock owner's identity. */
  datatype Node = Node(name: string, routine: nat)

  /** `topic` is the notification's own key, `view` the prefix of the Redis view. */
  datatype Config = Config(topic: string, view: string, policies: seq<int>, nodes: seq<Node>) {
    ghost predicate Valid() {
      && 0 < |policies| <= INT32_LIMIT
      && forall i, j | 0 <= i < j < |nodes| :: nodes[i] != nodes[j]
    }
    /** A key with this count has an expiry: a duration that is not positive sets none. */
    predicate Wakes(count: int) { 0 <= count < |policies| && policies[count] > 0 }
    predicate AllWake() { forall k | 0 <= k < |policies| :: Wakes(k) }
    function Scope(): string { "retry-" + topic }
    function RetryKey(p: Payload): string { Scope() + ":" + Encode(p) }
    function LockKey(v: string): string { Scope() + ":" + v }
    function Channel(key: string): string { "__keyspace@0__:" + view + ":" + key }
    function Id(i: nat): string
      requires i < |nodes|
    {
      Identity(nodes[i])
    }
  }

  datatype Cell = Timer(delay: int) | Owner(id: string)

  /** Where a subscriber's goroutine stands; the payload's count is already incremented. */
  datatype Pc =
    | Idle
    | Locking(p: Payload)    // about to SETNX
    | Checking(p: Payload)   // SETNX did not succeed, about to GET
    | Handling(p: Payload)   // inside the handler
    | Arming(p: Payload)     // about to Set the next retry key
    | Releasing(p: Payload)  // about to Del the lock key

  datatype Sub = Sub(queue: seq<string>, pc: Pc)

  datatype Call = Call(sub: nat, p: Payload)

  /** `puts`, `calls` and `delays` record the external notifications, the handler calls and the
      delays of the keys set; `fault` is the panic of an index outside `policies`. */
  datatype State = State(store: map<string, Cell>, subs: seq<Sub>, fault: bool,
                         puts: nat, calls: seq<Call>, delays: seq<int>)

  /** `effect`: the command changed the store; `reply`: its answer arrived without an error. */
  datatype Event =
    | Put(value: string, effect: bool)
    | Expire(key: string, to: set<nat>)
    | Receive(i: nat)
    | TryLock(i: nat, effect: bool, reply: bool)
    | CheckOwner(i: nat, reply: bool)
    | Return(i: nat, putNext: bool)
    | Arm(i: nat, effect: bool)
    | Release(i: nat, effect: bool)

  ghost predicate Init(c: Config, s: State) {
    s == State(map[], seq(|c.nodes|, i => Sub([], Idle)), false, 0, [], [])
  }

  predicate Enabled(c: Config, s: State, e: Event) {
    && !s.fault
    && (!e.Put? && !e.Expire? ==> e.i < |s.subs| && e.i < |c.nodes|)
    && match e
       case Put(_, _) => 0 < |c.policies|
       case Expire(key, _) => key in s.store && s.store[key].Timer? && s.store[key].delay > 0
       case Receive(i) => s.subs[i].pc.Idle? && s.subs[i].queue != []
       case TryLock(i, effect, reply) => s.subs[i].pc.Locking? && (reply ==> effect)
       case CheckOwner(i, _) => s.subs[i].pc.Checking?
       case Return(i, _) => s.subs[i].pc.Handling?
       case Arm(i, _) => s.subs[i].pc.Arming?
       case Release(i, _) => s.subs[i].pc.Releasing?
  }

  function Goto(s: State, i: nat, pc: Pc): State
    requires i < |s.subs|
  {
    s.(subs := s.subs[i := s.subs[i].(pc := pc)])
  }

  /** Entering the handler. */
  function Enter(s: State, i: nat, p: Payload): State
    requires i < |s.subs|
  {
    Goto(s, i, Handling(p)).(calls := s.calls + [Call(i, p)])
  }

  /** An expiry message is appended to the queue of every subscriber it reaches. */
  function Deliver(subs: seq<Sub>, to: set<nat>, channel: string): (r: seq<Sub>)
    ensures |r| == |subs|
    ensures forall i | 0 <= i < |subs| ::
              r[i] == if i in to then subs[i].(queue := subs[i].queue + [channel]) else subs[i]
  {
    seq(|subs|, i requires 0 <= i < |subs| =>
      if i in to then subs[i].(queue := subs[i].queue + [channel]) else subs[i])
  }

  /** `PutNotification`. */
  function SetRetry(c: Config, s: State, p: Payload, effect: bool): State {
    if !(0 <= p.count < |c.policies|) then s.(fault := true)
    else if !effect then s
    else s.(store := s.store[c.RetryKey(p) := Timer(c.policies[p.count])],
            delays := s.delays + [c.policies[p.count]])
  }

  function Step(c: Config, s: State, e: Event): State
    requires Enabled(c, s, e)
  {
    match e
    case Put(value, effect) =>
      SetRetry(c, s.(puts := s.puts + 1), Payload(value, 0), effect)
    case Expire(key, to) =>
      s.(store := s.store - {key}, subs := Deliver(s.subs, to, c.Channel(key)))
    case Receive(i) =>
      var sub := s.subs[i];
      var s' := s.(subs := s.subs[i := Sub(sub.queue[1..], Idle)]);
      (match Decode(sub.queue[0])
       case None => s'
       case Some(p) => Goto(s', i, Locking(p.(count := p.count + 1))))
    case TryLock(i, effect, reply) =>
      var p := s.subs[i].pc.p;
      var free := c.LockKey(p.value) !in s.store;
      var s' := if effect && free then s.(store := s.store[c.LockKey(p.value) := Owner(c.Id(i))]) else s;
      if reply && free then Enter(s', i, p) else Goto(s', i, Checking(p))
    case CheckOwner(i, reply) =>
      var p := s.subs[i].pc.p;
      var k := c.LockKey(p.value);
      if reply && k in s.store && s.store[k] == Owner(c.Id(i)) then Enter(s, i, p) else Goto(s, i, Idle)
    case Return(i, putNext) =>
      var p := s.subs[i].pc.p;
      Goto(s, i, if putNext && p.count < |c.policies| then Arming(p) else Releasing(p))
    case Arm(i, effect) =>
      SetRetry(c, Goto(s, i, Idle), s.subs[i].pc.p, effect)
    case Release(i, effect) =>
      var s' := Goto(s, i, Idle);
      if effect then s'.(store := s'.store - {c.LockKey(s.subs[i].pc.p.value)}) else s'
  }

  /** `es` is a run from `s` to `t`. */
  ghost predicate Run(c: Config, s: State, es: seq<Event>, t: State)
    decreases |es|
  {
    if es == [] then t == s
    else Enabled(c, s, es[0]) && Run(c, Step(c, s, es[0]), es[1..], t)
  }

  // ---- key texts ----

  function Identity(n: Node): string {
    n.name + "-" + Digits(n.routine)
  }

  /** The dash before the goroutine number is the last dash of an identity. */
  lemma LastDash(n: Node)
    ensures var s := Identity(n);
            s[|n.name|] == '-' && forall k | |n.name| < k < |s| :: s[k] != '-'
  {
    var s := Identity(n);
    forall k | |n.name| < k < |s| ensures s[k] != '-' {
      assert IsDigit(Digits(n.routine)[k - |n.name| - 1]);
    }
  }

  /** Goroutines with different node names or numbers write different owner texts. */
  lemma IdentityInjective(a: Node, b: Node)
    requires Identity(a) == Identity(b)
    ensures a == b
  {
    var s := Identity(a);
    LastDash(a);
    LastDash(b);
    assert |a.name| == |b.name|;
    assert s[..|a.name|] == a.name && s[..|b.name|] == b.name;
    assert s[|a.name| + 1..] == Digits(a.routine) && s[|b.name| + 1..] == Digits(b.routine);
    DigitsInjective(a.routine, b.routine);
  }

  lemma IdInjective(c: Config, i: nat, j: nat)
    requires c.Valid() && i < |c.nodes| && j < |c.nodes| && c.Id(i) == c.Id(j)
    ensures i == j
  {
    IdentityInjective(c.nodes[i], c.nodes[j]);
  }

  lemma {:induction false} DigitsInjective(m: nat, n: nat)
    requires Digits(m) == Digits(n)
    ensures m == n
  {
    if m >= 10 && n >= 10 {
      var x, y := Digits(m / 10), Digits(n / 10);
      assert Digits(m)[..|x|] == x && Digits(n)[..|y|] == y;
      assert Last(Digits(m)) == Digit(m % 10) && Last(Digits(n)) == Digit(n % 10);
      DigitsInjective(m / 10, n / 10);
    }
  }

  /** No retry key is the lock key of a value free of "||". */
  lemma KeysDisjoint(c: Config, v: string, p: Payload)
    requires !Contains(v, "||")
    ensures c.LockKey(v) != c.RetryKey(p)
  {
    if c.LockKey(v) == c.RetryKey(p) {
      assert c.LockKey(v)[|c.Scope()| + 1..] == v;
      assert c.RetryKey(p)[|c.Scope()| + 1..] == Encode(p);
      BarsOccur(v, |p.value|);
      assert OccursAt(v, "||", |p.value|);
    }
  }

  lemma LockKeyInjective(c: Config, v: string, w: string)
    ensures c.LockKey(v) == c.LockKey(w) ==> v == w
  {
    assert c.LockKey(v)[|c.Scope()| + 1..] == v;
    assert c.LockKey(w)[|c.Scope()| + 1..] == w;
  }

  lemma ChannelOfRetry(c: Config, p: Payload)
    ensures c.Channel(c.RetryKey(p)) == ("__keyspace@0__:" + c.view + ":" + c.Scope()) + ":" + Encode(p)
  {}

  /** A key that a goroutine sets is read back as the payload it was set for. */
  lemma ArmedDecodes(c: Config, p: Payload)
    requires c.Valid() && Clean(p.value) && 0 <= p.count < |c.policies|
    ensures Decode(c.Channel(c.RetryKey(p))) == Some(p)
  {
    ChannelOfRetry(c, p);
    RoundTrip("__keyspace@0__:" + c.view + ":" + c.Scope(), p);
  }

  /** The count with which the first message of an external notification is read. */
  function FirstCount(c: Config, value: string): int {
    match Decode(c.Channel(c.RetryKey(Payload(value, 0))))
    case None => 0
    case Some(p) => p.count
  }

  lemma PutDecodes(c: Config, value: string)
    ensures Decode(c.Channel(c.RetryKey(Payload(value, 0)))).Some?
    ensures -INT32_LIMIT <= FirstCount(c, value) < INT32_LIMIT
  {
    var p := Payload(value, 0);
    ChannelOfRetry(c, p);
    AlwaysDecodes("__keyspace@0__:" + c.view + ":" + c.Scope(), p);
    DecodedIsClean(c.Channel(c.RetryKey(p)));
  }

  /** A value without "||" is first read with the count 0; one that is itself an encoded payload,
      such as "x||-1", with the count it carries. */
  lemma FirstCounted(c: Config, value: string, q: Payload)
    ensures !Contains(value, "||") ==> FirstCount(c, value) == 0
    ensures Clean(q.value) && -INT32_LIMIT <= q.count < INT32_LIMIT ==> FirstCount(c, Encode(q)) == q.count
  {
    var pre := "__keyspace@0__:" + c.view + ":" + c.Scope();
    ChannelOfRetry(c, Payload(value, 0));
    ChannelOfRetry(c, Payload(Encode(q), 0));
    if !Contains(value, "||") { DecodeBarFree(pre, Payload(value, 0)); }
    if Clean(q.value) && -INT32_LIMIT <= q.count < INT32_LIMIT { NestedPayload(pre, q, 0); }
  }

  lemma Prepend(c: Config, s: State, e: Event, es: seq<Event>, t: State)
    requires Enabled(c, s, e) && Run(c, Step(c, s, e), es, t)
    ensures Run(c, s, [e] + es, t)
  {
    assert ([e] + es)[1..] == es;
  }

  lemma {:induction false} RunConcat(c: Config, s: State, es: seq<Event>, m: State, more: seq<Event>, t: State)
    requires Run(c, s, es, m) && Run(c, m, more, t)
    ensures Run(c, s, es + more, t)
    decreases |es|
  {
    if es == [] {
      assert es + more == more;
    } else {
      assert (es + more)[1..] == es[1..] + more;
      RunConcat(c, Step(c, s, es[0]), es[1..], m, more, t);
    }
  }

  // ---- mutual exclusion ----

  predicate InCritical(pc: Pc) {
    pc.Handling? || pc.Arming? || pc.Releasing?
  }

  ghost predicate Owns(c: Config, s: State, i: nat, v: string)
    requires i < |c.nodes|
  {
    c.LockKey(v) in s.store && s.store[c.LockKey(v)] == Owner(c.Id(i))
  }

  ghost predicate SubSafe(c: Config, s: State, i: nat)
    requires i < |s.subs| && i < |c.nodes|
  {
    var pc := s.subs[i].pc;
    && (!pc.Idle? ==> Clean(pc.p.value))
    && (InCritical(pc) ==> Owns(c, s, i, pc.p.value))
  }

  ghost predicate Safe(c: Config, s: State) {
    && |s.subs| == |c.nodes|
    && forall i: nat | i < |s.subs| :: SubSafe(c, s, i)
  }

  lemma SafeSetRetry(c: Config, s: State, p: Payload, effect: bool)
    requires c.Valid() && Safe(c, s)
    ensures Safe(c, SetRetry(c, s, p, effect))
  {
    var t := SetRetry(c, s, p, effect);
    forall i: nat | i < |t.subs| ensures SubSafe(c, t, i) {
      assert SubSafe(c, s, i);
      if !s.subs[i].pc.Idle? { KeysDisjoint(c, s.subs[i].pc.p.value, p); }
    }
  }

  lemma SafeRelease(c: Config, s: State, e: Event)
    requires c.Valid() && Safe(c, s) && e.Release? && Enabled(c, s, e)
    ensures Safe(c, Step(c, s, e))
  {
    var t := Step(c, s, e);
    var v := s.subs[e.i].pc.p.value;
    assert SubSafe(c, s, e.i);
    forall j: nat | j < |t.subs| ensures SubSafe(c, t, j) {
      assert SubSafe(c, s, j);
      if j != e.i && InCritical(s.subs[j].pc) {
        if c.Id(e.i) == c.Id(j) { IdInjective(c, e.i, j); }
        LockKeyInjective(c, v, s.subs[j].pc.p.value);
      }
    }
  }

  lemma SafeSet(c: Config, s: State, e: Event)
    requires c.Valid() && Safe(c, s) && Enabled(c, s, e) && (e.Put? || e.Arm?)
    ensures Safe(c, Step(c, s, e))
  {
    var m := if e.Put? then s.(puts := s.puts + 1) else Goto(s, e.i, Idle);
    forall j: nat | j < |s.subs| ensures SubSafe(c, m, j) { assert SubSafe(c, s, j); }
    SafeSetRetry(c, m, if e.Put? then Payload(e.value, 0) else s.subs[e.i].pc.p, e.effect);
  }

  lemma SafeStep(c: Config, s: State, e: Event)
    requires c.Valid() && Safe(c, s) && Enabled(c, s, e)
    ensures Safe(c, Step(c, s, e))
  {
    var t := Step(c, s, e);
    match e
    case Put(_, _) => SafeSet(c, s, e);
    case Arm(_, _) => SafeSet(c, s, e);
    case Release(_, _) => SafeRelease(c, s, e);
    case Receive(i) =>
      if Decode(s.subs[i].queue[0]).Some? { DecodedIsClean(s.subs[i].queue[0]); }
      forall j: nat | j < |t.subs| ensures SubSafe(c, t, j) { assert SubSafe(c, s, j); }
    case _ =>
      forall j: nat | j < |t.subs| ensures SubSafe(c, t, j) { assert SubSafe(c, s, j); }
  }

  lemma {:induction false} SafeRun(c: Config, s: State, es: seq<Event>, t: State)
    requires c.Valid() && Safe(c, s) && Run(c, s, es, t)
    ensures Safe(c, t)
    decreases |es|
  {
    if es != [] {
      SafeStep(c, s, es[0]);
      SafeRun(c, Step(c, s, es[0]), es[1..], t);
    }
  }

  /** Mutual exclusion: in every interleaving, with lost commands and lost replies, and whatever
      values are put, no two subscribers are in the handler for the same value. */
  lemma MutualExclusion(c: Config, s: State, es: seq<Event>, t: State, i: nat, j: nat)
    requires c.Valid() && Init(c, s) && Run(c, s, es, t)
    requires i < j < |t.subs| && t.subs[i].pc.Handling? && t.subs[j].pc.Handling?
    ensures t.subs[i].pc.p.value != t.subs[j].pc.p.value
  {
    SafeRun(c, s, es, t);
    assert SubSafe(c, t, i) && SubSafe(c, t, j);
    if c.Id(i) == c.Id(j) { IdInjective(c, i, j); }
  }

  /** Only its current owner deletes a lock key, and nothing ever overwrites one. */
  lemma OnlyOwnerDeletes(c: Config, s: State, es: seq<Event>, t: State, e: Event, v: string)
    requires c.Valid() && Init(c, s) && Run(c, s, es, t) && Enabled(c, t, e)
    requires Clean(v) && c.LockKey(v) in t.store && t.store[c.LockKey(v)].Owner?
    ensures var t' := Step(c, t, e);
            || (c.LockKey(v) in t'.store && t'.store[c.LockKey(v)] == t.store[c.LockKey(v)])
            || (e.Release? && t.store[c.LockKey(v)] == Owner(c.Id(e.i)))
  {
    SafeRun(c, s, es, t);
    if e.Put? { KeysDisjoint(c, v, Payload(e.value, 0)); }
    if e.Arm? { KeysDisjoint(c, v, t.subs[e.i].pc.p); }
    if e.Release? { assert SubSafe(c, t, e.i); }
  }

  // ---- what is in the store ----

  /** A key for a next attempt carries its value and count in its text, and the policy of that count as
      its delay; a lock key carries its value, and the node and goroutine that took it. */
  ghost predicate CellFits(c: Config, key: string, cell: Cell) {
    match cell
    case Timer(delay) => exists p: Payload :: TimerFits(c, key, delay, p)
    case Owner(id) => exists i: nat, v: string :: OwnerFits(c, key, id, i, v)
  }

  predicate TimerFits(c: Config, key: string, delay: int, p: Payload) {
    && 0 <= p.count < |c.policies| && delay == c.policies[p.count]
    && key == ("retry-" + c.topic) + ":" + (p.value + "||" + Itoa(p.count))
  }

  ghost predicate OwnerFits(c: Config, key: string, id: string, i: nat, v: string) {
    && i < |c.nodes| && id == c.nodes[i].name + "-" + Digits(c.nodes[i].routine)
    && Clean(v) && key == ("retry-" + c.topic) + ":" + v
  }

  ghost predicate StoreFits(c: Config, s: State) {
    forall key | key in s.store :: CellFits(c, key, s.store[key])
  }

  lemma StoreFitsStep(c: Config, s: State, e: Event)
    requires c.Valid() && Safe(c, s) && StoreFits(c, s) && Enabled(c, s, e)
    ensures StoreFits(c, Step(c, s, e))
  {
    var t := Step(c, s, e);
    forall key | key in t.store ensures CellFits(c, key, t.store[key]) {
      if key in s.store && t.store[key] == s.store[key] {
        assert CellFits(c, key, s.store[key]);
      } else if e.TryLock? {
        assert SubSafe(c, s, e.i);
        assert OwnerFits(c, key, c.Id(e.i), e.i, s.subs[e.i].pc.p.value);
      } else {
        var p := if e.Put? then Payload(e.value, 0) else s.subs[e.i].pc.p;
        assert TimerFits(c, key, t.store[key].delay, p);
      }
    }
  }

  lemma {:induction false} StoreFitsRun(c: Config, s: State, es: seq<Event>, t: State)
    requires c.Valid() && Safe(c, s) && StoreFits(c, s) && Run(c, s, es, t)
    ensures StoreFits(c, t)
    decreases |es|
  {
    if es != [] {
      SafeStep(c, s, es[0]);
      StoreFitsStep(c, s, es[0]);
      StoreFitsRun(c, Step(c, s, es[0]), es[1..], t);
    }
  }

  /** Exactly when a handler is entered: when the answer to SETNX arrives and the lock was free, or the
      answer to GET arrives and holds the caller's own identity.  A lost answer enters nothing. */
  lemma EntersIff(c: Config, s: State, e: Event)
    requires Enabled(c, s, e)
    ensures Step(c, s, e).calls != s.calls <==>
            && (e.TryLock? || e.CheckOwner?) && e.reply
            && var key, id := ("retry-" + c.topic) + ":" + s.subs[e.i].pc.p.value,
                              c.nodes[e.i].name + "-" + Digits(c.nodes[e.i].routine);
               if e.TryLock? then key !in s.store else key in s.store && s.store[key] == Owner(id)
    ensures Step(c, s, e).calls != s.calls ==>
              Step(c, s, e).calls == s.calls + [Call(e.i, s.subs[e.i].pc.p)] && Step(c, s, e).subs[e.i].pc == Handling(s.subs[e.i].pc.p)
  {}

  /** Only an expiry, or a command that reached the server, changes the store. */
  lemma LostCommandsChangeNothing(c: Config, s: State, e: Event)
    requires Enabled(c, s, e) && Step(c, s, e).store != s.store
    ensures e.Expire? || ((e.Put? || e.TryLock? || e.Arm? || e.Release?) && e.effect)
  {}

  /** In every run the store holds nothing but such cells: each key for a next attempt with the delay of
      its own count, each lock with its owner. */
  lemma StoredAsPolicies(c: Config, s: State, es: seq<Event>, t: State)
    requires c.Valid() && Init(c, s) && Run(c, s, es, t)
    ensures forall key | key in t.store :: CellFits(c, key, t.store[key])
  {
    StoreFitsRun(c, s, es, t);
  }
}
