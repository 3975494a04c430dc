/** No orphaned lock in the retry protocol: when no command or message is lost and every policy is
    positive, every lock that is held has somebody who will come back for it
    (libs/redis/redis_notification.go). */
module RetryLocks {
  import opened GoStrings
  import opened Payloads
  import opened RetryProtocol

  /** Every command takes effect and answers, and every expiry reaches every subscriber. */
  ghost predicate Reliable(c: Config, e: Event) {
    match e
    case Put(_, effect) => effect
    case Expire(_, to) => forall i: nat | i < |c.nodes| :: i in to
    case TryLock(_, effect, reply) => effect && reply
    case CheckOwner(_, reply) => reply
    case Arm(_, effect) => effect
    case Release(_, effect) => effect
    case _ => true
  }

  ghost predicate ReliableRun(c: Config, es: seq<Event>) {
    forall k | 0 <= k < |es| :: Reliable(c, es[k])
  }

  /** The message of this channel is about the value `v`. */
  predicate Concerns(channel: string, v: string) {
    Decode(channel).Some? && Decode(channel).value.value == v
  }

  predicate Busy(sub: Sub, v: string) {
    !sub.pc.Idle? && sub.pc.p.value == v
  }

  ghost predicate Queued(sub: Sub, v: string) {
    exists k :: 0 <= k < |sub.queue| && Concerns(sub.queue[k], v)
  }

  ghost predicate TimerFor(c: Config, s: State, key: string, v: string) {
    key in s.store && s.store[key].Timer? && Concerns(c.Channel(key), v)
  }

  ghost predicate Pending(c: Config, s: State, v: string) {
    exists key :: TimerFor(c, s, key, v)
  }

  /** The lock at `key` belongs to subscriber `i`, who is working on its value, or has a retry key set
      for it, or a message already in its queue. */
  ghost predicate Attended(c: Config, s: State, key: string, i: nat) {
    && i < |s.subs| && i < |c.nodes|
    && key in s.store && s.store[key] == Owner(c.Id(i))
    && |key| > |c.Scope()|
    && var v := key[|c.Scope()| + 1..];
       && key == c.LockKey(v)
       && (Busy(s.subs[i], v) || Pending(c, s, v) || Queued(s.subs[i], v))
  }

  ghost predicate NoOrphan(c: Config, s: State) {
    forall key | key in s.store && s.store[key].Owner? :: exists i: nat :: Attended(c, s, key, i)
  }

  /** A new retry key for a clean payload is a pending timer for its value, and hides no lock. */
  lemma ArmedIsPending(c: Config, s: State, p: Payload)
    requires c.Valid() && Clean(p.value) && 0 <= p.count < |c.policies|
    ensures TimerFor(c, SetRetry(c, s, p, true), c.RetryKey(p), p.value)
  {
    ArmedDecodes(c, p);
  }

  /** How one attended lock stays attended over a step that leaves its cell alone. */
  lemma AttendedStep(c: Config, s: State, e: Event, key: string, i: nat)
    requires c.Valid() && Safe(c, s) && Enabled(c, s, e) && Reliable(c, e)
    requires Attended(c, s, key, i) && !Step(c, s, e).fault
    requires key in Step(c, s, e).store && Step(c, s, e).store[key] == s.store[key]
    ensures Attended(c, Step(c, s, e), key, i)
  {
    var t := Step(c, s, e);
    var v := key[|c.Scope()| + 1..];
    if Queued(s.subs[i], v) {
      QueueStep(c, s, e, i, v);
    } else if Busy(s.subs[i], v) {
      BusyStep(c, s, e, key, i, v);
    } else {
      PendingStep(c, s, e, i, v);
    }
  }

  lemma QueueStep(c: Config, s: State, e: Event, i: nat, v: string)
    requires c.Valid() && Safe(c, s) && Enabled(c, s, e) && i < |s.subs|
    requires Queued(s.subs[i], v)
    ensures i < |Step(c, s, e).subs| && (Busy(Step(c, s, e).subs[i], v) || Queued(Step(c, s, e).subs[i], v))
  {
    var t := Step(c, s, e);
    var q := s.subs[i].queue;
    var k :| 0 <= k < |q| && Concerns(q[k], v);
    if e.Receive? && e.i == i {
      if k > 0 { assert t.subs[i].queue[k - 1] == q[k]; }
    } else {
      QueueKept(c, s, e, i);
      assert t.subs[i].queue[k] == q[k];
    }
  }

  lemma QueueKept(c: Config, s: State, e: Event, i: nat)
    requires Enabled(c, s, e) && i < |s.subs| && !(e.Receive? && e.i == i)
    ensures i < |Step(c, s, e).subs| && s.subs[i].queue <= Step(c, s, e).subs[i].queue
  {}

  lemma BusyStep(c: Config, s: State, e: Event, key: string, i: nat, v: string)
    requires c.Valid() && Safe(c, s) && Enabled(c, s, e) && Reliable(c, e) && !Step(c, s, e).fault
    requires i < |s.subs| && Busy(s.subs[i], v) && key == c.LockKey(v)
    requires key in s.store && s.store[key] == Owner(c.Id(i))
    requires key in Step(c, s, e).store
    ensures i < |Step(c, s, e).subs| && (Busy(Step(c, s, e).subs[i], v) || Pending(c, Step(c, s, e), v))
  {
    assert SubSafe(c, s, i);
    if e.Arm? && e.i == i {
      ArmedIsPending(c, Goto(s, i, Idle), s.subs[i].pc.p);
    }
  }

  lemma PendingStep(c: Config, s: State, e: Event, i: nat, v: string)
    requires c.Valid() && Safe(c, s) && Enabled(c, s, e) && Reliable(c, e)
    requires i < |s.subs| && Pending(c, s, v)
    ensures i < |Step(c, s, e).subs| && (Pending(c, Step(c, s, e), v) || Queued(Step(c, s, e).subs[i], v))
  {
    var t := Step(c, s, e);
    var k :| TimerFor(c, s, k, v);
    if e.Expire? && e.key == k {
      assert Last(t.subs[i].queue) == c.Channel(k);
      assert Concerns(t.subs[i].queue[|t.subs[i].queue| - 1], v);
    } else {
      if e.Release? {
        var w := s.subs[e.i].pc.p.value;
        assert SubSafe(c, s, e.i);
        assert s.store[c.LockKey(w)].Owner?;
      }
      assert TimerFor(c, t, k, v);
    }
  }

  lemma NoOrphanStep(c: Config, s: State, e: Event)
    requires c.Valid() && Safe(c, s) && NoOrphan(c, s) && Enabled(c, s, e) && Reliable(c, e)
    requires !Step(c, s, e).fault
    ensures NoOrphan(c, Step(c, s, e))
  {
    var t := Step(c, s, e);
    forall key | key in t.store && t.store[key].Owner? ensures exists i: nat :: Attended(c, t, key, i) {
      if key in s.store && s.store[key] == t.store[key] {
        var i: nat :| Attended(c, s, key, i);
        AttendedStep(c, s, e, key, i);
      } else {
        var v := s.subs[e.i].pc.p.value;
        assert e.TryLock? && key == c.LockKey(v);
        assert key[|c.Scope()| + 1..] == v;
        assert Attended(c, t, key, e.i);
      }
    }
  }

  lemma {:induction false} NoOrphanRun(c: Config, s: State, es: seq<Event>, t: State)
    requires c.Valid() && Safe(c, s) && NoOrphan(c, s) && Run(c, s, es, t) && ReliableRun(c, es) && !t.fault
    ensures NoOrphan(c, t)
    decreases |es|
  {
    if es != [] {
      var m := Step(c, s, es[0]);
      assert !m.fault by { FaultIsFinal(c, m, es[1..], t); }
      SafeStep(c, s, es[0]);
      assert Reliable(c, es[0]);
      NoOrphanStep(c, s, es[0]);
      assert forall k | 0 <= k < |es[1..]| :: es[1..][k] == es[k + 1];
      NoOrphanRun(c, m, es[1..], t);
    }
  }

  /** A faulted state takes no further step. */
  lemma FaultIsFinal(c: Config, s: State, es: seq<Event>, t: State)
    requires Run(c, s, es, t)
    ensures s.fault ==> t == s
  {}

  /** Every lock that is held in a reliable run is attended, whatever was put. */
  lemma LocksAttended(c: Config, s: State, es: seq<Event>, t: State)
    requires c.Valid() && Init(c, s) && Run(c, s, es, t) && ReliableRun(c, es) && !t.fault
    ensures forall key | key in t.store && t.store[key].Owner? :: exists i: nat :: Attended(c, t, key, i)
  {
    NoOrphanRun(c, s, es, t);
  }

  /** Nothing is pending, queued or in progress. */
  ghost predicate Quiescent(s: State) {
    && (forall key | key in s.store :: !s.store[key].Timer?)
    && forall i | 0 <= i < |s.subs| :: s.subs[i] == Sub([], Idle)
  }

  /** A reliable run that comes to rest leaves no lock, indeed no key at all, behind. */
  lemma QuiescentHoldsNoLock(c: Config, s: State, es: seq<Event>, t: State)
    requires c.Valid() && Init(c, s) && Run(c, s, es, t) && ReliableRun(c, es) && !t.fault
    requires Quiescent(t)
    ensures t.store == map[]
  {
    LocksAttended(c, s, es, t);
    assert t.store.Keys == {};
  }

  ghost function Everyone(n: nat): (r: set<nat>)
    ensures forall i: nat | i < n :: i in r
  {
    if n == 0 then {} else Everyone(n - 1) + {n - 1}
  }

  /** Every key that is set for a next attempt has an expiry. */
  ghost predicate TimersLive(s: State) {
    forall key | key in s.store && s.store[key].Timer? :: s.store[key].delay > 0
  }

  lemma {:induction false} TimersLiveRun(c: Config, s: State, es: seq<Event>, t: State)
    requires c.Wakes(0) && (c.AllWake() || |c.nodes| == 0) && TimersLive(s) && Run(c, s, es, t)
    ensures TimersLive(t)
    decreases |es|
  {
    if es != [] {
      var e := es[0];
      if e.Arm? && 0 <= s.subs[e.i].pc.p.count < |c.policies| { assert c.Wakes(s.subs[e.i].pc.p.count); }
      TimersLiveRun(c, Step(c, s, e), es[1..], t);
    }
  }

  /** The protocol never blocks: unless everything is at rest, some reliable step can be taken. */
  lemma Progress(c: Config, s: State) returns (e: Event)
    requires |s.subs| == |c.nodes| && !s.fault && !Quiescent(s) && TimersLive(s)
    ensures !e.Put? && Reliable(c, e) && Enabled(c, s, e)
  {
    if key :| key in s.store && s.store[key].Timer? {
      e := Expire(key, Everyone(|c.nodes|));
    } else {
      var i :| 0 <= i < |s.subs| && s.subs[i] != Sub([], Idle);
      match s.subs[i].pc {
        case Idle => e := Receive(i);
        case Locking(_) => e := TryLock(i, true, true);
        case Checking(_) => e := CheckOwner(i, true);
        case Handling(_) => e := Return(i, true);
        case Arming(_) => e := Arm(i, true);
        case Releasing(_) => e := Release(i, true);
      }
    }
  }

  /** No reliable step is left, except for a new notification. */
  ghost predicate Stuck(c: Config, s: State) {
    forall e: Event :: !e.Put? && Reliable(c, e) ==> !Enabled(c, s, e)
  }

  /** When every policy is positive, or there is nobody to arm one but the first, a reliable run that
      cannot be continued has emptied the store. */
  lemma RestsEmpty(c: Config, s: State, es: seq<Event>, t: State)
    requires c.Valid() && Init(c, s) && Run(c, s, es, t) && ReliableRun(c, es) && !t.fault && Stuck(c, t)
    requires c.Wakes(0) && (c.AllWake() || |c.nodes| == 0)
    ensures t.store == map[]
  {
    SafeRun(c, s, es, t);
    TimersLiveRun(c, s, es, t);
    if Quiescent(t) {
      QuiescentHoldsNoLock(c, s, es, t);
    } else {
      var e := Progress(c, t);
    }
  }
}
