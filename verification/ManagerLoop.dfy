/** The event loop of libs/server/ws_client_manager.go and its callers on unbuffered channels.  A send
    to the manager completes when the loop, the only receiver, stands at its select.  A broadcast
    makes the loop send to client buffers, which may be full; and the loop itself calls Stop, whose
    last statement is a send that it would have to receive itself. */
module ManagerLoop {

  const CAPACITY: nat := 1024

  /** Where the loop stands.  `Ranging` and `SendingTo` are the broadcast, with the clients still to
      come; `Emptying` and `Offering` are the two parts of the loop's own call of Stop. */
  datatype Loop =
    | NotStarted
    | Selecting
    | Ranging(rest: set<nat>)
    | SendingTo(k: nat, rest: set<nat>)
    | Emptying
    | Offering
    | Returned

  /** What a caller sends: the signal at the end of its Stop, a client, or a message for all. */
  datatype Request = StopSignal | RegisterClient(j: nat) | UnregisterClient(j: nat) | BroadcastMessage

  /** The fill of the send buffer, and whether `SendMessage` is still taking from it. */
  datatype Client = Client(queued: nat, writing: bool)

  datatype Who = TheLoop | Caller(k: nat)

  /** `clients`: those in the manager's map; `waiting`: callers blocked in a send to the manager;
      `returned`: the sends that have completed; `crashed`: the panic of a send on a closed channel. */
  datatype State = State(loop: Loop, clients: map<nat, Client>, waiting: map<nat, Request>, returned: seq<Request>, crashed: bool)

  datatype Event =
    | Start
    | Call(k: nat, r: Request)
    | Meet(who: Who)
    | Pick(j: nat)          // the range over the map produces client j
    | RangeEnds
    | Sent                  // the loop's send to a client completes
    | Drain(j: nat)         // the client's writer takes a message
    | WriterEnds(j: nat)    // it returns, after a write error for instance
    | OwnReply(j: nat)      // the client's reader, or the keep-alive, queues a message
    | Kick(j: nat)          // a kick, or a caller's Stop, closes client j and deletes it
    | Emptied

  const INITIAL := State(NotStarted, map[], map[], [], false)

  predicate Offers(s: State, who: Who) {
    match who
    case TheLoop => s.loop.Offering?
    case Caller(k) => k in s.waiting
  }

  predicate Enabled(s: State, e: Event) {
    && !s.crashed
    && match e
       case Start => s.loop.NotStarted?
       case Call(k, _) => k !in s.waiting
       case Meet(who) => s.loop.Selecting? && Offers(s, who)
       case Pick(j) => s.loop.Ranging? && j in s.loop.rest
       case RangeEnds => s.loop.Ranging? && s.loop.rest == {}
       case Sent => s.loop.SendingTo? && s.loop.k in s.clients && s.clients[s.loop.k].queued < CAPACITY
       case Drain(j) => j in s.clients && s.clients[j].writing && s.clients[j].queued > 0
       case WriterEnds(j) => j in s.clients && s.clients[j].writing
       case OwnReply(j) => j in s.clients && s.clients[j].queued < CAPACITY
       case Kick(j) => j in s.clients
       case Emptied => s.loop.Emptying?
  }

  function Queue(s: State, j: nat, change: int): State
    requires j in s.clients && 0 <= s.clients[j].queued + change
  {
    s.(clients := s.clients[j := s.clients[j].(queued := s.clients[j].queued + change)])
  }

  /** What the loop does with a request. */
  function Serve(s: State, r: Request): State {
    match r
    case StopSignal => s.(loop := Emptying)
    case RegisterClient(j) => s.(clients := s.clients[j := Client(0, true)])
    case UnregisterClient(j) => s.(clients := s.clients - {j})
    case BroadcastMessage => s.(loop := Ranging(s.clients.Keys))
  }

  /** Closing a client that the loop is sending to makes that send panic; the range does not produce
      a client that was deleted before its turn. */
  function Kicked(s: State, j: nat): State {
    var s' := s.(clients := s.clients - {j});
    match s.loop
    case SendingTo(k, rest) => if k == j then s'.(crashed := true) else s'.(loop := SendingTo(k, rest - {j}))
    case Ranging(rest) => s'.(loop := Ranging(rest - {j}))
    case _ => s'
  }

  function Step(s: State, e: Event): State
    requires Enabled(s, e)
  {
    match e
    case Start => s.(loop := Selecting)
    case Call(k, r) => s.(waiting := s.waiting[k := r])
    case Meet(TheLoop) => s.(loop := Returned)
    case Meet(Caller(k)) =>
      Serve(s.(waiting := s.waiting - {k}, returned := s.returned + [s.waiting[k]]), s.waiting[k])
    case Pick(j) => s.(loop := SendingTo(j, s.loop.rest - {j}))
    case RangeEnds => s.(loop := Selecting)
    case Sent => Queue(s, s.loop.k, 1).(loop := Ranging(s.loop.rest))
    case Drain(j) => Queue(s, j, -1)
    case WriterEnds(j) => s.(clients := s.clients[j := s.clients[j].(writing := false)])
    case OwnReply(j) => Queue(s, j, 1)
    case Kick(j) => Kicked(s, j)
    case Emptied => s.(loop := Offering, clients := map[])
  }

  ghost predicate Run(s: State, es: seq<Event>, t: State)
    decreases |es|
  {
    if es == [] then t == s else Enabled(s, es[0]) && Run(Step(s, es[0]), es[1..], t)
  }

  // ---- after a stop signal ----

  /** The loop has taken a stop signal: the last of the completed sends, and the only signal. */
  ghost predicate Halted(s: State) {
    && (s.loop.Emptying? || s.loop.Offering?)
    && |s.returned| > 0 && s.returned[|s.returned| - 1].StopSignal?
    && forall i | 0 <= i < |s.returned| - 1 :: !s.returned[i].StopSignal?
  }

  predicate InBroadcast(loop: Loop) { loop.Ranging? || loop.SendingTo? }

  ghost predicate Serving(s: State) {
    && (s.loop.NotStarted? || s.loop.Selecting? || InBroadcast(s.loop))
    && (forall i | 0 <= i < |s.returned| :: !s.returned[i].StopSignal?)
    && (InBroadcast(s.loop) ==> s.loop.rest <= s.clients.Keys)
    && (s.loop.SendingTo? && !s.crashed ==> s.loop.k in s.clients && s.loop.k !in s.loop.rest)
  }

  lemma ServingOrHaltedStep(s: State, e: Event)
    requires (Serving(s) || Halted(s)) && Enabled(s, e)
    ensures Serving(Step(s, e)) || Halted(Step(s, e))
    ensures Halted(s) ==> Halted(Step(s, e)) && Step(s, e).returned == s.returned
  {}

  lemma {:induction false} ServingOrHalted(s: State, es: seq<Event>, t: State)
    requires Run(s, es, t) && (Serving(s) || Halted(s))
    ensures Serving(t) || Halted(t)
    ensures Halted(s) ==> Halted(t) && t.returned == s.returned
    decreases |es|
  {
    if es != [] {
      ServingOrHaltedStep(s, es[0]);
      ServingOrHalted(Step(s, es[0]), es[1..], t);
    }
  }

  /** In no run does Start return, and in none do two calls of Stop; once one has returned, nothing
      that is sent to the manager arrives any more. */
  lemma StartNeverReturns(es: seq<Event>, s: State, more: seq<Event>, t: State)
    requires Run(INITIAL, es, s) && Run(s, more, t)
    ensures !t.loop.Returned?
    ensures forall i, j | 0 <= i < j < |t.returned| :: !(t.returned[i].StopSignal? && t.returned[j].StopSignal?)
    ensures StopSignal in s.returned ==> t.returned == s.returned
  {
    ServingOrHalted(INITIAL, es, s);
    ServingOrHalted(s, more, t);
  }

  // ---- the map and the broadcast ----

  /** Client j is in the map, as told by the last event that concerns it: its registration or
      unregistration being taken, its kick, or the loop's own emptying. */
  ghost predicate InMap(s: State, es: seq<Event>, j: nat, before: bool)
    decreases |es|
  {
    if es == [] || !Enabled(s, es[0]) then before
    else
      var taken := if es[0].Meet? && es[0].who.Caller? then [s.waiting[es[0].who.k]] else [];
      InMap(Step(s, es[0]), es[1..], j,
            if taken == [RegisterClient(j)] then true
            else if taken == [UnregisterClient(j)] || es[0] == Kick(j) || es[0] == Emptied then false
            else before)
  }

  lemma {:induction false} MapFollowsRequests(s: State, es: seq<Event>, t: State, j: nat)
    requires Run(s, es, t)
    ensures j in t.clients <==> InMap(s, es, j, j in s.clients)
    decreases |es|
  {
    if es != [] { MapFollowsRequests(Step(s, es[0]), es[1..], t, j); }
  }

  /** How often an event occurs. */
  function Count(es: seq<Event>, e: Event): nat {
    if es == [] then 0 else (if es[0] == e then 1 else 0) + Count(es[1..], e)
  }

  /** The client has still to get the message of the broadcast. */
  predicate StillToCome(loop: Loop, j: nat) {
    InBroadcast(loop) && (j in loop.rest || (loop.SendingTo? && loop.k == j))
  }

  lemma {:induction false} RestOfBroadcast(s: State, es: seq<Event>, t: State, j: nat)
    requires Run(s, es, t) && Serving(s) && InBroadcast(s.loop) && t.loop.Selecting? && j in s.clients
    requires forall i | 0 <= i < |es| :: !es[i].Kick? && !es[i].Meet?
    ensures j in t.clients
    ensures t.clients[j].queued + Count(es, Drain(j)) ==
            s.clients[j].queued + Count(es, OwnReply(j)) + (if StillToCome(s.loop, j) then 1 else 0)
    decreases |es|
  {
    var m := Step(s, es[0]);
    assert !es[0].Kick? && !es[0].Meet?;
    assert forall i | 0 <= i < |es[1..]| :: es[1..][i] == es[i + 1];
    ServingOrHaltedStep(s, es[0]);
    if InBroadcast(m.loop) {
      RestOfBroadcast(m, es[1..], t, j);
    } else {
      AtSelect(m, es[1..], t, j);
    }
  }

  /** At the select nothing is sent until a request is taken. */
  lemma {:induction false} AtSelect(s: State, es: seq<Event>, t: State, j: nat)
    requires Run(s, es, t) && s.loop.Selecting? && j in s.clients
    requires forall i | 0 <= i < |es| :: !es[i].Kick? && !es[i].Meet?
    ensures j in t.clients
    ensures t.clients[j].queued + Count(es, Drain(j)) == s.clients[j].queued + Count(es, OwnReply(j))
    decreases |es|
  {
    if es != [] {
      assert !es[0].Kick? && !es[0].Meet?;
      assert forall i | 0 <= i < |es[1..]| :: es[1..][i] == es[i + 1];
      AtSelect(Step(s, es[0]), es[1..], t, j);
    }
  }

  /** A broadcast reaches every client in the map once: from the moment it is taken to the next select,
      and unless a client is kicked meanwhile, each buffer gains exactly one message, beside what its
      own reader adds and its writer takes. */
  lemma BroadcastOnce(es: seq<Event>, s: State, k: nat, more: seq<Event>, t: State, j: nat)
    requires Run(INITIAL, es, s) && Enabled(s, Meet(Caller(k))) && s.waiting[k] == BroadcastMessage && j in s.clients
    requires Run(Step(s, Meet(Caller(k))), more, t) && t.loop.Selecting?
    requires forall i | 0 <= i < |more| :: !more[i].Kick? && !more[i].Meet?
    ensures j in t.clients
    ensures t.clients[j].queued + Count(more, Drain(j)) == s.clients[j].queued + 1 + Count(more, OwnReply(j))
  {
    ServingOrHalted(INITIAL, es, s);
    ServingOrHaltedStep(s, Meet(Caller(k)));
    RestOfBroadcast(Step(s, Meet(Caller(k))), more, t, j);
  }

  // ---- who can still return ----

  ghost predicate CanReturn(s: State, k: nat) {
    exists es: seq<Event>, t: State :: Run(s, es, t) && k !in t.waiting
  }

  /** The loop stands at a client whose buffer is full and which nobody empties any more. */
  predicate AtDeadClient(s: State) {
    && s.loop.SendingTo? && s.loop.k in s.clients
    && s.clients[s.loop.k].queued >= CAPACITY && !s.clients[s.loop.k].writing
  }

  lemma {:induction false} KeepsWaiting(s: State, es: seq<Event>, t: State, k: nat)
    requires Run(s, es, t) && k in s.waiting && (s.crashed || Halted(s) || AtDeadClient(s))
    ensures k in t.waiting
    decreases |es|
  {
    if es != [] {
      var m := Step(s, es[0]);
      assert m.crashed || Halted(m) || AtDeadClient(m);
      KeepsWaiting(m, es[1..], t, k);
    }
  }

  lemma {:induction false} RunConcat(s: State, es: seq<Event>, m: State, more: seq<Event>, t: State)
    requires Run(s, es, m) && Run(m, more, t)
    ensures Run(s, es + more, t)
    decreases |es|
  {
    if es == [] {
      assert es + more == more;
    } else {
      assert (es + more)[1..] == es[1..] + more;
      RunConcat(Step(s, es[0]), es[1..], m, more, t);
    }
  }

  lemma Then(s: State, es: seq<Event>, m: State, e: Event)
    requires Run(s, es, m) && Enabled(m, e)
    ensures Run(s, es + [e], Step(m, e))
  {
    assert [e][1..] == [];
    RunConcat(s, es, m, [e], Step(m, e));
  }

  /** What is left of a broadcast can be cut short by kicks. */
  lemma {:induction false} FinishRange(s: State) returns (es: seq<Event>, t: State)
    requires !s.crashed && Serving(s) && s.loop.Ranging?
    ensures Run(s, es, t) && !t.crashed && t.loop.Selecting? && t.waiting == s.waiting
    decreases |s.loop.rest|
  {
    var e := RangeEnds;
    if s.loop.rest != {} {
      var j :| j in s.loop.rest;
      e := Kick(j);
    }
    var m := Step(s, e);
    es, t := [], m;
    if s.loop.rest != {} { es, t := FinishRange(m); }
    assert ([e] + es)[1..] == es;
    es := [e] + es;
  }

  /** The loop can get back to its select. */
  lemma ToSelect(s: State) returns (es: seq<Event>, t: State)
    requires !s.crashed && Serving(s) && !AtDeadClient(s)
    ensures Run(s, es, t) && !t.crashed && t.loop.Selecting? && t.waiting == s.waiting
  {
    es, t := [], s;
    if s.loop.NotStarted? {
      Then(s, es, t, Start);
      es, t := es + [Start], Step(t, Start);
    } else if InBroadcast(s.loop) {
      if s.loop.SendingTo? && s.clients[s.loop.k].queued >= CAPACITY {
        es, t := DrainFull(s);
      }
      if t.loop.SendingTo? {
        Then(s, es, t, Sent);
        es, t := es + [Sent], Step(t, Sent);
      }
      var more, end := FinishRange(t);
      RunConcat(s, es, t, more, end);
      es, t := es + more, end;
    }
  }

  lemma {:induction false} DrainFull(s: State) returns (es: seq<Event>, t: State)
    requires !s.crashed && Serving(s) && s.loop.SendingTo? && s.clients[s.loop.k].writing
    ensures Run(s, es, t) && !t.crashed && Serving(t) && t.loop == s.loop && t.waiting == s.waiting
    ensures t.clients[t.loop.k].queued < CAPACITY
    decreases s.clients[s.loop.k].queued
  {
    es, t := [], s;
    if s.clients[s.loop.k].queued >= CAPACITY {
      var e := Drain(s.loop.k);
      es, t := DrainFull(Step(s, e));
      assert ([e] + es)[1..] == es;
      es := [e] + es;
    }
  }

  /** Exactly when a blocked caller can still return: as long as no stop signal has been taken, no send
      has hit a closed client, and the loop does not stand at a full client whose writer has ended. */
  lemma ServedIff(es: seq<Event>, s: State, k: nat)
    requires Run(INITIAL, es, s) && k in s.waiting
    ensures CanReturn(s, k) <==> StopSignal !in s.returned && !s.crashed && !AtDeadClient(s)
  {
    ServingOrHalted(INITIAL, es, s);
    if Serving(s) && !s.crashed && !AtDeadClient(s) {
      var more, m := ToSelect(s);
      Then(s, more, m, Meet(Caller(k)));
      assert k !in Step(m, Meet(Caller(k))).waiting;
    } else {
      assert Halted(s) ==> s.returned[|s.returned| - 1].StopSignal?;
      forall es', t | Run(s, es', t) ensures k in t.waiting { KeepsWaiting(s, es', t, k); }
    }
  }

  // ---- a broadcast that blocks for good ----

  lemma {:induction false} Fill(s: State, j: nat, n: nat) returns (es: seq<Event>, t: State)
    requires !s.crashed && j in s.clients && s.clients[j].queued + n <= CAPACITY
    ensures Run(s, es, t)
    ensures t == s.(clients := s.clients[j := s.clients[j].(queued := s.clients[j].queued + n)])
    decreases n
  {
    es, t := [], s;
    if n == 0 {
      assert s.clients == s.clients[j := s.clients[j]];
    } else {
      var e := OwnReply(j);
      es, t := Fill(Step(s, e), j, n - 1);
      assert ([e] + es)[1..] == es;
      es := [e] + es;
    }
  }

  /** A registered client whose writer has ended and whose buffer has filled up. */
  lemma DeadClient(j: nat) returns (es: seq<Event>, s: State)
    ensures Run(INITIAL, es, s)
    ensures s == State(Selecting, map[j := Client(CAPACITY, false)], map[], [RegisterClient(j)], false)
  {
    es, s := [], INITIAL;
    Then(INITIAL, es, s, Start);
    es, s := es + [Start], Step(s, Start);
    Then(INITIAL, es, s, Call(0, RegisterClient(j)));
    es, s := es + [Call(0, RegisterClient(j))], Step(s, Call(0, RegisterClient(j)));
    Then(INITIAL, es, s, Meet(Caller(0)));
    es, s := es + [Meet(Caller(0))], Step(s, Meet(Caller(0)));
    Then(INITIAL, es, s, WriterEnds(j));
    es, s := es + [WriterEnds(j)], Step(s, WriterEnds(j));
    assert s.waiting == map[] && s.clients == map[j := Client(0, false)];
    var more, t := Fill(s, j, CAPACITY);
    RunConcat(INITIAL, es, s, more, t);
    es, s := es + more, t;
  }

  /** One broadcast to such a client stops the manager without any stop signal: the unregistration of
      that very client, which would end it, waits for the loop in vain. */
  lemma BroadcastBlocksForGood(j: nat) returns (es: seq<Event>, s: State)
    ensures Run(INITIAL, es, s) && StopSignal !in s.returned && !s.crashed
    ensures 1 in s.waiting && s.waiting[1] == UnregisterClient(j) && !CanReturn(s, 1)
    ensures s.clients == map[j := Client(1024, false)] && s.loop == SendingTo(j, {})
  {
    es, s := DeadClient(j);
    Then(INITIAL, es, s, Call(0, BroadcastMessage));
    es, s := es + [Call(0, BroadcastMessage)], Step(s, Call(0, BroadcastMessage));
    Then(INITIAL, es, s, Meet(Caller(0)));
    es, s := es + [Meet(Caller(0))], Step(s, Meet(Caller(0)));
    Then(INITIAL, es, s, Pick(j));
    es, s := es + [Pick(j)], Step(s, Pick(j));
    Then(INITIAL, es, s, Call(1, UnregisterClient(j)));
    es, s := es + [Call(1, UnregisterClient(j))], Step(s, Call(1, UnregisterClient(j)));
    ServedIff(es, s, 1);
  }
}
