/** The WebSocket client registry of libs/server/ws_client_manager.go: two maps that index each
    other, changed by register, unregister, kick, broadcast and stop.  Every operation is one
    atomic step.  Closing a client closes two Go channels, and sending to it sends on one of them
    (libs/server/ws_client.go), so a second close and a send after a close are faults. */
module Registry {
  import opened Options

  datatype Client = Client(id: nat, session: string, user: string)

  /** `registered` and `closed` are histories. */
  datatype Reg = Reg(clients: map<string, Client>, userIdMap: map<string, string>,
                     registered: seq<Client>, closed: set<Client>, fault: bool)

  datatype Op =
    | Register(c: Client)
    | Unregister(c: Client)
    | KickByUserId(user: string)
    | KickBySessionId(session: string)
    | Broadcast
    | StopAll

  const EMPTY := Reg(map[], map[], [], {}, false)

  function Close(r: Reg, c: Client): Reg {
    r.(closed := r.closed + {c}, fault := r.fault || c in r.closed)
  }

  function Step(r: Reg, op: Op): Reg {
    match op
    case Register(c) =>
      r.(clients := r.clients[c.session := c], userIdMap := r.userIdMap[c.user := c.session],
         registered := r.registered + [c])
    case Unregister(c) =>
      if c.session in r.clients then Close(r, c).(clients := r.clients - {c.session}) else r
    case KickByUserId(u) =>
      if u in r.userIdMap && r.userIdMap[u] in r.clients then
        var s := r.userIdMap[u];
        Close(r, r.clients[s]).(clients := r.clients - {s}, userIdMap := r.userIdMap - {u})
      else r
    case KickBySessionId(s) =>
      if s in r.clients then
        Close(r, r.clients[s]).(clients := r.clients - {s}, userIdMap := r.userIdMap - {r.clients[s].user})
      else r
    case Broadcast => r.(fault := r.fault || exists s :: s in r.clients && r.clients[s] in r.closed)
    case StopAll =>
      r.(clients := map[], userIdMap := r.userIdMap - (set s | s in r.clients :: r.clients[s].user),
         closed := r.closed + r.clients.Values,
         fault := r.fault || exists s :: s in r.clients && r.clients[s] in r.closed)
  }

  /** The hypotheses on the callers: a client is registered once, under a session id that no other
      client uses, and a client that is not registered does not use a registered session id. */
  ghost predicate Admissible(r: Reg, op: Op) {
    && (op.Register? ==> forall d | d in r.registered :: d.session != op.c.session)
    && (op.Unregister? ==> forall d | d in r.registered && d.session == op.c.session :: d == op.c)
  }

  function Run(r: Reg, ops: seq<Op>): Reg
    decreases |ops|
  {
    if ops == [] then r else Run(Step(r, ops[0]), ops[1..])
  }

  ghost predicate AdmissibleRun(r: Reg, ops: seq<Op>)
    decreases |ops|
  {
    ops == [] || (Admissible(r, ops[0]) && AdmissibleRun(Step(r, ops[0]), ops[1..]))
  }

  // ---- close at most once ----

  ghost predicate Live(r: Reg, c: Client) {
    c in r.registered && c !in r.closed
  }

  ghost predicate Consistent(r: Reg) {
    && !r.fault
    && (forall s | s in r.clients :: r.clients[s].session == s && Live(r, r.clients[s]))
    && (forall c | Live(r, c) :: c.session in r.clients && r.clients[c.session] == c)
    && (forall c, d | c in r.registered && d in r.registered && c.session == d.session :: c == d)
    && (forall c | c in r.closed :: c in r.registered)
  }

  /** Closing one client of the map and removing it; the user index plays no part. */
  lemma ConsistentRemove(r: Reg, s: string, index: map<string, string>)
    requires Consistent(r) && s in r.clients
    ensures Consistent(Close(r, r.clients[s]).(clients := r.clients - {s}, userIdMap := index))
  {
    var r' := Close(r, r.clients[s]).(clients := r.clients - {s}, userIdMap := index);
    assert Live(r, r.clients[s]);
    forall c | Live(r', c) ensures c.session in r'.clients && r'.clients[c.session] == c {
      assert Live(r, c);
    }
    forall k | k in r'.clients ensures Live(r', r'.clients[k]) {
      assert Live(r, r.clients[k]);
    }
  }

  lemma ConsistentRegister(r: Reg, c: Client)
    requires Consistent(r) && Admissible(r, Register(c))
    ensures Consistent(Step(r, Register(c)))
  {
    var r' := Step(r, Register(c));
    forall d | Live(r', d) ensures d.session in r'.clients && r'.clients[d.session] == d {
      if d != c { assert Live(r, d); }
    }
    forall k | k in r'.clients ensures r'.clients[k].session == k && Live(r', r'.clients[k]) {
      if k != c.session { assert Live(r, r.clients[k]); }
    }
  }

  lemma ConsistentStop(r: Reg)
    requires Consistent(r)
    ensures Consistent(Step(r, StopAll))
  {
    var r' := Step(r, StopAll);
    forall c | Live(r, c) ensures c in r'.closed { assert c in r.clients.Values; }
    forall c | Live(r', c) ensures Live(r, c) { }
    forall c | c in r'.closed ensures c in r.registered {
      if c !in r.closed { assert c in r.clients.Values; }
    }
  }

  lemma ConsistentStep(r: Reg, op: Op)
    requires Consistent(r) && Admissible(r, op)
    ensures Consistent(Step(r, op))
  {
    match op
    case Register(c) => ConsistentRegister(r, c);
    case Unregister(c) =>
      if c.session in r.clients {
        assert Live(r, r.clients[c.session]);
        ConsistentRemove(r, c.session, r.userIdMap);
      }
    case KickByUserId(u) =>
      if u in r.userIdMap && r.userIdMap[u] in r.clients {
        ConsistentRemove(r, r.userIdMap[u], r.userIdMap - {u});
      }
    case KickBySessionId(s) =>
      if s in r.clients { ConsistentRemove(r, s, r.userIdMap - {r.clients[s].user}); }
    case Broadcast =>
      assert Step(r, op) == r by {
        forall s | s in r.clients ensures r.clients[s] !in r.closed { assert Live(r, r.clients[s]); }
      }
    case StopAll => ConsistentStop(r);
  }

  lemma {:induction false} ConsistentRun(r: Reg, ops: seq<Op>)
    requires Consistent(r) && AdmissibleRun(r, ops)
    ensures Consistent(Run(r, ops))
    decreases |ops|
  {
    if ops != [] {
      ConsistentStep(r, ops[0]);
      ConsistentRun(Step(r, ops[0]), ops[1..]);
    }
  }

  /** Over every sequence of steps, `clients` holds exactly the registered clients not yet closed,
      under their session ids; and no client is closed twice or sent to after its close. */
  lemma ClosedAtMostOnce(ops: seq<Op>)
    requires AdmissibleRun(EMPTY, ops)
    ensures var r := Run(EMPTY, ops);
            && !r.fault
            && (forall s, c :: s in r.clients && r.clients[s] == c
                               <==> c in r.registered && c !in r.closed && c.session == s)
  {
    ConsistentRun(EMPTY, ops);
    var r := Run(EMPTY, ops);
    forall s, c ensures s in r.clients && r.clients[s] == c <==> c in r.registered && c !in r.closed && c.session == s {
      assert Live(r, c) <==> c in r.registered && c !in r.closed;
    }
  }

  // ---- the user index ----

  /** The client that a user registered last. */
  function Latest(registered: seq<Client>, user: string): Option<Client> {
    if registered == [] then None
    else
      var c := registered[|registered| - 1];
      if c.user == user then Some(c) else Latest(registered[..|registered| - 1], user)
  }

  ghost predicate IndexSound(r: Reg) {
    forall u | u in r.userIdMap ::
      Latest(r.registered, u).Some? && r.userIdMap[u] == Latest(r.registered, u).value.session
  }

  lemma {:induction false} LatestIsOwn(registered: seq<Client>, user: string)
    ensures Latest(registered, user).Some? ==>
              Latest(registered, user).value in registered && Latest(registered, user).value.user == user
    decreases |registered|
  {
    if registered != [] { LatestIsOwn(registered[..|registered| - 1], user); }
  }

  lemma IndexSoundStep(r: Reg, op: Op)
    requires IndexSound(r)
    ensures IndexSound(Step(r, op))
  {
    if op.Register? { assert (r.registered + [op.c])[..|r.registered|] == r.registered; }
  }

  lemma {:induction false} IndexSoundRun(r: Reg, ops: seq<Op>)
    requires IndexSound(r)
    ensures IndexSound(Run(r, ops))
    decreases |ops|
  {
    if ops != [] {
      IndexSoundStep(r, ops[0]);
      IndexSoundRun(Step(r, ops[0]), ops[1..]);
    }
  }

  /** Every entry of the user index is its user's most recent session, so a kick by user id closes
      at most one client, and only one of that user: the one registered last. */
  lemma KickClosesOwnClient(ops: seq<Op>, user: string)
    requires AdmissibleRun(EMPTY, ops)
    ensures var r := Run(EMPTY, ops);
            && IndexSound(r)
            && var gone := Step(r, KickByUserId(user)).closed - r.closed;
               forall c | c in gone :: c.user == user && Latest(r.registered, user) == Some(c)
  {
    ConsistentRun(EMPTY, ops);
    IndexSoundRun(EMPTY, ops);
    LatestIsOwn(Run(EMPTY, ops).registered, user);
  }

  /** Every live client is found through the user index. */
  ghost predicate IndexComplete(r: Reg) {
    forall s | s in r.clients ::
      r.clients[s].user in r.userIdMap && r.userIdMap[r.clients[s].user] == s
  }

  ghost predicate HasLiveSession(r: Reg, user: string) {
    exists s :: s in r.clients && r.clients[s].user == user
  }

  lemma RegisterCompleteness(r: Reg, c: Client)
    requires Consistent(r) && IndexComplete(r) && Admissible(r, Register(c))
    ensures IndexComplete(Step(r, Register(c))) <==> !HasLiveSession(r, c.user)
  {
    var r' := Step(r, Register(c));
    if s :| s in r.clients && r.clients[s].user == c.user {
      assert Live(r, r.clients[s]);
      assert s in r'.clients && r'.clients[s].user == c.user && r'.userIdMap[c.user] != s;
    } else {
      forall s | s in r'.clients ensures r'.clients[s].user in r'.userIdMap && r'.userIdMap[r'.clients[s].user] == s {
        if s in r.clients { assert r.clients[s].session == s; }
      }
    }
  }

  lemma RemovalCompleteness(r: Reg, op: Op)
    requires Consistent(r) && IndexSound(r) && IndexComplete(r) && !op.Register?
    ensures IndexComplete(Step(r, op))
  {
    if op.KickByUserId? { LatestIsOwn(r.registered, op.user); }
    var r' := Step(r, op);
    forall s | s in r'.clients ensures r'.clients[s].user in r'.userIdMap && r'.userIdMap[r'.clients[s].user] == s {
      assert s in r.clients && r.clients[s].session == s;
    }
  }

  /** Exactly when a complete index stays complete: if and only if the step does not register a user
      who still has a live session.  `LosesIff` speaks of any index. */
  lemma CompletenessBoundary(r: Reg, op: Op)
    requires Consistent(r) && IndexSound(r) && IndexComplete(r) && Admissible(r, op)
    ensures IndexComplete(Step(r, op)) <==> !(op.Register? && HasLiveSession(r, op.c.user))
  {
    if op.Register? { RegisterCompleteness(r, op.c); } else { RemovalCompleteness(r, op); }
  }

  /** Each user has at most one live session at a time. */
  ghost predicate SingleSessionRun(r: Reg, ops: seq<Op>)
    decreases |ops|
  {
    ops == [] || (!(ops[0].Register? && HasLiveSession(r, ops[0].c.user)) && SingleSessionRun(Step(r, ops[0]), ops[1..]))
  }

  lemma {:induction false} CompleteRun(r: Reg, ops: seq<Op>)
    requires Consistent(r) && IndexSound(r) && IndexComplete(r) && AdmissibleRun(r, ops) && SingleSessionRun(r, ops)
    ensures IndexComplete(Run(r, ops))
    decreases |ops|
  {
    if ops != [] {
      CompletenessBoundary(r, ops[0]);
      ConsistentStep(r, ops[0]);
      IndexSoundStep(r, ops[0]);
      CompleteRun(Step(r, ops[0]), ops[1..]);
    }
  }

  /** With one live session per user, kicking a user closes the live client of that user, whatever
      stale entries earlier unregistrations left in the index. */
  lemma KickFindsLiveClient(ops: seq<Op>, c: Client)
    requires AdmissibleRun(EMPTY, ops) && SingleSessionRun(EMPTY, ops)
    requires Live(Run(EMPTY, ops), c)
    ensures c in Step(Run(EMPTY, ops), KickByUserId(c.user)).closed
  {
    ConsistentRun(EMPTY, ops);
    CompleteRun(EMPTY, ops);
  }

  /** The lost client: when a user registers a second session beside a live one, kicking that user,
      however often, closes the second client only, and the first stays live. */
  lemma {:induction false} SecondSessionHidesFirst(c: Client, d: Client, kicks: nat)
    requires c.user == d.user && c.session != d.session
    ensures var ops := [Register(c), Register(d)];
            && AdmissibleRun(EMPTY, ops) && Live(Run(EMPTY, ops), c) && !IndexComplete(Run(EMPTY, ops))
            && Live(Run(Run(EMPTY, ops), seq(kicks, i => KickByUserId(c.user))), c)
  {
    var ops := [Register(c), Register(d)];
    assert ops[1..] == [Register(d)] && ops[1..][1..] == [];
    var r := Run(EMPTY, ops);
    assert Run(Step(EMPTY, Register(c)), ops[1..]) == Step(Step(EMPTY, Register(c)), Register(d));
    assert r.registered == [c, d] && r.clients == map[c.session := c, d.session := d] && r.userIdMap == map[c.user := d.session];
    assert c.session in r.clients;
    KicksMiss(r, c, kicks);
  }

  /** A client that the user index does not lead to is out of the reach of kicks by user id. */
  lemma {:induction false} KicksMiss(r: Reg, c: Client, kicks: nat)
    requires Live(r, c) && forall u | u in r.userIdMap && r.userIdMap[u] in r.clients :: r.clients[r.userIdMap[u]] != c
    ensures Live(Run(r, seq(kicks, i => KickByUserId(c.user))), c)
    decreases kicks
  {
    var ops := seq(kicks, i => KickByUserId(c.user));
    if kicks > 0 {
      assert ops[1..] == seq(kicks - 1, i => KickByUserId(c.user));
      KicksMiss(Step(r, KickByUserId(c.user)), c, kicks - 1);
    }
  }

  // ---- when a client is live ----

  /** The step closes the client `c`, if it is live. */
  ghost predicate Ends(r: Reg, op: Op, c: Client) {
    match op
    case Register(_) => false
    case Unregister(d) => d == c
    case KickByUserId(u) => u == c.user && u in r.userIdMap && r.userIdMap[u] == c.session
    case KickBySessionId(k) => k == c.session
    case Broadcast => false
    case StopAll => true
  }

  /** Exactly which clients a step closes. */
  lemma ClosesIff(r: Reg, op: Op, c: Client)
    requires Consistent(r) && IndexSound(r) && Admissible(r, op) && Live(r, c)
    ensures c in Step(r, op).closed <==> Ends(r, op, c)
  {
    match op
    case KickByUserId(u) =>
      LatestIsOwn(r.registered, u);
    case StopAll => assert c in r.clients.Values;
    case _ =>
  }

  ghost predicate EndedIn(r: Reg, ops: seq<Op>, c: Client)
    decreases |ops|
  {
    ops != [] && (Ends(r, ops[0], c) || EndedIn(Step(r, ops[0]), ops[1..], c))
  }

  lemma {:induction false} LiveUntilEnded(r: Reg, ops: seq<Op>, c: Client)
    requires Consistent(r) && IndexSound(r) && AdmissibleRun(r, ops) && Live(r, c)
    ensures Live(Run(r, ops), c) <==> !EndedIn(r, ops, c)
    decreases |ops|
  {
    if ops != [] {
      var r' := Step(r, ops[0]);
      ClosesIff(r, ops[0], c);
      ConsistentStep(r, ops[0]);
      IndexSoundStep(r, ops[0]);
      if c in r'.closed {
        StaysClosed(r', ops[1..], c);
      } else {
        LiveUntilEnded(r', ops[1..], c);
      }
    }
  }

  lemma {:induction false} RegisteredAt(r: Reg, ops: seq<Op>, c: Client)
    ensures c in Run(r, ops).registered <==> c in r.registered || Register(c) in ops
    decreases |ops|
  {
    if ops != [] { RegisteredAt(Step(r, ops[0]), ops[1..], c); }
  }

  /** Client c is registered by step i and closed by none of those after it. */
  ghost predicate LivesFrom(ops: seq<Op>, i: nat, c: Client) {
    i < |ops| && ops[i] == Register(c) && !EndedIn(Run(EMPTY, ops[..i + 1]), ops[i + 1..], c)
  }

  lemma {:induction false} RunSplit(r: Reg, ops: seq<Op>, i: nat)
    requires i <= |ops|
    ensures Run(r, ops) == Run(Run(r, ops[..i]), ops[i..])
    ensures AdmissibleRun(r, ops) ==> AdmissibleRun(r, ops[..i]) && AdmissibleRun(Run(r, ops[..i]), ops[i..])
    decreases |ops|
  {
    if i == 0 {
      assert ops[i..] == ops && ops[..i] == [];
    } else {
      RunSplit(Step(r, ops[0]), ops[1..], i - 1);
      assert ops[..i][1..] == ops[1..][..i - 1] && ops[1..][i - 1..] == ops[i..];
    }
  }

  /** Over every admissible run: a client is live, hence in the map and served by broadcasts, if and
      only if it was registered and no later step unregisters it, kicks its session, kicks its user
      while the index leads to it, or stops all. */
  lemma LiveIff(ops: seq<Op>, c: Client)
    requires AdmissibleRun(EMPTY, ops)
    ensures Live(Run(EMPTY, ops), c) <==> exists i: nat :: LivesFrom(ops, i, c)
  {
    RegisteredAt(EMPTY, ops, c);
    if Register(c) in ops {
      var i: nat :| i < |ops| && ops[i] == Register(c);
      forall j: nat | j < |ops| && ops[j] == Register(c)
        ensures Live(Run(EMPTY, ops), c) <==> LivesFrom(ops, j, c)
      { LiveFromRegister(ops, j, c); }
    }
  }

  lemma LiveFromRegister(ops: seq<Op>, i: nat, c: Client)
    requires AdmissibleRun(EMPTY, ops) && i < |ops| && ops[i] == Register(c)
    ensures Live(Run(EMPTY, ops), c) <==> LivesFrom(ops, i, c)
  {
    RunSplit(EMPTY, ops, i);
    var r := Run(EMPTY, ops[..i]);
    assert ops[i..][0] == Register(c) && ops[i..][1..] == ops[i + 1..];
    ConsistentRun(EMPTY, ops[..i]);
    IndexSoundRun(EMPTY, ops[..i]);
    ConsistentStep(r, Register(c));
    IndexSoundStep(r, Register(c));
    RunSplit(EMPTY, ops[..i + 1], i);
    assert ops[..i + 1][..i] == ops[..i] && ops[..i + 1][i..] == [Register(c)] && [Register(c)][1..] == [];
    Unrolled(r, [Register(c)]);
    var r' := Step(r, Register(c));
    assert Run(EMPTY, ops[..i + 1]) == r';
    assert Live(r', c);
    LiveUntilEnded(r', ops[i + 1..], c);
  }

  // ---- one client in the index ----

  /** The client is live and the user index leads to it. */
  ghost predicate Found(r: Reg, c: Client) {
    Live(r, c) && c.user in r.userIdMap && r.userIdMap[c.user] == c.session
  }

  /** The step takes the index entry away from the live client `c`: it registers another session of
      the user, or kicks, by session id, another session that the user still has. */
  ghost predicate Loses(r: Reg, op: Op, c: Client) {
    || (op.Register? && op.c.user == c.user)
    || (op.KickBySessionId? && op.session in r.clients && op.session != c.session && r.clients[op.session].user == c.user)
  }

  /** Exactly which steps lose a client that stays live. */
  lemma LosesIff(r: Reg, op: Op, c: Client)
    requires Consistent(r) && IndexSound(r) && Admissible(r, op) && Found(r, c)
    ensures Live(Step(r, op), c) && !Found(Step(r, op), c) <==> Loses(r, op, c)
  {
    match op
    case KickByUserId(u) => LatestIsOwn(r.registered, u);
    case StopAll => assert c in r.clients.Values;
    case _ =>
  }

  /** What is lost stays lost: only its registration brings a client into the index. */
  lemma {:induction false} LostStaysLost(r: Reg, ops: seq<Op>, c: Client)
    requires AdmissibleRun(r, ops) && c in r.registered && !Found(r, c)
    ensures c in Run(r, ops).registered && !Found(Run(r, ops), c)
    decreases |ops|
  {
    if ops != [] { LostStaysLost(Step(r, ops[0]), ops[1..], c); }
  }

  ghost predicate SomeLoss(r: Reg, ops: seq<Op>, c: Client)
    decreases |ops|
  {
    ops != [] && (Loses(r, ops[0], c) || SomeLoss(Step(r, ops[0]), ops[1..], c))
  }

  /** Over every run from the client's registration on: as long as it is live, a kick by its user id
      closes it if and only if no step has lost it. */
  lemma {:induction false} KickReachesIffNoLoss(r: Reg, ops: seq<Op>, c: Client)
    requires Consistent(r) && IndexSound(r) && AdmissibleRun(r, ops) && Found(r, c)
    requires Live(Run(r, ops), c)
    ensures c in Step(Run(r, ops), KickByUserId(c.user)).closed <==> !SomeLoss(r, ops, c)
    decreases |ops|
  {
    if ops != [] {
      var r' := Step(r, ops[0]);
      LosesIff(r, ops[0], c);
      ConsistentStep(r, ops[0]);
      IndexSoundStep(r, ops[0]);
      if Found(r', c) {
        KickReachesIffNoLoss(r', ops[1..], c);
      } else {
        LostStaysLost(r', ops[1..], c);
        ConsistentRun(r', ops[1..]);
        StaysClosed(r', ops[1..], c);
        KickReachesFound(Run(r, ops), c);
      }
    } else {
      KickReachesFound(r, c);
    }
  }

  lemma KickReachesFound(r: Reg, c: Client)
    requires Consistent(r) && Live(r, c)
    ensures c in Step(r, KickByUserId(c.user)).closed <==> Found(r, c)
  {}

  lemma {:induction false} StaysClosed(r: Reg, ops: seq<Op>, c: Client)
    ensures c in r.closed ==> c in Run(r, ops).closed
    decreases |ops|
  {
    if ops != [] { StaysClosed(Step(r, ops[0]), ops[1..], c); }
  }

  /** The other way to lose a client: kicking a user's older session takes the index entry of the
      newer one, which stays live. */
  lemma KickHidesOther(c: Client, d: Client)
    requires c.user == d.user && c.session != d.session
    ensures var ops := [Register(c), Register(d)];
            && AdmissibleRun(EMPTY, ops + [KickBySessionId(c.session)])
            && Found(Run(EMPTY, ops), d)
            && var r := Run(EMPTY, ops + [KickBySessionId(c.session)]);
               Live(r, d) && !Found(r, d) && d !in Step(r, KickByUserId(d.user)).closed
  {
    var r1 := Step(EMPTY, Register(c));
    var r2 := Step(r1, Register(d));
    var kick := KickBySessionId(c.session);
    assert r2.registered == [c, d];
    Unrolled(EMPTY, [Register(c), Register(d)]);
    Unrolled(EMPTY, [Register(c), Register(d)] + [kick]);
    Unrolled(r1, ([Register(c), Register(d)] + [kick])[1..]);
    assert ([Register(c), Register(d)] + [kick])[1..][1..] == [kick];
    Unrolled(r1, [Register(c), Register(d)][1..]);
    Unrolled(r2, [kick]);
    var r := Step(r2, kick);
    assert Live(r, d) && d.user !in r.userIdMap;
  }

  lemma Unrolled(r: Reg, ops: seq<Op>)
    requires ops != []
    ensures Run(r, ops) == Run(Step(r, ops[0]), ops[1..])
    ensures AdmissibleRun(r, ops) <==> Admissible(r, ops[0]) && AdmissibleRun(Step(r, ops[0]), ops[1..])
  {}
}
