/** The registry as the object that the source has: a manager that updates its two maps in place and
    closes client objects.  Each method takes any client in any state and is proved to perform the
    step of module `Registry`, panicking exactly when that step is a fault; so every theorem there is
    about these methods. */
module ClientManagers {
  import opened Registry

  /** How a call ends that closes a client: the second close of a channel panics, otherwise the
      error of closing the connection is returned. */
  datatype Closing = Closed(err: bool) | ClosePanics

  /** How a send ends; it blocks while the buffer is full. */
  datatype Sending = Queued | Blocks | SendPanics

  const CAPACITY: nat := 1024

  /** A client's channels (libs/server/ws_client.go). */
  class Handle {
    const info: Client
    var open: bool
    var queue: seq<string>

    constructor (info: Client)
      ensures this.info == info && open && queue == []
    {
      this.info := info;
      open, queue := true, [];
    }

    /** `failure`: closing the connection fails. */
    method Close(failure: bool) returns (r: Closing)
      modifies this`open
      ensures !open
      ensures r == if old(open) then Closed(failure) else ClosePanics
    {
      if !open {
        return ClosePanics;
      }
      open := false;
      r := Closed(failure);
    }

    method Send(message: string) returns (r: Sending)
      modifies this`queue
      ensures r.SendPanics? <==> !open
      ensures r.Queued? <==> open && |old(queue)| < 1024
      ensures queue == if r.Queued? then old(queue) + [message] else old(queue)
    {
      if !open {
        return SendPanics;
      }
      if |queue| >= CAPACITY {
        return Blocks;
      }
      queue := queue + [message];
      r := Queued;
    }
  }

  /** A client's info names the object. */
  ghost predicate Names(known: set<Handle>, h: Handle) {
    forall k | k in known && k.info == h.info :: k == h
  }

  /** The object's state against its abstract value; `known` are the handles it has ever been given. */
  ghost predicate Tied(clients: map<string, Handle>, userIdMap: map<string, string>, known: set<Handle>, r: Reg)
    reads known`open
  {
    && clients.Keys == r.clients.Keys
    && (forall s | s in clients :: clients[s] in known && clients[s].info == r.clients[s] && r.clients[s].session == s)
    && userIdMap == r.userIdMap
    && (forall h | h in known :: Names(known, h) && (h.open <==> h.info !in r.closed))
    && (forall c | c in r.closed :: exists h :: h in known && h.info == c)
    && !r.fault
  }

  /** The registry with a handle that may have been closed elsewhere taken into account. */
  ghost function Seen(r: Reg, h: Handle): Reg
    reads h`open
  {
    if h.open then r else r.(closed := r.closed + {h.info})
  }

  class ClientManager {
    var clients: map<string, Handle>
    var userIdMap: map<string, string>
    ghost var known: set<Handle>
    ghost var model: Reg

    ghost predicate Valid()
      reads this, known`open
    {
      Tied(clients, userIdMap, known, model)
    }

    constructor ()
      ensures Valid() && model == EMPTY && known == {}
    {
      clients, userIdMap, known, model := map[], map[], {}, EMPTY;
    }

    method Register(h: Handle)
      requires Valid() && Names(known, h)
      modifies this
      ensures known == old(known) + {h}
      ensures clients == old(clients)[h.info.session := h] && userIdMap == old(userIdMap)[h.info.user := h.info.session]
      ensures Valid() && model == Step(Seen(old(model), h), Op.Register(h.info))
    {
      TiedSeen(clients, userIdMap, known, model, h);
      clients := clients[h.info.session := h];
      userIdMap := userIdMap[h.info.user := h.info.session];
      known := known + {h};
      model := Step(Seen(model, h), Op.Register(h.info));
    }

    /** What every removal does: close a client, which may panic, then delete the session id from
        `clients` and leave the given user index. */
    method Remove(s: string, h: Handle, index: map<string, string>) returns (ok: bool)
      requires Valid() && s in clients && h in known
      modifies this, h`open
      ensures known == old(known) && (ok <==> h.info !in old(model).closed) && (ok <==> old(h.open)) && !h.open
      ensures ok ==> clients == old(clients) - {s} && userIdMap == index && Valid()
      ensures ok ==> model == Close(old(model), h.info).(clients := old(model).clients - {s}, userIdMap := index)
    {
      var failure := *;
      assert Names(known, h);
      var r := h.Close(failure);
      if r.ClosePanics? {
        return false;
      }
      clients := clients - {s};
      userIdMap := index;
      model := Close(model, h.info).(clients := model.clients - {s}, userIdMap := index);
      ok := true;
    }

    /** It is the given client that is closed, also when another one is in the map under its id. */
    method Unregister(h: Handle) returns (ok: bool)
      requires Valid() && Names(known, h)
      modifies this, h`open
      ensures known == old(known) + {h}
      ensures ok <==> !Step(old(Seen(model, h)), Op.Unregister(h.info)).fault
      ensures ok ==> Valid() && model == Step(old(Seen(model, h)), Op.Unregister(h.info))
      ensures if h.info.session in old(clients)
              then (ok <==> old(h.open)) && !h.open && (ok ==> clients == old(clients) - {h.info.session})
              else ok && h.open == old(h.open) && clients == old(clients)
      ensures ok ==> userIdMap == old(userIdMap)
    {
      TiedSeen(clients, userIdMap, known, model, h);
      known, model := known + {h}, Seen(model, h);
      ok := true;
      if h.info.session in clients {
        ok := Remove(h.info.session, h, userIdMap);
      }
    }

    method KickClientBySessionId(s: string) returns (ok: bool)
      requires Valid()
      modifies this, known`open
      ensures known == old(known) && (ok <==> !Step(old(model), KickBySessionId(s)).fault)
      ensures ok ==> Valid() && model == Step(old(model), KickBySessionId(s))
      ensures s in old(clients) && ok ==>
                && old(clients[s]).open == false && clients == old(clients) - {s}
                && userIdMap == old(userIdMap) - {old(clients[s]).info.user}
      ensures s !in old(clients) ==> ok && clients == old(clients) && userIdMap == old(userIdMap)
      ensures forall h | h in known && !(s in old(clients) && h == old(clients[s])) :: h.open == old(h.open)
    {
      ok := true;
      if s in clients {
        ok := Remove(s, clients[s], userIdMap - {clients[s].info.user});
      }
    }

    method KickClientByUserId(u: string) returns (ok: bool)
      requires Valid()
      modifies this, known`open
      ensures known == old(known) && (ok <==> !Step(old(model), KickByUserId(u)).fault)
      ensures ok ==> Valid() && model == Step(old(model), KickByUserId(u))
      ensures u in old(userIdMap) && old(userIdMap[u]) in old(clients) && ok ==>
                && old(clients[userIdMap[u]]).open == false && clients == old(clients) - {old(userIdMap[u])}
                && userIdMap == old(userIdMap) - {u}
      ensures !(u in old(userIdMap) && old(userIdMap[u]) in old(clients)) ==>
                ok && clients == old(clients) && userIdMap == old(userIdMap)
    {
      ok := true;
      if u in userIdMap && userIdMap[u] in clients {
        ok := Remove(userIdMap[u], clients[userIdMap[u]], userIdMap - {u});
      }
    }

    /** What the tie says about the clients in the map. */
    lemma Mapped()
      requires Valid()
      ensures clients.Keys == model.clients.Keys && userIdMap == model.userIdMap && !model.fault
      ensures forall s | s in clients :: clients[s] in known && clients[s].info == model.clients[s] && clients[s].info.session == s
      ensures forall s | s in clients :: clients[s].open <==> clients[s].info !in model.closed
    {}

    lemma KnownOpen()
      requires Valid()
      ensures forall h | h in known :: h.open <==> h.info !in model.closed
    {}

    predicate Ready(h: Handle)
      reads h
    {
      h.open && |h.queue| < CAPACITY
    }

    /** The loop of the broadcast. */
    method SendAll(message: string) returns (r: Sending)
      requires forall s | s in clients :: clients[s] in known && clients[s].info.session == s
      modifies known`queue
      ensures r.Queued? <==> forall s | s in clients :: old(Ready(clients[s]))
      ensures r.SendPanics? ==> exists s :: s in clients && !clients[s].open
      ensures r.Blocks? ==> exists s :: s in clients && clients[s].open && |old(clients[s].queue)| >= CAPACITY
      ensures r.Queued? ==> forall s | s in clients :: clients[s].queue == old(clients[s].queue) + [message]
      ensures forall h | h in known && h !in clients.Values :: h.queue == old(h.queue)
    {
      var rest := clients.Keys;
      while rest != {}
        invariant rest <= clients.Keys
        invariant forall s | s in rest :: clients[s].queue == old(clients[s].queue)
        invariant forall s | s in clients && s !in rest ::
                    old(Ready(clients[s])) && clients[s].queue == old(clients[s].queue) + [message]
        invariant forall h | h in known && h !in clients.Values :: h.queue == old(h.queue)
        decreases |rest|
      {
        var s :| s in rest;
        assert forall k | k in clients && k != s :: clients[k] != clients[s];
        r := clients[s].Send(message);
        if !r.Queued? {
          return;
        }
        rest := rest - {s};
      }
      r := Queued;
    }

    /** Every client in the map, and no other, gets the message once, provided that each is open and
        has room; otherwise the loop panics at a closed client or blocks at a full one, whichever the
        order of the map brings first. */
    method Broadcast(message: string) returns (r: Sending)
      requires Valid()
      modifies known`queue
      ensures Valid() && (r.Queued? <==> forall s | s in clients :: old(Ready(clients[s])))
      ensures r.SendPanics? ==> Step(model, Op.Broadcast).fault
      ensures r.Blocks? ==> exists s :: s in clients && clients[s].open && |old(clients[s].queue)| >= CAPACITY
      ensures r.Queued? ==> model == Step(model, Op.Broadcast)
      ensures r.Queued? ==> forall s | s in clients :: clients[s].queue == old(clients[s].queue) + [message]
      ensures forall h | h in known && h !in clients.Values :: h.queue == old(h.queue)
    {
      hide Tied;
      Mapped();
      r := SendAll(message);
      Mapped();
    }

    /** The loop of Stop: it closes every client and deletes it from both maps. */
    method Stop() returns (ok: bool)
      requires Valid()
      modifies this, known`open
      ensures known == old(known) && (ok <==> !Step(old(model), StopAll).fault)
      ensures ok ==> clients == map[] && Valid() && model == Step(old(model), StopAll)
      ensures ok ==> forall s | s in old(clients) :: !old(clients[s]).open && old(clients[s]).info.user !in userIdMap
      ensures ok ==> forall u | u in old(userIdMap) && (forall s | s in old(clients) :: old(clients[s]).info.user != u) ::
                       u in userIdMap && userIdMap[u] == old(userIdMap[u])
    {
      hide Tied;
      hide Stopping, Step;
      ghost var before := model;
      ghost var gone: set<string> := {};
      Mapped();
      StopBegins(before);
      ok := true;
      while clients != map[]
        invariant known == old(known) && ok && Valid() && Stopping(before, gone, model)
        decreases |clients|
      {
        var s :| s in clients;
        Mapped();
        StopGoesOn(before, gone, model, s);
        ok := Remove(s, clients[s], userIdMap - {clients[s].info.user});
        if !ok {
          return;
        }
        gone := gone + {s};
      }
      Mapped();
      KnownOpen();
      StopEnds(before, gone, model);
    }
  }

  /** A handle may be given for the first time, open or closed. */
  lemma TiedSeen(clients: map<string, Handle>, userIdMap: map<string, string>, known: set<Handle>, r: Reg, h: Handle)
    requires Tied(clients, userIdMap, known, r) && Names(known, h)
    ensures Tied(clients, userIdMap, known + {h}, Seen(r, h))
  {
    var r', known' := Seen(r, h), known + {h};
    forall k | k in known' ensures Names(known', k) && (k.open <==> k.info !in r'.closed) {
      if k in known { assert Names(known, k); }
    }
    forall c | c in r'.closed ensures exists k :: k in known' && k.info == c {
      if c in r.closed {
        var k :| k in known && k.info == c;
        assert k in known';
      } else {
        assert h in known';
      }
    }
  }

  ghost function ClientsOf(r: Reg, gone: set<string>): set<Client>
    requires gone <= r.clients.Keys
  {
    set s | s in gone :: r.clients[s]
  }

  ghost function UsersOf(r: Reg, gone: set<string>): set<string>
    requires gone <= r.clients.Keys
  {
    set s | s in gone :: r.clients[s].user
  }

  /** The registry when Stop has worked through the session ids in `gone`. */
  ghost function Stopped(r: Reg, gone: set<string>): Reg
    requires gone <= r.clients.Keys
  {
    r.(clients := r.clients - gone, userIdMap := r.userIdMap - UsersOf(r, gone), closed := r.closed + ClientsOf(r, gone))
  }

  lemma OneMore(r: Reg, gone: set<string>, s: string)
    requires gone <= r.clients.Keys && s in r.clients
    ensures ClientsOf(r, gone + {s}) == ClientsOf(r, gone) + {r.clients[s]}
    ensures UsersOf(r, gone + {s}) == UsersOf(r, gone) + {r.clients[s].user}
    ensures r.clients - gone - {s} == r.clients - (gone + {s})
    ensures r.userIdMap - UsersOf(r, gone) - {r.clients[s].user} == r.userIdMap - UsersOf(r, gone + {s})
  {}

  /** Stop has closed the clients under `gone`, all of which were open. */
  ghost predicate Stopping(before: Reg, gone: set<string>, r: Reg) {
    && !before.fault && gone <= before.clients.Keys && r == Stopped(before, gone)
    && (forall s | s in gone :: before.clients[s] !in before.closed)
    && (forall s | s in before.clients :: before.clients[s].session == s)
  }

  lemma StopBegins(r: Reg)
    requires !r.fault && forall s | s in r.clients :: r.clients[s].session == s
    ensures Stopping(r, {}, r)
  {
    assert r.clients - {} == r.clients;
  }

  /** The next close panics exactly when its client was closed before Stop began. */
  lemma StopGoesOn(before: Reg, gone: set<string>, r: Reg, s: string)
    requires Stopping(before, gone, r) && s in r.clients
    ensures if r.clients[s] in r.closed then Step(before, StopAll).fault
            else Stopping(before, gone + {s}, Close(r, r.clients[s]).(clients := r.clients - {s},
                                                                      userIdMap := r.userIdMap - {r.clients[s].user}))
  {
    OneMore(before, gone, s);
    forall k | k in gone ensures before.clients[k] != before.clients[s] { assert before.clients[k].session == k; }
    assert before.closed + ClientsOf(before, gone) + {r.clients[s]} == before.closed + ClientsOf(before, gone + {s});
  }

  lemma StopEnds(before: Reg, gone: set<string>, r: Reg)
    requires Stopping(before, gone, r) && r.clients.Keys == {}
    ensures r == Step(before, StopAll) && !r.fault
    ensures forall s | s in before.clients :: before.clients[s] in r.closed && before.clients[s].user !in r.userIdMap
    ensures forall u | u in before.userIdMap && (forall s | s in before.clients :: before.clients[s].user != u) ::
              u in r.userIdMap && r.userIdMap[u] == before.userIdMap[u]
  {
    forall s | s in before.clients ensures s in gone { assert s !in r.clients.Keys; }
    assert gone == before.clients.Keys && r.clients == map[];
    assert ClientsOf(before, gone) == before.clients.Values;
  }
}
