/** The JetStream fetch, handle and acknowledge loop of libs/nats/subscribe.go over an abstract stream
    with redelivery. */
module JetStream {

  datatype Msg = Msg(id: nat, subject: string)

  const BATCH: nat := 10

  datatype Loop =
    | Fetching
    | Working(rest: seq<Msg>)               // the rest of a fetched batch
    | Handling(m: Msg, rest: seq<Msg>)
    | Acking(m: Msg, rest: seq<Msg>)
    | Stopped                               // cancelled, or ended by a handler's panic

  /** `handled`: the messages for which the handler has returned, in order; `mismatched`: messages
      that were fetched with another subject. */
  datatype State = State(loop: Loop, cancelled: bool, published: set<Msg>, pending: set<Msg>, inflight: set<Msg>,
                         acked: set<Msg>, handled: seq<Msg>, mismatched: set<Msg>)

  datatype Event =
    | Publish(m: Msg)
    | Fetch(batch: seq<Msg>)
    | FetchError
    | Next                     // take the next message of the batch
    | HandlerReturns
    | HandlerPanics
    | Ack(effect: bool)        // an ack that fails may or may not have reached the server
    | Redeliver(m: Msg)
    | Cancel
    | SeeCancel

  const INITIAL := State(Fetching, false, {}, {}, {}, {}, [], {})

  predicate Enabled(s: State, e: Event) {
    match e
    case Publish(m) => m !in s.published
    case Fetch(batch) => s.loop.Fetching? && !s.cancelled && |batch| <= BATCH && forall m | m in batch :: m in s.pending
    case FetchError => s.loop.Fetching? && !s.cancelled
    case Next => s.loop.Working?
    case HandlerReturns => s.loop.Handling?
    case HandlerPanics => s.loop.Handling?
    case Ack(_) => s.loop.Acking?
    case Redeliver(m) => m in s.inflight
    case Cancel => !s.cancelled
    case SeeCancel => s.loop.Fetching? && s.cancelled
  }

  function Step(subject: string, s: State, e: Event): State
    requires Enabled(s, e)
  {
    match e
    case Publish(m) => s.(published := s.published + {m}, pending := s.pending + {m})
    case Fetch(batch) =>
      var got := set m | m in batch;
      s.(loop := Working(batch), pending := s.pending - got, inflight := s.inflight + got)
    case FetchError => s
    case Next =>
      if s.loop.rest == [] then s.(loop := Fetching)
      else
        var m, rest := s.loop.rest[0], s.loop.rest[1..];
        if m.subject == subject then s.(loop := Handling(m, rest))
        else s.(loop := Working(rest), mismatched := s.mismatched + {m})
    case HandlerReturns => s.(loop := Acking(s.loop.m, s.loop.rest), handled := s.handled + [s.loop.m])
    case HandlerPanics => s.(loop := Stopped)
    case Ack(effect) =>
      var m, s' := s.loop.m, s.(loop := Working(s.loop.rest));
      if effect then s'.(acked := s.acked + {m}, inflight := s.inflight - {m}, pending := s.pending - {m}) else s'
    case Redeliver(m) => s.(inflight := s.inflight - {m}, pending := s.pending + {m})
    case Cancel => s.(cancelled := true)
    case SeeCancel => s.(loop := Stopped)
  }

  ghost predicate Run(subject: string, s: State, es: seq<Event>, t: State)
    decreases |es|
  {
    if es == [] then t == s else Enabled(s, es[0]) && Run(subject, Step(subject, s, es[0]), es[1..], t)
  }

  ghost predicate Inv(subject: string, s: State) {
    && (forall m | m in s.acked :: m in s.handled)
    && (forall m | m in s.handled :: m.subject == subject)
    && (forall m | m in s.mismatched :: m.subject != subject)
    && (s.loop.Handling? || s.loop.Acking? ==> s.loop.m.subject == subject)
    && (s.loop.Acking? ==> s.loop.m in s.handled)
    && s.published == s.pending + s.inflight + s.acked
    && s.pending !! s.inflight && s.pending !! s.acked && s.inflight !! s.acked
    && (forall m | m in Held(s) :: m in s.published)
  }

  /** The messages that the loop still holds. */
  ghost function Held(s: State): set<Msg> {
    match s.loop
    case Working(rest) => set m | m in rest
    case Handling(m, rest) => {m} + set x | x in rest
    case Acking(m, rest) => {m} + set x | x in rest
    case _ => {}
  }

  lemma InvStep(subject: string, s: State, e: Event)
    requires Inv(subject, s) && Enabled(s, e)
    ensures Inv(subject, Step(subject, s, e))
  {
    var t := Step(subject, s, e);
    match e
    case Next =>
      if s.loop.rest != [] { assert s.loop.rest == [s.loop.rest[0]] + s.loop.rest[1..]; }
    case Ack(effect) => assert s.loop.m in Held(s);
    case _ =>
  }

  lemma {:induction false} InvRun(subject: string, s: State, es: seq<Event>, t: State)
    requires Inv(subject, s) && Run(subject, s, es, t)
    ensures Inv(subject, t)
    decreases |es|
  {
    if es != [] {
      InvStep(subject, s, es[0]);
      InvRun(subject, Step(subject, s, es[0]), es[1..], t);
    }
  }

  /** At least once: in every run with panics, fetch errors, failed acks and redelivery, a message is
      acknowledged only after the handler has returned for it; messages of another subject are never
      acknowledged; and no published message is lost: it is acknowledged, or in flight, or pending. */
  lemma AtLeastOnce(subject: string, es: seq<Event>, t: State)
    requires Run(subject, INITIAL, es, t)
    ensures forall m | m in t.acked :: m in t.handled && m.subject == subject
    ensures forall m | m in t.published && (m !in t.handled || m.subject != subject) ::
              m in t.pending + t.inflight && m !in t.acked
  {
    InvRun(subject, INITIAL, es, t);
  }

  lemma {:induction false} StaysStopped(subject: string, s: State, es: seq<Event>, t: State)
    requires s.loop.Stopped? && Run(subject, s, es, t)
    ensures t.loop.Stopped? && t.acked == s.acked && t.handled == s.handled
    decreases |es|
  {
    if es != [] { StaysStopped(subject, Step(subject, s, es[0]), es[1..], t); }
  }

  /** A handler's panic ends the loop, as does the cancelled context: whatever comes after it, the
      message in the handler, the rest of its batch and everything published later are neither handled
      nor acknowledged any more; those not acknowledged before stay with the server. */
  lemma PanicEndsLoop(subject: string, es: seq<Event>, s: State, e: Event, more: seq<Event>, t: State)
    requires Run(subject, INITIAL, es, s) && Enabled(s, e) && (e == HandlerPanics || e == SeeCancel)
    requires Run(subject, Step(subject, s, e), more, t)
    ensures t.loop.Stopped? && t.acked == s.acked && t.handled == s.handled
    ensures forall m | m in t.published && m !in s.acked :: m in t.pending + t.inflight
  {
    InvRun(subject, INITIAL, es, s);
    InvStep(subject, s, e);
    InvRun(subject, Step(subject, s, e), more, t);
    StaysStopped(subject, Step(subject, s, e), more, t);
  }

  // ---- one batch ----

  /** The messages of the right subject, in order. */
  function Matching(subject: string, batch: seq<Msg>): seq<Msg> {
    if batch == [] then []
    else (if batch[0].subject == subject then [batch[0]] else []) + Matching(subject, batch[1..])
  }

  /** The effects of the acks of a run, in order. */
  function Acks(es: seq<Event>): seq<bool> {
    if es == [] then [] else (if es[0].Ack? then [es[0].effect] else []) + Acks(es[1..])
  }

  /** The messages whose ack took effect. */
  function AckedOf(ms: seq<Msg>, acks: seq<bool>): set<Msg>
    requires |acks| == |ms|
  {
    set i | 0 <= i < |ms| && acks[i] :: ms[i]
  }

  /** What the loop has still to hand to the handler, and what it has still to acknowledge. */
  function ToHandle(subject: string, loop: Loop): seq<Msg> {
    match loop
    case Working(rest) => Matching(subject, rest)
    case Handling(m, rest) => [m] + Matching(subject, rest)
    case Acking(_, rest) => Matching(subject, rest)
    case _ => []
  }

  function ToAck(subject: string, loop: Loop): seq<Msg> {
    match loop
    case Acking(m, rest) => [m] + Matching(subject, rest)
    case _ => ToHandle(subject, loop)
  }

  lemma AckedFirst(m: Msg, ms: seq<Msg>, effect: bool, acks: seq<bool>)
    requires |acks| == |ms|
    ensures AckedOf([m] + ms, [effect] + acks) == (if effect then {m} else {}) + AckedOf(ms, acks)
  {
    var all, flags := [m] + ms, [effect] + acks;
    forall x | x in (if effect then {m} else {}) + AckedOf(ms, acks) ensures x in AckedOf(all, flags) {
      if x in AckedOf(ms, acks) {
        var i :| 0 <= i < |ms| && acks[i] && ms[i] == x;
        assert all[i + 1] == x && flags[i + 1];
      } else {
        assert all[0] == x && flags[0];
      }
    }
  }

  lemma BatchStep(subject: string, s: State, e: Event)
    requires Enabled(s, e) && !e.Fetch? && !Step(subject, s, e).loop.Stopped?
    ensures var m := Step(subject, s, e);
            && m.handled + ToHandle(subject, m.loop) == s.handled + ToHandle(subject, s.loop)
            && (!e.Ack? ==> m.acked == s.acked && ToAck(subject, m.loop) == ToAck(subject, s.loop))
            && (e.Ack? ==> m.acked == s.acked + (if e.effect then {s.loop.m} else {})
                           && ToAck(subject, s.loop) == [s.loop.m] + ToAck(subject, m.loop))
  {
    if e.HandlerReturns? {
      var h, one, rest := s.handled, [s.loop.m], Matching(subject, s.loop.rest);
      assert h + one + rest == h + (one + rest);
    }
  }

  /** The rest of a batch that is worked through without another fetch. */
  lemma {:induction false} RestOfBatch(subject: string, s: State, es: seq<Event>, t: State)
    requires Run(subject, s, es, t) && t.loop.Fetching? && !s.loop.Stopped?
    requires forall i | 0 <= i < |es| :: !es[i].Fetch?
    ensures t.handled == s.handled + ToHandle(subject, s.loop)
    ensures |Acks(es)| == |ToAck(subject, s.loop)|
    ensures t.acked == s.acked + AckedOf(ToAck(subject, s.loop), Acks(es))
    decreases |es|
  {
    if es != [] {
      var e, m := es[0], Step(subject, s, es[0]);
      assert !e.Fetch?;
      assert forall i | 0 <= i < |es[1..]| :: es[1..][i] == es[i + 1];
      if m.loop.Stopped? { StaysStopped(subject, m, es[1..], t); }
      RestOfBatch(subject, m, es[1..], t);
      BatchStep(subject, s, e);
      if e.Ack? {
        AckedFirst(s.loop.m, ToAck(subject, m.loop), e.effect, Acks(es[1..]));
      } else {
        assert Acks(es) == Acks(es[1..]);
      }
    }
  }

  /** A batch worked through without a panic: from its fetch to the next one the handler has returned
      for exactly its messages of the right subject, in order, and those of them whose ack took
      effect, and no others, have been acknowledged. */
  lemma BatchHandled(subject: string, s: State, batch: seq<Msg>, es: seq<Event>, t: State)
    requires Enabled(s, Fetch(batch)) && Run(subject, Step(subject, s, Fetch(batch)), es, t) && t.loop.Fetching?
    requires forall i | 0 <= i < |es| :: !es[i].Fetch?
    ensures t.handled == s.handled + Matching(subject, batch)
    ensures |Acks(es)| == |Matching(subject, batch)| && t.acked == s.acked + AckedOf(Matching(subject, batch), Acks(es))
  {
    RestOfBatch(subject, Step(subject, s, Fetch(batch)), es, t);
  }

  // ---- redelivery and cancellation ----

  /** At least once, the other half: whatever has failed before, a published message that is not
      acknowledged can be handed to the handler by the next fetch. */
  lemma CanBeHandled(subject: string, es: seq<Event>, s: State, m: Msg) returns (more: seq<Event>, t: State)
    requires Run(subject, INITIAL, es, s) && s.loop.Fetching? && !s.cancelled
    requires m in s.published && m !in s.acked && m.subject == subject
    ensures Run(subject, s, more, t) && t.loop == Handling(m, [])
  {
    InvRun(subject, INITIAL, es, s);
    var first := if m in s.inflight then [Redeliver(m)] else [];
    var s1 := if m in s.inflight then Step(subject, s, Redeliver(m)) else s;
    var s2 := Step(subject, s1, Fetch([m]));
    t := Step(subject, s2, Next);
    var rest := [Fetch([m]), Next];
    assert rest[1..] == [Next] && [Next][1..] == [];
    assert Run(subject, s2, [Next], t);
    assert Run(subject, s1, rest, t);
    more := first + rest;
    if m in s.inflight { assert more[1..] == rest; } else { assert more == rest; }
  }

  /** Up to ten waiting messages, in any choice and order, come with one fetch, and no more. */
  lemma FetchIff(s: State, batch: seq<Msg>)
    requires s.loop.Fetching? && !s.cancelled && forall m | m in batch :: m in s.pending
    ensures Enabled(s, Fetch(batch)) <==> |batch| <= 10
  {}

  /** After the cancellation nothing is fetched any more. */
  lemma {:induction false} CancelStopsFetching(subject: string, s: State, es: seq<Event>, t: State)
    requires Run(subject, s, es, t) && (s.cancelled || (es != [] && es[0].Cancel?))
    ensures t.cancelled && forall i | 0 <= i < |es| :: !es[i].Fetch?
    decreases |es|
  {
    if es != [] {
      CancelStopsFetching(subject, Step(subject, s, es[0]), es[1..], t);
      forall i | 0 <= i < |es| ensures !es[i].Fetch? {
        if i > 0 { assert es[i] == es[1..][i - 1]; }
      }
    }
  }
}
