/** The WebSocket receive pump of queue/message_revice.go as interleaved steps of the pump, of the
    goroutines it spawns for processing, of the reader of `messageChan` and of Stop. */
module Receiver {

  type Bytes = seq<bv8>

  const CAPACITY: nat := 100

  /** What the codec, an abstract partial function, makes of a non-empty frame. */
  datatype Decoded = Bad | Message(id: nat)

  /** A frame as read from the connection, with what decoding it yields. */
  datatype Frame = Frame(data: Bytes, decoded: Decoded)

  /** How a frame that was read ended. */
  datatype Fate = Empty | Undecodable | Delivered | DroppedFull | CancelledFrame

  datatype Pump = NotStarted | Checking | Reading | Handling(f: Frame) | Offering(f: Frame) | Ended

  datatype Phase = Running | Cancelled | Joined | ChanClosed

  /** A processing goroutine: before its first check, in the handler, before its second check,
      before the sender's `IsRunning` check, about to send, or finished. */
  datatype Worker = Begin | InHandler | Handled(reply: bool) | Replying | Sending | Finished

  /** `read` and `fates` run in parallel, the frame in the pump's hands excepted.  `workers` maps the
      position of a frame to its processing goroutine; `replies` records the frames replied to. */
  datatype State = State(pump: Pump, phase: Phase, buf: seq<nat>, consumed: seq<nat>, read: seq<Frame>,
                         fates: seq<Fate>, workers: map<nat, Worker>, replies: seq<nat>, fault: bool)

  /** Whether a processor and a sender are set. */
  datatype Config = Config(processor: bool, sender: bool)

  datatype Event =
    | Start
    | Check                   // the pump's select: return when cancelled, else read
    | Read(f: Frame)
    | ReadError
    | Handle                  // the emptiness and decoding checks of handleRawMessage
    | Offer(cancelSeen: bool) // its select: the context case is chosen or not
    | Consume                 // somebody receives from messageChan
    | FirstCheck(k: nat)
    | HandlerReturns(k: nat, ok: bool, reply: bool)
    | SecondCheck(k: nat)
    | SenderCheck(k: nat, running: bool)
    | SendReply(k: nat)
    | Cancel | Join | CloseChan

  const INITIAL := State(NotStarted, Running, [], [], [], [], map[], [], false)

  predicate InHand(s: State) { s.pump.Handling? || s.pump.Offering? }

  predicate Enabled(c: Config, s: State, e: Event) {
    && !s.fault
    && match e
       case Start => s.pump.NotStarted?
       case Check => s.pump.Checking?
       case Read(_) => s.pump.Reading?
       case ReadError => s.pump.Reading?
       case Handle => s.pump.Handling?
       case Offer(cancelSeen) =>
         s.pump.Offering? && s.pump.f.decoded.Message? &&
         (cancelSeen ==> !s.phase.Running?) &&
         // the default case needs both others to be blocked
         (!cancelSeen && !s.phase.Running? ==> s.phase.ChanClosed? || |s.buf| < CAPACITY)
       case Consume => s.buf != []
       case FirstCheck(k) => k in s.workers && s.workers[k].Begin?
       case HandlerReturns(k, _, _) => k in s.workers && s.workers[k].InHandler?
       case SecondCheck(k) => k in s.workers && s.workers[k].Handled?
       case SenderCheck(k, _) => k in s.workers && s.workers[k].Replying?
       case SendReply(k) => k in s.workers && s.workers[k].Sending?
       case Cancel => s.phase.Running?
       case Join => s.phase.Cancelled? && (s.pump.Ended? || s.pump.NotStarted?)
       case CloseChan => s.phase.Joined?
  }

  /** A frame is done with: its fate is recorded, and the pump goes back to its check. */
  function Settle(s: State, fate: Fate): State {
    s.(pump := Checking, fates := s.fates + [fate])
  }

  /** After the select of handleRawMessage, a message that was not cancelled is processed, also
      when it was dropped because the channel was full. */
  function Spawn(c: Config, s: State): State {
    if c.processor then s.(workers := s.workers[|s.fates| := Begin]) else s
  }

  function SetWorker(s: State, k: nat, w: Worker): State {
    s.(workers := s.workers[k := w])
  }

  function Step(c: Config, s: State, e: Event): State
    requires Enabled(c, s, e)
  {
    match e
    case Start => s.(pump := Checking)
    case Check => s.(pump := if s.phase.Running? then Reading else Ended)
    case Read(f) => s.(pump := Handling(f), read := s.read + [f])
    case ReadError => s.(pump := Ended)
    case Handle =>
      if s.pump.f.data == [] then Settle(s, Empty)
      else if s.pump.f.decoded.Bad? then Settle(s, Undecodable)
      else s.(pump := Offering(s.pump.f))
    case Offer(cancelSeen) =>
      if cancelSeen then Settle(s, CancelledFrame)
      else if s.phase.ChanClosed? then s.(fault := true)
      else if |s.buf| < CAPACITY then
        Settle(Spawn(c, s.(buf := s.buf + [s.pump.f.decoded.id])), Delivered)
      else Settle(Spawn(c, s), DroppedFull)
    case Consume => s.(buf := s.buf[1..], consumed := s.consumed + [s.buf[0]])
    case FirstCheck(k) => SetWorker(s, k, if s.phase.Running? then InHandler else Finished)
    case HandlerReturns(k, ok, reply) => SetWorker(s, k, if ok then Handled(reply) else Finished)
    case SecondCheck(k) =>
      SetWorker(s, k, if s.phase.Running? && c.sender && s.workers[k].reply then Replying else Finished)
    case SenderCheck(k, running) => SetWorker(s, k, if running then Sending else Finished)
    case SendReply(k) => SetWorker(s, k, Finished).(replies := s.replies + [k])
    case Cancel => s.(phase := Cancelled)
    case Join => s.(phase := Joined)
    case CloseChan => s.(phase := ChanClosed)
  }

  ghost predicate Run(c: Config, s: State, es: seq<Event>, t: State)
    decreases |es|
  {
    if es == [] then t == s else Enabled(c, s, es[0]) && Run(c, Step(c, s, es[0]), es[1..], t)
  }

  // ---- frames, fates and deliveries ----

  predicate IsDelivered(f: Frame, fate: Fate) { fate.Delivered? && f.decoded.Message? }

  /** The messages of the frames with the fate Delivered, in the order the frames were read. */
  function DeliveredOf(read: seq<Frame>, fates: seq<Fate>): seq<nat>
    requires |fates| <= |read|
  {
    if fates == [] then []
    else
      var n := |fates| - 1;
      DeliveredOf(read, fates[..n]) + (if IsDelivered(read[n], fates[n]) then [read[n].decoded.id] else [])
  }

  /** The one fate that a frame's content allows, up to the outcome of the channel's select. */
  predicate Fitting(f: Frame, fate: Fate) {
    if f.data == [] then fate.Empty?
    else if f.decoded.Bad? then fate.Undecodable?
    else fate.Delivered? || fate.DroppedFull? || fate.CancelledFrame?
  }

  ghost predicate Accounted(s: State) {
    && |s.read| == |s.fates| + (if InHand(s) then 1 else 0)
    && (forall i | 0 <= i < |s.fates| :: Fitting(s.read[i], s.fates[i]))
    && (InHand(s) ==> s.pump.f == s.read[|s.read| - 1])
    && (s.pump.Offering? ==> s.pump.f.data != [] && s.pump.f.decoded.Message?)
    && s.consumed + s.buf == DeliveredOf(s.read, s.fates)
    && |s.buf| <= CAPACITY
  }

  /** The pump is gone for good once Stop has joined it: a pump started later sees the
      cancelled context before it reads anything. */
  ghost predicate Joinable(s: State) {
    && !s.fault
    && (s.phase.Joined? || s.phase.ChanClosed? ==> s.pump.NotStarted? || s.pump.Checking? || s.pump.Ended?)
  }

  lemma DeliveredPrefix(read: seq<Frame>, read': seq<Frame>, fates: seq<Fate>)
    requires |fates| <= |read| <= |read'| && read'[..|read|] == read
    ensures forall i | 0 <= i < |fates| :: read'[i] == read[i]
    ensures DeliveredOf(read', fates) == DeliveredOf(read, fates)
  {
    forall i | 0 <= i < |fates| ensures read'[i] == read[i] { assert read'[i] == read'[..|read|][i]; }
  }

  lemma SettleAccounted(s: State, buf: seq<nat>, fate: Fate)
    requires Accounted(s) && InHand(s) && Fitting(s.pump.f, fate)
    requires buf == s.buf + (if fate.Delivered? then [s.pump.f.decoded.id] else []) && |buf| <= CAPACITY
    ensures Accounted(Settle(s.(buf := buf), fate))
  {
    var fates := s.fates + [fate];
    assert fates[..|s.fates|] == s.fates;
    assert s.consumed + buf == s.consumed + s.buf + (if fate.Delivered? then [s.pump.f.decoded.id] else []);
  }

  lemma SettleStep(c: Config, s: State, e: Event)
    requires Accounted(s) && Joinable(s) && Enabled(c, s, e) && (e.Offer? || e.Handle?)
    ensures Accounted(Step(c, s, e)) && Joinable(Step(c, s, e))
  {
    var t := Step(c, s, e);
    if !t.pump.Offering? { SettleAccounted(s, t.buf, t.fates[|s.fates|]); }
  }

  lemma AccountedStep(c: Config, s: State, e: Event)
    requires Accounted(s) && Joinable(s) && Enabled(c, s, e)
    ensures Accounted(Step(c, s, e)) && Joinable(Step(c, s, e))
  {
    if e.Offer? || e.Handle? {
      SettleStep(c, s, e);
    } else if e.Read? {
      DeliveredPrefix(s.read, s.read + [e.f], s.fates);
    } else if e.Consume? {
      assert s.consumed + [s.buf[0]] + s.buf[1..] == s.consumed + s.buf;
    }
  }

  lemma {:induction false} AccountedRun(c: Config, s: State, es: seq<Event>, t: State)
    requires Accounted(s) && Joinable(s) && Run(c, s, es, t)
    ensures Accounted(t) && Joinable(t)
    decreases |es|
  {
    if es != [] {
      AccountedStep(c, s, es[0]);
      AccountedRun(c, Step(c, s, es[0]), es[1..], t);
    }
  }

  /** No interleaving of one Start, one Stop, the workers and the reader sends on the closed
      messageChan, in whichever order Start and Stop come. */
  lemma NeverSendsOnClosed(c: Config, es: seq<Event>, t: State)
    requires Run(c, INITIAL, es, t)
    ensures !t.fault
  {
    AccountedRun(c, INITIAL, es, t);
  }

  /** Every frame read has exactly one fate, the one its content calls for; and the messages that
      ever came out of messageChan or are still in it are, in order, those of the delivered frames. */
  lemma EveryFrameAccounted(c: Config, es: seq<Event>, t: State)
    requires Run(c, INITIAL, es, t)
    ensures |t.read| == |t.fates| + (if InHand(t) then 1 else 0)
    ensures forall i | 0 <= i < |t.fates| :: Fitting(t.read[i], t.fates[i])
    ensures t.consumed + t.buf == DeliveredOf(t.read, t.fates) && |t.buf| <= CAPACITY
  {
    AccountedRun(c, INITIAL, es, t);
  }

  /** Strictly increasing positions witness an in-order subsequence. */
  ghost predicate Positions(at: seq<nat>, read: seq<Frame>, messages: seq<nat>) {
    && |at| == |messages|
    && (forall i | 0 <= i < |at| :: at[i] < |read| && read[at[i]].decoded == Message(messages[i]))
    && forall i, j | 0 <= i < j < |at| :: at[i] < at[j]
  }

  lemma PositionsAppend(at: seq<nat>, read: seq<Frame>, messages: seq<nat>, n: nat, id: nat)
    requires Positions(at, read, messages) && n < |read| && read[n].decoded == Message(id)
    requires forall i | 0 <= i < |at| :: at[i] < n
    ensures Positions(at + [n], read, messages + [id])
  {}

  lemma {:induction false} DeliveredInOrder(read: seq<Frame>, fates: seq<Fate>) returns (at: seq<nat>)
    requires |fates| <= |read|
    ensures Positions(at, read, DeliveredOf(read, fates))
    ensures forall i | 0 <= i < |at| :: at[i] < |fates|
    decreases |fates|
  {
    if fates == [] {
      at := [];
    } else {
      var n := |fates| - 1;
      at := DeliveredInOrder(read, fates[..n]);
      if IsDelivered(read[n], fates[n]) {
        PositionsAppend(at, read, DeliveredOf(read, fates[..n]), n, read[n].decoded.id);
        at := at + [n];
      } else {
        assert DeliveredOf(read, fates) == DeliveredOf(read, fates[..n]);
      }
    }
  }

  /** What a reader of messageChan has received is an in-order subsequence of the decoded messages. */
  lemma ConsumedInOrder(c: Config, es: seq<Event>, t: State) returns (at: seq<nat>)
    requires Run(c, INITIAL, es, t)
    ensures Positions(at, t.read, t.consumed)
  {
    AccountedRun(c, INITIAL, es, t);
    at := DeliveredInOrder(t.read, t.fates);
    at := at[..|t.consumed|];
    assert t.consumed == DeliveredOf(t.read, t.fates)[..|t.consumed|];
  }

  /** The one fate of the frame that a step is done with: a message is dropped only while 100 delivered
      ones wait for the reader, and cancelled only when the pump's select takes the context case. */
  lemma FateDecided(c: Config, es: seq<Event>, s: State, e: Event)
    requires Run(c, INITIAL, es, s) && Enabled(c, s, e) && Step(c, s, e).fates != s.fates
    ensures |s.fates| + 1 == |s.read| == |Step(c, s, e).fates| && Step(c, s, e).fates[..|s.fates|] == s.fates
    ensures Step(c, s, e).pump.Checking?
    ensures var f, fate := s.read[|s.fates|], Step(c, s, e).fates[|s.fates|];
            var unread := |DeliveredOf(s.read, s.fates)| - |s.consumed|;
            && (fate.Empty? <==> f.data == [])
            && (fate.Undecodable? <==> f.data != [] && f.decoded.Bad?)
            && (fate.CancelledFrame? <==> f.data != [] && f.decoded.Message? && e == Offer(true))
            && (fate.Delivered? <==> f.data != [] && f.decoded.Message? && e == Offer(false) && unread < 100)
            && (fate.DroppedFull? <==> f.data != [] && f.decoded.Message? && e == Offer(false) && unread == 100)
  {
    AccountedRun(c, INITIAL, es, s);
  }

  /** Whatever frames come, the pump goes on: until it is stopped or reading fails it takes them all. */
  lemma {:induction false} TakesAll(c: Config, fs: seq<Frame>) returns (es: seq<Event>, t: State)
    ensures Run(c, INITIAL, es, t) && !t.fault && t.pump.Checking? && t.phase.Running? && t.read == fs
    decreases |fs|
  {
    if fs == [] {
      es, t := [], INITIAL;
      Then(c, INITIAL, es, t, Start);
      es, t := es + [Start], Step(c, t, Start);
    } else {
      var f := fs[|fs| - 1];
      es, t := TakesAll(c, fs[..|fs| - 1]);
      Then(c, INITIAL, es, t, Check);
      es, t := es + [Check], Step(c, t, Check);
      Then(c, INITIAL, es, t, Read(f));
      es, t := es + [Read(f)], Step(c, t, Read(f));
      Then(c, INITIAL, es, t, Handle);
      es, t := es + [Handle], Step(c, t, Handle);
      if t.pump.Offering? {
        Then(c, INITIAL, es, t, Offer(false));
        es, t := es + [Offer(false)], Step(c, t, Offer(false));
      }
    }
  }

  /** A read error ends the pump: no frame is read after it, and no further message delivered. */
  lemma ReadErrorEnds(c: Config, s: State, es: seq<Event>, t: State)
    requires Enabled(c, s, ReadError) && Run(c, Step(c, s, ReadError), es, t)
    ensures t.pump.Ended? && t.read == s.read && t.fates == s.fates
  {
    StaysEnded(c, Step(c, s, ReadError), es, t);
  }

  lemma {:induction false} StaysEnded(c: Config, s: State, es: seq<Event>, t: State)
    requires Run(c, s, es, t) && s.pump.Ended?
    ensures t.pump.Ended? && t.read == s.read && t.fates == s.fates
    decreases |es|
  {
    if es != [] { StaysEnded(c, Step(c, s, es[0]), es[1..], t); }
  }

  // ---- replies ----

  /** The frames for which a goroutine was spawned: delivered ones and, when the channel was
      full, dropped ones as well. */
  predicate Processed(fate: Fate) { fate.Delivered? || fate.DroppedFull? }

  ghost predicate RepliesSound(c: Config, s: State) {
    && (forall k | k in s.workers :: k < |s.fates| && Processed(s.fates[k]))
    && (forall k | 0 <= k < |s.fates| && Processed(s.fates[k]) && c.processor :: k in s.workers)
    && (forall i | 0 <= i < |s.replies| :: s.replies[i] in s.workers && s.workers[s.replies[i]].Finished?)
    && (forall i, j | 0 <= i < j < |s.replies| :: s.replies[i] != s.replies[j])
  }

  lemma RepliesSpawn(c: Config, s: State, e: Event)
    requires RepliesSound(c, s) && Enabled(c, s, e) && (e.Handle? || e.Offer?)
    ensures RepliesSound(c, Step(c, s, e))
  {
    var t := Step(c, s, e);
    forall k | k in t.workers ensures k < |t.fates| && Processed(t.fates[k]) {
      if k in s.workers { assert t.fates[k] == s.fates[k]; }
    }
    forall k | 0 <= k < |t.fates| && Processed(t.fates[k]) && c.processor ensures k in t.workers {
      if k < |s.fates| { assert t.fates[k] == s.fates[k]; }
    }
  }

  lemma RepliesStep(c: Config, s: State, e: Event)
    requires RepliesSound(c, s) && Enabled(c, s, e)
    ensures RepliesSound(c, Step(c, s, e))
  {
    if e.Handle? || e.Offer? {
      RepliesSpawn(c, s, e);
    } else {
      assert Step(c, s, e).fates == s.fates && Step(c, s, e).workers.Keys == s.workers.Keys;
    }
  }

  lemma {:induction false} RepliesRun(c: Config, s: State, es: seq<Event>, t: State)
    requires RepliesSound(c, s) && Run(c, s, es, t)
    ensures RepliesSound(c, t)
    decreases |es|
  {
    if es != [] {
      RepliesStep(c, s, es[0]);
      RepliesRun(c, Step(c, s, es[0]), es[1..], t);
    }
  }

  /** Each message is processed by exactly one goroutine, if it was delivered or dropped for a full
      channel and a processor is set, by none otherwise, and yields at most one reply. */
  lemma AtMostOneReply(c: Config, es: seq<Event>, t: State)
    requires Run(c, INITIAL, es, t)
    ensures forall i, j | 0 <= i < j < |t.replies| :: t.replies[i] != t.replies[j]
    ensures forall i | 0 <= i < |t.replies| :: t.replies[i] < |t.fates| && Processed(t.fates[t.replies[i]])
    ensures c.processor ==> forall k: nat | k < |t.fates| :: k in t.workers <==> Processed(t.fates[k])
  {
    RepliesRun(c, INITIAL, es, t);
  }

  /** The goroutine of frame `k` has an answer to send, or has sent it. */
  ghost predicate HasAnswer(s: State, k: nat) {
    || k in s.replies
    || (k in s.workers && (s.workers[k] == Handled(true) || s.workers[k].Replying? || s.workers[k].Sending?))
  }

  /** There is a reply only to a message whose handler returned a non-empty answer without an error. */
  lemma {:induction false} ReplyNeedsAnswer(c: Config, s: State, es: seq<Event>, t: State, k: nat)
    requires Run(c, s, es, t) && HasAnswer(t, k)
    ensures HasAnswer(s, k) || HandlerReturns(k, true, true) in es
    decreases |es|
  {
    if es != [] {
      var m := Step(c, s, es[0]);
      ReplyNeedsAnswer(c, m, es[1..], t, k);
      if HandlerReturns(k, true, true) in es[1..] {
        assert HandlerReturns(k, true, true) in es;
      } else if !HasAnswer(s, k) {
        assert es[0] == HandlerReturns(k, true, true);
      }
    }
  }

  /** A goroutine that is already past its second check. */
  predicate PastChecks(w: Worker) { w.Replying? || w.Sending? }

  /** Once the context is cancelled no handler is entered any more, and a reply comes only from a
      goroutine that had passed its second check before. */
  lemma {:induction false} CancelStopsProcessing(c: Config, s: State, es: seq<Event>, t: State, k: nat)
    requires Run(c, s, es, t) && !s.phase.Running?
    ensures !t.phase.Running?
    ensures k in t.workers && t.workers[k].InHandler? ==> k in s.workers && s.workers[k].InHandler?
    ensures k in t.workers && PastChecks(t.workers[k]) ==> k in s.workers && PastChecks(s.workers[k])
    ensures k in t.replies ==> k in s.replies || (k in s.workers && PastChecks(s.workers[k]))
    decreases |es|
  {
    if es != [] {
      CancelStopsProcessing(c, Step(c, s, es[0]), es[1..], t, k);
    }
  }

  // ---- replies after Stop ----

  lemma {:induction false} RunConcat(c: Config, s: State, es: seq<Event>, m: State, more: seq<Event>, t: State)
    requires Run(c, s, es, m) && Run(c, m, more, t)
    ensures Run(c, s, es + more, t)
    decreases |es|
  {
    if es == [] {
      assert es + more == more;
    } else {
      assert (es + more)[1..] == es[1..] + more;
      RunConcat(c, Step(c, s, es[0]), es[1..], m, more, t);
    }
  }

  lemma Then(c: Config, s: State, es: seq<Event>, m: State, e: Event)
    requires Run(c, s, es, m) && Enabled(c, m, e)
    ensures Run(c, s, es + [e], Step(c, m, e))
  {
    assert [e][1..] == [];
    RunConcat(c, s, es, m, [e], Step(c, m, e));
  }

  /** Some run from `s` replies to the frame at position k. */
  ghost predicate CanReply(c: Config, s: State, k: nat) {
    exists es: seq<Event>, t: State :: Run(c, s, es, t) && k in t.replies
  }

  lemma SendingReplies(c: Config, s: State, es: seq<Event>, m: State, k: nat)
    requires Run(c, s, es, m) && !m.fault && k in m.workers && m.workers[k].Sending?
    ensures CanReply(c, s, k)
  {
    Then(c, s, es, m, SendReply(k));
    assert k in Step(c, m, SendReply(k)).replies;
  }

  /** Exactly which replies are still to be reckoned with once the context is cancelled, also when
      Stop has long returned: those of the goroutines that are past their second check. */
  lemma ReplyAfterCancelIff(c: Config, s: State, k: nat)
    requires !s.fault && !s.phase.Running? && k !in s.replies
    ensures CanReply(c, s, k) <==> k in s.workers && PastChecks(s.workers[k])
  {
    if k in s.workers && s.workers[k].Sending? {
      SendingReplies(c, s, [], s, k);
    } else if k in s.workers && s.workers[k].Replying? {
      Then(c, s, [], s, SenderCheck(k, true));
      SendingReplies(c, s, [] + [SenderCheck(k, true)], Step(c, s, SenderCheck(k, true)), k);
    } else if CanReply(c, s, k) {
      var es, t :| Run(c, s, es, t) && k in t.replies;
      CancelStopsProcessing(c, s, es, t, k);
    }
  }

  /** The sender is found running whenever it is asked, and nothing is sent yet. */
  ghost predicate OnlyAsks(es: seq<Event>) {
    forall i | 0 <= i < |es| :: !es[i].SendReply? && (es[i].SenderCheck? ==> es[i].running)
  }

  /** The pump takes one frame and hands it to a goroutine. */
  lemma OneFrame(c: Config, f: Frame) returns (es: seq<Event>, t: State)
    requires c.processor && f.data != [] && f.decoded.Message?
    ensures Run(c, INITIAL, es, t) && !t.fault && t.phase.Running? && t.pump.Checking?
    ensures t.workers == map[0 := Begin] && t.replies == [] && OnlyAsks(es)
  {
    es, t := [], INITIAL;
    Then(c, INITIAL, es, t, Start);
    es, t := es + [Start], Step(c, t, Start);
    Then(c, INITIAL, es, t, Check);
    es, t := es + [Check], Step(c, t, Check);
    Then(c, INITIAL, es, t, Read(f));
    es, t := es + [Read(f)], Step(c, t, Read(f));
    Then(c, INITIAL, es, t, Handle);
    es, t := es + [Handle], Step(c, t, Handle);
    Then(c, INITIAL, es, t, Offer(false));
    es, t := es + [Offer(false)], Step(c, t, Offer(false));
  }

  /** Its goroutine gets an answer from the handler and passes all checks. */
  lemma OneAnswer(c: Config, f: Frame) returns (es: seq<Event>, t: State)
    requires c.processor && c.sender && f.data != [] && f.decoded.Message?
    ensures Run(c, INITIAL, es, t) && !t.fault && t.phase.Running? && t.pump.Checking?
    ensures 0 in t.workers && t.workers[0].Sending? && t.replies == [] && OnlyAsks(es)
  {
    es, t := OneFrame(c, f);
    Then(c, INITIAL, es, t, FirstCheck(0));
    es, t := es + [FirstCheck(0)], Step(c, t, FirstCheck(0));
    Then(c, INITIAL, es, t, HandlerReturns(0, true, true));
    es, t := es + [HandlerReturns(0, true, true)], Step(c, t, HandlerReturns(0, true, true));
    Then(c, INITIAL, es, t, SecondCheck(0));
    es, t := es + [SecondCheck(0)], Step(c, t, SecondCheck(0));
    Then(c, INITIAL, es, t, SenderCheck(0, true));
    es, t := es + [SenderCheck(0, true)], Step(c, t, SenderCheck(0, true));
  }

  /** Stop runs to its end beside a pump that is about to see the cancelled context. */
  lemma StopBetween(c: Config, s: State) returns (es: seq<Event>, t: State)
    requires !s.fault && s.phase.Running? && s.pump.Checking?
    ensures Run(c, s, es, t) && t == s.(phase := ChanClosed, pump := Ended) && OnlyAsks(es)
  {
    es, t := [], s;
    Then(c, s, es, t, Cancel);
    es, t := es + [Cancel], Step(c, t, Cancel);
    Then(c, s, es, t, Check);
    es, t := es + [Check], Step(c, t, Check);
    Then(c, s, es, t, Join);
    es, t := es + [Join], Step(c, t, Join);
    Then(c, s, es, t, CloseChan);
    es, t := es + [CloseChan], Step(c, t, CloseChan);
  }

  /** A run in which Stop has returned, frame k has no reply yet, and a reply is still to come. */
  ghost predicate OutlivesStop(c: Config, es: seq<Event>, stopped: State, k: nat) {
    Run(c, INITIAL, es, stopped) && stopped.phase.ChanClosed? && k !in stopped.replies && CanReply(c, stopped, k)
  }

  lemma {:induction false} NeverPastChecks(c: Config, s: State, es: seq<Event>, t: State)
    requires Run(c, s, es, t) && !(c.processor && c.sender)
    requires forall k | k in s.workers :: c.processor && !PastChecks(s.workers[k])
    ensures forall k | k in t.workers :: !PastChecks(t.workers[k])
    decreases |es|
  {
    if es != [] { NeverPastChecks(c, Step(c, s, es[0]), es[1..], t); }
  }

  /** Stop, which waits for the pump only, can return before a reply is sent if and only if there is
      anything to reply with: a processor and a sender. */
  lemma ReplyOutlivesStop(c: Config)
    ensures (exists es, stopped, k :: OutlivesStop(c, es, stopped, k)) <==> c.processor && c.sender
  {
    if c.processor && c.sender {
      var es, s := OneAnswer(c, Frame([0], Message(0)));
      var more, stopped := StopBetween(c, s);
      RunConcat(c, INITIAL, es, s, more, stopped);
      ReplyAfterCancelIff(c, stopped, 0);
      assert OutlivesStop(c, es + more, stopped, 0);
    } else if exists es, stopped, k :: OutlivesStop(c, es, stopped, k) {
      var es, stopped, k :| OutlivesStop(c, es, stopped, k);
      NeverPastChecks(c, INITIAL, es, stopped);
      AccountedRun(c, INITIAL, es, stopped);
      ReplyAfterCancelIff(c, stopped, k);
    }
  }
}
