/** The WebSocket send pump of queue/message_sender.go as interleaved steps of its callers, of the
    pump goroutine and of Stop.  A `select` with several ready cases is a choice between events;
    ticks, timeouts and write errors may come at any moment. */
module Sender {
  import opened Options

  type Msg = seq<bv8>

  const CAPACITY: nat := 256

  datatype Frame = Data(m: Msg) | Ping | Close

  datatype Pump = NotStarted | Selecting | Holding(m: Msg) | Ended

  /** How far `Stop` has come. */
  datatype Phase = Running | Cancelled | TickerStopped | ChanClosed | Stopped

  /** `checked`: callers whose `IsRunning` answered true; `senders`: callers inside the select of
      `SendRawBytes`; `accepted`, `written`, `lost`: histories; `fault`: a send on the closed channel. */
  datatype State = State(pump: Pump, phase: Phase, buf: seq<Msg>, checked: set<nat>, senders: map<nat, Msg>,
                         accepted: seq<Msg>, written: seq<Frame>, lost: seq<Msg>, fault: bool)

  datatype Event =
    | Start
    | IsRunning(k: nat)
    | Call(k: nat, m: Msg)
    | Send(k: nat)          // the channel case of SendRawBytes
    | Refuse(k: nat)        // its context case
    | Timeout(k: nat)       // its timer case
    | Take                  // the pump receives a message
    | Write(ok: bool)       // and writes it
    | Tick(ok: bool)        // the pump writes a ping
    | SeeCancel             // the pump's context case
    | SeeClosed(ok: bool)   // the channel is closed and drained: a Close frame, its error ignored
    | Cancel | StopTicker | CloseChan | Join  // the statements of Stop

  predicate IsClosed(s: State) { s.phase.ChanClosed? || s.phase.Stopped? }

  const INITIAL := State(NotStarted, Running, [], {}, map[], [], [], [], false)

  predicate Enabled(s: State, e: Event) {
    && !s.fault
    && match e
       case Start => s.pump.NotStarted?
       case IsRunning(_) => s.phase.Running?
       case Call(k, _) => k !in s.senders
       case Send(k) => k in s.senders && (IsClosed(s) || |s.buf| < CAPACITY)
       case Refuse(k) => k in s.senders && !s.phase.Running?
       case Timeout(k) => k in s.senders
       case Take => s.pump.Selecting? && s.buf != []
       case Write(_) => s.pump.Holding?
       case Tick(_) => s.pump.Selecting?
       case SeeCancel => s.pump.Selecting? && !s.phase.Running?
       case SeeClosed(_) => s.pump.Selecting? && IsClosed(s) && s.buf == []
       case Cancel => s.phase.Running?
       case StopTicker => s.phase.Cancelled?
       case CloseChan => s.phase.TickerStopped?
       case Join => s.phase.ChanClosed? && (s.pump.Ended? || s.pump.NotStarted?)
  }

  function Step(s: State, e: Event): State
    requires Enabled(s, e)
  {
    match e
    case Start => s.(pump := Selecting)
    case IsRunning(k) => s.(checked := s.checked + {k})
    case Call(k, m) => s.(senders := s.senders[k := m])
    case Send(k) =>
      if IsClosed(s) then s.(fault := true)
      else s.(senders := s.senders - {k}, buf := s.buf + [s.senders[k]], accepted := s.accepted + [s.senders[k]])
    case Refuse(k) => s.(senders := s.senders - {k})
    case Timeout(k) => s.(senders := s.senders - {k})
    case Take => s.(pump := Holding(s.buf[0]), buf := s.buf[1..])
    case Write(ok) =>
      if ok then s.(pump := Selecting, written := s.written + [Data(s.pump.m)])
      else s.(pump := Ended, lost := [s.pump.m])
    case Tick(ok) => if ok then s.(written := s.written + [Ping]) else s.(pump := Ended)
    case SeeCancel => s.(pump := Ended)
    case SeeClosed(ok) => s.(pump := Ended, written := if ok then s.written + [Close] else s.written)
    case Cancel => s.(phase := Cancelled)
    case StopTicker => s.(phase := TickerStopped)
    case CloseChan => s.(phase := ChanClosed)
    case Join => s.(phase := Stopped)
  }

  ghost predicate Run(s: State, es: seq<Event>, t: State)
    decreases |es|
  {
    if es == [] then t == s else Enabled(s, es[0]) && Run(Step(s, es[0]), es[1..], t)
  }

  // ---- conservation and the close frame ----

  /** The messages of the data frames, in the order they were written. */
  function DataOf(fs: seq<Frame>): seq<Msg> {
    if fs == [] then []
    else DataOf(fs[..|fs| - 1]) + (if fs[|fs| - 1].Data? then [fs[|fs| - 1].m] else [])
  }

  /** The message that the pump has taken from the channel and not written. */
  function InHand(s: State): seq<Msg> {
    if s.pump.Holding? then [s.pump.m] else s.lost
  }

  ghost predicate Conserved(s: State) {
    && s.accepted == DataOf(s.written) + InHand(s) + s.buf
    && |InHand(s)| <= 1
    && (s.lost != [] ==> s.pump.Ended?)
    && |s.buf| <= CAPACITY
  }

  /** A Close frame, if there is one, came last, after the channel was closed and drained. */
  ghost predicate CloseIsLast(s: State) {
    forall i | 0 <= i < |s.written| && s.written[i].Close? ::
      i == |s.written| - 1 && s.pump.Ended? && IsClosed(s) && InHand(s) == [] && s.buf == []
  }

  lemma AppendFrame(fs: seq<Frame>, f: Frame)
    ensures DataOf(fs + [f]) == if f.Data? then DataOf(fs) + [f.m] else DataOf(fs)
  {
    assert (fs + [f])[..|fs|] == fs;
  }

  lemma Regroup(out: seq<Msg>, buf: seq<Msg>, m: Msg)
    ensures out + buf + [m] == out + (buf + [m])
    ensures out + [] + ([m] + buf) == out + [m] + buf == out + [m] + [] + buf
  {}

  lemma ConservedSend(s: State, e: Event)
    requires Conserved(s) && Enabled(s, e) && e.Send?
    ensures Conserved(Step(s, e))
  {
    Regroup(DataOf(s.written) + InHand(s), s.buf, s.senders[e.k]);
  }

  lemma ConservedTake(s: State)
    requires Conserved(s) && Enabled(s, Take)
    ensures Conserved(Step(s, Take))
  {
    assert InHand(s) == [] && s.buf == [s.buf[0]] + s.buf[1..];
    Regroup(DataOf(s.written), s.buf[1..], s.buf[0]);
  }

  lemma ConservedWrite(s: State, e: Event)
    requires Conserved(s) && Enabled(s, e) && e.Write?
    ensures Conserved(Step(s, e))
  {
    AppendFrame(s.written, Data(s.pump.m));
    Regroup(DataOf(s.written), s.buf, s.pump.m);
  }

  /** A frame without data changes nothing. */
  lemma ConservedControl(s: State, e: Event)
    requires Conserved(s) && Enabled(s, e) && (e.Tick? || e.SeeClosed?)
    ensures Conserved(Step(s, e))
  {
    var t := Step(s, e);
    AppendFrame(s.written, if e.Tick? then Ping else Close);
    assert DataOf(t.written) == DataOf(s.written);
    assert InHand(t) == InHand(s) && t.buf == s.buf && t.accepted == s.accepted;
  }

  lemma ConservedStep(s: State, e: Event)
    requires Conserved(s) && Enabled(s, e)
    ensures Conserved(Step(s, e))
  {
    match e
    case Send(_) => ConservedSend(s, e);
    case Take => ConservedTake(s);
    case Write(_) => ConservedWrite(s, e);
    case Tick(_) => ConservedControl(s, e);
    case SeeClosed(_) => ConservedControl(s, e);
    case _ =>
  }

  lemma CloseIsLastStep(s: State, e: Event)
    requires Conserved(s) && CloseIsLast(s) && Enabled(s, e)
    ensures CloseIsLast(Step(s, e))
  {}

  lemma {:induction false} ConservedRun(s: State, es: seq<Event>, t: State)
    requires Conserved(s) && CloseIsLast(s) && Run(s, es, t)
    ensures Conserved(t) && CloseIsLast(t)
    decreases |es|
  {
    if es != [] {
      ConservedStep(s, es[0]);
      CloseIsLastStep(s, es[0]);
      ConservedRun(Step(s, es[0]), es[1..], t);
    }
  }

  /** Conservation and order: in every reachable state the accepted messages are, in acceptance
      order, those written, then at most one taken but not written, then at most 256 buffered. */
  lemma Conservation(es: seq<Event>, t: State)
    requires Run(INITIAL, es, t)
    ensures t.accepted == DataOf(t.written) + InHand(t) + t.buf
    ensures |InHand(t)| <= 1 && |t.buf| <= CAPACITY
  {
    ConservedRun(INITIAL, es, t);
  }

  lemma ClosedDrained(s: State, i: nat)
    requires Conserved(s) && CloseIsLast(s) && i < |s.written| && s.written[i].Close?
    ensures i == |s.written| - 1 && s.pump.Ended? && IsClosed(s) && DataOf(s.written[..i]) == s.accepted
  {
    assert s.written == s.written[..i] + [Close];
    AppendFrame(s.written[..i], Close);
    var out := DataOf(s.written);
    assert out + [] + [] == out;
  }

  /** When a call cannot go on: with the channel open, exactly while 256 accepted messages wait for the
      pump. */
  lemma SendBlocksIff(es: seq<Event>, t: State, k: nat)
    requires Run(INITIAL, es, t) && !t.fault && !IsClosed(t) && k in t.senders
    ensures Enabled(t, Send(k)) <==> |t.accepted| - |DataOf(t.written)| - |InHand(t)| < 256
  {
    ConservedRun(INITIAL, es, t);
  }

  /** Close-frame meaning: a Close frame is the last frame ever written, and it says that every
      accepted message, now and for the rest of the run, was written before it and in order. */
  lemma CloseFrameMeaning(es: seq<Event>, s: State, more: seq<Event>, t: State, i: nat)
    requires Run(INITIAL, es, s) && Run(s, more, t)
    requires i < |s.written| && s.written[i].Close?
    ensures i == |s.written| - 1 && t.written == s.written
    ensures DataOf(s.written[..i]) == t.accepted == s.accepted
  {
    ConservedRun(INITIAL, es, s);
    ClosedDrained(s, i);
    AfterClose(s, more, t);
  }

  /** A failed write, a failed ping, a seen cancellation and the closed channel each end the pump:
      no frame is written after them. */
  lemma EndedPumpIsSilent(s: State, e: Event, es: seq<Event>, t: State)
    requires Enabled(s, e) && Run(Step(s, e), es, t)
    requires e == Write(false) || e == Tick(false) || e.SeeCancel? || e.SeeClosed?
    ensures t.written == Step(s, e).written && t.pump.Ended?
  {
    StaysEnded(Step(s, e), es, t);
  }

  lemma {:induction false} StaysEnded(s: State, es: seq<Event>, t: State)
    requires Run(s, es, t) && s.pump.Ended?
    ensures t.written == s.written && t.pump.Ended?
    decreases |es|
  {
    if es != [] { StaysEnded(Step(s, es[0]), es[1..], t); }
  }

  /** Once the pump has ended it writes nothing more, and once the channel is closed as well
      nothing more is accepted. */
  lemma {:induction false} AfterClose(s: State, es: seq<Event>, t: State)
    requires Run(s, es, t) && s.pump.Ended? && IsClosed(s)
    ensures t.written == s.written && t.accepted == s.accepted
    decreases |es|
  {
    if es != [] {
      AfterClose(Step(s, es[0]), es[1..], t);
    }
  }

  /** Stop returns only when no pump is running. */
  lemma {:induction false} StopJoinsPump(s: State, es: seq<Event>, t: State)
    requires Run(s, es, t) && t.phase.Stopped?
    requires s.phase.Stopped? ==> s.pump.Ended?
    requires !s.pump.NotStarted?
    ensures t.pump.Ended?
    decreases |es|
  {
    if es != [] { StopJoinsPump(Step(s, es[0]), es[1..], t); }
  }

  // ---- what the events leave behind ----

  datatype Kind = DataKind | PingKind | CloseKind

  function KindOf(f: Frame): Kind {
    match f
    case Data(_) => DataKind
    case Ping => PingKind
    case Close => CloseKind
  }

  function Kinds(fs: seq<Frame>): seq<Kind> { seq(|fs|, i requires 0 <= i < |fs| => KindOf(fs[i])) }

  /** The frames that the successful writes of a run put on the connection. */
  function WritesOf(es: seq<Event>): seq<Kind> {
    if es == [] then []
    else
      (match es[0]
       case Write(ok) => if ok then [DataKind] else []
       case Tick(ok) => if ok then [PingKind] else []
       case SeeClosed(ok) => if ok then [CloseKind] else []
       case _ => [])
      + WritesOf(es[1..])
  }

  /** Every successful write leaves its frame: data, ping or close, in the order of the events. */
  lemma {:induction false} FramesWritten(s: State, es: seq<Event>, t: State)
    requires Run(s, es, t)
    ensures Kinds(t.written) == Kinds(s.written) + WritesOf(es)
    decreases |es|
  {
    if es != [] {
      var m := Step(s, es[0]);
      FramesWritten(m, es[1..], t);
      assert Kinds(m.written) == Kinds(s.written) + WritesOf([es[0]]) by { OneWrite(s, es[0]); }
      assert WritesOf(es) == WritesOf([es[0]]) + WritesOf(es[1..]);
    }
  }

  lemma OneWrite(s: State, e: Event)
    requires Enabled(s, e)
    ensures Kinds(Step(s, e).written) == Kinds(s.written) + WritesOf([e])
  {
    assert [e][1..] == [];
  }

  lemma {:induction false} CloseInWrites(es: seq<Event>)
    ensures CloseKind in WritesOf(es) <==> SeeClosed(true) in es
    decreases |es|
  {
    if es != [] { CloseInWrites(es[1..]); }
  }

  /** A Close frame is written if and only if the pump came to the closed and drained channel and the
      write succeeded. */
  lemma CloseWrittenIff(es: seq<Event>, t: State)
    requires Run(INITIAL, es, t)
    ensures Close in t.written <==> SeeClosed(true) in es
  {
    FramesWritten(INITIAL, es, t);
    CloseInWrites(es);
    assert Kinds(INITIAL.written) + WritesOf(es) == WritesOf(es);
    CloseInKinds(t.written);
  }

  lemma CloseInKinds(fs: seq<Frame>)
    ensures CloseKind in Kinds(fs) <==> Close in fs
  {
    if Close in fs {
      var i :| 0 <= i < |fs| && fs[i] == Close;
      assert Kinds(fs)[i] == CloseKind;
    }
  }

  /** The message that caller k is trying to send after these events, if any. */
  function Outstanding(es: seq<Event>, k: nat): Option<Msg> {
    if es == [] then None
    else
      var before, e := Outstanding(es[..|es| - 1], k), es[|es| - 1];
      match e
      case Call(j, m) => if j == k then Some(m) else before
      case Send(j) => if j == k then None else before
      case Refuse(j) => if j == k then None else before
      case Timeout(j) => if j == k then None else before
      case _ => before
  }

  /** The messages of the sends, in order, each as its caller gave it. */
  function SentBy(es: seq<Event>): seq<Msg> {
    if es == [] then []
    else
      var before, e := es[..|es| - 1], es[|es| - 1];
      SentBy(before) + (if e.Send? && Outstanding(before, e.k).Some? then [Outstanding(before, e.k).value] else [])
  }

  lemma {:induction false} RunSplit(s: State, es: seq<Event>, t: State) returns (m: State)
    requires Run(s, es, t) && es != []
    ensures Run(s, es[..|es| - 1], m) && Enabled(m, es[|es| - 1]) && t == Step(m, es[|es| - 1])
    decreases |es|
  {
    if |es| == 1 {
      m := s;
      assert es[1..] == [];
    } else {
      m := RunSplit(Step(s, es[0]), es[1..], t);
      assert es[1..][..|es| - 2] == es[..|es| - 1][1..];
    }
  }

  /** What is accepted is what was sent: in every run the accepted messages are those that the callers
      gave, in the order of their sends; and a call is in progress exactly from its begin to its send,
      refusal or timeout. */
  lemma {:induction false} AcceptedAsGiven(es: seq<Event>, t: State)
    requires Run(INITIAL, es, t) && !t.fault
    ensures t.accepted == SentBy(es)
    ensures forall k: nat :: Outstanding(es, k) == if k in t.senders then Some(t.senders[k]) else None
    decreases |es|
  {
    if es != [] {
      var m := RunSplit(INITIAL, es, t);
      AcceptedAsGiven(es[..|es| - 1], m);
    }
  }

  // ---- an orderly end ----

  function Frames(ms: seq<Msg>): seq<Frame> { seq(|ms|, i requires 0 <= i < |ms| => Data(ms[i])) }

  /** What is left to do until Stop has closed the channel and the pump has drained it. */
  function ToDo(s: State): nat {
    ToClosing(s.phase) + 2 * |s.buf| + if s.pump.Holding? then 1 else 0
  }

  predicate Live(pump: Pump) { pump.Selecting? || pump.Holding? }

  /** On the way to the closed and drained channel. */
  ghost predicate Draining(s: State) {
    Conserved(s) && !s.fault && Live(s.pump) && s.senders == map[]
  }

  /** All that is or will be on the connection when the rest is written. */
  function Eventually(s: State): seq<Frame> { s.written + Frames(InHand(s) + s.buf) }

  lemma FramesFirst(m: Msg, rest: seq<Msg>)
    ensures Frames([m] + rest) == [Data(m)] + Frames(rest)
  {}

  lemma DrainWrite(s: State)
    requires Draining(s) && s.pump.Holding?
    ensures Draining(Step(s, Write(true))) && Eventually(Step(s, Write(true))) == Eventually(s)
  {
    ConservedWrite(s, Write(true));
    FramesFirst(s.pump.m, s.buf);
    assert InHand(Step(s, Write(true))) == [] && [] + s.buf == s.buf;
    assert s.written + [Data(s.pump.m)] + Frames(s.buf) == s.written + ([Data(s.pump.m)] + Frames(s.buf));
  }

  lemma DrainTake(s: State)
    requires Draining(s) && s.pump.Selecting? && s.buf != []
    ensures Draining(Step(s, Take)) && Eventually(Step(s, Take)) == Eventually(s)
  {
    ConservedTake(s);
    assert InHand(s) == [] && [] + s.buf == [s.buf[0]] + s.buf[1..];
  }

  /** One step of Stop or of the pump. */
  lemma DrainStep(s: State) returns (e: Event)
    requires Draining(s) && ToDo(s) > 0
    ensures Enabled(s, e) && !e.Call? && Draining(Step(s, e)) && ToDo(Step(s, e)) < ToDo(s)
    ensures Step(s, e).accepted == s.accepted && Eventually(Step(s, e)) == Eventually(s)
  {
    if !IsClosed(s) {
      e := StopNext(s);
    } else if s.pump.Holding? {
      e := Write(true);
      DrainWrite(s);
    } else {
      e := Take;
      DrainTake(s);
    }
  }

  lemma {:induction false} DrainAll(s: State) returns (es: seq<Event>, t: State)
    requires Draining(s)
    ensures Run(s, es, t) && NoNewCalls(es) && IsClosed(t) && t.pump.Selecting? && t.buf == [] && !t.fault
    ensures t.written == Eventually(s) && t.accepted == s.accepted
    decreases ToDo(s)
  {
    if ToDo(s) == 0 {
      es, t := [], s;
      assert InHand(s) + s.buf == [] && s.written + [] == s.written;
    } else {
      var e := DrainStep(s);
      es, t := DrainAll(Step(s, e));
      assert ([e] + es)[1..] == es;
      es := [e] + es;
    }
  }

  /** Stop can always end in order: from every state of a run with a live pump and no send in progress,
      some run of Stop ends with everything accepted written, in order, and then the Close frame. */
  lemma OrderlyEnd(es: seq<Event>, s: State) returns (more: seq<Event>, t: State)
    requires Run(INITIAL, es, s) && !s.fault && Live(s.pump) && s.senders == map[]
    ensures Run(s, more, t) && NoNewCalls(more) && t.phase.Stopped? && t.pump.Ended? && !t.fault
    ensures t.written == s.written + Frames(InHand(s) + s.buf) + [Close]
    ensures DataOf(t.written) == t.accepted == s.accepted
  {
    ConservedRun(INITIAL, es, s);
    var es1, m := DrainAll(s);
    ConservedRun(s, es1, m);
    var es2;
    es2, t := CloseAndJoin(m);
    RunConcat(s, es1, m, es2, t);
    more := es1 + es2;
  }

  /** The pump finds the channel closed and drained, and Stop has waited for it. */
  lemma CloseAndJoin(s: State) returns (es: seq<Event>, t: State)
    requires Conserved(s) && !s.fault && IsClosed(s) && s.pump.Selecting? && s.buf == []
    ensures Run(s, es, t) && NoNewCalls(es) && t.phase.Stopped? && t.pump.Ended? && !t.fault
    ensures t.written == s.written + [Close] && DataOf(t.written) == t.accepted == s.accepted
  {
    t := Step(s, SeeClosed(true));
    AppendFrame(s.written, Close);
    assert DataOf(s.written) + [] + [] == DataOf(s.written);
    es := [SeeClosed(true)];
    assert es[1..] == [];
    if s.phase.ChanClosed? {
      t := Step(t, Join);
      es := [SeeClosed(true), Join];
      assert es[1..] == [Join] && es[1..][1..] == [];
      assert Run(Step(s, SeeClosed(true)), [Join], t);
    }
  }

  lemma {:induction false} RunConcat(s: State, es: seq<Event>, m: State, more: seq<Event>, t: State)
    requires Run(s, es, m) && Run(m, more, t)
    ensures Run(s, es + more, t)
    decreases |es|
  {
    if es == [] {
      assert es + more == more;
    } else {
      assert (es + more)[1..] == es[1..] + more;
      RunConcat(Step(s, es[0]), es[1..], m, more, t);
    }
  }

  // ---- sends on the closed channel ----

  /** The discipline of callers: no send is in progress when Stop begins, and none begins after. */
  predicate Polite(s: State, e: Event) {
    && (e.Cancel? ==> s.senders == map[])
    && (e.Call? ==> s.phase.Running?)
  }

  ghost predicate PoliteRun(s: State, es: seq<Event>)
    decreases |es|
  {
    es == [] || (Enabled(s, es[0]) && Polite(s, es[0]) && PoliteRun(Step(s, es[0]), es[1..]))
  }

  /** If every `SendRawBytes` returns before Stop begins, no run sends on the closed channel. */
  lemma {:induction false} PoliteCallersAreSafe(s: State, es: seq<Event>, t: State)
    requires Run(s, es, t) && PoliteRun(s, es)
    requires !s.fault && (!s.phase.Running? ==> s.senders == map[])
    ensures !t.fault
    decreases |es|
  {
    if es != [] {
      assert !Step(s, es[0]).fault;
      PoliteCallersAreSafe(Step(s, es[0]), es[1..], t);
    }
  }

  ghost predicate NoNewCalls(es: seq<Event>) {
    forall i | 0 <= i < |es| :: !es[i].Call?
  }

  /** The statement of Stop that comes next, up to the closing of the channel. */
  function StopNext(s: State): Event
    requires !IsClosed(s)
  {
    match s.phase
    case Running => Cancel
    case Cancelled => StopTicker
    case TickerStopped => CloseChan
  }

  function ToClosing(p: Phase): nat {
    match p
    case Running => 3
    case Cancelled => 2
    case TickerStopped => 1
    case _ => 0
  }

  /** Stop goes on to close the channel under a call that is in progress, which then sends on it. */
  lemma {:induction false} StopFaults(s: State, k: nat) returns (es: seq<Event>, t: State)
    requires !s.fault && k in s.senders
    ensures Run(s, es, t) && NoNewCalls(es) && t.fault
    decreases ToClosing(s.phase)
  {
    var e := if IsClosed(s) then Send(k) else StopNext(s);
    var s' := Step(s, e);
    es, t := [], s';
    if !IsClosed(s) { es, t := StopFaults(s', k); }
    assert ([e] + es)[1..] == es;
    es := [e] + es;
  }

  /** Exactly when the fault is to be reckoned with: from any state, whether Stop has begun or not,
      and without new calls, it is reachable if and only if a call is in progress. */
  lemma FaultIffSendInProgress(s: State)
    requires !s.fault
    ensures (exists es, t :: Run(s, es, t) && NoNewCalls(es) && t.fault) <==> s.senders != map[]
  {
    if s.senders != map[] {
      var k :| k in s.senders;
      var es, t := StopFaults(s, k);
      assert Run(s, es, t);
    } else {
      forall es, t | Run(s, es, t) && NoNewCalls(es) ensures !t.fault {
        NobodySends(s, es, t);
      }
    }
  }

  lemma {:induction false} NobodySends(s: State, es: seq<Event>, t: State)
    requires Run(s, es, t) && NoNewCalls(es) && s.senders == map[] && !s.fault
    ensures !t.fault
    decreases |es|
  {
    if es != [] {
      assert !es[0].Call?;
      assert forall i | 0 <= i < |es[1..]| :: es[1..][i] == es[i + 1];
      NobodySends(Step(s, es[0]), es[1..], t);
    }
  }

  /** Every call is made by a caller that has seen `IsRunning` answer true. */
  ghost predicate Guarded(s: State, es: seq<Event>)
    decreases |es|
  {
    es == [] || (Enabled(s, es[0]) && (es[0].Call? ==> es[0].k in s.checked) && Guarded(Step(s, es[0]), es[1..]))
  }

  lemma Prepend(s: State, e: Event, es: seq<Event>, t: State)
    requires Enabled(s, e) && (e.Call? ==> e.k in s.checked)
    requires Run(Step(s, e), es, t) && Guarded(Step(s, e), es)
    ensures Run(s, [e] + es, t) && Guarded(s, [e] + es)
  {
    assert ([e] + es)[1..] == es;
  }

  /** Checking `IsRunning` first, as the receiver does before a reply, does not rule the fault out:
      Stop may run between the check and the send. */
  lemma CheckIsNotEnough(m: Msg) returns (es: seq<Event>, t: State)
    ensures Run(INITIAL, es, t) && Guarded(INITIAL, es) && t.fault
  {
    var s1 := Step(INITIAL, IsRunning(0));
    var s2 := Step(s1, Cancel);
    var s3 := Step(s2, StopTicker);
    var s4 := Step(s3, CloseChan);
    var s5 := Step(s4, Call(0, m));
    t := Step(s5, Send(0));
    es := [];
    Prepend(s5, Send(0), es, t);
    es := [Send(0)] + es;
    Prepend(s4, Call(0, m), es, t);
    es := [Call(0, m)] + es;
    Prepend(s3, CloseChan, es, t);
    es := [CloseChan] + es;
    Prepend(s2, StopTicker, es, t);
    es := [StopTicker] + es;
    Prepend(s1, Cancel, es, t);
    es := [Cancel] + es;
    Prepend(INITIAL, IsRunning(0), es, t);
    es := [IsRunning(0)] + es;
  }
}
