/** A receiver and the sender that it replies through, joined: the goroutines of
    queue/message_revice.go ask `IsRunning` and enter `SendRawBytes` of queue/message_sender.go.  Which
    replies can still hit the closed channel when the receiver is stopped first and the sender next. */
module Shutdown {
  import Receiver
  import Sender

  datatype State = State(r: Receiver.State, s: Sender.State)

  datatype Event =
    | OfReceiver(re: Receiver.Event)
    | OfSender(se: Sender.Event)
    | Ask(k: nat)                  // goroutine k asks the sender whether it is running
    | Reply(k: nat, m: Sender.Msg) // and enters SendRawBytes

  const INITIAL := State(Receiver.INITIAL, Sender.INITIAL)

  predicate Enabled(c: Receiver.Config, x: State, e: Event) {
    && !x.s.fault
    && match e
       case OfReceiver(re) => !re.SenderCheck? && !re.SendReply? && Receiver.Enabled(c, x.r, re)
       case OfSender(se) => Sender.Enabled(x.s, se)
       case Ask(k) => Receiver.Enabled(c, x.r, Receiver.SenderCheck(k, x.s.phase.Running?))
       case Reply(k, m) => Receiver.Enabled(c, x.r, Receiver.SendReply(k)) && Sender.Enabled(x.s, Sender.Call(k, m))
  }

  function Step(c: Receiver.Config, x: State, e: Event): State
    requires Enabled(c, x, e)
  {
    match e
    case OfReceiver(re) => x.(r := Receiver.Step(c, x.r, re))
    case OfSender(se) => x.(s := Sender.Step(x.s, se))
    case Ask(k) =>
      State(Receiver.Step(c, x.r, Receiver.SenderCheck(k, x.s.phase.Running?)),
            if x.s.phase.Running? then Sender.Step(x.s, Sender.IsRunning(k)) else x.s)
    case Reply(k, m) =>
      State(Receiver.Step(c, x.r, Receiver.SendReply(k)), Sender.Step(x.s, Sender.Call(k, m)))
  }

  ghost predicate Run(c: Receiver.Config, x: State, es: seq<Event>, y: State)
    decreases |es|
  {
    if es == [] then y == x else Enabled(c, x, es[0]) && Run(c, Step(c, x, es[0]), es[1..], y)
  }

  /** A joint run is a run of the receiver and a run of the sender, so what was proved of either holds
      here. */
  lemma {:induction false} Projects(c: Receiver.Config, x: State, es: seq<Event>, y: State)
      returns (res: seq<Receiver.Event>, ses: seq<Sender.Event>)
    requires Run(c, x, es, y)
    ensures Receiver.Run(c, x.r, res, y.r) && Sender.Run(x.s, ses, y.s)
    decreases |es|
  {
    res, ses := [], [];
    if es != [] {
      res, ses := Projects(c, Step(c, x, es[0]), es[1..], y);
      match es[0]
      case OfReceiver(re) => res := Before(c, x.r, re, res, y.r);
      case OfSender(se) => ses := SenderBefore(x.s, se, ses, y.s);
      case Ask(k) =>
        res := Before(c, x.r, Receiver.SenderCheck(k, x.s.phase.Running?), res, y.r);
        if x.s.phase.Running? { ses := SenderBefore(x.s, Sender.IsRunning(k), ses, y.s); }
      case Reply(k, m) =>
        res := Before(c, x.r, Receiver.SendReply(k), res, y.r);
        ses := SenderBefore(x.s, Sender.Call(k, m), ses, y.s);
    }
  }

  lemma Before(c: Receiver.Config, r: Receiver.State, e: Receiver.Event, es: seq<Receiver.Event>, t: Receiver.State)
      returns (all: seq<Receiver.Event>)
    requires Receiver.Enabled(c, r, e) && Receiver.Run(c, Receiver.Step(c, r, e), es, t)
    ensures Receiver.Run(c, r, all, t)
  {
    all := [e] + es;
    assert all[1..] == es;
  }

  lemma SenderBefore(s: Sender.State, e: Sender.Event, es: seq<Sender.Event>, t: Sender.State)
      returns (all: seq<Sender.Event>)
    requires Sender.Enabled(s, e) && Sender.Run(Sender.Step(s, e), es, t)
    ensures Sender.Run(s, all, t)
  {
    all := [e] + es;
    assert all[1..] == es;
  }

  /** The receiver's part keeps its promises in every joint run, and the sender conserves messages. */
  lemma JointSafety(c: Receiver.Config, es: seq<Event>, y: State)
    requires Run(c, INITIAL, es, y)
    ensures !y.r.fault
    ensures forall i, j | 0 <= i < j < |y.r.replies| :: y.r.replies[i] != y.r.replies[j]
    ensures y.s.accepted == Sender.DataOf(y.s.written) + Sender.InHand(y.s) + y.s.buf
  {
    var res, ses := Projects(c, INITIAL, es, y);
    Receiver.NeverSendsOnClosed(c, res, y.r);
    Receiver.AtMostOneReply(c, res, y.r);
    Sender.Conservation(ses, y.s);
  }

  // ---- stopping the receiver first ----

  /** Nobody but the receiver's goroutines calls the sender. */
  ghost predicate OnlyReplies(es: seq<Event>) {
    forall i | 0 <= i < |es| :: !(es[i].OfSender? && es[i].se.Call?)
  }

  ghost predicate CanFault(c: Receiver.Config, x: State) {
    exists es: seq<Event>, y: State :: Run(c, x, es, y) && OnlyReplies(es) && y.s.fault
  }

  /** A goroutine that will enter `SendRawBytes`, or may. */
  predicate Threatens(x: State, k: nat) {
    k in x.r.workers && (x.r.workers[k].Sending? || (x.r.workers[k].Replying? && x.s.phase.Running?))
  }

  ghost predicate Endangered(x: State) {
    x.s.senders != map[] || exists k :: Threatens(x, k)
  }

  /** Without a call in progress, and with no new one, the sender by itself does no harm. */
  lemma SenderAlone(s: Sender.State, e: Sender.Event)
    requires Sender.Enabled(s, e) && s.senders == map[] && !e.Call?
    ensures Sender.Step(s, e).senders == map[] && !Sender.Step(s, e).fault
    ensures Sender.Step(s, e).phase.Running? ==> s.phase.Running?
  {}

  /** After the cancellation no further goroutine passes its second check. */
  lemma ReceiverAlone(c: Receiver.Config, r: Receiver.State, e: Receiver.Event, k: nat)
    requires Receiver.Enabled(c, r, e) && !r.phase.Running? && !e.SenderCheck?
    ensures var t := Receiver.Step(c, r, e);
            && !t.phase.Running?
            && (k in t.workers && t.workers[k].Sending? ==> k in r.workers && r.workers[k].Sending?)
            && (k in t.workers && t.workers[k].Replying? ==> k in r.workers && r.workers[k].Replying?)
  {}

  lemma HarmlessStep(c: Receiver.Config, x: State, e: Event)
    requires Enabled(c, x, e) && !x.r.phase.Running? && !Endangered(x) && !(e.OfSender? && e.se.Call?)
    ensures var y := Step(c, x, e); !y.r.phase.Running? && !Endangered(y) && !y.s.fault
  {
    var y := Step(c, x, e);
    if e.Ask? || e.Reply? { assert !Threatens(x, e.k); }
    if e.OfSender? { SenderAlone(x.s, e.se); }
    forall k ensures !Threatens(y, k) {
      assert !Threatens(x, k);
      if e.OfReceiver? { ReceiverAlone(c, x.r, e.re, k); }
    }
    assert y.s.senders == map[];
  }

  lemma {:induction false} HarmlessRun(c: Receiver.Config, x: State, es: seq<Event>, y: State)
    requires Run(c, x, es, y) && OnlyReplies(es) && !x.r.phase.Running? && !Endangered(x) && !x.s.fault
    ensures !y.s.fault
    decreases |es|
  {
    if es != [] {
      HarmlessStep(c, x, es[0]);
      assert forall i | 0 <= i < |es[1..]| :: es[1..][i] == es[i + 1];
      HarmlessRun(c, Step(c, x, es[0]), es[1..], y);
    }
  }

  lemma Prepend(c: Receiver.Config, x: State, e: Event, es: seq<Event>, y: State)
    requires Enabled(c, x, e) && Run(c, Step(c, x, e), es, y)
    ensures Run(c, x, [e] + es, y)
  {
    assert ([e] + es)[1..] == es;
  }

  /** What the sender can do by itself it can do here. */
  lemma {:induction false} LiftSender(c: Receiver.Config, x: State, ses: seq<Sender.Event>, t: Sender.State) returns (es: seq<Event>)
    requires Sender.Run(x.s, ses, t) && Sender.NoNewCalls(ses)
    ensures Run(c, x, es, x.(s := t)) && OnlyReplies(es)
    decreases |ses|
  {
    es := [];
    if ses != [] {
      assert !ses[0].Call?;
      assert forall i | 0 <= i < |ses[1..]| :: ses[1..][i] == ses[i + 1];
      var e := OfSender(ses[0]);
      es := LiftSender(c, Step(c, x, e), ses[1..], t);
      Prepend(c, x, e, es, x.(s := t));
      es := [e] + es;
    }
  }

  lemma CallInProgressFaults(c: Receiver.Config, x: State) returns (es: seq<Event>, y: State)
    requires !x.s.fault && x.s.senders != map[]
    ensures Run(c, x, es, y) && OnlyReplies(es) && y.s.fault
  {
    var k :| k in x.s.senders;
    var ses, t := Sender.StopFaults(x.s, k);
    es := LiftSender(c, x, ses, t);
    y := x.(s := t);
  }

  lemma SendingFaults(c: Receiver.Config, x: State, k: nat) returns (es: seq<Event>, y: State)
    requires !x.s.fault && !x.r.fault && x.s.senders == map[] && k in x.r.workers && x.r.workers[k].Sending?
    ensures Run(c, x, es, y) && OnlyReplies(es) && y.s.fault
  {
    var e := Reply(k, []);
    es, y := CallInProgressFaults(c, Step(c, x, e));
    Prepend(c, x, e, es, y);
    es := [e] + es;
  }

  lemma ThreatFaults(c: Receiver.Config, x: State, k: nat) returns (es: seq<Event>, y: State)
    requires !x.s.fault && !x.r.fault && x.s.senders == map[] && Threatens(x, k)
    ensures Run(c, x, es, y) && OnlyReplies(es) && y.s.fault
  {
    if x.r.workers[k].Sending? {
      es, y := SendingFaults(c, x, k);
    } else {
      es, y := SendingFaults(c, Step(c, x, Ask(k)), k);
      Prepend(c, x, Ask(k), es, y);
      es := [Ask(k)] + es;
    }
  }

  /** Exactly when a reply can still hit the closed channel, once the receiver is being stopped or has
      been: if and only if a call is in progress, or a goroutine is about to send, or one is about to
      ask a sender that is still running.  So it is safe to stop the sender exactly when none is. */
  lemma ShutdownIff(c: Receiver.Config, x: State)
    requires !x.s.fault && !x.r.fault && !x.r.phase.Running?
    ensures CanFault(c, x) <==> Endangered(x)
  {
    if x.s.senders != map[] {
      var es, y := CallInProgressFaults(c, x);
      assert Run(c, x, es, y);
    } else if k :| Threatens(x, k) {
      var es, y := ThreatFaults(c, x, k);
      assert Run(c, x, es, y);
    } else {
      forall es: seq<Event>, y: State | Run(c, x, es, y) && OnlyReplies(es) ensures !y.s.fault {
        HarmlessRun(c, x, es, y);
      }
    }
  }

  /** What the receiver can do without sending it can do here, beside a running sender. */
  lemma {:induction false} LiftReceiver(c: Receiver.Config, x: State, res: seq<Receiver.Event>, t: Receiver.State)
      returns (es: seq<Event>, y: State)
    requires Receiver.Run(c, x.r, res, t) && Receiver.OnlyAsks(res) && x.s.phase.Running? && !x.s.fault
    ensures Run(c, x, es, y) && OnlyReplies(es) && y.r == t && y.s == x.s.(checked := y.s.checked)
    decreases |res|
  {
    es, y := [], x;
    if res != [] {
      assert !res[0].SendReply? && (res[0].SenderCheck? ==> res[0].running);
      assert forall i | 0 <= i < |res[1..]| :: res[1..][i] == res[i + 1];
      var e := if res[0].SenderCheck? then Ask(res[0].k) else OfReceiver(res[0]);
      es, y := LiftReceiver(c, Step(c, x, e), res[1..], t);
      Prepend(c, x, e, es, y);
      es := [e] + es;
    }
  }

  /** The order that the receiver's Stop suggests does not help: after it has returned, while the
      sender is still running and nobody is sending, a reply can be on its way that faults. */
  lemma ReceiverFirstIsNotEnough(c: Receiver.Config) returns (es: seq<Event>, x: State)
    requires c.processor && c.sender
    ensures Run(c, INITIAL, es, x) && OnlyReplies(es)
    ensures x.r.phase.ChanClosed? && x.s.phase.Running? && x.s.senders == map[] && CanFault(c, x)
  {
    var res1, r1 := Receiver.OneAnswer(c, Receiver.Frame([0], Receiver.Message(0)));
    var res2, r2 := Receiver.StopBetween(c, r1);
    Receiver.RunConcat(c, Receiver.INITIAL, res1, r1, res2, r2);
    es, x := LiftReceiver(c, INITIAL, res1 + res2, r2);
    assert Threatens(x, 0);
    ShutdownIff(c, x);
  }
}
