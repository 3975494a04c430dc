/** The try/catch/else/finally chain of libs/errors/try_catch_chain.go and the panic-to-error step of
    libs/errors/try_catch_func.go.  Go function bodies are terms that record events, panic, run one
    after another, or contain further chains, so nesting is unbounded. */
module TryChain {
  import opened Options

  /** An error value: a registered one with its chain of wrapped causes, or the one that `toError`
      makes, freshly, from a panic value that is not an error. */
  datatype Err = Err(id: nat, cause: Option<Err>) | PanicText(v: int)

  datatype PanicValue = Error(e: Err) | Other(v: int)

  datatype Body =
    | Skip
    | Mark(tag: nat)      // an observable action
    | Observe             // records the error that the enclosing handler was given
    | Panic(v: PanicValue)
    | Rethrow             // panics with the error that the enclosing handler was given
    | Then(first: Body, second: Body)
    | Try(body: Body, builds: seq<Build>)  // Try(body), the builder calls in order, and Do()

  datatype Build =
    | Catch(target: Option<Err>, h: Body)  // a nil target is None
    | DefaultCatch(h: Body)
    | Else(h: Body)
    | Finally(h: Body)

  datatype Event = Marked(tag: nat) | Saw(e: Err)

  datatype Outcome = Returns | Panics(v: PanicValue)

  datatype Result = Result(trace: seq<Event>, outcome: Outcome)

  function ToError(v: PanicValue): Err {
    match v
    case Error(e) => e
    case Other(x) => PanicText(x)
  }

  /** `errors.Is`: the error or one of its causes is the target; nil matches no error, and the
      fresh error of a converted panic value is nobody's target. */
  predicate Is(e: Err, target: Option<Err>) {
    target.Some? && e.Err? && (e == target.value || (e.cause.Some? && Is(e.cause.value, target)))
  }

  // ---- the reference semantics of structured exceptions ----

  function Size(b: Body): nat
    decreases b, 1
  {
    match b
    case Then(x, y) => 1 + Size(x) + Size(y)
    case Try(x, builds) => 1 + Size(x) + SizeAll(builds)
    case _ => 1
  }

  function SizeAll(builds: seq<Build>): nat
    decreases builds, 0
  {
    if builds == [] then 0 else SizeOf(builds[0]) + SizeAll(builds[1..])
  }

  function SizeOf(x: Build): nat
    decreases x, 2
  {
    Size(x.h)
  }

  /** A selected handler is one of the chain's: no larger, and with no marks of its own making. */
  predicate Within(h: Option<Body>, builds: seq<Build>) {
    h.Some? ==> Size(h.value) <= SizeAll(builds) && Tags(h.value) <= TagsAll(builds)
  }

  /** The marks that occur in a body. */
  function Tags(b: Body): set<nat>
    decreases b, 1
  {
    match b
    case Mark(tag) => {tag}
    case Then(x, y) => Tags(x) + Tags(y)
    case Try(x, builds) => Tags(x) + TagsAll(builds)
    case _ => {}
  }

  function TagsAll(builds: seq<Build>): set<nat>
    decreases builds, 0
  {
    if builds == [] then {} else TagsOf(builds[0]) + TagsAll(builds[1..])
  }

  function TagsOf(x: Build): set<nat>
    decreases x, 2
  {
    Tags(x.h)
  }

  /** The handler of the first registered Catch that matches. */
  function FirstMatch(builds: seq<Build>, e: Err): (h: Option<Body>)
    ensures Within(h, builds)
  {
    if builds == [] then None
    else if builds[0].Catch? && Is(e, builds[0].target) then Some(builds[0].h)
    else FirstMatch(builds[1..], e)
  }

  /** The handlers given last: later calls of the same builder replace earlier ones. */
  function LastDefault(builds: seq<Build>): (h: Option<Body>)
    ensures Within(h, builds)
  {
    if builds == [] then None
    else
      var later := LastDefault(builds[1..]);
      if later.Some? then later else if builds[0].DefaultCatch? then Some(builds[0].h) else None
  }

  function LastElse(builds: seq<Build>): (h: Option<Body>)
    ensures Within(h, builds)
  {
    if builds == [] then None
    else
      var later := LastElse(builds[1..]);
      if later.Some? then later else if builds[0].Else? then Some(builds[0].h) else None
  }

  function LastFinally(builds: seq<Build>): (h: Option<Body>)
    ensures Within(h, builds)
  {
    if builds == [] then None
    else
      var later := LastFinally(builds[1..]);
      if later.Some? then later else if builds[0].Finally? then Some(builds[0].h) else None
  }

  /** Who handles an error: the first matching catch, else the default. */
  function Handler(builds: seq<Build>, e: Err): (h: Option<Body>)
    ensures Within(h, builds)
  {
    var h := FirstMatch(builds, e);
    if h.Some? then h else LastDefault(builds)
  }

  const NOTHING := Result([], Returns)

  /** What follows the try body: its else part, its handler, or the error on its way up. */
  function Middle(builds: seq<Build>, err: Option<Err>, caught: Option<Err>): Result
    decreases SizeAll(builds), 1
  {
    match err
    case None =>
      (match LastElse(builds) case Some(h) => Sem(h, caught) case None => NOTHING)
    case Some(e) =>
      match Handler(builds, e) case Some(h) => Sem(h, err) case None => Result([], Panics(Error(e)))
  }

  /** The error that a panic is recovered as. */
  function Recovered(o: Outcome): Option<Err> {
    match o
    case Returns => None
    case Panics(v) => Some(ToError(v))
  }

  function Last(builds: seq<Build>, caught: Option<Err>): Result
    decreases SizeAll(builds), 1
  {
    match LastFinally(builds) case Some(h) => Sem(h, caught) case None => NOTHING
  }

  /** The events and the outcome of a body; `caught` is the error that the innermost enclosing
      handler was given.  Finally comes last and its own panic takes precedence. */
  function Sem(b: Body, caught: Option<Err>): Result
    decreases Size(b), 0
  {
    match b
    case Skip => NOTHING
    case Mark(tag) => Result([Marked(tag)], Returns)
    case Observe => if caught.Some? then Result([Saw(caught.value)], Returns) else NOTHING
    case Panic(v) => Result([], Panics(v))
    case Rethrow => if caught.Some? then Result([], Panics(Error(caught.value))) else NOTHING
    case Then(x, y) =>
      var r := Sem(x, caught);
      if r.outcome.Panics? then r
      else var r' := Sem(y, caught); Result(r.trace + r'.trace, r'.outcome)
    case Try(x, builds) =>
      var t := Sem(x, caught);
      var m := Middle(builds, Recovered(t.outcome), caught);
      var f := Last(builds, caught);
      Result(t.trace + m.trace + f.trace, if f.outcome.Panics? then f.outcome else m.outcome)
  }

  // ---- the executor ----

  datatype CatchHandler = CatchHandler(err: Option<Err>, handler: Body)

  function CatchesOf(builds: seq<Build>): seq<CatchHandler> {
    if builds == [] then []
    else
      var n := |builds| - 1;
      CatchesOf(builds[..n]) + (if builds[n].Catch? then [CatchHandler(builds[n].target, builds[n].h)] else [])
  }

  /** The first handler of a list that matches. */
  function FirstOf(hs: seq<CatchHandler>, e: Err): Option<Body> {
    if hs == [] then None
    else if Is(e, hs[0].err) then Some(hs[0].handler)
    else FirstOf(hs[1..], e)
  }

  lemma {:induction false} FirstOfConcat(a: seq<CatchHandler>, b: seq<CatchHandler>, e: Err)
    ensures FirstOf(a + b, e) == if FirstOf(a, e).Some? then FirstOf(a, e) else FirstOf(b, e)
    decreases |a|
  {
    if a == [] {
      assert a + b == b;
    } else {
      assert (a + b)[1..] == a[1..] + b;
      FirstOfConcat(a[1..], b, e);
    }
  }

  lemma {:induction false} FirstMatchAppend(builds: seq<Build>, x: Build, e: Err)
    ensures FirstMatch(builds + [x], e) ==
            if FirstMatch(builds, e).Some? then FirstMatch(builds, e) else FirstMatch([x], e)
    decreases |builds|
  {
    if builds == [] {
      assert builds + [x] == [x];
    } else {
      assert (builds + [x])[1..] == builds[1..] + [x];
      FirstMatchAppend(builds[1..], x, e);
    }
  }

  /** Scanning the appended handlers finds the first match in registration order. */
  lemma {:induction false} FirstOfCatches(builds: seq<Build>, e: Err)
    ensures FirstOf(CatchesOf(builds), e) == FirstMatch(builds, e)
    decreases |builds|
  {
    if builds != [] {
      var n := |builds| - 1;
      FirstOfCatches(builds[..n], e);
      FirstMatchAppend(builds[..n], builds[n], e);
      assert builds[..n] + [builds[n]] == builds;
      FirstOfConcat(CatchesOf(builds[..n]), CatchesOf(builds)[|CatchesOf(builds[..n])|..], e);
      assert CatchesOf(builds) == CatchesOf(builds[..n]) + CatchesOf(builds)[|CatchesOf(builds[..n])|..];
    }
  }

  lemma {:induction false} LastAppend(builds: seq<Build>, x: Build)
    ensures LastDefault(builds + [x]) == if x.DefaultCatch? then Some(x.h) else LastDefault(builds)
    ensures LastElse(builds + [x]) == if x.Else? then Some(x.h) else LastElse(builds)
    ensures LastFinally(builds + [x]) == if x.Finally? then Some(x.h) else LastFinally(builds)
    decreases |builds|
  {
    if builds == [] {
      assert builds + [x] == [x];
    } else {
      assert (builds + [x])[1..] == builds[1..] + [x];
      LastAppend(builds[1..], x);
    }
  }

  class TryHandler {
    const handler: Body
    var catches: seq<CatchHandler>
    var defaultCatch: Option<Body>
    var elseHandler: Option<Body>
    var finallyHandler: Option<Body>
    ghost var builds: seq<Build>

    /** The fields are what the builder calls so far have made of them. */
    ghost predicate Valid()
      reads this
    {
      && catches == CatchesOf(builds)
      && defaultCatch == LastDefault(builds)
      && elseHandler == LastElse(builds)
      && finallyHandler == LastFinally(builds)
    }

    constructor (body: Body)
      ensures Valid() && handler == body && builds == []
    {
      handler := body;
      catches, defaultCatch, elseHandler, finallyHandler, builds := [], None, None, None, [];
    }

    method AddCatch(target: Option<Err>, h: Body)
      requires Valid()
      modifies this
      ensures Valid() && builds == old(builds) + [Catch(target, h)]
    {
      catches := catches + [CatchHandler(target, h)];
      builds := builds + [Catch(target, h)];
      LastAppend(old(builds), Catch(target, h));
      assert builds[..|builds| - 1] == old(builds);
    }

    method SetDefaultCatch(h: Body)
      requires Valid()
      modifies this
      ensures Valid() && builds == old(builds) + [DefaultCatch(h)]
    {
      defaultCatch := Some(h);
      builds := builds + [DefaultCatch(h)];
      LastAppend(old(builds), DefaultCatch(h));
      assert builds[..|builds| - 1] == old(builds);
    }

    method SetElse(h: Body)
      requires Valid()
      modifies this
      ensures Valid() && builds == old(builds) + [Else(h)]
    {
      elseHandler := Some(h);
      builds := builds + [Else(h)];
      LastAppend(old(builds), Else(h));
      assert builds[..|builds| - 1] == old(builds);
    }

    method SetFinally(h: Body)
      requires Valid()
      modifies this
      ensures Valid() && builds == old(builds) + [Finally(h)]
    {
      finallyHandler := Some(h);
      builds := builds + [Finally(h)];
      LastAppend(old(builds), Finally(h));
      assert builds[..|builds| - 1] == old(builds);
    }

    /** The part of `Do` after a recovered error: the loop over the handlers, the default, and
        the panic when nobody has caught it. */
    method HandleError(err: Err, caught: Option<Err>) returns (r: Result)
      requires Valid()
      ensures r == Middle(builds, Some(err), caught)
      decreases SizeAll(builds), 2
    {
      r := NOTHING;
      var catchSuccess := false;
      FirstOfCatches(builds, err);
      var i := 0;
      while i < |catches|
        invariant 0 <= i <= |catches| && !catchSuccess && r == NOTHING
        invariant FirstOf(catches[i..], err) == FirstMatch(builds, err)
      {
        if Is(err, catches[i].err) {
          catchSuccess := true;
          assert FirstMatch(builds, err) == Some(catches[i].handler);
          r := Execute(catches[i].handler, Some(err));
          break;
        }
        assert catches[i..][1..] == catches[i + 1..];
        i := i + 1;
      }
      if !catchSuccess && defaultCatch.Some? {
        catchSuccess := true;
        r := Execute(defaultCatch.value, Some(err));
      }
      if !catchSuccess {
        r := Result([], Panics(Error(err)));
      }
    }

    /** `Do`: the last block is the deferred function, which runs whether or not a panic is in
        flight, and whose own panic replaces that one. */
    method Do(caught: Option<Err>) returns (r: Result)
      requires Valid()
      ensures r == Sem(Try(handler, builds), caught)
      decreases Size(Try(handler, builds)), 0
    {
      var trace, err := TryCatch(handler, caught);
      var rest := NOTHING;
      if err.None? {
        if elseHandler.Some? {
          rest := Execute(elseHandler.value, caught);
        }
      } else {
        rest := HandleError(err.value, caught);
      }
      r := Result(trace + rest.trace, rest.outcome);
      if finallyHandler.Some? {
        var f := Execute(finallyHandler.value, caught);
        r := Result(r.trace + f.trace, if f.outcome.Panics? then f.outcome else r.outcome);
      }
    }
  }

  /** `TryCatch`: the deferred recover turns a panic into an error. */
  method TryCatch(f: Body, caught: Option<Err>) returns (trace: seq<Event>, err: Option<Err>)
    ensures trace == Sem(f, caught).trace
    ensures err == Recovered(Sem(f, caught).outcome)
    ensures err == match Sem(f, caught).outcome
                   case Returns => None
                   case Panics(v) => if v.Error? then Some(v.e) else Some(PanicText(v.v))
    decreases Size(f), 2
  {
    var r := Execute(f, caught);
    trace := r.trace;
    err := if r.outcome.Panics? then Some(ToError(r.outcome.v)) else None;
  }

  /** Running a body as Go does: a chain is built call by call and then done. */
  method Execute(b: Body, caught: Option<Err>) returns (r: Result)
    ensures r == Sem(b, caught)
    decreases Size(b), 1
  {
    match b
    case Skip => r := NOTHING;
    case Mark(tag) => r := Result([Marked(tag)], Returns);
    case Observe => r := if caught.Some? then Result([Saw(caught.value)], Returns) else NOTHING;
    case Panic(v) => r := Result([], Panics(v));
    case Rethrow => r := if caught.Some? then Result([], Panics(Error(caught.value))) else NOTHING;
    case Then(x, y) =>
      r := Execute(x, caught);
      if r.outcome.Returns? {
        var r' := Execute(y, caught);
        r := Result(r.trace + r'.trace, r'.outcome);
      }
    case Try(x, builds) =>
      var t := Assemble(x, builds);
      r := t.Do(caught);
  }

  /** One call of a builder. */
  method CallBuilder(t: TryHandler, x: Build)
    requires t.Valid()
    modifies t
    ensures t.Valid() && t.builds == old(t.builds) + [x]
  {
    match x {
      case Catch(target, h) => t.AddCatch(target, h);
      case DefaultCatch(h) => t.SetDefaultCatch(h);
      case Else(h) => t.SetElse(h);
      case Finally(h) => t.SetFinally(h);
    }
  }

  method Assemble(body: Body, builds: seq<Build>) returns (t: TryHandler)
    ensures fresh(t) && t.Valid() && t.handler == body && t.builds == builds
  {
    t := new TryHandler(body);
    var i := 0;
    while i < |builds|
      invariant 0 <= i <= |builds| && fresh(t) && t.Valid() && t.handler == body && t.builds == builds[..i]
    {
      CallBuilder(t, builds[i]);
      assert builds[..i + 1] == builds[..i] + [builds[i]];
      i := i + 1;
    }
  }

  // ---- what the semantics promises ----

  /** The handler that runs is that of the first matching catch: one that matches, with none
      before it that does; and there is none exactly when no catch matches. */
  lemma {:induction false} FirstMatchIsFirst(builds: seq<Build>, e: Err) returns (i: nat)
    ensures FirstMatch(builds, e).None? <==> i == |builds|
    ensures i <= |builds| && forall j | 0 <= j < i :: !(builds[j].Catch? && Is(e, builds[j].target))
    ensures i < |builds| ==> builds[i].Catch? && Is(e, builds[i].target) && FirstMatch(builds, e) == Some(builds[i].h)
    decreases |builds|
  {
    if builds == [] || (builds[0].Catch? && Is(e, builds[0].target)) {
      i := 0;
    } else {
      i := FirstMatchIsFirst(builds[1..], e);
      i := i + 1;
    }
  }

  // ---- the whole chain by positions ----

  /** The n-th error along the chain of causes, the error itself first. */
  function CauseAt(e: Err, n: nat): Option<Err> {
    if n == 0 then Some(e)
    else if e.Err? && e.cause.Some? then CauseAt(e.cause.value, n - 1)
    else None
  }

  ghost predicate InChain(e: Err, target: Err) {
    exists n: nat :: CauseAt(e, n) == Some(target)
  }

  lemma InChainStep(e: Err, target: Err)
    ensures InChain(e, target) <==> e == target || (e.Err? && e.cause.Some? && InChain(e.cause.value, target))
  {
    assert CauseAt(e, 0) == Some(e);
    if n: nat :| CauseAt(e, n) == Some(target) {
      if n > 0 {
        var k: nat := n - 1;
        assert CauseAt(e.cause.value, k) == Some(target);
      }
    }
    if e.Err? && e.cause.Some? && InChain(e.cause.value, target) {
      var n: nat :| CauseAt(e.cause.value, n) == Some(target);
      var k: nat := n + 1;
      assert CauseAt(e, k) == Some(target);
    }
  }

  /** What matching is: some error along the chain of causes is the target, which is a registered
      error and not nil. */
  lemma {:induction false} IsIff(e: Err, target: Option<Err>)
    ensures Is(e, target) <==> target.Some? && target.value.Err? && InChain(e, target.value)
    decreases e
  {
    if target.Some? {
      InChainStep(e, target.value);
      if e.Err? && e.cause.Some? { IsIff(e.cause.value, target); }
    }
  }

  /** Position i is the first catch that matches. */
  ghost predicate FirstCatchAt(builds: seq<Build>, e: Err, i: nat) {
    && i < |builds| && builds[i].Catch? && Is(e, builds[i].target)
    && forall j | 0 <= j < i :: !(builds[j].Catch? && Is(e, builds[j].target))
  }

  ghost predicate NoCatch(builds: seq<Build>, e: Err) {
    forall j | 0 <= j < |builds| :: !(builds[j].Catch? && Is(e, builds[j].target))
  }

  datatype Kind = CatchKind | DefaultKind | ElseKind | FinallyKind

  function KindOf(x: Build): Kind {
    match x
    case Catch(_, _) => CatchKind
    case DefaultCatch(_) => DefaultKind
    case Else(_) => ElseKind
    case Finally(_) => FinallyKind
  }

  /** Position i is the last call of this builder. */
  ghost predicate LastAt(builds: seq<Build>, kind: Kind, i: nat) {
    && i < |builds| && KindOf(builds[i]) == kind
    && forall j | i < j < |builds| :: KindOf(builds[j]) != kind
  }

  ghost predicate NoneOf(builds: seq<Build>, kind: Kind) {
    forall j | 0 <= j < |builds| :: KindOf(builds[j]) != kind
  }

  /** `h` is the body given last to this builder, or none. */
  ghost predicate InForce(builds: seq<Build>, kind: Kind, h: Option<Body>) {
    match h
    case None => NoneOf(builds, kind)
    case Some(b) => exists i: nat :: LastAt(builds, kind, i) && builds[i].h == b
  }

  lemma InForceTail(builds: seq<Build>, kind: Kind, later: Option<Body>)
    requires builds != [] && InForce(builds[1..], kind, later)
    ensures InForce(builds, kind, if later.Some? then later else if KindOf(builds[0]) == kind then Some(builds[0].h) else None)
  {
    assert forall j | 0 <= j < |builds[1..]| :: builds[1..][j] == builds[j + 1];
    assert forall j | 1 <= j < |builds| :: builds[j] == builds[1..][j - 1];
    if later.Some? {
      var i: nat :| LastAt(builds[1..], kind, i) && builds[1..][i].h == later.value;
      assert LastAt(builds, kind, i + 1);
    } else if KindOf(builds[0]) == kind {
      assert LastAt(builds, kind, 0);
    }
  }

  lemma {:induction false} LastInForce(builds: seq<Build>)
    ensures InForce(builds, DefaultKind, LastDefault(builds))
    ensures InForce(builds, ElseKind, LastElse(builds))
    ensures InForce(builds, FinallyKind, LastFinally(builds))
    decreases |builds|
  {
    if builds != [] {
      LastInForce(builds[1..]);
      InForceTail(builds, DefaultKind, LastDefault(builds[1..]));
      InForceTail(builds, ElseKind, LastElse(builds[1..]));
      InForceTail(builds, FinallyKind, LastFinally(builds[1..]));
    }
  }

  /** What a part contributes: its body's run, or nothing. */
  ghost predicate PartRuns(builds: seq<Build>, kind: Kind, caught: Option<Err>, r: Result) {
    || (NoneOf(builds, kind) && r == Result([], Returns))
    || (exists i: nat :: LastAt(builds, kind, i) && r == Sem(builds[i].h, caught))
  }

  /** What follows a panic with `v`: the first catch that matches its error, or else the last default,
      each run on that error, or else the panic with that error. */
  ghost predicate PanicFollowedBy(builds: seq<Build>, v: PanicValue, r: Result) {
    var e := if v.Error? then v.e else PanicText(v.v);
    || (exists i: nat :: FirstCatchAt(builds, e, i) && r == Sem(builds[i].h, Some(e)))
    || (NoCatch(builds, e) && exists i: nat :: LastAt(builds, DefaultKind, i) && r == Sem(builds[i].h, Some(e)))
    || (NoCatch(builds, e) && NoneOf(builds, DefaultKind) && r == Result([], Panics(Error(e))))
  }

  lemma AfterPanic(builds: seq<Build>, v: PanicValue, caught: Option<Err>)
    ensures PanicFollowedBy(builds, v, Middle(builds, Some(ToError(v)), caught))
  {
    var e := ToError(v);
    var i := FirstMatchIsFirst(builds, e);
    LastInForce(builds);
    if i < |builds| {
      assert FirstCatchAt(builds, e, i);
    } else {
      assert NoCatch(builds, e);
    }
  }

  lemma PartOf(builds: seq<Build>, kind: Kind, caught: Option<Err>, h: Option<Body>)
    requires InForce(builds, kind, h)
    ensures PartRuns(builds, kind, caught, match h case Some(b) => Sem(b, caught) case None => NOTHING)
  {}

  /** What a chain does, told by the positions of its builder calls: the body, then the last Else if it
      returned and what follows its panic if not, and then, whatever has happened, the last Finally,
      whose own panic takes precedence. */
  lemma ChainMeaning(body: Body, builds: seq<Build>, caught: Option<Err>) returns (m: Result, f: Result)
    ensures var b := Sem(body, caught);
            && (b.outcome.Returns? ==> PartRuns(builds, ElseKind, caught, m))
            && (b.outcome.Panics? ==> PanicFollowedBy(builds, b.outcome.v, m))
            && PartRuns(builds, FinallyKind, caught, f)
            && Sem(Try(body, builds), caught) ==
               Result(b.trace + m.trace + f.trace, if f.outcome.Panics? then f.outcome else m.outcome)
  {
    hide PartRuns, PanicFollowedBy, InForce;
    var b := Sem(body, caught);
    m, f := Middle(builds, Recovered(b.outcome), caught), Last(builds, caught);
    LastInForce(builds);
    PartOf(builds, FinallyKind, caught, LastFinally(builds));
    if b.outcome.Panics? {
      AfterPanic(builds, b.outcome.v, caught);
    } else {
      PartOf(builds, ElseKind, caught, LastElse(builds));
    }
  }

  ghost predicate MarksWithin(trace: seq<Event>, tags: set<nat>) {
    forall k | 0 <= k < |trace| && trace[k].Marked? :: trace[k].tag in tags
  }

  lemma {:induction false} TraceMarks(b: Body, caught: Option<Err>)
    ensures MarksWithin(Sem(b, caught).trace, Tags(b))
    decreases Size(b), 0
  {
    match b
    case Then(x, y) =>
      TraceMarks(x, caught);
      TraceMarks(y, caught);
    case Try(x, builds) =>
      TraceMarks(x, caught);
      MiddleMarks(builds, Recovered(Sem(x, caught).outcome), caught);
      if LastFinally(builds).Some? { TraceMarks(LastFinally(builds).value, caught); }
    case _ =>
  }

  lemma {:induction false} MiddleMarks(builds: seq<Build>, err: Option<Err>, caught: Option<Err>)
    ensures MarksWithin(Middle(builds, err, caught).trace, TagsAll(builds))
    decreases SizeAll(builds), 1
  {
    var h := if err.None? then LastElse(builds) else Handler(builds, err.value);
    if h.Some? { TraceMarks(h.value, if err.None? then caught else err); }
  }

  datatype Part = ElsePart | FinallyPart

  /** The chain without its Else calls or without its Finally calls. */
  function Without(builds: seq<Build>, part: Part): seq<Build> {
    if builds == [] then []
    else if (if part.ElsePart? then builds[0].Else? else builds[0].Finally?) then Without(builds[1..], part)
    else [builds[0]] + Without(builds[1..], part)
  }

  /** Leaving one part out changes no other selection. */
  lemma {:induction false} SameSelections(builds: seq<Build>, part: Part, e: Err)
    ensures var w := Without(builds, part);
            && FirstMatch(w, e) == FirstMatch(builds, e) && LastDefault(w) == LastDefault(builds)
            && LastElse(w) == (if part.ElsePart? then None else LastElse(builds))
            && LastFinally(w) == (if part.FinallyPart? then None else LastFinally(builds))
    decreases |builds|
  {
    if builds != [] {
      var w := Without(builds[1..], part);
      SameSelections(builds[1..], part, e);
      assert ([builds[0]] + w)[1..] == w;
    }
  }

  /** The error whose handlers are compared; without one, any. */
  function SomeError(o: Outcome): Err {
    if o.Panics? then ToError(o.v) else PanicText(0)
  }

  /** `r` and then `f`, whether or not a panic is in flight; a panic of `f` replaces that one. */
  function Deferred(r: Result, f: Result): Result {
    Result(r.trace + f.trace, if f.outcome.Panics? then f.outcome else r.outcome)
  }

  /** Finally, whatever its body: the chain does all that it does without Finally, whether it then
      returns or panics, and after that runs the Finally given last, once. */
  lemma FinallyIsDeferred(body: Body, builds: seq<Build>, h: Body, caught: Option<Err>)
    requires LastFinally(builds) == Some(h)
    ensures Sem(Try(body, builds), caught) ==
            Deferred(Sem(Try(body, Without(builds, FinallyPart)), caught), Sem(h, caught))
  {
    var b := Sem(body, caught);
    SameSelections(builds, FinallyPart, SomeError(b.outcome));
    var m := Middle(builds, Recovered(b.outcome), caught);
    assert Middle(Without(builds, FinallyPart), Recovered(b.outcome), caught) == m;
    assert b.trace + m.trace + [] == b.trace + m.trace;
  }

  /** Finally runs exactly once and last: a mark made only by the Finally in force is the last event
      of the run and occurs nowhere else in it. */
  lemma FinallyOnceAndLast(body: Body, builds: seq<Build>, tag: nat, caught: Option<Err>)
    requires LastFinally(builds) == Some(Mark(tag))
    requires tag !in Tags(body) && tag !in TagsAll(Without(builds, FinallyPart))
    ensures var trace := Sem(Try(body, builds), caught).trace;
            trace != [] && trace[|trace| - 1] == Marked(tag) && Marked(tag) !in trace[..|trace| - 1]
  {
    var rest := Try(body, Without(builds, FinallyPart));
    TraceMarks(rest, caught);
    FinallyIsDeferred(body, builds, Mark(tag), caught);
    assert Sem(Try(body, builds), caught).trace == Sem(rest, caught).trace + [Marked(tag)];
  }

  lemma NoElseAfterPanic(body: Body, builds: seq<Build>, caught: Option<Err>)
    requires Sem(body, caught).outcome.Panics?
    ensures Sem(Try(body, builds), caught) == Sem(Try(body, Without(builds, ElsePart)), caught)
  {
    var err := Recovered(Sem(body, caught).outcome);
    SameSelections(builds, ElsePart, err.value);
    assert Last(Without(builds, ElsePart), caught) == Last(builds, caught);
    assert Middle(Without(builds, ElsePart), err, caught) == Middle(builds, err, caught);
  }

  /** Else, whatever its body: when the try body panics, the chain is what it is without Else; when
      it returns, the Else given last follows it, outside the reach of the chain's own handlers but
      not of its Finally. */
  lemma ElseFollowsReturn(body: Body, builds: seq<Build>, h: Body, caught: Option<Err>)
    requires LastElse(builds) == Some(h)
    ensures var b, e, rest := Sem(body, caught), Sem(h, caught), Without(builds, ElsePart);
            Sem(Try(body, builds), caught) ==
            if b.outcome.Panics? then Sem(Try(body, rest), caught)
            else Deferred(Result(b.trace + e.trace, e.outcome), Last(rest, caught))
  {
    if Sem(body, caught).outcome.Panics? {
      NoElseAfterPanic(body, builds, caught);
    } else {
      SameSelections(builds, ElsePart, PanicText(0));
      assert Last(Without(builds, ElsePart), caught) == Last(builds, caught);
    }
  }

  /** Else runs exactly when the try body does not panic: a mark made only by the Else in force
      occurs in the run of the chain if and only if the body returns. */
  lemma ElseIffReturns(body: Body, builds: seq<Build>, tag: nat, caught: Option<Err>)
    requires LastElse(builds) == Some(Mark(tag))
    requires tag !in Tags(body) && tag !in TagsAll(Without(builds, ElsePart))
    ensures Marked(tag) in Sem(Try(body, builds), caught).trace <==> Sem(body, caught).outcome.Returns?
  {
    ElseFollowsReturn(body, builds, Mark(tag), caught);
    if Sem(body, caught).outcome.Panics? {
      TraceMarks(Try(body, Without(builds, ElsePart)), caught);
    } else {
      assert Sem(Try(body, builds), caught).trace[|Sem(body, caught).trace|] == Marked(tag);
    }
  }

  // ---- panics across nested chains ----

  /** A body inside a stack of chains, innermost first. */
  function Nest(b: Body, stack: seq<seq<Build>>): Body
    decreases |stack|
  {
    if stack == [] then b else Nest(Try(b, stack[0]), stack[1..])
  }

  /** The traces of the Finally parts, innermost first. */
  function FinallyTraces(stack: seq<seq<Build>>, caught: Option<Err>): seq<Event> {
    if stack == [] then [] else Last(stack[0], caught).trace + FinallyTraces(stack[1..], caught)
  }

  ghost predicate LetsPass(builds: seq<Build>, e: Err, caught: Option<Err>) {
    Handler(builds, e).None? && Last(builds, caught).outcome.Returns?
  }

  lemma TracesConcat(a: seq<Event>, b: seq<Event>, c: seq<Event>)
    ensures a + b + c == a + (b + c) && b + [] == b
  {}

  /** An uncaught panic leaves a single chain as its error, after the Finally part. */
  lemma PassesOne(b: Body, builds: seq<Build>, v: PanicValue, caught: Option<Err>)
    requires Sem(b, caught).outcome == Panics(v) && LetsPass(builds, ToError(v), caught)
    ensures Sem(Try(b, builds), caught) ==
            Result(Sem(b, caught).trace + Last(builds, caught).trace, Panics(Error(ToError(v))))
  {
    TracesConcat([], Sem(b, caught).trace, []);
  }

  /** A panic that no chain of the stack catches runs their Finally parts from the inside out and
      arrives outside as the error it was first converted to. */
  lemma {:induction false} PassesThrough(b: Body, stack: seq<seq<Build>>, v: PanicValue, caught: Option<Err>)
    requires Sem(b, caught).outcome == Panics(v) && stack != []
    requires forall i | 0 <= i < |stack| :: LetsPass(stack[i], ToError(v), caught)
    ensures Sem(Nest(b, stack), caught) ==
            Result(Sem(b, caught).trace + FinallyTraces(stack, caught), Panics(Error(ToError(v))))
    decreases |stack|
  {
    assert LetsPass(stack[0], ToError(v), caught);
    var t := Try(b, stack[0]);
    var here := Last(stack[0], caught).trace;
    PassesOne(b, stack[0], v, caught);
    if |stack| > 1 {
      forall i | 0 <= i < |stack[1..]| ensures LetsPass(stack[1..][i], ToError(v), caught) {
        assert LetsPass(stack[i + 1], ToError(v), caught);
      }
      PassesThrough(t, stack[1..], Error(ToError(v)), caught);
      TracesConcat(Sem(b, caught).trace, here, FinallyTraces(stack[1..], caught));
    } else {
      assert stack[1..] == [];
      TracesConcat([], here, []);
    }
  }

  /** The nearest chain that has a handler for it catches the panic: after the inner Finally parts
      it runs that handler, on the error the panic was converted to. */
  lemma NearestHandlerCatches(b: Body, stack: seq<seq<Build>>, outer: seq<Build>, v: PanicValue, caught: Option<Err>)
    requires Sem(b, caught).outcome == Panics(v) && stack != []
    requires forall i | 0 <= i < |stack| :: LetsPass(stack[i], ToError(v), caught)
    requires Handler(outer, ToError(v)).Some?
    ensures var h := Sem(Handler(outer, ToError(v)).value, Some(ToError(v)));
            var f := Last(outer, caught);
            Sem(Try(Nest(b, stack), outer), caught) ==
            Result(Sem(b, caught).trace + FinallyTraces(stack, caught) + h.trace + f.trace,
                   if f.outcome.Panics? then f.outcome else h.outcome)
  {
    PassesThrough(b, stack, v, caught);
  }

  /** A chain without handlers is transparent to a panic exactly when its value is an error: any
      other value comes out converted. */
  lemma BareChainTransparent(b: Body, v: PanicValue, caught: Option<Err>)
    requires Sem(b, caught).outcome == Panics(v)
    ensures Sem(Try(b, []), caught) == Sem(b, caught) <==> v.Error?
  {
    assert Sem(Try(b, []), caught).outcome == Panics(Error(ToError(v)));
    assert Sem(b, caught).trace + [] + [] == Sem(b, caught).trace;
  }
}
