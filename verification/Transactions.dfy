/** Transaction wrappers of libs/databases/common.go over an abstract session: begin opens a
    transaction, closing an uncommitted one discards it, a failed commit changes nothing, and
    outside a transaction every statement takes effect at once. */
module Transactions {
  import opened Options

  type Db = map<string, string>

  type Error = string

  /** A step: it may have changed the data even when it fails. */
  type Call = Db -> (Db, Option<Error>)

  class Session {
    var committed: Db
    var working: Db
    var inTx: bool

    constructor (db: Db)
      ensures committed == db && !inTx
    {
      committed, working, inTx := db, db, false;
    }

    method Begin(failure: Option<Error>) returns (err: Option<Error>)
      requires !inTx
      modifies this
      ensures err == failure && committed == old(committed)
      ensures if err.None? then inTx && working == committed else !inTx
    {
      err := failure;
      if err.None? {
        inTx, working := true, committed;
      }
    }

    method Run(call: Call) returns (err: Option<Error>)
      modifies this
      ensures inTx == old(inTx)
      ensures if inTx then (working, err) == call(old(working)) && committed == old(committed)
              else (committed, err) == call(old(committed))
    {
      if inTx {
        var r := call(working);
        working, err := r.0, r.1;
      } else {
        var r := call(committed);
        committed, err := r.0, r.1;
      }
    }

    /** Outside a transaction a commit does nothing and succeeds. */
    method Commit(failure: Option<Error>) returns (err: Option<Error>)
      modifies this
      ensures err == if old(inTx) then failure else None
      ensures inTx <==> old(inTx) && err.Some?
      ensures committed == if old(inTx) && err.None? then old(working) else old(committed)
    {
      err := None;
      if inTx {
        err := failure;
        if err.None? {
          committed, inTx := working, false;
        }
      }
    }

    method Rollback(failure: Option<Error>) returns (err: Option<Error>)
      modifies this
      ensures err == failure && committed == old(committed)
      ensures inTx <==> old(inTx) && failure.Some?
    {
      err := failure;
      if err.None? {
        inTx := false;
      }
    }

    method Close()
      modifies this
      ensures committed == old(committed) && !inTx
    {
      inTx := false;
    }
  }

  /** `SessionWrapper` is passed by value; the session it points to is shared. */
  datatype SessionWrapper = SessionWrapper(session: Session, err: Option<Error>)

  /** What may go wrong outside the steps: begin, each rollback, commit. */
  datatype Failures = Failures(begin: Option<Error>, rollback: Option<Error>, commit: Option<Error>)

  method NewSessionWrapper(s: Session, f: Failures) returns (sw: SessionWrapper)
    requires !s.inTx
    modifies s
    ensures sw == SessionWrapper(s, f.begin) && s.committed == old(s.committed)
    ensures if sw.err.None? then s.inTx && s.working == s.committed else !s.inTx
  {
    var err := s.Begin(f.begin);
    sw := SessionWrapper(s, err);
  }

  method Execute(sw: SessionWrapper, call: Call, f: Failures) returns (r: SessionWrapper, ran: bool)
    modifies sw.session
    ensures r.session == sw.session && (ran <==> sw.err.None?)
    ensures sw.err.Some? ==> r == sw && sw.session.committed == old(sw.session.committed)
    ensures sw.err.None? && old(sw.session.inTx) ==>
              && sw.session.committed == old(sw.session.committed)
              && r.err == call(old(sw.session.working)).1
              && (r.err.None? ==> sw.session.inTx && sw.session.working == call(old(sw.session.working)).0)
              && (r.err.Some? ==> (sw.session.inTx <==> f.rollback.Some?))
  {
    if sw.err.Some? {
      return sw, false;
    }
    var err := sw.session.Run(call);
    if err.Some? {
      var _ := sw.session.Rollback(f.rollback);
    }
    r, ran := sw.(err := err), true;
  }

  method CommitAndClose(sw: SessionWrapper, f: Failures) returns (err: Option<Error>)
    modifies sw.session
    ensures !sw.session.inTx
    ensures err == if sw.err.Some? then sw.err else if old(sw.session.inTx) then f.commit else None
    ensures sw.session.committed ==
            if err.None? && old(sw.session.inTx) then old(sw.session.working) else old(sw.session.committed)
  {
    err := sw.err;
    if err.None? {
      err := sw.session.Commit(f.commit);
    }
    sw.session.Close();
  }

  // ---- a whole chain ----

  /** The steps one after another until one fails: the data, the error, and how many ran. */
  datatype Ran = Ran(db: Db, err: Option<Error>, count: nat)

  function RunAll(calls: seq<Call>, db: Db): Ran
  {
    if calls == [] then Ran(db, None, 0)
    else
      var before := RunAll(calls[..|calls| - 1], db);
      if before.err.Some? then before
      else var r := calls[|calls| - 1](before.db); Ran(r.0, r.1, before.count + 1)
  }

  /** No step runs after the first failure: those that ran are a prefix, in which at most the last
      one failed. */
  lemma {:induction false} NoStepAfterFailure(calls: seq<Call>, db: Db)
    ensures var r := RunAll(calls, db);
            && r.count <= |calls|
            && (r.err.None? ==> r.count == |calls|)
            && (r.err.Some? ==> r.count > 0 && RunAll(calls[..r.count - 1], db).err.None?
                                && calls[r.count - 1](RunAll(calls[..r.count - 1], db).db).1 == r.err)
    decreases |calls|
  {
    if calls != [] {
      var n := |calls| - 1;
      NoStepAfterFailure(calls[..n], db);
      var before := RunAll(calls[..n], db);
      if before.err.Some? {
        assert calls[..n][..before.count - 1] == calls[..before.count - 1];
      }
    }
  }

  /** The data before each step that runs, and after the last one. */
  ghost predicate IsHistory(calls: seq<Call>, db: Db, dbs: seq<Db>) {
    && 0 < |dbs| <= |calls| + 1 && dbs[0] == db
    && (forall i | 0 <= i < |dbs| - 1 :: dbs[i + 1] == calls[i](dbs[i]).0)
    && (forall i | 0 <= i < |dbs| - 2 :: calls[i](dbs[i]).1.None?)
  }

  /** What a chain of steps computes, step by step: each takes the data that the one before it left. */
  lemma {:induction false} RunAllHistory(calls: seq<Call>, db: Db) returns (dbs: seq<Db>)
    ensures IsHistory(calls, db, dbs)
    ensures var r, n := RunAll(calls, db), |dbs| - 1;
            && r.count == n && r.db == dbs[n]
            && r.err == (if n == 0 then None else calls[n - 1](dbs[n - 1]).1)
            && (n < |calls| ==> r.err.Some?)
    decreases |calls|
  {
    if calls == [] {
      dbs := [db];
    } else {
      var n := |calls| - 1;
      dbs := RunAllHistory(calls[..n], db);
      assert forall i | 0 <= i < n :: calls[..n][i] == calls[i];
      if RunAll(calls[..n], db).err.None? { dbs := NextInHistory(calls, db, dbs); }
    }
  }

  lemma NextInHistory(calls: seq<Call>, db: Db, dbs: seq<Db>) returns (next: seq<Db>)
    requires IsHistory(calls, db, dbs) && |dbs| == |calls|
    requires |dbs| > 1 ==> calls[|dbs| - 2](dbs[|dbs| - 2]).1.None?
    ensures next == dbs + [calls[|dbs| - 1](dbs[|dbs| - 1]).0] && IsHistory(calls, db, next)
  {
    next := dbs + [calls[|dbs| - 1](dbs[|dbs| - 1]).0];
    forall i | 0 <= i < |next| - 1 ensures next[i + 1] == calls[i](next[i]).0 {
      if i < |dbs| - 1 { assert next[i] == dbs[i] && next[i + 1] == dbs[i + 1]; }
    }
    forall i | 0 <= i < |next| - 2 ensures calls[i](next[i]).1.None? { assert next[i] == dbs[i]; }
  }

  /** All or nothing: after a chain of steps through `Execute` that ends in `CommitAndClose`, the
      committed data is the effect of all the steps if the returned error is nil, and the initial
      data otherwise; the error is nil exactly when begin, every step and the commit succeeded. */
  method Chain(s: Session, calls: seq<Call>, f: Failures) returns (err: Option<Error>, ran: nat)
    requires !s.inTx
    modifies s
    ensures !s.inTx
    ensures err == if f.begin.Some? then f.begin
                   else if RunAll(calls, old(s.committed)).err.Some? then RunAll(calls, old(s.committed)).err
                   else f.commit
    ensures err.None? <==> f.begin.None? && RunAll(calls, old(s.committed)).err.None? && f.commit.None?
    ensures s.committed == if err.None? then RunAll(calls, old(s.committed)).db else old(s.committed)
    ensures ran == if f.begin.Some? then 0 else RunAll(calls, old(s.committed)).count
  {
    var sw := NewSessionWrapper(s, f);
    ran := 0;
    for i := 0 to |calls|
      invariant sw.session == s && s.committed == old(s.committed)
      invariant f.begin.Some? ==> sw.err == f.begin && ran == 0
      invariant f.begin.None? ==> sw.err == RunAll(calls[..i], old(s.committed)).err
                                  && ran == RunAll(calls[..i], old(s.committed)).count
      invariant sw.err.None? ==> f.begin.None? && s.inTx && s.working == RunAll(calls[..i], old(s.committed)).db
    {
      assert calls[..i + 1][..i] == calls[..i] && calls[..i + 1][i] == calls[i];
      var now;
      sw, now := Execute(sw, calls[i], f);
      ran := ran + if now then 1 else 0;
    }
    assert calls[..|calls|] == calls;
    err := CommitAndClose(sw, f);
  }

  // ---- WarpSession ----

  datatype Doctor = DoCommit | DoRollback

  /** What the handler does: new data, and a decision, an error or a panic. */
  datatype Verdict = Decides(doctor: Doctor) | Fails(e: Error) | PanicsOut

  type Handler = Db -> (Db, Verdict)

  datatype Warped = Done | Failed(e: Error) | Panicked

  /** `WarpSession` commits the handler's effect exactly when the handler decides so without an
      error and both begin and commit succeed; in all other cases, also when the handler panics,
      the data stays as it was.  Reporting no error does not mean a commit: a decision to roll back
      reports none either. */
  method WarpSession(s: Session, h: Handler, f: Failures) returns (r: Warped)
    requires !s.inTx
    modifies s
    ensures !s.inTx
    ensures var did := f.begin.None? && h(old(s.committed)).1 == Decides(DoCommit) && f.commit.None?;
            s.committed == if did then h(old(s.committed)).0 else old(s.committed)
    ensures r.Panicked? <==> f.begin.None? && h(old(s.committed)).1.PanicsOut?
    ensures r.Done? <==> f.begin.None? && h(old(s.committed)).1.Decides?
                         && (if h(old(s.committed)).1.doctor.DoCommit? then f.commit.None? else f.rollback.None?)
    ensures r.Failed? ==>
              if f.begin.Some? then r.e == f.begin.value
              else if h(old(s.committed)).1.Fails? then r.e == h(old(s.committed)).1.e
              else if h(old(s.committed)).1 == Decides(DoCommit) then f.commit == Some(r.e)
              else f.rollback == Some(r.e)
  {
    var err := s.Begin(f.begin);
    if err.Some? {
      s.Close();
      return Failed(err.value);
    }
    var out := h(s.working);
    s.working := out.0;
    match out.1 {
      case PanicsOut => r := Panicked;
      case Fails(e) => r := Failed(e);
      case Decides(doctor) =>
        if doctor.DoCommit? {
          err := s.Commit(f.commit);
        } else {
          err := s.Rollback(f.rollback);
        }
        r := if err.Some? then Failed(err.value) else Done;
    }
    s.Close();
  }
}
