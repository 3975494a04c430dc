/** Key namespaces over a shared Redis store (libs/redis/redis_internal.go, libs/redis/redis_view.go). */
module RedisViews {
  import opened GoStrings
  import opened Options

  type Bytes = seq<bv8>

  /** `expandKey`. */
  function Expand(prefix: string, key: string): string {
    prefix + ":" + key
  }

  /** `truncateKey`. */
  function Truncate(full: string): string {
    Join(Split(full, ":")[1..], ":")
  }

  /** Truncating removes everything up to the first colon. */
  lemma TruncateAtFirstColon(a: string, rest: string)
    requires ':' !in a
    ensures Truncate(a + ":" + rest) == rest
  {
    SplitAtColon(a, rest);
    NoColonNoSplit(a);
    JoinSplit(rest, ":");
    assert Split(a + ":" + rest, ":")[1..] == Split(rest, ":");
  }

  /** Truncating undoes expanding, for any key at all, exactly when the prefix has no colon. */
  lemma TruncateExpand(prefix: string, key: string)
    ensures Truncate(Expand(prefix, key)) == key <==> ':' !in prefix
  {
    if ':' !in prefix {
      TruncateAtFirstColon(prefix, key);
    } else {
      var i := Index(prefix, ":");
      var j :| 0 <= j < |prefix| && prefix[j] == ':';
      ColonOccurs(prefix, j);
      ColonOccurs(prefix, i);
      var a, b := prefix[..i], prefix[i + 1..];
      forall k: nat | k < i ensures a[k] != ':' { ColonOccurs(prefix, k); }
      assert Expand(prefix, key) == a + ":" + (b + ":" + key);
      TruncateAtFirstColon(a, b + ":" + key);
      assert |b + ":" + key| > |key|;
    }
  }

  /** One prefix, with its colon, begins the other. */
  predicate Overlapping(p: string, q: string) {
    p + ":" <= q + ":" || q + ":" <= p + ":"
  }

  /** Two views share a stored key exactly when their prefixes overlap. */
  lemma SharedKeyIffOverlapping(p: string, q: string)
    ensures (exists j, k :: Expand(p, j) == Expand(q, k)) <==> Overlapping(p, q)
  {
    if j, k :| Expand(p, j) == Expand(q, k) {
      var s := Expand(p, j);
      assert s[..|p| + 1] == p + ":" && s[..|q| + 1] == q + ":";
      if |p| <= |q| { assert (q + ":")[..|p| + 1] == p + ":"; } else { assert (p + ":")[..|q| + 1] == q + ":"; }
    }
    if p + ":" <= q + ":" {
      assert Expand(p, (q + ":")[|p| + 1..]) == Expand(q, "");
    } else if q + ":" <= p + ":" {
      assert Expand(p, "") == Expand(q, (p + ":")[|q| + 1..]);
    }
  }

  lemma ColonFreePrefix(p: string, q: string)
    requires ':' !in q && p + ":" <= q + ":"
    ensures p == q
  {
    assert (q + ":")[|p|] == ':';
    assert (q + ":")[..|p|] == p;
  }

  lemma ColonFreeOverlap(p: string, q: string)
    requires ':' !in p && ':' !in q && Overlapping(p, q)
    ensures p == q
  {
    if p + ":" <= q + ":" { ColonFreePrefix(p, q); } else { ColonFreePrefix(q, p); }
  }

  // ---- operations through a view ----

  /** The duration argument: empty, understood as a number of nanoseconds, or rejected by the parser. */
  datatype Duration = Absent | Parsed(nanos: int) | Malformed

  /** How a command ends: with its answer, or with an error, having reached the server or not. */
  datatype Outcome = Answered | Failed(effect: bool)

  /** A stored value with the expiration that its command carried; 0 is none. */
  datatype Entry = Entry(value: Bytes, expiration: int)

  datatype Op =
    | SetOp(key: string, value: Bytes, d: Duration, o: Outcome)
    | SetNXOp(key: string, value: Bytes, d: Duration, o: Outcome)
    | DelOp(keys: seq<string>, o: Outcome)

  function Expanded(prefix: string, keys: seq<string>): set<string> {
    set i | 0 <= i < |keys| :: Expand(prefix, keys[i])
  }

  predicate Reaches(o: Outcome) { o.Answered? || o.effect }

  function Expiration(d: Duration): int { if d.Parsed? then d.nanos else 0 }

  function Apply(prefix: string, data: map<string, Entry>, op: Op): map<string, Entry> {
    if !Reaches(op.o) then data
    else
      match op
      case SetOp(k, v, d, _) => if d.Malformed? then data else data[Expand(prefix, k) := Entry(v, Expiration(d))]
      case SetNXOp(k, v, d, _) =>
        if d.Malformed? || Expand(prefix, k) in data then data
        else data[Expand(prefix, k) := Entry(v, Expiration(d))]
      case DelOp(keys, _) => data - Expanded(prefix, keys)
  }

  function ApplyAll(prefix: string, data: map<string, Entry>, ops: seq<Op>): map<string, Entry>
    decreases |ops|
  {
    if ops == [] then data else ApplyAll(prefix, Apply(prefix, data, ops[0]), ops[1..])
  }

  function Lookup(prefix: string, data: map<string, Entry>, key: string): Option<Entry> {
    if Expand(prefix, key) in data then Some(data[Expand(prefix, key)]) else None
  }

  lemma ApplyIsolated(p: string, q: string, data: map<string, Entry>, op: Op, key: string)
    requires !Overlapping(p, q)
    ensures Lookup(q, Apply(p, data, op), key) == Lookup(q, data, key)
  {
    SharedKeyIffOverlapping(p, q);
    match op
    case SetOp(k, _, _, _) => assert Expand(p, k) != Expand(q, key);
    case SetNXOp(k, _, _, _) => assert Expand(p, k) != Expand(q, key);
    case DelOp(keys, _) => assert forall i | 0 <= i < |keys| :: Expand(p, keys[i]) != Expand(q, key);
  }

  /** Isolation: no sequence of operations through one view is seen through another whose prefix
      does not overlap, in particular through one with a different colon-free prefix. */
  lemma {:induction false} ViewsIsolated(p: string, q: string, data: map<string, Entry>, ops: seq<Op>, key: string)
    requires !Overlapping(p, q) || (p != q && ':' !in p && ':' !in q)
    ensures Lookup(q, ApplyAll(p, data, ops), key) == Lookup(q, data, key)
    decreases |ops|
  {
    if Overlapping(p, q) { ColonFreeOverlap(p, q); }
    if ops != [] {
      ApplyIsolated(p, q, data, ops[0], key);
      ViewsIsolated(p, q, Apply(p, data, ops[0]), ops[1..], key);
    }
  }

  /** The two stores have the same entry, or none, under this key. */
  predicate Same(data: map<string, Entry>, data': map<string, Entry>, k: string) {
    (k in data <==> k in data') && (k in data ==> data[k] == data'[k])
  }

  /** The full key of one of these keys of a view. */
  ghost predicate Named(prefix: string, keys: seq<string>, k: string) {
    exists i :: 0 <= i < |keys| && k == prefix + ":" + keys[i]
  }

  lemma ExpandedIff(prefix: string, keys: seq<string>)
    ensures forall k :: k in Expanded(prefix, keys) <==> Named(prefix, keys, k)
  {
    forall k ensures k in Expanded(prefix, keys) <==> Named(prefix, keys, k) {
      if i :| 0 <= i < |keys| && k == prefix + ":" + keys[i] { assert k == Expand(prefix, keys[i]); }
    }
  }

  class Store {
    var data: map<string, Entry>

    constructor ()
      ensures data == map[]
    {
      data := map[];
    }
  }

  class RedisView {
    const prefix: string
    const cmd: Store

    constructor (prefix: string, cmd: Store)
      ensures this.prefix == prefix && this.cmd == cmd
    {
      this.prefix, this.cmd := prefix, cmd;
    }

    /** `o` is how the command ends, if it comes to one. */
    method Set(key: string, value: Bytes, d: Duration, o: Outcome) returns (ok: bool)
      modifies cmd
      ensures cmd.data == Apply(prefix, old(cmd.data), SetOp(key, value, d, o))
      ensures ok <==> !d.Malformed? && o.Answered?
      ensures ok ==> Lookup(prefix, cmd.data, key) == Some(Entry(value, match d case Parsed(n) => n case _ => 0))
      ensures d.Malformed? || o == Failed(false) ==> cmd.data == old(cmd.data)
      ensures forall k | k != prefix + ":" + key :: Same(cmd.data, old(cmd.data), k)
    {
      var timeout := 0;
      if !d.Absent? {
        if d.Malformed? {
          return false;
        }
        timeout := d.nanos;
      }
      if Reaches(o) {
        cmd.data := cmd.data[Expand(prefix, key) := Entry(value, timeout)];
      }
      ok := o.Answered?;
    }

    /** Of several callers one is told that it has set the key: that whose value is then there. */
    method SetNX(key: string, value: Bytes, d: Duration, o: Outcome) returns (set': bool, ok: bool)
      modifies cmd
      ensures cmd.data == Apply(prefix, old(cmd.data), SetNXOp(key, value, d, o))
      ensures ok <==> !d.Malformed? && o.Answered?
      ensures set' <==> ok && Lookup(prefix, old(cmd.data), key).None?
      ensures set' ==> Lookup(prefix, cmd.data, key) == Some(Entry(value, match d case Parsed(n) => n case _ => 0))
      ensures Lookup(prefix, old(cmd.data), key).Some? || d.Malformed? || o == Failed(false) ==> cmd.data == old(cmd.data)
      ensures forall k | k != prefix + ":" + key :: Same(cmd.data, old(cmd.data), k)
    {
      var timeout := 0;
      if !d.Absent? {
        if d.Malformed? {
          return false, false;
        }
        timeout := d.nanos;
      }
      var free := Expand(prefix, key) !in cmd.data;
      if Reaches(o) && free {
        cmd.data := cmd.data[Expand(prefix, key) := Entry(value, timeout)];
      }
      set', ok := o.Answered? && free, o.Answered?;
    }

    /** A missing key is an error, as is a failed command. */
    method Get(key: string, o: Outcome) returns (r: Option<Bytes>)
      ensures r.Some? <==> o.Answered? && prefix + ":" + key in cmd.data
      ensures r.Some? ==> r.value == cmd.data[prefix + ":" + key].value
    {
      r := if o.Answered? && Expand(prefix, key) in cmd.data then Some(cmd.data[Expand(prefix, key)].value) else None;
    }

    method ExpandAll(keys: seq<string>) returns (all: set<string>)
      ensures all == Expanded(prefix, keys)
    {
      all := {};
      for i := 0 to |keys|
        invariant all == Expanded(prefix, keys[..i])
      {
        all := all + {Expand(prefix, keys[i])};
        assert keys[..i + 1] == keys[..i] + [keys[i]];
      }
      assert keys[..|keys|] == keys;
    }

    /** Del expands its keys one by one and returns how many stored keys it removed. */
    method Del(keys: seq<string>, o: Outcome) returns (r: Option<nat>)
      modifies cmd
      ensures cmd.data == Apply(prefix, old(cmd.data), DelOp(keys, o))
      ensures r == if o.Answered? then Some(|old(cmd.data).Keys * Expanded(prefix, keys)|) else None
      ensures forall k: string :: if Named(prefix, keys, k) && o != Failed(false) then k !in cmd.data else Same(cmd.data, old(cmd.data), k)
    {
      var all := ExpandAll(keys);
      ExpandedIff(prefix, keys);
      r := if o.Answered? then Some(|cmd.data.Keys * all|) else None;
      if Reaches(o) {
        cmd.data := cmd.data - all;
      }
    }
  }
}
