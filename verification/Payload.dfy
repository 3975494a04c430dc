/** Retry payloads as key and channel text (libs/redis/redis_notification.go). */
module Payloads {
  import opened GoStrings
  import opened Options

  datatype Payload = Payload(value: string, count: int)

  /** `encodePayload`. */
  function Encode(p: Payload): string {
    p.value + "||" + Itoa(p.count)
  }

  /** `decodePayload`: the text after the last colon, cut at its "||" separators. */
  function Decode(channel: string): Option<Payload> {
    var ss := Split(channel, ":");
    if |ss| < 2 then None
    else
      var rss := Split(Last(ss), "||");
      if |rss| < 2 then None else Some(Payload(rss[0], ParseInt32(rss[1])))
  }

  /** A value that survives the trip through a key. */
  ghost predicate Clean(v: string) {
    ':' !in v && !Contains(v, "||") && (v != "" ==> Last(v) != '|')
  }

  lemma BarsOccur(s: string, i: nat)
    ensures OccursAt(s, "||", i) <==> i + 1 < |s| && s[i] == '|' && s[i + 1] == '|'
  {
    if i + 2 <= |s| { assert s[i..i + 2] == [s[i], s[i + 1]]; }
  }

  lemma NoBarsNoSplit(s: string)
    requires forall i: nat :: !OccursAt(s, "||", i)
    ensures Split(s, "||") == [s]
  {}

  /** Whatever the input, the first piece of a proper split on "||" holds no separator
      and does not end in a bar: the leftmost match would have come one earlier. */
  lemma FirstPieceClean(s: string)
    requires |Split(s, "||")| >= 2
    ensures var v := Split(s, "||")[0];
            !Contains(v, "||") && (v != "" ==> Last(v) != '|')
  {
    var i := Index(s, "||");
    var v := s[..i];
    BarsOccur(s, i);
    forall j: nat ensures !OccursAt(v, "||", j) { BarsOccur(v, j); BarsOccur(s, j); }
    if v != "" { BarsOccur(s, i - 1); }
  }

  /** Every decoded value is clean and every decoded count is a 32-bit integer. */
  lemma DecodedIsClean(channel: string)
    requires Decode(channel).Some?
    ensures Clean(Decode(channel).value.value)
    ensures -INT32_LIMIT <= Decode(channel).value.count < INT32_LIMIT
  {
    var _ := LastPiece(channel);
    var w := Last(Split(channel, ":"));
    FirstPieceClean(w);
    var v := Split(w, "||")[0];
    forall c | c in v ensures c in w { }
  }

  /** A channel that ends in ":" and a colon-free text decodes by that text alone. */
  lemma DecodeTail(pre: string, w: string)
    requires ':' !in w
    ensures |Split(pre + ":" + w, ":")| >= 2 && Last(Split(pre + ":" + w, ":")) == w
  {
    SplitAtColon(pre, w);
    NoColonNoSplit(w);
  }

  /** Cutting `v || d` when `d` has no bar: at the end of `v`, unless `v` itself ends in a bar. */
  lemma CutEncoded(v: string, d: string)
    requires !Contains(v, "||") && '|' !in d
    ensures var s := v + "||" + d;
            if v != "" && Last(v) == '|' then Split(s, "||") == [v[..|v| - 1], "|" + d]
            else Split(s, "||") == [v, d]
  {
    var s := v + "||" + d;
    var cut := if v != "" && Last(v) == '|' then |v| - 1 else |v|;
    forall i: nat ensures i < cut ==> !OccursAt(s, "||", i) { BarsOccur(s, i); BarsOccur(v, i); }
    BarsOccur(s, cut);
    assert Index(s, "||") == cut;
    var rest := s[cut + 2..];
    assert rest == if cut == |v| then d else "|" + d;
    forall i: nat ensures !OccursAt(rest, "||", i) { BarsOccur(rest, i); }
    NoBarsNoSplit(rest);
    assert s[..cut] == v[..cut] && (cut == |v| ==> v[..cut] == v);
  }

  /** The exact round trip: a payload is recovered from its channel name if and only if
      its value is clean and its count fits in 32 signed bits. */
  lemma RoundTrip(pre: string, p: Payload)
    ensures Decode(pre + ":" + Encode(p)) == Some(p) <==>
            Clean(p.value) && -INT32_LIMIT <= p.count < INT32_LIMIT
  {
    var channel := pre + ":" + Encode(p);
    if Decode(channel) == Some(p) {
      DecodedIsClean(channel);
    }
    if Clean(p.value) && -INT32_LIMIT <= p.count < INT32_LIMIT {
      ItoaChars(p.count);
      DecodeTail(pre, Encode(p));
      CutEncoded(p.value, Itoa(p.count));
      ParseItoa(p.count);
    }
  }

  /** Appending a colon-free text to `v` only extends the last segment of `v`. */
  lemma LastSegmentExtends(pre: string, v: string, t: string)
    requires ':' !in t
    ensures var ss := Split(pre + ":" + (v + t), ":");
            |ss| >= 2 && Last(ss) == Last(Split(v, ":")) + t
  {
    SplitAtColon(pre, v + t);
    var head := LastPiece(v);
    var u := Last(Split(v, ":"));
    NoColonNoSplit(u + t);
    if ':' in v {
      Assoc(head + ":", u, t);
      LastAfterColon(head, u + t);
    }
  }

  lemma LastSegmentBarFree(v: string)
    requires !Contains(v, "||")
    ensures !Contains(Last(Split(v, ":")), "||")
  {
    var head := LastPiece(v);
    var u := Last(Split(v, ":"));
    if ':' in v {
      forall i: nat ensures !OccursAt(u, "||", i) {
        BarsOccur(u, i);
        BarsOccur(v, |head| + 1 + i);
      }
    }
  }

  /** A value without "||" is read back from a clean value, and with the count it was stored with
      unless its last segment ends in a bar, which makes the count unreadable and hence 0. */
  lemma DecodeBarFree(pre: string, p: Payload)
    requires !Contains(p.value, "||") && 0 <= p.count < INT32_LIMIT
    ensures var r := Decode(pre + ":" + Encode(p));
            r.Some? && Clean(r.value.value) && (r.value.count == p.count || r.value.count == 0)
  {
    var d := Itoa(p.count);
    var u := Last(Split(p.value, ":"));
    ItoaChars(p.count);
    ParseItoa(p.count);
    assert Encode(p) == p.value + ("||" + d);
    LastSegmentExtends(pre, p.value, "||" + d);
    assert u + ("||" + d) == u + "||" + d;
    LastSegmentBarFree(p.value);
    CutEncoded(u, d);
    DecodedIsClean(pre + ":" + Encode(p));
  }

  /** Every retry key decodes to something, whatever its value. */
  lemma AlwaysDecodes(pre: string, p: Payload)
    ensures Decode(pre + ":" + Encode(p)).Some?
  {
    var d := Itoa(p.count);
    ItoaChars(p.count);
    assert Encode(p) == p.value + ("||" + d);
    LastSegmentExtends(pre, p.value, "||" + d);
    var u := Last(Split(p.value, ":"));
    BarsOccur(u + ("||" + d), |u|);
  }

  /** A text without "||" and without a bar at its end is cut off whole. */
  lemma CutFirst(v: string, rest: string)
    requires !Contains(v, "||") && (v != "" ==> Last(v) != '|')
    ensures Split(v + "||" + rest, "||") == [v] + Split(rest, "||")
  {
    var s := v + "||" + rest;
    forall i: nat ensures i < |v| ==> !OccursAt(s, "||", i) { BarsOccur(s, i); BarsOccur(v, i); }
    BarsOccur(s, |v|);
    assert Index(s, "||") == |v|;
    assert s[..|v|] == v && s[|v| + 2..] == rest;
  }

  lemma NumberBarFree(n: int)
    ensures !Contains(Itoa(n), "||") && Last(Itoa(n)) != '|'
  {
    var d := Itoa(n);
    ItoaChars(n);
    assert Last(d) in d;
    forall i: nat ensures !OccursAt(d, "||", i) { BarsOccur(d, i); }
  }

  /** A value that is itself an encoded payload is read back as that inner payload: its own count
      hides the count it is stored with. */
  lemma NestedPayload(pre: string, q: Payload, count: int)
    requires Clean(q.value) && -INT32_LIMIT <= q.count < INT32_LIMIT
    ensures Decode(pre + ":" + Encode(Payload(Encode(q), count))) == Some(q)
  {
    var s := Encode(Payload(Encode(q), count));
    NestedCut(q, count);
    ItoaChars(q.count);
    ItoaChars(count);
    DecodeTail(pre, s);
    ParseItoa(q.count);
  }

  lemma NestedCut(q: Payload, count: int)
    requires Clean(q.value)
    ensures Split(Encode(Payload(Encode(q), count)), "||") == [q.value, Itoa(q.count)] + Split(Itoa(count), "||")
  {
    var d, d' := Itoa(q.count), Itoa(count);
    Assoc(q.value + "||", d, "||" + d');
    assert Encode(Payload(Encode(q), count)) == q.value + "||" + (d + "||" + d');
    CutFirst(q.value, d + "||" + d');
    NumberBarFree(q.count);
    CutFirst(d, d');
  }
}
