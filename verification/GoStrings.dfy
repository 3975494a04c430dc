/** The parts of Go's `strings` and `strconv` packages that the Redis code relies on:
    splitting on a separator, joining, decimal formatting and 32-bit decimal parsing. */
module GoStrings {

  predicate OccursAt(s: string, sep: string, i: nat) {
    i + |sep| <= |s| && s[i..i + |sep|] == sep
  }

  ghost predicate Contains(s: string, sep: string) {
    exists i: nat :: OccursAt(s, sep, i)
  }

  /** `strings.Index`, searching from `from`: the first occurrence, or -1. */
  function Index(s: string, sep: string, from: nat := 0): (r: int)
    requires from <= |s|
    ensures r == -1 || (from <= r && OccursAt(s, sep, r))
    ensures forall i: nat :: from <= i && (r == -1 || i < r) ==> !OccursAt(s, sep, i)
    decreases |s| - from
  {
    if OccursAt(s, sep, from) then from
    else if from == |s| then -1
    else Index(s, sep, from + 1)
  }

  /** `strings.Split` for a non-empty separator. */
  function Split(s: string, sep: string): (parts: seq<string>)
    requires sep != ""
    ensures parts != []
    decreases |s|
  {
    var i := Index(s, sep);
    if i == -1 then [s] else [s[..i]] + Split(s[i + |sep|..], sep)
  }

  /** `strings.Join`. */
  function Join(parts: seq<string>, sep: string): string {
    if parts == [] then ""
    else if |parts| == 1 then parts[0]
    else parts[0] + sep + Join(parts[1..], sep)
  }

  /** Splitting and joining with the same separator is the identity. */
  lemma {:induction false} JoinSplit(s: string, sep: string)
    requires sep != ""
    ensures Join(Split(s, sep), sep) == s
    decreases |s|
  {
    var i := Index(s, sep);
    if i != -1 {
      var rest := s[i + |sep|..];
      JoinSplit(rest, sep);
      assert Split(s, sep)[1..] == Split(rest, sep);
      assert s == s[..i] + s[i..i + |sep|] + rest;
    }
  }

  lemma ColonOccurs(s: string, i: nat)
    ensures OccursAt(s, ":", i) <==> i < |s| && s[i] == ':'
  {
    if i < |s| { assert s[i..i + 1] == [s[i]]; }
  }

  lemma NoColonNoSplit(s: string)
    requires ':' !in s
    ensures Split(s, ":") == [s]
  {
    var i := Index(s, ":");
    if i != -1 { ColonOccurs(s, i); }
  }

  lemma SplitFirst(a: string, rest: string)
    requires ':' !in a
    ensures Split(a + ":" + rest, ":") == [a] + Split(rest, ":")
  {
    var s := a + ":" + rest;
    forall j: nat ensures j < |a| ==> !OccursAt(s, ":", j) { ColonOccurs(s, j); }
    ColonOccurs(s, |a|);
    assert Index(s, ":") == |a|;
    assert s[..|a|] == a && s[|a| + 1..] == rest;
  }

  /** The part of a text before its first colon, and the part after it. */
  lemma FirstColon(s: string) returns (a: string, b: string)
    requires ':' in s
    ensures ':' !in a && s == a + ":" + b
  {
    var i := Index(s, ":");
    var k :| 0 <= k < |s| && s[k] == ':';
    ColonOccurs(s, k);
    ColonOccurs(s, i);
    a, b := s[..i], s[i + 1..];
    forall j: nat | j < i ensures a[j] != ':' { ColonOccurs(s, j); }
  }

  lemma Assoc<T>(a: seq<T>, b: seq<T>, c: seq<T>)
    ensures a + b + c == a + (b + c)
  {}

  lemma Reassociate(x: string, y: string, b: string)
    ensures x + ":" + y + ":" + b == x + ":" + (y + ":" + b)
  {}

  /** A colon between two texts is always a cut: `Split` distributes over it. */
  lemma {:induction false} SplitAtColon(a: string, b: string)
    ensures Split(a + ":" + b, ":") == Split(a, ":") + Split(b, ":")
    decreases |a|
  {
    if ':' !in a {
      NoColonNoSplit(a);
      SplitFirst(a, b);
    } else {
      var x, y := FirstColon(a);
      Reassociate(x, y, b);
      SplitFirst(x, y);
      SplitFirst(x, y + ":" + b);
      SplitAtColon(y, b);
      Assoc([x], Split(y, ":"), Split(b, ":"));
    }
  }

  function Last<T>(xs: seq<T>): T
    requires xs != []
  {
    xs[|xs| - 1]
  }

  lemma LastAfterColon(a: string, b: string)
    ensures Last(Split(a + ":" + b, ":")) == Last(Split(b, ":"))
  {
    SplitAtColon(a, b);
  }

  /** The last piece of a split on ":" is colon-free, and it is what follows the last colon. */
  lemma {:induction false} LastPiece(s: string) returns (head: string)
    ensures var w := Last(Split(s, ":"));
            ':' !in w && (if ':' in s then s == head + ":" + w else s == w)
    decreases |s|
  {
    if ':' !in s {
      NoColonNoSplit(s);
      head := "";
    } else {
      var a, b := FirstColon(s);
      head := LastPiece(b);
      LastAfterColon(a, b);
      var w := Last(Split(b, ":"));
      if ':' in b {
        Reassociate(a, head, w);
        head := a + ":" + head;
      } else {
        head := a;
      }
    }
  }

  // ---- decimal numbers ----

  function Digit(d: nat): char
    requires d < 10
  {
    ('0' as int + d) as char
  }

  predicate IsDigit(c: char) { '0' <= c <= '9' }

  /** `%d` of a non-negative integer. */
  function Digits(n: nat): (s: string)
    ensures s != "" && forall c | c in s :: IsDigit(c)
  {
    if n < 10 then [Digit(n)] else Digits(n / 10) + [Digit(n % 10)]
  }

  /** `%d` of a signed integer. */
  function Itoa(n: int): string {
    if n < 0 then "-" + Digits(-n) else Digits(n)
  }

  datatype Scanned = Number(n: nat) | Syntax | Range

  const UINT32_MAX: int := 0xFFFF_FFFF
  const INT32_LIMIT: int := 0x8000_0000

  /** The digit loop of `strconv.ParseUint(s, 10, 32)`: it stops at the first bad character
      or at the first value above the limit, whichever comes first. */
  function Scan(s: string, acc: nat): Scanned {
    if s == "" then Number(acc)
    else if !IsDigit(s[0]) then Syntax
    else
      var next := acc * 10 + (s[0] as int - '0' as int);
      if next > UINT32_MAX then Range else Scan(s[1..], next)
  }

  /** The value that `strconv.ParseInt(s, 10, 32)` returns beside its error:
      0 for a malformed number, the nearest bound for one out of range. */
  function ParseInt32(s: string): (r: int)
    ensures -INT32_LIMIT <= r < INT32_LIMIT
  {
    var neg := s != "" && s[0] == '-';
    var body := if s != "" && (s[0] == '-' || s[0] == '+') then s[1..] else s;
    if body == "" then 0
    else
      match Scan(body, 0)
      case Syntax => 0
      case Range => if neg then -INT32_LIMIT else INT32_LIMIT - 1
      case Number(n) =>
        if neg then (if n > INT32_LIMIT then -INT32_LIMIT else 0 - n)
        else if n >= INT32_LIMIT then INT32_LIMIT - 1 else n
  }

  lemma {:induction false} ScanAppend(a: string, b: string, acc: nat)
    requires Scan(a, acc).Number?
    ensures Scan(a + b, acc) == Scan(b, Scan(a, acc).n)
    decreases |a|
  {
    if a == "" {
      assert a + b == b;
    } else {
      assert (a + b)[1..] == a[1..] + b;
      ScanAppend(a[1..], b, acc * 10 + (a[0] as int - '0' as int));
    }
  }

  lemma {:induction false} ScanDigits(n: nat)
    requires n <= UINT32_MAX
    ensures Scan(Digits(n), 0) == Number(n)
  {
    if n >= 10 {
      ScanDigits(n / 10);
      ScanAppend(Digits(n / 10), [Digit(n % 10)], 0);
    }
  }

  /** Formatting and parsing are inverse exactly on the 32-bit signed range. */
  lemma ParseItoa(n: int)
    ensures ParseInt32(Itoa(n)) == n <==> -INT32_LIMIT <= n < INT32_LIMIT
  {
    if -INT32_LIMIT <= n < INT32_LIMIT {
      if n < 0 {
        ScanDigits(-n);
        assert Itoa(n)[1..] == Digits(-n);
      } else {
        ScanDigits(n);
        assert IsDigit(Digits(n)[0]);
      }
    }
  }

  /** A formatted number contains neither of the separators used in keys. */
  lemma ItoaChars(n: int)
    ensures Itoa(n) != "" && '|' !in Itoa(n) && ':' !in Itoa(n)
  {
    var d := if n < 0 then Digits(-n) else Digits(n);
    forall c | c in Itoa(n) ensures c == '-' || IsDigit(c) {
      if n < 0 && c != '-' { assert c in d; }
    }
  }
}
