/** Password-based encryption of libs/jwt/PBEWhithMD5AndDES.go: PBKDF1 key derivation (section 5.1
    of RFC 8018), PBES1 padding (section 6.1) and CBC mode (section 6.2 of NIST SP 800-38A).  The
    hash is any function with 16-byte results, the block cipher any keyed permutation of 8-byte
    blocks, and base64 any encoding with a left inverse. */
module Pbe {
  import opened Options

  type Bytes = seq<bv8>

  const BLOCK: nat := 8

  datatype Primitives = Primitives(hash: Bytes -> Bytes,
                                   encrypt: (Bytes, Bytes) -> Bytes, decrypt: (Bytes, Bytes) -> Bytes,
                                   encode64: Bytes -> string, decode64: string -> Option<Bytes>)
  {
    ghost predicate Valid() {
      && (forall x :: |hash(x)| == 16)
      && (forall k, b | |b| == BLOCK :: |encrypt(k, b)| == BLOCK && decrypt(k, encrypt(k, b)) == b)
      && (forall k, b | |b| == BLOCK :: |decrypt(k, b)| == BLOCK && encrypt(k, decrypt(k, b)) == b)
      && (forall x :: decode64(encode64(x)) == Some(x))
    }
  }

  // ---- key derivation ----

  /** T_i of PBKDF1: the hash applied i times, first to the password and salt. */
  ghost function Derived(c: Primitives, password: Bytes, salt: Bytes, i: nat): Bytes
    requires i > 0
  {
    if i == 1 then c.hash(password + salt) else c.hash(Derived(c, password, salt, i - 1))
  }

  ghost function Iterations(count: int): nat { if count > 1 then count else 1 }

  /** A chain of hashes that begins with that of password and salt. */
  ghost predicate IsHashChain(c: Primitives, password: Bytes, salt: Bytes, t: seq<Bytes>) {
    && t != [] && t[0] == c.hash(password + salt)
    && forall n | 1 <= n < |t| :: t[n] == c.hash(t[n - 1])
  }

  /** Key and vector are the halves of the last element of a chain of `count` hashes, at least one. */
  ghost predicate IsKeyAndIv(c: Primitives, password: Bytes, salt: Bytes, count: int, dk: Bytes, iv: Bytes) {
    && |dk| == 8 && |iv| == 8
    && exists t :: IsHashChain(c, password, salt, t) && |t| == (if count < 1 then 1 else count) && t[|t| - 1] == dk + iv
  }

  lemma {:induction false} DerivedChain(c: Primitives, password: Bytes, salt: Bytes, i: nat) returns (t: seq<Bytes>)
    requires i > 0
    ensures IsHashChain(c, password, salt, t) && |t| == i && t[i - 1] == Derived(c, password, salt, i)
  {
    if i == 1 {
      t := [c.hash(password + salt)];
    } else {
      t := DerivedChain(c, password, salt, i - 1);
      t := t + [c.hash(t[i - 2])];
    }
  }

  method GetDerivedKey(c: Primitives, password: Bytes, salt: Bytes, count: int) returns (dk: Bytes, iv: Bytes)
    requires c.Valid()
    ensures |dk| == BLOCK && |iv| == BLOCK
    ensures dk + iv == Derived(c, password, salt, Iterations(count))
    ensures IsKeyAndIv(c, password, salt, count, dk, iv)
  {
    var key := c.hash(password + salt);
    var i := 0;
    while i < count - 1
      invariant 0 <= i <= Iterations(count) - 1
      invariant |key| == 16 && key == Derived(c, password, salt, i + 1)
    {
      key := c.hash(key);
      i := i + 1;
    }
    dk, iv := key[..8], key[8..];
    assert key == dk + iv;
    var t := DerivedChain(c, password, salt, Iterations(count));
  }

  // ---- padding and trimming ----

  function PadByte(p: Bytes): bv8 { (BLOCK - |p| % BLOCK) as bv8 }

  predicate IsPadding(b: bv8) { 1 <= b <= 8 }

  /** Full blocks of 8, with 1 to 8 bytes added, each of them the number of bytes added. */
  ghost predicate IsPadded(p: Bytes, r: Bytes) {
    && |r| % 8 == 0 && |p| < |r| <= |p| + 8 && r[..|p|] == p
    && forall i | |p| <= i < |r| :: r[i] as int == |r| - |p|
  }

  lemma PadByteCounts(p: Bytes)
    ensures PadByte(p) as int == BLOCK - |p| % BLOCK
  {}

  method Pad(p: Bytes) returns (r: Bytes)
    ensures IsPadded(p, r) && r == Padded(p)
  {
    var padNum := BLOCK - |p| % BLOCK;
    r := p;
    var i := 0;
    while i < padNum
      invariant 0 <= i <= padNum && |r| == |p| + i
      invariant r == p + seq(i, j => PadByte(p))
    {
      r := r + [padNum as bv8];
      i := i + 1;
    }
    assert (|p| + padNum) % BLOCK == 0;
    PadByteCounts(p);
  }

  function Padded(p: Bytes): (r: Bytes) {
    p + seq(BLOCK - |p| % BLOCK, i => PadByte(p))
  }

  /** A byte string without its trailing bytes 1 to 8. */
  function Trim(s: Bytes): (r: Bytes)
    ensures r <= s && (r != [] ==> !IsPadding(r[|r| - 1]))
    ensures forall i | |r| <= i < |s| :: IsPadding(s[i])
  {
    if s != [] && IsPadding(s[|s| - 1]) then Trim(s[..|s| - 1]) else s
  }

  /** The longest prefix that does not end in a byte 1 to 8. */
  ghost predicate IsTrimmed(s: Bytes, r: Bytes) {
    && r <= s
    && (r != [] ==> !(1 <= r[|r| - 1] as int <= 8))
    && forall i | |r| <= i < |s| :: 1 <= s[i] as int <= 8
  }

  lemma TrimIsTrimmed(s: Bytes)
    ensures IsTrimmed(s, Trim(s))
  {
    forall b: bv8 ensures IsPadding(b) <==> 1 <= b as int <= 8 { PaddingByte(b); }
  }

  lemma PaddingByte(b: bv8)
    ensures IsPadding(b) <==> 1 <= b as int <= 8
  {}

  method TrimRight(s: Bytes) returns (r: Bytes)
    ensures IsTrimmed(s, r) && r == Trim(s)
  {
    var n := |s|;
    while n > 0 && IsPadding(s[n - 1])
      invariant 0 <= n <= |s| && Trim(s[..n]) == Trim(s)
    {
      assert s[..n][..n - 1] == s[..n - 1];
      n := n - 1;
    }
    r := s[..n];
    TrimIsTrimmed(s);
  }

  /** Trimming is determined by its result: everything after it is padding, its last byte is not. */
  lemma {:induction false} TrimUnique(s: Bytes, r: Bytes)
    requires r <= s && (r != [] ==> !IsPadding(r[|r| - 1])) && forall i | |r| <= i < |s| :: IsPadding(s[i])
    ensures Trim(s) == r
    decreases |s|
  {
    if |r| < |s| { TrimUnique(s[..|s| - 1], r); }
  }

  lemma TrimPadded(p: Bytes)
    ensures Trim(Padded(p)) == Trim(p)
  {
    var s := Padded(p);
    forall i | |Trim(p)| <= i < |s| ensures IsPadding(s[i]) {
      if i >= |p| { PadByteIsPadding(p); }
    }
    TrimUnique(s, Trim(p));
  }

  lemma PadByteIsPadding(p: Bytes)
    ensures IsPadding(PadByte(p))
  {
    var n := BLOCK - |p| % BLOCK;
    assert 1 <= n <= 8;
    assert n == 1 || n == 2 || n == 3 || n == 4 || n == 5 || n == 6 || n == 7 || n == 8;
  }

  // ---- CBC ----

  function Xor(a: Bytes, b: Bytes): (r: Bytes)
    requires |a| == |b|
    ensures |r| == |a|
  {
    seq(|a|, i requires 0 <= i < |a| => a[i] ^ b[i])
  }

  lemma XorTwice(a: Bytes, b: Bytes)
    requires |a| == |b|
    ensures Xor(Xor(a, b), b) == a
  {
    forall i | 0 <= i < |a| ensures (a[i] ^ b[i]) ^ b[i] == a[i] { XorByte(a[i], b[i]); }
  }

  lemma XorByte(x: bv8, y: bv8)
    ensures (x ^ y) ^ y == x
  {}

  ghost predicate Blocks(s: Bytes) { |s| % BLOCK == 0 }

  ghost function CbcEncrypt(c: Primitives, key: Bytes, iv: Bytes, p: Bytes): (r: Bytes)
    requires c.Valid() && |iv| == BLOCK && Blocks(p)
    ensures |r| == |p|
    decreases |p|
  {
    if p == [] then []
    else
      var b := c.encrypt(key, Xor(p[..BLOCK], iv));
      b + CbcEncrypt(c, key, b, p[BLOCK..])
  }

  ghost function CbcDecrypt(c: Primitives, key: Bytes, iv: Bytes, s: Bytes): (r: Bytes)
    requires c.Valid() && |iv| == BLOCK && Blocks(s)
    ensures |r| == |s|
    decreases |s|
  {
    if s == [] then []
    else Xor(c.decrypt(key, s[..BLOCK]), iv) + CbcDecrypt(c, key, s[..BLOCK], s[BLOCK..])
  }

  /** CBC decryption inverts CBC encryption block by block. */
  lemma {:induction false} CbcInverse(c: Primitives, key: Bytes, iv: Bytes, p: Bytes)
    requires c.Valid() && |iv| == BLOCK && Blocks(p)
    ensures CbcDecrypt(c, key, iv, CbcEncrypt(c, key, iv, p)) == p
    decreases |p|
  {
    if p != [] {
      var x := Xor(p[..BLOCK], iv);
      var b := c.encrypt(key, x);
      var rest := CbcEncrypt(c, key, b, p[BLOCK..]);
      var s := CbcEncrypt(c, key, iv, p);
      assert s == b + rest && s[..BLOCK] == b && s[BLOCK..] == rest;
      CbcInverse(c, key, b, p[BLOCK..]);
      XorTwice(p[..BLOCK], iv);
      assert p == p[..BLOCK] + p[BLOCK..];
    }
  }

  // ---- CBC block by block ----

  /** The block of `s` that goes into block j: the vector for the first, the one before for others. */
  function Previous(iv: Bytes, s: Bytes, j: nat, i: nat): bv8
    requires |iv| == 8 && i < 8 && 8 * j <= |s|
  {
    if j == 0 then iv[i] else s[8 * (j - 1) + i]
  }

  /** Block j of `r` is the encryption of block j of `p`, combined byte by byte with what precedes it. */
  ghost predicate ChainedBlock(c: Primitives, key: Bytes, iv: Bytes, p: Bytes, r: Bytes, j: nat)
    requires |iv| == 8 && |r| == |p| && 8 * j + 8 <= |p|
  {
    exists x: Bytes ::
      && |x| == 8 && r[8 * j..8 * j + 8] == c.encrypt(key, x)
      && forall i: nat | i < 8 :: x[i] == p[8 * j + i] ^ Previous(iv, r, j, i)
  }

  ghost predicate IsCbc(c: Primitives, key: Bytes, iv: Bytes, p: Bytes, r: Bytes) {
    |iv| == 8 && |r| == |p| && forall j: nat | 8 * j + 8 <= |p| :: ChainedBlock(c, key, iv, p, r, j)
  }

  /** Byte i of block j of `r` is that of the decrypted block of `s`, combined with what precedes it. */
  ghost predicate UnchainedBlock(c: Primitives, key: Bytes, iv: Bytes, s: Bytes, r: Bytes, j: nat)
    requires |iv| == 8 && |r| == |s| && 8 * j + 8 <= |s|
  {
    var d := c.decrypt(key, s[8 * j..8 * j + 8]);
    |d| == 8 && forall i: nat | i < 8 :: r[8 * j + i] == d[i] ^ Previous(iv, s, j, i)
  }

  ghost predicate IsUncbc(c: Primitives, key: Bytes, iv: Bytes, s: Bytes, r: Bytes) {
    |iv| == 8 && |r| == |s| && forall j: nat | 8 * j + 8 <= |s| :: UnchainedBlock(c, key, iv, s, r, j)
  }

  lemma XorBytes(a: Bytes, b: Bytes)
    requires |a| == |b|
    ensures forall i | 0 <= i < |a| :: Xor(a, b)[i] == a[i] ^ b[i]
  {}

  /** The blocks behind the first are chained from the first one on. */
  lemma ShiftedChain(c: Primitives, key: Bytes, iv: Bytes, p: Bytes, r: Bytes, j: nat)
    requires |iv| == 8 && |r| == |p| && 0 < j && 8 * j + 8 <= |p|
    requires ChainedBlock(c, key, r[..8], p[8..], r[8..], j - 1)
    ensures ChainedBlock(c, key, iv, p, r, j)
  {
    var k, p', r' := j - 1, p[8..], r[8..];
    var x: Bytes :| && |x| == 8 && r'[8 * k..8 * k + 8] == c.encrypt(key, x)
                    && forall i: nat | i < 8 :: x[i] == p'[8 * k + i] ^ Previous(r[..8], r', k, i);
    assert r'[8 * k..8 * k + 8] == r[8 * j..8 * j + 8];
    forall i: nat | i < 8 ensures x[i] == p[8 * j + i] ^ Previous(iv, r, j, i) {
      assert p'[8 * k + i] == p[8 * j + i];
      assert Previous(r[..8], r', k, i) == Previous(iv, r, j, i);
    }
  }

  lemma {:induction false} CbcIsChained(c: Primitives, key: Bytes, iv: Bytes, p: Bytes)
    requires c.Valid() && |iv| == BLOCK && Blocks(p)
    ensures IsCbc(c, key, iv, p, CbcEncrypt(c, key, iv, p))
    decreases |p|
  {
    var r := CbcEncrypt(c, key, iv, p);
    if p != [] {
      var x := Xor(p[..BLOCK], iv);
      var b := c.encrypt(key, x);
      assert r[..8] == b && r[8..] == CbcEncrypt(c, key, b, p[8..]);
      CbcIsChained(c, key, b, p[BLOCK..]);
      forall j: nat | 8 * j + 8 <= |p| ensures ChainedBlock(c, key, iv, p, r, j) {
        if j == 0 {
          XorBytes(p[..BLOCK], iv);
          assert r[8 * j..8 * j + 8] == b;
        } else {
          assert ChainedBlock(c, key, b, p[8..], r[8..], j - 1);
          ShiftedChain(c, key, iv, p, r, j);
        }
      }
    }
  }

  lemma ShiftedUnchain(c: Primitives, key: Bytes, iv: Bytes, s: Bytes, r: Bytes, j: nat)
    requires |iv| == 8 && |r| == |s| && 0 < j && 8 * j + 8 <= |s|
    requires UnchainedBlock(c, key, s[..8], s[8..], r[8..], j - 1)
    ensures UnchainedBlock(c, key, iv, s, r, j)
  {
    var k, s', r' := j - 1, s[8..], r[8..];
    assert s'[8 * k..8 * k + 8] == s[8 * j..8 * j + 8];
    var d := c.decrypt(key, s[8 * j..8 * j + 8]);
    forall i: nat | i < 8 ensures r[8 * j + i] == d[i] ^ Previous(iv, s, j, i) {
      assert r'[8 * k + i] == r[8 * j + i];
      assert Previous(s[..8], s', k, i) == Previous(iv, s, j, i);
    }
  }

  lemma {:induction false} CbcIsUnchained(c: Primitives, key: Bytes, iv: Bytes, s: Bytes)
    requires c.Valid() && |iv| == BLOCK && Blocks(s)
    ensures IsUncbc(c, key, iv, s, CbcDecrypt(c, key, iv, s))
    decreases |s|
  {
    var r := CbcDecrypt(c, key, iv, s);
    if s != [] {
      var d := c.decrypt(key, s[..BLOCK]);
      assert r[..8] == Xor(d, iv) && r[8..] == CbcDecrypt(c, key, s[..8], s[8..]);
      CbcIsUnchained(c, key, s[..BLOCK], s[BLOCK..]);
      forall j: nat | 8 * j + 8 <= |s| ensures UnchainedBlock(c, key, iv, s, r, j) {
        if j == 0 {
          XorBytes(d, iv);
          assert s[8 * j..8 * j + 8] == s[..8];
          assert forall i: nat | i < 8 :: r[i] == r[..8][i];
        } else {
          assert UnchainedBlock(c, key, s[..8], s[8..], r[8..], j - 1);
          ShiftedUnchain(c, key, iv, s, r, j);
        }
      }
    }
  }

  lemma Assoc(a: Bytes, b: Bytes, c: Bytes)
    ensures a + (b + c) == a + b + c
  {}

  lemma EncryptOneBlock(c: Primitives, key: Bytes, prev: Bytes, src: Bytes, i: nat)
    requires c.Valid() && |prev| == BLOCK && Blocks(src) && i % BLOCK == 0 && i < |src|
    ensures i + BLOCK <= |src| && Blocks(src[i..]) && Blocks(src[i + BLOCK..])
    ensures var b := c.encrypt(key, Xor(src[i..i + BLOCK], prev));
            CbcEncrypt(c, key, prev, src[i..]) == b + CbcEncrypt(c, key, b, src[i + BLOCK..])
  {
    assert src[i..][..BLOCK] == src[i..i + BLOCK] && src[i..][BLOCK..] == src[i + BLOCK..];
  }

  lemma DecryptOneBlock(c: Primitives, key: Bytes, prev: Bytes, src: Bytes, i: nat)
    requires c.Valid() && |prev| == BLOCK && Blocks(src) && i % BLOCK == 0 && i < |src|
    ensures i + BLOCK <= |src| && Blocks(src[i..]) && Blocks(src[i + BLOCK..])
    ensures var b := src[i..i + BLOCK];
            CbcDecrypt(c, key, prev, src[i..]) == Xor(c.decrypt(key, b), prev) + CbcDecrypt(c, key, b, src[i + BLOCK..])
  {
    assert src[i..][..BLOCK] == src[i..i + BLOCK] && src[i..][BLOCK..] == src[i + BLOCK..];
  }

  /** The encrypter filling its output buffer in place. */
  method EncryptBlocks(c: Primitives, key: Bytes, iv: Bytes, dst: array<bv8>, src: Bytes)
    requires c.Valid() && |iv| == BLOCK && Blocks(src) && dst.Length == |src|
    modifies dst
    ensures dst[..] == CbcEncrypt(c, key, iv, src)
    ensures IsCbc(c, key, iv, src, dst[..])
  {
    CbcIsChained(c, key, iv, src);
    var prev, i := iv, 0;
    ghost var rest := CbcEncrypt(c, key, iv, src);
    assert src[0..] == src;
    while i < |src|
      invariant 0 <= i <= |src| && i % BLOCK == 0 && |prev| == BLOCK && Blocks(src[i..])
      invariant rest == CbcEncrypt(c, key, prev, src[i..])
      invariant dst[..i] + rest == CbcEncrypt(c, key, iv, src)
    {
      EncryptOneBlock(c, key, prev, src, i);
      prev := c.encrypt(key, Xor(src[i..i + BLOCK], prev));
      ghost var next := CbcEncrypt(c, key, prev, src[i + BLOCK..]);
      Assoc(dst[..i], prev, next);
      CopyBlock(dst, i, prev);
      rest := next;
      i := i + BLOCK;
    }
  }

  /** The decrypter filling its output buffer in place. */
  method DecryptBlocks(c: Primitives, key: Bytes, iv: Bytes, dst: array<bv8>, src: Bytes)
    requires c.Valid() && |iv| == BLOCK && Blocks(src) && dst.Length == |src|
    modifies dst
    ensures dst[..] == CbcDecrypt(c, key, iv, src)
    ensures IsUncbc(c, key, iv, src, dst[..])
  {
    CbcIsUnchained(c, key, iv, src);
    var prev, i := iv, 0;
    ghost var rest := CbcDecrypt(c, key, iv, src);
    assert src[0..] == src;
    while i < |src|
      invariant 0 <= i <= |src| && i % BLOCK == 0 && |prev| == BLOCK && Blocks(src[i..])
      invariant rest == CbcDecrypt(c, key, prev, src[i..])
      invariant dst[..i] + rest == CbcDecrypt(c, key, iv, src)
    {
      DecryptOneBlock(c, key, prev, src, i);
      var b := src[i..i + BLOCK];
      var text := Xor(c.decrypt(key, b), prev);
      ghost var next := CbcDecrypt(c, key, b, src[i + BLOCK..]);
      Assoc(dst[..i], text, next);
      CopyBlock(dst, i, text);
      prev := b;
      rest := next;
      i := i + BLOCK;
    }
  }

  method CopyBlock(dst: array<bv8>, at: nat, b: Bytes)
    requires |b| == BLOCK && at + BLOCK <= dst.Length
    modifies dst
    ensures dst[..at] == old(dst[..at]) && dst[at..at + BLOCK] == b
    ensures dst[..at + BLOCK] == old(dst[..at]) + b
  {
    forall j | 0 <= j < BLOCK { dst[at + j] := b[j]; }
  }

  // ---- encryption and decryption ----

  datatype Outcome = Text(bytes: Bytes) | DecodeError | Panics

  lemma {:induction false} DerivedLength(c: Primitives, password: Bytes, salt: Bytes, i: nat)
    requires c.Valid() && i > 0
    ensures |Derived(c, password, salt, i)| == 16
  {}

  lemma PaddedLength(p: Bytes)
    ensures |Padded(p)| % BLOCK == 0
  {}

  /** The derived key and initialisation vector. */
  ghost function KeyAndIv(c: Primitives, password: Bytes, salt: Bytes, count: int): (k: (Bytes, Bytes))
    requires c.Valid()
    ensures |k.0| == BLOCK && |k.1| == BLOCK
  {
    var t := Derived(c, password, salt, Iterations(count));
    DerivedLength(c, password, salt, Iterations(count));
    (t[..8], t[8..])
  }

  ghost function Encrypted(c: Primitives, password: Bytes, p: Bytes, salt: Bytes, count: int): (r: Bytes)
    requires c.Valid()
    ensures Blocks(r)
  {
    var k := KeyAndIv(c, password, salt, count);
    PaddedLength(p);
    CbcEncrypt(c, k.0, k.1, Padded(p))
  }

  /** The CBC decrypter panics on input that is not made of full blocks. */
  ghost function Decrypted(c: Primitives, password: Bytes, s: Bytes, salt: Bytes, count: int): (r: Outcome)
    requires c.Valid()
    ensures r.Panics? <==> !Blocks(s)
  {
    if !Blocks(s) then Panics
    else
      var k := KeyAndIv(c, password, salt, count);
      Text(Trim(CbcDecrypt(c, k.0, k.1, s)))
  }

  /** What an encryption is, block by block and byte by byte. */
  ghost predicate IsEncryption(c: Primitives, password: Bytes, p: Bytes, salt: Bytes, count: int, r: Bytes) {
    exists dk, iv, padded ::
      IsKeyAndIv(c, password, salt, count, dk, iv) && IsPadded(p, padded) && IsCbc(c, dk, iv, padded, r)
  }

  ghost predicate IsDecryption(c: Primitives, password: Bytes, s: Bytes, salt: Bytes, count: int, r: Bytes) {
    exists dk, iv, text ::
      IsKeyAndIv(c, password, salt, count, dk, iv) && IsUncbc(c, dk, iv, s, text) && IsTrimmed(text, r)
  }

  method DoEncrypt(c: Primitives, password: Bytes, p: Bytes, salt: Bytes, count: int) returns (r: Bytes)
    requires c.Valid()
    ensures IsEncryption(c, password, p, salt, count, r)
    ensures r == Encrypted(c, password, p, salt, count)
  {
    var padded := Pad(p);
    var dk, iv := GetDerivedKey(c, password, salt, count);
    assert (dk + iv)[..8] == dk && (dk + iv)[8..] == iv;
    var encrypted := new bv8[|padded|];
    EncryptBlocks(c, dk, iv, encrypted, padded);
    r := encrypted[..];
  }

  method DoDecrypt(c: Primitives, password: Bytes, s: Bytes, salt: Bytes, count: int) returns (r: Outcome)
    requires c.Valid()
    ensures r.Panics? <==> |s| % 8 != 0
    ensures !r.Panics? ==> r.Text? && IsDecryption(c, password, s, salt, count, r.bytes)
    ensures r == Decrypted(c, password, s, salt, count)
  {
    var dk, iv := GetDerivedKey(c, password, salt, count);
    assert (dk + iv)[..8] == dk && (dk + iv)[8..] == iv;
    if |s| % BLOCK != 0 {
      return Panics;
    }
    var decrypted := new bv8[|s|];
    DecryptBlocks(c, dk, iv, decrypted, s);
    var text := TrimRight(decrypted[..]);
    r := Text(text);
  }

  /** Encrypt: the salt, or nothing when the random source fails. */
  method Encrypt(c: Primitives, password: Bytes, count: int, p: Bytes, salt: Option<Bytes>) returns (r: Option<string>)
    requires c.Valid() && (salt.Some? ==> |salt.value| == 8)
    ensures salt.None? ==> r == None
    ensures salt.Some? ==>
              exists e :: IsEncryption(c, password, p, salt.value, count, e) && r == Some(c.encode64(salt.value + e))
    ensures salt.Some? ==> r == Some(Sealed(c, password, count, p, salt.value))
  {
    if salt.None? {
      return None;
    }
    var encText := DoEncrypt(c, password, p, salt.value, count);
    r := Some(c.encode64(salt.value + encText));
  }

  method Decrypt(c: Primitives, password: Bytes, count: int, text: string) returns (r: Outcome)
    requires c.Valid()
    ensures r.DecodeError? <==> c.decode64(text).None?
    ensures r.Panics? <==> c.decode64(text).Some? && (|c.decode64(text).value| < 8 || |c.decode64(text).value| % 8 != 0)
    ensures r.Text? ==> var msg := c.decode64(text).value;
                        IsDecryption(c, password, msg[8..], msg[..8], count, r.bytes)
    ensures r == Opened(c, password, count, text)
  {
    var msg := c.decode64(text);
    if msg.None? {
      return DecodeError;
    }
    if |msg.value| < 8 {
      return Panics;
    }
    r := DoDecrypt(c, password, msg.value[8..], msg.value[..8], count);
  }

  ghost function Sealed(c: Primitives, password: Bytes, count: int, p: Bytes, salt: Bytes): string
    requires c.Valid()
  {
    c.encode64(salt + Encrypted(c, password, p, salt, count))
  }

  ghost function Opened(c: Primitives, password: Bytes, count: int, text: string): Outcome
    requires c.Valid()
  {
    match c.decode64(text)
    case None => DecodeError
    case Some(msg) => if |msg| < 8 then Panics else Decrypted(c, password, msg[8..], msg[..8], count)
  }

  /** Decrypting an encryption under the same password, salt and count returns the plaintext without
      its trailing bytes 1 to 8, hence the plaintext itself exactly when it does not end in one. */
  lemma RoundTrip(c: Primitives, password: Bytes, p: Bytes, salt: Bytes, count: int)
    requires c.Valid()
    ensures Decrypted(c, password, Encrypted(c, password, p, salt, count), salt, count) == Text(Trim(p))
    ensures Decrypted(c, password, Encrypted(c, password, p, salt, count), salt, count) == Text(p)
            <==> (p == [] || !IsPadding(p[|p| - 1]))
  {
    var k := KeyAndIv(c, password, salt, count);
    PaddedLength(p);
    CbcInverse(c, k.0, k.1, Padded(p));
    TrimPadded(p);
  }

  lemma OpenedSealed(c: Primitives, password: Bytes, count: int, p: Bytes, salt: Bytes)
    requires c.Valid() && |salt| == 8
    ensures Opened(c, password, count, Sealed(c, password, count, p, salt))
            == Decrypted(c, password, Encrypted(c, password, p, salt, count), salt, count)
  {
    var s := Encrypted(c, password, p, salt, count);
    var msg := salt + s;
    assert c.decode64(c.encode64(msg)) == Some(msg);
    assert msg[..8] == salt && msg[8..] == s;
  }

  /** The same for the public pair, which carries its 8 bytes of salt in front of the text. */
  lemma SealedRoundTrip(c: Primitives, password: Bytes, count: int, p: Bytes, salt: Bytes)
    requires c.Valid() && |salt| == 8
    ensures Opened(c, password, count, Sealed(c, password, count, p, salt)) == Text(Trim(p))
    ensures Opened(c, password, count, Sealed(c, password, count, p, salt)) == Text(p)
            <==> (p == [] || !IsPadding(p[|p| - 1]))
  {
    OpenedSealed(c, password, count, p, salt);
    RoundTrip(c, password, p, salt, count);
  }
}
