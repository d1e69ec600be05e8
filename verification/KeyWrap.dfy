/** Key wrapping as defined in RFC 3394, over an arbitrary block cipher with 16-byte blocks. */
module KeyWrap {
  type Octet = bv8
  type Octets = seq<Octet>

  type Half = b: Octets | |b| == 8 witness [0, 0, 0, 0, 0, 0, 0, 0]

  /** The two directions of a block cipher under one key. */
  datatype Cipher = Cipher(encrypt: Octets -> Octets, decrypt: Octets -> Octets)

  /** Both directions map blocks to blocks, and each undoes the other. */
  ghost predicate IsCipher(c: Cipher) {
    && (forall b: Octets {:trigger c.encrypt(b)} :: |b| == 16 ==> |c.encrypt(b)| == 16 && c.decrypt(c.encrypt(b)) == b)
    && (forall b: Octets {:trigger c.decrypt(b)} :: |b| == 16 ==> |c.decrypt(b)| == 16 && c.encrypt(c.decrypt(b)) == b)
  }

  datatype Result<+T> = Ok(value: T) | Malformed | IntegrityCheckFailed

  // ---------------------------------------------------------------- 64-bit quantities

  /** Big-endian encoding of 64 bits. */
  function Pack(a: bv64): Half
  {
    [(a >> 56) as bv8, ((a >> 48) & 0xff) as bv8, ((a >> 40) & 0xff) as bv8, ((a >> 32) & 0xff) as bv8,
     ((a >> 24) & 0xff) as bv8, ((a >> 16) & 0xff) as bv8, ((a >> 8) & 0xff) as bv8, (a & 0xff) as bv8]
  }

  function Unpack(b: Half): bv64
  {
    (b[0] as bv64 << 56) | (b[1] as bv64 << 48) | (b[2] as bv64 << 40) | (b[3] as bv64 << 32)
    | (b[4] as bv64 << 24) | (b[5] as bv64 << 16) | (b[6] as bv64 << 8) | (b[7] as bv64)
  }

  lemma {:induction false} UnpackPack(a: bv64)
    ensures Unpack(Pack(a)) == a
  {
  }

  lemma {:induction false} PackUnpack(b: Half)
    ensures Pack(Unpack(b)) == b
  {
  }

  /** The register's value with step counter `t` mixed in. */
  function Mix(a: bv64, t: nat): bv64 {
    a ^ ((t % 0x1_0000_0000_0000_0000) as bv64)
  }

  lemma {:induction false} MixTwice(a: bv64, t: nat)
    ensures Mix(Mix(a, t), t) == a
  {
  }

  /** Encryption of a block that is made of a number and a half. */
  function Encrypt(c: Cipher, a: bv64, half: Half): (bv64, Half)
    requires IsCipher(c)
  {
    var b := c.encrypt(Pack(a) + half);
    (Unpack(b[..8]), b[8..])
  }

  function Decrypt(c: Cipher, a: bv64, half: Half): (bv64, Half)
    requires IsCipher(c)
  {
    var b := c.decrypt(Pack(a) + half);
    (Unpack(b[..8]), b[8..])
  }

  lemma {:induction false} SplitBlock(a: bv64, half: Half)
    ensures (Pack(a) + half)[..8] == Pack(a) && (Pack(a) + half)[8..] == half
  {
  }

  lemma {:induction false} JoinBlock(b: Octets)
    requires |b| == 16
    ensures Pack(Unpack(b[..8])) + b[8..] == b
  {
    hide Pack, Unpack;
    PackUnpack(b[..8]);
  }

  lemma {:induction false} DecryptEncrypt(c: Cipher, a: bv64, half: Half)
    requires IsCipher(c)
    ensures var (x, h) := Encrypt(c, a, half); Decrypt(c, x, h) == (a, half)
  {
    hide Pack, Unpack;
    JoinBlock(c.encrypt(Pack(a) + half));
    SplitBlock(a, half);
    UnpackPack(a);
  }

  lemma {:induction false} EncryptDecrypt(c: Cipher, a: bv64, half: Half)
    requires IsCipher(c)
    ensures var (x, h) := Decrypt(c, a, half); Encrypt(c, x, h) == (a, half)
  {
    hide Pack, Unpack;
    JoinBlock(c.decrypt(Pack(a) + half));
    SplitBlock(a, half);
    UnpackPack(a);
  }

  // ---------------------------------------------------------------- the definition of RFC 3394

  /** The register `A` and the 64-bit halves `R` of the key. */
  datatype Register = Register(a: bv64, r: seq<Half>)

  /** Step `t` of the wrapping process in section 2.2.1: encrypt the first half and shift it to the end. */
  function ShiftStep(c: Cipher, t: nat, s: Register): Register
    requires IsCipher(c) && s.r != []
  {
    var (a, half) := Encrypt(c, s.a, s.r[0]);
    Register(Mix(a, t), s.r[1..] + [half])
  }

  /** The first `t` steps of section 2.2.1. */
  function Shift(c: Cipher, t: nat, s: Register): (r: Register)
    requires IsCipher(c) && (t > 0 ==> s.r != [])
    ensures |r.r| == |s.r|
  {
    if t == 0 then s else ShiftStep(c, t, Shift(c, t - 1, s))
  }

  /** One step of the unwrapping process in section 2.2.2: decrypt the last half and shift it to the front. */
  function UnshiftStep(c: Cipher, t: nat, s: Register): Register
    requires IsCipher(c) && s.r != []
  {
    var n := |s.r| - 1;
    var (a, half) := Decrypt(c, Mix(s.a, t), s.r[n]);
    Register(a, [half] + s.r[..n])
  }

  /** Steps `t`, `t - 1`, ..., 1 of section 2.2.2. */
  function Unshift(c: Cipher, t: nat, s: Register): (r: Register)
    requires IsCipher(c) && (t > 0 ==> s.r != [])
    ensures |r.r| == |s.r|
    decreases t
  {
    if t == 0 then s else Unshift(c, t - 1, UnshiftStep(c, t, s))
  }

  lemma {:induction false} UnshiftShiftStep(c: Cipher, t: nat, s: Register)
    requires IsCipher(c) && s.r != []
    ensures UnshiftStep(c, t, ShiftStep(c, t, s)) == s
  {
    hide Encrypt, Decrypt, Mix, IsCipher;
    var (a, half) := Encrypt(c, s.a, s.r[0]);
    DecryptEncrypt(c, s.a, s.r[0]);
    MixTwice(a, t);
    assert [s.r[0]] + (s.r[1..] + [half])[..|s.r| - 1] == s.r;
  }

  lemma {:induction false} ShiftUnshiftStep(c: Cipher, t: nat, s: Register)
    requires IsCipher(c) && s.r != []
    ensures ShiftStep(c, t, UnshiftStep(c, t, s)) == s
  {
    hide Encrypt, Decrypt, Mix, IsCipher;
    var n := |s.r| - 1;
    var (a, half) := Decrypt(c, Mix(s.a, t), s.r[n]);
    EncryptDecrypt(c, Mix(s.a, t), s.r[n]);
    MixTwice(s.a, t);
    assert ([half] + s.r[..n])[1..] + [s.r[n]] == s.r;
  }

  /** Section 2.2.2 undoes section 2.2.1. */
  lemma {:induction false} UnshiftShift(c: Cipher, t: nat, s: Register)
    requires IsCipher(c) && (t > 0 ==> s.r != [])
    ensures Unshift(c, t, Shift(c, t, s)) == s
  {
    hide ShiftStep, UnshiftStep, IsCipher;
    if t > 0 {
      UnshiftShiftStep(c, t, Shift(c, t - 1, s));
      UnshiftShift(c, t - 1, s);
    }
  }

  /** Section 2.2.1 undoes section 2.2.2. */
  lemma {:induction false} ShiftUnshift(c: Cipher, t: nat, s: Register)
    requires IsCipher(c) && (t > 0 ==> s.r != [])
    ensures Shift(c, t, Unshift(c, t, s)) == s
    decreases t
  {
    hide ShiftStep, UnshiftStep, IsCipher;
    if t > 0 {
      ShiftUnshiftStep(c, t, s);
      UnshiftLength(c, t, s);
      ShiftUnshift(c, t - 1, UnshiftStep(c, t, s));
    }
  }

  lemma {:induction false} UnshiftLength(c: Cipher, t: nat, s: Register)
    requires IsCipher(c) && s.r != []
    ensures |UnshiftStep(c, t, s).r| == |s.r|
  {
  }

  // ---------------------------------------------------------------- keys as byte strings

  /** The halves of a byte string; a trailing piece of fewer than eight bytes is not part of any. */
  function Chunks(b: Octets): (r: seq<Half>)
    ensures |r| == |b| / 8
  {
    if |b| < 8 then [] else [b[..8]] + Chunks(b[8..])
  }

  function Concat(r: seq<Half>): (b: Octets)
    ensures |b| == 8 * |r|
  {
    if r == [] then [] else r[0] + Concat(r[1..])
  }

  /** The part of a byte string that its halves cover. */
  function Whole(b: Octets): Octets {
    b[..|b| / 8 * 8]
  }

  lemma {:induction false} ConcatChunks(b: Octets)
    ensures Concat(Chunks(b)) == Whole(b)
  {
    if |b| >= 8 {
      ConcatChunks(b[8..]);
      assert Chunks(b)[1..] == Chunks(b[8..]);
      assert Whole(b) == b[..8] + Whole(b[8..]);
    }
  }

  lemma {:induction false} ChunksConcat(r: seq<Half>, tail: Octets)
    requires |tail| < 8
    ensures Chunks(Concat(r) + tail) == r
  {
    if r != [] {
      var b := Concat(r) + tail;
      ChunksConcat(r[1..], tail);
      assert b[..8] == r[0] && b[8..] == Concat(r[1..]) + tail;
    }
  }

  /** The result of wrapping, by section 2.2.1. */
  function Wrapped(c: Cipher, key: Octets, iv: bv64): Octets
    requires IsCipher(c)
  {
    Emit(Shift(c, 6 * (|key| / 8), Register(iv, Chunks(key))))
  }

  function Emit(s: Register): Octets {
    Pack(s.a) + Concat(s.r)
  }

  function Parse(b: Octets): Register
    requires |b| >= 8
  {
    Register(Unpack(b[..8]), Chunks(b[8..]))
  }

  /** The key and initial value recovered by section 2.2.2. */
  function Unwrapped(c: Cipher, wrapped: Octets): Result<(Octets, bv64)>
    requires IsCipher(c)
  {
    if |wrapped| < 8 then Malformed
    else
      var s := Unshift(c, 6 * (|wrapped| / 8 - 1), Parse(wrapped));
      Ok((Concat(s.r), s.a))
  }

  lemma {:induction false} ParseEmit(s: Register, tail: Octets)
    requires |tail| < 8
    ensures |Emit(s) + tail| / 8 == |s.r| + 1 && Parse(Emit(s) + tail) == s
  {
    hide Pack, Unpack, Chunks, Concat;
    var b := Emit(s) + tail;
    assert b[..8] == Pack(s.a) && b[8..] == Concat(s.r) + tail;
    UnpackPack(s.a);
    ChunksConcat(s.r, tail);
  }

  lemma {:induction false} EmitParse(b: Octets)
    requires |b| >= 8
    ensures Emit(Parse(b)) == Whole(b)
  {
    hide Pack, Unpack, Chunks, Concat;
    PackUnpack(b[..8]);
    ConcatChunks(b[8..]);
    assert Whole(b) == b[..8] + Whole(b[8..]);
  }

  /**
   * Unwrapping a wrapped key gives the key's whole halves and the initial value back, whatever
   * incomplete half follows the wrapped key.
   */
  lemma {:induction false} UnwrapUndoesWrap(c: Cipher, key: Octets, iv: bv64, tail: Octets)
    requires IsCipher(c) && |tail| < 8
    ensures Unwrapped(c, Wrapped(c, key, iv) + tail) == Ok((Whole(key), iv))
    ensures |key| % 8 == 0 ==> Whole(key) == key
  {
    hide Shift, Unshift, Emit, Parse, Concat, Chunks, IsCipher;
    var n := |key| / 8;
    var s := Register(iv, Chunks(key));
    var e := Shift(c, 6 * n, s);
    ParseEmit(e, tail);
    UnshiftShift(c, 6 * n, s);
    ConcatChunks(key);
  }

  /** Wrapping what was unwrapped gives the input back, up to an incomplete half at its end. */
  lemma {:induction false} WrapUndoesUnwrap(c: Cipher, wrapped: Octets)
    requires IsCipher(c) && |wrapped| >= 8
    ensures Unwrapped(c, wrapped).Ok?
    ensures var (key, iv) := Unwrapped(c, wrapped).value;
            |key| % 8 == 0 && Wrapped(c, key, iv) == Whole(wrapped)
  {
    hide Shift, Unshift, Emit, Parse, Concat, Chunks, IsCipher;
    var n := |wrapped| / 8 - 1;
    ParseLength(wrapped);
    var s := Unshift(c, 6 * n, Parse(wrapped));
    assert Concat(s.r) + [] == Concat(s.r);
    ChunksConcat(s.r, []);
    ShiftUnshift(c, 6 * n, Parse(wrapped));
    EmitParse(wrapped);
  }

  lemma {:induction false} ParseLength(b: Octets)
    requires |b| >= 8
    ensures |Parse(b).r| == |b| / 8 - 1
  {
  }

  /** The result of unwrapping with an expected initial value. */
  function Unwrap(c: Cipher, wrapped: Octets, iv: bv64): Result<Octets>
    requires IsCipher(c)
  {
    match Unwrapped(c, wrapped)
    case Ok((key, keyIv)) => if keyIv == iv then Ok(key) else IntegrityCheckFailed
    case _ => Malformed
  }

  function TailOf(b: Octets): (tail: Octets)
    ensures |tail| < 8 && Whole(b) + tail == b
  {
    b[|b| / 8 * 8..]
  }

  lemma {:induction false} ShortIsMalformed(c: Cipher, wrapped: Octets)
    requires IsCipher(c) && |wrapped| < 8
    ensures Unwrapped(c, wrapped) == Malformed
  {
  }

  /** Unwrapping accepts an input as a given key exactly when its whole halves are that key, wrapped. */
  lemma {:induction false} AcceptsWrappings(c: Cipher, wrapped: Octets, iv: bv64, key: Octets)
    requires IsCipher(c)
    ensures Unwrap(c, wrapped, iv) == Ok(key) <==>
            |wrapped| >= 8 && |key| % 8 == 0 && Wrapped(c, key, iv) == Whole(wrapped)
  {
    hide Wrapped, Unwrapped, IsCipher, Whole;
    if |wrapped| < 8 {
      ShortIsMalformed(c, wrapped);
    } else {
      WrapUndoesUnwrap(c, wrapped);
      if |key| % 8 == 0 && Wrapped(c, key, iv) == Whole(wrapped) {
        var tail := TailOf(wrapped);
        UnwrapUndoesWrap(c, key, iv, tail);
      }
    }
  }

  /** An input is an output of wrapping exactly when it is accepted and a multiple of eight bytes long. */
  lemma {:induction false} AcceptsExactlyOutputs(c: Cipher, wrapped: Octets, iv: bv64)
    requires IsCipher(c)
    ensures (exists key: Octets :: Wrapped(c, key, iv) == wrapped) <==> Unwrap(c, wrapped, iv).Ok? && |wrapped| % 8 == 0
  {
    hide Unwrapped, Wrapped, IsCipher;
    if Unwrap(c, wrapped, iv).Ok? && |wrapped| % 8 == 0 {
      AcceptsWrappings(c, wrapped, iv, Unwrap(c, wrapped, iv).value);
      assert Whole(wrapped) == wrapped;
    }
    forall key: Octets | Wrapped(c, key, iv) == wrapped ensures Unwrap(c, wrapped, iv).Ok? && |wrapped| % 8 == 0 {
      WrappedLength(c, key, iv);
      UnwrapUndoesWrap(c, key, iv, []);
      assert wrapped + [] == wrapped;
    }
  }

  lemma {:induction false} WrappedLength(c: Cipher, key: Octets, iv: bv64)
    requires IsCipher(c)
    ensures |Wrapped(c, key, iv)| == 8 + 8 * (|key| / 8)
  {
    hide Pack, Unpack, ShiftStep, IsCipher;
  }

  /** A wrapped key with one to seven further bytes is accepted, although it is no output of wrapping. */
  lemma {:induction false} TrailingBytesAccepted(c: Cipher, key: Octets, iv: bv64, tail: Octets)
    requires IsCipher(c) && |key| % 8 == 0 && 0 < |tail| < 8
    ensures Unwrap(c, Wrapped(c, key, iv) + tail, iv) == Ok(key)
    ensures !exists other: Octets :: Wrapped(c, other, iv) == Wrapped(c, key, iv) + tail
  {
    hide Unwrapped, Wrapped, IsCipher;
    UnwrapUndoesWrap(c, key, iv, tail);
    WrappedLength(c, key, iv);
    AcceptsExactlyOutputs(c, Wrapped(c, key, iv) + tail, iv);
  }

  // ---------------------------------------------------------------- the in-place algorithms

  /** The halves as the shift register holds them once the first `i` of them have been processed. */
  function Rotated(r: seq<Half>, i: nat): (s: seq<Half>)
    requires i <= |r|
    ensures |s| == |r|
  {
    r[i..] + r[..i]
  }

  lemma {:induction false} FullyRotated(r: seq<Half>)
    ensures Rotated(r, 0) == r && Rotated(r, |r|) == r
  {
  }

  /** Processing half `i` in place is one step of the shift register. */
  lemma {:induction false} IndexedStep(c: Cipher, t: nat, start: Register, a: bv64, r: seq<Half>, i: nat)
    requires IsCipher(c) && i < |r| && start.r != [] && Shift(c, t, start) == Register(a, Rotated(r, i))
    ensures var (b, half) := Encrypt(c, a, r[i]);
            Shift(c, t + 1, start) == Register(Mix(b, t + 1), Rotated(r[i := half], i + 1))
  {
    hide Encrypt, Mix, IsCipher;
    var (b, half) := Encrypt(c, a, r[i]);
    assert Rotated(r[i := half], i + 1) == Rotated(r, i)[1..] + [half];
  }

  lemma {:induction false} IndexedUnstep(c: Cipher, t: nat, a: bv64, r: seq<Half>, i: nat)
    requires IsCipher(c) && i < |r|
    ensures var (b, half) := Decrypt(c, Mix(a, t), r[i]);
            UnshiftStep(c, t, Register(a, Rotated(r, i + 1))) == Register(b, Rotated(r[i := half], i))
  {
    hide Decrypt, Mix, IsCipher;
    var (b, half) := Decrypt(c, Mix(a, t), r[i]);
    assert Rotated(r, i + 1)[|r| - 1] == r[i];
    assert Rotated(r[i := half], i) == [half] + Rotated(r, i + 1)[..|r| - 1];
  }

  lemma {:induction false} NoShift(c: Cipher, s: Register)
    requires IsCipher(c)
    ensures Shift(c, 0, s) == s
  {
  }

  /** The index-based loops compute what section 2.2.1 defines. */
  method WrapKey(c: Cipher, key: Octets, iv: bv64) returns (wrapped: Octets)
    requires IsCipher(c)
    ensures wrapped == Wrapped(c, key, iv)
  {
    hide Encrypt, Mix, Shift, Rotated, IsCipher, Chunks, Concat, Pack;
    var n := |key| / 8;
    ghost var start := Register(iv, Chunks(key));
    assert Shift(c, 0, start) == start by { NoShift(c, start); }
    var r: seq<Half> := Chunks(key);
    var a := iv;
    for j := 0 to 6
      invariant |r| == n && Shift(c, n * j, start) == Register(a, r)
    {
      FullyRotated(r);
      var base := n * j;
      for i := 0 to n
        invariant |r| == n && Shift(c, base + i, start) == Register(a, Rotated(r, i))
      {
        IndexedStep(c, base + i, start, a, r, i);
        var (b, half) := Encrypt(c, a, r[i]);
        a := Mix(b, base + i + 1);
        r := r[i := half];
      }
      assert n * (j + 1) == base + n;
      FullyRotated(r);
    }
    wrapped := Pack(a) + Concat(r);
  }

  /** The index-based loops, counting down, compute what section 2.2.2 defines. */
  method UnwrapKeyAndIv(c: Cipher, wrapped: Octets) returns (result: Result<(Octets, bv64)>)
    requires IsCipher(c)
    ensures result == Unwrapped(c, wrapped)
  {
    hide Decrypt, Mix, UnshiftStep, Rotated, IsCipher, Chunks, Concat;
    if |wrapped| < 8 { return Malformed; }
    var n := |wrapped| / 8 - 1;
    ParseLength(wrapped);
    var a := Unpack(wrapped[..8]);
    var r: seq<Half> := Chunks(wrapped[8..]);
    ghost var end := Unshift(c, 6 * n, Parse(wrapped));
    for j := 6 downto 0
      invariant |r| == n && Unshift(c, n * j, Register(a, r)) == end
    {
      FullyRotated(r);
      var base := n * j;
      assert n * (j + 1) == base + n;
      for i := n downto 0
        invariant |r| == n && Unshift(c, base + i, Register(a, Rotated(r, i))) == end
      {
        IndexedUnstep(c, base + i + 1, a, r, i);
        var (b, half) := Decrypt(c, Mix(a, base + i + 1), r[i]);
        a := b;
        r := r[i := half];
      }
      FullyRotated(r);
    }
    result := Ok((Concat(r), a));
  }

  method UnwrapKey(c: Cipher, wrapped: Octets, iv: bv64) returns (result: Result<Octets>)
    requires IsCipher(c)
    ensures result == Unwrap(c, wrapped, iv)
  {
    hide Unwrapped;
    var unwrapped := UnwrapKeyAndIv(c, wrapped);
    match unwrapped
    case Ok((key, keyIv)) => result := if keyIv == iv then Ok(key) else IntegrityCheckFailed;
    case _ => result := Malformed;
  }
}
