/** PBKDF2 over an arbitrary hash of fixed length: the in-place loops against section 5.2 of RFC 2898. */
module KeyDerivation {
  import opened Basics

  type Hash = seq<Byte> -> seq<Byte>

  datatype Result = Ok(bytes: seq<Byte>) | ArgumentError

  const BLOCK_SIZE := 64
  const IPAD: Byte := 0x36
  const OPAD: Byte := 0x5C

  function Pow2(n: nat): (r: nat)
    ensures r > 0
  {
    if n == 0 then 1 else 2 * Pow2(n - 1)
  }

  /** The exclusive or of the lowest n bits. */
  function XorBits(a: nat, b: nat, n: nat): (r: nat)
    ensures r < Pow2(n)
  {
    if n == 0 then 0 else 2 * XorBits(a / 2, b / 2, n - 1) + if a % 2 == b % 2 then 0 else 1
  }

  function XorByte(a: Byte, b: Byte): Byte {
    Powers();
    XorBits(a, b, 8)
  }

  /** Bit k of a number. */
  function Bit(a: nat, k: nat): nat {
    a / Pow2(k) % 2
  }

  lemma Powers()
    ensures Pow2(0) == 1 && Pow2(1) == 2 && Pow2(2) == 4 && Pow2(3) == 8
    ensures Pow2(4) == 16 && Pow2(5) == 32 && Pow2(6) == 64 && Pow2(7) == 128 && Pow2(8) == 256
  {
  }

  lemma HalvesLow(a: nat)
    ensures a / 2 / 1 == a / 2 && a / 2 / 2 == a / 4 && a / 2 / 4 == a / 8
  {
  }

  lemma HalvesHigh(a: nat)
    ensures a / 2 / 8 == a / 16 && a / 2 / 16 == a / 32 && a / 2 / 32 == a / 64 && a / 2 / 64 == a / 128
  {
  }

  lemma HalfBit(a: nat, k: nat)
    requires 0 < k < 8
    ensures Bit(a, k) == Bit(a / 2, k - 1)
  {
    hide Pow2;
    Powers();
    HalvesLow(a);
    HalvesHigh(a);
    assert k in {1, 2, 3, 4, 5, 6, 7};
  }

  /** Each bit of the result is set exactly when the two bits in its place differ. */
  lemma {:induction false} XorBitsDiffer(a: nat, b: nat, n: nat, k: nat)
    requires k < n <= 8
    ensures Bit(XorBits(a, b, n), k) == 1 <==> Bit(a, k) != Bit(b, k)
  {
    var x := XorBits(a, b, n);
    if k == 0 {
      assert Pow2(0) == 1;
    } else {
      HalfBit(a, k);
      HalfBit(b, k);
      HalfBit(x, k);
      assert x / 2 == XorBits(a / 2, b / 2, n - 1);
      XorBitsDiffer(a / 2, b / 2, n - 1, k - 1);
    }
  }

  lemma XorDiffers(a: Byte, b: Byte, k: nat)
    requires k < 8
    ensures Bit(XorByte(a, b), k) == 1 <==> Bit(a, k) != Bit(b, k)
  {
    XorBitsDiffer(a, b, 8, k);
  }

  lemma {:induction false} XorBitsBack(a: nat, b: nat, n: nat)
    requires a < Pow2(n)
    ensures XorBits(XorBits(a, b, n), b, n) == a
  {
    if n > 0 {
      var x := XorBits(a, b, n);
      assert x / 2 == XorBits(a / 2, b / 2, n - 1);
      XorBitsBack(a / 2, b / 2, n - 1);
    }
  }

  /** So a second time undoes it. */
  lemma XorBack(a: Byte, b: Byte)
    ensures XorByte(XorByte(a, b), b) == a
  {
    Powers();
    XorBitsBack(a, b, 8);
  }

  lemma {:induction false} XorBitsZero(b: nat, n: nat)
    requires b < Pow2(n)
    ensures XorBits(0, b, n) == b
  {
    if n > 0 {
      XorBitsZero(b / 2, n - 1);
    }
  }

  lemma XorZero(b: Byte)
    ensures XorByte(0, b) == b
  {
    Powers();
    XorBitsZero(b, 8);
  }

  function Xor(a: seq<Byte>, b: seq<Byte>): (r: seq<Byte>)
    requires |a| == |b|
    ensures |r| == |a|
  {
    seq(|a|, i requires 0 <= i < |a| => XorByte(a[i], b[i]))
  }

  function Zeros(n: nat): (r: seq<Byte>)
    ensures |r| == n
  {
    seq(n, _ => 0)
  }

  lemma XorZeros(b: seq<Byte>)
    ensures Xor(Zeros(|b|), b) == b
  {
    forall i | 0 <= i < |b| ensures Xor(Zeros(|b|), b)[i] == b[i] {
      XorZero(b[i]);
    }
  }

  ghost predicate FixedLength(h: Hash, length: nat) {
    length > 0 && forall s :: |h(s)| == length
  }

  // ----- section 2 of RFC 2104 -----

  /** The key of one block: hashed if it is too long, then padded with zeros. */
  function BlockKey(h: Hash, password: seq<Byte>): seq<Byte> {
    var p := if |password| > BLOCK_SIZE then h(password) else password;
    if |p| > BLOCK_SIZE then p else p + Zeros(BLOCK_SIZE - |p|)
  }

  function Pad(key: seq<Byte>, with: Byte): seq<Byte> {
    seq(|key|, i requires 0 <= i < |key| => XorByte(key[i], with))
  }

  function Hmac(h: Hash, password: seq<Byte>, message: seq<Byte>): seq<Byte> {
    var key := BlockKey(h, password);
    h(Pad(key, OPAD) + h(Pad(key, IPAD) + message))
  }

  /** The key of 64 bytes that a password is made into: hashed only above 64 bytes, and filled up with zeros. */
  predicate KeyOf(h: Hash, password: seq<Byte>, key: seq<Byte>) {
    var p := if |password| <= 64 then password else h(password);
    |key| == 64 && p <= key && forall k :: |p| <= k < 64 ==> key[k] == 0
  }

  /** H(K xor opad, H(K xor ipad, text)) with the standard's constants. */
  lemma HmacIsStandard(h: Hash, password: seq<Byte>, message: seq<Byte>, key: seq<Byte>, inner: seq<Byte>, outer: seq<Byte>)
    requires KeyOf(h, password, key) && |inner| == |outer| == 64
    requires forall k :: 0 <= k < 64 ==> inner[k] == XorByte(key[k], 0x36) && outer[k] == XorByte(key[k], 0x5C)
    ensures Hmac(h, password, message) == h(outer + h(inner + message))
  {
    assert key == BlockKey(h, password);
    assert inner == Pad(key, IPAD) && outer == Pad(key, OPAD);
  }

  // ----- section 5.2 of RFC 2898 -----

  /** The four-octet encoding of a block index, most significant octet first. */
  function Int4(i: nat): (r: seq<Byte>)
    ensures |r| == 4
  {
    [i / 256 / 256 / 256 % 256, i / 256 / 256 % 256, i / 256 % 256, i % 256]
  }

  /** U_c of block i. */
  function U(h: Hash, password: seq<Byte>, salt: seq<Byte>, i: nat, c: nat): seq<Byte>
    requires c >= 1
  {
    if c == 1 then Hmac(h, password, salt + Int4(i)) else Hmac(h, password, U(h, password, salt, i, c - 1))
  }

  /** T_i = U_1 xor U_2 xor ... xor U_c. */
  function T(h: Hash, length: nat, password: seq<Byte>, salt: seq<Byte>, c: nat, i: nat): (r: seq<Byte>)
    requires FixedLength(h, length) && c >= 1
    ensures |r| == length
  {
    if c == 1 then U(h, password, salt, i, 1)
    else Xor(T(h, length, password, salt, c - 1, i), U(h, password, salt, i, c))
  }

  /** What the loop over iterations leaves in a block of zeros; without iterations the zeros stay. */
  function Block(h: Hash, length: nat, password: seq<Byte>, salt: seq<Byte>, c: nat, i: nat): (r: seq<Byte>)
    requires FixedLength(h, length)
    ensures |r| == length
  {
    if c == 0 then Zeros(length) else Xor(Block(h, length, password, salt, c - 1, i), U(h, password, salt, i, c))
  }

  lemma FirstU(h: Hash, length: nat, password: seq<Byte>, salt: seq<Byte>, i: nat)
    requires FixedLength(h, length)
    ensures |U(h, password, salt, i, 1)| == length
  {
  }

  /** The loop's block is the T of the standard for every positive iteration count. */
  lemma {:induction false} BlockIsT(h: Hash, length: nat, password: seq<Byte>, salt: seq<Byte>, c: nat, i: nat)
    requires FixedLength(h, length) && c >= 1
    ensures Block(h, length, password, salt, c, i) == T(h, length, password, salt, c, i)
  {
    hide U;
    if c == 1 {
      FirstU(h, length, password, salt, i);
      assert Block(h, length, password, salt, 0, i) == Zeros(length);
      XorZeros(U(h, password, salt, i, 1));
    } else {
      BlockIsT(h, length, password, salt, c - 1, i);
    }
  }

  /** T_1 || T_2 || ... || T_n. */
  function Blocks(h: Hash, length: nat, password: seq<Byte>, salt: seq<Byte>, c: nat, n: nat): (r: seq<Byte>)
    requires FixedLength(h, length)
    ensures |r| == n * length
  {
    if n == 0 then [] else Blocks(h, length, password, salt, c, n - 1) + Block(h, length, password, salt, c, n)
  }

  /** T_1 || ... || T_n as the standard writes it. */
  function Standard(h: Hash, length: nat, password: seq<Byte>, salt: seq<Byte>, c: nat, n: nat): seq<Byte>
    requires FixedLength(h, length) && c >= 1
  {
    if n == 0 then [] else Standard(h, length, password, salt, c, n - 1) + T(h, length, password, salt, c, n)
  }

  lemma {:induction false} BlocksAreStandard(h: Hash, length: nat, password: seq<Byte>, salt: seq<Byte>, c: nat, n: nat)
    requires FixedLength(h, length) && c >= 1
    ensures Blocks(h, length, password, salt, c, n) == Standard(h, length, password, salt, c, n)
  {
    if n > 0 {
      BlocksAreStandard(h, length, password, salt, c, n - 1);
      BlockIsT(h, length, password, salt, c, n);
    }
  }

  function BlockCount(length: nat, howMany: nat): nat
    requires length > 0
  {
    (howMany + length - 1) / length
  }

  lemma EnoughBlocks(length: nat, howMany: nat)
    requires length > 0
    ensures BlockCount(length, howMany) * length >= howMany
  {
    var n := howMany + length - 1;
    assert n == n / length * length + n % length;
  }

  /** The derived key. */
  function Derive(h: Hash, length: nat, password: seq<Byte>, salt: seq<Byte>, c: nat, howMany: nat): (r: seq<Byte>)
    requires FixedLength(h, length)
    ensures |r| == howMany
  {
    EnoughBlocks(length, howMany);
    Blocks(h, length, password, salt, c, BlockCount(length, howMany))[..howMany]
  }

  lemma {:induction false} BlocksArePrefix(h: Hash, length: nat, password: seq<Byte>, salt: seq<Byte>, c: nat, m: nat, n: nat)
    requires FixedLength(h, length) && m <= n
    ensures m * length <= n * length
    ensures Blocks(h, length, password, salt, c, m) == Blocks(h, length, password, salt, c, n)[..m * length]
    decreases n
  {
    hide Block;
    if m < n {
      BlocksArePrefix(h, length, password, salt, c, m, n - 1);
      RoomForBlock(length, n - 1, n);
      var before := Blocks(h, length, password, salt, c, n - 1);
      PrefixOfPrefix(before, Block(h, length, password, salt, c, n), m * length);
    }
  }

  lemma PrefixOfPrefix(a: seq<Byte>, b: seq<Byte>, k: nat)
    requires k <= |a|
    ensures (a + b)[..k] == a[..k]
  {
  }

  /** A shorter request is a prefix of a longer one. */
  lemma ShorterIsPrefix(h: Hash, length: nat, password: seq<Byte>, salt: seq<Byte>, c: nat, m: nat, n: nat)
    requires FixedLength(h, length) && m <= n
    ensures Derive(h, length, password, salt, c, m) == Derive(h, length, password, salt, c, n)[..m]
  {
    EnoughBlocks(length, m);
    EnoughBlocks(length, n);
    MoreBlocks(length, m, n);
    BlocksArePrefix(h, length, password, salt, c, BlockCount(length, m), BlockCount(length, n));
  }

  lemma MoreBlocks(length: nat, m: nat, n: nat)
    requires length > 0 && m <= n
    ensures BlockCount(length, m) <= BlockCount(length, n)
  {
    var a, b := m + length - 1, n + length - 1;
    assert a == a / length * length + a % length && b == b / length * length + b % length;
    CancelLess(a / length, b / length + 1, length);
  }

  lemma CancelLess(x: int, y: int, n: nat)
    requires n > 0 && x * n < y * n
    ensures x < y
  {
  }

  // ----- the loops -----

  /** _incrementBigEndianIndex on the four bytes at an offset; false when it throws OverflowException. */
  method IncrementBigEndianIndex(buf: array<Byte>, offset: nat) returns (ok: bool)
    requires offset + 4 <= buf.Length
    modifies buf
    ensures forall n: nat :: old(buf[offset..offset + 4]) == Int4(n) && n + 1 < 0x1_0000_0000 ==>
              ok && buf[offset..offset + 4] == Int4(n + 1)
    ensures ok <==> old(buf[offset..offset + 4]) != [255, 255, 255, 255]
    ensures forall k :: 0 <= k < buf.Length && !(offset <= k < offset + 4) ==> buf[k] == old(buf[k])
  {
    ghost var was := buf[offset..offset + 4];
    forall n: nat | was == Int4(n) && n + 1 < 0x1_0000_0000 ensures IncrementSpec(was) == Int4(n + 1) && was != [255, 255, 255, 255] {
      IncrementIsNext(n);
    }
    assert was[0] == buf[offset] && was[1] == buf[offset + 1] && was[2] == buf[offset + 2] && was[3] == buf[offset + 3];
    buf[offset + 3] := Successor(buf[offset + 3]);
    if buf[offset + 3] == 0 {
      buf[offset + 2] := Successor(buf[offset + 2]);
      if buf[offset + 2] == 0 {
        buf[offset + 1] := Successor(buf[offset + 1]);
        if buf[offset + 1] == 0 {
          buf[offset] := Successor(buf[offset]);
          if buf[offset] == 0 {
            return false;
          }
        }
      }
    }
    assert buf[offset..offset + 4] == IncrementSpec(was);
    return true;
  }

  /** Unchecked ++ on a byte. */
  function Successor(b: Byte): Byte {
    if b == 255 then 0 else b + 1
  }

  /** The carry of the increment, byte by byte. */
  function IncrementSpec(b: seq<Byte>): seq<Byte>
    requires |b| == 4
  {
    [if b[3] == 255 && b[2] == 255 && b[1] == 255 then Successor(b[0]) else b[0],
     if b[3] == 255 && b[2] == 255 then Successor(b[1]) else b[1],
     if b[3] == 255 then Successor(b[2]) else b[2],
     Successor(b[3])]
  }

  lemma CarryStep(n: nat)
    ensures (n + 1) % 256 == Successor(n % 256)
    ensures (n + 1) / 256 == if n % 256 == 255 then n / 256 + 1 else n / 256
  {
  }

  lemma IncrementIsNext(n: nat)
    requires n + 1 < 0x1_0000_0000
    ensures IncrementSpec(Int4(n)) == Int4(n + 1) && Int4(n) != [255, 255, 255, 255]
  {
    CarryStep(n);
    CarryStep(n / 256);
    CarryStep(n / 256 / 256);
    CarryStep(n / 256 / 256 / 256);
    TopByte(n);
  }

  lemma TopByte(n: nat)
    requires n + 1 < 0x1_0000_0000
    ensures Int4(n) != [255, 255, 255, 255]
  {
    var a, b, c := n / 256, n / 256 / 256, n / 256 / 256 / 256;
    assert n == 256 * a + n % 256 && a == 256 * b + a % 256 && b == 256 * c + b % 256;
    assert c < 256;
    assert c % 256 == c;
  }

  method XorByteArray(src: seq<Byte>, srcOffset: nat, cb: nat, dest: array<Byte>, destOffset: nat)
    requires srcOffset + cb <= |src| && destOffset + cb <= dest.Length
    modifies dest
    ensures dest[destOffset..destOffset + cb] == Xor(old(dest[destOffset..destOffset + cb]), src[srcOffset..srcOffset + cb])
    ensures forall k :: 0 <= k < dest.Length && !(destOffset <= k < destOffset + cb) ==> dest[k] == old(dest[k])
  {
    hide XorByte;
    var end := srcOffset + cb;
    var from, to := srcOffset, destOffset;
    while from != end
      invariant srcOffset <= from <= end && to == destOffset + (from - srcOffset)
      invariant forall k :: 0 <= k < dest.Length ==>
        dest[k] == if destOffset <= k < to then XorByte(old(dest[k]), src[srcOffset + (k - destOffset)]) else old(dest[k])
      decreases end - from
    {
      dest[to] := XorByte(dest[to], src[from]);
      from := from + 1;
      to := to + 1;
    }
  }

  /** One call of the inner and of the outer hash. */
  lemma HmacByPads(h: Hash, password: seq<Byte>, message: seq<Byte>, key: seq<Byte>, inner: seq<Byte>, outer: seq<Byte>)
    requires key == BlockKey(h, password) && inner == Pad(key, IPAD) && outer == Pad(key, OPAD)
    ensures h(outer + h(inner + message)) == Hmac(h, password, message)
  {
  }

  /** An iteration count below zero iterates as often as zero does. */
  function Count(iterations: int): nat {
    if iterations < 0 then 0 else iterations
  }

  /** The key arrays: padded with zeros, then each byte xor a constant. */
  method PadKey(key: array<Byte>) returns (innerKey: array<Byte>, outerKey: array<Byte>)
    ensures fresh(innerKey) && fresh(outerKey) && innerKey != outerKey
    ensures innerKey[..] == Pad(key[..], IPAD) && outerKey[..] == Pad(key[..], OPAD)
  {
    hide XorByte;
    innerKey := new Byte[key.Length](_ => 0);
    outerKey := new Byte[key.Length](_ => 0);
    for i := 0 to key.Length
      invariant forall k :: 0 <= k < i ==> innerKey[k] == XorByte(key[k], IPAD) && outerKey[k] == XorByte(key[k], OPAD)
      modifies innerKey, outerKey
    {
      innerKey[i] := XorByte(key[i], IPAD);
      outerKey[i] := XorByte(key[i], OPAD);
    }
  }

  /** The loop over iterations for block i: each U is xored into its place in the output. */
  method FillBlock(h: Hash, ghost length: nat, hashSize: nat, ghost password: seq<Byte>, ghost salt: seq<Byte>, iterations: int,
                   ghost i: nat, first: seq<Byte>, innerKey: array<Byte>, outerKey: array<Byte>,
                   output: array<Byte>, outputOffset: nat)
    requires FixedLength(h, length) && hashSize == length && first == salt + Int4(i)
    requires innerKey[..] == Pad(BlockKey(h, password), IPAD) && outerKey[..] == Pad(BlockKey(h, password), OPAD)
    requires output != innerKey && output != outerKey && outputOffset + length <= output.Length
    requires output[outputOffset..outputOffset + length] == Zeros(length)
    modifies output
    ensures output[outputOffset..outputOffset + length] == Block(h, length, password, salt, Count(iterations), i)
    ensures forall k :: 0 <= k < output.Length && !(outputOffset <= k < outputOffset + length) ==> output[k] == old(output[k])
  {
    hide Hmac, Xor, BlockKey, Pad, Int4;
    var u := first;
    var n := 0;
    while n < iterations
      invariant 0 <= n <= Count(iterations)
      invariant u == if n == 0 then first else U(h, password, salt, i, n)
      invariant innerKey[..] == Pad(BlockKey(h, password), IPAD) && outerKey[..] == Pad(BlockKey(h, password), OPAD)
      invariant output[outputOffset..outputOffset + length] == Block(h, length, password, salt, n, i)
      invariant forall k :: 0 <= k < output.Length && !(outputOffset <= k < outputOffset + length) ==> output[k] == old(output[k])
    {
      HmacByPads(h, password, u, BlockKey(h, password), innerKey[..], outerKey[..]);
      var temp := h(innerKey[..] + u);
      u := h(outerKey[..] + temp);
      assert u == U(h, password, salt, i, n + 1);
      assert u[0..0 + hashSize] == u;
      XorByteArray(u, 0, hashSize, output, outputOffset);
      n := n + 1;
    }
  }

  /** The loop over blocks: the index is incremented in place behind the salt, and each block is filled in turn. */
  method FillBlocks(h: Hash, hashSize: nat, ghost password: seq<Byte>, salt: seq<Byte>, iterations: int, cBlocks: nat,
                    innerKey: array<Byte>, outerKey: array<Byte>, output: array<Byte>)
    requires FixedLength(h, hashSize) && cBlocks < 0x8000_0000 && output.Length == cBlocks * hashSize
    requires innerKey[..] == Pad(BlockKey(h, password), IPAD) && outerKey[..] == Pad(BlockKey(h, password), OPAD)
    requires output != innerKey && output != outerKey && forall k :: 0 <= k < output.Length ==> output[k] == 0
    modifies output
    ensures output[..] == Blocks(h, hashSize, password, salt, Count(iterations), cBlocks)
  {
    hide Block, Pad, Xor, XorByte, Int4, BlockKey;
    var saltAndIndex := new Byte[|salt| + 4](k requires 0 <= k => if k < |salt| then salt[k] else 0);
    assert saltAndIndex[..|salt|] == salt;
    IndexZero(saltAndIndex[|salt|..]);
    var outputOffset := 0;
    var iBlock := 0;
    while iBlock < cBlocks
      invariant 0 <= iBlock <= cBlocks && outputOffset == iBlock * hashSize <= output.Length
      invariant saltAndIndex[..|salt|] == salt && saltAndIndex[|salt|..|salt| + 4] == Int4(iBlock)
      invariant innerKey[..] == Pad(BlockKey(h, password), IPAD) && outerKey[..] == Pad(BlockKey(h, password), OPAD)
      invariant output[..outputOffset] == Blocks(h, hashSize, password, salt, Count(iterations), iBlock)
      invariant forall k :: outputOffset <= k < output.Length ==> output[k] == 0
    {
      RoomForBlock(hashSize, iBlock, cBlocks);
      var ok := IncrementBigEndianIndex(saltAndIndex, |salt|);
      assert saltAndIndex[..|salt|] == salt;
      assert saltAndIndex[..] == salt + Int4(iBlock + 1);
      assert output[outputOffset..outputOffset + hashSize] == Zeros(hashSize);
      ghost var done := output[..outputOffset];
      FillBlock(h, hashSize, hashSize, password, salt, iterations, iBlock + 1, saltAndIndex[..], innerKey, outerKey,
                output, outputOffset);
      assert output[..outputOffset] == done;
      assert output[..outputOffset + hashSize] == output[..outputOffset] + output[outputOffset..outputOffset + hashSize];
      outputOffset := outputOffset + hashSize;
      iBlock := iBlock + 1;
    }
    assert output[..] == output[..outputOffset];
  }

  /** The derived key; ArgumentError is what copying a hash of more than one block into the key array throws. */
  method GetBytes(h: Hash, hashSize: nat, password: seq<Byte>, salt: seq<Byte>, iterations: int, howManyBytes: nat)
    returns (r: Result)
    requires FixedLength(h, hashSize) && howManyBytes + hashSize - 1 < 0x8000_0000
    ensures r == if |password| > BLOCK_SIZE && hashSize > BLOCK_SIZE then ArgumentError
                 else Ok(Derive(h, hashSize, password, salt, Count(iterations), howManyBytes))
  {
    hide Block, Blocks, Pad, Xor, XorByte, Int4;
    var cBlocks := (howManyBytes + hashSize - 1) / hashSize;
    EnoughBlocks(hashSize, howManyBytes);
    FewBlocks(hashSize, howManyBytes);
    var output := new Byte[cBlocks * hashSize](_ => 0);
    var password' := password;
    if |password| > BLOCK_SIZE {
      password' := h(password);
    }
    if |password'| > BLOCK_SIZE {
      return ArgumentError;
    }
    var key := new Byte[BLOCK_SIZE](k requires 0 <= k => if k < |password'| then password'[k] else 0);
    assert key[..] == BlockKey(h, password);
    var innerKey, outerKey := PadKey(key);
    FillBlocks(h, hashSize, password, salt, iterations, cBlocks, innerKey, outerKey, output);
    r := Ok(output[..howManyBytes]);
    assert output[..howManyBytes] == output[..][..howManyBytes];
  }

  lemma FewBlocks(length: nat, howMany: nat)
    requires length > 0 && howMany + length - 1 < 0x8000_0000
    ensures BlockCount(length, howMany) < 0x8000_0000
  {
    var n := howMany + length - 1;
    assert n == n / length * length + n % length;
    CancelLess(n / length, 0x8000_0000, length);
  }

  lemma RoomForBlock(length: nat, i: nat, n: nat)
    requires i < n
    ensures i * length + length <= n * length && (i + 1) * length == i * length + length
  {
    assert n == (i + 1) + (n - i - 1);
    assert n * length == (i + 1) * length + (n - i - 1) * length;
  }

  lemma IndexZero(b: seq<Byte>)
    requires |b| == 4 && forall k :: 0 <= k < 4 ==> b[k] == 0
    ensures b == Int4(0)
  {
  }
}
