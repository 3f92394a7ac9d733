/** Comparing byte arrays a word at a time: what the two pointer loops really decide. */
module ByteCompare {
  import opened Basics

  /** A little-endian load of some bytes. */
  function Load(m: seq<Byte>): nat {
    if m == [] then 0 else m[0] + 256 * Load(m[1..])
  }

  /** Two loads of one width are equal exactly when the bytes are. */
  lemma {:induction false} LoadEqual(a: seq<Byte>, b: seq<Byte>)
    requires |a| == |b|
    ensures Load(a) == Load(b) <==> a == b
  {
    if a != [] {
      LoadEqual(a[1..], b[1..]);
      SplitEqual(a[0], Load(a[1..]), b[0], Load(b[1..]));
      assert a == [a[0]] + a[1..] && b == [b[0]] + b[1..];
    }
  }

  lemma SplitEqual(x: Byte, p: nat, y: Byte, q: nat)
    ensures x + 256 * p == y + 256 * q <==> x == y && p == q
  {
  }

  /** The two memories agree from one index up to another. */
  predicate Agree(a: seq<Byte>, b: seq<Byte>, from: nat, to: nat)
    requires to <= |a| && to <= |b|
  {
    forall k :: from <= k < to ==> a[k] == b[k]
  }

  /** One dereference and comparison of a word of some width. */
  lemma WordAgree(a: seq<Byte>, b: seq<Byte>, at: nat, width: nat)
    requires at + width <= |a| && at + width <= |b|
    ensures Load(a[at..at + width]) == Load(b[at..at + width]) <==> Agree(a, b, at, at + width)
  {
    LoadEqual(a[at..at + width], b[at..at + width]);
    if a[at..at + width] == b[at..at + width] {
      forall k | at <= k < at + width ensures a[k] == b[k] {
        assert a[k] == a[at..at + width][k - at] && b[k] == b[at..at + width][k - at];
      }
    }
  }

  function Int(m: seq<Byte>, at: nat): nat
    requires at + 4 <= |m|
  {
    Load(m[at..at + 4])
  }

  // ----- SimpleCompare -----

  method SimpleCompare(a: seq<Byte>, b: seq<Byte>) returns (r: bool)
    ensures r == (a == b)
  {
    if |a| != |b| {
      return false;
    }
    for i := 0 to |a|
      invariant a[..i] == b[..i]
    {
      if a[i] != b[i] {
        return false;
      }
    }
    return true;
  }

  // ----- unsafeCompare -----

  /** The bit of weight w (a power of two) is set in l. */
  predicate Bit(l: nat, w: nat)
    requires w > 0
  {
    l / w % 2 == 1
  }

  function Tail(l: nat): nat {
    (if Bit(l, 4) then 4 else 0) + (if Bit(l, 2) then 2 else 0) + (if Bit(l, 1) then 1 else 0)
  }

  /** Eights and the bit-tested tail make up the length. */
  lemma LengthByBits(l: nat)
    ensures l == 8 * (l / 8) + Tail(l)
  {
    var h := l / 2;
    var f := h / 2;
    Halves(l);
    Halves(h);
    Halves(f);
    DivideTwice(l);
  }

  lemma Halves(n: nat)
    ensures n == 2 * (n / 2) + if n % 2 == 1 then 1 else 0
  {
  }

  lemma DivideTwice(l: nat)
    ensures l / 4 == l / 2 / 2 && l / 8 == l / 4 / 2 && l / 1 == l
  {
  }

  /** Null arrays are never equal, not even to each other. */
  method UnsafeCompare(a1: Option<seq<Byte>>, a2: Option<seq<Byte>>) returns (r: bool)
    ensures r == (a1.Some? && a2.Some? && a1.value == a2.value)
  {
    hide Load;
    if a1 == None || a2 == None || |a1.value| != |a2.value| {
      return false;
    }
    var p1, p2 := a1.value, a2.value;
    var l := |p1|;
    LengthByBits(l);
    var x := 0;
    var i := 0;
    while i < l / 8
      invariant 0 <= i <= l / 8 && x == 8 * i
      invariant Agree(p1, p2, 0, x)
    {
      WordAgree(p1, p2, x, 8);
      if Load(p1[x..x + 8]) != Load(p2[x..x + 8]) {
        return false;
      }
      i, x := i + 1, x + 8;
    }
    if l / 4 % 2 == 1 {
      WordAgree(p1, p2, x, 4);
      if Load(p1[x..x + 4]) != Load(p2[x..x + 4]) {
        return false;
      }
      x := x + 4;
    }
    if l / 2 % 2 == 1 {
      WordAgree(p1, p2, x, 2);
      if Load(p1[x..x + 2]) != Load(p2[x..x + 2]) {
        return false;
      }
      x := x + 2;
    }
    if l % 2 == 1 {
      if p1[x] != p2[x] {
        return false;
      }
    }
    return true;
  }

  // ----- unsafeSvensonCompare -----

  /** How far the overlapping four-byte loads reach: two bytes past an even length, three past an odd one. */
  function Reach(l: nat): nat {
    if l == 0 then 0 else if l % 2 == 0 then l + 2 else l + 3
  }

  lemma IntAgree(a: seq<Byte>, b: seq<Byte>, at: nat)
    requires at + 4 <= |a| && at + 4 <= |b|
    ensures Int(a, at) == Int(b, at) <==> Agree(a, b, at, at + 4)
  {
    WordAgree(a, b, at, 4);
  }

  /** One round of the unrolled loop: five loads, each two bytes after the one before. */
  lemma StrideAgree(a: seq<Byte>, b: seq<Byte>, at: nat)
    requires at + 12 <= |a| && at + 12 <= |b|
    ensures (Int(a, at) == Int(b, at) && Int(a, at + 2) == Int(b, at + 2) && Int(a, at + 4) == Int(b, at + 4)
             && Int(a, at + 6) == Int(b, at + 6) && Int(a, at + 8) == Int(b, at + 8)) <==> Agree(a, b, at, at + 12)
  {
    hide Load;
    WordAgree(a, b, at, 4);
    WordAgree(a, b, at + 2, 4);
    WordAgree(a, b, at + 4, 4);
    WordAgree(a, b, at + 6, 4);
    WordAgree(a, b, at + 8, 4);
  }

  /** Two arrays of one length that agree over the whole reach, not only over their own bytes. */
  predicate SvensonSays(strA: seq<Byte>, strB: seq<Byte>, lengthA: nat, lengthB: nat)
    requires lengthA == lengthB ==> Reach(lengthA) <= |strA| && Reach(lengthA) <= |strB|
  {
    lengthA == lengthB && Agree(strA, strB, 0, Reach(lengthA))
  }

  /** The memories hold the arrays and then whatever follows them. */
  method SvensonCompare(strA: seq<Byte>, strB: seq<Byte>, lengthA: nat, lengthB: nat) returns (r: bool)
    requires lengthA == lengthB ==> Reach(lengthA) <= |strA| && Reach(lengthA) <= |strB|
    ensures r == SvensonSays(strA, strB, lengthA, lengthB)
  {
    hide Load, Int;
    var length: int := lengthA;
    if length != lengthB {
      return false;
    }
    var p := 0;
    while length >= 10
      invariant p % 2 == 0 && p + length == lengthA && length >= 0
      invariant Agree(strA, strB, 0, p)
      invariant p > 0 ==> Agree(strA, strB, 0, p + 2)
      decreases length
    {
      StrideAgree(strA, strB, p);
      if Int(strA, p) != Int(strB, p) || Int(strA, p + 2) != Int(strB, p + 2) || Int(strA, p + 4) != Int(strB, p + 4)
         || Int(strA, p + 6) != Int(strB, p + 6) || Int(strA, p + 8) != Int(strB, p + 8) {
        break;
      }
      p, length := p + 10, length - 10;
    }
    while length > 0
      invariant p % 2 == 0 && p + length == lengthA && length >= -1
      invariant p + 2 <= Reach(lengthA) || p == 0
      invariant Agree(strA, strB, 0, p)
      invariant p > 0 ==> Agree(strA, strB, 0, p + 2)
      decreases length
    {
      IntAgree(strA, strB, p);
      if Int(strA, p) != Int(strB, p) {
        break;
      }
      p, length := p + 2, length - 2;
    }
    return length <= 0;
  }

  /** True always means equal arrays; equal arrays give true exactly when the bytes that follow them agree too. */
  lemma SvensonMeans(a: seq<Byte>, b: seq<Byte>, l: nat)
    requires Reach(l) <= |a| && Reach(l) <= |b|
    ensures SvensonSays(a, b, l, l) <==> a[..l] == b[..l] && Agree(a, b, l, Reach(l))
  {
    if a[..l] == b[..l] {
      forall k | 0 <= k < l ensures a[k] == b[k] {
        assert a[k] == a[..l][k] && b[k] == b[..l][k];
      }
    }
  }

  /** Equal arrays of eight bytes that the loop calls different, because the ninth byte in memory differs. */
  lemma PaddingMatters()
    ensures var a, b: seq<Byte> := [1, 2, 3, 4, 5, 6, 7, 8, 0, 0], [1, 2, 3, 4, 5, 6, 7, 8, 9, 0];
            a[..8] == b[..8] && Reach(8) == 10 && !SvensonSays(a, b, 8, 8)
  {
    var a, b: seq<Byte> := [1, 2, 3, 4, 5, 6, 7, 8, 0, 0], [1, 2, 3, 4, 5, 6, 7, 8, 9, 0];
    assert a[8] != b[8];
  }
}
