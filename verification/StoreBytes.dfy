/** Zero-filled files, little-endian integers and the two fixed records of the store. */
module StoreBytes {
  import opened Basics

  /** A mapped file: growing it only adds zeros, so reading past the end reads zeros. */
  type File = seq<Byte>

  function Peek(f: File, i: nat): Byte {
    if i < |f| then f[i] else 0
  }

  function Read(f: File, offset: nat, length: nat): (r: seq<Byte>)
    ensures |r| == length
    ensures forall i :: 0 <= i < length ==> r[i] == Peek(f, offset + i)
  {
    seq<Byte>(length, i requires 0 <= i => Peek(f, offset + i))
  }

  function Write(f: File, offset: nat, bytes: seq<Byte>): (r: File)
    ensures forall i: nat :: Peek(r, i) == if offset <= i < offset + |bytes| then bytes[i - offset] else Peek(f, i)
  {
    seq(if offset + |bytes| > |f| then offset + |bytes| else |f|,
        i requires 0 <= i => if offset <= i < offset + |bytes| then bytes[i - offset] else Peek(f, i))
  }

  lemma ReadElsewhere(f: File, offset: nat, bytes: seq<Byte>, at: nat, length: nat)
    requires at + length <= offset || offset + |bytes| <= at
    ensures Read(Write(f, offset, bytes), at, length) == Read(f, at, length)
  {
  }

  lemma ReadBack(f: File, offset: nat, bytes: seq<Byte>)
    ensures Read(Write(f, offset, bytes), offset, |bytes|) == bytes
  {
  }

  // ----- integers -----

  function Pow256(n: nat): (r: nat)
    ensures r > 0
  {
    if n == 0 then 1 else 256 * Pow256(n - 1)
  }

  const INT64_LIMIT := 0x8000_0000_0000_0000

  function ToLittleEndian(v: nat, n: nat): (r: seq<Byte>)
    ensures |r| == n
  {
    if n == 0 then [] else [v % 256] + ToLittleEndian(v / 256, n - 1)
  }

  function FromLittleEndian(s: seq<Byte>): nat {
    if s == [] then 0 else s[0] + 256 * FromLittleEndian(s[1..])
  }

  lemma {:induction false} LittleEndianRoundTrip(v: nat, n: nat)
    requires v < Pow256(n)
    ensures FromLittleEndian(ToLittleEndian(v, n)) == v
  {
    if n > 0 {
      var s := ToLittleEndian(v, n);
      assert s[1..] == ToLittleEndian(v / 256, n - 1);
      LittleEndianRoundTrip(v / 256, n - 1);
    }
  }

  lemma Int64Fits(v: nat)
    requires v < INT64_LIMIT
    ensures FromLittleEndian(ToLittleEndian(v, 8)) == v
  {
    assert Pow256(2) == 0x1_0000;
    assert Pow256(4) == 0x1_0000_0000;
    assert Pow256(6) == 0x1_0000_0000_0000;
    assert Pow256(8) == 0x1_0000_0000_0000_0000;
    LittleEndianRoundTrip(v, 8);
  }

  // ----- records -----

  /** FileStructure: three signature bytes, the end of the written part, and an unused size. */
  datatype FileStructure = FileStructure(a: Byte, b: Byte, c: Byte, lastByte: nat, fileSize: nat)

  const HEADER_LENGTH := 19
  const ENTRY_LENGTH := 32

  predicate IsValidStructure(h: FileStructure) {
    h.a == 'M' as int && h.b == 'M' as int && h.c == 'F' as int
  }

  function EncodeHeader(h: FileStructure): (r: seq<Byte>)
    ensures |r| == HEADER_LENGTH
  {
    [h.a, h.b, h.c] + ToLittleEndian(h.lastByte, 8) + ToLittleEndian(h.fileSize, 8)
  }

  function DecodeHeader(s: seq<Byte>): FileStructure
    requires |s| == HEADER_LENGTH
  {
    FileStructure(s[0], s[1], s[2], FromLittleEndian(s[3..11]), FromLittleEndian(s[11..19]))
  }

  predicate HeaderFits(h: FileStructure) {
    h.lastByte < INT64_LIMIT && h.fileSize < INT64_LIMIT
  }

  lemma HeaderRoundTrip(h: FileStructure)
    requires HeaderFits(h)
    ensures DecodeHeader(EncodeHeader(h)) == h
  {
    var s := EncodeHeader(h);
    assert s[3..11] == ToLittleEndian(h.lastByte, 8);
    assert s[11..19] == ToLittleEndian(h.fileSize, 8);
    Int64Fits(h.lastByte);
    Int64Fits(h.fileSize);
  }

  type Guid = s: seq<Byte> | |s| == 16 witness [0, 0, 0, 0, 0, 0, 0, 0, 0, 0, 0, 0, 0, 0, 0, 0]

  datatype LogicalEntry = LogicalEntry(id: Guid, offset: nat, length: nat)

  function EncodeEntry(e: LogicalEntry): (r: seq<Byte>)
    ensures |r| == ENTRY_LENGTH
  {
    e.id + ToLittleEndian(e.offset, 8) + ToLittleEndian(e.length, 8)
  }

  function DecodeEntry(s: seq<Byte>): LogicalEntry
    requires |s| == ENTRY_LENGTH
  {
    LogicalEntry(s[..16], FromLittleEndian(s[16..24]), FromLittleEndian(s[24..32]))
  }

  lemma EntryRoundTrip(e: LogicalEntry)
    requires e.offset < INT64_LIMIT && e.length < INT64_LIMIT
    ensures DecodeEntry(EncodeEntry(e)) == e
  {
    var s := EncodeEntry(e);
    assert s[..16] == e.id;
    assert s[16..24] == ToLittleEndian(e.offset, 8);
    assert s[24..32] == ToLittleEndian(e.length, 8);
    Int64Fits(e.offset);
    Int64Fits(e.length);
  }

  // ----- where the fields are -----

  /** The eight bytes from a place on, lowest first, are a number. */
  predicate Int64At(s: seq<Byte>, at: nat, v: nat)
    requires at + 8 <= |s|
  {
    var b := seq(8, k requires 0 <= k < 8 => s[at + k] as int);
    v == b[0] + 0x100 * (b[1] + 0x100 * (b[2] + 0x100 * (b[3] + 0x100 * (b[4] + 0x100 * (b[5] + 0x100 * (b[6] + 0x100 * b[7]))))))
  }

  lemma {:induction false} ReadFirst(s: seq<Byte>)
    requires s != []
    ensures FromLittleEndian(s) == s[0] + 0x100 * FromLittleEndian(s[1..])
  {
  }

  lemma Int64IsThere(s: seq<Byte>, at: nat, v: nat)
    requires at + 8 <= |s| && s[at..at + 8] == ToLittleEndian(v, 8) && v < INT64_LIMIT
    ensures Int64At(s, at, v)
  {
    Int64Fits(v);
    hide ToLittleEndian, FromLittleEndian;
    var b := s[at..at + 8];
    ReadFirst(b);
    ReadFirst(b[1..]);
    ReadFirst(b[2..]);
    ReadFirst(b[3..]);
    ReadFirst(b[4..]);
    ReadFirst(b[5..]);
    ReadFirst(b[6..]);
    ReadFirst(b[7..]);
    assert b[1..][1..] == b[2..] && b[2..][1..] == b[3..] && b[3..][1..] == b[4..] && b[4..][1..] == b[5..];
    assert b[5..][1..] == b[6..] && b[6..][1..] == b[7..] && b[7..][1..] == [];
    NoBytes();
  }

  lemma NoBytes()
    ensures FromLittleEndian([]) == 0
  {
  }

  /** The offsets that the source gives the fields of a header. */
  lemma HeaderLayout(h: FileStructure)
    requires HeaderFits(h)
    ensures var s := EncodeHeader(h);
            |s| == 19 && s[0] == h.a && s[1] == h.b && s[2] == h.c && Int64At(s, 3, h.lastByte) && Int64At(s, 11, h.fileSize)
  {
    var s := EncodeHeader(h);
    hide ToLittleEndian, Int64At;
    assert s[3..11] == ToLittleEndian(h.lastByte, 8) && s[11..19] == ToLittleEndian(h.fileSize, 8);
    Int64IsThere(s, 3, h.lastByte);
    Int64IsThere(s, 11, h.fileSize);
  }

  /** And those of a table entry. */
  lemma EntryLayout(e: LogicalEntry)
    requires e.offset < INT64_LIMIT && e.length < INT64_LIMIT
    ensures var s := EncodeEntry(e); |s| == 32 && s[..16] == e.id && Int64At(s, 16, e.offset) && Int64At(s, 24, e.length)
  {
    var s := EncodeEntry(e);
    hide ToLittleEndian, Int64At;
    assert s[16..24] == ToLittleEndian(e.offset, 8) && s[24..32] == ToLittleEndian(e.length, 8);
    Int64IsThere(s, 16, e.offset);
    Int64IsThere(s, 24, e.length);
  }
}
