/** The document store on disk: opening, pushing, crashing at any point, and what survives. */
module StoreModel {
  import opened Basics
  import opened StoreBytes

  datatype Disk = Disk(data: File, table: File)

  /** MaintainHeaders on opening: the header on file, or a fresh one where the signature is missing. */
  function LoadHeader(f: File): FileStructure {
    var h := DecodeHeader(Read(f, 0, HEADER_LENGTH));
    if IsValidStructure(h) then h
    else h.(a := 'M' as int, b := 'M' as int, c := 'F' as int, lastByte := HEADER_LENGTH)
  }

  function SaveHeader(f: File, h: FileStructure): File {
    Write(f, 0, EncodeHeader(h))
  }

  function EntryAt(table: File, i: nat): LogicalEntry {
    DecodeEntry(Read(table, HEADER_LENGTH + ENTRY_LENGTH * i, ENTRY_LENGTH))
  }

  function Entries(table: File, n: nat): (r: seq<LogicalEntry>)
    ensures |r| == n && forall i :: 0 <= i < n ==> r[i] == EntryAt(table, i)
  {
    seq(n, i requires 0 <= i => EntryAt(table, i))
  }

  /** The dictionary that pushing the entries one after another leaves: the last one of each id. */
  function DictionaryOf(es: seq<LogicalEntry>): map<Guid, LogicalEntry> {
    if es == [] then map[]
    else DictionaryOf(es[..|es| - 1])[es[|es| - 1].id := es[|es| - 1]]
  }

  predicate DistinctIds(es: seq<LogicalEntry>) {
    forall i, j :: 0 <= i < j < |es| ==> es[i].id != es[j].id
  }

  /** The fields of an open FileStoreManager. */
  datatype Memory = Memory(
    dataHeader: FileStructure, tableHeader: FileStructure,
    entries: seq<LogicalEntry>, dictionary: map<Guid, LogicalEntry>)

  /** How many records the reload loop reads for a given LastByte. */
  function ReloadCount(lastByte: nat): nat {
    if lastByte == 0 then 0 else (lastByte - 1) / ENTRY_LENGTH
  }

  function OpenedDisk(d: Disk): Disk {
    Disk(SaveHeader(d.data, LoadHeader(d.data)), SaveHeader(d.table, LoadHeader(d.table)))
  }

  /** The constructor; None is the exception ToDictionary throws on a repeated id. */
  function Open(d: Disk): Option<Memory> {
    var d' := OpenedDisk(d);
    var h := LoadHeader(d.table);
    var es := Entries(d'.table, ReloadCount(h.lastByte));
    if DistinctIds(es) then Some(Memory(LoadHeader(d.data), h, es, DictionaryOf(es))) else None
  }

  /** A committed push: an id with the bytes its object serialises to. */
  datatype Record = Record(id: Guid, payload: seq<Byte>)

  function EntryFor(m: Memory, r: Record): LogicalEntry {
    LogicalEntry(r.id, m.dataHeader.lastByte, |r.payload|)
  }

  function GrownData(m: Memory, r: Record): FileStructure {
    m.dataHeader.(lastByte := m.dataHeader.lastByte + |r.payload|)
  }

  function GrownTable(m: Memory): FileStructure {
    m.tableHeader.(lastByte := m.tableHeader.lastByte + ENTRY_LENGTH)
  }

  function PushedMemory(m: Memory, r: Record): Memory {
    var e := EntryFor(m, r);
    Memory(GrownData(m, r), GrownTable(m), m.entries + [e], m.dictionary[r.id := e])
  }

  /** Payload bytes, entry bytes, and then the two header writes, each of them a single step. */
  function PushSteps(r: Record): nat {
    |r.payload| + ENTRY_LENGTH + 2
  }

  /** The disk after the first k steps of PushEntry. */
  function PartlyPushed(d: Disk, m: Memory, r: Record, k: nat): Disk
    requires k <= PushSteps(r)
  {
    var entry := EncodeEntry(EntryFor(m, r));
    var p := |r.payload|;
    var data := Write(d.data, m.dataHeader.lastByte, if k < p then r.payload[..k] else r.payload);
    var table := if k <= p then d.table
                 else Write(d.table, m.tableHeader.lastByte, if k < p + ENTRY_LENGTH then entry[..k - p] else entry);
    Disk(if k <= p + ENTRY_LENGTH then data else SaveHeader(data, GrownData(m, r)),
         if k <= p + ENTRY_LENGTH + 1 then table else SaveHeader(table, GrownTable(m)))
  }

  /** The 64-bit ends of both files still have room. */
  predicate Room(m: Memory, r: Record) {
    HeaderFits(GrownData(m, r)) && HeaderFits(GrownTable(m))
  }

  // ----- what the disk holds -----

  predicate InPlace(d: Disk, log: seq<Record>, i: nat)
    requires i < |log|
  {
    var e := EntryAt(d.table, i);
    && e.id == log[i].id && e.length == |log[i].payload|
    && HEADER_LENGTH <= e.offset && e.offset + e.length <= LoadHeader(d.data).lastByte
    && Read(d.data, e.offset, e.length) == log[i].payload
  }

  /** The log is in the files, in order, in extents that do not overlap, and nothing committed lies beyond the ends. */
  ghost predicate Stored(d: Disk, log: seq<Record>) {
    && HeaderFits(LoadHeader(d.data)) && HeaderFits(LoadHeader(d.table))
    && LoadHeader(d.data).lastByte >= HEADER_LENGTH
    && LoadHeader(d.table).lastByte == HEADER_LENGTH + ENTRY_LENGTH * |log|
    && (forall i :: 0 <= i < |log| ==> InPlace(d, log, i))
    && (forall i, j :: 0 <= i < j < |log| ==>
          EntryAt(d.table, i).offset + EntryAt(d.table, i).length <= EntryAt(d.table, j).offset)
  }

  /** The manager's fields mirror the disk. */
  ghost predicate InStep(d: Disk, m: Memory, log: seq<Record>) {
    && Stored(d, log)
    && m.dataHeader == LoadHeader(d.data) && m.tableHeader == LoadHeader(d.table)
    && m.entries == Entries(d.table, |log|) && m.dictionary == DictionaryOf(m.entries)
  }

  /** The extents leave no gap: they tile the data file from its header to its end. */
  ghost predicate Tiled(d: Disk, n: nat) {
    && (forall i :: 0 < i < n ==>
          EntryAt(d.table, i).offset == EntryAt(d.table, i - 1).offset + EntryAt(d.table, i - 1).length)
    && (n > 0 ==> EntryAt(d.table, 0).offset == HEADER_LENGTH)
    && LoadHeader(d.data).lastByte
       == if n == 0 then HEADER_LENGTH else EntryAt(d.table, n - 1).offset + EntryAt(d.table, n - 1).length
  }

  lemma SavedHeader(f: File, h: FileStructure)
    requires HeaderFits(h) && IsValidStructure(h)
    ensures LoadHeader(SaveHeader(f, h)) == h
  {
    HeaderRoundTrip(h);
    ReadBack(f, 0, EncodeHeader(h));
  }

  lemma LoadedIsValid(f: File)
    ensures IsValidStructure(LoadHeader(f))
  {
  }

  /** Writing past a file's header leaves the header as it was. */
  lemma HeaderKept(f: File, offset: nat, bytes: seq<Byte>)
    requires offset >= HEADER_LENGTH
    ensures LoadHeader(Write(f, offset, bytes)) == LoadHeader(f)
  {
    ReadElsewhere(f, offset, bytes, 0, HEADER_LENGTH);
  }

  /** Rewriting a header leaves everything after it. */
  lemma RestKept(f: File, h: FileStructure, at: nat, length: nat)
    requires at >= HEADER_LENGTH
    ensures Read(SaveHeader(f, h), at, length) == Read(f, at, length)
  {
    ReadElsewhere(f, 0, EncodeHeader(h), at, length);
  }

  /** A disk that agrees with d on the table records and on what lies below d's ends stores the same log. */
  lemma SameLog(d: Disk, d': Disk, log: seq<Record>)
    requires Stored(d, log)
    requires LoadHeader(d'.table) == LoadHeader(d.table)
    requires HeaderFits(LoadHeader(d'.data)) && LoadHeader(d'.data).lastByte >= LoadHeader(d.data).lastByte
    requires forall i :: 0 <= i < |log| ==> EntryAt(d'.table, i) == EntryAt(d.table, i)
    requires forall at: nat, length: nat :: HEADER_LENGTH <= at && at + length <= LoadHeader(d.data).lastByte ==>
      Read(d'.data, at, length) == Read(d.data, at, length)
    ensures Stored(d', log)
  {
    forall i | 0 <= i < |log| ensures InPlace(d', log, i) {
      assert InPlace(d, log, i);
    }
  }

  // ----- one push, cut off anywhere -----

  /** Until the table header is written, the old log is stored; only the orphaned bytes differ. */
  lemma CutOffPush(d: Disk, m: Memory, log: seq<Record>, r: Record, k: nat)
    requires InStep(d, m, log) && Room(m, r) && k < PushSteps(r)
    ensures Stored(PartlyPushed(d, m, r, k), log)
    ensures forall i :: 0 <= i < |log| ==> EntryAt(PartlyPushed(d, m, r, k).table, i) == EntryAt(d.table, i)
  {
    hide Read, Write, EncodeEntry, DecodeEntry, EncodeHeader, DecodeHeader, LoadHeader;
    var d' := PartlyPushed(d, m, r, k);
    var payload := if k < |r.payload| then r.payload[..k] else r.payload;
    var data := Write(d.data, m.dataHeader.lastByte, payload);
    HeaderKept(d.data, m.dataHeader.lastByte, payload);
    LoadedIsValid(d.data);
    SavedHeader(data, GrownData(m, r));
    forall at: nat, length: nat | HEADER_LENGTH <= at && at + length <= LoadHeader(d.data).lastByte
      ensures Read(d'.data, at, length) == Read(d.data, at, length)
    {
      ReadElsewhere(d.data, m.dataHeader.lastByte, payload, at, length);
      RestKept(data, GrownData(m, r), at, length);
    }
    var entry := EncodeEntry(EntryFor(m, r));
    var p := |r.payload|;
    var part := if k <= p || k >= p + ENTRY_LENGTH then entry else entry[..k - p];
    HeaderKept(d.table, m.tableHeader.lastByte, part);
    forall i | 0 <= i < |log| ensures EntryAt(d'.table, i) == EntryAt(d.table, i) {
      ReadElsewhere(d.table, m.tableHeader.lastByte, part, HEADER_LENGTH + ENTRY_LENGTH * i, ENTRY_LENGTH);
    }
    SameLog(d, d', log);
  }

  lemma PushedFiles(d: Disk, m: Memory, log: seq<Record>, r: Record)
    requires InStep(d, m, log) && Room(m, r)
    ensures var d' := PartlyPushed(d, m, r, PushSteps(r));
            && LoadHeader(d'.data) == GrownData(m, r) && LoadHeader(d'.table) == GrownTable(m)
            && EntryAt(d'.table, |log|) == EntryFor(m, r)
            && Read(d'.data, m.dataHeader.lastByte, |r.payload|) == r.payload
            && (forall i :: 0 <= i < |log| ==> EntryAt(d'.table, i) == EntryAt(d.table, i))
            && (forall i :: 0 <= i < |log| ==> InPlace(d', log, i))
  {
    hide Read, Write, EncodeEntry, DecodeEntry, EncodeHeader, DecodeHeader, LoadHeader, FromLittleEndian;
    var d' := PartlyPushed(d, m, r, PushSteps(r));
    var entry := EncodeEntry(EntryFor(m, r));
    var data := Write(d.data, m.dataHeader.lastByte, r.payload);
    var table := Write(d.table, m.tableHeader.lastByte, entry);
    assert d' == Disk(SaveHeader(data, GrownData(m, r)), SaveHeader(table, GrownTable(m)));
    LoadedIsValid(d.data);
    LoadedIsValid(d.table);
    SavedHeader(data, GrownData(m, r));
    SavedHeader(table, GrownTable(m));
    ReadBack(d.data, m.dataHeader.lastByte, r.payload);
    RestKept(data, GrownData(m, r), m.dataHeader.lastByte, |r.payload|);
    EntryRoundTrip(EntryFor(m, r));
    ReadBack(d.table, m.tableHeader.lastByte, entry);
    RestKept(table, GrownTable(m), m.tableHeader.lastByte, ENTRY_LENGTH);
    forall i | 0 <= i < |log|
      ensures EntryAt(d'.table, i) == EntryAt(d.table, i) && InPlace(d', log, i)
    {
      var at := HEADER_LENGTH + ENTRY_LENGTH * i;
      ReadElsewhere(d.table, m.tableHeader.lastByte, entry, at, ENTRY_LENGTH);
      RestKept(table, GrownTable(m), at, ENTRY_LENGTH);
      assert InPlace(d, log, i);
      var e := EntryAt(d.table, i);
      ReadElsewhere(d.data, m.dataHeader.lastByte, r.payload, e.offset, e.length);
      RestKept(data, GrownData(m, r), e.offset, e.length);
    }
  }

  /** A whole push stores one record more and keeps the fields in step. */
  lemma WholePush(d: Disk, m: Memory, log: seq<Record>, r: Record)
    requires InStep(d, m, log) && Room(m, r)
    ensures InStep(PartlyPushed(d, m, r, PushSteps(r)), PushedMemory(m, r), log + [r])
  {
    hide Read, Write, LoadHeader, EntryAt, PartlyPushed;
    PushedFiles(d, m, log, r);
    var d' := PartlyPushed(d, m, r, PushSteps(r));
    var log' := log + [r];
    forall i | 0 <= i < |log'| ensures InPlace(d', log', i) {
      if i < |log| {
        assert InPlace(d', log, i);
      }
    }
    forall i, j | 0 <= i < j < |log'|
      ensures EntryAt(d'.table, i).offset + EntryAt(d'.table, i).length <= EntryAt(d'.table, j).offset
    {
      assert InPlace(d, log, i);
    }
    assert Entries(d'.table, |log'|) == m.entries + [EntryFor(m, r)];
    assert (m.entries + [EntryFor(m, r)])[..|log|] == m.entries;
  }

  /** Without gaps before a push, there are none after it. */
  lemma PushKeepsTiles(d: Disk, m: Memory, log: seq<Record>, r: Record)
    requires InStep(d, m, log) && Room(m, r) && Tiled(d, |log|)
    ensures Tiled(PartlyPushed(d, m, r, PushSteps(r)), |log| + 1)
  {
    hide Read, Write, LoadHeader, EntryAt, PartlyPushed;
    PushedFiles(d, m, log, r);
  }

  // ----- opening -----

  lemma OpenKeepsLog(d: Disk, log: seq<Record>)
    requires Stored(d, log)
    ensures Stored(OpenedDisk(d), log) && Stored(Disk(OpenedDisk(d).data, d.table), log)
    ensures LoadHeader(OpenedDisk(d).data) == LoadHeader(d.data)
    ensures LoadHeader(OpenedDisk(d).table) == LoadHeader(d.table)
    ensures forall i :: 0 <= i < |log| ==> EntryAt(OpenedDisk(d).table, i) == EntryAt(d.table, i)
  {
    var d' := OpenedDisk(d);
    LoadedIsValid(d.data);
    LoadedIsValid(d.table);
    SavedHeader(d.data, LoadHeader(d.data));
    SavedHeader(d.table, LoadHeader(d.table));
    forall at: nat, length: nat | HEADER_LENGTH <= at
      ensures Read(d'.data, at, length) == Read(d.data, at, length)
    {
      RestKept(d.data, LoadHeader(d.data), at, length);
    }
    forall i | 0 <= i < |log| ensures EntryAt(d'.table, i) == EntryAt(d.table, i) {
      RestKept(d.table, LoadHeader(d.table), HEADER_LENGTH + ENTRY_LENGTH * i, ENTRY_LENGTH);
    }
    SameLog(d, d', log);
    SameLog(d, Disk(d'.data, d.table), log);
  }

  predicate DistinctKeys(log: seq<Record>) {
    forall i, j :: 0 <= i < j < |log| ==> log[i].id != log[j].id
  }

  /**
   * Opening a disk that stores a log succeeds exactly when no id was pushed twice, and then the fields mirror
   * exactly that log: the reload loop reads neither one record too few nor one too many.
   */
  lemma OpenReads(d: Disk, log: seq<Record>)
    requires Stored(d, log)
    ensures Open(d).Some? <==> DistinctKeys(log)
    ensures Open(d).Some? ==> InStep(OpenedDisk(d), Open(d).value, log)
    ensures Open(d).Some? ==> Open(d).value.entries == Entries(d.table, |log|)
  {
    OpenKeepsLog(d, log);
    var d' := OpenedDisk(d);
    assert ReloadCount(LoadHeader(d.table).lastByte) == |log|;
    var es := Entries(d'.table, |log|);
    forall i | 0 <= i < |log| ensures es[i].id == log[i].id {
      assert InPlace(d', log, i);
    }
  }
}
