/** The FileStoreManager object: its fields, its two mapped files, and each of its operations. */
module StoreManager {
  import opened Basics
  import opened StoreBytes
  import opened StoreModel
  import Runs = StoreRuns

  class FileStoreManager {
    var dataFile: File
    var tableFile: File
    var dataFileStructure: FileStructure
    var tableFileStructure: FileStructure
    var allEntries: Option<seq<LogicalEntry>>
    var allEntriesDictionary: map<Guid, LogicalEntry>

    /** The files after each write so far: what a crash right then would leave behind. */
    ghost var written: seq<Disk>

    ghost function OnDisk(): Disk
      reads this
    {
      Disk(dataFile, tableFile)
    }

    ghost predicate IsOpen()
      reads this
    {
      allEntries.Some? && IsValidStructure(dataFileStructure) && IsValidStructure(tableFileStructure)
    }

    ghost function Fields(): Memory
      reads this
      requires allEntries.Some?
    {
      Memory(dataFileStructure, tableFileStructure, allEntries.value, allEntriesDictionary)
    }

    constructor (data: File, table: File)
      ensures OnDisk() == Disk(data, table)
      ensures dataFileStructure == tableFileStructure == FileStructure(0, 0, 0, 0, 0) && allEntries == None
    {
      dataFile, tableFile := data, table;
      dataFileStructure := FileStructure(0, 0, 0, 0, 0);
      tableFileStructure := FileStructure(0, 0, 0, 0, 0);
      allEntries := None;
      allEntriesDictionary := map[];
      written := [];
    }

    /** The rest of the source's constructor; false when ToDictionary throws. */
    method Start() returns (ok: bool)
      requires allEntries == None
      requires !IsValidStructure(dataFileStructure) && !IsValidStructure(tableFileStructure)
      modifies this
      ensures OnDisk() == old(OpenedDisk(OnDisk()))
      ensures written == old(written) + [Disk(dataFile, old(tableFile)), OnDisk()]
      ensures ok == old(Open(OnDisk())).Some?
      ensures ok ==> IsOpen() && Fields() == old(Open(OnDisk())).value
    {
      hide LoadHeader, SaveHeader, Read;
      MaintainHeaders();
      LoadedIsValid(old(dataFile));
      LoadedIsValid(old(tableFile));
      ok := GetEntries();
    }

    method MaintainHeaders()
      modifies this
      ensures dataFileStructure
              == if IsValidStructure(old(dataFileStructure)) then old(dataFileStructure) else LoadHeader(old(dataFile))
      ensures tableFileStructure
              == if IsValidStructure(old(tableFileStructure)) then old(tableFileStructure) else LoadHeader(old(tableFile))
      ensures dataFile == SaveHeader(old(dataFile), dataFileStructure)
      ensures tableFile == SaveHeader(old(tableFile), tableFileStructure)
      ensures written == old(written) + [Disk(dataFile, old(tableFile)), OnDisk()]
      ensures allEntries == old(allEntries) && allEntriesDictionary == old(allEntriesDictionary)
    {
      hide Read, Write, EncodeHeader, DecodeHeader;
      if !IsValidStructure(dataFileStructure) {
        dataFileStructure := DecodeHeader(Read(dataFile, 0, HEADER_LENGTH));
        if !IsValidStructure(dataFileStructure) {
          dataFileStructure := dataFileStructure.(a := 'M' as int, b := 'M' as int, c := 'F' as int,
                                                  lastByte := HEADER_LENGTH);
        }
      }
      dataFile := Write(dataFile, 0, EncodeHeader(dataFileStructure));
      written := written + [OnDisk()];
      if !IsValidStructure(tableFileStructure) {
        tableFileStructure := DecodeHeader(Read(tableFile, 0, HEADER_LENGTH));
        if !IsValidStructure(tableFileStructure) {
          tableFileStructure := tableFileStructure.(a := 'M' as int, b := 'M' as int, c := 'F' as int,
                                                    lastByte := HEADER_LENGTH);
        }
      }
      tableFile := Write(tableFile, 0, EncodeHeader(tableFileStructure));
      written := written + [OnDisk()];
    }

    /** Saves the bytes an object serialises to under an id. */
    method PushEntry(id: Guid, payload: seq<Byte>)
      requires IsOpen() && Room(Fields(), Record(id, payload))
      modifies this
      ensures IsOpen()
      ensures OnDisk() == old(PartlyPushed(OnDisk(), Fields(), Record(id, payload), PushSteps(Record(id, payload))))
      ensures Fields() == old(PushedMemory(Fields(), Record(id, payload)))
      ensures var r, p := Record(id, payload), |payload|;
              written == old(written) + old([
                PartlyPushed(OnDisk(), Fields(), r, p), PartlyPushed(OnDisk(), Fields(), r, p + ENTRY_LENGTH),
                PartlyPushed(OnDisk(), Fields(), r, p + ENTRY_LENGTH + 1), PartlyPushed(OnDisk(), Fields(), r, PushSteps(r))])
    {
      hide Read, Write, EncodeEntry, EncodeHeader, PartlyPushed;
      PushStages(OnDisk(), Fields(), Record(id, payload));
      var lastbyte := dataFileStructure.lastByte;
      var lastexpectedbyte := |payload|;
      dataFile := Write(dataFile, lastbyte, payload);
      written := written + [OnDisk()];
      dataFileStructure := dataFileStructure.(lastByte := lastbyte + lastexpectedbyte);

      var le := LogicalEntry(id, lastbyte, |payload|);
      tableFile := Write(tableFile, tableFileStructure.lastByte, EncodeEntry(le));
      written := written + [OnDisk()];
      tableFileStructure := tableFileStructure.(lastByte := tableFileStructure.lastByte + ENTRY_LENGTH);

      allEntries := Some(allEntries.value + [le]);
      allEntriesDictionary := allEntriesDictionary[le.id := le];
      MaintainHeaders();
    }

    method GetEntry(id: Guid) returns (r: Runs.Fetched)
      requires IsOpen()
      ensures r == Runs.GetEntry(OnDisk(), Fields(), id)
    {
      if id !in allEntriesDictionary {
        return Runs.KeyNotFound;
      }
      var entry := allEntriesDictionary[id];
      if entry.offset != 0 {
        return Runs.Found(Read(dataFile, entry.offset, entry.length));
      }
      return Runs.Default;
    }

    /** Fills the cached list and the dictionary on first use; false when an id repeats. */
    method GetEntries() returns (ok: bool)
      modifies this`allEntries, this`allEntriesDictionary
      ensures old(allEntries).Some? ==> ok && allEntries == old(allEntries) && allEntriesDictionary == old(allEntriesDictionary)
      ensures old(allEntries) == None ==>
        var es := Entries(tableFile, ReloadCount(tableFileStructure.lastByte));
        && ok == DistinctIds(es) && allEntries == Some(es) && (ok ==> allEntriesDictionary == DictionaryOf(es))
    {
      hide EntryAt, Read;
      if allEntries.Some? {
        return true;
      }
      var entries: seq<LogicalEntry> := [];
      var location := 0;
      var length := tableFileStructure.lastByte;
      while location + ENTRY_LENGTH < length
        invariant location == ENTRY_LENGTH * |entries|
        invariant |entries| <= ReloadCount(length)
        invariant entries == Entries(tableFile, |entries|)
      {
        EntryIsRecord(tableFile, |entries|);
        var entry := DecodeEntry(Read(tableFile, HEADER_LENGTH + location, ENTRY_LENGTH));
        location := location + ENTRY_LENGTH;
        entries := entries + [entry];
      }
      allEntries := Some(entries);
      ok := ToDictionary(entries);
    }

    /** Enumerable.ToDictionary. */
    method ToDictionary(entries: seq<LogicalEntry>) returns (ok: bool)
      modifies this`allEntriesDictionary
      ensures ok == DistinctIds(entries)
      ensures ok ==> allEntriesDictionary == DictionaryOf(entries)
    {
      var dictionary := map[];
      var i := 0;
      while i < |entries|
        invariant 0 <= i <= |entries|
        invariant DistinctIds(entries[..i]) && dictionary == DictionaryOf(entries[..i])
      {
        DictionaryKeys(entries[..i]);
        assert entries[..i + 1][..i] == entries[..i];
        if entries[i].id in dictionary {
          var j :| 0 <= j < i && entries[..i][j].id == entries[i].id;
          return false;
        }
        dictionary := dictionary[entries[i].id := entries[i]];
        i := i + 1;
      }
      assert entries[..|entries|] == entries;
      allEntriesDictionary := dictionary;
      return true;
    }
  }

  /** The four stages of a push, write by write. */
  lemma PushStages(d: Disk, m: Memory, r: Record)
    ensures var p := |r.payload|;
            var d1 := Disk(Write(d.data, m.dataHeader.lastByte, r.payload), d.table);
            var d2 := d1.(table := Write(d.table, m.tableHeader.lastByte, EncodeEntry(EntryFor(m, r))));
            var d3 := d2.(data := SaveHeader(d2.data, GrownData(m, r)));
            && PartlyPushed(d, m, r, p) == d1
            && PartlyPushed(d, m, r, p + ENTRY_LENGTH) == d2
            && PartlyPushed(d, m, r, p + ENTRY_LENGTH + 1) == d3
            && PartlyPushed(d, m, r, PushSteps(r)) == d3.(table := SaveHeader(d2.table, GrownTable(m)))
  {
    hide Read, Write, EncodeHeader;
  }

  lemma EntryIsRecord(table: File, n: nat)
    ensures Entries(table, n) + [DecodeEntry(Read(table, HEADER_LENGTH + ENTRY_LENGTH * n, ENTRY_LENGTH))]
            == Entries(table, n + 1)
  {
  }

  lemma {:induction false} DictionaryKeys(es: seq<LogicalEntry>)
    ensures forall id :: id in DictionaryOf(es) <==> exists j :: 0 <= j < |es| && es[j].id == id
  {
    if es != [] {
      var before := es[..|es| - 1];
      DictionaryKeys(before);
      forall id ensures id in DictionaryOf(es) <==> exists j :: 0 <= j < |es| && es[j].id == id {
        if id in DictionaryOf(before) {
          var j :| 0 <= j < |before| && before[j].id == id;
          assert es[j].id == id;
        }
        if j :| 0 <= j < |es| && es[j].id == id {
          assert j < |before| ==> before[j].id == id;
        }
      }
    }
  }
}
