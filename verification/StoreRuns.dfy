/** Whole histories of a store: any mix of openings, pushes, closings and crashes. */
module StoreRuns {
  import opened Basics
  import opened StoreBytes
  import opened StoreModel

  /** The files, the manager if one is open, and the pushes that have been completed. */
  datatype Session = Session(disk: Disk, memory: Option<Memory>, log: seq<Record>)

  datatype Event =
    | OpenStore
    | CloseStore
    | Push(r: Record)
    | CrashInPush(r: Record, k: nat)   // the process dies after k steps of the push
    | CrashInOpen                      // the process dies between the two header writes of the constructor

  const NewStore: Session := Session(Disk([], []), None, [])

  function Next(s: Session, e: Event): Session {
    match e
    case OpenStore => if s.memory.Some? then s else Session(OpenedDisk(s.disk), Open(s.disk), s.log)
    case CloseStore => s.(memory := None)
    case Push(r) =>
      if s.memory.Some? && Room(s.memory.value, r) then
        Session(PartlyPushed(s.disk, s.memory.value, r, PushSteps(r)), Some(PushedMemory(s.memory.value, r)), s.log + [r])
      else s
    case CrashInPush(r, k) =>
      if s.memory.Some? && Room(s.memory.value, r) && k < PushSteps(r) then
        Session(PartlyPushed(s.disk, s.memory.value, r, k), None, s.log)
      else s
    case CrashInOpen =>
      if s.memory.Some? then s else s.(disk := Disk(OpenedDisk(s.disk).data, s.disk.table))
  }

  function Run(events: seq<Event>): Session {
    if events == [] then NewStore else Next(Run(events[..|events| - 1]), events[|events| - 1])
  }

  ghost predicate Sound(s: Session) {
    && Stored(s.disk, s.log)
    && (s.memory.Some? ==> InStep(s.disk, s.memory.value, s.log))
  }

  lemma {:induction false} NewStoreSound()
    ensures Sound(NewStore)
  {
    assert Pow256(0) == 1;
    ZeroHeader();
  }

  lemma {:induction false} ZeroNumber(s: seq<Byte>)
    requires forall i :: 0 <= i < |s| ==> s[i] == 0
    ensures FromLittleEndian(s) == 0
  {
    if s != [] {
      ZeroNumber(s[1..]);
    }
  }

  lemma ZeroHeader()
    ensures LoadHeader([]) == FileStructure('M' as int, 'M' as int, 'F' as int, HEADER_LENGTH, 0)
  {
    ZeroNumber(Read([], 0, HEADER_LENGTH)[11..19]);
  }

  lemma NextSound(s: Session, e: Event)
    requires Sound(s)
    ensures Sound(Next(s, e))
  {
    hide Stored, InStep, PartlyPushed, OpenedDisk;
    match e
    case OpenStore => OpenKeepsLog(s.disk, s.log); OpenReads(s.disk, s.log);
    case CloseStore =>
    case Push(r) =>
      if s.memory.Some? && Room(s.memory.value, r) {
        WholePush(s.disk, s.memory.value, s.log, r);
        StepIsStored(PartlyPushed(s.disk, s.memory.value, r, PushSteps(r)), PushedMemory(s.memory.value, r), s.log + [r]);
      }
    case CrashInPush(r, k) =>
      if s.memory.Some? && Room(s.memory.value, r) && k < PushSteps(r) {
        CutOffPush(s.disk, s.memory.value, s.log, r, k);
      }
    case CrashInOpen => OpenKeepsLog(s.disk, s.log);
  }

  lemma StepIsStored(d: Disk, m: Memory, log: seq<Record>)
    requires InStep(d, m, log)
    ensures Stored(d, log)
  {
  }

  /** After any history at all, the files hold exactly the completed pushes and the fields mirror them. */
  lemma {:induction false} RunSound(events: seq<Event>)
    ensures Sound(Run(events))
  {
    if events == [] {
      NewStoreSound();
    } else {
      RunSound(events[..|events| - 1]);
      NextSound(Run(events[..|events| - 1]), events[|events| - 1]);
    }
  }

  /**
   * Crash atomicity: whatever came before, a push cut off after any number of its steps leaves files that
   * open (when the ids are distinct) to exactly the entries from before the push, or, after its last step,
   * to exactly one entry more; and every payload committed before is read back unchanged.
   */
  lemma CrashAtomicity(events: seq<Event>, r: Record, k: nat)
    requires var s := Run(events); s.memory.Some? && Room(s.memory.value, r) && k <= PushSteps(r)
    ensures var s := Run(events);
            var m := s.memory.value;
            var d := PartlyPushed(s.disk, m, r, k);
            && |m.entries| == |s.log|
            && (Open(d).Some? <==> DistinctKeys(if k == PushSteps(r) then s.log + [r] else s.log))
            && (Open(d).Some? ==>
                && Open(d).value.entries == (if k == PushSteps(r) then m.entries + [EntryFor(m, r)] else m.entries)
                && forall i :: 0 <= i < |s.log| ==>
                     Read(OpenedDisk(d).data, m.entries[i].offset, m.entries[i].length) == s.log[i].payload)
  {
    hide PartlyPushed, Read, Open, OpenedDisk, LoadHeader, Run, EntryAt;
    RunSound(events);
    var s := Run(events);
    var m := s.memory.value;
    var d := PartlyPushed(s.disk, m, r, k);
    var log := if k == PushSteps(r) then s.log + [r] else s.log;
    if k == PushSteps(r) {
      WholePush(s.disk, m, s.log, r);
    } else {
      CutOffPush(s.disk, m, s.log, r, k);
    }
    OpenReads(d, log);
    if Open(d).Some? {
      var es := Open(d).value.entries;
      assert es[..|s.log|] == m.entries;
      forall i | 0 <= i < |s.log|
        ensures Read(OpenedDisk(d).data, m.entries[i].offset, m.entries[i].length) == s.log[i].payload
      {
        assert InPlace(OpenedDisk(d), log, i);
        assert es[i] == m.entries[i];
      }
    }
  }

  // ----- what a reader gets -----

  /** The payload of the last push under an id. */
  function Latest(log: seq<Record>, id: Guid): Option<seq<Byte>> {
    if log == [] then None
    else if log[|log| - 1].id == id then Some(log[|log| - 1].payload)
    else Latest(log[..|log| - 1], id)
  }

  /** GetEntry: missing keys throw, and an entry at offset zero gives the default value. */
  datatype Fetched = KeyNotFound | Default | Found(bytes: seq<Byte>)

  function GetEntry(d: Disk, m: Memory, id: Guid): Fetched {
    if id !in m.dictionary then KeyNotFound
    else
      var e := m.dictionary[id];
      if e.offset != 0 then Found(Read(d.data, e.offset, e.length)) else Default
  }

  /** The dictionary built from entries finds the last entry of an id. */
  lemma {:induction false} DictionaryFindsLast(d: Disk, log: seq<Record>, n: nat, id: Guid)
    requires n <= |log| && forall i :: 0 <= i < n ==> InPlace(d, log, i)
    ensures var dict := DictionaryOf(Entries(d.table, n));
            match Latest(log[..n], id)
            case None => id !in dict
            case Some(p) => id in dict && dict[id].offset >= HEADER_LENGTH && Read(d.data, dict[id].offset, dict[id].length) == p
  {
    hide Read;
    if n > 0 {
      var es := Entries(d.table, n);
      assert es[..n - 1] == Entries(d.table, n - 1);
      assert log[..n][..n - 1] == log[..n - 1];
      assert InPlace(d, log, n - 1);
      DictionaryFindsLast(d, log, n - 1, id);
    }
  }

  /** After any history GetEntry returns the payload of the last completed push under the id, or throws if there is none. */
  lemma ReadsLatest(events: seq<Event>, id: Guid)
    requires Run(events).memory.Some?
    ensures var s := Run(events);
            GetEntry(s.disk, s.memory.value, id)
            == match Latest(s.log, id) case None => KeyNotFound case Some(p) => Found(p)
  {
    hide Read, Run, LoadHeader;
    RunSound(events);
    var s := Run(events);
    DictionaryFindsLast(s.disk, s.log, |s.log|, id);
    assert s.log[..|s.log|] == s.log;
  }

  /** Closing and opening again rebuilds exactly the same list, exactly when no id was pushed twice. */
  lemma ReopenRebuilds(events: seq<Event>)
    requires Run(events).memory.Some?
    ensures var s := Run(events);
            && (Open(s.disk).Some? <==> DistinctKeys(s.log))
            && (Open(s.disk).Some? ==> Open(s.disk) == s.memory && InStep(OpenedDisk(s.disk), s.memory.value, s.log))
  {
    hide Read, Run, OpenedDisk, DictionaryOf, EntryAt;
    RunSound(events);
    var s := Run(events);
    OpenReads(s.disk, s.log);
    OpenKeepsLog(s.disk, s.log);
  }

  lemma RunAdd(events: seq<Event>, e: Event)
    ensures Run(events + [e]) == Next(Run(events), e)
  {
    assert (events + [e])[..|events|] == events;
  }

  /** A new store opens, with nothing in it. */
  lemma FirstOpening()
    ensures var s := Run([OpenStore]);
            && s.memory.Some? && s.log == [] && s.memory.value.dataHeader == s.memory.value.tableHeader
            && s.memory.value.dataHeader == FileStructure('M' as int, 'M' as int, 'F' as int, HEADER_LENGTH, 0)
  {
    hide OpenedDisk, Entries, DictionaryOf, LoadHeader;
    RunAdd([], OpenStore);
    assert [] + [OpenStore] == [OpenStore];
    NewStoreSound();
    OpenReads(Disk([], []), []);
    ZeroHeader();
  }

  /** Such a history: one id pushed twice, for instance with no bytes, shuts the store. */
  lemma RepeatedIdShutsStore(id: Guid)
    ensures var s := Run([OpenStore, Push(Record(id, [])), Push(Record(id, []))]);
            s.log == [Record(id, []), Record(id, [])] && Open(s.disk) == None
  {
    hide PartlyPushed, OpenedDisk, Open;
    var r := Record(id, []);
    FirstOpening();
    RunAdd([OpenStore], Push(r));
    RunAdd([OpenStore, Push(r)], Push(r));
    assert [OpenStore] + [Push(r)] == [OpenStore, Push(r)];
    assert [OpenStore, Push(r)] + [Push(r)] == [OpenStore, Push(r), Push(r)];
    var events := [OpenStore, Push(r), Push(r)];
    assert Run(events).log == [r, r];
    ReopenRebuilds(events);
    assert [r, r][0].id == [r, r][1].id;
  }

  /** The extents of two completed pushes never overlap and lie inside the written part, whatever crashes intervene. */
  lemma ExtentsDisjoint(events: seq<Event>, i: nat, j: nat)
    requires i < j < |Run(events).log|
    ensures var d := Run(events).disk;
            var e, e' := EntryAt(d.table, i), EntryAt(d.table, j);
            HEADER_LENGTH <= e.offset && e.offset + e.length <= e'.offset
            && e'.offset + e'.length <= LoadHeader(d.data).lastByte
  {
    hide LoadHeader, EntryAt, Run;
    RunSound(events);
    var s := Run(events);
    assert InPlace(s.disk, s.log, i) && InPlace(s.disk, s.log, j);
  }

  predicate IsCrash(e: Event) {
    e.CrashInPush? || e.CrashInOpen?
  }

  /** Without crashes the extents tile the data file from its header to LastByte. */
  lemma {:induction false} CrashFreeTiles(events: seq<Event>)
    requires forall i :: 0 <= i < |events| ==> !IsCrash(events[i])
    ensures Tiled(Run(events).disk, |Run(events).log|)
  {
    hide EntryAt, LoadHeader, PartlyPushed, OpenedDisk, Stored;
    if events == [] {
      ZeroHeader();
    } else {
      var before := events[..|events| - 1];
      var s := Run(before);
      CrashFreeTiles(before);
      RunSound(before);
      match events[|events| - 1]
      case OpenStore => OpenKeepsLog(s.disk, s.log);
      case Push(r) =>
        if s.memory.Some? && Room(s.memory.value, r) {
          PushKeepsTiles(s.disk, s.memory.value, s.log, r);
        }
      case _ =>
    }
  }
}
