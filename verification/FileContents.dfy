/** What loads return, for a file that is used through one system only: whole contents, the latest, and no collisions. */
module FileContents {
  import opened Basics
  import opened SharedFiles

  // ----- what a load should return -----

  /** The content of the last save of a file that was closed, or what the file held at the start. */
  function Latest(files: map<Key, Content>, trace: seq<Event>, key: Key): Option<Content> {
    if trace == [] then FileOf(files, key)
    else
      var e := trace[|trace| - 1];
      if e.WriterClosed? && e.w.job.key == key then Some(Payload(e.w.job))
      else Latest(files, trace[..|trace| - 1], key)
  }

  ghost predicate NoOpenAfter(trace: seq<Event>, t: Tid, since: nat) {
    forall i :: since < i < |trace| ==> !(trace[i].ReaderOpened? && trace[i].t == t)
  }

  /** The load closed at j returned what had been saved when it opened, whole. */
  ghost predicate ClosedOk(files: map<Key, Content>, trace: seq<Event>, j: nat)
    requires j < |trace| && trace[j].ReaderClosed?
  {
    var e := trace[j];
    && e.since < j && trace[e.since] == ReaderOpened(e.t, e.w.job.key) && NoOpenAfter(trace[..j], e.t, e.since)
    && e.result == Latest(files, trace[..e.since], e.w.job.key)
  }

  // ----- one file, one system -----

  /** Whoever starts or submits something about the file goes through the one system. */
  predicate Uses(a: Action, key: Key, system: System) {
    match a
    case Begin(_, job) => job.key == key ==> system == Static
    case Submit(queue, _, job) => job.key == key ==> system == Private(queue)
    case _ => true
  }

  predicate OneSystem(actions: seq<Action>, key: Key, system: System) {
    forall i :: 0 <= i < |actions| ==> Uses(actions[i], key, system)
  }

  predicate About(pc: Pc, key: Key) {
    !pc.Idle? && pc.w.job.key == key
  }

  ghost predicate ItemsFit(s: State, key: Key, system: System) {
    && (forall id :: id in s.items && s.items[id].job.key == key ==> Private(s.items[id].queue) == system)
    && (forall q, i :: q in s.queues && 0 <= i < |s.queues[q]| ==>
          s.queues[q][i] in s.items && s.items[s.queues[q][i]].queue == q)
  }

  /** A writing thread has put a prefix into the file, a leaving one everything. */
  predicate WritesOk(s: State, pc: Pc) {
    && (pc.Writing? ==> pc.n <= |Payload(pc.w.job)| && FileOf(s.files, pc.w.job.key) == Some(Payload(pc.w.job)[..pc.n]))
    && (pc.LeaveWriter? ==> FileOf(s.files, pc.w.job.key) == Some(Payload(pc.w.job)))
  }

  /** The file has not been saved since a reading thread's section opened, and what it has read stands there. */
  ghost predicate ReadsOk(files: map<Key, Content>, s: State, t: Tid, pc: Pc) {
    Loading(pc) ==>
      var key := pc.w.job.key;
      && pc.since < |s.trace| && s.trace[pc.since] == ReaderOpened(t, key) && NoOpenAfter(s.trace, t, pc.since)
      && Latest(files, s.trace, key) == Latest(files, s.trace[..pc.since], key)
      && (pc.Reading? ==> key in s.files && pc.buffer <= s.files[key])
      && (pc.LeaveReader? ==> pc.result == Latest(files, s.trace, key))
  }

  ghost predicate ThreadOk(files: map<Key, Content>, s: State, t: Tid, pc: Pc, key: Key, system: System) {
    About(pc, key) ==>
      SystemOf(pc.w.origin) == system && !pc.Collided? && WritesOk(s, pc) && ReadsOk(files, s, t, pc)
  }

  ghost predicate ThreadsOk(files: map<Key, Content>, s: State, key: Key, system: System) {
    forall t: Tid :: ThreadOk(files, s, t, PcOf(s, t), key, system)
  }

  predicate NoWriter(k: Locks, slot: Slot) {
    slot in k.entries ==> LockOf(k, k.entries[slot]).writer == None
  }

  ghost predicate TraceOk(files: map<Key, Content>, trace: seq<Event>, key: Key) {
    forall j :: 0 <= j < |trace| && trace[j].ReaderClosed? && trace[j].w.job.key == key ==> ClosedOk(files, trace, j)
  }

  /** While nobody writes the file it holds what was saved last. */
  ghost predicate FileInv(files: map<Key, Content>, s: State, key: Key, system: System) {
    && LockInv(s) && ItemsFit(s, key, system) && ThreadsOk(files, s, key, system) && TraceOk(files, s.trace, key)
    && (NoWriter(s.locks, Slot(system, key)) ==> FileOf(s.files, key) == Latest(files, s.trace, key))
  }

  // ----- growing traces -----

  lemma LatestAppend(files: map<Key, Content>, trace: seq<Event>, e: Event, key: Key)
    ensures Latest(files, trace + [e], key)
            == if e.WriterClosed? && e.w.job.key == key then Some(Payload(e.w.job)) else Latest(files, trace, key)
  {
    assert (trace + [e])[..|trace|] == trace;
  }

  lemma TraceAppend(files: map<Key, Content>, trace: seq<Event>, e: Event, key: Key)
    requires TraceOk(files, trace, key)
    requires e.ReaderClosed? && e.w.job.key == key ==> ClosedOk(files, trace + [e], |trace|)
    ensures TraceOk(files, trace + [e], key)
  {
    var trace' := trace + [e];
    forall j | 0 <= j < |trace'| && trace'[j].ReaderClosed? && trace'[j].w.job.key == key
      ensures ClosedOk(files, trace', j)
    {
      if j < |trace| {
        assert ClosedOk(files, trace, j);
        assert trace'[..j] == trace[..j];
        assert trace'[..trace[j].since] == trace[..trace[j].since];
      }
    }
  }

  /** Nothing, or one event that does not close a save of the file. */
  ghost predicate Quiet(trace: seq<Event>, trace': seq<Event>, key: Key) {
    trace' == trace
    || (|trace'| == |trace| + 1 && trace' == trace + [trace'[|trace|]]
        && !(trace'[|trace|].WriterClosed? && trace'[|trace|].w.job.key == key))
  }

  ghost predicate Reopens(trace: seq<Event>, trace': seq<Event>, u: Tid) {
    |trace'| > |trace| && trace'[|trace|].ReaderOpened? && trace'[|trace|].t == u
  }

  lemma QuietLatest(files: map<Key, Content>, trace: seq<Event>, trace': seq<Event>, key: Key)
    requires Quiet(trace, trace', key)
    ensures Latest(files, trace', key) == Latest(files, trace, key)
  {
    if trace' != trace {
      LatestAppend(files, trace, trace'[|trace|], key);
    }
  }

  /** A thread that does not move is not disturbed by a quiet step that leaves the file alone. */
  lemma StaysOk(files: map<Key, Content>, s: State, s': State, u: Tid, pc: Pc, key: Key, system: System)
    requires ThreadOk(files, s, u, pc, key, system) && Quiet(s.trace, s'.trace, key) && !Reopens(s.trace, s'.trace, u)
    requires FileOf(s'.files, key) == FileOf(s.files, key)
    ensures ThreadOk(files, s', u, pc, key, system)
  {
    hide Latest;
    if About(pc, key) && Loading(pc) {
      QuietLatest(files, s.trace, s'.trace, key);
      assert s'.trace[..pc.since] == s.trace[..pc.since];
    }
  }

  // ----- moves of one thread -----

  /** A step that leaves the file alone and closes no save of it. */
  lemma QuietKeeps(files: map<Key, Content>, s: State, s': State, t: Tid, pc: Pc, key: Key, system: System)
    requires FileInv(files, s, key, system) && LockInv(s') && ItemsFit(s', key, system)
    requires s'.threads == s.threads[t := pc] && FileOf(s'.files, key) == FileOf(s.files, key)
    requires Quiet(s.trace, s'.trace, key) && forall u: Tid :: u != t ==> !Reopens(s.trace, s'.trace, u)
    requires NoWriter(s'.locks, Slot(system, key)) ==> NoWriter(s.locks, Slot(system, key))
    requires ThreadOk(files, s', t, pc, key, system) && TraceOk(files, s'.trace, key)
    ensures FileInv(files, s', key, system)
  {
    hide Latest, ThreadOk, TraceOk, NoWriter, FileOf, LockInv, ItemsFit, Reopens, Quiet;
    Moved(s.threads, s'.threads, t, pc);
    forall u: Tid ensures ThreadOk(files, s', u, PcOf(s', u), key, system) {
      if u != t {
        StaysOk(files, s, s', u, PcOf(s, u), key, system);
      }
    }
    QuietLatest(files, s.trace, s'.trace, key);
  }

  /** Nobody else stands in a section of the file while a thread stands in its write section. */
  lemma AloneOnFile(files: map<Key, Content>, s: State, t: Tid, u: Tid, key: Key, system: System)
    requires FileInv(files, s, key, system) && t != u
    requires About(PcOf(s, t), key) && InWriter(PcOf(s, t)) && About(PcOf(s, u), key)
    ensures !InReader(PcOf(s, u)) && !InWriter(PcOf(s, u))
  {
    hide Latest, LockInv, TraceOk;
    assert ThreadOk(files, s, t, PcOf(s, t), key, system) && ThreadOk(files, s, u, PcOf(s, u), key, system);
    if InReader(PcOf(s, u)) || InWriter(PcOf(s, u)) {
      WriterAlone(s, t, u);
    }
  }

  /** So File.Open never meets a handle it does not tolerate. */
  lemma NeverBarred(files: map<Key, Content>, s: State, t: Tid, key: Key, system: System)
    requires FileInv(files, s, key, system) && About(PcOf(s, t), key)
    ensures PcOf(s, t).Truncate? ==> !Barred(s, t, key, true)
    ensures PcOf(s, t).Probe? ==> !Barred(s, t, key, false)
  {
    hide FileInv;
    forall u | u in s.threads && u != t
      ensures PcOf(s, t).Truncate? ==> !Bars(s.threads[u], key, true)
      ensures PcOf(s, t).Probe? ==> !Bars(s.threads[u], key, false)
    {
      if About(PcOf(s, u), key) {
        if PcOf(s, t).Truncate? {
          AloneOnFile(files, s, t, u, key, system);
        } else if PcOf(s, u).Writing? {
          AloneOnFile(files, s, u, t, key, system);
        }
      }
    }
  }

  /** A save puts something into the file. */
  lemma WriteKeeps(files: map<Key, Content>, s: State, s': State, t: Tid, content: Content, pc: Pc, key: Key, system: System)
    requires FileInv(files, s, key, system) && About(PcOf(s, t), key) && Saving(PcOf(s, t)) && LockInv(s')
    requires s' == Goto(s, t, pc).(files := s.files[key := content])
    requires pc.Writing? && pc.w == PcOf(s, t).w && pc.l == PcOf(s, t).l
    requires pc.n <= |Payload(pc.w.job)| && content == Payload(pc.w.job)[..pc.n]
    ensures FileInv(files, s', key, system)
  {
    hide Latest, TraceOk, LockInv, ItemsFit;
    Moved(s.threads, s'.threads, t, pc);
    assert ThreadOk(files, s, t, PcOf(s, t), key, system);
    forall u: Tid ensures ThreadOk(files, s', u, PcOf(s', u), key, system) {
      assert ThreadOk(files, s, u, PcOf(s, u), key, system);
      if u != t && About(PcOf(s, u), key) {
        AloneOnFile(files, s, t, u, key, system);
      }
    }
    WriterThere(s, t);
    assert SlotOf(PcOf(s, t).w) == Slot(system, key);
    ItemsSame(s, s', key, system);
  }

  /** The lock of a writing thread has a writer. */
  lemma WriterThere(s: State, t: Tid)
    requires LockInv(s) && InWriter(PcOf(s, t))
    ensures !NoWriter(s.locks, SlotOf(PcOf(s, t).w))
  {
    assert HandOk(s.locks, PcOf(s, t));
    Standing(s, t, PcOf(s, t).l);
  }

  /** A save of the file is closed. */
  lemma CloseKeeps(files: map<Key, Content>, s: State, t: Tid, key: Key, system: System)
    requires FileInv(files, s, key, system) && About(PcOf(s, t), key) && PcOf(s, t).LeaveWriter?
    requires LockInv(Saved(s, t, PcOf(s, t)))
    ensures FileInv(files, Saved(s, t, PcOf(s, t)), key, system)
  {
    hide Latest, TraceOk, LockInv, ItemsFit, LockOf;
    var w, s' := PcOf(s, t).w, Saved(s, t, PcOf(s, t));
    InHand(s, t);
    Moved(s.threads, s'.threads, t, AfterJob(w));
    assert ThreadOk(files, s, t, PcOf(s, t), key, system);
    forall u: Tid ensures ThreadOk(files, s', u, PcOf(s', u), key, system) {
      assert ThreadOk(files, s, u, PcOf(s, u), key, system);
      if u != t && About(PcOf(s, u), key) {
        AloneOnFile(files, s, t, u, key, system);
      }
    }
    TraceAppend(files, s.trace, WriterClosed(t, w), key);
    LatestAppend(files, s.trace, WriterClosed(t, w), key);
    ItemsSame(s, s', key, system);
  }

  lemma InHand(s: State, t: Tid)
    requires LockInv(s) && HasLock(PcOf(s, t))
    ensures SlotOf(PcOf(s, t).w) in s.locks.entries && s.locks.entries[SlotOf(PcOf(s, t).w)] == PcOf(s, t).l
  {
    assert HandOk(s.locks, PcOf(s, t));
  }

  lemma ItemsSame(s: State, s': State, key: Key, system: System)
    requires ItemsFit(s, key, system) && s'.queues == s.queues && s'.items.Keys == s.items.Keys
    requires forall id :: id in s.items ==> s'.items[id].job == s.items[id].job && s'.items[id].queue == s.items[id].queue
    ensures ItemsFit(s', key, system)
  {
  }

  // ----- every step -----

  /** Work goes on outside every section. */
  predicate Outside(a: Pc, b: Pc) {
    !a.Idle? && !b.Idle? && !b.Finish? && b.w == a.w && !InReader(b) && !InWriter(b)
  }

  lemma ApproachOutside(k: Locks, t: Tid, pc: Pc)
    requires Approaching(pc)
    ensures Outside(pc, NextPlace(k, t, pc))
  {
    hide LockOf, SpinOf, SlotOf;
  }

  lemma EntriesGrow(k: Locks, t: Tid, pc: Pc)
    requires Approaching(pc) && HandOk(k, pc)
    ensures NextLocks(k, t, pc).held == k.held
    ensures forall e :: e in k.entries ==> e in NextLocks(k, t, pc).entries && NextLocks(k, t, pc).entries[e] == k.entries[e]
  {
    hide SpinOf, SlotOf;
  }

  lemma ApproachKeepsFile(files: map<Key, Content>, s: State, t: Tid, key: Key, system: System)
    requires FileInv(files, s, key, system) && Approaching(PcOf(s, t))
    ensures FileInv(files, Approached(s, t, PcOf(s, t)), key, system)
  {
    var pc, s' := PcOf(s, t), Approached(s, t, PcOf(s, t));
    ApproachKeeps(s, t);
    assert HandOk(s.locks, pc);
    hide Latest, TraceOk, LockInv, ItemsFit, FileOf, NextPlace, NextLocks, NoWriter, SystemOf, Payload;
    ApproachOutside(s.locks, t, pc);
    EntriesGrow(s.locks, t, pc);
    assert ThreadOk(files, s, t, pc, key, system);
    ItemsSame(s, s', key, system);
    NoWriterKept(s.locks, s'.locks, Slot(system, key));
    QuietKeeps(files, s, s', t, NextPlace(s.locks, t, pc), key, system);
  }

  lemma NoWriterKept(k: Locks, k': Locks, slot: Slot)
    requires k'.held == k.held
    requires forall e :: e in k.entries ==> e in k'.entries && k'.entries[e] == k.entries[e]
    ensures NoWriter(k', slot) ==> NoWriter(k, slot)
  {
  }

  /** What entering a section changes. */
  ghost predicate Enters(s: State, s': State, t: Tid, w: Work, l: LockId, e: Event, r: RwLock) {
    && s'.threads == s.threads[t := PcOf(s', t)] && s'.files == s.files && s'.queues == s.queues && s'.items == s.items
    && s'.trace == s.trace + [e] && s'.locks == Held(s.locks, l, r) && LockOf(s.locks, l).writer == None
    && if w.job.save.Some? then PcOf(s', t) == Truncate(w, l) && e == WriterOpened(t, w.job.key)
       else PcOf(s', t) == Probe(w, l, |s.trace|) && e == ReaderOpened(t, w.job.key)
  }

  lemma EnterEffect(s: State, t: Tid, w: Work, l: LockId)
    ensures var s' := EnterLock(s, t, w, l);
            s' == s || exists e, r :: Enters(s, s', t, w, l, e, r)
  {
    hide LockOf;
    var s' := EnterLock(s, t, w, l);
    var r := LockOf(s.locks, l);
    if w.job.save.Some? {
      assert s' != s ==> Enters(s, s', t, w, l, WriterOpened(t, w.job.key), r.(writer := Some(t)));
    } else {
      assert s' != s ==> Enters(s, s', t, w, l, ReaderOpened(t, w.job.key), r.(readers := r.readers + {t}));
    }
  }

  lemma EnterKeepsFile(files: map<Key, Content>, s: State, t: Tid, w: Work, l: LockId, key: Key, system: System)
    requires FileInv(files, s, key, system) && PcOf(s, t) == WantLock(w, l)
    ensures FileInv(files, EnterLock(s, t, w, l), key, system)
  {
    hide Latest, TraceOk, LockInv, ItemsFit, FileOf, LockOf, SlotOf, NoWriter, EnterLock, Payload;
    var s' := EnterLock(s, t, w, l);
    EnterKeeps(s, t, w, l);
    EnterEffect(s, t, w, l);
    if s' != s {
      var e, r :| Enters(s, s', t, w, l, e, r);
      assert ThreadOk(files, s, t, PcOf(s, t), key, system);
      ItemsSame(s, s', key, system);
      TraceAppend(files, s.trace, e, key);
      LatestAppend(files, s.trace, e, key);
      NoWriterBefore(s.locks, l, r, Slot(system, key));
      assert s'.trace[..|s.trace|] == s.trace;
      QuietKeeps(files, s, s', t, PcOf(s', t), key, system);
    }
  }

  lemma NoWriterBefore(k: Locks, l: LockId, r: RwLock, slot: Slot)
    requires LockOf(k, l).writer == None
    ensures NoWriter(Held(k, l, r), slot) ==> NoWriter(k, slot)
  {
  }

  /** Steps of a save of this file or another. */
  lemma SaveKeepsFile(files: map<Key, Content>, s: State, t: Tid, key: Key, system: System)
    requires FileInv(files, s, key, system) && Saving(PcOf(s, t))
    ensures FileInv(files, Saved(s, t, PcOf(s, t)), key, system)
  {
    hide Latest, TraceOk, LockInv, ItemsFit, LockOf, Barred;
    SaveKeeps(s, t);
    var pc, s' := PcOf(s, t), Saved(s, t, PcOf(s, t));
    assert ThreadOk(files, s, t, pc, key, system);
    if !About(pc, key) {
      SaveElsewhere(files, s, t, key, system);
    } else if pc.LeaveWriter? {
      CloseKeeps(files, s, t, key, system);
    } else if pc.Truncate? {
      NeverBarred(files, s, t, key, system);
      WriteKeeps(files, s, s', t, [], Writing(pc.w, pc.l, 0), key, system);
    } else if pc.n < |Payload(pc.w.job)| {
      assert Payload(pc.w.job)[..pc.n + 1] == Payload(pc.w.job)[..pc.n] + [Payload(pc.w.job)[pc.n]];
      WriteKeeps(files, s, s', t, Payload(pc.w.job)[..pc.n + 1], Writing(pc.w, pc.l, pc.n + 1), key, system);
    } else {
      assert Payload(pc.w.job)[..pc.n] == Payload(pc.w.job);
      ItemsSame(s, s', key, system);
      QuietKeeps(files, s, s', t, LeaveWriter(pc.w, pc.l), key, system);
    }
  }

  lemma SaveElsewhere(files: map<Key, Content>, s: State, t: Tid, key: Key, system: System)
    requires FileInv(files, s, key, system) && Saving(PcOf(s, t)) && !About(PcOf(s, t), key)
    requires LockInv(Saved(s, t, PcOf(s, t)))
    ensures FileInv(files, Saved(s, t, PcOf(s, t)), key, system)
  {
    hide Latest, TraceOk, LockInv, ItemsFit, Barred, Payload, LockOf, NoWriter;
    var pc, s' := PcOf(s, t), Saved(s, t, PcOf(s, t));
    if pc.LeaveWriter? {
      SavedElsewhere(files, s, t, pc.w, key, system);
    } else {
      ItemsSame(s, s', key, system);
      QuietKeeps(files, s, s', t, PcOf(s', t), key, system);
    }
  }

  lemma SavedElsewhere(files: map<Key, Content>, s: State, t: Tid, w: Work, key: Key, system: System)
    requires FileInv(files, s, key, system) && PcOf(s, t).LeaveWriter? && PcOf(s, t).w == w && w.job.key != key
    requires LockInv(Saved(s, t, PcOf(s, t)))
    ensures FileInv(files, Saved(s, t, PcOf(s, t)), key, system)
  {
    hide Latest, TraceOk, LockInv, ItemsFit, LockOf, NoWriter;
    var pc, s' := PcOf(s, t), Saved(s, t, PcOf(s, t));
    InHand(s, t);
    ItemsSame(s, s', key, system);
    TraceAppend(files, s.trace, WriterClosed(t, w), key);
    OtherSlot(s, t, LockOf(s.locks, pc.l).(writer := None), Slot(system, key));
    QuietKeeps(files, s, s', t, AfterJob(w), key, system);
  }

  /** Changing the lock that a thread has in hand leaves the locks of other entries alone. */
  lemma OtherSlot(s: State, t: Tid, r: RwLock, slot: Slot)
    requires LockInv(s) && HasLock(PcOf(s, t)) && SlotOf(PcOf(s, t).w) != slot
    ensures NoWriter(Held(s.locks, PcOf(s, t).l, r), slot) ==> NoWriter(s.locks, slot)
  {
    InHand(s, t);
  }

  /** What a thread inside a read section finds in the file is the latest save. */
  lemma FileIsLatest(files: map<Key, Content>, s: State, t: Tid, key: Key, system: System)
    requires FileInv(files, s, key, system) && About(PcOf(s, t), key) && Loading(PcOf(s, t))
    ensures FileOf(s.files, key) == Latest(files, s.trace, key)
  {
    hide Latest, TraceOk, LockInv, ItemsFit, FileOf;
    var pc := PcOf(s, t);
    assert ThreadOk(files, s, t, pc, key, system);
    InHand(s, t);
    Standing(s, t, pc.l);
  }

  /** Where a load stands after its next step, short of leaving. */
  function NextLoading(s: State, t: Tid, pc: Pc): Pc
    requires pc.Probe? || pc.Reading?
  {
    match pc
    case Probe(w, l, since) =>
      if w.job.key !in s.files then LeaveReader(w, l, since, None)
      else if Barred(s, t, w.job.key, false) then Collided(w, l)
      else Reading(w, l, since, [])
    case Reading(w, l, since, buffer) =>
      if w.job.key in s.files && |buffer| < |s.files[w.job.key]| then
        Reading(w, l, since, buffer + [s.files[w.job.key][|buffer|]])
      else LeaveReader(w, l, since, Some(buffer))
  }

  lemma LoadEffect(s: State, t: Tid, key: Key, system: System)
    requires (PcOf(s, t).Probe? || PcOf(s, t).Reading?) && ItemsFit(s, key, system)
    ensures var s' := Fetched(s, t, PcOf(s, t));
            && s'.threads == s.threads[t := NextLoading(s, t, PcOf(s, t))] && s'.locks == s.locks
            && s'.files == s.files && s'.trace == s.trace && ItemsFit(s', key, system)
  {
    hide Barred, ItemsFit;
    ItemsSame(s, Fetched(s, t, PcOf(s, t)), key, system);
  }

  lemma NextLoadingOk(files: map<Key, Content>, s: State, t: Tid, key: Key, system: System)
    requires FileInv(files, s, key, system) && (PcOf(s, t).Probe? || PcOf(s, t).Reading?)
    ensures ThreadOk(files, s, t, NextLoading(s, t, PcOf(s, t)), key, system)
  {
    hide Latest, TraceOk, LockInv, ItemsFit, LockOf, Barred, NoWriter, SlotOf;
    var pc := PcOf(s, t);
    assert ThreadOk(files, s, t, pc, key, system);
    if About(pc, key) {
      NeverBarred(files, s, t, key, system);
      FileIsLatest(files, s, t, key, system);
      if pc.Reading? {
        NextElement(pc.buffer, s.files[key]);
      }
    }
  }

  /** Steps of a load of this file or another. */
  lemma LoadKeepsFile(files: map<Key, Content>, s: State, t: Tid, key: Key, system: System)
    requires FileInv(files, s, key, system) && Loading(PcOf(s, t))
    ensures FileInv(files, Fetched(s, t, PcOf(s, t)), key, system)
  {
    LoadKeeps(s, t);
    var pc, s' := PcOf(s, t), Fetched(s, t, PcOf(s, t));
    if pc.LeaveReader? {
      ReaderLeaves(files, s, t, key, system);
    } else {
      hide Latest, TraceOk, LockInv, ItemsFit, NoWriter, Fetched, NextLoading;
      NextLoadingOk(files, s, t, key, system);
      LoadEffect(s, t, key, system);
      SameFileOk(files, s, s', t, NextLoading(s, t, pc), key, system);
      QuietKeeps(files, s, s', t, NextLoading(s, t, pc), key, system);
    }
  }

  lemma SameFileOk(files: map<Key, Content>, s: State, s': State, t: Tid, pc: Pc, key: Key, system: System)
    requires ThreadOk(files, s, t, pc, key, system) && s'.files == s.files && s'.trace == s.trace
    ensures ThreadOk(files, s', t, pc, key, system)
  {
  }

  lemma NextElement(buffer: Content, file: Content)
    requires buffer <= file
    ensures |buffer| < |file| ==> buffer + [file[|buffer|]] <= file
    ensures |buffer| == |file| ==> buffer == file
  {
  }

  lemma ReaderLeaves(files: map<Key, Content>, s: State, t: Tid, key: Key, system: System)
    requires FileInv(files, s, key, system) && PcOf(s, t).LeaveReader? && LockInv(Fetched(s, t, PcOf(s, t)))
    ensures FileInv(files, Fetched(s, t, PcOf(s, t)), key, system)
  {
    hide Latest, LockInv, ItemsFit, LockOf, NoWriter, SlotOf;
    var pc, s' := PcOf(s, t), Fetched(s, t, PcOf(s, t));
    assert ThreadOk(files, s, t, pc, key, system);
    InHand(s, t);
    ItemsSame(s, s', key, system);
    var e := ReaderClosed(t, pc.w, pc.since, pc.result);
    assert s'.trace == s.trace + [e];
    assert s'.trace[..|s.trace|] == s.trace;
    if About(pc, key) {
      assert s'.trace[..pc.since] == s.trace[..pc.since];
      assert ClosedOk(files, s'.trace, |s.trace|);
    }
    TraceAppend(files, s.trace, e, key);
    Standing(s, t, pc.l);
    var r := LockOf(s.locks, pc.l);
    NoWriterBefore(s.locks, pc.l, r.(readers := r.readers - {t}), Slot(system, key));
    QuietKeeps(files, s, s', t, AfterJob(pc.w), key, system);
  }

  lemma AdvanceKeepsFile(files: map<Key, Content>, s: State, t: Tid, key: Key, system: System)
    requires FileInv(files, s, key, system)
    ensures FileInv(files, Advanced(s, t), key, system)
  {
    AdvanceKeeps(s, t);
    NoRequeue(s, t);
    hide Latest, TraceOk, LockInv, ItemsFit, Approached, EnterLock, Saved, Fetched, NoWriter;
    var pc := PcOf(s, t);
    if Approaching(pc) {
      ApproachKeepsFile(files, s, t, key, system);
    } else if pc.WantLock? {
      EnterKeepsFile(files, s, t, pc.w, pc.l, key, system);
    } else if Saving(pc) {
      SaveKeepsFile(files, s, t, key, system);
    } else if Loading(pc) {
      LoadKeepsFile(files, s, t, key, system);
    } else if pc.Finish? {
      ItemsSame(s, Advanced(s, t), key, system);
      QuietKeeps(files, s, Advanced(s, t), t, Idle, key, system);
    }
  }

  lemma NoRequeue(s: State, t: Tid)
    requires LockInv(s)
    ensures !PcOf(s, t).Requeue?
  {
    assert HandOk(s.locks, PcOf(s, t));
  }

  lemma NextKeepsFile(files: map<Key, Content>, s: State, a: Action, key: Key, system: System)
    requires FileInv(files, s, key, system) && Uses(a, key, system)
    ensures FileInv(files, Next(s, a), key, system)
  {
    NextKeeps(s, a);
    hide Latest, TraceOk, LockInv, Advanced, NoWriter, FileOf, QueueOf;
    var s' := Next(s, a);
    match a
    case Begin(t, job) => BeginKeepsFile(files, s, t, job, key, system);
    case Submit(queue, id, job) =>
      if s' != s {
        SubmitFits(s, queue, id, job, key, system);
        TalkKeeps(files, s, s', Submitted(id, job), key, system);
      }
    case Dequeue(t, queue) => DequeueKeepsFile(files, s, t, queue, key, system);
    case Advance(t) => AdvanceKeepsFile(files, s, t, key, system);
    case Return(id) =>
      if s' != s {
        ItemsSame(s, s', key, system);
        TalkKeeps(files, s, s', Returned(id, s.items[id]), key, system);
      }
  }

  lemma SubmitFits(s: State, queue: QueueId, id: ItemId, job: Job, key: Key, system: System)
    requires ItemsFit(s, key, system) && Uses(Submit(queue, id, job), key, system)
    ensures ItemsFit(Next(s, Submit(queue, id, job)), key, system)
  {
  }

  lemma DequeueFits(s: State, t: Tid, queue: QueueId, key: Key, system: System)
    requires ItemsFit(s, key, system)
    requires PcOf(s, t) == Idle && QueueOf(s, queue) != []
    ensures var s' := Next(s, Dequeue(t, queue));
            ItemsFit(s', key, system) && (s' != s ==>
              var pc := PcOf(s', t);
              && (pc.Lookup? || pc.Check?) && (pc.w.job.key == key ==> SystemOf(pc.w.origin) == system))
  {
  }

  lemma BeginKeepsFile(files: map<Key, Content>, s: State, t: Tid, job: Job, key: Key, system: System)
    requires FileInv(files, s, key, system) && Uses(Begin(t, job), key, system)
    ensures FileInv(files, Next(s, Begin(t, job)), key, system)
  {
    var s' := Next(s, Begin(t, job));
    NextKeeps(s, Begin(t, job));
    hide Latest, TraceOk, LockInv, NoWriter, FileOf, ItemsFit;
    if PcOf(s, t) == Idle {
      ItemsSame(s, s', key, system);
      QuietKeeps(files, s, s', t, FirstPc(Work(job, Direct)), key, system);
    }
  }

  lemma DequeueKeepsFile(files: map<Key, Content>, s: State, t: Tid, queue: QueueId, key: Key, system: System)
    requires FileInv(files, s, key, system)
    ensures FileInv(files, Next(s, Dequeue(t, queue)), key, system)
  {
    var s' := Next(s, Dequeue(t, queue));
    NextKeeps(s, Dequeue(t, queue));
    hide Latest, TraceOk, LockInv, NoWriter, FileOf, ItemsFit, FirstPc;
    if s' != s {
      DequeueFits(s, t, queue, key, system);
      QuietKeeps(files, s, s', t, PcOf(s', t), key, system);
    }
  }

  /** An event that is no step of a section. */
  lemma TalkKeeps(files: map<Key, Content>, s: State, s': State, e: Event, key: Key, system: System)
    requires FileInv(files, s, key, system) && LockInv(s') && ItemsFit(s', key, system) && (e.Submitted? || e.Returned?)
    requires s'.threads == s.threads && s'.files == s.files && s'.locks == s.locks && s'.trace == s.trace + [e]
    ensures FileInv(files, s', key, system)
  {
    hide Latest, ThreadOk, TraceOk, LockInv, ItemsFit, NoWriter;
    forall u: Tid ensures ThreadOk(files, s', u, PcOf(s', u), key, system) {
      StaysOk(files, s, s', u, PcOf(s, u), key, system);
    }
    TraceAppend(files, s.trace, e, key);
    LatestAppend(files, s.trace, e, key);
  }

  /** After any interleaving in which the file is used through one system; other files may be used in any way. */
  lemma {:induction false} RunFileInv(files: map<Key, Content>, actions: seq<Action>, key: Key, system: System)
    requires OneSystem(actions, key, system)
    ensures FileInv(files, Run(files, actions), key, system)
  {
    if actions == [] {
      RunLockInv(files, actions);
    } else {
      hide FileInv;
      RunFileInv(files, actions[..|actions| - 1], key, system);
      NextKeepsFile(files, Run(files, actions[..|actions| - 1]), actions[|actions| - 1], key, system);
    }
  }

  // ----- what it means -----

  /**
   * No torn or mixed loads: in every interleaving, each load that closed returned, whole, the content of the last
   * save that was closed before the load's own section opened, or found the file missing if there was none.
   */
  lemma NoTornLoads(files: map<Key, Content>, actions: seq<Action>, key: Key, system: System, j: nat)
    requires OneSystem(actions, key, system)
    requires j < |Run(files, actions).trace| && Run(files, actions).trace[j].ReaderClosed?
    requires Run(files, actions).trace[j].w.job.key == key
    ensures var trace := Run(files, actions).trace;
            var e := trace[j];
            && e.since < j && trace[e.since] == ReaderOpened(e.t, key) && NoOpenAfter(trace[..j], e.t, e.since)
            && e.result == Latest(files, trace[..e.since], key)
  {
    hide Run;
    RunFileInv(files, actions, key, system);
    assert ClosedOk(files, Run(files, actions).trace, j);
  }

  /** What the locks are for: no File.Open of the file ever throws because somebody else has it open. */
  lemma NoCollisions(files: map<Key, Content>, actions: seq<Action>, key: Key, system: System, t: Tid)
    requires OneSystem(actions, key, system)
    ensures var pc := PcOf(Run(files, actions), t); !(pc.Collided? && pc.w.job.key == key)
  {
    hide Run;
    RunFileInv(files, actions, key, system);
    var s := Run(files, actions);
    assert ThreadOk(files, s, t, PcOf(s, t), key, system);
  }
}
