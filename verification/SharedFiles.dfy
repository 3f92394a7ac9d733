/**
 * Files shared between threads: per-key locks created on first use, saves and loads that proceed one element
 * at a time under them, and queues that hand such operations to worker threads. The static file access class
 * and every queued file system have a lock dictionary of their own.
 */
module SharedFiles {
  import opened Basics

  type Tid = nat
  type Key = string
  type LockId = nat
  type ItemId = nat
  type QueueId = nat
  type Content = seq<int>

  /** A save of some content, or a load, of the file named by key. */
  datatype Job = Job(key: Key, save: Option<Content>)

  /** Called by a thread itself, or taken from a queued file system's queue on behalf of a waiting client. */
  datatype Origin = Direct | Queued(queue: QueueId, id: ItemId)

  datatype Work = Work(job: Job, origin: Origin)

  /** Whose lock dictionary is used: the static one, or the private one of a queued file system. */
  datatype System = Static | Private(queue: QueueId)

  /** An entry of one of the dictionaries. */
  datatype Slot = Slot(system: System, key: Key)

  function SystemOf(origin: Origin): System {
    match origin
    case Direct => Static
    case Queued(queue, _) => Private(queue)
  }

  function SlotOf(w: Work): Slot {
    Slot(SystemOf(w.origin), w.job.key)
  }

  /** What a thread is about to do next. */
  datatype Pc =
    | Idle
    | Check(w: Work)                                   // IsReaderLocked, queued loads only
    | Requeue(w: Work)                                 // it said yes
    | Lookup(w: Work)                                  // first TryGetValue of GetLock
    | WantSpin(w: Work)                                // _operationlock.Enter
    | Recheck(w: Work)                                 // second TryGetValue, spin lock held
    | Insert(w: Work)                                  // new ReaderWriterLockSlim stored, spin lock held
    | Release(w: Work, l: LockId)                      // _operationlock.Exit
    | WantLock(w: Work, l: LockId)                     // EnterReadLock or EnterWriteLock
    | Truncate(w: Work, l: LockId)                     // File.Open with FileMode.Create
    | Writing(w: Work, l: LockId, n: nat)              // n elements copied
    | LeaveWriter(w: Work, l: LockId)
    | Probe(w: Work, l: LockId, since: nat)            // File.Exists
    | Reading(w: Work, l: LockId, since: nat, buffer: Content)
    | LeaveReader(w: Work, l: LockId, since: nat, result: Option<Content>)
    | Collided(w: Work, l: LockId)                     // File.Open threw, and the lock stays held
    | Finish(w: Work)                                  // result noted, client about to be released

  datatype RwLock = RwLock(readers: set<Tid>, writer: Option<Tid>)

  /** A queued operation; submitted is the position in the trace of its Submitted event. */
  datatype Item = Item(job: Job, queue: QueueId, submitted: nat, output: Option<Option<Content>>, released: bool)

  /** since is the position in the trace of the ReaderOpened event that the load belongs to. */
  datatype Event =
    | ReaderOpened(t: Tid, key: Key)
    | ReaderClosed(t: Tid, w: Work, since: nat, result: Option<Content>)
    | WriterOpened(t: Tid, key: Key)
    | WriterClosed(t: Tid, w: Work)
    | Submitted(id: ItemId, job: Job)
    | Returned(id: ItemId, item: Item)

  /** All the lock dictionaries, with who holds their operation locks, and the lock objects. */
  datatype Locks = Locks(entries: map<Slot, LockId>, next: LockId, spins: map<System, Tid>, held: map<LockId, RwLock>)

  datatype State = State(
    locks: Locks, files: map<Key, Content>, threads: map<Tid, Pc>,
    queues: map<QueueId, seq<ItemId>>, items: map<ItemId, Item>, trace: seq<Event>)

  /** A step of the system: a thread or client starts something, or a thread takes its next atomic step. */
  datatype Action =
    | Begin(t: Tid, job: Job)
    | Submit(queue: QueueId, id: ItemId, job: Job)
    | Dequeue(t: Tid, queue: QueueId)
    | Advance(t: Tid)
    | Return(id: ItemId)

  function At(threads: map<Tid, Pc>, t: Tid): Pc {
    if t in threads then threads[t] else Idle
  }

  function PcOf(s: State, t: Tid): Pc {
    At(s.threads, t)
  }

  function Goto(s: State, t: Tid, pc: Pc): State {
    s.(threads := s.threads[t := pc])
  }

  function LockOf(k: Locks, l: LockId): RwLock {
    if l in k.held then k.held[l] else RwLock({}, None)
  }

  function Held(k: Locks, l: LockId, r: RwLock): Locks {
    k.(held := k.held[l := r])
  }

  /** The thread in the critical section of a dictionary's _operationlock. */
  function SpinOf(k: Locks, system: System): Option<Tid> {
    if system in k.spins then Some(k.spins[system]) else None
  }

  function QueueOf(s: State, queue: QueueId): seq<ItemId> {
    if queue in s.queues then s.queues[queue] else []
  }

  function FileOf(files: map<Key, Content>, key: Key): Option<Content> {
    if key in files then Some(files[key]) else None
  }

  function Payload(job: Job): Content {
    if job.save.Some? then job.save.value else []
  }

  function FirstPc(w: Work): Pc {
    if w.origin.Queued? && w.job.save == None then Check(w) else Lookup(w)
  }

  /** After EnterReadLock or EnterWriteLock succeeds; a thread that cannot enter yet stays where it is. */
  function EnterLock(s: State, t: Tid, w: Work, l: LockId): State {
    var k := LockOf(s.locks, l);
    if w.job.save.Some? then
      if k.readers == {} && k.writer == None then
        Goto(s, t, Truncate(w, l)).(locks := Held(s.locks, l, k.(writer := Some(t))),
                                    trace := s.trace + [WriterOpened(t, w.job.key)])
      else s
    else
      if k.writer == None then
        Goto(s, t, Probe(w, l, |s.trace|)).(locks := Held(s.locks, l, k.(readers := k.readers + {t})),
                                            trace := s.trace + [ReaderOpened(t, w.job.key)])
      else s
  }

  function Loaded(s: State, t: Tid, w: Work, l: LockId, since: nat, result: Option<Content>): State {
    var s' := Goto(s, t, LeaveReader(w, l, since, result));
    if w.origin.Queued? && w.origin.id in s.items then
      s'.(items := s.items[w.origin.id := s.items[w.origin.id].(output := Some(result))])
    else s'
  }

  /** A handle to the file that a File.Open does not tolerate: a writer shares with nobody, readers share. */
  predicate Bars(pc: Pc, key: Key, toWrite: bool) {
    (pc.Writing? || (toWrite && pc.Reading?)) && pc.w.job.key == key
  }

  predicate Barred(s: State, t: Tid, key: Key, toWrite: bool) {
    exists u :: u in s.threads && u != t && Bars(s.threads[u], key, toWrite)
  }

  function AfterJob(w: Work): Pc {
    if w.origin.Queued? then Finish(w) else Idle
  }

  predicate Approaching(pc: Pc) {
    pc.Check? || pc.Lookup? || pc.WantSpin? || pc.Recheck? || pc.Insert? || pc.Release?
  }

  /** IsReaderLocked and GetLock: where the thread stands next, which is where it stands while the spin lock is taken. */
  function NextPlace(k: Locks, t: Tid, pc: Pc): Pc
    requires Approaching(pc)
  {
    var w, slot := pc.w, SlotOf(pc.w);
    match pc
    case Check(_) => if slot in k.entries && t in LockOf(k, k.entries[slot]).readers then Requeue(w) else Lookup(w)
    case Lookup(_) => if slot in k.entries then WantLock(w, k.entries[slot]) else WantSpin(w)
    case WantSpin(_) => if SpinOf(k, slot.system) == None then Recheck(w) else pc
    case Recheck(_) => if slot in k.entries then Release(w, k.entries[slot]) else Insert(w)
    case Insert(_) => Release(w, k.next)
    case Release(_, l) => WantLock(w, l)
  }

  function Inserted(k: Locks, slot: Slot): Locks {
    k.(entries := k.entries[slot := k.next], next := k.next + 1)
  }

  /** What that does to the locks. */
  function NextLocks(k: Locks, t: Tid, pc: Pc): Locks
    requires Approaching(pc)
  {
    var slot := SlotOf(pc.w);
    if pc.WantSpin? && SpinOf(k, slot.system) == None then k.(spins := k.spins[slot.system := t])
    else if pc.Insert? then Inserted(k, slot)
    else if pc.Release? then k.(spins := k.spins - {slot.system})
    else k
  }

  function Approached(s: State, t: Tid, pc: Pc): State
    requires Approaching(pc)
  {
    Goto(s, t, NextPlace(s.locks, t, pc)).(locks := NextLocks(s.locks, t, pc))
  }

  predicate Saving(pc: Pc) {
    pc.Truncate? || pc.Writing? || pc.LeaveWriter?
  }

  /** LockingFileSystem.SaveStream and ExitWriter. */
  function Saved(s: State, t: Tid, pc: Pc): State
    requires Saving(pc)
  {
    match pc
    case Truncate(w, l) =>
      if Barred(s, t, w.job.key, true) then Goto(s, t, Collided(w, l))
      else Goto(s, t, Writing(w, l, 0)).(files := s.files[w.job.key := []])
    case Writing(w, l, n) =>
      if n < |Payload(w.job)| && w.job.key in s.files then
        Goto(s, t, Writing(w, l, n + 1)).(files := s.files[w.job.key := s.files[w.job.key] + [Payload(w.job)[n]]])
      else Goto(s, t, LeaveWriter(w, l))
    case LeaveWriter(w, l) =>
      if SlotOf(w) in s.locks.entries then
        var own := s.locks.entries[SlotOf(w)];
        Goto(s, t, AfterJob(w)).(locks := Held(s.locks, own, LockOf(s.locks, own).(writer := None)),
                                 trace := s.trace + [WriterClosed(t, w)])
      else Goto(s, t, AfterJob(w))
  }

  predicate Loading(pc: Pc) {
    pc.Probe? || pc.Reading? || pc.LeaveReader?
  }

  /** LockingFileSystem.LoadStream and ExitReader. */
  function Fetched(s: State, t: Tid, pc: Pc): State
    requires Loading(pc)
  {
    match pc
    case Probe(w, l, since) =>
      if w.job.key !in s.files then Loaded(s, t, w, l, since, None)
      else if Barred(s, t, w.job.key, false) then Goto(s, t, Collided(w, l))
      else Goto(s, t, Reading(w, l, since, []))
    case Reading(w, l, since, buffer) =>
      if w.job.key in s.files && |buffer| < |s.files[w.job.key]| then
        Goto(s, t, Reading(w, l, since, buffer + [s.files[w.job.key][|buffer|]]))
      else Loaded(s, t, w, l, since, Some(buffer))
    case LeaveReader(w, l, since, result) =>
      if SlotOf(w) in s.locks.entries then
        var own := s.locks.entries[SlotOf(w)];
        var k := LockOf(s.locks, own);
        Goto(s, t, AfterJob(w)).(locks := Held(s.locks, own, k.(readers := k.readers - {t})),
                                 trace := s.trace + [ReaderClosed(t, w, since, result)])
      else Goto(s, t, AfterJob(w))
  }

  /** Enqueueing again, and resetEvent.Set. */
  function Ended(s: State, t: Tid, w: Work, again: bool): State {
    if again && w.origin.Queued? then
      Goto(s, t, Idle).(queues := s.queues[w.origin.queue := QueueOf(s, w.origin.queue) + [w.origin.id]])
    else if !again && w.origin.Queued? && w.origin.id in s.items then
      Goto(s, t, Idle).(items := s.items[w.origin.id := s.items[w.origin.id].(released := true)])
    else Goto(s, t, Idle)
  }

  /** The next atomic step of thread t. */
  function Advanced(s: State, t: Tid): State {
    var pc := PcOf(s, t);
    if Approaching(pc) then Approached(s, t, pc)
    else if pc.WantLock? then EnterLock(s, t, pc.w, pc.l)
    else if Saving(pc) then Saved(s, t, pc)
    else if Loading(pc) then Fetched(s, t, pc)
    else if pc.Requeue? || pc.Finish? then Ended(s, t, pc.w, pc.Requeue?)
    else s
  }

  function Next(s: State, a: Action): State {
    match a
    case Begin(t, job) => if PcOf(s, t) == Idle then Goto(s, t, FirstPc(Work(job, Direct))) else s
    case Submit(queue, id, job) =>
      if id in s.items then s
      else s.(items := s.items[id := Item(job, queue, |s.trace|, None, false)],
              queues := s.queues[queue := QueueOf(s, queue) + [id]], trace := s.trace + [Submitted(id, job)])
    case Dequeue(t, queue) =>
      var q := QueueOf(s, queue);
      if PcOf(s, t) == Idle && q != [] && q[0] in s.items then
        Goto(s, t, FirstPc(Work(s.items[q[0]].job, Queued(queue, q[0])))).(queues := s.queues[queue := q[1..]])
      else s
    case Advance(t) => Advanced(s, t)
    case Return(id) =>
      if id in s.items && s.items[id].released then
        s.(trace := s.trace + [Returned(id, s.items[id])])
      else s
  }

  /** No locks, no threads at work, and whatever files there were before. */
  function Initial(files: map<Key, Content>): State {
    State(Locks(map[], 0, map[], map[]), files, map[], map[], map[], [])
  }

  /** Any interleaving of any number of threads and clients. */
  function Run(files: map<Key, Content>, actions: seq<Action>): State {
    if actions == [] then Initial(files)
    else Next(Run(files, actions[..|actions| - 1]), actions[|actions| - 1])
  }

  // ----- the locks -----

  predicate HoldsSpin(pc: Pc) {
    pc.Recheck? || pc.Insert? || pc.Release?
  }

  predicate InReader(pc: Pc) {
    Loading(pc) || (pc.Collided? && pc.w.job.save.None?)
  }

  predicate InWriter(pc: Pc) {
    Saving(pc) || (pc.Collided? && pc.w.job.save.Some?)
  }

  predicate HoldsRead(pc: Pc, l: LockId) {
    InReader(pc) && pc.l == l
  }

  predicate HoldsWrite(pc: Pc, l: LockId) {
    InWriter(pc) && pc.l == l
  }

  /** The thread has its entry's lock object in hand. */
  predicate HasLock(pc: Pc) {
    pc.Release? || pc.WantLock? || InReader(pc) || InWriter(pc)
  }

  /** Lock objects exist, and different entries have different ones. */
  ghost predicate EntriesOk(k: Locks) {
    && (forall e :: e in k.entries ==> k.entries[e] < k.next)
    && (forall e, e' :: e in k.entries && e' in k.entries && k.entries[e] == k.entries[e'] ==> e == e')
  }

  /** Readers and the writer of a lock are the threads standing inside it, and a writer is alone. */
  ghost predicate HeldOk(k: Locks, threads: map<Tid, Pc>) {
    && (forall t: Tid, l: LockId :: t in LockOf(k, l).readers <==> HoldsRead(At(threads, t), l))
    && (forall t: Tid, l: LockId :: LockOf(k, l).writer == Some(t) <==> HoldsWrite(At(threads, t), l))
    && (forall l: LockId :: LockOf(k, l).writer.Some? ==> LockOf(k, l).readers == {})
  }

  predicate Spinning(pc: Pc, system: System) {
    HoldsSpin(pc) && SystemOf(pc.w.origin) == system
  }

  ghost predicate SpinOk(k: Locks, threads: map<Tid, Pc>) {
    forall t: Tid, system: System :: Spinning(At(threads, t), system) <==> SpinOf(k, system) == Some(t)
  }

  /** What a thread has in hand is what the dictionary has, and the kind of work fits the place; nobody requeues. */
  predicate HandOk(k: Locks, pc: Pc) {
    && (HasLock(pc) ==> SlotOf(pc.w) in k.entries && k.entries[SlotOf(pc.w)] == pc.l)
    && (pc.Insert? ==> SlotOf(pc.w) !in k.entries)
    && !pc.Requeue?
    && (Saving(pc) ==> pc.w.job.save.Some?)
    && (pc.Check? || Loading(pc) ==> pc.w.job.save.None?)
  }

  ghost predicate HandsOk(k: Locks, threads: map<Tid, Pc>) {
    forall t: Tid :: HandOk(k, At(threads, t))
  }

  ghost predicate LocksOk(k: Locks, threads: map<Tid, Pc>) {
    EntriesOk(k) && HeldOk(k, threads) && SpinOk(k, threads) && HandsOk(k, threads)
  }

  ghost predicate LockInv(s: State) {
    LocksOk(s.locks, s.threads)
  }

  lemma Moved(threads: map<Tid, Pc>, threads': map<Tid, Pc>, t: Tid, pc: Pc)
    requires threads' == threads[t := pc]
    ensures forall u: Tid :: At(threads', u) == if u == t then pc else At(threads, u)
  {
  }

  predicate SameHoldings(a: Pc, b: Pc) {
    && InReader(a) == InReader(b) && InWriter(a) == InWriter(b) && (HasLock(a) && HasLock(b) ==> a.l == b.l)
    && HoldsSpin(a) == HoldsSpin(b) && (HoldsSpin(a) ==> a.w == b.w)
  }

  /** A move that changes only where one thread stands. */
  lemma QuietMove(k: Locks, threads: map<Tid, Pc>, t: Tid, pc: Pc)
    requires LocksOk(k, threads) && SameHoldings(At(threads, t), pc) && HandOk(k, pc)
    ensures LocksOk(k, threads[t := pc])
  {
    hide HandOk, LockOf, SpinOf;
    var threads' := threads[t := pc];
    Moved(threads, threads', t, pc);
  }

  /** Taking or leaving the spin lock of a system. */
  lemma SpinMove(k: Locks, spins: map<System, Tid>, threads: map<Tid, Pc>, t: Tid, pc: Pc, system: System)
    requires LocksOk(k, threads) && HandOk(k, pc)
    requires SpinOf(k, system) == None || SpinOf(k, system) == Some(t)
    requires spins == if HoldsSpin(pc) then k.spins[system := t] else k.spins - {system}
    requires pc.Recheck? || pc.WantLock?
    requires At(threads, t).WantSpin? || At(threads, t).Release?
    requires SystemOf(pc.w.origin) == system == SystemOf(At(threads, t).w.origin)
    ensures LocksOk(k.(spins := spins), threads[t := pc])
  {
    var k', threads' := k.(spins := spins), threads[t := pc];
    Moved(threads, threads', t, pc);
    assert forall l: LockId :: LockOf(k', l) == LockOf(k, l);
    assert HeldOk(k', threads');
    forall u: Tid, y: System ensures Spinning(At(threads', u), y) <==> SpinOf(k', y) == Some(u) {
      assert Spinning(At(threads, u), y) <==> SpinOf(k, y) == Some(u);
    }
    assert forall p: Pc :: HandOk(k', p) == HandOk(k, p);
  }

  lemma InsertMove(k: Locks, threads: map<Tid, Pc>, t: Tid, w: Work)
    requires LocksOk(k, threads) && At(threads, t) == Insert(w)
    ensures LocksOk(Inserted(k, SlotOf(w)), threads[t := Release(w, k.next)])
  {
    var k', threads' := Inserted(k, SlotOf(w)), threads[t := Release(w, k.next)];
    Moved(threads, threads', t, Release(w, k.next));
    assert HandOk(k, At(threads, t));
    forall u: Tid ensures HandOk(k', At(threads', u)) {
      assert HandOk(k, At(threads, u));
      if u != t && HoldsSpin(At(threads, u)) {
        SpinAlone(k, threads, t, u);
      }
    }
    assert forall l: LockId :: LockOf(k', l) == LockOf(k, l);
    assert HeldOk(k', threads');
    assert forall y: System :: SpinOf(k', y) == SpinOf(k, y);
    forall u: Tid, y: System ensures Spinning(At(threads', u), y) <==> SpinOf(k', y) == Some(u) {
      assert Spinning(At(threads, u), y) <==> SpinOf(k, y) == Some(u);
    }
  }

  /** Two threads under spin locks are under different ones. */
  lemma SpinAlone(k: Locks, threads: map<Tid, Pc>, t: Tid, u: Tid)
    requires SpinOk(k, threads) && HoldsSpin(At(threads, t)) && HoldsSpin(At(threads, u)) && t != u
    ensures SystemOf(At(threads, t).w.origin) != SystemOf(At(threads, u).w.origin)
  {
    var y := SystemOf(At(threads, t).w.origin);
    assert Spinning(At(threads, t), y);
    assert Spinning(At(threads, u), y) <==> SpinOf(k, y) == Some(u);
  }

  /** Entering or leaving lock l, where r is the lock afterwards. */
  lemma HoldMove(k: Locks, threads: map<Tid, Pc>, t: Tid, pc: Pc, l: LockId, r: RwLock)
    requires LocksOk(k, threads) && HandOk(k, pc)
    requires r.readers == if HoldsRead(pc, l) then LockOf(k, l).readers + {t} else LockOf(k, l).readers - {t}
    requires r.writer == if HoldsWrite(pc, l) then Some(t)
                         else if LockOf(k, l).writer == Some(t) then None else LockOf(k, l).writer
    requires HoldsWrite(pc, l) ==> LockOf(k, l) == RwLock({}, None)
    requires HoldsRead(pc, l) ==> LockOf(k, l).writer == None
    requires HasLock(At(threads, t)) && At(threads, t).l == l && !HoldsSpin(At(threads, t)) && !HoldsSpin(pc)
    requires HasLock(pc) ==> pc.l == l
    ensures LocksOk(Held(k, l, r), threads[t := pc])
  {
    var k', threads' := Held(k, l, r), threads[t := pc];
    Moved(threads, threads', t, pc);
    assert forall m: LockId :: LockOf(k', m) == if m == l then r else LockOf(k, m);
    assert HeldOk(k', threads');
    assert forall y: System :: SpinOf(k', y) == SpinOf(k, y);
    assert SpinOk(k', threads');
    assert forall p: Pc :: HandOk(k', p) == HandOk(k, p);
  }

  /** Steps on the way to the lock. */
  lemma ApproachKeeps(s: State, t: Tid)
    requires LockInv(s) && Approaching(PcOf(s, t))
    ensures LockInv(Approached(s, t, PcOf(s, t)))
  {
    hide HeldOk, EntriesOk, SpinOk, LockOf, SystemOf;
    var pc := PcOf(s, t);
    var k, slot := s.locks, SlotOf(pc.w);
    assert HandOk(k, pc);
    hide HandsOk;
    var next := NextPlace(k, t, pc);
    if pc.Insert? {
      InsertMove(k, s.threads, t, pc.w);
    } else if pc.Release? {
      SpinHeld(s, t);
      SpinMove(k, k.spins - {slot.system}, s.threads, t, next, slot.system);
    } else if next.Recheck? {
      SpinMove(k, k.spins[slot.system := t], s.threads, t, next, slot.system);
    } else {
      if pc.Check? {
        NotReading(s, t);
      }
      QuietMove(k, s.threads, t, next);
    }
  }

  lemma SpinHeld(s: State, t: Tid)
    requires LockInv(s) && HoldsSpin(PcOf(s, t))
    ensures SpinOf(s.locks, SystemOf(PcOf(s, t).w.origin)) == Some(t)
  {
    assert Spinning(PcOf(s, t), SystemOf(PcOf(s, t).w.origin));
  }

  /** A worker that asks IsReaderLocked holds no read lock, and IsReadLockHeld is about the calling thread. */
  lemma NotReading(s: State, t: Tid)
    requires LockInv(s) && PcOf(s, t).Check?
    ensures forall l: LockId :: t !in LockOf(s.locks, l).readers
  {
    forall l: LockId ensures t !in LockOf(s.locks, l).readers {
      assert !HoldsRead(PcOf(s, t), l);
    }
  }

  /** Entering, if the lock is free enough. */
  lemma EnterKeeps(s: State, t: Tid, w: Work, l: LockId)
    requires LockInv(s) && PcOf(s, t) == WantLock(w, l)
    ensures LockInv(EnterLock(s, t, w, l))
  {
    hide EntriesOk, SpinOk, HeldOk, LockOf;
    var k := s.locks;
    assert HandOk(k, PcOf(s, t));
    hide HandsOk;
    var r := LockOf(k, l);
    if w.job.save.Some? && r.readers == {} && r.writer == None {
      HoldMove(k, s.threads, t, Truncate(w, l), l, r.(writer := Some(t)));
    } else if w.job.save.None? && r.writer == None {
      HoldMove(k, s.threads, t, Probe(w, l, |s.trace|), l, r.(readers := r.readers + {t}));
    }
  }

  /** Steps of a save. */
  lemma SaveKeeps(s: State, t: Tid)
    requires LockInv(s) && Saving(PcOf(s, t))
    ensures LockInv(Saved(s, t, PcOf(s, t)))
  {
    hide EntriesOk, SpinOk, HeldOk, LockOf, Barred, SlotOf, Payload;
    var pc := PcOf(s, t);
    assert HandOk(s.locks, pc);
    hide HandsOk;
    if pc.LeaveWriter? {
      Standing(s, t, pc.l);
      HoldMove(s.locks, s.threads, t, AfterJob(pc.w), pc.l, LockOf(s.locks, pc.l).(writer := None));
    } else {
      QuietMove(s.locks, s.threads, t, PcOf(Saved(s, t, pc), t));
    }
  }

  /** Steps of a load. */
  lemma LoadKeeps(s: State, t: Tid)
    requires LockInv(s) && Loading(PcOf(s, t))
    ensures LockInv(Fetched(s, t, PcOf(s, t)))
  {
    hide EntriesOk, SpinOk, HeldOk, LockOf, Barred, SlotOf;
    var pc := PcOf(s, t);
    assert HandOk(s.locks, pc);
    hide HandsOk;
    if pc.LeaveReader? {
      Standing(s, t, pc.l);
      var r := LockOf(s.locks, pc.l);
      HoldMove(s.locks, s.threads, t, AfterJob(pc.w), pc.l, r.(readers := r.readers - {t}));
    } else {
      QuietMove(s.locks, s.threads, t, PcOf(Fetched(s, t, pc), t));
    }
  }

  lemma Standing(s: State, t: Tid, l: LockId)
    requires LockInv(s)
    ensures t in LockOf(s.locks, l).readers <==> HoldsRead(PcOf(s, t), l)
    ensures LockOf(s.locks, l).writer == Some(t) <==> HoldsWrite(PcOf(s, t), l)
    ensures LockOf(s.locks, l).writer.Some? ==> LockOf(s.locks, l).readers == {}
  {
  }

  lemma AdvanceKeeps(s: State, t: Tid)
    requires LockInv(s)
    ensures LockInv(Advanced(s, t))
  {
    hide HeldOk, EntriesOk, SpinOk, Approached, EnterLock, Saved, Fetched;
    var pc := PcOf(s, t);
    assert HandOk(s.locks, pc);
    if Approaching(pc) {
      ApproachKeeps(s, t);
    } else if pc.WantLock? {
      EnterKeeps(s, t, pc.w, pc.l);
    } else if Saving(pc) {
      SaveKeeps(s, t);
    } else if Loading(pc) {
      LoadKeeps(s, t);
    } else if pc.Finish? {
      QuietMove(s.locks, s.threads, t, Idle);
    }
  }

  lemma NextKeeps(s: State, a: Action)
    requires LockInv(s)
    ensures LockInv(Next(s, a))
  {
    hide LocksOk, Advanced;
    match a
    case Begin(t, job) =>
      if PcOf(s, t) == Idle { QuietMove(s.locks, s.threads, t, FirstPc(Work(job, Direct))); }
    case Submit(_, _, _) =>
    case Dequeue(t, queue) =>
      var q := QueueOf(s, queue);
      if PcOf(s, t) == Idle && q != [] && q[0] in s.items {
        QuietMove(s.locks, s.threads, t, FirstPc(Work(s.items[q[0]].job, Queued(queue, q[0]))));
      }
    case Advance(t) => AdvanceKeeps(s, t);
    case Return(_) =>
  }

  /** The invariant of the locks holds after any interleaving, whatever systems share the files. */
  lemma {:induction false} RunLockInv(files: map<Key, Content>, actions: seq<Action>)
    ensures LockInv(Run(files, actions))
  {
    if actions != [] {
      hide LockInv;
      RunLockInv(files, actions[..|actions| - 1]);
      NextKeeps(Run(files, actions[..|actions| - 1]), actions[|actions| - 1]);
    }
  }

  // ----- what it means -----

  /** Threads with a lock object in hand have the same one exactly when they use one dictionary and one key. */
  lemma LockIdentity(files: map<Key, Content>, actions: seq<Action>, t: Tid, u: Tid)
    requires HasLock(PcOf(Run(files, actions), t)) && HasLock(PcOf(Run(files, actions), u))
    ensures var a, b := PcOf(Run(files, actions), t), PcOf(Run(files, actions), u);
            a.l == b.l <==> SlotOf(a.w) == SlotOf(b.w)
  {
    hide Run;
    RunLockInv(files, actions);
    var s := Run(files, actions);
    assert HandOk(s.locks, PcOf(s, t)) && HandOk(s.locks, PcOf(s, u));
  }

  /** Once an entry has a lock object, it has that one forever. */
  lemma {:induction false} LockForever(files: map<Key, Content>, before: seq<Action>, after: seq<Action>, slot: Slot)
    requires slot in Run(files, before).locks.entries
    ensures slot in Run(files, before + after).locks.entries
    ensures Run(files, before + after).locks.entries[slot] == Run(files, before).locks.entries[slot]
  {
    hide LockInv, Next;
    if after == [] {
      assert before + after == before;
    } else {
      var all := before + after;
      var earlier := all[..|all| - 1];
      assert earlier == before + after[..|after| - 1];
      LockForever(files, before, after[..|after| - 1], slot);
      RunLockInv(files, earlier);
      LockStays(Run(files, earlier), all[|all| - 1], slot);
    }
  }

  /** Only the insertion of a missing entry changes the dictionaries. */
  lemma OnlyInsertAdds(s: State, t: Tid)
    ensures !PcOf(s, t).Insert? ==> Advanced(s, t).locks.entries == s.locks.entries
  {
    hide LockOf, SpinOf, Barred, SlotOf, SystemOf, Payload;
    var pc := PcOf(s, t);
    if Approaching(pc) {
      hide EnterLock, Saved, Fetched;
    } else if Saving(pc) {
      hide EnterLock, Fetched;
    } else {
      hide Saved;
    }
  }

  lemma LockStays(s: State, a: Action, slot: Slot)
    requires LockInv(s) && slot in s.locks.entries
    ensures slot in Next(s, a).locks.entries && Next(s, a).locks.entries[slot] == s.locks.entries[slot]
  {
    if a.Advance? {
      assert HandOk(s.locks, PcOf(s, a.t));
      hide LockInv, LockOf, HasLock, Barred, EnterLock, Saved, Fetched;
      OnlyInsertAdds(s, a.t);
    }
  }

  /** A thread in the write section of an entry excludes every other thread from both its sections. */
  lemma WriterAlone(s: State, t: Tid, u: Tid)
    requires LockInv(s) && t != u && InWriter(PcOf(s, t)) && (InReader(PcOf(s, u)) || InWriter(PcOf(s, u)))
    ensures SlotOf(PcOf(s, u).w) != SlotOf(PcOf(s, t).w)
  {
    var pc, pc' := PcOf(s, t), PcOf(s, u);
    assert HandOk(s.locks, pc) && HandOk(s.locks, pc');
    assert HoldsWrite(pc, pc.l);
    assert LockOf(s.locks, pc.l).writer == Some(t);
    Standing(s, u, pc'.l);
  }

  predicate InWriteSection(pc: Pc, slot: Slot) {
    InWriter(pc) && SlotOf(pc.w) == slot
  }

  predicate InReadSection(pc: Pc, slot: Slot) {
    InReader(pc) && SlotOf(pc.w) == slot
  }

  /** The same after any interleaving. */
  lemma WriterExcludes(files: map<Key, Content>, actions: seq<Action>, t: Tid, u: Tid, slot: Slot)
    requires t != u && InWriteSection(PcOf(Run(files, actions), t), slot)
    ensures var pc := PcOf(Run(files, actions), u); !InWriteSection(pc, slot) && !InReadSection(pc, slot)
  {
    hide Run;
    RunLockInv(files, actions);
    var s := Run(files, actions);
    if InReader(PcOf(s, u)) || InWriter(PcOf(s, u)) {
      WriterAlone(s, t, u);
    }
  }

  /** The requeue branch of the file queue is dead: IsReaderLocked never says yes to a worker. */
  lemma NeverRequeued(files: map<Key, Content>, actions: seq<Action>, t: Tid)
    ensures !PcOf(Run(files, actions), t).Requeue?
  {
    hide Run;
    RunLockInv(files, actions);
    assert HandOk(Run(files, actions).locks, PcOf(Run(files, actions), t));
  }
}
