/** Runs that bring a thread into a section of a file, and a reader that IsReaderLocked does not notice. */
module Arrivals {
  import opened Basics
  import opened SharedFiles

  // ----- runs in pieces -----

  function Steps(s: State, actions: seq<Action>): State {
    if actions == [] then s else Next(Steps(s, actions[..|actions| - 1]), actions[|actions| - 1])
  }

  lemma StepsAdd(s: State, actions: seq<Action>, a: Action)
    ensures Steps(s, actions + [a]) == Next(Steps(s, actions), a)
  {
    assert (actions + [a])[..|actions|] == actions;
  }

  lemma {:induction false} RunSteps(files: map<Key, Content>, before: seq<Action>, after: seq<Action>)
    ensures Run(files, before + after) == Steps(Run(files, before), after)
  {
    hide Next, Initial;
    if after == [] {
      assert before + after == before;
    } else {
      var all := before + after;
      assert all[..|all| - 1] == before + after[..|after| - 1] && all[|all| - 1] == after[|after| - 1];
      RunSteps(files, before, after[..|after| - 1]);
    }
  }

  // ----- from idle into a section -----

  /** The work of a job through a system. */
  function WorkThrough(system: System, id: ItemId, job: Job): Work {
    Work(job, match system case Static => Direct case Private(queue) => Queued(queue, id))
  }

  lemma ThroughFits(system: System, id: ItemId, job: Job)
    ensures var w := WorkThrough(system, id, job);
            w.job == job && SystemOf(w.origin) == system && SlotOf(w) == Slot(system, job.key)
  {
  }

  /** How a thread comes by that work. */
  function Take(system: System, t: Tid, id: ItemId, job: Job): seq<Action> {
    match system
    case Static => [Begin(t, job)]
    case Private(queue) => [Submit(queue, id, job), Dequeue(t, queue)]
  }

  /** The thread and the id are free, and the system has nothing queued. */
  ghost predicate Free(s: State, system: System, t: Tid, id: ItemId) {
    PcOf(s, t) == Idle && id !in s.items && (system.Private? ==> QueueOf(s, system.queue) == [])
  }

  /** The trace went on, and no save was closed. */
  ghost predicate NothingClosed(trace: seq<Event>, trace': seq<Event>) {
    trace <= trace' && forall i :: |trace| <= i < |trace'| ==> !trace'[i].WriterClosed?
  }

  /** Locks and files are as before, and so are the queues and all items but one. */
  ghost predicate OnlyItem(s: State, s': State, id: ItemId) {
    && s'.files == s.files && (forall k :: k in s'.items ==> k in s.items || k == id)
    && (forall q :: QueueOf(s', q) == QueueOf(s, q))
  }

  lemma Taken(s: State, system: System, t: Tid, id: ItemId, job: Job)
    requires Free(s, system, t, id)
    ensures var s' := Steps(s, Take(system, t, id, job));
            && s'.threads == s.threads[t := FirstPc(WorkThrough(system, id, job))] && s'.locks == s.locks
            && OnlyItem(s, s', id) && NothingClosed(s.trace, s'.trace)
            && s'.items == if system.Private? then s.items[id := Item(job, system.queue, |s.trace|, None, false)] else s.items
  {
    hide FirstPc, Advanced;
    if system.Static? {
      StepsAdd(s, [], Begin(t, job));
    } else {
      var submit := Submit(system.queue, id, job);
      StepsAdd(s, [], submit);
      StepsAdd(s, [submit], Dequeue(t, system.queue));
      assert [submit] + [Dequeue(t, system.queue)] == Take(system, t, id, job);
      var s1 := Next(s, submit);
      assert QueueOf(s1, system.queue) == [] + [id];
    }
  }

  /** Nothing of the system is in use yet. */
  ghost predicate Ready(s: State, system: System, t: Tid, id: ItemId, key: Key) {
    && Free(s, system, t, id)
    && Slot(system, key) !in s.locks.entries && SpinOf(s.locks, system) == None
    && (forall l :: l in s.locks.held ==> l < s.locks.next)
  }

  /** A queued load asks IsReaderLocked before GetLock. */
  function Start(system: System, t: Tid, id: ItemId, job: Job): seq<Action> {
    if system.Private? && job.save.None? then Take(system, t, id, job) + [Advance(t)] else Take(system, t, id, job)
  }

  lemma StartGives(s: State, system: System, t: Tid, id: ItemId, job: Job)
    requires Ready(s, system, t, id, job.key)
    ensures var s' := Steps(s, Start(system, t, id, job));
            && s'.threads == s.threads[t := Lookup(WorkThrough(system, id, job))] && s'.locks == s.locks
            && OnlyItem(s, s', id) && NothingClosed(s.trace, s'.trace)
  {
    hide Steps, Take, LockOf;
    Taken(s, system, t, id, job);
    ThroughFits(system, id, job);
    StepsAdd(s, Take(system, t, id, job), Advance(t));
  }

  /** Three steps of a thread that nobody disturbs. */
  function Three(t: Tid): seq<Action> {
    [Advance(t), Advance(t), Advance(t)]
  }

  function Thrice(s: State, a: Action): State {
    Next(Next(Next(s, a), a), a)
  }

  lemma ThreeIsThrice(s: State, t: Tid)
    ensures Steps(s, Three(t)) == Thrice(s, Advance(t))
  {
    hide Next;
    var a := Advance(t);
    StepsAdd(s, [], a);
    StepsAdd(s, [a], a);
    StepsAdd(s, [a, a], a);
    assert [] + [a] == [a] && [a] + [a] == [a, a] && [a, a] + [a] == Three(t);
  }

  lemma ToInsert(s: State, t: Tid, w: Work)
    requires PcOf(s, t) == Lookup(w)
    requires SlotOf(w) !in s.locks.entries && SpinOf(s.locks, SystemOf(w.origin)) == None
    ensures Thrice(s, Advance(t)) == s.(threads := s.threads[t := Insert(w)],
                                        locks := s.locks.(spins := s.locks.spins[SystemOf(w.origin) := t]))
  {
    hide LockOf, EnterLock, Saved, Fetched, Ended;
    var s1 := Next(s, Advance(t));
    assert s1.threads == s.threads[t := WantSpin(w)] && s1.locks == s.locks;
    var s2 := Next(s1, Advance(t));
    assert s2.threads == s.threads[t := Recheck(w)];
    var s3 := Next(s2, Advance(t));
    assert s3.threads == s.threads[t := Insert(w)];
  }

  /** Where a thread stands when its section has just been opened, and the lock then. */
  function Inside(w: Work, l: LockId, since: nat): Pc {
    if w.job.save.Some? then Truncate(w, l) else Probe(w, l, since)
  }

  function Taker(w: Work, t: Tid): RwLock {
    if w.job.save.Some? then RwLock({}, Some(t)) else RwLock({t}, None)
  }

  function Opening(w: Work, t: Tid): Event {
    if w.job.save.Some? then WriterOpened(t, w.job.key) else ReaderOpened(t, w.job.key)
  }

  lemma ToWait(s: State, t: Tid, w: Work)
    requires PcOf(s, t) == Insert(w)
    ensures var l := s.locks.next;
            Next(Next(s, Advance(t)), Advance(t)) == s.(threads := s.threads[t := WantLock(w, l)],
              locks := s.locks.(entries := s.locks.entries[SlotOf(w) := l], next := l + 1,
                                spins := s.locks.spins - {SystemOf(w.origin)}))
  {
    hide SpinOf, LockOf, EnterLock, Saved, Fetched;
    var l := s.locks.next;
    var s1 := Next(s, Advance(t));
    assert s1.threads == s.threads[t := Release(w, l)] && s1.locks == Inserted(s.locks, SlotOf(w));
    var s2 := Next(s1, Advance(t));
    assert s2.threads == s.threads[t := WantLock(w, l)];
  }

  lemma ToSection(s: State, t: Tid, w: Work, l: LockId)
    requires PcOf(s, t) == WantLock(w, l) && l !in s.locks.held
    ensures Next(s, Advance(t)) == s.(threads := s.threads[t := Inside(w, l, |s.trace|)],
                                      locks := Held(s.locks, l, Taker(w, t)), trace := s.trace + [Opening(w, t)])
  {
    assert {} + {t} == {t};
  }

  function Arrival(system: System, t: Tid, id: ItemId, job: Job): seq<Action> {
    Start(system, t, id, job) + Three(t) + Three(t)
  }

  /** A thread has come into its section, past nobody. */
  ghost predicate Arrived(s: State, s': State, system: System, t: Tid, id: ItemId, job: Job) {
    var w, l := WorkThrough(system, id, job), s.locks.next;
    && |s'.trace| > 0 && s'.trace[|s'.trace| - 1] == Opening(w, t) && NothingClosed(s.trace, s'.trace)
    && s'.threads == s.threads[t := Inside(w, l, |s'.trace| - 1)] && OnlyItem(s, s', id)
    && s'.locks.entries == s.locks.entries[Slot(system, job.key) := l] && s'.locks.next == l + 1
    && s'.locks.held == s.locks.held[l := Taker(w, t)]
    && s'.locks.spins == s.locks.spins[system := t] - {system}
  }

  lemma OpeningNext(trace: seq<Event>, trace': seq<Event>, w: Work, t: Tid)
    requires NothingClosed(trace, trace')
    ensures NothingClosed(trace, trace' + [Opening(w, t)])
  {
  }

  /** From GetLock into the section. */
  lemma FromLookup(s: State, t: Tid, w: Work)
    requires PcOf(s, t) == Lookup(w) && s.locks.next !in s.locks.held
    requires SlotOf(w) !in s.locks.entries && SpinOf(s.locks, SystemOf(w.origin)) == None
    ensures var l := s.locks.next;
            Steps(Steps(s, Three(t)), Three(t)) == s.(threads := s.threads[t := Inside(w, l, |s.trace|)],
              locks := Locks(s.locks.entries[SlotOf(w) := l], l + 1,
                             s.locks.spins[SystemOf(w.origin) := t] - {SystemOf(w.origin)}, s.locks.held[l := Taker(w, t)]),
              trace := s.trace + [Opening(w, t)])
  {
    hide Steps, Next, LockOf, SpinOf, SystemOf, SlotOf, Three, Taker, Inside, Opening;
    var l := s.locks.next;
    ToInsert(s, t, w);
    ThreeIsThrice(s, t);
    var s2 := Steps(s, Three(t));
    ToWait(s2, t, w);
    ToSection(Next(Next(s2, Advance(t)), Advance(t)), t, w, l);
    ThreeIsThrice(s2, t);
    assert s.threads[t := Insert(w)][t := WantLock(w, l)][t := Inside(w, l, |s.trace|)]
        == s.threads[t := Inside(w, l, |s.trace|)];
  }

  lemma ArrivesFrom(s: State, system: System, t: Tid, id: ItemId, job: Job)
    requires Ready(s, system, t, id, job.key)
    ensures Arrived(s, Steps(Steps(Steps(s, Start(system, t, id, job)), Three(t)), Three(t)), system, t, id, job)
  {
    hide Steps, LockOf, SpinOf, SystemOf, WorkThrough, Start, Three, Taker, Inside, Opening, NothingClosed;
    var w := WorkThrough(system, id, job);
    ThroughFits(system, id, job);
    StartGives(s, system, t, id, job);
    var s1 := Steps(s, Start(system, t, id, job));
    FromLookup(s1, t, w);
    OpeningNext(s.trace, s1.trace, w, t);
  }

  lemma Arrives(files: map<Key, Content>, before: seq<Action>, system: System, t: Tid, id: ItemId, job: Job)
    requires Ready(Run(files, before), system, t, id, job.key)
    ensures Arrived(Run(files, before), Run(files, before + Arrival(system, t, id, job)), system, t, id, job)
  {
    hide Steps, Run, Start, Three, Arrived, Ready;
    ArrivesFrom(Run(files, before), system, t, id, job);
    var begun := before + Start(system, t, id, job);
    RunSteps(files, before, Start(system, t, id, job));
    RunSteps(files, begun, Three(t));
    RunSteps(files, begun + Three(t), Three(t));
    assert before + Arrival(system, t, id, job) == begun + Three(t) + Three(t);
  }

  /** Another system stays ready for another thread. */
  lemma ReadyStays(s: State, s': State, system: System, t: Tid, id: ItemId, job: Job, y: System, u: Tid, n: ItemId, key: Key)
    requires Arrived(s, s', system, t, id, job) && Ready(s, y, u, n, key) && y != system && u != t && n != id
    ensures Ready(s', y, u, n, key)
  {
  }

  // ----- IsReaderLocked -----

  /** One worker of a queued file system stands in the read section of a file, and another takes a load of the file. */
  function ReaderAndWorker(queue: QueueId, key: Key): seq<Action> {
    Arrival(Private(queue), 0, 0, Job(key, None)) + Take(Private(queue), 1, 1, Job(key, None))
  }

  /** The other asks whether the file is being read, is told that it is not, and goes on. */
  lemma ReaderUnnoticed(queue: QueueId, key: Key)
    ensures var s, slot := Run(map[], ReaderAndWorker(queue, key)), Slot(Private(queue), key);
            && InReadSection(PcOf(s, 0), slot)
            && PcOf(s, 1).Check? && SlotOf(PcOf(s, 1).w) == slot && PcOf(Next(s, Advance(1)), 1).Lookup?
  {
    hide Steps, Arrival, Take, Saved, Fetched, EnterLock, Ended;
    var job, system := Job(key, None), Private(queue);
    assert [] + Arrival(system, 0, 0, job) == Arrival(system, 0, 0, job);
    Arrives(map[], [], system, 0, 0, job);
    var s1 := Run(map[], Arrival(system, 0, 0, job));
    Taken(s1, system, 1, 1, job);
    RunSteps(map[], Arrival(system, 0, 0, job), Take(system, 1, 1, job));
    var s := Run(map[], ReaderAndWorker(queue, key));
    RunLockInv(map[], ReaderAndWorker(queue, key));
    NotReading(s, 1);
  }

  // ----- readers share -----

  /** Three more steps of a load that finds its lock in the dictionary and only readers inside. */
  lemma ThirdReader(s: State, t: Tid, w: Work, l: LockId)
    requires PcOf(s, t) == Lookup(w) && w.job.save.None? && w.job.key in s.files
    requires SlotOf(w) in s.locks.entries && s.locks.entries[SlotOf(w)] == l && LockOf(s.locks, l).writer == None
    requires forall u: Tid :: u != t ==> !PcOf(s, u).Writing?
    ensures var s' := Thrice(s, Advance(t));
            PcOf(s', t).Reading? && PcOf(s', t).w == w && forall u: Tid :: u != t ==> PcOf(s', u) == PcOf(s, u)
  {
    hide SlotOf, SpinOf, Saved, Ended;
    var s1 := Next(s, Advance(t));
    assert s1.threads == s.threads[t := WantLock(w, l)] && s1.locks == s.locks;
    var s2 := Next(s1, Advance(t));
    assert s2.threads == s1.threads[t := Probe(w, l, |s.trace|)];
    forall u | u in s2.threads && u != t ensures !Bars(s2.threads[u], w.job.key, false) {
      assert PcOf(s2, u) == PcOf(s, u);
    }
    var s3 := Next(s2, Advance(t));
    assert s3.threads == s2.threads[t := Reading(w, l, |s.trace|, [])];
  }

  function TwoReaders(system: System, key: Key): seq<Action> {
    Arrival(system, 0, 0, Job(key, None)) + [Advance(0)] + Start(system, 1, 1, Job(key, None)) + Three(1)
  }

  lemma InitialReady(files: map<Key, Content>, system: System, key: Key)
    ensures Run(files, []) == Initial(files) && Ready(Initial(files), system, 0, 0, key)
  {
  }

  lemma FirstArrived(s: State, s': State, system: System, job: Job)
    requires s == Initial(s.files) && job.save.None? && Arrived(s, s', system, 0, 0, job)
    ensures s'.threads.Keys == {0} && PcOf(s', 0).Probe? && PcOf(s', 0).w == WorkThrough(system, 0, job)
    ensures s'.files == s.files && 1 !in s'.items && forall q :: QueueOf(s', q) == []
    ensures var slot := Slot(system, job.key);
            slot in s'.locks.entries && LockOf(s'.locks, s'.locks.entries[slot]) == RwLock({0}, None)
  {
    hide Opening, NothingClosed, WorkThrough;
    ThroughFits(system, 0, job);
  }

  /** One thread reads the file, and nobody else is about. */
  lemma FirstReader(system: System, key: Key, content: Content)
    ensures var files, job := map[key := content], Job(key, None);
            var s := Run(files, Arrival(system, 0, 0, job) + [Advance(0)]);
            && s.threads.Keys == {0} && PcOf(s, 0).Reading? && PcOf(s, 0).w == WorkThrough(system, 0, job)
            && s.files == files && Free(s, system, 1, 1)
            && Slot(system, key) in s.locks.entries && LockOf(s.locks, s.locks.entries[Slot(system, key)]) == RwLock({0}, None)
  {
    hide Steps, Arrival, SlotOf, WorkThrough, Next, Arrived, Run;
    var files, job := map[key := content], Job(key, None);
    assert [] + Arrival(system, 0, 0, job) == Arrival(system, 0, 0, job);
    ThroughFits(system, 0, job);
    InitialReady(files, system, key);
    Arrives(files, [], system, 0, 0, job);
    var inside := Arrival(system, 0, 0, job);
    var s1 := Run(files, inside);
    FirstArrived(Initial(files), s1, system, job);
    FirstReads(s1, WorkThrough(system, 0, job), 0);
    RunSteps(files, inside, [Advance(0)]);
    OneStep(s1, Advance(0));
    var s2 := Next(s1, Advance(0));
    assert forall q :: QueueOf(s2, q) == QueueOf(s1, q);
    assert PcOf(s2, 1) == Idle;
  }

  lemma OneStep(s: State, a: Action)
    ensures Steps(s, [a]) == Next(s, a)
  {
    hide Next;
    StepsAdd(s, [], a);
    assert [] + [a] == [a];
  }

  /** Two loads of one file through one system read it at the same time. */
  lemma ReadersShare(system: System, key: Key, content: Content)
    ensures var s := Run(map[key := content], TwoReaders(system, key));
            && PcOf(s, 0).Reading? && SlotOf(PcOf(s, 0).w) == Slot(system, key)
            && PcOf(s, 1).Reading? && SlotOf(PcOf(s, 1).w) == Slot(system, key)
  {
    hide Steps, Arrival, Take, Start, Three, SlotOf, WorkThrough, Thrice, Run;
    var files, job := map[key := content], Job(key, None);
    ThroughFits(system, 0, job);
    ThroughFits(system, 1, job);
    FirstReader(system, key, content);
    var begun := Arrival(system, 0, 0, job) + [Advance(0)];
    var s2 := Run(files, begun);
    SecondStarts(s2, system, 1, 1, job);
    RunSteps(files, begun, Start(system, 1, 1, job));
    var s3 := Steps(s2, Start(system, 1, 1, job));
    RunSteps(files, begun + Start(system, 1, 1, job), Three(1));
    ThirdReader(s3, 1, WorkThrough(system, 1, job), s2.locks.entries[Slot(system, key)]);
    ThreeIsThrice(s3, 1);
  }

  lemma FirstReads(s: State, w: Work, l: LockId)
    requires s.threads.Keys == {0} && PcOf(s, 0).Probe? && PcOf(s, 0).w == w && w.job.key in s.files
    ensures var s' := Next(s, Advance(0));
            && s'.threads.Keys == {0} && PcOf(s', 0).Reading? && PcOf(s', 0).w == w
            && s'.locks == s.locks && s'.files == s.files && s'.items == s.items && s'.queues == s.queues
  {
    assert !Barred(s, 0, w.job.key, false);
  }

  /** A load on its way to GetLock, past IsReaderLocked. */
  lemma SecondStarts(s: State, system: System, t: Tid, id: ItemId, job: Job)
    requires Free(s, system, t, id) && job.save.None?
    requires Slot(system, job.key) in s.locks.entries
    requires t !in LockOf(s.locks, s.locks.entries[Slot(system, job.key)]).readers
    ensures var s' := Steps(s, Start(system, t, id, job));
            && s'.threads == s.threads[t := Lookup(WorkThrough(system, id, job))] && s'.locks == s.locks && s'.files == s.files
  {
    hide Steps, Take, LockOf;
    Taken(s, system, t, id, job);
    ThroughFits(system, id, job);
    StepsAdd(s, Take(system, t, id, job), Advance(t));
  }
}
