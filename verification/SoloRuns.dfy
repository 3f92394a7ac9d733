/** What a save or a load does when its thread is the only one at work: it ends, and what it leaves and answers is exact. */
module SoloRuns {
  import opened Basics
  import opened SharedFiles
  import opened Arrivals

  ghost predicate Solo(s: State, t: Tid) {
    forall u: Tid :: u != t ==> PcOf(s, u) == Idle
  }

  /** A writer has put a prefix into the file, a reader has read one, and a queued load's answer is with its item. */
  predicate Underway(s: State, pc: Pc) {
    && (!pc.Idle? && pc.w.origin.Queued? ==> pc.w.origin.id in s.items)
    && (pc.Writing? ==>
          pc.n <= |Payload(pc.w.job)| && FileOf(s.files, pc.w.job.key) == Some(Payload(pc.w.job)[..pc.n]))
    && (pc.LeaveWriter? ==> FileOf(s.files, pc.w.job.key) == Some(Payload(pc.w.job)))
    && (pc.Reading? ==> pc.w.job.key in s.files && pc.buffer <= s.files[pc.w.job.key])
    && (pc.LeaveReader? && pc.w.origin.Queued? ==> s.items[pc.w.origin.id].output == Some(pc.result))
    && !pc.Collided? && !pc.Requeue?
  }

  /** A bound on the steps to come. */
  function StepsLeft(s: State, pc: Pc): nat {
    match pc
    case Writing(w, _, n) => (if n < |Payload(w.job)| then |Payload(w.job)| - n else 0) + 3
    case Reading(w, _, _, buffer) => (if |buffer| < Size(s, w) then Size(s, w) - |buffer| else 0) + 3
    case LeaveWriter(_, _) => 2
    case LeaveReader(_, _, _, _) => 2
    case Finish(_) => 1
    case Idle => 0
    case Collided(_, _) => 0
    case Requeue(_) => 0
    case _ => Size(s, pc.w) + Distance(pc)
  }

  function Size(s: State, w: Work): nat {
    if w.job.save.Some? then |w.job.save.value| else if w.job.key in s.files then |s.files[w.job.key]| else 0
  }

  function Distance(pc: Pc): nat {
    match pc
    case Check(_) => 11
    case Lookup(_) => 10
    case WantSpin(_) => 9
    case Recheck(_) => 8
    case Insert(_) => 7
    case Release(_, _) => 6
    case WantLock(_, _) => 5
    case _ => 4
  }

  // ----- what is to come -----

  /** The events that the thread still has to add: those of its section. */
  function TraceAhead(s: State, t: Tid, pc: Pc): seq<Event> {
    if pc.Idle? || pc.Finish? || pc.Collided? || pc.Requeue? then []
    else if InWriter(pc) then [WriterClosed(t, pc.w)]
    else if InReader(pc) then [ReaderClosed(t, pc.w, pc.since, Answer(s, pc))]
    else if pc.w.job.save.Some? then [WriterOpened(t, pc.w.job.key), WriterClosed(t, pc.w)]
    else [ReaderOpened(t, pc.w.job.key), ReaderClosed(t, pc.w, |s.trace|, Answer(s, pc))]
  }

  /** What a load answers: what is in the file. */
  function Answer(s: State, pc: Pc): Option<Content> {
    if pc.LeaveReader? then pc.result else if pc.Idle? then None else FileOf(s.files, pc.w.job.key)
  }

  function FilesAhead(s: State, pc: Pc): map<Key, Content> {
    if !pc.Idle? && pc.w.job.save.Some? && !pc.Finish? then s.files[pc.w.job.key := pc.w.job.save.value] else s.files
  }

  /** The client's item: answered if it is a load, and released. */
  function ItemsAhead(s: State, pc: Pc): map<ItemId, Item> {
    if !pc.Idle? && pc.w.origin.Queued? && pc.w.origin.id in s.items then
      var item := s.items[pc.w.origin.id];
      var output := if pc.w.job.save.None? && !pc.Finish? then Some(Answer(s, pc)) else item.output;
      s.items[pc.w.origin.id := item.(output := output, released := true)]
    else s.items
  }

  /** A step nearer to the end, and the same end ahead. */
  ghost predicate Nearer(s: State, s': State, t: Tid, pc: Pc) {
    var before := PcOf(s, t);
    && s'.threads == s.threads[t := pc] && Underway(s', pc) && StepsLeft(s', pc) < StepsLeft(s, before)
    && s'.trace + TraceAhead(s', t, pc) == s.trace + TraceAhead(s, t, before)
    && FilesAhead(s', pc) == FilesAhead(s, before) && ItemsAhead(s', pc) == ItemsAhead(s, before)
    && s'.queues == s.queues
  }

  // ----- one step -----

  predicate Ahead(pc: Pc) {
    Approaching(pc) || pc.WantLock?
  }

  /** GetLock and IsReaderLocked only come nearer to the section. */
  lemma Approach(s: State, t: Tid)
    requires LockInv(s) && Solo(s, t) && Approaching(PcOf(s, t))
    ensures var pc, next := PcOf(s, t), NextPlace(s.locks, t, PcOf(s, t));
            Ahead(next) && next.w == pc.w && Distance(next) < Distance(pc)
  {
    if PcOf(s, t).Check? {
      NotReading(s, t);
    } else if PcOf(s, t).WantSpin? {
      SpinFree(s, t);
    }
    hide LockInv, LockOf, Solo, SpinOf, SlotOf;
  }

  lemma ApproachNearer(s: State, t: Tid)
    requires LockInv(s) && Solo(s, t) && Underway(s, PcOf(s, t)) && Approaching(PcOf(s, t))
    ensures var s' := Approached(s, t, PcOf(s, t)); Nearer(s, s', t, PcOf(s', t))
  {
    Approach(s, t);
    hide LockInv, Solo, NextPlace, NextLocks;
    var s' := Approached(s, t, PcOf(s, t));
    StillAhead(s, s', PcOf(s, t), PcOf(s', t), t);
  }

  lemma StillAhead(s: State, s': State, pc: Pc, next: Pc, t: Tid)
    requires Ahead(pc) && Ahead(next) && next.w == pc.w && Distance(next) < Distance(pc) && Underway(s, pc)
    requires PcOf(s, t) == pc && s'.threads == s.threads[t := next]
    requires s'.files == s.files && s'.items == s.items && s'.trace == s.trace && s'.queues == s.queues
    ensures Nearer(s, s', t, next)
  {
  }

  /** The spin lock is not taken, since nobody else is at work. */
  lemma SpinFree(s: State, t: Tid)
    requires LockInv(s) && Solo(s, t) && PcOf(s, t).WantSpin?
    ensures SpinOf(s.locks, SystemOf(PcOf(s, t).w.origin)) == None
  {
    var system := SystemOf(PcOf(s, t).w.origin);
    forall u: Tid ensures SpinOf(s.locks, system) != Some(u) {
      assert !Spinning(PcOf(s, u), system);
    }
  }

  /** Neither is the lock. */
  lemma LockFree(s: State, t: Tid, l: LockId)
    requires LockInv(s) && Solo(s, t) && PcOf(s, t).WantLock?
    ensures LockOf(s.locks, l) == RwLock({}, None)
  {
    forall u: Tid ensures u !in LockOf(s.locks, l).readers && LockOf(s.locks, l).writer != Some(u) {
      Standing(s, u, l);
    }
  }

  lemma EnterNearer(s: State, t: Tid)
    requires LockInv(s) && Solo(s, t) && Underway(s, PcOf(s, t)) && PcOf(s, t).WantLock?
    ensures var s' := EnterLock(s, t, PcOf(s, t).w, PcOf(s, t).l); Nearer(s, s', t, PcOf(s', t))
  {
    var pc := PcOf(s, t);
    LockFree(s, t, pc.l);
    hide LockInv, Solo, LockOf, SlotOf;
    var s' := EnterLock(s, t, pc.w, pc.l);
    assert s'.trace == s.trace + [if pc.w.job.save.Some? then WriterOpened(t, pc.w.job.key) else ReaderOpened(t, pc.w.job.key)];
  }

  /** No handle is open, either. */
  lemma Unbarred(s: State, t: Tid, key: Key, toWrite: bool)
    requires Solo(s, t)
    ensures !Barred(s, t, key, toWrite)
  {
    forall u | u in s.threads && u != t ensures !Bars(s.threads[u], key, toWrite) {
      assert PcOf(s, u) == Idle;
    }
  }

  lemma SlotThere(s: State, t: Tid)
    requires LockInv(s) && HasLock(PcOf(s, t))
    ensures SlotOf(PcOf(s, t).w) in s.locks.entries
    ensures Saving(PcOf(s, t)) ==> PcOf(s, t).w.job.save.Some?
    ensures Loading(PcOf(s, t)) ==> PcOf(s, t).w.job.save.None?
  {
    assert HandOk(s.locks, PcOf(s, t));
  }

  lemma TruncateNearer(s: State, t: Tid)
    requires Solo(s, t) && Underway(s, PcOf(s, t)) && PcOf(s, t).Truncate? && PcOf(s, t).w.job.save.Some?
    ensures var s' := Saved(s, t, PcOf(s, t)); Nearer(s, s', t, PcOf(s', t))
  {
    Unbarred(s, t, PcOf(s, t).w.job.key, true);
    hide Solo, Barred;
    assert Payload(PcOf(s, t).w.job)[..0] == [];
  }

  lemma WriteNearer(s: State, t: Tid)
    requires Underway(s, PcOf(s, t)) && PcOf(s, t).Writing? && PcOf(s, t).w.job.save.Some?
    ensures var s' := Saved(s, t, PcOf(s, t)); Nearer(s, s', t, PcOf(s', t))
  {
    var pc, payload := PcOf(s, t), Payload(PcOf(s, t).w.job);
    if pc.n < |payload| {
      assert payload[..pc.n + 1] == payload[..pc.n] + [payload[pc.n]];
    } else {
      assert payload[..pc.n] == payload;
    }
  }

  lemma LeaveWriterNearer(s: State, t: Tid)
    requires Underway(s, PcOf(s, t)) && PcOf(s, t).LeaveWriter? && PcOf(s, t).w.job.save.Some?
    requires SlotOf(PcOf(s, t).w) in s.locks.entries
    ensures var s' := Saved(s, t, PcOf(s, t)); Nearer(s, s', t, PcOf(s', t))
  {
    hide SlotOf, LockOf;
    var pc := PcOf(s, t);
    assert s.files[pc.w.job.key := pc.w.job.save.value] == s.files;
  }

  lemma SaveNearer(s: State, t: Tid)
    requires LockInv(s) && Solo(s, t) && Underway(s, PcOf(s, t)) && Saving(PcOf(s, t))
    ensures var s' := Saved(s, t, PcOf(s, t)); Nearer(s, s', t, PcOf(s', t))
  {
    SlotThere(s, t);
    hide LockInv, Solo, Saved, Nearer, Underway;
    match PcOf(s, t)
    case Truncate(_, _) => TruncateNearer(s, t);
    case Writing(_, _, _) => WriteNearer(s, t);
    case LeaveWriter(_, _) => LeaveWriterNearer(s, t);
  }

  lemma ProbeNearer(s: State, t: Tid)
    requires Solo(s, t) && Underway(s, PcOf(s, t)) && PcOf(s, t).Probe? && PcOf(s, t).w.job.save.None?
    ensures var s' := Fetched(s, t, PcOf(s, t)); Nearer(s, s', t, PcOf(s', t))
  {
    Unbarred(s, t, PcOf(s, t).w.job.key, false);
    hide Solo, Barred;
  }

  lemma ReadNearer(s: State, t: Tid)
    requires Underway(s, PcOf(s, t)) && PcOf(s, t).Reading? && PcOf(s, t).w.job.save.None?
    ensures var s' := Fetched(s, t, PcOf(s, t)); Nearer(s, s', t, PcOf(s', t))
  {
    var pc, file := PcOf(s, t), s.files[PcOf(s, t).w.job.key];
    if |pc.buffer| < |file| {
      assert pc.buffer + [file[|pc.buffer|]] <= file;
    } else {
      assert pc.buffer == file;
    }
  }

  lemma LeaveReaderNearer(s: State, t: Tid)
    requires Underway(s, PcOf(s, t)) && PcOf(s, t).LeaveReader? && PcOf(s, t).w.job.save.None?
    requires SlotOf(PcOf(s, t).w) in s.locks.entries
    ensures var s' := Fetched(s, t, PcOf(s, t)); Nearer(s, s', t, PcOf(s', t))
  {
    hide SlotOf, LockOf;
  }

  lemma LoadNearer(s: State, t: Tid)
    requires LockInv(s) && Solo(s, t) && Underway(s, PcOf(s, t)) && Loading(PcOf(s, t))
    ensures var s' := Fetched(s, t, PcOf(s, t)); Nearer(s, s', t, PcOf(s', t))
  {
    SlotThere(s, t);
    hide LockInv, Solo, Fetched, Nearer, Underway;
    match PcOf(s, t)
    case Probe(_, _, _) => ProbeNearer(s, t);
    case Reading(_, _, _, _) => ReadNearer(s, t);
    case LeaveReader(_, _, _, _) => LeaveReaderNearer(s, t);
  }

  lemma FinishNearer(s: State, t: Tid)
    requires Underway(s, PcOf(s, t)) && PcOf(s, t).Finish?
    ensures Nearer(s, Ended(s, t, PcOf(s, t).w, false), t, Idle)
  {
  }

  lemma AdvanceNearer(s: State, t: Tid)
    requires LockInv(s) && Solo(s, t) && Underway(s, PcOf(s, t)) && !PcOf(s, t).Idle?
    ensures var s' := Advanced(s, t); Nearer(s, s', t, PcOf(s', t))
  {
    var pc := PcOf(s, t);
    assert !pc.Collided? && !pc.Requeue?;
    hide LockInv, Solo, Underway, Nearer, Approached, EnterLock, Saved, Fetched;
    if Approaching(pc) {
      ApproachNearer(s, t);
    } else if pc.WantLock? {
      EnterNearer(s, t);
    } else if Saving(pc) {
      SaveNearer(s, t);
    } else if Loading(pc) {
      LoadNearer(s, t);
    } else {
      FinishNearer(s, t);
    }
  }

  // ----- to the end -----

  /** A thread that works alone comes to the end by its own steps, and the end is the one that was ahead. */
  lemma {:induction false} RunsToEnd(files: map<Key, Content>, actions: seq<Action>, t: Tid) returns (all: seq<Action>)
    requires var s := Run(files, actions); Solo(s, t) && Underway(s, PcOf(s, t))
    ensures actions <= all && forall i :: |actions| <= i < |all| ==> all[i] == Advance(t)
    ensures var s, s' := Run(files, actions), Run(files, all);
            var pc := PcOf(s, t);
            && s'.trace == s.trace + TraceAhead(s, t, pc) && s'.files == FilesAhead(s, pc) && s'.items == ItemsAhead(s, pc)
            && s'.queues == s.queues && forall u: Tid :: PcOf(s', u) == Idle
    decreases StepsLeft(Run(files, actions), PcOf(Run(files, actions), t))
  {
    hide Run, LockInv, Underway, StepsLeft, Advanced;
    var s := Run(files, actions);
    if PcOf(s, t).Idle? {
      all := actions;
    } else {
      RunLockInv(files, actions);
      AdvanceNearer(s, t);
      var s' := Advanced(s, t);
      OneMore(files, actions, t);
      Moved(s.threads, s'.threads, t, PcOf(s', t));
      assert forall u: Tid :: u != t ==> PcOf(s', u) == PcOf(s, u);
      all := RunsToEnd(files, actions + [Advance(t)], t);
      NearerAhead(s, s', t, PcOf(s', t), Run(files, all));
    }
  }

  lemma OneMore(files: map<Key, Content>, actions: seq<Action>, t: Tid)
    ensures Run(files, actions + [Advance(t)]) == Advanced(Run(files, actions), t)
  {
    assert (actions + [Advance(t)])[..|actions|] == actions;
  }

  lemma NearerAhead(s: State, s': State, t: Tid, pc: Pc, end: State)
    requires Nearer(s, s', t, pc) && end.trace == s'.trace + TraceAhead(s', t, pc)
    ensures end.trace == s.trace + TraceAhead(s, t, PcOf(s, t))
  {
  }

  // ----- a save, and then a load -----

  /** Every thread is idle and the system has nothing queued. */
  ghost predicate Quiet(s: State, system: System) {
    (forall u: Tid :: PcOf(s, u) == Idle) && (system.Private? ==> QueueOf(s, system.queue) == [])
  }

  /** The event that closes the section of a job; a load answers with what it found. */
  predicate Closes(e: Event, system: System, job: Job, found: Option<Content>) {
    if job.save.Some? then e.WriterClosed? && e.w.job == job && SystemOf(e.w.origin) == system
    else e.ReaderClosed? && e.w.job == job && SystemOf(e.w.origin) == system && e.result == found
  }

  /** The client of a queued file system is told what was found. */
  predicate Tells(e: Event, id: ItemId, job: Job, found: Option<Content>) {
    e.Returned? && e.id == id && e.item.job == job && (job.save.None? ==> e.item.output == Some(found))
  }

  /** From s to s' a job was done through a system: its section closed and a waiting client was released. */
  ghost predicate JobDone(s: State, s': State, system: System, id: ItemId, job: Job) {
    var found := FileOf(s.files, job.key);
    && s.trace <= s'.trace
    && (exists k :: |s.trace| <= k < |s'.trace| && Closes(s'.trace[k], system, job, found))
    && (system.Private? ==> |s.trace| < |s'.trace| && Tells(s'.trace[|s'.trace| - 1], id, job, found))
    && s'.files == (if job.save.Some? then s.files[job.key := job.save.value] else s.files)
  }

  /** Once a thread has come by a job nothing stands in its way. */
  lemma Began(s: State, system: System, id: ItemId, job: Job)
    requires Quiet(s, system) && id !in s.items
    ensures var s', w := Steps(s, Take(system, 0, id, job)), WorkThrough(system, id, job);
            && Solo(s', 0) && PcOf(s', 0) == FirstPc(w) && Underway(s', FirstPc(w))
            && s.trace <= s'.trace && s'.files == s.files && (forall q :: QueueOf(s', q) == QueueOf(s, q))
            && (forall k :: k in s'.items ==> k in s.items || k == id)
            && (system.Private? ==> id in s'.items && s'.items[id].job == job)
  {
    hide Steps, Take, WorkThrough;
    Taken(s, system, 0, id, job);
    ThroughQueue(system, id, job);
    var s' := Steps(s, Take(system, 0, id, job));
    Moved(s.threads, s'.threads, 0, FirstPc(WorkThrough(system, id, job)));
    assert forall u: Tid :: PcOf(s', u) == if u == 0 then FirstPc(WorkThrough(system, id, job)) else PcOf(s, u);
  }

  /** What the end of a job that has just begun looks like. */
  lemma Outcome(s: State, w: Work)
    ensures var pc := FirstPc(w);
            var ahead := TraceAhead(s, 0, pc);
            && |ahead| == 2 && Closes(ahead[1], SystemOf(w.origin), w.job, FileOf(s.files, w.job.key))
            && FilesAhead(s, pc) == (if w.job.save.Some? then s.files[w.job.key := w.job.save.value] else s.files)
            && (w.origin.Queued? && w.origin.id in s.items ==>
                  var item := ItemsAhead(s, pc)[w.origin.id];
                  && ItemsAhead(s, pc).Keys == s.items.Keys && item.released && item.job == s.items[w.origin.id].job
                  && (w.job.save.None? ==> item.output == Some(FileOf(s.files, w.job.key))))
            && (!w.origin.Queued? ==> ItemsAhead(s, pc) == s.items)
  {
  }

  lemma DoJob(files: map<Key, Content>, before: seq<Action>, system: System, id: ItemId, job: Job)
    returns (all: seq<Action>)
    requires Quiet(Run(files, before), system) && id !in Run(files, before).items
    ensures before <= all && JobDone(Run(files, before), Run(files, all), system, id, job)
    ensures Quiet(Run(files, all), system)
    ensures forall k :: k in Run(files, all).items ==> k in Run(files, before).items || k == id
  {
    hide Run, Steps, Take, WorkThrough, Underway, TraceAhead, FilesAhead, ItemsAhead, FirstPc;
    var s, w := Run(files, before), WorkThrough(system, id, job);
    Began(s, system, id, job);
    ThroughFits(system, id, job);
    ThroughQueue(system, id, job);
    RunSteps(files, before, Take(system, 0, id, job));
    var begun := before + Take(system, 0, id, job);
    var s1 := Run(files, begun);
    all := RunsToEnd(files, begun, 0);
    var s2 := Run(files, all);
    Outcome(s1, w);
    assert forall q :: QueueOf(s2, q) == QueueOf(s1, q);
    var k := |s1.trace| + 1;
    assert Closes(s2.trace[k], system, job, FileOf(s.files, job.key));
    if system.Private? {
      StepsReturn(files, all, id);
      all := all + [Return(id)];
      assert forall u: Tid :: PcOf(Run(files, all), u) == PcOf(s2, u);
      assert Closes(Run(files, all).trace[k], system, job, FileOf(s.files, job.key));
    }
  }

  lemma ThroughQueue(system: System, id: ItemId, job: Job)
    ensures var w := WorkThrough(system, id, job);
            (w.origin.Queued? <==> system.Private?) && (w.origin.Queued? ==> w.origin.id == id)
  {
  }

  lemma StepsReturn(files: map<Key, Content>, actions: seq<Action>, id: ItemId)
    ensures Run(files, actions + [Return(id)]) == Next(Run(files, actions), Return(id))
  {
    assert (actions + [Return(id)])[..|actions|] == actions;
  }

  /**
   * Whatever went before, once everybody is idle a save through a system and then a load through it both come to their
   * ends, and the load answers, and its client is told, exactly what was saved.
   */
  lemma SaveThenLoad(files: map<Key, Content>, before: seq<Action>, system: System, key: Key, content: Content,
                     first: ItemId, second: ItemId) returns (saved: seq<Action>, all: seq<Action>)
    requires Quiet(Run(files, before), system)
    requires first !in Run(files, before).items && second !in Run(files, before).items && first != second
    ensures before <= saved <= all
    ensures JobDone(Run(files, before), Run(files, saved), system, first, Job(key, Some(content)))
    ensures var trace, trace' := Run(files, saved).trace, Run(files, all).trace;
            && trace <= trace'
            && (exists k :: |trace| <= k < |trace'| && Closes(trace'[k], system, Job(key, None), Some(content)))
            && (system.Private? ==>
                  |trace| < |trace'| && Tells(trace'[|trace'| - 1], second, Job(key, None), Some(content)))
  {
    hide Run, Quiet;
    saved := DoJob(files, before, system, first, Job(key, Some(content)));
    all := DoJob(files, saved, system, second, Job(key, None));
  }
}
