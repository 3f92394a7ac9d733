/** What loads return whatever systems use a file: the share modes of File.Open keep them whole, where the locks do not. */
module WholeLoads {
  import opened Basics
  import opened SharedFiles
  import opened FileContents

  /** The contents that some action sets out to save into the file. */
  function SavesOf(actions: seq<Action>, key: Key): set<Content> {
    set i | 0 <= i < |actions| && Saves(actions[i], key) :: actions[i].job.save.value
  }

  predicate Saves(a: Action, key: Key) {
    (a.Begin? || a.Submit?) && a.job.key == key && a.job.save.Some?
  }

  /** What the file held at the start, or one of the contents to be saved, whole; None is a missing file. */
  predicate Whole(files: map<Key, Content>, saves: set<Content>, key: Key, result: Option<Content>) {
    result == FileOf(files, key) || (result.Some? && result.value in saves)
  }

  predicate JobKnown(job: Job, key: Key, saves: set<Content>) {
    job.key == key && job.save.Some? ==> job.save.value in saves
  }

  predicate ItemsKnown(items: map<ItemId, Item>, key: Key, saves: set<Content>) {
    forall id :: id in items ==> JobKnown(items[id].job, key, saves)
  }

  /** A writer has put a prefix into the file, and a reader has read one; a result is whole. */
  predicate PlaceOk(files: map<Key, Content>, now: map<Key, Content>, pc: Pc, key: Key, saves: set<Content>) {
    !pc.Idle? ==>
      && JobKnown(pc.w.job, key, saves) && (Saving(pc) ==> pc.w.job.save.Some?)
      && (pc.w.job.key == key ==>
            && (pc.Writing? ==> pc.n <= |Payload(pc.w.job)| && FileOf(now, key) == Some(Payload(pc.w.job)[..pc.n]))
            && (pc.Reading? ==> key in now && pc.buffer <= now[key])
            && (pc.LeaveReader? ==> Whole(files, saves, key, pc.result)))
  }

  /** No other thread has a handle to the file that a File.Open would not tolerate. */
  ghost predicate Alone(threads: map<Tid, Pc>, t: Tid, key: Key, toWrite: bool) {
    forall u: Tid :: u != t ==> !Bars(At(threads, u), key, toWrite)
  }

  /** A handle to write is the only handle. */
  ghost predicate Handles(threads: map<Tid, Pc>, key: Key) {
    forall t: Tid, u: Tid :: t != u && Bars(At(threads, t), key, false) ==> !Bars(At(threads, u), key, true)
  }

  ghost predicate Unwritten(threads: map<Tid, Pc>, key: Key) {
    forall t: Tid :: !Bars(At(threads, t), key, false)
  }

  ghost predicate TraceWhole(files: map<Key, Content>, trace: seq<Event>, key: Key, saves: set<Content>) {
    forall j :: 0 <= j < |trace| && trace[j].ReaderClosed? && trace[j].w.job.key == key ==>
      Whole(files, saves, key, trace[j].result)
  }

  /** While nobody has the file open to write, it is whole. */
  ghost predicate WholeInv(files: map<Key, Content>, s: State, key: Key, saves: set<Content>) {
    && (forall t: Tid :: PlaceOk(files, s.files, PcOf(s, t), key, saves))
    && ItemsKnown(s.items, key, saves) && Handles(s.threads, key) && TraceWhole(files, s.trace, key, saves)
    && (Unwritten(s.threads, key) ==> Whole(files, saves, key, FileOf(s.files, key)))
  }

  // ----- moves of one thread -----

  /** A thread moves to pc; whoever else has the file open to read or to write finds it as it was. */
  lemma MoveKeeps(files: map<Key, Content>, s: State, s': State, t: Tid, pc: Pc, key: Key, saves: set<Content>)
    requires WholeInv(files, s, key, saves)
    requires forall u: Tid :: At(s'.threads, u) == if u == t then pc else At(s.threads, u)
    requires ItemsKnown(s'.items, key, saves) && TraceWhole(files, s'.trace, key, saves)
    requires PlaceOk(files, s'.files, pc, key, saves)
    requires FileOf(s'.files, key) == FileOf(s.files, key) || Alone(s.threads, t, key, true)
    requires Bars(pc, key, false) ==> Alone(s.threads, t, key, true)
    requires Bars(pc, key, true) ==> Alone(s.threads, t, key, false)
    requires !Bars(pc, key, false) && Alone(s.threads, t, key, false) ==> Whole(files, saves, key, FileOf(s'.files, key))
    ensures WholeInv(files, s', key, saves)
  {
    hide Whole;
    forall u: Tid ensures PlaceOk(files, s'.files, PcOf(s', u), key, saves) {
      assert PlaceOk(files, s.files, PcOf(s, u), key, saves);
      assert u == t || PcOf(s', u) == PcOf(s, u);
      if u != t && Alone(s.threads, t, key, true) {
        assert !Bars(PcOf(s, u), key, true);
      }
    }
    forall x: Tid, y: Tid | x != y && Bars(At(s'.threads, x), key, false) ensures !Bars(At(s'.threads, y), key, true) {
      assert x != t && y != t ==> !Bars(At(s.threads, y), key, true);
    }
    if Unwritten(s'.threads, key) {
      assert !Bars(At(s'.threads, t), key, false);
      forall u: Tid | u != t ensures !Bars(At(s.threads, u), key, false) {
        assert !Bars(At(s'.threads, u), key, false);
      }
    }
  }

  lemma AloneIsUnbarred(s: State, t: Tid, key: Key, toWrite: bool)
    ensures Alone(s.threads, t, key, toWrite) <==> !Barred(s, t, key, toWrite)
  {
    if Alone(s.threads, t, key, toWrite) {
      forall u | u in s.threads && u != t ensures !Bars(s.threads[u], key, toWrite) {
        assert !Bars(At(s.threads, u), key, toWrite);
      }
    }
  }

  /** A thread with the file open to write is alone, and one with it open to read meets no writer. */
  lemma HandleAlone(s: State, t: Tid, key: Key)
    requires Handles(s.threads, key)
    ensures Bars(PcOf(s, t), key, false) ==> Alone(s.threads, t, key, true)
    ensures Bars(PcOf(s, t), key, true) ==> Alone(s.threads, t, key, false)
  {
  }

  /** A move that leaves the file alone, by a thread with no handle to it before or afterwards. */
  lemma QuietKeeps(files: map<Key, Content>, s: State, s': State, t: Tid, pc: Pc, key: Key, saves: set<Content>)
    requires WholeInv(files, s, key, saves)
    requires forall u: Tid :: At(s'.threads, u) == if u == t then pc else At(s.threads, u)
    requires FileOf(s'.files, key) == FileOf(s.files, key)
    requires ItemsKnown(s'.items, key, saves) && TraceWhole(files, s'.trace, key, saves)
    requires PlaceOk(files, s'.files, pc, key, saves)
    requires !Bars(PcOf(s, t), key, false) && !Bars(pc, key, true)
    ensures WholeInv(files, s', key, saves)
  {
    hide Whole, PlaceOk, ItemsKnown, TraceWhole;
    if Alone(s.threads, t, key, false) {
      assert Unwritten(s.threads, key);
    }
    MoveKeeps(files, s, s', t, pc, key, saves);
  }

  lemma TraceGrows(files: map<Key, Content>, trace: seq<Event>, e: Event, key: Key, saves: set<Content>)
    requires TraceWhole(files, trace, key, saves)
    requires e.ReaderClosed? && e.w.job.key == key ==> Whole(files, saves, key, e.result)
    ensures TraceWhole(files, trace + [e], key, saves)
  {
  }

  // ----- every step -----

  lemma ApproachKeepsWhole(files: map<Key, Content>, s: State, t: Tid, key: Key, saves: set<Content>)
    requires WholeInv(files, s, key, saves) && Approaching(PcOf(s, t))
    ensures WholeInv(files, Approached(s, t, PcOf(s, t)), key, saves)
  {
    hide Whole, ItemsKnown, TraceWhole, NextPlace, NextLocks;
    var pc, s' := PcOf(s, t), Approached(s, t, PcOf(s, t));
    ApproachOutside(s.locks, t, pc);
    Moved(s.threads, s'.threads, t, NextPlace(s.locks, t, pc));
    QuietKeeps(files, s, s', t, NextPlace(s.locks, t, pc), key, saves);
  }

  lemma EnterKeepsWhole(files: map<Key, Content>, s: State, t: Tid, w: Work, l: LockId, key: Key, saves: set<Content>)
    requires WholeInv(files, s, key, saves) && PcOf(s, t) == WantLock(w, l)
    ensures WholeInv(files, EnterLock(s, t, w, l), key, saves)
  {
    hide Whole, ItemsKnown, TraceWhole, LockOf, EnterLock;
    var s' := EnterLock(s, t, w, l);
    EnterEffect(s, t, w, l);
    if s' != s {
      var e, r :| Enters(s, s', t, w, l, e, r);
      TraceGrows(files, s.trace, e, key, saves);
      Moved(s.threads, s'.threads, t, PcOf(s', t));
      QuietKeeps(files, s, s', t, PcOf(s', t), key, saves);
    }
  }

  /** File.Open with FileMode.Create. */
  lemma TruncateKeeps(files: map<Key, Content>, s: State, t: Tid, key: Key, saves: set<Content>)
    requires WholeInv(files, s, key, saves) && PcOf(s, t).Truncate? && PcOf(s, t).w.job.key == key
    ensures WholeInv(files, Saved(s, t, PcOf(s, t)), key, saves)
  {
    hide ItemsKnown, TraceWhole, Whole, Barred, Alone, Handles;
    var pc, s' := PcOf(s, t), Saved(s, t, PcOf(s, t));
    assert PlaceOk(files, s.files, pc, key, saves);
    Moved(s.threads, s'.threads, t, PcOf(s', t));
    if Barred(s, t, key, true) {
      QuietKeeps(files, s, s', t, PcOf(s', t), key, saves);
    } else {
      AloneIsUnbarred(s, t, key, true);
      WeakerAlone(s, t, key);
      MoveKeeps(files, s, s', t, PcOf(s', t), key, saves);
    }
  }

  /** Copying one element, or noticing that there are no more. */
  lemma WriteKeepsWhole(files: map<Key, Content>, s: State, t: Tid, key: Key, saves: set<Content>)
    requires WholeInv(files, s, key, saves) && PcOf(s, t).Writing? && PcOf(s, t).w.job.key == key
    ensures WholeInv(files, Saved(s, t, PcOf(s, t)), key, saves)
  {
    hide ItemsKnown, TraceWhole, Barred, Alone, Handles;
    var pc, s' := PcOf(s, t), Saved(s, t, PcOf(s, t));
    assert PlaceOk(files, s.files, pc, key, saves);
    Moved(s.threads, s'.threads, t, PcOf(s', t));
    NextPrefix(Payload(pc.w.job), pc.n);
    HandleAlone(s, t, key);
    assert pc.n == |Payload(pc.w.job)| ==> FileOf(s.files, key) == Some(Payload(pc.w.job));
    MoveKeeps(files, s, s', t, PcOf(s', t), key, saves);
  }

  /** A step of a save or a load of another file, or one that gives up a lock, or meets a handle. */
  lemma StepKeepsWhole(files: map<Key, Content>, s: State, s': State, t: Tid, pc: Pc, key: Key, saves: set<Content>)
    requires WholeInv(files, s, key, saves) && s'.threads == s.threads[t := pc] && FileOf(s'.files, key) == FileOf(s.files, key)
    requires ItemsKnown(s'.items, key, saves) && TraceWhole(files, s'.trace, key, saves)
    requires !PcOf(s, t).Idle? && (pc.Idle? || (pc.w == PcOf(s, t).w && (Saving(pc) ==> Saving(PcOf(s, t)))))
    requires PcOf(s, t).w.job.key != key || pc.Idle? || pc.Finish? || pc.Collided?
    requires !Bars(PcOf(s, t), key, false)
    ensures WholeInv(files, s', key, saves)
  {
    hide ItemsKnown, TraceWhole, Whole, Alone, Handles;
    assert PlaceOk(files, s.files, PcOf(s, t), key, saves);
    Moved(s.threads, s'.threads, t, pc);
    QuietKeeps(files, s, s', t, pc, key, saves);
  }

  lemma SaveKeepsWhole(files: map<Key, Content>, s: State, t: Tid, key: Key, saves: set<Content>)
    requires WholeInv(files, s, key, saves) && Saving(PcOf(s, t))
    ensures WholeInv(files, Saved(s, t, PcOf(s, t)), key, saves)
  {
    hide ItemsKnown, LockOf, Barred, SlotOf, Handles, PlaceOk, Payload, Unwritten;
    var pc, s' := PcOf(s, t), Saved(s, t, PcOf(s, t));
    if pc.LeaveWriter? || pc.w.job.key != key {
      TraceGrows(files, s.trace, WriterClosed(t, pc.w), key, saves);
      hide TraceWhole;
      StepKeepsWhole(files, s, s', t, PcOf(s', t), key, saves);
    } else if pc.Truncate? {
      TruncateKeeps(files, s, t, key, saves);
    } else {
      WriteKeepsWhole(files, s, t, key, saves);
    }
  }

  lemma NextPrefix(content: Content, n: nat)
    requires n <= |content|
    ensures n < |content| ==> content[..n] + [content[n]] == content[..n + 1]
    ensures n == |content| ==> content[..n] == content
  {
  }

  lemma WeakerAlone(s: State, t: Tid, key: Key)
    ensures Alone(s.threads, t, key, true) ==> Alone(s.threads, t, key, false)
  {
  }

  /** Nobody else writes the file, and neither does the thread itself. */
  lemma FileWhole(files: map<Key, Content>, s: State, t: Tid, key: Key, saves: set<Content>)
    requires WholeInv(files, s, key, saves) && Alone(s.threads, t, key, false) && !Bars(PcOf(s, t), key, false)
    ensures Whole(files, saves, key, FileOf(s.files, key))
  {
    assert Unwritten(s.threads, key);
  }

  /** A file that is not there is not being written. */
  lemma MissingAlone(files: map<Key, Content>, s: State, t: Tid, key: Key, saves: set<Content>)
    requires WholeInv(files, s, key, saves) && key !in s.files
    ensures Alone(s.threads, t, key, false)
  {
    forall u: Tid ensures !Bars(At(s.threads, u), key, false) {
      assert PlaceOk(files, s.files, PcOf(s, u), key, saves);
    }
  }

  lemma LoadedItems(s: State, t: Tid, key: Key, saves: set<Content>)
    requires ItemsKnown(s.items, key, saves) && Loading(PcOf(s, t))
    ensures ItemsKnown(Fetched(s, t, PcOf(s, t)).items, key, saves)
  {
    hide Barred, LockOf, SlotOf;
  }

  /** The file as a load of it finds it before its next step, unless that step meets a writer's handle. */
  lemma ReaderFinds(files: map<Key, Content>, s: State, t: Tid, key: Key, saves: set<Content>)
    requires WholeInv(files, s, key, saves) && (PcOf(s, t).Probe? || PcOf(s, t).Reading?) && PcOf(s, t).w.job.key == key
    requires PcOf(s, t).Probe? && key in s.files ==> !Barred(s, t, key, false)
    ensures Alone(s.threads, t, key, false) && Whole(files, saves, key, FileOf(s.files, key))
  {
    hide Whole, PlaceOk, ItemsKnown, TraceWhole;
    AloneIsUnbarred(s, t, key, false);
    HandleAlone(s, t, key);
    if key !in s.files {
      MissingAlone(files, s, t, key, saves);
    }
    FileWhole(files, s, t, key, saves);
  }

  /** What it has read and what it will return. */
  lemma ReadOn(files: map<Key, Content>, s: State, t: Tid, key: Key, saves: set<Content>)
    requires WholeInv(files, s, key, saves) && (PcOf(s, t).Probe? || PcOf(s, t).Reading?) && PcOf(s, t).w.job.key == key
    requires Whole(files, saves, key, FileOf(s.files, key))
    ensures var s' := Fetched(s, t, PcOf(s, t)); PlaceOk(files, s'.files, PcOf(s', t), key, saves)
  {
    hide Whole, ItemsKnown, TraceWhole, Handles, Barred;
    var pc := PcOf(s, t);
    assert PlaceOk(files, s.files, pc, key, saves);
    if pc.Reading? {
      NextElement(pc.buffer, s.files[key]);
    }
  }

  lemma ReadKeepsWhole(files: map<Key, Content>, s: State, t: Tid, key: Key, saves: set<Content>)
    requires WholeInv(files, s, key, saves) && (PcOf(s, t).Probe? || PcOf(s, t).Reading?) && PcOf(s, t).w.job.key == key
    requires PcOf(s, t).Probe? && key in s.files ==> !Barred(s, t, key, false)
    ensures WholeInv(files, Fetched(s, t, PcOf(s, t)), key, saves)
  {
    hide ItemsKnown, TraceWhole, Barred, Alone, Handles, Whole, PlaceOk;
    var s' := Fetched(s, t, PcOf(s, t));
    LoadedItems(s, t, key, saves);
    Moved(s.threads, s'.threads, t, PcOf(s', t));
    ReaderFinds(files, s, t, key, saves);
    ReadOn(files, s, t, key, saves);
    MoveKeeps(files, s, s', t, PcOf(s', t), key, saves);
  }

  lemma CloseKeepsWhole(files: map<Key, Content>, s: State, t: Tid, key: Key, saves: set<Content>)
    requires WholeInv(files, s, key, saves) && PcOf(s, t).LeaveReader?
    ensures WholeInv(files, Fetched(s, t, PcOf(s, t)), key, saves)
  {
    hide ItemsKnown, TraceWhole, LockOf, SlotOf, Handles, Whole, Unwritten;
    var pc, s' := PcOf(s, t), Fetched(s, t, PcOf(s, t));
    assert PlaceOk(files, s.files, pc, key, saves);
    hide PlaceOk;
    TraceGrows(files, s.trace, ReaderClosed(t, pc.w, pc.since, pc.result), key, saves);
    StepKeepsWhole(files, s, s', t, PcOf(s', t), key, saves);
  }

  lemma LoadKeepsWhole(files: map<Key, Content>, s: State, t: Tid, key: Key, saves: set<Content>)
    requires WholeInv(files, s, key, saves) && Loading(PcOf(s, t))
    ensures WholeInv(files, Fetched(s, t, PcOf(s, t)), key, saves)
  {
    hide ItemsKnown, TraceWhole, LockOf, Barred, Alone, SlotOf, Handles, Whole, PlaceOk, Unwritten;
    var pc := PcOf(s, t);
    if pc.LeaveReader? {
      CloseKeepsWhole(files, s, t, key, saves);
    } else if pc.w.job.key != key || (pc.Probe? && key in s.files && Barred(s, t, key, false)) {
      LoadedItems(s, t, key, saves);
      var s' := Fetched(s, t, pc);
      StepKeepsWhole(files, s, s', t, PcOf(s', t), key, saves);
    } else {
      ReadKeepsWhole(files, s, t, key, saves);
    }
  }

  lemma TakeKeepsWhole(files: map<Key, Content>, s: State, t: Tid, w: Work, queues: map<QueueId, seq<ItemId>>, key: Key,
                       saves: set<Content>)
    requires WholeInv(files, s, key, saves) && PcOf(s, t) == Idle && JobKnown(w.job, key, saves)
    ensures WholeInv(files, Goto(s, t, FirstPc(w)).(queues := queues), key, saves)
  {
    hide Whole, TraceWhole, ItemsKnown;
    var s' := Goto(s, t, FirstPc(w)).(queues := queues);
    Moved(s.threads, s'.threads, t, FirstPc(w));
    QuietKeeps(files, s, s', t, FirstPc(w), key, saves);
  }

  lemma ActKeepsWhole(files: map<Key, Content>, s: State, a: Action, key: Key, saves: set<Content>)
    requires WholeInv(files, s, key, saves) && !a.Advance? && (Saves(a, key) ==> a.job.save.value in saves)
    ensures WholeInv(files, Next(s, a), key, saves)
  {
    hide Whole, TraceWhole, PlaceOk, Handles, Unwritten, FirstPc;
    match a
    case Begin(t, job) =>
      if PcOf(s, t) == Idle {
        TakeKeepsWhole(files, s, t, Work(job, Direct), s.queues, key, saves);
      }
    case Submit(_, id, job) =>
      if id !in s.items {
        TraceGrows(files, s.trace, Submitted(id, job), key, saves);
        var s' := Next(s, a);
        assert JobKnown(job, key, saves) && ItemsKnown(s'.items, key, saves);
        assert forall u: Tid :: PcOf(s', u) == PcOf(s, u);
      }
    case Dequeue(t, queue) =>
      var q := QueueOf(s, queue);
      if PcOf(s, t) == Idle && q != [] && q[0] in s.items {
        TakeKeepsWhole(files, s, t, Work(s.items[q[0]].job, Queued(queue, q[0])), s.queues[queue := q[1..]], key, saves);
      }
    case Return(id) =>
      if id in s.items && s.items[id].released {
        TraceGrows(files, s.trace, Returned(id, s.items[id]), key, saves);
        assert forall u: Tid :: PcOf(Next(s, a), u) == PcOf(s, u);
      }
  }

  lemma EndKeepsWhole(files: map<Key, Content>, s: State, t: Tid, w: Work, again: bool, key: Key, saves: set<Content>)
    requires WholeInv(files, s, key, saves) && (PcOf(s, t).Requeue? || PcOf(s, t).Finish?)
    ensures WholeInv(files, Ended(s, t, w, again), key, saves)
  {
    hide Whole, TraceWhole;
    var s' := Ended(s, t, w, again);
    Moved(s.threads, s'.threads, t, Idle);
    QuietKeeps(files, s, s', t, Idle, key, saves);
  }

  lemma NextKeepsWhole(files: map<Key, Content>, s: State, a: Action, key: Key, saves: set<Content>)
    requires WholeInv(files, s, key, saves) && (Saves(a, key) ==> a.job.save.value in saves)
    ensures WholeInv(files, Next(s, a), key, saves)
  {
    hide WholeInv, Approached, EnterLock, Saved, Fetched, Ended;
    if a.Advance? {
      var t, pc := a.t, PcOf(s, a.t);
      if Approaching(pc) {
        ApproachKeepsWhole(files, s, t, key, saves);
      } else if pc.WantLock? {
        EnterKeepsWhole(files, s, t, pc.w, pc.l, key, saves);
      } else if Saving(pc) {
        SaveKeepsWhole(files, s, t, key, saves);
      } else if Loading(pc) {
        LoadKeepsWhole(files, s, t, key, saves);
      } else if pc.Requeue? || pc.Finish? {
        EndKeepsWhole(files, s, t, pc.w, pc.Requeue?, key, saves);
      }
    } else {
      ActKeepsWhole(files, s, a, key, saves);
    }
  }

  /** After any interleaving, whatever systems share the file. */
  lemma {:induction false} RunWhole(files: map<Key, Content>, actions: seq<Action>, key: Key, saves: set<Content>)
    requires forall i :: 0 <= i < |actions| && Saves(actions[i], key) ==> actions[i].job.save.value in saves
    ensures WholeInv(files, Run(files, actions), key, saves)
  {
    if actions != [] {
      hide WholeInv;
      RunWhole(files, actions[..|actions| - 1], key, saves);
      NextKeepsWhole(files, Run(files, actions[..|actions| - 1]), actions[|actions| - 1], key, saves);
    }
  }

  // ----- what it means -----

  /** In every run, through any number of systems, a load that closed returned the initial file or one save, whole. */
  lemma LoadsAreWhole(files: map<Key, Content>, actions: seq<Action>, j: nat)
    requires j < |Run(files, actions).trace| && Run(files, actions).trace[j].ReaderClosed?
    ensures var e := Run(files, actions).trace[j];
            var key := e.w.job.key;
            e.result == FileOf(files, key)
            || exists i :: 0 <= i < |actions| && Saves(actions[i], key) && e.result == actions[i].job.save
  {
    hide Run;
    var key := Run(files, actions).trace[j].w.job.key;
    RunWhole(files, actions, key, SavesOf(actions, key));
  }
}
