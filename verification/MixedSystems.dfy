/** Why a file has to be used through one system: two systems have two lock dictionaries, and theirs do not exclude each other. */
module MixedSystems {
  import opened Basics
  import opened SharedFiles
  import opened FileContents
  import opened Arrivals

  // ----- two systems, one file -----

  /** A thread of one system goes into its section of the file, and then one of another system into its own. */
  function BothInside(a: System, first: Job, b: System, second: Job): seq<Action> {
    Arrival(a, 0, 0, first) + Arrival(b, 1, 1, second)
  }

  lemma BothArrive(a: System, first: Job, b: System, second: Job)
    requires a != b
    ensures var s1, s := Run(map[], Arrival(a, 0, 0, first)), Run(map[], BothInside(a, first, b, second));
            && Arrived(Initial(map[]), s1, a, 0, 0, first) && Arrived(s1, s, b, 1, 1, second)
  {
    hide Arrival, Arrived;
    var s0 := Run(map[], []);
    assert [] + Arrival(a, 0, 0, first) == Arrival(a, 0, 0, first);
    Arrives(map[], [], a, 0, 0, first);
    var s1 := Run(map[], Arrival(a, 0, 0, first));
    ReadyStays(s0, s1, a, 0, 0, first, b, 1, 1, second.key);
    Arrives(map[], Arrival(a, 0, 0, first), b, 1, 1, second);
  }

  /** Every use of the file is through one of two systems. */
  predicate Through(actions: seq<Action>, key: Key, a: System, b: System) {
    forall i :: 0 <= i < |actions| ==> Uses(actions[i], key, a) || Uses(actions[i], key, b)
  }

  lemma ThroughBoth(a: System, first: Job, b: System, second: Job, key: Key, after: seq<Action>)
    requires forall i :: 0 <= i < |after| ==> after[i].Advance?
    ensures Through(BothInside(a, first, b, second) + after, key, a, b)
  {
    assert forall i :: 0 <= i < |Arrival(a, 0, 0, first)| ==> Uses(Arrival(a, 0, 0, first)[i], key, a);
    assert forall i :: 0 <= i < |Arrival(b, 1, 1, second)| ==> Uses(Arrival(b, 1, 1, second)[i], key, b);
  }

  // ----- writers -----

  /** A save that leaves the file empty. */
  function Clearing(key: Key): Job {
    Job(key, Some([]))
  }

  function BothWriting(a: System, b: System, key: Key): seq<Action> {
    BothInside(a, Clearing(key), b, Clearing(key))
  }

  lemma BothWrite(a: System, b: System, key: Key)
    requires a != b
    ensures var s, c := Run(map[], BothWriting(a, b, key)), Clearing(key);
            && s.threads == map[0 := Truncate(WorkThrough(a, 0, c), 0), 1 := Truncate(WorkThrough(b, 1, c), 1)]
            && s.files == map[]
  {
    hide Arrival;
    BothArrive(a, Clearing(key), b, Clearing(key));
  }

  ghost predicate Excludes(a: System, b: System, key: Key) {
    forall files, actions, t: Tid, u: Tid :: t != u && InWriteSection(PcOf(Run(files, actions), t), Slot(a, key)) ==>
      !InWriteSection(PcOf(Run(files, actions), u), Slot(b, key))
  }

  /** Writers of a file exclude each other in every run if and only if they go through the same system. */
  lemma ExcludesIff(a: System, b: System, key: Key)
    ensures Excludes(a, b, key) <==> a == b
  {
    if a == b {
      forall files, actions, t: Tid, u: Tid | t != u && InWriteSection(PcOf(Run(files, actions), t), Slot(a, key))
        ensures !InWriteSection(PcOf(Run(files, actions), u), Slot(b, key))
      {
        WriterExcludes(files, actions, t, u, Slot(a, key));
      }
    } else {
      BothWrite(a, b, key);
      var s := Run(map[], BothWriting(a, b, key));
      assert InWriteSection(PcOf(s, 0), Slot(a, key)) && InWriteSection(PcOf(s, 1), Slot(b, key));
    }
  }

  ghost predicate Collides(files: map<Key, Content>, actions: seq<Action>, key: Key) {
    exists t: Tid :: var pc := PcOf(Run(files, actions), t); pc.Collided? && pc.w.job.key == key
  }

  /** No run of the two systems makes a File.Open of the file throw if and only if they are one system. */
  lemma CollisionFreeIff(a: System, b: System, key: Key)
    ensures (forall files, actions :: Through(actions, key, a, b) ==> !Collides(files, actions, key)) <==> a == b
  {
    hide BothInside, Run, Uses;
    if a == b {
      forall files, actions | Through(actions, key, a, b) ensures !Collides(files, actions, key) {
        forall t: Tid ensures var pc := PcOf(Run(files, actions), t); !(pc.Collided? && pc.w.job.key == key) {
          NoCollisions(files, actions, key, a, t);
        }
      }
    } else {
      var actions := BothWriting(a, b, key) + [Advance(0), Advance(1)];
      Collision(a, b, key);
      ThroughBoth(a, Clearing(key), b, Clearing(key), key, [Advance(0), Advance(1)]);
      assert Collides(map[], actions, key);
    }
  }

  lemma Opens(s: State, t: Tid, w: Work, l: LockId)
    requires PcOf(s, t) == Truncate(w, l)
    ensures var s' := Next(s, Advance(t));
            !Barred(s, t, w.job.key, true) ==> s'.threads == s.threads[t := Writing(w, l, 0)]
    ensures Barred(s, t, w.job.key, true) ==> PcOf(Next(s, Advance(t)), t) == Collided(w, l)
  {
    hide Barred;
  }

  /** The first opens the file, and the second meets its handle. */
  lemma Collision(a: System, b: System, key: Key)
    requires a != b
    ensures PcOf(Run(map[], BothWriting(a, b, key) + [Advance(0), Advance(1)]), 1)
            == Collided(WorkThrough(b, 1, Clearing(key)), 1)
  {
    hide BothWriting, Run, Next;
    BothWrite(a, b, key);
    var inside := BothWriting(a, b, key);
    var s := Run(map[], inside);
    RunSteps(map[], inside, [Advance(0), Advance(1)]);
    StepsAdd(s, [], Advance(0));
    StepsAdd(s, [Advance(0)], Advance(1));
    assert [] + [Advance(0)] == [Advance(0)] && [Advance(0)] + [Advance(1)] == [Advance(0), Advance(1)];
    Opens(s, 0, WorkThrough(a, 0, Clearing(key)), 0);
    var s1 := Next(s, Advance(0));
    assert Bars(s1.threads[0], key, true);
    Opens(s1, 1, WorkThrough(b, 1, Clearing(key)), 1);
  }

  // ----- a reader and a writer -----

  /** Every load of the file that closed returned the last save that had been closed when its section opened. */
  ghost predicate LoadsLatest(a: System, b: System, key: Key) {
    forall files, actions :: Through(actions, key, a, b) ==> TraceOk(files, Run(files, actions).trace, key)
  }

  /** Such loads are all there are in runs of the two systems if and only if they are one system. */
  lemma LoadsLatestIff(a: System, b: System, key: Key)
    ensures LoadsLatest(a, b, key) <==> a == b
  {
    hide Run, Uses, TraceOk, FileInv;
    if a == b {
      forall files, actions | Through(actions, key, a, b) ensures TraceOk(files, Run(files, actions).trace, key) {
        RunFileInv(files, actions, key, a);
        InvTrace(files, Run(files, actions), key, a);
      }
    } else {
      LateLoad(a, b, key);
      ThroughBoth(a, Job(key, None), b, Clearing(key), key, Three(1) + Three(0));
      assert !TraceOk(map[], Run(map[], Overtaken(a, b, key)).trace, key);
    }
  }

  lemma InvTrace(files: map<Key, Content>, s: State, key: Key, system: System)
    requires FileInv(files, s, key, system)
    ensures TraceOk(files, s.trace, key)
  {
  }

  /** A read section opens while the file is missing, a save through another system closes, and then the load goes on. */
  function Overtaken(a: System, b: System, key: Key): seq<Action> {
    BothInside(a, Job(key, None), b, Clearing(key)) + (Three(1) + Three(0))
  }

  lemma Closes(s: State, t: Tid, w: Work, l: LockId)
    requires PcOf(s, t) == Truncate(w, l) && w.job == Clearing(w.job.key) && SlotOf(w) in s.locks.entries
    requires !Barred(s, t, w.job.key, true)
    ensures var s' := Thrice(s, Advance(t));
            && s'.threads == s.threads[t := AfterJob(w)] && s'.files == s.files[w.job.key := []]
            && s'.locks.entries == s.locks.entries && s'.trace == s.trace + [WriterClosed(t, w)]
  {
    hide Barred, LockOf, SlotOf, Fetched, EnterLock, Approached, Ended;
    var s1 := Next(s, Advance(t));
    assert s1.threads == s.threads[t := Writing(w, l, 0)];
    var s2 := Next(s1, Advance(t));
    assert s2.threads == s.threads[t := LeaveWriter(w, l)];
    var s3 := Next(s2, Advance(t));
    assert s3.threads == s.threads[t := AfterJob(w)];
  }

  lemma Loads(s: State, t: Tid, w: Work, l: LockId, since: nat)
    requires PcOf(s, t) == Probe(w, l, since) && SlotOf(w) in s.locks.entries
    requires w.job.key in s.files && s.files[w.job.key] == [] && !Barred(s, t, w.job.key, false)
    ensures Thrice(s, Advance(t)).trace == s.trace + [ReaderClosed(t, w, since, Some([]))]
  {
    hide Barred, LockOf, SlotOf, Saved, EnterLock, Approached, Ended;
    var s1 := Next(s, Advance(t));
    assert s1.threads == s.threads[t := Reading(w, l, since, [])];
    var s2 := Next(s1, Advance(t));
    assert s2.threads == s.threads[t := LeaveReader(w, l, since, Some([]))];
  }

  lemma {:induction false} NothingSaved(files: map<Key, Content>, trace: seq<Event>, key: Key)
    requires NothingClosed([], trace)
    ensures Latest(files, trace, key) == FileOf(files, key)
  {
    if trace != [] {
      NothingSaved(files, trace[..|trace| - 1], key);
    }
  }

  /** The load returns what nobody had saved when its section opened. */
  lemma LateLoad(a: System, b: System, key: Key)
    requires a != b
    ensures !TraceOk(map[], Run(map[], Overtaken(a, b, key)).trace, key)
  {
    hide Arrival, Run, Next, Three, Thrice, SlotOf, WorkThrough, SystemOf, NoOpenAfter, Steps, BothInside;
    var load, save := Job(key, None), Clearing(key);
    BothArrive(a, load, b, save);
    var s1, s := Run(map[], Arrival(a, 0, 0, load)), Run(map[], BothInside(a, load, b, save));
    var v, w := WorkThrough(a, 0, load), WorkThrough(b, 1, save);
    ThroughFits(a, 0, load);
    ThroughFits(b, 1, save);
    ThreeIsThrice(s, 1);
    Closes(s, 1, w, 1);
    var s2 := Steps(s, Three(1));
    var since := |s1.trace| - 1;
    ThreeIsThrice(s2, 0);
    Loads(s2, 0, v, 0, since);
    InTwo(BothInside(a, load, b, save), Three(1), Three(0));
    var trace := Run(map[], Overtaken(a, b, key)).trace;
    assert NothingClosed([], s1.trace[..since]);
    NothingSaved(map[], s1.trace[..since], key);
    assert trace[..since] == s1.trace[..since];
    assert !ClosedOk(map[], trace, |trace| - 1);
  }

  lemma InTwo(before: seq<Action>, first: seq<Action>, second: seq<Action>)
    ensures Run(map[], before + (first + second)) == Steps(Steps(Run(map[], before), first), second)
  {
    hide Run, Steps;
    assert before + (first + second) == before + first + second;
    RunSteps(map[], before, first);
    RunSteps(map[], before + first, second);
  }
}
