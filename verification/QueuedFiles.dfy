/**
 * What clients of queued file systems are told about a file that is used through theirs only, in any interleaving,
 * whatever other systems and direct callers do with other files.
 */
module QueuedFiles {
  import opened Basics
  import opened SharedFiles
  import opened FileContents

  predicate OnItem(pc: Pc, id: ItemId) {
    !pc.Idle? && pc.w.origin.Queued? && pc.w.origin.id == id
  }

  /** Event j is the end of the section that carried out an item, and it lies after the item's submission. */
  predicate DoneAt(trace: seq<Event>, j: nat, id: ItemId, item: Item)
    requires j < |trace|
  {
    var e := trace[j];
    && item.submitted < j
    && if item.job.save.None? then
         e.ReaderClosed? && e.w == Work(item.job, Queued(item.queue, id)) && item.submitted < e.since && item.output == Some(e.result)
       else e.WriterClosed? && e.w == Work(item.job, Queued(item.queue, id))
  }

  ghost predicate Done(trace: seq<Event>, n: nat, id: ItemId, item: Item)
    requires n <= |trace|
  {
    exists j :: 0 <= j < n && DoneAt(trace, j, id, item)
  }

  ghost predicate ItemOk(s: State, id: ItemId, item: Item) {
    && item.submitted < |s.trace| && s.trace[item.submitted] == Submitted(id, item.job)
    && (item.released ==> Done(s.trace, |s.trace|, id, item))
  }

  ghost predicate ItemsOk(s: State) {
    forall id :: id in s.items ==> ItemOk(s, id, s.items[id])
  }

  /** The item a thread works on is unreleased, and its progress shows in the item. */
  ghost predicate WorkOk(s: State, pc: Pc) {
    !pc.Idle? && pc.w.origin.Queued? ==>
      var id := pc.w.origin.id;
      && id in s.items && s.items[id].job == pc.w.job && s.items[id].queue == pc.w.origin.queue && !s.items[id].released
      && (Loading(pc) ==> s.items[id].submitted < pc.since)
      && (pc.LeaveReader? ==> s.items[id].output == Some(pc.result))
      && (pc.Finish? ==> Done(s.trace, |s.trace|, id, s.items[id]))
  }

  ghost predicate WorkersOk(s: State) {
    forall t: Tid :: WorkOk(s, PcOf(s, t))
  }

  predicate Waiting(s: State, queue: QueueId, i: int, id: ItemId) {
    0 <= i < |QueueOf(s, queue)| && QueueOf(s, queue)[i] == id
  }

  /** Every item is in one place at most: one position of its queue, or one thread's hands. */
  ghost predicate Exclusive(s: State) {
    && (forall t: Tid, u: Tid, id :: OnItem(PcOf(s, t), id) && OnItem(PcOf(s, u), id) ==> t == u)
    && (forall q, i, id :: Waiting(s, q, i, id) ==> id in s.items && !s.items[id].released && s.items[id].queue == q)
    && (forall q, i, j, id :: Waiting(s, q, i, id) && Waiting(s, q, j, id) ==> i == j)
    && (forall q, i, id, t: Tid :: Waiting(s, q, i, id) ==> !OnItem(PcOf(s, t), id))
  }

  ghost predicate ReturnsOk(trace: seq<Event>) {
    forall k :: 0 <= k < |trace| && trace[k].Returned? ==> Done(trace, k, trace[k].id, trace[k].item)
  }

  ghost predicate QueueInv(s: State) {
    ItemsOk(s) && WorkersOk(s) && Exclusive(s) && ReturnsOk(s.trace)
  }

  // ----- growing traces -----

  lemma DoneGrows(trace: seq<Event>, trace': seq<Event>, n: nat, id: ItemId, item: Item)
    requires trace <= trace' && n <= |trace| && Done(trace, n, id, item)
    ensures Done(trace', n, id, item)
    ensures forall m :: n <= m <= |trace'| ==> Done(trace', m, id, item)
  {
    var j :| 0 <= j < n && DoneAt(trace, j, id, item);
    assert trace'[j] == trace[j];
    assert DoneAt(trace', j, id, item);
  }

  lemma ReturnsGrow(trace: seq<Event>, trace': seq<Event>)
    requires ReturnsOk(trace) && trace <= trace' && |trace'| <= |trace| + 1
    requires |trace'| > |trace| && trace'[|trace|].Returned? ==>
             Done(trace, |trace|, trace'[|trace|].id, trace'[|trace|].item)
    ensures ReturnsOk(trace')
  {
    forall k | 0 <= k < |trace'| && trace'[k].Returned? ensures Done(trace', k, trace'[k].id, trace'[k].item) {
      if k < |trace| {
        assert trace'[k] == trace[k];
        assert Done(trace, k, trace[k].id, trace[k].item);
        DoneGrows(trace, trace', k, trace'[k].id, trace'[k].item);
      } else {
        DoneGrows(trace, trace', k, trace'[k].id, trace'[k].item);
      }
    }
  }

  // ----- one thread moves -----

  /** Items change only in what the moving thread's own item records. */
  ghost predicate OwnItemOnly(s: State, s': State, pc: Pc) {
    && s'.items.Keys == s.items.Keys
    && forall id :: id in s.items ==>
         && s'.items[id].job == s.items[id].job && s'.items[id].queue == s.items[id].queue
         && s'.items[id].submitted == s.items[id].submitted
         && (s'.items[id] != s.items[id] ==> OnItem(pc, id))
  }

  lemma ThreadMove(s: State, s': State, t: Tid, pc: Pc)
    requires QueueInv(s) && s'.threads == s.threads[t := pc] && s'.queues == s.queues
    requires OwnItemOnly(s, s', PcOf(s, t))
    requires s.trace <= s'.trace && |s'.trace| <= |s.trace| + 1
    requires |s'.trace| > |s.trace| ==> !s'.trace[|s.trace|].Returned?
    requires forall id :: OnItem(pc, id) ==> OnItem(PcOf(s, t), id)
    requires WorkOk(s', pc)
    requires forall id :: id in s'.items && OnItem(PcOf(s, t), id) && s'.items[id].released ==>
               !OnItem(pc, id) && Done(s'.trace, |s'.trace|, id, s'.items[id])
    ensures QueueInv(s')
  {
    hide DoneAt, Done;
    Moved(s.threads, s'.threads, t, pc);
    forall id | id in s'.items ensures ItemOk(s', id, s'.items[id]) {
      assert ItemOk(s, id, s.items[id]);
      if s'.items[id] == s.items[id] && s.items[id].released {
        DoneGrows(s.trace, s'.trace, |s.trace|, id, s.items[id]);
      }
    }
    forall u: Tid ensures WorkOk(s', PcOf(s', u)) {
      if u != t {
        OtherWorker(s, s', t, u);
      }
    }
    ReturnsGrow(s.trace, s'.trace);
    forall q, i, id | Waiting(s', q, i, id) ensures id in s'.items && !s'.items[id].released && s'.items[id].queue == q {
      assert Waiting(s, q, i, id) && !OnItem(PcOf(s, t), id);
    }
    forall q, i, id, u: Tid | Waiting(s', q, i, id) ensures !OnItem(PcOf(s', u), id) {
      assert Waiting(s, q, i, id) && !OnItem(PcOf(s, u), id) && !OnItem(PcOf(s, t), id);
    }
    forall q, i, j, id | Waiting(s', q, i, id) && Waiting(s', q, j, id) ensures i == j {
      assert Waiting(s, q, i, id) && Waiting(s, q, j, id);
    }
    forall u: Tid, v: Tid, id | OnItem(PcOf(s', u), id) && OnItem(PcOf(s', v), id) ensures u == v {
      assert OnItem(PcOf(s, u), id) && OnItem(PcOf(s, v), id);
    }
  }

  lemma OtherWorker(s: State, s': State, t: Tid, u: Tid)
    requires QueueInv(s) && u != t && OwnItemOnly(s, s', PcOf(s, t)) && s.trace <= s'.trace
    ensures WorkOk(s', PcOf(s, u))
  {
    hide DoneAt, Done;
    var pc := PcOf(s, u);
    assert WorkOk(s, pc);
    if !pc.Idle? && pc.w.origin.Queued? {
      var id := pc.w.origin.id;
      assert OnItem(pc, id) && !OnItem(PcOf(s, t), id);
      assert s'.items[id] == s.items[id];
      if pc.Finish? {
        DoneGrows(s.trace, s'.trace, |s.trace|, id, s.items[id]);
      }
    }
  }

  /** The section that just closed is the evidence that its item is done. */
  lemma ClosedIsDone(s: State, e: Event, id: ItemId, item: Item)
    requires item.submitted < |s.trace|
    requires if item.job.save.None? then
               e.ReaderClosed? && e.w == Work(item.job, Queued(item.queue, id)) && item.submitted < e.since && item.output == Some(e.result)
             else e.WriterClosed? && e.w == Work(item.job, Queued(item.queue, id))
    ensures Done(s.trace + [e], |s.trace| + 1, id, item)
  {
    assert DoneAt(s.trace + [e], |s.trace|, id, item);
  }

  lemma FinishMove(s: State, t: Tid, w: Work)
    requires QueueInv(s) && PcOf(s, t) == Finish(w) && WorkOk(s, PcOf(s, t))
    ensures QueueInv(Advanced(s, t))
  {
    hide ItemsOk, Exclusive, ReturnsOk;
    if w.origin.Queued? {
      var id := w.origin.id;
      var j :| 0 <= j < |s.trace| && DoneAt(s.trace, j, id, s.items[id]);
      assert DoneAt(s.trace, j, id, s.items[id].(released := true));
    }
    ThreadMove(s, Advanced(s, t), t, Idle);
  }

  /** What a step changes of the queue's side of things, when it neither closes a section nor releases a client. */
  ghost predicate PlainEffect(s: State, s': State, t: Tid, pc: Pc) {
    && s'.threads == s.threads[t := pc] && s'.queues == s.queues
    && OwnItemOnly(s, s', PcOf(s, t))
    && s.trace <= s'.trace && |s'.trace| <= |s.trace| + 1
    && (|s'.trace| > |s.trace| ==> !s'.trace[|s.trace|].Returned?)
    && !pc.Idle? && !PcOf(s, t).Idle? && pc.w == PcOf(s, t).w
    && (pc.w.origin.Queued? && pc.w.origin.id in s.items ==> s'.items[pc.w.origin.id].released == s.items[pc.w.origin.id].released)
    && WorkOk(s', pc)
  }

  /** Neither items nor queue nor trace change, and the thread stays outside every read section. */
  lemma SilentEffect(s: State, s': State, t: Tid, pc: Pc)
    requires WorkOk(s, PcOf(s, t)) && !PcOf(s, t).Idle? && !pc.Idle? && pc.w == PcOf(s, t).w && !Loading(pc) && !pc.Finish?
    requires s'.threads == s.threads[t := pc] && s'.queues == s.queues && s'.items == s.items && s'.trace == s.trace
    ensures PlainEffect(s, s', t, pc)
  {
  }

  lemma ApproachStep(s: State, t: Tid)
    requires Approaching(PcOf(s, t)) && WorkOk(s, PcOf(s, t))
    ensures PlainEffect(s, Approached(s, t, PcOf(s, t)), t, NextPlace(s.locks, t, PcOf(s, t)))
  {
    hide PlainEffect, WorkOk, NextPlace, NextLocks;
    ApproachOutside(s.locks, t, PcOf(s, t));
    SilentEffect(s, Approached(s, t, PcOf(s, t)), t, NextPlace(s.locks, t, PcOf(s, t)));
  }

  lemma WriteStep(s: State, t: Tid)
    requires (PcOf(s, t).Truncate? || PcOf(s, t).Writing?) && WorkOk(s, PcOf(s, t))
    ensures var s' := Saved(s, t, PcOf(s, t)); PlainEffect(s, s', t, PcOf(s', t))
  {
    hide PlainEffect, WorkOk, LockOf, Barred;
    var s' := Saved(s, t, PcOf(s, t));
    SilentEffect(s, s', t, PcOf(s', t));
  }

  lemma EnterStep(s: State, t: Tid, w: Work, l: LockId)
    requires PcOf(s, t) == WantLock(w, l) && WorkOk(s, PcOf(s, t))
    requires w.origin.Queued? ==> w.origin.id in s.items && s.items[w.origin.id].submitted < |s.trace|
    ensures var s' := EnterLock(s, t, w, l); s' == s || PlainEffect(s, s', t, PcOf(s', t))
  {
    hide DoneAt, Done, LockOf, EnterLock;
    EnterEffect(s, t, w, l);
  }

  lemma ReadStep(s: State, t: Tid)
    requires (PcOf(s, t).Probe? || PcOf(s, t).Reading?) && WorkOk(s, PcOf(s, t))
    ensures var s' := Fetched(s, t, PcOf(s, t)); PlainEffect(s, s', t, PcOf(s', t))
  {
    hide DoneAt, Done, Barred, LockOf, Held, SlotOf;
  }

  /** The steps that neither close a section nor release a client. */
  predicate Plain(pc: Pc) {
    Approaching(pc) || pc.WantLock? || pc.Truncate? || pc.Writing? || pc.Probe? || pc.Reading?
  }

  lemma PlainStep(s: State, t: Tid)
    requires WorkOk(s, PcOf(s, t)) && Plain(PcOf(s, t))
    requires var pc := PcOf(s, t);
      pc.w.origin.Queued? ==> pc.w.origin.id in s.items && s.items[pc.w.origin.id].submitted < |s.trace|
    ensures var s' := Advanced(s, t); s' == s || exists pc :: PlainEffect(s, s', t, pc)
  {
    hide WorkOk, PlainEffect, Approached, EnterLock, Saved, Fetched;
    var pc := PcOf(s, t);
    if Approaching(pc) {
      ApproachStep(s, t);
    } else if pc.WantLock? {
      EnterStep(s, t, pc.w, pc.l);
    } else if Saving(pc) {
      WriteStep(s, t);
    } else {
      ReadStep(s, t);
    }
  }

  lemma PlainMove(s: State, t: Tid)
    requires QueueInv(s) && WorkOk(s, PcOf(s, t)) && Plain(PcOf(s, t))
    requires var pc := PcOf(s, t);
      pc.w.origin.Queued? ==> pc.w.origin.id in s.items && s.items[pc.w.origin.id].submitted < |s.trace|
    ensures QueueInv(Advanced(s, t))
  {
    hide DoneAt, Done, ItemsOk, Exclusive, ReturnsOk, WorkersOk, Advanced;
    PlainStep(s, t);
    var s' := Advanced(s, t);
    if s' != s {
      var pc :| PlainEffect(s, s', t, pc);
      ThreadMove(s, s', t, pc);
    }
  }

  lemma LeaveKeepsQueue(s: State, t: Tid)
    requires LockInv(s) && QueueInv(s) && (PcOf(s, t).LeaveWriter? || PcOf(s, t).LeaveReader?)
    ensures QueueInv(Advanced(s, t))
  {
    hide DoneAt, Done, LockInv, ItemsOk, Exclusive, ReturnsOk, LockOf, SlotOf;
    Facts(s, t);
    InHand(s, t);
    var pc, s' := PcOf(s, t), Advanced(s, t);
    var e := if pc.LeaveWriter? then WriterClosed(t, pc.w) else ReaderClosed(t, pc.w, pc.since, pc.result);
    if pc.w.origin.Queued? {
      ClosedIsDone(s, e, pc.w.origin.id, s.items[pc.w.origin.id]);
    }
    ThreadMove(s, s', t, AfterJob(pc.w));
  }

  lemma AdvanceKeepsQueue(s: State, t: Tid)
    requires LockInv(s) && QueueInv(s)
    ensures QueueInv(Advanced(s, t))
  {
    Facts(s, t);
    hide LockInv, QueueInv, WorkOk, HandOk;
    var pc := PcOf(s, t);
    if Plain(pc) {
      PlainMove(s, t);
    } else if pc.LeaveWriter? || pc.LeaveReader? {
      LeaveKeepsQueue(s, t);
    } else if pc.Finish? {
      FinishMove(s, t, pc.w);
    }
  }

  lemma Facts(s: State, t: Tid)
    requires LockInv(s) && QueueInv(s)
    ensures WorkOk(s, PcOf(s, t)) && HandOk(s.locks, PcOf(s, t)) && !PcOf(s, t).Requeue?
    ensures var pc := PcOf(s, t);
            !pc.Idle? && pc.w.origin.Queued? ==> pc.w.origin.id in s.items && s.items[pc.w.origin.id].submitted < |s.trace|
  {
    var pc := PcOf(s, t);
    assert HandOk(s.locks, pc);
    if !pc.Idle? && pc.w.origin.Queued? {
      assert ItemOk(s, pc.w.origin.id, s.items[pc.w.origin.id]);
    }
  }

  lemma DequeueKeeps(s: State, t: Tid, queue: QueueId)
    requires QueueInv(s) && PcOf(s, t) == Idle && QueueOf(s, queue) != [] && QueueOf(s, queue)[0] in s.items
    ensures QueueInv(Next(s, Dequeue(t, queue)))
  {
    hide DoneAt, Done;
    var id := QueueOf(s, queue)[0];
    var pc := FirstPc(Work(s.items[id].job, Queued(queue, id)));
    var s' := Next(s, Dequeue(t, queue));
    Moved(s.threads, s'.threads, t, pc);
    assert Waiting(s, queue, 0, id);
    forall u: Tid ensures WorkOk(s', PcOf(s', u)) {
      assert WorkOk(s, PcOf(s, u));
    }
    forall q, i, k | Waiting(s', q, i, k) ensures Waiting(s, q, if q == queue then i + 1 else i, k) && k != id {
      if q == queue {
        assert Waiting(s, q, i + 1, k);
      } else {
        assert Waiting(s, q, i, k);
        assert s.items[k].queue == q;
      }
    }
    forall q, i, j, k | Waiting(s', q, i, k) && Waiting(s', q, j, k) ensures i == j {
      assert Waiting(s, q, if q == queue then i + 1 else i, k) && Waiting(s, q, if q == queue then j + 1 else j, k);
    }
    forall q, i, k, u: Tid | Waiting(s', q, i, k) ensures !OnItem(PcOf(s', u), k) {
      assert Waiting(s, q, if q == queue then i + 1 else i, k) && k != id && !OnItem(PcOf(s, u), k);
    }
    forall u: Tid, v: Tid, k | OnItem(PcOf(s', u), k) && OnItem(PcOf(s', v), k) ensures u == v {
      assert !OnItem(PcOf(s, u), id) && !OnItem(PcOf(s, v), id);
    }
    assert forall k :: k in s.items ==> ItemOk(s, k, s.items[k]) ==> ItemOk(s', k, s'.items[k]);
  }

  lemma SubmitItems(s: State, queue: QueueId, id: ItemId, job: Job)
    requires QueueInv(s) && id !in s.items
    ensures ItemsOk(Next(s, Submit(queue, id, job))) && ReturnsOk(Next(s, Submit(queue, id, job)).trace)
  {
    hide DoneAt, Done, WorkersOk, Exclusive;
    var s' := Next(s, Submit(queue, id, job));
    forall k | k in s'.items ensures ItemOk(s', k, s'.items[k]) {
      if k != id {
        assert ItemOk(s, k, s.items[k]);
        if s.items[k].released {
          DoneGrows(s.trace, s'.trace, |s.trace|, k, s.items[k]);
        }
      }
    }
    ReturnsGrow(s.trace, s'.trace);
  }

  lemma SubmitKeeps(s: State, queue: QueueId, id: ItemId, job: Job)
    requires QueueInv(s) && id !in s.items
    ensures QueueInv(Next(s, Submit(queue, id, job)))
  {
    hide DoneAt, Done, ItemsOk, ReturnsOk;
    var s' := Next(s, Submit(queue, id, job));
    SubmitItems(s, queue, id, job);
    assert forall u: Tid :: PcOf(s', u) == PcOf(s, u);
    forall u: Tid ensures WorkOk(s', PcOf(s', u)) && !OnItem(PcOf(s', u), id) {
      var pc := PcOf(s, u);
      assert WorkOk(s, pc);
      if pc.Finish? && pc.w.origin.Queued? {
        DoneGrows(s.trace, s'.trace, |s.trace|, pc.w.origin.id, s.items[pc.w.origin.id]);
      }
    }
    hide WorkOk;
    forall q, i, k | Waiting(s', q, i, k)
      ensures Waiting(s, q, i, k) || (q == queue && i == |QueueOf(s, queue)| && k == id)
    {
    }
    assert Exclusive(s');
  }

  lemma ReturnKeeps(s: State, id: ItemId)
    requires QueueInv(s) && id in s.items && s.items[id].released
    ensures QueueInv(Next(s, Return(id)))
  {
    hide DoneAt, Done;
    var s' := Next(s, Return(id));
    assert forall u: Tid :: PcOf(s', u) == PcOf(s, u);
    assert ItemOk(s, id, s.items[id]);
    forall k | k in s'.items ensures ItemOk(s', k, s'.items[k]) {
      assert ItemOk(s, k, s.items[k]);
      if s.items[k].released {
        DoneGrows(s.trace, s'.trace, |s.trace|, k, s.items[k]);
      }
    }
    forall u: Tid ensures WorkOk(s', PcOf(s', u)) {
      var pc := PcOf(s, u);
      assert WorkOk(s, pc);
      if pc.Finish? && pc.w.origin.Queued? {
        DoneGrows(s.trace, s'.trace, |s.trace|, pc.w.origin.id, s.items[pc.w.origin.id]);
      }
    }
    ReturnsGrow(s.trace, s'.trace);
    assert forall q, i, k :: Waiting(s', q, i, k) == Waiting(s, q, i, k);
    assert Exclusive(s');
  }

  lemma NextKeepsQueue(s: State, a: Action)
    requires LockInv(s) && QueueInv(s)
    ensures QueueInv(Next(s, a))
  {
    hide LockInv, QueueInv;
    match a
    case Begin(t, job) => BeginKeeps(s, t, job);
    case Submit(queue, id, job) => if id !in s.items { SubmitKeeps(s, queue, id, job); }
    case Dequeue(t, queue) =>
      if PcOf(s, t) == Idle && QueueOf(s, queue) != [] && QueueOf(s, queue)[0] in s.items { DequeueKeeps(s, t, queue); }
    case Advance(t) => AdvanceKeepsQueue(s, t);
    case Return(id) => if id in s.items && s.items[id].released { ReturnKeeps(s, id); }
  }

  lemma BeginKeeps(s: State, t: Tid, job: Job)
    requires QueueInv(s)
    ensures QueueInv(Next(s, Begin(t, job)))
  {
    hide DoneAt, Done, ItemsOk, Exclusive, ReturnsOk, WorkersOk;
    if PcOf(s, t) == Idle {
      ThreadMove(s, Next(s, Begin(t, job)), t, FirstPc(Work(job, Direct)));
    }
  }

  /** What queues, workers and items promise, whatever systems share the files. */
  lemma {:induction false} RunQueueInv(files: map<Key, Content>, actions: seq<Action>)
    ensures QueueInv(Run(files, actions))
  {
    if actions != [] {
      hide LockInv, QueueInv;
      var before := actions[..|actions| - 1];
      RunQueueInv(files, before);
      RunLockInv(files, before);
      NextKeepsQueue(Run(files, before), actions[|actions| - 1]);
    }
  }

  // ----- what clients are told -----

  /**
   * A queued load of a file that is used through this queued file system only, in any interleaving: the client is
   * told, whole, the content of the last save that was closed before a read section that opened after the client
   * submitted its request.
   */
  lemma QueuedLoad(files: map<Key, Content>, actions: seq<Action>, k: nat)
    requires k < |Run(files, actions).trace| && Run(files, actions).trace[k].Returned?
    requires Run(files, actions).trace[k].item.job.save.None?
    requires var item := Run(files, actions).trace[k].item; OneSystem(actions, item.job.key, Private(item.queue))
    ensures var trace := Run(files, actions).trace;
            var item := trace[k].item;
            exists j :: 0 <= j < k && trace[j].ReaderClosed? && trace[j].since < j && item.submitted < trace[j].since
              && item.output == Some(Latest(files, trace[..trace[j].since], item.job.key))
  {
    hide Run;
    RunQueueInv(files, actions);
    var trace := Run(files, actions).trace;
    var j :| 0 <= j < k && DoneAt(trace, j, trace[k].id, trace[k].item);
    NoTornLoads(files, actions, trace[k].item.job.key, Private(trace[k].item.queue), j);
  }

  /** A save closed before position n shows in every later answer: the latest save lies at or after it. */
  lemma {:induction false} LatestIsLater(files: map<Key, Content>, trace: seq<Event>, i: nat, key: Key)
    requires i < |trace| && trace[i].WriterClosed? && trace[i].w.job.key == key
    ensures exists m :: i <= m < |trace| && trace[m].WriterClosed? && trace[m].w.job.key == key
              && Latest(files, trace, key) == Some(Payload(trace[m].w.job))
  {
    var last := trace[|trace| - 1];
    if last.WriterClosed? && last.w.job.key == key {
      assert Latest(files, trace, key) == Some(Payload(trace[|trace| - 1].w.job));
    } else {
      var before := trace[..|trace| - 1];
      LatestIsLater(files, before, i, key);
      var m :| i <= m < |before| && before[m].WriterClosed? && before[m].w.job.key == key
               && Latest(files, before, key) == Some(Payload(before[m].w.job));
      assert trace[m] == before[m];
    }
  }

  /**
   * Saves are seen: if a queued save had returned before a load of the same file was submitted, that load
   * returns the content of a save that closed no earlier than that one; it is never missing and never stale.
   */
  lemma SavesAreSeen(files: map<Key, Content>, actions: seq<Action>, saved: nat, loaded: nat)
    requires saved < loaded < |Run(files, actions).trace|
    requires var trace := Run(files, actions).trace;
      && trace[saved].Returned? && trace[saved].item.job.save.Some?
      && trace[loaded].Returned? && trace[loaded].item.job.save.None?
      && trace[loaded].item.job.key == trace[saved].item.job.key
      && OneSystem(actions, trace[loaded].item.job.key, Private(trace[loaded].item.queue)) && saved < trace[loaded].item.submitted
    ensures var trace := Run(files, actions).trace;
      exists i, m :: 0 <= i <= m < loaded && trace[i].WriterClosed? && i < saved
        && trace[i].w == Work(trace[saved].item.job, Queued(trace[saved].item.queue, trace[saved].id))
        && trace[m].WriterClosed? && trace[m].w.job.key == trace[saved].item.job.key
        && trace[loaded].item.output == Some(Some(Payload(trace[m].w.job)))
  {
    hide Run, Latest;
    RunQueueInv(files, actions);
    QueuedLoad(files, actions, loaded);
    var trace := Run(files, actions).trace;
    var key := trace[saved].item.job.key;
    var i :| 0 <= i < saved && DoneAt(trace, i, trace[saved].id, trace[saved].item);
    var j :| 0 <= j < loaded && trace[j].ReaderClosed? && trace[j].since < j && trace[loaded].item.submitted < trace[j].since
      && trace[loaded].item.output == Some(Latest(files, trace[..trace[j].since], key));
    var seen := trace[..trace[j].since];
    assert seen[i] == trace[i];
    LatestIsLater(files, seen, i, key);
    var m :| i <= m < |seen| && seen[m].WriterClosed? && seen[m].w.job.key == key
             && Latest(files, seen, key) == Some(Payload(seen[m].w.job));
    assert trace[m] == seen[m];
  }

  // ----- first in, first out -----

  /** The operations put into a queue over a run, and those that threads took from it. */
  function AllPut(files: map<Key, Content>, actions: seq<Action>, queue: QueueId): seq<ItemId> {
    if actions == [] then []
    else
      var before, a := actions[..|actions| - 1], actions[|actions| - 1];
      AllPut(files, before, queue)
      + if a.Submit? && a.queue == queue && a.id !in Run(files, before).items then [a.id] else []
  }

  function AllTaken(files: map<Key, Content>, actions: seq<Action>, queue: QueueId): seq<ItemId> {
    if actions == [] then []
    else
      var before, a := actions[..|actions| - 1], actions[|actions| - 1];
      AllTaken(files, before, queue) + TakenBy(Run(files, before), a, queue)
  }

  /** The operation that a thread has once it is no longer idle. */
  function TakenBy(s: State, a: Action, queue: QueueId): seq<ItemId> {
    if a.Dequeue? && a.queue == queue && PcOf(s, a.t).Idle? then
      var pc := PcOf(Next(s, a), a.t);
      if !pc.Idle? && pc.w.origin.Queued? then [pc.w.origin.id] else []
    else []
  }

  /** Operations are taken from a queue in the order in which they were submitted, and it holds the rest. */
  lemma {:induction false} TakenInOrder(files: map<Key, Content>, actions: seq<Action>, queue: QueueId)
    ensures AllPut(files, actions, queue) == AllTaken(files, actions, queue) + QueueOf(Run(files, actions), queue)
  {
    if actions != [] {
      var before, a := actions[..|actions| - 1], actions[|actions| - 1];
      var s := Run(files, before);
      TakenInOrder(files, before, queue);
      NeverRequeuedBy(files, before, a);
      hide Next, TakenBy, Run, QueueOf;
      var put := if a.Submit? && a.queue == queue && a.id !in s.items then [a.id] else [];
      QueueStep(s, a, queue);
      Associate(AllTaken(files, before, queue), QueueOf(s, queue), put);
      Associate(AllTaken(files, before, queue), TakenBy(s, a, queue), QueueOf(Next(s, a), queue));
    }
  }

  lemma NeverRequeuedBy(files: map<Key, Content>, actions: seq<Action>, a: Action)
    ensures a.Advance? ==> !PcOf(Run(files, actions), a.t).Requeue?
  {
    if a.Advance? {
      NeverRequeued(files, actions, a.t);
    }
  }

  lemma QueueStep(s: State, a: Action, queue: QueueId)
    requires a.Advance? ==> !PcOf(s, a.t).Requeue?
    ensures QueueOf(s, queue) + (if a.Submit? && a.queue == queue && a.id !in s.items then [a.id] else [])
            == TakenBy(s, a, queue) + QueueOf(Next(s, a), queue)
  {
    if a.Advance? {
      QueuesStay(s, a.t);
    } else {
      hide Advanced;
    }
  }

  /** Only submitting and dequeueing change a queue. */
  lemma QueuesStay(s: State, t: Tid)
    requires !PcOf(s, t).Requeue?
    ensures Advanced(s, t).queues == s.queues
  {
    hide LockOf, SpinOf, Barred, SlotOf, NextPlace, NextLocks, Payload;
  }
}
