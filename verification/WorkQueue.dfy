/** The generic queue of work items: workers take, process, and either requeue an item or release its client. */
module WorkQueue {
  import opened Basics

  type Tid = nat
  type ItemId = nat

  datatype ProcessResult = Success | FailThrow | FailRequeue

  /** What a worker holds: an item just dequeued, or one that ProcessQueue has returned a result for. */
  datatype Hand = Empty | Taken(id: ItemId) | Processed(id: ItemId)

  /** result is the QueueItem's field; isSet is its reset event. */
  datatype QueueItem = QueueItem(result: ProcessResult, isSet: bool)

  datatype Event =
    | Ran(id: ItemId, result: ProcessResult)   // one call of ProcessQueue
    | Released(id: ItemId, threw: bool)        // Execute returns, or throws, to the client

  datatype State = State(queue: seq<ItemId>, hands: map<Tid, Hand>, items: map<ItemId, QueueItem>, trace: seq<Event>)

  datatype Action =
    | Execute(id: ItemId)                      // a client enqueues a new item and waits
    | TryDequeue(t: Tid)
    | Process(t: Tid, result: ProcessResult)   // ProcessQueue may return anything
    | Dispatch(t: Tid)                         // the worker acts on the stored result
    | Wake(id: ItemId)                         // the client's wait is over

  function HandOf(s: State, t: Tid): Hand {
    if t in s.hands then s.hands[t] else Empty
  }

  function Next(s: State, a: Action): State {
    match a
    case Execute(id) =>
      if id in s.items then s
      else s.(queue := s.queue + [id], items := s.items[id := QueueItem(Success, false)])
    case TryDequeue(t) =>
      if HandOf(s, t) == Empty && s.queue != [] then
        s.(queue := s.queue[1..], hands := s.hands[t := Taken(s.queue[0])])
      else s
    case Process(t, result) =>
      var hand := HandOf(s, t);
      if hand.Taken? && hand.id in s.items then
        s.(hands := s.hands[t := Processed(hand.id)], items := s.items[hand.id := s.items[hand.id].(result := result)],
           trace := s.trace + [Ran(hand.id, result)])
      else s
    case Dispatch(t) =>
      var hand := HandOf(s, t);
      if hand.Processed? && hand.id in s.items then
        if s.items[hand.id].result == FailRequeue then
          s.(queue := s.queue + [hand.id], hands := s.hands[t := Empty])
        else
          s.(items := s.items[hand.id := s.items[hand.id].(isSet := true)], hands := s.hands[t := Empty])
      else s
    case Wake(id) =>
      if id in s.items && s.items[id].isSet then
        s.(trace := s.trace + [Released(id, s.items[id].result == FailThrow)])
      else s
  }

  const Start: State := State([], map[], map[], [])

  function Run(actions: seq<Action>): State {
    if actions == [] then Start else Next(Run(actions[..|actions| - 1]), actions[|actions| - 1])
  }

  // ----- where an item is -----

  predicate Holds(h: Hand, id: ItemId) {
    !h.Empty? && h.id == id
  }

  predicate InQueue(s: State, id: ItemId) {
    id in s.queue
  }

  ghost predicate InHands(s: State, id: ItemId) {
    exists t: Tid :: Holds(HandOf(s, t), id)
  }

  predicate Completed(s: State, id: ItemId) {
    id in s.items && s.items[id].isSet
  }

  /** No item is twice in the queue or in two workers' hands. */
  ghost predicate NeverTwice(s: State) {
    && (forall i, j :: 0 <= i < j < |s.queue| ==> s.queue[i] != s.queue[j])
    && (forall t: Tid, u: Tid, id :: Holds(HandOf(s, t), id) && Holds(HandOf(s, u), id) ==> t == u)
  }

  /** Exactly one of three. */
  predicate ExactlyOne(a: bool, b: bool, c: bool) {
    (a || b || c) && !(a && b) && !(a && c) && !(b && c)
  }

  ghost predicate Placed(s: State, id: ItemId) {
    if id in s.items then ExactlyOne(InQueue(s, id), InHands(s, id), Completed(s, id))
    else !InQueue(s, id) && !InHands(s, id)
  }

  /** The result of the last call of ProcessQueue on an item. */
  function LastRun(trace: seq<Event>, id: ItemId): Option<ProcessResult> {
    if trace == [] then None
    else
      var e := trace[|trace| - 1];
      if e.Ran? && e.id == id then Some(e.result) else LastRun(trace[..|trace| - 1], id)
  }

  /** The stored result is the last one returned, once there is one to act on. */
  ghost predicate ResultsOk(s: State) {
    && (forall t: Tid :: HandOf(s, t).Processed? && HandOf(s, t).id in s.items ==>
          LastRun(s.trace, HandOf(s, t).id) == Some(s.items[HandOf(s, t).id].result))
    && (forall id :: id in s.items && s.items[id].isSet ==>
          s.items[id].result != FailRequeue && LastRun(s.trace, id) == Some(s.items[id].result))
  }

  /** What the last call of ProcessQueue on an item asks for: to be done with it, or to call again. */
  predicate Done(last: Option<ProcessResult>) {
    last == Some(Success) || last == Some(FailThrow)
  }

  predicate ToRun(last: Option<ProcessResult>) {
    last == None || last == Some(FailRequeue)
  }

  /** Items are completed by a success or a failure, and wait in the queue for a first call or for another one. */
  ghost predicate PlacesOk(s: State) {
    && (forall id :: Completed(s, id) ==> Done(LastRun(s.trace, id)))
    && (forall id :: InQueue(s, id) ==> ToRun(LastRun(s.trace, id)))
    && (forall id :: id !in s.items ==> LastRun(s.trace, id) == None)
  }

  ghost predicate ReleasesOk(trace: seq<Event>) {
    forall k :: 0 <= k < |trace| && trace[k].Released? ==>
      var r := LastRun(trace[..k], trace[k].id);
      && r.Some? && r.value != FailRequeue && trace[k].threw == (r.value == FailThrow)
      && LastRun(trace, trace[k].id) == r
  }

  ghost predicate ReleasedAreSet(s: State) {
    forall k :: 0 <= k < |s.trace| && s.trace[k].Released? ==> Completed(s, s.trace[k].id)
  }

  ghost predicate Inv(s: State) {
    NeverTwice(s) && (forall id :: Placed(s, id)) && ResultsOk(s) && ReleasesOk(s.trace) && ReleasedAreSet(s)
    && PlacesOk(s)
  }

  // ----- every step keeps it -----

  lemma HandsAfter(s: State, s': State, t: Tid, h: Hand)
    requires s'.hands == s.hands[t := h]
    ensures forall u: Tid :: HandOf(s', u) == if u == t then h else HandOf(s, u)
  {
  }

  lemma LastRunAppend(trace: seq<Event>, e: Event, id: ItemId)
    ensures LastRun(trace + [e], id) == if e.Ran? && e.id == id then Some(e.result) else LastRun(trace, id)
  {
    assert (trace + [e])[..|trace|] == trace;
  }

  lemma ExecuteKeeps(s: State, id: ItemId)
    requires Inv(s) && id !in s.items
    ensures Inv(Next(s, Execute(id)))
  {
    hide LastRun, ReleasesOk;
    var s' := Next(s, Execute(id));
    assert Placed(s, id);
    assert forall t: Tid :: HandOf(s', t) == HandOf(s, t);
    forall k ensures Placed(s', k) {
      assert Placed(s, k);
      assert InHands(s', k) <==> InHands(s, k);
    }
    forall t: Tid | HandOf(s', t).Processed? && HandOf(s', t).id in s'.items
      ensures LastRun(s'.trace, HandOf(s', t).id) == Some(s'.items[HandOf(s', t).id].result)
    {
      assert Holds(HandOf(s, t), HandOf(s, t).id);
      assert HandOf(s, t).id != id;
    }
  }

  lemma DequeueKeeps(s: State, t: Tid)
    requires Inv(s) && HandOf(s, t) == Empty && s.queue != []
    ensures Inv(Next(s, TryDequeue(t)))
  {
    hide LastRun, ReleasesOk;
    var s' := Next(s, TryDequeue(t));
    var id := s.queue[0];
    HandsAfter(s, s', t, Taken(id));
    assert id in s.queue && Placed(s, id);
    forall k ensures Placed(s', k) {
      assert Placed(s, k);
      assert s.queue == [id] + s'.queue;
      assert k != id ==> (InQueue(s', k) <==> InQueue(s, k));
      if k == id {
        assert Holds(HandOf(s', t), id);
        forall j | 0 <= j < |s'.queue| ensures s'.queue[j] != id {
          assert s'.queue[j] == s.queue[j + 1];
        }
      } else {
        HandsElsewhere(s, s', t, k);
      }
    }
    forall u: Tid, v: Tid, k | Holds(HandOf(s', u), k) && Holds(HandOf(s', v), k) ensures u == v {
      if k == id {
        assert !InHands(s, id);
      }
    }
    forall i, j | 0 <= i < j < |s'.queue| ensures s'.queue[i] != s'.queue[j] {
      assert s.queue[i + 1] != s.queue[j + 1];
    }
  }

  /** An item that neither hand of t is about stays in the same hands. */
  lemma HandsElsewhere(s: State, s': State, t: Tid, k: ItemId)
    requires forall u: Tid :: u != t ==> HandOf(s', u) == HandOf(s, u)
    requires !Holds(HandOf(s, t), k) && !Holds(HandOf(s', t), k)
    ensures InHands(s', k) <==> InHands(s, k)
  {
    if InHands(s, k) {
      var u: Tid :| Holds(HandOf(s, u), k);
      assert Holds(HandOf(s', u), k);
    }
    if InHands(s', k) {
      var u: Tid :| Holds(HandOf(s', u), k);
      assert Holds(HandOf(s, u), k);
    }
  }

  lemma ProcessKeeps(s: State, t: Tid, result: ProcessResult)
    requires Inv(s) && HandOf(s, t).Taken? && HandOf(s, t).id in s.items
    ensures Inv(Next(s, Process(t, result)))
  {
    hide LastRun;
    var s' := Next(s, Process(t, result));
    var id := HandOf(s, t).id;
    HandsAfter(s, s', t, Processed(id));
    assert Holds(HandOf(s, t), id) && Placed(s, id);
    forall k ensures Placed(s', k) {
      assert Placed(s, k);
      if k == id {
        assert Holds(HandOf(s', t), id);
      } else {
        HandsElsewhere(s, s', t, k);
      }
    }
    forall k { LastRunAppend(s.trace, Ran(id, result), k); }
    forall u: Tid, v: Tid, k | Holds(HandOf(s', u), k) && Holds(HandOf(s', v), k) ensures u == v {
      assert Holds(HandOf(s, u), k) && Holds(HandOf(s, v), k);
    }
    forall u: Tid | HandOf(s', u).Processed? && HandOf(s', u).id in s'.items
      ensures LastRun(s'.trace, HandOf(s', u).id) == Some(s'.items[HandOf(s', u).id].result)
    {
      if u != t {
        assert Holds(HandOf(s, u), HandOf(s, u).id);
        assert HandOf(s, u).id != id;
      }
    }
    ReleasesGrow(s, s', Ran(id, result));
  }

  lemma ReleasesGrow(s: State, s': State, e: Event)
    requires ReleasesOk(s.trace) && ReleasedAreSet(s) && s'.trace == s.trace + [e]
    requires e.Ran? ==> !Completed(s, e.id)
    requires e.Released? ==>
      var r := LastRun(s.trace, e.id); r.Some? && r.value != FailRequeue && e.threw == (r.value == FailThrow)
    ensures ReleasesOk(s'.trace)
  {
    hide LastRun;
    forall k | 0 <= k < |s'.trace| && s'.trace[k].Released?
      ensures var r := LastRun(s'.trace[..k], s'.trace[k].id);
              && r.Some? && r.value != FailRequeue && s'.trace[k].threw == (r.value == FailThrow)
              && LastRun(s'.trace, s'.trace[k].id) == r
    {
      LastRunAppend(s.trace, e, s'.trace[k].id);
      if k < |s.trace| {
        assert s'.trace[..k] == s.trace[..k] && s'.trace[k] == s.trace[k];
      } else {
        assert s'.trace[..k] == s.trace;
      }
    }
  }

  lemma DispatchKeeps(s: State, t: Tid)
    requires Inv(s) && HandOf(s, t).Processed? && HandOf(s, t).id in s.items
    ensures Inv(Next(s, Dispatch(t)))
  {
    hide LastRun, ReleasesOk;
    var s' := Next(s, Dispatch(t));
    var id := HandOf(s, t).id;
    HandsAfter(s, s', t, Empty);
    assert Holds(HandOf(s, t), id) && Placed(s, id);
    forall k ensures Placed(s', k) {
      assert Placed(s, k);
      if k == id {
        forall u: Tid ensures !Holds(HandOf(s', u), id) {
          assert Holds(HandOf(s', u), id) ==> Holds(HandOf(s, u), id);
        }
      } else {
        HandsElsewhere(s, s', t, k);
      }
    }
    forall u: Tid, v: Tid, k | Holds(HandOf(s', u), k) && Holds(HandOf(s', v), k) ensures u == v {
      assert Holds(HandOf(s, u), k) && Holds(HandOf(s, v), k);
    }
    forall u: Tid | HandOf(s', u).Processed? && HandOf(s', u).id in s'.items
      ensures LastRun(s'.trace, HandOf(s', u).id) == Some(s'.items[HandOf(s', u).id].result)
    {
      assert Holds(HandOf(s, u), HandOf(s, u).id);
    }
  }

  lemma WakeKeeps(s: State, id: ItemId)
    requires Inv(s) && Completed(s, id)
    ensures Inv(Next(s, Wake(id)))
  {
    hide LastRun, ReleasesOk;
    var s' := Next(s, Wake(id));
    var e := Released(id, s.items[id].result == FailThrow);
    assert forall t: Tid :: HandOf(s', t) == HandOf(s, t);
    forall k ensures Placed(s', k) {
      assert Placed(s, k);
      assert InHands(s', k) <==> InHands(s, k);
    }
    forall k { LastRunAppend(s.trace, e, k); }
    ReleasesGrow(s, s', e);
  }

  lemma NextKeeps(s: State, a: Action)
    requires Inv(s)
    ensures Inv(Next(s, a))
  {
    hide Inv;
    match a
    case Execute(id) => if id !in s.items { ExecuteKeeps(s, id); }
    case TryDequeue(t) => if HandOf(s, t) == Empty && s.queue != [] { DequeueKeeps(s, t); }
    case Process(t, result) =>
      if HandOf(s, t).Taken? && HandOf(s, t).id in s.items { ProcessKeeps(s, t, result); }
    case Dispatch(t) => if HandOf(s, t).Processed? && HandOf(s, t).id in s.items { DispatchKeeps(s, t); }
    case Wake(id) => if Completed(s, id) { WakeKeeps(s, id); }
  }

  lemma {:induction false} RunInv(actions: seq<Action>)
    ensures Inv(Run(actions))
  {
    if actions != [] {
      RunInv(actions[..|actions| - 1]);
      NextKeeps(Run(actions[..|actions| - 1]), actions[|actions| - 1]);
    }
  }

  // ----- what it means -----

  /**
   * Conservation: whatever the workers, the results and the interleaving, every submitted item is in exactly one
   * of three places, in the queue, in a worker's hands, or completed; and in no place twice.
   */
  lemma Conservation(actions: seq<Action>, id: ItemId)
    requires id in Run(actions).items
    ensures var s := Run(actions);
            ExactlyOne(InQueue(s, id), InHands(s, id), Completed(s, id)) && NeverTwice(s)
  {
    RunInv(actions);
    assert Placed(Run(actions), id);
  }

  /**
   * A client is released with the result of the last call of ProcessQueue on its item; that result is not a
   * request to requeue, the client sees an exception exactly when it is FailThrow, and no later call changes it.
   */
  lemma ReleasedWithFinalResult(actions: seq<Action>, k: nat)
    requires k < |Run(actions).trace| && Run(actions).trace[k].Released?
    ensures var trace := Run(actions).trace;
            var r := LastRun(trace[..k], trace[k].id);
            && r.Some? && r.value != FailRequeue && trace[k].threw == (r.value == FailThrow)
            && LastRun(trace, trace[k].id) == r
  {
    RunInv(actions);
  }

  /**
   * Where an item is while no worker holds it is decided by the last call of ProcessQueue on it: it is completed if
   * and only if that call succeeded or failed, and in the queue if and only if there was none or it asked to requeue.
   */
  lemma PlaceByLastRun(actions: seq<Action>, id: ItemId)
    requires id in Run(actions).items && !InHands(Run(actions), id)
    ensures var s := Run(actions);
            && (Completed(s, id) <==> LastRun(s.trace, id).Some? && LastRun(s.trace, id).value != FailRequeue)
            && (InQueue(s, id) <==> LastRun(s.trace, id) == None || LastRun(s.trace, id) == Some(FailRequeue))
  {
    RunInv(actions);
    assert Placed(Run(actions), id);
  }

  // ----- first in, first out -----

  /** The item that a step puts into the queue: a new one, or one that is to be processed again. */
  function PutBy(s: State, a: Action): seq<ItemId> {
    match a
    case Execute(id) => if id in s.items then [] else [id]
    case Dispatch(t) =>
      var hand := HandOf(s, t);
      if hand.Processed? && hand.id in s.items && s.items[hand.id].result == FailRequeue then [hand.id] else []
    case _ => []
  }

  /** The item that a worker has in its hand after trying to dequeue with an empty one. */
  function TakenBy(s: State, a: Action): seq<ItemId> {
    if a.TryDequeue? && HandOf(s, a.t) == Empty && HandOf(Next(s, a), a.t) != Empty then [HandOf(Next(s, a), a.t).id] else []
  }

  function AllPut(actions: seq<Action>): seq<ItemId> {
    if actions == [] then []
    else AllPut(actions[..|actions| - 1]) + PutBy(Run(actions[..|actions| - 1]), actions[|actions| - 1])
  }

  function AllTaken(actions: seq<Action>): seq<ItemId> {
    if actions == [] then []
    else AllTaken(actions[..|actions| - 1]) + TakenBy(Run(actions[..|actions| - 1]), actions[|actions| - 1])
  }

  /** Items are taken in the order in which they were put in, and the queue holds the rest. */
  lemma {:induction false} FirstInFirstOut(actions: seq<Action>)
    ensures AllPut(actions) == AllTaken(actions) + Run(actions).queue
  {
    if actions != [] {
      hide Next, PutBy, TakenBy;
      var before, a := actions[..|actions| - 1], actions[|actions| - 1];
      var s := Run(before);
      FirstInFirstOut(before);
      OneInOneOut(s, a);
      Associate(AllTaken(before), s.queue, PutBy(s, a));
      Associate(AllTaken(before), TakenBy(s, a), Next(s, a).queue);
    }
  }

  lemma OneInOneOut(s: State, a: Action)
    ensures s.queue + PutBy(s, a) == TakenBy(s, a) + Next(s, a).queue
  {
  }

  // ----- every item can be finished -----

  lemma RunAdd(actions: seq<Action>, a: Action)
    ensures Run(actions + [a]) == Next(Run(actions), a)
  {
    assert (actions + [a])[..|actions|] == actions;
  }

  ghost predicate EndsIn(actions: seq<Action>, e: Event) {
    Run(actions).trace != [] && Run(actions).trace[|Run(actions).trace| - 1] == e
  }

  /** What a worker has in its hand is done with one call of ProcessQueue. */
  lemma HandCanFinish(actions: seq<Action>, t: Tid, id: ItemId, result: ProcessResult) returns (all: seq<Action>)
    requires HandOf(Run(actions), t) == Taken(id) && id in Run(actions).items && result != FailRequeue
    ensures actions <= all && EndsIn(all, Released(id, result == FailThrow))
  {
    var a, b, c := Process(t, result), Dispatch(t), Wake(id);
    RunAdd(actions, a);
    RunAdd(actions + [a], b);
    RunAdd(actions + [a] + [b], c);
    all := actions + [a] + [b] + [c];
  }

  /** An idle worker can always be had: the number of threads is not bounded. */
  lemma IdleWorker(s: State) returns (t: Tid)
    ensures HandOf(s, t) == Empty
  {
    t := Above(s.hands.Keys);
  }

  lemma {:induction false} Above(ts: set<Tid>) returns (t: Tid)
    ensures t !in ts && forall u :: u in ts ==> u < t
  {
    if ts == {} {
      t := 0;
    } else {
      var u :| u in ts;
      var v := Above(ts - {u});
      t := if u < v then v else u + 1;
      forall w | w in ts ensures w < t {
        assert w == u || w in ts - {u};
      }
    }
  }

  /** A queued item comes to a worker after those before it, and ends as that worker's call decides. */
  lemma {:induction false} QueuedCanFinish(actions: seq<Action>, id: ItemId, result: ProcessResult) returns (all: seq<Action>)
    requires InQueue(Run(actions), id) && result != FailRequeue
    ensures actions <= all && EndsIn(all, Released(id, result == FailThrow))
    decreases |Run(actions).queue|
  {
    hide EndsIn;
    RunInv(actions);
    var s := Run(actions);
    assert Placed(s, id);
    var t := IdleWorker(s);
    var next := actions + [TryDequeue(t)];
    RunAdd(actions, TryDequeue(t));
    if s.queue[0] == id {
      all := HandCanFinish(next, t, id, result);
    } else {
      assert s.queue == [s.queue[0]] + s.queue[1..];
      all := QueuedCanFinish(next, id, result);
    }
  }

  /** From every state that can be reached, the client of every submitted item can still be released. */
  lemma EveryItemCanFinish(actions: seq<Action>, id: ItemId) returns (all: seq<Action>, threw: bool)
    requires id in Run(actions).items
    ensures actions <= all && EndsIn(all, Released(id, threw))
  {
    Conservation(actions, id);
    var s := Run(actions);
    if Completed(s, id) {
      threw := s.items[id].result == FailThrow;
      RunAdd(actions, Wake(id));
      all := actions + [Wake(id)];
    } else if InQueue(s, id) {
      threw := false;
      all := QueuedCanFinish(actions, id, Success);
    } else {
      var t: Tid :| Holds(HandOf(s, t), id);
      RunAdd(actions, Dispatch(t));
      var next := actions + [Dispatch(t)];
      if HandOf(s, t).Taken? {
        threw := false;
        all := HandCanFinish(actions, t, id, Success);
      } else if s.items[id].result == FailRequeue {
        threw := false;
        all := QueuedCanFinish(next, id, Success);
      } else {
        threw := s.items[id].result == FailThrow;
        RunAdd(next, Wake(id));
        all := next + [Wake(id)];
      }
    }
  }
}
