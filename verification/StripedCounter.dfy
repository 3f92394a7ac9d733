/** The striped counter: 32-bit stripes that wrap, and a read that adds them up while others go on counting. */
module StripedCounter {

  const STRIPES := 32

  /** Two's complement 32-bit arithmetic. */
  function Wrap(n: int): (w: int)
    ensures -0x8000_0000 <= w < 0x8000_0000
    ensures -0x8000_0000 <= n < 0x8000_0000 ==> w == n
  {
    (n + 0x8000_0000) % 0x1_0000_0000 - 0x8000_0000
  }

  /** Wrapping an intermediate result changes nothing. */
  lemma WrapInside(a: int, b: int)
    ensures Wrap(Wrap(a) + b) == Wrap(a + b)
  {
    var m := 0x1_0000_0000;
    var q := (a + 0x8000_0000) / m;
    assert Wrap(a) == a - q * m;
    WrapPeriod(a + b, q);
  }

  lemma {:induction false} WrapPeriod(n: int, q: int)
    ensures Wrap(n - q * 0x1_0000_0000) == Wrap(n)
    decreases if q < 0 then -q else q
  {
    if q > 0 {
      WrapPeriod(n, q - 1);
    } else if q < 0 {
      WrapPeriod(n, q + 1);
    }
  }

  function Total(cells: seq<int>): int {
    if cells == [] then 0 else Total(cells[..|cells| - 1]) + cells[|cells| - 1]
  }

  lemma {:induction false} TotalUpdate(cells: seq<int>, k: nat, d: int)
    requires k < |cells|
    ensures Total(cells[k := cells[k] + d]) == Total(cells) + d
  {
    var n := |cells| - 1;
    var after := cells[k := cells[k] + d];
    if k == n {
      assert after[..n] == cells[..n];
    } else {
      assert after[..n] == cells[..n][k := cells[..n][k] + d];
      TotalUpdate(cells[..n], k, d);
    }
  }

  lemma {:induction false} TotalPrefix(cells: seq<int>, i: nat)
    requires i < |cells|
    ensures Total(cells[..i + 1]) == Total(cells[..i]) + cells[i]
  {
    assert cells[..i + 1][..i] == cells[..i];
  }

  // ----- any number of threads and one reader -----

  /** The stripes, and how far a read of Value has come with what sum. */
  datatype State = State(cells: seq<int>, at: nat, sum: int)

  /** One interlocked step of some thread on its stripe, or one round of the reader's loop. */
  datatype Event = Count(stripe: nat, up: bool) | Read

  function Delta(e: Event): int {
    if e.Read? then 0 else if e.up then 1 else -1
  }

  predicate Valid(s: State) {
    |s.cells| == STRIPES && s.at <= STRIPES
  }

  predicate Allowed(e: Event) {
    e.Count? ==> e.stripe < STRIPES
  }

  function Store(wraps: bool, n: int): int {
    if wraps then Wrap(n) else n
  }

  function Step(wraps: bool, s: State, e: Event): (t: State)
    requires Valid(s) && Allowed(e)
    ensures Valid(t)
  {
    match e
    case Count(k, up) => s.(cells := s.cells[k := Store(wraps, s.cells[k] + Delta(e))])
    case Read => if s.at == STRIPES then s else s.(at := s.at + 1, sum := Store(wraps, s.sum + s.cells[s.at]))
  }

  predicate AllAllowed(es: seq<Event>) {
    forall i :: 0 <= i < |es| ==> Allowed(es[i])
  }

  function Run(wraps: bool, s: State, es: seq<Event>): (t: State)
    requires Valid(s) && AllAllowed(es)
    ensures Valid(t)
  {
    if es == [] then s else Step(wraps, Run(wraps, s, es[..|es| - 1]), es[|es| - 1])
  }

  function Counted(es: seq<Event>): int {
    if es == [] then 0 else Counted(es[..|es| - 1]) + Delta(es[|es| - 1])
  }

  /** The counter as it is, against the counter with unbounded stripes. */
  predicate Shadows(s: State, exact: State)
    requires Valid(s) && Valid(exact)
  {
    && s.at == exact.at && s.sum == Wrap(exact.sum)
    && forall k :: 0 <= k < STRIPES ==> s.cells[k] == Wrap(exact.cells[k])
  }

  lemma {:induction false} WrappedShadowsExact(s: State, exact: State, es: seq<Event>)
    requires Valid(s) && Valid(exact) && AllAllowed(es) && Shadows(s, exact)
    ensures Shadows(Run(true, s, es), Run(false, exact, es))
  {
    if es != [] {
      var front, e := es[..|es| - 1], es[|es| - 1];
      WrappedShadowsExact(s, exact, front);
      var t, u := Run(true, s, front), Run(false, exact, front);
      match e
      case Count(k, up) => WrapInside(u.cells[k], Delta(e));
      case Read =>
        if u.at < STRIPES {
          WrapInside(u.sum, t.cells[u.at]);
          WrapInside(u.cells[u.at], u.sum);
        }
    }
  }

  /** Every count lands in the exact total. */
  lemma {:induction false} ExactTotal(s: State, es: seq<Event>)
    requires Valid(s) && AllAllowed(es)
    ensures Total(Run(false, s, es).cells) == Total(s.cells) + Counted(es)
  {
    if es != [] {
      var e := es[|es| - 1];
      ExactTotal(s, es[..|es| - 1]);
      var t := Run(false, s, es[..|es| - 1]);
      match e
      case Count(k, up) => TotalUpdate(t.cells, k, Delta(e));
      case Read =>
    }
  }

  lemma {:induction false} WrapTotal(cells: seq<int>, exact: seq<int>)
    requires |cells| == |exact| && forall k :: 0 <= k < |cells| ==> cells[k] == Wrap(exact[k])
    ensures Wrap(Total(cells)) == Wrap(Total(exact))
  {
    if cells != [] {
      var n := |cells| - 1;
      WrapTotal(cells[..n], exact[..n]);
      WrapInside(Total(cells[..n]), cells[n]);
      WrapInside(Total(exact[..n]), cells[n]);
      WrapInside(exact[n], Total(exact[..n]));
    }
  }

  /** At rest the stripes add up, in 32-bit arithmetic, to the start plus ups minus downs, whatever wrapped on the way. */
  lemma Quiescent(start: int, es: seq<Event>, s: State)
    requires s == State(seq(STRIPES, i => if i == 0 then Wrap(start) else 0), 0, 0)
    requires AllAllowed(es)
    ensures Wrap(Total(Run(true, s, es).cells)) == Wrap(start + Counted(es))
  {
    var exact := State(seq(STRIPES, i => if i == 0 then start else 0), 0, 0);
    WrappedShadowsExact(s, exact, es);
    ExactTotal(exact, es);
    OnlyFirst(exact.cells, start);
    WrapTotal(Run(true, s, es).cells, Run(false, exact, es).cells);
  }

  lemma {:induction false} OnlyFirst(cells: seq<int>, start: int)
    requires cells != [] && cells[0] == start && forall i :: 1 <= i < |cells| ==> cells[i] == 0
    ensures Total(cells) == start
  {
    if |cells| > 1 {
      OnlyFirst(cells[..|cells| - 1], start);
    } else {
      assert cells[..0] == [];
    }
  }

  predicate OnlyUps(es: seq<Event>) {
    forall i :: 0 <= i < |es| ==> es[i].Count? ==> es[i].up
  }

  /** The read so far lies between what stood in the stripes passed at its start and what stands there now. */
  predicate Between(start: seq<int>, s: State)
    requires |start| == STRIPES && Valid(s)
  {
    && Total(start[..s.at]) <= s.sum <= Total(s.cells[..s.at])
    && forall k :: 0 <= k < STRIPES ==> start[k] <= s.cells[k]
  }

  lemma UpKeepsBetween(start: seq<int>, s: State, k: nat)
    requires |start| == STRIPES && Valid(s) && k < STRIPES && Between(start, s)
    ensures Between(start, Step(false, s, Count(k, true)))
  {
    hide Total;
    var t := s.cells[k := s.cells[k] + 1];
    if k < s.at {
      assert t[..s.at] == s.cells[..s.at][k := s.cells[..s.at][k] + 1];
      TotalUpdate(s.cells[..s.at], k, 1);
    } else {
      assert t[..s.at] == s.cells[..s.at];
    }
  }

  lemma ReadKeepsBetween(start: seq<int>, s: State)
    requires |start| == STRIPES && Valid(s) && Between(start, s)
    ensures Between(start, Step(false, s, Read))
  {
    hide Total;
    if s.at < STRIPES {
      TotalPrefix(start, s.at);
      TotalPrefix(s.cells, s.at);
    }
  }

  lemma {:induction false} ReadBetween(s: State, es: seq<Event>)
    requires Valid(s) && s.at == 0 && s.sum == 0 && AllAllowed(es) && OnlyUps(es)
    ensures Between(s.cells, Run(false, s, es))
  {
    if es == [] {
      assert s.cells[..0] == [];
    } else {
      hide Between, Step;
      var e := es[|es| - 1];
      ReadBetween(s, es[..|es| - 1]);
      if e.Read? {
        ReadKeepsBetween(s.cells, Run(false, s, es[..|es| - 1]));
      } else {
        UpKeepsBetween(s.cells, Run(false, s, es[..|es| - 1]), e.stripe);
      }
    }
  }

  /**
   * A whole read of Value, with nothing but increments going on around it, answers something between the totals at its
   * start and at its end, as long as those two fit into 32 bits. Single stripes may wrap.
   */
  lemma ReadIsBetween(s: State, exact: State, es: seq<Event>)
    requires Valid(s) && Valid(exact) && Shadows(s, exact) && exact.at == 0 && exact.sum == 0
    requires AllAllowed(es) && OnlyUps(es) && Run(true, s, es).at == STRIPES
    requires -0x8000_0000 <= Total(exact.cells) && Total(exact.cells) + Counted(es) < 0x8000_0000
    ensures Total(exact.cells) <= Run(true, s, es).sum <= Total(exact.cells) + Counted(es)
  {
    WrappedShadowsExact(s, exact, es);
    ReadBetween(exact, es);
    ExactTotal(exact, es);
    var t := Run(false, exact, es);
    assert t.cells[..STRIPES] == t.cells && exact.cells[..STRIPES] == exact.cells;
  }

  // ----- the class -----

  class Counter {
    const counters: array<int>

    ghost predicate Good()
      reads this, counters
    {
      counters.Length == STRIPES && forall k :: 0 <= k < STRIPES ==> Wrap(counters[k]) == counters[k]
    }

    ghost function Current(): int
      reads this, counters
    {
      Wrap(Total(counters[..]))
    }

    constructor (startingValue: int)
      ensures Good() && fresh(counters) && Current() == Wrap(startingValue)
    {
      counters := new int[STRIPES](i => 0);
      new;
      counters[0] := Wrap(startingValue);
      OnlyFirst(counters[..], Wrap(startingValue));
    }

    method Value() returns (sum: int)
      requires Good()
      ensures sum == Current()
    {
      sum := 0;
      for i := 0 to STRIPES
        invariant sum == Wrap(Total(counters[..i]))
      {
        assert counters[..][..i] == counters[..i] && counters[..][..i + 1] == counters[..i + 1];
        TotalPrefix(counters[..], i);
        WrapInside(Total(counters[..i]), counters[i]);
        sum := Wrap(sum + counters[i]);
      }
      assert counters[..STRIPES] == counters[..];
    }

    /** The stripe is the low five bits of the thread's id. */
    method Increment(threadId: nat)
      requires Good()
      modifies counters
      ensures Good() && Current() == Wrap(old(Current()) + 1)
      ensures counters[..] == old(counters[..])[threadId % STRIPES := Wrap(old(counters[threadId % STRIPES]) + 1)]
    {
      Move(counters[..], threadId % STRIPES, 1);
      counters[threadId % STRIPES] := Wrap(counters[threadId % STRIPES] + 1);
      assert counters[..] == old(counters[..])[threadId % STRIPES := Wrap(old(counters[threadId % STRIPES]) + 1)];
    }

    method Decrement(threadId: nat)
      requires Good()
      modifies counters
      ensures Good() && Current() == Wrap(old(Current()) - 1)
      ensures counters[..] == old(counters[..])[threadId % STRIPES := Wrap(old(counters[threadId % STRIPES]) - 1)]
    {
      Move(counters[..], threadId % STRIPES, -1);
      counters[threadId % STRIPES] := Wrap(counters[threadId % STRIPES] - 1);
      assert counters[..] == old(counters[..])[threadId % STRIPES := Wrap(old(counters[threadId % STRIPES]) - 1)];
    }
  }

  /** Moving one stripe moves the wrapped sum by as much. */
  lemma Move(cells: seq<int>, k: nat, d: int)
    requires k < |cells|
    ensures Wrap(Total(cells[k := Wrap(cells[k] + d)])) == Wrap(Wrap(Total(cells)) + d)
  {
    var w := Wrap(cells[k] + d);
    TotalUpdate(cells, k, w - cells[k]);
    assert cells[k := cells[k] + (w - cells[k])] == cells[k := w];
    WrapInside(cells[k] + d, Total(cells) - cells[k]);
    WrapInside(Total(cells), d);
  }
}
