/** The mutable expression tree, seen as the parser state it stands for. */
module FullTextHeap {
  import opened Basics
  import opened FullTextText
  import opened FullTextTree

  class ConditionExpression {
    const options: Options
    const index: nat
    const parent: ConditionExpression?
    const op: Op
    const term: string
    const isTerm: bool
    const isPhrase: bool
    const isPrefix: bool
    var subexpressions: seq<ConditionExpression>

    /** Order of creation: every child is younger than its parent. */
    ghost const age: nat

    constructor Root(options: Options)
      ensures this.options == options && parent == null && op == And && !isTerm && subexpressions == [] && age == 0
    {
      this.options := options;
      index := 0;
      parent := null;
      op := And;
      term := "";
      isTerm, isPhrase, isPrefix := false, false, false;
      subexpressions := [];
      age := 0;
    }

    constructor Group(parent: ConditionExpression, op: Op, ghost age: nat)
      ensures options == parent.options && index == |parent.subexpressions| && this.parent == parent
      ensures this.op == op && !isTerm && subexpressions == [] && this.age == age
    {
      options := parent.options;
      index := |parent.subexpressions|;
      this.parent := parent;
      this.op := op;
      term := "";
      isTerm, isPhrase, isPrefix := false, false, false;
      subexpressions := [];
      this.age := age;
    }

    constructor Term(parent: ConditionExpression, op: Op, term: string, ghost age: nat)
      ensures options == parent.options && index == |parent.subexpressions| && this.parent == parent
      ensures isTerm && subexpressions == [] && this.age == age
      ensures MakeTerm(options, op, term) == FullTextTree.Term(this.op, this.term, isPhrase, isPrefix)
    {
      options := parent.options;
      index := |parent.subexpressions|;
      this.parent := parent;
      this.op := op;
      isTerm := true;
      subexpressions := [];
      this.age := age;
      isPhrase := IndexOf(term, ' ') != |term|;
      var prefixIndex := IndexOf(term, '*');
      isPrefix := prefixIndex != |term|;
      if prefixIndex == |term| {
        this.term := term;
      } else if IndexOf(term, ' ') == |term| {
        if !parent.options.trimTerms || prefixIndex == |term| - 1 {
          this.term := term;
        } else {
          this.term := if prefixIndex == 0 then "" else term[..prefixIndex + 1];
        }
      } else if !parent.options.trimPhrases {
        this.term := term;
      } else {
        this.term := Collapse(Trim(RemoveStars(term))) + "*";
      }
    }

    predicate HasSubexpressions()
      reads this
    {
      |subexpressions| > 0
    }

    method AddSubexpression(op: Op, ghost age: nat) returns (r: Result<ConditionExpression>)
      modifies this`subexpressions
      ensures r.Err? <==> op == Near && options.throwNear
      ensures r.Err? ==> r.error == NearBeforeGroup
      ensures r.Ok? ==>
        var exp := r.value;
        && fresh(exp) && subexpressions == old(subexpressions) + [exp]
        && exp.options == options && exp.index == |old(subexpressions)| && exp.parent == this && exp.age == age
        && exp.op == (if op == Near then And else op) && !exp.isTerm && exp.subexpressions == []
    {
      var newOp := op;
      if op == Near {
        if options.throwNear {
          return Err(NearBeforeGroup);
        }
        newOp := And;
      }
      var exp := new ConditionExpression.Group(this, newOp, age);
      subexpressions := subexpressions + [exp];
      return Ok(exp);
    }

    method AddTerm(op: Op, term: string, ghost age: nat) returns (r: Result<ConditionExpression>)
      modifies this`subexpressions
      ensures var misplaced := op == Near && old(|subexpressions| > 0 && subexpressions[|subexpressions| - 1].HasSubexpressions());
        && (r.Err? <==> misplaced && options.throwNear)
        && (r.Err? ==> r.error == NearAfterGroup)
        && (r.Ok? ==>
            var exp := r.value;
            && fresh(exp) && subexpressions == old(subexpressions) + [exp]
            && exp.options == options && exp.index == |old(subexpressions)| && exp.parent == this && exp.age == age
            && exp.isTerm && exp.subexpressions == []
            && MakeTerm(options, if old(subexpressions) == [] || misplaced then And else op, term)
               == FullTextTree.Term(exp.op, exp.term, exp.isPhrase, exp.isPrefix))
    {
      var op := op;
      if !HasSubexpressions() {
        op := And;
      } else if op == Near {
        if subexpressions[|subexpressions| - 1].HasSubexpressions() {
          if options.throwNear {
            return Err(NearAfterGroup);
          }
          op := And;
        }
      }
      var exp := new ConditionExpression.Term(this, op, term, age);
      subexpressions := subexpressions + [exp];
      return Ok(exp);
    }
  }

  // ----- the heap of expressions as a tree -----

  /** The child lists of all expressions; every other field of an expression is fixed. */
  type Shape = map<ConditionExpression, seq<ConditionExpression>>

  ghost predicate Mirrors(shape: Shape)
    reads shape.Keys
  {
    forall n :: n in shape ==> n.subexpressions == shape[n]
  }

  /** Children and parents point at each other, stored indices are positions, and children are younger. */
  ghost predicate Linked(n: ConditionExpression, shape: Shape, o: Options)
    requires n in shape
  {
    && n.options == o
    && (n.isTerm ==> shape[n] == [])
    && (forall i :: 0 <= i < |shape[n]| ==> IsChild(n, i, shape))
    && (n.parent != null ==> n.parent in shape && n.index < |shape[n.parent]| && shape[n.parent][n.index] == n)
  }

  ghost predicate IsChild(n: ConditionExpression, i: nat, shape: Shape)
    requires n in shape && i < |shape[n]|
  {
    var c := shape[n][i];
    c in shape && c.parent == n && c.index == i && c.age > n.age
  }

  ghost predicate Forest(shape: Shape, limit: nat, o: Options) {
    forall n :: n in shape ==> Linked(n, shape, o) && n.age < limit
  }

  ghost function ToNode(n: ConditionExpression, shape: Shape, limit: nat, o: Options): Node
    requires n in shape && Forest(shape, limit, o)
    decreases limit - n.age, 1
  {
    if n.isTerm then FullTextTree.Term(n.op, n.term, n.isPhrase, n.isPrefix)
    else FullTextTree.Group(n.op, Kids(n, shape, limit, o))
  }

  ghost function Kids(n: ConditionExpression, shape: Shape, limit: nat, o: Options): (r: seq<Node>)
    requires n in shape && Forest(shape, limit, o)
    ensures |r| == |shape[n]|
    decreases limit - n.age, 0
  {
    assert Linked(n, shape, o);
    seq(|shape[n]|, i requires 0 <= i < |shape[n]| && IsChild(n, i, shape) =>
          ToNode(shape[n][i], shape, limit, o))
  }

  /** A path from the root down, each node the last child of the one before. */
  ghost predicate Spine(spine: seq<ConditionExpression>, shape: Shape) {
    && spine != [] && spine[0].parent == null
    && (forall k :: 0 <= k < |spine| ==> spine[k] in shape && !spine[k].isTerm)
    && (forall k :: 0 < k < |spine| ==> Hangs(spine[k - 1], spine[k], shape))
    && (forall j, k :: 0 <= j < k < |spine| ==> spine[j].age < spine[k].age)
  }

  ghost predicate Hangs(up: ConditionExpression, down: ConditionExpression, shape: Shape) {
    down.parent == up && up in shape && shape[up] != [] && shape[up][|shape[up]| - 1] == down
  }

  /** A new youngest expression c becomes the last child of n. */
  ghost function Grown(shape: Shape, n: ConditionExpression, c: ConditionExpression): Shape
    requires n in shape
  {
    shape[n := shape[n] + [c]][c := []]
  }

  lemma GrownForest(shape: Shape, limit: nat, o: Options, n: ConditionExpression, c: ConditionExpression)
    requires Forest(shape, limit, o) && n in shape && c !in shape && !n.isTerm
    requires c.options == o && c.age == limit && c.parent == n && c.index == |shape[n]|
    ensures Forest(Grown(shape, n, c), limit + 1, o)
  {
    var g := Grown(shape, n, c);
    forall x | x in g ensures Linked(x, g, o) && x.age < limit + 1 {
      if x != c {
        assert Linked(x, shape, o);
        forall i | 0 <= i < |g[x]| ensures IsChild(x, i, g) {
          assert i < |shape[x]| ==> IsChild(x, i, shape);
        }
      }
    }
  }

  /** Growing at the end of the spine leaves every subtree off the spine as it was. */
  lemma {:induction false} OffSpineKept(
      x: ConditionExpression, spine: seq<ConditionExpression>, shape: Shape, limit: nat, o: Options,
      c: ConditionExpression)
    requires Forest(shape, limit, o) && Spine(spine, shape) && c !in shape
    requires Forest(Grown(shape, spine[|spine| - 1], c), limit + 1, o)
    requires x in shape && x !in spine
    ensures ToNode(x, Grown(shape, spine[|spine| - 1], c), limit + 1, o) == ToNode(x, shape, limit, o)
    decreases limit - x.age
  {
    var g := Grown(shape, spine[|spine| - 1], c);
    if !x.isTerm {
      assert Linked(x, shape, o);
      forall i | 0 <= i < |shape[x]|
        ensures IsChild(x, i, shape)
        ensures ToNode(shape[x][i], g, limit + 1, o) == ToNode(shape[x][i], shape, limit, o)
      {
        assert IsChild(x, i, shape);
        OffSpineChild(x, i, spine, shape);
        OffSpineKept(shape[x][i], spine, shape, limit, o, c);
      }
      assert Kids(x, g, limit + 1, o) == Kids(x, shape, limit, o);
    }
  }

  /** Only the last child of a spine node that is not the end of the spine is itself on the spine. */
  lemma OffSpineChild(x: ConditionExpression, i: nat, spine: seq<ConditionExpression>, shape: Shape)
    requires Spine(spine, shape) && x in shape && i < |shape[x]|
    requires forall j :: 0 <= j < |shape[x]| ==> IsChild(x, j, shape)
    requires x !in spine || i + 1 < |shape[x]| || x == spine[|spine| - 1]
    ensures shape[x][i] !in spine
  {
    var kid := shape[x][i];
    assert IsChild(x, i, shape) && IsChild(x, |shape[x]| - 1, shape);
    forall k | 0 <= k < |spine| ensures spine[k] != kid {
      assert k > 0 ==> Hangs(spine[k - 1], spine[k], shape);
    }
  }

  /** The children that are finished: all of the last spine node's, all but the last of the others'. */
  ghost function FrameOf(spine: seq<ConditionExpression>, k: nat, shape: Shape, limit: nat, o: Options): Frame
    requires Forest(shape, limit, o) && Spine(spine, shape) && k < |spine|
  {
    var kids := Kids(spine[k], shape, limit, o);
    Frame(spine[k].op, if k + 1 < |spine| && kids != [] then kids[..|kids| - 1] else kids)
  }

  /** The parser state that the heap stands for. */
  ghost function StateOf(spine: seq<ConditionExpression>, shape: Shape, limit: nat, o: Options, lastOp: Op): State
    requires Forest(shape, limit, o) && Spine(spine, shape)
  {
    State(seq(|spine| - 1, k requires 0 <= k < |spine| - 1 => FrameOf(spine, k, shape, limit, o)),
          FrameOf(spine, |spine| - 1, shape, limit, o), lastOp)
  }

  lemma GrownFrame(spine: seq<ConditionExpression>, k: nat, shape: Shape, limit: nat, o: Options, c: ConditionExpression)
    requires Forest(shape, limit, o) && Spine(spine, shape) && k < |spine| && c !in shape
    requires Forest(Grown(shape, spine[|spine| - 1], c), limit + 1, o)
    requires Spine(spine, Grown(shape, spine[|spine| - 1], c))
    ensures var g := Grown(shape, spine[|spine| - 1], c);
            var f := FrameOf(spine, k, shape, limit, o);
            FrameOf(spine, k, g, limit + 1, o) ==
              if k + 1 < |spine| then f else Frame(f.op, f.kids + [ToNode(c, g, limit + 1, o)])
  {
    var g := Grown(shape, spine[|spine| - 1], c);
    var x := spine[k];
    assert Linked(x, shape, o);
    assert k + 1 < |spine| ==> Hangs(spine[k], spine[k + 1], shape);
    var a, b := Kids(x, shape, limit, o), Kids(x, g, limit + 1, o);
    var n := if k + 1 < |spine| then |a| - 1 else |a|;
    assert k + 1 < |spine| ==> x != spine[|spine| - 1];
    forall i | 0 <= i < n ensures a[i] == b[i] {
      assert IsChild(x, i, shape);
      OffSpineChild(x, i, spine, shape);
      OffSpineKept(shape[x][i], spine, shape, limit, o, c);
    }
    assert a[..n] == b[..n];
    if k + 1 == |spine| {
      assert b == b[..n] + [b[n]];
    }
  }

  lemma GrownSpine(spine: seq<ConditionExpression>, shape: Shape, limit: nat, o: Options, c: ConditionExpression)
    requires Forest(shape, limit, o) && Spine(spine, shape) && c !in shape
    ensures Spine(spine, Grown(shape, spine[|spine| - 1], c))
  {
    var g := Grown(shape, spine[|spine| - 1], c);
    forall k | 0 < k < |spine| ensures Hangs(spine[k - 1], spine[k], g) {
      assert Hangs(spine[k - 1], spine[k], shape);
      assert spine[k - 1].age < spine[|spine| - 1].age;
    }
  }

  /** Adding a term is appending it to the current frame. */
  lemma TermAdded(spine: seq<ConditionExpression>, shape: Shape, limit: nat, o: Options, c: ConditionExpression, op: Op, op': Op)
    requires Forest(shape, limit, o) && Spine(spine, shape) && c !in shape && c.isTerm
    requires Forest(Grown(shape, spine[|spine| - 1], c), limit + 1, o)
    ensures var g := Grown(shape, spine[|spine| - 1], c);
            var st := StateOf(spine, shape, limit, o, op);
            && Spine(spine, g)
            && StateOf(spine, g, limit + 1, o, op') ==
               State(st.outer,
                     Frame(st.top.op, st.top.kids + [FullTextTree.Term(c.op, c.term, c.isPhrase, c.isPrefix)]), op')
  {
    GrownSpine(spine, shape, limit, o, c);
    forall k | 0 <= k < |spine|
      ensures var g := Grown(shape, spine[|spine| - 1], c);
              var f := FrameOf(spine, k, shape, limit, o);
              FrameOf(spine, k, g, limit + 1, o) ==
                if k + 1 < |spine| then f else Frame(f.op, f.kids + [ToNode(c, g, limit + 1, o)])
    {
      GrownFrame(spine, k, shape, limit, o, c);
    }
    var g := Grown(shape, spine[|spine| - 1], c);
    assert StateOf(spine, g, limit + 1, o, op').outer == StateOf(spine, shape, limit, o, op).outer;
  }

  lemma LongerSpine(spine: seq<ConditionExpression>, shape: Shape, limit: nat, o: Options, c: ConditionExpression)
    requires Forest(shape, limit, o) && Spine(spine, shape) && c !in shape && !c.isTerm
    requires c.parent == spine[|spine| - 1] && c.age == limit
    ensures Spine(spine + [c], Grown(shape, spine[|spine| - 1], c))
  {
    var g := Grown(shape, spine[|spine| - 1], c);
    var longer := spine + [c];
    GrownSpine(spine, shape, limit, o, c);
    forall k | 0 < k < |longer| ensures Hangs(longer[k - 1], longer[k], g) {
      assert k < |spine| ==> Hangs(spine[k - 1], spine[k], g);
    }
  }

  lemma OpenFrame(spine: seq<ConditionExpression>, k: nat, shape: Shape, limit: nat, o: Options, c: ConditionExpression)
    requires Forest(shape, limit, o) && Spine(spine, shape) && c !in shape && k < |spine|
    requires Forest(Grown(shape, spine[|spine| - 1], c), limit + 1, o)
    requires Spine(spine + [c], Grown(shape, spine[|spine| - 1], c))
    ensures FrameOf(spine + [c], k, Grown(shape, spine[|spine| - 1], c), limit + 1, o) == FrameOf(spine, k, shape, limit, o)
  {
    var g := Grown(shape, spine[|spine| - 1], c);
    GrownSpine(spine, shape, limit, o, c);
    GrownFrame(spine, k, shape, limit, o, c);
    assert (spine + [c])[k] == spine[k];
  }

  /** Adding a group and moving into it is opening a frame. */
  lemma GroupAdded(spine: seq<ConditionExpression>, shape: Shape, limit: nat, o: Options, c: ConditionExpression, op: Op)
    requires Forest(shape, limit, o) && Spine(spine, shape) && c !in shape && !c.isTerm
    requires c.parent == spine[|spine| - 1] && c.age == limit
    requires Forest(Grown(shape, spine[|spine| - 1], c), limit + 1, o)
    ensures var g := Grown(shape, spine[|spine| - 1], c);
            var st := StateOf(spine, shape, limit, o, op);
            && Spine(spine + [c], g)
            && StateOf(spine + [c], g, limit + 1, o, op) == State(st.outer + [st.top], Frame(c.op, []), op)
  {
    var g := Grown(shape, spine[|spine| - 1], c);
    var longer := spine + [c];
    LongerSpine(spine, shape, limit, o, c);
    forall k | 0 <= k < |spine|
      ensures FrameOf(longer, k, g, limit + 1, o) == FrameOf(spine, k, shape, limit, o)
    {
      OpenFrame(spine, k, shape, limit, o, c);
    }
    var st := StateOf(spine, shape, limit, o, op);
    assert StateOf(longer, g, limit + 1, o, op).outer == st.outer + [st.top];
  }

  /** Moving to the parent is closing the current frame. */
  lemma GroupLeft(spine: seq<ConditionExpression>, shape: Shape, limit: nat, o: Options, op: Op, op': Op)
    requires Forest(shape, limit, o) && Spine(spine, shape) && |spine| > 1
    ensures var shorter := spine[..|spine| - 1];
            var st := StateOf(spine, shape, limit, o, op);
            && Spine(shorter, shape)
            && StateOf(shorter, shape, limit, o, op') == State(st.outer[..|st.outer| - 1], CloseTop(st.outer, st.top), op')
  {
    var shorter := spine[..|spine| - 1];
    var st := StateOf(spine, shape, limit, o, op);
    forall k | 0 < k < |shorter| ensures Hangs(shorter[k - 1], shorter[k], shape) {
      assert Hangs(spine[k - 1], spine[k], shape);
    }
    assert Spine(shorter, shape);
    forall k | 0 <= k < |shorter| - 1
      ensures FrameOf(shorter, k, shape, limit, o) == FrameOf(spine, k, shape, limit, o)
    {
    }
    var k := |shorter| - 1;
    assert Hangs(spine[k], spine[k + 1], shape);
    assert Linked(spine[k], shape, o);
    var kids := Kids(spine[k], shape, limit, o);
    assert IsChild(spine[k], |kids| - 1, shape);
    assert kids[|kids| - 1] == ToNode(spine[k + 1], shape, limit, o);
    assert !spine[k + 1].isTerm;
    assert kids[|kids| - 1] == FullTextTree.Group(spine[k + 1].op, Kids(spine[k + 1], shape, limit, o));
    assert kids == kids[..|kids| - 1] + [kids[|kids| - 1]];
    assert st.outer[k] == FrameOf(spine, k, shape, limit, o);
    assert FrameOf(shorter, k, shape, limit, o) == CloseTop(st.outer, st.top);
    assert StateOf(shorter, shape, limit, o, op').outer == st.outer[..|st.outer| - 1];
  }

  /** Closing every open frame gives the root's children as the heap has them. */
  lemma {:induction false} RootKids(spine: seq<ConditionExpression>, shape: Shape, limit: nat, o: Options, op: Op)
    requires Forest(shape, limit, o) && Spine(spine, shape)
    ensures var st := StateOf(spine, shape, limit, o, op);
            CloseAll(st.outer, st.top) == Kids(spine[0], shape, limit, o)
    decreases |spine|
  {
    if |spine| > 1 {
      GroupLeft(spine, shape, limit, o, op, op);
      RootKids(spine[..|spine| - 1], shape, limit, o, op);
    }
  }

  /** HasSubexpressions of the last child, on the heap and in the tree. */
  lemma LastChild(n: ConditionExpression, shape: Shape, limit: nat, o: Options)
    requires Forest(shape, limit, o) && n in shape && shape[n] != []
    ensures var last := shape[n][|shape[n]| - 1];
            last in shape && (HasKids(Kids(n, shape, limit, o)[|shape[n]| - 1]) <==> shape[last] != [])
  {
    assert Linked(n, shape, o) && IsChild(n, |shape[n]| - 1, shape);
    var last := shape[n][|shape[n]| - 1];
    assert Linked(last, shape, o);
    assert Kids(n, shape, limit, o)[|shape[n]| - 1] == ToNode(last, shape, limit, o);
  }

  // ----- one parser action at the end of the spine -----

  lemma Current(spine: seq<ConditionExpression>, shape: Shape, limit: nat, o: Options)
    requires Forest(shape, limit, o) && Spine(spine, shape)
    ensures spine != []
    ensures var n := spine[|spine| - 1];
            && n in shape && n.options == o && !n.isTerm
            && (shape[n] != [] ==> shape[n][|shape[n]| - 1] in shape)
            && (n.parent == null <==> |spine| == 1)
  {
    var n := spine[|spine| - 1];
    assert Linked(n, shape, o);
    if shape[n] != [] {
      LastChild(n, shape, limit, o);
    }
    if |spine| > 1 {
      assert Hangs(spine[|spine| - 2], n, shape);
    }
  }

  /** NEAR in front of something with children to its left. */
  ghost predicate Misplaced(n: ConditionExpression, shape: Shape, op: Op)
    requires n in shape
  {
    op == Near && shape[n] != [] && shape[n][|shape[n]| - 1] in shape && shape[shape[n][|shape[n]| - 1]] != []
  }

  ghost predicate NewChild(c: ConditionExpression, n: ConditionExpression, shape: Shape, limit: nat, o: Options)
    requires n in shape
  {
    c !in shape && c.options == o && c.age == limit && c.parent == n && c.index == |shape[n]|
  }

  lemma TermStep(spine: seq<ConditionExpression>, shape: Shape, limit: nat, o: Options, op: Op, raw: string, c: ConditionExpression)
    requires Forest(shape, limit, o) && Spine(spine, shape)
    requires var n := spine[|spine| - 1];
      && NewChild(c, n, shape, limit, o) && c.isTerm && !(Misplaced(n, shape, op) && o.throwNear)
      && MakeTerm(o, if shape[n] == [] || Misplaced(n, shape, op) then And else op, raw)
         == FullTextTree.Term(c.op, c.term, c.isPhrase, c.isPrefix)
    ensures var g := Grown(shape, spine[|spine| - 1], c);
            && Forest(g, limit + 1, o) && Spine(spine, g)
            && PutTerm(o, StateOf(spine, shape, limit, o, op), raw) == Ok(StateOf(spine, g, limit + 1, o, And))
  {
    var n := spine[|spine| - 1];
    GrownForest(shape, limit, o, n, c);
    TermAdded(spine, shape, limit, o, c, op, And);
    if shape[n] != [] {
      LastChild(n, shape, limit, o);
    }
    var st := StateOf(spine, shape, limit, o, op);
    assert st.top.kids == Kids(n, shape, limit, o);
    assert shape[n] == [] ==> st.top.kids == [] && st.top.kids + [MakeTerm(o, And, raw)] == [MakeTerm(o, And, raw)];
  }

  lemma TermRefused(spine: seq<ConditionExpression>, shape: Shape, limit: nat, o: Options, op: Op, raw: string)
    requires Forest(shape, limit, o) && Spine(spine, shape)
    requires spine[|spine| - 1] in shape && Misplaced(spine[|spine| - 1], shape, op) && o.throwNear
    ensures PutTerm(o, StateOf(spine, shape, limit, o, op), raw) == Err(NearAfterGroup)
  {
    var n := spine[|spine| - 1];
    LastChild(n, shape, limit, o);
    assert StateOf(spine, shape, limit, o, op).top.kids == Kids(n, shape, limit, o);
  }

  lemma GroupStep(spine: seq<ConditionExpression>, shape: Shape, limit: nat, o: Options, op: Op, c: ConditionExpression)
    requires Forest(shape, limit, o) && Spine(spine, shape) && !(op == Near && o.throwNear)
    requires NewChild(c, spine[|spine| - 1], shape, limit, o) && !c.isTerm && c.op == if op == Near then And else op
    ensures var g := Grown(shape, spine[|spine| - 1], c);
            && Forest(g, limit + 1, o) && Spine(spine + [c], g)
            && PushGroup(o, StateOf(spine, shape, limit, o, op)) == Ok(StateOf(spine + [c], g, limit + 1, o, op))
  {
    GrownForest(shape, limit, o, spine[|spine| - 1], c);
    GroupAdded(spine, shape, limit, o, c, op);
  }

  lemma PopStep(spine: seq<ConditionExpression>, shape: Shape, limit: nat, o: Options, op: Op)
    requires Forest(shape, limit, o) && Spine(spine, shape)
    ensures var st, n := StateOf(spine, shape, limit, o, op), spine[|spine| - 1];
            && (|spine| == 1 ==>
                PopGroup(o, st) == if o.throwParens then Err(UnbalancedParens) else Ok(StateOf(spine, shape, limit, o, And)))
            && (|spine| > 1 ==>
                && Spine(spine[..|spine| - 1], shape) && n.parent == spine[|spine| - 2] && spine[|spine| - 2] in shape
                && PopGroup(o, st) == Ok(StateOf(spine[..|spine| - 1], shape, limit, o, And)))
  {
    if |spine| > 1 {
      GroupLeft(spine, shape, limit, o, op, And);
      assert Hangs(spine[|spine| - 2], spine[|spine| - 1], shape);
    }
  }

  /** The path has one node exactly when its end is its start. */
  lemma EndIsRoot(spine: seq<ConditionExpression>, shape: Shape)
    requires Spine(spine, shape)
    ensures |spine| == 1 <==> spine[|spine| - 1] == spine[0]
  {
  }
}
