/** Feeding a normal form back: what is read, what tree it builds, and when the text stays the same. */
module FullTextRoundTrip {
  import opened Basics
  import opened FullTextText
  import opened FullTextLexer
  import opened FullTextTree

  predicate NoStemming(o: Options) {
    !o.stemTerms && !o.stemPhrases
  }

  // ----- a printed tree is read as the lexemes of that tree -----

  function NodeLexemes(n: Node): seq<Lexeme>
    decreases n, 0
  {
    match n
    case Term(_, text, _, _) => [Quoted(text)]
    case Group(_, kids) => [Open] + BodyLexemes(kids) + [Close]
  }

  function KidLexemes(kids: seq<Node>, i: nat): seq<Lexeme>
    requires i < |kids|
    decreases kids, 0
  {
    (if i > 0 then OpLexemes(kids[i].op) else []) + NodeLexemes(kids[i])
  }

  function JoinedLexemes(kids: seq<Node>, i: nat): seq<Lexeme>
    requires i <= |kids|
    decreases kids, |kids| - i + 1
  {
    if i == |kids| then [] else KidLexemes(kids, i) + JoinedLexemes(kids, i + 1)
  }

  function BodyLexemes(kids: seq<Node>): seq<Lexeme>
    decreases kids, |kids| + 2
  {
    if kids == [] then [Quoted("")] else JoinedLexemes(kids, 0)
  }

  lemma {:induction false} LexNode(o: Options, strict: bool, n: Node, beforeNear: bool, rest: string)
    requires NoStemming(o) && Delimited(rest)
    ensures Lex(strict, PrintNode(o, n, beforeNear) + rest, "") == NodeLexemes(n) + Lex(strict, rest, "")
    decreases n, 0
  {
    match n
    case Term(_, text, _, _) =>
      LexLiteral(strict, text, rest);
    case Group(_, kids) =>
      var tail := ")" + rest;
      assert tail[1..] == rest;
      LexBody(o, strict, kids, tail);
      var s := PrintNode(o, n, beforeNear) + rest;
      assert s == "(" + (PrintBody(o, kids) + tail);
      assert s[1..] == PrintBody(o, kids) + tail;
  }

  lemma {:induction false} LexBody(o: Options, strict: bool, kids: seq<Node>, rest: string)
    requires NoStemming(o) && Delimited(rest)
    ensures Lex(strict, PrintBody(o, kids) + rest, "") == BodyLexemes(kids) + Lex(strict, rest, "")
    decreases kids, |kids| + 2
  {
    if kids == [] {
      LexLiteral(strict, "", rest);
    } else {
      LexJoined(o, strict, kids, 0, rest);
    }
  }

  /** Two adjacent texts that read as la and as lb read together as la + lb. */
  lemma LexCompose(strict: bool, a: string, la: seq<Lexeme>, b: string, lb: seq<Lexeme>, rest: string)
    requires Lex(strict, a + (b + rest), "") == la + Lex(strict, b + rest, "")
    requires Lex(strict, b + rest, "") == lb + Lex(strict, rest, "")
    ensures Lex(strict, (a + b) + rest, "") == (la + lb) + Lex(strict, rest, "")
  {
    assert (a + b) + rest == a + (b + rest);
  }

  lemma {:induction false} LexKid(o: Options, strict: bool, kids: seq<Node>, i: nat, rest: string)
    requires NoStemming(o) && Delimited(rest) && i < |kids|
    ensures Lex(strict, PrintKid(o, kids, i) + rest, "") == KidLexemes(kids, i) + Lex(strict, rest, "")
    decreases kids, 0
  {
    var near := BeforeNear(kids, i);
    var node := PrintNode(o, kids[i], near);
    LexNode(o, strict, kids[i], near, rest);
    if i > 0 {
      LexOperator(strict, kids[i].op, node + rest);
      LexCompose(strict, Separator(kids[i].op), OpLexemes(kids[i].op), node, NodeLexemes(kids[i]), rest);
    } else {
      assert PrintKid(o, kids, i) == node;
      assert KidLexemes(kids, i) == NodeLexemes(kids[i]);
    }
  }

  lemma {:induction false} LexJoined(o: Options, strict: bool, kids: seq<Node>, i: nat, rest: string)
    requires NoStemming(o) && Delimited(rest) && i <= |kids|
    ensures Lex(strict, Joined(o, kids, i) + rest, "") == JoinedLexemes(kids, i) + Lex(strict, rest, "")
    decreases kids, |kids| - i + 1
  {
    if i == |kids| {
      assert Joined(o, kids, i) + rest == rest;
    } else {
      var later := Joined(o, kids, i + 1) + rest;
      JoinedDelimited(o, kids, i + 1, rest);
      LexJoined(o, strict, kids, i + 1, rest);
      LexKid(o, strict, kids, i, later);
      LexCompose(strict, PrintKid(o, kids, i), KidLexemes(kids, i), Joined(o, kids, i + 1), JoinedLexemes(kids, i + 1), rest);
    }
  }

  lemma JoinedDelimited(o: Options, kids: seq<Node>, i: nat, rest: string)
    requires 0 < i <= |kids| && Delimited(rest)
    ensures Delimited(Joined(o, kids, i) + rest)
  {
    if i < |kids| {
      assert PrintKid(o, kids, i)[0] == Separator(kids[i].op)[0];
    } else {
      assert Joined(o, kids, i) + rest == rest;
    }
  }

  /** Reading a printed tree gives exactly its lexemes, whatever the quote policy. */
  lemma LexPrinted(o: Options, strict: bool, kids: seq<Node>)
    requires NoStemming(o)
    ensures Lex(strict, PrintBody(o, kids), "") == BodyLexemes(kids)
  {
    LexBody(o, strict, kids, "");
    assert PrintBody(o, kids) + "" == PrintBody(o, kids);
  }

  // ----- the tree that the lexemes of a tree build -----

  /** NEAR was accepted after a group that had no children; once printed, that group has one. */
  predicate NearAfterEmptyGroup(kids: seq<Node>, i: nat)
    requires i < |kids|
  {
    i > 0 && kids[i].op == Near && EmptyGroup(kids[i - 1])
  }

  /** Some child from i on, or something below one, is joined by NEAR to an empty group. */
  predicate NearTrouble(kids: seq<Node>, i: nat)
    requires i <= |kids|
    decreases kids, |kids| - i
  {
    i < |kids| &&
    (NearAfterEmptyGroup(kids, i) || (kids[i].Group? && NearTrouble(kids[i].kids, 0)) || NearTrouble(kids, i + 1))
  }

  /** The operator child i gets on re-reading; inherited is the operator pending when its group opened. */
  function RereadOp(kids: seq<Node>, i: nat, inherited: Op): Op
    requires i < |kids|
  {
    if i == 0 then (if kids[0].Term? then And else inherited)
    else if NearAfterEmptyGroup(kids, i) then And
    else kids[i].op
  }

  function RereadNode(o: Options, n: Node, op: Op): Node
    decreases n, 0
  {
    match n
    case Term(_, text, _, _) => MakeTerm(o, op, Squeeze(text))
    case Group(_, kids) => Group(op, RereadBody(o, kids, op))
  }

  /** The first i children as they come back. */
  function RereadKids(o: Options, kids: seq<Node>, i: nat, inherited: Op): (r: seq<Node>)
    requires i <= |kids|
    ensures |r| == i
    decreases kids, i
  {
    if i == 0 then []
    else RereadKids(o, kids, i - 1, inherited) + [RereadNode(o, kids[i - 1], RereadOp(kids, i - 1, inherited))]
  }

  function RereadBody(o: Options, kids: seq<Node>, inherited: Op): (r: seq<Node>)
    ensures r != []
    decreases kids, |kids| + 2
  {
    if kids == [] then [MakeTerm(o, And, Squeeze(""))] else RereadKids(o, kids, |kids|, inherited)
  }

  /** How child i may be joined to the one before it. */
  predicate WellJoined(kids: seq<Node>, i: nat)
    requires i < |kids|
  {
    && (kids[i].op == Near ==> i > 0 && kids[i].Term? && !HasKids(kids[i - 1]))
    && (i == 0 && kids[i].Term? ==> kids[i].op == And)
    && (kids[i].Term? && !kids[i].prefix ==> '*' !in kids[i].text)
  }

  /** What AddTerm and AddSubexpression keep of every tree. */
  predicate WellBuilt(kids: seq<Node>)
    decreases kids
  {
    forall i :: 0 <= i < |kids| ==> WellJoined(kids, i) && (kids[i].Group? ==> WellBuilt(kids[i].kids))
  }

  function Then(o: Options, r: Result<State>, lxs: seq<Lexeme>): Result<State> {
    match r
    case Ok(st) => Build(o, lxs, st)
    case Err(e) => Err(e)
  }

  lemma {:induction false} BuildAppend(o: Options, a: seq<Lexeme>, b: seq<Lexeme>, st: State)
    ensures Build(o, a + b, st) == Then(o, Build(o, a, st), b)
  {
    if a == [] {
      assert a + b == b;
    } else {
      assert (a + b)[1..] == a[1..] + b;
      match Step(o, st, a[0])
      case Ok(st') => BuildAppend(o, a[1..], b, st');
      case Err(_) =>
    }
  }

  lemma BuildOne(o: Options, lx: Lexeme, st: State)
    ensures Build(o, [lx], st) == Step(o, st, lx)
  {
    match Step(o, st, lx)
    case Ok(st') => assert Build(o, [lx][1..], st') == Ok(st');
    case Err(_) =>
  }

  /** Nesting depth, where a closing parenthesis at the root changes nothing. */
  function ClampedDepth(lxs: seq<Lexeme>): nat {
    if lxs == [] then 0
    else
      var d := ClampedDepth(lxs[..|lxs| - 1]);
      match lxs[|lxs| - 1]
      case Open => d + 1
      case Close => if d == 0 then 0 else d - 1
      case _ => d
  }

  lemma BuildSnoc(o: Options, lxs: seq<Lexeme>, st: State)
    requires lxs != []
    ensures Build(o, lxs, st) == Then(o, Build(o, lxs[..|lxs| - 1], st), [lxs[|lxs| - 1]])
  {
    assert lxs == lxs[..|lxs| - 1] + [lxs[|lxs| - 1]];
    BuildAppend(o, lxs[..|lxs| - 1], [lxs[|lxs| - 1]], st);
  }

  /** The number of open groups is the clamped parenthesis depth of what was read. */
  lemma {:induction false} DepthIsClamped(o: Options, lxs: seq<Lexeme>)
    requires Build(o, lxs, Start).Ok?
    ensures |Build(o, lxs, Start).value.outer| == ClampedDepth(lxs)
  {
    if lxs != [] {
      var before, lx := lxs[..|lxs| - 1], lxs[|lxs| - 1];
      BuildSnoc(o, lxs, Start);
      DepthIsClamped(o, before);
      BuildOne(o, lx, Build(o, before, Start).value);
    }
  }

  /** The printed words of an operator set exactly that operator. */
  lemma BuildOperator(o: Options, op: Op, st: State)
    requires st.lastOp == And
    ensures Build(o, OpLexemes(op), st) == Ok(st.(lastOp := op))
  {
    if op == AndNot {
      assert OpLexemes(op) == [Bare("and")] + [Bare("not")];
      BuildAppend(o, [Bare("and")], [Bare("not")], st);
      BuildOne(o, Bare("and"), st);
      BuildOne(o, Bare("not"), st);
      assert SameWord("and", "and") && SameWord("not", "not") && |"not"| == 3 && |"and"| == 3;
      assert !SameWord("not", "and") by { assert "not"[0] == 'n' && "and"[0] == 'a'; }
    } else {
      BuildOne(o, Bare(OpText(op)), st);
      assert SameWord(OpText(op), OpText(op));
      assert |OpText(And)| == 3 && |OpText(Or)| == 2 && |OpText(Near)| == 4;
    }
  }

  /** The state after child i, when nothing goes wrong. */
  function After(o: Options, kids: seq<Node>, i: nat, inherited: Op, outer: seq<Frame>, op: Op): State
    requires i <= |kids|
  {
    State(outer, Frame(op, RereadKids(o, kids, i, inherited)), if i == 0 then inherited else And)
  }

  lemma BuildTermKid(o: Options, kids: seq<Node>, i: nat, inherited: Op, outer: seq<Frame>, op: Op)
    requires i < |kids| && kids[i].Term? && WellJoined(kids, i)
    ensures
      var pending := if i == 0 then inherited else kids[i].op;
      var st := After(o, kids, i, inherited, outer, op).(lastOp := pending);
      PutTerm(o, st, Squeeze(kids[i].text)) ==
        if o.throwNear && NearAfterEmptyGroup(kids, i)
        then Err(NearAfterGroup) else Ok(After(o, kids, i + 1, inherited, outer, op))
  {
    var done := RereadKids(o, kids, i, inherited);
    if i > 0 {
      var left := RereadNode(o, kids[i - 1], RereadOp(kids, i - 1, inherited));
      assert done == RereadKids(o, kids, i - 1, inherited) + [left];
      assert done[|done| - 1] == left;
      assert HasKids(left) <==> kids[i - 1].Group?;
    }
    var again := MakeTerm(o, RereadOp(kids, i, inherited), Squeeze(kids[i].text));
    assert RereadNode(o, kids[i], RereadOp(kids, i, inherited)) == again;
    assert RereadKids(o, kids, i + 1, inherited) == done + [again];
    if i == 0 {
      assert done == [] && again.op == And;
      assert AddTerm(o, done, inherited, Squeeze(kids[i].text)) == Ok([again]);
      assert done + [again] == [again];
    } else if o.throwNear && NearAfterEmptyGroup(kids, i) {
      assert AddTerm(o, done, kids[i].op, Squeeze(kids[i].text)) == Err(NearAfterGroup);
    } else {
      assert AddTerm(o, done, kids[i].op, Squeeze(kids[i].text)) == Ok(done + [again]);
    }
  }

  lemma {:induction false} BuildNode(o: Options, kids: seq<Node>, i: nat, inherited: Op, outer: seq<Frame>, op: Op)
    requires i < |kids| && WellBuilt(kids) && inherited != Near
    ensures
      var pending := if i == 0 then inherited else kids[i].op;
      var st := After(o, kids, i, inherited, outer, op).(lastOp := pending);
      Build(o, NodeLexemes(kids[i]), st) ==
        if o.throwNear && (NearAfterEmptyGroup(kids, i) || (kids[i].Group? && NearTrouble(kids[i].kids, 0)))
        then Err(NearAfterGroup) else Ok(After(o, kids, i + 1, inherited, outer, op))
    decreases kids, 0
  {
    var pending := if i == 0 then inherited else kids[i].op;
    var st := After(o, kids, i, inherited, outer, op).(lastOp := pending);
    assert WellJoined(kids, i);
    match kids[i]
    case Term(_, text, _, _) =>
      BuildOne(o, Quoted(text), st);
      BuildTermKid(o, kids, i, inherited, outer, op);
    case Group(_, inner) =>
      BuildGroup(o, inner, st, pending);
      var again := Group(pending, RereadBody(o, inner, pending));
      assert RereadOp(kids, i, inherited) == pending;
      assert RereadKids(o, kids, i + 1, inherited) == st.top.kids + [again];
  }

  /** A printed group read in any state whose pending operator is not NEAR. */
  lemma {:induction false} BuildGroup(o: Options, inner: seq<Node>, st: State, op: Op)
    requires WellBuilt(inner) && st.lastOp == op != Near
    ensures Build(o, [Open] + BodyLexemes(inner) + [Close], st) ==
            if o.throwNear && NearTrouble(inner, 0) then Err(NearAfterGroup)
            else Ok(State(st.outer, Frame(st.top.op, st.top.kids + [Group(op, RereadBody(o, inner, op))]), And))
    decreases inner, |inner| + 3
  {
    var outer := st.outer + [st.top];
    var inside := State(outer, Frame(op, []), op);
    assert [Open] + BodyLexemes(inner) + [Close] == [Open] + (BodyLexemes(inner) + [Close]);
    BuildAppend(o, [Open], BodyLexemes(inner) + [Close], st);
    BuildOne(o, Open, st);
    BuildAppend(o, BodyLexemes(inner), [Close], inside);
    BuildBody(o, inner, op, outer);
    var body := State(outer, Frame(op, RereadBody(o, inner, op)), And);
    BuildOne(o, Close, body);
    assert outer[..|outer| - 1] == st.outer;
  }

  lemma {:induction false} BuildBody(o: Options, kids: seq<Node>, op: Op, outer: seq<Frame>)
    requires WellBuilt(kids) && op != Near
    ensures Build(o, BodyLexemes(kids), State(outer, Frame(op, []), op)) ==
            if o.throwNear && NearTrouble(kids, 0) then Err(NearAfterGroup)
            else Ok(State(outer, Frame(op, RereadBody(o, kids, op)), And))
    decreases kids, |kids| + 2
  {
    if kids == [] {
      BuildOne(o, Quoted(""), State(outer, Frame(op, []), op));
    } else {
      BuildJoined(o, kids, 0, op, outer, op);
    }
  }

  lemma {:induction false} BuildJoined(o: Options, kids: seq<Node>, i: nat, inherited: Op, outer: seq<Frame>, op: Op)
    requires i <= |kids| && WellBuilt(kids) && inherited != Near
    ensures Build(o, JoinedLexemes(kids, i), After(o, kids, i, inherited, outer, op)) ==
            if o.throwNear && NearTrouble(kids, i) then Err(NearAfterGroup)
            else Ok(After(o, kids, |kids|, inherited, outer, op))
    decreases kids, |kids| - i + 1
  {
    if i < |kids| {
      var st := After(o, kids, i, inherited, outer, op);
      BuildAppend(o, KidLexemes(kids, i), JoinedLexemes(kids, i + 1), st);
      BuildNode(o, kids, i, inherited, outer, op);
      if i > 0 {
        BuildAppend(o, OpLexemes(kids[i].op), NodeLexemes(kids[i]), st);
        BuildOperator(o, kids[i].op, st);
      } else {
        assert KidLexemes(kids, i) == NodeLexemes(kids[i]);
      }
      BuildJoined(o, kids, i + 1, inherited, outer, op);
    }
  }
}
