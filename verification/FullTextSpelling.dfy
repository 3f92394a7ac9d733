/**
 * What a condition means: expressions in words, phrases, operators and parentheses, all the ways in which one can be
 * written, and the normal form that each of them must get.
 */
module FullTextSpelling {
  import opened Basics
  import opened FullTextText
  import opened FullTextLexer
  import opened FullTextTree
  import opened FullTextRoundTrip

  // ----- how an expression is written -----

  /** A bare word, a quoted text, or an expression in parentheses with spaces inside them. */
  datatype Item = Word(word: string) | Phrase(text: string) | Nested(before: nat, inner: Chain, after: nat)

  /** What stands between two items: a symbol, an operator word, two of them, or spaces alone. */
  datatype Sign = Symbol(c: char) | One(word: string) | Two(first: string, gap: nat, second: string) | Blank

  /** Items and the signs between them, with the spaces around each sign. */
  datatype Chain = Last(item: Item) | More(item: Item, left: nat, sign: Sign, right: nat, rest: Chain)

  /** The operators of all the signs; words count in any letter case. */
  function Meaning(sign: Sign): Option<Op> {
    match sign
    case Symbol(c) =>
      if c in {'&', '+', ',', ';'} then Some(And)
      else if c in {'-', '!'} then Some(AndNot)
      else if c == '|' then Some(Or)
      else if c == '~' then Some(Near)
      else None
    case One(w) =>
      if AnyCase(w, "and") then Some(And)
      else if AnyCase(w, "not") then Some(AndNot)
      else if AnyCase(w, "or") then Some(Or)
      else if AnyCase(w, "near") then Some(Near)
      else None
    case Two(a, gap, b) => if AnyCase(a, "and") && gap > 0 && AnyCase(b, "not") then Some(AndNot) else None
    case Blank => Some(And)
  }

  function Spaces(n: nat): (r: string)
    ensures |r| == n && forall i :: 0 <= i < n ==> r[i] == ' '
  {
    if n == 0 then "" else " " + Spaces(n - 1)
  }

  function WriteSign(sign: Sign): string {
    match sign
    case Symbol(c) => [c]
    case One(w) => w
    case Two(a, gap, b) => a + (Spaces(gap) + b)
    case Blank => ""
  }

  function WriteItem(i: Item): string {
    match i
    case Word(w) => w
    case Phrase(text) => Literal(text)
    case Nested(before, inner, after) => "(" + (Spaces(before) + (Write(inner) + (Spaces(after) + ")")))
  }

  function Write(c: Chain): string {
    match c
    case Last(i) => WriteItem(i)
    case More(i, left, sign, right, rest) =>
      WriteItem(i) + (Spaces(left) + (WriteSign(sign) + (Spaces(right) + Write(rest))))
  }

  /** A word that is no operator and has no character of its own meaning. */
  predicate PlainWord(w: string) {
    && w != "" && (forall i :: 0 <= i < |w| ==> w[i] !in MARKS)
    && !AnyCase(w, "and") && !AnyCase(w, "not") && !AnyCase(w, "or") && !AnyCase(w, "near")
  }

  /** Words are plain, signs mean something, and spaces keep operator words apart from what is beside them. */
  predicate Proper(c: Chain) {
    && ProperItem(c.item)
    && (c.More? ==> Meaning(c.sign).Some? && ProperSpaces(c.sign, c.left, c.right) && Proper(c.rest))
  }

  predicate ProperSpaces(sign: Sign, left: nat, right: nat) {
    match sign
    case Symbol(_) => true
    case Blank => left + right > 0
    case _ => left > 0 && right > 0
  }

  predicate ProperItem(i: Item) {
    match i
    case Word(w) => PlainWord(w)
    case Phrase(_) => true
    case Nested(_, inner, _) => Proper(inner)
  }

  // ----- what it must become -----

  /** NEAR does not reach into or out of parentheses; there it means AND. */
  function Joint(op: Op, left: Item, right: Item): Op {
    if op == Near && (left.Nested? || right.Nested?) then And else op
  }

  /** A text of two characters or more without an asterisk is inflected if the option for words, or for phrases, says so. */
  predicate Inflects(o: Options, text: string) {
    |text| >= 2 && '*' !in text && if ' ' in text then o.stemPhrases else o.stemTerms
  }

  /** nearLeft and nearRight tell whether NEAR joins the item to its neighbours. */
  function ExpectText(o: Options, text: string, nearLeft: bool, nearRight: bool): string {
    if Inflects(o, text) && !nearLeft && !nearRight then "formsof(inflectional, " + Literal(text) + ")"
    else Literal(Prune(o, text))
  }

  function ExpectItem(o: Options, i: Item, nearLeft: bool, nearRight: bool): string {
    match i
    case Word(w) => ExpectText(o, w, nearLeft, nearRight)
    case Phrase(text) => ExpectText(o, Squeeze(text), nearLeft, nearRight)
    case Nested(_, inner, _) => "(" + Expect(o, inner, false) + ")"
  }

  function Expect(o: Options, c: Chain, nearLeft: bool): string {
    match c
    case Last(i) => ExpectItem(o, i, nearLeft, false)
    case More(i, _, sign, _, rest) =>
      var op := JointOf(c);
      ExpectItem(o, i, nearLeft, op == Near) + (Separator(op) + Expect(o, rest, op == Near))
  }

  function JointOf(c: Chain): Op
    requires c.More?
  {
    Joint(SignOp(c.sign), c.item, c.rest.item)
  }

  function SignOp(sign: Sign): Op {
    if Meaning(sign).Some? then Meaning(sign).value else And
  }

  /** With ThrowOnInvalidNearUse, the first NEAR beside parentheses is refused. */
  function JointError(op: Op, left: Item, right: Item): Option<Error> {
    if op == Near && right.Nested? then Some(NearBeforeGroup)
    else if op == Near && left.Nested? then Some(NearAfterGroup)
    else None
  }

  function NearError(c: Chain): Option<Error> {
    var first := if c.item.Nested? then NearError(c.item.inner) else None;
    if first.Some? || c.Last? then first
    else if JointError(SignOp(c.sign), c.item, c.rest.item).Some? then JointError(SignOp(c.sign), c.item, c.rest.item)
    else NearError(c.rest)
  }

  // ----- reading what is written -----

  function SignLexemes(sign: Sign): seq<Lexeme> {
    match sign
    case Symbol(c) => [Bare([c])]
    case One(w) => [Bare(w)]
    case Two(a, _, b) => [Bare(a), Bare(b)]
    case Blank => []
  }

  function ItemLexemes(i: Item): seq<Lexeme> {
    match i
    case Word(w) => [Bare(w)]
    case Phrase(text) => [Quoted(text)]
    case Nested(_, inner, _) => [Open] + ChainLexemes(inner) + [Close]
  }

  function ChainLexemes(c: Chain): seq<Lexeme> {
    match c
    case Last(i) => ItemLexemes(i)
    case More(i, _, sign, _, rest) => ItemLexemes(i) + (SignLexemes(sign) + ChainLexemes(rest))
  }

  /** A word ends before anything that lets a quote close, too. */
  lemma {:induction false} LexToken(strict: bool, token: string, word: string, rest: string)
    requires token + word != "" && Delimited(rest) && forall i :: 0 <= i < |word| ==> !IsBreak(word[i])
    ensures Lex(strict, word + rest, token) == [Bare(token + word)] + Lex(strict, rest, "")
    decreases |word|
  {
    if word == "" {
      assert word + rest == rest && token + word == token;
    } else {
      assert (word + rest)[1..] == word[1..] + rest;
      assert (token + [word[0]]) + word[1..] == token + word;
      LexToken(strict, token + [word[0]], word[1..], rest);
    }
  }

  lemma LexPlain(strict: bool, word: string, rest: string)
    requires word != "" && Delimited(rest) && forall i :: 0 <= i < |word| ==> !IsBreak(word[i])
    ensures Lex(strict, word + rest, "") == [Bare(word)] + Lex(strict, rest, "")
  {
    LexToken(strict, "", word, rest);
    assert "" + word == word;
  }

  lemma {:induction false} LexSpaces(strict: bool, n: nat, rest: string)
    ensures Lex(strict, Spaces(n) + rest, "") == Lex(strict, rest, "")
  {
    if n == 0 {
      assert Spaces(0) + rest == rest;
    } else {
      LexSpaces(strict, n - 1, rest);
      LexSpace(strict, Spaces(n - 1) + rest);
      assert Spaces(n) + rest == " " + (Spaces(n - 1) + rest);
    }
  }

  lemma SpacesDelimit(n: nat, rest: string)
    requires n > 0 || Delimited(rest)
    ensures Delimited(Spaces(n) + rest)
  {
    assert n == 0 ==> Spaces(n) + rest == rest;
  }

  lemma OperatorLetters(w: string)
    requires AnyCase(w, "and") || AnyCase(w, "not") || AnyCase(w, "or") || AnyCase(w, "near")
    ensures w != "" && forall i :: 0 <= i < |w| ==> !IsBreak(w[i])
  {
  }

  lemma LexTwo(strict: bool, a: string, gap: nat, b: string, rest: string)
    requires AnyCase(a, "and") && gap > 0 && AnyCase(b, "not") && Delimited(rest)
    ensures Lex(strict, (a + (Spaces(gap) + b)) + rest, "") == [Bare(a)] + ([Bare(b)] + Lex(strict, rest, ""))
  {
    hide Lex;
    OperatorLetters(a);
    OperatorLetters(b);
    LexPlain(strict, b, rest);
    LexSpaces(strict, gap, b + rest);
    SpacesDelimit(gap, b + rest);
    LexPlain(strict, a, Spaces(gap) + (b + rest));
    assert (a + (Spaces(gap) + b)) + rest == a + (Spaces(gap) + (b + rest));
  }

  lemma LexSign(strict: bool, sign: Sign, right: nat, rest: string)
    requires Meaning(sign).Some? && (sign.One? || sign.Two? ==> right > 0 || Delimited(rest))
    ensures Lex(strict, WriteSign(sign) + (Spaces(right) + rest), "") == SignLexemes(sign) + Lex(strict, rest, "")
  {
    var end := Spaces(right) + rest;
    LexSpaces(strict, right, rest);
    match sign
    case Symbol(c) => assert ([c] + end)[1..] == end;
    case One(w) =>
      OperatorLetters(w);
      SpacesDelimit(right, rest);
      LexPlain(strict, w, end);
    case Two(a, gap, b) =>
      SpacesDelimit(right, rest);
      LexTwo(strict, a, gap, b, end);
      Associate([Bare(a)], [Bare(b)], Lex(strict, rest, ""));
    case Blank => assert "" + end == end;
  }

  lemma {:induction false} LexItem(strict: bool, i: Item, rest: string)
    requires ProperItem(i) && Delimited(rest)
    ensures Lex(strict, WriteItem(i) + rest, "") == ItemLexemes(i) + Lex(strict, rest, "")
    decreases i
  {
    match i
    case Word(w) => LexPlain(strict, w, rest);
    case Phrase(text) => LexLiteral(strict, text, rest);
    case Nested(before, inner, after) =>
      var tail := ")" + rest;
      assert tail[1..] == rest;
      LexParens(strict, Spaces(before) + (Write(inner) + (Spaces(after) + tail)), rest);
      hide Lex, Spaces;
      LexSpaces(strict, after, tail);
      SpacesDelimit(after, tail);
      LexChain(strict, inner, Spaces(after) + tail);
      LexSpaces(strict, before, Write(inner) + (Spaces(after) + tail));
      InParens(Spaces(before), Write(inner), Spaces(after), rest);
      Associate([Open], ChainLexemes(inner), [Close]);
      Associate([Open], ChainLexemes(inner) + [Close], Lex(strict, rest, ""));
      Associate(ChainLexemes(inner), [Close], Lex(strict, rest, ""));
  }

  lemma LexParens(strict: bool, inside: string, rest: string)
    ensures Lex(strict, "(" + inside, "") == [Open] + Lex(strict, inside, "")
    ensures Lex(strict, ")" + rest, "") == [Close] + Lex(strict, rest, "")
  {
    assert ("(" + inside)[1..] == inside && (")" + rest)[1..] == rest;
  }

  lemma InParens(before: string, inner: string, after: string, rest: string)
    ensures ("(" + (before + (inner + (after + ")")))) + rest == "(" + (before + (inner + (after + (")" + rest))))
  {
  }

  lemma {:induction false} LexChain(strict: bool, c: Chain, rest: string)
    requires Proper(c) && Delimited(rest)
    ensures Lex(strict, Write(c) + rest, "") == ChainLexemes(c) + Lex(strict, rest, "")
    decreases c
  {
    match c
    case Last(i) => LexItem(strict, i, rest);
    case More(i, left, sign, right, more) =>
      LexChain(strict, more, rest);
      hide Lex, WriteItem, WriteSign, SignLexemes, Delimited, Meaning;
      var later := Write(more) + rest;
      LexSign(strict, sign, right, later);
      LexSpaces(strict, left, WriteSign(sign) + (Spaces(right) + later));
      SignDelimits(sign, left, right, later);
      LexItem(strict, i, Spaces(left) + (WriteSign(sign) + (Spaces(right) + later)));
      Together(WriteItem(i), Spaces(left), WriteSign(sign), Spaces(right), Write(more), rest);
      Associate(SignLexemes(sign), ChainLexemes(more), Lex(strict, rest, ""));
      Associate(ItemLexemes(i), SignLexemes(sign) + ChainLexemes(more), Lex(strict, rest, ""));
  }

  lemma Together(a: string, b: string, c: string, d: string, e: string, f: string)
    ensures (a + (b + (c + (d + e)))) + f == a + (b + (c + (d + (e + f))))
  {
  }

  lemma SignDelimits(sign: Sign, left: nat, right: nat, rest: string)
    requires Meaning(sign).Some? && ProperSpaces(sign, left, right)
    ensures Delimited(Spaces(left) + (WriteSign(sign) + (Spaces(right) + rest)))
  {
    var signed := WriteSign(sign) + (Spaces(right) + rest);
    if left == 0 {
      assert Spaces(left) + signed == signed;
    }
  }

  // ----- the tree that is built -----

  /** The operator that the first item of a chain gets where op is pending and nothing stands before it. */
  function FirstOp(i: Item, op: Op): Op {
    if !i.Nested? || op == Near then And else op
  }

  function NodeOf(o: Options, i: Item, op: Op, pending: Op): Node
    decreases i
  {
    match i
    case Word(w) => MakeTerm(o, op, w)
    case Phrase(text) => MakeTerm(o, op, Squeeze(text))
    case Nested(_, inner, _) => Group(op, Nodes(o, inner, FirstOp(inner.item, pending), pending))
  }

  /** The children that a chain adds; the first gets op, while pending is the operator read before it. */
  function Nodes(o: Options, c: Chain, op: Op, pending: Op): (r: seq<Node>)
    ensures r != []
    decreases c
  {
    [NodeOf(o, c.item, op, pending)] + if c.Last? then [] else Nodes(o, c.rest, JointOf(c), SignOp(c.sign))
  }

  /** Whether an item is refused after children that end in prev, where op is pending. */
  function Refusal(kids: seq<Node>, op: Op, i: Item): Option<Error> {
    if op == Near && i.Nested? then Some(NearBeforeGroup)
    else if op == Near && kids != [] && HasKids(kids[|kids| - 1]) then Some(NearAfterGroup)
    else None
  }

  /** The operator an item gets after those children. */
  function OpAfter(kids: seq<Node>, op: Op, i: Item): Op {
    if kids == [] then FirstOp(i, op)
    else if op == Near && (i.Nested? || HasKids(kids[|kids| - 1])) then And
    else op
  }

  lemma NoPrefix(o: Options, text: string)
    requires '*' !in text
    ensures Prune(o, text) == text
  {
  }

  /** A sign sets the operator it means. */
  lemma BuildSign(o: Options, sign: Sign, st: State)
    requires Meaning(sign).Some? && st.lastOp == And
    ensures Build(o, SignLexemes(sign), st) == Ok(st.(lastOp := SignOp(sign)))
  {
    match sign
    case Symbol(c) =>
      BuildOne(o, Bare([c]), st);
      assert [c][0] == c;
    case One(w) =>
      BuildOne(o, Bare(w), st);
      ReadWord(w);
    case Two(a, _, b) =>
      assert SignLexemes(sign) == [Bare(a)] + [Bare(b)];
      BuildAppend(o, [Bare(a)], [Bare(b)], st);
      BuildOne(o, Bare(a), st);
      BuildOne(o, Bare(b), st);
      ReadWord(a);
      ReadWord(b);
    case Blank =>
  }

  /** The four words are told apart by the parser as they are by the table. */
  lemma ReadWord(w: string)
    ensures AnyCase(w, "and") ==> TryParse(w, And) == Some(And)
    ensures AnyCase(w, "not") ==> TryParse(w, And) == Some(AndNot)
    ensures AnyCase(w, "or") ==> TryParse(w, And) == Some(Or)
    ensures AnyCase(w, "near") ==> TryParse(w, And) == Some(Near)
  {
    SameWordIff(w, "and");
    SameWordIff(w, "not");
    SameWordIff(w, "or");
    SameWordIff(w, "near");
    assert |"and"| == 3 && |"not"| == 3 && |"or"| == 2 && |"near"| == 4;
    assert "and"[0] == 'a' && "not"[0] == 'n';
  }

  lemma ReadTerm(w: string, op: Op)
    requires PlainWord(w)
    ensures TryParse(w, op) == None
  {
    SameWordIff(w, "and");
    SameWordIff(w, "not");
    SameWordIff(w, "or");
    SameWordIff(w, "near");
    assert !IsBreak(w[0]);
  }

  /** The outcome of an item or a chain: the error, or the children added and no operator pending. */
  function Outcome(st: State, error: Option<Error>, added: seq<Node>): Result<State> {
    if error.Some? then Err(error.value) else Ok(State(st.outer, Frame(st.top.op, st.top.kids + added), And))
  }

  function Thrown(o: Options, error: Option<Error>): Option<Error> {
    if o.throwNear then error else None
  }

  function ItemError(i: Item): Option<Error> {
    if i.Nested? then NearError(i.inner) else None
  }

  lemma BuildTerm(o: Options, text: string, i: Item, st: State)
    requires !i.Nested? && Thrown(o, Refusal(st.top.kids, st.lastOp, i)) == None
    ensures PutTerm(o, st, text) == Outcome(st, None, [MakeTerm(o, OpAfter(st.top.kids, st.lastOp, i), text)])
  {
    hide MakeTerm;
    var node := MakeTerm(o, OpAfter(st.top.kids, st.lastOp, i), text);
    assert st.top.kids == [] ==> st.top.kids + [node] == [node];
  }

  lemma {:induction false} BuildItem(o: Options, i: Item, st: State)
    requires ProperItem(i) && Thrown(o, Refusal(st.top.kids, st.lastOp, i)) == None
    ensures Build(o, ItemLexemes(i), st)
            == Outcome(st, Thrown(o, ItemError(i)), [NodeOf(o, i, OpAfter(st.top.kids, st.lastOp, i), st.lastOp)])
    decreases i
  {
    match i
    case Word(w) =>
      BuildOne(o, Bare(w), st);
      ReadTerm(w, st.lastOp);
      BuildTerm(o, w, i, st);
    case Phrase(text) =>
      BuildOne(o, Quoted(text), st);
      BuildTerm(o, Squeeze(text), i, st);
    case Nested(_, inner, _) => BuildNested(o, i, st);
  }

  lemma {:induction false} BuildNested(o: Options, i: Item, st: State)
    requires i.Nested? && ProperItem(i) && Thrown(o, Refusal(st.top.kids, st.lastOp, i)) == None
    ensures Build(o, ItemLexemes(i), st)
            == Outcome(st, Thrown(o, ItemError(i)), [NodeOf(o, i, OpAfter(st.top.kids, st.lastOp, i), st.lastOp)])
    decreases i, 0
  {
    var op, inner := FirstOp(i, st.lastOp), i.inner;
    var inside := State(st.outer + [st.top], Frame(op, []), st.lastOp);
    var lxs := ChainLexemes(inner);
    BuildOne(o, Open, st);
    assert Step(o, st, Open) == Ok(inside);
    BuildChain(o, inner, inside);
    Associate([Open], lxs, [Close]);
    BuildAppend(o, [Open], lxs + [Close], st);
    BuildAppend(o, lxs, [Close], inside);
    var kids := Nodes(o, inner, FirstOp(inner.item, st.lastOp), st.lastOp);
    assert [] + kids == kids;
    var closing := State(inside.outer, Frame(op, kids), And);
    BuildOne(o, Close, closing);
    assert inside.outer[..|inside.outer| - 1] == st.outer;
  }

  /** A refused item throws before anything of it is added. */
  lemma {:induction false} BuildRefused(o: Options, c: Chain, st: State)
    requires Proper(c) && Thrown(o, Refusal(st.top.kids, st.lastOp, c.item)).Some?
    ensures Build(o, ChainLexemes(c), st) == Err(Refusal(st.top.kids, st.lastOp, c.item).value)
  {
    var lxs := ChainLexemes(c);
    match c.item
    case Word(w) => ReadTerm(w, st.lastOp);
    case Phrase(text) =>
    case Nested(_, _, _) =>
  }

  /** What the chain after the first item comes to. */
  lemma RestError(c: Chain)
    requires c.More? && ItemError(c.item) == None
    ensures NearError(c) == if JointError(SignOp(c.sign), c.item, c.rest.item).Some?
                            then JointError(SignOp(c.sign), c.item, c.rest.item) else NearError(c.rest)
  {
  }

  lemma {:induction false} BuildChain(o: Options, c: Chain, st: State)
    requires Proper(c) && Thrown(o, Refusal(st.top.kids, st.lastOp, c.item)) == None
    ensures Build(o, ChainLexemes(c), st)
            == Outcome(st, Thrown(o, NearError(c)), Nodes(o, c, OpAfter(st.top.kids, st.lastOp, c.item), st.lastOp))
    decreases c
  {
    var op := OpAfter(st.top.kids, st.lastOp, c.item);
    var node := NodeOf(o, c.item, op, st.lastOp);
    BuildItem(o, c.item, st);
    if c.Last? {
      assert [node] + [] == [node];
    } else {
      hide Build, Step, NodeOf, Nodes, NearError, OpAfter;
      var signs, later := SignLexemes(c.sign), ChainLexemes(c.rest);
      BuildAppend(o, ItemLexemes(c.item), signs + later, st);
      if Thrown(o, ItemError(c.item)).Some? {
        FirstError(c);
      } else {
        var st1 := State(st.outer, Frame(st.top.op, st.top.kids + [node]), And);
        BuildSign(o, c.sign, st1);
        BuildAppend(o, signs, later, st1);
        BuildRest(o, c, st, node, op);
      }
    }
  }

  lemma FirstError(c: Chain)
    requires ItemError(c.item).Some?
    ensures NearError(c) == ItemError(c.item)
  {
  }

  lemma NodeHasKids(o: Options, i: Item, op: Op, pending: Op)
    ensures HasKids(NodeOf(o, i, op, pending)) <==> i.Nested?
  {
  }

  /** The chain behind a first item that has become node. */
  lemma {:induction false} BuildRest(o: Options, c: Chain, st: State, node: Node, op: Op)
    requires Proper(c) && c.More? && Thrown(o, ItemError(c.item)) == None && node == NodeOf(o, c.item, op, st.lastOp)
    ensures var st2 := State(st.outer, Frame(st.top.op, st.top.kids + [node]), SignOp(c.sign));
            Build(o, ChainLexemes(c.rest), st2) == Outcome(st, Thrown(o, NearError(c)), Nodes(o, c, op, st.lastOp))
    decreases c, 0
  {
    var st2 := State(st.outer, Frame(st.top.op, st.top.kids + [node]), SignOp(c.sign));
    var error := Refusal(st2.top.kids, st2.lastOp, c.rest.item);
    SecondJoint(o, c, st, node, op);
    RestProper(c);
    hide Build, Step, Nodes, NodeOf, NearError, ChainLexemes, Proper, Meaning, Refusal, JointError, OpAfter, JointOf, SignOp;
    if Thrown(o, error).Some? {
      BuildRefused(o, c.rest, st2);
      RestError(c);
    } else {
      BuildChain(o, c.rest, st2);
      MoreNodes(o, c, op, st.lastOp);
      Associate(st.top.kids, [node], Nodes(o, c.rest, JointOf(c), SignOp(c.sign)));
      if o.throwNear {
        RestError(c);
      }
    }
  }

  lemma RestProper(c: Chain)
    requires Proper(c) && c.More?
    ensures Proper(c.rest)
  {
  }

  lemma MoreNodes(o: Options, c: Chain, op: Op, pending: Op)
    requires c.More?
    ensures Nodes(o, c, op, pending) == [NodeOf(o, c.item, op, pending)] + Nodes(o, c.rest, JointOf(c), SignOp(c.sign))
  {
  }

  /** How the second item stands behind the first. */
  lemma SecondJoint(o: Options, c: Chain, st: State, node: Node, op: Op)
    requires c.More? && node == NodeOf(o, c.item, op, st.lastOp)
    ensures Refusal(st.top.kids + [node], SignOp(c.sign), c.rest.item) == JointError(SignOp(c.sign), c.item, c.rest.item)
    ensures OpAfter(st.top.kids + [node], SignOp(c.sign), c.rest.item) == JointOf(c)
  {
    NodeHasKids(o, c.item, op, st.lastOp);
  }

  // ----- the text that is printed -----

  lemma NodeOp(o: Options, i: Item, op: Op, pending: Op)
    ensures NodeOf(o, i, op, pending).op == op
  {
  }

  /** The rest of the printed children, from those of a chain on. */
  lemma {:induction false} PrintChain(o: Options, c: Chain, op: Op, pending: Op, before: seq<Node>)
    requires Proper(c) && (before == [] ==> op != Near)
    ensures var kids := before + Nodes(o, c, op, pending);
            Joined(o, kids, |before|) == (if before == [] then "" else Separator(op)) + Expect(o, c, op == Near)
    decreases c
  {
    hide DoStem, Separator, ExpectItem, NodeOf;
    NodeOp(o, c.item, op, pending);
    var node, kids := NodeOf(o, c.item, op, pending), before + Nodes(o, c, op, pending);
    var i := |before|;
    assert kids[i] == node;
    if c.Last? {
      assert |kids| == i + 1;
      PrintItem(o, c.item, op, pending, false);
      assert Joined(o, kids, i + 1) == "";
    } else {
      var more := Nodes(o, c.rest, JointOf(c), SignOp(c.sign));
      assert kids == before + [node] + more;
      NodeOp(o, c.rest.item, JointOf(c), SignOp(c.sign));
      assert kids[i + 1] == more[0] && more[0].op == JointOf(c);
      PrintItem(o, c.item, op, pending, JointOf(c) == Near);
      PrintChain(o, c.rest, JointOf(c), SignOp(c.sign), before + [node]);
    }
  }

  lemma PrintText(o: Options, text: string, op: Op, beforeNear: bool)
    ensures PrintNode(o, MakeTerm(o, op, text), beforeNear) == ExpectText(o, text, op == Near, beforeNear)
  {
    if '*' !in text {
      NoPrefix(o, text);
    }
  }

  lemma {:induction false} PrintItem(o: Options, i: Item, op: Op, pending: Op, beforeNear: bool)
    requires ProperItem(i)
    ensures PrintNode(o, NodeOf(o, i, op, pending), beforeNear) == ExpectItem(o, i, op == Near, beforeNear)
    ensures NodeOf(o, i, op, pending).op == op
    decreases i
  {
    match i
    case Word(w) =>
      PrintText(o, w, op, beforeNear);
    case Phrase(text) => PrintText(o, Squeeze(text), op, beforeNear);
    case Nested(_, inner, _) =>
      var first := FirstOp(inner.item, pending);
      PrintChain(o, inner, first, pending, []);
      assert [] + Nodes(o, inner, first, pending) == Nodes(o, inner, first, pending);
      assert "" + Expect(o, inner, false) == Expect(o, inner, false);
  }

  // ----- what every way of writing means -----

  /** Control characters are read as spaces. */
  predicate ReadsAs(condition: string, written: string) {
    |condition| == |written| && forall i :: 0 <= i < |condition| ==>
      written[i] == if 1 <= condition[i] as int <= 0x1F then ' ' else condition[i]
  }

  predicate NoControls(s: string) {
    forall i :: 0 <= i < |s| ==> s[i] as int > 0x1F
  }

  /** An expression with a sign that joins nothing before it and one behind it, or none. */
  datatype Whole = Whole(before: nat, lead: Sign, gap: nat, chain: Chain, space: nat, trail: Sign, after: nat)

  function WriteWhole(w: Whole): string {
    Spaces(w.before) + (WriteSign(w.lead) + (Spaces(w.gap)
    + (Write(w.chain) + (Spaces(w.space) + (WriteSign(w.trail) + Spaces(w.after))))))
  }

  predicate ProperWhole(w: Whole) {
    && Proper(w.chain) && Meaning(w.lead).Some? && Meaning(w.trail).Some?
    && (w.lead.One? || w.lead.Two? ==> w.gap > 0) && (w.trail.One? || w.trail.Two? ==> w.space > 0)
  }

  function WholeError(w: Whole): Option<Error> {
    if SignOp(w.lead) == Near && w.chain.item.Nested? then Some(NearBeforeGroup) else NearError(w.chain)
  }

  /**
   * However an expression is written, with any signs for its operators, any spaces, control characters for spaces, and
   * operators that join nothing at its ends, and whatever the options, its normal form is the expression in the one standard
   * writing, its texts cleaned up; and ThrowOnInvalidNearUse refuses exactly a NEAR beside parentheses.
   */
  lemma NormalForm(o: Options, condition: string, w: Whole)
    requires ProperWhole(w) && ReadsAs(condition, WriteWhole(w))
    ensures var r := Normalise(o, condition);
            if o.throwNear && WholeError(w).Some? then r == Err(WholeError(w).value)
            else r.Ok? && r.value.normalForm == Expect(o, w.chain, false)
  {
    LexCondition(o.throwQuotes, condition, w);
    var op := SignOp(w.lead);
    var first, main, last := SignLexemes(w.lead), ChainLexemes(w.chain), SignLexemes(w.trail);
    var st := Start.(lastOp := op);
    BuildSign(o, w.lead, Start);
    BuildAppend(o, first, main + last, Start);
    BuildAppend(o, main, last, st);
    hide Lex, Step, Nodes, NearError, Write, Expect, Sanitize, ReadsAs, Spaces, ChainLexemes, SignLexemes, Proper, Build,
         PrintBody, Meaning, WriteWhole;
    if Thrown(o, Refusal([], op, w.chain.item)).Some? {
      BuildRefused(o, w.chain, st);
    } else {
      BuildChain(o, w.chain, st);
      FirstIsNotNear(w.chain.item, op);
      var kids := Nodes(o, w.chain, FirstOp(w.chain.item, op), op);
      assert [] + kids == kids;
      BuildSign(o, w.trail, State([], Frame(And, kids), And));
      PrintWhole(o, w.chain, op);
    }
  }

  lemma LexCondition(strict: bool, condition: string, w: Whole)
    requires ProperWhole(w) && ReadsAs(condition, WriteWhole(w))
    ensures Lex(strict, Sanitize(condition), "")
            == SignLexemes(w.lead) + (ChainLexemes(w.chain) + SignLexemes(w.trail))
  {
    assert Sanitize(condition) == WriteWhole(w);
    hide Lex, Write, Sanitize, ReadsAs, Spaces, ChainLexemes, Proper, WriteSign, SignLexemes, Meaning;
    var end := WriteSign(w.trail) + Spaces(w.after);
    var later := Spaces(w.space) + end;
    LexEnd(strict, w.trail, w.after);
    LexSpaces(strict, w.space, end);
    EndDelimits(w.trail, w.space, w.after);
    LexChain(strict, w.chain, later);
    LexSign(strict, w.lead, w.gap, Write(w.chain) + later);
    LexSpaces(strict, w.before, WriteSign(w.lead) + (Spaces(w.gap) + (Write(w.chain) + later)));
  }

  lemma LexEnd(strict: bool, sign: Sign, after: nat)
    requires Meaning(sign).Some?
    ensures Lex(strict, WriteSign(sign) + Spaces(after), "") == SignLexemes(sign)
  {
    LexSign(strict, sign, after, "");
    assert Spaces(after) + "" == Spaces(after);
    LexNothing(strict);
    assert SignLexemes(sign) + [] == SignLexemes(sign);
  }

  lemma EndDelimits(sign: Sign, space: nat, after: nat)
    requires Meaning(sign).Some? && (sign.One? || sign.Two? ==> space > 0)
    ensures Delimited(Spaces(space) + (WriteSign(sign) + Spaces(after)))
  {
    var end := WriteSign(sign) + Spaces(after);
    if space == 0 {
      assert Spaces(space) + end == end;
    }
  }

  lemma PrintWhole(o: Options, c: Chain, pending: Op)
    requires Proper(c)
    ensures PrintBody(o, Nodes(o, c, FirstOp(c.item, pending), pending)) == Expect(o, c, false)
  {
    hide Nodes, Expect, Joined;
    var kids := Nodes(o, c, FirstOp(c.item, pending), pending);
    FirstIsNotNear(c.item, pending);
    PrintChain(o, c, FirstOp(c.item, pending), pending, []);
    assert [] + kids == kids;
    assert "" + Expect(o, c, false) == Expect(o, c, false);
  }

  lemma FirstIsNotNear(i: Item, op: Op)
    ensures FirstOp(i, op) != Near
  {
  }

  lemma LexNothing(strict: bool)
    ensures Lex(strict, "", "") == []
  {
  }

  /** What may stand between two words for each operator. */
  predicate Stands(separator: string, op: Op) {
    match op
    case And => separator in {"&", "+", ",", ";", " "} || AnyCase(separator, " and ")
    case AndNot => separator in {"-", "!"} || AnyCase(separator, " and not ") || AnyCase(separator, " not ")
    case Or => separator == "|" || AnyCase(separator, " or ")
    case Near => separator == "~" || AnyCase(separator, " near ")
  }

  lemma Inside(separator: string, word: string)
    requires AnyCase(separator, " " + (word + " "))
    ensures |separator| == |word| + 2 && AnyCase(separator[1..|separator| - 1], word)
    ensures separator == " " + (separator[1..|separator| - 1] + " ")
  {
    var spaced, inner := " " + (word + " "), separator[1..|separator| - 1];
    forall i | 0 <= i < |word| ensures inner[i] == separator[i + 1] && spaced[i + 1] == word[i] { }
    assert spaced[0] == ' ' && spaced[|word| + 1] == ' ';
  }

  lemma WordMeans(w: string)
    ensures AnyCase(w, "and") ==> Meaning(One(w)) == Some(And)
    ensures AnyCase(w, "not") ==> Meaning(One(w)) == Some(AndNot)
    ensures AnyCase(w, "or") ==> Meaning(One(w)) == Some(Or)
    ensures AnyCase(w, "near") ==> Meaning(One(w)) == Some(Near)
  {
    assert |"and"| == 3 && |"not"| == 3 && |"or"| == 2 && |"near"| == 4;
    assert "and"[0] == 'a' && "not"[0] == 'n';
  }

  lemma TwoWords(w: string)
    requires AnyCase(w, "and not")
    ensures w == w[..3] + (" " + w[4..]) && Meaning(Two(w[..3], 1, w[4..])) == Some(AndNot)
  {
    assert "and not"[3] == ' ' && "and not"[..3] == "and" && "and not"[4..] == "not";
    forall i | 0 <= i < 3 ensures w[..3][i] == w[i] && w[4..][i] == w[i + 4] { }
  }

  /** An operator word with a space on either side. */
  lemma SpacedSign(separator: string, word: string, op: Op) returns (sign: Sign)
    requires AnyCase(separator, " " + (word + " "))
    requires (word, op) in {("and", And), ("and not", AndNot), ("not", AndNot), ("or", Or), ("near", Near)}
    ensures Meaning(sign) == Some(op) && ProperSpaces(sign, 1, 1)
    ensures separator == " " + (WriteSign(sign) + " ")
  {
    hide AnyCase, Meaning;
    Inside(separator, word);
    var inner := separator[1..|separator| - 1];
    if word == "and not" {
      TwoWords(inner);
      sign := Two(inner[..3], 1, inner[4..]);
      assert Spaces(1) == " ";
    } else {
      WordMeans(inner);
      sign := One(inner);
    }
  }

  lemma Spaced()
    ensures " and " == " " + ("and" + " ") && " and not " == " " + ("and not" + " ") && " not " == " " + ("not" + " ")
    ensures " or " == " " + ("or" + " ") && " near " == " " + ("near" + " ")
  {
  }

  lemma SymbolMeans(separator: string, op: Op)
    requires Stands(separator, op) && separator in {"&", "+", ",", ";", "-", "!", "|", "~"}
    ensures Meaning(Symbol(separator[0])) == Some(op)
  {
  }

  lemma BlankMeans(op: Op)
    requires Stands(" ", op)
    ensures op == And
  {
  }

  /** The sign that a separator is, with the spaces on its left and right. */
  lemma SignOf(separator: string, op: Op) returns (left: nat, sign: Sign, right: nat)
    requires Stands(separator, op)
    ensures Meaning(sign) == Some(op) && ProperSpaces(sign, left, right)
    ensures separator == Spaces(left) + (WriteSign(sign) + Spaces(right))
  {
    hide AnyCase;
    Spaced();
    assert Spaces(0) == "" && Spaces(1) == " ";
    if separator in {"&", "+", ",", ";", "-", "!", "|", "~"} {
      left, right, sign := 0, 0, Symbol(separator[0]);
      SymbolMeans(separator, op);
    } else if separator == " " {
      left, right, sign := 1, 0, Blank;
      BlankMeans(op);
    } else {
      left, right := 1, 1;
      var word := if op == And then "and" else if op == Or then "or" else if op == Near then "near"
                  else if AnyCase(separator, " and not ") then "and not" else "not";
      sign := SpacedSign(separator, word, op);
    }
  }

  lemma NothingAround(w: Whole)
    requires w == Whole(0, Blank, 0, w.chain, 0, Blank, 0)
    ensures WriteWhole(w) == Write(w.chain)
    ensures Proper(w.chain) ==> ProperWhole(w) && WholeError(w) == NearError(w.chain)
  {
    var s := Write(w.chain);
    assert "" + ("" + ("" + (s + ("" + ("" + ""))))) == s;
  }

  lemma SeparatorShown(separator: string, op: Op)
    requires Stands(separator, op)
    ensures NoControls(separator)
  {
  }

  lemma Written(c: Chain, a: string, left: nat, sign: Sign, right: nat, b: string)
    requires c == More(Word(a), left, sign, right, Last(Word(b))) && PlainWord(a) && PlainWord(b)
    requires Meaning(sign).Some? && ProperSpaces(sign, left, right)
    ensures Proper(c) && Write(c) == a + (Spaces(left) + (WriteSign(sign) + (Spaces(right) + b)))
    ensures NearError(c) == None
  {
    hide Spaces, PlainWord, Meaning;
    assert Write(c.rest) == b;
    assert Proper(c.rest);
  }

  lemma Standard(o: Options, c: Chain, a: string, b: string, op: Op)
    requires '*' !in a && '*' !in b && NoStemming(o)
    requires c.More? && c.item == Word(a) && c.rest == Last(Word(b)) && Meaning(c.sign) == Some(op)
    ensures Expect(o, c, false) == Literal(a) + (Separator(op) + Literal(b))
  {
    hide Meaning, Literal, Prune;
    NoPrefix(o, a);
    NoPrefix(o, b);
    assert Expect(o, c.rest, op == Near) == Literal(b);
    assert SignOp(c.sign) == op && JointOf(c) == op;
  }

  /** Every operator in every one of its writings between two words. */
  lemma OperatorTable(o: Options, a: string, separator: string, b: string, op: Op)
    requires NoStemming(o) && PlainWord(a) && PlainWord(b) && '*' !in a && '*' !in b && Stands(separator, op)
    requires NoControls(a) && NoControls(b)
    ensures var r := Normalise(o, a + separator + b);
            r.Ok? && r.value.normalForm == Literal(a) + Separator(op) + Literal(b)
  {
    hide Stands, Meaning, ProperSpaces, PlainWord;
    var left, sign, right := SignOf(separator, op);
    var c := More(Word(a), left, sign, right, Last(Word(b)));
    Written(c, a, left, sign, right, b);
    assert a + (Spaces(left) + (WriteSign(sign) + (Spaces(right) + b))) == a + separator + b;
    SeparatorShown(separator, op);
    var w := Whole(0, Blank, 0, c, 0, Blank, 0);
    NothingAround(w);
    NormalForm(o, a + separator + b, w);
    Standard(o, c, a, b, op);
    Associate(Literal(a), Separator(op), Literal(b));
  }

  // ----- patched conditions -----

  /** The signs that are operators wherever they stand; `!` and `not` are only where AND is pending. */
  predicate AlwaysSign(sign: Sign) {
    (sign.Symbol? || sign.One?) && Meaning(sign).Some? && sign != Symbol('!') && !(sign.One? && AnyCase(sign.word, "not"))
  }

  /** Of several signs in a row the last counts. */
  lemma LastSignCounts(o: Options, a: Sign, b: Sign, st: State)
    requires AlwaysSign(a) && AlwaysSign(b)
    ensures Build(o, SignLexemes(a) + SignLexemes(b), st) == Ok(st.(lastOp := SignOp(b)))
  {
    BuildAppend(o, SignLexemes(a), SignLexemes(b), st);
    SignAnywhere(o, a, st);
    SignAnywhere(o, b, st.(lastOp := SignOp(a)));
  }

  lemma SignAnywhere(o: Options, sign: Sign, st: State)
    requires AlwaysSign(sign)
    ensures Build(o, SignLexemes(sign), st) == Ok(st.(lastOp := SignOp(sign)))
  {
    match sign
    case Symbol(c) => BuildOne(o, Bare([c]), st);
    case One(w) =>
      BuildOne(o, Bare(w), st);
      SameWordIff(w, "and");
      SameWordIff(w, "not");
      SameWordIff(w, "or");
      SameWordIff(w, "near");
      assert |"and"| == 3 && |"not"| == 3 && |"or"| == 2 && |"near"| == 4;
  }

  /** Behind another operator than AND, `!` and `not` are terms. */
  lemma NotIsTerm(o: Options, w: string, st: State)
    requires st.lastOp != And && (w == "!" || AnyCase(w, "not"))
    ensures Build(o, [Bare(w)], st) == PutTerm(o, st, w)
  {
    BuildOne(o, Bare(w), st);
    SameWordIff(w, "and");
    SameWordIff(w, "not");
    SameWordIff(w, "or");
    SameWordIff(w, "near");
    assert |"and"| == 3 && |"not"| == 3 && |"or"| == 2 && |"near"| == 4;
    assert "and"[0] == 'a' && "not"[0] == 'n';
  }

  /** A closing parenthesis too many reads as the word and, where it throws nothing. */
  lemma StrayCloseIsAnd(o: Options, before: seq<Lexeme>, after: seq<Lexeme>)
    requires !o.throwParens && ClampedDepth(before) == 0
    ensures BuildTree(o, before + ([Close] + after)) == BuildTree(o, before + ([Bare("and")] + after))
  {
    BuildAppend(o, before, [Close] + after, Start);
    BuildAppend(o, before, [Bare("and")] + after, Start);
    if Build(o, before, Start).Ok? {
      var st := Build(o, before, Start).value;
      DepthIsClamped(o, before);
      BuildAppend(o, [Close], after, st);
      BuildAppend(o, [Bare("and")], after, st);
      BuildOne(o, Close, st);
      assert "and"[0] == 'a' && "not"[0] == 'n';
      SignAnywhere(o, One("and"), st);
    }
  }

  /** Groups still open at the end are closed there, where that throws nothing. */
  lemma MissingClose(o: Options, lxs: seq<Lexeme>)
    requires !o.throwParens
    ensures BuildTree(o, lxs + [Close]) == BuildTree(o, lxs)
  {
    BuildAppend(o, lxs, [Close], Start);
    if Build(o, lxs, Start).Ok? {
      BuildOne(o, Close, Build(o, lxs, Start).value);
    }
  }
}
