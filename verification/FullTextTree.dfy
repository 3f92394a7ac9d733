/** The expression tree: how lexemes build it and how it prints. */
module FullTextTree {
  import opened FullTextText
  import opened FullTextLexer

  /** A child of an expression. phrase and prefix describe the text before it was pruned. */
  datatype Node =
    | Term(op: Op, text: string, phrase: bool, prefix: bool)
    | Group(op: Op, kids: seq<Node>)

  /** An open group: its operator and the children it has so far. */
  datatype Frame = Frame(op: Op, kids: seq<Node>)

  /** The parser between two tokens: the enclosing groups (root first), the current one, the operator read. */
  datatype State = State(outer: seq<Frame>, top: Frame, lastOp: Op)

  function MakeTerm(o: Options, op: Op, raw: string): Node {
    Term(op, Prune(o, raw), ' ' in raw, '*' in raw)
  }

  predicate EmptyGroup(n: Node) {
    n.Group? && n.kids == []
  }

  predicate HasKids(n: Node) {
    n.Group? && n.kids != []
  }

  function AddTerm(o: Options, kids: seq<Node>, op: Op, raw: string): Result<seq<Node>> {
    if kids == [] then Ok([MakeTerm(o, And, raw)])
    else if op == Near && HasKids(kids[|kids| - 1]) then
      if o.throwNear then Err(NearAfterGroup) else Ok(kids + [MakeTerm(o, And, raw)])
    else Ok(kids + [MakeTerm(o, op, raw)])
  }

  function PutTerm(o: Options, st: State, raw: string): Result<State> {
    match AddTerm(o, st.top.kids, st.lastOp, raw)
    case Ok(kids) => Ok(State(st.outer, Frame(st.top.op, kids), And))
    case Err(e) => Err(e)
  }

  function PushGroup(o: Options, st: State): Result<State> {
    if st.lastOp == Near then
      if o.throwNear then Err(NearBeforeGroup)
      else Ok(State(st.outer + [st.top], Frame(And, []), st.lastOp))
    else Ok(State(st.outer + [st.top], Frame(st.lastOp, []), st.lastOp))
  }

  /** The innermost open group becomes the last child of the one around it. */
  function CloseTop(outer: seq<Frame>, top: Frame): Frame
    requires outer != []
  {
    var parent := outer[|outer| - 1];
    Frame(parent.op, parent.kids + [Group(top.op, top.kids)])
  }

  function PopGroup(o: Options, st: State): Result<State> {
    if st.outer == [] then
      if o.throwParens then Err(UnbalancedParens) else Ok(st.(lastOp := And))
    else Ok(State(st.outer[..|st.outer| - 1], CloseTop(st.outer, st.top), And))
  }

  function Step(o: Options, st: State, lx: Lexeme): Result<State> {
    match lx
    case Bare(w) =>
      (match TryParse(w, st.lastOp)
       case Some(op) => Ok(st.(lastOp := op))
       case None => PutTerm(o, st, w))
    case Quoted(q) => PutTerm(o, st, Squeeze(q))
    case Open => PushGroup(o, st)
    case Close => PopGroup(o, st)
    case Unterminated => Err(UnbalancedQuotes)
  }

  function Build(o: Options, lxs: seq<Lexeme>, st: State): Result<State> {
    if lxs == [] then Ok(st)
    else match Step(o, st, lxs[0])
      case Ok(st') => Build(o, lxs[1..], st')
      case Err(e) => Err(e)
  }

  const Start: State := State([], Frame(And, []), And)

  /** The root's children once every open group is taken as it stands. */
  function CloseAll(outer: seq<Frame>, top: Frame): seq<Node>
    decreases |outer|
  {
    if outer == [] then top.kids
    else CloseAll(outer[..|outer| - 1], CloseTop(outer, top))
  }

  function Finish(o: Options, st: State): Result<seq<Node>> {
    if st.outer != [] && o.throwParens then Err(UnbalancedParens) else Ok(CloseAll(st.outer, st.top))
  }

  function BuildTree(o: Options, lxs: seq<Lexeme>): Result<seq<Node>> {
    match Build(o, lxs, Start)
    case Ok(st) => Finish(o, st)
    case Err(e) => Err(e)
  }

  /** The children of the root expression, or the exception the constructor throws. */
  function Parse(o: Options, condition: string): Result<seq<Node>> {
    BuildTree(o, Lex(o.throwQuotes, Sanitize(condition), ""))
  }

  // ----- printing -----

  /** DoStem: whether a term prints as formsof(...); beforeNear tells that NEAR joins its right sibling. */
  predicate DoStem(o: Options, n: Node, beforeNear: bool) {
    && n.Term? && |n.text| >= 2 && !n.prefix
    && (if n.phrase then o.stemPhrases else o.stemTerms)
    && n.op != Near && !beforeNear
  }

  predicate BeforeNear(kids: seq<Node>, i: nat)
    requires i < |kids|
  {
    i + 1 < |kids| && kids[i + 1].op == Near
  }

  function PrintTerm(stem: bool, text: string): string {
    if stem then "formsof(inflectional, " + Literal(text) + ")" else Literal(text)
  }

  function PrintNode(o: Options, n: Node, beforeNear: bool): string
    decreases n, 0
  {
    match n
    case Term(_, text, _, _) => PrintTerm(DoStem(o, n, beforeNear), text)
    case Group(_, kids) => "(" + PrintBody(o, kids) + ")"
  }

  /** Child i as it stands in its parent: preceded by its operator unless it is the first. */
  function PrintKid(o: Options, kids: seq<Node>, i: nat): string
    requires i < |kids|
    decreases kids, 0
  {
    (if i > 0 then Separator(kids[i].op) else "") + PrintNode(o, kids[i], BeforeNear(kids, i))
  }

  /** Children i and up. */
  function Joined(o: Options, kids: seq<Node>, i: nat): string
    requires i <= |kids|
    decreases kids, |kids| - i + 1
  {
    if i == |kids| then "" else PrintKid(o, kids, i) + Joined(o, kids, i + 1)
  }

  function PrintBody(o: Options, kids: seq<Node>): string
    decreases kids, |kids| + 2
  {
    if kids == [] then Literal("") else Joined(o, kids, 0)
  }

  /** The texts of the non-empty terms, in the order the expression enumerator visits them. */
  function Terms(kids: seq<Node>, i: nat): seq<string>
    requires i <= |kids|
    decreases kids, |kids| - i
  {
    if i == |kids| then []
    else (match kids[i]
          case Term(_, text, _, _) => if text == "" then [] else [text]
          case Group(_, inner) => Terms(inner, 0))
         + Terms(kids, i + 1)
  }

  datatype Search = Search(normalForm: string, searchTerms: seq<string>)

  /** The FullTextSearch constructor: NormalForm and SearchTerms, or the exception. */
  function Normalise(o: Options, condition: string): Result<Search> {
    match Parse(o, condition)
    case Ok(kids) => Ok(Search(PrintBody(o, kids), Terms(kids, 0)))
    case Err(e) => Err(e)
  }
}
