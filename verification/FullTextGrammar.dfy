/** Valid full-text conditions as a small grammar of their own, and when a normal form is one. */
module FullTextGrammar {
  import opened FullTextText
  import opened FullTextLexer
  import opened FullTextTree
  import opened FullTextRoundTrip
  import opened FullTextFixedPoint

  /** A quoted literal, its inflectional forms, or a condition in parentheses. */
  datatype Item = Word(text: string) | Forms(text: string) | Nested(condition: Condition)

  /** Items with operators in between. */
  datatype Condition = Single(item: Item) | Linked(item: Item, op: Op, rest: Condition)

  function First(c: Condition): Item {
    c.item
  }

  /** NEAR stands only between quoted literals, and no prefix is inflected. */
  predicate Valid(c: Condition) {
    && ValidItem(c.item)
    && (c.Linked? ==> Valid(c.rest) && (c.op == Near ==> c.item.Word? && First(c.rest).Word?))
  }

  predicate ValidItem(i: Item) {
    match i
    case Word(_) => true
    case Forms(text) => '*' !in text
    case Nested(c) => Valid(c)
  }

  const FORMS := "formsof(inflectional, "

  function ShowItem(i: Item): string {
    match i
    case Word(text) => Literal(text)
    case Forms(text) => FORMS + (Literal(text) + ")")
    case Nested(c) => "(" + (Show(c) + ")")
  }

  function Show(c: Condition): string {
    match c
    case Single(i) => ShowItem(i)
    case Linked(i, op, rest) => ShowItem(i) + (Separator(op) + Show(rest))
  }

  ghost predicate InGrammar(s: string) {
    exists c :: Valid(c) && Show(c) == s
  }

  // ----- a text is the form of one condition at most -----

  lemma LiteralUnique(a: string, rest: string, b: string, rest': string)
    requires Literal(a) + rest == Literal(b) + rest' && Delimited(rest) && Delimited(rest')
    ensures a == b && rest == rest'
  {
    hide ReadQuote;
    var all := Literal(a) + rest;
    assert all[1..] == Double(a) + ("\"" + rest);
    assert all[1..] == Double(b) + ("\"" + rest');
    ReadQuoteUndoesDouble(false, a, rest);
    ReadQuoteUndoesDouble(false, b, rest');
  }

  predicate StartsItem(s: string) {
    s != "" && (s[0] == '"' || s[0] == 'f' || s[0] == '(')
  }

  lemma ShowStarts(c: Condition, rest: string)
    ensures StartsItem(Show(c) + rest)
  {
    assert StartsItem(ShowItem(c.item));
  }

  lemma SeparatorUnique(op: Op, s: string, op': Op, s': string)
    requires Separator(op) + s == Separator(op') + s' && StartsItem(s) && StartsItem(s')
    ensures op == op' && s == s'
  {
    var all := Separator(op) + s;
    assert all[|Separator(op)|] == s[0] && all[|Separator(op')|] == s'[0];
    assert all[1] == OpText(op)[0] == OpText(op')[0];
    assert all[|Separator(op)|..] == s && all[|Separator(op')|..] == s';
  }

  /** The first character tells which kind of item follows. */
  lemma ItemStarts(i: Item)
    ensures ShowItem(i) != "" && ShowItem(i)[0] == match i case Word(_) => '"' case Forms(_) => 'f' case Nested(_) => '('
  {
  }

  lemma {:induction false} ItemUnique(i: Item, rest: string, j: Item, rest': string)
    requires ShowItem(i) + rest == ShowItem(j) + rest' && Delimited(rest) && Delimited(rest')
    ensures i == j && rest == rest'
    decreases i
  {
    hide Literal, Delimited, Valid, Show;
    ItemStarts(i);
    ItemStarts(j);
    var all := ShowItem(i) + rest;
    assert ShowItem(i)[0] == all[0] == ShowItem(j)[0];
    CloseDelimits(rest);
    CloseDelimits(rest');
    match i
    case Word(a) => LiteralUnique(a, rest, j.text, rest');
    case Forms(a) =>
      assert all[|FORMS|..] == Literal(a) + (")" + rest);
      assert all[|FORMS|..] == Literal(j.text) + (")" + rest');
      LiteralUnique(a, ")" + rest, j.text, ")" + rest');
      DropFirst(")", rest, rest');
    case Nested(c) =>
      assert all[1..] == Show(c) + (")" + rest);
      assert all[1..] == Show(j.condition) + (")" + rest');
      ShowUnique(c, ")" + rest, j.condition, ")" + rest');
      DropFirst(")", rest, rest');
  }

  lemma CloseDelimits(rest: string)
    ensures Delimited(")" + rest)
  {
  }

  lemma DropFirst(a: string, s: string, s': string)
    requires a + s == a + s'
    ensures s == s'
  {
    assert (a + s)[|a|..] == s && (a + s')[|a|..] == s';
  }

  predicate Ends(rest: string) {
    rest != "" ==> rest[0] == ')'
  }

  lemma {:induction false} ShowUnique(c: Condition, rest: string, d: Condition, rest': string)
    requires Show(c) + rest == Show(d) + rest' && Ends(rest) && Ends(rest')
    ensures c == d && rest == rest'
    decreases c
  {
    hide ShowItem;
    var tail, tail' := After(c, rest), After(d, rest');
    AfterFacts(c, rest);
    AfterFacts(d, rest');
    ItemUnique(c.item, tail, d.item, tail');
    if c.Linked? {
      assert tail[0] == ' ';
      assert d.Linked?;
      ShowStarts(c.rest, rest);
      ShowStarts(d.rest, rest');
      SeparatorUnique(c.op, Show(c.rest) + rest, d.op, Show(d.rest) + rest');
      ShowUnique(c.rest, rest, d.rest, rest');
    }
  }

  /** What comes behind the first item of a condition that is followed by rest. */
  function After(c: Condition, rest: string): string {
    if c.Single? then rest else Separator(c.op) + (Show(c.rest) + rest)
  }

  lemma AfterFacts(c: Condition, rest: string)
    requires Ends(rest)
    ensures Show(c) + rest == ShowItem(c.item) + After(c, rest) && Delimited(After(c, rest))
    ensures c.Linked? ==> After(c, rest) != "" && After(c, rest)[0] == ' '
  {
    if c.Linked? {
      assert (ShowItem(c.item) + (Separator(c.op) + Show(c.rest))) + rest
          == ShowItem(c.item) + (Separator(c.op) + (Show(c.rest) + rest));
    }
  }

  // ----- the condition that a tree prints as -----

  function ItemOf(o: Options, n: Node, beforeNear: bool): Item
    decreases n, 0
  {
    match n
    case Term(_, text, _, _) => if DoStem(o, n, beforeNear) then Forms(text) else Word(text)
    case Group(_, kids) => Nested(BodyOf(o, kids))
  }

  function KidsOf(o: Options, kids: seq<Node>, i: nat): Condition
    requires i < |kids|
    decreases kids, |kids| - i
  {
    var item := ItemOf(o, kids[i], BeforeNear(kids, i));
    if i + 1 == |kids| then Single(item) else Linked(item, kids[i + 1].op, KidsOf(o, kids, i + 1))
  }

  function BodyOf(o: Options, kids: seq<Node>): Condition
    decreases kids, |kids| + 1
  {
    if kids == [] then Single(Word("")) else KidsOf(o, kids, 0)
  }

  lemma {:induction false} ItemShows(o: Options, n: Node, beforeNear: bool)
    ensures ShowItem(ItemOf(o, n, beforeNear)) == PrintNode(o, n, beforeNear)
    decreases n, 0
  {
    match n
    case Term(_, text, _, _) => assert FORMS + (Literal(text) + ")") == "formsof(inflectional, " + Literal(text) + ")";
    case Group(_, kids) =>
      BodyShows(o, kids);
      assert "(" + (PrintBody(o, kids) + ")") == "(" + PrintBody(o, kids) + ")";
  }

  lemma {:induction false} KidsShow(o: Options, kids: seq<Node>, i: nat)
    requires i < |kids|
    ensures Joined(o, kids, i)
            == (if i > 0 then Separator(kids[i].op) else "") + Show(KidsOf(o, kids, i))
    decreases kids, |kids| - i
  {
    var node := PrintNode(o, kids[i], BeforeNear(kids, i));
    var before := if i > 0 then Separator(kids[i].op) else "";
    ItemShows(o, kids[i], BeforeNear(kids, i));
    if i + 1 == |kids| {
      assert (before + node) + "" == before + node;
    } else {
      KidsShow(o, kids, i + 1);
      var later := Separator(kids[i + 1].op) + Show(KidsOf(o, kids, i + 1));
      assert (before + node) + later == before + (node + later);
    }
  }

  lemma {:induction false} BodyShows(o: Options, kids: seq<Node>)
    ensures Show(BodyOf(o, kids)) == PrintBody(o, kids)
    decreases kids, |kids| + 1
  {
    if kids != [] {
      KidsShow(o, kids, 0);
      assert "" + Show(KidsOf(o, kids, 0)) == Show(KidsOf(o, kids, 0));
    }
  }

  lemma {:induction false} KidsValid(o: Options, kids: seq<Node>, i: nat)
    requires i < |kids| && WellBuilt(kids)
    ensures Valid(KidsOf(o, kids, i)) && !NearAfterEmptyGroup(kids, i) <==> !NearTrouble(kids, i)
    decreases kids, |kids| - i
  {
    var n := kids[i];
    assert WellJoined(kids, i);
    if n.Group? {
      BodyValid(o, n.kids);
    }
    if i + 1 < |kids| {
      assert WellJoined(kids, i + 1);
      KidsValid(o, kids, i + 1);
    }
  }

  lemma {:induction false} BodyValid(o: Options, kids: seq<Node>)
    requires WellBuilt(kids)
    ensures Valid(BodyOf(o, kids)) <==> !NearTrouble(kids, 0)
    decreases kids, |kids| + 1
  {
    if kids != [] {
      KidsValid(o, kids, 0);
    }
  }

  // ----- normal forms -----

  /**
   * A normal form is a valid condition exactly when the condition's tree has no NEAR behind an empty group, whatever the
   * options.
   */
  lemma NormalFormIsValid(o: Options, condition: string)
    requires Normalise(o, condition).Ok?
    ensures InGrammar(Normalise(o, condition).value.normalForm) <==> !NearTrouble(Parse(o, condition).value, 0)
  {
    var kids := Parse(o, condition).value;
    var c := BodyOf(o, kids);
    ParsedTree(o, condition);
    BodyShows(o, kids);
    BodyValid(o, kids);
    if d :| Valid(d) && Show(d) == PrintBody(o, kids) {
      assert Show(c) + "" == Show(d) + "";
      ShowUnique(c, "", d, "");
    }
  }
}
