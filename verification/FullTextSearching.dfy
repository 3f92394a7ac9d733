/** The printer and the enumerator over the mutable tree, and the object that a search condition becomes. */
module FullTextSearching {
  import opened Basics
  import opened FullTextText
  import opened FullTextLexer
  import opened FullTextTree
  import opened FullTextHeap
  import opened FullTextParser

  // ----- ToString -----

  /** NEAR joins the right sibling, as the stored index and the parent's list tell. */
  ghost predicate NearOnRight(n: ConditionExpression, shape: Shape)
    requires n.parent != null ==> n.parent in shape
  {
    n.parent != null && n.index + 1 < |shape[n.parent]| && shape[n.parent][n.index + 1].op == Near
  }

  method DoStemOn(n: ConditionExpression, ghost shape: Shape, ghost limit: nat) returns (stem: bool)
    requires Forest(shape, limit, n.options) && Mirrors(shape) && n in shape
    ensures n.parent != null ==> n.parent in shape
    ensures stem == DoStem(n.options, ToNode(n, shape, limit, n.options), NearOnRight(n, shape))
  {
    assert Linked(n, shape, n.options);
    if !n.isTerm || |n.term| < 2 || n.isPrefix {
      return false;
    }
    if (!n.isPhrase && !n.options.stemTerms) || (n.isPhrase && !n.options.stemPhrases) || n.op == Near {
      return false;
    }
    var isLast := n.parent == null || n.index == |n.parent.subexpressions| - 1;
    if !isLast && n.parent.subexpressions[n.index + 1].op == Near {
      return false;
    }
    return true;
  }

  method ToText(n: ConditionExpression, ghost shape: Shape, ghost limit: nat) returns (s: string)
    requires Forest(shape, limit, n.options) && Mirrors(shape) && n in shape
    ensures n.parent != null ==> n.parent in shape
    ensures n.isTerm || n.parent != null ==>
            s == PrintNode(n.options, ToNode(n, shape, limit, n.options), NearOnRight(n, shape))
    ensures !n.isTerm && n.parent == null ==> s == PrintBody(n.options, Kids(n, shape, limit, n.options))
    decreases limit - n.age, 1
  {
    assert Linked(n, shape, n.options);
    if n.isTerm {
      var doStem := DoStemOn(n, shape, limit);
      s := TermText(doStem, n.term);
    } else {
      var sb := if n.parent != null then "(" else "";
      if !n.HasSubexpressions() {
        sb := sb + "\"\"";
        assert "\"\"" == Literal("");
      } else {
        var inner := JoinKids(n, shape, limit);
        sb := sb + inner;
      }
      s := if n.parent != null then sb + ")" else sb;
    }
  }

  /** Double is the call to String.Replace. */
  method TermText(doStem: bool, term: string) returns (s: string)
    ensures s == PrintTerm(doStem, term)
  {
    s := if doStem then "formsof(inflectional, " else "";
    s := s + ("\"" + Double(term) + "\"");
    if doStem {
      s := s + ")";
    }
  }

  /** The loop over the subexpressions: each but the first preceded by its operator. */
  method JoinKids(n: ConditionExpression, ghost shape: Shape, ghost limit: nat) returns (sb: string)
    requires Forest(shape, limit, n.options) && Mirrors(shape) && n in shape
    ensures sb == Joined(n.options, Kids(n, shape, limit, n.options), 0)
    decreases limit - n.age, 0
  {
    hide Joined, PrintKid, Forest, ToNode, PrintNode, PrintBody;
    ghost var o, kids := n.options, Kids(n, shape, limit, n.options);
    sb := "";
    var i := 0;
    JoinedStart(o, kids);
    while i < |n.subexpressions|
      invariant 0 <= i <= |n.subexpressions|
      invariant Joined(o, kids, 0) == sb + Joined(o, kids, i)
    {
      var exp := n.subexpressions[i];
      NextKid(n, i, shape, limit, o);
      var text := ToText(exp, shape, limit);
      JoinedStep(o, kids, i, sb, text);
      if i > 0 {
        sb := sb + Separator(exp.op);
      }
      sb := sb + text;
      i := i + 1;
    }
    JoinedEnd(o, kids, sb);
  }

  lemma JoinedStart(o: Options, kids: seq<Node>)
    ensures Joined(o, kids, 0) == "" + Joined(o, kids, 0)
  {
  }

  lemma JoinedEnd(o: Options, kids: seq<Node>, sb: string)
    ensures sb + Joined(o, kids, |kids|) == sb
  {
  }

  lemma JoinedStep(o: Options, kids: seq<Node>, i: nat, sb: string, text: string)
    requires i < |kids| && text == PrintNode(o, kids[i], BeforeNear(kids, i))
    ensures sb + Joined(o, kids, i) == (if i > 0 then sb + Separator(kids[i].op) else sb) + text + Joined(o, kids, i + 1)
  {
    if i > 0 {
      Associate(sb, PrintKid(o, kids, i), Joined(o, kids, i + 1));
      Associate(sb, Separator(kids[i].op), text);
    } else {
      assert PrintKid(o, kids, i) == text;
      Associate(sb, text, Joined(o, kids, i + 1));
    }
  }

  lemma NextKid(n: ConditionExpression, i: nat, shape: Shape, limit: nat, o: Options)
    requires Forest(shape, limit, o) && n in shape && i < |shape[n]|
    ensures IsChild(n, i, shape) && shape[n][i].options == o && n.age < shape[n][i].age < limit
    ensures Kids(n, shape, limit, o)[i] == ToNode(shape[n][i], shape, limit, o)
    ensures Kids(n, shape, limit, o)[i].op == shape[n][i].op
    ensures NearOnRight(shape[n][i], shape) == BeforeNear(Kids(n, shape, limit, o), i)
  {
    assert Linked(n, shape, o) && IsChild(n, i, shape);
    assert Linked(shape[n][i], shape, o);
    if i + 1 < |shape[n]| {
      assert IsChild(n, i + 1, shape);
      assert Kids(n, shape, limit, o)[i + 1] == ToNode(shape[n][i + 1], shape, limit, o);
    }
  }

  // ----- GetEnumerator -----

  /** The expressions below n, each before those below it, starting with child i. */
  ghost function Walk(n: ConditionExpression, i: nat, shape: Shape, limit: nat, o: Options): seq<ConditionExpression>
    requires n in shape && Forest(shape, limit, o) && i <= |shape[n]|
    decreases limit - n.age, |shape[n]| - i
  {
    if i == |shape[n]| then []
    else
      assert Linked(n, shape, o) && IsChild(n, i, shape);
      [shape[n][i]] + Walk(shape[n][i], 0, shape, limit, o) + Walk(n, i + 1, shape, limit, o)
  }

  lemma WalkStep(n: ConditionExpression, i: nat, shape: Shape, limit: nat, o: Options, r: seq<ConditionExpression>)
    requires n in shape && Forest(shape, limit, o) && i < |shape[n]| && IsChild(n, i, shape)
    ensures var c := shape[n][i];
            && (shape[c] == [] ==> r + Walk(n, i, shape, limit, o) == r + [c] + Walk(n, i + 1, shape, limit, o))
            && r + Walk(n, i, shape, limit, o) == r + [c] + Walk(c, 0, shape, limit, o) + Walk(n, i + 1, shape, limit, o)
  {
  }

  method Enumerate(n: ConditionExpression, ghost shape: Shape, ghost limit: nat) returns (r: seq<ConditionExpression>)
    requires Forest(shape, limit, n.options) && Mirrors(shape) && n in shape
    ensures r == Walk(n, 0, shape, limit, n.options)
    decreases limit - n.age
  {
    hide Forest;
    r := [];
    var i := 0;
    while i < |n.subexpressions|
      invariant 0 <= i <= |n.subexpressions|
      invariant r + Walk(n, i, shape, limit, n.options) == Walk(n, 0, shape, limit, n.options)
    {
      var exp := n.subexpressions[i];
      NextKid(n, i, shape, limit, n.options);
      WalkStep(n, i, shape, limit, n.options, r);
      r := r + [exp];
      if exp.HasSubexpressions() {
        var below := Enumerate(exp, shape, limit);
        r := r + below;
      }
      i := i + 1;
    }
  }

  /** The texts of the non-empty terms among some expressions. */
  function TextsOf(es: seq<ConditionExpression>): seq<string> {
    if es == [] then []
    else (if es[0].isTerm && es[0].term != "" then [es[0].term] else []) + TextsOf(es[1..])
  }

  lemma {:induction false} TextsOfAppend(a: seq<ConditionExpression>, b: seq<ConditionExpression>)
    ensures TextsOf(a + b) == TextsOf(a) + TextsOf(b)
  {
    if a == [] {
      assert a + b == b;
    } else {
      assert (a + b)[1..] == a[1..] + b;
      TextsOfAppend(a[1..], b);
    }
  }

  lemma {:induction false} WalkTerms(n: ConditionExpression, i: nat, shape: Shape, limit: nat, o: Options)
    requires n in shape && Forest(shape, limit, o) && i <= |shape[n]|
    ensures TextsOf(Walk(n, i, shape, limit, o)) == Terms(Kids(n, shape, limit, o), i)
    decreases limit - n.age, |shape[n]| - i
  {
    if i < |shape[n]| {
      assert Linked(n, shape, o) && IsChild(n, i, shape);
      var exp := shape[n][i];
      assert Linked(exp, shape, o);
      var below, later := Walk(exp, 0, shape, limit, o), Walk(n, i + 1, shape, limit, o);
      WalkTerms(exp, 0, shape, limit, o);
      WalkTerms(n, i + 1, shape, limit, o);
      TextsOfThree(exp, below, later);
      assert Kids(n, shape, limit, o)[i] == ToNode(exp, shape, limit, o);
      assert exp.isTerm ==> below == [];
    }
  }

  lemma TextsOfThree(exp: ConditionExpression, below: seq<ConditionExpression>, later: seq<ConditionExpression>)
    ensures TextsOf([exp] + below + later)
            == (if exp.isTerm && exp.term != "" then [exp.term] else []) + TextsOf(below) + TextsOf(later)
  {
    TextsOfAppend([exp] + below, later);
    TextsOfAppend([exp], below);
    assert TextsOf([exp]) == (if exp.isTerm && exp.term != "" then [exp.term] else []) + TextsOf([]);
  }

  lemma TextsOfNext(all: seq<ConditionExpression>, i: nat)
    requires i < |all|
    ensures TextsOf(all[..i + 1])
            == if all[i].isTerm && all[i].term != "" then TextsOf(all[..i]) + [all[i].term] else TextsOf(all[..i])
  {
    assert all[..i + 1] == all[..i] + [all[i]];
    TextsOfAppend(all[..i], [all[i]]);
    assert TextsOf([all[i]]) == (if all[i].isTerm && all[i].term != "" then [all[i].term] else []) + TextsOf([]);
  }

  lemma TextsOfNone(all: seq<ConditionExpression>)
    ensures TextsOf(all[..0]) == []
  {
  }

  lemma NormaliseTree(o: Options, condition: string, kids: seq<Node>)
    requires Parse(o, condition) == Ok(kids)
    ensures Normalise(o, condition) == Ok(Search(PrintBody(o, kids), Terms(kids, 0)))
  {
  }

  lemma NormaliseError(o: Options, condition: string, e: Error)
    requires Parse(o, condition) == Err(e)
    ensures Normalise(o, condition) == Err(e)
  {
  }

  // ----- FullTextSearch -----

  class FullTextSearch {
    const condition: string
    const options: Options
    var normalForm: string
    var searchTerms: seq<string>

    constructor (condition: string, options: Options)
      ensures this.condition == condition && this.options == options
    {
      this.condition := condition;
      this.options := options;
      normalForm := "";
      searchTerms := [];
    }

    /** Parses, prints and gathers the terms; error is the exception that the source throws instead. */
    method Load() returns (error: Option<Error>)
      modifies this
      ensures Normalise(options, condition)
              == match error case None => Ok(Search(normalForm, searchTerms)) case Some(e) => Err(e)
    {
      hide Parse, Normalise, Forest, Spine, PrintBody, Terms, Mirrors, TextsOf;
      var parser := new ConditionParser(options);
      error := parser.Run(condition);
      if error.Some? {
        NormaliseError(options, condition, error.value);
        return;
      }
      var root := parser.rootExpression;
      ghost var shape, limit := parser.shape, parser.limit;
      RootIsRoot(parser.spine, shape, limit, options);
      NormaliseTree(options, condition, Kids(root, shape, limit, options));
      normalForm := ToText(root, shape, limit);
      var all := Enumerate(root, shape, limit);
      WalkTerms(root, 0, shape, limit, options);
      searchTerms := GatherTerms(all);
    }
  }

  /** The loop over the enumeration: what is a term and not empty. */
  method GatherTerms(all: seq<ConditionExpression>) returns (searchTerms: seq<string>)
    ensures searchTerms == TextsOf(all)
  {
    hide TextsOf;
    TextsOfNone(all);
    searchTerms := [];
    var i := 0;
    while i < |all|
      invariant 0 <= i <= |all|
      invariant searchTerms == TextsOf(all[..i])
    {
      var exp := all[i];
      TextsOfNext(all, i);
      i := i + 1;
      if !exp.isTerm || exp.term == "" {
        continue;
      }
      searchTerms := searchTerms + [exp.term];
    }
    assert all[..|all|] == all;
  }

  lemma RootIsRoot(spine: seq<ConditionExpression>, shape: Shape, limit: nat, o: Options)
    requires Forest(shape, limit, o) && Spine(spine, shape)
    ensures spine[0] in shape && spine[0].parent == null && !spine[0].isTerm && spine[0].options == o
  {
    assert Linked(spine[0], shape, o);
  }
}
