/** The promises of the normaliser: fixed points, agreeing outputs, NEAR use and parentheses. */
module FullTextTheorems {
  import opened Basics
  import opened FullTextText
  import opened FullTextLexer
  import opened FullTextTree
  import opened FullTextRoundTrip
  import opened FullTextFixedPoint

  // ----- fixed points -----

  lemma {:induction false} RereadTerms(o: Options, kids: seq<Node>, i: nat, inherited: Op)
    requires i <= |kids| && StableFrom(o, kids, i)
    ensures Terms(RereadKids(o, kids, |kids|, inherited), i) == Terms(kids, i)
    decreases kids, |kids| - i
  {
    if i < |kids| {
      RereadAt(o, kids, |kids|, inherited, i);
      StableFromStep(o, kids, i);
      RereadTerms(o, kids, i + 1, inherited);
      if kids[i].Group? {
        RereadBodyTerms(o, kids[i].kids, RereadOp(kids, i, inherited));
      }
    }
  }

  lemma {:induction false} RereadBodyTerms(o: Options, kids: seq<Node>, op: Op)
    requires Stable(o, kids)
    ensures Terms(RereadBody(o, kids, op), 0) == Terms(kids, 0)
    decreases kids, |kids| + 2
  {
    StableKids(o, kids);
    if kids == [] {
      var again := RereadBody(o, kids, op);
      assert Terms(again, 0) == [] + Terms(again, 1);
    } else {
      RereadTerms(o, kids, 0, op);
    }
  }

  /** No NEAR term directly after an empty group, and no term's text with white space at an end. */
  ghost predicate Settled(kids: seq<Node>) {
    !NearTrouble(kids, 0) && AllTexts(kids, TidyEnds)
  }

  lemma {:induction false} AllTextsIff(kids: seq<Node>, agree: string -> bool, p: string -> bool, q: string -> bool)
    requires AllTexts(kids, agree) && forall t :: agree(t) ==> p(t) == q(t)
    ensures AllTexts(kids, p) <==> AllTexts(kids, q)
    decreases kids
  {
    forall i | 0 <= i < |kids| && kids[i].Group? ensures AllTexts(kids[i].kids, p) <==> AllTexts(kids[i].kids, q) {
      AllTextsIff(kids[i].kids, agree, p, q);
    }
  }

  /** In a parsed tree a text survives being read as a literal exactly when its ends are not white. */
  lemma StableIsSettled(o: Options, condition: string)
    requires Parse(o, condition).Ok?
    ensures Stable(o, Parse(o, condition).value) <==> Settled(Parse(o, condition).value)
  {
    var clean := t => CleanText(o, t);
    var agree := t => clean(t) == TidyEnds(t);
    forall lx | LexemeChars(lx, c => true) ensures LexemeOk(o, lx, agree) {
      match lx
      case Bare(w) => BareCleanFacts(o, w);
      case Quoted(q) =>
        CleanIdempotent(o, q);
        SqueezeFacts(q);
        PruneFacts(o, Squeeze(q));
      case _ =>
    }
    ParseKeeps(o, condition, c => true, agree);
    AllTextsIff(Parse(o, condition).value, agree, clean, TidyEnds);
  }

  /**
   * With stemming off, normalising a normal form returns it unchanged, with the same search terms, if and only if the
   * parsed tree has no NEAR term directly after an empty group and no term with white space at an end of its text.
   */
  lemma FixedPoint(o: Options, condition: string)
    requires NoStemming(o) && Normalise(o, condition).Ok?
    ensures var first := Normalise(o, condition).value;
            var kids := Parse(o, condition).value;
            && (Settled(kids) <==> Normalise(o, first.normalForm) == Ok(first))
            && (Settled(kids) <==>
                Normalise(o, first.normalForm).Ok? &&
                Normalise(o, first.normalForm).value.normalForm == first.normalForm)
  {
    var kids := Parse(o, condition).value;
    StableIsSettled(o, condition);
    ParsedTree(o, condition);
    ParsePrinted(o, kids);
    var again := RereadBody(o, kids, And);
    if Stable(o, kids) {
      StablePrintsSame(o, kids, And);
      RereadBodyTerms(o, kids, And);
    } else if PrintBody(o, again) == PrintBody(o, kids) {
      LexPrinted(o, false, kids);
      LexPrinted(o, false, again);
      RereadBodyLexemes(o, kids, And);
      assert false;
    }
  }

  /** The only exception a second pass can throw, and exactly when it does. */
  lemma SecondPassThrows(o: Options, condition: string)
    requires NoStemming(o) && Normalise(o, condition).Ok?
    ensures var again := Normalise(o, Normalise(o, condition).value.normalForm);
            && (again.Err? <==> o.throwNear && NearTrouble(Parse(o, condition).value, 0))
            && (again.Err? ==> again.error == NearAfterGroup)
  {
    ParsedTree(o, condition);
    ParsePrinted(o, Parse(o, condition).value);
  }

  lemma {:induction false} RereadStable(o: Options, kids: seq<Node>, op: Op)
    ensures Stable(o, RereadBody(o, kids, op))
    decreases kids, |kids| + 2
  {
    var r := RereadBody(o, kids, op);
    forall i | 0 <= i < |r| ensures !NearAfterEmptyGroup(r, i) && StableNode(o, r[i]) {
      if kids == [] {
        CleanIdempotent(o, "");
      } else {
        RereadAt(o, kids, |kids|, op, i);
        if i > 0 {
          RereadAt(o, kids, |kids|, op, i - 1);
        }
        match kids[i]
        case Term(_, text, _, _) => CleanIdempotent(o, text);
        case Group(_, inner) => RereadStable(o, inner, RereadOp(kids, i, op));
      }
    }
    StableFromKids(o, r, 0);
    StableKids(o, r);
  }

  /** For every condition at all, the third pass gives what the second gave. */
  lemma ThirdPassIsSecond(o: Options, condition: string)
    requires NoStemming(o) && Normalise(o, condition).Ok?
    requires Normalise(o, Normalise(o, condition).value.normalForm).Ok?
    ensures var second := Normalise(o, Normalise(o, condition).value.normalForm);
            Normalise(o, second.value.normalForm) == second
  {
    var kids := Parse(o, condition).value;
    ParsedTree(o, condition);
    ParsePrinted(o, kids);
    RereadStable(o, kids, And);
    StableIsSettled(o, PrintBody(o, kids));
    FixedPoint(o, PrintBody(o, kids));
  }

  /** In a condition whose only white space is the space, the NEAR case is the only trouble. */
  lemma SettledWithoutExoticSpace(o: Options, condition: string)
    requires Parse(o, condition).Ok?
    requires forall i :: 0 <= i < |condition| ==> IsWhite(condition[i]) ==> condition[i] as int <= 0x20
    ensures Settled(Parse(o, condition).value) <==> !NearTrouble(Parse(o, condition).value, 0)
  {
    var plain := c => IsWhite(c) ==> c == ' ';
    var clean := t => CleanText(o, t);
    assert AllChars(Sanitize(condition), plain);
    forall lx | LexemeChars(lx, plain) ensures LexemeOk(o, lx, clean) {
      match lx
      case Bare(w) =>
        PruneChars(o, w, plain);
        PruneChars(o, w, c => c != ' ');
        BareCleanFacts(o, w);
      case Quoted(q) => CleanIdempotent(o, q);
      case _ =>
    }
    ParseKeeps(o, condition, plain, clean);
    StableIsSettled(o, condition);
  }

  // ----- NormalForm and SearchTerms agree -----

  /** The quoted literals of a text, each with its doubled quotes undone; inside tells where reading stands. */
  function Literals(s: string, inside: bool, text: string): seq<string> {
    if s == "" then []
    else if !inside then
      if s[0] == '"' then Literals(s[1..], true, "") else Literals(s[1..], false, "")
    else if s[0] != '"' then Literals(s[1..], true, text + [s[0]])
    else if |s| > 1 && s[1] == '"' then Literals(s[2..], true, text + ['"'])
    else [text] + Literals(s[1..], false, "")
  }

  function NonEmpty(ts: seq<string>): seq<string> {
    if ts == [] then [] else (if ts[0] == "" then [] else [ts[0]]) + NonEmpty(ts[1..])
  }

  predicate NoQuoteFirst(rest: string) {
    rest != "" ==> rest[0] != '"'
  }

  lemma LiteralStep(c: char, tail: string, text: string)
    requires tail != ""
    ensures Literals(DoubleChar(c) + tail, true, text) == Literals(tail, true, text + [c])
  {
    if c == '"' {
      var all := "\"\"" + tail;
      assert DoubleChar(c) + tail == all;
      assert all[2..] == tail && |all| > 1 && all[0] == '"' && all[1] == '"';
    } else {
      var all := [c] + tail;
      assert DoubleChar(c) + tail == all;
      assert all[1..] == tail;
    }
  }

  lemma LiteralEnd(rest: string, text: string)
    requires NoQuoteFirst(rest)
    ensures Literals("\"" + rest, true, text) == [text] + Literals(rest, false, "")
  {
    var end := "\"" + rest;
    assert end[0] == '"' && end[1..] == rest;
    assert rest != "" ==> end[1] == rest[0];
  }

  lemma {:induction false} LiteralInside(s: string, rest: string, text: string)
    requires NoQuoteFirst(rest)
    ensures Literals(Double(s) + ("\"" + rest), true, text) == [text + s] + Literals(rest, false, "")
  {
    var end := "\"" + rest;
    if s == "" {
      LiteralEnd(rest, text);
      assert Double(s) + end == end && text + s == text;
    } else {
      var tail := Double(s[1..]) + end;
      LiteralInside(s[1..], rest, text + [s[0]]);
      assert (text + [s[0]]) + s[1..] == text + s;
      LiteralStep(s[0], tail, text);
      DoubleStep(s, end);
    }
  }

  lemma LiteralRead(s: string, rest: string)
    requires NoQuoteFirst(rest)
    ensures Literals(Literal(s) + rest, false, "") == [s] + Literals(rest, false, "")
  {
    LiteralInside(s, rest, "");
    var inner := Double(s) + ("\"" + rest);
    assert Literal(s) + rest == "\"" + inner;
    assert (Literal(s) + rest)[1..] == inner;
    assert "" + s == s;
  }

  lemma {:induction false} SkipPlain(a: string, rest: string)
    requires '"' !in a
    ensures Literals(a + rest, false, "") == Literals(rest, false, "")
  {
    if a == "" {
      assert a + rest == rest;
    } else {
      assert (a + rest)[1..] == a[1..] + rest;
      SkipPlain(a[1..], rest);
    }
  }

  lemma {:induction false} NonEmptyAppend(a: seq<string>, b: seq<string>)
    ensures NonEmpty(a + b) == NonEmpty(a) + NonEmpty(b)
  {
    if a == [] {
      assert a + b == b;
    } else {
      assert (a + b)[1..] == a[1..] + b;
      NonEmptyAppend(a[1..], b);
    }
  }

  function NodeTerms(n: Node): seq<string> {
    match n
    case Term(_, text, _, _) => if text == "" then [] else [text]
    case Group(_, kids) => Terms(kids, 0)
  }

  /** What reading `s` before `rest` contributes to the literals that are not empty. */
  ghost predicate YieldsAt(s: string, ts: seq<string>, rest: string) {
    NonEmpty(Literals(s + rest, false, "")) == ts + NonEmpty(Literals(rest, false, ""))
  }

  /** The same before anything that does not start with a quote. */
  ghost predicate Yields(s: string, ts: seq<string>) {
    forall rest :: NoQuoteFirst(rest) ==> YieldsAt(s, ts, rest)
  }

  lemma YieldsPlain(a: string)
    requires '"' !in a
    ensures Yields(a, [])
  {
    forall rest | NoQuoteFirst(rest)
      ensures YieldsAt(a, [], rest)
    {
      SkipPlain(a, rest);
    }
  }

  lemma YieldsLiteral(s: string)
    ensures Yields(Literal(s), if s == "" then [] else [s])
  {
    var ts := if s == "" then [] else [s];
    forall rest | NoQuoteFirst(rest)
      ensures YieldsAt(Literal(s), ts, rest)
    {
      LiteralRead(s, rest);
      var later := Literals(rest, false, "");
      assert ([s] + later)[1..] == later;
    }
  }

  lemma YieldsConcat(a: string, ta: seq<string>, b: string, tb: seq<string>)
    requires Yields(a, ta) && Yields(b, tb) && NoQuoteFirst(b)
    ensures Yields(a + b, ta + tb)
  {
    forall rest | NoQuoteFirst(rest)
      ensures YieldsAt(a + b, ta + tb, rest)
    {
      assert NoQuoteFirst(b + rest);
      YieldsConcatAt(a, ta, b, tb, rest);
    }
  }

  lemma YieldsConcatAt(a: string, ta: seq<string>, b: string, tb: seq<string>, rest: string)
    requires YieldsAt(a, ta, b + rest) && YieldsAt(b, tb, rest)
    ensures YieldsAt(a + b, ta + tb, rest)
  {
    assert (a + b) + rest == a + (b + rest);
    var x := NonEmpty(Literals(rest, false, ""));
    assert ta + (tb + x) == (ta + tb) + x;
  }

  /** After plain text a literal may start at once. */
  lemma YieldsAfterPlain(a: string, b: string, tb: seq<string>)
    requires '"' !in a && Yields(b, tb)
    ensures Yields(a + b, tb)
  {
    forall rest | NoQuoteFirst(rest)
      ensures YieldsAt(a + b, tb, rest)
    {
      assert YieldsAt(b, tb, rest);
      SkipPlain(a, b + rest);
      assert (a + b) + rest == a + (b + rest);
    }
  }

  lemma {:induction false} NodeYields(o: Options, n: Node, beforeNear: bool)
    ensures Yields(PrintNode(o, n, beforeNear), NodeTerms(n))
    decreases n, 0
  {
    match n
    case Term(_, text, _, _) =>
      YieldsLiteral(text);
      if DoStem(o, n, beforeNear) {
        YieldsPlain(")");
        YieldsConcat(Literal(text), NodeTerms(n), ")", []);
        YieldsAfterPlain("formsof(inflectional, ", Literal(text) + ")", NodeTerms(n) + []);
        assert PrintNode(o, n, beforeNear) == "formsof(inflectional, " + (Literal(text) + ")");
        assert NodeTerms(n) + [] == NodeTerms(n);
      }
    case Group(_, kids) =>
      BodyYields(o, kids);
      YieldsPlain(")");
      YieldsConcat(PrintBody(o, kids), Terms(kids, 0), ")", []);
      YieldsAfterPlain("(", PrintBody(o, kids) + ")", Terms(kids, 0) + []);
      assert PrintNode(o, n, beforeNear) == "(" + (PrintBody(o, kids) + ")");
      assert Terms(kids, 0) + [] == NodeTerms(n);
  }

  lemma {:induction false} BodyYields(o: Options, kids: seq<Node>)
    ensures Yields(PrintBody(o, kids), Terms(kids, 0))
    decreases kids, |kids| + 2
  {
    if kids == [] {
      YieldsLiteral("");
    } else {
      JoinedYields(o, kids, 0);
    }
  }

  lemma {:induction false} JoinedYields(o: Options, kids: seq<Node>, i: nat)
    requires i <= |kids|
    ensures Yields(Joined(o, kids, i), Terms(kids, i))
    decreases kids, |kids| - i + 1
  {
    if i == |kids| {
      YieldsPlain("");
    } else {
      var node := PrintNode(o, kids[i], BeforeNear(kids, i));
      NodeYields(o, kids[i], BeforeNear(kids, i));
      if i > 0 {
        YieldsAfterPlain(Separator(kids[i].op), node, NodeTerms(kids[i]));
      } else {
        assert PrintKid(o, kids, i) == node;
      }
      JoinedYields(o, kids, i + 1);
      assert i + 1 < |kids| ==> PrintKid(o, kids, i + 1)[0] == Separator(kids[i + 1].op)[0];
      YieldsConcat(PrintKid(o, kids, i), NodeTerms(kids[i]), Joined(o, kids, i + 1), Terms(kids, i + 1));
    }
  }

  /**
   * For every condition and every option set, the quoted literals of NormalForm, undoubled and without
   * the empty ones, are exactly SearchTerms, in order.
   */
  lemma OutputsAgree(o: Options, condition: string)
    requires Normalise(o, condition).Ok?
    ensures var r := Normalise(o, condition).value;
            NonEmpty(Literals(r.normalForm, false, "")) == r.searchTerms
  {
    var kids := Parse(o, condition).value;
    BodyYields(o, kids);
    var s := PrintBody(o, kids);
    assert s + "" == s && NoQuoteFirst("");
    assert YieldsAt(s, Terms(kids, 0), "");
  }
}
