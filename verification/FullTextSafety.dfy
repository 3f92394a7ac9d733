/** NEAR use, parentheses and exceptions of the normaliser, and the inputs that break its fixed point. */
module FullTextSafety {
  import opened Basics
  import opened FullTextText
  import opened FullTextLexer
  import opened FullTextTree
  import opened FullTextRoundTrip
  import opened FullTextFixedPoint
  import opened FullTextTheorems
  import FullTextGrammar

  // ----- NEAR -----

  /** A child joined by NEAR is a term beside something without children, and neither side is stemmed. */
  ghost predicate NearDisciplined(o: Options, kids: seq<Node>)
    decreases kids
  {
    forall i :: 0 <= i < |kids| ==>
      && (kids[i].op == Near ==>
          && i > 0 && kids[i].Term? && !HasKids(kids[i - 1])
          && PrintNode(o, kids[i], BeforeNear(kids, i)) == Literal(kids[i].text)
          && (kids[i - 1].Term? ==> PrintNode(o, kids[i - 1], BeforeNear(kids, i - 1)) == Literal(kids[i - 1].text)))
      && (kids[i].Group? ==> kids[i].op != Near && NearDisciplined(o, kids[i].kids))
  }

  lemma {:induction false} WellBuiltNear(o: Options, kids: seq<Node>)
    requires WellBuilt(kids)
    ensures NearDisciplined(o, kids)
    decreases kids
  {
    forall i | 0 <= i < |kids| && kids[i].Group? ensures NearDisciplined(o, kids[i].kids) {
      WellBuiltNear(o, kids[i].kids);
    }
    forall i | 0 <= i < |kids| ensures WellJoined(kids, i) { }
  }

  /** At every level of every parsed tree, whatever the options. */
  lemma NearUse(o: Options, condition: string)
    requires Parse(o, condition).Ok?
    ensures NearDisciplined(o, Parse(o, condition).value)
  {
    ParsedTree(o, condition);
    WellBuiltNear(o, Parse(o, condition).value);
  }

  // ----- parentheses -----

  function Count(lxs: seq<Lexeme>, lx: Lexeme): nat {
    multiset(lxs)[lx]
  }

  ghost predicate NeverNegative(lxs: seq<Lexeme>) {
    forall k :: 0 <= k <= |lxs| ==> Count(lxs[..k], Open) >= Count(lxs[..k], Close)
  }

  /** Every prefix has at least as many opening as closing parentheses, and the whole as many. */
  ghost predicate Balanced(lxs: seq<Lexeme>) {
    Count(lxs, Open) == Count(lxs, Close) && NeverNegative(lxs)
  }

  lemma CountSnoc(lxs: seq<Lexeme>, lx: Lexeme)
    requires lxs != []
    ensures Count(lxs, lx) == Count(lxs[..|lxs| - 1], lx) + if lxs[|lxs| - 1] == lx then 1 else 0
  {
    assert lxs == lxs[..|lxs| - 1] + [lxs[|lxs| - 1]];
  }

  lemma NeverNegativeSnoc(lxs: seq<Lexeme>)
    requires lxs != []
    ensures NeverNegative(lxs) <==> NeverNegative(lxs[..|lxs| - 1]) && Count(lxs, Open) >= Count(lxs, Close)
  {
    var before := lxs[..|lxs| - 1];
    assert forall k :: 0 <= k <= |before| ==> before[..k] == lxs[..k];
    assert lxs[..|lxs|] == lxs;
  }

  /** With the flag on, what was read without an exception never closed more than it opened. */
  lemma {:induction false} OkDepth(o: Options, lxs: seq<Lexeme>)
    requires o.throwParens && Build(o, lxs, Start).Ok?
    ensures |Build(o, lxs, Start).value.outer| == Count(lxs, Open) - Count(lxs, Close)
    ensures NeverNegative(lxs)
  {
    if lxs != [] {
      var before, lx := lxs[..|lxs| - 1], lxs[|lxs| - 1];
      BuildSnoc(o, lxs, Start);
      OkDepth(o, before);
      BuildOne(o, lx, Build(o, before, Start).value);
      CountSnoc(lxs, Open);
      CountSnoc(lxs, Close);
      NeverNegativeSnoc(lxs);
    }
  }

  /** A closing parenthesis too many is the only thing that raises this error while reading. */
  lemma {:induction false} ErrDepth(o: Options, lxs: seq<Lexeme>)
    requires Build(o, lxs, Start) == Err(UnbalancedParens)
    ensures o.throwParens
    ensures !NeverNegative(lxs)
  {
    var before, lx := lxs[..|lxs| - 1], lxs[|lxs| - 1];
    BuildSnoc(o, lxs, Start);
    NeverNegativeSnoc(lxs);
    if Build(o, before, Start).Err? {
      ErrDepth(o, before);
    } else {
      BuildOne(o, lx, Build(o, before, Start).value);
      OkDepth(o, before);
      CountSnoc(lxs, Open);
      CountSnoc(lxs, Close);
    }
  }

  /**
   * Unless another exception comes first, the flag makes the constructor throw exactly when the
   * parentheses outside the quotes are not balanced; without the flag it never throws for them.
   */
  lemma ParenthesesChecked(o: Options, condition: string)
    ensures var r := Parse(o, condition);
            && (o.throwParens && (r.Ok? || r.error == UnbalancedParens) ==>
                (r.Err? <==> !Balanced(Lex(o.throwQuotes, Sanitize(condition), ""))))
            && (!o.throwParens ==> r != Err(UnbalancedParens))
  {
    var lxs := Lex(o.throwQuotes, Sanitize(condition), "");
    var r := Build(o, lxs, Start);
    if r == Err(UnbalancedParens) {
      ErrDepth(o, lxs);
    } else if r.Ok? && o.throwParens {
      OkDepth(o, lxs);
    }
  }

  // ----- patching instead of throwing -----

  lemma {:induction false} LexTerminated(s: string, token: string)
    ensures Unterminated !in Lex(false, s, token)
    decreases |s|
  {
    if s == "" {
    } else if s[0] == '"' {
      LexTerminated(ReadQuote(false, s[1..]).rest, "");
    } else if IsBreak(s[0]) {
      LexTerminated(s[1..], "");
    } else {
      LexTerminated(s[1..], token + [s[0]]);
    }
  }

  lemma {:induction false} BuildPatches(o: Options, lxs: seq<Lexeme>, st: State)
    requires !o.throwParens && !o.throwNear && Unterminated !in lxs
    ensures Build(o, lxs, st).Ok?
  {
    if lxs != [] {
      assert lxs[0] in lxs;
      BuildPatches(o, lxs[1..], Step(o, st, lxs[0]).value);
    }
  }

  /**
   * With no throwing option every condition whatever has a normal form. It is never empty text, and it is a valid
   * condition unless a NEAR follows an empty group.
   */
  lemma AlwaysNormalises(o: Options, condition: string)
    requires !o.throwParens && !o.throwQuotes && !o.throwNear
    ensures Normalise(o, condition).Ok?
    ensures |Normalise(o, condition).value.normalForm| >= 2
    ensures FullTextGrammar.InGrammar(Normalise(o, condition).value.normalForm)
            <==> !NearTrouble(Parse(o, condition).value, 0)
  {
    var s := Sanitize(condition);
    LexTerminated(s, "");
    BuildPatches(o, Lex(false, s, ""), Start);
    var kids := Parse(o, condition).value;
    if kids != [] {
      assert |PrintNode(o, kids[0], BeforeNear(kids, 0))| >= 2;
      assert Joined(o, kids, 0) == PrintKid(o, kids, 0) + Joined(o, kids, 1);
    }
    FullTextGrammar.NormalFormIsValid(o, condition);
  }

  // ----- why the fixed point has a condition -----

  const PLAIN := Options(false, false, false, false, false, false, false)

  const NEAR_CASE := "() near x"

  lemma NearCaseLexemes()
    ensures Lex(false, Sanitize(NEAR_CASE), "") == [Open, Close, Bare("near"), Bare("x")]
  {
    assert Sanitize(NEAR_CASE) == NEAR_CASE;
    assert NEAR_CASE[1..] == ") near x";
    NearCaseEnd();
    assert [Open] + ([Close] + [Bare("near"), Bare("x")]) == [Open, Close, Bare("near"), Bare("x")];
  }

  lemma NearCaseEnd()
    ensures Lex(false, ") near x", "") == [Close] + [Bare("near"), Bare("x")]
  {
    assert ") near x"[1..] == Separator(Near) + "x";
    LexOperator(false, Near, "x");
    assert "x"[1..] == "" && "" + ['x'] == "x";
    assert Lex(false, "x", "") == Lex(false, "", "x") == [Bare("x")];
  }

  const AFTER_EMPTY := State([], Frame(And, [Group(And, [])]), And)

  lemma NearCaseGroup()
    ensures Build(PLAIN, [Open, Close], Start) == Ok(AFTER_EMPTY)
  {
    var inner := State([Frame(And, [])], Frame(And, []), And);
    BuildAppend(PLAIN, [Open], [Close], Start);
    assert [Open] + [Close] == [Open, Close];
    assert [] + [Start.top] == inner.outer;
    BuildOne(PLAIN, Open, Start);
    assert CloseTop(inner.outer, inner.top) == AFTER_EMPTY.top;
    BuildOne(PLAIN, Close, inner);
    assert inner.outer[..0] == [];
  }

  lemma NearCaseTerm()
    ensures Build(PLAIN, [Bare("near"), Bare("x")], AFTER_EMPTY)
            == Ok(State([], Frame(And, [Group(And, []), MakeTerm(PLAIN, Near, "x")]), And))
  {
    var near := AFTER_EMPTY.(lastOp := Near);
    BuildAppend(PLAIN, [Bare("near")], [Bare("x")], AFTER_EMPTY);
    assert [Bare("near")] + [Bare("x")] == [Bare("near"), Bare("x")];
    BuildOperator(PLAIN, Near, AFTER_EMPTY);
    BuildOne(PLAIN, Bare("x"), near);
    assert TryParse("x", Near) == None;
    assert AFTER_EMPTY.top.kids + [MakeTerm(PLAIN, Near, "x")] == [Group(And, []), MakeTerm(PLAIN, Near, "x")];
  }

  lemma NearCaseTree()
    ensures Parse(PLAIN, NEAR_CASE) == Ok([Group(And, []), MakeTerm(PLAIN, Near, "x")])
  {
    NearCaseLexemes();
    NearCaseGroup();
    NearCaseTerm();
    BuildAppend(PLAIN, [Open, Close], [Bare("near"), Bare("x")], Start);
    assert [Open, Close] + [Bare("near"), Bare("x")] == [Open, Close, Bare("near"), Bare("x")];
  }

  /** A NEAR after an empty group: `() near x` prints as `("") near "x"`, which is not valid and then becomes an AND. */
  lemma NearAfterEmptyGroupIsUnstable()
    ensures Normalise(PLAIN, NEAR_CASE).Ok? && NearTrouble(Parse(PLAIN, NEAR_CASE).value, 0)
    ensures Normalise(PLAIN, Normalise(PLAIN, NEAR_CASE).value.normalForm) != Normalise(PLAIN, NEAR_CASE)
    ensures !FullTextGrammar.InGrammar(Normalise(PLAIN, NEAR_CASE).value.normalForm)
  {
    NearCaseTree();
    var kids := Parse(PLAIN, NEAR_CASE).value;
    assert NearAfterEmptyGroup(kids, 1);
    assert NearTrouble(kids, 1);
    FixedPoint(PLAIN, NEAR_CASE);
    FullTextGrammar.NormalFormIsValid(PLAIN, NEAR_CASE);
  }

  /** A bare token with a no-break space in front: read back as a literal, the space is trimmed. */
  lemma ExoticSpaceIsUnstable()
    ensures Normalise(PLAIN, [0xA0 as char, 'x']).Ok?
    ensures Normalise(PLAIN, Normalise(PLAIN, [0xA0 as char, 'x']).value.normalForm)
            != Normalise(PLAIN, [0xA0 as char, 'x'])
  {
    var c := [0xA0 as char, 'x'];
    assert Sanitize(c) == c;
    assert c[1..] == "x" && "x"[1..] == "" && "" + [c[0]] == [c[0]] && [c[0]] + ['x'] == c;
    assert Lex(false, c, "") == Lex(false, "x", [c[0]]) == Lex(false, "", c) == [Bare(c)];
    BuildOne(PLAIN, Bare(c), Start);
    assert TryParse(c, And) == None;
    var kids := [MakeTerm(PLAIN, And, c)];
    assert Parse(PLAIN, c) == Ok(kids);
    assert kids[0].text == c && !TidyEnds(c);
    FixedPoint(PLAIN, c);
  }
}
