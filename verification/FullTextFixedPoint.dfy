/** What every parsed tree satisfies, and when normalising a normal form changes nothing. */
module FullTextFixedPoint {
  import opened Basics
  import opened FullTextText
  import opened FullTextLexer
  import opened FullTextTree
  import opened FullTextRoundTrip

  // ----- invariants of the tree under construction -----

  ghost predicate AllTexts(kids: seq<Node>, p: string -> bool)
    decreases kids
  {
    forall i :: 0 <= i < |kids| ==>
      (kids[i].Term? ==> p(kids[i].text)) && (kids[i].Group? ==> AllTexts(kids[i].kids, p))
  }

  ghost predicate FrameOk(f: Frame, p: string -> bool) {
    f.op != Near && WellBuilt(f.kids) && AllTexts(f.kids, p)
  }

  ghost predicate StateOk(st: State, p: string -> bool) {
    FrameOk(st.top, p) && forall k :: 0 <= k < |st.outer| ==> FrameOk(st.outer[k], p)
  }

  /** The text that a lexeme adds to the tree satisfies p. */
  ghost predicate LexemeOk(o: Options, lx: Lexeme, p: string -> bool) {
    match lx
    case Bare(w) => p(Prune(o, w))
    case Quoted(q) => p(Clean(o, q))
    case _ => true
  }

  lemma AppendKid(kids: seq<Node>, n: Node, p: string -> bool)
    requires WellBuilt(kids) && AllTexts(kids, p)
    requires WellJoined(kids + [n], |kids|)
    requires n.Term? ==> p(n.text)
    requires n.Group? ==> WellBuilt(n.kids) && AllTexts(n.kids, p)
    ensures WellBuilt(kids + [n]) && AllTexts(kids + [n], p)
  {
    AppendWellBuilt(kids, n);
    AppendTexts(kids, n, p);
  }

  lemma AppendWellBuilt(kids: seq<Node>, n: Node)
    requires WellBuilt(kids) && WellJoined(kids + [n], |kids|) && (n.Group? ==> WellBuilt(n.kids))
    ensures WellBuilt(kids + [n])
  {
    var all := kids + [n];
    forall i | 0 <= i < |all| ensures WellJoined(all, i) && (all[i].Group? ==> WellBuilt(all[i].kids)) {
      if i < |kids| {
        assert WellJoined(kids, i) && all[i] == kids[i];
      }
    }
  }

  lemma AppendTexts(kids: seq<Node>, n: Node, p: string -> bool)
    requires AllTexts(kids, p) && (n.Term? ==> p(n.text)) && (n.Group? ==> AllTexts(n.kids, p))
    ensures AllTexts(kids + [n], p)
  {
    var all := kids + [n];
    forall i | 0 <= i < |all|
      ensures (all[i].Term? ==> p(all[i].text)) && (all[i].Group? ==> AllTexts(all[i].kids, p))
    {
      assert i < |kids| ==> all[i] == kids[i];
    }
  }

  /** A term that is no prefix has no asterisk. */
  lemma TermStars(o: Options, raw: string)
    ensures '*' !in raw ==> '*' !in Prune(o, raw)
  {
  }

  lemma AddedOne(o: Options, st: State, raw: string)
    requires PutTerm(o, st, raw).Ok?
    ensures var st' := PutTerm(o, st, raw).value;
            && st'.outer == st.outer && st'.top.op == st.top.op && |st'.top.kids| == |st.top.kids| + 1
            && st'.top.kids == st.top.kids + [st'.top.kids[|st.top.kids|]]
  {
  }

  lemma EmptyKeeps(p: string -> bool)
    ensures WellBuilt([]) && AllTexts([], p)
  {
  }

  lemma StepKeeps(o: Options, st: State, lx: Lexeme, p: string -> bool)
    requires StateOk(st, p) && LexemeOk(o, lx, p) && Step(o, st, lx).Ok?
    ensures StateOk(Step(o, st, lx).value, p)
  {
    hide WellBuilt, AllTexts, Prune, Squeeze, TryParse;
    var st' := Step(o, st, lx).value;
    match lx
    case Bare(w) =>
      if TryParse(w, st.lastOp) == None {
        TermStars(o, w);
        AddedOne(o, st, w);
        AppendKid(st.top.kids, st'.top.kids[|st.top.kids|], p);
      }
    case Quoted(q) =>
      TermStars(o, Squeeze(q));
      AddedOne(o, st, Squeeze(q));
      AppendKid(st.top.kids, st'.top.kids[|st.top.kids|], p);
    case Open => EmptyKeeps(p);
    case Close =>
      if st.outer != [] {
        var parent := st.outer[|st.outer| - 1];
        AppendKid(parent.kids, Group(st.top.op, st.top.kids), p);
      }
    case Unterminated =>
  }

  lemma {:induction false} BuildKeeps(o: Options, lxs: seq<Lexeme>, st: State, p: string -> bool)
    requires StateOk(st, p) && Build(o, lxs, st).Ok?
    requires forall i :: 0 <= i < |lxs| ==> LexemeOk(o, lxs[i], p)
    ensures StateOk(Build(o, lxs, st).value, p)
  {
    if lxs != [] {
      StepKeeps(o, st, lxs[0], p);
      BuildKeeps(o, lxs[1..], Step(o, st, lxs[0]).value, p);
    }
  }

  lemma {:induction false} CloseAllKeeps(outer: seq<Frame>, top: Frame, p: string -> bool)
    requires StateOk(State(outer, top, And), p)
    ensures WellBuilt(CloseAll(outer, top)) && AllTexts(CloseAll(outer, top), p)
    decreases |outer|
  {
    if outer != [] {
      var parent := outer[|outer| - 1];
      AppendKid(parent.kids, Group(top.op, top.kids), p);
      CloseAllKeeps(outer[..|outer| - 1], CloseTop(outer, top), p);
    }
  }

  // ----- the lexemes' characters come from the input -----

  lemma {:induction false} ReadQuoteChars(strict: bool, s: string, ok: char -> bool)
    requires AllChars(s, ok)
    ensures AllChars(ReadQuote(strict, s).text, ok) && AllChars(ReadQuote(strict, s).rest, ok)
  {
    if s == "" {
    } else if s[0] == '"' && |s| > 1 && s[1] == '"' {
      ReadQuoteChars(strict, s[2..], ok);
    } else {
      ReadQuoteChars(strict, s[1..], ok);
    }
  }

  ghost predicate LexemeChars(lx: Lexeme, ok: char -> bool) {
    match lx
    case Bare(w) => AllChars(w, ok) && ' ' !in w
    case Quoted(q) => AllChars(q, ok)
    case _ => true
  }

  lemma {:induction false} LexChars(strict: bool, s: string, token: string, ok: char -> bool)
    requires AllChars(s, ok) && AllChars(token, ok) && ' ' !in token
    ensures forall lx :: lx in Lex(strict, s, token) ==> LexemeChars(lx, ok)
    decreases |s|
  {
    if s == "" {
    } else if s[0] == '"' {
      ReadQuoteChars(strict, s[1..], ok);
      LexChars(strict, ReadQuote(strict, s[1..]).rest, "", ok);
    } else if IsBreak(s[0]) {
      LexChars(strict, s[1..], "", ok);
    } else {
      LexChars(strict, s[1..], token + [s[0]], ok);
    }
  }

  predicate NoControl(c: char) {
    !(1 <= c as int <= 0x1F)
  }

  /** A parse of any condition, with a predicate that all its lexemes' texts satisfy. */
  lemma ParseKeeps(o: Options, condition: string, ok: char -> bool, p: string -> bool)
    requires Parse(o, condition).Ok? && AllChars(Sanitize(condition), ok)
    requires forall lx :: LexemeChars(lx, ok) ==> LexemeOk(o, lx, p)
    ensures WellBuilt(Parse(o, condition).value) && AllTexts(Parse(o, condition).value, p)
  {
    var lxs := Lex(o.throwQuotes, Sanitize(condition), "");
    LexChars(o.throwQuotes, Sanitize(condition), "", ok);
    BuildKeeps(o, lxs, Start, p);
    var st := Build(o, lxs, Start).value;
    CloseAllKeeps(st.outer, st.top, p);
  }

  /** Every tree is well built and holds no control character. */
  lemma ParsedTree(o: Options, condition: string)
    requires Parse(o, condition).Ok?
    ensures WellBuilt(Parse(o, condition).value)
    ensures AllTexts(Parse(o, condition).value, NoControlText)
  {
    forall lx | LexemeChars(lx, NoControl) ensures LexemeOk(o, lx, NoControlText) {
      match lx
      case Bare(w) => PruneChars(o, w, NoControl);
      case Quoted(q) => SqueezeChars(q, NoControl); PruneChars(o, Squeeze(q), NoControl);
      case _ =>
    }
    ParseKeeps(o, condition, NoControl, NoControlText);
  }

  predicate NoControlText(t: string) {
    forall i :: 0 <= i < |t| ==> NoControl(t[i])
  }

  // ----- a printed tree survives the replacement of control characters -----

  lemma {:induction false} DoubleNoControl(s: string)
    requires NoControlText(s)
    ensures NoControlText(Double(s))
  {
    if s != "" {
      DoubleNoControl(s[1..]);
    }
  }

  lemma {:induction false} PrintNoControl(o: Options, n: Node, beforeNear: bool)
    requires n.Term? ==> NoControlText(n.text)
    requires n.Group? ==> AllTexts(n.kids, NoControlText)
    ensures NoControlText(PrintNode(o, n, beforeNear))
    decreases n, 0
  {
    match n
    case Term(_, text, _, _) => DoubleNoControl(text);
    case Group(_, kids) => BodyNoControl(o, kids);
  }

  lemma {:induction false} BodyNoControl(o: Options, kids: seq<Node>)
    requires AllTexts(kids, NoControlText)
    ensures NoControlText(PrintBody(o, kids))
    decreases kids, |kids| + 2
  {
    DoubleNoControl("");
    if kids != [] {
      JoinedNoControl(o, kids, 0);
    }
  }

  lemma {:induction false} JoinedNoControl(o: Options, kids: seq<Node>, i: nat)
    requires i <= |kids| && AllTexts(kids, NoControlText)
    ensures NoControlText(Joined(o, kids, i))
    decreases kids, |kids| - i + 1
  {
    if i < |kids| {
      PrintNoControl(o, kids[i], BeforeNear(kids, i));
      JoinedNoControl(o, kids, i + 1);
      assert NoControlText(Separator(kids[i].op));
      assert NoControlText(PrintKid(o, kids, i));
    }
  }

  /** What parsing a printed tree gives: the reread tree, or the NEAR exception. */
  lemma ParsePrinted(o: Options, kids: seq<Node>)
    requires NoStemming(o) && WellBuilt(kids) && AllTexts(kids, NoControlText)
    ensures Parse(o, PrintBody(o, kids)) ==
            if o.throwNear && NearTrouble(kids, 0) then Err(NearAfterGroup) else Ok(RereadBody(o, kids, And))
  {
    BodyNoControl(o, kids);
    var s := PrintBody(o, kids);
    assert Sanitize(s) == s by {
      forall i | 0 <= i < |s| ensures Sanitize(s)[i] == s[i] { assert NoControl(s[i]); }
    }
    LexPrinted(o, o.throwQuotes, kids);
    BuildBody(o, kids, And, []);
  }

  // ----- when re-reading changes nothing -----

  /** The text is what cleaning it again gives: it would come back as it is. */
  predicate CleanText(o: Options, t: string) {
    Clean(o, t) == t
  }

  /** No NEAR after an empty group, and every term's text survives being read as a literal: the shape the proofs use. */
  ghost predicate Stable(o: Options, kids: seq<Node>) {
    !NearTrouble(kids, 0) && AllTexts(kids, t => CleanText(o, t))
  }

  ghost predicate StableNode(o: Options, n: Node) {
    match n
    case Term(_, text, _, _) => CleanText(o, text)
    case Group(_, kids) => Stable(o, kids)
  }

  ghost predicate StableFrom(o: Options, kids: seq<Node>, i: nat)
    requires i <= |kids|
  {
    !NearTrouble(kids, i) && forall k :: i <= k < |kids| ==> StableNode(o, kids[k])
  }

  lemma {:induction false} StableFromKids(o: Options, kids: seq<Node>, i: nat)
    requires i <= |kids|
    ensures StableFrom(o, kids, i) <==>
            forall k :: i <= k < |kids| ==> !NearAfterEmptyGroup(kids, k) && StableNode(o, kids[k])
    decreases |kids| - i
  {
    if i < |kids| {
      StableFromKids(o, kids, i + 1);
    }
  }

  lemma StableFromStep(o: Options, kids: seq<Node>, i: nat)
    requires i < |kids|
    ensures StableFrom(o, kids, i) <==>
            !NearAfterEmptyGroup(kids, i) && StableNode(o, kids[i]) && StableFrom(o, kids, i + 1)
  {
    StableFromKids(o, kids, i);
    StableFromKids(o, kids, i + 1);
  }

  lemma StableKids(o: Options, kids: seq<Node>)
    ensures Stable(o, kids) <==> StableFrom(o, kids, 0)
  {
    StableFromKids(o, kids, 0);
    var p := t => CleanText(o, t);
    if Stable(o, kids) {
      forall k | 0 <= k < |kids| ensures StableNode(o, kids[k]) {
        assert kids[k].Group? ==> AllTexts(kids[k].kids, p);
        NoTroubleBelow(kids, 0, k);
      }
    }
    if StableFrom(o, kids, 0) {
      forall k | 0 <= k < |kids| ensures (kids[k].Term? ==> p(kids[k].text)) && (kids[k].Group? ==> AllTexts(kids[k].kids, p)) {
        assert StableNode(o, kids[k]);
      }
    }
  }

  lemma {:induction false} NoTroubleBelow(kids: seq<Node>, i: nat, k: nat)
    requires i <= k < |kids| && !NearTrouble(kids, i)
    ensures kids[k].Group? ==> !NearTrouble(kids[k].kids, 0)
    decreases k - i
  {
    if i < k {
      NoTroubleBelow(kids, i + 1, k);
    }
  }

  lemma {:induction false} RereadAt(o: Options, kids: seq<Node>, n: nat, inherited: Op, i: nat)
    requires i < n <= |kids|
    ensures RereadKids(o, kids, n, inherited)[i] == RereadNode(o, kids[i], RereadOp(kids, i, inherited))
    decreases n
  {
    if i < n - 1 {
      RereadAt(o, kids, n - 1, inherited, i);
    }
  }

  /** A reread node has as many lexemes, and the same ones iff it is stable. */
  lemma {:induction false} RereadNodeLexemes(o: Options, n: Node, op: Op)
    ensures |NodeLexemes(RereadNode(o, n, op))| == |NodeLexemes(n)|
    ensures NodeLexemes(RereadNode(o, n, op)) == NodeLexemes(n) <==> StableNode(o, n)
    decreases n, 0
  {
    match n
    case Term(_, text, _, _) =>
      var a, b := NodeLexemes(RereadNode(o, n, op)), NodeLexemes(n);
      assert a[0] == Quoted(Clean(o, text)) && b[0] == Quoted(text);
    case Group(_, kids) =>
      RereadBodyLexemes(o, kids, op);
      var a, b := BodyLexemes(RereadBody(o, kids, op)), BodyLexemes(kids);
      SplitEqual([Open], a, [Open], b);
      SplitEqual([Open] + a, [Close], [Open] + b, [Close]);
  }

  lemma SplitEqual<T>(a1: seq<T>, a2: seq<T>, b1: seq<T>, b2: seq<T>)
    requires |a1| == |b1|
    ensures a1 + a2 == b1 + b2 <==> a1 == b1 && a2 == b2
  {
    if a1 + a2 == b1 + b2 {
      assert a1 == (a1 + a2)[..|a1|] && b1 == (b1 + b2)[..|b1|];
      assert a2 == (a1 + a2)[|a1|..] && b2 == (b1 + b2)[|b1|..];
    }
  }

  lemma {:induction false} RereadBodyLexemes(o: Options, kids: seq<Node>, op: Op)
    ensures |BodyLexemes(RereadBody(o, kids, op))| == |BodyLexemes(kids)|
    ensures BodyLexemes(RereadBody(o, kids, op)) == BodyLexemes(kids) <==> Stable(o, kids)
    decreases kids, |kids| + 2
  {
    StableKids(o, kids);
    if kids == [] {
      var again := MakeTerm(o, And, Squeeze(""));
      assert Clean(o, "") == "";
      assert JoinedLexemes([again], 0) == KidLexemes([again], 0) + JoinedLexemes([again], 1);
      assert KidLexemes([again], 0) == [Quoted("")];
    } else {
      RereadJoinedLexemes(o, kids, 0, op);
    }
  }

  lemma {:induction false} RereadJoinedLexemes(o: Options, kids: seq<Node>, i: nat, inherited: Op)
    requires i <= |kids|
    ensures var r := RereadKids(o, kids, |kids|, inherited);
            && |JoinedLexemes(r, i)| == |JoinedLexemes(kids, i)|
            && (JoinedLexemes(r, i) == JoinedLexemes(kids, i) <==> StableFrom(o, kids, i))
    decreases kids, |kids| - i + 1
  {
    if i < |kids| {
      var r := RereadKids(o, kids, |kids|, inherited);
      RereadJoinedLexemes(o, kids, i + 1, inherited);
      RereadKidLexemes(o, kids, i, inherited);
      StableFromStep(o, kids, i);
      SplitEqual(KidLexemes(r, i), JoinedLexemes(r, i + 1), KidLexemes(kids, i), JoinedLexemes(kids, i + 1));
    }
  }

  lemma {:induction false} RereadKidLexemes(o: Options, kids: seq<Node>, i: nat, inherited: Op)
    requires i < |kids|
    ensures var r := RereadKids(o, kids, |kids|, inherited);
            && |KidLexemes(r, i)| == |KidLexemes(kids, i)|
            && (KidLexemes(r, i) == KidLexemes(kids, i)
                <==> !NearAfterEmptyGroup(kids, i) && StableNode(o, kids[i]))
    decreases kids, 0
  {
    var r := RereadKids(o, kids, |kids|, inherited);
    var op := RereadOp(kids, i, inherited);
    RereadAt(o, kids, |kids|, inherited, i);
    RereadNodeLexemes(o, kids[i], op);
    if i > 0 {
      SplitEqual(OpLexemes(r[i].op), NodeLexemes(r[i]), OpLexemes(kids[i].op), NodeLexemes(kids[i]));
      if NearAfterEmptyGroup(kids, i) {
        assert OpLexemes(r[i].op)[0] == Bare("and") && OpLexemes(kids[i].op)[0] == Bare("near");
        assert "and"[0] != "near"[0];
      } else {
        assert r[i].op == kids[i].op;
      }
    } else {
      assert KidLexemes(r, i) == NodeLexemes(r[i]) && KidLexemes(kids, i) == NodeLexemes(kids[i]);
    }
  }

  /** A stable tree prints the same after re-reading. */
  lemma {:induction false} StablePrintsSame(o: Options, kids: seq<Node>, op: Op)
    requires NoStemming(o) && Stable(o, kids)
    ensures PrintBody(o, RereadBody(o, kids, op)) == PrintBody(o, kids)
    decreases kids, |kids| + 2
  {
    StableKids(o, kids);
    if kids == [] {
      var again := MakeTerm(o, And, Squeeze(""));
      assert Joined(o, [again], 0) == PrintKid(o, [again], 0) + Joined(o, [again], 1);
    } else {
      StableJoinedSame(o, kids, 0, op);
    }
  }

  lemma {:induction false} StableJoinedSame(o: Options, kids: seq<Node>, i: nat, inherited: Op)
    requires NoStemming(o) && i <= |kids| && StableFrom(o, kids, i)
    ensures Joined(o, RereadKids(o, kids, |kids|, inherited), i) == Joined(o, kids, i)
    decreases kids, |kids| - i + 1
  {
    if i < |kids| {
      StableFromStep(o, kids, i);
      StableKidSame(o, kids, i, inherited);
      StableJoinedSame(o, kids, i + 1, inherited);
    }
  }

  lemma {:induction false} StableKidSame(o: Options, kids: seq<Node>, i: nat, inherited: Op)
    requires NoStemming(o) && i < |kids| && !NearAfterEmptyGroup(kids, i) && StableNode(o, kids[i])
    ensures PrintKid(o, RereadKids(o, kids, |kids|, inherited), i) == PrintKid(o, kids, i)
    decreases kids, 0
  {
    RereadAt(o, kids, |kids|, inherited, i);
    var op := RereadOp(kids, i, inherited);
    var again := RereadNode(o, kids[i], op);
    assert i > 0 ==> again.op == kids[i].op;
    if kids[i].Group? {
      StablePrintsSame(o, kids[i].kids, op);
    }
    assert PrintNode(o, again, BeforeNear(RereadKids(o, kids, |kids|, inherited), i)) == PrintNode(o, kids[i], BeforeNear(kids, i));
  }
}
