/** The parser, proved against the lexeme-by-lexeme specification. */
module FullTextParser {
  import opened Basics
  import opened FullTextText
  import opened FullTextLexer
  import opened FullTextTree
  import opened FullTextStream
  import opened FullTextRoundTrip
  import opened FullTextHeap

  class ConditionParser {
    const options: Options
    var token: string
    var lastOp: Op
    var inQuotes: bool
    const rootExpression: ConditionExpression
    var currentExpression: ConditionExpression

    ghost var shape: Shape
    ghost var limit: nat
    ghost var spine: seq<ConditionExpression>

    /** The lexemes that have been put into the tree. */
    ghost var read: seq<Lexeme>

    /** The current expression ends a path of groups from the root, each the last child of the one before. */
    ghost predicate Valid()
      reads this, shape.Keys
    {
      && Forest(shape, limit, options) && Mirrors(shape) && Spine(spine, shape)
      && spine[0] == rootExpression && spine[|spine| - 1] == currentExpression
      && rootExpression in shape && currentExpression in shape
    }

    ghost function Abs(): State
      reads this, shape.Keys
      requires Valid()
    {
      StateOf(spine, shape, limit, options, lastOp)
    }

    /** The tree is the one for what has been read, and so the current expression is as deep as its parentheses say. */
    ghost predicate Tracks()
      reads this, shape.Keys
      requires Valid()
    {
      Build(options, read, Start) == Ok(Abs()) && |spine| - 1 == ClampedDepth(read)
    }

    constructor (options: Options)
      ensures Valid() && read == [] && fresh(shape.Keys) && this.options == options
      ensures Abs() == Start && token == "" && !inQuotes
    {
      this.options := options;
      var root := new ConditionExpression.Root(options);
      rootExpression := root;
      currentExpression := root;
      token, lastOp, inQuotes := "", And, false;
      shape := map[root := []];
      limit := 1;
      spine, read := [root], [];
      new;
      assert Linked(root, shape, options);
      assert Kids(root, shape, limit, options) == [];
      assert Abs().outer == [];
    }

    /** The lexemes that the token in hand stands for. */
    ghost function Pending(): seq<Lexeme>
      reads this
    {
      if inQuotes then [Quoted(token)] else Flush(token)
    }

    /** Adds a term to the current expression and starts afresh. */
    method PutTermText(term: string) returns (error: Option<Error>)
      requires Valid()
      modifies this`shape, this`limit, this`token, this`lastOp, currentExpression
      ensures error == None ==> Valid() && token == "" && fresh(shape.Keys - old(shape.Keys))
      ensures PutTerm(options, old(Abs()), term) == match error case None => Ok(Abs()) case Some(e) => Err(e)
    {
      hide Forest, Spine, StateOf, PutTerm, Prune, Kids, ToNode, MakeTerm, Linked;
      Current(spine, shape, limit, options);
      var r := currentExpression.AddTerm(lastOp, term, limit);
      if r.Err? {
        TermRefused(spine, shape, limit, options, lastOp, term);
        return Some(r.error);
      }
      TermStep(spine, shape, limit, options, lastOp, term, r.value);
      shape, limit := Grown(shape, currentExpression, r.value), limit + 1;
      token, lastOp := "", And;
      return None;
    }

    method PutToken() returns (error: Option<Error>)
      requires Valid()
      modifies this`shape, this`limit, this`token, this`lastOp, currentExpression
      ensures error == None ==> Valid() && token == "" && fresh(shape.Keys - old(shape.Keys))
      ensures Build(options, old(Pending()), old(Abs())) == match error case None => Ok(Abs()) case Some(e) => Err(e)
    {
      hide Forest, Spine, StateOf, Build, PutTerm, TryParse, Collapse, Trim, Mirrors, ToNode, Kids;
      PendingStep(options, token, inQuotes, Abs());
      RetypeOp(spine, shape, limit, options, lastOp, lastOp);
      if !inQuotes {
        var parsed := TryParse(token, lastOp);
        if parsed.Some? {
          RetypeOp(spine, shape, limit, options, lastOp, parsed.value);
          lastOp := parsed.value;
          token := "";
          return None;
        }
      }
      var term := token;
      if inQuotes {
        term := Collapse(Trim(term));
      }
      if term == "" && !inQuotes {
        return None;
      }
      error := PutTermText(term);
    }

    /** Adds a group to the current expression and moves into it. */
    method OpenGroup() returns (error: Option<Error>)
      requires Valid()
      modifies this`shape, this`limit, this`spine, this`currentExpression, currentExpression
      ensures error == None ==> Valid() && fresh(shape.Keys - old(shape.Keys))
      ensures PushGroup(options, old(Abs())) == match error case None => Ok(Abs()) case Some(e) => Err(e)
    {
      hide Forest, Spine, StateOf;
      Current(spine, shape, limit, options);
      RetypeOp(spine, shape, limit, options, lastOp, lastOp);
      var r := currentExpression.AddSubexpression(lastOp, limit);
      if r.Err? {
        return Some(r.error);
      }
      var exp := r.value;
      GroupStep(spine, shape, limit, options, lastOp, exp);
      shape, limit, spine := Grown(shape, currentExpression, exp), limit + 1, spine + [exp];
      currentExpression := exp;
      return None;
    }

    method PushExpression() returns (error: Option<Error>)
      requires Valid() && !inQuotes
      modifies this`shape, this`limit, this`spine, this`token, this`lastOp, this`currentExpression, currentExpression
      ensures !inQuotes
      ensures error == None ==> Valid() && token == "" && fresh(shape.Keys - old(shape.Keys))
      ensures Build(options, old(Flush(token)) + [Open], old(Abs()))
              == match error case None => Ok(Abs()) case Some(e) => Err(e)
    {
      hide Forest, Spine, StateOf, Build, PushGroup, Mirrors, ToNode, Kids;
      BuildAppend(options, Flush(token), [Open], Abs());
      error := PutToken();
      if error.Some? {
        return;
      }
      BuildOne(options, Open, Abs());
      error := OpenGroup();
    }

    method PopExpression() returns (error: Option<Error>)
      requires Valid() && !inQuotes
      modifies this`shape, this`limit, this`spine, this`token, this`lastOp, this`currentExpression, currentExpression
      ensures !inQuotes
      ensures error == None ==> Valid() && token == "" && fresh(shape.Keys - old(shape.Keys))
      ensures Build(options, old(Flush(token)) + [Close], old(Abs()))
              == match error case None => Ok(Abs()) case Some(e) => Err(e)
    {
      hide Forest, Spine, StateOf, Build, Mirrors, ToNode, Kids;
      BuildAppend(options, Flush(token), [Close], Abs());
      error := PutToken();
      if error.Some? {
        return;
      }
      BuildOne(options, Close, Abs());
      Current(spine, shape, limit, options);
      PopStep(spine, shape, limit, options, lastOp);
      if currentExpression.parent == null {
        if options.throwParens {
          return Some(UnbalancedParens);
        }
      } else {
        currentExpression := currentExpression.parent;
        spine := spine[..|spine| - 1];
      }
      token, lastOp := "", And;
    }

    /** The current character is an operator symbol. */
    method TakeSymbol(symbol: string) returns (error: Option<Error>)
      requires Valid() && !inQuotes && symbol != ""
      modifies this`shape, this`limit, this`spine, this`token, this`lastOp, this`currentExpression, currentExpression
      ensures error == None ==> Valid() && token == "" && fresh(shape.Keys - old(shape.Keys))
      ensures Build(options, old(Flush(token)) + [Bare(symbol)], old(Abs()))
              == match error case None => Ok(Abs()) case Some(e) => Err(e)
    {
      hide Forest, Spine, StateOf, Build, Mirrors, ToNode, Kids;
      BuildAppend(options, Flush(token), [Bare(symbol)], Abs());
      error := PutToken();
      if error.Some? {
        return;
      }
      token := symbol;
      error := PutToken();
    }

    /** The current character is a quote. */
    method TakeLiteral(stream: ConditionStream) returns (error: Option<Error>)
      requires Valid() && !inQuotes && stream.Valid() && stream.index >= 0
      requires stream.index < |stream.condition|
      modifies this`shape, this`limit, this`spine, this`token, this`lastOp, this`currentExpression, this`inQuotes, currentExpression, stream
      ensures !inQuotes && (error == None ==> Valid() && token == "" && fresh(shape.Keys - old(shape.Keys)))
      ensures stream.Valid() && stream.index >= old(stream.index)
      ensures var span := SpanAt(stream.strict, stream.condition, old(stream.index) + 1);
              && Build(options, old(Flush(token)) + [Literally(stream.strict, span)], old(Abs()))
                 == (match error case None => Ok(Abs()) case Some(e) => Err(e))
              && (error == None ==> stream.index == span.last && (stream.strict ==> span.closed))
    {
      hide Forest, Spine, StateOf, Build, SpanAt, Mirrors, ToNode, Kids;
      ghost var span := SpanAt(stream.strict, stream.condition, stream.index + 1);
      BuildAppend(options, Flush(token), [Literally(stream.strict, span)], Abs());
      error := PutToken();
      if error.Some? {
        return;
      }
      BuildOne(options, Unterminated, Abs());
      var r := stream.ReadQuote();
      if r.Err? {
        return Some(r.error);
      }
      inQuotes := true;
      token := r.value;
      error := PutToken();
      inQuotes := false;
    }

    /** One turn of the main loop: the lexemes that the current character completes go into the tree. */
    method Turn(stream: ConditionStream) returns (error: Option<Error>)
      requires Valid() && !inQuotes && stream.Valid() && stream.index >= 0
      requires stream.index < |stream.condition|
      modifies this`shape, this`limit, this`spine, this`token, this`lastOp, this`currentExpression, this`inQuotes, currentExpression, stream
      ensures !inQuotes && (error == None ==> Valid() && fresh(shape.Keys - old(shape.Keys)))
      ensures stream.Valid() && stream.index >= old(stream.index)
      ensures Build(options, old(TurnLexemes(stream.strict, stream.condition, stream.index, token)), old(Abs()))
              == match error case None => Ok(Abs()) case Some(e) => Err(e)
      ensures error == None ==>
        && !Broken(stream.strict, stream.condition, old(stream.index))
        && stream.index == TurnLast(stream.strict, stream.condition, old(stream.index))
        && token == old(TurnToken(stream.condition, stream.index, token))
    {
      hide Forest, Spine, StateOf, SpanAt, Mirrors, ToNode, Kids;
      var c := stream.Current();
      if IsSymbol(c) {
        hide Build;
        error := TakeSymbol([c]);
      } else if c == ' ' {
        hide Build;
        error := PutToken();
      } else if c == '(' {
        hide Build;
        error := PushExpression();
      } else if c == ')' {
        hide Build;
        error := PopExpression();
      } else if c == '"' {
        hide Build;
        error := TakeLiteral(stream);
      } else {
        RetypeOp(spine, shape, limit, options, lastOp, lastOp);
        token := token + [c];
        return None;
      }
    }

    /** The same, with what it means for everything read so far and still to be read. */
    method Take(stream: ConditionStream) returns (error: Option<Error>)
      requires Valid() && Tracks() && !inQuotes && stream.Valid() && stream.index >= 0
      requires stream.index < |stream.condition|
      modifies this, currentExpression, stream
      ensures !inQuotes && (error == None ==> Valid() && Tracks() && fresh(shape.Keys - old(shape.Keys)))
      ensures stream.Valid() && stream.index >= old(stream.index)
      ensures error == None ==>
        old(read + LexFrom(stream.strict, stream.condition, stream.index, token))
        == read + LexFrom(stream.strict, stream.condition, stream.index + 1, token)
      ensures error.Some? ==>
        Build(options, old(read + LexFrom(stream.strict, stream.condition, stream.index, token)), Start) == Err(error.value)
    {
      hide Forest, Spine, StateOf, Build, LexFrom, TurnLexemes, Broken, TurnLast, TurnToken, Mirrors, ToNode, Kids, ClampedDepth;
      ghost var strict, s, i := stream.strict, stream.condition, stream.index;
      ghost var lexemes, later := TurnLexemes(strict, s, i, token), LexFrom(strict, s, i, token);
      TurnStep(strict, s, i, token);
      Reading(options, read, lexemes, later);
      error := Turn(stream);
      if error == None {
        read := read + lexemes;
        DepthIsClamped(options, read);
        StateDepth(spine, shape, limit, options, lastOp);
      }
    }

    /** The constructor's main loop. */
    method ReadAll(stream: ConditionStream, ghost all: seq<Lexeme>) returns (error: Option<Error>)
      requires Valid() && Tracks() && !inQuotes && stream.Valid() && stream.index == -1
      requires all == read + LexFrom(stream.strict, stream.condition, 0, token)
      modifies this, shape.Keys, stream
      ensures error == None ==> Valid() && Tracks() && !inQuotes && fresh(shape.Keys - old(shape.Keys))
      ensures error == None ==> all == read + Flush(token)
      ensures error.Some? ==> Build(options, all, Start) == Err(error.value)
    {
      hide Lex, Forest, Spine, StateOf, Build, LexFrom, Mirrors, ClampedDepth;
      var more := stream.Read();
      while more
        invariant Valid() && Tracks() && !inQuotes && fresh(shape.Keys - old(shape.Keys))
        invariant stream.Valid() && stream.index >= 0
        invariant more == (stream.index < |stream.condition|)
        invariant all == read + LexFrom(stream.strict, stream.condition, stream.index, token)
        decreases |stream.condition| - stream.index
      {
        error := Take(stream);
        if error.Some? {
          return;
        }
        more := stream.Read();
      }
      WholeInput(stream.strict, stream.condition, stream.index, token);
      return None;
    }

    /** The whole constructor: the main loop, the last token and the final check. */
    method Run(condition: string) returns (error: Option<Error>)
      requires Valid() && Abs() == Start && read == [] && token == "" && !inQuotes
      modifies this, shape.Keys
      ensures error == None ==> Valid() && fresh(shape.Keys - old(shape.Keys))
      ensures error == None ==> read == Lex(options.throwQuotes, Sanitize(condition), "") && Tracks()
      ensures Parse(options, condition)
              == match error case None => Ok(Kids(rootExpression, shape, limit, options)) case Some(e) => Err(e)
    {
      hide Lex, Forest, Spine, StateOf, Build, Finish, LexFrom, Mirrors, ClampedDepth;
      var stream := new ConditionStream(condition, options.throwQuotes);
      ghost var all := Lex(options.throwQuotes, Sanitize(condition), "");
      WholeInput(stream.strict, stream.condition, 0, "");
      NothingRead(options);
      StateDepth(spine, shape, limit, options, lastOp);
      error := ReadAll(stream, all);
      if error.Some? {
        return;
      }
      BuildAppend(options, read, Flush(token), Start);
      ghost var last := Flush(token);
      error := PutToken();
      if error.Some? {
        return;
      }
      read := read + last;
      DepthIsClamped(options, read);
      StateDepth(spine, shape, limit, options, lastOp);
      FinishStep(spine, shape, limit, options, lastOp);
      if currentExpression != rootExpression && options.throwParens {
        return Some(UnbalancedParens);
      }
    }
  }

  /** The lexemes from index i on. */
  ghost function LexFrom(strict: bool, s: string, i: nat, token: string): seq<Lexeme> {
    Lex(strict, if i < |s| then s[i..] else "", token)
  }

  /** The lexeme that a literal makes. */
  ghost function Literally(strict: bool, span: Span): Lexeme {
    if strict && !span.closed then Unterminated else Quoted(span.text)
  }

  ghost predicate Broken(strict: bool, s: string, i: nat)
    requires i < |s|
  {
    s[i] == '"' && strict && !SpanAt(strict, s, i + 1).closed
  }

  /** What the character at i completes, with the token in hand. */
  ghost function TurnLexemes(strict: bool, s: string, i: nat, token: string): seq<Lexeme>
    requires i < |s|
  {
    if IsSymbol(s[i]) then Flush(token) + [Bare([s[i]])]
    else if s[i] == ' ' then Flush(token)
    else if s[i] == '(' then Flush(token) + [Open]
    else if s[i] == ')' then Flush(token) + [Close]
    else if s[i] == '"' then Flush(token) + [Literally(strict, SpanAt(strict, s, i + 1))]
    else []
  }

  /** Where reading it ends. */
  ghost function TurnLast(strict: bool, s: string, i: nat): nat
    requires i < |s|
  {
    if s[i] == '"' then SpanAt(strict, s, i + 1).last else i
  }

  /** The token in hand afterwards. */
  function TurnToken(s: string, i: nat, token: string): string
    requires i < |s|
  {
    if IsBreak(s[i]) then "" else token + [s[i]]
  }

  lemma TurnStep(strict: bool, s: string, i: nat, token: string)
    requires i < |s|
    ensures LexFrom(strict, s, i, token)
            == TurnLexemes(strict, s, i, token)
               + if Broken(strict, s, i) then []
                 else LexFrom(strict, s, TurnLast(strict, s, i) + 1, TurnToken(s, i, token))
  {
    hide SpanAt;
    var t := s[i..];
    assert t[1..] == s[i + 1..];
    SpanIsQuote(strict, s, i + 1);
    assert i + 1 == |s| ==> s[i + 1..] == "";
  }

  /** Reading more lexemes, or failing over them, in view of all that is to come. */
  lemma Reading(o: Options, read: seq<Lexeme>, lexemes: seq<Lexeme>, later: seq<Lexeme>)
    requires lexemes <= later && Build(o, read, Start).Ok?
    ensures Build(o, read + lexemes, Start) == Build(o, lexemes, Build(o, read, Start).value)
    ensures Build(o, lexemes, Build(o, read, Start).value).Err? ==>
      Build(o, read + later, Start) == Build(o, lexemes, Build(o, read, Start).value)
  {
    hide Build;
    var rest := later[|lexemes|..];
    BuildAppend(o, read, lexemes, Start);
    BuildAppend(o, read + lexemes, rest, Start);
    assert read + lexemes + rest == read + later;
  }

  lemma NothingRead(o: Options)
    ensures Build(o, [], Start) == Ok(Start) && ClampedDepth([]) == 0
  {
  }

  lemma StateDepth(spine: seq<ConditionExpression>, shape: Shape, limit: nat, o: Options, op: Op)
    requires Forest(shape, limit, o) && Spine(spine, shape)
    ensures |StateOf(spine, shape, limit, o, op).outer| == |spine| - 1
  {
  }

  function BareStep(o: Options, token: string, st: State): Result<State> {
    match TryParse(token, st.lastOp)
    case Some(op) => Ok(st.(lastOp := op))
    case None => PutTerm(o, st, token)
  }

  /** What PutToken must do with the token in hand. */
  lemma PendingStep(o: Options, token: string, quoted: bool, st: State)
    ensures quoted ==> Build(o, [Quoted(token)], st) == PutTerm(o, st, Squeeze(token))
    ensures token == "" ==> Build(o, Flush(token), st) == Ok(st) && TryParse(token, st.lastOp) == None
    ensures token != "" ==>
      Build(o, Flush(token), st) == BareStep(o, token, st)
  {
    BuildOne(o, Quoted(token), st);
    BuildOne(o, Bare(token), st);
  }

  lemma WholeInput(strict: bool, s: string, i: nat, token: string)
    ensures LexFrom(strict, s, 0, token) == Lex(strict, s, token)
    ensures i >= |s| ==> LexFrom(strict, s, i, token) == Flush(token)
  {
    assert s[0..] == s;
  }

  lemma RetypeOp(spine: seq<ConditionExpression>, shape: Shape, limit: nat, o: Options, op: Op, op': Op)
    requires Forest(shape, limit, o) && Spine(spine, shape)
    ensures StateOf(spine, shape, limit, o, op).(lastOp := op') == StateOf(spine, shape, limit, o, op')
    ensures StateOf(spine, shape, limit, o, op).lastOp == op
  {
  }

  /** The final check and the tree it leaves. */
  lemma FinishStep(spine: seq<ConditionExpression>, shape: Shape, limit: nat, o: Options, op: Op)
    requires Forest(shape, limit, o) && Spine(spine, shape)
    ensures spine[0] in shape
    ensures Finish(o, StateOf(spine, shape, limit, o, op)) ==
            if spine[|spine| - 1] != spine[0] && o.throwParens then Err(UnbalancedParens)
            else Ok(Kids(spine[0], shape, limit, o))
  {
    RootKids(spine, shape, limit, o, op);
    EndIsRoot(spine, shape);
  }
}
