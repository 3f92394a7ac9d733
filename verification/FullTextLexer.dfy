/** The character stream: bare tokens, quoted literals and parentheses, in reading order. */
module FullTextLexer {
  import opened Basics
  import opened FullTextText

  /** Unterminated stands for the point where the stream throws on a literal that is never closed. */
  datatype Lexeme = Bare(text: string) | Quoted(text: string) | Open | Close | Unterminated

  /** What may follow a closing quote. */
  predicate EndsQuote(c: char) {
    c == ' ' || c == ')' || c == '(' || IsSymbol(c)
  }

  datatype Quote = Quote(text: string, rest: string, closed: bool)

  function Prepend(c: char, q: Quote): Quote {
    q.(text := [c] + q.text)
  }

  /** ReadQuote, from just after the opening quote; strict is the ThrowOnUnbalancedQuotes bit. */
  function ReadQuote(strict: bool, s: string): (q: Quote)
    ensures |q.rest| <= |s| && (q.closed ==> s != "") && (!q.closed ==> q.rest == "")
  {
    if s == "" then Quote("", "", false)
    else if s[0] != '"' then Prepend(s[0], ReadQuote(strict, s[1..]))
    else if |s| == 1 then Quote("", "", true)
    else if EndsQuote(s[1]) then Quote("", s[1..], true)
    else if s[1] == '"' then Prepend('"', ReadQuote(strict, s[2..]))
    else if strict then Quote("", s[1..], true)
    else Prepend('"', ReadQuote(strict, s[1..]))
  }

  /** PutToken ignores an empty bare token. */
  function Flush(token: string): seq<Lexeme> {
    if token == "" then [] else [Bare(token)]
  }

  /** The lexemes still to come when `token` has been gathered and `s` is unread. */
  function Lex(strict: bool, s: string, token: string): seq<Lexeme>
    decreases |s|
  {
    if s == "" then Flush(token)
    else if IsSymbol(s[0]) then Flush(token) + [Bare([s[0]])] + Lex(strict, s[1..], "")
    else if s[0] == ' ' then Flush(token) + Lex(strict, s[1..], "")
    else if s[0] == '(' then Flush(token) + [Open] + Lex(strict, s[1..], "")
    else if s[0] == ')' then Flush(token) + [Close] + Lex(strict, s[1..], "")
    else if s[0] == '"' then
      var q := ReadQuote(strict, s[1..]);
      if strict && !q.closed then Flush(token) + [Unterminated]
      else Flush(token) + [Quoted(q.text)] + Lex(strict, q.rest, "")
    else Lex(strict, s[1..], token + [s[0]])
  }

  /** String.Replace of each quote by two. */
  function Double(s: string): string {
    if s == "" then "" else DoubleChar(s[0]) + Double(s[1..])
  }

  function DoubleChar(c: char): string {
    if c == '"' then "\"\"" else [c]
  }

  function Literal(s: string): string {
    "\"" + Double(s) + "\""
  }

  // ----- reading back what the printer writes -----

  /** What can follow a closing quote: nothing, or a character that lets a quote close. */
  predicate Delimited(rest: string) {
    rest != "" ==> EndsQuote(rest[0])
  }

  lemma ReadQuoteStep(strict: bool, c: char, tail: string)
    requires tail != ""
    ensures ReadQuote(strict, DoubleChar(c) + tail) == Prepend(c, ReadQuote(strict, tail))
  {
    if c == '"' {
      var all := "\"\"" + tail;
      assert DoubleChar(c) + tail == all;
      assert all[2..] == tail && |all| > 1 && all[0] == '"' && all[1] == '"';
    } else {
      var all := [c] + tail;
      assert DoubleChar(c) + tail == all;
      assert all[1..] == tail;
    }
  }

  lemma ReadQuoteAtEnd(strict: bool, rest: string)
    requires Delimited(rest)
    ensures ReadQuote(strict, "\"" + rest) == Quote("", rest, true)
  {
    var all := "\"" + rest;
    assert all[0] == '"' && all[1..] == rest;
    assert rest != "" ==> all[1] == rest[0];
  }

  lemma DoubleStep(s: string, tail: string)
    requires s != ""
    ensures Double(s) + tail == DoubleChar(s[0]) + (Double(s[1..]) + tail)
  {
    Associate(DoubleChar(s[0]), Double(s[1..]), tail);
  }

  /** The quote reader undoes the doubling of quotes. */
  lemma {:induction false} ReadQuoteUndoesDouble(strict: bool, s: string, rest: string)
    requires Delimited(rest)
    ensures ReadQuote(strict, Double(s) + ("\"" + rest)) == Quote(s, rest, true)
  {
    var end := "\"" + rest;
    if s == "" {
      ReadQuoteAtEnd(strict, rest);
      assert Double(s) + end == end;
    } else {
      ReadQuoteUndoesDouble(strict, s[1..], rest);
      var tail := Double(s[1..]) + end;
      ReadQuoteStep(strict, s[0], tail);
      DoubleStep(s, end);
      assert [s[0]] + s[1..] == s;
    }
  }

  lemma LexLiteral(strict: bool, s: string, rest: string)
    requires Delimited(rest)
    ensures Lex(strict, Literal(s) + rest, "") == [Quoted(s)] + Lex(strict, rest, "")
  {
    ReadQuoteUndoesDouble(strict, s, rest);
    var inner := Double(s) + ("\"" + rest);
    assert Literal(s) + rest == "\"" + inner;
    assert (Literal(s) + rest)[1..] == inner;
  }

  /** A word without break characters, followed by a space, is one bare token. */
  lemma {:induction false} LexWord(strict: bool, token: string, word: string, rest: string)
    requires token + word != ""
    requires forall i :: 0 <= i < |word| ==> !IsBreak(word[i])
    ensures Lex(strict, word + " " + rest, token) == [Bare(token + word)] + Lex(strict, rest, "")
    decreases |word|
  {
    var s := word + " " + rest;
    if word == "" {
      assert s == " " + rest && s[1..] == rest && token + word == token;
    } else {
      assert s[1..] == word[1..] + " " + rest;
      assert (token + [word[0]]) + word[1..] == token + word;
      LexWord(strict, token + [word[0]], word[1..], rest);
    }
  }

  /** The bare tokens an operator prints as. */
  function OpLexemes(op: Op): seq<Lexeme> {
    match op
    case AndNot => [Bare("and"), Bare("not")]
    case _ => [Bare(OpText(op))]
  }

  lemma LexSpace(strict: bool, s: string)
    ensures Lex(strict, " " + s, "") == Lex(strict, s, "")
  {
    assert (" " + s)[1..] == s;
  }

  lemma LexFirstWord(strict: bool, word: string, rest: string)
    requires word != "" && forall i :: 0 <= i < |word| ==> !IsBreak(word[i])
    ensures Lex(strict, word + " " + rest, "") == [Bare(word)] + Lex(strict, rest, "")
  {
    LexWord(strict, "", word, rest);
    assert "" + word == word;
  }

  lemma LexWords(strict: bool, op: Op, rest: string)
    ensures Lex(strict, OpText(op) + " " + rest, "") == OpLexemes(op) + Lex(strict, rest, "")
  {
    if op == AndNot {
      var second := "not" + " " + rest;
      assert OpText(op) + " " + rest == "and" + " " + second;
      LexFirstWord(strict, "and", second);
      LexFirstWord(strict, "not", rest);
      Associate([Bare("and")], [Bare("not")], Lex(strict, rest, ""));
    } else {
      LexFirstWord(strict, OpText(op), rest);
    }
  }

  function Separator(op: Op): string {
    " " + OpText(op) + " "
  }

  lemma LexOperator(strict: bool, op: Op, rest: string)
    ensures Lex(strict, Separator(op) + rest, "") == OpLexemes(op) + Lex(strict, rest, "")
  {
    var words := OpText(op) + " " + rest;
    assert Separator(op) + rest == " " + words;
    LexSpace(strict, words);
    LexWords(strict, op, rest);
  }

  // ----- quotes that stand alone -----

  lemma {:induction false} ReadQuotePlain(strict: bool, s: string, rest: string)
    requires '"' !in s
    ensures var q := ReadQuote(strict, rest); ReadQuote(strict, s + rest) == Quote(s + q.text, q.rest, q.closed)
  {
    if s == "" {
      assert s + rest == rest && "" + ReadQuote(strict, rest).text == ReadQuote(strict, rest).text;
    } else {
      assert (s + rest)[1..] == s[1..] + rest;
      ReadQuotePlain(strict, s[1..], rest);
      assert [s[0]] + (s[1..] + ReadQuote(strict, rest).text) == s + ReadQuote(strict, rest).text;
    }
  }

  /** Without a second quote the literal goes to the end, and is an exception if unbalanced quotes throw. */
  lemma UnclosedQuote(strict: bool, s: string)
    requires '"' !in s
    ensures ReadQuote(strict, s) == Quote(s, "", false)
    ensures Lex(strict, "\"" + s, "") == [if strict then Unterminated else Quoted(s)]
  {
    ReadQuotePlain(strict, s, "");
    assert s + "" == s && ("\"" + s)[1..] == s;
  }

  /** A quote inside a literal that nothing lets close belongs to the text, or ends the literal if unbalanced quotes throw. */
  lemma StrayQuote(strict: bool, s: string, rest: string)
    requires '"' !in s && rest != "" && rest[0] !in MARKS
    ensures ReadQuote(strict, s + ("\"" + rest))
            == if strict then Quote(s, rest, true)
               else Quote(s + ("\"" + ReadQuote(false, rest).text), ReadQuote(false, rest).rest, ReadQuote(false, rest).closed)
  {
    var tail := "\"" + rest;
    assert tail[1..] == rest && tail[1] == rest[0];
    ReadQuotePlain(strict, s, tail);
    assert s + "" == s;
  }
}
