/** The character stream as the parser drives it: one index moved over the sanitized condition. */
module FullTextStream {
  import opened FullTextText
  import Lexer = FullTextLexer

  class ConditionStream {
    const strict: bool
    const condition: string
    var index: int

    ghost predicate Valid()
      reads this
    {
      -1 <= index
    }

    constructor (condition: string, strict: bool)
      ensures Valid() && index == -1 && this.strict == strict
      ensures this.condition == Sanitize(condition)
    {
      this.strict := strict;
      this.condition := Sanitize(condition);
      index := -1;
    }

    function Current(): char
      reads this
    {
      if index < 0 || index >= |condition| then 0 as char else condition[index]
    }

    method Read() returns (more: bool)
      requires Valid()
      modifies this
      ensures Valid() && index == old(index) + 1
      ensures more == (index < |condition|)
    {
      index := index + 1;
      more := index < |condition|;
    }

    /** Reads a literal up to its closing quote, with the current character on the opening one. */
    method ReadQuote() returns (r: Result<string>)
      requires Valid() && index < |condition|
      modifies this
      ensures Valid() && index > old(index)
      ensures var span := SpanAt(strict, condition, old(index) + 1);
              if strict && !span.closed then r == Err(UnbalancedQuotes)
              else r == Ok(span.text) && index == span.last
    {
      hide Gathered;
      ghost var start := index + 1;
      var sb := "";
      var more := Read();
      NothingYet(strict, condition, start);
      while more
        invariant start <= index <= |condition|
        invariant more == (index < |condition|)
        invariant Gathered(strict, condition, start, sb, index)
        decreases |condition| - index
      {
        ghost var i := index;
        if Current() == '"' {
          if index + 1 == |condition| {
            index := |condition|;
            StopHere(strict, condition, start, sb, i);
            return Ok(sb);
          }
          var peek := condition[index + 1];
          if Lexer.EndsQuote(peek) || (peek != '"' && strict) {
            StopHere(strict, condition, start, sb, i);
            return Ok(sb);
          }
          if peek == '"' {
            index := index + 1;
          }
        }
        TakeHere(strict, condition, start, sb, i);
        sb := sb + [Current()];
        more := Read();
      }
      RunsOut(strict, condition, start, sb);
      if strict {
        return Err(UnbalancedQuotes);
      }
      return Ok(sb);
    }
  }

  // ----- the literal that starts at an index -----

  /** The text of a literal, the index of the last character taken, and whether a closing quote was found. */
  datatype Span = Span(text: string, last: nat, closed: bool)

  /** The character at i is a quote that closes the literal. */
  predicate Stops(strict: bool, s: string, i: nat)
    requires i < |s|
  {
    s[i] == '"' && (i + 1 == |s| || Lexer.EndsQuote(s[i + 1]) || (strict && s[i + 1] != '"'))
  }

  /** The index whose character is appended: of a doubled quote, the second. */
  function Taken(s: string, i: nat): nat
    requires i < |s|
  {
    if s[i] == '"' && i + 1 < |s| && s[i + 1] == '"' then i + 1 else i
  }

  /** Lexer.ReadQuote by index instead of by suffix. */
  ghost function SpanAt(strict: bool, s: string, i: nat): (r: Span)
    requires i <= |s|
    decreases |s| - i
  {
    if i == |s| then Span("", i, false)
    else if Stops(strict, s, i) then Span("", if i + 1 == |s| then |s| else i, true)
    else Grow(s[Taken(s, i)], SpanAt(strict, s, Taken(s, i) + 1))
  }

  ghost function Grow(c: char, r: Span): Span {
    r.(text := [c] + r.text)
  }

  /** Of the span at start, sb is what lies before index i. */
  ghost predicate Gathered(strict: bool, s: string, start: nat, sb: string, i: nat) {
    start <= i <= |s| &&
    var whole, rest := SpanAt(strict, s, start), SpanAt(strict, s, i);
    whole.text == sb + rest.text && whole.last == rest.last && whole.closed == rest.closed
  }

  lemma NothingYet(strict: bool, s: string, start: nat)
    requires start <= |s|
    ensures Gathered(strict, s, start, "", start)
  {
    var whole := SpanAt(strict, s, start);
    assert "" + whole.text == whole.text;
  }

  lemma StopHere(strict: bool, s: string, start: nat, sb: string, i: nat)
    requires i < |s| && Stops(strict, s, i) && Gathered(strict, s, start, sb, i)
    ensures SpanAt(strict, s, start) == Span(sb, if i + 1 == |s| then |s| else i, true)
  {
    assert sb + "" == sb;
  }

  lemma TakeHere(strict: bool, s: string, start: nat, sb: string, i: nat)
    requires i < |s| && !Stops(strict, s, i) && Gathered(strict, s, start, sb, i)
    ensures Gathered(strict, s, start, sb + [s[Taken(s, i)]], Taken(s, i) + 1)
  {
    var later := SpanAt(strict, s, Taken(s, i) + 1);
    assert sb + ([s[Taken(s, i)]] + later.text) == (sb + [s[Taken(s, i)]]) + later.text;
  }

  lemma RunsOut(strict: bool, s: string, start: nat, sb: string)
    requires Gathered(strict, s, start, sb, |s|)
    ensures SpanAt(strict, s, start) == Span(sb, |s|, false)
  {
    assert sb + "" == sb;
  }

  lemma QuoteStep(strict: bool, s: string, i: nat)
    requires i < |s|
    ensures Lexer.ReadQuote(strict, s[i..]) ==
      if Stops(strict, s, i) then Lexer.Quote("", s[i + 1..], true)
      else Lexer.Prepend(s[Taken(s, i)], Lexer.ReadQuote(strict, s[Taken(s, i) + 1..]))
  {
    var t := s[i..];
    assert t[0] == s[i] && t[1..] == s[i + 1..];
    if i + 1 < |s| {
      assert t[1] == s[i + 1] && t[2..] == s[i + 2..];
    }
  }

  ghost predicate Matches(s: string, span: Span, q: Lexer.Quote) {
    && span.text == q.text && span.closed == q.closed
    && span.last <= |s|
    && q.rest == if span.last < |s| then s[span.last + 1..] else ""
  }

  /** The span is the literal that the lexer reads from the suffix, and it stops where the lexer goes on. */
  lemma {:induction false} SpanIsQuote(strict: bool, s: string, i: nat)
    requires i <= |s|
    ensures Matches(s, SpanAt(strict, s, i), Lexer.ReadQuote(strict, s[i..]))
    decreases |s| - i
  {
    if i == |s| {
      assert s[i..] == "";
    } else {
      QuoteStep(strict, s, i);
      if !Stops(strict, s, i) {
        SpanIsQuote(strict, s, Taken(s, i) + 1);
      }
    }
  }
}
