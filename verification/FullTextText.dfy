/** Options, operators and the string clean-up of the full-text condition normaliser. */
module FullTextText {
  import opened Basics

  datatype Error = UnbalancedParens | UnbalancedQuotes | NearBeforeGroup | NearAfterGroup

  datatype Result<+T> = Ok(value: T) | Err(error: Error)

  /** The bits of FullTextSearchOptions. */
  datatype Options = Options(
    stemTerms: bool, stemPhrases: bool,
    trimTerms: bool, trimPhrases: bool,
    throwParens: bool, throwQuotes: bool, throwNear: bool)

  datatype Op = And | AndNot | Or | Near

  function OpText(op: Op): string {
    match op
    case And => "and"
    case AndNot => "and not"
    case Or => "or"
    case Near => "near"
  }

  predicate IsSymbol(c: char) {
    c == '&' || c == '+' || c == ',' || c == ';' || c == '-' || c == '!' || c == '|' || c == '~'
  }

  /** A character that ends a bare token: everything the parser's main loop treats specially. */
  predicate IsBreak(c: char) {
    IsSymbol(c) || c == ' ' || c == '(' || c == ')' || c == '"'
  }

  /** Characters that mean something outside quotes. */
  const MARKS := {'&', '+', ',', ';', '-', '!', '|', '~', ' ', '(', ')', '"'}

  /** ConditionOperator.TryParse: the operator a token denotes after the operator read so far. */
  function TryParse(s: string, op: Op): Option<Op> {
    if |s| == 1 then
      var c := s[0];
      if c == '&' || c == '+' || c == ',' || c == ';' then Some(And)
      else if c == '-' then Some(AndNot)
      else if c == '!' then (if op == And then Some(AndNot) else None)
      else if c == '|' then Some(Or)
      else if c == '~' then Some(Near)
      else None
    else if SameWord(s, "and") then Some(And)
    else if SameWord(s, "not") && op == And then Some(AndNot)
    else if SameWord(s, "or") then Some(Or)
    else if SameWord(s, "near") then Some(Near)
    else None
  }

  // ----- cleaning texts up -----

  /** The stream's replacement of control characters by spaces. */
  function Sanitize(s: string): (r: string)
    ensures |r| == |s|
    ensures forall i :: 0 <= i < |s| ==> r[i] == if 1 <= s[i] as int <= 0x1F then ' ' else s[i]
  {
    seq(|s|, i requires 0 <= i < |s| => if 1 <= s[i] as int <= 0x1F then ' ' else s[i])
  }

  /** Every run of spaces becomes one space. */
  function Collapse(s: string): string {
    if |s| < 2 then s
    else if s[0] == ' ' && s[1] == ' ' then Collapse(s[1..])
    else [s[0]] + Collapse(s[1..])
  }

  /** What a quoted literal becomes before it is added as a term. */
  function Squeeze(s: string): string {
    Collapse(Trim(s))
  }

  /** The clean-up of a phrase: each asterisk goes, with whatever follows it up to the next space. */
  function DropWord(s: string): (r: string)
    ensures |r| <= |s|
  {
    if s == "" || s[0] == ' ' then s else DropWord(s[1..])
  }

  function RemoveStars(s: string): string
    decreases |s|
  {
    if s == "" then ""
    else if s[0] == '*' then RemoveStars(DropWord(s[1..]))
    else [s[0]] + RemoveStars(s[1..])
  }

  /** Position of the first occurrence of a character, or the length when there is none. */
  function IndexOf(s: string, c: char): (k: nat)
    ensures k <= |s|
    ensures forall i :: 0 <= i < k ==> s[i] != c
    ensures k < |s| ==> s[k] == c
  {
    if s == "" || s[0] == c then 0 else 1 + IndexOf(s[1..], c)
  }

  /** The term text the expression constructor stores. */
  function Prune(o: Options, s: string): string {
    var star := IndexOf(s, '*');
    if star == |s| then s
    else if ' ' !in s then
      if !o.trimTerms || star == |s| - 1 then s
      else if star == 0 then "" else s[..star + 1]
    else if !o.trimPhrases then s
    else Squeeze(RemoveStars(s)) + "*"
  }

  /** From the inside of a quoted literal to the stored term text. */
  function Clean(o: Options, s: string): string {
    Prune(o, Squeeze(s))
  }

  // ----- the clean-up is idempotent -----

  predicate TidyEnds(s: string) {
    s != "" ==> !IsWhite(s[0]) && !IsWhite(s[|s| - 1])
  }

  predicate NoDoubleSpace(s: string) {
    forall i :: 0 <= i < |s| - 1 ==> !(s[i] == ' ' && s[i + 1] == ' ')
  }

  /** No white space at either end and no two spaces in a row. */
  predicate Tidy(s: string) {
    TidyEnds(s) && NoDoubleSpace(s)
  }

  lemma {:induction false} TrimStartEnds(s: string)
    ensures var t := TrimStart(s); |t| <= |s| && t == s[|s| - |t|..] && (t != "" ==> !IsWhite(t[0]))
  {
    if s != "" && IsWhite(s[0]) {
      TrimStartEnds(s[1..]);
      var t := TrimStart(s);
      assert s[1..][|s| - 1 - |t|..] == s[|s| - |t|..];
    } else {
      assert s[0..] == s;
    }
  }

  lemma {:induction false} TrimEndEnds(s: string)
    ensures var t := TrimEnd(s); |t| <= |s| && t == s[..|t|] && (t != "" ==> !IsWhite(t[|t| - 1]))
  {
    if s != "" && IsWhite(s[|s| - 1]) {
      TrimEndEnds(s[..|s| - 1]);
    } else {
      assert s[..|s|] == s;
    }
  }

  /** Trim leaves no white space at the ends and does nothing where there is none. */
  lemma TrimFacts(s: string)
    ensures TidyEnds(Trim(s))
    ensures TidyEnds(s) ==> Trim(s) == s
  {
    TrimStartEnds(s);
    TrimEndEnds(TrimStart(s));
  }

  lemma {:induction false} CollapseFacts(s: string)
    ensures var t := Collapse(s);
            && (t == "" <==> s == "")
            && (s != "" ==> t[0] == s[0] && t[|t| - 1] == s[|s| - 1])
            && NoDoubleSpace(t)
            && (NoDoubleSpace(s) ==> t == s)
  {
    if |s| >= 2 {
      CollapseFacts(s[1..]);
      var u := s[1..];
      assert u[0] == s[1] && u[|u| - 1] == s[|s| - 1];
      if !(s[0] == ' ' && s[1] == ' ') {
        var t := Collapse(s);
        assert t == [s[0]] + Collapse(u);
        if NoDoubleSpace(s) {
          forall i | 0 <= i < |u| - 1 ensures !(u[i] == ' ' && u[i + 1] == ' ') {
            assert u[i] == s[i + 1] && u[i + 1] == s[i + 2];
          }
          assert t == s;
        }
      } else {
        assert !NoDoubleSpace(s) by {
          assert s[0] == ' ' && s[0 + 1] == ' ';
        }
      }
    }
  }

  /** Squeezing gives a tidy text, and tidy texts are exactly the ones it leaves alone. */
  lemma SqueezeFacts(s: string)
    ensures Tidy(Squeeze(s))
    ensures Tidy(s) <==> Squeeze(s) == s
  {
    TrimFacts(s);
    CollapseFacts(Trim(s));
  }

  lemma {:induction false} RemoveStarsFacts(s: string)
    ensures '*' !in RemoveStars(s)
    ensures '*' !in s ==> RemoveStars(s) == s
    decreases |s|
  {
    if s == "" {
    } else if s[0] == '*' {
      RemoveStarsFacts(DropWord(s[1..]));
    } else {
      RemoveStarsFacts(s[1..]);
      assert s == [s[0]] + s[1..];
    }
  }

  lemma {:induction false} RemoveFinalStar(s: string)
    requires '*' !in s
    ensures RemoveStars(s + "*") == s
  {
    if s == "" {
      assert s + "*" == "*";
      assert DropWord("") == "";
      assert "*"[1..] == "";
    } else {
      assert (s + "*")[1..] == s[1..] + "*";
      RemoveFinalStar(s[1..]);
      assert s == [s[0]] + s[1..];
    }
  }

  lemma {:induction false} CollapseSubset(s: string, c: char)
    requires c !in s
    ensures c !in Collapse(s)
  {
    if |s| >= 2 {
      CollapseSubset(s[1..], c);
    }
  }

  lemma SqueezeSubset(s: string, c: char)
    requires c !in s
    ensures c !in Squeeze(s)
  {
    TrimStartEnds(s);
    TrimEndEnds(TrimStart(s));
    CollapseSubset(Trim(s), c);
  }

  /** Pruning a tidy text leaves it tidy, and pruning twice is pruning once. */
  lemma PruneFacts(o: Options, s: string)
    requires Tidy(s)
    ensures Tidy(Prune(o, s))
    ensures Prune(o, Prune(o, s)) == Prune(o, s)
  {
    var star := IndexOf(s, '*');
    var p := Prune(o, s);
    if star == |s| || (' ' !in s && !o.trimTerms) || (' ' in s && !o.trimPhrases) {
    } else if ' ' !in s {
      if star == 0 || star == |s| - 1 {
      } else {
        assert p == s[..star + 1];
        assert p[star] == '*' && IndexOf(p, '*') == star;
        assert forall i :: 0 <= i < |p| ==> p[i] == s[i];
      }
    } else {
      PhrasePruneFacts(o, s);
    }
  }

  lemma PhrasePruneFacts(o: Options, s: string)
    requires ' ' in s && '*' in s && o.trimPhrases
    ensures Tidy(Prune(o, s))
    ensures Prune(o, Prune(o, s)) == Prune(o, s)
  {
    var core := Squeeze(RemoveStars(s));
    RemoveStarsFacts(s);
    SqueezeFacts(RemoveStars(s));
    SqueezeSubset(RemoveStars(s), '*');
    var p := core + "*";
    assert IndexOf(s, '*') < |s|;
    assert Prune(o, s) == p;
    assert p[|core|] == '*';
    assert IndexOf(p, '*') == |core|;
    RemoveFinalStar(core);
    SqueezeFacts(core);
    assert Tidy(p) by {
      forall i | 0 <= i < |p| - 1 ensures !(p[i] == ' ' && p[i + 1] == ' ') {
        if i + 1 < |core| {
          assert p[i] == core[i] && p[i + 1] == core[i + 1];
        }
      }
    }
  }

  /** Cleaning a literal twice is cleaning it once. */
  lemma CleanIdempotent(o: Options, s: string)
    ensures Clean(o, Clean(o, s)) == Clean(o, s)
  {
    SqueezeFacts(s);
    PruneFacts(o, Squeeze(s));
    SqueezeFacts(Clean(o, s));
  }

  /** A bare token holds no space; cleaning undoes nothing of its pruning iff its ends are not white. */
  lemma BareCleanFacts(o: Options, s: string)
    requires ' ' !in s
    ensures Clean(o, Prune(o, s)) == Prune(o, s) <==> TidyEnds(Prune(o, s))
  {
    var p := Prune(o, s);
    SqueezeFacts(p);
    assert ' ' !in p;
    if TidyEnds(p) {
      assert Tidy(p);
      PruneFacts(o, p);
      var star := IndexOf(s, '*');
      if star < |s| && o.trimTerms && 0 < star < |s| - 1 {
        assert p[star] == '*' && IndexOf(p, '*') == star;
      }
      assert Prune(o, p) == p;
    } else {
      PruneFacts(o, Squeeze(p));
      assert Tidy(Clean(o, p));
    }
  }

  // ----- what the clean-up does -----

  /** Asterisks cut words off. */
  function Cut(word: string): string {
    word[..IndexOf(word, '*')]
  }

  lemma {:induction false} DropWholeWord(word: string, rest: string)
    requires ' ' !in word && (rest == "" || rest[0] == ' ')
    ensures DropWord(word + rest) == rest
  {
    if word == "" {
      assert word + rest == rest;
    } else {
      assert (word + rest)[1..] == word[1..] + rest;
      DropWholeWord(word[1..], rest);
    }
  }

  lemma {:induction false} RemoveFromWord(word: string, rest: string)
    requires ' ' !in word && (rest == "" || rest[0] == ' ')
    ensures RemoveStars(word + rest) == Cut(word) + RemoveStars(rest)
  {
    var s := word + rest;
    if word == "" {
      assert s == rest;
    } else {
      assert s[1..] == word[1..] + rest;
      if word[0] == '*' {
        DropWholeWord(word[1..], rest);
      } else {
        RemoveFromWord(word[1..], rest);
        assert Cut(word) == [word[0]] + Cut(word[1..]);
      }
    }
  }

  /** In a phrase each word loses its first asterisk and what follows it. */
  lemma RemoveStarsByWord(word: string, rest: string)
    requires ' ' !in word
    ensures RemoveStars(word) == Cut(word)
    ensures RemoveStars(word + (" " + rest)) == Cut(word) + (" " + RemoveStars(rest))
  {
    RemoveFromWord(word, "");
    assert word + "" == word && Cut(word) + "" == Cut(word);
    RemoveFromWord(word, " " + rest);
    assert (" " + rest)[1..] == rest;
  }

  /** A run of spaces becomes one, and what is before and behind it is cleaned up by itself. */
  lemma {:induction false} CollapseRun(a: string, run: string, b: string)
    requires a != "" && a[|a| - 1] != ' ' && b != "" && b[0] != ' '
    requires run != "" && forall i :: 0 <= i < |run| ==> run[i] == ' '
    ensures Collapse(a + (run + b)) == Collapse(a) + (" " + Collapse(b))
    decreases |a|, |run|
  {
    var s := a + (run + b);
    CollapseFirst(s);
    hide Collapse;
    assert s[1..] == a[1..] + (run + b);
    if |a| > 1 {
      assert s[1] == a[1];
      CollapseFirst(a);
      CollapseRun(a[1..], run, b);
      Associate(if a[0] == ' ' && a[1] == ' ' then "" else [a[0]], Collapse(a[1..]), " " + Collapse(b));
    } else {
      CollapseBefore(run, b);
      CollapseOne(a);
      assert a[1..] + (run + b) == run + b;
    }
  }

  lemma CollapseFirst(s: string)
    requires |s| > 1
    ensures Collapse(s) == (if s[0] == ' ' && s[1] == ' ' then "" else [s[0]]) + Collapse(s[1..])
  {
  }

  lemma CollapseOne(s: string)
    requires |s| == 1
    ensures Collapse(s) == s && s == [s[0]]
  {
  }

  lemma {:induction false} CollapseBefore(run: string, b: string)
    requires b != "" && b[0] != ' '
    requires run != "" && forall i :: 0 <= i < |run| ==> run[i] == ' '
    ensures Collapse(run + b) == " " + Collapse(b)
  {
    var s := run + b;
    assert s[1..] == run[1..] + b;
    if |run| > 1 {
      assert s[1] == run[1];
      CollapseBefore(run[1..], b);
    } else {
      assert run[1..] + b == b && s[1] == b[0];
    }
  }

  /** What becomes of a single word w*x, which the option for terms decides, and of a phrase, which that for phrases does. */
  lemma PruneCases(o: Options, w: string, x: string)
    requires '*' !in w && ' ' !in w && ' ' !in x
    ensures Prune(o, w) == w && Prune(o, w + "*") == w + "*"
    ensures x != "" ==> Prune(o, w + "*" + x) == if !o.trimTerms then w + "*" + x else if w == "" then "" else w + "*"
  {
    var s := w + "*" + x;
    assert s[|w|] == '*' && IndexOf(s, '*') == |w| && s[..|w| + 1] == w + "*";
    assert (w + "*")[|w|] == '*' && IndexOf(w + "*", '*') == |w|;
  }

  lemma PrunePhrase(o: Options, s: string)
    requires ' ' in s
    ensures Prune(o, s) == if '*' in s && o.trimPhrases then Squeeze(RemoveStars(s)) + "*" else s
  {
    assert '*' in s ==> IndexOf(s, '*') < |s|;
  }

  // ----- no clean-up invents a character -----

  ghost predicate AllChars(s: string, ok: char -> bool) {
    forall i :: 0 <= i < |s| ==> ok(s[i])
  }

  lemma {:induction false} CollapseChars(s: string, ok: char -> bool)
    requires AllChars(s, ok)
    ensures AllChars(Collapse(s), ok)
  {
    if |s| >= 2 {
      CollapseChars(s[1..], ok);
    }
  }

  lemma SqueezeChars(s: string, ok: char -> bool)
    requires AllChars(s, ok)
    ensures AllChars(Squeeze(s), ok)
  {
    TrimStartEnds(s);
    TrimEndEnds(TrimStart(s));
    CollapseChars(Trim(s), ok);
  }

  lemma {:induction false} DropWordChars(s: string, ok: char -> bool)
    requires AllChars(s, ok)
    ensures AllChars(DropWord(s), ok)
  {
    if s != "" && s[0] != ' ' {
      DropWordChars(s[1..], ok);
    }
  }

  lemma {:induction false} RemoveStarsChars(s: string, ok: char -> bool)
    requires AllChars(s, ok)
    ensures AllChars(RemoveStars(s), ok)
    decreases |s|
  {
    if s != "" {
      if s[0] == '*' {
        DropWordChars(s[1..], ok);
        RemoveStarsChars(DropWord(s[1..]), ok);
      } else {
        RemoveStarsChars(s[1..], ok);
      }
    }
  }

  lemma PruneChars(o: Options, s: string, ok: char -> bool)
    requires AllChars(s, ok)
    ensures AllChars(Prune(o, s), ok)
  {
    RemoveStarsChars(s, ok);
    SqueezeChars(RemoveStars(s), ok);
    var star := IndexOf(s, '*');
    if star < |s| {
      assert ok('*') by { assert ok(s[star]); }
    }
  }
}
