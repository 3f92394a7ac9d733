/** The paging dialect: scanning a query for its top-level clauses and rebuilding it around them. */
module SqlDialect {
  import opened Basics
  import opened CommaJoin

  // ----- parentheses -----

  function Weight(c: char): int {
    if c == '(' then 1 else if c == ')' then -1 else 0
  }

  /** Opening less closing parentheses. */
  function Depth(s: string): int {
    if s == "" then 0 else Depth(s[..|s| - 1]) + Weight(s[|s| - 1])
  }

  lemma {:induction false} DepthConcat(a: string, b: string)
    ensures Depth(a + b) == Depth(a) + Depth(b)
  {
    if b == "" {
      assert a + b == a;
    } else {
      var ab := a + b;
      assert ab[..|ab| - 1] == a + b[..|b| - 1] && ab[|ab| - 1] == b[|b| - 1];
      DepthConcat(a, b[..|b| - 1]);
    }
  }

  lemma DepthSplit(s: string, i: nat)
    requires i <= |s|
    ensures Depth(s) == Depth(s[..i]) + Depth(s[i..])
  {
    assert s == s[..i] + s[i..];
    DepthConcat(s[..i], s[i..]);
  }

  lemma DepthNext(s: string, i: nat)
    requires i < |s|
    ensures Depth(s[..i + 1]) == Depth(s[..i]) + Weight(s[i])
    ensures Depth(s[i..]) == Weight(s[i]) + Depth(s[i + 1..])
  {
    assert s[..i + 1][..i] == s[..i];
    DepthSplit(s[i..], 1);
    assert s[i..][..1] == [s[i]] && s[i..][1..] == s[i + 1..];
    assert [s[i]][..0] == "";
  }

  /** Read from depth d, the text never closes more than is open and ends at depth e. */
  ghost predicate Reaches(s: string, d: int, e: int) {
    && d + Depth(s) == e
    && forall i :: 0 <= i <= |s| ==> d + Depth(s[..i]) >= 0
  }

  ghost predicate Balanced(s: string) {
    Reaches(s, 0, 0)
  }

  lemma ReachesConcat(a: string, b: string, d: int, e: int, f: int)
    requires Reaches(a, d, e) && Reaches(b, e, f)
    ensures Reaches(a + b, d, f)
  {
    DepthConcat(a, b);
    forall i | 0 <= i <= |a + b| ensures d + Depth((a + b)[..i]) >= 0 {
      if i <= |a| {
        assert (a + b)[..i] == a[..i];
      } else {
        assert (a + b)[..i] == a + b[..i - |a|];
        DepthConcat(a, b[..i - |a|]);
      }
    }
  }

  lemma ReachesLift(s: string, d: int)
    requires Balanced(s) && d >= 0
    ensures Reaches(s, d, d)
  {
  }

  /** A slice of a balanced text between two places at depth zero is balanced. */
  lemma SliceBalanced(s: string, i: nat, j: nat)
    requires Balanced(s) && i <= j <= |s|
    requires Depth(s[..i]) == 0 && Depth(s[..j]) == 0
    ensures Balanced(s[i..j])
  {
    forall k | 0 <= k <= j - i ensures Depth(s[i..j][..k]) == Depth(s[..i + k]) {
      assert s[i..j][..k] == s[i..i + k] && s[..i + k] == s[..i] + s[i..i + k];
      DepthConcat(s[..i], s[i..i + k]);
    }
    assert s[i..j][..j - i] == s[i..j];
  }

  predicate Flat(s: string) {
    forall i :: 0 <= i < |s| ==> Weight(s[i]) == 0
  }

  lemma {:induction false} FlatDepth(s: string)
    requires Flat(s)
    ensures Depth(s) == 0
  {
    if s != "" {
      FlatDepth(s[..|s| - 1]);
    }
  }

  lemma FlatReaches(s: string, d: int)
    requires Flat(s) && d >= 0
    ensures Reaches(s, d, d)
  {
    FlatDepth(s);
    forall i | 0 <= i <= |s| ensures Depth(s[..i]) == 0 {
      FlatDepth(s[..i]);
    }
  }

  // ----- getSortExpression -----

  predicate NoTopComma(s: string) {
    forall i :: 0 <= i < |s| && s[i] == ',' ==> Depth(s[..i]) != 0
  }

  /** The pieces join to the text, every piece but the last comes back to depth zero, and no piece could be cut further. */
  predicate Splits(ps: seq<string>, s: string) {
    && ps != [] && Join(ps) == s
    && (forall k :: 0 <= k < |ps| - 1 ==> Depth(ps[k]) == 0)
    && (forall k :: 0 <= k < |ps| ==> NoTopComma(ps[k]))
  }

  /** There is only one way to split, so Splits says exactly which pieces come out. */
  lemma {:induction false} SplitsOnce(ps: seq<string>, qs: seq<string>, s: string)
    requires Splits(ps, s) && Splits(qs, s)
    ensures ps == qs
    decreases |ps|
  {
    FirstPiece(ps, s);
    FirstPiece(qs, s);
    NoFurther(ps, s, |qs[0]|);
    NoFurther(qs, s, |ps[0]|);
    if |ps| > 1 {
      SplitsOnce(ps[1..], qs[1..], s[|ps[0]| + 1..]);
      assert ps == [ps[0]] + ps[1..] && qs == [qs[0]] + qs[1..];
    }
  }

  /** The first piece is a prefix; it ends the text or stands before a comma at depth zero. */
  lemma FirstPiece(ps: seq<string>, s: string)
    requires Splits(ps, s)
    ensures ps[0] <= s
    ensures |ps| == 1 ==> ps[0] == s
    ensures |ps| > 1 ==> |ps[0]| < |s| && s[|ps[0]|] == ',' && Depth(s[..|ps[0]|]) == 0
    ensures |ps| > 1 ==> Splits(ps[1..], s[|ps[0]| + 1..])
  {
    if |ps| > 1 {
      assert s == ps[0] + ("," + Join(ps[1..]));
      assert s[|ps[0]| + 1..] == Join(ps[1..]) && s[..|ps[0]|] == ps[0];
    }
  }

  /** It does not reach past such a comma. */
  lemma NoFurther(ps: seq<string>, s: string, n: nat)
    requires Splits(ps, s) && ps[0] <= s && n <= |s|
    requires n < |s| ==> s[n] == ',' && Depth(s[..n]) == 0
    ensures |ps[0]| <= n
  {
    forall i | 0 <= i < |ps[0]| ensures ps[0][..i] == s[..i] && ps[0][i] == s[i] {
    }
  }

  /** Splitting a balanced text gives balanced pieces. */
  lemma {:induction false} SplitBalanced(ps: seq<string>, s: string)
    requires Splits(ps, s) && Balanced(s)
    ensures forall k :: 0 <= k < |ps| ==> Balanced(ps[k])
    decreases |ps|
  {
    if |ps| > 1 {
      var n := |ps[0]|;
      FirstPiece(ps, s);
      assert s[..n] == ps[0] && s[0..n] == ps[0] && s[..|s|] == s && s[..0] == "";
      SliceBalanced(s, 0, n);
      DepthNext(s, n);
      SliceBalanced(s, n + 1, |s|);
      assert s[n + 1..|s|] == s[n + 1..];
      SplitBalanced(ps[1..], s[n + 1..]);
      forall k | 0 <= k < |ps| ensures Balanced(ps[k]) {
        assert k > 0 ==> ps[k] == ps[1..][k - 1];
      }
    }
  }

  method GetSortExpression(orderby: string) returns (orderlist: seq<string>)
    ensures Splits(orderlist, orderby)
  {
    hide Join, Depth, NoTopComma, Weight;
    SortStart();
    var parenthesis := 0;
    orderlist := [];
    var lastcomma := 0;
    assert orderlist + [orderby[0..0]] == [""];
    for i := 0 to |orderby|
      invariant 0 <= lastcomma <= i
      invariant parenthesis == Depth(orderby[lastcomma..i])
      invariant Join(orderlist + [orderby[lastcomma..i]]) == orderby[..i]
      invariant forall k :: 0 <= k < |orderlist| ==> Depth(orderlist[k]) == 0 && NoTopComma(orderlist[k])
      invariant NoTopComma(orderby[lastcomma..i])
    {
      ghost var piece := orderby[lastcomma..i];
      var currentchar := orderby[i];
      SortStep(orderlist, piece, currentchar, orderby[..i]);
      assert orderby[..i + 1] == orderby[..i] + [currentchar];
      assert orderby[lastcomma..i + 1] == piece + [currentchar];
      if currentchar == ',' && parenthesis == 0 {
        orderlist := orderlist + [orderby[lastcomma..i]];
        lastcomma := i + 1;
        assert orderby[lastcomma..i + 1] == "";
      }
      if currentchar == '(' {
        parenthesis := parenthesis + 1;
      }
      if currentchar == ')' {
        parenthesis := parenthesis - 1;
      }
    }
    assert orderby[..|orderby|] == orderby && orderby[lastcomma..] == orderby[lastcomma..|orderby|];
    orderlist := orderlist + [orderby[lastcomma..]];
  }

  lemma SortStart()
    ensures Join([""]) == "" && Depth("") == 0 && NoTopComma("")
    ensures Weight('(') == 1 && Weight(')') == -1
    ensures forall c :: c != '(' && c != ')' ==> Weight(c) == 0
  {
  }

  /** Reading one more character either closes the piece or grows it. */
  lemma SortStep(done: seq<string>, piece: string, c: char, text: string)
    requires Join(done + [piece]) == text && NoTopComma(piece)
    ensures Depth(piece + [c]) == Depth(piece) + Weight(c)
    ensures Join(done + [piece] + [""]) == text + ","
    ensures Join(done + [piece + [c]]) == text + [c]
    ensures !(c == ',' && Depth(piece) == 0) ==> NoTopComma(piece + [c])
  {
    assert (piece + [c])[..|piece|] == piece;
    JoinMore(done, piece);
    JoinGrow(done, piece, [c]);
    forall i | 0 <= i < |piece| ensures (piece + [c])[..i] == piece[..i] {
    }
  }

  // ----- the two scans of GetLimitString -----

  /** The lower-case word stands at position i, in any letter case. */
  predicate At(s: string, i: nat, word: string)
    requires i <= |s|
  {
    i + |word| <= |s| && SameWord(s[i..i + |word|], word)
  }

  const FROM := " from "
  const ORDER_BY := " order by "

  /** What the forward scan looks for: the word outside all parentheses opened so far. */
  predicate TopLevel(s: string, i: nat, word: string)
    requires i <= |s|
  {
    At(s, i, word) && Depth(s[..i]) == 0
  }

  /** The counter that the backward scan starts with: what the forward scan left in it. */
  predicate Found(s: string, from: nat, carry: int)
    requires from <= |s|
  {
    || (TopLevel(s, from, FROM) && carry == 0 && forall k :: 0 <= k < from ==> !TopLevel(s, k, FROM))
    || (from == 0 && carry == Depth(s) && forall k :: 0 <= k < |s| ==> !TopLevel(s, k, FROM))
  }

  /** What the backward scan looks for: its counter, run over everything to the right, has come to zero. */
  predicate BackLevel(s: string, carry: int, i: nat, word: string)
    requires i <= |s|
  {
    At(s, i, word) && carry + Depth(s[i..]) == 0
  }

  /** The last place the backward scan accepts, or 0. */
  predicate FoundLast(s: string, carry: int, order: nat)
    requires order <= |s|
  {
    || (BackLevel(s, carry, order, ORDER_BY) && forall k :: order < k < |s| ==> !BackLevel(s, carry, k, ORDER_BY))
    || (order == 0 && forall k :: 0 <= k < |s| ==> !BackLevel(s, carry, k, ORDER_BY))
  }

  lemma WordStartsWithSpace(s: string, i: nat, word: string)
    requires i < |s| && At(s, i, word) && word != "" && word[0] == ' '
    ensures s[i] == ' '
  {
    assert s[i] == s[i..i + |word|][0];
  }

  method FindFrom(querystring: string) returns (fromIndex: nat, parenthesis: int)
    ensures fromIndex <= |querystring| && Found(querystring, fromIndex, parenthesis)
  {
    parenthesis := 0;
    for i := 0 to |querystring|
      invariant parenthesis == Depth(querystring[..i])
      invariant forall k :: 0 <= k < i ==> !TopLevel(querystring, k, FROM)
    {
      if i + 6 <= |querystring| && SameWord(querystring[i..i + 6], FROM) && parenthesis == 0 {
        return i, parenthesis;
      }
      DepthNext(querystring, i);
      if querystring[i] == '(' {
        parenthesis := parenthesis + 1;
      }
      if querystring[i] == ')' {
        parenthesis := parenthesis - 1;
      }
    }
    assert querystring[..|querystring|] == querystring;
    fromIndex := 0;
  }

  method FindOrderBy(querystring: string, carry: int) returns (orderIndex: nat)
    ensures orderIndex <= |querystring| && FoundLast(querystring, carry, orderIndex)
  {
    var parenthesis := carry;
    var i := |querystring| - 1;
    while i >= 0
      invariant -1 <= i < |querystring|
      invariant parenthesis == carry + Depth(querystring[i + 1..])
      invariant forall k :: i < k < |querystring| ==> !BackLevel(querystring, carry, k, ORDER_BY)
    {
      DepthNext(querystring, i);
      if i + 10 <= |querystring| && SameWord(querystring[i..i + 10], ORDER_BY) {
        WordStartsWithSpace(querystring, i, ORDER_BY);
        if parenthesis == 0 {
          return i;
        }
      }
      if querystring[i] == '(' {
        parenthesis := parenthesis + 1;
      }
      if querystring[i] == ')' {
        parenthesis := parenthesis - 1;
      }
      i := i - 1;
    }
    orderIndex := 0;
  }

  /** At every place the backward counter is the negated forward depth, once the two passes cancel out over the query. */
  lemma BackwardCounter(s: string, carry: int, i: nat)
    requires i <= |s|
    ensures carry + Depth(s[i..]) == -Depth(s[..i]) <==> carry + Depth(s) == 0
  {
    DepthSplit(s, i);
  }

  /**
   * The backward scan accepts a top-level place exactly when the query closes as many parentheses as it opens; in any
   * other query it never accepts one.
   */
  lemma BackwardAgrees(s: string, from: nat, carry: int, i: nat)
    requires from <= |s| && i <= |s| && Found(s, from, carry)
    requires TopLevel(s, i, ORDER_BY)
    ensures BackLevel(s, carry, i, ORDER_BY) <==> Depth(s) == 0
  {
    BackwardCounter(s, carry, i);
  }

  /** The last top-level " order by ", or 0. */
  predicate LastTopLevel(s: string, order: nat)
    requires order <= |s|
  {
    || (TopLevel(s, order, ORDER_BY) && forall k :: order < k < |s| ==> !TopLevel(s, k, ORDER_BY))
    || (order == 0 && forall k :: 0 <= k < |s| ==> !TopLevel(s, k, ORDER_BY))
  }

  /** So with balanced counts the backward scan finds exactly the last top-level place. */
  lemma BackwardFindsLast(s: string, from: nat, carry: int, order: nat)
    requires from <= |s| && order <= |s| && Found(s, from, carry) && Depth(s) == 0
    ensures FoundLast(s, carry, order) <==> LastTopLevel(s, order)
  {
    forall k | 0 <= k <= |s| ensures BackLevel(s, carry, k, ORDER_BY) <==> TopLevel(s, k, ORDER_BY) {
      BackwardCounter(s, carry, k);
    }
  }

  /** The three slices rebuild the query, and each is balanced when the query is. */
  lemma SlicesRebuild(s: string, from: nat, carry: int, order: nat)
    requires from <= order <= |s| && Found(s, from, carry) && FoundLast(s, carry, order) && Balanced(s)
    ensures s == s[..from] + s[from..order] + s[order..]
    ensures Balanced(s[..from]) && Balanced(s[from..order]) && Balanced(s[order..])
  {
    BackwardFindsLast(s, from, carry, order);
    assert s[..0] == "" && s[..|s|] == s;
    assert Depth(s[..from]) == 0 && Depth(s[..order]) == 0;
    SliceBalanced(s, 0, from);
    SliceBalanced(s, from, order);
    SliceBalanced(s, order, |s|);
    assert s[0..from] == s[..from] && s[order..|s|] == s[order..];
  }
}
