/** The paged query that GetLimitString assembles, and when assembling it fails. */
module SqlPaging {
  import opened Basics
  import opened Decimals
  import opened SqlDialect

  // ----- the text to be assembled -----

  predicate EndsWithDesc(s: string) {
    |s| >= 4 && SameWord(s[|s| - 4..], "desc")
  }

  function Alias(k: nat): string {
    "__hibernate_sort_expr_" + IntText(k) + "__"
  }

  /** One sort key: the alias, with the direction its expression ended in. */
  function Key(p: string, k: nat): string {
    Alias(k) + if EndsWithDesc(Trim(p)) then " DESC" else ""
  }

  function Keys(ps: seq<string>, n: nat): string
    requires n <= |ps|
  {
    if n == 0 then "" else Keys(ps, n - 1) + (if n > 1 then ", " else "") + Key(ps[n - 1], n)
  }

  function SortText(p: string): string {
    var t := Trim(p);
    if EndsWithDesc(t) then t[..|t| - 4] else t
  }

  function Columns(ps: seq<string>, n: nat): string
    requires n <= |ps|
  {
    if n == 0 then "" else Columns(ps, n - 1) + ", " + SortText(ps[n - 1]) + " as " + Alias(n)
  }

  const HEAD := "SELECT TOP "
  const OVER := " * FROM " + "(" + ("SELECT ROW_NUMBER" + "(") + ")" + (" OVER" + "(") + "ORDER BY "
  const ROWS := ")" + " as row, query.* FROM " + "("
  const PAGE := ")" + " query " + (")" + " page WHERE page.row > ")

  function Limit(select: string, from: string, ps: seq<string>, offset: int, last: int): string {
    HEAD + IntText(last) + OVER + Keys(ps, |ps|) + ROWS + select + Columns(ps, |ps|) + " " + from
    + PAGE + IntText(offset) + ORDER_BY + Keys(ps, |ps|)
  }

  // ----- how the text reads -----

  function Until(s: string, c: char): string {
    if s == "" || s[0] == c then "" else [s[0]] + Until(s[1..], c)
  }

  /** What stands behind the first c, if there is one. */
  function Behind(s: string, c: char): string {
    if s == "" then "" else if s[0] == c then s[1..] else Behind(s[1..], c)
  }

  /** The pieces between commas. */
  function Cells(s: string): seq<string>
    decreases |s|
  {
    if ',' in s then [Until(s, ',')] + (if |Behind(s, ',')| < |s| then Cells(Behind(s, ',')) else []) else [s]
  }

  const NAME := "__hibernate_sort_expr_"

  /** The number in a key's alias, and whether DESC follows it. */
  function ReadKey(s: string): Option<(int, bool)> {
    var key := if " " <= s then s[1..] else s;
    if NAME <= key then
      var number, tail := ReadWhole(Until(key[|NAME|..], '_')), Behind(key[|NAME|..], '_');
      if number.Some? && tail == "_" then Some((number.value, false))
      else if number.Some? && tail == "_ DESC" then Some((number.value, true))
      else None
    else None
  }

  predicate EndsInDesc(p: string) {
    |p| >= 4 && AnyCase(p[|p| - 4..], "desc")
  }

  /** What is left of an expression without the direction it may end in. */
  predicate Undirected(p: string, text: string) {
    text <= p && if EndsInDesc(p) then AnyCase(p[|text|..], "desc") else text == p
  }

  /** A list of keys: the k-th has number k, counted from 1, and is descending exactly if the k-th expression ends in desc. */
  predicate KeysRead(list: string, ps: seq<string>) {
    && |Cells(list)| == |ps|
    && forall k :: 0 <= k < |ps| ==> ReadKey(Cells(list)[k]) == Some((k + 1, EndsInDesc(Trim(ps[k]))))
  }

  /** The first n added columns: each expression without its direction, under the alias of its number. */
  ghost predicate ColumnsRead(columns: string, ps: seq<string>, n: nat)
    requires n <= |ps|
    decreases n
  {
    if n == 0 then columns == ""
    else
      var p := ps[n - 1];
      exists before, text, name :: ColumnRead(columns, before, text, name, p, n) && ColumnsRead(before, ps, n - 1)
  }

  predicate ColumnRead(columns: string, before: string, text: string, name: string, p: string, n: nat) {
    && columns == before + ", " + text + " as " + name
    && ReadKey(name) == Some((n, false)) && Undirected(Trim(p), text)
  }

  datatype Parts = Parts(top: string, inner: string, columns: string, row: string, outer: string)

  /** The paged query read back: numbers and sort keys in their places around the given pieces of the query. */
  ghost predicate Pages(result: string, select: string, from: string, ps: seq<string>, offset: int, last: int) {
    exists x: Parts ::
      && result == "SELECT TOP " + x.top + " * FROM (SELECT ROW_NUMBER() OVER(ORDER BY " + x.inner
                   + ") as row, query.* FROM (" + select + x.columns + " " + from + ") query ) page WHERE page.row > "
                   + x.row + " order by " + x.outer
      && ReadWhole(x.top) == Some(last) && ReadWhole(x.row) == Some(offset)
      && KeysRead(x.inner, ps) && KeysRead(x.outer, ps) && ColumnsRead(x.columns, ps, |ps|)
  }

  lemma {:induction false} CellsAppend(a: string, b: string)
    requires ',' !in b
    ensures Cells(a + ("," + b)) == Cells(a) + [b]
    decreases |a|
  {
    var s := a + ("," + b);
    assert s[|a|] == ',';
    if a == "" {
      assert s[1..] == b;
    } else if ',' in a {
      FirstComma(a, "," + b);
      CellsAppend(Behind(a, ','), b);
    } else {
      FirstMark(a, "," + b, ',');
      assert ("," + b)[1..] == b;
    }
  }

  lemma {:induction false} FirstComma(a: string, rest: string)
    requires ',' in a
    ensures Until(a + rest, ',') == Until(a, ',') && Behind(a + rest, ',') == Behind(a, ',') + rest
    ensures |Behind(a, ',')| < |a|
  {
    if a[0] == ',' {
      assert (a + rest)[1..] == a[1..] + rest;
    } else {
      assert (a + rest)[1..] == a[1..] + rest;
      FirstComma(a[1..], rest);
    }
  }

  /** The same with any mark, where it starts what follows. */
  lemma {:induction false} FirstMark(a: string, rest: string, c: char)
    requires c !in a && rest != "" && rest[0] == c
    ensures Until(a + rest, c) == a && Behind(a + rest, c) == rest[1..]
  {
    if a == "" {
      assert a + rest == rest;
    } else {
      assert (a + rest)[1..] == a[1..] + rest;
      FirstMark(a[1..], rest, c);
    }
  }

  lemma DirectionIff(p: string)
    ensures EndsWithDesc(p) <==> EndsInDesc(p)
    ensures Undirected(Trim(p), SortText(p))
  {
    if |p| >= 4 {
      SameWordIff(p[|p| - 4..], "desc");
    }
    var t := Trim(p);
    if |t| >= 4 {
      SameWordIff(t[|t| - 4..], "desc");
    }
  }

  lemma {:induction false} NoMark(n: nat, c: char)
    requires c == '_' || c == ','
    ensures c !in ToDecimal(n)
  {
    if n >= 10 {
      NoMark(n / 10, c);
    }
  }

  lemma KeyReads(p: string, k: nat)
    ensures ReadKey(Key(p, k)) == ReadKey(" " + Key(p, k)) == Some((k, EndsInDesc(Trim(p)))) && ',' !in Key(p, k)
    ensures ReadKey(Alias(k)) == Some((k, false))
  {
    hide ReadKey, Trim, IntText, EndsInDesc, EndsWithDesc, SortText;
    var direction := if EndsWithDesc(Trim(p)) then " DESC" else "";
    DirectionIff(Trim(p));
    NameReads(k, direction);
    NameReads(k, "");
    AliasSolid(k);
    assert Alias(k) + "" == Alias(k);
    assert ',' !in direction;
  }

  lemma AliasSolid(k: nat)
    ensures ',' !in Alias(k)
  {
    NoMark(k, ',');
    assert ',' !in NAME && ',' !in "__";
  }

  lemma NameReads(k: nat, direction: string)
    requires direction == "" || direction == " DESC"
    ensures ReadKey(Alias(k) + direction) == ReadKey(" " + (Alias(k) + direction)) == Some((k, direction != ""))
  {
    hide ReadWhole, Until, Behind;
    var key, number := Alias(k) + direction, IntText(k);
    var tail := "__" + direction;
    assert key == NAME + (number + tail);
    assert key[|NAME|..] == number + tail;
    NoMark(k, '_');
    FirstMark(number, tail, '_');
    WholeRoundTrip(k);
    assert (" " + key)[1..] == key;
    assert key[0] == '_';
    assert tail[1..] == "_" + direction && (direction == "" ==> tail[1..] == "_");
  }

  lemma {:induction false} KeysReads(ps: seq<string>, n: nat)
    requires 0 < n <= |ps|
    ensures KeysRead(Keys(ps, n), ps[..n])
  {
    hide ReadKey, Key, EndsInDesc, Trim, Alias, Until, Behind;
    KeyReads(ps[n - 1], n);
    if n == 1 {
      assert Keys(ps, 1) == Key(ps[0], 1) by { assert Keys(ps, 0) == "" && "" + "" + Key(ps[0], 1) == Key(ps[0], 1); }
      assert Cells(Key(ps[0], 1)) == [Key(ps[0], 1)];
    } else {
      var before, key := Keys(ps, n - 1), Key(ps[n - 1], n);
      KeysReads(ps, n - 1);
      assert before + ", " + key == before + ("," + (" " + key));
      hide Cells;
      CellsAppend(before, " " + key);
      assert ps[..n] == ps[..n - 1] + [ps[n - 1]];
    }
  }

  lemma {:induction false} ColumnsReads(ps: seq<string>, n: nat)
    requires n <= |ps|
    ensures ColumnsRead(Columns(ps, n), ps, n)
  {
    hide ReadKey, Undirected, SortText, Alias, Trim, Key;
    if n > 0 {
      ColumnsReads(ps, n - 1);
      KeyReads(ps[n - 1], n);
      DirectionIff(ps[n - 1]);
      assert ColumnRead(Columns(ps, n), Columns(ps, n - 1), SortText(ps[n - 1]), Alias(n), ps[n - 1], n);
    }
  }

  /** The assembled text reads as the page that was asked for. */
  lemma LimitPages(select: string, from: string, ps: seq<string>, offset: int, last: int)
    requires ps != []
    ensures Pages(Limit(select, from, ps, offset, last), select, from, ps, offset, last)
  {
    hide KeysRead, ColumnsRead, Keys, Columns, IntText, ReadWhole;
    WholeRoundTrip(last);
    WholeRoundTrip(offset);
    KeysReads(ps, |ps|);
    assert ps[..|ps|] == ps;
    ColumnsReads(ps, |ps|);
    var keys := Keys(ps, |ps|);
    var x := Parts(IntText(last), keys, Columns(ps, |ps|), IntText(offset), keys);
    assert ReadWhole(x.top) == Some(last);
    FixedPieces();
  }

  lemma FixedPieces()
    ensures OVER == " * FROM (SELECT ROW_NUMBER() OVER(ORDER BY " && ROWS == ") as row, query.* FROM ("
    ensures PAGE == ") query ) page WHERE page.row > " && ORDER_BY == " order by " && HEAD == "SELECT TOP "
    ensures FROM == " from "
  {
    OverIs();
    PageIs();
  }

  lemma OverIs()
    ensures OVER == " * FROM (SELECT ROW_NUMBER() OVER(ORDER BY "
  {
    assert " * FROM " + "(" + ("SELECT ROW_NUMBER" + "(") == " * FROM (SELECT ROW_NUMBER(";
    assert " * FROM (SELECT ROW_NUMBER(" + ")" + (" OVER" + "(") == " * FROM (SELECT ROW_NUMBER() OVER(";
  }

  lemma PageIs()
    ensures PAGE == ") query ) page WHERE page.row > "
  {
  }

  // ----- trimming -----

  predicate AllWhite(s: string) {
    forall i :: 0 <= i < |s| ==> IsWhite(s[i])
  }

  /** Trimming a start leaves a suffix and drops only white space. */
  lemma {:induction false} TrimStartCuts(s: string) returns (i: nat)
    ensures i <= |s| && AllWhite(s[..i]) && TrimStart(s) == s[i..]
  {
    if s != "" && IsWhite(s[0]) {
      var j := TrimStartCuts(s[1..]);
      i := j + 1;
      assert s[1..][j..] == s[i..];
      assert s[..i] == [s[0]] + s[1..][..j];
    } else {
      i := 0;
    }
  }

  lemma {:induction false} TrimEndCuts(s: string) returns (j: nat)
    ensures j <= |s| && AllWhite(s[j..]) && TrimEnd(s) == s[..j]
  {
    if s != "" && IsWhite(s[|s| - 1]) {
      var t := s[..|s| - 1];
      j := TrimEndCuts(t);
      assert t[..j] == s[..j];
      assert s[j..] == t[j..] + [s[|s| - 1]];
    } else {
      j := |s|;
    }
  }

  lemma TrimStartBalanced(s: string)
    requires Balanced(s)
    ensures Balanced(TrimStart(s))
  {
    var i := TrimStartCuts(s);
    FlatDepth(s[..i]);
    assert s[..|s|] == s && s[i..|s|] == s[i..];
    SliceBalanced(s, i, |s|);
  }

  lemma TrimEndBalanced(s: string)
    requires Balanced(s)
    ensures Balanced(TrimEnd(s))
  {
    var j := TrimEndCuts(s);
    FlatDepth(s[j..]);
    DepthSplit(s, j);
    assert s[..0] == "" && s[0..j] == s[..j];
    SliceBalanced(s, 0, j);
  }

  lemma TrimBalanced(s: string)
    requires Balanced(s)
    ensures Balanced(Trim(s))
  {
    TrimStartBalanced(s);
    TrimEndBalanced(TrimStart(s));
  }

  /** Trimming behind a text that ends in one white character after a solid one. */
  lemma {:induction false} TrimEndBehind(word: string, y: string)
    requires |word| >= 2 && IsWhite(word[|word| - 1]) && !IsWhite(word[|word| - 2])
    ensures AllWhite(y) ==> TrimEnd(word + y) == word[..|word| - 1]
    ensures !AllWhite(y) ==> TrimEnd(word + y) == word + TrimEnd(y)
  {
    var s := word + y;
    if y == "" {
      assert s == word;
    } else {
      assert s[..|s| - 1] == word + y[..|y| - 1] && s[|s| - 1] == y[|y| - 1];
      if IsWhite(y[|y| - 1]) {
        TrimEndBehind(word, y[..|y| - 1]);
        assert AllWhite(y) <==> AllWhite(y[..|y| - 1]) by {
          assert y == y[..|y| - 1] + [y[|y| - 1]];
        }
      }
    }
  }

  // ----- the method -----

  /** What the scans settled before anything is appended. */
  datatype Scan = Scan(fromIndex: nat, carry: int, orderIndex: nat, sorts: seq<string>)

  predicate Scanned(s: string, scan: Scan) {
    && scan.fromIndex <= |s| && scan.orderIndex <= |s|
    && Found(s, scan.fromIndex, scan.carry)
    && FoundLast(s, scan.carry, scan.orderIndex)
  }

  /**
   * The last " order by " that the backward scan accepts, which is a top-level one when the query opens and closes equally
   * many parentheses, stands before the " from " or has only white space after it.
   */
  predicate Fails(s: string, scan: Scan)
    requires Scanned(s, scan)
  {
    scan.orderIndex > 0 && (scan.fromIndex > scan.orderIndex || AllWhite(s[scan.orderIndex + 10..]))
  }

  function SortList(s: string, orderIndex: nat): string
    requires orderIndex + 10 <= |s|
  {
    TrimEnd(s[orderIndex + 10..])
  }

  /** What the source cuts out of the query: everything after the word, trimmed at its end, or nothing to cut. */
  lemma OrderByText(s: string, o: nat)
    requires o <= |s| && At(s, o, ORDER_BY)
    ensures AllWhite(s[o + 10..]) <==> |Trim(s[o..])| < 9
    ensures !AllWhite(s[o + 10..]) ==> Trim(s[o..])[9..] == SortList(s, o)
  {
    var w := s[o..o + 10];
    assert IsWhite(w[0]) && Lower(w[1]) == 'o' && Lower(w[8]) == 'y' && Lower(w[9]) == ' ';
    assert s[o..][0] == w[0] && s[o..][1..] == w[1..] + s[o + 10..];
    SolidStart(w[1..] + s[o + 10..]);
    TrimEndBehind(w[1..], s[o + 10..]);
  }

  lemma SolidStart(s: string)
    requires s != "" && !IsWhite(s[0])
    ensures TrimStart(s) == s
  {
  }

  /** None stands for the exception that the source's Substring calls throw. */
  method GetLimitString(querystring: string, offset: int, last: int) returns (r: Option<string>, scan: Scan)
    ensures Scanned(querystring, scan)
    ensures r == None <==> Fails(querystring, scan)
    ensures r.Some? ==>
      var from := Trim(querystring[scan.fromIndex..if scan.orderIndex > 0 then scan.orderIndex else |querystring|]);
      var sorts := if scan.orderIndex > 0 then scan.sorts else ["CURRENT_TIMESTAMP"];
      Pages(r.value, querystring[..scan.fromIndex], from, sorts, offset, last)
    ensures r.Some? && scan.orderIndex > 0 ==> Splits(scan.sorts, SortList(querystring, scan.orderIndex))
    ensures r.Some? && scan.orderIndex > 0 ==>
      r.value == Limit(querystring[..scan.fromIndex],
                       Trim(querystring[scan.fromIndex..scan.orderIndex]), scan.sorts, offset, last)
    ensures r.Some? && scan.orderIndex == 0 ==>
      r.value == Limit(querystring[..scan.fromIndex],
                       Trim(querystring[scan.fromIndex..]), ["CURRENT_TIMESTAMP"], offset, last)
  {
    hide Limit, Keys, Columns, Trim, SameWord, Found, FoundLast, At, Pages;
    var fromIndex, parenthesis := FindFrom(querystring);
    var select := querystring[..fromIndex];
    var orderIndex := FindOrderBy(querystring, parenthesis);
    scan := Scan(fromIndex, parenthesis, orderIndex, []);
    var from: string;
    var sortExpressions: seq<string>;
    if orderIndex > 0 {
      FoundIsThere(querystring, parenthesis, orderIndex);
      OrderByText(querystring, orderIndex);
      if fromIndex > orderIndex {
        return None, scan;
      }
      from := Trim(querystring[fromIndex..orderIndex]);
      var orderBy := Trim(querystring[orderIndex..]);
      if |orderBy| < 9 {
        return None, scan;
      }
      sortExpressions := GetSortExpression(orderBy[9..]);
      scan := scan.(sorts := sortExpressions);
    } else {
      from := Trim(querystring[fromIndex..]);
      sortExpressions := ["CURRENT_TIMESTAMP"];
    }
    var result := AppendAll(select, from, sortExpressions, offset, last);
    LimitPages(select, from, sortExpressions, offset, last);
    assert querystring[fromIndex..|querystring|] == querystring[fromIndex..];
    r := Some(result);
  }

  lemma WordStands(word: string, before: string, after: string)
    requires forall i :: 0 <= i < |word| ==> Lower(word[i]) == word[i]
    ensures At(before + word + after, |before|, word)
  {
    assert (before + word + after)[|before|..|before| + |word|] == word;
  }

  lemma LowerWords()
    ensures |ORDER_BY| == 10 && forall i :: 0 <= i < |ORDER_BY| ==> Lower(ORDER_BY[i]) == ORDER_BY[i] && Weight(ORDER_BY[i]) == 0
    ensures |FROM| == 6 && forall i :: 0 <= i < |FROM| ==> Lower(FROM[i]) == FROM[i]
  {
  }

  /** Where the last top-level place is known, the scan stops there. */
  lemma ScanStops(s: string, scan: Scan, o: nat)
    requires Scanned(s, scan) && Depth(s) == 0 && 0 < o <= |s| && TopLevel(s, o, ORDER_BY)
    requires forall k :: o < k < |s| ==> !TopLevel(s, k, ORDER_BY)
    ensures scan.orderIndex == o
  {
    hide TopLevel, Depth, Found, FoundLast;
    BackwardFindsLast(s, scan.fromIndex, scan.carry, scan.orderIndex);
    LowerWords();
    Inside(s, o);
    Inside(s, scan.orderIndex);
  }

  lemma Inside(s: string, k: nat)
    requires k <= |s|
    ensures TopLevel(s, k, ORDER_BY) ==> k < |s|
  {
    LowerWords();
  }

  /** A query that goes on to " order by " and stops there always makes it throw. */
  lemma NothingToOrderBy(query: string, scan: Scan)
    requires query != "" && Depth(query) == 0 && Scanned(query + ORDER_BY, scan)
    ensures Fails(query + ORDER_BY, scan)
  {
    hide Depth, Found, FoundLast, SameWord;
    var s, o := query + ORDER_BY, |query|;
    LowerWords();
    FlatDepth(ORDER_BY);
    DepthConcat(query, ORDER_BY);
    WordStands(ORDER_BY, query, "");
    assert s + "" == s && s[..o] == query && s[o + 10..] == "";
    ScanStops(s, scan, o);
  }

  const REVERSED := "a" + ORDER_BY + "b" + FROM + "c"

  lemma SpacesThere()
    ensures |REVERSED| == 19 && Flat(REVERSED)
    ensures forall k :: 0 <= k < 18 && Lower(REVERSED[k]) == ' ' && Lower(REVERSED[k + 1]) == 'o' ==> k == 1
    ensures forall k :: 0 <= k < 18 && Lower(REVERSED[k]) == ' ' && Lower(REVERSED[k + 1]) == 'f' ==> k == 12
  {
  }

  /** So does one whose last " order by " comes before its " from ". */
  lemma OrderByBeforeFrom(scan: Scan)
    requires Scanned(REVERSED, scan)
    ensures Fails(REVERSED, scan)
  {
    hide Depth, FoundLast, SameWord, Lower, Flat;
    var s := REVERSED;
    SpacesThere();
    LowerWords();
    FlatEverywhere(s);
    WordStands(ORDER_BY, "a", "b" + FROM + "c");
    WordStands(FROM, "a" + ORDER_BY + "b", "c");
    assert "a" + ORDER_BY + ("b" + FROM + "c") == s;
    forall k | 0 <= k < |s| ensures (At(s, k, ORDER_BY) ==> k == 1) && (At(s, k, FROM) ==> k == 12) {
      SecondLetter(s, k, ORDER_BY);
      SecondLetter(s, k, FROM);
    }
    ScanStops(s, scan, 1);
    assert TopLevel(s, 12, FROM);
  }

  lemma FlatEverywhere(s: string)
    requires Flat(s)
    ensures Depth(s) == 0 && forall k :: 0 <= k <= |s| ==> Depth(s[..k]) == 0
  {
    FlatDepth(s);
    forall k | 0 <= k <= |s| ensures Depth(s[..k]) == 0 {
      FlatDepth(s[..k]);
    }
  }

  lemma SecondLetter(s: string, k: nat, word: string)
    requires k <= |s| && |word| > 1
    ensures At(s, k, word) ==> k + 1 < |s| && Lower(s[k]) == word[0] && Lower(s[k + 1]) == word[1]
  {
    if At(s, k, word) {
      assert s[k..k + |word|][0] == s[k] && s[k..k + |word|][1] == s[k + 1];
    }
  }

  lemma FoundIsThere(s: string, carry: int, order: nat)
    requires 0 < order <= |s| && FoundLast(s, carry, order)
    ensures At(s, order, ORDER_BY) && order + 10 <= |s|
  {
  }

  /** Everything from "SELECT TOP" to the final order by. */
  method AppendAll(select: string, from: string, sortExpressions: seq<string>, offset: int, last: int)
    returns (result: string)
    requires sortExpressions != []
    ensures result == Limit(select, from, sortExpressions, offset, last)
  {
    hide IntText, Keys, Columns;
    result := AppendKeys(HEAD + IntText(last) + OVER, sortExpressions);
    result := AppendColumns(result + ROWS + select, sortExpressions);
    result := result + " " + from + PAGE + IntText(offset);
    result := AppendOrdering(result, sortExpressions);
  }

  method AppendKeys(start: string, sortExpressions: seq<string>) returns (result: string)
    ensures result == start + Keys(sortExpressions, |sortExpressions|)
  {
    hide Alias, EndsWithDesc, Trim, Key;
    result := start;
    for i := 1 to |sortExpressions| + 1
      invariant result == start + Keys(sortExpressions, i - 1)
    {
      AppendKey(start, Keys(sortExpressions, i - 1), if i > 1 then ", " else "", sortExpressions[i - 1], i);
      if i > 1 {
        result := result + ", ";
      }
      result := result + Alias(i);
      if EndsWithDesc(Trim(sortExpressions[i - 1])) {
        result := result + " DESC";
      }
    }
  }

  method AppendColumns(start: string, sortExpressions: seq<string>) returns (result: string)
    ensures result == start + Columns(sortExpressions, |sortExpressions|)
  {
    hide Alias, SortText;
    result := start;
    for i := 1 to |sortExpressions| + 1
      invariant result == start + Columns(sortExpressions, i - 1)
    {
      AppendColumn(start, Columns(sortExpressions, i - 1), SortText(sortExpressions[i - 1]), Alias(i));
      result := result + ", " + SortText(sortExpressions[i - 1]) + " as " + Alias(i);
    }
  }

  method AppendOrdering(start: string, sortExpressions: seq<string>) returns (result: string)
    requires sortExpressions != []
    ensures result == start + ORDER_BY + Keys(sortExpressions, |sortExpressions|)
  {
    hide Alias, EndsWithDesc, Trim, Key;
    result := start;
    var ordering := false;
    for i := 1 to |sortExpressions| + 1
      invariant ordering == (i > 1)
      invariant result == if ordering then start + ORDER_BY + Keys(sortExpressions, i - 1) else start
    {
      AppendKey(start + ORDER_BY, Keys(sortExpressions, i - 1), if i > 1 then ", " else "", sortExpressions[i - 1], i);
      if !ordering {
        result := result + ORDER_BY;
        ordering := true;
      }
      if i > 1 {
        result := result + ", ";
      }
      result := result + Alias(i);
      if EndsWithDesc(Trim(sortExpressions[i - 1])) {
        result := result + " DESC";
      }
    }
  }

  lemma AppendKey(start: string, before: string, separator: string, p: string, k: nat)
    ensures (start + before + separator + Alias(k)) + (if EndsWithDesc(Trim(p)) then " DESC" else "")
            == start + (before + separator + Key(p, k))
    ensures separator == "" ==> start + before + separator == start + before
    ensures !EndsWithDesc(Trim(p)) ==> start + before + separator + Alias(k) == start + (before + separator + Key(p, k))
  {
    hide Alias, EndsWithDesc, Trim;
  }

  lemma AppendColumn(start: string, before: string, text: string, name: string)
    ensures start + before + ", " + text + " as " + name == start + (before + ", " + text + " as " + name)
  {
  }

  // ----- balance is preserved -----

  lemma {:induction false} DecimalFlat(n: nat)
    ensures Flat(ToDecimal(n))
  {
    if n >= 10 {
      DecimalFlat(n / 10);
    }
  }

  lemma IntFlat(n: int)
    ensures Flat(IntText(n))
  {
    DecimalFlat(if n < 0 then -n else n);
  }

  lemma AliasBalanced(k: nat)
    ensures Balanced(Alias(k))
  {
    DecimalFlat(k);
    FlatReaches(Alias(k), 0);
  }

  lemma KeyBalanced(p: string, k: nat)
    ensures Balanced(Key(p, k))
  {
    AliasBalanced(k);
    var direction := if EndsWithDesc(Trim(p)) then " DESC" else "";
    FlatReaches(direction, 0);
    ReachesConcat(Alias(k), direction, 0, 0, 0);
  }

  lemma {:induction false} KeysBalanced(ps: seq<string>, n: nat)
    requires n <= |ps|
    ensures Balanced(Keys(ps, n))
  {
    hide Key;
    if n == 0 {
      FlatReaches("", 0);
    } else {
      var separator := if n > 1 then ", " else "";
      KeysBalanced(ps, n - 1);
      KeyBalanced(ps[n - 1], n);
      FlatReaches(separator, 0);
      ReachesConcat(Keys(ps, n - 1), separator, 0, 0, 0);
      ReachesConcat(Keys(ps, n - 1) + separator, Key(ps[n - 1], n), 0, 0, 0);
    }
  }

  lemma SortTextBalanced(p: string)
    requires Balanced(p)
    ensures Balanced(SortText(p))
  {
    TrimBalanced(p);
    var t := Trim(p);
    if EndsWithDesc(t) {
      var n := |t| - 4;
      forall i | 0 <= i < 4 ensures Weight(t[n..][i]) == 0 {
        assert Lower(t[n..][i]) == "desc"[i];
      }
      FlatDepth(t[n..]);
      DepthSplit(t, n);
      assert t[..0] == "" && t[0..n] == t[..n];
      SliceBalanced(t, 0, n);
    }
  }

  lemma {:induction false} ColumnsBalanced(ps: seq<string>, n: nat)
    requires n <= |ps| && forall k :: 0 <= k < |ps| ==> Balanced(ps[k])
    ensures Balanced(Columns(ps, n))
  {
    hide Alias, SortText;
    if n == 0 {
      FlatReaches("", 0);
    } else {
      ColumnsBalanced(ps, n - 1);
      SortTextBalanced(ps[n - 1]);
      AliasBalanced(n);
      FlatReaches(", ", 0);
      FlatReaches(" as ", 0);
      var c, t := Columns(ps, n - 1), SortText(ps[n - 1]);
      ReachesConcat(c, ", ", 0, 0, 0);
      ReachesConcat(c + ", ", t, 0, 0, 0);
      ReachesConcat(c + ", " + t, " as ", 0, 0, 0);
      ReachesConcat(c + ", " + t + " as ", Alias(n), 0, 0, 0);
    }
  }

  lemma Opens(a: string, d: nat)
    requires Flat(a)
    ensures Reaches(a + "(", d, d + 1) && Reaches(")" + a, d + 1, d)
  {
    FlatReaches(a, d);
    Single(d);
    ReachesConcat(a, "(", d, d, d + 1);
    ReachesConcat(")", a, d + 1, d, d);
  }

  lemma Single(d: nat)
    ensures Reaches("(", d, d + 1) && Reaches(")", d + 1, d)
  {
    assert "("[..0] == "" && ")"[..0] == "" && "("[..1] == "(" && ")"[..1] == ")";
    assert Depth("(") == 1 && Depth(")") == -1;
  }

  /** The fixed texts: what each opens and closes. */
  lemma FixedTexts()
    ensures Reaches(HEAD, 0, 0) && Reaches(OVER, 0, 2) && Reaches(ROWS, 2, 2) && Reaches(PAGE, 2, 0)
    ensures Reaches(ORDER_BY, 0, 0) && Reaches(" ", 2, 2)
  {
    FlatReaches(HEAD, 0);
    FlatReaches(ORDER_BY, 0);
    FlatReaches(" ", 2);
    OverOpens();
    RowsLevel();
    PageCloses();
  }

  lemma RowsLevel()
    ensures Reaches(ROWS, 2, 2)
  {
    hide Reaches;
    Opens(" as row, query.* FROM ", 1);
    Single(1);
    ReachesConcat(")" + " as row, query.* FROM ", "(", 2, 1, 2);
  }

  lemma PageCloses()
    ensures Reaches(PAGE, 2, 0)
  {
    hide Reaches;
    Opens(" query ", 1);
    Opens(" page WHERE page.row > ", 0);
    ReachesConcat(")" + " query ", ")" + " page WHERE page.row > ", 2, 1, 0);
  }

  lemma OverOpens()
    ensures Reaches(OVER, 0, 2)
  {
    hide Reaches;
    Opens(" * FROM ", 0);
    Opens("SELECT ROW_NUMBER", 1);
    Single(1);
    Opens(" OVER", 1);
    FlatReaches("ORDER BY ", 2);
    var a, b, d := " * FROM " + "(", "SELECT ROW_NUMBER" + "(", " OVER" + "(";
    ReachesConcat(a, b, 0, 1, 2);
    ReachesConcat(a + b, ")", 0, 2, 1);
    ReachesConcat(a + b + ")", d, 0, 1, 2);
    ReachesConcat(a + b + ")" + d, "ORDER BY ", 0, 2, 2);
  }

  lemma LimitTextBalanced(select: string, from: string, ps: seq<string>, offset: int, last: int)
    requires Balanced(select) && Balanced(from) && forall k :: 0 <= k < |ps| ==> Balanced(ps[k])
    ensures Balanced(Limit(select, from, ps, offset, last))
  {
    hide IntText, Keys, Columns, Depth, Reaches, Flat;
    FixedTexts();
    IntFlat(last);
    IntFlat(offset);
    FlatReaches(IntText(last), 0);
    FlatReaches(IntText(offset), 0);
    KeysBalanced(ps, |ps|);
    ColumnsBalanced(ps, |ps|);
    var keys, columns := Keys(ps, |ps|), Columns(ps, |ps|);
    ReachesLift(keys, 2);
    ReachesLift(columns, 2);
    ReachesLift(select, 2);
    ReachesLift(from, 2);
    var t := HEAD + IntText(last);
    ReachesConcat(HEAD, IntText(last), 0, 0, 0);
    ReachesConcat(t, OVER, 0, 0, 2);
    ReachesConcat(t + OVER, keys, 0, 2, 2);
    ReachesConcat(t + OVER + keys, ROWS, 0, 2, 2);
    var u := t + OVER + keys + ROWS;
    ReachesConcat(u, select, 0, 2, 2);
    ReachesConcat(u + select, columns, 0, 2, 2);
    ReachesConcat(u + select + columns, " ", 0, 2, 2);
    ReachesConcat(u + select + columns + " ", from, 0, 2, 2);
    var v := u + select + columns + " " + from;
    ReachesConcat(v, PAGE, 0, 2, 0);
    ReachesConcat(v + PAGE, IntText(offset), 0, 0, 0);
    ReachesConcat(v + PAGE + IntText(offset), ORDER_BY, 0, 0, 0);
    ReachesConcat(v + PAGE + IntText(offset) + ORDER_BY, keys, 0, 0, 0);
  }

  /** The sort list cut from a balanced query is balanced. */
  lemma SortListBalanced(s: string, o: nat)
    requires o <= |s| && TopLevel(s, o, ORDER_BY) && Balanced(s)
    ensures Balanced(SortList(s, o))
  {
    var w := s[o..o + 10];
    forall i | 0 <= i < |w| ensures Weight(w[i]) == 0 {
      assert Lower(w[i]) == ORDER_BY[i];
      FlatWord(i);
    }
    FlatDepth(w);
    assert s[..o + 10] == s[..o] + w;
    DepthConcat(s[..o], w);
    assert s[..|s|] == s && s[o + 10..|s|] == s[o + 10..];
    SliceBalanced(s, o + 10, |s|);
    TrimEndBalanced(s[o + 10..]);
  }

  lemma FlatWord(i: nat)
    requires i < 10
    ensures Weight(ORDER_BY[i]) == 0
  {
  }

  lemma DummyBalanced()
    ensures Balanced("CURRENT_TIMESTAMP")
  {
    FlatReaches("CURRENT_TIMESTAMP", 0);
  }

  /** Whenever a balanced query can be paged, the paged query is balanced too. */
  lemma PagingKeepsBalance(s: string, scan: Scan, offset: int, last: int)
    requires Scanned(s, scan) && !Fails(s, scan) && Balanced(s)
    requires scan.orderIndex > 0 ==> Splits(scan.sorts, SortList(s, scan.orderIndex))
    ensures scan.orderIndex > 0 ==>
      Balanced(Limit(s[..scan.fromIndex], Trim(s[scan.fromIndex..scan.orderIndex]), scan.sorts, offset, last))
    ensures scan.orderIndex == 0 ==>
      Balanced(Limit(s[..scan.fromIndex], Trim(s[scan.fromIndex..]), ["CURRENT_TIMESTAMP"], offset, last))
  {
    hide Limit, Trim, SortList, Splits, Weight;
    var f, o := scan.fromIndex, scan.orderIndex;
    BackwardFindsLast(s, f, scan.carry, o);
    assert s[..0] == "" && s[..|s|] == s && s[0..f] == s[..f] && s[f..|s|] == s[f..];
    SliceBalanced(s, 0, f);
    if o > 0 {
      SliceBalanced(s, f, o);
      TrimBalanced(s[f..o]);
      SortListBalanced(s, o);
      SplitBalanced(scan.sorts, SortList(s, o));
      LimitTextBalanced(s[..f], Trim(s[f..o]), scan.sorts, offset, last);
    } else {
      SliceBalanced(s, f, |s|);
      TrimBalanced(s[f..]);
      DummyBalanced();
      LimitTextBalanced(s[..f], Trim(s[f..]), ["CURRENT_TIMESTAMP"], offset, last);
    }
  }
}
