/** Filling a template in by replacing "{0}", "{1}", ... one after another in the text itself. */
module FormatReplacing {
  import opened Basics
  import opened Decimals
  import opened FormatTemplate

  /** Every id is written the way ToDecimal writes it: no leading zeros. */
  predicate Canonical(t: Template)
    requires Numbered(t)
  {
    t.Part? ==> t.digits == ToDecimal(ParseInt(t.digits)) && Canonical(t.rest)
  }

  // ----- StringBuilder.Replace -----

  predicate StartsWith(s: string, pattern: string) {
    |pattern| <= |s| && s[..|pattern|] == pattern
  }

  /** Every occurrence from left to right, none inside a replacement. */
  function ReplaceAll(s: string, pattern: string, value: string): string
    requires pattern != ""
    decreases |s|
  {
    if s == "" then ""
    else if StartsWith(s, pattern) then value + ReplaceAll(s[|pattern|..], pattern, value)
    else [s[0]] + ReplaceAll(s[1..], pattern, value)
  }

  function Hole(digits: string): string {
    "{" + (digits + "}")
  }

  predicate IsBrace(c: char) {
    c == '{' || c == '}'
  }

  /** A hole cannot begin in a text that lacks a kind of brace and is followed by an opening brace or by nothing. */
  lemma NoHoleBegins(a: string, s: string, digits: string, c: char)
    requires AllDigits(digits) && a != "" && IsBrace(c) && Lacks(a, c) && (s == "" || s[0] == '{')
    ensures !StartsWith(a + s, Hole(digits))
  {
    var all, pattern := a + s, Hole(digits);
    if |pattern| <= |all| {
      var k := if |a| < |pattern| then |a| else if c == '{' then 0 else |pattern| - 1;
      assert all[..|pattern|][k] == all[k] != pattern[k];
    }
  }

  /** Such a text is passed over. */
  lemma {:induction false} PassOver(a: string, s: string, digits: string, c: char, value: string)
    requires AllDigits(digits) && IsBrace(c) && Lacks(a, c) && (s == "" || s[0] == '{')
    ensures ReplaceAll(a + s, Hole(digits), value) == a + ReplaceAll(s, Hole(digits), value)
  {
    if a == "" {
      assert a + s == s;
    } else {
      var all := a + s;
      assert all[0] == a[0] && all[1..] == a[1..] + s;
      NoHoleBegins(a, s, digits, c);
      PassOver(a[1..], s, digits, c, value);
      Associate([a[0]], a[1..], ReplaceAll(s, Hole(digits), value));
      assert [a[0]] + a[1..] == a;
    }
  }

  /** A tail of an id and the closing brace are passed over, whatever follows. */
  lemma {:induction false} PassTail(a: string, s: string, digits: string, value: string)
    requires Lacks(a, '{')
    ensures ReplaceAll(a + s, Hole(digits), value) == a + ReplaceAll(s, Hole(digits), value)
  {
    if a == "" {
      assert a + s == s;
    } else {
      var all := a + s;
      assert all[0] == a[0] && all[1..] == a[1..] + s;
      var pattern := Hole(digits);
      assert |pattern| <= |all| ==> all[..|pattern|][0] == all[0] != pattern[0];
      PassTail(a[1..], s, digits, value);
      Associate([a[0]], a[1..], ReplaceAll(s, Hole(digits), value));
      assert [a[0]] + a[1..] == a;
    }
  }

  lemma HoleOpens(digits: string, s: string)
    ensures Hole(digits) + s != "" && (Hole(digits) + s)[0] == '{'
  {
  }

  lemma ReplaceHole(digits: string, s: string, value: string)
    ensures ReplaceAll(Hole(digits) + s, Hole(digits), value) == value + ReplaceAll(s, Hole(digits), value)
  {
    var all := Hole(digits) + s;
    assert all[..|Hole(digits)|] == Hole(digits) && all[|Hole(digits)|..] == s;
  }

  /** How many digits a text starts with. */
  function DigitRun(s: string): nat {
    if s == "" || !IsDigit(s[0]) then 0 else 1 + DigitRun(s[1..])
  }

  lemma {:induction false} DigitRunIsLength(digits: string, s: string)
    requires AllDigits(digits)
    ensures DigitRun(digits + ("}" + s)) == |digits|
  {
    if digits == "" {
      assert digits + ("}" + s) == "}" + s;
    } else {
      assert (digits + ("}" + s))[1..] == digits[1..] + ("}" + s);
      DigitRunIsLength(digits[1..], s);
    }
  }

  /** A hole starts with the pattern of an id only if it is that id's. */
  lemma MatchingHole(digits: string, other: string, s: string)
    requires AllDigits(digits) && AllDigits(other) && StartsWith(Hole(other) + s, Hole(digits))
    ensures digits == other
  {
    var all, pattern := Hole(other) + s, Hole(digits);
    var more := all[|pattern|..];
    assert all == pattern + more;
    assert all[1..] == digits + ("}" + more) && all[1..] == other + ("}" + s);
    DigitRunIsLength(digits, more);
    DigitRunIsLength(other, s);
    assert digits == all[1..][..|digits|] && other == all[1..][..|other|];
  }

  lemma KeepHole(digits: string, other: string, s: string, value: string)
    requires AllDigits(digits) && AllDigits(other) && digits != other
    ensures ReplaceAll(Hole(other) + s, Hole(digits), value) == Hole(other) + ReplaceAll(s, Hole(digits), value)
  {
    assert !StartsWith(Hole(other) + s, Hole(digits)) by {
      if StartsWith(Hole(other) + s, Hole(digits)) {
        MatchingHole(digits, other, s);
        assert false;
      }
    }
    var tail := other + "}";
    var all := Hole(other) + s;
    assert all[0] == '{' && all[1..] == tail + s;
    PassTail(tail, s, digits, value);
    assert ['{'] + (tail + ReplaceAll(s, Hole(digits), value)) == Hole(other) + ReplaceAll(s, Hole(digits), value);
  }

  // ----- replacing one id in a template -----

  function Prefixed(text: string, t: Template): Template {
    match t
    case End(u) => End(text + u)
    case Part(u, digits, rest) => Part(text + u, digits, rest)
  }

  /** The template with the holes of one id filled in. */
  function FillOne(t: Template, digits: string, value: string): Template {
    match t
    case End(_) => t
    case Part(text, d, rest) =>
      if d == digits then Prefixed(text + value, FillOne(rest, digits, value))
      else Part(text, d, FillOne(rest, digits, value))
  }

  lemma RenderPrefixed(text: string, t: Template)
    ensures Render(Prefixed(text, t)) == text + Render(t)
  {
    match t
    case End(u) =>
    case Part(u, digits, rest) => Associate(text, u, "{" + (digits + ("}" + Render(rest))));
  }

  lemma RenderPart(text: string, digits: string, rest: Template)
    ensures Render(Part(text, digits, rest)) == text + (Hole(digits) + Render(rest))
  {
    assert "{" + (digits + ("}" + Render(rest))) == Hole(digits) + Render(rest);
  }

  /** Replacing an id's hole in the rendered text is rendering the template with that id filled in. */
  lemma {:induction false} ReplaceIsFill(t: Template, digits: string, c: char, value: string)
    requires Numbered(t) && IsBrace(c) && TextsLack(t, c) && AllDigits(digits)
    ensures ReplaceAll(Render(t), Hole(digits), value) == Render(FillOne(t, digits, value))
  {
    hide Hole, StartsWith;
    match t
    case End(text) =>
      PassOver(text, "", digits, c, value);
      assert text + "" == text;
    case Part(text, d, rest) =>
      ReplaceIsFill(rest, digits, c, value);
      RenderPart(text, d, rest);
      HoleOpens(d, Render(rest));
      PassOver(text, Hole(d) + Render(rest), digits, c, value);
      var after := Render(FillOne(rest, digits, value));
      if d == digits {
        ReplaceHole(digits, Render(rest), value);
        RenderPrefixed(text + value, FillOne(rest, digits, value));
        Associate(text, value, after);
      } else {
        KeepHole(digits, d, Render(rest), value);
        RenderPart(text, d, FillOne(rest, digits, value));
      }
  }

  // ----- replacing all ids in turn -----

  /** The text after the first i ids have been replaced. */
  function Sequential(template: string, values: seq<string>, i: nat): string
    requires i <= |values|
  {
    if i == 0 then template else ReplaceAll(Sequential(template, values, i - 1), Hole(ToDecimal(i - 1)), values[i - 1])
  }

  method FormatReplace(template: string, values: seq<string>) returns (r: string)
    ensures r == Sequential(template, values, |values|)
  {
    r := template;
    for i := 0 to |values|
      invariant r == Sequential(template, values, i)
    {
      r := ReplaceAll(r, "{" + (ToDecimal(i) + "}"), values[i]);
    }
  }

  /** Texts lack a brace, ids are in range, and no canonical one is below i. */
  predicate Pending(t: Template, i: nat, n: nat, c: char) {
    && Lacks(t.text, c)
    && (t.Part? ==>
          && t.digits != "" && AllDigits(t.digits) && ParseInt(t.digits) < n
          && (t.digits == ToDecimal(ParseInt(t.digits)) ==> i <= ParseInt(t.digits))
          && Pending(t.rest, i, n, c))
  }

  lemma {:induction false} PendingShape(t: Template, i: nat, n: nat, c: char)
    ensures Pending(t, i, n, c) ==> Numbered(t) && TextsLack(t, c) && InRange(t, n)
    ensures Numbered(t) && TextsLack(t, c) && InRange(t, n) ==> Pending(t, 0, n, c)
  {
    if t.Part? {
      PendingShape(t.rest, i, n, c);
    }
  }

  lemma PrefixedPending(text: string, t: Template, i: nat, n: nat, c: char)
    requires Lacks(text, c) && Pending(t, i, n, c)
    ensures Pending(Prefixed(text, t), i, n, c)
  {
  }

  lemma PrefixedDenote(text: string, t: Template, values: seq<string>)
    requires Numbered(t) && InRange(t, |values|)
    ensures Numbered(Prefixed(text, t)) && InRange(Prefixed(text, t), |values|)
    ensures Denote(Prefixed(text, t), values) == text + Denote(t, values)
  {
    match t
    case End(u) =>
    case Part(u, digits, rest) => Associate(text, u, values[ParseInt(digits)] + Denote(rest, values));
  }

  lemma PrefixedCanonical(text: string, t: Template)
    requires Numbered(t)
    ensures Numbered(Prefixed(text, t)) && Canonical(Prefixed(text, t)) == Canonical(t)
  {
  }

  /** Filling in id i leaves later ids and ids that are not canonical, and the same denotation. */
  lemma {:induction false} FillKeepsDenote(t: Template, i: nat, values: seq<string>, c: char)
    requires i < |values| && Pending(t, i, |values|, c) && Lacks(values[i], c)
    ensures Numbered(t) && InRange(t, |values|)
    ensures var u := FillOne(t, ToDecimal(i), values[i]);
            && Pending(u, i + 1, |values|, c) && Numbered(u) && InRange(u, |values|) && Denote(u, values) == Denote(t, values)
            && Canonical(u) == Canonical(t)
  {
    hide ToDecimal, ParseInt;
    PendingShape(t, i, |values|, c);
    match t
    case End(_) =>
    case Part(text, d, rest) =>
      FillKeepsDenote(rest, i, values, c);
      DecimalRoundTrip(i);
      var u := FillOne(rest, ToDecimal(i), values[i]);
      if d == ToDecimal(i) {
        PrefixedPending(text + values[i], u, i + 1, |values|, c);
        PrefixedDenote(text + values[i], u, values);
        PrefixedCanonical(text + values[i], u);
        Associate(text, values[i], Denote(u, values));
      }
  }

  predicate AllLack(values: seq<string>, c: char) {
    forall k :: 0 <= k < |values| ==> Lacks(values[k], c)
  }

  /** After i replacements the text is the template with some holes filled in and nothing else changed. */
  lemma {:induction false} Filled(t: Template, values: seq<string>, i: nat, c: char) returns (now: Template)
    requires Numbered(t) && TextsLack(t, c) && InRange(t, |values|)
    requires i <= |values| && IsBrace(c) && AllLack(values, c)
    ensures Sequential(Render(t), values, i) == Render(now) && Pending(now, i, |values|, c)
    ensures Numbered(now) && InRange(now, |values|)
    ensures Denote(now, values) == Denote(t, values) && Canonical(now) == Canonical(t)
  {
    hide ToDecimal, ParseInt, ReplaceAll, Pending, Denote, FillOne, Canonical;
    if i == 0 {
      now := t;
      PendingShape(t, 0, |values|, c);
    } else {
      var before := Filled(t, values, i - 1, c);
      PendingShape(before, i - 1, |values|, c);
      ReplaceIsFill(before, ToDecimal(i - 1), c, values[i - 1]);
      FillKeepsDenote(before, i - 1, values, c);
      now := FillOne(before, ToDecimal(i - 1), values[i - 1]);
    }
  }

  lemma {:induction false} DenoteLacks(t: Template, values: seq<string>, c: char)
    requires Numbered(t) && TextsLack(t, c) && InRange(t, |values|) && AllLack(values, c)
    ensures Lacks(Denote(t, values), c)
  {
    if t.Part? {
      DenoteLacks(t.rest, values, c);
    }
  }

  lemma OpenHoleShows(t: Template, c: char)
    requires t.Part? && IsBrace(c)
    ensures !Lacks(Render(t), c)
  {
    assert Render(t)[|t.text|] == '{' && Render(t)[|t.text| + 1 + |t.digits|] == '}';
  }

  lemma SequentialLacking(t: Template, values: seq<string>, c: char)
    requires WellFormed(t) && InRange(t, |values|) && IsBrace(c) && AllLack(values, c)
    ensures Sequential(Render(t), values, |values|) == Denote(t, values) <==> Canonical(t)
  {
    hide ToDecimal, ParseInt, ReplaceAll, Sequential;
    var now := Filled(t, values, |values|, c);
    if now.Part? {
      PendingShape(now, |values|, |values|, c);
      DenoteLacks(now, values, c);
      OpenHoleShows(now, c);
    }
  }

  /**
   * When no value contains an opening brace, or no value contains a closing one, replacing one id after another gives
   * the same string as filling all holes at once if and only if every id is written canonically.
   */
  lemma SequentialIff(t: Template, values: seq<string>)
    requires WellFormed(t) && InRange(t, |values|) && (AllLack(values, '{') || AllLack(values, '}'))
    ensures Sequential(Render(t), values, |values|) == Denote(t, values) <==> Canonical(t)
  {
    SequentialLacking(t, values, if AllLack(values, '{') then '{' else '}');
  }

  /** A zero in front of an id keeps its hole open for ever. */
  lemma LeadingZeroStays()
    ensures var t, values := Part("", "01", End("")), ["a", "b"];
      && AllDigits("01") && WellFormed(t) && ParseInt("01") == 1 && InRange(t, 2) && !Canonical(t)
      && Denote(t, values) == "b" && Sequential("{01}", values, 2) != "b" && Render(t) == "{01}"
  {
    var t, values := Part("", "01", End("")), ["a", "b"];
    assert "01"[..1] == "0" && "0"[..0] == "";
    assert ParseInt("0") == 0;
    assert ToDecimal(1) == "1";
    assert "" + ("{" + ("01" + ("}" + ""))) == "{01}";
    hide Sequential, ReplaceAll, ToDecimal;
    SequentialIff(t, values);
  }

  /** Without the condition on values the two differ as well: a value may hold a later hole, which takes both braces. */
  lemma BracesInValuesMatter()
    ensures var t, values := Part("", "0", End("")), ["{1}", "x"];
      && AllDigits("0") && WellFormed(t) && ParseInt("0") == 0 && InRange(t, 2) && Canonical(t)
      && Sequential(Render(t), values, 2) == "x" && Denote(t, values) == "{1}"
  {
    var t, values := Part("", "0", End("")), ["{1}", "x"];
    assert "0"[..0] == "";
    DecimalRoundTrip(0);
    assert ToDecimal(0) == "0" && ToDecimal(1) == "1" && Hole("0") == "{0}" && Hole("1") == "{1}";
    assert Render(t) == "{0}" && "{0}"[..3] == "{0}" && "{0}"[3..] == "";
    assert "{1}" + "" == "{1}" && "{1}"[..3] == "{1}" && "{1}"[3..] == "" && "x" + "" == "x";
    assert StartsWith("{0}", "{0}") && StartsWith("{1}", "{1}");
    assert ReplaceAll("", "{0}", "{1}") == "" && ReplaceAll("", "{1}", "x") == "";
    assert Sequential("{0}", values, 1) == ReplaceAll(Sequential("{0}", values, 0), "{0}", "{1}");
    assert Sequential("{0}", values, 2) == ReplaceAll(Sequential("{0}", values, 1), "{1}", "x");
  }
}
