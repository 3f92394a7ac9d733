/** Templates with numbered holes, what they stand for, and how a scanner moves over one. */
module FormatTemplate {
  import opened Basics

  /** Text and {digits} in turn. */
  datatype Template = End(text: string) | Part(text: string, digits: string, rest: Template)

  function Render(t: Template): string {
    match t
    case End(text) => text
    case Part(text, digits, rest) => text + ("{" + (digits + ("}" + Render(rest))))
  }

  predicate IsDigit(c: char) {
    '0' <= c <= '9'
  }

  function DigitValue(c: char): (n: int)
    requires IsDigit(c)
    ensures 0 <= n <= 9
  {
    c as int - '0' as int
  }

  /** int.Parse on digits. */
  function ParseInt(s: string): (n: int)
    requires AllDigits(s)
    ensures n >= 0
  {
    if s == "" then 0 else 10 * ParseInt(s[..|s| - 1]) + DigitValue(s[|s| - 1])
  }

  predicate Lacks(s: string, c: char) {
    forall i :: 0 <= i < |s| ==> s[i] != c
  }

  predicate NoBrace(s: string) {
    Lacks(s, '{') && Lacks(s, '}')
  }

  predicate AllDigits(s: string) {
    forall i :: 0 <= i < |s| ==> IsDigit(s[i])
  }

  /** Every hole has an id. */
  predicate Numbered(t: Template) {
    t.Part? ==> t.digits != "" && AllDigits(t.digits) && Numbered(t.rest)
  }

  predicate TextsLack(t: Template, c: char) {
    Lacks(t.text, c) && (t.Part? ==> TextsLack(t.rest, c))
  }

  /** Braces only around non-empty digits. */
  predicate WellFormed(t: Template) {
    Numbered(t) && TextsLack(t, '{') && TextsLack(t, '}')
  }

  /** Every id is below n. */
  predicate InRange(t: Template, n: nat)
    requires Numbered(t)
  {
    t.Part? ==> ParseInt(t.digits) < n && InRange(t.rest, n)
  }

  /** The string a template stands for: each hole replaced by its value, all at once. */
  function Denote(t: Template, values: seq<string>): string
    requires Numbered(t) && InRange(t, |values|)
  {
    match t
    case End(text) => text
    case Part(text, digits, rest) => text + (values[ParseInt(digits)] + Denote(rest, values))
  }

  // ----- the compiled form -----

  /** The texts around the holes. */
  function Texts(t: Template): (r: seq<string>)
    ensures |r| >= 1
  {
    match t
    case End(text) => [text]
    case Part(text, _, rest) => [text] + Texts(rest)
  }

  /** The id that follows each text, -1 after the last. */
  function Ids(t: Template): (r: seq<int>)
    requires Numbered(t)
    ensures |r| == |Texts(t)|
    ensures forall i :: 0 <= i < |r| ==> -1 <= r[i]
    ensures forall n: nat :: InRange(t, n) ==> forall i :: 0 <= i < |r| ==> r[i] < n
  {
    match t
    case End(_) => [-1]
    case Part(_, digits, rest) => [ParseInt(digits)] + Ids(rest)
  }

  /** What one compiled part contributes. */
  function PartText(text: string, id: int, values: seq<string>): string
    requires -1 <= id < |values|
  {
    if id == -1 then text else text + values[id]
  }

  function JoinParts(texts: seq<string>, ids: seq<int>, values: seq<string>): string
    requires |texts| == |ids| && forall i :: 0 <= i < |ids| ==> -1 <= ids[i] < |values|
  {
    if texts == [] then ""
    else JoinParts(texts[..|texts| - 1], ids[..|ids| - 1], values)
         + PartText(texts[|texts| - 1], ids[|ids| - 1], values)
  }

  lemma {:induction false} JoinFirst(text: string, id: int, texts: seq<string>, ids: seq<int>, values: seq<string>)
    requires |texts| == |ids| && -1 <= id < |values| && forall i :: 0 <= i < |ids| ==> -1 <= ids[i] < |values|
    ensures JoinParts([text] + texts, [id] + ids, values) == PartText(text, id, values) + JoinParts(texts, ids, values)
  {
    var ts, ks := [text] + texts, [id] + ids;
    if texts == [] {
      assert ts[..0] == [] && ks[..0] == [];
    } else {
      assert ts[..|ts| - 1] == [text] + texts[..|texts| - 1];
      assert ks[..|ks| - 1] == [id] + ids[..|ids| - 1];
      JoinFirst(text, id, texts[..|texts| - 1], ids[..|ids| - 1], values);
      assert ts[|ts| - 1] == texts[|texts| - 1] && ks[|ks| - 1] == ids[|ids| - 1];
      Associate(PartText(text, id, values), JoinParts(texts[..|texts| - 1], ids[..|ids| - 1], values),
                PartText(texts[|texts| - 1], ids[|ids| - 1], values));
    }
  }

  /** The compiled form stands for what the template does. */
  lemma {:induction false} JoinIsDenote(t: Template, values: seq<string>)
    requires WellFormed(t) && InRange(t, |values|)
    ensures JoinParts(Texts(t), Ids(t), values) == Denote(t, values)
  {
    hide JoinParts, ParseInt;
    match t
    case End(text) =>
      JoinSingle(text, values);
    case Part(text, digits, rest) =>
      JoinIsDenote(rest, values);
      JoinFirst(text, ParseInt(digits), Texts(rest), Ids(rest), values);
      Associate(text, values[ParseInt(digits)], Denote(rest, values));
  }

  lemma JoinSingle(text: string, values: seq<string>)
    ensures JoinParts([text], [-1], values) == text
  {
    assert [text][..0] == [] && [-1][..0] == [];
    assert "" + text == text;
  }

  // ----- scanning -----

  /** Where a scanner stands: in a text, or inside braces with some digits to come. */
  datatype Scan = Outside(rest: Template) | Inside(digits: string, rest: Template)

  function Suffix(s: Scan): string {
    match s
    case Outside(rest) => Render(rest)
    case Inside(digits, rest) => digits + ("}" + Render(rest))
  }

  predicate ScanOk(s: Scan) {
    match s
    case Outside(rest) => WellFormed(rest)
    case Inside(digits, rest) => AllDigits(digits) && WellFormed(rest)
  }

  function DropChar(t: Template): Template
    requires t.text != ""
  {
    match t
    case End(text) => End(text[1..])
    case Part(text, digits, rest) => Part(text[1..], digits, rest)
  }

  function NextScan(s: Scan): Scan
    requires Suffix(s) != ""
  {
    match s
    case Outside(rest) =>
      if rest.text != "" then Outside(DropChar(rest))
      else if rest.Part? then Inside(rest.digits, rest.rest) else s
    case Inside(digits, rest) => if digits != "" then Inside(digits[1..], rest) else Outside(rest)
  }

  /** The scanner's move on one character, and what kind of character it is. */
  lemma ScanStep(s: Scan)
    requires ScanOk(s) && Suffix(s) != ""
    ensures ScanOk(NextScan(s)) && Suffix(s)[1..] == Suffix(NextScan(s))
    ensures var c := Suffix(s)[0];
      match s
      case Outside(rest) => if rest.text != "" then c == rest.text[0] && c != '{' && c != '}' else rest.Part? && c == '{'
      case Inside(digits, _) => if digits != "" then c == digits[0] && IsDigit(c) && c != '{' && c != '}' else c == '}'
  {
    match s
    case Outside(rest) => OutsideStep(rest);
    case Inside(digits, rest) =>
      if digits != "" {
        assert (digits + ("}" + Render(rest)))[1..] == digits[1..] + ("}" + Render(rest));
      } else {
        assert digits + ("}" + Render(rest)) == "}" + Render(rest);
      }
  }

  lemma OutsideStep(rest: Template)
    requires WellFormed(rest) && Render(rest) != ""
    ensures rest.text != "" ==>
      Render(rest)[0] == rest.text[0] && Render(rest)[1..] == Render(DropChar(rest)) && WellFormed(DropChar(rest))
    ensures rest.text == "" ==> rest.Part? && Render(rest) == "{" + (rest.digits + ("}" + Render(rest.rest)))
  {
    if rest.Part? {
      var tail := "{" + (rest.digits + ("}" + Render(rest.rest)));
      if rest.text != "" {
        assert (rest.text + tail)[1..] == rest.text[1..] + tail;
      } else {
        assert rest.text + tail == tail;
      }
    }
  }

  /** The whole template is scanned exactly when nothing is left, and then the scanner is outside every brace. */
  lemma ScanEnd(s: Scan)
    requires ScanOk(s) && Suffix(s) == ""
    ensures s == Outside(End(""))
  {
  }

  /** A string is the rendering of at most one well-formed template. */
  lemma {:induction false} ScanUnique(a: Scan, b: Scan)
    requires ScanOk(a) && ScanOk(b) && Suffix(a) == Suffix(b) && a.Outside? == b.Outside?
    ensures a == b
    decreases |Suffix(a)|
  {
    if Suffix(a) == "" {
      ScanEnd(a);
      ScanEnd(b);
    } else {
      ScanStep(a);
      ScanStep(b);
      ScanUnique(NextScan(a), NextScan(b));
    }
  }

  lemma RenderInjective(t: Template, u: Template)
    requires WellFormed(t) && WellFormed(u) && Render(t) == Render(u)
    ensures t == u
  {
    ScanUnique(Outside(t), Outside(u));
  }

  // ----- what a scanner still has to contribute -----

  /** The texts to come, with what has been gathered of the current one. */
  function TextsAhead(s: Scan, gathered: string): (r: seq<string>)
    ensures |r| >= 1
  {
    var ts := Texts(s.rest);
    if s.Outside? then [gathered + ts[0]] + ts[1..] else [gathered] + ts
  }

  /** The ids to come, with the digits gathered of the current one. */
  function IdsAhead(s: Scan, digits: string): seq<int>
    requires ScanOk(s) && AllDigits(digits)
  {
    if s.Outside? then Ids(s.rest) else [ParseInt(digits + s.digits)] + Ids(s.rest)
  }

  predicate ScanInRange(s: Scan, digits: string, n: nat)
    requires ScanOk(s) && AllDigits(digits)
  {
    InRange(s.rest, n) && (s.Inside? ==> digits + s.digits != "" && ParseInt(digits + s.digits) < n)
  }

  /** The output to come. */
  function DenoteAhead(s: Scan, digits: string, values: seq<string>): string
    requires ScanOk(s) && AllDigits(digits) && ScanInRange(s, digits, |values|)
  {
    if s.Outside? then Denote(s.rest, values) else values[ParseInt(digits + s.digits)] + Denote(s.rest, values)
  }

  lemma TextStep(s: Scan, gathered: string, values: seq<string>)
    requires ScanOk(s) && s.Outside? && s.rest.text != ""
    ensures var c, s' := s.rest.text[0], NextScan(s);
      && s'.Outside? && ScanOk(s')
      && TextsAhead(s, gathered) == TextsAhead(s', gathered + [c]) && IdsAhead(s, "") == IdsAhead(s', "")
      && (forall n: nat :: ScanInRange(s, "", n) ==> ScanInRange(s', "", n))
      && (ScanInRange(s, "", |values|) ==> DenoteAhead(s, "", values) == [c] + DenoteAhead(s', "", values))
  {
    assert NoBrace(s.rest.text[1..]);
    assert gathered + s.rest.text == (gathered + [s.rest.text[0]]) + s.rest.text[1..];
    assert s.rest.text == [s.rest.text[0]] + s.rest.text[1..];
  }

  lemma OpenStep(s: Scan, gathered: string, values: seq<string>)
    requires ScanOk(s) && s.Outside? && s.rest.text == "" && s.rest.Part?
    ensures var s' := NextScan(s);
      && s' == Inside(s.rest.digits, s.rest.rest) && ScanOk(s')
      && TextsAhead(s, gathered) == TextsAhead(s', gathered) && IdsAhead(s, "") == IdsAhead(s', "")
      && (forall n: nat :: ScanInRange(s, "", n) ==> ScanInRange(s', "", n))
      && (ScanInRange(s, "", |values|) ==> DenoteAhead(s, "", values) == DenoteAhead(s', "", values))
  {
    assert gathered + "" == gathered && "" + s.rest.digits == s.rest.digits;
    assert Texts(s.rest)[1..] == Texts(s.rest.rest);
    if ScanInRange(s, "", |values|) {
      assert "" + (values[ParseInt(s.rest.digits)] + Denote(s.rest.rest, values))
             == values[ParseInt(s.rest.digits)] + Denote(s.rest.rest, values);
    }
  }

  lemma DigitStep(s: Scan, gathered: string, digits: string, values: seq<string>)
    requires ScanOk(s) && s.Inside? && s.digits != "" && AllDigits(digits)
    ensures var c, s' := s.digits[0], NextScan(s);
      && s' == Inside(s.digits[1..], s.rest) && ScanOk(s') && AllDigits(digits + [c])
      && TextsAhead(s, gathered) == TextsAhead(s', gathered) && IdsAhead(s, digits) == IdsAhead(s', digits + [c])
      && (forall n: nat :: ScanInRange(s, digits, n) ==> ScanInRange(s', digits + [c], n))
      && (ScanInRange(s, digits, |values|) ==> DenoteAhead(s, digits, values) == DenoteAhead(s', digits + [c], values))
  {
    assert digits + s.digits == (digits + [s.digits[0]]) + s.digits[1..];
  }

  lemma CloseStep(s: Scan, gathered: string, digits: string, values: seq<string>)
    requires ScanOk(s) && s.Inside? && s.digits == "" && AllDigits(digits)
    ensures var s' := NextScan(s);
      && s' == Outside(s.rest) && ScanOk(s')
      && TextsAhead(s, gathered) == [gathered] + TextsAhead(s', "") && IdsAhead(s, digits) == [ParseInt(digits)] + IdsAhead(s', "")
      && (forall n: nat :: ScanInRange(s, digits, n) ==> ScanInRange(s', "", n) && digits != "" && ParseInt(digits) < n)
      && (ScanInRange(s, digits, |values|) ==>
            DenoteAhead(s, digits, values) == values[ParseInt(digits)] + DenoteAhead(s', "", values))
  {
    assert digits + s.digits == digits;
    assert "" + Texts(s.rest)[0] == Texts(s.rest)[0];
    assert [Texts(s.rest)[0]] + Texts(s.rest)[1..] == Texts(s.rest);
  }
}
