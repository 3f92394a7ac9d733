/** The ways of filling a template in: all of them produce what the template denotes. */
module FormatEvaluators {
  import opened Basics
  import opened FormatTemplate
  import opened FormatCompiler

  /** What every evaluator asks of its arguments: ids that have a value. */
  predicate Fits(t: Template, values: seq<string>) {
    WellFormed(t) && InRange(t, |values|) && |values| <= INT_LIMIT
  }

  lemma {:induction false} WiderRange(t: Template, n: nat, m: nat)
    requires WellFormed(t) && InRange(t, n) && n <= m
    ensures InRange(t, m)
  {
    if t.Part? {
      WiderRange(t.rest, n, m);
    }
  }

  /** The first i compiled parts of a template, filled in. */
  ghost function Joined(t: Template, values: seq<string>, i: nat): string
    requires Fits(t, values) && i <= |Texts(t)|
  {
    JoinParts(Texts(t)[..i], Ids(t)[..i], values)
  }

  lemma JoinedStart(t: Template, values: seq<string>)
    requires Fits(t, values)
    ensures Joined(t, values, 0) == "" && Joined(t, values, |Texts(t)|) == Denote(t, values)
  {
    assert Texts(t)[..|Texts(t)|] == Texts(t) && Ids(t)[..|Ids(t)|] == Ids(t);
    JoinIsDenote(t, values);
  }

  lemma JoinedStep(t: Template, values: seq<string>, i: nat)
    requires Fits(t, values) && i < |Texts(t)|
    ensures -1 <= Ids(t)[i] < |values|
    ensures Joined(t, values, i + 1) == Joined(t, values, i) + PartText(Texts(t)[i], Ids(t)[i], values)
  {
    hide Texts, Ids, Numbered, TextsLack, InRange, JoinParts, PartText;
    JoinTake(Texts(t), Ids(t), values, i);
  }

  lemma JoinTake(texts: seq<string>, ids: seq<int>, values: seq<string>, i: nat)
    requires |texts| == |ids| && i < |texts| && forall k :: 0 <= k < |ids| ==> -1 <= ids[k] < |values|
    ensures JoinParts(texts[..i + 1], ids[..i + 1], values)
            == JoinParts(texts[..i], ids[..i], values) + PartText(texts[i], ids[i], values)
  {
    assert texts[..i + 1][..i] == texts[..i] && ids[..i + 1][..i] == ids[..i];
  }

  lemma CompiledAt(cf: CompiledFormat, t: Template, i: nat)
    requires WellFormed(t) && Compiles(cf, t) && i < cf.maxPart
    ensures cf.parts[i] == Texts(t)[i] && cf.paramId[i] == Ids(t)[i]
  {
    assert cf.parts[i] == cf.parts[..cf.maxPart][i] && cf.paramId[i] == cf.paramId[..cf.maxPart][i];
  }

  /** string.Concat; a null counts as empty. */
  function Concat(parts: seq<string>): string {
    if parts == [] then "" else Concat(parts[..|parts| - 1]) + parts[|parts| - 1]
  }

  lemma ConcatAppend(parts: seq<string>, s: string)
    ensures Concat(parts + [s]) == Concat(parts) + s
  {
    assert (parts + [s])[..|parts|] == parts;
  }

  lemma {:induction false} ConcatEmpties(parts: seq<string>, n: nat)
    requires n <= |parts| && forall i :: n <= i < |parts| ==> parts[i] == ""
    ensures Concat(parts) == Concat(parts[..n])
    decreases |parts| - n
  {
    if n == |parts| {
      assert parts[..n] == parts;
    } else {
      ConcatEmpties(parts, n + 1);
      assert parts[..n + 1] == parts[..n] + [parts[n]];
      ConcatAppend(parts[..n], parts[n]);
    }
  }

  method Format(cs: CompiledString, template: string, values: seq<string>, ghost t: Template) returns (r: string)
    requires cs.Valid() && Fits(t, values) && template == Render(t)
    modifies cs
    ensures cs.Valid() && r == Denote(t, values)
  {
    hide Texts, Ids, JoinParts, Denote;
    WiderRange(t, |values|, INT_LIMIT);
    var cf := cs.Compile(template, t);
    JoinedStart(t, values);
    var sb := "";
    for i := 0 to cf.maxPart
      invariant cs.Valid()
      invariant sb == Joined(t, values, i)
    {
      CompiledAt(cf, t, i);
      JoinedStep(t, values, i);
      sb := sb + cf.parts[i];
      if cf.paramId[i] != -1 {
        sb := sb + values[cf.paramId[i]];
      }
    }
    r := sb;
  }

  method FormatStringConcat(cs: CompiledString, template: string, values: seq<string>, ghost t: Template) returns (r: string)
    requires cs.Valid() && Fits(t, values) && template == Render(t)
    modifies cs
    ensures cs.Valid() && r == Denote(t, values)
  {
    hide Texts, Ids, JoinParts, Denote, Concat, Joined, WellFormed, InRange;
    WiderRange(t, |values|, INT_LIMIT);
    var cf := cs.Compile(template, t);
    JoinedStart(t, values);
    var compiled := new string[cf.maxPart * 2](_ => "");
    var counter := 0;
    ConcatNothing(compiled[..counter]);
    for i := 0 to cf.maxPart
      invariant cs.Valid()
      invariant counter <= 2 * i
      invariant Concat(compiled[..counter]) == Joined(t, values, i)
      invariant forall k :: counter <= k < compiled.Length ==> compiled[k] == ""
    {
      CompiledAt(cf, t, i);
      JoinedStep(t, values, i);
      ConcatAppend(compiled[..counter], cf.parts[i]);
      compiled[counter] := cf.parts[i];
      assert compiled[..counter + 1] == compiled[..counter] + [cf.parts[i]];
      counter := counter + 1;
      if cf.paramId[i] != -1 {
        var val := values[cf.paramId[i]];
        ConcatAppend(compiled[..counter], val);
        compiled[counter] := val;
        assert compiled[..counter + 1] == compiled[..counter] + [val];
        counter := counter + 1;
      }
    }
    ConcatEmpties(compiled[..], counter);
    assert compiled[..][..counter] == compiled[..counter];
    r := Concat(compiled[..]);
  }

  lemma ConcatNothing(parts: seq<string>)
    requires parts == []
    ensures Concat(parts) == ""
  {
  }

  method FormatList(cs: CompiledString, template: string, values: seq<string>, ghost t: Template) returns (r: string)
    requires cs.Valid() && Fits(t, values) && template == Render(t)
    modifies cs
    ensures cs.Valid() && r == Denote(t, values)
  {
    hide Texts, Ids, JoinParts, Denote, Concat, Joined, WellFormed, InRange;
    WiderRange(t, |values|, INT_LIMIT);
    var cf := cs.Compile(template, t);
    JoinedStart(t, values);
    var compiledList: seq<string> := [];
    ConcatNothing(compiledList);
    for i := 0 to cf.maxPart
      invariant cs.Valid()
      invariant Concat(compiledList) == Joined(t, values, i)
    {
      CompiledAt(cf, t, i);
      JoinedStep(t, values, i);
      ConcatAppend(compiledList, cf.parts[i]);
      compiledList := compiledList + [cf.parts[i]];
      if cf.paramId[i] != -1 {
        ConcatAppend(compiledList, values[cf.paramId[i]]);
        compiledList := compiledList + [values[cf.paramId[i]]];
      }
    }
    r := Concat(compiledList);
  }

  method FormatConcat(cs: CompiledString, template: string, values: seq<string>, ghost t: Template) returns (r: string)
    requires cs.Valid() && Fits(t, values) && template == Render(t)
    modifies cs
    ensures cs.Valid() && r == Denote(t, values)
  {
    hide Texts, Ids, JoinParts, Denote;
    WiderRange(t, |values|, INT_LIMIT);
    var cf := cs.Compile(template, t);
    JoinedStart(t, values);
    r := "";
    for i := 0 to cf.maxPart
      invariant cs.Valid()
      invariant r == Joined(t, values, i)
    {
      CompiledAt(cf, t, i);
      JoinedStep(t, values, i);
      r := r + cf.parts[i];
      if cf.paramId[i] != -1 {
        r := r + values[cf.paramId[i]];
      }
    }
  }

  // ----- evaluators that scan the template themselves -----

  /** What is in the buffer, with what the scanner has still to produce, is the whole output. */
  ghost predicate Filled(t: Template, values: seq<string>, scan: Scan, digits: string, done: string) {
    && Fits(t, values) && ScanOk(scan) && AllDigits(digits) && (scan.Outside? ==> digits == "")
    && ScanInRange(scan, digits, |values|)
    && Denote(t, values) == done + DenoteAhead(scan, digits, values)
  }

  lemma FilledStart(t: Template, values: seq<string>)
    requires Fits(t, values)
    ensures Suffix(Outside(t)) == Render(t) && ScanOk(Outside(t)) && Filled(t, values, Outside(t), "", "")
  {
    assert "" + Denote(t, values) == Denote(t, values);
  }

  lemma FilledText(t: Template, values: seq<string>, scan: Scan, done: string)
    requires Filled(t, values, scan, "", done) && scan.Outside? && scan.rest.text != ""
    ensures NextScan(scan).Outside? && Filled(t, values, NextScan(scan), "", done + [scan.rest.text[0]])
  {
    TextStep(scan, "", values);
    Associate(done, [scan.rest.text[0]], DenoteAhead(NextScan(scan), "", values));
  }

  lemma FilledOpen(t: Template, values: seq<string>, scan: Scan, done: string)
    requires Filled(t, values, scan, "", done) && scan.Outside? && scan.rest.text == "" && scan.rest.Part?
    ensures NextScan(scan).Inside? && Filled(t, values, NextScan(scan), "", done)
  {
    OpenStep(scan, "", values);
  }

  lemma FilledDigit(t: Template, values: seq<string>, scan: Scan, digits: string, done: string)
    requires Filled(t, values, scan, digits, done) && scan.Inside? && scan.digits != ""
    ensures NextScan(scan).Inside? && Filled(t, values, NextScan(scan), digits + [scan.digits[0]], done)
  {
    DigitStep(scan, "", digits, values);
  }

  lemma FilledClose(t: Template, values: seq<string>, scan: Scan, digits: string, done: string)
    requires Filled(t, values, scan, digits, done) && scan.Inside? && scan.digits == ""
    ensures AllDigits(digits) && ParseInt(digits) < |values|
    ensures NextScan(scan).Outside? && Filled(t, values, NextScan(scan), "", done + values[ParseInt(digits)])
  {
    CloseStep(scan, "", digits, values);
    Associate(done, values[ParseInt(digits)], DenoteAhead(NextScan(scan), "", values));
  }

  lemma FilledEnd(t: Template, values: seq<string>, done: string)
    requires Filled(t, values, Outside(End("")), "", done)
    ensures Denote(t, values) == done
  {
    assert done + "" == done;
  }

  method FormatFly(template: string, values: seq<string>, ghost t: Template) returns (r: string)
    requires Fits(t, values) && template == Render(t)
    ensures r == Denote(t, values)
  {
    hide Render, Denote, Suffix, ScanOk, NextScan, Filled, ParseInt;
    var insideBrackets := false;
    var sb := "";
    var tempParamId := "";
    var frompos := 0;
    ghost var scan := Outside(t);
    FilledStart(t, values);
    assert template[0..] == template && sb + template[0..0] == "";
    var i := 0;
    while i < |template|
      invariant 0 <= i <= |template| && template[i..] == Suffix(scan)
      invariant ScanOk(scan) && insideBrackets == scan.Inside? && AllDigits(tempParamId)
      invariant 0 <= frompos && (!insideBrackets ==> frompos <= i)
      invariant Filled(t, values, scan, if insideBrackets then tempParamId else "",
                       if insideBrackets then sb else sb + template[frompos..i])
    {
      var currentC := template[i];
      ScanStep(scan);
      assert template[i + 1..] == template[i..][1..];
      if currentC == '{' {
        FilledOpen(t, values, scan, sb + template[frompos..i]);
        sb := sb + template[frompos..i];
        insideBrackets := true;
        tempParamId := "";
      } else if currentC == '}' {
        FilledClose(t, values, scan, tempParamId, sb);
        frompos := i + 1;
        insideBrackets := false;
        sb := sb + values[ParseInt(tempParamId)];
        assert sb + template[frompos..i + 1] == sb;
      } else if insideBrackets {
        FilledDigit(t, values, scan, tempParamId, sb);
        tempParamId := tempParamId + [currentC];
      } else {
        FilledText(t, values, scan, sb + template[frompos..i]);
        assert sb + template[frompos..i + 1] == sb + template[frompos..i] + [currentC];
      }
      scan := NextScan(scan);
      i := i + 1;
    }
    ScanEnd(scan);
    FilledEnd(t, values, sb + template[frompos..i]);
    if frompos < |template| {
      sb := sb + template[frompos..];
    }
    r := sb;
  }

  /** The buffer of characters: what is written, then NULs. */
  ghost predicate Buffer(a: seq<char>, pos: nat, done: string) {
    pos <= |a| && a[..pos] == done && forall k :: pos <= k < |a| ==> a[k] == '\0'
  }

  /** Appends one character, doubling the array when it is full. */
  method PutChar(a: array<char>, pos: nat, c: char, ghost done: string) returns (b: array<char>)
    requires Buffer(a[..], pos, done) && a.Length > 0
    modifies a
    ensures (b == a || fresh(b)) && b.Length > 0 && Buffer(b[..], pos + 1, done + [c])
  {
    b := a;
    if b.Length == pos {
      b := Resize(a, pos * 2, '\0');
      assert b[..][..pos] == a[..];
    }
    b[pos] := c;
    assert b[..][..pos + 1] == b[..][..pos] + [c];
  }

  /** The returned string is the output followed by the unused rest of the buffer. */
  method FormatByteCopy(template: string, values: seq<string>, ghost t: Template) returns (r: string)
    requires Fits(t, values) && template == Render(t)
    ensures Buffer(r, |Denote(t, values)|, Denote(t, values))
  {
    hide Render, Denote, Suffix, ScanOk, NextScan, Filled, ParseInt, Buffer;
    var insideBrackets := false;
    var retval := new char[|template| * 2](_ => '\0');
    var retvalpos := 0;
    var tempParamId := "";
    ghost var scan, done := Outside(t), "";
    FilledStart(t, values);
    assert template[0..] == template;
    assert Buffer(retval[..], 0, "") by { EmptyBuffer(retval[..]); }
    var i := 0;
    while i < |template|
      invariant 0 <= i <= |template| && template[i..] == Suffix(scan)
      invariant ScanOk(scan) && insideBrackets == scan.Inside? && AllDigits(tempParamId)
      invariant fresh(retval) && (template != "" ==> retval.Length > 0)
      invariant retvalpos == |done| && Buffer(retval[..], retvalpos, done)
      invariant Filled(t, values, scan, if insideBrackets then tempParamId else "", done)
    {
      var c := template[i];
      ScanStep(scan);
      assert template[i + 1..] == template[i..][1..];
      if c == '{' {
        FilledOpen(t, values, scan, done);
        insideBrackets := true;
        tempParamId := "";
      } else if c == '}' {
        FilledClose(t, values, scan, tempParamId, done);
        insideBrackets := false;
        var valuestring := values[ParseInt(tempParamId)];
        ghost var start := done;
        var vc := 0;
        assert start + valuestring[..0] == start;
        while vc < |valuestring|
          invariant 0 <= vc <= |valuestring| && done == start + valuestring[..vc]
          invariant fresh(retval) && retval.Length > 0
          invariant retvalpos == |done| && Buffer(retval[..], retvalpos, done)
        {
          retval := PutChar(retval, retvalpos, valuestring[vc], done);
          assert start + valuestring[..vc + 1] == done + [valuestring[vc]];
          done := done + [valuestring[vc]];
          retvalpos := retvalpos + 1;
          vc := vc + 1;
        }
        assert done == start + valuestring;
      } else if !insideBrackets {
        FilledText(t, values, scan, done);
        retval := PutChar(retval, retvalpos, c, done);
        done := done + [c];
        retvalpos := retvalpos + 1;
      } else {
        FilledDigit(t, values, scan, tempParamId, done);
        tempParamId := tempParamId + [c];
      }
      scan := NextScan(scan);
      i := i + 1;
    }
    ScanEnd(scan);
    FilledEnd(t, values, done);
    r := retval[..];
  }

  lemma EmptyBuffer(a: seq<char>)
    requires forall k :: 0 <= k < |a| ==> a[k] == '\0'
    ensures Buffer(a, 0, "")
  {
    assert a[..0] == "";
  }
}
