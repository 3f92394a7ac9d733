/** The template compiler with its cache, and the ways of filling a template in. */
module FormatCompiler {
  import opened FormatTemplate

  const INT_LIMIT := 0x8000_0000

  datatype CompiledFormat = CompiledFormat(parts: seq<string>, paramId: seq<int>, maxPart: nat)

  /** The compiled form of a template, with whatever spare room the arrays had. */
  ghost predicate Compiles(cf: CompiledFormat, t: Template)
    requires WellFormed(t)
  {
    && |cf.parts| == |cf.paramId| && cf.maxPart == |Texts(t)| <= |cf.parts|
    && cf.parts[..cf.maxPart] == Texts(t) && cf.paramId[..cf.maxPart] == Ids(t)
  }

  /** Array.Resize. */
  method Resize<T>(a: array<T>, size: nat, fill: T) returns (b: array<T>)
    requires size >= a.Length
    ensures fresh(b) && b.Length == size && b[..a.Length] == a[..]
    ensures forall i :: a.Length <= i < size ==> b[i] == fill
  {
    b := new T[size](i requires 0 <= i reads a => if i < a.Length then a[i] else fill);
  }

  class CompiledString {
    var cache: map<string, CompiledFormat>

    /** Whatever is cached for a template's text is that template's compiled form. */
    ghost predicate Valid()
      reads this
    {
      forall t: Template :: WellFormed(t) && Render(t) in cache ==> Compiles(cache[Render(t)], t)
    }

    constructor ()
      ensures Valid() && cache == map[]
    {
      cache := map[];
    }

    method Compile(template: string, ghost t: Template) returns (cf: CompiledFormat)
      requires Valid() && WellFormed(t) && InRange(t, INT_LIMIT) && template == Render(t)
      modifies this
      ensures Valid() && Compiles(cf, t)
      ensures cache == old(cache)[template := cf]
    {
      if template in cache {
        cf := cache[template];
        assert cache == cache[template := cf];
        return;
      }
      cf := Scanned(template, t);
      forall u: Template | WellFormed(u) && Render(u) == template ensures u == t {
        RenderInjective(t, u);
      }
      cache := cache[template := cf];
    }

    /** The loop over the template: growing arrays, and the text and the digits gathered so far. */
    static method Scanned(template: string, ghost t: Template) returns (cf: CompiledFormat)
      requires WellFormed(t) && InRange(t, INT_LIMIT) && template == Render(t)
      ensures Compiles(cf, t)
    {
      hide Render, Texts, Ids, ParseInt, TextsAhead, IdsAhead, NextScan, ScanInRange, InRange, Progress, Suffix, ScanOk;
      var parts := new string[10](_ => "");
      var paramIds := new int[10](_ => -1);
      var currentPart := 0;
      var insideBrackets := false;
      var tempstr := "";
      var tempParamId := "";
      ghost var scan := Outside(t);
      ScanStart(t);
      var i := 0;
      while i < |template|
        invariant 0 <= i <= |template| && template[i..] == Suffix(scan)
        invariant ScanOk(scan) && insideBrackets == scan.Inside? && AllDigits(tempParamId)
        invariant fresh(parts) && fresh(paramIds) && parts.Length == paramIds.Length
        invariant 0 <= currentPart < if insideBrackets then parts.Length - 1 else parts.Length
        invariant insideBrackets ==> tempstr == ""
        invariant forall z :: currentPart <= z < paramIds.Length ==> paramIds[z] == -1
        invariant Progress(t, parts[..currentPart], paramIds[..currentPart], scan,
                           if insideBrackets then parts[currentPart] else tempstr,
                           if insideBrackets then tempParamId else "")
      {
        var currentC := template[i];
        ScanStep(scan);
        assert template[i + 1..] == template[i..][1..];
        if currentC == '{' {
          OpenProgress(t, parts[..currentPart], paramIds[..currentPart], scan, tempstr);
          insideBrackets := true;
          if parts.Length - 1 == currentPart {
            parts, paramIds := Double(parts, paramIds, currentPart);
          }
          parts[currentPart] := tempstr;
          tempstr := "";
          tempParamId := "";
        } else if currentC == '}' {
          CloseProgress(t, parts[..currentPart], paramIds[..currentPart], scan, parts[currentPart], tempParamId);
          insideBrackets := false;
          paramIds[currentPart] := ParseInt(tempParamId);
          currentPart := currentPart + 1;
          assert parts[..currentPart] == parts[..currentPart - 1] + [parts[currentPart - 1]];
          assert paramIds[..currentPart] == paramIds[..currentPart - 1] + [paramIds[currentPart - 1]];
        } else if !insideBrackets {
          TextProgress(t, parts[..currentPart], paramIds[..currentPart], scan, tempstr);
          tempstr := tempstr + [currentC];
        } else {
          DigitProgress(t, parts[..currentPart], paramIds[..currentPart], scan, parts[currentPart], tempParamId);
          tempParamId := tempParamId + [currentC];
        }
        scan := NextScan(scan);
        i := i + 1;
      }
      ScanEnd(scan);
      EndProgress(t, parts[..currentPart], paramIds[..currentPart], tempstr);
      parts[currentPart] := tempstr;
      cf := CompiledFormat(parts[..], paramIds[..], currentPart + 1);
      assert cf.parts[..cf.maxPart] == parts[..currentPart] + [tempstr];
      assert cf.paramId[..cf.maxPart] == paramIds[..currentPart] + [-1];
    }
  }

  /** Twice the room, with the ids from the current part on reset. */
  method Double(parts: array<string>, paramIds: array<int>, currentPart: nat)
    returns (parts': array<string>, paramIds': array<int>)
    requires parts.Length == paramIds.Length && 0 < parts.Length && currentPart < parts.Length
    ensures fresh(parts') && fresh(paramIds') && parts'.Length == paramIds'.Length == 2 * parts.Length
    ensures parts'[..currentPart] == parts[..currentPart] && paramIds'[..currentPart] == paramIds[..currentPart]
    ensures forall z :: currentPart <= z < paramIds'.Length ==> paramIds'[z] == -1
  {
    parts' := Resize(parts, parts.Length * 2, "");
    paramIds' := Resize(paramIds, paramIds.Length * 2, 0);
    assert parts'[..currentPart] == parts'[..parts.Length][..currentPart];
    assert paramIds'[..currentPart] == paramIds'[..paramIds.Length][..currentPart];
    for z := currentPart to paramIds'.Length
      invariant forall y :: currentPart <= y < z ==> paramIds'[y] == -1
      invariant paramIds'[..currentPart] == paramIds[..currentPart]
      modifies paramIds'
    {
      paramIds'[z] := -1;
    }
  }

  /** The parts and ids stored so far, with what the scanner has still to contribute, make up the template's. */
  ghost predicate Progress(t: Template, parts: seq<string>, ids: seq<int>, scan: Scan, gathered: string, digits: string) {
    && WellFormed(t) && ScanOk(scan) && AllDigits(digits) && (scan.Outside? ==> digits == "")
    && ScanInRange(scan, digits, INT_LIMIT)
    && Texts(t) == parts + TextsAhead(scan, gathered) && Ids(t) == ids + IdsAhead(scan, digits)
  }

  lemma TextProgress(t: Template, parts: seq<string>, ids: seq<int>, scan: Scan, gathered: string)
    requires Progress(t, parts, ids, scan, gathered, "") && scan.Outside? && scan.rest.text != ""
    ensures NextScan(scan).Outside? && Progress(t, parts, ids, NextScan(scan), gathered + [scan.rest.text[0]], "")
  {
    TextStep(scan, gathered, []);
  }

  lemma OpenProgress(t: Template, parts: seq<string>, ids: seq<int>, scan: Scan, gathered: string)
    requires Progress(t, parts, ids, scan, gathered, "") && scan.Outside? && scan.rest.text == "" && scan.rest.Part?
    ensures NextScan(scan).Inside? && Progress(t, parts, ids, NextScan(scan), gathered, "")
  {
    OpenStep(scan, gathered, []);
  }

  lemma DigitProgress(t: Template, parts: seq<string>, ids: seq<int>, scan: Scan, gathered: string, digits: string)
    requires Progress(t, parts, ids, scan, gathered, digits) && scan.Inside? && scan.digits != ""
    ensures NextScan(scan).Inside? && Progress(t, parts, ids, NextScan(scan), gathered, digits + [scan.digits[0]])
  {
    DigitStep(scan, gathered, digits, []);
  }

  lemma CloseProgress(t: Template, parts: seq<string>, ids: seq<int>, scan: Scan, gathered: string, digits: string)
    requires Progress(t, parts, ids, scan, gathered, digits) && scan.Inside? && scan.digits == ""
    ensures NextScan(scan).Outside? && AllDigits(digits)
    ensures Progress(t, parts + [gathered], ids + [ParseInt(digits)], NextScan(scan), "", "")
  {
    CloseStep(scan, gathered, digits, []);
  }

  lemma EndProgress(t: Template, parts: seq<string>, ids: seq<int>, gathered: string)
    requires Progress(t, parts, ids, Outside(End("")), gathered, "")
    ensures Texts(t) == parts + [gathered] && Ids(t) == ids + [-1]
  {
    assert gathered + "" == gathered;
  }

  lemma ScanStart(t: Template)
    requires WellFormed(t) && InRange(t, INT_LIMIT)
    ensures Suffix(Outside(t)) == Render(t) && ScanOk(Outside(t))
    ensures Progress(t, [], [], Outside(t), "", "")
  {
    assert "" + Texts(t)[0] == Texts(t)[0];
    assert [Texts(t)[0]] + Texts(t)[1..] == Texts(t);
  }
}
