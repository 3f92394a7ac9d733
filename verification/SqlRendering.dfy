/** Rendering table-valued parameters as insert statements, and when the rows come back out of them. */
module SqlRendering {
  import opened Basics
  import opened CommaJoin
  import opened Decimals
  import opened SqlLiterals
  import opened SqlScripts

  // ----- the generator -----

  datatype Record = Record(names: seq<string>, values: seq<Value>)

  /** The literals of one record, or None when GetDbValue throws on one of its values. */
  function Literals(values: seq<Value>): (r: Option<seq<string>>)
    ensures r.None? <==> exists i :: 0 <= i < |values| && values[i].Other?
    ensures r.Some? ==> |r.value| == |values| && forall i :: 0 <= i < |values| ==> r.value[i] == GetDbValue(values[i]).value
  {
    if values == [] then Some([])
    else match Literals(values[..|values| - 1])
         case None => None
         case Some(front) =>
           match GetDbValue(values[|values| - 1])
           case None => None
           case Some(cell) => Some(front + [cell])
  }

  predicate Supported(records: seq<Record>) {
    forall k :: 0 <= k < |records| ==> Literals(records[k].values).Some?
  }

  function Rows(records: seq<Record>): seq<seq<string>>
    requires Supported(records)
  {
    seq(|records|, k requires 0 <= k < |records| => Literals(records[k].values).value)
  }

  function Script(paramName: string, records: seq<Record>): string
    requires Supported(records)
  {
    if records == [] then ";"
    else BlocksText(Header(paramName, records[0].names), Chunk(Rows(records))) + ";"
  }

  lemma {:induction false} RowsGrow(rows: seq<seq<string>>, row: seq<string>)
    requires rows != []
    ensures RowsText(rows + [row]) == RowsText(rows) + ("," + RowText(row))
    decreases |rows|
  {
    hide RowText;
    assert (rows + [row])[1..] == rows[1..] + [row];
    if |rows| == 1 {
      assert rows[1..] + [row] == [row];
    } else {
      RowsGrow(rows[1..], row);
      Regroup(RowText(rows[0]), ",", RowsText(rows[1..]), "," + RowText(row));
    }
  }

  /** A row after a full block, or the first of all, opens a block. */
  lemma ChunkOpens(header: string, rows: seq<seq<string>>, row: seq<string>)
    requires |rows| % 1000 == 0
    ensures BlocksText(header, Chunk(rows + [row])) == BlocksText(header, Chunk(rows)) + header + RowText(row)
  {
    hide RowText;
    var more := rows + [row];
    assert more[..|rows|] == rows && more[|rows|..] == [row];
    LastBlock(header, Chunk(rows), [row]);
  }

  /** Any other row joins the last block. */
  lemma ChunkGrows(header: string, rows: seq<seq<string>>, row: seq<string>)
    requires |rows| % 1000 != 0
    ensures BlocksText(header, Chunk(rows + [row])) == BlocksText(header, Chunk(rows)) + ("," + RowText(row))
  {
    hide RowText, RowsText, BlocksText;
    var more := rows + [row];
    var n := |rows| / 1000 * 1000;
    assert (|rows| - 1) / 1000 * 1000 == n;
    assert more[..n] == rows[..n] && more[n..] == rows[n..] + [row];
    LastBlock(header, Chunk(rows[..n]), rows[n..]);
    LastBlock(header, Chunk(rows[..n]), more[n..]);
    RowsGrow(rows[n..], row);
    Associate(BlocksText(header, Chunk(rows[..n])) + header, RowsText(rows[n..]), "," + RowText(row));
  }

  /** The appends that open a block, and those that only add a row. */
  lemma AppendsOpen(sb: string, paramName: string, names: seq<string>, row: seq<string>)
    ensures sb + ";Insert into " + paramName + "(" + Join(names) + ") values " + "(" + Join(row) + ")"
            == sb + Header(paramName, names) + RowText(row)
  {
    hide Join;
    AppendsHeader(sb, ";Insert into ", paramName, Join(names));
    Associate(sb + Header(paramName, names), "(" + Join(row), ")");
  }

  lemma AppendsHeader(sb: string, a: string, paramName: string, fields: string)
    ensures sb + a + paramName + "(" + fields + ") values "
            == sb + (a + paramName + "(" + fields + ") values ")
  {
  }

  lemma AppendsRow(sb: string, row: seq<string>)
    ensures sb + ",(" + Join(row) + ")" == sb + ("," + RowText(row))
  {
    hide Join;
    assert ",(" == "," + "(";
  }

  /** The block counter after so many rows: how many more the last block takes. */
  function Remaining(rows: nat): int {
    if rows == 0 then -1 else if rows % 1000 == 0 then 0 else 1000 - rows % 1000
  }

  lemma RemainingStep(rows: nat)
    ensures Remaining(rows) == 0 || Remaining(rows) == -1 <==> rows % 1000 == 0
    ensures Remaining(rows + 1) == if rows % 1000 == 0 then 999 else Remaining(rows) - 1
  {
    assert (rows + 1) % 1000 == if rows % 1000 == 999 then 0 else rows % 1000 + 1;
  }

  /** GenerateTVFSqlDataRecord; None stands for the exception. */
  method GenerateTVF(paramName: string, records: seq<Record>) returns (r: Option<string>)
    ensures r.Some? <==> Supported(records)
    ensures r.Some? ==> r.value == Script(paramName, records)
  {
    hide Literals, Join, Chunk, BlocksText, Rows, Remaining, Header, RowText;
    var sb := "";
    var fields: Option<string> := None;
    var blockcounter := -1;
    ghost var rows: seq<seq<string>> := [];
    ghost var header := if records == [] then "" else Header(paramName, records[0].names);
    NoRows(header);
    for i := 0 to |records|
      invariant Supported(records[..i]) && rows == Rows(records[..i])
      invariant sb == BlocksText(header, Chunk(rows))
      invariant |rows| == i && blockcounter == Remaining(i)
      invariant i == 0 ==> fields == None
      invariant i > 0 ==> fields == Some(Join(records[0].names))
    {
      RemainingStep(i);
      var record := records[i];
      var row := Literals(record.values);
      if row == None {
        return None;
      }
      RowsAdd(records, i);
      if blockcounter == 0 || blockcounter == -1 {
        sb := sb + ";Insert into " + paramName + "(";
        if fields == None {
          fields := Some(Join(record.names));
        }
        sb := sb + fields.value + ") values ";
        blockcounter := 999;
        sb := sb + "(" + Join(row.value) + ")";
        ChunkOpens(header, rows, row.value);
        AppendsOpen(BlocksText(header, Chunk(rows)), paramName, records[0].names, row.value);
      } else {
        ChunkGrows(header, rows, row.value);
        AppendsRow(sb, row.value);
        sb := sb + ",(" + Join(row.value) + ")";
        blockcounter := blockcounter - 1;
      }
      rows := rows + [row.value];
    }
    assert records[..|records|] == records;
    r := Some(sb + ";");
  }

  lemma NoRows(header: string)
    ensures BlocksText(header, Chunk([])) == "" && Rows([]) == [] && Remaining(0) == -1
  {
  }

  lemma RowsAdd(records: seq<Record>, i: nat)
    requires i < |records| && Supported(records[..i]) && Literals(records[i].values).Some?
    ensures Supported(records[..i + 1])
    ensures Rows(records[..i + 1]) == Rows(records[..i]) + [Literals(records[i].values).value]
  {
    hide Literals;
  }

  // ----- reading the script -----

  predicate PointsOk(records: seq<Record>) {
    forall k, i :: 0 <= k < |records| && 0 <= i < |records[k].values| ==> PointOk(records[k].values[i])
  }

  /**
   * A quote-aware reader takes exactly the rows, in order and in blocks of a thousand, back out of the script if and
   * only if no number with decimals is shown with a decimal separator that ends a cell or opens a quote.
   */
  lemma ScriptReadsBackIff(paramName: string, records: seq<Record>)
    requires Supported(records)
    ensures var names := if records == [] then [] else records[0].names;
            var header := ";Insert into " + paramName + "(" + Join(names) + ") values ";
            ReadScript(header, Script(paramName, records)) == Some(Chunk(Rows(records))) <==> PointsOk(records)
    ensures Flatten(Chunk(Rows(records))) == Rows(records)
  {
    hide ReadScript, Literals, ReadableRow, PointOk, Chunk, BlocksText, Flatten, Join;
    var rows := Rows(records);
    ChunkSizes(rows);
    ChunksReadable(rows);
    RowsReadable(records);
    if records == [] {
      NothingRead(paramName);
    } else {
      var header := Header(paramName, records[0].names);
      HeaderStarts(paramName, records[0].names);
      ScriptBackIff(header, Chunk(rows));
    }
  }

  lemma NothingRead(paramName: string)
    ensures ReadScript(Header(paramName, []), ";") == Some(Chunk<seq<string>>([]))
  {
  }

  lemma HeaderStarts(paramName: string, names: seq<string>)
    ensures Header(paramName, names) != "" && Header(paramName, names)[0] == ';' && Header(paramName, names) != ";"
  {
  }

  lemma RowsReadable(records: seq<Record>)
    requires Supported(records)
    ensures ReadableRows(Rows(records)) <==> PointsOk(records)
  {
    hide ReadableRow, PointOk, Literals;
    forall k | 0 <= k < |records|
      ensures ReadableRow(Rows(records)[k]) <==>
              forall i :: 0 <= i < |records[k].values| ==> PointOk(records[k].values[i])
    {
      RecordReadable(records[k].values);
    }
    if ReadableRows(Rows(records)) {
      forall k, i | 0 <= k < |records| && 0 <= i < |records[k].values| ensures PointOk(records[k].values[i]) {
        assert ReadableRow(Rows(records)[k]);
      }
    }
  }

  lemma RecordReadable(values: seq<Value>)
    requires Literals(values).Some?
    ensures ReadableRow(Literals(values).value) <==> forall i :: 0 <= i < |values| ==> PointOk(values[i])
  {
    hide PointOk, GetDbValue, Solid;
    var cells := Literals(values).value;
    forall i | 0 <= i < |values| ensures cells[i] != "" && (Solid(false, cells[i]) <==> PointOk(values[i])) {
      CellReadable(values, i);
    }
    if forall i :: 0 <= i < |values| ==> PointOk(values[i]) {
      assert ReadableRow(cells);
    }
  }

  lemma CellReadable(values: seq<Value>, i: nat)
    requires Literals(values).Some? && i < |values|
    ensures Literals(values).value[i] != ""
    ensures Solid(false, Literals(values).value[i]) <==> PointOk(values[i])
  {
    Supports(values, i);
    LiteralSolidIff(values[i]);
  }

  lemma Supports(values: seq<Value>, i: nat)
    requires Literals(values).Some? && i < |values|
    ensures GetDbValue(values[i]).Some?
  {
  }

  /** The cells read for strings, whole numbers, bytes, truth values and nulls stand for the values of the record. */
  lemma ValuesReadBack(records: seq<Record>, k: nat, i: nat)
    requires Supported(records) && k < |records| && i < |records[k].values| && KindOf(records[k].values[i]).Some?
    ensures var v := records[k].values[i];
            |Rows(records)[k]| == |records[k].values| && ReadValue(KindOf(v).value, Rows(records)[k][i]) == Some(v)
  {
    ValueRoundTrip(records[k].values[i]);
    Supports(records[k].values, i);
  }

  /** One and a half with a decimal comma is not one cell any more: the reader finds two. */
  lemma DecimalCommaSplits()
    ensures var v := Fraction(false, 1, ',', [5], None);
            GetDbValue(v) == Some("1,5") && ReadRow(RowText(["1,5"])) == Some((["1", "5"], ""))
  {
    ReadRowBack(["1", "5"], "");
    assert ["1,5"][1..] == [] && ["1", "5"][1..] == ["5"];
    assert RowText(["1,5"]) + "" == RowText(["1", "5"]) + "" == RowText(["1,5"]);
    OneAndAHalf();
  }

  lemma OneAndAHalf()
    ensures GetDbValue(Fraction(false, 1, ',', [5], None)) == Some("1,5")
  {
    var v := Fraction(false, 1, ',', [5], None);
    var tenths := v.decimals;
    assert tenths == [5] && tenths[1..] == [];
    assert Digits(tenths) == [Digit(5)] + Digits([]);
    assert Digit(1) == '1' && Digit(5) == '5';
    assert ToDecimal(1) == "1";
    assert ExponentText(None) == "";
    assert FractionText(v) == "" + ("1" + (([','] + "5") + ""));
    assert FractionText(v) == "1,5";
  }
}
