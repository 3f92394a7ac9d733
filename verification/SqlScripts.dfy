/** Insert scripts as text, and a quote-aware reader that takes blocks of rows back out of them. */
module SqlScripts {
  import opened Basics
  import opened CommaJoin
  import opened SqlLiterals

  // ----- reading cells, rows and statements -----

  function ReadCells(s: string): (r: Option<(seq<string>, string)>)
    ensures r.Some? ==> |r.value.1| < |s|
  {
    var n := CellLength(false, s);
    if n == |s| then None
    else if s[n] == ')' then Some(([s[..n]], s[n + 1..]))
    else match ReadCells(s[n + 1..])
         case None => None
         case Some((cells, rest)) => Some(([s[..n]] + cells, rest))
  }

  function ReadRow(s: string): (r: Option<(seq<string>, string)>)
    ensures r.Some? ==> |r.value.1| < |s|
  {
    if |s| < 2 || s[0] != '(' then None
    else if s[1] == ')' then Some(([], s[2..]))
    else ReadCells(s[1..])
  }

  function ReadRows(s: string): (r: Option<(seq<seq<string>>, string)>)
    ensures r.Some? ==> |r.value.1| < |s|
    decreases |s|
  {
    match ReadRow(s)
    case None => None
    case Some((row, rest)) =>
      if rest == "" || rest[0] != ',' then Some(([row], rest))
      else match ReadRows(rest[1..])
           case None => None
           case Some((rows, after)) => Some(([row] + rows, after))
  }

  /** A script is a run of inserts with one header, closed by a semicolon. */
  function ReadScript(header: string, s: string): Option<seq<seq<seq<string>>>>
    decreases |s|
  {
    if s == ";" then Some([])
    else if !(header <= s) then None
    else match ReadRows(s[|header|..])
         case None => None
         case Some((rows, rest)) =>
           match ReadScript(header, rest)
           case None => None
           case Some(blocks) => Some([rows] + blocks)
  }

  // ----- what is written -----

  function RowText(row: seq<string>): string {
    "(" + Join(row) + ")"
  }

  function RowsText(rows: seq<seq<string>>): string {
    if rows == [] then ""
    else if |rows| == 1 then RowText(rows[0])
    else RowText(rows[0]) + ("," + RowsText(rows[1..]))
  }

  function BlocksText(header: string, blocks: seq<seq<seq<string>>>): string {
    if blocks == [] then ""
    else BlocksText(header, blocks[..|blocks| - 1]) + header + RowsText(blocks[|blocks| - 1])
  }

  function Header(paramName: string, names: seq<string>): string {
    ";Insert into " + paramName + "(" + Join(names) + ") values "
  }

  /** Rows cut into blocks of a thousand, the last of which may be shorter. */
  function Chunk<T>(rows: seq<T>): seq<seq<T>>
    decreases |rows|
  {
    if rows == [] then [] else
      var n := (|rows| - 1) / 1000 * 1000;
      Chunk(rows[..n]) + [rows[n..]]
  }

  function Flatten<T>(blocks: seq<seq<T>>): seq<T> {
    if blocks == [] then [] else Flatten(blocks[..|blocks| - 1]) + blocks[|blocks| - 1]
  }

  /** The blocks hold the rows in order; all but the last have exactly a thousand, the last has one to a thousand. */
  lemma {:induction false} ChunkSizes<T>(rows: seq<T>)
    ensures Flatten(Chunk(rows)) == rows
    ensures |Chunk(rows)| == (|rows| + 999) / 1000
    ensures forall k :: 0 <= k < |Chunk(rows)| - 1 ==> |Chunk(rows)[k]| == 1000
    ensures rows != [] ==> 1 <= |Chunk(rows)[|Chunk(rows)| - 1]| <= 1000
    ensures |rows| % 1000 == 0 && rows != [] ==> |Chunk(rows)[|Chunk(rows)| - 1]| == 1000
    decreases |rows|
  {
    if rows != [] {
      var n := (|rows| - 1) / 1000 * 1000;
      ChunkSizes(rows[..n]);
      assert Chunk(rows)[..|Chunk(rows)| - 1] == Chunk(rows[..n]);
      assert rows[..n] + rows[n..] == rows;
    }
  }

  // ----- reading back what was written -----

  predicate Readable(cell: string) {
    Solid(false, cell)
  }

  /** Each cell stands as one, and the row does not look like a row without cells. */
  predicate ReadableRow(row: seq<string>) {
    row != [""] && forall i :: 0 <= i < |row| ==> Readable(row[i])
  }

  predicate ReadableRows(rows: seq<seq<string>>) {
    forall k :: 0 <= k < |rows| ==> ReadableRow(rows[k])
  }

  ghost predicate BlocksReadable(blocks: seq<seq<seq<string>>>) {
    forall b :: 0 <= b < |blocks| ==> ReadableRows(blocks[b])
  }

  predicate ReadableCells(cells: seq<string>) {
    forall i :: 0 <= i < |cells| ==> Readable(cells[i])
  }

  lemma CellEnds(cell: string, separator: char, rest: string)
    requires Readable(cell) && (separator == ',' || separator == ')')
    ensures var s := cell + ([separator] + rest);
            CellLength(false, s) == |cell| && s[..|cell|] == cell && s[|cell|] == separator && s[|cell| + 1..] == rest
  {
    CellLengthIff(false, cell, separator, rest);
  }

  lemma LastCell(cell: string, rest: string)
    requires Readable(cell)
    ensures ReadCells(cell + (")" + rest)) == Some(([cell], rest))
  {
    CellEnds(cell, ')', rest);
    assert cell + (")" + rest) == cell + ([')'] + rest);
  }

  lemma MoreCells(cell: string, after: string, cells: seq<string>, rest: string)
    requires Readable(cell) && ReadCells(after) == Some((cells, rest))
    ensures ReadCells(cell + ("," + after)) == Some(([cell] + cells, rest))
  {
    hide CellLength;
    CellEnds(cell, ',', after);
    assert cell + ("," + after) == cell + ([','] + after);
  }

  lemma {:induction false} ReadCellsBack(cells: seq<string>, rest: string)
    requires cells != [] && ReadableCells(cells)
    ensures ReadCells(Join(cells) + (")" + rest)) == Some((cells, rest))
    decreases |cells|
  {
    hide ReadCells, Readable;
    if |cells| == 1 {
      LastCell(cells[0], rest);
      assert cells == [cells[0]];
    } else {
      ReadCellsBack(cells[1..], rest);
      var after := Join(cells[1..]) + (")" + rest);
      MoreCells(cells[0], after, cells[1..], rest);
      Regroup(cells[0], ",", Join(cells[1..]), ")" + rest);
      assert cells == [cells[0]] + cells[1..];
    }
  }

  lemma ReadRowBack(row: seq<string>, rest: string)
    requires ReadableRow(row)
    ensures ReadRow(RowText(row) + rest) == Some((row, rest))
  {
    var s := RowText(row) + rest;
    assert s[1..] == Join(row) + (")" + rest);
    if row == [] {
      assert s[2..] == rest;
    } else {
      ReadCellsBack(row, rest);
      FirstCharacter(row);
      assert s[1] == Join(row)[0];
    }
  }

  lemma FirstCharacter(row: seq<string>)
    requires ReadableRow(row) && row != []
    ensures Join(row) != "" && Join(row)[0] != ')'
  {
    assert Readable(row[0]);
  }

  lemma MoreRows(row: seq<string>, after: string, rows: seq<seq<string>>, rest: string)
    requires ReadableRow(row) && ReadRows(after) == Some((rows, rest))
    ensures ReadRows(RowText(row) + ("," + after)) == Some(([row] + rows, rest))
  {
    hide ReadRow, RowText, ReadableRow;
    ReadRowBack(row, "," + after);
    assert ("," + after)[1..] == after;
  }

  lemma {:induction false} ReadRowsBack(rows: seq<seq<string>>, rest: string)
    requires rows != [] && ReadableRows(rows)
    requires rest == "" || rest[0] != ','
    ensures ReadRows(RowsText(rows) + rest) == Some((rows, rest))
    decreases |rows|
  {
    hide ReadRow, RowText, ReadableRow;
    if |rows| == 1 {
      ReadRowBack(rows[0], rest);
      assert rows == [rows[0]];
    } else {
      hide ReadRows;
      ReadRowsBack(rows[1..], rest);
      MoreRows(rows[0], RowsText(rows[1..]) + rest, rows[1..], rest);
      Regroup(RowText(rows[0]), ",", RowsText(rows[1..]), rest);
      assert rows == [rows[0]] + rows[1..];
    }
  }

  lemma LastBlock(header: string, blocks: seq<seq<seq<string>>>, last: seq<seq<string>>)
    ensures BlocksText(header, blocks + [last]) == BlocksText(header, blocks) + header + RowsText(last)
  {
    assert (blocks + [last])[..|blocks|] == blocks;
  }

  lemma Shift(header: string, first: string, middle: string, last: string)
    ensures header + (first + middle) + header + last == header + (first + (middle + header + last))
  {
  }

  /** The first block's text stands first. */
  lemma {:induction false} FirstBlock(header: string, blocks: seq<seq<seq<string>>>)
    requires blocks != []
    ensures BlocksText(header, blocks) == header + (RowsText(blocks[0]) + BlocksText(header, blocks[1..]))
    decreases |blocks|
  {
    hide RowsText, BlocksText;
    NoBlocks(header);
    var n := |blocks| - 1;
    var last := blocks[n];
    assert blocks == blocks[..n] + [last];
    LastBlock(header, blocks[..n], last);
    if n == 0 {
      assert blocks[..0] == [] && blocks[1..] == [];
      var text := RowsText(last);
      assert "" + header + text == header + (text + "");
    } else {
      FirstBlock(header, blocks[..n]);
      assert blocks[..n][1..] == blocks[1..n] && blocks[1..] == blocks[1..n] + [last];
      LastBlock(header, blocks[1..n], last);
      Shift(header, RowsText(blocks[0]), BlocksText(header, blocks[1..n]), RowsText(last));
    }
  }

  lemma NoBlocks(header: string)
    ensures BlocksText(header, []) == ""
  {
  }

  lemma {:induction false} ReadScriptBack(header: string, blocks: seq<seq<seq<string>>>)
    requires header != "" && header[0] == ';' && header != ";"
    requires forall b :: 0 <= b < |blocks| ==> blocks[b] != [] && ReadableRows(blocks[b])
    ensures ReadScript(header, BlocksText(header, blocks) + ";") == Some(blocks)
    decreases |blocks|
  {
    hide ReadRows, RowsText, ReadableRows, BlocksText;
    NoBlocks(header);
    if blocks != [] {
      var s := BlocksText(header, blocks) + ";";
      var rest := BlocksText(header, blocks[1..]) + ";";
      FirstBlock(header, blocks);
      assert s[|header|..] == RowsText(blocks[0]) + rest && s[..|header|] == header;
      if |blocks| > 1 {
        FirstBlock(header, blocks[1..]);
      }
      assert rest[0] == ';';
      ReadRowsBack(blocks[0], rest);
      ReadScriptBack(header, blocks[1..]);
      assert blocks == [blocks[0]] + blocks[1..];
    }
  }

  // ----- only readable rows are ever read -----

  lemma {:induction false} PrefixSolid(quoted: bool, s: string)
    requires CellLength(quoted, s) < |s|
    ensures Solid(quoted, s[..CellLength(quoted, s)])
    decreases |s|
  {
    var n := CellLength(quoted, s);
    if n > 0 {
      PrefixSolid(if s[0] == '\'' then !quoted else quoted, s[1..]);
      assert s[..n][1..] == s[1..][..n - 1];
    }
  }

  lemma {:induction false} ReadCellsSolid(s: string)
    requires ReadCells(s).Some?
    ensures ReadableCells(ReadCells(s).value.0)
    ensures ReadCells(s).value.0 == [""] ==> s[0] == ')'
    decreases |s|
  {
    var n := CellLength(false, s);
    PrefixSolid(false, s);
    if s[n] != ')' {
      ReadCellsSolid(s[n + 1..]);
    }
  }

  lemma ReadRowSolid(s: string)
    requires ReadRow(s).Some?
    ensures ReadableRow(ReadRow(s).value.0)
  {
    if s[1] != ')' {
      ReadCellsSolid(s[1..]);
    }
  }

  lemma {:induction false} ReadRowsSolid(s: string)
    requires ReadRows(s).Some?
    ensures ReadableRows(ReadRows(s).value.0)
    decreases |s|
  {
    hide ReadRow, ReadableRow;
    ReadRowSolid(s);
    var rest := ReadRow(s).value.1;
    if rest != "" && rest[0] == ',' {
      ReadRowsSolid(rest[1..]);
    }
  }

  lemma {:induction false} ReadScriptSolid(header: string, s: string)
    requires ReadScript(header, s).Some?
    ensures forall b :: 0 <= b < |ReadScript(header, s).value| ==> ReadableRows(ReadScript(header, s).value[b])
    decreases |s|
  {
    hide ReadRows, ReadableRows;
    if s != ";" {
      ReadRowsSolid(s[|header|..]);
      ReadScriptSolid(header, ReadRows(s[|header|..]).value.1);
    }
  }

  /** A script of any blocks is read back exactly when every cell stands as one and no row is a lone empty cell. */
  lemma ScriptBackIff(header: string, blocks: seq<seq<seq<string>>>)
    requires header != "" && header[0] == ';' && header != ";"
    requires forall b :: 0 <= b < |blocks| ==> blocks[b] != []
    ensures ReadScript(header, BlocksText(header, blocks) + ";") == Some(blocks)
            <==> BlocksReadable(blocks)
  {
    hide ReadScript, BlocksText, ReadableRows;
    if ReadScript(header, BlocksText(header, blocks) + ";") == Some(blocks) {
      ReadScriptSolid(header, BlocksText(header, blocks) + ";");
    }
    if BlocksReadable(blocks) {
      ReadScriptBack(header, blocks);
    }
  }

  lemma {:induction false} ChunksReadable(rows: seq<seq<string>>)
    ensures forall b :: 0 <= b < |Chunk(rows)| ==> Chunk(rows)[b] != []
    ensures ReadableRows(rows) <==> BlocksReadable(Chunk(rows))
    decreases |rows|
  {
    hide ReadableRow;
    if rows != [] {
      var n := (|rows| - 1) / 1000 * 1000;
      ChunksReadable(rows[..n]);
      ReadableSplit(rows, n);
      var front, all := Chunk(rows[..n]), Chunk(rows);
      assert all == front + [rows[n..]];
      AddBlock(front, rows[n..]);
    }
  }

  lemma AddBlock(blocks: seq<seq<seq<string>>>, last: seq<seq<string>>)
    ensures BlocksReadable(blocks + [last]) <==> BlocksReadable(blocks) && ReadableRows(last)
  {
    hide ReadableRows;
    var all := blocks + [last];
    if BlocksReadable(all) {
      assert forall b :: 0 <= b < |blocks| ==> all[b] == blocks[b];
      assert all[|blocks|] == last;
    }
  }

  lemma ReadableSplit(rows: seq<seq<string>>, n: nat)
    requires n <= |rows|
    ensures ReadableRows(rows) <==> ReadableRows(rows[..n]) && ReadableRows(rows[n..])
  {
    hide ReadableRow;
    if ReadableRows(rows[..n]) && ReadableRows(rows[n..]) {
      forall k | 0 <= k < |rows| ensures ReadableRow(rows[k]) {
        if k >= n {
          assert rows[n..][k - n] == rows[k];
        } else {
          assert rows[..n][k] == rows[k];
        }
      }
    }
  }
}
