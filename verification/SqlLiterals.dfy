/** The SQL literals of values: how they are written, when each stands as one cell, and how they are read. */
module SqlLiterals {
  import opened Basics
  import opened FormatTemplate
  import opened Decimals
  import opened FormatReplacing

  /**
   * The kinds of object GetDbValue tells apart; Other is everything it throws on, DBNull included. The current
   * culture chooses the separators: colon in times, point in numbers that are not whole.
   */
  datatype Value =
    | Null
    | Text(text: string)
    | Guid(nibbles: seq<nat>)
    | DateTime(year: nat, month: nat, day: nat, hour: nat, minute: nat, second: nat, hundredths: nat, colon: char)
    | Bool(b: bool)
    | Bytes(bytes: seq<Byte>)
    | Whole(n: int)
    | Fraction(negative: bool, whole: nat, point: char, decimals: seq<nat>, exponent: Option<int>)
    | Other

  function HexDigit(n: nat): char
    requires n < 16
  {
    if n < 10 then '0' + n as char else 'A' + (n - 10) as char
  }

  function Hex(bytes: seq<Byte>): string {
    if bytes == [] then "" else [HexDigit(bytes[0] / 16), HexDigit(bytes[0] % 16)] + Hex(bytes[1..])
  }

  /** Hexadecimal digits in lower case, in groups of 8, 4, 4, 4 and 12; the first i are done. */
  function GuidText(nibbles: seq<nat>, i: nat): string
    requires i <= |nibbles|
    decreases |nibbles| - i
  {
    if i == |nibbles| then ""
    else
      var n := nibbles[i] % 16;
      (if i == 8 || i == 12 || i == 16 || i == 20 then "-" else "")
      + ([if n < 10 then '0' + n as char else 'a' + (n - 10) as char] + GuidText(nibbles, i + 1))
  }

  /** At least so many digits. */
  function Padded(n: nat, width: nat): string
    decreases width
  {
    var s := ToDecimal(n);
    if |s| >= width then s else "0" + Padded(n, width - 1)
  }

  /** Format "yyyy-MM-dd HH". */
  function DayHourText(v: Value): string
    requires v.DateTime?
  {
    Padded(v.year, 4) + "-" + Padded(v.month, 2) + "-" + Padded(v.day, 2) + " " + Padded(v.hour, 2)
  }

  /** Format "yyyy-MM-dd HH:mm:ss.ff". */
  function StampText(v: Value): string
    requires v.DateTime?
  {
    DayHourText(v) + ([v.colon] + (Padded(v.minute, 2) + ([v.colon] + (Padded(v.second, 2) + "." + Padded(v.hundredths, 2)))))
  }

  function Digits(ds: seq<nat>): string {
    if ds == [] then "" else [Digit(ds[0] % 10)] + Digits(ds[1..])
  }

  function ExponentText(exponent: Option<int>): string {
    match exponent
    case None => ""
    case Some(e) => if e < 0 then "E-" + Padded(-e, 2) else "E+" + Padded(e, 2)
  }

  function FractionText(v: Value): string
    requires v.Fraction?
  {
    (if v.negative then "-" else "") + (ToDecimal(v.whole)
    + ((if v.decimals == [] then "" else [v.point] + Digits(v.decimals)) + ExponentText(v.exponent)))
  }

  function GetDbValue(v: Value): Option<string> {
    match v
    case Null => Some("null")
    case Text(s) => Some("'" + ReplaceAll(s, "'", "''") + "'")
    case Guid(nibbles) => Some("'" + GuidText(nibbles, 0) + "'")
    case DateTime(_, _, _, _, _, _, _, _) => Some("N'" + StampText(v) + "'")
    case Bool(b) => Some(if b then "1" else "0")
    case Bytes(bytes) => Some("0x" + Hex(bytes))
    case Whole(n) => Some(IntText(n))
    case Fraction(_, _, _, _, _) => Some(FractionText(v))
    case Other => None
  }

  // ----- reading strings -----

  /** The text a doubled-quote literal stands for. */
  function Undouble(s: string): string
    decreases |s|
  {
    if s == "" then ""
    else if |s| > 1 && s[0] == '\'' && s[1] == '\'' then "'" + Undouble(s[2..])
    else [s[0]] + Undouble(s[1..])
  }

  function ReadText(literal: string): Option<string> {
    if |literal| >= 2 && literal[0] == '\'' && literal[|literal| - 1] == '\''
    then Some(Undouble(literal[1..|literal| - 1]))
    else None
  }

  lemma QuoteStart(s: string)
    requires s != ""
    ensures StartsWith(s, "'") <==> s[0] == '\''
  {
    assert s[..1] == [s[0]];
  }

  lemma {:induction false} UndoubleReplaced(s: string)
    ensures Undouble(ReplaceAll(s, "'", "''")) == s
  {
    if s != "" {
      QuoteStart(s);
      UndoubleReplaced(s[1..]);
      assert s == [s[0]] + s[1..];
      var rest := ReplaceAll(s[1..], "'", "''");
      if s[0] == '\'' {
        assert ("''" + rest)[2..] == rest;
      } else {
        assert ([s[0]] + rest)[1..] == rest;
      }
    }
  }

  /** A string comes back out of the literal it is rendered as. */
  lemma TextRoundTrip(s: string)
    ensures GetDbValue(Text(s)).Some? && ReadText(GetDbValue(Text(s)).value) == Some(s)
  {
    var inside := ReplaceAll(s, "'", "''");
    var literal := "'" + inside + "'";
    assert literal[1..|literal| - 1] == inside;
    UndoubleReplaced(s);
  }

  // ----- reading other values -----

  datatype Kind = NullKind | TextKind | GuidKind | DateKind | BoolKind | BytesKind | WholeKind | FractionKind

  /** The kind of a value whose parts are within the ranges that its literal has room for. */
  function KindOf(v: Value): Option<Kind> {
    match v
    case Null => Some(NullKind)
    case Text(_) => Some(TextKind)
    case Guid(nibbles) => if |nibbles| == 32 && AllBelow(nibbles, 16) then Some(GuidKind) else None
    case DateTime(year, month, day, hour, minute, second, hundredths, _) =>
      if year < 10000 && month < 100 && day < 100 && hour < 100 && minute < 100 && second < 100 && hundredths < 100
      then Some(DateKind) else None
    case Bool(_) => Some(BoolKind)
    case Bytes(_) => Some(BytesKind)
    case Whole(_) => Some(WholeKind)
    case Fraction(_, _, point, decimals, _) =>
      if AllBelow(decimals, 10) && !IsDigit(point) && point != 'E' && (decimals == [] ==> point == '.')
      then Some(FractionKind) else None
    case Other => None
  }

  predicate AllBelow(ns: seq<nat>, n: nat) {
    forall i :: 0 <= i < |ns| ==> ns[i] < n
  }

  function HexValue(c: char): nat {
    if '0' <= c <= '9' then (c as int - '0' as int) else if 'A' <= c <= 'F' then 10 + (c as int - 'A' as int) else 0
  }

  function UnHex(s: string): seq<Byte>
    decreases |s|
  {
    if |s| < 2 then [] else [HexValue(s[0]) * 16 + HexValue(s[1])] + UnHex(s[2..])
  }

  /** Digits in lower case in groups of 8, 4, 4, 4 and 12, from the i-th on. */
  function ReadNibbles(s: string, i: nat): Option<seq<nat>>
    decreases |s|
  {
    if s == "" then Some([])
    else if i in {8, 12, 16, 20} && (s[0] != '-' || |s| == 1) then None
    else
      var t := if i in {8, 12, 16, 20} then s[1..] else s;
      var rest := ReadNibbles(t[1..], i + 1);
      if rest == None then None
      else if IsDigit(t[0]) then Some([DigitValue(t[0])] + rest.value)
      else if 'a' <= t[0] <= 'f' then Some([10 + (t[0] as int - 'a' as int)] + rest.value)
      else None
  }

  /** Number with the given digits. */
  function ReadDigits(s: string): nat {
    if AllDigits(s) then ParseInt(s) else 0
  }

  /** Year, month and day between dashes, and the hour. */
  predicate IsDay(s: string) {
    |s| == 13 && s[4] == s[7] == '-' && s[10] == ' '
  }

  /** Minute and second, each behind one sign, and hundredths. */
  predicate IsTime(s: string) {
    |s| == 9 && s[0] == s[3] && s[6] == '.'
  }

  function ReadStamp(s: string): Option<Value> {
    if |s| == 22 && IsDay(s[..13]) && IsTime(s[13..]) then
      var day, time := s[..13], s[13..];
      Some(DateTime(ReadDigits(day[..4]), ReadDigits(day[5..7]), ReadDigits(day[8..10]), ReadDigits(day[11..]),
                    ReadDigits(time[1..3]), ReadDigits(time[4..6]), ReadDigits(time[7..]), time[0]))
    else None
  }

  function ReadExponent(s: string): Option<int> {
    if |s| > 1 && s[0] == 'E' && s[1] == '-' then Some(0 - ReadDigits(s[2..]))
    else if |s| > 1 && s[0] == 'E' && s[1] == '+' then Some(ReadDigits(s[2..]))
    else None
  }

  function DigitValues(s: string): seq<nat>
    requires AllDigits(s)
  {
    if s == "" then [] else [DigitValue(s[0])] + DigitValues(s[1..])
  }

  lemma {:induction false} RunOfDigits(s: string)
    ensures DigitRun(s) <= |s| && AllDigits(s[..DigitRun(s)])
  {
    if s != "" && IsDigit(s[0]) {
      RunOfDigits(s[1..]);
      assert s[..DigitRun(s)] == [s[0]] + s[1..][..DigitRun(s[1..])];
    }
  }

  /** What separates the decimals from the whole part, the decimals, and an exponent. */
  function ReadDecimals(negative: bool, whole: nat, s: string): Value {
    if s == "" || s[0] == 'E' then Fraction(negative, whole, '.', [], ReadExponent(s))
    else
      RunOfDigits(s[1..]);
      var m := DigitRun(s[1..]);
      Fraction(negative, whole, s[0], DigitValues(s[1..][..m]), ReadExponent(s[1..][m..]))
  }

  function ReadUnsigned(negative: bool, s: string): Value {
    RunOfDigits(s);
    var n := DigitRun(s);
    ReadDecimals(negative, ParseInt(s[..n]), s[n..])
  }

  function ReadFraction(s: string): Value {
    if s != "" && s[0] == '-' then ReadUnsigned(true, s[1..]) else ReadUnsigned(false, s)
  }

  predicate Between(literal: string, before: string) {
    before <= literal && |before| < |literal| && literal[|literal| - 1] == '\''
  }

  /** What a literal stands for where a column of some kind is expected. */
  function ReadValue(kind: Kind, literal: string): Option<Value> {
    match kind
    case NullKind => if literal == "null" then Some(Null) else None
    case TextKind => (match ReadText(literal) case Some(s) => Some(Text(s)) case None => None)
    case GuidKind =>
      if Between(literal, "'") then
        (match ReadNibbles(literal[1..|literal| - 1], 0) case Some(ns) => Some(Guid(ns)) case None => None)
      else None
    case DateKind => if Between(literal, "N'") then ReadStamp(literal[2..|literal| - 1]) else None
    case FractionKind => Some(ReadFraction(literal))
    case BoolKind => if literal == "1" then Some(Bool(true)) else if literal == "0" then Some(Bool(false)) else None
    case BytesKind => if "0x" <= literal then Some(Bytes(UnHex(literal[2..]))) else None
    case WholeKind => (match ReadWhole(literal) case Some(n) => Some(Whole(n)) case None => None)
  }

  lemma {:induction false} HexRoundTrip(bytes: seq<Byte>)
    ensures UnHex(Hex(bytes)) == bytes
  {
    if bytes != [] {
      HexRoundTrip(bytes[1..]);
      var s := Hex(bytes);
      assert s[2..] == Hex(bytes[1..]);
      assert bytes == [bytes[0]] + bytes[1..];
    }
  }

  lemma ReadNibble(n: nat, rest: string, i: nat)
    requires n < 16 && ReadNibbles(rest, i + 1).Some?
    ensures var t := [if n < 10 then '0' + n as char else 'a' + (n - 10) as char] + rest;
            ReadNibbles((if i == 8 || i == 12 || i == 16 || i == 20 then "-" else "") + t, i)
            == Some([n] + ReadNibbles(rest, i + 1).value)
  {
    var t := [if n < 10 then '0' + n as char else 'a' + (n - 10) as char] + rest;
    assert t[1..] == rest && ("-" + t)[1..] == t && "" + t == t;
  }

  lemma {:induction false} GuidRoundTrip(nibbles: seq<nat>, i: nat)
    requires i <= |nibbles| && AllBelow(nibbles, 16)
    ensures ReadNibbles(GuidText(nibbles, i), i) == Some(nibbles[i..])
    decreases |nibbles| - i
  {
    hide ReadNibbles;
    if i < |nibbles| {
      GuidRoundTrip(nibbles, i + 1);
      ReadNibble(nibbles[i], GuidText(nibbles, i + 1), i);
      assert nibbles[i..] == [nibbles[i]] + nibbles[i + 1..];
    } else {
      NoNibbles(i);
      assert nibbles[i..] == [];
    }
  }

  lemma NoNibbles(i: nat)
    ensures ReadNibbles("", i) == Some([])
  {
  }

  // ----- reading padded numbers -----

  lemma {:induction false} ZeroBefore(s: string)
    requires AllDigits(s)
    ensures AllDigits("0" + s) && ParseInt("0" + s) == ParseInt(s)
  {
    var z := "0" + s;
    if s == "" {
      assert z == "0" && z[..0] == "";
    } else {
      assert z[..|z| - 1] == "0" + s[..|s| - 1];
      ZeroBefore(s[..|s| - 1]);
    }
  }

  lemma {:induction false} PaddedReads(n: nat, width: nat)
    ensures AllDigits(Padded(n, width)) && ParseInt(Padded(n, width)) == n && |Padded(n, width)| >= width
    ensures |ToDecimal(n)| <= width ==> |Padded(n, width)| == width
    decreases width
  {
    DecimalRoundTrip(n);
    if |ToDecimal(n)| < width {
      PaddedReads(n, width - 1);
      ZeroBefore(Padded(n, width - 1));
    }
  }

  function Power10(n: nat): nat {
    if n == 0 then 1 else 10 * Power10(n - 1)
  }

  lemma {:induction false} DecimalWidth(n: nat, width: nat)
    requires width > 0 && n < Power10(width)
    ensures |ToDecimal(n)| <= width
  {
    if n >= 10 {
      assert width > 1;
      DecimalWidth(n / 10, width - 1);
    }
  }

  lemma TwoDigits(n: nat)
    requires n < 100
    ensures |Padded(n, 2)| == 2 && ReadDigits(Padded(n, 2)) == n
  {
    assert Power10(2) == 100;
    DecimalWidth(n, 2);
    PaddedReads(n, 2);
  }

  lemma FourDigits(n: nat)
    requires n < 10000
    ensures |Padded(n, 4)| == 4 && ReadDigits(Padded(n, 4)) == n
  {
    assert Power10(4) == 10000;
    DecimalWidth(n, 4);
    PaddedReads(n, 4);
  }

  lemma StampRoundTrip(v: Value)
    requires v.DateTime? && KindOf(v) == Some(DateKind)
    ensures ReadStamp(StampText(v)) == Some(v)
  {
    hide Padded, ReadDigits, IsDay, IsTime;
    FourDigits(v.year);
    TwoDigits(v.month);
    TwoDigits(v.day);
    TwoDigits(v.hour);
    TwoDigits(v.minute);
    TwoDigits(v.second);
    TwoDigits(v.hundredths);
    var late := Padded(v.second, 2) + "." + Padded(v.hundredths, 2);
    var day, time := DayHourText(v), [v.colon] + (Padded(v.minute, 2) + ([v.colon] + late));
    DaySlices(Padded(v.year, 4), Padded(v.month, 2), Padded(v.day, 2), Padded(v.hour, 2));
    TimeSlices(v.colon, Padded(v.minute, 2), Padded(v.second, 2), Padded(v.hundredths, 2));
    assert StampText(v) == day + time && (day + time)[..13] == day && (day + time)[13..] == time;
  }

  lemma DaySlices(y: string, mo: string, d: string, h: string)
    requires |y| == 4 && |mo| == |d| == |h| == 2
    ensures var s := y + "-" + mo + "-" + d + " " + h;
            IsDay(s) && s[..4] == y && s[5..7] == mo && s[8..10] == d && s[11..] == h
  {
    var s := y + "-" + mo + "-" + d + " " + h;
    assert y + "-" + mo + "-" + d == s[..10] && y + "-" + mo == s[..7];
  }

  lemma TimeSlices(colon: char, mi: string, sec: string, f: string)
    requires |mi| == |sec| == |f| == 2
    ensures var s := [colon] + (mi + ([colon] + (sec + "." + f)));
            IsTime(s) && s[0] == colon && s[1..3] == mi && s[4..6] == sec && s[7..] == f
  {
    var s := [colon] + (mi + ([colon] + (sec + "." + f)));
    assert s[1..] == mi + ([colon] + (sec + "." + f)) && s[3..] == [colon] + (sec + "." + f) && s[4..] == sec + "." + f;
  }

  lemma {:induction false} RunStops(a: string, rest: string)
    requires AllDigits(a) && (rest != "" ==> !IsDigit(rest[0]))
    ensures DigitRun(a + rest) == |a| && (a + rest)[..|a|] == a && (a + rest)[|a|..] == rest
  {
    if a == "" {
      assert a + rest == rest;
    } else {
      assert (a + rest)[1..] == a[1..] + rest;
      RunStops(a[1..], rest);
    }
  }

  lemma {:induction false} DigitsRoundTrip(ds: seq<nat>)
    requires AllBelow(ds, 10)
    ensures AllDigits(Digits(ds)) && DigitValues(Digits(ds)) == ds
  {
    if ds != [] {
      DigitsRoundTrip(ds[1..]);
      var first, rest := Digit(ds[0] % 10), Digits(ds[1..]);
      assert Digits(ds) == [first] + rest && ([first] + rest)[1..] == rest;
      assert IsDigit(first) && DigitValue(first) == ds[0];
      assert ds == [ds[0]] + ds[1..];
    }
  }

  lemma ExponentRoundTrip(exponent: Option<int>)
    ensures ReadExponent(ExponentText(exponent)) == exponent
    ensures var s := ExponentText(exponent); s != "" ==> s[0] == 'E'
  {
    if exponent.Some? {
      var e := exponent.value;
      var n := if e < 0 then -e else e;
      PaddedReads(n, 2);
      assert ("E-" + Padded(n, 2))[2..] == Padded(n, 2) && ("E+" + Padded(n, 2))[2..] == Padded(n, 2);
    }
  }

  lemma DecimalsShown(negative: bool, whole: nat, point: char, digits: string, end: string)
    requires AllDigits(digits) && (end != "" ==> !IsDigit(end[0])) && point != 'E'
    ensures ReadDecimals(negative, whole, [point] + digits + end)
            == Fraction(negative, whole, point, DigitValues(digits), ReadExponent(end))
  {
    hide ReadExponent, DigitValues, DigitRun;
    var tail := [point] + digits + end;
    RunStops(digits, end);
    assert tail[1..] == digits + end;
  }

  lemma DecimalsRoundTrip(v: Value, digits: string, end: string)
    requires v.Fraction? && KindOf(v) == Some(FractionKind)
    requires digits == Digits(v.decimals) && end == ExponentText(v.exponent)
    ensures ReadDecimals(v.negative, v.whole, (if v.decimals == [] then "" else [v.point] + digits) + end) == v
  {
    ExponentRoundTrip(v.exponent);
    DigitsRoundTrip(v.decimals);
    hide ReadExponent, ExponentText, Digits, DigitValues, ReadDecimals;
    if v.decimals == [] {
      NoDecimals(v.negative, v.whole, end);
      assert "" + end == end;
    } else {
      DecimalsShown(v.negative, v.whole, v.point, digits, end);
    }
  }

  lemma NoDecimals(negative: bool, whole: nat, end: string)
    requires end == "" || end[0] == 'E'
    ensures ReadDecimals(negative, whole, end) == Fraction(negative, whole, '.', [], ReadExponent(end))
  {
  }

  lemma UnsignedRoundTrip(negative: bool, number: string, tail: string)
    requires AllDigits(number) && (tail != "" ==> !IsDigit(tail[0]))
    ensures ReadUnsigned(negative, number + tail) == ReadDecimals(negative, ParseInt(number), tail)
  {
    hide ReadDecimals, ParseInt, DigitRun;
    RunStops(number, tail);
  }

  lemma FractionRoundTrip(v: Value)
    requires v.Fraction? && KindOf(v) == Some(FractionKind)
    ensures ReadFraction(FractionText(v)) == v
  {
    hide ToDecimal, ExponentText, Digits, ReadUnsigned, ReadDecimals;
    var number, digits, end := ToDecimal(v.whole), Digits(v.decimals), ExponentText(v.exponent);
    var tail := (if v.decimals == [] then "" else [v.point] + digits) + end;
    var t := number + tail;
    ExponentRoundTrip(v.exponent);
    DecimalsRoundTrip(v, digits, end);
    assert tail != "" ==> tail[0] == if v.decimals == [] then end[0] else v.point;
    UnsignedRoundTrip(v.negative, number, tail);
    DecimalRoundTrip(v.whole);
    assert t[0] == number[0] && IsDigit(number[0]);
    assert ("-" + t)[1..] == t && "" + t == t;
  }

  /** A value comes back out of the literal it is rendered as. */
  lemma ValueRoundTrip(v: Value)
    requires KindOf(v).Some?
    ensures GetDbValue(v).Some? && ReadValue(KindOf(v).value, GetDbValue(v).value) == Some(v)
  {
    hide ReadText, ReadNibbles, GuidText, ReadStamp, StampText, ReadFraction, FractionText, UnHex, Hex, ReadWhole, IntText;
    match v
    case Null =>
    case Text(s) => TextRoundTrip(s);
    case Guid(nibbles) =>
      GuidRoundTrip(nibbles, 0);
      Quoted("'", GuidText(nibbles, 0));
      assert nibbles[0..] == nibbles;
    case DateTime(_, _, _, _, _, _, _, _) =>
      StampRoundTrip(v);
      Quoted("N'", StampText(v));
    case Bool(_) => assert "1" != "0";
    case Bytes(bytes) =>
      HexRoundTrip(bytes);
      assert ("0x" + Hex(bytes))[2..] == Hex(bytes) && ("0x" + Hex(bytes))[..2] == "0x";
    case Whole(n) => WholeRoundTrip(n);
    case Fraction(_, _, _, _, _) => FractionRoundTrip(v);
  }

  lemma Quoted(before: string, text: string)
    ensures var literal := before + text + "'";
            Between(literal, before) && literal[|before|..|literal| - 1] == text
  {
  }

  // ----- one cell -----

  /** How far a cell reaches: to the first comma or closing parenthesis outside quotes. */
  function CellLength(quoted: bool, s: string): (n: nat)
    ensures n <= |s|
    ensures n < |s| ==> s[n] == ',' || s[n] == ')'
    decreases |s|
  {
    if s == "" then 0
    else if s[0] == '\'' then 1 + CellLength(!quoted, s[1..])
    else if !quoted && (s[0] == ',' || s[0] == ')') then 0
    else 1 + CellLength(quoted, s[1..])
  }

  /** Quotes pair up and no comma or closing parenthesis stands outside them. */
  predicate Solid(quoted: bool, s: string)
    decreases |s|
  {
    if s == "" then !quoted
    else if s[0] == '\'' then Solid(!quoted, s[1..])
    else (quoted || (s[0] != ',' && s[0] != ')')) && Solid(quoted, s[1..])
  }

  /** A cell's text is read back, whatever follows its separator, exactly when it is solid. */
  lemma {:induction false} CellLengthIff(quoted: bool, cell: string, separator: char, rest: string)
    requires separator == ',' || separator == ')'
    ensures CellLength(quoted, cell + ([separator] + rest)) == |cell| <==> Solid(quoted, cell)
    decreases |cell|
  {
    var s := cell + ([separator] + rest);
    if cell == "" {
      assert s == [separator] + rest;
    } else {
      assert s[0] == cell[0] && s[1..] == cell[1..] + ([separator] + rest);
      CellLengthIff(if cell[0] == '\'' then !quoted else quoted, cell[1..], separator, rest);
    }
  }

  predicate PlainText(s: string) {
    forall i :: 0 <= i < |s| ==> s[i] != '\'' && s[i] != ',' && s[i] != ')'
  }

  /** Plain text changes nothing of what follows it. */
  lemma {:induction false} PlainSkip(quoted: bool, s: string, rest: string)
    requires PlainText(s)
    ensures Solid(quoted, s + rest) == Solid(quoted, rest)
    decreases |s|
  {
    if s == "" {
      assert s + rest == rest;
    } else {
      assert (s + rest)[1..] == s[1..] + rest;
      PlainSkip(quoted, s[1..], rest);
    }
  }

  lemma PlainSolid(quoted: bool, s: string)
    requires PlainText(s)
    ensures Solid(quoted, s) == !quoted
  {
    PlainSkip(quoted, s, "");
    assert s + "" == s;
  }

  lemma {:induction false} SolidReplaced(s: string)
    ensures Solid(true, ReplaceAll(s, "'", "''") + "'")
  {
    if s == "" {
      assert "'"[1..] == "";
    } else {
      QuoteStart(s);
      SolidReplaced(s[1..]);
      var rest := ReplaceAll(s[1..], "'", "''") + "'";
      var all := ReplaceAll(s, "'", "''") + "'";
      if s[0] == '\'' {
        assert s[|"'"|..] == s[1..];
        assert all == "''" + rest && all[1..] == "'" + rest && ("'" + rest)[1..] == rest;
      } else {
        assert all == [s[0]] + rest && all[1..] == rest;
      }
    }
  }

  // ----- plain texts -----

  lemma DigitsPlain(s: string)
    requires AllDigits(s)
    ensures PlainText(s)
  {
  }

  lemma {:induction false} PaddedPlain(n: nat, width: nat)
    ensures PlainText(Padded(n, width))
    decreases width
  {
    DigitsPlain(ToDecimal(n));
    if |ToDecimal(n)| < width {
      PaddedPlain(n, width - 1);
    }
  }

  lemma {:induction false} HexPlain(bytes: seq<Byte>)
    ensures PlainText(Hex(bytes))
  {
    if bytes != [] {
      HexPlain(bytes[1..]);
    }
  }

  lemma {:induction false} GuidPlain(nibbles: seq<nat>, i: nat)
    requires i <= |nibbles|
    ensures PlainText(GuidText(nibbles, i))
    decreases |nibbles| - i
  {
    if i < |nibbles| {
      GuidPlain(nibbles, i + 1);
    }
  }

  lemma {:induction false} DecimalsPlain(ds: seq<nat>)
    ensures PlainText(Digits(ds))
  {
    if ds != [] {
      DecimalsPlain(ds[1..]);
    }
  }

  lemma QuotedPlain(s: string)
    requires PlainText(s)
    ensures Solid(true, s + "'")
  {
    PlainSkip(true, s, "'");
    assert "'"[1..] == "";
  }

  // ----- dates and numbers -----

  lemma DayHourPlain(v: Value)
    requires v.DateTime?
    ensures PlainText(DayHourText(v))
  {
    PaddedPlain(v.year, 4);
    PaddedPlain(v.month, 2);
    PaddedPlain(v.day, 2);
    PaddedPlain(v.hour, 2);
  }

  /** Whatever separates hours from minutes separates minutes from seconds, so quotes would pair up. */
  lemma StampSolid(v: Value)
    requires v.DateTime?
    ensures Solid(true, StampText(v) + "'")
  {
    hide Padded, DayHourText;
    PaddedPlain(v.minute, 2);
    PaddedPlain(v.second, 2);
    PaddedPlain(v.hundredths, 2);
    DayHourPlain(v);
    StampPieces(DayHourText(v), v.colon, Padded(v.minute, 2), Padded(v.second, 2) + "." + Padded(v.hundredths, 2));
  }

  lemma StampPieces(hours: string, colon: char, minutes: string, seconds: string)
    requires PlainText(hours) && PlainText(minutes) && PlainText(seconds)
    ensures Solid(true, hours + ([colon] + (minutes + ([colon] + seconds))) + "'")
  {
    hide PlainText;
    var end := seconds + "'";
    var later := minutes + ([colon] + end);
    QuotedPlain(seconds);
    SeparatorStep(colon, end);
    PlainSkip(colon != '\'', minutes, [colon] + end);
    SeparatorStep(colon, later);
    PlainSkip(true, hours, [colon] + later);
    assert hours + ([colon] + (minutes + ([colon] + seconds))) + "'" == hours + ([colon] + later);
  }

  lemma SeparatorStep(c: char, rest: string)
    ensures Solid(true, [c] + rest) == Solid(c != '\'', rest)
    ensures c == '\'' ==> Solid(false, [c] + rest) == Solid(true, rest)
  {
    assert ([c] + rest)[1..] == rest;
  }

  /** The decimal separator neither ends a cell nor opens a quote, or is not shown. */
  predicate PointOk(v: Value) {
    v.Fraction? && v.decimals != [] ==> v.point != ',' && v.point != ')' && v.point != '\''
  }

  lemma ExponentPlain(exponent: Option<int>)
    ensures PlainText(ExponentText(exponent))
  {
    if exponent.Some? {
      PaddedPlain(if exponent.value < 0 then -exponent.value else exponent.value, 2);
    }
  }

  lemma FractionSolidIff(v: Value)
    requires v.Fraction?
    ensures Solid(false, FractionText(v)) <==> PointOk(v)
  {
    hide PlainText;
    var sign := if v.negative then "-" else "";
    var end := ExponentText(v.exponent);
    var tail := (if v.decimals == [] then "" else [v.point] + Digits(v.decimals)) + end;
    ExponentPlain(v.exponent);
    DecimalsPlain(v.decimals);
    DigitsPlain(ToDecimal(v.whole));
    PlainSign(sign);
    PlainSkip(false, sign, ToDecimal(v.whole) + tail);
    PlainSkip(false, ToDecimal(v.whole), tail);
    if v.decimals == [] {
      assert tail == end;
      PlainSolid(false, end);
    } else {
      var digits := Digits(v.decimals);
      assert tail == [v.point] + (digits + end) && tail[1..] == digits + end;
      PlainSkip(v.point == '\'', digits, end);
      PlainSolid(v.point == '\'', end);
    }
  }

  lemma PlainSign(sign: string)
    requires sign == "-" || sign == ""
    ensures PlainText(sign)
  {
  }

  /** A literal stands as one cell, never empty, if and only if the decimal separator lets it. */
  lemma LiteralSolidIff(v: Value)
    requires GetDbValue(v).Some?
    ensures GetDbValue(v).value != ""
    ensures Solid(false, GetDbValue(v).value) <==> PointOk(v)
  {
    hide PlainText, FractionText, StampText, IntText;
    var cell := GetDbValue(v).value;
    match v
    case Null => PlainWords();
    case Text(s) =>
      SolidReplaced(s);
      assert cell[1..] == ReplaceAll(s, "'", "''") + "'";
    case Guid(nibbles) =>
      GuidPlain(nibbles, 0);
      QuotedPlain(GuidText(nibbles, 0));
      assert cell[1..] == GuidText(nibbles, 0) + "'";
    case DateTime(_, _, _, _, _, _, _, _) =>
      StampSolid(v);
      assert cell[1..][1..] == StampText(v) + "'";
    case Bool(_) => PlainWords();
    case Bytes(bytes) =>
      HexPlain(bytes);
      PlainWords();
      PlainSkip(false, "0x", Hex(bytes));
      PlainSolid(false, Hex(bytes));
    case Whole(n) => WholeSolid(n);
    case Fraction(_, _, _, _, _) =>
      FractionSolidIff(v);
      FractionShown(v);
  }

  lemma WholeSolid(n: int)
    ensures IntText(n) != "" && Solid(false, IntText(n))
  {
    var digits := ToDecimal(if n < 0 then -n else n);
    DigitsPlain(digits);
    PlainSolid(false, digits);
    PlainSign("-");
    PlainSkip(false, "-", digits);
  }

  lemma FractionShown(v: Value)
    requires v.Fraction?
    ensures FractionText(v) != ""
  {
  }

  lemma PlainWords()
    ensures Solid(false, "null") && Solid(false, "1") && Solid(false, "0") && PlainText("0x")
  {
    PlainSolid(false, "null");
    PlainSolid(false, "1");
    PlainSolid(false, "0");
  }
}
