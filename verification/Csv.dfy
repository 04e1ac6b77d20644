/** The CSV an export writes, read back by a parser for section 2 of RFC 4180 with LF line ends. */
module Csv {
  import opened Prelude
  import KeyText

  /** A cell after it was turned into text; `null` and `undefined` stay apart from the empty text. */
  datatype Cell = Null | Text(text: string)

  /** One row object: its keys in order, and its values. */
  datatype Record = Record(keys: seq<string>, values: map<string, Cell>)

  /** What a reader sees: a quoted field, or one without quotes. */
  datatype Field = Quoted(text: string) | Bare(text: string)

  // ------------------------------------------------------------ the printer

  /** The characters a spreadsheet takes for the start of a formula. */
  predicate StartsFormula(text: string) {
    text != "" && text[0] in {'=', '+', '-', '@', '\t', '\r'}
  }

  function Guard(text: string): string { if StartsFormula(text) then "'" + text else text }

  /** `replace(/"/g, '""')`. */
  function Doubled(text: string): string {
    if text == "" then "" else (if text[0] == '\"' then "\"\"" else [text[0]]) + Doubled(text[1..])
  }

  function Escape(cell: Cell): string {
    if cell.Null? then "" else "\"" + Doubled(Guard(cell.text)) + "\""
  }

  function Map<A, B>(f: A -> B, items: seq<A>): (mapped: seq<B>)
    ensures |mapped| == |items|
    ensures forall i :: 0 <= i < |items| ==> mapped[i] == f(items[i])
  {
    if items == [] then [] else [f(items[0])] + Map(f, items[1..])
  }

  function CellOf(row: Record, key: string): Cell { if key in row.values then row.values[key] else Null }

  /** The table `toCsv` prints: the keys of the first row, and each row's cells under them. */
  function Table(rows: seq<Record>): seq<seq<Cell>>
    requires rows != []
  {
    [Map(key => Text(key), rows[0].keys)] + Map((row: Record) => Map(key => CellOf(row, key), rows[0].keys), rows)
  }

  function Line(cells: seq<Cell>): string { KeyText.Join(Map(Escape, cells), ',') }

  function Lines(table: seq<seq<Cell>>): string { KeyText.Join(Map(Line, table), '\n') }

  function ToCsv(rows: seq<Record>): string { if rows == [] then "" else Lines(Table(rows)) }

  // ------------------------------------------------------------ the reader

  datatype Parsed<T> = Bad | Good(value: T, rest: string)

  /** The text up to the closing quote; two quotes stand for one. */
  function ParseQuoted(s: string): (p: Parsed<string>)
    ensures p.Good? ==> |p.rest| < |s|
  {
    if s == "" then Bad
    else if s[0] == '\"' then
      if |s| > 1 && s[1] == '\"' then
        var p := ParseQuoted(s[2..]);
        if p.Bad? then Bad else Good("\"" + p.value, p.rest)
      else Good("", s[1..])
    else
      var p := ParseQuoted(s[1..]);
      if p.Bad? then Bad else Good([s[0]] + p.value, p.rest)
  }

  /** A field without quotes ends before a comma or a line end, and holds no quote. */
  function ParseBare(s: string): (p: Parsed<string>)
    ensures p.Good? ==> |p.rest| <= |s|
  {
    if s == "" || s[0] == ',' || s[0] == '\n' then Good("", s)
    else if s[0] == '\"' then Bad
    else
      var p := ParseBare(s[1..]);
      if p.Bad? then Bad else Good([s[0]] + p.value, p.rest)
  }

  function ParseField(s: string): (p: Parsed<Field>)
    ensures p.Good? ==> |p.rest| <= |s|
  {
    if s != "" && s[0] == '\"' then
      var p := ParseQuoted(s[1..]);
      if p.Bad? then Bad else Good(Quoted(p.value), p.rest)
    else
      var p := ParseBare(s);
      if p.Bad? then Bad else Good(Bare(p.value), p.rest)
  }

  function ParseRecord(s: string): (p: Parsed<seq<Field>>)
    ensures p.Good? ==> |p.rest| <= |s|
    decreases |s|
  {
    var first := ParseField(s);
    if first.Bad? then Bad
    else if first.rest != "" && first.rest[0] == ',' then
      var more := ParseRecord(first.rest[1..]);
      if more.Bad? then Bad else Good([first.value] + more.value, more.rest)
    else Good([first.value], first.rest)
  }

  /** Records end with a line end; the last one may do without. */
  function ParseFile(s: string): Option<seq<seq<Field>>>
    decreases |s|
  {
    var first := ParseRecord(s);
    if first.Bad? then None
    else if first.rest == "" || first.rest == "\n" then Some([first.value])
    else if first.rest[0] != '\n' then None
    else
      var more := ParseFile(first.rest[1..]);
      if more.None? then None else Some([first.value] + more.value)
  }

  // ------------------------------------------------------------ one field

  lemma {:induction false} QuotedReadsBack(text: string, rest: string)
    requires rest == "" || rest[0] != '\"'
    ensures ParseQuoted(Doubled(text) + "\"" + rest) == Good(text, rest)
    decreases |text|
  {
    var s := Doubled(text) + "\"" + rest;
    if text == "" {
      assert s == "\"" + rest;
    } else {
      QuotedReadsBack(text[1..], rest);
      var tail := Doubled(text[1..]) + "\"" + rest;
      assert text == [text[0]] + text[1..];
      if text[0] == '\"' {
        assert s == "\"\"" + tail;
        assert s[2..] == tail;
      } else {
        assert s == [text[0]] + tail;
        assert s[1..] == tail;
      }
    }
  }

  /** What a reader must see in a cell's place. */
  function FieldOf(cell: Cell): Field { if cell.Null? then Bare("") else Quoted(Guard(cell.text)) }

  predicate EndsField(rest: string) { rest == "" || rest[0] == ',' || rest[0] == '\n' }

  lemma {:induction false} FieldReadsBack(cell: Cell, rest: string)
    requires EndsField(rest)
    ensures ParseField(Escape(cell) + rest) == Good(FieldOf(cell), rest)
  {
    if cell.Text? {
      var text := Guard(cell.text);
      QuotedReadsBack(text, rest);
      hide Doubled, Guard, ParseQuoted;
      assert Escape(cell) + rest == "\"" + (Doubled(text) + "\"" + rest);
    } else {
      assert Escape(cell) + rest == rest;
    }
  }

  // ------------------------------------------------------------ the whole file

  function Fields(cells: seq<Cell>): seq<Field> { Map(FieldOf, cells) }

  /** Printing a list of parts, the first apart from the others. */
  lemma JoinedCons<A>(f: A -> string, items: seq<A>, separator: char)
    requires |items| > 1
    ensures KeyText.Join(Map(f, items), separator) == f(items[0]) + ([separator] + KeyText.Join(Map(f, items[1..]), separator))
  {
    assert Map(f, items)[1..] == Map(f, items[1..]);
    var first, others := f(items[0]), KeyText.Join(Map(f, items[1..]), separator);
    assert Map(f, items)[0] == first;
    assert first + [separator] + others == first + ([separator] + others);
  }

  lemma MapCons<A, B>(f: A -> B, items: seq<A>)
    requires items != []
    ensures Map(f, items) == [f(items[0])] + Map(f, items[1..])
  {
  }

  lemma LineCons(cells: seq<Cell>)
    requires |cells| > 1
    ensures Line(cells) == Escape(cells[0]) + ("," + Line(cells[1..])) && Fields(cells) == [FieldOf(cells[0])] + Fields(cells[1..])
  {
    JoinedCons(Escape, cells, ',');
    MapCons(FieldOf, cells);
    hide Map, Escape, FieldOf, KeyText.Join;
  }

  lemma ParseRecordCons(s: string, first: Field, tail: string, more: seq<Field>, rest: string)
    requires ParseField(s) == Good(first, "," + tail) && ParseRecord(tail) == Good(more, rest)
    ensures ParseRecord(s) == Good([first] + more, rest)
  {
    hide ParseField;
    assert ("," + tail)[1..] == tail;
  }

  lemma Reassociate(a: string, b: string, c: string)
    ensures (a + ("," + b)) + c == a + ("," + (b + c))
  {
  }

  lemma OneFieldReadsBack(cell: Cell, rest: string)
    requires rest == "" || rest[0] == '\n'
    ensures Line([cell]) == Escape(cell) && ParseRecord(Line([cell]) + rest) == Good(Fields([cell]), rest)
  {
    FieldReadsBack(cell, rest);
    hide Escape, ParseField, FieldOf;
    assert Fields([cell]) == [FieldOf(cell)];
  }

  lemma {:induction false} RecordReadsBack(cells: seq<Cell>, rest: string)
    requires cells != [] && (rest == "" || rest[0] == '\n')
    ensures ParseRecord(Line(cells) + rest) == Good(Fields(cells), rest)
    decreases |cells|
  {
    hide Line, Fields, ParseRecord, ParseField, Escape, FieldOf;
    if |cells| == 1 {
      assert cells == [cells[0]];
      OneFieldReadsBack(cells[0], rest);
    } else {
      var tail := Line(cells[1..]) + rest;
      RecordReadsBack(cells[1..], rest);
      FieldReadsBack(cells[0], "," + tail);
      LineCons(cells);
      Reassociate(Escape(cells[0]), Line(cells[1..]), rest);
      ParseRecordCons(Line(cells) + rest, FieldOf(cells[0]), tail, Fields(cells[1..]), rest);
    }
  }

  /** Only a row that is one empty, unquoted field prints as nothing. */
  predicate PrintsNothing(cells: seq<Cell>) { cells == [Null] }

  lemma LineIsEmpty(cells: seq<Cell>)
    requires cells != []
    ensures Line(cells) == "" <==> PrintsNothing(cells)
  {
    if |cells| > 1 { assert Line(cells) == Escape(cells[0]) + [','] + KeyText.Join(Map(Escape, cells)[1..], ','); }
    else { assert cells == [cells[0]] && Line(cells) == Escape(cells[0]); }
  }

  lemma LinesCons(table: seq<seq<Cell>>)
    requires |table| > 1
    ensures Lines(table) == Line(table[0]) + ("\n" + Lines(table[1..])) && Map(Fields, table) == [Fields(table[0])] + Map(Fields, table[1..])
  {
    JoinedCons(Line, table, '\n');
    MapCons(Fields, table);
    hide Map, Line, Fields, KeyText.Join;
  }

  lemma ParseFileCons(s: string, first: seq<Field>, tail: string, more: seq<seq<Field>>)
    requires ParseRecord(s) == Good(first, "\n" + tail) && tail != "" && ParseFile(tail) == Some(more)
    ensures ParseFile(s) == Some([first] + more)
  {
    hide ParseRecord;
    assert ("\n" + tail)[1..] == tail && |"\n" + tail| > 1;
  }

  /** A file whose last line is not empty reads back row by row. */
  lemma {:induction false} FileReadsBack(table: seq<seq<Cell>>)
    requires table != [] && forall i :: 0 <= i < |table| ==> table[i] != []
    requires |table| > 1 ==> !PrintsNothing(table[|table| - 1])
    ensures ParseFile(Lines(table)) == Some(Map(Fields, table))
    decreases |table|
  {
    if |table| == 1 {
      RecordReadsBack(table[0], "");
      assert Lines(table) == Line(table[0]) == Line(table[0]) + "";
      assert Map(Fields, table) == [Fields(table[0])];
      hide Line, Fields, ParseRecord;
    } else {
      FileReadsBack(table[1..]);
      LinesNotEmpty(table[1..]);
      RecordReadsBack(table[0], "\n" + Lines(table[1..]));
      LinesCons(table);
      hide Lines, Line, Fields, ParseRecord, ParseFile, Map;
      ParseFileCons(Lines(table), Fields(table[0]), Lines(table[1..]), Map(Fields, table[1..]));
    }
  }

  lemma LinesNotEmpty(table: seq<seq<Cell>>)
    requires table != [] && table[|table| - 1] != [] && !PrintsNothing(table[|table| - 1])
    ensures Lines(table) != ""
  {
    LineIsEmpty(table[|table| - 1]);
    if |table| == 1 { assert Lines(table) == Line(table[0]); }
    else { LinesCons(table); hide Lines, Line; }
  }

  /** What a reader must recover: every cell in its place. */
  function Recovered(rows: seq<Record>): seq<seq<Field>>
    requires rows != []
  {
    Map(Fields, Table(rows))
  }

  /** A single column whose last cell is null, or no column at all. */
  predicate LosesItsEnd(rows: seq<Record>)
    requires rows != []
  {
    var keys := rows[0].keys;
    keys == [] || (|keys| == 1 && CellOf(rows[|rows| - 1], keys[0]).Null?)
  }

  lemma TableShape(rows: seq<Record>)
    requires rows != []
    ensures var table := Table(rows);
      && |table| == |rows| + 1 && (forall i :: 0 <= i < |table| ==> |table[i]| == |rows[0].keys|)
      && (rows[0].keys != [] ==> (PrintsNothing(table[|rows|]) <==> LosesItsEnd(rows)))
  {
    var keys := rows[0].keys;
    var last := Table(rows)[|rows|];
    assert last == Map(key => CellOf(rows[|rows| - 1], key), keys);
    if |keys| == 1 { assert last == [CellOf(rows[|rows| - 1], keys[0])]; }
  }

  lemma ParseLastLine(s: string, only: seq<Field>)
    requires ParseRecord(s) == Good(only, "\n")
    ensures ParseFile(s) == Some([only])
  {
    hide ParseRecord;
  }

  lemma SecondLineLost(first: seq<Cell>, last: seq<Cell>)
    requires first != [] && PrintsNothing(last)
    ensures ParseFile(Lines([first, last])) == Some([Fields(first)]) && Lines([first, last]) == Line(first) + "\n"
  {
    LinesCons([first, last]);
    LineIsEmpty(last);
    assert [first, last][1..] == [last] && Lines([last]) == Line(last) == "";
    hide Lines, Line, Fields, ParseRecord, ParseFile;
    assert "\n" + "" == "\n";
    RecordReadsBack(first, "\n");
    ParseLastLine(Lines([first, last]), Fields(first));
  }

  /** A last line that prints as nothing is taken for the end of the line before it. */
  lemma {:induction false} LastRowLost(table: seq<seq<Cell>>)
    requires |table| > 1 && (forall i :: 0 <= i < |table| ==> table[i] != []) && PrintsNothing(table[|table| - 1])
    ensures ParseFile(Lines(table)) == Some(Map(Fields, table[..|table| - 1])) && Lines(table) != ""
    decreases |table|
  {
    if |table| == 2 {
      assert table == [table[0], table[1]] && table[..1] == [table[0]] && Map(Fields, [table[0]]) == [Fields(table[0])];
      hide Lines, Line, Fields, ParseRecord, ParseFile, Map;
      SecondLineLost(table[0], table[1]);
    } else {
      var front := table[..|table| - 1];
      assert table[1..][..|table| - 2] == front[1..];
      MapCons(Fields, front);
      hide Lines, Line, Fields, ParseRecord, ParseFile, Map;
      LastRowLost(table[1..]);
      LinesCons(table);
      RecordReadsBack(table[0], "\n" + Lines(table[1..]));
      ParseFileCons(Lines(table), Fields(table[0]), Lines(table[1..]), Map(Fields, front[1..]));
    }
  }

  lemma {:induction false} RecordsHaveFields(s: string)
    requires ParseFile(s).Some?
    ensures forall i :: 0 <= i < |ParseFile(s).value| ==> ParseFile(s).value[i] != []
    decreases |s|
  {
    var first := ParseRecord(s);
    if first.rest != "" && first.rest != "\n" { RecordsHaveFields(first.rest[1..]); }
  }

  /** Reading the file back recovers the header and every cell of every row, with null kept apart from
      the empty text, except for a table without columns and for a single column that ends in null. */
  lemma {:induction false} CsvRoundTrip(rows: seq<Record>)
    requires rows != []
    ensures ParseFile(ToCsv(rows)) == Some(Recovered(rows)) <==> !LosesItsEnd(rows)
  {
    TableShape(rows);
    var table := Table(rows);
    hide Table, Lines, ParseFile, Fields;
    if !LosesItsEnd(rows) {
      FileReadsBack(table);
    } else if rows[0].keys != [] {
      LastRowLost(table);
      assert |Map(Fields, table[..|table| - 1])| < |Map(Fields, table)|;
    } else {
      NoColumnsNoFields(rows);
      if ParseFile(ToCsv(rows)).Some? { RecordsHaveFields(ToCsv(rows)); }
    }
  }

  lemma NoColumnsNoFields(rows: seq<Record>)
    requires rows != [] && rows[0].keys == []
    ensures |Recovered(rows)| > 0 && Recovered(rows)[0] == []
  {
    TableShape(rows);
    assert Recovered(rows)[0] == Fields(Table(rows)[0]);
  }

  /** No cell a reader recovers starts a formula, in the header or in a row. */
  lemma {:induction false} RecoveredIsInert(rows: seq<Record>, r: nat, c: nat)
    requires rows != [] && r < |Recovered(rows)| && c < |Recovered(rows)[r]|
    ensures var text := Recovered(rows)[r][c].text;
      text == "" || (text[0] != '=' && text[0] != '+' && text[0] != '-' && text[0] != '@' && text[0] != '\t' && text[0] != '\r')
  {
    var cells := Table(rows)[r];
    hide Table;
    assert Recovered(rows)[r] == Fields(cells);
    assert Fields(cells)[c] == FieldOf(cells[c]);
  }

  /** The guard is the only thing a reader cannot undo: it confuses a formula with the same text
      already behind an apostrophe, and nothing else. */
  lemma {:induction false} GuardConfuses(a: string, b: string)
    ensures Guard(a) == Guard(b) <==> a == b || (StartsFormula(a) && b == "'" + a) || (StartsFormula(b) && a == "'" + b)
  {
    assert StartsFormula(a) ==> Guard(a)[1..] == a;
    assert StartsFormula(b) ==> Guard(b)[1..] == b;
  }

  /** What a reader sees of a cell: null as a bare empty field, and a text as itself, quoted, behind an
      apostrophe only where a spreadsheet would execute it. */
  ghost predicate SeenAs(cell: Cell, field: Field) {
    match cell
    case Null => field == Bare("")
    case Text(text) =>
      if text != "" && (text[0] == '=' || text[0] == '+' || text[0] == '-' || text[0] == '@' || text[0] == '\t' || text[0] == '\r')
      then field == Quoted("'" + text) else field == Quoted(text)
  }

  /** The recovered file: the keys of the first row as the header, and under each of them every row's
      value, or null where the row has none. */
  lemma {:induction false} RecoveredTells(rows: seq<Record>, r: nat, c: nat)
    requires rows != [] && r < |rows| && c < |rows[0].keys|
    ensures |Recovered(rows)| == |rows| + 1 && |Recovered(rows)[0]| == |Recovered(rows)[r + 1]| == |rows[0].keys|
    ensures SeenAs(Text(rows[0].keys[c]), Recovered(rows)[0][c])
    ensures var key := rows[0].keys[c];
      SeenAs(if key in rows[r].values then rows[r].values[key] else Null, Recovered(rows)[r + 1][c])
  {
    var table := Table(rows);
    var keys := rows[0].keys;
    assert table[0] == Map(key => Text(key), keys) && table[r + 1] == Map(key => CellOf(rows[r], key), keys);
    assert Recovered(rows)[0] == Fields(table[0]) && Recovered(rows)[r + 1] == Fields(table[r + 1]);
  }
}
