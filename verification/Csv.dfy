/**
 The CSV tokeniser: a loop over characters with a pending cell, a pending row and a quote flag, proved
 against a grammar in two layers. The lexical layer undoes quoting and knows nothing of rows; the record
 layer splits the result into rows and fields and knows nothing of quotes (section 2 of RFC 4180).
 */
module Csv {
  type Row = seq<string>

  datatype Event = Lit(c: char) | Sep | End

  // ---- the grammar ----

  /** Lexical layer: quotes open and close, a doubled quote inside quotes is a quote, a CR outside is nothing. */
  function Lex(s: string, quoted: bool): seq<Event>
    decreases |s|
  {
    if s == [] then []
    else if quoted then
      if s[0] != '"' then [Lit(s[0])] + Lex(s[1..], true)
      else if |s| > 1 && s[1] == '"' then [Lit('"')] + Lex(s[2..], true)
      else Lex(s[1..], false)
    else if s[0] == '"' then Lex(s[1..], true)
    else if s[0] == ',' then [Sep] + Lex(s[1..], false)
    else if s[0] == '\n' then [End] + Lex(s[1..], false)
    else if s[0] == '\r' then Lex(s[1..], false)
    else [Lit(s[0])] + Lex(s[1..], false)
  }

  /** record = field { Sep field } ( End | end of input ); also what follows the record. */
  function Record(es: seq<Event>): (r: (Row, seq<Event>))
    ensures |r.0| >= 1 && |r.1| <= |es| && (es != [] ==> |r.1| < |es|)
  {
    if es == [] then ([""], [])
    else match es[0]
      case Lit(c) => var (fs, rest) := Record(es[1..]); ([[c] + fs[0]] + fs[1..], rest)
      case Sep => var (fs, rest) := Record(es[1..]); ([""] + fs, rest)
      case End => ([""], es[1..])
  }

  /** file = { record } */
  function Rows(es: seq<Event>): seq<Row>
    decreases |es|
  {
    if es == [] then [] else [Record(es).0] + Rows(Record(es).1)
  }

  function Tokens(text: string): seq<Row> { Rows(Lex(text, false)) }

  // ---- the loop ----

  /** What is still to come when `row` and `cur` are pending and the events `es` remain. */
  function Pending(row: Row, cur: string, es: seq<Event>): seq<Row> {
    if es == [] && cur == "" && row == [] then []
    else var (fs, rest) := Record(es); [row + [cur + fs[0]] + fs[1..]] + Rows(rest)
  }

  lemma PendingLit(row: Row, cur: string, c: char, es: seq<Event>)
    ensures Pending(row, cur, [Lit(c)] + es) == Pending(row, cur + [c], es)
  {
    assert ([Lit(c)] + es)[1..] == es;
    var fs := Record(es).0;
    assert cur + ([c] + fs[0]) == cur + [c] + fs[0];
    assert ([[c] + fs[0]] + fs[1..])[1..] == fs[1..];
  }

  lemma PendingSep(row: Row, cur: string, es: seq<Event>)
    ensures Pending(row, cur, [Sep] + es) == Pending(row + [cur], "", es)
  {
    assert ([Sep] + es)[1..] == es;
    var fs := Record(es).0;
    assert ([""] + fs)[1..] == fs;
    assert cur + "" == cur;
    assert "" + fs[0] == fs[0];
    assert row + [cur] + fs == row + [cur] + [fs[0]] + fs[1..];
  }

  lemma PendingEnd(row: Row, cur: string, es: seq<Event>)
    ensures Pending(row, cur, [End] + es) == [row + [cur]] + Pending([], "", es)
  {
    var all := [End] + es;
    assert all[1..] == es;
    var (fs, rest) := Record(all);
    assert fs == [""] && rest == es;
    assert cur + fs[0] == cur && fs[1..] == [];
    assert row + [cur + fs[0]] + fs[1..] == row + [cur];
    PendingNothing(es);
  }

  lemma PendingNothing(es: seq<Event>)
    ensures Pending([], "", es) == Rows(es)
  {
    var fs := Record(es).0;
    assert "" + fs[0] == fs[0];
    assert [] + [fs[0]] + fs[1..] == fs;
  }

  lemma PendingDone(row: Row, cur: string)
    ensures Pending(row, cur, []) == if cur == "" && row == [] then [] else [row + [cur]]
  {
    assert cur + "" == cur;
    assert row + [cur] + [""][1..] == row + [cur];
  }

  /** The loop yields exactly the rows of the grammar, on every input. */
  method Tokenise(text: string) returns (out: seq<Row>)
    ensures out == Tokens(text)
  {
    hide Pending, Record, Rows;
    out := [];
    var i := 0;
    var cur := "";
    var row: Row := [];
    var inQuotes := false;
    PendingNothing(Lex(text, false));
    assert text[0..] == text;
    while i < |text|
      invariant 0 <= i <= |text|
      invariant Tokens(text) == out + Pending(row, cur, Lex(text[i..], inQuotes))
    {
      var ch := text[i];
      var rest := text[i..];
      assert rest[1..] == text[i + 1..];
      if inQuotes {
        if ch == '"' {
          if i + 1 < |text| && text[i + 1] == '"' {
            assert rest[2..] == text[i + 2..];
            PendingLit(row, cur, '"', Lex(text[i + 2..], true));
            cur := cur + ['"'];
            i := i + 2;
            continue;
          }
          inQuotes := false;
          i := i + 1;
          continue;
        }
        PendingLit(row, cur, ch, Lex(text[i + 1..], true));
        cur := cur + [ch];
        i := i + 1;
        continue;
      }
      if ch == '"' {
        inQuotes := true;
        i := i + 1;
        continue;
      }
      if ch == ',' {
        PendingSep(row, cur, Lex(text[i + 1..], false));
        row := row + [cur];
        cur := "";
        i := i + 1;
        continue;
      }
      if ch == '\r' {
        i := i + 1;
        continue;
      }
      if ch == '\n' {
        ghost var es := Lex(text[i + 1..], false);
        PendingEnd(row, cur, es);
        assert out + ([row + [cur]] + Pending([], "", es)) == out + [row + [cur]] + Pending([], "", es);
        row := row + [cur];
        out := out + [row];
        cur := "";
        row := [];
        i := i + 1;
        continue;
      }
      PendingLit(row, cur, ch, Lex(text[i + 1..], false));
      cur := cur + [ch];
      i := i + 1;
    }
    PendingDone(row, cur);
    if |cur| > 0 || |row| > 0 {
      row := row + [cur];
      out := out + [row];
    }
  }

  // ---- round trip ----

  function Doubled(f: string): string {
    if f == [] then [] else (if f[0] == '"' then "\"\"" else [f[0]]) + Doubled(f[1..])
  }

  function Quoted(f: string): string { "\"" + Doubled(f) + "\"" }

  datatype LineEnd = LF | CRLF

  function Ending(le: LineEnd): string { if le.LF? then "\n" else "\r\n" }

  /** A field to print; one that needs no quotes may go bare. */
  datatype Cell = Cell(text: string, bare: bool)

  datatype Line = Line(cells: seq<Cell>, end: LineEnd)

  predicate Plain(f: string) { forall i :: 0 <= i < |f| ==> f[i] != '"' && f[i] != ',' && f[i] != '\r' && f[i] != '\n' }

  function Spelled(c: Cell): string { if c.bare && Plain(c.text) then c.text else Quoted(c.text) }

  function Fields(cells: seq<Cell>): Row { seq(|cells|, i requires 0 <= i < |cells| => cells[i].text) }

  /** Fields bare or quoted with quotes doubled, joined by commas, the row ended. */
  function PrintRow(cells: seq<Cell>, le: LineEnd): string {
    if cells == [] then Ending(le)
    else Spelled(cells[0]) + (if |cells| == 1 then Ending(le) else "," + PrintRow(cells[1..], le))
  }

  function Print(lines: seq<Line>): string {
    if lines == [] then [] else PrintRow(lines[0].cells, lines[0].end) + Print(lines[1..])
  }

  function Lits(f: string): seq<Event> {
    if f == [] then [] else [Lit(f[0])] + Lits(f[1..])
  }

  function RowEvents(row: Row): seq<Event> {
    if row == [] then [End]
    else Lits(row[0]) + (if |row| == 1 then [End] else [Sep] + RowEvents(row[1..]))
  }

  lemma LexInside(c: char, s: string)
    ensures c != '"' ==> Lex([c] + s, true) == [Lit(c)] + Lex(s, true)
    ensures Lex("\"\"" + s, true) == [Lit('"')] + Lex(s, true)
    ensures s == [] || s[0] != '"' ==> Lex("\"" + s, true) == Lex(s, false)
    ensures Lex("\"" + s, false) == Lex(s, true)
    ensures Lex("," + s, false) == [Sep] + Lex(s, false)
  {
    assert ([c] + s)[1..] == s;
    assert ("\"\"" + s)[2..] == s;
    assert ("\"" + s)[1..] == s;
    assert ("," + s)[1..] == s;
  }

  lemma Regroup(a: string, b: string, c: string, d: string)
    ensures a + b + c + d == a + (b + c + d)
  {
    assert a + b + c == a + (b + c);
  }

  lemma {:induction false} LexDoubled(f: string, rest: string)
    requires rest == [] || rest[0] != '"'
    ensures Lex(Doubled(f) + "\"" + rest, true) == Lits(f) + Lex(rest, false)
  {
    hide Lex;
    if f == [] {
      assert Doubled(f) + "\"" + rest == "\"" + rest;
      LexInside('a', rest);
    } else {
      var tail := Doubled(f[1..]) + "\"" + rest;
      LexDoubled(f[1..], rest);
      assert Lits(f) + Lex(rest, false) == [Lit(f[0])] + (Lits(f[1..]) + Lex(rest, false));
      LexInside(f[0], tail);
      var head := if f[0] == '"' then "\"\"" else [f[0]];
      assert Doubled(f) == head + Doubled(f[1..]);
      Regroup(head, Doubled(f[1..]), "\"", rest);
    }
  }

  lemma LexQuoted(f: string, rest: string)
    requires rest == [] || rest[0] != '"'
    ensures Lex(Quoted(f) + rest, false) == Lits(f) + Lex(rest, false)
  {
    hide Lex;
    var inner := Doubled(f) + "\"" + rest;
    assert Quoted(f) + rest == "\"" + inner;
    LexInside('a', inner);
    LexDoubled(f, rest);
  }

  lemma LexEnding(le: LineEnd, rest: string)
    ensures Lex(Ending(le) + rest, false) == [End] + Lex(rest, false)
  {
    var s := Ending(le) + rest;
    if le.CRLF? {
      assert s[1..] == "\n" + rest;
      assert s[1..][1..] == rest;
    } else {
      assert s[1..] == rest;
    }
  }

  lemma LexPlain(c: char, s: string)
    requires Plain([c])
    ensures Lex([c] + s, false) == [Lit(c)] + Lex(s, false)
  {
    assert [c][0] == c;
    assert ([c] + s)[1..] == s;
  }

  lemma {:induction false} LexBare(f: string, rest: string)
    requires Plain(f)
    ensures Lex(f + rest, false) == Lits(f) + Lex(rest, false)
  {
    hide Lex;
    if f == [] {
      assert f + rest == rest;
    } else {
      assert f + rest == [f[0]] + (f[1..] + rest);
      LexPlain(f[0], f[1..] + rest);
      LexBare(f[1..], rest);
      assert Lits(f) + Lex(rest, false) == [Lit(f[0])] + (Lits(f[1..]) + Lex(rest, false));
    }
  }

  lemma LexSpelled(c: Cell, rest: string)
    requires rest == [] || rest[0] != '"'
    ensures Lex(Spelled(c) + rest, false) == Lits(c.text) + Lex(rest, false)
  {
    hide Lex;
    if c.bare && Plain(c.text) { LexBare(c.text, rest); } else { LexQuoted(c.text, rest); }
  }

  lemma LexLastField(c: Cell, le: LineEnd, rest: string)
    ensures Lex(Spelled(c) + (Ending(le) + rest), false) == Lits(c.text) + ([End] + Lex(rest, false))
  {
    LexEnding(le, rest);
    LexSpelled(c, Ending(le) + rest);
  }

  lemma LexField(c: Cell, more: string)
    ensures Lex(Spelled(c) + ("," + more), false) == Lits(c.text) + ([Sep] + Lex(more, false))
  {
    LexInside('a', more);
    LexSpelled(c, "," + more);
  }

  lemma {:induction false} LexRow(cells: seq<Cell>, le: LineEnd, rest: string)
    ensures Lex(PrintRow(cells, le) + rest, false) == RowEvents(Fields(cells)) + Lex(rest, false)
  {
    hide Lex, Spelled, Lits, Ending;
    var row := Fields(cells);
    if cells == [] {
      LexEnding(le, rest);
    } else if |cells| == 1 {
      LexLastField(cells[0], le, rest);
      assert PrintRow(cells, le) + rest == Spelled(cells[0]) + (Ending(le) + rest);
      assert RowEvents(row) + Lex(rest, false) == Lits(row[0]) + ([End] + Lex(rest, false));
    } else {
      var more := PrintRow(cells[1..], le) + rest;
      LexRow(cells[1..], le, rest);
      LexField(cells[0], more);
      assert row[1..] == Fields(cells[1..]);
      assert PrintRow(cells, le) + rest == Spelled(cells[0]) + ("," + more);
      assert RowEvents(row) + Lex(rest, false) == Lits(row[0]) + ([Sep] + (RowEvents(row[1..]) + Lex(rest, false)));
    }
  }

  lemma {:induction false} RecordField(f: string, es: seq<Event>)
    requires es != [] && !es[0].Lit?
    ensures Record(Lits(f) + es) == ([f] + Record(es).0[1..], Record(es).1)
  {
    if f == [] {
      assert Lits(f) + es == es;
      assert Record(es).0[0] == "";
      assert [""] + Record(es).0[1..] == Record(es).0;
    } else {
      var tail := Lits(f[1..]) + es;
      assert Lits(f) + es == [Lit(f[0])] + tail;
      assert (Lits(f) + es)[1..] == tail;
      RecordField(f[1..], es);
      assert [f[0]] + f[1..] == f;
    }
  }

  /** A row read back; the row without fields reads back as the row with one empty field. */
  function ReadBack(row: Row): Row { if row == [] then [""] else row }

  lemma {:induction false} RecordRow(row: Row, es: seq<Event>)
    ensures Record(RowEvents(row) + es) == (ReadBack(row), es)
  {
    assert ([End] + es)[1..] == es;
    if |row| == 1 {
      RecordField(row[0], [End] + es);
      assert [row[0]] + [""][1..] == row;
      assert RowEvents(row) + es == Lits(row[0]) + ([End] + es);
    } else if |row| > 1 {
      var more := RowEvents(row[1..]) + es;
      RecordRow(row[1..], es);
      RecordField(row[0], [Sep] + more);
      assert ([Sep] + more)[1..] == more;
      assert RowEvents(row) + es == Lits(row[0]) + ([Sep] + more);
      assert [row[0]] + row[1..] == row;
    }
  }

  /** The rows of a printed file. */
  function Contents(lines: seq<Line>): seq<Row> { seq(|lines|, i requires 0 <= i < |lines| => Fields(lines[i].cells)) }

  lemma FirstRow(line: Line, rest: string)
    ensures Tokens(PrintRow(line.cells, line.end) + rest) == [ReadBack(Fields(line.cells))] + Tokens(rest)
  {
    hide Lex, PrintRow, Record;
    var row := Fields(line.cells);
    LexRow(line.cells, line.end, rest);
    RecordRow(row, Lex(rest, false));
    assert RowEvents(row) != [];
  }

  /** Printing rows and tokenising them gives the rows back, whatever quotes, commas, CRs, LFs or BOMs their fields
      hold, whichever fields are bare and however each row is ended; only a row without any field comes back
      changed. */
  lemma {:induction false} PrintThenTokens(lines: seq<Line>)
    ensures Tokens(Print(lines)) == seq(|lines|, i requires 0 <= i < |lines| => ReadBack(Fields(lines[i].cells)))
  {
    if lines != [] {
      FirstRow(lines[0], Print(lines[1..]));
      PrintThenTokens(lines[1..]);
    }
  }

  lemma RoundTrip(lines: seq<Line>)
    ensures Tokens(Print(lines)) == Contents(lines) <==> forall i :: 0 <= i < |lines| ==> lines[i].cells != []
  {
    PrintThenTokens(lines);
    if Tokens(Print(lines)) == Contents(lines) {
      forall i | 0 <= i < |lines| ensures lines[i].cells != [] {
        assert Tokens(Print(lines))[i] == ReadBack(Fields(lines[i].cells));
        assert Contents(lines)[i] == Fields(lines[i].cells);
      }
    }
  }

  /** A row printed without its line ending. */
  function PrintOpen(cells: seq<Cell>): string
    requires cells != []
  {
    Spelled(cells[0]) + (if |cells| == 1 then "" else "," + PrintOpen(cells[1..]))
  }

  lemma {:induction false} LexOpen(cells: seq<Cell>)
    requires cells != []
    ensures Lex(PrintOpen(cells), false) + [End] == RowEvents(Fields(cells))
  {
    hide Lex, Spelled;
    var row := Fields(cells);
    if |cells| == 1 {
      LexSpelled(cells[0], "");
      assert Lex("", false) == [] by { LexNothing(); }
      assert Lex(PrintOpen(cells), false) == Lits(row[0]) + [];
      assert Lits(row[0]) + [] + [End] == Lits(row[0]) + [End];
    } else {
      LexOpen(cells[1..]);
      LexField(cells[0], PrintOpen(cells[1..]));
      assert row[1..] == Fields(cells[1..]);
      assert Lits(row[0]) + ([Sep] + Lex(PrintOpen(cells[1..]), false)) + [End]
          == Lits(row[0]) + ([Sep] + (Lex(PrintOpen(cells[1..]), false) + [End]));
    }
  }

  lemma LexNothing()
    ensures Lex("", false) == []
  {
  }

  /** Without the closing line end a record reads the same. */
  lemma {:induction false} RecordOpen(es: seq<Event>)
    requires forall i :: 0 <= i < |es| ==> !es[i].End?
    ensures Record(es) == Record(es + [End])
  {
    if es == [] {
      assert es + [End] == [End];
    } else {
      RecordOpen(es[1..]);
      assert (es + [End])[1..] == es[1..] + [End];
    }
  }

  lemma {:induction false} OneEnd(row: Row, es: seq<Event>)
    requires row != [] && es + [End] == RowEvents(row)
    ensures forall i :: 0 <= i < |es| ==> !es[i].End?
    ensures es == [] <==> row == [""]
  {
    LitsOnly(row[0]);
    var n := |Lits(row[0])|;
    assert |RowEvents(row)| == |es| + 1;
    if |row| == 1 {
      assert RowEvents(row) == Lits(row[0]) + [End];
      forall i | 0 <= i < |es| ensures !es[i].End? {
        assert (es + [End])[i] == es[i];
      }
    } else {
      RowEventsEnd(row[1..]);
      var tail := RowEvents(row[1..]);
      OneEnd(row[1..], tail[..|tail| - 1]);
      forall i | 0 <= i < |es| ensures !es[i].End? {
        assert (es + [End])[i] == (Lits(row[0]) + ([Sep] + tail))[i];
        if i > n { assert es[i] == tail[..|tail| - 1][i - n - 1]; }
      }
    }
  }

  lemma {:induction false} RowEventsEnd(row: Row)
    ensures RowEvents(row) != [] && RowEvents(row)[..|RowEvents(row)| - 1] + [End] == RowEvents(row)
  {
    if |row| > 1 { RowEventsEnd(row[1..]); }
  }

  lemma {:induction false} LitsOnly(f: string)
    ensures |Lits(f)| == |f| && forall i :: 0 <= i < |f| ==> Lits(f)[i] == Lit(f[i])
  {
    if f != [] { LitsOnly(f[1..]); }
  }

  /** The last line end may be missing, exactly unless the last row is one empty field, which is then not a row. */
  lemma LastEndOptionalIff(lines: seq<Line>, last: seq<Cell>)
    requires last != [] && forall i :: 0 <= i < |lines| ==> lines[i].cells != []
    ensures Tokens(Print(lines) + PrintOpen(last)) == Contents(lines) + [Fields(last)] <==> Fields(last) != [""]
  {
    OpenRows(lines, last);
  }

  lemma {:induction false} OpenRows(lines: seq<Line>, last: seq<Cell>)
    requires last != [] && forall i :: 0 <= i < |lines| ==> lines[i].cells != []
    ensures Tokens(Print(lines) + PrintOpen(last)) == Contents(lines) + (if Fields(last) == [""] then [] else [Fields(last)])
  {
    hide Tokens, PrintRow, PrintOpen, ReadBack;
    var open := PrintOpen(last);
    if lines == [] {
      assert Print(lines) + open == open;
      LastRow(last);
    } else {
      var rest := Print(lines[1..]) + open;
      var row := Fields(lines[0].cells);
      assert Print(lines) + open == PrintRow(lines[0].cells, lines[0].end) + rest;
      FirstRow(lines[0], rest);
      KeptRow(lines[0].cells);
      OpenRows(lines[1..], last);
      assert Contents(lines) == [row] + Contents(lines[1..]);
    }
  }

  lemma KeptRow(cells: seq<Cell>)
    requires cells != []
    ensures ReadBack(Fields(cells)) == Fields(cells)
  {
  }

  lemma LastRow(last: seq<Cell>)
    requires last != []
    ensures Tokens(PrintOpen(last)) == if Fields(last) == [""] then [] else [Fields(last)]
  {
    LexOpen(last);
    OpenRow(Fields(last), Lex(PrintOpen(last), false));
  }

  lemma OpenRow(row: Row, es: seq<Event>)
    requires row != [] && es + [End] == RowEvents(row)
    ensures Rows(es) == if row == [""] then [] else [row]
  {
    OneEnd(row, es);
    RecordOpen(es);
    RecordRow(row, []);
    assert RowEvents(row) + [] == RowEvents(row);
    assert Rows([]) == [];
  }

  // ---- carriage returns outside quotes ----

  /** The text without the CRs that stand outside quotes. */
  function StripCR(s: string, quoted: bool): string
    decreases |s|
  {
    if s == [] then []
    else if quoted && s[0] == '"' && |s| > 1 && s[1] == '"' then s[..2] + StripCR(s[2..], true)
    else if quoted then [s[0]] + StripCR(s[1..], s[0] != '"')
    else if s[0] == '\r' then StripCR(s[1..], false)
    else [s[0]] + StripCR(s[1..], s[0] == '"')
  }

  function SkipCR(s: string): (r: string)
    ensures |r| <= |s| && (r == [] || r[0] != '\r')
  {
    if s != [] && s[0] == '\r' then SkipCR(s[1..]) else s
  }

  predicate Opens(s: string) { s != [] && s[0] == '"' }

  /** How often a closing quote is followed, across one or more CRs, by an opening quote. */
  function Reopenings(s: string, quoted: bool): nat
    decreases |s|
  {
    if s == [] then 0
    else if quoted && s[0] == '"' then
      if Opens(s[1..]) then Reopenings(s[2..], true)
      else (if Opens(SkipCR(s[1..])) then 1 else 0) + Reopenings(s[1..], false)
    else if quoted then Reopenings(s[1..], true)
    else Reopenings(s[1..], s[0] == '"')
  }

  lemma {:induction false} SkipCRSame(s: string)
    ensures Lex(SkipCR(s), false) == Lex(s, false)
    ensures StripCR(SkipCR(s), false) == StripCR(s, false)
    ensures Reopenings(SkipCR(s), false) == Reopenings(s, false)
  {
    if s != [] && s[0] == '\r' { SkipCRSame(s[1..]); }
  }

  lemma StripOpens(s: string)
    ensures Opens(StripCR(s, false)) <==> Opens(SkipCR(s))
  {
    SkipCRSame(s);
  }

  function LitCount(es: seq<Event>): nat {
    if es == [] then 0 else (if es[0].Lit? then 1 else 0) + LitCount(es[1..])
  }

  /** Deleting the CRs outside quotes turns each reopening into a literal quote and changes nothing else. */
  lemma {:induction false} StripLex(s: string, quoted: bool)
    ensures LitCount(Lex(StripCR(s, quoted), quoted)) == LitCount(Lex(s, quoted)) + Reopenings(s, quoted)
    ensures Reopenings(s, quoted) == 0 ==> Lex(StripCR(s, quoted), quoted) == Lex(s, quoted)
    decreases |s|
  {
    if s == [] {
    } else if quoted && s[0] == '"' && Opens(s[1..]) {
      StripLex(s[2..], true);
      var t := StripCR(s, true);
      assert t[2..] == StripCR(s[2..], true);
      LitCountCons(Lit('"'), Lex(s[2..], true));
      LitCountCons(Lit('"'), Lex(t[2..], true));
    } else if quoted && s[0] == '"' {
      StripClose(s);
    } else if quoted {
      StripLex(s[1..], true);
      var t := StripCR(s, true);
      assert t[1..] == StripCR(s[1..], true);
      LitCountCons(Lit(s[0]), Lex(s[1..], true));
      LitCountCons(Lit(s[0]), Lex(t[1..], true));
    } else if s[0] == '\r' {
      StripLex(s[1..], false);
    } else {
      var q := s[0] == '"';
      StripLex(s[1..], q);
      var t := StripCR(s, false);
      assert t[1..] == StripCR(s[1..], q);
      if !q {
        var e := if s[0] == ',' then Sep else if s[0] == '\n' then End else Lit(s[0]);
        LitCountCons(e, Lex(s[1..], false));
        LitCountCons(e, Lex(t[1..], false));
      }
    }
  }

  lemma LitCountCons(e: Event, es: seq<Event>)
    ensures LitCount([e] + es) == (if e.Lit? then 1 else 0) + LitCount(es)
  {
    assert ([e] + es)[1..] == es;
  }

  /** The closing quote: with CRs gone, a reopening quote makes it half of a doubled quote. */
  lemma {:induction false} StripClose(s: string)
    requires s != [] && s[0] == '"' && !Opens(s[1..])
    ensures LitCount(Lex(StripCR(s, true), true)) == LitCount(Lex(s, true)) + Reopenings(s, true)
    ensures Reopenings(s, true) == 0 ==> Lex(StripCR(s, true), true) == Lex(s, true)
    decreases |s|, 0
  {
    var rest := s[1..];
    var t := StripCR(s, true);
    assert t == ['"'] + StripCR(rest, false);
    assert t[1..] == StripCR(rest, false);
    StripOpens(rest);
    if Opens(SkipCR(rest)) {
      var inner := SkipCR(rest)[1..];
      SkipCRSame(rest);
      assert StripCR(rest, false) == ['"'] + StripCR(inner, true);
      assert t[2..] == StripCR(inner, true);
      StripLex(inner, true);
      LitCountCons(Lit('"'), Lex(t[2..], true));
    } else {
      StripLex(rest, false);
    }
  }

  function Chars(row: Row): nat { if row == [] then 0 else |row[0]| + Chars(row[1..]) }

  function AllChars(rows: seq<Row>): nat { if rows == [] then 0 else Chars(rows[0]) + AllChars(rows[1..]) }

  lemma {:induction false} RecordChars(es: seq<Event>)
    ensures LitCount(es) == Chars(Record(es).0) + LitCount(Record(es).1)
  {
    if es != [] {
      RecordChars(es[1..]);
      var fs := Record(es[1..]).0;
      match es[0] {
        case Lit(c) => assert ([[c] + fs[0]] + fs[1..])[1..] == fs[1..];
        case Sep => assert ([""] + fs)[1..] == fs;
        case End =>
      }
    }
  }

  /** The cells of a file hold exactly its literal characters. */
  lemma {:induction false} RowsChars(es: seq<Event>)
    ensures AllChars(Rows(es)) == LitCount(es)
    decreases |es|
  {
    if es != [] {
      RecordChars(es);
      RowsChars(Record(es).1);
      assert Rows(es)[1..] == Rows(Record(es).1);
    }
  }

  /** Deleting every CR outside quotes leaves the rows alone exactly when no closing quote is followed,
      across CRs, by an opening quote. */
  lemma StripCRHarmlessIff(text: string)
    ensures Tokens(StripCR(text, false)) == Tokens(text) <==> Reopenings(text, false) == 0
  {
    StripLex(text, false);
    RowsChars(Lex(text, false));
    RowsChars(Lex(StripCR(text, false), false));
  }

  lemma TwoQuotedParts()
    ensures Doubled("a\"b") == "a\"\"b"
    ensures Quoted("a\"b") + "" == "\"a\"\"b\""
  {
    assert "a\"b"[1..] == "\"b";
    assert "\"b"[1..] == "b";
    assert Doubled("b") == "b";
    assert Doubled("\"b") == "\"\"b";
  }

  /** It does change a text such as "a" CR "b", where the two quoted parts merge around a literal quote. */
  lemma StripCRCanChange()
    ensures Tokens("\"a\"\r\"b\"") == [["ab"]]
    ensures StripCR("\"a\"\r\"b\"", false) == "\"a\"\"b\""
    ensures Tokens("\"a\"\"b\"") == [["a\"b"]]
  {
    LexDoubled("a\"b", "");
    LexQuoted("a\"b", "");
    TwoQuotedParts();
    CellOnly("a\"b");
    var s := "\"a\"\r\"b\"";
    LexQuoted("a", "\r\"b\"");
    assert Quoted("a") + "\r\"b\"" == s;
    assert "\r\"b\""[1..] == "\"b\"";
    LexQuoted("b", "");
    assert Quoted("b") + "" == "\"b\"";
    assert Lits("a") + Lits("b") == Lits("ab") by {
      assert "ab"[1..] == "b";
    }
    CellOnly("ab");
    StripExample();
  }

  lemma StripExample()
    ensures StripCR("\"a\"\r\"b\"", false) == "\"a\"\"b\""
  {
    assert "\"a\"\r\"b\""[1..] == "a\"\r\"b\"";
    assert "a\"\r\"b\""[1..] == "\"\r\"b\"";
    assert "\"\r\"b\""[1..] == "\r\"b\"";
    StripExampleEnd();
    assert StripCR("\"\r\"b\"", true) == "\"\"b\"";
    assert StripCR("a\"\r\"b\"", true) == "a\"\"b\"";
  }

  lemma StripExampleEnd()
    ensures StripCR("\r\"b\"", false) == "\"b\""
  {
    assert "\r\"b\""[1..] == "\"b\"";
    assert "\"b\""[1..] == "b\"";
    assert "b\""[1..] == "\"";
    assert "\""[1..] == "";
    assert StripCR("\"", true) == "\"";
    assert StripCR("b\"", true) == "b\"";
    assert StripCR("\"b\"", false) == "\"b\"";
  }

  lemma {:induction false} CellOnly(f: string)
    requires f != []
    ensures Rows(Lits(f)) == [[f]]
    ensures Lits(f) + Lex("", false) == Lits(f)
  {
    RecordEnd(f);
  }

  lemma {:induction false} RecordEnd(f: string)
    ensures Record(Lits(f)) == ([f], [])
  {
    if f != [] {
      assert Lits(f)[1..] == Lits(f[1..]);
      RecordEnd(f[1..]);
      assert [f[0]] + f[1..] == f;
      assert [f] + [f[1..]][1..] == [f];
    }
  }
}
