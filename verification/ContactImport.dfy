/**
 The CSV contact import: header mapping, phone clean-up, and an upsert per row keyed by client and phone.
 An absent cell, an empty cell and a missing column are all the empty string here: the service treats the
 three alike.
 */
module ContactImport {
  import opened Wrappers
  import opened Text
  import Csv

  datatype CsvRow = CsvRow(phone: string, name: string, email: string, tags: string, language: string)

  datatype Column = PhoneColumn | NameColumn | EmailColumn | TagsColumn | LanguageColumn | OtherColumn

  /** Which field a header cell stands for. */
  function ColumnOf(h: string): Column {
    if h == "phone" || h == "mobile" || h == "number" then PhoneColumn
    else if h == "name" || h == "full name" then NameColumn
    else if h == "email" || h == "e-mail" then EmailColumn
    else if h == "tags" || h == "tag" then TagsColumn
    else if h == "language" || h == "lang" then LanguageColumn
    else OtherColumn
  }

  // ---- from cells to rows ----

  /** What a cell says, "" when the row is too short. */
  function Cell(cells: seq<string>, i: nat): string { if i < |cells| then Trim(cells[i]) else "" }

  /** The last non-empty cell among the first n columns that stand for this field. */
  function LastCell(header: seq<string>, cells: seq<string>, column: Column, n: nat): string
    requires n <= |header|
  {
    if n == 0 then ""
    else if ColumnOf(header[n - 1]) == column && Cell(cells, n - 1) != "" then Cell(cells, n - 1)
    else LastCell(header, cells, column, n - 1)
  }

  function MappedTo(header: seq<string>, cells: seq<string>, n: nat): CsvRow
    requires n <= |header|
  {
    CsvRow(LastCell(header, cells, PhoneColumn, n), LastCell(header, cells, NameColumn, n),
           LastCell(header, cells, EmailColumn, n), LastCell(header, cells, TagsColumn, n),
           LastCell(header, cells, LanguageColumn, n))
  }

  function Mapped(header: seq<string>, cells: seq<string>): CsvRow { MappedTo(header, cells, |header|) }

  lemma NextCell(header: seq<string>, cells: seq<string>, column: Column, n: nat)
    requires n < |header|
    ensures LastCell(header, cells, column, n + 1)
            == if ColumnOf(header[n]) == column && Cell(cells, n) != "" then Cell(cells, n)
               else LastCell(header, cells, column, n)
  {
  }

  lemma NoCells(header: seq<string>, cells: seq<string>)
    ensures MappedTo(header, cells, 0) == CsvRow("", "", "", "", "")
  {
  }

  /** v is the last non-blank cell under a header that is one of these words, trimmed; "" when there is none. */
  ghost predicate LastUnder(header: seq<string>, cells: seq<string>, words: set<string>, v: string) {
    if v == "" then forall i :: 0 <= i < |header| && header[i] in words ==> Cell(cells, i) == ""
    else exists i: nat :: LastAt(header, cells, words, i) && i < |cells| && Trim(cells[i]) == v
  }

  ghost predicate LastAt(header: seq<string>, cells: seq<string>, words: set<string>, i: nat) {
    && i < |header| && header[i] in words
    && forall j :: i < j < |header| && header[j] in words ==> Cell(cells, j) == ""
  }

  lemma {:induction false} LastCellUnder(header: seq<string>, cells: seq<string>, column: Column, words: set<string>, n: nat)
    requires n <= |header| && forall h :: ColumnOf(h) == column <==> h in words
    ensures LastUnder(header[..n], cells, words, LastCell(header, cells, column, n))
  {
    hide ColumnOf, Trim, Cell;
    if n > 0 {
      LastCellUnder(header, cells, column, words, n - 1);
      var v := LastCell(header, cells, column, n);
      CellIs(cells, n - 1);
      if ColumnOf(header[n - 1]) == column && Cell(cells, n - 1) != "" {
        assert LastAt(header[..n], cells, words, n - 1);
      } else if v != "" {
        var i: nat :| LastAt(header[..n - 1], cells, words, i) && i < |cells| && Trim(cells[i]) == v;
        assert LastAt(header[..n], cells, words, i);
      }
    }
  }

  lemma CellIs(cells: seq<string>, i: nat)
    ensures Cell(cells, i) == if i < |cells| then Trim(cells[i]) else ""
  {
  }

  /** A field of a mapped row is the last non-blank cell under one of the words the import knows for it. */
  lemma FieldsUnder(header: seq<string>, cells: seq<string>)
    ensures var row := Mapped(header, cells);
      && LastUnder(header, cells, {"phone", "mobile", "number"}, row.phone)
      && LastUnder(header, cells, {"name", "full name"}, row.name)
      && LastUnder(header, cells, {"email", "e-mail"}, row.email)
      && LastUnder(header, cells, {"tags", "tag"}, row.tags)
      && LastUnder(header, cells, {"language", "lang"}, row.language)
  {
    hide LastUnder, LastCell;
    assert header[..|header|] == header;
    LastCellUnder(header, cells, PhoneColumn, {"phone", "mobile", "number"}, |header|);
    LastCellUnder(header, cells, NameColumn, {"name", "full name"}, |header|);
    LastCellUnder(header, cells, EmailColumn, {"email", "e-mail"}, |header|);
    LastCellUnder(header, cells, TagsColumn, {"tags", "tag"}, |header|);
    LastCellUnder(header, cells, LanguageColumn, {"language", "lang"}, |header|);
  }

  method MapRow(header: seq<string>, cells: seq<string>) returns (obj: CsvRow)
    ensures obj == Mapped(header, cells)
    ensures LastUnder(header, cells, {"phone", "mobile", "number"}, obj.phone)
    ensures LastUnder(header, cells, {"name", "full name"}, obj.name)
    ensures LastUnder(header, cells, {"email", "e-mail"}, obj.email)
    ensures LastUnder(header, cells, {"tags", "tag"}, obj.tags)
    ensures LastUnder(header, cells, {"language", "lang"}, obj.language)
  {
    hide ColumnOf, LastCell, Trim, LastUnder;
    FieldsUnder(header, cells);
    obj := CsvRow("", "", "", "", "");
    NoCells(header, cells);
    for idx := 0 to |header|
      invariant obj == MappedTo(header, cells, idx)
    {
      NextCell(header, cells, PhoneColumn, idx);
      NextCell(header, cells, NameColumn, idx);
      NextCell(header, cells, EmailColumn, idx);
      NextCell(header, cells, TagsColumn, idx);
      NextCell(header, cells, LanguageColumn, idx);
      var v := if idx < |cells| then Trim(cells[idx]) else "";
      if v == "" {
        continue;
      }
      match ColumnOf(header[idx]) {
        case PhoneColumn => obj := obj.(phone := v);
        case NameColumn => obj := obj.(name := v);
        case EmailColumn => obj := obj.(email := v);
        case TagsColumn => obj := obj.(tags := v);
        case LanguageColumn => obj := obj.(language := v);
        case OtherColumn =>
      }
    }
  }

  function StripBom(input: string): string {
    if input != "" && input[0] == '\U{FEFF}' then input[1..] else input
  }

  function Header(cells: seq<string>): seq<string> {
    seq(|cells|, i requires 0 <= i < |cells| => Lower(Trim(cells[i])))
  }

  /** The rows below the header line. */
  function Parsed(input: string): seq<CsvRow> {
    var out := Csv.Tokens(StripBom(input));
    if out == [] then []
    else seq(|out| - 1, i requires 0 <= i < |out| - 1 => Mapped(Header(out[0]), out[i + 1]))
  }

  /** A printed file read as an import: one leading BOM is dropped, the first line names the columns up to case and
      surrounding spaces, and every further line is one row, its fields looked up under those names. */
  lemma PrintedFile(lines: seq<Csv.Line>, bom: bool)
    requires lines != [] && forall i :: 0 <= i < |lines| ==> lines[i].cells != []
    requires !bom ==> Csv.Print(lines)[0] != '\U{FEFF}'
    ensures var rows := Parsed((if bom then "\U{FEFF}" else "") + Csv.Print(lines));
      && |rows| == |lines| - 1
      && (forall k :: 0 <= k < |lines[0].cells| ==> Header(Csv.Fields(lines[0].cells))[k] == Lower(Trim(lines[0].cells[k].text)))
      && forall i :: 0 <= i < |rows| ==>
           var header, cells := Header(Csv.Fields(lines[0].cells)), Csv.Fields(lines[i + 1].cells);
           && LastUnder(header, cells, {"phone", "mobile", "number"}, rows[i].phone)
           && LastUnder(header, cells, {"name", "full name"}, rows[i].name)
           && LastUnder(header, cells, {"email", "e-mail"}, rows[i].email)
           && LastUnder(header, cells, {"tags", "tag"}, rows[i].tags)
           && LastUnder(header, cells, {"language", "lang"}, rows[i].language)
  {
    hide Csv.Print, Csv.Tokens, LastUnder, Mapped, Trim, Lower;
    var text := Csv.Print(lines);
    assert StripBom((if bom then "\U{FEFF}" else "") + text) == text by { BomDropped(text); }
    Csv.RoundTrip(lines);
    var rows := Parsed((if bom then "\U{FEFF}" else "") + text);
    var out := Csv.Contents(lines);
    forall i | 0 <= i < |rows|
      ensures var header, cells := Header(Csv.Fields(lines[0].cells)), Csv.Fields(lines[i + 1].cells);
        && LastUnder(header, cells, {"phone", "mobile", "number"}, rows[i].phone)
        && LastUnder(header, cells, {"name", "full name"}, rows[i].name)
        && LastUnder(header, cells, {"email", "e-mail"}, rows[i].email)
        && LastUnder(header, cells, {"tags", "tag"}, rows[i].tags)
        && LastUnder(header, cells, {"language", "lang"}, rows[i].language)
    {
      assert out[i + 1] == Csv.Fields(lines[i + 1].cells) && out[0] == Csv.Fields(lines[0].cells);
      FieldsUnder(Header(Csv.Fields(lines[0].cells)), Csv.Fields(lines[i + 1].cells));
    }
  }

  lemma BomDropped(text: string)
    ensures StripBom("\U{FEFF}" + text) == text
    ensures text != "" && text[0] != '\U{FEFF}' ==> StripBom("" + text) == text
  {
    assert "" + text == text;
  }

  method ParseCsv(input: string) returns (rows: seq<CsvRow>)
    ensures rows == Parsed(input)
  {
    hide Mapped, Header;
    var out := Csv.Tokenise(StripBom(input));
    rows := [];
    if |out| == 0 {
      return;
    }
    var header := Header(out[0]);
    for i := 1 to |out|
      invariant |rows| == i - 1 && forall j :: 0 <= j < i - 1 ==> rows[j] == Mapped(header, out[j + 1])
    {
      var obj := MapRow(header, out[i]);
      rows := rows + [obj];
    }
  }

  // ---- tags ----

  predicate Clean(t: string) { t != "" && Trim(t) == t }

  predicate AllClean(ts: seq<string>) { forall i :: 0 <= i < |ts| ==> Clean(ts[i]) }

  predicate IsTagSeparator(c: char) { c == ';' || c == '|' || c == ',' }

  function AddTag(cur: string, ts: seq<string>): (r: seq<string>)
    ensures AllClean(ts) ==> AllClean(r)
  {
    TrimIdempotent(cur);
    if Trim(cur) == "" then ts else [Trim(cur)] + ts
  }

  /** Split at ; | and comma, trimmed, blanks dropped; `cur` is the piece being read. */
  function SplitTags(s: string, cur: string): (ts: seq<string>)
    ensures AllClean(ts)
    decreases |s|
  {
    hide Trim, AddTag;
    if s == "" then AddTag(cur, [])
    else if IsTagSeparator(s[0]) then AddTag(cur, SplitTags(s[1..], ""))
    else SplitTags(s[1..], cur + [s[0]])
  }

  /** The stretches between separators; there is always one. */
  function Pieces(s: string): (ps: seq<string>)
    ensures |ps| >= 1
  {
    if s == "" then [""]
    else
      var ps := Pieces(s[1..]);
      if IsTagSeparator(s[0]) then [""] + ps else [[s[0]] + ps[0]] + ps[1..]
  }

  /** The pieces with the separators put back between them. */
  function Glue(ps: seq<string>, seps: string): string
    requires |ps| == |seps| + 1
  {
    if seps == "" then ps[0] else ps[0] + [seps[0]] + Glue(ps[1..], seps[1..])
  }

  function Trimmed(ps: seq<string>): seq<string> { if ps == [] then [] else AddTag(ps[0], Trimmed(ps[1..])) }

  /** A tag list is the text cut at every separator and nowhere else, each piece trimmed, blank ones dropped, in order. */
  lemma SplitTagsIs(s: string) returns (seps: string)
    ensures |Pieces(s)| == |seps| + 1 && Glue(Pieces(s), seps) == s
    ensures forall c :: c in seps ==> IsTagSeparator(c)
    ensures forall p, c :: p in Pieces(s) && c in p ==> !IsTagSeparator(c)
    ensures SplitTags(s, "") == Trimmed(Pieces(s))
  {
    hide Pieces, SplitTags, Trimmed;
    seps := PiecesCut(s);
    SplitFrom(s, "");
    NothingBefore(Pieces(s));
  }

  lemma NothingBefore(ps: seq<string>)
    requires |ps| >= 1
    ensures ["" + ps[0]] + ps[1..] == ps
  {
    assert "" + ps[0] == ps[0];
  }

  lemma {:induction false} SplitFrom(s: string, cur: string)
    ensures SplitTags(s, cur) == Trimmed([cur + Pieces(s)[0]] + Pieces(s)[1..])
    decreases |s|
  {
    hide Trim;
    if s == "" {
      assert cur + "" == cur;
      assert ([cur + ""] + [])[1..] == [];
    } else {
      var ps := Pieces(s[1..]);
      if IsTagSeparator(s[0]) {
        SplitFrom(s[1..], "");
        NothingBefore(ps);
        assert cur + "" == cur && ([cur] + ps)[1..] == ps;
        assert [cur + Pieces(s)[0]] + Pieces(s)[1..] == [cur] + ps;
      } else {
        SplitFrom(s[1..], cur + [s[0]]);
        assert cur + [s[0]] + ps[0] == cur + ([s[0]] + ps[0]);
        assert [cur + Pieces(s)[0]] + Pieces(s)[1..] == [cur + [s[0]] + ps[0]] + ps[1..];
      }
    }
  }

  lemma {:induction false} PiecesCut(s: string) returns (seps: string)
    ensures |Pieces(s)| == |seps| + 1 && Glue(Pieces(s), seps) == s
    ensures forall c :: c in seps ==> IsTagSeparator(c)
    ensures forall p, c :: p in Pieces(s) && c in p ==> !IsTagSeparator(c)
  {
    if s == "" {
      seps := "";
    } else {
      var rest := PiecesCut(s[1..]);
      var ps := Pieces(s[1..]);
      if IsTagSeparator(s[0]) {
        seps := [s[0]] + rest;
        assert seps[1..] == rest && ([""] + ps)[1..] == ps;
        assert "" + [s[0]] + s[1..] == s;
      } else {
        seps := rest;
        GluePrepend(s[0], ps, rest);
        assert [s[0]] + s[1..] == s;
        assert ps[0] in ps && forall p :: p in ps[1..] ==> p in ps;
      }
    }
  }

  lemma GluePrepend(c: char, ps: seq<string>, seps: string)
    requires |ps| == |seps| + 1
    ensures Glue([[c] + ps[0]] + ps[1..], seps) == [c] + Glue(ps, seps)
  {
    var qs := [[c] + ps[0]] + ps[1..];
    if seps != "" {
      assert qs[1..] == ps[1..];
      assert [c] + ps[0] + [seps[0]] + Glue(ps[1..], seps[1..]) == [c] + (ps[0] + [seps[0]] + Glue(ps[1..], seps[1..]));
    }
  }

  function TagsOf(row: CsvRow): seq<string> { SplitTags(row.tags, "") }

  /** Trimmed, blanks dropped, first occurrences kept. */
  function Dedupe(xs: seq<string>): seq<string> {
    if xs == [] then []
    else
      var n := |xs| - 1;
      var r := Dedupe(xs[..n]);
      if Trim(xs[n]) == "" || Trim(xs[n]) in r then r else r + [Trim(xs[n])]
  }

  predicate TrimsTo(xs: seq<string>, t: string) {
    xs != [] && (Trim(xs[|xs| - 1]) == t || TrimsTo(xs[..|xs| - 1], t))
  }

  lemma {:induction false} TrimsToAt(xs: seq<string>, i: nat)
    requires i < |xs|
    ensures TrimsTo(xs, Trim(xs[i]))
  {
    if i < |xs| - 1 { TrimsToAt(xs[..|xs| - 1], i); }
  }

  lemma {:induction false} DedupeClean(xs: seq<string>)
    ensures AllClean(Dedupe(xs)) && Distinct(Dedupe(xs))
  {
    hide Trim;
    if xs != [] {
      DedupeClean(xs[..|xs| - 1]);
      TrimIdempotent(xs[|xs| - 1]);
    }
  }

  lemma {:induction false} DedupeMember(xs: seq<string>, t: string)
    ensures t in Dedupe(xs) <==> t != "" && TrimsTo(xs, t)
  {
    hide Trim;
    if xs != [] {
      DedupeMember(xs[..|xs| - 1], t);
    }
  }

  lemma {:induction false} DedupeFixed(xs: seq<string>)
    requires AllClean(xs) && Distinct(xs)
    ensures Dedupe(xs) == xs
  {
    hide Trim;
    if xs != [] {
      var n := |xs| - 1;
      var front := xs[..n];
      assert forall i :: 0 <= i < n ==> front[i] == xs[i];
      DedupeFixed(front);
      assert Clean(xs[n]);
      assert xs[n] !in front;
      assert front + [xs[n]] == xs;
    }
  }

  lemma {:induction false} DedupeSame(xs: seq<string>, t: string)
    requires AllClean(xs)
    ensures t in Dedupe(xs) <==> t in xs
  {
    hide Trim;
    if xs != [] {
      var n := |xs| - 1;
      assert xs == xs[..n] + [xs[n]];
      DedupeSame(xs[..n], t);
      assert Clean(xs[n]);
    }
  }

  lemma DedupeSnoc(xs: seq<string>, t: string)
    requires Clean(t) && t in Dedupe(xs)
    ensures Dedupe(xs + [t]) == Dedupe(xs)
  {
    assert (xs + [t])[..|xs|] == xs;
  }

  /** Adding tags that are there already only removes repetitions. */
  lemma {:induction false} DedupeAbsorbs(xs: seq<string>, ts: seq<string>)
    requires AllClean(xs) && forall t :: t in ts ==> t in xs
    ensures Dedupe(xs + ts) == Dedupe(xs)
  {
    hide Dedupe, Trim;
    if ts == [] {
      assert xs + ts == xs;
    } else {
      var n := |ts| - 1;
      var t := ts[n];
      assert t in ts;
      DedupeAbsorbs(xs, ts[..n]);
      DedupeSame(xs, t);
      var i :| 0 <= i < |xs| && xs[i] == t;
      assert Clean(xs[i]);
      DedupeSnoc(xs + ts[..n], t);
      assert xs + ts == xs + ts[..n] + [t];
    }
  }

  lemma DedupeSameSet(xs: seq<string>)
    requires AllClean(xs)
    ensures forall t :: t in Dedupe(xs) <==> t in xs
  {
    hide Dedupe;
    forall t ensures t in Dedupe(xs) <==> t in xs { DedupeSame(xs, t); }
  }

  // ---- one row ----

  datatype Contact = Contact(name: Option<string>, email: Option<string>, language: string, tags: seq<string>)

  type Key = (string, string)
  type Table = map<Key, Contact>

  function Phone(row: CsvRow): string { Digits(row.phone) }

  function Created(row: CsvRow): Contact {
    Contact(if row.name != "" then Some(row.name) else None,
            if row.email != "" then Some(row.email) else None,
            if row.language != "" then row.language else "en",
            TagsOf(row))
  }

  function Updated(c: Contact, row: CsvRow): Contact {
    Contact(if row.name != "" then Some(row.name) else c.name,
            if row.email != "" then Some(row.email) else c.email,
            if row.language != "" then row.language else c.language,
            if TagsOf(row) != [] then Dedupe(c.tags + TagsOf(row)) else c.tags)
  }

  datatype Reason = MissingPhone | DatabaseError

  datatype Report = Report(total: nat, created: nat, updated: nat, skipped: nat, errors: seq<(nat, Reason)>)

  /** Row i of the import; `fails` are the rows whose database call throws. */
  function ImportRow(t: Table, r: Report, client: string, row: CsvRow, i: nat, fails: set<nat>): (Table, Report) {
    var k := (client, Phone(row));
    if Phone(row) == "" then (t, r.(skipped := r.skipped + 1, errors := r.errors + [(i + 2, MissingPhone)]))
    else if i in fails then (t, r.(skipped := r.skipped + 1, errors := r.errors + [(i + 2, DatabaseError)]))
    else if k in t then (t[k := Updated(t[k], row)], r.(updated := r.updated + 1))
    else (t[k := Created(row)], r.(created := r.created + 1))
  }

  function Import(t: Table, client: string, rows: seq<CsvRow>, total: nat, fails: set<nat>): (Table, Report) {
    if rows == [] then (t, Report(total, 0, 0, 0, []))
    else
      var n := |rows| - 1;
      var (t', r) := Import(t, client, rows[..n], total, fails);
      ImportRow(t', r, client, rows[n], n, fails)
  }

  lemma ImportNothing(t: Table, client: string, total: nat, fails: set<nat>)
    ensures Import(t, client, [], total, fails) == (t, Report(total, 0, 0, 0, []))
  {
  }

  lemma ImportOneMore(t: Table, client: string, rows: seq<CsvRow>, i: nat, total: nat, fails: set<nat>)
    requires i < |rows|
    ensures var (t', r) := Import(t, client, rows[..i], total, fails);
      Import(t, client, rows[..i + 1], total, fails) == ImportRow(t', r, client, rows[i], i, fails)
  {
    assert rows[..i + 1][..i] == rows[..i];
  }

  class ContactService {
    var contacts: Table

    method ImportCsv(client: string, csv: string, fails: set<nat>) returns (result: Report)
      modifies this
      ensures (contacts, result) == Import(old(contacts), client, Parsed(csv), |Parsed(csv)|, fails)
      ensures result.created + result.updated + result.skipped == result.total == |Parsed(csv)|
      ensures |result.errors| == result.skipped
    {
      hide Digits, SplitTags, Dedupe, Parsed, Import;
      ImportNothing(contacts, client, |Parsed(csv)|, fails);
      var rows := ParseCsv(csv);
      result := Report(|rows|, 0, 0, 0, []);
      assert rows[..0] == [];
      for i := 0 to |rows|
        invariant (contacts, result) == Import(old(contacts), client, rows[..i], |rows|, fails)
      {
        var row := rows[i];
        ImportOneMore(old(contacts), client, rows, i, |rows|, fails);
        var phone := Digits(row.phone);
        if phone == "" {
          result := result.(skipped := result.skipped + 1, errors := result.errors + [(i + 2, MissingPhone)]);
          continue;
        }
        var tags := SplitTags(row.tags, "");
        if i in fails {
          result := result.(skipped := result.skipped + 1, errors := result.errors + [(i + 2, DatabaseError)]);
        } else if (client, phone) in contacts {
          var c := contacts[(client, phone)];
          contacts := contacts[(client, phone) :=
            Contact(if row.name != "" then Some(row.name) else c.name,
                    if row.email != "" then Some(row.email) else c.email,
                    if row.language != "" then row.language else c.language,
                    if |tags| > 0 then Dedupe(c.tags + tags) else c.tags)];
          result := result.(updated := result.updated + 1);
        } else {
          contacts := contacts[(client, phone) :=
            Contact(if row.name != "" then Some(row.name) else None,
                    if row.email != "" then Some(row.email) else None,
                    if row.language != "" then row.language else "en",
                    tags)];
          result := result.(created := result.created + 1);
        }
      }
      assert rows[..|rows|] == rows;
      Conservation(old(contacts), client, rows, |rows|, fails);
    }
  }

  /** Every row is created, updated or skipped, every skip is reported, the table grows by the contacts
      created and by nothing else, and no contact is lost. */
  lemma {:induction false} Conservation(t: Table, client: string, rows: seq<CsvRow>, total: nat, fails: set<nat>)
    ensures var (t', r) := Import(t, client, rows, total, fails);
      && r.created + r.updated + r.skipped == |rows| && |r.errors| == r.skipped && r.total == total
      && |t'| == |t| + r.created && t.Keys <= t'.Keys
      && (forall k :: k in t' && (k !in t || t'[k] != t[k]) ==> k.0 == client && k.1 != "")
  {
    hide Digits, Created, Updated;
    if rows != [] {
      Conservation(t, client, rows[..|rows| - 1], total, fails);
    }
  }

  predicate GivenTag(rows: seq<CsvRow>, p: string, tag: string) {
    exists i :: 0 <= i < |rows| && Phone(rows[i]) == p && tag in TagsOf(rows[i])
  }

  /** What the contact held before the import; a new one has no name and no e-mail and speaks English. */
  function Base(t: Table, k: Key): Contact { if k in t then t[k] else Contact(None, None, "en", []) }

  ghost predicate Gives(was: Contact, c: Contact, rows: seq<CsvRow>, p: string) {
    && (forall f :: Value(c, f) == if Last(rows, p, f).Some? then Last(rows, p, f) else Value(was, f))
    && AllClean(c.tags)
    && (forall tag :: tag in c.tags <==> tag in was.tags || GivenTag(rows, p, tag))
  }

  /** Exactly what an import leaves: a contact appears if and only if a row has its phone; each of its values is the
      last one its rows give, or else what it was; its tags are the old ones and those of its rows. */
  lemma {:induction false} ImportGives(t: Table, client: string, rows: seq<CsvRow>, total: nat, p: string)
    requires p != "" && AllClean(Base(t, (client, p)).tags)
    ensures var t' := Import(t, client, rows, total, {}).0; var k := (client, p);
      && (k in t' <==> k in t || Mentions(rows, p))
      && (k in t' ==> Gives(Base(t, k), t'[k], rows, p))
  {
    hide Digits, Updated, Created, Gives, Mentions, TagsOf;
    var k := (client, p);
    if rows == [] {
      NothingGiven(Base(t, k), p);
    } else {
      var n := |rows| - 1;
      ImportGives(t, client, rows[..n], total, p);
      var before := Import(t, client, rows[..n], total, {}).0;
      MentionsSnoc(rows, p);
      if Phone(rows[n]) == p {
        if k in before {
          UpdatedGives(Base(t, k), before[k], rows, p);
        } else {
          CreatedGives(rows, p);
        }
      } else if k in before {
        OtherGives(Base(t, k), before[k], rows, p);
      }
    }
  }

  lemma NothingGiven(c: Contact, p: string)
    requires AllClean(c.tags)
    ensures !Mentions([], p) && Gives(c, c, [], p)
  {
  }

  lemma MentionsSnoc(rows: seq<CsvRow>, p: string)
    requires rows != []
    ensures Mentions(rows, p) <==> Mentions(rows[..|rows| - 1], p) || Phone(rows[|rows| - 1]) == p
  {
    hide Phone;
    var front := rows[..|rows| - 1];
    assert forall i :: 0 <= i < |front| ==> front[i] == rows[i];
    if Mentions(front, p) {
      var i :| 0 <= i < |front| && Phone(front[i]) == p;
      assert Phone(rows[i]) == p;
    }
    if Mentions(rows, p) && Phone(rows[|rows| - 1]) != p {
      var i :| 0 <= i < |rows| && Phone(rows[i]) == p;
      assert Phone(front[i]) == p;
    }
  }

  lemma GivenSnoc(rows: seq<CsvRow>, p: string, tag: string)
    requires rows != []
    ensures var n := |rows| - 1;
      GivenTag(rows, p, tag) <==> GivenTag(rows[..n], p, tag) || (Phone(rows[n]) == p && tag in TagsOf(rows[n]))
  {
    hide Phone, TagsOf;
    var front := rows[..|rows| - 1];
    assert forall i :: 0 <= i < |front| ==> front[i] == rows[i];
    if GivenTag(front, p, tag) {
      var i :| 0 <= i < |front| && Phone(front[i]) == p && tag in TagsOf(front[i]);
      assert Phone(rows[i]) == p && tag in TagsOf(rows[i]);
    }
    if GivenTag(rows, p, tag) {
      var i :| 0 <= i < |rows| && Phone(rows[i]) == p && tag in TagsOf(rows[i]);
      if i < |front| { assert Phone(front[i]) == p && tag in TagsOf(front[i]); }
    }
  }

  lemma OtherGives(was: Contact, c: Contact, rows: seq<CsvRow>, p: string)
    requires rows != [] && Gives(was, c, rows[..|rows| - 1], p) && Phone(rows[|rows| - 1]) != p
    ensures Gives(was, c, rows, p)
  {
    hide Phone, TagsOf, GivenTag;
    forall tag ensures tag in c.tags <==> tag in was.tags || GivenTag(rows, p, tag) { GivenSnoc(rows, p, tag); }
  }

  lemma UpdatedGives(was: Contact, c: Contact, rows: seq<CsvRow>, p: string)
    requires rows != [] && Gives(was, c, rows[..|rows| - 1], p) && Phone(rows[|rows| - 1]) == p
    ensures Gives(was, Updated(c, rows[|rows| - 1]), rows, p)
  {
    hide Phone, TagsOf, GivenTag, Updated, Value, Of;
    var row := rows[|rows| - 1];
    var u := Updated(c, row);
    forall f ensures Value(u, f) == if Last(rows, p, f).Some? then Last(rows, p, f) else Value(was, f) { UpdatedValue(c, row, f); }
    UpdatedTags(c, row);
    forall tag ensures tag in u.tags <==> tag in was.tags || GivenTag(rows, p, tag) {
      GivenSnoc(rows, p, tag);
      UpdatedOnly(c, row, tag);
    }
  }

  lemma UpdatedOnly(c: Contact, row: CsvRow, tag: string)
    requires AllClean(c.tags)
    ensures tag in Updated(c, row).tags ==> tag in c.tags || tag in TagsOf(row)
  {
    if TagsOf(row) != [] { DedupeSame(c.tags + TagsOf(row), tag); }
  }

  lemma CreatedGives(rows: seq<CsvRow>, p: string)
    requires rows != [] && !Mentions(rows[..|rows| - 1], p) && Phone(rows[|rows| - 1]) == p
    ensures Gives(Contact(None, None, "en", []), Created(rows[|rows| - 1]), rows, p)
  {
    hide Phone;
    var front := rows[..|rows| - 1];
    var row := rows[|rows| - 1];
    forall f ensures Last(front, p, f).None? { LastUnmentioned(front, p, f); }
    forall tag ensures tag in Created(row).tags <==> GivenTag(rows, p, tag) {
      GivenSnoc(rows, p, tag);
      assert GivenTag(front, p, tag) ==> Mentions(front, p);
    }
    forall f ensures Value(Created(row), f) == if Last(rows, p, f).Some? then Last(rows, p, f) else Value(Contact(None, None, "en", []), f) {
      assert Last(front, p, f).None?;
    }
  }

  ghost predicate Listed(errors: seq<(nat, Reason)>, rows: seq<CsvRow>, fails: set<nat>) {
    && (forall i :: 0 <= i < |rows| ==> ((i + 2, MissingPhone) in errors <==> Phone(rows[i]) == ""))
    && (forall i: nat :: i < |rows| ==> ((i + 2, DatabaseError) in errors <==> Phone(rows[i]) != "" && i in fails))
    && (forall a, b :: 0 <= a < b < |errors| ==> errors[a].0 < errors[b].0)
    && (forall e :: e in errors ==> 2 <= e.0 < |rows| + 2)
  }

  lemma ListedOne(errors: seq<(nat, Reason)>, rows: seq<CsvRow>, fails: set<nat>)
    requires rows != [] && Listed(errors, rows[..|rows| - 1], fails)
    ensures var n := |rows| - 1;
      Listed(errors + (if Phone(rows[n]) == "" then [(n + 2, MissingPhone)]
                       else if n in fails then [(n + 2, DatabaseError)] else []), rows, fails)
  {
    hide Phone;
    var front := rows[..|rows| - 1];
    assert forall i :: 0 <= i < |front| ==> front[i] == rows[i];
    assert errors + [] == errors;
  }

  /** The report lists exactly the skipped rows, by their line in the file and in order: those without a digit in
      their phone, and those whose database call failed. */
  lemma {:induction false} ErrorsAre(t: Table, client: string, rows: seq<CsvRow>, total: nat, fails: set<nat>)
    ensures Listed(Import(t, client, rows, total, fails).1.errors, rows, fails)
  {
    hide Phone, Created, Updated, Listed;
    if rows == [] {
      NothingListed(fails);
    } else {
      var front := rows[..|rows| - 1];
      ErrorsAre(t, client, front, total, fails);
      ListedOne(Import(t, client, front, total, fails).1.errors, rows, fails);
      assert Import(t, client, front, total, fails).1.errors + [] == Import(t, client, front, total, fails).1.errors;
    }
  }

  lemma NothingListed(fails: set<nat>)
    ensures Listed([], [], fails)
  {
  }

  // ---- importing the same file again ----

  datatype Field = Name | Email | Language

  function Of(row: CsvRow, f: Field): string {
    match f case Name => row.name case Email => row.email case Language => row.language
  }

  function Value(c: Contact, f: Field): Option<string> {
    match f case Name => c.name case Email => c.email case Language => Some(c.language)
  }

  /** The last non-empty value the rows give this phone. */
  function Last(rows: seq<CsvRow>, p: string, f: Field): Option<string> {
    if rows == [] then None
    else
      var n := |rows| - 1;
      if Phone(rows[n]) == p && Of(rows[n], f) != "" then Some(Of(rows[n], f)) else Last(rows[..n], p, f)
  }

  predicate Mentions(rows: seq<CsvRow>, p: string) { exists i :: 0 <= i < |rows| && Phone(rows[i]) == p }

  predicate Tagged(rows: seq<CsvRow>, p: string) {
    exists i :: 0 <= i < |rows| && Phone(rows[i]) == p && TagsOf(rows[i]) != []
  }

  /** The contact already holds everything the rows say about its phone. */
  ghost predicate Absorbed(c: Contact, rows: seq<CsvRow>, p: string) {
    && (forall f :: Last(rows, p, f).Some? ==> Value(c, f) == Last(rows, p, f))
    && (Tagged(rows, p) ==> AllClean(c.tags))
    && (forall i, t :: 0 <= i < |rows| && Phone(rows[i]) == p && t in TagsOf(rows[i]) ==> t in c.tags)
  }

  /** A clean tag that is listed is kept. */
  lemma DedupeKeeps(xs: seq<string>, t: string)
    requires t in xs && Clean(t)
    ensures t in Dedupe(xs)
  {
    hide Dedupe, Trim;
    var i :| 0 <= i < |xs| && xs[i] == t;
    TrimsToAt(xs, i);
    DedupeMember(xs, t);
  }

  lemma UpdatedTags(c: Contact, row: CsvRow)
    ensures AllClean(c.tags) ==> AllClean(Updated(c, row).tags)
    ensures TagsOf(row) != [] ==> AllClean(Updated(c, row).tags)
    ensures forall t :: t in TagsOf(row) ==> t in Updated(c, row).tags
    ensures AllClean(c.tags) ==> forall t :: t in c.tags ==> t in Updated(c, row).tags
  {
    hide Dedupe, Clean;
    var ts := TagsOf(row);
    var xs := c.tags + ts;
    if ts != [] {
      DedupeClean(xs);
      forall t | t in ts ensures t in Dedupe(xs) {
        DedupeKeeps(xs, t);
      }
      if AllClean(c.tags) {
        forall t | t in c.tags ensures t in Dedupe(xs) {
          DedupeKeeps(xs, t);
        }
      }
    }
  }

  lemma UpdatedValue(c: Contact, row: CsvRow, f: Field)
    ensures Value(Updated(c, row), f) == if Of(row, f) != "" then Some(Of(row, f)) else Value(c, f)
  {
  }

  lemma AbsorbOne(c: Contact, rows: seq<CsvRow>, row: CsvRow, p: string)
    requires Absorbed(c, rows, p) && Phone(row) == p
    ensures Absorbed(Updated(c, row), rows + [row], p)
  {
    hide Digits, Updated, TagsOf, Clean, Value, Of;
    var all := rows + [row];
    var u := Updated(c, row);
    assert all[..|all| - 1] == rows;
    UpdatedTags(c, row);
    forall f ensures Last(all, p, f).Some? ==> Value(u, f) == Last(all, p, f) { UpdatedValue(c, row, f); }
    forall i, t | 0 <= i < |all| && Phone(all[i]) == p && t in TagsOf(all[i])
      ensures t in u.tags
    {
      if i < |rows| {
        assert all[i] == rows[i];
        assert Tagged(rows, p);
      }
    }
    if Tagged(all, p) && TagsOf(row) == [] {
      var i :| 0 <= i < |all| && Phone(all[i]) == p && TagsOf(all[i]) != [];
      assert rows[i] == all[i];
    }
  }

  lemma AbsorbOther(c: Contact, rows: seq<CsvRow>, row: CsvRow, p: string)
    requires Absorbed(c, rows, p) && Phone(row) != p
    ensures Absorbed(c, rows + [row], p)
  {
    var all := rows + [row];
    assert all[..|all| - 1] == rows;
    if Tagged(all, p) {
      var i :| 0 <= i < |all| && Phone(all[i]) == p && TagsOf(all[i]) != [];
      assert rows[i] == all[i];
    }
  }

  lemma AbsorbCreated(rows: seq<CsvRow>, row: CsvRow, p: string)
    requires !Mentions(rows, p) && Phone(row) == p
    ensures Absorbed(Created(row), rows + [row], p)
  {
    var all := rows + [row];
    assert all[..|all| - 1] == rows;
    forall f ensures Last(rows, p, f).None? { LastUnmentioned(rows, p, f); }
    assert forall i :: 0 <= i < |rows| ==> all[i] == rows[i];
  }

  lemma {:induction false} LastUnmentioned(rows: seq<CsvRow>, p: string, f: Field)
    requires !Mentions(rows, p)
    ensures Last(rows, p, f).None?
  {
    if rows != [] {
      var n := |rows| - 1;
      assert forall i :: 0 <= i < n ==> rows[..n][i] == rows[i];
      LastUnmentioned(rows[..n], p, f);
    }
  }

  /** After an import without database errors every phone of the file has a contact that absorbed it. */
  lemma {:induction false} ImportAbsorbs(t: Table, client: string, rows: seq<CsvRow>, total: nat, p: string)
    requires p != "" && Mentions(rows, p)
    ensures var t' := Import(t, client, rows, total, {}).0;
      (client, p) in t' && Absorbed(t'[(client, p)], rows, p)
  {
    hide Digits, Updated, Created, Absorbed;
    var n := |rows| - 1;
    var front := rows[..n];
    assert rows == front + [rows[n]];
    var before := Import(t, client, front, total, {}).0;
    if Mentions(front, p) {
      ImportAbsorbs(t, client, front, total, p);
      if Phone(rows[n]) == p {
        AbsorbOne(before[(client, p)], front, rows[n], p);
      } else {
        AbsorbOther(before[(client, p)], front, rows[n], p);
      }
    } else {
      var i :| 0 <= i < |rows| && Phone(rows[i]) == p;
      assert forall j :: 0 <= j < n ==> front[j] == rows[j];
      assert i == n;
      if (client, p) in before {
        AbsorbFirst(before[(client, p)], front, rows[n], p);
      } else {
        AbsorbCreated(front, rows[n], p);
      }
    }
  }

  lemma AbsorbFirst(c: Contact, rows: seq<CsvRow>, row: CsvRow, p: string)
    requires !Mentions(rows, p) && Phone(row) == p
    ensures Absorbed(Updated(c, row), rows + [row], p)
  {
    forall f ensures Last(rows, p, f).None? { LastUnmentioned(rows, p, f); }
    assert Absorbed(c, rows, p);
    AbsorbOne(c, rows, row, p);
  }

  /** What the rows make of an existing contact. */
  function After(c: Contact, rows: seq<CsvRow>, p: string): Contact {
    if rows == [] then c
    else
      var n := |rows| - 1;
      var c' := After(c, rows[..n], p);
      if Phone(rows[n]) == p then Updated(c', rows[n]) else c'
  }

  lemma {:induction false} ImportAfter(t: Table, client: string, rows: seq<CsvRow>, total: nat, p: string)
    requires p != "" && (client, p) in t
    ensures var t' := Import(t, client, rows, total, {}).0;
      (client, p) in t' && t'[(client, p)] == After(t[(client, p)], rows, p)
  {
    if rows != [] {
      ImportAfter(t, client, rows[..|rows| - 1], total, p);
    }
  }

  lemma {:induction false} AfterValue(c: Contact, rows: seq<CsvRow>, p: string, f: Field)
    ensures Value(After(c, rows, p), f) == if Last(rows, p, f).Some? then Last(rows, p, f) else Value(c, f)
  {
    if rows != [] {
      AfterValue(c, rows[..|rows| - 1], p, f);
    }
  }

  lemma TaggedSnoc(rows: seq<CsvRow>, p: string)
    requires rows != []
    ensures var n := |rows| - 1;
      Tagged(rows, p) <==> Tagged(rows[..n], p) || (Phone(rows[n]) == p && TagsOf(rows[n]) != [])
  {
    hide Phone, TagsOf;
    var n := |rows| - 1;
    var front := rows[..n];
    assert forall i :: 0 <= i < n ==> front[i] == rows[i];
    if Tagged(front, p) {
      var i :| 0 <= i < |front| && Phone(front[i]) == p && TagsOf(front[i]) != [];
      assert Phone(rows[i]) == p && TagsOf(rows[i]) != [];
    }
    if Tagged(rows, p) && !(Phone(rows[n]) == p && TagsOf(rows[n]) != []) {
      var i :| 0 <= i < |rows| && Phone(rows[i]) == p && TagsOf(rows[i]) != [];
      assert Phone(front[i]) == p && TagsOf(front[i]) != [];
    }
  }

  /** Rows whose tags are all there leave the tags alone, or remove repetitions once. */
  lemma {:induction false} AfterTags(c: Contact, rows: seq<CsvRow>, p: string)
    requires Tagged(rows, p) ==> AllClean(c.tags)
    requires forall i, t :: 0 <= i < |rows| && Phone(rows[i]) == p && t in TagsOf(rows[i]) ==> t in c.tags
    ensures After(c, rows, p).tags == if Tagged(rows, p) then Dedupe(c.tags) else c.tags
  {
    hide Dedupe, Tagged, Phone, TagsOf;
    if rows == [] {
      NoneTagged(p);
    } else {
      var n := |rows| - 1;
      var front := rows[..n];
      assert forall i :: 0 <= i < n ==> front[i] == rows[i];
      TaggedSnoc(rows, p);
      AfterTags(c, front, p);
      var ts := TagsOf(rows[n]);
      if Phone(rows[n]) == p && ts != [] {
        DedupeSameSet(c.tags);
        DedupeClean(c.tags);
        DedupeFixed(Dedupe(c.tags));
        DedupeAbsorbs(if Tagged(front, p) then Dedupe(c.tags) else c.tags, ts);
      }
    }
  }

  lemma NoneTagged(p: string)
    ensures !Tagged([], p)
  {
  }

  ghost predicate SameTags(a: seq<string>, b: seq<string>) { forall t :: t in a <==> t in b }

  /** Importing absorbed rows again changes no name, email, language or tag set, and keeps them absorbed. */
  lemma AfterAbsorbed(c: Contact, rows: seq<CsvRow>, p: string)
    requires Absorbed(c, rows, p)
    ensures var c' := After(c, rows, p);
      && c'.name == c.name && c'.email == c.email && c'.language == c.language
      && SameTags(c'.tags, c.tags) && Absorbed(c', rows, p)
      && (Tagged(rows, p) ==> Distinct(c'.tags))
  {
    var c' := After(c, rows, p);
    forall f ensures Value(c', f) == Value(c, f) { AfterValue(c, rows, p, f); }
    assert Value(c', Name) == Value(c, Name) && Value(c', Email) == Value(c, Email) && Value(c', Language) == Value(c, Language);
    AfterTags(c, rows, p);
    if Tagged(rows, p) {
      DedupeSameSet(c.tags);
      DedupeClean(c.tags);
    }
  }

  function Skipped(rows: seq<CsvRow>): nat {
    if rows == [] then 0 else Skipped(rows[..|rows| - 1]) + (if Phone(rows[|rows| - 1]) == "" then 1 else 0)
  }

  lemma {:induction false} KnownPhones(t: Table, client: string, rows: seq<CsvRow>, total: nat)
    requires forall i :: 0 <= i < |rows| && Phone(rows[i]) != "" ==> (client, Phone(rows[i])) in t
    ensures var (t', r) := Import(t, client, rows, total, {});
      && t'.Keys == t.Keys && r.created == 0 && r.skipped == Skipped(rows) && r.updated == |rows| - Skipped(rows)
  {
    if rows != [] {
      var n := |rows| - 1;
      assert forall i :: 0 <= i < n ==> rows[..n][i] == rows[i];
      KnownPhones(t, client, rows[..n], total);
    }
  }

  lemma {:induction false} Untouched(t: Table, client: string, rows: seq<CsvRow>, total: nat, k: Key)
    requires k in t && (k.0 != client || k.1 == "" || !Mentions(rows, k.1))
    ensures var t' := Import(t, client, rows, total, {}).0; k in t' && t'[k] == t[k]
  {
    if rows != [] {
      var n := |rows| - 1;
      assert forall i :: 0 <= i < n ==> rows[..n][i] == rows[i];
      Untouched(t, client, rows[..n], total, k);
    }
  }

  ghost predicate Holds(t: Table, client: string, rows: seq<CsvRow>) {
    forall i :: 0 <= i < |rows| && Phone(rows[i]) != "" ==>
      (client, Phone(rows[i])) in t && Absorbed(t[(client, Phone(rows[i]))], rows, Phone(rows[i]))
  }

  lemma ImportHolds(t: Table, client: string, rows: seq<CsvRow>)
    ensures Holds(Import(t, client, rows, |rows|, {}).0, client, rows)
  {
    forall i | 0 <= i < |rows| && Phone(rows[i]) != ""
      ensures var t' := Import(t, client, rows, |rows|, {}).0;
        (client, Phone(rows[i])) in t' && Absorbed(t'[(client, Phone(rows[i]))], rows, Phone(rows[i]))
    {
      assert Mentions(rows, Phone(rows[i]));
      ImportAbsorbs(t, client, rows, |rows|, Phone(rows[i]));
    }
  }

  /** One contact under a further import of rows it has absorbed. */
  lemma AgainOne(t: Table, client: string, rows: seq<CsvRow>, k: Key)
    requires Holds(t, client, rows) && k in t
    ensures var t' := Import(t, client, rows, |rows|, {}).0; k in t' && var c := t[k]; var c' := t'[k];
      && c'.name == c.name && c'.email == c.email && c'.language == c.language && SameTags(c'.tags, c.tags)
      && (c' == c || (k.0 == client && k.1 != "" && Tagged(rows, k.1) && c'.tags == Dedupe(c.tags)))
      && (k.0 == client && k.1 != "" && Tagged(rows, k.1) ==> Distinct(c'.tags) && AllClean(c'.tags))
  {
    if k.0 == client && k.1 != "" && Mentions(rows, k.1) {
      var i :| 0 <= i < |rows| && Phone(rows[i]) == k.1;
      assert Absorbed(t[k], rows, k.1);
      assert k == (client, k.1);
      ImportAfter(t, client, rows, |rows|, k.1);
      AfterAbsorbed(t[k], rows, k.1);
      AfterTags(t[k], rows, k.1);
    } else {
      Untouched(t, client, rows, |rows|, k);
    }
  }

  /** The second import of a file creates nothing, updates exactly the rows with a phone, and changes no
      name, email, language or set of tags of any contact. */
  lemma SecondImport(t: Table, client: string, rows: seq<CsvRow>)
    ensures var t1 := Import(t, client, rows, |rows|, {}).0;
      var (t2, r) := Import(t1, client, rows, |rows|, {});
      && r.created == 0 && r.skipped == Skipped(rows) && r.updated == |rows| - Skipped(rows)
      && t2.Keys == t1.Keys
      && forall k :: k in t1 ==> t2[k].name == t1[k].name && t2[k].email == t1[k].email
                                 && t2[k].language == t1[k].language && SameTags(t2[k].tags, t1[k].tags)
  {
    var t1 := Import(t, client, rows, |rows|, {}).0;
    ImportHolds(t, client, rows);
    KnownPhones(t1, client, rows, |rows|);
    var t2 := Import(t1, client, rows, |rows|, {}).0;
    forall k | k in t1
      ensures t2[k].name == t1[k].name && t2[k].email == t1[k].email
              && t2[k].language == t1[k].language && SameTags(t2[k].tags, t1[k].tags)
    {
      AgainOne(t1, client, rows, k);
    }
  }

  /** From the second import on the table no longer changes at all. */
  lemma ThirdImport(t: Table, client: string, rows: seq<CsvRow>)
    ensures var t1 := Import(t, client, rows, |rows|, {}).0;
      var t2 := Import(t1, client, rows, |rows|, {}).0;
      Import(t2, client, rows, |rows|, {}).0 == t2
  {
    hide Import, Dedupe, Holds;
    var t1 := Import(t, client, rows, |rows|, {}).0;
    var t2 := Import(t1, client, rows, |rows|, {}).0;
    var t3 := Import(t2, client, rows, |rows|, {}).0;
    ImportHolds(t, client, rows);
    ImportHolds(t1, client, rows);
    forall k | k in t2 ensures k in t3 && t3[k] == t2[k] {
      SameKeys(t, client, rows);
      AgainOne(t1, client, rows, k);
      AgainOne(t2, client, rows, k);
      if t3[k] != t2[k] {
        DedupeFixed(t2[k].tags);
      }
    }
    SameKeys(t, client, rows);
    SameKeys(t1, client, rows);
  }

  lemma SameKeys(t: Table, client: string, rows: seq<CsvRow>)
    ensures var t1 := Import(t, client, rows, |rows|, {}).0;
      Import(t1, client, rows, |rows|, {}).0.Keys == t1.Keys
  {
    ImportHolds(t, client, rows);
    KnownPhones(Import(t, client, rows, |rows|, {}).0, client, rows, |rows|);
  }
}
