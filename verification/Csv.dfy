/** The report printer, against a reader that follows the grammar of section 2 of RFC 4180. */
module Csv {
  import opened Options

  const CRLF := "\r\n"

  predicate Special(c: char) {
    c == '"' || c == ',' || c == '\n' || c == '\r'
  }

  /** A table in which every row has a field. */
  predicate Full(table: seq<seq<string>>) {
    forall i | 0 <= i < |table| :: table[i] != []
  }

  // ---- the printer ----

  function Doubled(s: string): string {
    if s == "" then "" else (if s[0] == '"' then "\"\"" else [s[0]]) + Doubled(s[1..])
  }

  predicate NeedsQuotes(val: string) {
    exists i | 0 <= i < |val| :: Special(val[i])
  }

  function Escape(val: string): string {
    if NeedsQuotes(val) then "\"" + Doubled(val) + "\"" else val
  }

  function Join(parts: seq<string>, sep: string): string {
    if parts == [] then ""
    else if |parts| == 1 then parts[0]
    else parts[0] + sep + Join(parts[1..], sep)
  }

  function Escaped(row: seq<string>): seq<string> {
    seq(|row|, i requires 0 <= i < |row| => Escape(row[i]))
  }

  function Line(row: seq<string>): string {
    Join(Escaped(row), ",")
  }

  function Lines(table: seq<seq<string>>): seq<string> {
    seq(|table|, i requires 0 <= i < |table| => Line(table[i]))
  }

  function Print(table: seq<seq<string>>): string {
    Join(Lines(table), CRLF)
  }

  method BuildCsv(headers: seq<string>, rows: seq<seq<string>>) returns (csv: string)
    ensures csv == Print([headers] + rows)
  {
    var lines := [Join(Escaped(headers), ",")];
    for i := 0 to |rows|
      invariant lines == Lines([headers] + rows[..i])
    {
      lines := lines + [Join(Escaped(rows[i]), ",")];
      assert [headers] + rows[..i + 1] == ([headers] + rows[..i]) + [rows[i]];
    }
    assert rows[..|rows|] == rows;
    csv := Join(lines, CRLF);
  }

  // ---- the reader ----

  datatype Field = Field(value: string, rest: string)

  /** The longest run of unquoted text. */
  function ReadPlain(s: string): (f: Field)
    ensures s == f.value + f.rest
  {
    if s == "" || Special(s[0]) then Field("", s)
    else var f := ReadPlain(s[1..]); Field([s[0]] + f.value, f.rest)
  }

  /** Quoted text after its opening quote; a doubled quote stands for one. */
  function ReadQuoted(s: string): (f: Option<Field>)
    ensures f.Some? ==> |f.value.rest| < |s|
  {
    if s == "" then None
    else if s[0] != '"' then
      var f := ReadQuoted(s[1..]);
      if f.None? then None else Some(Field([s[0]] + f.value.value, f.value.rest))
    else if |s| > 1 && s[1] == '"' then
      var f := ReadQuoted(s[2..]);
      if f.None? then None else Some(Field(['"'] + f.value.value, f.value.rest))
    else Some(Field("", s[1..]))
  }

  function ReadField(s: string): (f: Option<Field>)
    ensures f.Some? ==> |f.value.rest| <= |s|
  {
    if s != "" && s[0] == '"' then ReadQuoted(s[1..]) else Some(ReadPlain(s))
  }

  predicate StartsWithBreak(s: string) {
    |s| >= 2 && s[0] == '\r' && s[1] == '\n'
  }

  /** Records separated by line breaks, of fields separated by commas. */
  function Read(s: string): (table: Option<seq<seq<string>>>)
    ensures table.Some? ==> table.value != [] && Full(table.value)
    decreases |s|
  {
    var f := ReadField(s);
    if f.None? then None
    else
      var Field(value, rest) := f.value;
      if rest == "" then Some([[value]])
      else if rest[0] == ',' then
        var more := Read(rest[1..]);
        if more.None? then None else Some([[value] + more.value[0]] + more.value[1..])
      else if StartsWithBreak(rest) then
        var more := Read(rest[2..]);
        if more.None? then None else Some([[value]] + more.value)
      else None
  }

  predicate EndsWithBreak(s: string) {
    |s| >= 2 && s[|s| - 2] == '\r' && s[|s| - 1] == '\n'
  }

  /** The reading that takes a line break at the very end as the end of the last record, which the
      grammar allows. */
  function ReadTerminated(s: string): Option<seq<seq<string>>> {
    if EndsWithBreak(s) then Read(s[..|s| - 2]) else Read(s)
  }

  // ---- one field ----

  /** What may follow a field. */
  predicate Stops(rest: string) {
    rest == "" || rest[0] == ',' || StartsWithBreak(rest)
  }

  lemma {:induction false} PlainRoundTrip(val: string, rest: string)
    requires !NeedsQuotes(val)
    requires Stops(rest)
    ensures ReadPlain(val + rest) == Field(val, rest)
  {
    if val == "" {
      assert val + rest == rest;
    } else {
      assert (val + rest)[1..] == val[1..] + rest;
      PlainRoundTrip(val[1..], rest);
    }
  }

  lemma QuotedStep(c: char, more: string, val: string, rest: string)
    requires ReadQuoted(more) == Some(Field(val, rest))
    ensures ReadQuoted((if c == '"' then "\"\"" else [c]) + more) == Some(Field([c] + val, rest))
  {
    if c == '"' {
      assert ("\"\"" + more)[2..] == more;
    } else {
      assert ([c] + more)[1..] == more;
    }
  }

  lemma DoubledHead(val: string, rest: string)
    requires val != ""
    ensures Doubled(val) + "\"" + rest ==
      (if val[0] == '"' then "\"\"" else [val[0]]) + (Doubled(val[1..]) + "\"" + rest)
  {
  }

  lemma {:induction false} QuotedRoundTrip(val: string, rest: string)
    requires rest == "" || rest[0] != '"'
    ensures ReadQuoted(Doubled(val) + "\"" + rest) == Some(Field(val, rest))
  {
    if val == "" {
      assert Doubled(val) + "\"" + rest == "\"" + rest;
      assert ("\"" + rest)[1..] == rest;
    } else {
      QuotedRoundTrip(val[1..], rest);
      QuotedStep(val[0], Doubled(val[1..]) + "\"" + rest, val[1..], rest);
      DoubledHead(val, rest);
      assert [val[0]] + val[1..] == val;
    }
  }

  lemma FieldRoundTrip(val: string, rest: string)
    requires Stops(rest)
    ensures ReadField(Escape(val) + rest) == Some(Field(val, rest))
  {
    if NeedsQuotes(val) {
      QuotedFieldRoundTrip(val, rest);
    } else {
      PlainFieldRoundTrip(val, rest);
    }
  }

  lemma QuotedFieldRoundTrip(val: string, rest: string)
    requires Stops(rest) && NeedsQuotes(val)
    ensures ReadField(Escape(val) + rest) == Some(Field(val, rest))
  {
    var text := Doubled(val) + "\"" + rest;
    QuotedRoundTrip(val, rest);
    OpeningQuote(text);
    Regroup(Doubled(val), rest);
  }

  lemma Regroup(doubled: string, rest: string)
    ensures "\"" + doubled + "\"" + rest == "\"" + (doubled + "\"" + rest)
  {
  }

  lemma OpeningQuote(text: string)
    ensures ReadField("\"" + text) == ReadQuoted(text)
  {
    assert ("\"" + text)[1..] == text;
  }

  lemma PlainFieldRoundTrip(val: string, rest: string)
    requires Stops(rest) && !NeedsQuotes(val)
    ensures ReadField(Escape(val) + rest) == Some(Field(val, rest))
  {
    PlainRoundTrip(val, rest);
    var s := val + rest;
    if val != "" {
      assert s[0] == val[0] && !Special(val[0]);
    } else {
      assert s == rest;
    }
  }

  /** A field is printed as it is exactly if it holds no quote, comma or line break of either kind;
      otherwise it is put in quotes. */
  lemma EscapesIff(val: string)
    ensures Escape(val) == val <==> '"' !in val && ',' !in val && '\n' !in val && '\r' !in val
    ensures Escape(val) != val ==> |Escape(val)| >= |val| + 2 && Escape(val)[0] == '"'
  {
    DoubledIsLonger(val);
  }

  lemma {:induction false} DoubledIsLonger(val: string)
    ensures |Doubled(val)| >= |val|
  {
    if val != "" {
      DoubledIsLonger(val[1..]);
    }
  }

  // ---- whole tables ----

  lemma EscapedTail(row: seq<string>)
    requires row != []
    ensures Escaped(row)[1..] == Escaped(row[1..])
  {
  }

  /** Reading a line, followed by nothing or by a break and more records. */
  lemma {:induction false} LineRoundTrip(row: seq<string>, rest: string)
    requires row != []
    requires rest == "" || (StartsWithBreak(rest) && Read(rest[2..]).Some?)
    ensures Read(Line(row) + rest) == Some([row] + if rest == "" then [] else Read(rest[2..]).value)
  {
    if |row| == 1 {
      FieldRoundTrip(row[0], rest);
      assert Line(row) == Escape(row[0]);
      assert [row[0]] == row;
      assert [row] + [] == [row];
    } else {
      var more := Line(row[1..]) + rest;
      EscapedTail(row);
      assert Line(row) + rest == Escape(row[0]) + ("," + more);
      FieldRoundTrip(row[0], "," + more);
      assert ("," + more)[1..] == more;
      LineRoundTrip(row[1..], rest);
      assert [row[0]] + row[1..] == row;
      var tail := if rest == "" then [] else Read(rest[2..]).value;
      assert ([row[1..]] + tail)[1..] == tail;
    }
  }

  lemma LinesTail(table: seq<seq<string>>)
    requires table != []
    ensures Lines(table)[1..] == Lines(table[1..])
  {
  }

  /** Reading undoes printing, whatever commas, quotes and breaks the fields hold. */
  lemma {:induction false} ReadPrint(table: seq<seq<string>>)
    requires table != [] && Full(table)
    ensures Read(Print(table)) == Some(table)
  {
    if |table| == 1 {
      LineRoundTrip(table[0], "");
      assert Print(table) == Line(table[0]) == Line(table[0]) + "";
      assert [table[0]] + [] == table;
    } else {
      var rest := CRLF + Print(table[1..]);
      assert rest[2..] == Print(table[1..]);
      PrintHead(table);
      ReadPrint(table[1..]);
      LineRoundTrip(table[0], rest);
      assert [table[0]] + table[1..] == table;
    }
  }

  lemma PrintHead(table: seq<seq<string>>)
    requires |table| > 1
    ensures Print(table) == Line(table[0]) + (CRLF + Print(table[1..]))
  {
    LinesTail(table);
  }

  /** A row without fields prints like a row with one empty field. */
  function Filled(table: seq<seq<string>>): seq<seq<string>> {
    seq(|table|, i requires 0 <= i < |table| => if table[i] == [] then [""] else table[i])
  }

  lemma PrintFilled(table: seq<seq<string>>)
    ensures Print(table) == Print(Filled(table))
  {
    assert Line([]) == Line([""]) by {
      assert Escaped([""]) == [""];
    }
    assert Lines(table) == Lines(Filled(table));
  }

  /** Reading undoes printing exactly for the tables in which every row has a field. */
  lemma RoundTripIff(headers: seq<string>, rows: seq<seq<string>>)
    ensures Read(Print([headers] + rows)) == Some([headers] + rows) <==> Full([headers] + rows)
  {
    var table := [headers] + rows;
    PrintFilled(table);
    ReadPrint(Filled(table));
    if Full(table) {
      assert Filled(table) == table;
    }
  }

  /** Two tables whose rows all have fields print differently. */
  lemma PrintIsInjective(a: seq<seq<string>>, b: seq<seq<string>>)
    requires a != [] && b != []
    requires Full(a) && Full(b)
    requires Print(a) == Print(b)
    ensures a == b
  {
    ReadPrint(a);
    ReadPrint(b);
  }

  // ---- a line break at the end ----

  lemma EscapeEnds(val: string)
    ensures Escape(val) == "" <==> val == ""
    ensures val != "" ==> Escape(val)[|Escape(val)| - 1] != '\n'
  {
    if !NeedsQuotes(val) && val != "" {
      assert !Special(val[|val| - 1]);
    }
  }

  lemma {:induction false} LineEnds(row: seq<string>)
    requires row != []
    ensures Line(row) == "" <==> row == [""]
    ensures Line(row) != "" ==> Line(row)[|Line(row)| - 1] != '\n'
  {
    EscapeEnds(row[0]);
    if |row| > 1 {
      EscapedTail(row);
      LineEnds(row[1..]);
    } else {
      assert Line(row) == Escape(row[0]);
      assert row == [row[0]];
    }
  }

  lemma {:induction false} PrintEnds(table: seq<seq<string>>)
    requires table != [] && Full(table)
    ensures EndsWithBreak(Print(table)) <==> |table| > 1 && table[|table| - 1] == [""]
    ensures Print(table) != "" && !EndsWithBreak(Print(table)) ==> Print(table)[|Print(table)| - 1] != '\n'
    ensures Print(table) == "" <==> table == [[""]]
  {
    LineEnds(table[0]);
    if |table| == 1 {
      assert Print(table) == Line(table[0]);
      assert table == [table[0]];
    } else {
      LinesTail(table);
      PrintEnds(table[1..]);
      var tail := Print(table[1..]);
      assert Print(table) == Line(table[0]) + CRLF + tail;
    }
  }

  /** A reader that drops a line break at the end reads back every table except those of several
      rows of which the last is a single empty field. */
  lemma TerminatedRoundTripIff(table: seq<seq<string>>)
    requires table != [] && Full(table)
    ensures ReadTerminated(Print(table)) == Some(table) <==> !(|table| > 1 && table[|table| - 1] == [""])
  {
    PrintEnds(table);
    ReadPrint(table);
    if EndsWithBreak(Print(table)) {
      var init := table[..|table| - 1];
      assert table == init + [[""]];
      PrintSnoc(init);
      ReadPrint(init);
    }
  }

  lemma {:induction false} PrintSnoc(init: seq<seq<string>>)
    requires init != []
    ensures Print(init + [[""]]) == Print(init) + CRLF
  {
    var table := init + [[""]];
    LinesTail(table);
    assert Line([""]) == "" by { assert Escaped([""]) == [""]; }
    if |init| == 1 {
      assert table[1..] == [[""]];
      assert Print([[""]]) == Line([""]);
      assert Print(init) == Line(init[0]);
    } else {
      assert table[1..] == init[1..] + [[""]];
      PrintSnoc(init[1..]);
      LinesTail(init);
    }
  }
}
