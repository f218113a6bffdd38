// The admin waiting-list page's CSV export: a header and one line per
// entry, every field wrapped in double quotes. Quotes inside a field are not
// escaped.

module WaitingList {

  import opened Strings

  /** A waiting-list entry; `createdShown` is the creation time as the page
    * formats it ("dd/MM/yyyy HH:mm"), kept opaque. */
  datatype Entry = Entry(name: string, email: string, phone: Option<string>, createdShown: string)

  const Header := "Nome," + "Email," + "Telefone," + "Data de Cadastro"

  function Quoted(field: string): (r: string)
    ensures |r| == |field| + 2 && r[0] == '"' && r[|r| - 1] == '"' && r[1..|r| - 1] == field
  {
    "\"" + field + "\""
  }

  function EntryLine(e: Entry): string {
    Quoted(e.name) + "," + Quoted(e.email) + "," + Quoted(OrEmpty(e.phone)) + "," + Quoted(e.createdShown)
  }

  function EntryLines(entries: seq<Entry>): (r: seq<string>)
    ensures |r| == |entries|
    ensures forall k :: 0 <= k < |entries| ==> r[k] == EntryLine(entries[k])
  {
    seq(|entries|, k requires 0 <= k < |entries| => EntryLine(entries[k]))
  }

  /** `exportToCSV`: nothing when the list is missing or empty, otherwise the
    * header line and the entry lines joined by newlines. */
  function Export(entries: Option<seq<Entry>>): (r: Option<string>)
    ensures r.None? <==> entries.None? || entries.value == []
    ensures r.Some? ==> r.value == Join([Header] + EntryLines(entries.value), '\n')
  {
    if entries.None? || entries.value == [] then None
    else Some(Join([Header] + EntryLines(entries.value), '\n'))
  }

  predicate NoNewline(e: Entry) {
    '\n' !in e.name && '\n' !in e.email && '\n' !in OrEmpty(e.phone) && '\n' !in e.createdShown
  }

  lemma QuotedNoNewline(field: string)
    requires '\n' !in field
    ensures '\n' !in Quoted(field)
  {
    assert Quoted(field) == "\"" + field + "\"";
  }

  lemma EntryLineNoNewline(e: Entry)
    requires NoNewline(e)
    ensures '\n' !in EntryLine(e)
  {
    QuotedNoNewline(e.name);
    QuotedNoNewline(e.email);
    QuotedNoNewline(OrEmpty(e.phone));
    QuotedNoNewline(e.createdShown);
    var a, b, c, d := Quoted(e.name), Quoted(e.email), Quoted(OrEmpty(e.phone)), Quoted(e.createdShown);
    assert EntryLine(e) == a + "," + b + "," + c + "," + d;
  }

  lemma HeaderAndLines(lines: seq<string>)
    requires forall k :: 0 <= k < |lines| ==> '\n' !in lines[k]
    ensures Split(Join([Header] + lines, '\n'), '\n') == [Header] + lines
  {
    assert '\n' !in Header;
    SplitJoinWithHeader(Header, lines, '\n');
  }

  /** Read back line by line, the export has `|entries| + 1` lines: the
    * header, then each entry's line in order (no field holding a newline). */
  lemma ExportLines(entries: seq<Entry>)
    requires entries != []
    requires forall k :: 0 <= k < |entries| ==> NoNewline(entries[k])
    ensures var lines := Split(Export(Some(entries)).value, '\n');
            |lines| == |entries| + 1 && lines[0] == Header &&
            forall k :: 0 <= k < |entries| ==> lines[k + 1] == EntryLine(entries[k])
  {
    var lines := EntryLines(entries);
    forall k | 0 <= k < |lines| ensures '\n' !in lines[k] {
      EntryLineNoNewline(entries[k]);
    }
    HeaderAndLines(lines);
  }

  /** Every field of a line is wrapped in quotes, a missing phone as `""`. */
  lemma EntryLineShape(e: Entry)
    ensures var line := EntryLine(e);
            line[0] == '"' && line[|line| - 1] == '"' &&
            (e.phone.None? ==> Contains(line, ",\"\","))
  {
    var line := EntryLine(e);
    var a, b, d := Quoted(e.name), Quoted(e.email), Quoted(e.createdShown);
    if e.phone.None? {
      assert line == a + "," + b + ",\"\"," + d;
      ContainsInfix(a + "," + b, ",\"\",", d);
      assert a + "," + b + ",\"\"," + d == (a + "," + b) + ",\"\"," + d;
    }
  }
}
