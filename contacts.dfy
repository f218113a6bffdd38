// The admin contacts page: importing addresses from a CSV file into the
// `contacts` table, deleting a contact, and exporting the list as CSV.

module Contacts {

  import opened Strings
  import Lists

  // ---------------------------------------------------------------------
  // Recognizing the columns of a row

  /** A character the address pattern `[^\s@]` accepts. */
  predicate PlainChar(c: char) {
    !IsSpace(c) && c != '@'
  }

  predicate AllPlain(s: string) {
    forall i :: 0 <= i < |s| ==> PlainChar(s[i])
  }

  /** A dot with at least one character on each side. */
  predicate HasInnerDot(d: string) {
    exists k :: 0 < k < |d| - 1 && d[k] == '.'
  }

  /** `/^[^\s@]+@[^\s@]+\.[^\s@]+$/.test(p)`: one `@` with a non-empty part
    * before it, a part after it holding an inner dot, and no whitespace. */
  predicate IsEmailLike(p: string) {
    exists i :: 0 < i < |p| && p[i] == '@' && AllPlain(p[..i]) && AllPlain(p[i + 1..]) && HasInnerDot(p[i + 1..])
  }

  predicate NumericChar(c: char) {
    IsDigit(c) || c == ',' || c == '.' || c == 'E' || c == '+'
  }

  /** `/^[\d,\.E\+]+$/`: a number or a phone as spreadsheets write them. */
  predicate LooksNumeric(p: string) {
    p != [] && forall i :: 0 <= i < |p| ==> NumericChar(p[i])
  }

  /** A column that is taken as a name: not an address, not empty, not
    * numeric, and with a `length` over one; an emoji alone counts two. */
  predicate NameLike(p: string) {
    !IsEmailLike(p) && p != "" && !LooksNumeric(p) && JsLength(p) > 1
  }

  /** A cell holding one emoji is a name. */
  lemma EmojiIsNameLike()
    ensures NameLike("\U{1F338}")
  {
    var p := "\U{1F338}";
    assert JsLength(p) == 2 by { assert p[..0] == []; }
    assert !IsDigit(p[0]);
    assert !IsEmailLike(p);
  }

  /** A cell: trimmed, then every double quote removed. */
  function CleanCell(p: string): (r: string)
    ensures '"' !in r
  {
    RemoveChar(Trim(p), '"')
  }

  function Cells(line: string, delim: char): (r: seq<string>)
    ensures |r| == |Split(line, delim)|
    ensures forall k :: 0 <= k < |r| ==> r[k] == CleanCell(Split(line, delim)[k])
  {
    var raw := Split(line, delim);
    seq(|raw|, k requires 0 <= k < |raw| => CleanCell(raw[k]))
  }

  /** What the scan of one row's cells keeps: the last address-like cell
    * ("" when none) and the last name-like cell. */
  function Classify(cells: seq<string>): (r: (string, Option<string>))
    decreases |cells|
  {
    if cells == [] then ("", None)
    else
      var before := Classify(cells[..|cells| - 1]);
      var p := cells[|cells| - 1];
      if IsEmailLike(p) then (p, before.1)
      else if NameLike(p) then (before.0, Some(p))
      else before
  }

  /** The address kept is the last address-like cell, and only an
    * address-like cell is ever kept. */
  lemma {:induction false} ClassifyEmail(cells: seq<string>)
    ensures var e := Classify(cells).0;
            (e == "" <==> forall k :: 0 <= k < |cells| ==> !IsEmailLike(cells[k])) &&
            (e != "" ==> exists k :: 0 <= k < |cells| && cells[k] == e && IsEmailLike(e) &&
                           forall j :: k < j < |cells| ==> !IsEmailLike(cells[j]))
    decreases |cells|
  {
    if cells != [] {
      var n := |cells| - 1;
      ClassifyEmail(cells[..n]);
      var e := Classify(cells).0;
      if IsEmailLike(cells[n]) {
        assert cells[n] != "";
        assert e == cells[n];
      } else {
        assert e == Classify(cells[..n]).0;
        forall k | 0 <= k < n ensures cells[..n][k] == cells[k] { }
        if e != "" {
          var k :| 0 <= k < n && cells[..n][k] == e && IsEmailLike(e) &&
                   forall j :: k < j < n ==> !IsEmailLike(cells[..n][j]);
          assert forall j :: k < j < |cells| ==> !IsEmailLike(cells[j]);
        }
      }
    }
  }

  /** The name kept is the last name-like cell; none when there is none. */
  lemma {:induction false} ClassifyName(cells: seq<string>)
    ensures var m := Classify(cells).1;
            (m.None? <==> forall k :: 0 <= k < |cells| ==> !NameLike(cells[k])) &&
            (m.Some? ==> exists k :: 0 <= k < |cells| && cells[k] == m.value && NameLike(m.value) &&
                           forall j :: k < j < |cells| ==> !NameLike(cells[j]))
    decreases |cells|
  {
    if cells != [] {
      var n := |cells| - 1;
      ClassifyName(cells[..n]);
      var m := Classify(cells).1;
      forall k | 0 <= k < n ensures cells[..n][k] == cells[k] { }
      if !NameLike(cells[n]) {
        assert m == Classify(cells[..n]).1;
        if m.Some? {
          var k :| 0 <= k < n && cells[..n][k] == m.value && NameLike(m.value) &&
                   forall j :: k < j < n ==> !NameLike(cells[..n][j]);
          assert forall j :: k < j < |cells| ==> !NameLike(cells[j]);
        }
      }
    }
  }

  // ---------------------------------------------------------------------
  // The file

  datatype NewContact = NewContact(email: string, name: Option<string>)

  /** `text.split('\n').filter(line => line.trim())`: the pieces between
    * newlines that are not blank, in file order. */
  function DataLines(text: string): (r: seq<string>)
    ensures forall k :: 0 <= k < |r| ==> !IsBlank(r[k]) && '\n' !in r[k]
    ensures forall x :: x in r <==> x in Split(text, '\n') && !IsBlank(x)
  {
    NonBlank(Split(text, '\n'))
  }

  /** `lines.filter(line => line.trim())`. */
  function NonBlank(lines: seq<string>): (r: seq<string>)
    ensures |r| <= |lines|
    ensures forall x :: x in r <==> x in lines && !IsBlank(x)
    ensures (forall k :: 0 <= k < |lines| ==> '\n' !in lines[k]) ==>
              forall k :: 0 <= k < |r| ==> !IsBlank(r[k]) && '\n' !in r[k]
    decreases |lines|
  {
    if lines == [] then []
    else (if IsBlank(lines[0]) then [] else [lines[0]]) + NonBlank(lines[1..])
  }

  /** The filter keeps the lines in the order they came. */
  lemma {:induction false} NonBlankInOrder(lines: seq<string>)
    ensures Lists.IsSubsequence(NonBlank(lines), lines)
    decreases |lines|
  {
    if lines != [] {
      NonBlankInOrder(lines[1..]);
      var rest := NonBlank(lines[1..]);
      if !IsBlank(lines[0]) {
        assert ([lines[0]] + rest)[1..] == rest;
      } else {
        assert NonBlank(lines) == rest;
        if rest != [] {
          assert rest[0] in rest && rest[0] != lines[0];
        }
      }
    }
  }

  /** The data lines come in file order. */
  lemma DataLinesInOrder(text: string)
    ensures Lists.IsSubsequence(DataLines(text), Split(text, '\n'))
  {
    NonBlankInOrder(Split(text, '\n'));
  }

  /** The first line is taken as a header, and skipped, when it mentions
    * "email" in any letter case. */
  function HeaderRows(lines: seq<string>): (r: nat)
    requires lines != []
    ensures r <= 1 && (r == 1 <==> Contains(ToLower(lines[0]), "email"))
  {
    if Contains(ToLower(lines[0]), "email") then 1 else 0
  }

  /** One delimiter for the whole file, from its first data line (or its
    * only line). */
  function Delimiter(lines: seq<string>, start: nat): (d: char)
    requires lines != [] && start <= 1
    ensures d == ';' || d == ','
    ensures var first := if start < |lines| then lines[start] else lines[0];
            d == ';' <==> ';' in first
  {
    var first := if start < |lines| then lines[start] else lines[0];
    if ';' in first then ';' else ','
  }

  /** The contact a line yields: its address in lower case and its name. */
  function RowContacts(line: string, delim: char): (r: seq<NewContact>)
    ensures |r| <= 1
  {
    Keep(Classify(Cells(line, delim)))
  }

  /** What a scanned row contributes. */
  function Keep(scan: (string, Option<string>)): (r: seq<NewContact>)
    ensures |r| <= 1
  {
    if scan.0 == "" then [] else [NewContact(ToLower(scan.0), scan.1)]
  }

  function Collect(lines: seq<string>, delim: char): (r: seq<NewContact>)
    ensures |r| <= |lines|
    decreases |lines|
  {
    if lines == [] then []
    else Collect(lines[..|lines| - 1], delim) + RowContacts(lines[|lines| - 1], delim)
  }

  /** One more line scanned adds what it yields. */
  lemma CollectRow(data: seq<string>, i: nat, delim: char, row: seq<NewContact>)
    requires i < |data| && RowContacts(data[i], delim) == row
    ensures Collect(data[..i + 1], delim) == Collect(data[..i], delim) + row
  {
    var p := data[..i + 1];
    assert p != [] && p[..|p| - 1] == data[..i] && p[|p| - 1] == data[i];
  }

  lemma RowContactsOf(line: string, delim: char, scan: (string, Option<string>))
    requires scan == Classify(Cells(line, delim))
    ensures RowContacts(line, delim) == Keep(scan)
  {
  }

  /** The contacts a non-empty file yields. */
  function Imported(lines: seq<string>): seq<NewContact>
    requires lines != []
  {
    var start := HeaderRows(lines);
    Collect(lines[start..], Delimiter(lines, start))
  }

  datatype Upload = Upload(fileName: string, text: string)

  datatype ImportOutcome =
    | NoFile          // nothing chosen: nothing happens
    | InvalidFormat   // toast "Formato inválido"
    | NoValidEmails   // toast "Nenhum email válido"
    | UploadFailed    // toast "Erro no upload"
    | Uploaded(count: nat)

  /** The loop over the data lines of a non-empty file. */
  method ImportLines(lines: seq<string>) returns (newContacts: seq<NewContact>)
    requires lines != []
    ensures newContacts == Imported(lines)
  {
    var start := HeaderRows(lines);
    var delim := Delimiter(lines, start);
    var data := lines[start..];
    newContacts := [];
    for i := 0 to |data|
      invariant newContacts == Collect(data[..i], delim)
    {
      var email, name := ScanRow(Cells(data[i], delim));
      RowContactsOf(data[i], delim, (email, name));
      CollectRow(data, i, delim, Keep((email, name)));
      if email != "" {
        newContacts := newContacts + [NewContact(ToLower(email), name)];
      }
    }
    assert data[..|data|] == data;
  }

  /** The upload handler. A file with no non-blank line fails like a thrown
    * error (`lines[0]` is undefined), before anything is written. */
  method ImportCsv(upload: Option<Upload>, upsertOk: bool) returns (outcome: ImportOutcome, batch: Option<seq<NewContact>>)
    ensures upload.None? ==> outcome == NoFile && batch.None?
    ensures upload.Some? && !EndsWith(upload.value.fileName, ".csv") ==> outcome == InvalidFormat && batch.None?
    ensures upload.Some? && EndsWith(upload.value.fileName, ".csv") && DataLines(upload.value.text) == [] ==>
              outcome == UploadFailed && batch.None?
    ensures upload.Some? && EndsWith(upload.value.fileName, ".csv") && DataLines(upload.value.text) != [] ==>
              var cs := Imported(DataLines(upload.value.text));
              (cs == [] ==> outcome == NoValidEmails && batch.None?) &&
              (cs != [] ==> batch == Some(cs) && outcome == (if upsertOk then Uploaded(|cs|) else UploadFailed))
  {
    if upload.None? {
      return NoFile, None;
    }
    if !EndsWith(upload.value.fileName, ".csv") {
      return InvalidFormat, None;
    }
    var lines := DataLines(upload.value.text);
    if lines == [] {
      return UploadFailed, None;
    }
    var newContacts := ImportLines(lines);
    if newContacts == [] {
      return NoValidEmails, None;
    }
    batch := Some(newContacts);
    outcome := if upsertOk then Uploaded(|newContacts|) else UploadFailed;
  }

  /** The scan of one row's cells. */
  method ScanRow(parts: seq<string>) returns (email: string, name: Option<string>)
    ensures (email, name) == Classify(parts)
  {
    email := "";
    name := None;
    for j := 0 to |parts|
      invariant (email, name) == Classify(parts[..j])
    {
      var part := parts[j];
      if IsEmailLike(part) {
        email := part;
      } else if part != "" && !LooksNumeric(part) && JsLength(part) > 1 {
        name := Some(part);
      }
      assert parts[..j + 1][..j] == parts[..j];
    }
    assert parts[..|parts|] == parts;
  }

  // ---------------------------------------------------------------------
  // What an import keeps

  lemma LowerPlain(c: char)
    ensures PlainChar(LowerChar(c)) <==> PlainChar(c)
    ensures (LowerChar(c) == '.') <==> (c == '.')
  {
  }

  lemma LowerSlices(p: string, i: nat)
    requires i <= |p|
    ensures ToLower(p)[..i] == ToLower(p[..i]) && ToLower(p)[i..] == ToLower(p[i..])
  {
    LowerPrefix(p, i);
    LowerSuffix(p, i);
  }

  lemma LowerPrefix(p: string, i: nat)
    requires i <= |p|
    ensures ToLower(p)[..i] == ToLower(p[..i])
  {
  }

  lemma LowerSuffix(p: string, i: nat)
    requires i <= |p|
    ensures ToLower(p)[i..] == ToLower(p[i..])
  {
  }

  lemma LowerAllPlain(s: string)
    ensures AllPlain(ToLower(s)) <==> AllPlain(s)
  {
    forall j | 0 <= j < |s| ensures PlainChar(ToLower(s)[j]) <==> PlainChar(s[j]) {
      LowerPlain(s[j]);
    }
  }

  lemma LowerInnerDot(s: string)
    requires HasInnerDot(s)
    ensures HasInnerDot(ToLower(s))
  {
    var k :| 0 < k < |s| - 1 && s[k] == '.';
    assert ToLower(s)[k] == '.';
  }

  /** Lower-casing keeps an address address-like. */
  lemma LowerKeepsEmailLike(p: string)
    requires IsEmailLike(p)
    ensures IsEmailLike(ToLower(p))
  {
    var q := ToLower(p);
    var i :| 0 < i < |p| && p[i] == '@' && AllPlain(p[..i]) && AllPlain(p[i + 1..]) && HasInnerDot(p[i + 1..]);
    LowerSlices(p, i);
    LowerSlices(p, i + 1);
    LowerAllPlain(p[..i]);
    LowerAllPlain(p[i + 1..]);
    LowerInnerDot(p[i + 1..]);
    assert q[i] == '@';
    assert 0 < i < |q| && q[i] == '@' && AllPlain(q[..i]) && AllPlain(q[i + 1..]) && HasInnerDot(q[i + 1..]);
  }

  predicate AllAddresses(cs: seq<NewContact>) {
    forall k :: 0 <= k < |cs| ==> IsEmailLike(cs[k].email) && IsLower(cs[k].email)
  }

  lemma {:induction false} ClassifiedIsAddress(cells: seq<string>)
    ensures Classify(cells).0 != "" ==> IsEmailLike(Classify(cells).0)
    decreases |cells|
  {
    if cells != [] {
      ClassifiedIsAddress(cells[..|cells| - 1]);
    }
  }

  lemma RowIsAddress(line: string, delim: char)
    ensures AllAddresses(RowContacts(line, delim))
  {
    var e := Classify(Cells(line, delim)).0;
    ClassifiedIsAddress(Cells(line, delim));
    if e != "" {
      LowerKeepsEmailLike(e);
      ToLowerIsLower(e);
    }
  }

  lemma AllAddressesAppend(a: seq<NewContact>, b: seq<NewContact>)
    requires AllAddresses(a) && AllAddresses(b)
    ensures AllAddresses(a + b)
  {
    assert forall k :: 0 <= k < |a + b| ==> (a + b)[k] == if k < |a| then a[k] else b[k - |a|];
  }

  /** Every imported contact has an address-like, lower-case address. */
  lemma {:induction false} CollectedAreAddresses(lines: seq<string>, delim: char)
    ensures AllAddresses(Collect(lines, delim))
    decreases |lines|
  {
    if lines != [] {
      var n := |lines| - 1;
      CollectedAreAddresses(lines[..n], delim);
      RowIsAddress(lines[n], delim);
      AllAddressesAppend(Collect(lines[..n], delim), RowContacts(lines[n], delim));
    }
  }

  /** A name, when kept, is a cell that is no address, no number, and longer
    * than one character. */
  predicate NamesAreNames(cs: seq<NewContact>) {
    forall k :: 0 <= k < |cs| && cs[k].name.Some? ==> NameLike(cs[k].name.value)
  }

  lemma RowNameIsName(line: string, delim: char)
    ensures NamesAreNames(RowContacts(line, delim))
  {
    var cells := Cells(line, delim);
    ClassifyName(cells);
    if Classify(cells).0 != "" {
      assert RowContacts(line, delim) == [NewContact(ToLower(Classify(cells).0), Classify(cells).1)];
    }
  }

  lemma NamesAreNamesAppend(a: seq<NewContact>, b: seq<NewContact>)
    requires NamesAreNames(a) && NamesAreNames(b)
    ensures NamesAreNames(a + b)
  {
    assert forall k :: 0 <= k < |a + b| ==> (a + b)[k] == if k < |a| then a[k] else b[k - |a|];
  }

  lemma {:induction false} CollectedNames(lines: seq<string>, delim: char)
    ensures NamesAreNames(Collect(lines, delim))
    decreases |lines|
  {
    if lines != [] {
      var n := |lines| - 1;
      CollectedNames(lines[..n], delim);
      RowNameIsName(lines[n], delim);
      NamesAreNamesAppend(Collect(lines[..n], delim), RowContacts(lines[n], delim));
    }
  }

  /** A re-imported export row (address, name, date as "dd/mm/aaaa") keeps
    * the date as the contact's name: the date is the last name-like cell. */
  lemma ReimportTakesDateAsName(email: string, name: string, date: string)
    requires IsEmailLike(email) && !IsEmailLike(name)
    requires '/' in date && '@' !in date && |date| > 1
    ensures Classify([email, name, date]) == (email, Some(date))
  {
    var k :| 0 <= k < |date| && date[k] == '/';
    assert !NumericChar(date[k]);
    assert [email, name, date][..2] == [email, name];
    assert [email, name][..1] == [email];
    assert [email][..0] == [];
    assert Classify([email]) == (email, None);
    assert Classify([email, name]).0 == email;
    assert !IsEmailLike(date);
    assert !LooksNumeric(date);
    assert NameLike(date);
  }

  /** The header test is textual: a first line that is a data row whose
    * address contains "email" is skipped like a header. */
  lemma FirstLineSkipped(lines: seq<string>)
    requires lines != [] && Contains(ToLower(lines[0]), "email")
    ensures Imported(lines) == Collect(lines[1..], Delimiter(lines, 1))
  {
  }

  // ---------------------------------------------------------------------
  // Writing the batch

  /** `upsert(batch, { onConflict: "email", ignoreDuplicates: true })` on the
    * table as a map from address to name: an address already present is
    * left alone, and within a batch the first row of an address wins. */
  function Upsert(table: map<string, Option<string>>, batch: seq<NewContact>): (r: map<string, Option<string>>)
    decreases |batch|
  {
    if batch == [] then table
    else
      var c := batch[0];
      Upsert(if c.email in table then table else table[c.email := c.name], batch[1..])
  }

  function FirstNameFor(batch: seq<NewContact>, email: string): Option<string>
    decreases |batch|
  {
    if batch == [] then None
    else if batch[0].email == email then batch[0].name
    else FirstNameFor(batch[1..], email)
  }

  predicate InBatch(batch: seq<NewContact>, email: string) {
    exists k :: 0 <= k < |batch| && batch[k].email == email
  }

  lemma {:induction false} UpsertEffect(table: map<string, Option<string>>, batch: seq<NewContact>)
    ensures var r := Upsert(table, batch);
            (forall e :: e in table ==> e in r && r[e] == table[e]) &&
            (forall e :: e in r <==> e in table || InBatch(batch, e)) &&
            (forall e :: e in r && e !in table ==> r[e] == FirstNameFor(batch, e))
    decreases |batch|
  {
    if batch != [] {
      var c := batch[0];
      var t := if c.email in table then table else table[c.email := c.name];
      UpsertEffect(t, batch[1..]);
      forall e ensures InBatch(batch, e) <==> e == c.email || InBatch(batch[1..], e) {
        if InBatch(batch, e) && e != c.email {
          var k :| 0 <= k < |batch| && batch[k].email == e;
          assert batch[1..][k - 1].email == e;
        }
        if InBatch(batch[1..], e) {
          var k :| 0 <= k < |batch| - 1 && batch[1..][k].email == e;
          assert batch[k + 1].email == e;
        }
        if e == c.email {
          assert batch[0].email == e;
        }
      }
    }
  }

  /** Uploading the same batch twice changes nothing the second time. */
  lemma UpsertIdempotent(table: map<string, Option<string>>, batch: seq<NewContact>)
    ensures Upsert(Upsert(table, batch), batch) == Upsert(table, batch)
  {
    var once := Upsert(table, batch);
    UpsertEffect(table, batch);
    UpsertOfPresent(once, batch);
  }

  lemma {:induction false} UpsertOfPresent(table: map<string, Option<string>>, batch: seq<NewContact>)
    requires forall k :: 0 <= k < |batch| ==> batch[k].email in table
    ensures Upsert(table, batch) == table
    decreases |batch|
  {
    if batch != [] {
      UpsertOfPresent(table, batch[1..]);
    }
  }

  // ---------------------------------------------------------------------
  // The list: delete and export

  datatype ContactRow = ContactRow(id: string, email: string, name: Option<string>, createdDate: string)

  function ContactId(c: ContactRow): string {
    c.id
  }

  const ExportHeader := "Email,Nome,Data de Cadastro"

  /** One exported line: address, name or nothing, the date as shown. */
  function ExportLine(c: ContactRow): string {
    c.email + "," + OrEmpty(c.name) + "," + c.createdDate
  }

  function ExportLines(cs: seq<ContactRow>): (r: seq<string>)
    ensures |r| == |cs|
    ensures forall k :: 0 <= k < |cs| ==> r[k] == ExportLine(cs[k])
    decreases |cs|
  {
    if cs == [] then [] else ExportLines(cs[..|cs| - 1]) + [ExportLine(cs[|cs| - 1])]
  }

  /** The export: a header, then one line per contact, joined by newlines. */
  method ExportCsv(contacts: seq<ContactRow>) returns (csv: string)
    ensures csv == Join([ExportHeader] + ExportLines(contacts), '\n')
  {
    var rows := [ExportHeader];
    for i := 0 to |contacts|
      invariant rows == [ExportHeader] + ExportLines(contacts[..i])
    {
      rows := rows + [ExportLine(contacts[i])];
      assert contacts[..i + 1][..i] == contacts[..i];
    }
    assert contacts[..|contacts|] == contacts;
    csv := Join(rows, '\n');
  }

  predicate NoNewline(c: ContactRow) {
    '\n' !in c.email && '\n' !in OrEmpty(c.name) && '\n' !in c.createdDate
  }

  lemma ExportLineNoNewline(c: ContactRow)
    requires NoNewline(c)
    ensures '\n' !in ExportLine(c)
  {
    var x, y, z := c.email, OrEmpty(c.name), c.createdDate;
    assert ExportLine(c) == x + "," + y + "," + z;
  }

  lemma ExportLinesNoNewline(contacts: seq<ContactRow>)
    requires forall k :: 0 <= k < |contacts| ==> NoNewline(contacts[k])
    ensures forall k :: 0 <= k < |ExportLines(contacts)| ==> '\n' !in ExportLines(contacts)[k]
  {
    var lines := ExportLines(contacts);
    forall k | 0 <= k < |lines| ensures '\n' !in lines[k] {
      ExportLineNoNewline(contacts[k]);
    }
  }

  lemma HeaderAndLines(lines: seq<string>)
    requires forall k :: 0 <= k < |lines| ==> '\n' !in lines[k]
    ensures Split(Join([ExportHeader] + lines, '\n'), '\n') == [ExportHeader] + lines
  {
    assert '\n' !in ExportHeader;
    SplitJoinWithHeader(ExportHeader, lines, '\n');
  }

  /** Reading the export back line by line gives the header and then each
    * contact's line, as long as no field holds a newline. */
  lemma ExportLinesRoundTrip(contacts: seq<ContactRow>)
    requires forall k :: 0 <= k < |contacts| ==> NoNewline(contacts[k])
    ensures Split(Join([ExportHeader] + ExportLines(contacts), '\n'), '\n') == [ExportHeader] + ExportLines(contacts)
  {
    ExportLinesNoNewline(contacts);
    HeaderAndLines(ExportLines(contacts));
  }

  /** A line of the export splits back into its three fields when no field
    * holds a comma. */
  lemma ExportLineFields(c: ContactRow)
    requires ',' !in c.email && ',' !in OrEmpty(c.name) && ',' !in c.createdDate
    ensures Split(ExportLine(c), ',') == [c.email, OrEmpty(c.name), c.createdDate]
  {
    var fields := [c.email, OrEmpty(c.name), c.createdDate];
    assert Join(fields, ',') == ExportLine(c) by {
      assert Join(fields[2..], ',') == c.createdDate;
      assert fields[1..][1..] == fields[2..];
    }
    SplitJoin(fields, ',');
  }

  class ContactsPage {
    var contacts: seq<ContactRow>
    var deletes: seq<string>

    constructor (loaded: seq<ContactRow>)
      ensures contacts == loaded && deletes == []
    {
      contacts := loaded;
      deletes := [];
    }

    /** After the confirmation, delete the row; only a successful delete
      * drops it from the list. */
    method HandleDelete(id: string, confirmed: bool, deleteOk: bool) returns (deleted: bool)
      modifies this
      ensures deleted <==> confirmed && deleteOk
      ensures deletes == old(deletes) + (if confirmed then [id] else [])
      ensures contacts == if deleted then Lists.RemoveKey(old(contacts), ContactId, id) else old(contacts)
    {
      if !confirmed {
        return false;
      }
      deletes := deletes + [id];
      if deleteOk {
        contacts := Lists.RemoveKey(contacts, ContactId, id);
        return true;
      }
      return false;
    }
  }
}
