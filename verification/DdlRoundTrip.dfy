/** Whole schemas written as DDL and read back by `parse_schema`.

    A written schema is a list of CREATE TABLE statements: a table name with or
    without its database, both in backticks, with or without IF NOT EXISTS, its
    columns and constraints in parentheses, and options after them. Blanks and
    comments may stand before each statement and around each entry. Reading it
    back finds each statement, its name and its block, passes over everything
    else, and yields the same tables in the same order. */
module DdlRoundTrip {
  import opened Wrappers
  import opened Chars
  import opened DorisTypes
  import opened Scanners
  import opened TypeParser
  import opened TypeSoundness
  import opened Comments
  import opened Ddl
  import opened DdlText
  import opened ColumnRoundTrip

  // The written form

  /** Blanks, a comment up to the end of its line, or one between marks. */
  datatype Gap = Blank(text: string) | LineNote(text: string) | BlockNote(text: string)

  function GapText(g: Gap): string {
    match g
    case Blank(text) => text
    case LineNote(text) => "--" + (text + "\n")
    case BlockNote(text) => "/*" + (text + "*/")
  }

  function GapsText(gaps: seq<Gap>): string {
    if gaps == [] then "" else GapText(gaps[0]) + GapsText(gaps[1..])
  }

  predicate Unended(text: string) {
    forall i | 0 <= i < |text| - 1 :: !(text[i] == '*' && text[i + 1] == '/')
  }

  predicate GapOk(g: Gap) {
    match g
    case Blank(text) => AsciiSpaces(text)
    case LineNote(text) => Lacks(text, '\n')
    case BlockNote(text) => Unended(text)
  }

  predicate GapsOk(gaps: seq<Gap>) {
    forall g | g in gaps :: GapOk(g)
  }

  /** A column, or a constraint such as a key or an index. */
  datatype Entry = OfColumn(column: WrittenColumn) | OfConstraint(lead: string, parts: seq<Part>)

  datatype WrittenEntry = WrittenEntry(before: seq<Gap>, entry: Entry, after: seq<Gap>)

  function BodyText(e: Entry): string {
    match e
    case OfColumn(column) => ColumnText(column)
    case OfConstraint(lead, parts) => lead + PartsText(parts)
  }

  predicate BodyOk(e: Entry) {
    match e
    case OfColumn(column) => ColumnOk(column)
    case OfConstraint(lead, parts) => Upper(lead) in NON_COLUMN_LEADS && AllIdent(lead) && PartsOk(parts)
  }

  function EntryText(e: WrittenEntry): string {
    GapsText(e.before) + (BodyText(e.entry) + GapsText(e.after))
  }

  predicate EntryOk(e: WrittenEntry) {
    GapsOk(e.before) && BodyOk(e.entry) && GapsOk(e.after)
  }

  predicate EntriesOk(entries: seq<WrittenEntry>) {
    forall e | e in entries :: EntryOk(e)
  }

  function EntriesText(entries: seq<WrittenEntry>): string
    requires entries != []
  {
    if |entries| == 1 then EntryText(entries[0]) else EntryText(entries[0]) + ("," + EntriesText(entries[1..]))
  }

  function ColumnIn(e: Entry): seq<Column> {
    if e.OfColumn? then [ColumnOf(e.column)] else []
  }

  function ColumnsOf(entries: seq<WrittenEntry>): seq<Column> {
    if entries == [] then [] else ColumnIn(entries[0].entry) + ColumnsOf(entries[1..])
  }

  /** A statement, with what stands before it and the options after its block. */
  datatype WrittenTable = WrittenTable(
    lead: seq<Gap>, ifNotExists: bool, database: Option<string>, name: string,
    entries: seq<WrittenEntry>, options: seq<Bit>)

  /** CREATE stands nowhere in the text. */
  predicate NoCreate(text: string) {
    forall i | 0 <= i <= |text| :: !StartsWith(Upper(text), i, "CREATE")
  }

  predicate NameOk(name: string) {
    Lacks(name, '`') && IsAscii(name)
  }

  predicate TableOk(t: WrittenTable) {
    && GapsOk(t.lead) && NameOk(t.name) && (t.database.Some? ==> NameOk(t.database.value))
    && t.entries != [] && EntriesOk(t.entries) && ColumnsOf(t.entries) != []
    && (forall b | b in t.options :: BitOk(b)) && NoCreate(BitsText(t.options))
  }

  predicate TablesOk(tables: seq<WrittenTable>) {
    forall t | t in tables :: TableOk(t)
  }

  function IfText(ifNotExists: bool): string {
    if ifNotExists then " IF NOT EXISTS " else " "
  }

  function NameText(database: Option<string>, name: string): string {
    if database.Some? then Enclose('`', database.value) + ("." + Enclose('`', name)) else Enclose('`', name)
  }

  function BlockText(entries: seq<WrittenEntry>): string
    requires entries != []
  {
    " (" + (EntriesText(entries) + ")")
  }

  function TableText(t: WrittenTable): string
    requires t.entries != []
  {
    GapsText(t.lead) + ("CREATE" + (" TABLE" + (IfText(t.ifNotExists)
      + (NameText(t.database, t.name) + (BlockText(t.entries) + (BitsText(t.options) + ";"))))))
  }

  function SchemaText(tables: seq<WrittenTable>): string
    requires TablesOk(tables)
  {
    if tables == [] then "" else
      assert TableOk(tables[0]);
      TableText(tables[0]) + SchemaText(tables[1..])
  }

  function TableOf(t: WrittenTable): Table {
    Table(t.database, t.name, ColumnsOf(t.entries))
  }

  function TablesOf(tables: seq<WrittenTable>): seq<Table> {
    if tables == [] then [] else [TableOf(tables[0])] + TablesOf(tables[1..])
  }

  // Without comments

  /** What cleaning leaves of a gap. */
  function Leftover(g: Gap): Gap {
    match g
    case Blank(_) => g
    case LineNote(_) => Blank("\n")
    case BlockNote(_) => Blank(" ")
  }

  function Leftovers(gaps: seq<Gap>): seq<Gap> {
    if gaps == [] then [] else [Leftover(gaps[0])] + Leftovers(gaps[1..])
  }

  function CleanEntry(e: WrittenEntry): WrittenEntry {
    WrittenEntry(Leftovers(e.before), e.entry, Leftovers(e.after))
  }

  function CleanEntries(entries: seq<WrittenEntry>): (clean: seq<WrittenEntry>)
    ensures |clean| == |entries|
  {
    if entries == [] then [] else [CleanEntry(entries[0])] + CleanEntries(entries[1..])
  }

  function CleanTable(t: WrittenTable): WrittenTable {
    t.(lead := Leftovers(t.lead), entries := CleanEntries(t.entries))
  }

  function CleanTables(tables: seq<WrittenTable>): seq<WrittenTable> {
    if tables == [] then [] else [CleanTable(tables[0])] + CleanTables(tables[1..])
  }

  predicate OnlyBlanks(gaps: seq<Gap>) {
    AllSpaces(GapsText(gaps))
  }

  predicate BlankEntries(entries: seq<WrittenEntry>) {
    forall e | e in entries :: OnlyBlanks(e.before) && OnlyBlanks(e.after)
  }

  predicate Uncommented(t: WrittenTable) {
    OnlyBlanks(t.lead) && BlankEntries(t.entries)
  }

  lemma LeftoverIsBlank(g: Gap)
    requires GapOk(g)
    ensures AllSpaces(GapText(Leftover(g))) && GapOk(Leftover(g))
  {
  }

  lemma SpacesJoin(a: string, b: string)
    requires AllSpaces(a) && AllSpaces(b)
    ensures AllSpaces(a + b)
  {
  }

  lemma {:induction false} LeftoversAreBlank(gaps: seq<Gap>)
    requires GapsOk(gaps)
    ensures OnlyBlanks(Leftovers(gaps)) && GapsOk(Leftovers(gaps))
  {
    if gaps != [] {
      var left := Leftovers(gaps);
      LeftoversAreBlank(gaps[1..]);
      assert left[0] == Leftover(gaps[0]) && left[1..] == Leftovers(gaps[1..]);
      LeftoverIsBlank(gaps[0]);
      SpacesJoin(GapText(left[0]), GapsText(left[1..]));
    }
  }

  lemma {:induction false} CleanEntriesAreBlank(entries: seq<WrittenEntry>)
    requires EntriesOk(entries)
    ensures EntriesOk(CleanEntries(entries)) && BlankEntries(CleanEntries(entries))
    ensures ColumnsOf(CleanEntries(entries)) == ColumnsOf(entries)
  {
    if entries != [] {
      assert EntryOk(entries[0]);
      LeftoversAreBlank(entries[0].before);
      LeftoversAreBlank(entries[0].after);
      CleanEntriesAreBlank(entries[1..]);
    }
  }

  lemma CleanTableIsSame(t: WrittenTable)
    requires TableOk(t)
    ensures TableOk(CleanTable(t)) && Uncommented(CleanTable(t)) && TableOf(CleanTable(t)) == TableOf(t)
  {
    LeftoversAreBlank(t.lead);
    CleanEntriesAreBlank(t.entries);
  }

  lemma {:induction false} CleanTablesAreSame(tables: seq<WrittenTable>)
    requires TablesOk(tables)
    ensures TablesOk(CleanTables(tables)) && (forall t | t in CleanTables(tables) :: Uncommented(t))
    ensures TablesOf(CleanTables(tables)) == TablesOf(tables)
  {
    if tables != [] {
      assert TableOk(tables[0]);
      CleanTableIsSame(tables[0]);
      CleanTablesAreSame(tables[1..]);
    }
  }

  // Cleaning a comment

  lemma {:induction false} LinePast(text: string, rest: string)
    requires Lacks(text, '\n')
    ensures LineRest(text + ("\n" + rest)) == rest
  {
    var s := text + ("\n" + rest);
    if text == "" {
      assert s == "\n" + rest && s[1..] == rest;
    } else {
      assert s[0] == text[0] && text[0] in text && s[1..] == text[1..] + ("\n" + rest);
      LinePast(text[1..], rest);
    }
  }

  lemma {:induction false} BlockPast(text: string, rest: string, prev: char)
    requires Unended(text) && !(prev == '*' && text != "" && text[0] == '/')
    ensures BlockRest(text + ("*/" + rest), prev) == rest
  {
    var s := text + ("*/" + rest);
    if text == "" {
      assert s == "*/" + rest && s[1..][0] == '/' && s[1..][1..] == rest;
    } else {
      assert s[0] == text[0] && s[1..] == text[1..] + ("*/" + rest);
      BlockPast(text[1..], rest, text[0]);
    }
  }

  lemma LineNoteCleans(text: string, rest: string)
    requires Lacks(text, '\n')
    ensures Clean("--" + (text + "\n") + rest) == "\n" + Clean(rest)
  {
    var s := "--" + (text + "\n") + rest;
    assert s[1..] == ("-" + text) + ("\n" + rest);
    LinePast("-" + text, rest);
    assert Pair(s, '-', '-') && KindOf(s) == LineComment;
  }

  lemma BlockNoteCleans(text: string, rest: string)
    requires Unended(text)
    ensures Clean("/*" + (text + "*/") + rest) == " " + Clean(rest)
  {
    var s := "/*" + (text + "*/") + rest;
    assert s[2..] == text + ("*/" + rest);
    BlockPast(text, rest, '\0');
    assert Pair(s, '/', '*') && KindOf(s) == BlockComment;
  }

  lemma GapCleans(g: Gap)
    requires GapOk(g)
    ensures CleansTo(GapText(g), GapText(Leftover(g)))
  {
    match g
    case Blank(text) =>
      BlanksFlow(text);
      CalmKeeps(text);
    case LineNote(text) =>
      forall rest: string {
        LineNoteCleans(text, rest);
      }
    case BlockNote(text) =>
      forall rest: string {
        BlockNoteCleans(text, rest);
      }
  }

  lemma {:induction false} GapsClean(gaps: seq<Gap>)
    requires GapsOk(gaps)
    ensures CleansTo(GapsText(gaps), GapsText(Leftovers(gaps)))
  {
    if gaps == [] {
      NothingKeeps();
    } else {
      GapCleans(gaps[0]);
      GapsClean(gaps[1..]);
      CleansConcat(GapText(gaps[0]), GapText(Leftover(gaps[0])),
                   GapsText(gaps[1..]), GapsText(Leftovers(gaps[1..])));
    }
  }

  // Cleaning a schema

  lemma LeadIsWord(lead: string)
    requires AllIdent(lead)
    ensures Flowing(lead) && NoSpaces(lead)
  {
  }

  lemma BodyKeeps(e: Entry)
    requires BodyOk(e)
    ensures Keeps(BodyText(e))
  {
    match e
    case OfColumn(column) => ColumnKeeps(column);
    case OfConstraint(lead, parts) =>
      LeadIsWord(lead);
      FlowingKeeps(lead);
      PartsKeep(parts);
      KeepsConcat(lead, PartsText(parts));
  }

  lemma EntryCleans(e: WrittenEntry)
    requires EntryOk(e)
    ensures CleansTo(EntryText(e), EntryText(CleanEntry(e)))
  {
    var body := BodyText(e.entry);
    GapsClean(e.before);
    BodyKeeps(e.entry);
    GapsClean(e.after);
    CleansConcat(body, body, GapsText(e.after), GapsText(Leftovers(e.after)));
    CleansConcat(GapsText(e.before), GapsText(Leftovers(e.before)),
                 body + GapsText(e.after), body + GapsText(Leftovers(e.after)));
  }

  lemma CommaCleans(u: string, v: string)
    requires CleansTo(u, v)
    ensures CleansTo("," + u, "," + v)
  {
    var comma := ",";
    CalmKeeps(comma);
    CleansConcat(comma, comma, u, v);
  }

  lemma {:induction false} EntriesClean(entries: seq<WrittenEntry>)
    requires entries != [] && EntriesOk(entries)
    ensures CleansTo(EntriesText(entries), EntriesText(CleanEntries(entries)))
  {
    assert EntryOk(entries[0]);
    EntryCleans(entries[0]);
    if |entries| > 1 {
      var rest, rest' := EntriesText(entries[1..]), EntriesText(CleanEntries(entries[1..]));
      EntriesClean(entries[1..]);
      CommaCleans(rest, rest');
      CleansConcat(EntryText(entries[0]), EntryText(CleanEntry(entries[0])), "," + rest, "," + rest');
      assert CleanEntries(entries)[1..] == CleanEntries(entries[1..]);
    }
  }

  lemma ThreeClean(a: string, u: string, v: string, b: string)
    requires CleansTo(a, a) && CleansTo(u, v) && CleansTo(b, b)
    ensures CleansTo(a + (u + b), a + (v + b))
  {
    CleansConcat(u, v, b, b);
    CleansConcat(a, a, u + b, v + b);
  }

  lemma AroundCleans(open: string, u: string, v: string, close: string)
    requires Calm(open) && Calm(close) && CleansTo(u, v)
    ensures CleansTo(open + (u + close), open + (v + close))
  {
    CalmKeeps(open);
    CalmKeeps(close);
    ThreeClean(open, u, v, close);
  }

  lemma NameCleans(database: Option<string>, name: string)
    requires Lacks(name, '`') && (database.Some? ==> Lacks(database.value, '`'))
    ensures CleansTo(NameText(database, name), NameText(database, name))
  {
    var second := Enclose('`', name);
    EnclosedKeeps('`', name);
    if database.Some? {
      var first, dot := Enclose('`', database.value), ".";
      EnclosedKeeps('`', database.value);
      CalmKeeps(dot);
      CleansConcat(dot, dot, second, second);
      CleansConcat(first, first, dot + second, dot + second);
    }
  }

  lemma TwoClean(a: string, b: string, u: string, v: string)
    requires CleansTo(a, a) && CleansTo(b, b) && CleansTo(u, v)
    ensures CleansTo(a + (b + u), a + (b + v))
  {
    CleansConcat(b, b, u, v);
    CleansConcat(a, a, b + u, b + v);
  }

  lemma WordsClean(ifNotExists: bool)
    ensures CleansTo("CREATE", "CREATE") && CleansTo(" TABLE", " TABLE")
    ensures CleansTo(IfText(ifNotExists), IfText(ifNotExists))
  {
    CalmKeeps("CREATE");
    CalmKeeps(" TABLE");
    CalmKeeps(IfText(ifNotExists));
  }

  lemma OptionsClean(options: seq<Bit>)
    requires forall b | b in options :: BitOk(b)
    ensures CleansTo(BitsText(options) + ";", BitsText(options) + ";")
  {
    var end := ";";
    BitsClean(options);
    CalmKeeps(end);
    CleansConcat(BitsText(options), BitsText(options), end, end);
  }

  /** A statement from its name on. */
  function NamedText(t: WrittenTable): string
    requires t.entries != []
  {
    NameText(t.database, t.name) + (BlockText(t.entries) + (BitsText(t.options) + ";"))
  }

  lemma NamedCleans(t: WrittenTable)
    requires TableOk(t)
    ensures CleansTo(NamedText(t), NamedText(CleanTable(t)))
  {
    var name, end := NameText(t.database, t.name), BitsText(t.options) + ";";
    BlockCleans(t.entries);
    OptionsClean(t.options);
    NameCleans(t.database, t.name);
    ThreeClean(name, BlockText(t.entries), BlockText(CleanEntries(t.entries)), end);
  }

  lemma BlockCleans(entries: seq<WrittenEntry>)
    requires entries != [] && EntriesOk(entries)
    ensures CleansTo(BlockText(entries), BlockText(CleanEntries(entries)))
  {
    var open, close := " (", ")";
    EntriesClean(entries);
    AroundCleans(open, EntriesText(entries), EntriesText(CleanEntries(entries)), close);
  }

  lemma TableCleans(t: WrittenTable)
    requires TableOk(t)
    ensures CleansTo(TableText(t), TableText(CleanTable(t)))
  {
    var create, table, exists' := "CREATE", " TABLE", IfText(t.ifNotExists);
    var named, named' := NamedText(t), NamedText(CleanTable(t));
    NamedCleans(t);
    WordsClean(t.ifNotExists);
    CleansConcat(exists', exists', named, named');
    TwoClean(create, table, exists' + named, exists' + named');
    GapsClean(t.lead);
    CleansConcat(GapsText(t.lead), GapsText(Leftovers(t.lead)),
                 create + (table + (exists' + named)), create + (table + (exists' + named')));
  }

  lemma {:induction false} SchemaCleans(tables: seq<WrittenTable>)
    requires TablesOk(tables) && TablesOk(CleanTables(tables))
    ensures Clean(SchemaText(tables)) == SchemaText(CleanTables(tables))
  {
    if tables != [] {
      var clean := CleanTables(tables);
      assert TableOk(tables[0]) && clean[0] == CleanTable(tables[0]) && clean[1..] == CleanTables(tables[1..]);
      TableCleans(tables[0]);
      SchemaCleans(tables[1..]);
    }
  }

  // The column block

  lemma BlankEntryKeeps(e: WrittenEntry)
    requires EntryOk(e) && OnlyBlanks(e.before) && OnlyBlanks(e.after)
    ensures Keeps(EntryText(e))
  {
    var before, body, after := GapsText(e.before), BodyText(e.entry), GapsText(e.after);
    BlanksFlow(before);
    BlanksFlow(after);
    FlowingKeeps(before);
    FlowingKeeps(after);
    BodyKeeps(e.entry);
    KeepsConcat(body, after);
    KeepsConcat(before, body + after);
  }

  lemma ConstraintIsNone(lead: string, parts: seq<Part>)
    requires BodyOk(OfConstraint(lead, parts))
    ensures lead != "" && IsNonColumnEntry(lead + PartsText(parts))
    ensures Trim(lead + PartsText(parts)) == lead + PartsText(parts)
  {
    LeadIsWord(lead);
    assert lead != "" by {
      assert Upper("") == "";
    }
    PartsStart(parts);
    WordsThen(lead, PartsText(parts));
    PartsEnd(parts);
    EndOfJoin(lead, PartsText(parts));
    TrimClean(lead + PartsText(parts));
  }

  lemma PartsStart(parts: seq<Part>)
    ensures PartsText(parts) == "" || IsSpace(PartsText(parts)[0])
  {
    if parts != [] {
      assert PartText(parts[0])[0] == ' ';
    }
  }

  /** An entry between blanks reads as its column, a constraint as nothing. */
  lemma OneEntryReadsBack(e: WrittenEntry)
    requires EntryOk(e) && OnlyBlanks(e.before) && OnlyBlanks(e.after)
    ensures ParseEntry(EntryText(e)) == Ok(ColumnIn(e.entry))
  {
    var before, after := GapsText(e.before), GapsText(e.after);
    match e.entry
    case OfColumn(column) => EntryReadsBack(column, before, after);
    case OfConstraint(lead, parts) =>
      ConstraintIsNone(lead, parts);
      LeadIsWord(lead);
      TrimsTo(before, lead + PartsText(parts), after);
  }

  lemma OnlyPiece(first: string)
    requires KeepsPieces(first)
    ensures TopLevelPieces(first) == [first]
  {
    assert Pieces(first + "", 0, None, "") == Pieces("", 0, None, "" + first);
    assert first + "" == first && "" + first == first;
  }

  lemma FirstPiece(first: string, rest: string)
    requires KeepsPieces(first)
    ensures TopLevelPieces(first + ("," + rest)) == [first] + TopLevelPieces(rest)
  {
    assert ("," + rest)[1..] == rest && "" + first == first;
  }

  lemma FirstEntry(first: string, columns: seq<Column>, rest: seq<string>, later: seq<Column>)
    requires ParseEntry(first) == Ok(columns) && ParseEntries(rest) == Ok(later)
    ensures ParseEntries([first] + rest) == Ok(columns + later)
  {
    assert ([first] + rest)[1..] == rest;
  }

  lemma {:induction false} EntriesReadBack(entries: seq<WrittenEntry>)
    requires entries != [] && EntriesOk(entries) && BlankEntries(entries)
    ensures ParseColumnBlock(EntriesText(entries)) == Ok(ColumnsOf(entries))
  {
    var e := entries[0];
    assert EntryOk(e);
    BlankEntryKeeps(e);
    OneEntryReadsBack(e);
    if |entries| == 1 {
      OnlyPiece(EntryText(e));
      FirstEntry(EntryText(e), ColumnIn(e.entry), [], []);
      assert ColumnsOf(entries[1..]) == [] && [EntryText(e)] + [] == [EntryText(e)];
    } else {
      var rest := EntriesText(entries[1..]);
      EntriesReadBack(entries[1..]);
      FirstPiece(EntryText(e), rest);
      FirstEntry(EntryText(e), ColumnIn(e.entry), TopLevelPieces(rest), ColumnsOf(entries[1..]));
    }
  }

  lemma CommaParens(u: string)
    requires KeepsParens(u)
    ensures KeepsParens("," + u)
  {
    var comma := ",";
    forall rest: string, at: nat, depth: nat | depth >= 1
      ensures ClosingParen(comma + rest, at, depth, None) == ClosingParen(rest, at + |comma|, depth, None)
    {
      CalmParens(comma, rest, at, depth);
    }
    KeepsParensConcat(comma, u);
  }

  lemma {:induction false} EntriesKeepParens(entries: seq<WrittenEntry>)
    requires entries != [] && EntriesOk(entries) && BlankEntries(entries)
    ensures KeepsParens(EntriesText(entries))
  {
    assert EntryOk(entries[0]);
    BlankEntryKeeps(entries[0]);
    if |entries| > 1 {
      EntriesKeepParens(entries[1..]);
      CommaParens(EntriesText(entries[1..]));
      KeepsParensConcat(EntryText(entries[0]), "," + EntriesText(entries[1..]));
    }
  }

  lemma ParenCloses(body: string, rest: string, at: nat)
    requires KeepsParens(body)
    ensures ClosingParen("(" + (body + (")" + rest)), at, 0, None) == Some(at + 1 + |body|)
  {
    var inside := body + (")" + rest);
    assert ("(" + inside)[1..] == inside;
    assert ClosingParen(inside, at + 1, 1, None) == ClosingParen(")" + rest, at + 1 + |body|, 1, None);
  }

  lemma BlockIsFound(body: string, rest: string)
    requires KeepsParens(body)
    ensures ColumnBlock(" (" + (body + (")" + rest))) == Ok(Block(body, rest))
  {
    var paren := "(" + (body + (")" + rest));
    var text := " (" + (body + (")" + rest));
    assert text[1..] == paren;
    assert IndexOf(text, '(') == 1 by {
      assert IndexOf(paren, '(') == 0;
    }
    ParenCloses(body, rest, 1);
    assert text[2..2 + |body|] == body && text[2 + |body| + 1..] == rest;
  }

  lemma BlockReadsBack(entries: seq<WrittenEntry>, rest: string)
    requires entries != [] && EntriesOk(entries) && BlankEntries(entries)
    ensures ColumnBlock(BlockText(entries) + rest) == Ok(Block(EntriesText(entries), rest))
  {
    var open, body, close := " (", EntriesText(entries), ")";
    EntriesKeepParens(entries);
    BlockIsFound(body, rest);
    Append(open, body + close, rest);
    Append(body, close, rest);
  }

  /** The block of the statement can be read. */
  predicate Readable(t: WrittenTable) {
    && Lacks(t.name, '`') && (t.database.Some? ==> Lacks(t.database.value, '`'))
    && OnlyBlanks(t.lead) && t.entries != [] && EntriesOk(t.entries) && BlankEntries(t.entries)
    && ColumnsOf(t.entries) != []
  }

  lemma TableReadsBack(t: WrittenTable, rest: string)
    requires Readable(t)
    ensures ParseTable(TableName(t.database, t.name, BlockText(t.entries) + rest)) == Ok(Parsed(TableOf(t), rest))
  {
    BlockReadsBack(t.entries, rest);
    EntriesReadBack(t.entries);
  }

  // The name

  lemma WordHere(s: string, word: string, rest: string)
    requires TrimStart(s) == word + rest && Upper(word) == word && rest != "" && !IsIdent(rest[0])
    ensures AfterWord(s, word) == Some(rest)
  {
    assert (word + rest)[..|word|] == word && (word + rest)[|word|..] == rest;
  }

  lemma WordNotHere(s: string, word: string)
    requires TrimStart(s) != "" && word != "" && UpperChar(TrimStart(s)[0]) != word[0]
    ensures SkipWord(s, word) == s
  {
    var trimmed := TrimStart(s);
    if |word| <= |trimmed| {
      assert Upper(trimmed[..|word|])[0] == UpperChar(trimmed[0]);
    }
  }

  lemma TrimTicked(s: string)
    requires s != "" && s[0] == '`'
    ensures TrimStart(s) == s && TrimStart(" " + s) == s
  {
    assert (" " + s)[1..] == s;
  }

  lemma ReadPlain(name: string, rest: string)
    requires Lacks(name, '`') && TrimStart(rest) != "" && TrimStart(rest)[0] != '.'
    ensures ReadQualified(" " + Quoted(name, rest)) == Some(TableName(None, name, rest))
  {
    TrimTicked(Quoted(name, rest));
    ReadsQuoted(name, rest);
  }

  lemma ReadDotted(database: string, name: string, rest: string)
    requires Lacks(database, '`') && Lacks(name, '`')
    ensures ReadQualified(" " + Quoted(database, "." + Quoted(name, rest))) ==
            Some(TableName(Some(database), name, rest))
  {
    var second := Quoted(name, rest);
    var dotted, first := "." + second, Quoted(database, "." + second);
    TrimTicked(first);
    ReadsQuoted(database, dotted);
    AfterDot(second);
    ReadsQuoted(name, rest);
    BothNames(" " + first, first, Ident(database, |database| + 2), dotted, second, Ident(name, |name| + 2));
  }

  lemma AfterDot(second: string)
    requires second != "" && second[0] == '`'
    ensures var dotted := "." + second; TrimStart(dotted) == dotted && TrimStart(dotted[1..]) == second
  {
    TrimTicked(second);
    assert ("." + second)[1..] == second;
  }

  lemma BothNames(text: string, trimmed: string, first: Ident, dotted: string, tail: string, second: Ident)
    requires TrimStart(text) == trimmed && ReadIdent(trimmed) == Some(first)
    requires first.used <= |trimmed| && trimmed[first.used..] == dotted
    requires dotted != "" && dotted[0] == '.' && TrimStart(dotted) == dotted && TrimStart(dotted[1..]) == tail
    requires ReadIdent(tail) == Some(second) && second.used <= |tail|
    ensures ReadQualified(text) == Some(TableName(Some(first.name), second.name, tail[second.used..]))
  {
  }

  lemma NameForm(database: Option<string>, name: string, rest: string)
    ensures NameText(database, name) + rest ==
            if database.Some? then Quoted(database.value, "." + Quoted(name, rest)) else Quoted(name, rest)
  {
    QuotedIsEnclosed(name, rest);
    if database.Some? {
      var first, dot, second := Enclose('`', database.value), ".", Enclose('`', name);
      Append(first, dot + second, rest);
      Append(dot, second, rest);
      QuotedIsEnclosed(database.value, dot + (second + rest));
    }
  }

  lemma QualifiedReadsBack(database: Option<string>, name: string, rest: string)
    requires Lacks(name, '`') && (database.Some? ==> Lacks(database.value, '`'))
    requires TrimStart(rest) != "" && TrimStart(rest)[0] != '.'
    ensures ReadQualified(" " + (NameText(database, name) + rest)) == Some(TableName(database, name, rest))
    ensures NameText(database, name) + rest != "" && (NameText(database, name) + rest)[0] == '`'
  {
    NameForm(database, name, rest);
    match database
    case Some(first) => ReadDotted(first, name, rest);
    case None => ReadPlain(name, rest);
  }

  lemma AfterTable(text: string)
    requires text != "" && text[0] == ' '
    ensures SkipWord(" TABLE" + text, "EXTERNAL") == " TABLE" + text
    ensures AfterWord(" TABLE" + text, "TABLE") == Some(text)
  {
    var s, word := " TABLE" + text, "TABLE";
    assert s[1..] == word + text;
    assert TrimStart(s) == word + text;
    WordNotHere(s, "EXTERNAL");
    WordHere(s, word, text);
  }

  lemma NoIfNotExists(s: string)
    requires s != "" && s[0] == '`'
    ensures SkipWord(SkipWord(SkipWord(" " + s, "IF"), "NOT"), "EXISTS") == " " + s
  {
    TrimTicked(s);
    WordNotHere(" " + s, "IF");
    WordNotHere(" " + s, "NOT");
    WordNotHere(" " + s, "EXISTS");
  }

  lemma SpacedWordHere(word: string, rest: string)
    requires word != "" && !IsSpace(word[0]) && Upper(word) == word && rest != "" && !IsIdent(rest[0])
    ensures SkipWord(" " + (word + rest), word) == rest
  {
    var s := " " + (word + rest);
    assert s[1..] == word + rest;
    assert TrimStart(s) == word + rest;
    WordHere(s, word, rest);
  }

  lemma SkipsIfNotExists(s: string)
    requires s != "" && s[0] == '`'
    ensures SkipWord(SkipWord(SkipWord(" IF NOT EXISTS " + s, "IF"), "NOT"), "EXISTS") == " " + s
  {
    var one, two, three, name := "IF", "NOT", "EXISTS", " " + s;
    var third := " " + (three + name);
    var second := " " + (two + third);
    assert " IF NOT EXISTS " + s == " " + (one + second);
    SpacedWordHere(one, second);
    SpacedWordHere(two, third);
    SpacedWordHere(three, name);
  }

  lemma IdentifierReadsBack(ifNotExists: bool, database: Option<string>, name: string, rest: string)
    requires Lacks(name, '`') && (database.Some? ==> Lacks(database.value, '`'))
    requires TrimStart(rest) != "" && TrimStart(rest)[0] != '.'
    ensures ReadTableIdentifier(" TABLE" + (IfText(ifNotExists) + (NameText(database, name) + rest))) ==
            Some(TableName(database, name, rest))
  {
    var named := NameText(database, name) + rest;
    QualifiedReadsBack(database, name, rest);
    AfterTable(IfText(ifNotExists) + named);
    if ifNotExists {
      SkipsIfNotExists(named);
    } else {
      NoIfNotExists(named);
    }
  }

  // The keyword

  lemma TableFollowsName(text: string)
    requires text != "" && text[0] == ' '
    ensures TableFollows(Upper(" TABLE" + text))
  {
    var word, upper := " TABLE", Upper(" TABLE" + text);
    assert forall i | 0 <= i < 6 :: upper[i] == word[i];
    assert upper[6] == ' ';
    var trimmed := upper[1..];
    assert TrimStart(upper) == trimmed;
    OtherStart(trimmed, 0, "EXTERNAL");
    assert trimmed[0..5] == "TABLE";
  }

  lemma CreateHere(s: string, n: nat, text: string)
    requires text != "" && text[0] == ' ' && n <= |s| && s[n..] == "CREATE" + (" TABLE" + text)
    requires n == 0 || !IsIdent(Upper(s)[n - 1])
    ensures CreateAt(Upper(s), n)
  {
    var after := " TABLE" + text;
    var upper, tail := Upper(s), "CREATE" + after;
    assert forall i | 0 <= i < |tail| :: upper[n..][i] == UpperChar(tail[i]);
    assert upper[n..n + 6] == "CREATE";
    assert upper[n + 6..] == Upper(after);
    TableFollowsName(text);
  }

  predicate NoIdent(s: string) {
    forall i | 0 <= i < |s| :: !IsIdent(s[i])
  }

  /** No CREATE, and no word at the end that could begin one. */
  predicate Quiet(s: string) {
    NoCreate(s) && (s == "" || !IsIdent(s[|s| - 1]))
  }

  lemma KeywordIsWord(upper: string, i: nat, j: nat)
    requires i <= j < i + 6 && j < |upper| && !IsIdent(upper[j])
    ensures !StartsWith(upper, i, "CREATE")
  {
    if i + 6 <= |upper| {
      assert upper[i..i + 6][j - i] == upper[j];
    }
  }

  lemma UpperIdent(c: char)
    ensures IsIdent(UpperChar(c)) <==> IsIdent(c)
  {
  }

  lemma StartsInside(whole: string, part: string, i: nat)
    requires |part| <= |whole| && whole[..|part|] == part && i + 6 <= |part|
    ensures StartsWith(Upper(whole), i, "CREATE") == StartsWith(Upper(part), i, "CREATE")
  {
    assert Upper(whole)[i..i + 6] == Upper(part)[i..i + 6];
  }

  /** CREATE does not begin in quiet text, whatever follows it. */
  lemma QuietStays(s: string, rest: string, i: nat)
    requires Quiet(s) && i < |s|
    ensures !StartsWith(Upper(s + rest), i, "CREATE")
  {
    var whole := s + rest;
    if i + 6 <= |s| {
      assert whole[..|s|] == s;
      StartsInside(whole, s, i);
    } else {
      UpperIdent(s[|s| - 1]);
      KeywordIsWord(Upper(whole), i, |s| - 1);
    }
  }

  lemma NoKeyword(b: string)
    requires NoIdent(b)
    ensures NoCreate(b)
  {
    forall i | 0 <= i <= |b| ensures !StartsWith(Upper(b), i, "CREATE") {
      if i < |b| {
        UpperIdent(b[i]);
        KeywordIsWord(Upper(b), i, i);
      }
    }
  }

  /** Text without a word after text without CREATE. */
  lemma QuietThen(a: string, b: string)
    requires NoCreate(a) && NoIdent(b) && b != ""
    ensures Quiet(a + b)
  {
    var s := a + b;
    forall i | 0 <= i <= |s| ensures !StartsWith(Upper(s), i, "CREATE") {
      if i + 6 <= |a| {
        assert s[..|a|] == a;
        StartsInside(s, a, i);
      } else if i < |s| {
        var j := if i < |a| then |a| else i;
        UpperIdent(s[j]);
        KeywordIsWord(Upper(s), i, j);
      }
    }
  }

  lemma QuietBlanks(lead: string, blanks: string)
    requires Quiet(lead) && AllSpaces(blanks)
    ensures Quiet(lead + blanks)
  {
    if blanks == "" {
      assert lead + blanks == lead;
    } else {
      assert NoIdent(blanks);
      QuietThen(lead, blanks);
    }
  }

  lemma FoundAt(lead: string, text: string)
    requires Quiet(lead) && text != "" && text[0] == ' '
    ensures FindCreateTable(lead + ("CREATE" + (" TABLE" + text))) == Some(|lead|)
  {
    var rest := "CREATE" + (" TABLE" + text);
    var s := lead + rest;
    if lead != "" {
      UpperIdent(lead[|lead| - 1]);
    }
    CreateHere(s, |lead|, text);
    forall i | 0 <= i < |lead| ensures !StartsWith(Upper(s), i, "CREATE") {
      QuietStays(lead, rest, i);
    }
    NoWordBetween(Upper(s), 0, |lead|);
  }

  lemma NothingFound(lead: string)
    requires Quiet(lead)
    ensures FindCreateTable(lead) == None
  {
    NoWordBetween(Upper(lead), 0, |lead|);
  }

  // The schema

  lemma BlockOpens(entries: seq<WrittenEntry>, rest: string)
    requires entries != []
    ensures TrimStart(BlockText(entries) + rest) != "" && TrimStart(BlockText(entries) + rest)[0] == '('
  {
    var s := BlockText(entries) + rest;
    assert s[0] == ' ' && s[1..][0] == '(';
  }

  lemma NextTable(lead: string, ifNotExists: bool, database: Option<string>, name: string, block: string)
    requires Quiet(lead) && Lacks(name, '`') && (database.Some? ==> Lacks(database.value, '`'))
    requires TrimStart(block) != "" && TrimStart(block)[0] != '.'
    ensures var s := lead + ("CREATE" + (" TABLE" + (IfText(ifNotExists) + (NameText(database, name) + block))));
            && FindCreateTable(s) == Some(|lead|)
            && ReadTableIdentifier(s[|lead| + 6..]) == Some(TableName(database, name, block))
  {
    var text := IfText(ifNotExists) + (NameText(database, name) + block);
    FoundAt(lead, text);
    AfterKeyword(lead, " TABLE" + text);
    IdentifierReadsBack(ifNotExists, database, name, block);
  }

  lemma AfterKeyword(lead: string, text: string)
    ensures (lead + ("CREATE" + text))[|lead| + 6..] == text
  {
  }

  lemma OneTable(s: string, at: nat, rest: string, id: TableName, parsed: Parsed, tables: seq<Table>)
    requires FindCreateTable(s) == Some(at) && rest == s[at + 6..] && ReadTableIdentifier(rest) == Some(id)
    requires ParseTable(id) == Ok(parsed) && ParseTables(parsed.after) == Ok(tables)
    ensures ParseTables(s) == Ok([parsed.table] + tables)
  {
  }

  /** The statement and what follows it, from left to right. */
  lemma TableForm(lead: string, t: WrittenTable, rest: string)
    requires t.entries != []
    ensures var block := BlockText(t.entries) + (BitsText(t.options) + ";" + rest);
            lead + (TableText(t) + rest) ==
            (lead + GapsText(t.lead)) + ("CREATE" + (" TABLE" + (IfText(t.ifNotExists)
              + (NameText(t.database, t.name) + block))))
  {
    var gaps, create, table, exists' := GapsText(t.lead), "CREATE", " TABLE", IfText(t.ifNotExists);
    var name, block, end := NameText(t.database, t.name), BlockText(t.entries), BitsText(t.options) + ";";
    SevenForm(lead, gaps, create, table, exists', name, block, end, rest);
  }

  lemma SevenForm(lead: string, a: string, b: string, c: string, d: string, e: string, f: string, g: string, h: string)
    ensures lead + ((a + (b + (c + (d + (e + (f + g)))))) + h) ==
            (lead + a) + (b + (c + (d + (e + (f + (g + h))))))
  {
    Append(f, g, h);
    Append(e, f + g, h);
    Append(d, e + (f + g), h);
    Append(c, d + (e + (f + g)), h);
    Append(b, c + (d + (e + (f + g))), h);
    Append(a, b + (c + (d + (e + (f + g)))), h);
    Append(lead, a, b + (c + (d + (e + (f + (g + h))))));
  }

  /** The search finds the statement, and its identifier reads back. */
  lemma StatementHead(s: string, start: string, ifNotExists: bool, id: TableName)
    requires s == start + ("CREATE" + (" TABLE" + (IfText(ifNotExists) + (NameText(id.database, id.name) + id.rest))))
    requires Quiet(start) && Lacks(id.name, '`') && (id.database.Some? ==> Lacks(id.database.value, '`'))
    requires TrimStart(id.rest) != "" && TrimStart(id.rest)[0] != '.'
    ensures FindCreateTable(s) == Some(|start|) && |start| + 6 <= |s|
    ensures ReadTableIdentifier(s[|start| + 6..]) == Some(id)
  {
    NextTable(start, ifNotExists, id.database, id.name, id.rest);
  }

  /** A table without comments can be read, the text before it stays quiet,
      and no CREATE is left after it. */
  lemma CleanTableReads(lead: string, t: WrittenTable)
    requires TableOk(t) && Uncommented(t) && Quiet(lead)
    ensures Readable(t) && Quiet(lead + GapsText(t.lead)) && Quiet(BitsText(t.options) + ";")
    ensures Lacks(t.name, '`') && (t.database.Some? ==> Lacks(t.database.value, '`'))
  {
    QuietBlanks(lead, GapsText(t.lead));
    QuietThen(BitsText(t.options), ";");
  }

  lemma TableThen(s: string, at: nat, id: TableName, table: Table, after: string, tables: seq<Table>)
    requires FindCreateTable(s) == Some(at) && at + 6 <= |s| && ReadTableIdentifier(s[at + 6..]) == Some(id)
    requires ParseTable(id) == Ok(Parsed(table, after)) && ParseTables(after) == Ok(tables)
    ensures ParseTables(s) == Ok([table] + tables)
  {
    OneTable(s, at, s[at + 6..], id, Parsed(table, after), tables);
  }

  /** The identifier of the statement, with the block and what follows it. */
  function Named(t: WrittenTable, after: string): TableName
    requires t.entries != []
  {
    TableName(t.database, t.name, BlockText(t.entries) + after)
  }

  lemma TableFound(s: string, lead: string, t: WrittenTable, rest: string, after: string) returns (at: nat)
    requires t.entries != [] && after == BitsText(t.options) + ";" + rest
    requires s == lead + (TableText(t) + rest) && Quiet(lead + GapsText(t.lead))
    requires Lacks(t.name, '`') && (t.database.Some? ==> Lacks(t.database.value, '`'))
    ensures FindCreateTable(s) == Some(at) && at + 6 <= |s|
    ensures ReadTableIdentifier(s[at + 6..]) == Some(Named(t, after))
  {
    at := |lead + GapsText(t.lead)|;
    TableForm(lead, t, rest);
    BlockOpens(t.entries, after);
    StatementHead(s, lead + GapsText(t.lead), t.ifNotExists, Named(t, after));
  }

  lemma SchemaSplits(lead: string, tables: seq<WrittenTable>)
    requires TablesOk(tables) && tables != []
    ensures tables[0].entries != [] && TablesOk(tables[1..])
    ensures lead + SchemaText(tables) == lead + (TableText(tables[0]) + SchemaText(tables[1..]))
  {
    assert TableOk(tables[0]);
  }

  lemma {:induction false} TablesReadBack(lead: string, tables: seq<WrittenTable>)
    requires Quiet(lead) && TablesOk(tables) && forall t | t in tables :: Uncommented(t)
    ensures ParseTables(lead + SchemaText(tables)) == Ok(TablesOf(tables))
    decreases |tables|
  {
    if tables == [] {
      assert lead + "" == lead;
      NothingFound(lead);
    } else {
      var t, others := tables[0], tables[1..];
      SchemaSplits(lead, tables);
      CleanTableReads(lead, t);
      var end, rest := BitsText(t.options) + ";", SchemaText(others);
      var s, after := lead + SchemaText(tables), end + rest;
      TablesReadBack(end, others);
      TableReadsBack(t, after);
      var at := TableFound(s, lead, t, rest, after);
      TableThen(s, at, Named(t, after), TableOf(t), after, TablesOf(others));
    }
  }

  /** Any list of tables written as CREATE TABLE statements reads back as the
      same tables: names, columns, order, types and nullability. */
  lemma SchemaRoundTrip(tables: seq<WrittenTable>)
    requires tables != [] && TablesOk(tables)
    ensures ParseSchema(SchemaText(tables)) == Ok(TablesOf(tables))
  {
    var clean := CleanTables(tables);
    CleanTablesAreSame(tables);
    SchemaCleans(tables);
    NoKeyword("");
    TablesReadBack("", clean);
    assert "" + SchemaText(clean) == SchemaText(clean);
  }
}
