/** `CREATE TABLE` text to tables: `parse_schema` and everything it calls. */
module Ddl {
  import opened Wrappers
  import opened Chars
  import opened DorisTypes
  import opened Scanners
  import opened TypeParser
  import opened Comments

  datatype Table = Table(database: Option<string>, name: string, columns: seq<Column>)

  datatype DdlError =
    | NoColumnBlock
    | UnbalancedParens
    | NoColumns
    | NoTables
    | NoColumnName
    | NoColumnType
    | BadType(error: ParseError)

  // find_create_table

  /** What may follow CREATE, in upper case: `[EXTERNAL] TABLE` as a word. */
  predicate TableFollows(tail: string) {
    var trimmed := TrimStart(tail);
    var word := if StartsWith(trimmed, 0, "EXTERNAL") then TrimStart(trimmed[8..]) else trimmed;
    StartsWith(word, 0, "TABLE") && (|word| == 5 || !IsIdent(word[5]))
  }

  predicate CreateAt(upper: string, i: nat)
    requires i <= |upper|
  {
    StartsWith(upper, i, "CREATE") && (i == 0 || !IsIdent(upper[i - 1])) && TableFollows(upper[i + 6..])
  }

  /** The first `CREATE [EXTERNAL] TABLE` from `i` on. */
  function CreateIndex(upper: string, i: nat): (k: Option<nat>)
    requires i <= |upper|
    ensures k.Some? ==> i <= k.value && k.value + 6 <= |upper|
    decreases |upper| - i
  {
    if CreateAt(upper, i) then Some(i)
    else if i == |upper| then None
    else CreateIndex(upper, i + 1)
  }

  function FindCreateTable(haystack: string): (k: Option<nat>)
    ensures k.Some? ==> k.value + 6 <= |haystack|
  {
    CreateIndex(Upper(haystack), 0)
  }

  /** `str::find` for the keyword: the first occurrence from `from` on. */
  method FindCreateWord(upper: string, from: nat) returns (k: Option<nat>)
    requires from <= |upper|
    ensures k.Some? ==> from <= k.value < |upper| && StartsWith(upper, k.value, "CREATE")
    ensures forall j | from <= j < (if k.Some? then k.value else |upper| + 1) :: !StartsWith(upper, j, "CREATE")
  {
    var at := from;
    while at <= |upper|
      invariant from <= at <= |upper| + 1
      invariant forall j | from <= j < at :: !StartsWith(upper, j, "CREATE")
    {
      if StartsWith(upper, at, "CREATE") {
        return Some(at);
      }
      at := at + 1;
    }
    k := None;
  }

  lemma {:induction false} NoWordBetween(upper: string, from: nat, to: nat)
    requires from <= to <= |upper|
    requires forall j | from <= j < to :: !StartsWith(upper, j, "CREATE")
    ensures CreateIndex(upper, from) == CreateIndex(upper, to)
    decreases |upper| - from
  {
    if from < to {
      NoWordBetween(upper, from + 1, to);
    }
  }

  lemma OtherStart(s: string, i: nat, word: string)
    requires word != "" && i < |s| && s[i] != word[0]
    ensures !StartsWith(s, i, word)
  {
    if i + |word| <= |s| {
      assert s[i..i + |word|][0] == s[i];
    }
  }

  /** The keyword does not overlap itself. */
  lemma SkipCreateWord(upper: string, at: nat)
    requires at <= |upper| && StartsWith(upper, at, "CREATE") && !CreateAt(upper, at)
    ensures CreateIndex(upper, at) == CreateIndex(upper, at + 6)
  {
    forall j | at < j < at + 6 ensures !StartsWith(upper, j, "CREATE") {
      assert upper[j] == upper[at..at + 6][j - at];
      OtherStart(upper, j, "CREATE");
    }
    NoWordBetween(upper, at + 1, at + 6);
  }

  method LocateCreateTable(haystack: string) returns (k: Option<nat>)
    ensures k == FindCreateTable(haystack)
  {
    var upper := Upper(haystack);
    var from := 0;
    while true
      invariant from <= |upper|
      invariant FindCreateTable(haystack) == CreateIndex(upper, from)
      decreases |upper| - from
    {
      var found := FindCreateWord(upper, from);
      if found.None? {
        NoWordBetween(upper, from, |upper|);
        return None;
      }
      var at := found.value;
      NoWordBetween(upper, from, at);
      var beforeOk := at == 0 || !IsIdent(upper[at - 1]);
      if beforeOk && TableFollows(upper[at + 6..]) {
        return Some(at);
      }
      SkipCreateWord(upper, at);
      from := at + 6;
    }
  }

  // read_table_identifier

  /** The text after the word, when it comes next. */
  function AfterWord(rest: string, word: string): (r: Option<string>)
    ensures r.Some? ==> |r.value| <= |rest|
  {
    var trimmed := TrimStart(rest);
    if |word| <= |trimmed| && Upper(trimmed[..|word|]) == word && (|trimmed| == |word| || !IsIdent(trimmed[|word|]))
    then Some(trimmed[|word|..])
    else None
  }

  function SkipWord(rest: string, word: string): (r: string)
    ensures |r| <= |rest|
  {
    var after := AfterWord(rest, word);
    if after.Some? then after.value else rest
  }

  /** A possibly qualified table name, and the text after it. */
  datatype TableName = TableName(database: Option<string>, name: string, rest: string)

  function ReadQualified(text: string): (r: Option<TableName>)
    ensures r.Some? ==> |r.value.rest| <= |text|
  {
    var trimmed := TrimStart(text);
    var first :- ReadIdent(trimmed);
    var tail := trimmed[first.used..];
    var dotted := TrimStart(tail);
    if dotted != "" && dotted[0] == '.' && ReadIdent(TrimStart(dotted[1..])).Some? then
      var second := ReadIdent(TrimStart(dotted[1..])).value;
      Some(TableName(Some(first.name), second.name, TrimStart(dotted[1..])[second.used..]))
    else Some(TableName(None, first.name, tail))
  }

  /** `IF`, `NOT` and `EXISTS` are each skipped when present, whichever of the
      others are: `expect` reports an optional word as found either way. */
  function ReadTableIdentifier(input: string): (r: Option<TableName>)
    ensures r.Some? ==> |r.value.rest| <= |input|
  {
    var afterTable :- AfterWord(SkipWord(input, "EXTERNAL"), "TABLE");
    ReadQualified(SkipWord(SkipWord(SkipWord(afterTable, "IF"), "NOT"), "EXISTS"))
  }

  // parse_column

  function FirstWord(s: string): (w: string)
    ensures |w| <= |s|
  {
    if s == "" || IsSpace(s[0]) then "" else [s[0]] + FirstWord(s[1..])
  }

  /** `split_whitespace`. */
  function Words(s: string): seq<string> {
    if s == "" then []
    else if IsSpace(s[0]) then Words(s[1..])
    else [FirstWord(s)] + Words(s[|FirstWord(s)|..])
  }

  /** The two words stand next to each other. */
  predicate NotNullIn(words: seq<string>) {
    exists i | 0 <= i < |words| - 1 :: words[i] == "NOT" && words[i + 1] == "NULL"
  }

  const NON_COLUMN_LEADS: set<string> :=
    {"INDEX", "KEY", "UNIQUE", "PRIMARY", "DUPLICATE", "AGGREGATE", "CONSTRAINT", "FOREIGN", "CLUSTER"}

  predicate IsNonColumnEntry(entry: string) {
    var words := Words(entry);
    var first := if words == [] then "" else words[0];
    !(first != "" && first[0] == '`') && Upper(first) in NON_COLUMN_LEADS
  }

  /** The modifiers start as many characters after the name as the type token
      is long, counted without the blanks between them, as in the source. */
  function ParseColumn(entry: string): Result<Column, DdlError> {
    match ReadIdent(entry)
    case None => Err(NoColumnName)
    case Some(id) =>
      var afterName := entry[id.used..];
      var rest := TrimStart(afterName);
      if rest == "" then Err(NoColumnType) else
        var (typeText, afterType) := TypeToken(rest);
        match ParseType(typeText)
        case Err(e) => Err(BadType(e))
        case Ok(ty) =>
          var modifiers := Upper(Blanked(afterName[afterType..], None, false));
          Ok(Column(id.name, ty, !NotNullIn(Words(modifiers))))
  }

  /** The column an entry declares; none for a blank entry or a constraint. */
  function ParseEntry(entry: string): Result<seq<Column>, DdlError> {
    var trimmed := Trim(entry);
    if trimmed == "" || IsNonColumnEntry(trimmed) then Ok([]) else
      var column :- ParseColumn(trimmed);
      Ok([column])
  }

  function ParseEntries(entries: seq<string>): Result<seq<Column>, DdlError> {
    if entries == [] then Ok([]) else
      var column :- ParseEntry(entries[0]);
      var rest :- ParseEntries(entries[1..]);
      Ok(column + rest)
  }

  function ParseColumnBlock(body: string): Result<seq<Column>, DdlError> {
    ParseEntries(TopLevelPieces(body))
  }

  lemma EntryStep(columns: seq<Column>, entries: seq<string>, i: nat)
    requires i < |entries|
    ensures ParseEntry(entries[i]).Err? ==> ParseEntries(entries[i..]) == Err(ParseEntry(entries[i]).error)
    ensures ParseEntry(entries[i]).Ok? ==>
              Prepended(columns, ParseEntries(entries[i..])) ==
              Prepended(columns + ParseEntry(entries[i]).value, ParseEntries(entries[i + 1..]))
  {
    var left := entries[i..];
    assert left[0] == entries[i] && left[1..] == entries[i + 1..];
    var column, rest := ParseEntry(entries[i]), ParseEntries(entries[i + 1..]);
    if column.Ok? && rest.Ok? {
      assert columns + column.value + rest.value == columns + (column.value + rest.value);
    }
  }

  method CollectColumns(body: string) returns (r: Result<seq<Column>, DdlError>)
    ensures r == ParseColumnBlock(body)
  {
    var entries := SplitTopLevel(body);
    var columns: seq<Column> := [];
    assert entries[0..] == entries;
    PrependedEnds([], ParseEntries(entries));
    for i := 0 to |entries|
      invariant ParseEntries(entries) == Prepended(columns, ParseEntries(entries[i..]))
    {
      EntryStep(columns, entries, i);
      var trimmed := Trim(entries[i]);
      if trimmed == "" || IsNonColumnEntry(trimmed) {
        assert ParseEntry(entries[i]) == Ok([]) && columns + [] == columns;
        continue;
      }
      var column := ParseColumn(trimmed);
      if column.Err? {
        return Err(column.error);
      }
      columns := columns + [column.value];
    }
    assert entries[|entries|..] == [];
    PrependedEnds(columns, Ok([]));
    r := Ok(columns);
  }

  function Prepended<T>(before: seq<T>, rest: Result<seq<T>, DdlError>): Result<seq<T>, DdlError> {
    if rest.Ok? then Ok(before + rest.value) else rest
  }

  lemma PrependedEnds<T>(before: seq<T>, rest: Result<seq<T>, DdlError>)
    ensures Prepended([], rest) == rest
    ensures Prepended(before, Ok([])) == Ok(before)
  {
    if rest.Ok? {
      assert [] + rest.value == rest.value;
    }
    assert before + [] == before;
  }

  // parse_schema

  /** The text between the parentheses of a table, and the text after them. */
  datatype Block = Block(body: string, after: string)

  function ColumnBlock(rest: string): (r: Result<Block, DdlError>)
    ensures r.Ok? ==> |r.value.after| < |rest|
  {
    var open := IndexOf(rest, '(');
    if open == |rest| then Err(NoColumnBlock) else
      match ParenMatch(rest, open)
      case None => Err(UnbalancedParens)
      case Some(close) => Ok(Block(rest[open + 1..close], rest[close + 1..]))
  }

  /** The table whose CREATE keyword was just read, and the text after its block. */
  datatype Parsed = Parsed(table: Table, after: string)

  function ParseTable(id: TableName): (r: Result<Parsed, DdlError>)
    ensures r.Ok? ==> |r.value.after| < |id.rest|
  {
    var block :- ColumnBlock(id.rest);
    var columns :- ParseColumnBlock(block.body);
    if columns == [] then Err(NoColumns)
    else Ok(Parsed(Table(id.database, id.name, columns), block.after))
  }

  method FindBlock(rest: string) returns (r: Result<Block, DdlError>)
    ensures r == ColumnBlock(rest)
  {
    var open := IndexOf(rest, '(');
    if open == |rest| {
      return Err(NoColumnBlock);
    }
    var close := MatchParen(rest, open);
    if close.None? {
      return Err(UnbalancedParens);
    }
    r := Ok(Block(rest[open + 1..close.value], rest[close.value + 1..]));
  }

  method ReadTable(id: TableName) returns (r: Result<Parsed, DdlError>)
    ensures r == ParseTable(id)
  {
    var block := FindBlock(id.rest);
    if block.Err? {
      return Err(block.error);
    }
    var columns := CollectColumns(block.value.body);
    if columns.Err? {
      return Err(columns.error);
    }
    if columns.value == [] {
      return Err(NoColumns);
    }
    r := Ok(Parsed(Table(id.database, id.name, columns.value), block.value.after));
  }

  function ParseTables(s: string): Result<seq<Table>, DdlError>
    decreases |s|
  {
    match FindCreateTable(s)
    case None => Ok([])
    case Some(at) =>
      match ReadTableIdentifier(s[at + 6..])
      case None => ParseTables(s[at + 6..])
      case Some(id) =>
        var table :- ParseTable(id);
        var rest :- ParseTables(table.after);
        Ok([table.table] + rest)
  }

  function ParseSchema(sql: string): Result<seq<Table>, DdlError> {
    var tables :- ParseTables(Clean(sql));
    if tables == [] then Err(NoTables) else Ok(tables)
  }

  lemma TableStep(tables: seq<Table>, s: string, rest: string, id: TableName)
    requires FindCreateTable(s).Some? && rest == s[FindCreateTable(s).value + 6..]
    requires ReadTableIdentifier(rest) == Some(id)
    ensures ParseTable(id).Err? ==> ParseTables(s) == Err(ParseTable(id).error)
    ensures ParseTable(id).Ok? ==>
              Prepended(tables, ParseTables(s)) ==
              Prepended(tables + [ParseTable(id).value.table], ParseTables(ParseTable(id).value.after))
  {
    var table := ParseTable(id);
    if table.Ok? && ParseTables(table.value.after).Ok? {
      var later := ParseTables(table.value.after).value;
      assert tables + [table.value.table] + later == tables + ([table.value.table] + later);
    }
  }

  method ReadSchema(sql: string) returns (r: Result<seq<Table>, DdlError>)
    ensures r == ParseSchema(sql)
  {
    var stripped := StripComments(sql);
    r := ReadTables(stripped);
    if r == Ok([]) {
      r := Err(NoTables);
    }
  }

  /** The loop of `parse_schema`. */
  method ReadTables(stripped: string) returns (r: Result<seq<Table>, DdlError>)
    ensures r == ParseTables(stripped)
  {
    var tables: seq<Table> := [];
    var cursor := stripped;
    ghost var goal := ParseTables(stripped);
    PrependedEnds([], goal);
    while true
      invariant goal == Prepended(tables, ParseTables(cursor))
      decreases |cursor|
    {
      var offset := LocateCreateTable(cursor);
      if offset.None? {
        PrependedEnds(tables, Ok([]));
        return Ok(tables);
      }
      var rest := cursor[offset.value + 6..];
      var id := ReadTableIdentifier(rest);
      if id.None? {
        cursor := rest;
      } else {
        TableStep(tables, cursor, rest, id.value);
        var table := ReadTable(id.value);
        if table.Err? {
          return Err(table.error);
        }
        tables, cursor := tables + [table.value.table], table.value.after;
      }
    }
  }
}
