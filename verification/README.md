# Model of the Doris Parquet generator

The repository generates rows for an Apache Doris table and uploads them as
Parquet files. This project models its four connected cores and proves
properties of them for all inputs, all runs and all nesting depths.

* **DDL to types** (`src/schema.rs`). `Scanners`, `Comments`, `TypeParser` and
  `Ddl` are the hand-written scanners and the parser, each loop written as the
  loop it is and proved against a function; `TypeWalks`, `PrintedTypes`,
  `TypeRoundTrip`, `TypeSoundness`, `DdlText`, `ColumnRoundTrip` and
  `DdlRoundTrip` show that parsing undoes printing, for types and for whole
  schemas with their comments, constraints and modifiers, and exactly when it
  does not. `Literals` says where quoted text ends and when text is split
  differently, `NullabilityRead` and `NullabilitySlip` what `parse_column` makes
  of modifiers.
* **Values to columns** (`src/parquet_out.rs`). `Decimals` and `Scalars` are the
  conversions; `Arrow` is the layout of the Apache Arrow Columnar Format
  (sections "Variable-size List Layout", "Struct Layout" and "Map Layout") with
  a reader for one row; `Columns` says what a row list becomes (`Shred`) and,
  without columns, what one row stands for (`Normalise`). `ColumnMeaning`
  connects the two, `ColumnAppend` puts columns end to end, `ColumnBuild` has the
  loops, `Batches` the builder classes and the startup probe. `MapKeys` and
  `TypedKeys` say when converted MAP keys stay distinct.
* **The run** (`src/main.rs`, `src/sink.rs`). `Pipeline` is a step system: one
  step is at most one access to shared state, so a run is any interleaving of
  generators and upload workers with any choice of failures.
  `PipelineAccounting`, `PipelineTheorems`, `PipelineProgress`, `PipelineJams`
  and `PipelineWitnesses` hold its invariant and what follows. `Sink`, `Upload` and
  `Generation` are the classes and loops themselves; each call of the sink is
  proved to do what the step system's worker does in that call (`SinkCalls`).
  `RowGroups`, `FileNames` and `SizeTarget` cover files, keys and the size stop,
  `FolderRuns` what becomes of the files and folders of a run.
* **Derived generators** (`src/derive.rs`). `Derive` gives the generator derived
  from each type and the values it draws; `DeriveFits` shows that each of them
  is accepted by its own column, `DeriveExactly` when it is not.

Library calls the repository makes but does not define (JSON, floating point,
network addresses, calendar text) are the functions of `Values.Env`; nothing is
assumed of them except what a theorem states itself, such as `EnvOk` (addresses
read back, small floats stay finite) for derived generators.

## What the code does that its documentation does not say

The model follows the code. Each point below is a lemma.

* The repository's README says MAP keys are unique. They are compared by their
  plain text before conversion, and every conversion but those that store the
  text trims it first. So a key fed as text can repeat exactly in the columns
  that do not store text: all but CHAR, VARCHAR, STRING, HLL, JSON and VARIANT
  (`MapKeys.TextKeyMeetsAnother`). Keys of one typed kind can repeat exactly
  where the conversion forgets something: numbers into BOOLEAN, fractions into
  an integer type, times into DATE or a DATETIME of fewer than six places
  (`TypedKeys.TypedKeysMeetExactly`). The keys derived generators draw stay
  distinct, but for FLOAT keys that are one once narrowed to 32 bits
  (`TypedKeys.DrawnMapKeysStayApart`).
* It says a decimal with more fractional digits than its column is refused. The
  typed route accepts extra digits that are zero, the text route does not
  (`Decimals.TypedAcceptsTrailingZeros`); they agree whenever the value has no
  more places than the column (`Decimals.TypedRefinesText`).
* The startup probe accepts JSON text `null` for a NOT NULL nested column; the
  batch is then refused (`Batches.JsonNullSlipsPastTheProbe`).
* `parse_column` counts the modifiers from the wrong place (src/schema.rs, line
  400): as many characters of the type as there are blanks before it are read
  again. `NullabilityRead.NullabilityIsRight` says of every accepted entry when
  the nullability is still right. It is wrong in three ways: a marker inside the
  type is taken for the column's, as in `ARRAY<INT NOT NULL >` after ten blanks
  (`NullabilitySlip.BlanksFlipNullability`); a quote inside the type hides the
  column's marker, as in `STRUCT<a:INT COMMENT 'x'> NOT NULL` after two
  (`NullabilitySlip.CommentedFieldLosesMarker`); and a marker glued to the type
  is swallowed (`NullabilitySlip.GluedMarkerIsLost`). With no blank before the
  type, or one and a blank after it, it is right
  (`NullabilityRead.ShortGapIsRight`).
* `split_top_level` does not know the backslash escapes the other scanners
  honour, so a comment with an escaped quote before a comma is cut in two
  (`Literals.EscapedQuoteIsCut`, `Literals.ScannersAgree`). A text is split
  differently from a scanner with escapes if and only if some comma is reached
  outside literals and brackets by just one of the two
  (`Literals.SplitsDifferExactly`), so never without such a quote
  (`Literals.SplitHonoursEscapes`).
* A STRUCT type whose field name needed backticks is accepted, and its printed
  form is not (`TypeSoundness.QuotedNameDoesNotReprint`).
* A `--rows` run does not make up every lost row (src/main.rs, lines 269-274):
  the batch whose `open` or `write` failed is neither counted nor credited, so a
  run can succeed short of its rows and the debug assertion at line 685 is then
  false (`PipelineTheorems.FinalAssertion`, `PipelineWitnesses.ShortRunSucceeds`).
* With the status display on, a run whose workers have all failed hangs once
  the queue is full (`PipelineWitnesses.JamIsReachable`). That is the only way
  to get stuck (`PipelineProgress.StuckExactlyWhenJammed`). It can happen
  exactly when the display is on, there is a generator, and `--rows`, if given,
  makes enough batches for every worker to use up its retries, for the queue,
  and for one more (`PipelineJams.JamIsReachableExactly`).
* A last file whose close fails, which is tolerated while retries last, leaves
  its shares behind in the gauges (src/sink.rs, lines 364-377): a run can succeed
  with no file open and bytes in `active_bytes`
  (`PipelineWitnesses.LeftoverIsReachable`). After a successful run the gauges
  are right if and only if the writers of such files had no share
  (`PipelineTheorems.LeftoverGauges`).
* The repository's README says a batch folder holds exactly `files_per_folder`
  files. A key is used up by a file that never opens or is lost later, so a
  folder holds that many if and only if all its files were completed
  (`FolderRuns.FoldersOfRun`), and a run can succeed with a short folder
  (`FolderRuns.ShortFolderSucceeds`).
* The derived generator of CHAR(0) or VARCHAR(0) draws one byte, which the
  column refuses (`DeriveFits.TextColumnFitsExactly`), and so at any depth
  (`DeriveExactly.DerivedFitsExactly`).

## Model

| member | source | states |
|---|---|---|
| Decimals.SplitOfFormat | vendor/datagen/src/generators.rs:1028-1041 | Reading back the rendering of a fixed-point value recovers its sign, exactly its scale in fraction digits, and its units |
| Decimals.SplitExactly | src/parquet_out.rs:744-757 | A text splits into these parts if and only if it is written as a sign or none, the whole digits, and the fraction digits after a point, with a digit somewhere |
| Decimals.TextToDecimalMeaning | src/parquet_out.rs:783-799 | The 128-bit text route returns the number the digits denote at the column's scale, and fails exactly when its magnitude reaches ten to the precision |
| Decimals.RescaleIsExact | src/parquet_out.rs:804-835 | The typed route returns r if and only if r at the column's scale is exactly the value and r is below ten to the precision |
| Decimals.TextIsExact | src/parquet_out.rs:772-800 | The text route fed a rendered value returns r if and only if the value has no more places than the column and r is that very number within precision |
| Decimals.TypedRefinesText | src/parquet_out.rs:772-835 | The two routes agree wherever the text route accepts; what only the typed route takes has more places than the column |
| Decimals.TypedAcceptsTrailingZeros | src/parquet_out.rs:813-822 | 1.50 into one decimal place: accepted typed, refused as text |
| Decimals.SignificantDigits | src/parquet_out.rs:846-850 | Counting digits after trimming zeros is the same as bounding the magnitude by ten to the precision |
| Decimals.TextToDecimal256Meaning | src/parquet_out.rs:838-856 | Up to 76 digits the 256-bit route returns the number denoted, fails only for magnitude, and its final conversion never fails |
| Decimals.WideRouteAgrees | src/parquet_out.rs:772-856 | Up to 38 digits both text routes accept the same texts and give the same number |
| Decimals.AcceptedWithinPrecision | src/parquet_out.rs:838-856 | Whatever the wide route accepts has magnitude below ten to the precision |
| Scalars.FlooredDateTime | src/parquet_out.rs:321-334 | A stored DATETIME is the greatest multiple of its unit not after the value, before or after 1970, stays in Doris's range, and storing it again changes nothing |
| Scalars.IntegerMeaning | src/parquet_out.rs:693-716 | An integer becomes itself, a fixed-point value its whole part toward zero, the text of an integer that integer; each is refused exactly outside the column's range |
| Arrow.NullBuffer | src/parquet_out.rs:488-494 | Dropping the buffer when every row is valid loses no row's validity |
| Flatten.OffsetsShape | src/parquet_out.rs:525-548 | Offsets start at 0, never decrease and end at the child length |
| Flatten.RowSlice | src/parquet_out.rs:525-548 | Row i is found again between offsets i and i+1 of the flattened child |
| ColumnMeaning.ShredMeaning | src/parquet_out.rs:467-656 | At any depth, a column builds if and only if its type is supported, the 32-bit offsets fit and every row normalises; reading row i back then gives exactly the value row i stands for, in a well-formed array of the declared type |
| ColumnMeaning.ScalarMeaning | src/parquet_out.rs:503-520 | A scalar column builds if and only if every non-null value converts, and holds those conversions |
| ColumnMeaning.ListMeaning | src/parquet_out.rs:525-548 | ARRAY step of the above: given the child's meaning, the offsets and validity find each row's elements again |
| ColumnMeaning.MapMeaning | src/parquet_out.rs:549-596 | MAP step: each row's entries come back in order as key and value pairs, and refused keys are exactly null or repeated plain texts |
| ColumnMeaning.StructMeaning | src/parquet_out.rs:597-653 | STRUCT step: missing fields are null, the last duplicate wins, lists are taken by position, unknown names and wrong lengths refuse the row |
| ColumnMeaning.KeyColumnHasNoNulls | src/parquet_out.rs:561-585 | The key column handed to the map constructor never holds a null |
| Columns.FieldIndex | src/parquet_out.rs:608-628 | The position of the first field of that name, and none exactly when no field has it |
| ColumnAppend.BuildsTogether | src/parquet_out.rs:172-180 | Two value lists build as one column if and only if each builds alone and the joint offsets fit |
| ColumnAppend.BuildsRowByRow | src/parquet_out.rs:172-180 | A column builds if and only if every single row builds alone, the type is supported and the offsets fit: probing one value at a time is sound and complete |
| ColumnAppend.ShredAppend | src/parquet_out.rs:503-656 | The column of xs followed by ys is the column of xs with the column of ys appended: offsets shifted, validity and children joined, at any depth |
| ColumnAppend.OffsetsFitSplit | src/parquet_out.rs:496-498 | When the offsets of a whole batch fit 32 bits, so do those of both halves, at every depth |
| ColumnBuild.BuildArray | src/parquet_out.rs:503-520 | The loop over rows produces exactly the column `Shred` describes, or fails exactly when it does |
| ColumnBuild.BuildNested | src/parquet_out.rs:523-656 | The three arms, loop by loop, produce exactly that column |
| ColumnBuild.CollectElements | src/parquet_out.rs:525-540 | After the row loop the offsets, validity and children are those of all rows, and it stops exactly at the 32-bit limit |
| ColumnBuild.CollectEntries | src/parquet_out.rs:549-585 | The entry loop with its set of seen keys accepts exactly rows whose keys are non-null and differ in plain text, and collects offsets, validity, keys and values of all of them |
| ColumnBuild.CollectFields | src/parquet_out.rs:597-640 | The struct loop leaves one list per field holding that field of every row, and fails exactly when some row does not spread |
| ColumnBuild.SpreadNamed | src/parquet_out.rs:605-628 | One record row spread over the fields: first matching column, last duplicate wins, missing is null |
| Batches.ColumnBuilder.Append | src/parquet_out.rs:276-361 | A value is taken exactly when it is null or converts (or has the nested shape), and a refused value leaves what was taken |
| Batches.ColumnBuilder.Finish | src/parquet_out.rs:363-389 | The column of everything taken, and the builder is empty again |
| Batches.Probe | src/parquet_out.rs:172-180 | Passes exactly when the value is not a forbidden null and builds a one-row column |
| Batches.ProbedBatchBuilds | src/parquet_out.rs:172-180 | If every value probes, the batch's column builds with its nullability met if and only if the offsets fit and no NOT NULL nested column is fed JSON text null |
| Batches.JsonNullSlipsPastTheProbe | src/parquet_out.rs:172-180 | JSON text null passes the probe of a NOT NULL array and does not build |
| Batches.ColumnNulls | src/parquet_out.rs:467-494 | A finished column holds a null exactly when some row was null or JSON text null in a nested column |
| Batches.FinishedColumns | src/parquet_out.rs:964-983 | Finished columns pass every record batch check except possibly nullability, and the batch holds the table cell by cell |
| Batches.AppendColumns | src/parquet_out.rs:944-961 | The column loop succeeds exactly when every column has a value it takes, and then each builder has one more value, its own |
| Batches.BatchBuilder.AppendRow | src/parquet_out.rs:944-961 | Succeeds exactly when every column takes its looked-up value; the table then has exactly that row more, in column order |
| Batches.BatchBuilder.Finish | src/parquet_out.rs:964-983 | The batch holds row i of column k as the value of row i, NOT NULL columns hold no null, and the builder is empty again; it exists exactly when every column builds |
| MapKeys.TextKeysStayDistinct | src/parquet_out.rs:570-580 | In a text key column no two converted keys of a row are equal |
| MapKeys.IntegersStayDistinct | src/parquet_out.rs:570-580 | An integer key column fed integers that render apart never holds the same key twice |
| MapKeys.FixedStayDistinct | src/parquet_out.rs:570-580 | A decimal key column, narrow or wide, fed fixed-point values of one scale that render apart never holds the same key twice |
| MapKeys.TextKeyMeetsAnother | src/parquet_out.rs:570-580 | For every scalar key type and every accepted text key, another text passes the duplicate check and becomes the same key if and only if the type is not CHAR, VARCHAR, STRING, HLL, JSON or VARIANT |
| MapKeys.NumberKeysCollide | src/parquet_out.rs:570-580 | Every integer, decimal and boolean key type does have two such keys, whatever the library calls do |
| TypedKeys.TypedKeysMeetExactly | src/parquet_out.rs:570-580 | For every integer, decimal, boolean, text and time key type and every kind of typed value (integers, booleans, decimals of one scale, times of one format that shows microseconds), two values that pass the duplicate check can become the same key if and only if the type and kind are one of: numbers into BOOLEAN, decimals with places into an integer type, times into DATE or DATETIME below six places |
| TypedKeys.DrawnKeysStayApart | src/derive.rs:213-221 | Two keys drawn for a MAP of any scalar key type that render apart are both accepted and become different keys, except FLOAT keys, which meet exactly when narrowing makes them one; the library calls are assumed to read addresses back and to render a day's or a unit's times alike |
| TypedKeys.DrawnMapKeysStayApart | src/derive.rs:184-188 | So no map a derived generator draws holds the same converted key twice, except FLOAT keys that narrowing makes one |
| Scanners.MatchParen | src/schema.rs:288-321 | The loop returns the parenthesis closing the first one outside quotes, or none |
| Scanners.SplitTopLevel | src/schema.rs:325-354 | The loop returns exactly the pieces between commas outside brackets and quotes, in order |
| Scanners.ReadTypeToken | src/schema.rs:408-442 | The loop returns the name, its angle brackets and its argument list, and where they end |
| Scanners.StripStringLiterals | src/schema.rs:616-644 | Quoted text becomes blanks of the same length, everything else stays in place |
| Literals.BlankedAt | src/schema.rs:616-644 | A character is blanked if and only if a literal is open before it or it is the quote that opens one |
| Literals.BlankedInside | src/schema.rs:616-644 | The rest of an open literal is blanked, and what follows it is read as if it stood alone |
| Literals.ScannersAgree | src/schema.rs:325-354 | `split_top_level` ends a literal where `strip_comments` does if and only if the next quote is not an escaped one with text after it |
| Literals.SplitHonoursEscapes | src/schema.rs:325-354 | Text in which no literal holds an escaped quote with text after it is split exactly where a scanner that honours escapes would split it |
| Literals.SplitsDifferExactly | src/schema.rs:325-354 | For every text, the pieces differ from those of a split that honours escapes if and only if some comma stands outside literals and brackets for one of the two scanners and not for the other |
| Literals.EscapedQuoteIsCut | src/schema.rs:325-354 | A literal with an escaped quote before a comma is one literal to `strip_comments` and two pieces to `split_top_level` |
| Scanners.CutAtTopLevelKeyword | src/schema.rs:594-613 | The text before the first whole-word keyword outside brackets and quotes |
| TypeWalks.PiecesSkip | src/schema.rs:325-354 | Text with balanced brackets is passed over without a cut at any comma inside them |
| TypeWalks.AngleSkip | src/schema.rs:413-429 | Text with balanced angle brackets does not end a type token |
| TypeWalks.ParenSkip | src/schema.rs:288-321 | Text with balanced parentheses does not end a parenthesised list |
| TypeWalks.KeywordSkip | src/schema.rs:594-613 | No keyword inside balanced brackets is ever found |
| PrintedTypes.PrintedLevel | src/schema.rs:63-98 | Every printed type is balanced for every scanner and has no comma outside brackets |
| PrintedTypes.NoKeywordInPrinted | src/schema.rs:594-613 | Cutting a printed type at COMMENT cuts nothing, even with a field named comment inside it |
| TypeParser.CollectStructFields | src/schema.rs:553-575 | The field loop yields the fields in order, refusing repeated and missing names and an empty list |
| TypeRoundTrip.PiecesOfFields | src/schema.rs:325-354 | Splitting the printed fields of a STRUCT returns exactly the printed fields |
| TypeRoundTrip.FieldReads | src/schema.rs:553-575 | A printed field reads back as its name and its printed type |
| TypeRoundTrip.PrintRoundTrip | src/schema.rs:63-98 | Parsing the printed form of every sound, bare-named, generatable type returns that type, at any depth |
| TypeSoundness.ParsedIsSound | src/schema.rs:444-580 | Every accepted type text has valid precisions, scales and places, and non-empty STRUCTs without repeated names, at every depth |
| TypeSoundness.ParsedIsBare | src/schema.rs:270-281 | Text without backticks yields only identifier field names |
| TypeSoundness.ReprintParses | src/schema.rs:63-98 | The printed form of an accepted type parses back to it if and only if every field name in it is a bare identifier |
| TypeSoundness.QuotedNameDoesNotReprint | src/schema.rs:270-281 | Any backticked field name is accepted, and the type's printed form parses back exactly when the name needed no backticks |
| Comments.StripComments | src/schema.rs:654-702 | The loop, with its quote state, leaves exactly the lexemes of the text, each comment replaced by one blank character |
| Comments.SkipToNewline | src/schema.rs:704-710 | Stops just after the next newline or at the end |
| Comments.LexIsLossless | src/schema.rs:654-702 | The lexemes of any text, unterminated quotes and comments included, join to the text itself |
| Comments.CleanLexes | src/schema.rs:654-702 | The cleaned text lexes to the original lexemes with a blank for each comment: quoted text is copied unchanged |
| Comments.CleanIsFinal | src/schema.rs:654-702 | No comment is left outside quotes, cleaning twice is cleaning once, and cleaning is the identity exactly on text without comments |
| Ddl.LocateCreateTable | src/schema.rs:198-219 | The search loop that jumps past rejected words finds the first CREATE TABLE of all positions |
| Ddl.CollectColumns | src/schema.rs:362-375 | The entry loop yields the columns in order, skipping constraints, or the first entry's error |
| Ddl.ReadTables | src/schema.rs:127-173 | The statement loop yields the tables in order, skipping what is not a table, or the first error |
| Ddl.ReadSchema | src/schema.rs:127-173 | The same on the text without comments, with an error when there is no table |
| ColumnRoundTrip.ColumnReadsBack | src/schema.rs:388-405 | A written column, with any list of NULL, NOT NULL, other words, quoted text such as a default or a comment, and words in parentheses after its type, reads back with its name and type, NOT NULL exactly when marked so, whatever blanks stand before the type, although the modifiers are read from a shifted place |
| DdlRoundTrip.EntriesReadBack | src/schema.rs:362-375 | A list of columns and constraints reads back as its columns in order, the constraints passed over whatever stands in their quotes and parentheses |
| DdlRoundTrip.TableReadsBack | src/schema.rs:127-173 | A table's block reads back as its columns, leaving exactly the options and text after it |
| DdlRoundTrip.IdentifierReadsBack | src/schema.rs:223-267 | A qualified or plain backticked name reads back, with or without IF NOT EXISTS before it, whatever it contains but a backtick |
| DdlRoundTrip.SchemaCleans | src/schema.rs:654-702 | Removing comments from a written schema leaves the same schema with a blank for each comment: comments may hold quotes, commas, parentheses and whole statements, and quoted text what looks like a comment |
| DdlRoundTrip.SchemaRoundTrip | src/schema.rs:127-173 | Any list of tables written as CREATE TABLE statements, with comments around statements and entries, constraints, column modifiers, IF NOT EXISTS and table options, reads back as the same tables, columns, order, types and nullability |
| NullabilitySlip.MarkerIsIgnored | src/schema.rs:583-591 | NOT NULL or NULL after an element type changes nothing in the type read |
| NullabilityRead.ReadsNullability | src/schema.rs:388-405 | The nullability of every accepted column entry, in terms of the characters read again before the modifiers, the literal they leave open, and the word they swallow |
| NullabilityRead.NullabilityIsRight | src/schema.rs:388-405 | Every accepted column entry gets the nullability its modifiers say if and only if those characters add no NOT NULL and swallow none glued to the type; or, when they leave a literal open, it swallows all the modifiers and these say NOT NULL exactly if the end of the type does, or it ends inside them and the part before its end, with what follows read on, says NOT NULL exactly if the end of the type does with what follows read afresh |
| NullabilityRead.InsideOut | src/schema.rs:616-644 | In text without backslashes and with one kind of quote, read from inside a literal, every character but the quotes is kept by one and blanked by the other of that reading and the one from outside |
| NullabilityRead.OpenLiteralTurnsModifiers | src/schema.rs:388-405 | When the end of the type leaves a literal open, the column is NOT NULL if and only if the end of the type and the modifiers read from inside that literal hold it |
| NullabilityRead.ShortGapIsRight | src/schema.rs:388-405 | With no blank before the type, or one and modifiers set off from it, the nullability is always right |
| NullabilityRead.UnbrokenTypeIsRight | src/schema.rs:388-405 | After a type without blanks and quotes the nullability is right at any distance if and only if the type does not swallow the marker |
| NullabilitySlip.BlanksFlipNullability | src/schema.rs:388-405 | A nullable ARRAY with a marked element is read as NOT NULL if and only if ten or more blanks stand before its type |
| NullabilitySlip.QuotedCommentLosesMarker | src/schema.rs:388-405 | A type text ending in a quoted comment two blanks after the name makes the column nullable whatever its modifiers say; with fewer blanks they are read right |
| NullabilitySlip.CommentedFieldLosesMarker | src/schema.rs:388-405 | A STRUCT with a commented field, two blanks, and NOT NULL: accepted, and nullable |
| NullabilitySlip.GluedMarkerIsLost | src/schema.rs:388-405 | NOT NULL right after the closing bracket of any printed type is found if and only if no blank stands before the type |
| PipelineAccounting.WorkerMoveKeeps | src/sink.rs:252-394 | Every single step of a worker keeps its books and moves the shared counters by what it moves in its own figures |
| PipelineAccounting.StepKeeps | src/main.rs:180-305 | Every step of every task keeps the invariant of the whole run |
| PipelineAccounting.RunKeeps | src/main.rs:588-675 | The invariant holds in every state of every interleaving with any failures |
| PipelineTheorems.RowsConserved | src/main.rs:196-304 | At every moment of a rows-limited run each of the N rows is in exactly one place: budget, generator, queue, worker's batch, open file, completed file, credit on its way back, or given up |
| PipelineTheorems.GaugesAreShares | src/sink.rs:346-394 | At every moment each shared gauge is the sum of the writers' reported shares and never negative; when every writer is at the queue without a file, or has ended with its last file closed, both byte gauges are zero and rows flushed are the rows in completed files |
| PipelineTheorems.LeftoverGauges | src/sink.rs:364-394 | After a successful run each byte gauge is zero, and rows flushed are the rows in completed files, if and only if no writer whose last close failed had such a share |
| PipelineTheorems.NothingSaturates | src/sink.rs:312-362 | In every state of every run neither saturating subtraction of a sink saturates |
| PipelineTheorems.RowsAccounted | src/sink.rs:279-394 | Between sink calls rows = completed + open + lost over all writers, and each writer's rows_seen = its completed + its open rows |
| PipelineTheorems.FinalAssertion | src/main.rs:681-685 | After a successful run the queue is empty and the asserted equality holds if and only if no batch was dropped in a tolerated failure; the gap is exactly those rows |
| PipelineTheorems.FinalShortfall | src/main.rs:261-304 | After a successful rows-limited run what is missing from N is exactly budget left, rows of an unclosable last file, and batches given up |
| PipelineTheorems.SmoothRunIsExact | src/main.rs:196-304 | Without failures the run ends with exactly N rows in completed files and every row counter at N, none lost |
| PipelineProgress.StuckExactlyWhenJammed | src/main.rs:588-675 | A state with unfinished tasks has no step if and only if the status display holds the queue open, all workers ended, the queue is full and all generators wait to send |
| PipelineProgress.RunIsBounded | src/main.rs:196-304 | Every schedule of a rows-limited run has a length bounded by the configuration alone, although abandoned rows go back into the budget |
| PipelineProgress.RunsEnd | src/main.rs:588-675 | Every rows-limited run can be taken on only so far, and then all tasks have ended or it is jammed; without the status display all have ended |
| PipelineProgress.MaximalRunEnds | src/main.rs:588-675 | A run, limited or not, that cannot go on has ended or is jammed |
| PipelineWitnesses.JamIsReachable | src/main.rs:593-610 | The stuck state is reached from the start with one worker and no tolerated failure |
| PipelineWitnesses.ShortRunSucceeds | src/main.rs:261-304 | A rows-limited run of one row succeeds with no row written and the final assertion false |
| PipelineWitnesses.LeftoverIsReachable | src/sink.rs:364-377 | A run that succeeds with no file open and five bytes in the gauge of open files |
| PipelineJams.JamIsReachableExactly | src/main.rs:593-610 | For every configuration and number of generators and workers, some run from the start jams if and only if the status display is on, there is a generator, and a rows limit makes at least the batches that fail every worker, fill the queue and leave one over |
| Generation.GeneratorLoop | src/main.rs:196-240 | What is sent holds the source's rows in order without gaps, in full batches but the last; the budget gives up exactly the rows sent, plus at most one batch when the loop fails or loses its queue |
| Generation.FillBatch | src/main.rs:217-232 | The inner loop leaves exactly the next rows of the source in the builder |
| RowGroups.WriteRows | src/sink.rs:244-250 | The file writer, cutting groups at the configured limit as it takes rows, arrives at the file `AddRowsCuts` describes |
| RowGroups.AddRowsCuts | src/sink.rs:244-250 | With groups limited by the writer properties, every group has exactly the limit, the tail is shorter, no row is lost and encoded groups stay |
| RowGroups.OneGroupAtMost | src/main.rs:565 | A batch no longer than a group closes at most one group and leaves a tail shorter than itself |
| RowGroups.RollBound | src/sink.rs:279-305 | A file that rolls passes the cap by less than the crossing group and a tail shorter than the last batch, holds all its rows, and only its last group is not full |
| FileNames.PathInjective | src/sink.rs:225-242 | Equal keys mean equal writer and index, even past the padding |
| FileNames.PathsDistinct | src/sink.rs:225-242 | Under any interleaving of opens no two files of a run share a key |
| FileNames.FoldersFillInOrder | src/sink.rs:225-242 | After any number of opens every batch folder has exactly the configured number of keys but the last one begun, in folder order |
| FileNames.FolderIsFull | src/sink.rs:225-242 | A folder holds exactly the configured number of files if and only if all its keys were assigned and every one led to a completed file |
| FolderRuns.RunTracks | src/sink.rs:252-394 | In every state of every run each opened file has one outcome, as many are completed as are counted, and the unsettled ones are exactly workers' open files |
| FolderRuns.FoldersOfRun | src/sink.rs:225-394 | At any moment of any run a folder is full if and only if its keys were all given out and their files all completed |
| FolderRuns.FoldersFullWhenCounted | src/sink.rs:225-394 | The files opened and completed counters agree if and only if no file was lost or is unfinished, and then every folder holds as many files as it was given keys |
| FolderRuns.ShortFolderSucceeds | src/sink.rs:225-276 | A run that succeeds with its first folder empty although its only key was given out |
| SinkCalls.CallKeeps | src/sink.rs:252-394 | A whole sink call, alone, keeps the writer's books and moves the shared counters by its own figures |
| SinkCalls.CloseCall | src/sink.rs:364-394 | The steps of a close add up to: bytes and file counted, open rows completed, all three shares settled |
| SinkCalls.AbandonCall | src/sink.rs:312-342 | The steps of an abandon add up to: file and rows counted lost, the rows off the books, shares settled, the same rows credited |
| SinkCalls.WriteCall | src/sink.rs:279-305 | The steps of a write add up to: rows counted, shares replaced, and a close exactly at the cap |
| Sink.ParquetSink.NextPath | src/sink.rs:225-242 | The key pushed together piece by piece is the one of `FileNames.Path`, and both counters advance by one |
| Sink.ParquetSink.Open | src/sink.rs:252-276 | A key is used up whether or not the file opens; an opened file has no row and its own key |
| Sink.ParquetSink.SyncBufferGauge | src/sink.rs:346-362 | Each gauge moves from this writer's old share to what the file writer reports, rows in memory excluded |
| Sink.ParquetSink.CloseActive | src/sink.rs:364-394 | A file that closes has its bytes and rows counted and its shares settled; one that does not leaves every counter alone |
| Sink.ParquetSink.AbandonActive | src/sink.rs:312-342 | Returns exactly the rows of the open file, counts them lost and takes them off this writer's books |
| Sink.ParquetSink.Write | src/sink.rs:279-306 | Ends where the step system's worker ends after its steps, in every outcome; after a success an open file is below the cap |
| Sink.ParquetSink.Finish | src/sink.rs:397-399 | The last file is closed and counted, or nothing is |
| Upload.UploadWorker | src/main.rs:254-305 | Succeeds exactly while failures stay within the retries, then has taken every batch, and every row taken is completed, credited back, dropped with a failed batch, or in a last file that could not be closed |
| Upload.Deliver | src/main.rs:262-270 | A written batch is in this sink's files; a row leaves the books only with a failure |
| SizeTarget.ProjectionIsExact | src/main.rs:413-428 | Rounding the projection down never changes the decision: it equals comparing exact bytes per row |
| Derive.LongestWord | src/derive.rs:223-225 | The longest lorem word has seven letters |
| DeriveFits.DerivedFits | src/derive.rs:114-209 | Every value the derived generator of a supported type can draw is accepted by a column of that type, at every depth, for text columns of at least one byte and a clock inside Doris's range |
| DeriveExactly.DerivedFitsExactly | src/derive.rs:114-209 | For every derivable type, all draws of its generator fit its column if and only if every CHAR and VARCHAR in it, at any depth, holds at least one byte |
| DeriveFits.ScalarDrawFits | src/derive.rs:114-197 | The same for every scalar type, conversion by conversion |
| DeriveFits.KeyFits | src/derive.rs:213-221 | Every drawn map key fits its key column, short text keys included |
| DeriveFits.DecimalFits | src/derive.rs:260-287 | Every drawn decimal, rescaled to the column, is below ten to the precision, on the narrow and the wide route |
| DeriveFits.LoremWithinFits | src/derive.rs:229-234 | Lorem text sized for a width never exceeds it in bytes, for every 32-bit width of at least one word |
| DeriveFits.FixedWidthFits | src/derive.rs:243-253 | Fixed-width filler fits its width if and only if the width is at least one |
| DeriveFits.TextColumnFitsExactly | src/derive.rs:243-253 | A CHAR or VARCHAR column accepts what is drawn for it if and only if it holds at least one byte |

## Left out

- Decimals.FormatDecimalUnits: value scales above 38 are not modelled; the source's power of ten overflows there before the value can be rendered (vendor/datagen/src/generators.rs, line 1033).
- TypeParser.ParseType: an opening `<` that ends the text is an error value here and a slice panic in the source (src/schema.rs, line 459).
- Scanners.StripStringLiterals: text is ASCII, so that a byte is a character; replacing a wide quoted character by one blank shifts byte offsets in the source (src/schema.rs, lines 616-644).
- Ddl.ParseColumn: text is ASCII here too; in the source a blank of several bytes before the type can put the modifiers' start inside a character, and the slice panics (src/schema.rs, line 400). The theorems of `NullabilityRead` read such text character by character; the written forms of `DdlText` and the families of `NullabilitySlip` have ASCII blanks only.
- DdlRoundTrip.SchemaRoundTrip: names of tables, databases and columns are backticked, and quoted text has no backslash escapes, except in comments; `EXTERNAL`, nested parentheses after a type or in a constraint, and options that hold CREATE are parsed by the model but not part of the written form. Table and database names are ASCII: looking for optional words before the name, the source slices bytes and can panic inside a wider character (src/schema.rs, lines 223-267).
- TypeRoundTrip.PrintRoundTrip: AGG_STATE is left out; it cannot be generated, and its signature is free text.
- TypeSoundness.ReprintParses: requires the original text to hold AGG_STATE nowhere, for the same reason.
- Pipeline.Apply: reserving rows is one step although `reserve_batch` retries a compare-and-swap; only its last, successful attempt has an effect. Counters are unbounded where the source's wrap at 64 bits. The reads of the size and time limits are a free choice.
- PipelineProgress.StuckExactlyWhenJammed: says that some step is enabled, not that a scheduler takes it.
- Sink.ParquetSink.Write: what the file writer and the store do in a call is given by `Io`; a file after a failed writer call is not described, it is only ever abandoned.
- Upload.UploadWorker: the queue is the list of batches this worker gets; sharing it with other workers is in `Pipeline`.
- Generation.GeneratorLoop: one generator alone with the counter; several of them are in `Pipeline`. The row context and its reset rules are the row source.
- RowGroups.WriteRows: the loop that cuts row groups belongs to the parquet crate; the source sets its limit.
- RowGroups.AddRowsCuts: about the same loop, which is not part of the repository.
- TypedKeys.TypedKeysMeetExactly: key types whose conversion of the kind is a library call (numbers into FLOAT, DOUBLE, QUANTILE_STATE, IPV4, IPV6, JSON or VARIANT, anything but a time into DATE or DATETIME) are left to that call.
- TypedKeys.DrawnKeysStayApart: drawn floats are any numbers of their range, not only those rounded to the derived places; rendering a time in a format the calendar library refuses is not modelled (src/derive.rs, line 140).
- Batches.BatchBuilder.AppendRow: after a refused row the builder is not described further; its owner ends with that error.
- Error messages: each failure is one constructor or None, without its text and context.
- Floating point, IP address, JSON and calendar parsing and formatting are functions of `Env`.
- Name-based generator choice and the YAML text of derived specs; descriptors stand for the text. The generators derived from types have no null rate.
- Parquet encoding, compression, object store requests and the asynchronous runtime.
- Status display, terminal width, banners, configuration files, S3 clients, size calculator, and the thin loop of the probe command.
- `select_table` and `sketch_load_expressions`, which add only easy members.
