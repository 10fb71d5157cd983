# poudb: a verified model

poudb is an in-memory table store: tables of typed rows in chained hash maps, hash indexes on
scalar columns, a binary snapshot file, a text command language, text tables as answers, and an
event loop that serves authenticated clients. This project models the five cores in Dafny and
proves what they promise over all inputs and all runs. `dafny verify dfyconfig.toml` checks it.

How it is laid out:

- **Storage engine.** `Values` (cells, the two comparisons, the index hash), `ValueMeaning` (what
  equality means), `RowMap` (buckets as values), `HashMap` (the mutable map and its iterator),
  `FieldIndex`, `Tables`, `TableRuns`, `TableMeaning` (what each operation does to the stored rows),
  `Searches`, `StaleIndexes`, `Database` (the mutable table).
- **Snapshot.** `Spans`, `Bytes`, `Snapshot` (what is written and read), `SnapshotRows`,
  `SnapshotRoundTrip`, `SnapshotCuts`, `SnapshotIO` (the writing loops and the reader object), `SnapshotExamples` (bytes),
  `Catalog` (the list of tables).
- **Commands.** `Text`, `Printer` (the client), `Parser` (the server), `ValueRoundTrip`,
  `ItemRoundTrip`, `ParenSplit`, `CutLists`, `CommandRoundTrip`, `SpacedLists`,
  `ParserRefusals`, `ParserMethods` (the parser's loops), `Examples` (texts).
- **Text tables.** `TableText` (layout), `TableWriter` (the write pointer and the growing array
  buffer), `ClientTable` (the client's reader), `TableRoundTrip`, `TableDenotes` (what the texts say).
- **Server.** `Connections`, `AuthKeys`, `Validation`, `Server` (one step), `Sessions`, `ServerRuns`,
  `ServerAnswers` (replies), `ServerEffects` (one statement per command), `KeyListing`,
  `ServerSnapshots`, `EventLoop` (the loop over the client arrays, the key array and
  the table objects), `EndToEnd` (client to server and back).

Each mutable class or loop is proved equal to a function on values; the theorems are about those
functions. Outside choices are inputs: the row hash (`hash`, any function), the failure of bucket
and index allocation (`growOk`, `lost`, `allocOk`), the clock (`now`), the C library's `strtod` and
`%.6g` (`strtod`, `g`), password hashing and checking (`hash`, `verify`), descriptors and epoll
results. Doubles are 64-bit patterns compared as in section 5.11 of IEEE 754-2019. The snapshot's
byte order is fixed to little-endian. A byte is a Dafny `char`.

Main theorems:

1. `Searches.RunSearchExact`: after any run of ADD, UP, DEL and CREATE_INDEX in which no UP was
   stopped at a full array, SEARCH through an index gives the rows of the full scan in the same
   order, with rebuilds and rehashes failing at will. `StaleIndexes.BlockedUpExactIff` says exactly
   when it still does after such a stopped UP, and `StaleIndexes.BlockedUpMisleads` gives an input
   on which it does not.
2. `SnapshotRoundTrip.RoundTrip`, `SnapshotCuts.StrictPrefixRejected`, `SnapshotCuts.TwoCycles`.
3. `CommandRoundTrip.AddParsesIff` and `UpParsesIff`: for every list of printable values the server
   parses the client's text into exactly these values if and only if two folds over the values say
   so, `ParenSplit.SplitsRight` for the paren split and `ItemRoundTrip.CountsRight` for the counting
   pass.
4. `TableRoundTrip.TableRoundTripIff`: the client recovers a table exactly when its texts are clean;
   `TableWriter.WriteTable`: the writer fills its buffer to the last byte.
5. `Sessions.SessionIsLastAuth` and `OnlyAdminsChange` over all runs of the event loop, whatever
   clients send; `ServerAnswers.RunAnswersExact` and `ServerSnapshots.RestartOk`: a server stopped
   anywhere and restarted from its file meets every condition a run starts from.
6. `TableMeaning.SearchMeaning` and `UpMeaning`, `TableDenotes.TableHoldsIff` and the lemmas of
   `ServerEffects`: what each command does and answers, said of stored rows and of what the client
   then holds.
7. `EndToEnd.AddAcceptedIff` and `AddReadBackIff`: from the values the client sends with ADD to the
   texts it reads back with GET.

Where the code and its documentation differ, the model follows the code:

- `include/auth.h` says a duplicate name is refused; the comparison uses the whole name, the slot keeps
  63 characters of it. `AuthKeys.AddKeyKeepsIff` states when names stay unique. No command
  gets there with a longer name: `parse_add_key` rejects it (src/db/parser.c:313).
- The replies to ADD echo a negative explicit key although the row is stored under an automatic one
  (`ServerAnswers.AddReplyIff`).
- The type checks accept an int array for every array column and nested arrays for a string array
  column (`Validation.AcceptedIff`).
- A carriage return inside a cell does not disturb the client's table reader; only the end of a line
  is affected.

## Model

| member | source | states |
|---|---|---|
| `Values.EqualValuesShareBucket` | src/db/data_model.c:783-836 | scalars that compare equal fall into the same of the 32 index buckets |
| `Values.ZeroHashes` | src/db/data_model.c:783-815 | 0.0 and -0.0 have different 32-bit hashes that agree modulo 32 |
| `Values.ComparisonsAgree` | src/db/operations.c:1678-1715 | the index comparison and the scan comparison agree on scalars of one kind |
| `Values.NaNMatchesNothing` | src/db/operations.c:1678-1690 | NaN matches no value through either comparison |
| `Values.HashExamples` | src/db/data_model.c:783-815 | the 32-bit hash of one value of each kind |
| `ValueMeaning.DoubleEqMeaning` | src/db/operations.c:1678-1690 | two double patterns compare equal if and only if they stand for the same number: the two zeros do, NaN never does |
| `ValueMeaning.EqualsMeaning` | src/db/data_model.c:817-836 | the index comparison says equal exactly of the same number, truth value or characters |
| `ValueMeaning.CompareMeaning` | src/db/operations.c:1678-1715 | the scan reports a scalar cell exactly when it is the value, an array cell exactly when some element is |
| `RowMap.FindRefines` | src/utils/hashmap.c:65-81 | lookup in a valid bucket array is lookup in the map it stands for |
| `RowMap.InsertRefines` | src/utils/hashmap.c:83-108 | inserting a fresh key extends the map and keeps every node in its bucket, rehash allocated or not |
| `RowMap.RehashRefines` | src/utils/hashmap.c:193-221 | relinking into a new bucket array changes no contents |
| `RowMap.RemoveRefines` | src/utils/hashmap.c:110-138 | removal takes exactly that key out of the map |
| `RowMap.RemoveAbsent` | src/utils/hashmap.c:110-138 | removing an absent key changes nothing |
| `RowMap.PutRefines` | src/db/data_model.c:487-508 | overwriting a found row in place changes that key's row and no other |
| `RowMap.IterationOrder` | src/utils/hashmap.c:140-174 | the bucket order lists every stored row once and nothing else, so its length is the row count |
| `RowMap.NewestFirst` | src/utils/hashmap.c:83-98 | without a rehash the iteration order gains the new row in front of its bucket, and nothing else moves |
| `HashMap.RowHashMap.constructor` | src/utils/hashmap.c:20-38 | the new map is valid and empty |
| `HashMap.RowHashMap.Find` | src/utils/hashmap.c:65-81 | the chain walk finds what the value model finds |
| `HashMap.RowHashMap.Insert` | src/utils/hashmap.c:83-108 | head insertion and the load test give the model's map |
| `HashMap.RowHashMap.RehashRows` | src/utils/hashmap.c:193-221 | the relinking loops give the model's rehash |
| `HashMap.RowHashMap.Remove` | src/utils/hashmap.c:110-138 | unlinking gives the model's removal and returns the removed row |
| `HashMap.RowIterator.Next` | src/utils/hashmap.c:150-174 | each call hands out the next row of the bucket order, then stops for good |
| `FieldIndex.FileEffect` | src/db/data_model.c:677-727 | filing a row adds its key under every value it equals and under no other |
| `FieldIndex.BuildEffect` | src/db/data_model.c:677-727 | a rebuilt index lists, for every value, the keys of the matching rows in scan order |
| `TableRuns.GrowthBounded` | src/utils/hashmap.c:100-105 | a rehash doubles and never passes 2^21 buckets, given the row cap |
| `TableRuns.RebuildMakesCurrent` | src/db/data_model.c:657-675 | after the rebuild every index is current or disabled |
| `TableRuns.CreateIndexSound` | src/db/data_model.c:592-607 | CREATE_INDEX keeps the table sound and its indexes current, failing or not |
| `TableRuns.AddEffect` | src/db/data_model.c:266-344 | ADD succeeds exactly for the right count, below the cap, on a fresh key, and then adds one row and nothing else |
| `TableRuns.DeleteEffect` | src/db/data_model.c:513-531 | DEL removes exactly that row, keeps the counter and the other rows |
| `TableRuns.UpdateEffect` | src/db/data_model.c:394-511 | UP replaces the non-ignored fields, appends one element, keeps key, created time, counters and other rows; a full array stops it with the earlier fields written |
| `TableRuns.UpdateRejected` | src/db/data_model.c:394-415 | UP with a wrong count or on a missing row changes nothing |
| `TableRuns.UpdatedCellTyped` | src/db/data_model.c:425-500 | an updated cell keeps its column's type and never exceeds 1024 elements |
| `TableMeaning.AddMeaning` | src/db/data_model.c:266-344 | ADD in full: the code of each refusal, the stored row with its key and both times, the counter even after a refused duplicate, the indexes |
| `TableMeaning.DeleteMeaning` | src/db/data_model.c:513-531 | DEL takes exactly that key out, or changes nothing and answers -2 |
| `TableMeaning.UpMeaning` | src/db/data_model.c:394-511 | UP keeps ignored fields, appends at the end, replaces the others, up to the first append to a full array; it succeeds exactly when there is none, stamps the row, keeps creation time, other rows and counters |
| `TableMeaning.IndexMeaning` | src/db/data_model.c:592-607 | CREATE_INDEX enables exactly the index asked for, or gives the code of its refusal |
| `TableMeaning.RebuildKeeps` | src/db/data_model.c:657-675 | an index stays enabled exactly if it was and its rebuild did not fail |
| `Searches.CurrentSearchIsScan` | src/db/operations.c:816-853 | with current indexes SEARCH equals the full scan on every column and value, in order |
| `Searches.StepKeeps` | src/db/data_model.c:266-531 | every operation keeps the table sound, and its indexes current unless an UP was stopped |
| `Searches.RunSearchExact` | src/db/data_model.c:609-727 | after any run without a stopped UP, indexed SEARCH is the full scan |
| `TableMeaning.SearchMeaning` | src/db/operations.c:809-853 | SEARCH lists, in iteration order and each once, exactly the stored rows whose cell is the value or, on an array column, holds it |
| `TableMeaning.FoundIff` | src/db/operations.c:809-853 | a stored row is in the answer if and only if its cell matches |
| `TableMeaning.ZerosFound` | src/db/operations.c:1678-1690 | the two zeros find each other through SEARCH, NaN finds nothing |
| `Searches.CreateSound` | src/db/data_model.c:182-238 | a new table is sound, current and empty |
| `Searches.RunSound` | src/db/data_model.c:266-531 | every table a run reaches is sound: typed cells, arrays of at most 1024, counts right, keys non-negative and below the counter |
| `Searches.NextKeyAboveHistory` | src/db/data_model.c:285-303 | the counter exceeds every key the table ever held |
| `Searches.AutoKeyIsNew` | src/db/data_model.c:285-303 | an automatic ADD never meets the duplicate test and never reuses a deleted key |
| `Searches.RunLoad` | src/utils/hashmap.c:186-191 | bucket counts are 16 times a power of two, at most 2^21, less than three quarters full while allocation succeeds, and the load test's products fit an int |
| `StaleIndexes.BlockedUpExactIff` | src/db/data_model.c:437-441 | after an UP stopped at a full array, SEARCH is still exact if and only if every indexed field it had already written compares like the old value |
| `StaleIndexes.BlockedUpMisleads` | src/db/data_model.c:437-441 | a concrete table and UP after which SEARCH differs from the scan |
| `Database.FindIndexEntry` | src/db/data_model.c:960-977 | the chain walk finds the first entry that equals the value |
| `Database.BuildIndexBuckets` | src/db/data_model.c:677-727 | the rebuild loop over the iterator gives the model's index |
| `Database.ScanBuckets` | src/db/operations.c:836-852 | the scan loop gives the matching rows in order and never more than the row count |
| `Database.CollectBuckets` | src/db/operations.c:1405-1429 | collecting writes exactly as many rows as the table counts |
| `Database.UpdateFields` | src/db/data_model.c:417-500 | the update loop leaves the cells, and stops, where the model does |
| `Database.Db.AddRow` | src/db/data_model.c:266-344 | the method's new table and code are the model's |
| `Database.Db.DeleteRow` | src/db/data_model.c:513-531 | the method's new table and code are the model's |
| `Database.Db.UpdateRow` | src/db/data_model.c:394-511 | the method's new table and code are the model's |
| `Database.Db.CreateIndex` | src/db/data_model.c:592-607 | the method's new table and code are the model's |
| `Database.Db.RebuildEnabledIndexes` | src/db/data_model.c:657-675 | every enabled index is rebuilt or disabled, rows untouched |
| `Database.Db.IndexCollectRows` | src/db/data_model.c:609-655 | the keys filed under the value, looked up in order |
| `Database.Db.Search` | src/db/operations.c:809-853 | through the index when enabled, else the scan |
| `Bytes.ReadUintAt` | src/db/persistence.c:390-448 | a written unsigned number reads back, little-endian |
| `SnapshotRows.CellAt` | src/db/persistence.c:497-579 | a written cell reads back as the cell, and fits its column |
| `SnapshotRows.FieldsAt` | src/db/persistence.c:642-675 | written field definitions read back |
| `SnapshotRows.RowsAt` | src/db/persistence.c:705-888 | written rows, read back in order into a fresh table, restore its map, timestamps and counter |
| `SnapshotRoundTrip.RoundTrip` | src/db/persistence.c:66-379 | loading what was saved succeeds and restores every table (reversed), its schema, rows, timestamps, counter max(1, largest key + 1), no indexes, and the ordered keys; bytes after it change nothing |
| `SnapshotCuts.LoadExtends` | src/db/persistence.c:166-379 | a load that succeeds is not changed by bytes after what it read |
| `SnapshotCuts.LoadOutcomes` | src/db/persistence.c:166-379 | a load succeeds within the file or fails with empty storage |
| `SnapshotCuts.OtherFiles` | src/db/persistence.c:180-199 | a file of another version loads as an empty store, one without the mark is rejected |
| `SnapshotCuts.BadCounts` | src/db/persistence.c:333-338 | more than 64 keys, and arrays of more than 1024 elements, are refused |
| `SnapshotCuts.StrictPrefixRejected` | src/db/persistence.c:180-379 | every strict prefix of a saved file is rejected with storage empty |
| `SnapshotCuts.TwoCycles` | src/db/persistence.c:66-379 | two save/load cycles restore every table in its place |
| `SnapshotExamples.LowestFirst` | src/db/persistence.c:390-418 | bytes of a number stand lowest first |
| `SnapshotExamples.RowExample` | src/db/persistence.c:497-632 | the bytes of one row with every kind of cell: key, cells, created, updated |
| `SnapshotExamples.TypeCodes` | src/db/persistence.c:581-611 | the bytes of a column definition of each type |
| `SnapshotExamples.TableExample` | src/db/persistence.c:581-632 | the bytes of a table without rows |
| `SnapshotExamples.FileExample` | src/db/persistence.c:66-145 | the bytes of a whole file with one key |
| `SnapshotIO.SaveAll` | src/db/persistence.c:66-164 | the writing loops produce the file of the model |
| `SnapshotIO.WriteRows` | src/db/persistence.c:613-628 | stepping the iterator writes every row once, in bucket order: key, cells and timestamps |
| `SnapshotIO.SnapshotReader.LoadAll` | src/db/persistence.c:166-379 | the reader object's result is the model's load |
| `SnapshotIO.SnapshotReader.FreadRowValues` | src/db/persistence.c:705-888 | the value loop reads what the model reads and advances as far |
| `Catalog.AddDbEffect` | src/db/data_model.c:77-112 | registering succeeds exactly for a new name below 64 tables, keeps names distinct and other lookups unchanged |
| `Catalog.RemoveDbEffect` | src/db/data_model.c:131-161 | removal takes that table out and leaves every other lookup unchanged |
| `Catalog.FindDbPlace` | src/db/data_model.c:114-129 | lookup is the first table of that name in list order |
| `Printer.EscapeIsCharwise` | js-client/src/protocol/escaping.ts:3-10 | the five replacements in a row equal one mapping per character |
| `ValueRoundTrip.ParseInvertsEscape` | src/db/parser.c:2762-2815 | parsing a quoted escaped NUL-free string gives it back and ends just past the quote |
| `ValueRoundTrip.ScalarTextAt` | src/db/parser.c:2233-2297 | a printed int, bool or string parses back wherever it stands |
| `ValueRoundTrip.ArrayTextAt` | src/db/parser.c:2298-2401 | a printed homogeneous array of at most 1024 scalars parses back |
| `ValueRoundTrip.AppendTextAt` | src/db/parser.c:2306-2324 | a printed append literal parses back |
| `ItemRoundTrip.ListParsesIff` | src/db/parser.c:2418-2501 | a printed value list parses back if and only if the counting pass counts its values |
| `ItemRoundTrip.CountsRightIff` | src/db/parser.c:2418-2450 | the count of a printed list is right if and only if a fold over the client's values (quotes, commas, brackets) says so |
| `ItemRoundTrip.QuoteFreeListParses` | src/db/parser.c:2545-2644 | without quotes in strings the count is right, so the list parses back |
| `ItemRoundTrip.QuotedCommaMiscounts` | src/db/parser.c:2429-2431 | a string with a quote and a comma is counted as two values |
| `SpacedLists.BlanksChangeNothing` | src/db/parser.c:2450-2501 | blanks before and after values change nothing of what a list parses to |
| `SpacedLists.DoubleLiteral` | src/db/parser.c:2266-2290 | a number with a point or an exponent is the double the C library reads there |
| `ParserRefusals.LongString` | src/db/parser.c:2245-2249 | a string of more than 4096 characters is refused |
| `ParserRefusals.OpenString` | src/db/parser.c:2241-2244 | a string without its closing quote is refused |
| `ParserRefusals.ArrayParsesIff` | src/db/parser.c:2331-2401 | a printed array of scalars parses back if and only if they are of one type and at most 1024 |
| `ParserRefusals.EmptyList` | src/db/parser.c:2418-2456 | a list of blanks is refused |
| `ParserRefusals.MissingComma` | src/db/parser.c:2457-2501 | a value followed by something other than a comma is refused |
| `ParenSplit.CloseParenIff` | src/db/parser.c:1894-1950 | over a printed list the scan finds the parenthesis behind it if and only if a fold over the client's strings (parentheses, final backslashes) ends as it began |
| `ParenSplit.NoBackslashSplits` | src/db/parser.c:1911-1911 | lists without a final backslash in their strings always split right |
| `CutLists.CutListFails` | src/db/parser.c:2418-2501 | a printed list cut at one of its own parentheses fails to parse or yields fewer values |
| `CommandRoundTrip.SplitIff` | src/db/parser.c:1894-1950 | the paren split of a printed command finds exactly its value list if and only if the values split right; else it fails or cuts the list at one of its parentheses |
| `CommandRoundTrip.FinalBackslashes` | src/db/parser.c:1911-1911 | one string ending in a backslash defeats the split, two of them pass it |
| `CommandRoundTrip.WriteParsesIff` | src/db/parser.c:542-820 | for every list of printable values a printed ADD or UP parses back if and only if its values split right and count right; otherwise it is an error or holds another number of values |
| `CommandRoundTrip.AddParsesIff` | js-client/src/protocol/commands.ts:17-20 | parsing the client's ADD gives back the table, the key and exactly the values if and only if the values split right and count right |
| `CommandRoundTrip.AddRoundTrip` | js-client/src/protocol/commands.ts:17-20 | so it always does for strings without quotes and final backslashes |
| `CommandRoundTrip.UpRoundTrip` | js-client/src/protocol/commands.ts:31-34 | and so does UP, with ignores and appends, for such strings other than `_` |
| `CommandRoundTrip.UpParsesIff` | js-client/src/protocol/commands.ts:22-34 | parsing the client's UP gives back exactly the values, ignores and appends if and only if no string is `_` and the values split right and count right |
| `CommandRoundTrip.CommandWord` | src/db/parser.c:1822-1843 | ADD and UP are recognised in any mixture of upper and lower case |
| `Examples.EscapeLetters` | js-client/src/protocol/escaping.ts:3-10 | the five escapes, letter by letter |
| `Examples.AddExample` | js-client/src/protocol/commands.ts:17-20 | one ADD, character by character, and what it parses to |
| `Examples.UpExample` | js-client/src/protocol/commands.ts:31-34 | one UP with an ignore mark and an append, character by character, and what it parses to |
| `ParserMethods.MeasureString` | src/db/parser.c:2762-2815 | the length pass counts exactly the characters the copy pass writes |
| `ParserMethods.ParseQuoted` | src/db/parser.c:2762-2815 | the two passes over the buffer give the model's string and position |
| `ParserMethods.ParseInteger` | src/db/parser.c:2713-2742 | the digit loop gives the model's number and position |
| `ParserMethods.ParseElementLoop` | src/db/parser.c:2340-2394 | the element loop gives the model's array or error |
| `ParserMethods.CountPass` | src/db/parser.c:2418-2450 | the counting loop gives the model's count |
| `ParserMethods.Tokenize` | src/db/parser.c:2450-2501 | count, then parse: the loop gives the model's list or error |
| `ParserMethods.SplitParens` | src/db/parser.c:1894-1950 | the scan for the matching paren gives the model's split |
| `TableText.RenderLength` | src/db/operations.c:1358-1396 | a table is 2 + rows lines of one width; with its terminator it is exactly the computed size |
| `TableText.CellsFit` | src/db/operations.c:1588-1672 | no cell is wider than its column, cut strings included, so padding is never negative |
| `TableText.Widths` | src/db/operations.c:1307-1376 | a column is at least as wide as its header and as every cell asks |
| `TableText.WidthsTight` | src/db/operations.c:1307-1376 | no column is wider than its header and its cells ask for |
| `TableText.StringsCountInFull` | src/db/operations.c:1334-1336 | a string column is as wide as its longest string in full |
| `Examples.TableExample` | src/db/operations.c:1518-1672 | one table, character by character |
| `TableWriter.PutCell` | src/db/operations.c:1635-1649 | one padded cell is written at the pointer and nothing before it changes |
| `TableWriter.PutHeader` | src/db/operations.c:1518-1586 | header and rule lines are written in bounds |
| `TableWriter.PutRow` | src/db/operations.c:1588-1672 | a data line is written in bounds |
| `TableWriter.MeasureColumns` | src/db/operations.c:1307-1377 | the width loops compute the model's widths and line width |
| `TableWriter.WriteTable` | src/db/operations.c:1379-1396 | all writes stay in the buffer, which the text and its terminator fill exactly |
| `TableWriter.FormatTable` | src/db/operations.c:1252-1403 | the formatted text of the chosen columns, or the notice for no rows |
| `TableWriter.ArrayValueToStr` | src/db/operations.c:1435-1516 | the growing buffer is never overrun and holds the bracketed list |
| `ClientTable.ReadTable` | js-client/src/parsers/table.ts:15-50 | the loops build the model's headers and rows, or its error |
| `TableRoundTrip.ParsedIsClean` | js-client/src/parsers/table.ts:3-50 | whatever it reads, the client reports only texts without bar, line feed or outer whitespace |
| `TableRoundTrip.RenderReads` | js-client/src/parsers/table.ts:15-50 | without bars and line feeds in cells, the client reads every header and cell, trimmed, in order |
| `TableRoundTrip.TableRoundTripIff` | js-client/src/parsers/table.ts:15-50 | the client holds all headers and full cell texts if and only if there are rows, texts are clean, scalars within the cut, and equal names hold equal texts |
| `TableRoundTrip.EmptyTable` | js-client/src/parsers/table.ts:15-19 | the notice for no rows reads as an empty table |
| `TableRoundTrip.MessageIsNoTable` | js-client/src/parsers/table.ts:15-29 | a one-line message does not read as a table |
| `TableRoundTrip.ArrayCleanIff` | src/db/operations.c:1435-1516 | an array cell is clean if and only if no element's text holds a bar or a line feed |
| `TableRoundTrip.ArrayRoundTripIff` | js-client/src/parsers/table.ts:52-62 | the elements come back if and only if no element's text holds a comma and a space; always for ints and bools |
| `TableDenotes.SaysIntIff` | src/db/operations.c:1604-1610 | the text of an integer is its plain decimal numeral, and nothing else is |
| `TableDenotes.CellSaysIff` | src/db/operations.c:1604-1634 | the text of a cell says exactly the stored value: the numeral, `true` or `false`, the characters, the bracketed elements |
| `TableDenotes.TableHoldsIff` | js-client/src/parsers/table.ts:15-50 | the client holds exactly the stored values under their names, with created and updated times, if and only if there are rows and they are readable |
| `TableDenotes.ReadableIff` | src/db/operations.c:1588-1672 | which rows are readable, told from strings, texts of doubles and equal names |
| `TableDenotes.ArrayElementsBackIff` | js-client/src/parsers/table.ts:52-62 | splitting an array cell gives texts that say its elements if and only if no string holds a comma and a blank |
| `Connections.JoinRefines` | src/connection_manager.c:59-78 | adding an untracked descriptor inserts a session with no level and no name |
| `Connections.LeaveRefines` | src/connection_manager.c:80-103 | removal deletes that session and keeps all others |
| `Connections.GrantRefines` | src/connection_manager.c:134-164 | setting level and name replaces that session only |
| `Connections.SessionCount` | src/connection_manager.c:59-78 | there are as many sessions as tracked clients |
| `Connections.ConnectionManager.AddClient` | src/connection_manager.c:59-78 | appends at capacity permitting, else changes nothing and answers -1 |
| `Connections.ConnectionManager.RemoveClient` | src/connection_manager.c:80-103 | shift-left over three arrays removes one entry, keeps the order, scrubs the vacated place |
| `Connections.ConnectionManager.GetClientAuth` | src/connection_manager.c:125-132 | the level of the first entry with the descriptor, none if untracked |
| `Connections.ConnectionManager.SetClientAuth` | src/connection_manager.c:134-141 | changes that entry's level only |
| `Connections.ConnectionManager.SetClientName` | src/connection_manager.c:156-164 | changes that entry's name only, at most 63 characters |
| `Connections.ConnectionManager.CloseAllClients` | src/connection_manager.c:166-176 | leaves no clients and every place scrubbed |
| `AuthKeys.DelKeyIsWithout` | src/auth.c:52-64 | deletion removes exactly the keys of that name and keeps the order of the rest |
| `AuthKeys.AddKeyKeepsIff` | src/auth.c:18-50 | names stay unique if and only if the stored copy of the name is new; always for names that fit |
| `AuthKeys.DelUndoesAdd` | src/auth.c:18-64 | deleting an added key gives back the store |
| `AuthKeys.DeletedTokenIff` | src/auth.c:52-93 | after a deletion a token counts if and only if a key of another name matches it |
| `AuthKeys.VerifiesIff` | src/auth.c:78-93 | a token earns a level if and only if some key matches it |
| `AuthKeys.AuthStore.AuthAddKey` | src/auth.c:18-50 | full, duplicate and failed hashing change nothing; else one key is appended |
| `AuthKeys.AuthStore.AuthDelKey` | src/auth.c:52-64 | the shift loop is the model's deletion, vacated place scrubbed |
| `AuthKeys.AuthStore.AuthVerify` | src/auth.c:78-93 | the level and name of the first matching key |
| `Validation.ParsedValue` | src/db/parser.c:2233-2401 | every parsed value is in range, of limited length and homogeneous by tag |
| `Validation.TokenizedValues` | src/db/parser.c:2418-2501 | so is every value of an accepted list, the null slots of a miscounted one included |
| `Validation.AcceptedIff` | src/db/operations.c:985-1109 | ADD's and UP's checks accept a parsed value if and only if it fits its column or is an int array, or a nested array, in a column the tags cannot tell apart |
| `Validation.AddedValuesTyped` | src/db/operations.c:985-1109 | an accepted ADD without such literals gives every column its type |
| `Validation.UpdatesTyped` | src/db/operations.c:456-515 | the same for the non-ignored values of an accepted UP |
| `Validation.IntArrayPassesForStrings` | src/db/operations.c:1087-1087 | the simplest literal that passes and does not fit |
| `Sessions.ExecuteUsable` | src/db/operations.c:78-127 | no command, whatever its values, leaves a table the handlers cannot work on |
| `Sessions.ChangeIsAdmins` | src/main.c:212-254 | a step that changes tables or keys serves a client at admin level, in any state |
| `Sessions.StepSession` | src/main.c:174-254 | how one step changes any descriptor's session |
| `Sessions.SessionIsLastAuth` | src/main.c:174-254 | in every run, whatever clients send, a connection's level and name are those of its last successful AUTH since it was added, and none if there was none |
| `Sessions.OnlyAdminsChange` | src/main.c:174-254 | in every run, tables or keys change only for a connection whose standing AUTH matched an admin key stored at that time |
| `ServerRuns.ChangeKeeps` | src/db/operations.c:353-543 | an executed ADD, UP, DEL or CREATE_INDEX keeps its table sound, name and schema unchanged, indexes current unless an UP hit a limit |
| `ServerRuns.StepKeeps` | src/main.c:163-261 | every step keeps all tables sound and distinctly named, key names unique and at most 64, clients distinct and within capacity |
| `ServerEffects.Permissions` | src/main.c:212-254 | without AUTH every command is refused; a read-only client gets exactly GET, GET_ALL, SEARCH, COUNT and WHOAMI; an admin is never refused |
| `ServerEffects.AuthStep` | src/main.c:195-210 | AUTH: the first matching key decides level, name and reply; without a match nothing changes |
| `ServerEffects.ConnectStep` | src/main.c:174-181 | a new connection is tracked without level and name, while there is room |
| `ServerEffects.HangupStep` | src/main.c:182-187 | a closed connection leaves the sessions |
| `ServerEffects.AddStep` | src/db/operations.c:353-417 | ADD over a whole step: each refusal with its message, else the row, the counter and the reply; everything else stays |
| `ServerEffects.UpStep` | src/db/operations.c:422-543 | UP over a whole step: each refusal, the fields before a stop, the stamp, the reply; everything else stays |
| `ServerEffects.DelStep` | src/db/operations.c:618-658 | DEL over a whole step: the row is gone and the key is the reply, or nothing changes |
| `ServerEffects.IndexStep` | src/db/operations.c:912-978 | CREATE_INDEX over a whole step: the index is on, or the refusal has its message |
| `ServerEffects.CreateStep` | src/db/operations.c:280-348 | CREATE over a whole step: an empty table of these columns in front of the others, or the refusal |
| `ServerEffects.DropStep` | src/db/operations.c:666-691 | DEL_TABLE over a whole step: the table is gone, the others are found as before |
| `ServerEffects.NewKeyStep` | src/db/operations.c:170-208 | ADD_KEY over a whole step: one key behind the others and its token, or nothing |
| `ServerEffects.DropKeyStep` | src/db/operations.c:213-233 | DEL_KEY over a whole step: the keys of other names stay in order |
| `ServerEffects.ReadStep` | src/db/operations.c:548-751 | a query changes nothing and is answered from the table it names |
| `ServerEffects.CountStep` | src/db/operations.c:880-907 | COUNT answers with the number of stored rows |
| `ServerEffects.WhoamiStep` | src/db/operations.c:142-165 | WHOAMI answers with the client's name |
| `KeyListing.ListKeysReadIff` | src/db/operations.c:238-275 | LIST_KEYS: the client holds every name and role, in order, if and only if every name is clean |
| `ServerAnswers.AddReplyIff` | src/db/operations.c:391-417 | a numeric answer means one new row under a fresh key, and is that key if and only if the key was automatic or non-negative |
| `ServerAnswers.ColumnsIff` | src/db/operations.c:1285-1297 | the columns shown are all, or the first field of each requested name, in the order asked |
| `ServerAnswers.UnknownNamesRefused` | src/db/operations.c:723-733 | a name that is no field's is refused |
| `ServerAnswers.FindReply` | src/db/operations.c:756-873 | SEARCH answers with the requested columns of exactly the matching rows, and the client holds their values if and only if they are readable |
| `ServerAnswers.SearchShaped` | src/db/operations.c:756-873 | whatever a SEARCH finds, through a stale index too, can be shown |
| `ServerAnswers.GetAllReply` | src/db/operations.c:698-751 | GET_ALL answers with the requested columns of every stored row, each once, as many as the table counts |
| `ServerAnswers.GetReply` | src/db/operations.c:548-613 | GET answers with the requested columns of the row under the key, or that there is none |
| `ServerAnswers.RunAnswersExact` | src/main.c:163-261 | after every run of the server in which no UP hit a limit, every SEARCH on every table is exact |
| `ServerAnswers.KeyTableFits` | src/db/operations.c:238-275 | the key listing of a full store fits its buffer |
| `ServerSnapshots.BootstrapOk` | src/main.c:79-97 | a server without keys starts with one admin key |
| `ServerSnapshots.RestartOk` | src/main.c:72-97 | a server stopped after any run saves a file that restores tables and keys, and the restarted server meets every condition a run starts from |
| `EndToEnd.AddAcceptedIff` | src/db/operations.c:353-417 | the client's ADD text is accepted if and only if it splits and counts right, passes the type check, and the table has room and a free key |
| `EndToEnd.AddReadBackIff` | src/db/operations.c:548-613 | after an accepted ADD, the client that asks with GET holds exactly the values it sent if and only if names and values are readable |
| `EndToEnd.UpReceived` | src/db/operations.c:422-460 | the server's change for the client's UP has every value in its place and a mark exactly where a field was ignored |
| `EventLoop.ValidateValueTypes` | src/db/operations.c:985-1109 | the check loop gives the model's code |
| `EventLoop.ValidateUpdates` | src/db/operations.c:456-515 | UP's check loop gives the model's code |
| `EventLoop.ChangeOn` | src/db/operations.c:353-543 | the handlers change the table object in place as the model changes the table, with the model's reply |
| `EventLoop.AnswerFrom` | src/db/operations.c:548-908 | GET, GET_ALL, SEARCH and COUNT on the table object give the model's answer |
| `EventLoop.WalkTables` | src/db/data_model.c:114-129 | the list walk finds the first table of the name |
| `EventLoop.Loop.ChangeTable` | src/db/operations.c:353-543 | one table object changes, all others keep their contents |
| `EventLoop.Loop.CreateTable` | src/db/operations.c:280-348 | a new table object at the head of the list, or the model's refusal |
| `EventLoop.Loop.RemoveTable` | src/db/data_model.c:131-161 | the table object leaves the list, the others stay |
| `EventLoop.Loop.ExecuteCommand` | src/db/operations.c:78-127 | dispatch to the handlers changes table objects and keys as the model says, with its reply |
| `EventLoop.Loop.Authenticate` | src/main.c:195-210 | AUTH writes level and name of the first matching key, or nothing |
| `EventLoop.Loop.ServeLine` | src/main.c:188-254 | a line from a client: AUTH, or a command at the client's level |
| `EventLoop.Loop.Handle` | src/main.c:163-261 | one event changes clients, keys and table objects exactly as the model's step says |

## Left out

- Sockets, epoll, signals, `receive_data`, file opening and renaming: input and output; events and file contents are inputs.
- `strtod`, `%.6g` and JavaScript number formatting: foreign code; doubles are left out of the text round trips.
- libsodium and random tokens: hashing may fail, checking is any predicate, tokens are inputs.
- Ownership of memory and the -4 returns of ADD and UP on failed allocation: allocation succeeds except where the rehash and the index rebuild handle failure.
- UTF-8 decoding in the client: texts are sequences of characters on both sides.
- `hash_key`: any function, so the avalanche of the concrete one is not modelled.
- Pointer-level aliasing of chain nodes: chains are sequences in the mutable map.
- Overflow of the plain `int` in `parse_int`, `nextKey` and the table size product: keys below 2147483647 and numbers in 32 bits are preconditions.
- Stored rows of mislabelled arrays: the source then reads ints as pointers, doubles or bools. Theorems about stored rows exclude the literals `Validation.AcceptedIff` names; `Sessions` does not.
- SEARCH with a value of another type than its column: excluded as `Searches.Searchable` says.
- Text parsing of CREATE, GET, GET_ALL, SEARCH, COUNT and the key commands: repeated field-list code with easy properties.
- `coerceValue` and `coerceTable`: number conversion and a lookup per column.
- `js-client/src/net/connection.ts` and `client.ts`: timers and promises.
- Configuration, logging, autosave and standard input: plumbing with easy properties.
- `db_get_row` as a deep copy: a value in the model.
- Database.Db.UpdateRow: does not model the code -4 of a failed clone, because allocation succeeds here.
- Searches.AutoKeyIsNew: demands that the counter stays below 2147483647, since the source's counter is a plain `int`.
- TableRuns.AddEffect: excludes mislabelled array literals, because the source then reads ints as pointers, doubles or bools.
- TableRuns.UpdateEffect: excludes mislabelled array literals, for the same reason.
- Database.Db.AddRow: excludes mislabelled array literals, for the same reason.
- Validation.AcceptedIff: for UP of a non-zero scalar into an array column the source reads the scalar's bits as an address (src/db/operations.c:477-497), which has no defined answer; the model answers with a type mismatch, as the source does for a zero.
- CommandRoundTrip.AddParsesIff: speaks of ints within 32 bits, bools, NUL-free strings of at most 4096 characters and homogeneous arrays of at most 1024 of these; doubles are left out with their formatting.
- SnapshotRoundTrip.RoundTrip: an append literal stored by ADD comes back as the empty array it counts as.
- EventLoop.Loop.Handle: does not model the batches of events between two autosaves, since a batch is a sequence of events.
