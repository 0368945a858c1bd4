# cldf-java: import of CLDF Wordlists, in Dafny

This project models the core of cldf-java. That library reads a CLDF
(Cross-Linguistic Data Formats) Wordlist dataset from a folder into an
in-memory database. The dataset is a `*metadata.json` file that lists the
tables and their column schemas, plus one CSV file per table. The model
covers the following parts.

- **The CSV tokenizers.** These are the three-state machine
  `CSVParser.getColumns` in the `io` package and its copy at the package
  root (`CsvParser`, `CsvParserProperties`, `RootCsvParser`). The model
  proves that every slice the loop takes is in range. For rows without
  inner quotes it proves that the result is the trimmed comma split, with
  a round trip for joined fields. It also pins down the quoted and
  doubled-quote behaviour on concrete rows.
- **The IPA form canoniser.** `IPAFormCanonization.process` is modelled
  as `IpaCanonization`: the replacement table plus a one-pass
  transducer that drops parenthesised comments. The model proves that
  the output is clean, that processing is idempotent, and that comments
  are dropped without nesting. It also proves the pass-through and
  substitution behaviour.
- **The Java library behaviour the importer relies on.** This is
  `JavaStrings`: `trim`, `split` with its trailing-empty rule, the second
  piece of a split, `indexOf`, ASCII `toLowerCase` and
  `replaceAll("\"\"", "\"")`. It also includes `HashOrder`, which models
  `HashMap` iteration as an arbitrary enumeration of the keys.
- **The column role map.** `createColumnPropertyMap` is modelled as
  `Schema`.
- **The five table readers of `CLDFImport`.** These are `FormTable`,
  `LanguageTable`, `ParameterTable`, `CognateTable` and
  `CognatesetTable`, with the shared loop in `ImportCommon`. For each
  reader the model proves what the table holds, what the exception list
  gains (one `["row", path, n, line]` entry per rejected row, in order),
  and what happens to the static id maps.
- **`loadDatabase` itself.** This is modelled as `LoadDatabase`: the order
  of the steps, which exception ends where, the fallback database, and
  the state of the static maps afterwards.
- **The database and its queries.** `CLDFWordlistDatabase` is modelled as
  `WordlistDatabase`, together with the record classes (`FormRecord`,
  `LanguageRecord`, `ParameterRecord`, `CognateSetRecord`,
  `CognateJudgementRecord`).

How the model represents the program:

- The static fields `formsOldToNew`, `formsNewToOld`, `cognateIdMap` and
  `exceptions` are an explicit `Session` value that each reader takes
  and returns.
- The file system is a `Folder` value: the metadata document plus the
  table files by path.
- `Float.parseFloat` succeeding is a parameter, `parses`.
- Where the iteration order of a `HashMap` matters, it is an explicit
  key sequence, and results are compared as multisets.
- An exception that nothing catches is the `Crashed` outcome of
  `LoadDatabase`.

## Model

Paths are relative to the repository root.

| member | source | states |
|---|---|---|
| CsvParser.NormalStep | src/main/java/de/tuebingen/sfs/cldfjava/io/CSVParser.java:81-104 | A NORMAL_MODE iteration keeps every slice in range and only adds fields. It switches to QUOTES_MODE only when the next character is a quote. |
| CsvParser.QuotesStep | src/main/java/de/tuebingen/sfs/cldfjava/io/CSVParser.java:106-131 | A QUOTES_MODE iteration keeps the slice bounds and only adds fields. A closing quote emits the text since the opening quote, with doubled quotes collapsed and trimmed. |
| CsvParser.DoubleQuotesStep | src/main/java/de/tuebingen/sfs/cldfjava/io/CSVParser.java:132-139 | A DOUBLE_QUOTES_MODE iteration emits nothing and keeps the slice bounds. |
| CsvParser.Step | src/main/java/de/tuebingen/sfs/cldfjava/io/CSVParser.java:78-141 | One loop iteration, the skips of `i += 3` and `i += 2` included, preserves the invariant under which every `CharBuffer.wrap` is in range. |
| CsvParser.Scan | src/main/java/de/tuebingen/sfs/cldfjava/io/CSVParser.java:78-142 | The rest of the loop only extends the fields already emitted and keeps every field trimmed. |
| CsvParser.GetColumns | src/main/java/de/tuebingen/sfs/cldfjava/io/CSVParser.java:67-143 | The empty row gives no field. Every field is trimmed. No input makes it throw. |
| CsvParserProperties.TrimAll | src/main/java/de/tuebingen/sfs/cldfjava/io/CSVParser.java:86-98 | Every piece trimmed, element by element. |
| CsvParserProperties.PlainScan | src/main/java/de/tuebingen/sfs/cldfjava/io/CSVParser.java:81-104 | For a row without inner quotes, the loop from a plain NORMAL_MODE state produces the trimmed comma split. |
| CsvParserProperties.NoInnerQuoteIsTrimmedSplit | src/main/java/de/tuebingen/sfs/cldfjava/io/CSVParser.java:67-143 | A non-empty row with no quote after its first character gives the trimmed split at every comma. Empty leading, inner and trailing fields are included, so there is one field per comma plus one. |
| CsvParserProperties.LeadingQuoteIsLiteral | src/main/java/de/tuebingen/sfs/cldfjava/io/CSVParser.java:99-104 | A quote at index 0 is never taken as an opening quote: it stays in the first field. |
| CsvParserProperties.TokenizeJoin | src/main/java/de/tuebingen/sfs/cldfjava/io/CSVParser.java:67-143 | Round trip: trimmed fields without commas or quotes, joined with commas into a non-empty row, are tokenized back to the same fields. |
| CsvParserProperties.EmbeddedComma | src/main/java/de/tuebingen/sfs/cldfjava/io/CSVParser.java:106-124 | A comma inside a quoted field does not split it: `x,"y,z",w` gives `x`, `y,z`, `w`. |
| CsvParserProperties.DoubledQuoteSwallowsRest | src/main/java/de/tuebingen/sfs/cldfjava/io/CSVParser.java:125-139 | For the row `a,"b""c",d`: the doubled quote enters DOUBLE_QUOTES_MODE, no second `""` follows in that row, and only `a` is returned. Stated for this one row, not for doubled quotes in general. |
| RootCsvParser.NormalIteration | src/main/java/de/tuebingen/sfs/cldfjava/CSVParser.java:33-55 | The root copy's NORMAL_MODE branch computes the same state as the `io` copy's NORMAL_MODE step. |
| RootCsvParser.DoubledQuoteFollows | src/main/java/de/tuebingen/sfs/cldfjava/CSVParser.java:76-77 | The `CharBuffer.wrap(row, i + 1, i + 3)` lookahead is true exactly when the guard holds and a doubled quote follows. |
| RootCsvParser.QuotesIteration | src/main/java/de/tuebingen/sfs/cldfjava/CSVParser.java:57-82 | The QUOTES_MODE branch computes the same state as the `io` copy's QUOTES_MODE step. |
| RootCsvParser.DoubleQuotesIteration | src/main/java/de/tuebingen/sfs/cldfjava/CSVParser.java:83-90 | The DOUBLE_QUOTES_MODE branch computes the same state as the `io` copy's DOUBLE_QUOTES_MODE step. |
| RootCsvParser.GetColumns | src/main/java/de/tuebingen/sfs/cldfjava/CSVParser.java:19-94 | The root copy returns exactly what the `io` copy returns. In particular, the empty row gives no field, every field is trimmed, and a row without inner quotes gives the trimmed comma split. |
| IpaCanonization.KeyRange | src/main/java/de/tuebingen/sfs/cldfjava/io/IPAFormCanonization.java:9-76 | Every key of the table is `g`, a Latin-1 letter, or a letter from the two extended-Latin blocks. |
| IpaCanonization.BelowGIsNoKey | src/main/java/de/tuebingen/sfs/cldfjava/io/IPAFormCanonization.java:9-76 | No character below `g` is a key, the parentheses included. |
| IpaCanonization.TableValueClean | src/main/java/de/tuebingen/sfs/cldfjava/io/IPAFormCanonization.java:9-76 | No table value contains a key or `(`, so one pass is final. |
| IpaCanonization.ProcessFrom | src/main/java/de/tuebingen/sfs/cldfjava/io/IPAFormCanonization.java:81-95 | The output of the loop holds no table key and no `(`, and is at most twice as long as the input. |
| IpaCanonization.Canonize | src/main/java/de/tuebingen/sfs/cldfjava/io/IPAFormCanonization.java:78-97 | The `StringBuilder` loop computes `Process` and returns a clean string. |
| IpaCanonization.ProcessConcat | src/main/java/de/tuebingen/sfs/cldfjava/io/IPAFormCanonization.java:79-95 | Processing a concatenation processes the two halves, carrying only `inParentheses` across. |
| IpaCanonization.NoCommentIsSubstitution | src/main/java/de/tuebingen/sfs/cldfjava/io/IPAFormCanonization.java:87-93 | Without `(`, processing equals the character-by-character table substitution, and no comment is ever entered. |
| IpaCanonization.PassThrough | src/main/java/de/tuebingen/sfs/cldfjava/io/IPAFormCanonization.java:78-97 | A clean string passes through unchanged. |
| IpaCanonization.Idempotent | src/main/java/de/tuebingen/sfs/cldfjava/io/IPAFormCanonization.java:78-97 | Canonicalising twice is canonicalising once. |
| IpaCanonization.CommentBody | src/main/java/de/tuebingen/sfs/cldfjava/io/IPAFormCanonization.java:83-86 | Inside a comment nothing is emitted before the first `)`, and a `(` there does not nest. |
| IpaCanonization.CommentDropped | src/main/java/de/tuebingen/sfs/cldfjava/io/IPAFormCanonization.java:83-93 | A comment from `(` to the first `)` is dropped with both parentheses, and reading resumes outside any comment. |
| IpaCanonization.OpenComment | src/main/java/de/tuebingen/sfs/cldfjava/io/IPAFormCanonization.java:92 | Reading `(` outside a comment emits nothing and enters a comment. |
| IpaCanonization.CommentThenRest | src/main/java/de/tuebingen/sfs/cldfjava/io/IPAFormCanonization.java:83-86 | A comment body and its `)` emit nothing, and reading resumes outside. |
| IpaCanonization.Unclosed | src/main/java/de/tuebingen/sfs/cldfjava/io/IPAFormCanonization.java:83-93 | A comment that is never closed swallows the rest of the form. |
| IpaCanonization.NotNested | src/main/java/de/tuebingen/sfs/cldfjava/io/IPAFormCanonization.java:83-93 | `a(b(c)d)e` becomes `ad)e`: the inner `)` closes the comment. |
| JavaStrings.Trim | src/main/java/de/tuebingen/sfs/cldfjava/io/CSVParser.java:86 | `trim` returns a slice of the input with only characters up to U+0020 removed before and after it. The slice neither starts nor ends with such a character. A trimmed string is returned unchanged. |
| JavaStrings.TrimUnique | src/main/java/de/tuebingen/sfs/cldfjava/io/CSVParser.java:86 | Partner of `Trim`: any slice that strips only such characters and is itself trimmed equals `Trim` of the input, so `Trim`'s contract determines its result. |
| JavaStrings.FirstIndex | src/main/java/de/tuebingen/sfs/cldfjava/io/CLDFImport.java:58 | The first occurrence of a character: present at that index and absent before it. |
| JavaStrings.SplitAll | src/main/java/de/tuebingen/sfs/cldfjava/io/CLDFImport.java:371 | The split that keeps every piece has one piece per separator plus one, and no piece contains the separator. |
| JavaStrings.SplitAllAppend | src/main/java/de/tuebingen/sfs/cldfjava/io/CLDFImport.java:371 | Splitting at a separator splits the two sides independently. |
| JavaStrings.LastPieceNotEmpty | src/main/java/de/tuebingen/sfs/cldfjava/io/CLDFImport.java:508 | A text that does not end in the separator does not end in an empty piece. |
| JavaStrings.JoinSplitAll | src/main/java/de/tuebingen/sfs/cldfjava/io/CLDFImport.java:371 | Joining the pieces of a split gives back the string. |
| JavaStrings.SplitAllJoin | src/main/java/de/tuebingen/sfs/cldfjava/io/CLDFImport.java:371 | A join of separator-free pieces splits back into exactly those pieces. |
| JavaStrings.DropTrailingEmpty | src/main/java/de/tuebingen/sfs/cldfjava/io/CLDFImport.java:235 | Dropping the trailing empty pieces keeps a prefix with no empty last element, and everything dropped was empty. |
| JavaStrings.JavaSplit | src/main/java/de/tuebingen/sfs/cldfjava/io/CLDFImport.java:235 | `split(",")` gives the whole string when the separator is absent. Otherwise it gives the full split with the trailing empty pieces dropped, and no piece contains the separator. |
| JavaStrings.SecondPiece | src/main/java/de/tuebingen/sfs/cldfjava/io/CLDFImport.java:58 | `split("#")[1]` exists exactly when the split has two pieces, and is then the second one. A text without `#` has none. |
| JavaStrings.CollapseQuotes | src/main/java/de/tuebingen/sfs/cldfjava/io/CSVParser.java:116 | `replaceAll("\"\"", "\"")` never lengthens the text and leaves text without quotes unchanged. |
| JavaStrings.CollapseDoubled | src/main/java/de/tuebingen/sfs/cldfjava/io/CSVParser.java:116 | Collapsing undoes RFC 4180 quote doubling. |
| JavaStrings.IndexOf | src/main/java/de/tuebingen/sfs/cldfjava/io/CLDFImport.java:70-74 | `List.indexOf` is -1 exactly when the element is absent, and otherwise the first position holding it. |
| JavaStrings.ToLower | src/main/java/de/tuebingen/sfs/cldfjava/io/CLDFImport.java:150 | `toLowerCase` maps character by character and keeps the length. |
| HashOrder.Enumerate | src/main/java/de/tuebingen/sfs/cldfjava/data/CLDFWordlistDatabase.java:96 | `new ArrayList<>(keySet())` lists every key exactly once. |
| HashOrder.EnumerationsArePermutations | src/main/java/de/tuebingen/sfs/cldfjava/data/CLDFWordlistDatabase.java:96 | Two iterations of the same key set are permutations of each other. |
| HashOrder.ValuesPermutation | src/main/java/de/tuebingen/sfs/cldfjava/data/CLDFWordlistDatabase.java:56 | The multiset of values seen does not depend on the iteration order. |
| HashOrder.ValuesOf | src/main/java/de/tuebingen/sfs/cldfjava/data/CLDFWordlistDatabase.java:56 | `new ArrayList<>(values())` has one entry per key and holds exactly the map's values. |
| Schema.Role | src/main/java/de/tuebingen/sfs/cldfjava/io/CLDFImport.java:128 | The role is the column name when there is no `propertyUrl` or it has no `#`. Otherwise it is a `#`-free fragment, or undefined where `split("#")[1]` throws. |
| Schema.RoleOfFragment | src/main/java/de/tuebingen/sfs/cldfjava/io/CLDFImport.java:128 | `base#fragment` with a non-empty fragment gives the role `fragment`. |
| Schema.RoleOfEmptyFragment | src/main/java/de/tuebingen/sfs/cldfjava/io/CLDFImport.java:128 | A URL ending in `#` makes the role lookup throw. |
| Schema.LastWithRole | src/main/java/de/tuebingen/sfs/cldfjava/io/CLDFImport.java:126-133 | The last column with a given role, or -1 when no column has it. |
| Schema.CreateColumnPropertyMap | src/main/java/de/tuebingen/sfs/cldfjava/io/CLDFImport.java:123-135 | Defined exactly when every role can be computed. Its keys are exactly the roles that occur, each mapped to the name of the last column with that role. |
| ImportCommon.FreshSession | src/main/java/de/tuebingen/sfs/cldfjava/io/CLDFImport.java:43-46 | `loadDatabase` starts from three empty static maps and an empty exception list. |
| ImportCommon.RoleIndex | src/main/java/de/tuebingen/sfs/cldfjava/io/CLDFImport.java:239 | `indexOf(propertyColumns.get(role))` is -1 exactly when the role is unmapped or its column is absent. Otherwise it is the first position of that column. |
| ImportCommon.RemainedColumns | src/main/java/de/tuebingen/sfs/cldfjava/io/CLDFImport.java:252-259 | Exactly the header positions not among the used indices, in increasing order. |
| ImportCommon.LastNamed | src/main/java/de/tuebingen/sfs/cldfjava/io/CLDFImport.java:286-289 | The last remained column carrying a header text, or -1 when none does. |
| ImportCommon.PropertiesOf | src/main/java/de/tuebingen/sfs/cldfjava/io/CLDFImport.java:286-291 | The `properties` map has exactly the header texts of the remained columns, each with the cell of the last such column. |
| ImportCommon.PropertiesOfDistinct | src/main/java/de/tuebingen/sfs/cldfjava/io/CLDFImport.java:286-291 | With distinct header texts, every remained column appears with its own cell and nothing else appears. |
| ImportCommon.Absorb | src/main/java/de/tuebingen/sfs/cldfjava/io/CLDFImport.java:292-297 | One loop pass advances `i`. It either puts the entry under its id, or appends `["row", path, i, line]` and keeps the table. |
| ImportCommon.ExceptionsStep | src/main/java/de/tuebingen/sfs/cldfjava/io/CLDFImport.java:294-296 | A log that reports the rejected rows after a fixed prefix keeps doing so for one more row. |
| ImportCommon.FoldSpec | src/main/java/de/tuebingen/sfs/cldfjava/io/CLDFImport.java:261-298 | The loop of a keyed reader has two effects. The table holds exactly the keys stored by some row, each with the last such row's value. The log gains one row entry per rejected row, numbered from 1 in file order. |
| FormTable.LayoutOf | src/main/java/de/tuebingen/sfs/cldfjava/io/CLDFImport.java:321-353 | The header is split on commas. The id, language, parameter, form, comment and segments columns are located by role, each -1 when its role is unmapped. The value column is found as `Value` or else `value`, and the orthography as `Orthography` or else `Local_Orthography`. The remained columns are the positions not used. |
| FormTable.BuildForm | src/main/java/de/tuebingen/sfs/cldfjava/io/CLDFImport.java:365-386 | The record of an accepted row has the dense id and the language cell. Its parameter ids are the `;`-split of the parameter cell, its form and segments are canonicalised, and its optional fields come from their columns or stay empty. Its properties are the remained columns, and its single parameter id stays empty. |
| FormTable.Decide | src/main/java/de/tuebingen/sfs/cldfjava/io/CLDFImport.java:360-392 | A wrong-sized row, or any row when the id column is missing, is rejected before the maps are touched. A row when the language or parameter column is missing is rejected after both id-map `put`s. Any other row is stored. |
| FormTable.FormLine | src/main/java/de/tuebingen/sfs/cldfjava/io/CLDFImport.java:355-393 | One pass: a stored row goes under `formID`, which then advances; a failed row leaves a row entry; the id maps gain the row's id unless the row failed before them; `i` advances every time. |
| FormTable.ReadFormCsv | src/main/java/de/tuebingen/sfs/cldfjava/io/CLDFImport.java:314-401 | A missing file gives an empty table and leaves the state unchanged. An empty file lets the null header's exception escape. `cognateIdMap` is never touched. |
| FormTable.FormLinesTable | src/main/java/de/tuebingen/sfs/cldfjava/io/CLDFImport.java:367-389 | Dense ids: the k-th stored row sits under id k, and `formID` counts the stored rows. |
| FormTable.FormLinesExceptions | src/main/java/de/tuebingen/sfs/cldfjava/io/CLDFImport.java:390-393 | One row entry per row not stored, in file order, after the entries already there. |
| FormTable.FormLinesIdMaps | src/main/java/de/tuebingen/sfs/cldfjava/io/CLDFImport.java:367-368 | When no row stops between the two `put`s, `formsNewToOld` sends each dense id to its row's external id. `formsOldToNew` sends each external id to the last stored row carrying it. |
| FormTable.IdMapsRoundTrip | src/main/java/de/tuebingen/sfs/cldfjava/io/CLDFImport.java:367-368 | Each external id maps back to itself through the two maps. |
| FormTable.KeptAreAccepted | src/main/java/de/tuebingen/sfs/cldfjava/io/CLDFImport.java:360-389 | The stored rows are exactly the accepted rows, in order, with the same id cell and record. |
| FormTable.ReadFormCsvTable | src/main/java/de/tuebingen/sfs/cldfjava/io/CLDFImport.java:314-401 | For a file with a header, the table holds exactly the accepted rows, the k-th under dense id k with the record built for k. |
| FormTable.ReadFormsHaveNoParameter | src/main/java/de/tuebingen/sfs/cldfjava/io/CLDFImport.java:365-386 | No form the reader returns has a single parameter id. |
| FormTable.ReadFormCsvLog | src/main/java/de/tuebingen/sfs/cldfjava/io/CLDFImport.java:354-394 | The log keeps its entries and gains one row entry per rejected data line, numbered from 1, in order. |
| FormTable.ReadFormCsvIdMaps | src/main/java/de/tuebingen/sfs/cldfjava/io/CLDFImport.java:367-368 | This applies when the required columns exist and the maps start empty. Then the dense ids are exactly `0..|a|-1` for the accepted rows `a`, and dense id `k` maps to the id cell of `a[k]`. Every accepted id cell is a key of `formsOldToNew`. Each key maps to an accepted row carrying that id, and no later accepted row carries it. |
| FormTable.MissingReferenceColumnStillMapsId | src/main/java/de/tuebingen/sfs/cldfjava/io/CLDFImport.java:367-371 | With the language or parameter column missing, a well-sized row is rejected. It is still entered in both id maps under a `formID` that does not advance. |
| LanguageTable.CoordinateIndex | src/main/java/de/tuebingen/sfs/cldfjava/io/CLDFImport.java:245-248 | A coordinate column is the mapped one, or else a header column named literally `latitude` / `longitude`. |
| LanguageTable.LayoutOf | src/main/java/de/tuebingen/sfs/cldfjava/io/CLDFImport.java:235-259 | The header is split on commas. The id, ISO 639-3, Glottocode, macroarea, name and family columns are located by role, each -1 when its role is unmapped. Latitude and longitude are located as `CoordinateIndex` states. The remained columns exclude the used indices, and the family column is not among them. |
| LanguageTable.BuildLanguage | src/main/java/de/tuebingen/sfs/cldfjava/io/CLDFImport.java:273-291 | The record of an accepted row: id, ISO, glottocode, name and family from their columns. An empty latitude cell makes both coordinates NaN. The longitude is parsed only when the latitude cell is non-empty. The properties are the remained columns. |
| LanguageTable.ReadLanguageCsv | src/main/java/de/tuebingen/sfs/cldfjava/io/CLDFImport.java:228-305 | A missing file gives an empty table. An empty file escapes. Only `exceptions` changes in the static state. |
| LanguageTable.ReadLanguageCsvSpec | src/main/java/de/tuebingen/sfs/cldfjava/io/CLDFImport.java:261-298 | The table holds every id of an accepted row with the last such row's record. There is one row entry per rejected row, in order. |
| LanguageTable.NoIdColumnRejectsAll | src/main/java/de/tuebingen/sfs/cldfjava/io/CLDFImport.java:273 | Without an id column every row is rejected. |
| LanguageTable.EmptyLatitudeMeansNoLongitude | src/main/java/de/tuebingen/sfs/cldfjava/io/CLDFImport.java:280-283 | An empty latitude cell gives NaN for both coordinates, whatever the longitude cell holds. |
| LanguageTable.LongitudeWithoutLatitudeRejects | src/main/java/de/tuebingen/sfs/cldfjava/io/CLDFImport.java:282-283 | A longitude column without a latitude column rejects every row. |
| LanguageTable.FamilyAlsoAProperty | src/main/java/de/tuebingen/sfs/cldfjava/io/CLDFImport.java:244-291 | The family cell is both the `family` field and a property under its header text. |
| ParameterTable.LowerRoleIndex | src/main/java/de/tuebingen/sfs/cldfjava/io/CLDFImport.java:155-156 | An optional role's column is found by its lower-cased name, and is -1 when the role is unmapped or that name is absent. |
| ParameterTable.ConcepticonIndex | src/main/java/de/tuebingen/sfs/cldfjava/io/CLDFImport.java:158-165 | The gloss column is `concepticon_proposed`, else `concepticon_gloss`, else `concepticon`, else none. |
| ParameterTable.LayoutOf | src/main/java/de/tuebingen/sfs/cldfjava/io/CLDFImport.java:150-177 | The header is lower-cased and split, and the id is found by its lower-cased name. The name and Concepticon-reference columns are found through their roles, lower-cased, or are -1 when the role is unmapped. The semantic-field and gloss columns are found by fixed names. The remained columns exclude the used indices. |
| ParameterTable.BuildParameter | src/main/java/de/tuebingen/sfs/cldfjava/io/CLDFImport.java:190-204 | The record of an accepted row: the id, plus the name, registry id, gloss and semantic field from their columns or empty. The properties are the remained columns. |
| ParameterTable.ReadParameterCsv | src/main/java/de/tuebingen/sfs/cldfjava/io/CLDFImport.java:144-219 | A missing file gives an empty table. An empty file, or no `id` role, escapes. Only `exceptions` changes. |
| ParameterTable.ReadParameterCsvSpec | src/main/java/de/tuebingen/sfs/cldfjava/io/CLDFImport.java:178-211 | The table holds every id of an accepted row with the last such row's record. There is one row entry per rejected row, in order. |
| ParameterTable.HeaderCaseIgnored | src/main/java/de/tuebingen/sfs/cldfjava/io/CLDFImport.java:150-156 | Headers that differ only in the case of ASCII letters give the same layout. |
| CognateTable.LayoutOf | src/main/java/de/tuebingen/sfs/cldfjava/io/CLDFImport.java:417-422 | The header is split on commas, and the id, form and cognate-set columns are located by role. |
| CognateTable.Decide | src/main/java/de/tuebingen/sfs/cldfjava/io/CLDFImport.java:433-458 | A wrong-sized row, or a row without a form column, is rejected. A form cell that names no imported form is ignored. Otherwise the row is a candidate, with the form's dense id. |
| CognateTable.CognateLine | src/main/java/de/tuebingen/sfs/cldfjava/io/CLDFImport.java:427-463 | A form already judged hits the `continue`, which skips even `i++`. The first judgement is stored under the next dense judgement id and marks its form used. A failing row leaves a row entry. |
| CognateTable.ReadCognateCsv | src/main/java/de/tuebingen/sfs/cldfjava/io/CLDFImport.java:410-471 | A missing file gives an empty table. An empty file escapes before the clear. Otherwise `cognateIdMap` is empty afterwards and the form id maps are unchanged. |
| CognateTable.FirstsSpec | src/main/java/de/tuebingen/sfs/cldfjava/io/CLDFImport.java:436-457 | The reference list of judgements holds each judged form's first judging line, in line order, and covers every judged form. |
| CognateTable.FirstsDistinct | src/main/java/de/tuebingen/sfs/cldfjava/io/CLDFImport.java:439-443 | No form is judged twice. |
| CognateTable.CognateLinesMatch | src/main/java/de/tuebingen/sfs/cldfjava/io/CLDFImport.java:427-463 | The loop's table and `usedFormIds` match the reference list: dense ids, with the used forms being the judged ones. |
| CognateTable.CognateLinesLog | src/main/java/de/tuebingen/sfs/cldfjava/io/CLDFImport.java:459-462 | When no form is named twice, `i` counts every line, and the log gains one row entry per failed line, in order. |
| CognateTable.ReadCognateCsvTable | src/main/java/de/tuebingen/sfs/cldfjava/io/CLDFImport.java:410-471 | Judgement k is stored under id k for the k-th form judged. It points at that form's dense id and at the cognate set of the first line judging it. |
| CognateTable.ReadCognateCsvLog | src/main/java/de/tuebingen/sfs/cldfjava/io/CLDFImport.java:426-463 | When no form is named twice, there is one row entry per failed data line, numbered from 1, in order. |
| CognateTable.JudgedFormsAreImported | src/main/java/de/tuebingen/sfs/cldfjava/io/CLDFImport.java:436-449 | Every judged form id is a dense id the form reader handed out. |
| CognateTable.UnknownFormIgnored | src/main/java/de/tuebingen/sfs/cldfjava/io/CLDFImport.java:436 | A form cell naming no imported form changes nothing but `i`. |
| CognateTable.RepeatedFormSkipped | src/main/java/de/tuebingen/sfs/cldfjava/io/CLDFImport.java:439-443 | A second judgement of a judged form changes nothing, not even `i`. |
| CognatesetTable.LayoutOf | src/main/java/de/tuebingen/sfs/cldfjava/io/CLDFImport.java:486-491 | The header is split on commas, and the id, description and source columns are located by role. |
| CognatesetTable.BuildCognateSet | src/main/java/de/tuebingen/sfs/cldfjava/io/CLDFImport.java:504-508 | The record of an accepted row: the id, the description or empty, and the sources as the `;`-split of the source cell, or none. |
| CognatesetTable.ReadCognateSetCsv | src/main/java/de/tuebingen/sfs/cldfjava/io/CLDFImport.java:480-524 | A missing file gives an empty table. An empty file escapes. Only `exceptions` changes. |
| CognatesetTable.ReadCognateSetCsvSpec | src/main/java/de/tuebingen/sfs/cldfjava/io/CLDFImport.java:493-516 | The table holds every id of an accepted row with the last such row's record. There is one row entry per rejected row, in order. |
| CognatesetTable.SourcesRejoin | src/main/java/de/tuebingen/sfs/cldfjava/io/CLDFImport.java:508 | The sources joined with `;` give back the source cell, unless the cell ends in `;`. |
| FormRecord.NewForm | src/main/java/de/tuebingen/sfs/cldfjava/data/CLDFForm.java:22-32 | A new form has id -1, no parameter ids, no properties and no segments, and empty strings elsewhere. |
| FormRecord.SetSegments | src/main/java/de/tuebingen/sfs/cldfjava/data/CLDFForm.java:38-40 | Sets the segments and changes nothing else. |
| FormRecord.SetOrthography | src/main/java/de/tuebingen/sfs/cldfjava/data/CLDFForm.java:46-48 | Sets the orthography and changes nothing else. |
| FormRecord.SetProperties | src/main/java/de/tuebingen/sfs/cldfjava/data/CLDFForm.java:54-56 | Sets the properties and changes nothing else. |
| FormRecord.SetId | src/main/java/de/tuebingen/sfs/cldfjava/data/CLDFForm.java:62-64 | Sets the id and changes nothing else. |
| FormRecord.SetForm | src/main/java/de/tuebingen/sfs/cldfjava/data/CLDFForm.java:70-72 | Sets the form and changes nothing else. |
| FormRecord.SetOrigValue | src/main/java/de/tuebingen/sfs/cldfjava/data/CLDFForm.java:78-80 | Sets the original value and changes nothing else. |
| FormRecord.SetComment | src/main/java/de/tuebingen/sfs/cldfjava/data/CLDFForm.java:86-88 | Sets the comment and changes nothing else. |
| FormRecord.SetLangID | src/main/java/de/tuebingen/sfs/cldfjava/data/CLDFForm.java:94-96 | Sets the language id and changes nothing else. |
| FormRecord.SetParamIDs | src/main/java/de/tuebingen/sfs/cldfjava/data/CLDFForm.java:102-104 | Sets the parameter ids and changes nothing else. |
| FormRecord.AddParamID | src/main/java/de/tuebingen/sfs/cldfjava/data/CLDFForm.java:106-108 | The parameter list grows by one at its end, and the ids already there keep their places. |
| FormRecord.SetIso | src/main/java/de/tuebingen/sfs/cldfjava/lexdata/CLDFForm.java:41-43 | Sets the ISO code and changes nothing else. |
| FormRecord.SetConcepticon | src/main/java/de/tuebingen/sfs/cldfjava/lexdata/CLDFForm.java:49-51 | Sets the gloss and changes nothing else. |
| LanguageRecord.NewLanguage | src/main/java/de/tuebingen/sfs/cldfjava/data/CLDFLanguage.java:17-26 | A new language has empty strings, NaN coordinates, no properties and no family. |
| LanguageRecord.SetName | src/main/java/de/tuebingen/sfs/cldfjava/data/CLDFLanguage.java:32-34 | Sets the name and changes nothing else. |
| LanguageRecord.SetProperties | src/main/java/de/tuebingen/sfs/cldfjava/data/CLDFLanguage.java:40-42 | Sets the properties and changes nothing else. |
| LanguageRecord.SetLangID | src/main/java/de/tuebingen/sfs/cldfjava/data/CLDFLanguage.java:48-50 | Sets the id and changes nothing else. |
| LanguageRecord.SetIso | src/main/java/de/tuebingen/sfs/cldfjava/data/CLDFLanguage.java:56-58 | Sets the ISO code and changes nothing else. |
| LanguageRecord.SetGlottocode | src/main/java/de/tuebingen/sfs/cldfjava/data/CLDFLanguage.java:64-66 | Sets the glottocode and changes nothing else. |
| LanguageRecord.SetFamily | src/main/java/de/tuebingen/sfs/cldfjava/data/CLDFLanguage.java:72-74 | Sets the family and changes nothing else. |
| LanguageRecord.SetLatitude | src/main/java/de/tuebingen/sfs/cldfjava/data/CLDFLanguage.java:80-82 | Sets the latitude and changes nothing else. |
| LanguageRecord.SetLongitude | src/main/java/de/tuebingen/sfs/cldfjava/data/CLDFLanguage.java:88-90 | Sets the longitude and changes nothing else. |
| LanguageRecord.CoordinatesIndependent | src/main/java/de/tuebingen/sfs/cldfjava/data/CLDFLanguage.java:80-90 | The two coordinate setters commute, and neither touches the other coordinate. |
| ParameterRecord.NewParameter | src/main/java/de/tuebingen/sfs/cldfjava/data/CLDFParameter.java:14-21 | A new parameter has every string empty and no properties. |
| ParameterRecord.SetSemanticField | src/main/java/de/tuebingen/sfs/cldfjava/data/CLDFParameter.java:23-28 | Sets the semantic field, which the getter reads back, and changes nothing else. |
| ParameterRecord.SetConcepticon | src/main/java/de/tuebingen/sfs/cldfjava/data/CLDFParameter.java:29-31 | Sets the gloss and changes nothing else. |
| ParameterRecord.SetProperties | src/main/java/de/tuebingen/sfs/cldfjava/data/CLDFParameter.java:38-40 | Sets the properties and changes nothing else. |
| ParameterRecord.SetConcepticonID | src/main/java/de/tuebingen/sfs/cldfjava/data/CLDFParameter.java:44-46 | Sets the registry id and changes nothing else. |
| ParameterRecord.SetParamID | src/main/java/de/tuebingen/sfs/cldfjava/data/CLDFParameter.java:50-52 | Sets the id and changes nothing else. |
| ParameterRecord.SetName | src/main/java/de/tuebingen/sfs/cldfjava/data/CLDFParameter.java:56-58 | Sets the name and changes nothing else. |
| ParameterRecord.ConcepticonFieldsDistinct | src/main/java/de/tuebingen/sfs/cldfjava/data/CLDFParameter.java:29-46 | The gloss and the registry id are distinct fields: neither setter touches the other, and they commute. |
| CognateSetRecord.NewCognateSet | src/main/java/de/tuebingen/sfs/cldfjava/lexdata/CLDFCognateSet.java:14-18 | A new cognate set has an empty id and description and no sources. |
| CognateSetRecord.SetCogsetID | src/main/java/de/tuebingen/sfs/cldfjava/lexdata/CLDFCognateSet.java:22-24 | Sets the id and changes nothing else. |
| CognateSetRecord.SetDescription | src/main/java/de/tuebingen/sfs/cldfjava/lexdata/CLDFCognateSet.java:28-30 | Sets the description and changes nothing else. |
| CognateSetRecord.SetSources | src/main/java/de/tuebingen/sfs/cldfjava/lexdata/CLDFCognateSet.java:34-36 | Keeps the sources as given, order and repetitions included, and changes nothing else. |
| WordlistDatabase.EmptyDatabase | src/main/java/de/tuebingen/sfs/cldfjava/io/CLDFImport.java:109-112 | The fallback database has every table empty, no path, and the given exception list. |
| WordlistDatabase.Where | src/main/java/de/tuebingen/sfs/cldfjava/data/CLDFWordlistDatabase.java:150 | A stream filter keeps exactly the elements with a wanted key. |
| WordlistDatabase.WhereCount | src/main/java/de/tuebingen/sfs/cldfjava/data/CLDFWordlistDatabase.java:150 | The filter keeps every copy of a wanted element and no copy of any other. |
| WordlistDatabase.WherePermutation | src/main/java/de/tuebingen/sfs/cldfjava/data/CLDFWordlistDatabase.java:150 | Filtering permuted input gives a permutation of the filtered elements. |
| WordlistDatabase.FindFirst | src/main/java/de/tuebingen/sfs/cldfjava/data/CLDFWordlistDatabase.java:80-81 | `filter(...).findFirst()` is present exactly when some element carries the id, and is then such an element. |
| WordlistDatabase.FindFirstInMap | src/main/java/de/tuebingen/sfs/cldfjava/data/CLDFWordlistDatabase.java:80-81 | Along any iteration of a map's values, `findFirst` finds a value of the map carrying the id exactly when one exists. |
| WordlistDatabase.ProposedGloss | src/main/java/de/tuebingen/sfs/cldfjava/data/CLDFWordlistDatabase.java:81-84 | The gloss is the `concepticon_proposed` property, or empty when there is none. |
| WordlistDatabase.Fill | src/main/java/de/tuebingen/sfs/cldfjava/data/CLDFWordlistDatabase.java:79-87 | Filling a form succeeds exactly when some language and some parameter carry its ids. It changes only the ISO code and the gloss. |
| WordlistDatabase.FillAll | src/main/java/de/tuebingen/sfs/cldfjava/data/CLDFWordlistDatabase.java:77-89 | `fillAdditionalInfoOnForms` succeeds exactly when every form can be filled, and keeps the form keys. |
| WordlistDatabase.FillFilled | src/main/java/de/tuebingen/sfs/cldfjava/data/CLDFWordlistDatabase.java:80-86 | The ISO code and gloss stored come from a language and a parameter the form refers to. |
| WordlistDatabase.FillAllFilled | src/main/java/de/tuebingen/sfs/cldfjava/data/CLDFWordlistDatabase.java:77-89 | Every form after the loop is its original with the ISO code and gloss of a language and parameter it refers to. |
| WordlistDatabase.NewDatabase | src/main/java/de/tuebingen/sfs/cldfjava/data/CLDFWordlistDatabase.java:26-35 | The constructor succeeds exactly when every form's language and parameter exist. It then keeps the form keys and fills each form, and stores the other tables as given. |
| WordlistDatabase.KeyedFindFirst | src/main/java/de/tuebingen/sfs/cldfjava/data/CLDFWordlistDatabase.java:80-81 | Over a map whose values carry their own keys, `findFirst` is a key lookup, whatever the iteration. |
| WordlistDatabase.FillKeyed | src/main/java/de/tuebingen/sfs/cldfjava/data/CLDFWordlistDatabase.java:79-87 | With records stored under their own ids, filling a form is two key lookups. |
| WordlistDatabase.FillOne | src/main/java/de/tuebingen/sfs/cldfjava/data/CLDFWordlistDatabase.java:79-87 | The key-lookup reference: defined exactly when both ids are keys. |
| WordlistDatabase.FillByKey | src/main/java/de/tuebingen/sfs/cldfjava/data/CLDFWordlistDatabase.java:77-89 | The key-lookup reference for the whole loop: defined exactly when every form's ids are keys. |
| WordlistDatabase.FillAllKeyed | src/main/java/de/tuebingen/sfs/cldfjava/data/CLDFWordlistDatabase.java:77-89 | With records stored under their own ids, the loop equals the key-lookup reference, whatever the iteration orders. |
| WordlistDatabase.NewDatabaseKeyed | src/main/java/de/tuebingen/sfs/cldfjava/data/CLDFWordlistDatabase.java:26-35 | With keyed records, the constructor succeeds exactly when every form's ids are keys. It takes the ISO code and gloss from the records under those keys. |
| WordlistDatabase.NewDatabaseIgnoresOrder | src/main/java/de/tuebingen/sfs/cldfjava/data/CLDFWordlistDatabase.java:26-35 | With keyed records, the iteration orders make no difference to the database built. |
| WordlistDatabase.SetCurrentPath | src/main/java/de/tuebingen/sfs/cldfjava/data/CLDFWordlistDatabase.java:37-39 | Sets the path and changes nothing else. |
| WordlistDatabase.GetCurrentPath | src/main/java/de/tuebingen/sfs/cldfjava/data/CLDFWordlistDatabase.java:41-43 | Returns the stored path, or null when none was set. |
| WordlistDatabase.CurrentPathRoundTrip | src/main/java/de/tuebingen/sfs/cldfjava/data/CLDFWordlistDatabase.java:37-43 | Setting then getting the path round-trips, and the second of two sets wins. |
| WordlistDatabase.GetLanguageObject | src/main/java/de/tuebingen/sfs/cldfjava/data/CLDFWordlistDatabase.java:175-177 | The language under the id, or null exactly when the id is not a key. |
| WordlistDatabase.GetAllLanguages | src/main/java/de/tuebingen/sfs/cldfjava/data/CLDFWordlistDatabase.java:55-59 | One entry per language key, holding exactly the language values. |
| WordlistDatabase.GetAllConcepts | src/main/java/de/tuebingen/sfs/cldfjava/data/CLDFWordlistDatabase.java:61-65 | One entry per parameter key, holding exactly the parameter values. |
| WordlistDatabase.GetAllForms | src/main/java/de/tuebingen/sfs/cldfjava/data/CLDFWordlistDatabase.java:67-71 | One entry per form key, holding exactly the form values. |
| WordlistDatabase.ListLanguageIDs | src/main/java/de/tuebingen/sfs/cldfjava/data/CLDFWordlistDatabase.java:95-98 | Every language id, each exactly once. |
| WordlistDatabase.ListParameterIDs | src/main/java/de/tuebingen/sfs/cldfjava/data/CLDFWordlistDatabase.java:115-118 | Every parameter id, each exactly once. |
| WordlistDatabase.ListLanguageISOs | src/main/java/de/tuebingen/sfs/cldfjava/data/CLDFWordlistDatabase.java:104-109 | One ISO code per language, and exactly the ISO codes of the languages. |
| WordlistDatabase.FormValues | src/main/java/de/tuebingen/sfs/cldfjava/data/CLDFWordlistDatabase.java:150 | `idToForm.values()` along an iteration holds exactly the form values. |
| WordlistDatabase.GetFormsForLanguage | src/main/java/de/tuebingen/sfs/cldfjava/data/CLDFWordlistDatabase.java:149-151 | Exactly the forms of the language. |
| WordlistDatabase.GetFormsForConcept | src/main/java/de/tuebingen/sfs/cldfjava/data/CLDFWordlistDatabase.java:153-155 | Exactly the forms whose single parameter id is the concept. |
| WordlistDatabase.GetForms | src/main/java/de/tuebingen/sfs/cldfjava/data/CLDFWordlistDatabase.java:124-133 | Exactly the forms matching both the language and the parameter. |
| WordlistDatabase.GetFormsSubMultiset | src/main/java/de/tuebingen/sfs/cldfjava/data/CLDFWordlistDatabase.java:124-155 | The pair query's result is contained, with repetitions, in both single-id queries. |
| WordlistDatabase.FormQueriesIgnoreOrder | src/main/java/de/tuebingen/sfs/cldfjava/data/CLDFWordlistDatabase.java:124-155 | Whatever the iteration order of the form map, the queries return the same forms, equally often. |
| WordlistDatabase.PerIdCount | src/main/java/de/tuebingen/sfs/cldfjava/data/CLDFWordlistDatabase.java:141-145 | A form occurs in the concatenated result once per listing of its id, times its copies among the values. |
| WordlistDatabase.ForEachId | src/main/java/de/tuebingen/sfs/cldfjava/data/CLDFWordlistDatabase.java:139-147 | The loop over the id list appends one filter per id, with multiplicities as in `PerIdCount`. |
| WordlistDatabase.GetFormsForLanguages | src/main/java/de/tuebingen/sfs/cldfjava/data/CLDFWordlistDatabase.java:139-147 | The language filters concatenated in list order. A language listed twice contributes its forms twice. Exactly the forms of listed languages appear. |
| WordlistDatabase.GetFormsForParam | src/main/java/de/tuebingen/sfs/cldfjava/data/CLDFWordlistDatabase.java:161-169 | The concept filters concatenated in list order, with the same multiplicities. |
| WordlistDatabase.SingleLanguageList | src/main/java/de/tuebingen/sfs/cldfjava/data/CLDFWordlistDatabase.java:139-151 | A one-element language list asks the same as `getFormsForLanguage`. |
| WordlistDatabase.GetLanguageObjects | src/main/java/de/tuebingen/sfs/cldfjava/data/CLDFWordlistDatabase.java:183-192 | Exactly the language values carrying the id. |
| WordlistDatabase.LanguageObjectsKeyed | src/main/java/de/tuebingen/sfs/cldfjava/data/CLDFWordlistDatabase.java:175-192 | With languages stored under their own ids, the list is empty or holds the one language `getLanguageObject` returns. |
| WordlistDatabase.GetCogsetToCognates | src/main/java/de/tuebingen/sfs/cldfjava/data/CLDFWordlistDatabase.java:194-208 | The keys are exactly the cognate-set references that occur. Every judgement's form, or null for a missing form, is in its reference's set, and nothing else is. |
| WordlistDatabase.AddJudgement | src/main/java/de/tuebingen/sfs/cldfjava/data/CLDFWordlistDatabase.java:198-204 | One iteration puts the judged form into its reference's set, creating the set if needed, and leaves the other sets alone. |
| WordlistDatabase.AddJudgementGroups | src/main/java/de/tuebingen/sfs/cldfjava/data/CLDFWordlistDatabase.java:197-205 | Adding one judgement keeps the grouping exact. |
| LoadDatabase.FileAt | src/main/java/de/tuebingen/sfs/cldfjava/io/CLDFImport.java:82-84 | A path that is not in the folder cannot be opened. |
| LoadDatabase.EntryFor | src/main/java/de/tuebingen/sfs/cldfjava/io/CLDFImport.java:103-107 | An `Error` adds `[message, dir]`. A null pointer or I/O failure adds `["else"]`. |
| LoadDatabase.ConformsTo | src/main/java/de/tuebingen/sfs/cldfjava/io/CLDFImport.java:58 | A missing field is a null pointer. A URL without a second `#`-piece is an index failure. Otherwise the result is the fragment. |
| LoadDatabase.TypesOf | src/main/java/de/tuebingen/sfs/cldfjava/io/CLDFImport.java:64-67 | The type of every table, in order, as a value or an exception. |
| LoadDatabase.FirstThrow | src/main/java/de/tuebingen/sfs/cldfjava/io/CLDFImport.java:64-67 | The first table whose type throws, after which the loop does not continue. |
| LoadDatabase.Collect | src/main/java/de/tuebingen/sfs/cldfjava/io/CLDFImport.java:62-67 | The type list is complete exactly when no table throws. Otherwise the first exception is the one raised. |
| LoadDatabase.Locate | src/main/java/de/tuebingen/sfs/cldfjava/io/CLDFImport.java:70-74 | The five table indices are `indexOf` of the five type names. |
| LoadDatabase.UrlAt | src/main/java/de/tuebingen/sfs/cldfjava/io/CLDFImport.java:77-79 | The url exists exactly when the table is listed and has one. Otherwise the result is a null pointer. |
| LoadDatabase.RolesAt | src/main/java/de/tuebingen/sfs/cldfjava/io/CLDFImport.java:82-84 | The role map of the table, or the index failure of `createColumnPropertyMap`. |
| LoadDatabase.FromRead | src/main/java/de/tuebingen/sfs/cldfjava/io/CLDFImport.java:82-84 | A reader that returns gives its table. An escaping exception becomes a null pointer in the state the reader left. |
| LoadDatabase.Recover | src/main/java/de/tuebingen/sfs/cldfjava/io/CLDFImport.java:103-113 | A caught exception adds its entry, and the previous database, or else an empty one, is returned with the new list. An uncaught exception is passed on. |
| LoadDatabase.Construct | src/main/java/de/tuebingen/sfs/cldfjava/io/CLDFImport.java:96-98 | The constructor succeeds exactly on tables whose forms all find their language and parameter, and otherwise throws `NoSuchElementException`. On success the database is the filled one, with the path and the exception list set. |
| LoadDatabase.ConstructorSucceeds | src/main/java/de/tuebingen/sfs/cldfjava/io/CLDFImport.java:97 | The constructor succeeds exactly on constructible tables, whatever the iteration orders. |
| LoadDatabase.ConstructorBuilds | src/main/java/de/tuebingen/sfs/cldfjava/io/CLDFImport.java:97-98 | What the constructor builds, with path and exceptions set, is the promised database. |
| LoadDatabase.LoadDatabase | src/main/java/de/tuebingen/sfs/cldfjava/io/CLDFImport.java:38-114 | A failed import is handled as `Recover` says. A successful one builds the database as `Construct` says. |
| LoadDatabase.FailuresBeforeReading | src/main/java/de/tuebingen/sfs/cldfjava/io/CLDFImport.java:48-60 | A failure before the metadata is read leaves exactly one entry: `["else"]` for a missing directory or an unreadable metadata file, and `["folder", dir]` for a folder without one. The database returned is the previous one, or else an empty one. |
| LoadDatabase.NotAWordlist | src/main/java/de/tuebingen/sfs/cldfjava/io/CLDFImport.java:58-102 | Metadata of another module gives `["wordlist", dir]`. A module URL without a fragment escapes. |
| LoadDatabase.MissingRequiredTable | src/main/java/de/tuebingen/sfs/cldfjava/io/CLDFImport.java:70-79 | A dataset lacking a form, language or parameter table fails with a null pointer before any reader runs. |
| LoadDatabase.UnlocatedRequiredTable | src/main/java/de/tuebingen/sfs/cldfjava/io/CLDFImport.java:77-79 | The `tables.get(-1)` of an unlisted required table is a null pointer from the fresh state. |
| LoadDatabase.OptionalTables | src/main/java/de/tuebingen/sfs/cldfjava/io/CLDFImport.java:85-95 | Without a cognate or cognate-set table, that table of the result is empty. |
| LoadDatabase.ImporterReadersState | src/main/java/de/tuebingen/sfs/cldfjava/io/CLDFImport.java:144-524 | Only the form reader touches the form id maps. Only the cognate reader touches `cognateIdMap`, and it clears the map. No form gets a single parameter id. |
| LoadDatabase.ReadTableDone | src/main/java/de/tuebingen/sfs/cldfjava/io/CLDFImport.java:82-84 | A successful table read built the role map and the reader returned. |
| LoadDatabase.FormIdsReachCognates | src/main/java/de/tuebingen/sfs/cldfjava/io/CLDFImport.java:82-88 | The required readers run in the order form, language, parameter. The state handed to the cognate reader holds the id maps the form reader built. |
| LoadDatabase.ImportDone | src/main/java/de/tuebingen/sfs/cldfjava/io/CLDFImport.java:48-67 | A successful import went through the Wordlist branch with every table type readable. |
| LoadDatabase.WordlistDone | src/main/java/de/tuebingen/sfs/cldfjava/io/CLDFImport.java:70-95 | A successful Wordlist import found the three required tables and their urls. It read them from the fresh state, then read the optional tables. |
| LoadDatabase.StaticMapsCleared | src/main/java/de/tuebingen/sfs/cldfjava/io/CLDFImport.java:96 | After a successful import `formsOldToNew` is empty again. When only the cognate reader touches `cognateIdMap` and clears it, that map is empty too. |
| LoadDatabase.ImportedForms | src/main/java/de/tuebingen/sfs/cldfjava/io/CLDFImport.java:82-97 | When the form reader never sets a single parameter id, no form of a successful import has one. |
| LoadDatabase.NoParameterNotConstructible | src/main/java/de/tuebingen/sfs/cldfjava/data/CLDFWordlistDatabase.java:81 | Forms without a parameter id cannot all find their parameter when no parameter has the empty id. |
| LoadDatabase.FormsNeedEmptyParameter | src/main/java/de/tuebingen/sfs/cldfjava/io/CLDFImport.java:82-98 | With the importer's readers, a successful import with at least one form and no parameter with the empty id gives tables the constructor cannot build. Its `findFirst().get()` then throws `NoSuchElementException`, which nothing catches. |

## Left out

- File and JSON handling is represented by the `Folder` and `Metadata` values. These are left out: `listFiles`, reading bytes, `ObjectMapper`, JSON nulls beyond a missing `dc:conformsTo`, `url` or `tables`, a missing `tableSchema` or column `name`, and path normalisation.
- `Float.parseFloat` is not modelled. Its success is the parameter `parses`, and a parsed coordinate is represented by its text, because float arithmetic is outside the model.
- `printStackTrace`, `System.err` warnings and every `toString` are left out, because they are output only.
- The stream-reading side of the `io` CSV parser is left out: its constructor, `hasNextRecord`, `getNextRecord`, `getNextRecordAsMap` and `getColumnTitle`. These are file plumbing around `getColumns`.
- JavaStrings.ToLower: lower-cases ASCII letters only. `String.toLowerCase` also maps other Unicode letters, which the model does not.
- `HashMap` iteration order is left open. Queries take an arbitrary enumeration of the keys, and results are stated up to it.
- WordlistDatabase.NewDatabase: `data/CLDFWordlistDatabase.java` in this revision has a five-argument constructor and neither `setExceptions` nor an empty constructor. `CLDFImport` calls a six-argument constructor (with `formsNewToOld`), the no-argument constructor and `setExceptions`. The model follows the importer's calls: the extra argument is stored, `setExceptions` sets the list, and the no-argument constructor gives empty tables.
- WordlistDatabase.GetCogsetToCognates: keys the result by the cognate-set reference as text. `CLDFImport` stores text references, but the database file reads them as `int`.
- CognateJudgementRecord: judgement ids and form references are `int`, as `CLDFImport` sets them. `data/CLDFCognateJudgement.java` declares them as strings.
- The form record carries both `paramIDs` (set by the importer) and the single `paramID`, ISO code and gloss that the database reads. The latter come from `lexdata/CLDFForm.java`. The importer never sets `paramID`.
- `getFormsMap` is left out, because it returns the form table unchanged.
- WordlistDatabase.GetAllLanguages, WordlistDatabase.GetAllConcepts and WordlistDatabase.GetAllForms state the length and the set of values, not the multiset of values along the iteration.
- WordlistDatabase.ListLanguageISOs states the length and the set of ISO codes, not their multiplicities.
- CsvParser.GetColumns: its own contract states only the empty-row case and trimming. The field-level behaviour is stated by the lemmas of `CsvParserProperties`.
- CsvParser.GetColumns: rows are sequences of Unicode characters, while Java's `charAt`, `length` and the `i += 3` skip count UTF-16 code units. When the character that the skip passes over without reading lies outside the Basic Multilingual Plane (an emoji, say), Java lands on its second code unit and the model lands one character further on. The fields can then differ: on `x,"a""😀""b",c` Java yields three fields and the model yields only `x`. Rows made only of Basic Multilingual Plane characters are modelled exactly.
- CsvParser.QuotesStep: counts Unicode characters rather than UTF-16 code units, with the same consequence for the `i += 3` skip as for `CsvParser.GetColumns`.
- RootCsvParser.GetColumns: equals the `io` copy, so it has the same UTF-16 difference as `CsvParser.GetColumns` on characters outside the Basic Multilingual Plane.
- LoadDatabase.Recover: Java keeps the database in a static field. On a caught failure it calls `setExceptions` on that same object and returns it, so a caller still holding the database from an earlier successful call sees its exception list overwritten. The model returns a new value with the new list and leaves the earlier result unchanged. Object identity and aliasing are not modelled.
- LoadDatabase.LoadDatabase: inherits the aliasing gap of `LoadDatabase.Recover`. The earlier database object is not updated in place.
- CognateTable.ReadCognateCsvLog: stated only for files in which no form is named twice. There the `continue` that skips `i++` never fires, so later rows would otherwise be numbered differently.
- Concurrency is left out: the static fields make `loadDatabase` unsafe to call concurrently, and the model runs one call at a time.
