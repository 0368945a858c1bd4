/**
 * `CLDFImport.loadDatabase`: find the metadata file of a CLDF folder,
 * check that it describes a Wordlist, pick the tables by their
 * `dc:conformsTo` type, run the five readers in their fixed order against
 * the static id maps and exception list, build the database and hand it
 * the exception list. Directory listing, file reading and JSON parsing
 * are replaced by a `Folder` value that already holds their results.
 */
module LoadDatabase {
  import opened Wrappers
  import opened JavaStrings
  import opened HashOrder
  import opened ImportCommon
  import opened Schema
  import opened FormRecord
  import opened LanguageRecord
  import opened ParameterRecord
  import opened CognateJudgementRecord
  import opened CognateSetRecord
  import FormTable
  import LanguageTable
  import ParameterTable
  import CognateTable
  import CognatesetTable
  import opened WordlistDatabase

  // ---------------------------------------------------------------------
  // The folder
  // ---------------------------------------------------------------------

  /**
   * One entry of the metadata's `tables`: its `dc:conformsTo` and `url`
   * (None when the JSON field is absent) and its `tableSchema.columns`.
   */
  datatype TableDesc = TableDesc(conformsTo: Option<string>, url: Option<string>, columns: seq<ColumnDesc>)

  /** The metadata document: its `dc:conformsTo` and its `tables` (None when absent). */
  datatype Metadata = Metadata(conformsTo: Option<string>, tables: Option<seq<TableDesc>>)

  /**
   * The first file of the folder whose name ends in `metadata.json`: none,
   * one that cannot be read or parsed (an `IOException`), or its content.
   */
  datatype MetadataFile = NoMetadata | Unreadable | Json(meta: Metadata)

  /**
   * What `cldfDirName` names: no directory (`listFiles` gives null), or a
   * directory with its metadata file and its table files by path.
   */
  datatype Folder = NotADirectory | Folder(metadata: MetadataFile, files: map<string, TextFile>)

  /** The file at `path`; a path that is not there cannot be opened. */
  function FileAt(files: map<string, TextFile>, path: string): (f: TextFile)
    ensures path !in files ==> f.Missing?
    ensures path in files ==> f == files[path]
  {
    if path in files then files[path] else Missing
  }

  // ---------------------------------------------------------------------
  // Exceptions
  // ---------------------------------------------------------------------

  /**
   * What a statement of `loadDatabase` can throw: a `NullPointerException`,
   * an `IOException`, an `Error` with its message, an
   * `ArrayIndexOutOfBoundsException` from `split("#")[1]`, or the
   * `NoSuchElementException` of the database constructor.
   */
  datatype Thrown = NullPointer | IOFailure | Raised(message: string) | OutOfBounds | NoSuchElement

  /** The exceptions the `catch` clauses of `loadDatabase` handle. */
  predicate Caught(t: Thrown) {
    t.NullPointer? || t.IOFailure? || t.Raised?
  }

  /** The entry a caught exception adds: `[message, dir]` for an `Error`, `["else"]` otherwise. */
  function EntryFor(t: Thrown, dir: string): (e: ExceptionEntry)
    requires Caught(t)
    ensures t.Raised? ==> e == Fatal(t.message, dir)
    ensures !t.Raised? ==> e == Else
  {
    if t.Raised? then Fatal(t.message, dir) else Else
  }

  /** A value, or the exception that replaced it. */
  datatype Java<T> = Value(value: T) | Throws(thrown: Thrown)

  /** A step that changes the static state: its value and the state after it, or what it threw and the state then. */
  datatype Step<T> = Done(value: T, session: Session) | Threw(thrown: Thrown, session: Session)

  // ---------------------------------------------------------------------
  // Picking the tables
  // ---------------------------------------------------------------------

  /** `conformsTo.asText().split("#")[1]` of a JSON field that may be absent. */
  function ConformsTo(field: Option<string>): (r: Java<string>)
    ensures field.None? ==> r == Throws(NullPointer)
    ensures field.Some? && SecondPiece(field.value, '#').None? ==> r == Throws(OutOfBounds)
    ensures field.Some? && SecondPiece(field.value, '#').Some? ==> r == Value(SecondPiece(field.value, '#').value)
  {
    match field
    case None => Throws(NullPointer)
    case Some(url) =>
      match SecondPiece(url, '#')
      case None => Throws(OutOfBounds)
      case Some(kind) => Value(kind)
  }

  /** The type of one table, `table.get("dc:conformsTo").asText().split("#")[1]`. */
  function TypeOf(table: TableDesc): Java<string> {
    ConformsTo(table.conformsTo)
  }

  /** The type of every table, each as a value or the exception reading it throws. */
  function TypesOf(tables: seq<TableDesc>): (ts: seq<Java<string>>)
    ensures |ts| == |tables|
    ensures forall k :: 0 <= k < |tables| ==> ts[k] == TypeOf(tables[k])
  {
    seq(|tables|, k requires 0 <= k < |tables| => TypeOf(tables[k]))
  }

  /** The position of the first exception, or the length when there is none. */
  function FirstThrow<T>(ts: seq<Java<T>>): (k: int)
    ensures 0 <= k <= |ts|
    ensures forall j :: 0 <= j < k ==> ts[j].Value?
    ensures k < |ts| ==> ts[k].Throws?
    decreases |ts|
  {
    if |ts| == 0 then 0
    else if ts[0].Throws? then 0
    else 1 + FirstThrow(ts[1..])
  }

  /**
   * A loop that evaluates the elements in order and collects the values:
   * all of them, or the first exception, which stops it.
   */
  function Collect<T>(ts: seq<Java<T>>): (r: Java<seq<T>>)
    ensures r.Value? <==> FirstThrow(ts) == |ts|
    ensures r.Value? ==> |r.value| == |ts|
    ensures r.Value? ==> forall k :: 0 <= k < |ts| ==> ts[k] == Value(r.value[k])
    ensures r.Throws? ==> ts[FirstThrow(ts)] == Throws(r.thrown)
    decreases |ts|
  {
    if |ts| == 0 then Value([])
    else
      match ts[0]
      case Throws(t) => Throws(t)
      case Value(v) =>
        match Collect(ts[1..])
        case Throws(t) => Throws(t)
        case Value(vs) => Value([v] + vs)
  }

  /** The positions `tableTypes.indexOf` finds for the five table types, -1 for a type not listed. */
  datatype Located = Located(forms: int, languages: int, parameters: int, cognates: int, cognateSets: int)

  function Locate(types: seq<string>): (at: Located)
    ensures at.forms == IndexOf(types, "FormTable")
    ensures at.languages == IndexOf(types, "LanguageTable")
    ensures at.parameters == IndexOf(types, "ParameterTable")
    ensures at.cognates == IndexOf(types, "CognateTable")
    ensures at.cognateSets == IndexOf(types, "CognatesetTable")
  {
    Located(IndexOf(types, "FormTable"), IndexOf(types, "LanguageTable"), IndexOf(types, "ParameterTable"),
            IndexOf(types, "CognateTable"), IndexOf(types, "CognatesetTable"))
  }

  /**
   * `tables.get(index).get("url").asText()`: the JSON array answers null
   * for index -1, and so does a table without `url`.
   */
  function UrlAt(tables: seq<TableDesc>, index: int): (r: Java<string>)
    requires -1 <= index < |tables|
    ensures r.Value? <==> index != -1 && tables[index].url.Some?
    ensures r.Value? ==> r.value == tables[index].url.value
    ensures r.Throws? ==> r.thrown == NullPointer
  {
    if index == -1 || tables[index].url.None? then Throws(NullPointer) else Value(tables[index].url.value)
  }

  /** `createColumnPropertyMap(index, tables)`, whose failure is an `ArrayIndexOutOfBoundsException`. */
  function RolesAt(tables: seq<TableDesc>, index: int): (r: Java<map<string, string>>)
    requires 0 <= index < |tables|
    ensures r.Value? <==> CreateColumnPropertyMap(tables[index].columns).Some?
    ensures r.Value? ==> r.value == CreateColumnPropertyMap(tables[index].columns).value
    ensures r.Throws? ==> r.thrown == OutOfBounds
  {
    match CreateColumnPropertyMap(tables[index].columns)
    case None => Throws(OutOfBounds)
    case Some(roles) => Value(roles)
  }

  // ---------------------------------------------------------------------
  // The reader calls
  // ---------------------------------------------------------------------

  /**
   * The five `read*Csv` methods, each a function of the file path, the
   * file, the role map and the static state. The import takes them as a
   * parameter, so that its control flow is stated for any readers;
   * `loadDatabase` runs it with `ImporterReaders`.
   */
  datatype Readers = Readers(
    forms: (string, TextFile, map<string, string>, Session) -> Read<map<int, Form>>,
    languages: (string, TextFile, map<string, string>, Session) -> Read<map<string, Language>>,
    parameters: (string, TextFile, map<string, string>, Session) -> Read<map<string, Parameter>>,
    cognates: (string, TextFile, map<string, string>, Session) -> Read<map<int, Judgement>>,
    cognateSets: (string, TextFile, map<string, string>, Session) -> Read<map<string, CognateSet>>)

  /** The readers of `CLDFImport`; `parses` stands for `Float.parseFloat` succeeding. */
  function ImporterReaders(parses: string -> bool): Readers {
    Readers(
      (path, file, roles, session) => FormTable.ReadFormCsv(path, file, roles, session),
      (path, file, roles, session) => LanguageTable.ReadLanguageCsv(path, file, roles, parses, session),
      (path, file, roles, session) => ParameterTable.ReadParameterCsv(path, file, roles, session),
      (path, file, roles, session) => CognateTable.ReadCognateCsv(path, file, roles, session),
      (path, file, roles, session) => CognatesetTable.ReadCognateSetCsv(path, file, roles, session))
  }

  /** A reader's result as a step: the `NullPointerException` of an empty file keeps the state it left. */
  function FromRead<T>(r: Read<T>): (s: Step<T>)
    ensures r.Returned? ==> s == Done(r.table, r.session)
    ensures r.Escaped? ==> s == Threw(NullPointer, r.session)
  {
    match r
    case Returned(table, session) => Done(table, session)
    case Escaped(session) => Threw(NullPointer, session)
  }

  /** `path + "/" + fileName`. */
  function PathOf(dir: string, url: string): string {
    dir + "/" + url
  }

  /**
   * `read*Csv(path + "/" + url, createColumnPropertyMap(index, tables))`:
   * the role map is built first, and its failure stops the call.
   */
  function ReadTable<T>(reader: (string, TextFile, map<string, string>, Session) -> Read<T>, dir: string,
                        files: map<string, TextFile>, tables: seq<TableDesc>, index: int, url: string,
                        session: Session): (r: Step<T>)
    requires 0 <= index < |tables|
  {
    var path := PathOf(dir, url);
    match RolesAt(tables, index)
    case Throws(t) => Threw(t, session)
    case Value(roles) => FromRead(reader(path, FileAt(files, path), roles, session))
  }

  /**
   * A table read only when one is listed (`index != -1`), its `url`
   * looked up only then; otherwise the empty map.
   */
  function ReadIfListed<K, V>(reader: (string, TextFile, map<string, string>, Session) -> Read<map<K, V>>, dir: string,
                              files: map<string, TextFile>, tables: seq<TableDesc>, index: int,
                              session: Session): (r: Step<map<K, V>>)
    requires -1 <= index < |tables|
  {
    if index == -1 then Done(map[], session)
    else
      match UrlAt(tables, index)
      case Throws(t) => Threw(t, session)
      case Value(url) => ReadTable(reader, dir, files, tables, index, url, session)
  }

  // ---------------------------------------------------------------------
  // The import
  // ---------------------------------------------------------------------

  /** The five tables the readers fill, as handed to the constructor. */
  datatype Tables = Tables(
    forms: map<int, Form>,
    languages: map<string, Language>,
    parameters: map<string, Parameter>,
    judgements: map<int, Judgement>,
    cognateSets: map<string, CognateSet>)

  /** The three tables every Wordlist must have. */
  datatype Required = Required(forms: map<int, Form>, languages: map<string, Language>, parameters: map<string, Parameter>)

  /** The form, language and parameter readers, in this order, each starting from the state the previous one left. */
  function ReadRequired(readers: Readers, dir: string, files: map<string, TextFile>, tables: seq<TableDesc>, at: Located,
                        formUrl: string, languageUrl: string, parameterUrl: string, session: Session): (r: Step<Required>)
    requires 0 <= at.forms < |tables| && 0 <= at.languages < |tables| && 0 <= at.parameters < |tables|
  {
    match ReadTable(readers.forms, dir, files, tables, at.forms, formUrl, session)
    case Threw(t, s) => Threw(t, s)
    case Done(forms, s1) =>
      match ReadTable(readers.languages, dir, files, tables, at.languages, languageUrl, s1)
      case Threw(t, s) => Threw(t, s)
      case Done(languages, s2) =>
        match ReadTable(readers.parameters, dir, files, tables, at.parameters, parameterUrl, s2)
        case Threw(t, s) => Threw(t, s)
        case Done(parameters, s3) => Done(Required(forms, languages, parameters), s3)
  }

  /**
   * The optional cognate and cognate-set readers after the required ones;
   * then `formsOldToNew.clear()`.
   */
  function ReadOptional(readers: Readers, dir: string, files: map<string, TextFile>, tables: seq<TableDesc>, at: Located,
                        required: Required, session: Session): (r: Step<Tables>)
    requires -1 <= at.cognates < |tables| && -1 <= at.cognateSets < |tables|
  {
    match ReadIfListed(readers.cognates, dir, files, tables, at.cognates, session)
    case Threw(t, s) => Threw(t, s)
    case Done(judgements, s4) =>
      match ReadIfListed(readers.cognateSets, dir, files, tables, at.cognateSets, s4)
      case Threw(t, s) => Threw(t, s)
      case Done(cognateSets, s5) =>
        Done(Tables(required.forms, required.languages, required.parameters, judgements, cognateSets),
             s5.(oldToNew := map[]))
  }

  /**
   * The Wordlist branch: the three required file names are looked up
   * first, then the readers run from the fresh state.
   */
  function ImportWordlist(readers: Readers, dir: string, files: map<string, TextFile>, tables: seq<TableDesc>,
                          types: seq<string>): (r: Step<Tables>)
    requires |types| == |tables|
  {
    var at := Locate(types);
    var formUrl, languageUrl, parameterUrl := UrlAt(tables, at.forms), UrlAt(tables, at.languages), UrlAt(tables, at.parameters);
    if formUrl.Throws? then Threw(formUrl.thrown, FreshSession())
    else if languageUrl.Throws? then Threw(languageUrl.thrown, FreshSession())
    else if parameterUrl.Throws? then Threw(parameterUrl.thrown, FreshSession())
    else
      match ReadRequired(readers, dir, files, tables, at, formUrl.value, languageUrl.value, parameterUrl.value, FreshSession())
      case Threw(t, s) => Threw(t, s)
      case Done(required, s3) => ReadOptional(readers, dir, files, tables, at, required, s3)
  }

  /** The tables of a Wordlist: their types first, the first unreadable one stopping the loop. */
  function ImportTables(readers: Readers, dir: string, files: map<string, TextFile>, tables: seq<TableDesc>)
    : (r: Step<Tables>)
  {
    match Collect(TypesOf(tables))
    case Throws(t) => Threw(t, FreshSession())
    case Value(types) => ImportWordlist(readers, dir, files, tables, types)
  }

  /** The metadata document: its module must be the Wordlist, and it must list tables. */
  function ImportMetadata(readers: Readers, dir: string, files: map<string, TextFile>, meta: Metadata)
    : (r: Step<Tables>)
  {
    match ConformsTo(meta.conformsTo)
    case Throws(t) => Threw(t, FreshSession())
    case Value(moduleType) =>
      if moduleType != "Wordlist" then Threw(Raised("wordlist"), FreshSession())
      else if meta.tables.None? then Threw(NullPointer, FreshSession())
      else ImportTables(readers, dir, files, meta.tables.value)
  }

  /**
   * The body of the `try` up to the constructor call: find and read the
   * metadata file, then import what it describes.
   */
  function Import(readers: Readers, dir: string, folder: Folder): (r: Step<Tables>)
  {
    match folder
    case NotADirectory => Threw(NullPointer, FreshSession())
    case Folder(metadata, files) =>
      match metadata
      case NoMetadata => Threw(Raised("folder"), FreshSession())
      case Unreadable => Threw(IOFailure, FreshSession())
      case Json(meta) => ImportMetadata(readers, dir, files, meta)
  }

  // ---------------------------------------------------------------------
  // loadDatabase
  // ---------------------------------------------------------------------

  /** What a call of `loadDatabase` ends in: the database it returns, or an exception it lets through. */
  datatype Outcome = Loaded(db: Database) | Crashed(thrown: Thrown)

  /** Every form names a language and a parameter that exist, so `findFirst().get()` finds them. */
  predicate Constructible(t: Tables) {
    forall k :: k in t.forms ==> HasLanguage(t.languages, t.forms[k].langID) && HasParameter(t.parameters, t.forms[k].paramID)
  }

  /**
   * The database a successful import returns: the forms filled from the
   * language and parameter tables, the other tables and the dense-to-external
   * form id map as read, the folder as current path, and the exception list.
   */
  ghost predicate Built(db: Database, dir: string, t: Tables, session: Session) {
    && (forall k :: k in db.forms <==> k in t.forms)
    && (forall k :: k in t.forms ==> Filled(t.forms[k], db.forms[k], t.languages, t.parameters))
    && db.languages == t.languages
    && db.parameters == t.parameters
    && db.judgements == t.judgements
    && db.cognateSets == t.cognateSets
    && db.newToOld == session.newToOld
    && db.currentPath == Some(dir)
    && db.exceptions == session.exceptions
  }

  /**
   * The `catch` clauses and what follows them: a caught exception adds its
   * entry, and the previous database (or, before any import succeeded, an
   * empty one) is returned with the new exception list.
   */
  function Recover(previous: Option<Database>, dir: string, t: Thrown, session: Session): (r: Outcome)
    ensures Caught(t) ==> r.Loaded? && r.db.exceptions == session.exceptions + [EntryFor(t, dir)]
    ensures Caught(t) && previous.Some? ==> r.db == previous.value.(exceptions := r.db.exceptions)
    ensures Caught(t) && previous.None? ==> r.db == EmptyDatabase(r.db.exceptions)
    ensures !Caught(t) ==> r == Crashed(t)
  {
    if Caught(t) then Loaded(previous.GetOr(EmptyDatabase([])).(exceptions := session.exceptions + [EntryFor(t, dir)]))
    else Crashed(t)
  }

  /**
   * The constructor call, `currentPath` and `setExceptions` after a
   * successful import; HashMap iteration order is left open.
   */
  method Construct(dir: string, t: Tables, session: Session) returns (r: Outcome)
    ensures r.Loaded? <==> Constructible(t)
    ensures r.Crashed? ==> r.thrown == NoSuchElement
    ensures r.Loaded? ==> Built(r.db, dir, t, session)
  {
    var langOrder := Enumerate(t.languages.Keys);
    var paramOrder := Enumerate(t.parameters.Keys);
    var made := NewDatabase(t.forms, t.languages, langOrder, t.parameters, paramOrder, t.judgements, t.cognateSets, session.newToOld);
    ConstructorSucceeds(t, session.newToOld, langOrder, paramOrder);
    if made.None? {
      r := Crashed(NoSuchElement);
    } else {
      ConstructorBuilds(dir, t, session, langOrder, paramOrder);
      r := Loaded(made.value.(currentPath := Some(dir), exceptions := session.exceptions));
    }
  }

  /** The constructor succeeds exactly on constructible tables. */
  lemma ConstructorSucceeds(t: Tables, newToOld: map<int, string>, langOrder: seq<string>, paramOrder: seq<string>)
    requires Enumerates(langOrder, t.languages.Keys) && Enumerates(paramOrder, t.parameters.Keys)
    ensures NewDatabase(t.forms, t.languages, langOrder, t.parameters, paramOrder, t.judgements, t.cognateSets, newToOld).Some?
            <==> Constructible(t)
  {
  }

  /** What the constructor built, with the path and the exception list set, is the database the import promises. */
  lemma ConstructorBuilds(dir: string, t: Tables, session: Session, langOrder: seq<string>, paramOrder: seq<string>)
    requires Enumerates(langOrder, t.languages.Keys) && Enumerates(paramOrder, t.parameters.Keys)
    requires NewDatabase(t.forms, t.languages, langOrder, t.parameters, paramOrder, t.judgements, t.cognateSets, session.newToOld).Some?
    ensures var db := NewDatabase(t.forms, t.languages, langOrder, t.parameters, paramOrder, t.judgements, t.cognateSets, session.newToOld).value;
            Built(db.(currentPath := Some(dir), exceptions := session.exceptions), dir, t, session)
  {
    var db := NewDatabase(t.forms, t.languages, langOrder, t.parameters, paramOrder, t.judgements, t.cognateSets, session.newToOld).value;
    BuiltWithPath(db, dir, t, session);
  }

  lemma BuiltWithPath(db: Database, dir: string, t: Tables, session: Session)
    requires forall k :: k in db.forms <==> k in t.forms
    requires forall k :: k in t.forms ==> Filled(t.forms[k], db.forms[k], t.languages, t.parameters)
    requires db.languages == t.languages && db.parameters == t.parameters
    requires db.judgements == t.judgements && db.cognateSets == t.cognateSets && db.newToOld == session.newToOld
    ensures Built(db.(currentPath := Some(dir), exceptions := session.exceptions), dir, t, session)
  {
    var built := db.(currentPath := Some(dir), exceptions := session.exceptions);
    FilledCarriesOver(db, built, t);
  }

  lemma FilledCarriesOver(db: Database, built: Database, t: Tables)
    requires built.forms == db.forms
    requires forall k :: k in t.forms ==> k in db.forms && Filled(t.forms[k], db.forms[k], t.languages, t.parameters)
    ensures forall k :: k in t.forms ==> Filled(t.forms[k], built.forms[k], t.languages, t.parameters)
  {
  }

  /**
   * `loadDatabase(cldfDirName)`. `previous` is the static `database` field,
   * which is not reset: when the import fails, the database of the last
   * successful call is returned again, with the new exception list.
   */
  method LoadDatabase(previous: Option<Database>, dir: string, folder: Folder, parses: string -> bool)
    returns (r: Outcome)
    ensures Import(ImporterReaders(parses), dir, folder).Threw? ==>
              r == Recover(previous, dir, Import(ImporterReaders(parses), dir, folder).thrown, Import(ImporterReaders(parses), dir, folder).session)
    ensures Import(ImporterReaders(parses), dir, folder).Done? ==>
              && (r.Loaded? <==> Constructible(Import(ImporterReaders(parses), dir, folder).value))
              && (r.Crashed? ==> r.thrown == NoSuchElement)
              && (r.Loaded? ==> Built(r.db, dir, Import(ImporterReaders(parses), dir, folder).value, Import(ImporterReaders(parses), dir, folder).session))
  {
    var i := Import(ImporterReaders(parses), dir, folder);
    match i
    case Threw(t, s) =>
      r := Recover(previous, dir, t, s);
    case Done(t, s) =>
      r := Construct(dir, t, s);
  }

  // ---------------------------------------------------------------------
  // Properties of the import
  // ---------------------------------------------------------------------

  /** The database a caught failure leaves: the previous one, or an empty one, with `entries` as its exceptions. */
  function Fallback(previous: Option<Database>, entries: seq<ExceptionEntry>): Database {
    previous.GetOr(EmptyDatabase([])).(exceptions := entries)
  }

  /**
   * Failures before the metadata is read leave exactly one exception entry:
   * `["else"]` for a missing directory or an unreadable metadata file,
   * `["folder", dir]` without a metadata file.
   */
  lemma FailuresBeforeReading(readers: Readers, previous: Option<Database>, dir: string, folder: Folder)
    ensures var i := Import(readers, dir, folder);
            && (folder.NotADirectory? ==> i.Threw? && Recover(previous, dir, i.thrown, i.session) == Loaded(Fallback(previous, [Else])))
            && (folder.Folder? && folder.metadata.NoMetadata? ==>
                  i.Threw? && Recover(previous, dir, i.thrown, i.session) == Loaded(Fallback(previous, [Fatal("folder", dir)])))
            && (folder.Folder? && folder.metadata.Unreadable? ==>
                  i.Threw? && Recover(previous, dir, i.thrown, i.session) == Loaded(Fallback(previous, [Else])))
  {
  }

  /** Metadata of another CLDF module gives `["wordlist", dir]`; a module URL without a fragment escapes. */
  lemma NotAWordlist(readers: Readers, previous: Option<Database>, dir: string, files: map<string, TextFile>, meta: Metadata)
    requires meta.conformsTo.Some?
    ensures var i := ImportMetadata(readers, dir, files, meta);
            && (SecondPiece(meta.conformsTo.value, '#').None? ==>
                  i.Threw? && Recover(previous, dir, i.thrown, i.session) == Crashed(OutOfBounds))
            && (SecondPiece(meta.conformsTo.value, '#').Some? && SecondPiece(meta.conformsTo.value, '#').value != "Wordlist" ==>
                  i.Threw? && Recover(previous, dir, i.thrown, i.session) == Loaded(Fallback(previous, [Fatal("wordlist", dir)])))
  {
  }

  /**
   * Tables that all have a readable type but lack a form, language or
   * parameter table fail with `["else"]` before any reader runs:
   * `tables.get(-1)` is null.
   */
  lemma MissingRequiredTable(readers: Readers, dir: string, files: map<string, TextFile>, tables: seq<TableDesc>)
    requires Collect(TypesOf(tables)).Value?
    requires var types := Collect(TypesOf(tables)).value;
             "FormTable" !in types || "LanguageTable" !in types || "ParameterTable" !in types
    ensures ImportTables(readers, dir, files, tables) == Threw(NullPointer, FreshSession())
  {
    var types := Collect(TypesOf(tables)).value;
    var at := Locate(types);
    assert at.forms == -1 || at.languages == -1 || at.parameters == -1;
    UnlocatedRequiredTable(readers, dir, files, tables, types);
  }

  lemma UnlocatedRequiredTable(readers: Readers, dir: string, files: map<string, TextFile>, tables: seq<TableDesc>,
                               types: seq<string>)
    requires |types| == |tables|
    requires var at := Locate(types); at.forms == -1 || at.languages == -1 || at.parameters == -1
    ensures ImportWordlist(readers, dir, files, tables, types) == Threw(NullPointer, FreshSession())
  {
  }

  /** Without a cognate table or a cognate-set table, that table of the result is empty. */
  lemma OptionalTables(readers: Readers, dir: string, files: map<string, TextFile>, tables: seq<TableDesc>, at: Located,
                       required: Required, session: Session)
    requires -1 <= at.cognates < |tables| && -1 <= at.cognateSets < |tables|
    ensures var r := ReadOptional(readers, dir, files, tables, at, required, session);
            && (r.Done? && at.cognates == -1 ==> r.value.judgements == map[])
            && (r.Done? && at.cognateSets == -1 ==> r.value.cognateSets == map[])
  {
  }

  // ---------------------------------------------------------------------
  // What the readers leave in the static state
  // ---------------------------------------------------------------------

  /** A reader that leaves the form id maps as it found them. */
  ghost predicate KeepsIdMaps<T>(reader: (string, TextFile, map<string, string>, Session) -> Read<T>) {
    forall path, file, roles, s :: reader(path, file, roles, s).session.oldToNew == s.oldToNew
                                   && reader(path, file, roles, s).session.newToOld == s.newToOld
  }

  /** A reader that, when it returns, leaves `cognateIdMap` as it found it. */
  ghost predicate KeepsCognateIds<T>(reader: (string, TextFile, map<string, string>, Session) -> Read<T>) {
    forall path, file, roles, s :: reader(path, file, roles, s).Returned? ==>
                                     reader(path, file, roles, s).session.cognateIdMap == s.cognateIdMap
  }

  /** A reader that, when it returns, has cleared `cognateIdMap`. */
  ghost predicate ClearsCognateIds<T>(reader: (string, TextFile, map<string, string>, Session) -> Read<T>) {
    forall path, file, roles, s :: reader(path, file, roles, s).Returned? ==>
                                     reader(path, file, roles, s).session.cognateIdMap == map[]
  }

  /** A form reader whose forms all keep the empty single parameter id. */
  ghost predicate LeavesParameterEmpty(reader: (string, TextFile, map<string, string>, Session) -> Read<map<int, Form>>) {
    forall path, file, roles, s :: reader(path, file, roles, s).Returned? ==>
                                     NoParameter(reader(path, file, roles, s).table)
  }

  predicate NoParameter(forms: map<int, Form>) {
    forall k :: k in forms ==> forms[k].paramID == ""
  }

  /**
   * The readers of `CLDFImport`: only the form reader touches the form id
   * maps, only the cognate reader touches `cognateIdMap` (and clears it),
   * and no form gets a single parameter id.
   */
  lemma ImporterReadersState(parses: string -> bool)
    ensures var readers := ImporterReaders(parses);
            && KeepsIdMaps(readers.languages) && KeepsIdMaps(readers.parameters) && KeepsIdMaps(readers.cognates)
            && KeepsIdMaps(readers.cognateSets)
            && KeepsCognateIds(readers.forms) && KeepsCognateIds(readers.languages)
            && KeepsCognateIds(readers.parameters) && KeepsCognateIds(readers.cognateSets)
            && ClearsCognateIds(readers.cognates)
            && LeavesParameterEmpty(readers.forms)
  {
    var readers := ImporterReaders(parses);
    forall path, file, roles, s
      ensures readers.forms(path, file, roles, s).Returned? ==> NoParameter(readers.forms(path, file, roles, s).table)
    {
      FormTable.ReadFormsHaveNoParameter(path, file, roles, s);
    }
  }

  /** A table read that succeeded: the role map was built and the reader returned. */
  lemma ReadTableDone<T>(reader: (string, TextFile, map<string, string>, Session) -> Read<T>, dir: string,
                         files: map<string, TextFile>, tables: seq<TableDesc>, index: int, url: string, session: Session)
    requires 0 <= index < |tables|
    requires ReadTable(reader, dir, files, tables, index, url, session).Done?
    ensures RolesAt(tables, index).Value?
    ensures var path := PathOf(dir, url);
            var read := reader(path, FileAt(files, path), RolesAt(tables, index).value, session);
            read.Returned? && ReadTable(reader, dir, files, tables, index, url, session) == Done(read.table, read.session)
  {
  }

  /**
   * The required readers run in the order form, language, parameter, each
   * on the state the previous one left. When the language and parameter
   * readers keep the form id maps, the state handed on to the cognate
   * reader holds the maps the form reader built.
   */
  lemma FormIdsReachCognates(readers: Readers, dir: string, files: map<string, TextFile>, tables: seq<TableDesc>, at: Located,
                             formUrl: string, languageUrl: string, parameterUrl: string, session: Session)
    requires 0 <= at.forms < |tables| && 0 <= at.languages < |tables| && 0 <= at.parameters < |tables|
    requires KeepsIdMaps(readers.languages) && KeepsIdMaps(readers.parameters)
    requires ReadRequired(readers, dir, files, tables, at, formUrl, languageUrl, parameterUrl, session).Done?
    ensures var f := ReadTable(readers.forms, dir, files, tables, at.forms, formUrl, session);
            var r := ReadRequired(readers, dir, files, tables, at, formUrl, languageUrl, parameterUrl, session);
            && f.Done? && r.value.forms == f.value
            && r.session.oldToNew == f.session.oldToNew && r.session.newToOld == f.session.newToOld
  {
    var f := ReadTable(readers.forms, dir, files, tables, at.forms, formUrl, session);
    var l := ReadTable(readers.languages, dir, files, tables, at.languages, languageUrl, f.session);
    ReadTableDone(readers.languages, dir, files, tables, at.languages, languageUrl, f.session);
    var p := ReadTable(readers.parameters, dir, files, tables, at.parameters, parameterUrl, l.session);
    ReadTableDone(readers.parameters, dir, files, tables, at.parameters, parameterUrl, l.session);
  }

  /** A successful import went through the Wordlist branch with every table type readable. */
  lemma ImportDone(readers: Readers, dir: string, folder: Folder)
    requires Import(readers, dir, folder).Done?
    ensures folder.Folder? && folder.metadata.Json? && folder.metadata.meta.tables.Some?
    ensures var tables := folder.metadata.meta.tables.value;
            && Collect(TypesOf(tables)).Value?
            && Import(readers, dir, folder) == ImportWordlist(readers, dir, folder.files, tables, Collect(TypesOf(tables)).value)
  {
  }

  /**
   * A successful Wordlist import found the three required tables with their
   * urls, read them from the fresh state, then read the optional ones.
   */
  lemma WordlistDone(readers: Readers, dir: string, files: map<string, TextFile>, tables: seq<TableDesc>, types: seq<string>)
    requires |types| == |tables|
    requires ImportWordlist(readers, dir, files, tables, types).Done?
    ensures var at := Locate(types);
            && 0 <= at.forms < |tables| && 0 <= at.languages < |tables| && 0 <= at.parameters < |tables|
            && tables[at.forms].url.Some? && tables[at.languages].url.Some? && tables[at.parameters].url.Some?
            && var required := ReadRequired(readers, dir, files, tables, at, tables[at.forms].url.value,
                                            tables[at.languages].url.value, tables[at.parameters].url.value, FreshSession());
               && required.Done?
               && ImportWordlist(readers, dir, files, tables, types)
                  == ReadOptional(readers, dir, files, tables, at, required.value, required.session)
  {
  }

  /**
   * After a successful import the static form id map `formsOldToNew` is
   * empty again, and so is `cognateIdMap` when only the cognate reader
   * touches it.
   */
  lemma StaticMapsCleared(readers: Readers, dir: string, folder: Folder)
    requires KeepsCognateIds(readers.forms) && KeepsCognateIds(readers.languages)
    requires KeepsCognateIds(readers.parameters) && KeepsCognateIds(readers.cognateSets)
    requires ClearsCognateIds(readers.cognates)
    ensures var i := Import(readers, dir, folder);
            i.Done? ==> i.session.oldToNew == map[] && i.session.cognateIdMap == map[]
  {
    var i := Import(readers, dir, folder);
    if i.Done? {
      ImportDone(readers, dir, folder);
      var files, tables := folder.files, folder.metadata.meta.tables.value;
      var types := Collect(TypesOf(tables)).value;
      WordlistDone(readers, dir, files, tables, types);
      var at := Locate(types);
      var required := ReadRequired(readers, dir, files, tables, at, tables[at.forms].url.value,
                                   tables[at.languages].url.value, tables[at.parameters].url.value, FreshSession());
      RequiredKeepsCognateIds(readers, dir, files, tables, at, tables[at.forms].url.value,
                              tables[at.languages].url.value, tables[at.parameters].url.value, FreshSession());
      OptionalClearsCognateIds(readers, dir, files, tables, at, required.value, required.session);
    }
  }

  lemma RequiredKeepsCognateIds(readers: Readers, dir: string, files: map<string, TextFile>, tables: seq<TableDesc>,
                                at: Located, formUrl: string, languageUrl: string, parameterUrl: string, session: Session)
    requires 0 <= at.forms < |tables| && 0 <= at.languages < |tables| && 0 <= at.parameters < |tables|
    requires KeepsCognateIds(readers.forms) && KeepsCognateIds(readers.languages) && KeepsCognateIds(readers.parameters)
    requires ReadRequired(readers, dir, files, tables, at, formUrl, languageUrl, parameterUrl, session).Done?
    ensures ReadRequired(readers, dir, files, tables, at, formUrl, languageUrl, parameterUrl, session).session.cognateIdMap
            == session.cognateIdMap
  {
    var f := ReadTable(readers.forms, dir, files, tables, at.forms, formUrl, session);
    ReadTableDone(readers.forms, dir, files, tables, at.forms, formUrl, session);
    var l := ReadTable(readers.languages, dir, files, tables, at.languages, languageUrl, f.session);
    ReadTableDone(readers.languages, dir, files, tables, at.languages, languageUrl, f.session);
    ReadTableDone(readers.parameters, dir, files, tables, at.parameters, parameterUrl, l.session);
  }

  lemma OptionalClearsCognateIds(readers: Readers, dir: string, files: map<string, TextFile>, tables: seq<TableDesc>,
                                 at: Located, required: Required, session: Session)
    requires -1 <= at.cognates < |tables| && -1 <= at.cognateSets < |tables|
    requires KeepsCognateIds(readers.cognateSets) && ClearsCognateIds(readers.cognates)
    requires session.cognateIdMap == map[]
    requires ReadOptional(readers, dir, files, tables, at, required, session).Done?
    ensures var r := ReadOptional(readers, dir, files, tables, at, required, session);
            r.session.oldToNew == map[] && r.session.cognateIdMap == map[]
  {
    var c := ReadIfListed(readers.cognates, dir, files, tables, at.cognates, session);
    if at.cognates != -1 {
      ReadTableDone(readers.cognates, dir, files, tables, at.cognates, UrlAt(tables, at.cognates).value, session);
    }
    if at.cognateSets != -1 {
      ReadTableDone(readers.cognateSets, dir, files, tables, at.cognateSets, UrlAt(tables, at.cognateSets).value, c.session);
    }
  }

  /** When the form reader never sets a single parameter id, no form of a successful import has one. */
  lemma ImportedForms(readers: Readers, dir: string, folder: Folder)
    requires LeavesParameterEmpty(readers.forms)
    ensures var i := Import(readers, dir, folder);
            i.Done? ==> NoParameter(i.value.forms)
  {
    var i := Import(readers, dir, folder);
    if i.Done? {
      ImportDone(readers, dir, folder);
      var files, tables := folder.files, folder.metadata.meta.tables.value;
      var types := Collect(TypesOf(tables)).value;
      WordlistDone(readers, dir, files, tables, types);
      var at := Locate(types);
      var formUrl, languageUrl, parameterUrl := tables[at.forms].url.value, tables[at.languages].url.value, tables[at.parameters].url.value;
      var required := ReadRequired(readers, dir, files, tables, at, formUrl, languageUrl, parameterUrl, FreshSession());
      RequiredForms(readers, dir, files, tables, at, formUrl, languageUrl, parameterUrl, FreshSession());
      OptionalKeepsRequired(readers, dir, files, tables, at, required.value, required.session);
    }
  }

  lemma RequiredForms(readers: Readers, dir: string, files: map<string, TextFile>, tables: seq<TableDesc>, at: Located,
                      formUrl: string, languageUrl: string, parameterUrl: string, session: Session)
    requires 0 <= at.forms < |tables| && 0 <= at.languages < |tables| && 0 <= at.parameters < |tables|
    requires LeavesParameterEmpty(readers.forms)
    requires ReadRequired(readers, dir, files, tables, at, formUrl, languageUrl, parameterUrl, session).Done?
    ensures NoParameter(ReadRequired(readers, dir, files, tables, at, formUrl, languageUrl, parameterUrl, session).value.forms)
  {
    ReadTableDone(readers.forms, dir, files, tables, at.forms, formUrl, session);
  }

  lemma OptionalKeepsRequired(readers: Readers, dir: string, files: map<string, TextFile>, tables: seq<TableDesc>,
                              at: Located, required: Required, session: Session)
    requires -1 <= at.cognates < |tables| && -1 <= at.cognateSets < |tables|
    requires ReadOptional(readers, dir, files, tables, at, required, session).Done?
    ensures var r := ReadOptional(readers, dir, files, tables, at, required, session).value;
            r.forms == required.forms && r.languages == required.languages && r.parameters == required.parameters
  {
  }

  /** Forms without a parameter id cannot all find their parameter when none has the empty id. */
  lemma NoParameterNotConstructible(t: Tables)
    requires NoParameter(t.forms) && |t.forms| > 0 && !HasParameter(t.parameters, "")
    ensures !Constructible(t)
  {
    var k := SomeKey(t.forms);
    assert t.forms[k].paramID == "";
  }

  lemma SomeKey<V>(m: map<int, V>) returns (k: int)
    requires |m| > 0
    ensures k in m
  {
    if forall x :: x !in m {
      assert false;
    }
    k :| k in m;
  }

  /**
   * The importer never sets a form's single parameter id, so a successful
   * import with at least one form gives tables the constructor cannot
   * build from unless some parameter has the empty id: `loadDatabase`
   * then ends in the constructor's `NoSuchElementException`.
   */
  lemma FormsNeedEmptyParameter(dir: string, folder: Folder, parses: string -> bool)
    ensures var i := Import(ImporterReaders(parses), dir, folder);
            i.Done? && |i.value.forms| > 0 && !HasParameter(i.value.parameters, "") ==> !Constructible(i.value)
  {
    var readers := ImporterReaders(parses);
    ImporterReadersState(parses);
    ImportedForms(readers, dir, folder);
    var i := Import(readers, dir, folder);
    if i.Done? && |i.value.forms| > 0 && !HasParameter(i.value.parameters, "") {
      NoParameterNotConstructible(i.value);
    }
  }
}
