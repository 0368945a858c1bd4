/**
 * `CLDFImport.readLanguageCsv`: the language table, keyed by the id cell.
 * Latitude and longitude fall back to header columns literally named
 * `latitude`/`longitude`; the longitude is tested against the *latitude*
 * cell; the `Family` column is read but, missing from `usedColumns`, also
 * lands in `properties`; the `macroarea` column is resolved and then
 * dropped. `parses` stands for whether `Float.parseFloat` accepts a cell.
 */
module LanguageTable {
  import opened Wrappers
  import opened JavaStrings
  import opened ImportCommon
  import CsvParser
  import opened LanguageRecord

  /** The header columns and the indices resolved from them, -1 for a column that is not there. */
  datatype Layout = Layout(
    columns: seq<string>,
    idIdx: int, isoIdx: int, glottoIdx: int, macroaIdx: int, nameIdx: int,
    familyIdx: int, latitIdx: int, longitIdx: int,
    remained: seq<int>)

  /** Every index is -1 or a header position; these are the bounds of every `column[...]` access. */
  predicate ValidLayout(L: Layout) {
    && -1 <= L.idIdx < |L.columns| && -1 <= L.isoIdx < |L.columns|
    && -1 <= L.glottoIdx < |L.columns| && -1 <= L.macroaIdx < |L.columns|
    && -1 <= L.nameIdx < |L.columns| && -1 <= L.familyIdx < |L.columns|
    && -1 <= L.latitIdx < |L.columns| && -1 <= L.longitIdx < |L.columns|
    && (forall j :: 0 <= j < |L.remained| ==> 0 <= L.remained[j] < |L.columns|)
  }

  /** The column a coordinate is read from: the mapped one, else a header column literally named so. */
  function CoordinateIndex(columns: seq<string>, roles: map<string, string>, role: string): (r: int)
    ensures -1 <= r < |columns|
    ensures RoleIndex(columns, roles, role) >= 0 ==> r == RoleIndex(columns, roles, role)
    ensures RoleIndex(columns, roles, role) == -1 ==> r == IndexOf(columns, role)
  {
    var mapped := RoleIndex(columns, roles, role);
    if mapped == -1 && role in columns then IndexOf(columns, role) else mapped
  }

  /** The header handling of `readLanguageCsv`, up to `remainedColumns`. */
  function LayoutOf(header: string, roles: map<string, string>): (L: Layout)
    ensures ValidLayout(L)
    ensures L.columns == JavaSplit(header, ',')
    ensures L.idIdx == RoleIndex(L.columns, roles, "id")
    ensures L.isoIdx == RoleIndex(L.columns, roles, "iso639P3code")
    ensures L.glottoIdx == RoleIndex(L.columns, roles, "glottocode")
    ensures L.macroaIdx == RoleIndex(L.columns, roles, "macroarea")
    ensures L.nameIdx == RoleIndex(L.columns, roles, "name")
    ensures L.familyIdx == RoleIndex(L.columns, roles, "Family")
    ensures L.latitIdx == CoordinateIndex(L.columns, roles, "latitude")
    ensures L.longitIdx == CoordinateIndex(L.columns, roles, "longitude")
    ensures forall k :: k in L.remained <==>
              && 0 <= k < |L.columns|
              && k !in [L.idIdx, L.isoIdx, L.glottoIdx, L.macroaIdx, L.latitIdx, L.longitIdx, L.nameIdx]
  {
    var columns := JavaSplit(header, ',');
    var idIdx := RoleIndex(columns, roles, "id");
    var isoIdx := RoleIndex(columns, roles, "iso639P3code");
    var glottoIdx := RoleIndex(columns, roles, "glottocode");
    var macroaIdx := RoleIndex(columns, roles, "macroarea");
    var nameIdx := RoleIndex(columns, roles, "name");
    var familyIdx := RoleIndex(columns, roles, "Family");
    var latitIdx := CoordinateIndex(columns, roles, "latitude");
    var longitIdx := CoordinateIndex(columns, roles, "longitude");
    var used := [idIdx, isoIdx, glottoIdx, macroaIdx, latitIdx, longitIdx, nameIdx];
    Layout(columns, idIdx, isoIdx, glottoIdx, macroaIdx, nameIdx, familyIdx, latitIdx, longitIdx,
           RemainedColumns(|columns|, used))
  }

  /**
   * Whether a row gets through: as many cells as header columns, an id
   * column, a parseable or empty latitude, and for the longitude a
   * latitude column (its cell is the one tested for emptiness) and, when
   * that cell is not empty, a parseable longitude.
   */
  predicate RowOk(L: Layout, parses: string -> bool, fields: seq<string>) {
    && ValidLayout(L) && |fields| == |L.columns| && L.idIdx != -1
    && (L.latitIdx != -1 ==> fields[L.latitIdx] == "" || parses(fields[L.latitIdx]))
    && (L.longitIdx != -1 ==> L.latitIdx != -1 && (fields[L.latitIdx] == "" || parses(fields[L.longitIdx])))
  }

  /** The record one accepted row fills, setter by setter. */
  function BuildLanguage(L: Layout, parses: string -> bool, fields: seq<string>): (l: Language)
    requires RowOk(L, parses, fields)
    ensures l.langID == fields[L.idIdx]
    ensures l.iso == (if L.isoIdx == -1 then "" else fields[L.isoIdx])
    ensures l.glottocode == (if L.glottoIdx == -1 then "" else fields[L.glottoIdx])
    ensures l.name == (if L.nameIdx == -1 then "" else fields[L.nameIdx])
    ensures l.family == (if L.familyIdx == -1 then None else Some(fields[L.familyIdx]))
    ensures L.latitIdx == -1 || fields[L.latitIdx] == "" ==> l.latitude == NaN && l.longitude == NaN
    ensures L.latitIdx != -1 && fields[L.latitIdx] != "" ==> l.latitude == Parsed(fields[L.latitIdx])
    ensures L.longitIdx != -1 && fields[L.latitIdx] != "" ==> l.longitude == Parsed(fields[L.longitIdx])
    ensures L.longitIdx == -1 ==> l.longitude == NaN
    ensures l.properties == PropertiesOf(L.columns, fields, L.remained)
  {
    var l0 := SetLangID(NewLanguage(), fields[L.idIdx]);
    var l1 := if L.isoIdx != -1 then SetIso(l0, fields[L.isoIdx]) else l0;
    var l2 := if L.glottoIdx != -1 then SetGlottocode(l1, fields[L.glottoIdx]) else l1;
    var l3 := if L.nameIdx != -1 then SetName(l2, fields[L.nameIdx]) else l2;
    var l4 := if L.familyIdx != -1 then SetFamily(l3, fields[L.familyIdx]) else l3;
    var l5 :=
      if L.latitIdx != -1 then
        SetLatitude(l4, if fields[L.latitIdx] == "" then NaN else Parsed(fields[L.latitIdx]))
      else l4;
    var l6 :=
      if L.longitIdx != -1 then
        SetLongitude(l5, if fields[L.latitIdx] == "" then NaN else Parsed(fields[L.longitIdx]))
      else l5;
    SetProperties(l6, PropertiesOf(L.columns, fields, L.remained))
  }

  /** One data row: stored under its id cell, or rejected (the `catch (Exception e)` of the loop). */
  function RowOutcome(L: Layout, parses: string -> bool, line: string): Outcome<Language> {
    var fields := CsvParser.GetColumns(line);
    if RowOk(L, parses, fields) then Stored(fields[L.idIdx], BuildLanguage(L, parses, fields))
    else Rejected
  }

  /** The row logic of one layout, as the loop applies it to each data line. */
  function RowsOf(L: Layout, parses: string -> bool): string -> Outcome<Language> {
    line => RowOutcome(L, parses, line)
  }

  /**
   * `readLanguageCsv`: a missing file gives an empty table (the
   * `IOException` is caught inside); an empty file lets the null header's
   * `NullPointerException` escape.
   */
  function ReadLanguageCsv(path: string, file: TextFile, roles: map<string, string>,
                           parses: string -> bool, session: Session): (r: Read<map<string, Language>>)
    ensures file.Missing? ==> r == Returned(map[], session)
    ensures file.Lines? && |file.lines| == 0 ==> r == Escaped(session)
    ensures r.Escaped? ==> r.session == session
    ensures r.Returned? ==> r.session == session.(exceptions := r.session.exceptions)
  {
    match file
    case Missing => Returned(map[], session)
    case Lines(lines) =>
      if |lines| == 0 then Escaped(session)
      else
        var L := LayoutOf(lines[0], roles);
        var st := Fold(RowsOf(L, parses), path, lines[1..], Keyed(map[], 1, session.exceptions));
        Returned(st.table, session.(exceptions := st.exceptions))
  }

  /**
   * What the table and the exception list hold after reading a file: every
   * id of an accepted row, with the record of the last accepted row
   * carrying it, and one row entry per rejected row.
   */
  lemma ReadLanguageCsvSpec(path: string, lines: seq<string>, roles: map<string, string>,
                            parses: string -> bool, session: Session)
    requires |lines| > 0
    ensures var r := ReadLanguageCsv(path, Lines(lines), roles, parses, session);
            var outcomes := OutcomesOf(RowsOf(LayoutOf(lines[0], roles), parses), lines[1..]);
            var base := session.exceptions;
            && r.Returned?
            && StoresLast(outcomes, r.table)
            && |base| <= |r.session.exceptions| && r.session.exceptions[..|base|] == base
            && ReportsRejected(path, lines[1..], outcomes, r.session.exceptions[|base|..])
  {
    var row := RowsOf(LayoutOf(lines[0], roles), parses);
    var st := Fold(row, path, lines[1..], Keyed(map[], 1, session.exceptions));
    FoldSpec(row, path, lines[1..], session.exceptions);
    assert ReadLanguageCsv(path, Lines(lines), roles, parses, session) == Returned(st.table, session.(exceptions := st.exceptions));
  }

  /** Without an id column every data row is rejected and the table stays empty. */
  lemma NoIdColumnRejectsAll(L: Layout, parses: string -> bool, line: string)
    requires L.idIdx == -1
    ensures RowOutcome(L, parses, line).Rejected?
  {
  }

  /** A row whose latitude cell is empty gets NaN for both coordinates, whatever its longitude cell holds. */
  lemma EmptyLatitudeMeansNoLongitude(L: Layout, parses: string -> bool, line: string)
    requires ValidLayout(L) && L.idIdx != -1 && L.latitIdx != -1
    requires |CsvParser.GetColumns(line)| == |L.columns|
    requires CsvParser.GetColumns(line)[L.latitIdx] == ""
    ensures RowOutcome(L, parses, line).Stored?
    ensures RowOutcome(L, parses, line).value.latitude == NaN
    ensures RowOutcome(L, parses, line).value.longitude == NaN
  {
  }

  /** A longitude column without any latitude column rejects every row (the `column[-1]` access). */
  lemma LongitudeWithoutLatitudeRejects(L: Layout, parses: string -> bool, line: string)
    requires L.longitIdx != -1 && L.latitIdx == -1
    ensures RowOutcome(L, parses, line).Rejected?
  {
  }

  /** The family cell is both the `family` field and, under its header text, a property. */
  lemma FamilyAlsoAProperty(header: string, roles: map<string, string>, parses: string -> bool, line: string)
    requires var L := LayoutOf(header, roles);
             && L.familyIdx != -1 && RowOk(L, parses, CsvParser.GetColumns(line))
             && L.familyIdx !in [L.idIdx, L.isoIdx, L.glottoIdx, L.macroaIdx, L.latitIdx, L.longitIdx, L.nameIdx]
    ensures var L := LayoutOf(header, roles);
            var fields := CsvParser.GetColumns(line);
            var l := RowOutcome(L, parses, line).value;
            && RowOutcome(L, parses, line).Stored?
            && l.family == Some(fields[L.familyIdx])
            && L.columns[L.familyIdx] in l.properties
  {
    var L := LayoutOf(header, roles);
    var fields := CsvParser.GetColumns(line);
    assert L.familyIdx in L.remained;
    var j :| 0 <= j < |L.remained| && L.remained[j] == L.familyIdx;
    assert LastNamed(L.columns, L.remained, L.columns[L.familyIdx]) >= j;
  }
}
