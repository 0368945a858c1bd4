/**
 * `CLDFImport.readParameterCsv`: the parameter (concept) table, keyed by
 * the id cell. The header is lower-cased before it is split, and so are
 * the mapped column names it is searched for; an unmapped `id` role is a
 * `NullPointerException` that escapes the reader.
 */
module ParameterTable {
  import opened JavaStrings
  import opened ImportCommon
  import CsvParser
  import opened ParameterRecord

  datatype Layout = Layout(
    columns: seq<string>,
    idIdx: int, nameIdx: int, concIdx: int, concepticonIdx: int, semField: int,
    remained: seq<int>)

  /** Every index is -1 or a header position. */
  predicate ValidLayout(L: Layout) {
    && -1 <= L.idIdx < |L.columns| && -1 <= L.nameIdx < |L.columns|
    && -1 <= L.concIdx < |L.columns| && -1 <= L.concepticonIdx < |L.columns|
    && -1 <= L.semField < |L.columns|
    && (forall j :: 0 <= j < |L.remained| ==> 0 <= L.remained[j] < |L.columns|)
  }

  /** `containsKey(role) ? columns.indexOf(get(role).toLowerCase()) : -1`. */
  function LowerRoleIndex(columns: seq<string>, roles: map<string, string>, role: string): (r: int)
    ensures -1 <= r < |columns|
    ensures r >= 0 ==> role in roles && columns[r] == ToLower(roles[role])
    ensures r == -1 <==> role !in roles || ToLower(roles[role]) !in columns
  {
    if role in roles then IndexOf(columns, ToLower(roles[role])) else -1
  }

  /**
   * The concept gloss column: `concepticon_proposed` if the header has it,
   * else `concepticon_gloss`, else `concepticon`, else none.
   */
  function ConcepticonIndex(columns: seq<string>): (r: int)
    ensures -1 <= r < |columns|
    ensures r == -1 <==> "concepticon_proposed" !in columns && "concepticon_gloss" !in columns && "concepticon" !in columns
    ensures "concepticon_proposed" in columns ==> r >= 0 && columns[r] == "concepticon_proposed"
    ensures "concepticon_proposed" !in columns && "concepticon_gloss" in columns ==> r >= 0 && columns[r] == "concepticon_gloss"
    ensures "concepticon_proposed" !in columns && "concepticon_gloss" !in columns && "concepticon" in columns ==>
              r >= 0 && columns[r] == "concepticon"
  {
    if "concepticon_proposed" in columns then IndexOf(columns, "concepticon_proposed")
    else if "concepticon_gloss" in columns then IndexOf(columns, "concepticon_gloss")
    else if "concepticon" in columns then IndexOf(columns, "concepticon")
    else -1
  }

  /** The header handling of `readParameterCsv`, given that the `id` role is mapped. */
  function LayoutOf(header: string, roles: map<string, string>): (L: Layout)
    requires "id" in roles
    ensures ValidLayout(L)
    ensures L.columns == JavaSplit(ToLower(header), ',')
    ensures L.idIdx == IndexOf(L.columns, ToLower(roles["id"]))
    ensures L.nameIdx == LowerRoleIndex(L.columns, roles, "name")
    ensures L.concIdx == LowerRoleIndex(L.columns, roles, "concepticonReference")
    ensures L.concepticonIdx == ConcepticonIndex(L.columns)
    ensures L.semField == IndexOf(L.columns, "semantic_field")
    ensures forall k :: k in L.remained <==>
              0 <= k < |L.columns| && k !in [L.idIdx, L.nameIdx, L.concIdx, L.concepticonIdx, L.semField]
  {
    var columns := JavaSplit(ToLower(header), ',');
    var idIdx := IndexOf(columns, ToLower(roles["id"]));
    var nameIdx := LowerRoleIndex(columns, roles, "name");
    var concIdx := LowerRoleIndex(columns, roles, "concepticonReference");
    var semField := IndexOf(columns, "semantic_field");
    var concepticonIdx := ConcepticonIndex(columns);
    var used := [idIdx, nameIdx, concIdx, concepticonIdx, semField];
    Layout(columns, idIdx, nameIdx, concIdx, concepticonIdx, semField, RemainedColumns(|columns|, used))
  }

  /** Whether a row gets through: as many cells as header columns, and an id column. */
  predicate RowOk(L: Layout, fields: seq<string>) {
    ValidLayout(L) && |fields| == |L.columns| && L.idIdx != -1
  }

  /** The record one accepted row fills. */
  function BuildParameter(L: Layout, fields: seq<string>): (p: Parameter)
    requires RowOk(L, fields)
    ensures p.paramID == fields[L.idIdx]
    ensures p.name == (if L.nameIdx == -1 then "" else fields[L.nameIdx])
    ensures p.concepticonID == (if L.concIdx == -1 then "" else fields[L.concIdx])
    ensures p.concepticon == (if L.concepticonIdx == -1 then "" else fields[L.concepticonIdx])
    ensures p.semField == (if L.semField == -1 then "" else fields[L.semField])
    ensures p.properties == PropertiesOf(L.columns, fields, L.remained)
  {
    var p0 := SetParamID(NewParameter(), fields[L.idIdx]);
    var p1 := if L.nameIdx != -1 then SetName(p0, fields[L.nameIdx]) else p0;
    var p2 := if L.concIdx != -1 then SetConcepticonID(p1, fields[L.concIdx]) else p1;
    var p3 := if L.concepticonIdx != -1 then SetConcepticon(p2, fields[L.concepticonIdx]) else p2;
    var p4 := if L.semField != -1 then SetSemanticField(p3, fields[L.semField]) else p3;
    SetProperties(p4, PropertiesOf(L.columns, fields, L.remained))
  }

  /** One data row: stored under its id cell, or rejected. */
  function RowOutcome(L: Layout, line: string): Outcome<Parameter> {
    var fields := CsvParser.GetColumns(line);
    if RowOk(L, fields) then Stored(fields[L.idIdx], BuildParameter(L, fields)) else Rejected
  }

  /** The row logic of one layout, as the loop applies it to each data line. */
  function RowsOf(L: Layout): string -> Outcome<Parameter> {
    line => RowOutcome(L, line)
  }

  /**
   * `readParameterCsv`: a missing file gives an empty table; an empty
   * file, or no `id` role, lets a `NullPointerException` escape.
   */
  function ReadParameterCsv(path: string, file: TextFile, roles: map<string, string>, session: Session)
    : (r: Read<map<string, Parameter>>)
    ensures file.Missing? ==> r == Returned(map[], session)
    ensures file.Lines? ==> (r.Escaped? <==> |file.lines| == 0 || "id" !in roles)
    ensures r.Escaped? ==> r.session == session
    ensures r.Returned? ==> r.session == session.(exceptions := r.session.exceptions)
  {
    match file
    case Missing => Returned(map[], session)
    case Lines(lines) =>
      if |lines| == 0 || "id" !in roles then Escaped(session)
      else
        var L := LayoutOf(lines[0], roles);
        var st := Fold(RowsOf(L), path, lines[1..], Keyed(map[], 1, session.exceptions));
        Returned(st.table, session.(exceptions := st.exceptions))
  }

  /** Every id of an accepted row, with the last such row's record; one row entry per rejected row. */
  lemma ReadParameterCsvSpec(path: string, lines: seq<string>, roles: map<string, string>, session: Session)
    requires |lines| > 0 && "id" in roles
    ensures var r := ReadParameterCsv(path, Lines(lines), roles, session);
            var outcomes := OutcomesOf(RowsOf(LayoutOf(lines[0], roles)), lines[1..]);
            var base := session.exceptions;
            && r.Returned?
            && StoresLast(outcomes, r.table)
            && |base| <= |r.session.exceptions| && r.session.exceptions[..|base|] == base
            && ReportsRejected(path, lines[1..], outcomes, r.session.exceptions[|base|..])
  {
    var row := RowsOf(LayoutOf(lines[0], roles));
    var st := Fold(row, path, lines[1..], Keyed(map[], 1, session.exceptions));
    FoldSpec(row, path, lines[1..], session.exceptions);
    assert ReadParameterCsv(path, Lines(lines), roles, session) == Returned(st.table, session.(exceptions := st.exceptions));
  }

  /** Only the lower-cased header matters: headers that differ in the case of ASCII letters read alike. */
  lemma HeaderCaseIgnored(header: string, other: string, roles: map<string, string>)
    requires "id" in roles && ToLower(header) == ToLower(other)
    ensures LayoutOf(header, roles) == LayoutOf(other, roles)
  {
  }
}
