/**
 * `CLDFImport.readCognateSetCsv`: the cognate-set table, keyed by the id
 * cell, with the source cell split at `;` into the list of sources.
 */
module CognatesetTable {
  import opened JavaStrings
  import opened ImportCommon
  import CsvParser
  import opened CognateSetRecord

  datatype Layout = Layout(columns: seq<string>, idIdx: int, descriptionIdx: int, sourceIdx: int)

  predicate ValidLayout(L: Layout) {
    -1 <= L.idIdx < |L.columns| && -1 <= L.descriptionIdx < |L.columns| && -1 <= L.sourceIdx < |L.columns|
  }

  function LayoutOf(header: string, roles: map<string, string>): (L: Layout)
    ensures ValidLayout(L)
    ensures L.columns == JavaSplit(header, ',')
    ensures L.idIdx == RoleIndex(L.columns, roles, "id")
    ensures L.descriptionIdx == RoleIndex(L.columns, roles, "description")
    ensures L.sourceIdx == RoleIndex(L.columns, roles, "source")
  {
    var columns := JavaSplit(header, ',');
    Layout(columns, RoleIndex(columns, roles, "id"), RoleIndex(columns, roles, "description"),
           RoleIndex(columns, roles, "source"))
  }

  predicate RowOk(L: Layout, fields: seq<string>) {
    ValidLayout(L) && |fields| == |L.columns| && L.idIdx != -1
  }

  /** The record one accepted row fills; the sources are the `split(";")` of the source cell. */
  function BuildCognateSet(L: Layout, fields: seq<string>): (c: CognateSet)
    requires RowOk(L, fields)
    ensures c.cogsetID == fields[L.idIdx]
    ensures c.description == (if L.descriptionIdx == -1 then "" else fields[L.descriptionIdx])
    ensures c.sources == (if L.sourceIdx == -1 then [] else JavaSplit(fields[L.sourceIdx], ';'))
  {
    var c0 := SetCogsetID(NewCognateSet(), fields[L.idIdx]);
    var c1 := if L.descriptionIdx != -1 then SetDescription(c0, fields[L.descriptionIdx]) else c0;
    if L.sourceIdx != -1 then SetSources(c1, JavaSplit(fields[L.sourceIdx], ';')) else c1
  }

  function RowOutcome(L: Layout, line: string): Outcome<CognateSet> {
    var fields := CsvParser.GetColumns(line);
    if RowOk(L, fields) then Stored(fields[L.idIdx], BuildCognateSet(L, fields)) else Rejected
  }

  /** The row logic of one layout, as the loop applies it to each data line. */
  function RowsOf(L: Layout): string -> Outcome<CognateSet> {
    line => RowOutcome(L, line)
  }

  /** `readCognateSetCsv`: a missing file gives an empty table; an empty file escapes. */
  function ReadCognateSetCsv(path: string, file: TextFile, roles: map<string, string>, session: Session)
    : (r: Read<map<string, CognateSet>>)
    ensures file.Missing? ==> r == Returned(map[], session)
    ensures file.Lines? && |file.lines| == 0 ==> r == Escaped(session)
    ensures r.Escaped? ==> r.session == session
    ensures r.Returned? ==> r.session == session.(exceptions := r.session.exceptions)
  {
    match file
    case Missing => Returned(map[], session)
    case Lines(lines) =>
      if |lines| == 0 then Escaped(session)
      else
        var L := LayoutOf(lines[0], roles);
        var st := Fold(RowsOf(L), path, lines[1..], Keyed(map[], 1, session.exceptions));
        Returned(st.table, session.(exceptions := st.exceptions))
  }

  /** Every id of an accepted row, with the last such row's record; one row entry per rejected row. */
  lemma ReadCognateSetCsvSpec(path: string, lines: seq<string>, roles: map<string, string>, session: Session)
    requires |lines| > 0
    ensures var r := ReadCognateSetCsv(path, Lines(lines), roles, session);
            var outcomes := OutcomesOf(RowsOf(LayoutOf(lines[0], roles)), lines[1..]);
            var base := session.exceptions;
            && r.Returned?
            && StoresLast(outcomes, r.table)
            && |base| <= |r.session.exceptions| && r.session.exceptions[..|base|] == base
            && ReportsRejected(path, lines[1..], outcomes, r.session.exceptions[|base|..])
  {
    var row := RowsOf(LayoutOf(lines[0], roles));
    var st := Fold(row, path, lines[1..], Keyed(map[], 1, session.exceptions));
    FoldSpec(row, path, lines[1..], session.exceptions);
    assert ReadCognateSetCsv(path, Lines(lines), roles, session) == Returned(st.table, session.(exceptions := st.exceptions));
  }

  /** The sources, joined back with `;`, give the source cell, unless the cell ends in `;`. */
  lemma SourcesRejoin(L: Layout, fields: seq<string>)
    requires RowOk(L, fields) && L.sourceIdx != -1
    requires var cell := fields[L.sourceIdx]; |cell| == 0 || cell[|cell| - 1] != ';'
    ensures Join(BuildCognateSet(L, fields).sources, ';') == fields[L.sourceIdx]
  {
    var cell := fields[L.sourceIdx];
    if ';' in cell {
      JoinSplitAll(cell, ';');
      LastPieceNotEmpty(cell, ';');
      assert JavaSplit(cell, ';') == SplitAll(cell, ';');
    }
  }
}
