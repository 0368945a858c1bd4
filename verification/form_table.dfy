/**
 * `CLDFImport.readFormCsv`: the form table, keyed by dense ids 0, 1, ...
 * given to accepted rows in file order, with the external id cell recorded
 * in the static `formsOldToNew`/`formsNewToOld` maps. The form and segment
 * cells go through `IPAFormCanonization.process`.
 */
module FormTable {
  import opened Wrappers
  import opened JavaStrings
  import opened ImportCommon
  import CsvParser
  import IpaCanonization
  import opened FormRecord

  datatype Layout = Layout(
    columns: seq<string>,
    idIdx: int, langIdx: int, paramIdx: int,
    formIdx: int, valueIdx: int, commentIdx: int, segmentsIdx: int, orthoIdx: int,
    remained: seq<int>)

  /** Every index is -1 or a header position. */
  predicate ValidLayout(L: Layout) {
    && -1 <= L.idIdx < |L.columns| && -1 <= L.langIdx < |L.columns| && -1 <= L.paramIdx < |L.columns|
    && -1 <= L.formIdx < |L.columns| && -1 <= L.valueIdx < |L.columns| && -1 <= L.commentIdx < |L.columns|
    && -1 <= L.segmentsIdx < |L.columns| && -1 <= L.orthoIdx < |L.columns|
    && (forall j :: 0 <= j < |L.remained| ==> 0 <= L.remained[j] < |L.columns|)
  }

  /** The three columns a form row cannot do without were all found. */
  predicate HasRequired(L: Layout) {
    L.idIdx != -1 && L.langIdx != -1 && L.paramIdx != -1
  }

  /**
   * The header handling of `readFormCsv`: the value column is mapped as
   * `Value` or else `value`; the orthography as `Orthography` or else
   * `Local_Orthography`.
   */
  function LayoutOf(header: string, roles: map<string, string>): (L: Layout)
    ensures ValidLayout(L)
    ensures L.columns == JavaSplit(header, ',')
    ensures L.idIdx == RoleIndex(L.columns, roles, "id")
    ensures L.langIdx == RoleIndex(L.columns, roles, "languageReference")
    ensures L.paramIdx == RoleIndex(L.columns, roles, "parameterReference")
    ensures L.formIdx == RoleIndex(L.columns, roles, "form")
    ensures L.commentIdx == RoleIndex(L.columns, roles, "comment")
    ensures L.segmentsIdx == RoleIndex(L.columns, roles, "segments")
    ensures L.valueIdx == RoleIndex(L.columns, roles, if "Value" in roles then "Value" else "value")
    ensures "Orthography" in roles ==> L.orthoIdx == RoleIndex(L.columns, roles, "Orthography")
    ensures "Orthography" !in roles ==> L.orthoIdx == RoleIndex(L.columns, roles, "Local_Orthography")
    ensures forall k :: k in L.remained <==>
              && 0 <= k < |L.columns|
              && k !in [L.idIdx, L.langIdx, L.paramIdx, L.formIdx, L.valueIdx, L.commentIdx, L.segmentsIdx, L.orthoIdx]
  {
    var columns := JavaSplit(header, ',');
    var value := if "Value" in roles then "Value" else "value";
    var idIdx := RoleIndex(columns, roles, "id");
    var langIdx := RoleIndex(columns, roles, "languageReference");
    var paramIdx := RoleIndex(columns, roles, "parameterReference");
    var formIdx := RoleIndex(columns, roles, "form");
    var valueIdx := RoleIndex(columns, roles, value);
    var commentIdx := RoleIndex(columns, roles, "comment");
    var segmentsIdx := RoleIndex(columns, roles, "segments");
    var orthoIdx :=
      if "Orthography" in roles then RoleIndex(columns, roles, "Orthography")
      else RoleIndex(columns, roles, "Local_Orthography");
    var used := [idIdx, langIdx, paramIdx, formIdx, valueIdx, commentIdx, segmentsIdx, orthoIdx];
    Layout(columns, idIdx, langIdx, paramIdx, formIdx, valueIdx, commentIdx, segmentsIdx, orthoIdx,
           RemainedColumns(|columns|, used))
  }

  /** The row has as many cells as the header has columns. */
  predicate WellSized(L: Layout, fields: seq<string>) {
    ValidLayout(L) && |fields| == |L.columns|
  }

  /** Whether a row gets stored. */
  predicate RowOk(L: Layout, fields: seq<string>) {
    WellSized(L, fields) && HasRequired(L)
  }

  /** The record an accepted row fills, with dense id `id`. */
  function BuildForm(L: Layout, fields: seq<string>, id: int): (f: Form)
    requires RowOk(L, fields)
    ensures f.id == id
    ensures f.langID == fields[L.langIdx]
    ensures f.paramIDs == JavaSplit(fields[L.paramIdx], ';')
    ensures f.form == (if L.formIdx == -1 then "" else IpaCanonization.Process(fields[L.formIdx]))
    ensures IpaCanonization.Clean(f.form)
    ensures f.origValue == (if L.valueIdx == -1 then "" else fields[L.valueIdx])
    ensures f.comment == (if L.commentIdx == -1 then "" else fields[L.commentIdx])
    ensures f.segments ==
              (if L.segmentsIdx == -1 then None
               else Some(JavaSplit(IpaCanonization.Process(fields[L.segmentsIdx]), ' ')))
    ensures f.orthography == (if L.orthoIdx == -1 then "" else fields[L.orthoIdx])
    ensures f.properties == PropertiesOf(L.columns, fields, L.remained)
    ensures f.paramID == "" && f.iso == "" && f.concepticon == ""
  {
    Form(
      id := id,
      langID := fields[L.langIdx],
      paramIDs := JavaSplit(fields[L.paramIdx], ';'),
      form := if L.formIdx == -1 then "" else IpaCanonization.Process(fields[L.formIdx]),
      origValue := if L.valueIdx == -1 then "" else fields[L.valueIdx],
      comment := if L.commentIdx == -1 then "" else fields[L.commentIdx],
      orthography := if L.orthoIdx == -1 then "" else fields[L.orthoIdx],
      properties := PropertiesOf(L.columns, fields, L.remained),
      segments :=
        if L.segmentsIdx == -1 then None
        else Some(JavaSplit(IpaCanonization.Process(fields[L.segmentsIdx]), ' ')),
      paramID := "", iso := "", concepticon := "")
  }

  /** What one data line does to the loop: nothing but a row entry, an id-map entry and a row entry, or a stored form. */
  datatype Decision =
    | Skip
    | MapOnly(ext: string)
    | Keep(ext: string, record: int -> Form)

  /**
   * The row logic of `readFormCsv`. A row of the wrong size, or one read
   * while the id column is missing, fails before the id maps are touched;
   * a row read while the language or parameter column is missing fails
   * after both `put`s; any other row is stored.
   */
  function Decide(L: Layout, line: string): (d: Decision)
    ensures var fields := CsvParser.GetColumns(line);
            && (d.Skip? <==> !WellSized(L, fields) || L.idIdx == -1)
            && (d.MapOnly? <==> WellSized(L, fields) && L.idIdx != -1 && !HasRequired(L))
            && (d.Keep? <==> RowOk(L, fields))
            && (!d.Skip? ==> d.ext == fields[L.idIdx])
  {
    var fields := CsvParser.GetColumns(line);
    if !WellSized(L, fields) || L.idIdx == -1 then Skip
    else if L.langIdx == -1 || L.paramIdx == -1 then MapOnly(fields[L.idIdx])
    else Keep(fields[L.idIdx], (id: int) => BuildForm(L, fields, id))
  }

  /** A stored row's record, given the id it is stored under, is the one `BuildForm` fills. */
  lemma DecideRecord(L: Layout, line: string, id: int)
    requires Decide(L, line).Keep?
    ensures RowOk(L, CsvParser.GetColumns(line))
    ensures Decide(L, line).record(id) == BuildForm(L, CsvParser.GetColumns(line), id)
  {
  }

  /** The loop state of `readFormCsv`: the table, `formID`, `i`, and the static fields. */
  datatype Reader = Reader(table: map<int, Form>, formID: int, i: int, session: Session)

  /** The state `readFormCsv` starts its loop in. */
  function Start(session: Session): Reader {
    Reader(map[], 0, 1, session)
  }

  /** One pass of the loop, `i++` included. */
  function FormLine(path: string, st: Reader, line: string, d: Decision): (r: Reader)
    ensures r.i == st.i + 1
    ensures r.session.cognateIdMap == st.session.cognateIdMap
    ensures d.Keep? ==> r.table == st.table[st.formID := d.record(st.formID)] && r.formID == st.formID + 1
    ensures !d.Keep? ==> r.table == st.table && r.formID == st.formID
    ensures r.session.exceptions
            == st.session.exceptions + (if d.Keep? then [] else [RowError(path, st.i, line)])
    ensures !d.Skip? ==> && r.session.oldToNew == st.session.oldToNew[d.ext := st.formID]
                         && r.session.newToOld == st.session.newToOld[st.formID := d.ext]
    ensures d.Skip? ==> r.session.oldToNew == st.session.oldToNew && r.session.newToOld == st.session.newToOld
  {
    var rejected := st.session.exceptions + [RowError(path, st.i, line)];
    match d
    case Skip =>
      st.(i := st.i + 1, session := st.session.(exceptions := rejected))
    case MapOnly(ext) =>
      st.(i := st.i + 1,
          session := st.session.(oldToNew := st.session.oldToNew[ext := st.formID],
                                 newToOld := st.session.newToOld[st.formID := ext],
                                 exceptions := rejected))
    case Keep(ext, record) =>
      Reader(st.table[st.formID := record(st.formID)], st.formID + 1, st.i + 1,
             st.session.(oldToNew := st.session.oldToNew[ext := st.formID],
                         newToOld := st.session.newToOld[st.formID := ext]))
  }

  /** The loop over the data lines read so far, each decided by `decide`. */
  function FormLines(decide: string -> Decision, path: string, lines: seq<string>, st: Reader): (r: Reader)
    ensures r.i == st.i + |lines|
    ensures r.session.cognateIdMap == st.session.cognateIdMap
    decreases |lines|
  {
    if |lines| == 0 then st
    else FormLine(path, FormLines(decide, path, lines[..|lines| - 1], st), lines[|lines| - 1], decide(lines[|lines| - 1]))
  }

  /** `readFormCsv`: a missing file gives an empty table; an empty file escapes. */
  function ReadFormCsv(path: string, file: TextFile, roles: map<string, string>, session: Session)
    : (r: Read<map<int, Form>>)
    ensures file.Missing? ==> r == Returned(map[], session)
    ensures file.Lines? ==> (r.Escaped? <==> |file.lines| == 0)
    ensures r.Escaped? ==> r.session == session
    ensures r.Returned? ==> r.session.cognateIdMap == session.cognateIdMap
  {
    match file
    case Missing => Returned(map[], session)
    case Lines(lines) =>
      if |lines| == 0 then Escaped(session)
      else
        var L := LayoutOf(lines[0], roles);
        var st := FormLines(line => Decide(L, line), path, lines[1..], Start(session));
        Returned(st.table, st.session)
  }

  // The loop, for any row logic

  /** The decision for every line, in file order. */
  function Decisions(decide: string -> Decision, lines: seq<string>): (ds: seq<Decision>)
    ensures |ds| == |lines|
    ensures forall k :: 0 <= k < |lines| ==> ds[k] == decide(lines[k])
  {
    seq(|lines|, k requires 0 <= k < |lines| => decide(lines[k]))
  }

  /** The stored rows' decisions, in order. */
  function Kept(ds: seq<Decision>): (ks: seq<Decision>)
    ensures |ks| <= |ds|
    ensures forall k :: 0 <= k < |ks| ==> ks[k].Keep?
  {
    if |ds| == 0 then []
    else Kept(ds[..|ds| - 1]) + (if ds[|ds| - 1].Keep? then [ds[|ds| - 1]] else [])
  }

  /** Each decision as a stored-or-rejected outcome, for the row entries. */
  function Verdicts(ds: seq<Decision>): (os: seq<Outcome<Decision>>)
    ensures |os| == |ds|
    ensures forall k :: 0 <= k < |ds| ==> (os[k].Rejected? <==> !ds[k].Keep?)
  {
    seq(|ds|, k requires 0 <= k < |ds| => if ds[k].Keep? then Stored(ds[k].ext, ds[k]) else Rejected)
  }

  /** Appending a decision appends its outcome. */
  lemma VerdictsSnoc(ds: seq<Decision>, d: Decision)
    ensures Verdicts(ds + [d]) == Verdicts(ds) + [if d.Keep? then Stored(d.ext, d) else Rejected]
  {
    var vs := Verdicts(ds + [d]);
    assert forall k :: 0 <= k < |ds| ==> (ds + [d])[k] == ds[k];
  }

  /** Splitting off the last line. */
  lemma DecisionsSnoc(decide: string -> Decision, lines: seq<string>)
    requires |lines| > 0
    ensures var init, d := lines[..|lines| - 1], decide(lines[|lines| - 1]);
            && Decisions(decide, lines) == Decisions(decide, init) + [d]
            && Kept(Decisions(decide, lines)) == Kept(Decisions(decide, init)) + (if d.Keep? then [d] else [])
  {
    var ds := Decisions(decide, lines);
    assert ds[..|ds| - 1] == Decisions(decide, lines[..|lines| - 1]);
  }

  /** The k-th stored row sits under dense id k with the record built for k, and `formID` counts them. */
  ghost predicate DenseTable(ks: seq<Decision>, table: map<int, Form>, formID: int)
    requires forall j :: 0 <= j < |ks| ==> ks[j].Keep?
  {
    && formID == |ks|
    && (forall k :: k in table <==> 0 <= k < |ks|)
    && (forall k :: 0 <= k < |ks| ==> table[k] == ks[k].record(k))
  }

  /** One more line keeps the table dense. */
  lemma FormLineTable(path: string, st: Reader, line: string, d: Decision, ks: seq<Decision>)
    requires forall j :: 0 <= j < |ks| ==> ks[j].Keep?
    requires DenseTable(ks, st.table, st.formID)
    ensures var r := FormLine(path, st, line, d);
            DenseTable(ks + (if d.Keep? then [d] else []), r.table, r.formID)
  {
    if !d.Keep? {
      assert ks + [] == ks;
    }
  }

  /** Dense ids: the table holds exactly the stored rows, in order. */
  lemma {:induction false} FormLinesTable(decide: string -> Decision, path: string, lines: seq<string>, session: Session)
    ensures var st := FormLines(decide, path, lines, Start(session));
            DenseTable(Kept(Decisions(decide, lines)), st.table, st.formID)
    decreases |lines|
  {
    if |lines| > 0 {
      var init, last := lines[..|lines| - 1], lines[|lines| - 1];
      FormLinesTable(decide, path, init, session);
      DecisionsSnoc(decide, lines);
      FormLineTable(path, FormLines(decide, path, init, Start(session)), last, decide(last), Kept(Decisions(decide, init)));
    }
  }

  /**
   * One more line adds its row entry when it is not stored; `lines'`,
   * `outcomes'` and `log` are the longer lines, outcomes and log.
   */
  lemma FormLineExceptions(path: string, st: Reader, line: string, d: Decision, lines: seq<string>,
                           outcomes: seq<Outcome<Decision>>, base: seq<ExceptionEntry>,
                           lines': seq<string>, outcomes': seq<Outcome<Decision>>, log: seq<ExceptionEntry>)
    requires |lines| == |outcomes| && st.i == |lines| + 1
    requires |base| <= |st.session.exceptions| && st.session.exceptions[..|base|] == base
    requires ReportsRejected(path, lines, outcomes, st.session.exceptions[|base|..])
    requires lines' == lines + [line]
    requires outcomes' == outcomes + [if d.Keep? then Stored(d.ext, d) else Rejected]
    requires log == FormLine(path, st, line, d).session.exceptions
    ensures |base| <= |log| && log[..|base|] == base
    ensures |lines'| == |outcomes'| && ReportsRejected(path, lines', outcomes', log[|base|..])
  {
    var o: Outcome<Decision> := if d.Keep? then Stored(d.ext, d) else Rejected;
    ExceptionsStep(path, lines, outcomes, base, st.session.exceptions, line, o);
  }

  /** One row entry per line not stored, in file order, after the entries already there. */
  lemma {:induction false} FormLinesExceptions(decide: string -> Decision, path: string, lines: seq<string>, session: Session)
    ensures var st := FormLines(decide, path, lines, Start(session));
            var base := session.exceptions;
            && |base| <= |st.session.exceptions| && st.session.exceptions[..|base|] == base
            && ReportsRejected(path, lines, Verdicts(Decisions(decide, lines)), st.session.exceptions[|base|..])
    decreases |lines|
  {
    var base := session.exceptions;
    if |lines| == 0 {
      assert base[|base|..] == [];
    } else {
      var init, last := lines[..|lines| - 1], lines[|lines| - 1];
      FormLinesExceptions(decide, path, init, session);
      var st0 := FormLines(decide, path, init, Start(session));
      DecisionsSnoc(decide, lines);
      VerdictsSnoc(Decisions(decide, init), decide(last));
      var log := FormLines(decide, path, lines, Start(session)).session.exceptions;
      assert log == FormLine(path, st0, last, decide(last)).session.exceptions;
      FormLineExceptions(path, st0, last, decide(last), init, Verdicts(Decisions(decide, init)), base,
                         lines, Verdicts(Decisions(decide, lines)), log);
    }
  }

  /** The index of the last stored row with external id `ext`, or -1. */
  function LastWithId(ks: seq<Decision>, ext: string): (k: int)
    requires forall j :: 0 <= j < |ks| ==> ks[j].Keep?
    ensures -1 <= k < |ks|
    ensures k >= 0 ==> ks[k].ext == ext
    ensures forall j :: k < j < |ks| ==> ks[j].ext != ext
  {
    if |ks| == 0 then -1
    else if ks[|ks| - 1].ext == ext then |ks| - 1
    else LastWithId(ks[..|ks| - 1], ext)
  }

  /**
   * `formsNewToOld` sends each dense id to its row's external id, and
   * `formsOldToNew` sends each external id to the last stored row carrying it.
   */
  ghost predicate IdMapsMatch(ks: seq<Decision>, oldToNew: map<string, int>, newToOld: map<int, string>)
    requires forall j :: 0 <= j < |ks| ==> ks[j].Keep?
  {
    && (forall k :: k in newToOld <==> 0 <= k < |ks|)
    && (forall k :: 0 <= k < |ks| ==> newToOld[k] == ks[k].ext)
    && (forall ext :: ext in oldToNew <==> LastWithId(ks, ext) >= 0)
    && (forall ext :: ext in oldToNew ==> oldToNew[ext] == LastWithId(ks, ext))
  }

  /** Storing one more row under the next dense id keeps the maps matched. */
  lemma IdMapsMatchKeep(ks: seq<Decision>, d: Decision, oldToNew: map<string, int>, newToOld: map<int, string>)
    requires forall j :: 0 <= j < |ks| ==> ks[j].Keep?
    requires d.Keep? && IdMapsMatch(ks, oldToNew, newToOld)
    ensures IdMapsMatch(ks + [d], oldToNew[d.ext := |ks|], newToOld[|ks| := d.ext])
  {
    var ks' := ks + [d];
    assert ks'[..|ks|] == ks;
    forall e
      ensures LastWithId(ks', e) == if e == d.ext then |ks| else LastWithId(ks, e)
    {
    }
  }

  /** A line that does not stop between the two `put`s keeps the maps matched to the stored rows. */
  lemma FormLineIdMaps(path: string, st: Reader, line: string, d: Decision, ks: seq<Decision>)
    requires forall j :: 0 <= j < |ks| ==> ks[j].Keep?
    requires !d.MapOnly? && st.formID == |ks| && IdMapsMatch(ks, st.session.oldToNew, st.session.newToOld)
    ensures var s := FormLine(path, st, line, d).session;
            IdMapsMatch(ks + (if d.Keep? then [d] else []), s.oldToNew, s.newToOld)
  {
    if d.Keep? {
      IdMapsMatchKeep(ks, d, st.session.oldToNew, st.session.newToOld);
    } else {
      assert ks + [] == ks;
    }
  }

  /** When no line stops between the two `put`s and the maps start empty, they match the stored rows. */
  lemma {:induction false} FormLinesIdMaps(decide: string -> Decision, path: string, lines: seq<string>, session: Session)
    requires forall k :: 0 <= k < |lines| ==> !decide(lines[k]).MapOnly?
    requires session.oldToNew == map[] && session.newToOld == map[]
    ensures var s := FormLines(decide, path, lines, Start(session)).session;
            IdMapsMatch(Kept(Decisions(decide, lines)), s.oldToNew, s.newToOld)
    decreases |lines|
  {
    if |lines| > 0 {
      var init, last := lines[..|lines| - 1], lines[|lines| - 1];
      FormLinesIdMaps(decide, path, init, session);
      FormLinesTable(decide, path, init, session);
      DecisionsSnoc(decide, lines);
      var st0 := FormLines(decide, path, init, Start(session));
      FormLineIdMaps(path, st0, last, decide(last), Kept(Decisions(decide, init)));
    }
  }

  /** Under the same conditions each external id maps back to itself through the two maps. */
  lemma IdMapsRoundTrip(decide: string -> Decision, path: string, lines: seq<string>, session: Session)
    requires forall k :: 0 <= k < |lines| ==> !decide(lines[k]).MapOnly?
    requires session.oldToNew == map[] && session.newToOld == map[]
    ensures var s := FormLines(decide, path, lines, Start(session)).session;
            forall ext :: ext in s.oldToNew ==> s.oldToNew[ext] in s.newToOld && s.newToOld[s.oldToNew[ext]] == ext
  {
    FormLinesIdMaps(decide, path, lines, session);
    var s := FormLines(decide, path, lines, Start(session)).session;
    var ks := Kept(Decisions(decide, lines));
    assert IdMapsMatch(ks, s.oldToNew, s.newToOld);
  }

  // The form table's own row logic

  /** The cells of the accepted rows, in file order. */
  function Accepted(L: Layout, lines: seq<string>): (a: seq<seq<string>>)
    ensures forall k :: 0 <= k < |a| ==> RowOk(L, a[k])
    decreases |lines|
  {
    if |lines| == 0 then []
    else
      var fields := CsvParser.GetColumns(lines[|lines| - 1]);
      Accepted(L, lines[..|lines| - 1]) + (if RowOk(L, fields) then [fields] else [])
  }

  /** The stored decisions are the accepted rows: same number, same id cell, same record. */
  ghost predicate KeptMatch(L: Layout, ks: seq<Decision>, a: seq<seq<string>>)
    requires forall j :: 0 <= j < |ks| ==> ks[j].Keep?
  {
    && |ks| == |a|
    && (forall k :: 0 <= k < |a| ==> RowOk(L, a[k]) && ks[k].ext == a[k][L.idIdx])
    && (forall k, id :: 0 <= k < |a| ==> RowOk(L, a[k]) && ks[k].record(id) == BuildForm(L, a[k], id))
  }

  /** One more line is stored exactly when its row is accepted. */
  lemma KeptMatchStep(L: Layout, ks: seq<Decision>, a: seq<seq<string>>, line: string)
    requires forall j :: 0 <= j < |ks| ==> ks[j].Keep?
    requires KeptMatch(L, ks, a)
    ensures var d, fields := Decide(L, line), CsvParser.GetColumns(line);
            KeptMatch(L, ks + (if d.Keep? then [d] else []), a + (if RowOk(L, fields) then [fields] else []))
  {
    var d, fields := Decide(L, line), CsvParser.GetColumns(line);
    if d.Keep? {
      forall id ensures d.record(id) == BuildForm(L, fields, id) {
        DecideRecord(L, line, id);
      }
    } else {
      assert ks + [] == ks && a + [] == a;
    }
  }

  lemma {:induction false} KeptAreAccepted(L: Layout, lines: seq<string>)
    ensures KeptMatch(L, Kept(Decisions(line => Decide(L, line), lines)), Accepted(L, lines))
    decreases |lines|
  {
    if |lines| > 0 {
      var decide := line => Decide(L, line);
      var init, last := lines[..|lines| - 1], lines[|lines| - 1];
      KeptAreAccepted(L, init);
      DecisionsSnoc(decide, lines);
      KeptMatchStep(L, Kept(Decisions(decide, init)), Accepted(L, init), last);
    }
  }

  /**
   * `readFormCsv` on a file with a header: the table holds exactly the
   * accepted rows, the k-th under dense id k with its record built for k.
   */
  lemma ReadFormCsvTable(path: string, lines: seq<string>, roles: map<string, string>, session: Session)
    requires |lines| > 0
    ensures var r := ReadFormCsv(path, Lines(lines), roles, session);
            var L := LayoutOf(lines[0], roles);
            var a := Accepted(L, lines[1..]);
            && r.Returned?
            && (forall k :: k in r.table <==> 0 <= k < |a|)
            && (forall k :: 0 <= k < |a| ==> r.table[k] == BuildForm(L, a[k], k))
  {
    var L := LayoutOf(lines[0], roles);
    var decide := line => Decide(L, line);
    FormLinesTable(decide, path, lines[1..], session);
    KeptAreAccepted(L, lines[1..]);
  }

  /**
   * `readFormCsv` never sets a form's single parameter id: every form it
   * returns keeps the empty `paramID`.
   */
  lemma ReadFormsHaveNoParameter(path: string, file: TextFile, roles: map<string, string>, session: Session)
    ensures var r := ReadFormCsv(path, file, roles, session);
            r.Returned? ==> forall k :: k in r.table ==> r.table[k].paramID == ""
  {
    if file.Lines? && |file.lines| > 0 {
      ReadFormCsvTable(path, file.lines, roles, session);
    }
  }

  /** Each data line as stored or rejected by the form reader. */
  function FormVerdicts(L: Layout, lines: seq<string>): (os: seq<Outcome<Decision>>)
    ensures |os| == |lines|
    ensures forall k :: 0 <= k < |lines| ==> (os[k].Rejected? <==> !RowOk(L, CsvParser.GetColumns(lines[k])))
  {
    Verdicts(Decisions(line => Decide(L, line), lines))
  }

  /**
   * `readFormCsv` on a file with a header: the log keeps its entries and
   * gains one row entry per rejected data line, numbered from 1, in order.
   */
  lemma ReadFormCsvLog(path: string, lines: seq<string>, roles: map<string, string>, session: Session)
    requires |lines| > 0
    ensures var r := ReadFormCsv(path, Lines(lines), roles, session);
            var base := session.exceptions;
            && r.Returned?
            && |base| <= |r.session.exceptions| && r.session.exceptions[..|base|] == base
            && ReportsRejected(path, lines[1..], FormVerdicts(LayoutOf(lines[0], roles), lines[1..]),
                               r.session.exceptions[|base|..])
  {
    var L := LayoutOf(lines[0], roles);
    FormLinesExceptions(line => Decide(L, line), path, lines[1..], session);
  }

  /**
   * With the id, language and parameter columns all found and the id maps
   * fresh, every dense id maps to its row's id cell and every id cell to
   * the last accepted row carrying it.
   */
  lemma ReadFormCsvIdMaps(path: string, lines: seq<string>, roles: map<string, string>, session: Session)
    requires |lines| > 0 && HasRequired(LayoutOf(lines[0], roles))
    requires session.oldToNew == map[] && session.newToOld == map[]
    ensures var s := ReadFormCsv(path, Lines(lines), roles, session).session;
            var L := LayoutOf(lines[0], roles);
            var a := Accepted(L, lines[1..]);
            && (forall k :: k in s.newToOld <==> 0 <= k < |a|)
            && (forall k :: 0 <= k < |a| ==> s.newToOld[k] == a[k][L.idIdx])
            && (forall k :: 0 <= k < |a| ==> a[k][L.idIdx] in s.oldToNew && s.oldToNew[a[k][L.idIdx]] >= k)
            && (forall ext :: ext in s.oldToNew ==>
                  var n := s.oldToNew[ext];
                  0 <= n < |a| && a[n][L.idIdx] == ext && forall j :: n < j < |a| ==> a[j][L.idIdx] != ext)
  {
    var L := LayoutOf(lines[0], roles);
    var decide := line => Decide(L, line);
    var data := lines[1..];
    forall k | 0 <= k < |data| ensures !decide(data[k]).MapOnly? { }
    FormLinesIdMaps(decide, path, data, session);
    IdMapsRoundTrip(decide, path, data, session);
    KeptAreAccepted(L, data);
    var s := ReadFormCsv(path, Lines(lines), roles, session).session;
    assert s == FormLines(decide, path, data, Start(session)).session;
    var ks := Kept(Decisions(decide, data));
    assert IdMapsMatch(ks, s.oldToNew, s.newToOld);
    IdMapsOfAccepted(L, ks, Accepted(L, data), s.oldToNew, s.newToOld);
  }

  /** Matched id maps, read back in terms of the accepted rows' id cells. */
  lemma IdMapsOfAccepted(L: Layout, ks: seq<Decision>, a: seq<seq<string>>,
                         oldToNew: map<string, int>, newToOld: map<int, string>)
    requires forall j :: 0 <= j < |ks| ==> ks[j].Keep?
    requires IdMapsMatch(ks, oldToNew, newToOld)
    requires ValidLayout(L) && HasRequired(L)
    requires forall k :: 0 <= k < |a| ==> |a[k]| == |L.columns|
    requires |ks| == |a| && forall k :: 0 <= k < |a| ==> ks[k].ext == a[k][L.idIdx]
    ensures forall k :: 0 <= k < |a| ==> a[k][L.idIdx] in oldToNew && oldToNew[a[k][L.idIdx]] >= k
    ensures forall ext :: ext in oldToNew ==>
              var n := oldToNew[ext];
              0 <= n < |a| && a[n][L.idIdx] == ext && forall j :: n < j < |a| ==> a[j][L.idIdx] != ext
  {
    forall k | 0 <= k < |ks|
      ensures LastWithId(ks, ks[k].ext) >= k
    {
    }
  }

  /**
   * With the id column found but the language or parameter column missing,
   * every row is rejected, yet each well-sized row is still entered in both
   * id maps under `formID`, which never advances.
   */
  lemma MissingReferenceColumnStillMapsId(L: Layout, path: string, st: Reader, line: string)
    requires L.idIdx != -1 && !HasRequired(L)
    requires WellSized(L, CsvParser.GetColumns(line))
    ensures var r := FormLine(path, st, line, Decide(L, line));
            var ext := CsvParser.GetColumns(line)[L.idIdx];
            && r.table == st.table && r.formID == st.formID
            && r.session.oldToNew == st.session.oldToNew[ext := st.formID]
            && r.session.newToOld == st.session.newToOld[st.formID := ext]
            && r.session.exceptions == st.session.exceptions + [RowError(path, st.i, line)]
  {
  }
}
