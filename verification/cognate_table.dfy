/**
 * `CLDFImport.readCognateCsv`: the cognate judgements, keyed by dense ids
 * 0, 1, ... Each judgement points at a form through its dense id, looked up
 * in `formsOldToNew`, and only the first judgement of a form is kept.
 */
module CognateTable {
  import opened Wrappers
  import opened JavaStrings
  import opened ImportCommon
  import CsvParser
  import opened CognateJudgementRecord

  datatype Layout = Layout(columns: seq<string>, idIdx: int, formIdx: int, cogsetIdx: int)

  predicate ValidLayout(L: Layout) {
    -1 <= L.idIdx < |L.columns| && -1 <= L.formIdx < |L.columns| && -1 <= L.cogsetIdx < |L.columns|
  }

  function LayoutOf(header: string, roles: map<string, string>): (L: Layout)
    ensures ValidLayout(L)
    ensures L.columns == JavaSplit(header, ',')
    ensures L.idIdx == RoleIndex(L.columns, roles, "id")
    ensures L.formIdx == RoleIndex(L.columns, roles, "formReference")
    ensures L.cogsetIdx == RoleIndex(L.columns, roles, "cognatesetReference")
  {
    var columns := JavaSplit(header, ',');
    Layout(columns, RoleIndex(columns, roles, "id"), RoleIndex(columns, roles, "formReference"),
           RoleIndex(columns, roles, "cognatesetReference"))
  }

  /**
   * What one data line does. `Reject`: a row entry (wrong size, or no form
   * column). `Ignore`: the form cell names no imported form. `Candidate`:
   * the form's dense id, and the cognate-set cell when the id and
   * cognate-set columns exist (None: the row fails once it gets that far).
   */
  datatype Decision =
    | Reject
    | Ignore
    | Candidate(formId: int, cogset: Option<string>)

  /** The row logic of `readCognateCsv`, against the form id map the form reader left. */
  function Decide(L: Layout, oldToNew: map<string, int>, line: string): (d: Decision)
    requires ValidLayout(L)
    ensures var fields := CsvParser.GetColumns(line);
            && (d.Reject? <==> |fields| != |L.columns| || L.formIdx == -1)
            && (d.Ignore? <==> |fields| == |L.columns| && L.formIdx != -1 && fields[L.formIdx] !in oldToNew)
            && (d.Candidate? ==> && fields[L.formIdx] in oldToNew
                                 && d.formId == oldToNew[fields[L.formIdx]]
                                 && (d.cogset.Some? <==> L.idIdx != -1 && L.cogsetIdx != -1)
                                 && (d.cogset.Some? ==> d.cogset.value == fields[L.cogsetIdx]))
  {
    var fields := CsvParser.GetColumns(line);
    if |fields| != |L.columns| || L.formIdx == -1 then Reject
    else if fields[L.formIdx] !in oldToNew then Ignore
    else
      Candidate(oldToNew[fields[L.formIdx]],
                if L.idIdx == -1 || L.cogsetIdx == -1 then None else Some(fields[L.cogsetIdx]))
  }

  /** The loop state: the table, `cognateId`, `i`, `usedFormIds` and the exception log. */
  datatype Reader = Reader(table: map<int, Judgement>, cognateId: int, i: int, used: set<int>,
                           log: seq<ExceptionEntry>)

  function Start(log: seq<ExceptionEntry>): Reader {
    Reader(map[], 0, 1, {}, log)
  }

  /**
   * One pass of the loop. A line whose form already has a judgement hits
   * the `continue`, which also skips the `i++`.
   */
  function CognateLine(path: string, st: Reader, line: string, d: Decision): (r: Reader)
    ensures var repeated := d.Candidate? && d.formId in st.used;
            && r.i == (if repeated then st.i else st.i + 1)
            && r.log == st.log + (if Failed(d) && !repeated then [RowError(path, st.i, line)] else [])
    ensures var stored := d.Candidate? && d.formId !in st.used && d.cogset.Some?;
            && r.table == (if stored then st.table[st.cognateId := Judgement(st.cognateId, d.formId, d.cogset.value)]
                           else st.table)
            && r.cognateId == (if stored then st.cognateId + 1 else st.cognateId)
            && r.used == (if stored then st.used + {d.formId} else st.used)
  {
    match d
    case Reject => st.(i := st.i + 1, log := st.log + [RowError(path, st.i, line)])
    case Ignore => st.(i := st.i + 1)
    case Candidate(formId, cogset) =>
      if formId in st.used then st
      else if cogset.None? then st.(i := st.i + 1, log := st.log + [RowError(path, st.i, line)])
      else
        Reader(st.table[st.cognateId := Judgement(st.cognateId, formId, cogset.value)],
               st.cognateId + 1, st.i + 1, st.used + {formId}, st.log)
  }

  function CognateLines(decide: string -> Decision, path: string, lines: seq<string>, st: Reader): Reader
    decreases |lines|
  {
    if |lines| == 0 then st
    else CognateLine(path, CognateLines(decide, path, lines[..|lines| - 1], st), lines[|lines| - 1], decide(lines[|lines| - 1]))
  }

  /**
   * `readCognateCsv`. A missing file gives an empty table; an empty file
   * escapes before the map is cleared; otherwise `cognateIdMap` is cleared
   * on the way out, so the entries the loop puts there never survive it.
   */
  function ReadCognateCsv(path: string, file: TextFile, roles: map<string, string>, session: Session)
    : (r: Read<map<int, Judgement>>)
    ensures file.Missing? ==> r == Returned(map[], session.(cognateIdMap := map[]))
    ensures file.Lines? ==> (r.Escaped? <==> |file.lines| == 0)
    ensures r.Escaped? ==> r.session == session
    ensures r.Returned? ==> r.session == session.(cognateIdMap := map[], exceptions := r.session.exceptions)
  {
    match file
    case Missing => Returned(map[], session.(cognateIdMap := map[]))
    case Lines(lines) =>
      if |lines| == 0 then Escaped(session)
      else
        var L := LayoutOf(lines[0], roles);
        var st := CognateLines(line => Decide(L, session.oldToNew, line), path, lines[1..], Start(session.exceptions));
        Returned(st.table, session.(cognateIdMap := map[], exceptions := st.log))
  }

  // The judgements a sequence of decisions should produce

  function Decisions(decide: string -> Decision, lines: seq<string>): (ds: seq<Decision>)
    ensures |ds| == |lines|
    ensures forall k :: 0 <= k < |lines| ==> ds[k] == decide(lines[k])
  {
    seq(|lines|, k requires 0 <= k < |lines| => decide(lines[k]))
  }

  /** Whether a decision judges form `f` with a cognate-set cell. */
  predicate Picks(d: Decision, f: int) {
    d.Candidate? && d.cogset.Some? && d.formId == f
  }

  /** A judgement to store: the form, its cognate set, and the line it comes from. */
  datatype Pick = Pick(formId: int, cogset: string, line: int)

  /** The form ids among the picks so far. */
  function Forms(ps: seq<Pick>): (fs: seq<int>)
    ensures |fs| == |ps|
    ensures forall k :: 0 <= k < |ps| ==> fs[k] == ps[k].formId
  {
    seq(|ps|, k requires 0 <= k < |ps| => ps[k].formId)
  }

  /** The judgements the reader should store, in order. */
  function Firsts(ds: seq<Decision>): (ps: seq<Pick>)
    decreases |ds|
  {
    if |ds| == 0 then []
    else
      var ps := Firsts(ds[..|ds| - 1]);
      var d := ds[|ds| - 1];
      if d.Candidate? && d.cogset.Some? && d.formId !in Forms(ps) then ps + [Pick(d.formId, d.cogset.value, |ds| - 1)]
      else ps
  }

  /**
   * `Firsts` pinned down without reference to the loop: every pick is a
   * judging line with no earlier line judging the same form, the picks
   * follow the lines' order, and every judged form is picked.
   */
  ghost predicate FirstsOf(ds: seq<Decision>, ps: seq<Pick>) {
    && (forall k :: 0 <= k < |ps| ==>
          0 <= ps[k].line < |ds| && ds[ps[k].line] == Candidate(ps[k].formId, Some(ps[k].cogset)))
    && (forall k, j :: 0 <= k < |ps| && 0 <= j < ps[k].line ==> !Picks(ds[j], ps[k].formId))
    && (forall a, b :: 0 <= a < b < |ps| ==> ps[a].line < ps[b].line)
    && (forall j :: 0 <= j < |ds| && ds[j].Candidate? && ds[j].cogset.Some? ==> ds[j].formId in Forms(ps))
  }

  /** A line that judges no new form leaves the description of the same picks true. */
  lemma FirstsOfSame(ds: seq<Decision>, d: Decision, ps: seq<Pick>)
    requires FirstsOf(ds, ps)
    requires d.Candidate? && d.cogset.Some? ==> d.formId in Forms(ps)
    ensures FirstsOf(ds + [d], ps)
  {
    var ds' := ds + [d];
    assert forall j :: 0 <= j < |ds| ==> ds'[j] == ds[j];
  }

  /** A line that judges a form for the first time adds its pick at the end. */
  lemma FirstsOfNew(ds: seq<Decision>, d: Decision, ps: seq<Pick>)
    requires FirstsOf(ds, ps)
    requires d.Candidate? && d.cogset.Some? && d.formId !in Forms(ps)
    ensures FirstsOf(ds + [d], ps + [Pick(d.formId, d.cogset.value, |ds|)])
  {
    var ds', ps' := ds + [d], ps + [Pick(d.formId, d.cogset.value, |ds|)];
    assert forall j :: 0 <= j < |ds| ==> ds'[j] == ds[j];
    assert forall k :: 0 <= k < |ps| ==> ps'[k] == ps[k];
    assert Forms(ps') == Forms(ps) + [d.formId];
  }

  lemma FirstsOfSnoc(ds: seq<Decision>, d: Decision)
    requires FirstsOf(ds, Firsts(ds))
    ensures FirstsOf(ds + [d], Firsts(ds + [d]))
  {
    var ds' := ds + [d];
    assert ds'[..|ds|] == ds;
    if d.Candidate? && d.cogset.Some? && d.formId !in Forms(Firsts(ds)) {
      FirstsOfNew(ds, d, Firsts(ds));
    } else {
      FirstsOfSame(ds, d, Firsts(ds));
    }
  }

  /** `Firsts` meets its description. */
  lemma {:induction false} FirstsSpec(ds: seq<Decision>)
    ensures FirstsOf(ds, Firsts(ds))
    decreases |ds|
  {
    if |ds| > 0 {
      var init := ds[..|ds| - 1];
      FirstsSpec(init);
      FirstsOfSnoc(init, ds[|ds| - 1]);
      assert init + [ds[|ds| - 1]] == ds;
    }
  }

  /** No form is judged twice. */
  lemma FirstsDistinct(ds: seq<Decision>)
    ensures var ps := Firsts(ds);
            forall a, b :: 0 <= a < b < |ps| ==> ps[a].formId != ps[b].formId
  {
    var ps := Firsts(ds);
    FirstsSpec(ds);
    forall a, b | 0 <= a < b < |ps|
      ensures ps[a].formId != ps[b].formId
    {
      assert Picks(ds[ps[a].line], ps[a].formId);
    }
  }

  // The loop against the reference

  /** The reader's state matches the pairs `ps`: dense judgement ids, and `usedFormIds` their forms. */
  ghost predicate Matches(ps: seq<Pick>, st: Reader) {
    && st.cognateId == |ps|
    && (forall k :: k in st.table <==> 0 <= k < |ps|)
    && (forall k :: 0 <= k < |ps| ==> st.table[k] == Judgement(k, ps[k].formId, ps[k].cogset))
    && (forall f :: f in st.used <==> f in Forms(ps))
  }

  lemma CognateLineMatches(path: string, st: Reader, line: string, ds: seq<Decision>, d: Decision)
    requires Matches(Firsts(ds), st)
    ensures Matches(Firsts(ds + [d]), CognateLine(path, st, line, d))
  {
    var ds' := ds + [d];
    assert ds'[..|ds|] == ds;
    var ps := Firsts(ds);
    if d.Candidate? && d.cogset.Some? && d.formId !in Forms(ps) {
      assert Forms(ps + [Pick(d.formId, d.cogset.value, |ds|)]) == Forms(ps) + [d.formId];
    }
  }

  lemma {:induction false} CognateLinesMatch(decide: string -> Decision, path: string, lines: seq<string>,
                                             log: seq<ExceptionEntry>)
    ensures Matches(Firsts(Decisions(decide, lines)), CognateLines(decide, path, lines, Start(log)))
    decreases |lines|
  {
    if |lines| > 0 {
      var init, last := lines[..|lines| - 1], lines[|lines| - 1];
      CognateLinesMatch(decide, path, init, log);
      DecisionsSnoc(decide, lines);
      CognateLineMatches(path, CognateLines(decide, path, init, Start(log)), last, Decisions(decide, init), decide(last));
    }
  }

  /** No form is named by two lines that get as far as the form lookup. */
  predicate UniqueForms(ds: seq<Decision>) {
    forall a, b :: 0 <= a < b < |ds| ==> Apart(ds, a, b)
  }

  /** Lines `a` and `b` do not both reach the lookup with the same form. */
  predicate Apart(ds: seq<Decision>, a: int, b: int)
    requires 0 <= a < |ds| && 0 <= b < |ds|
  {
    ds[a].Candidate? && ds[b].Candidate? ==> ds[a].formId != ds[b].formId
  }

  /** Whether a line ends in a row entry: it is rejected outright, or fails at the id or cognate-set cell. */
  predicate Failed(d: Decision) {
    d.Reject? || (d.Candidate? && d.cogset.None?)
  }

  /** Each decision as rejected or not, for the row entries. */
  function CogVerdicts(ds: seq<Decision>): (os: seq<Outcome<Decision>>)
    ensures |os| == |ds|
    ensures forall k :: 0 <= k < |ds| ==> (os[k].Rejected? <==> Failed(ds[k]))
  {
    seq(|ds|, k requires 0 <= k < |ds| => if Failed(ds[k]) then Rejected else Stored("", ds[k]))
  }

  lemma CogVerdictsSnoc(ds: seq<Decision>, d: Decision)
    ensures CogVerdicts(ds + [d]) == CogVerdicts(ds) + [if Failed(d) then Rejected else Stored("", d)]
  {
    assert forall k :: 0 <= k < |ds| ==> (ds + [d])[k] == ds[k];
  }

  /** Under `UniqueForms` the last line's form is not among the earlier lines' picks. */
  lemma UniqueFormIsUnused(ds: seq<Decision>, d: Decision)
    requires UniqueForms(ds + [d])
    ensures d.Candidate? ==> d.formId !in Forms(Firsts(ds))
  {
    FirstsSpec(ds);
    var ps := Firsts(ds);
    var ds' := ds + [d];
    forall k | 0 <= k < |ps| && d.Candidate?
      ensures Forms(ps)[k] != d.formId
    {
      assert Apart(ds', ps[k].line, |ds|);
      assert ds'[ps[k].line] == ds[ps[k].line];
      assert ds'[|ds|] == d;
    }
  }

  /** Splitting off the last line. */
  lemma DecisionsSnoc(decide: string -> Decision, lines: seq<string>)
    requires |lines| > 0
    ensures Decisions(decide, lines) == Decisions(decide, lines[..|lines| - 1]) + [decide(lines[|lines| - 1])]
  {
  }

  /** One line that does not hit the `continue` keeps the row entries exact. */
  lemma CognateLineLog(path: string, st: Reader, line: string, d: Decision,
                       lines: seq<string>, ds: seq<Decision>, base: seq<ExceptionEntry>)
    requires |ds| == |lines| && st.i == |lines| + 1
    requires |base| <= |st.log| && st.log[..|base|] == base
    requires ReportsRejected(path, lines, CogVerdicts(ds), st.log[|base|..])
    requires !(d.Candidate? && d.formId in st.used)
    ensures var r := CognateLine(path, st, line, d);
            && r.i == |lines + [line]| + 1
            && |base| <= |r.log| && r.log[..|base|] == base
            && ReportsRejected(path, lines + [line], CogVerdicts(ds + [d]), r.log[|base|..])
  {
    CogVerdictsSnoc(ds, d);
    var r := CognateLine(path, st, line, d);
    assert r.log == st.log + (if Failed(d) then [RowError(path, |lines| + 1, line)] else []);
    ExceptionsStep(path, lines, CogVerdicts(ds), base, st.log, line, if Failed(d) then Rejected else Stored("", d));
  }

  lemma UniquePrefix(ds: seq<Decision>, d: Decision)
    requires UniqueForms(ds + [d])
    ensures UniqueForms(ds)
  {
    forall a, b | 0 <= a < b < |ds| ensures Apart(ds, a, b) {
      assert Apart(ds + [d], a, b);
      assert (ds + [d])[a] == ds[a] && (ds + [d])[b] == ds[b];
    }
  }

  /** Under `UniqueForms` the next line's form has no judgement yet. */
  lemma NotRepeated(decide: string -> Decision, path: string, lines: seq<string>, base: seq<ExceptionEntry>, d: Decision)
    requires UniqueForms(Decisions(decide, lines) + [d])
    ensures !(d.Candidate? && d.formId in CognateLines(decide, path, lines, Start(base)).used)
  {
    CognateLinesMatch(decide, path, lines, base);
    UniqueFormIsUnused(Decisions(decide, lines), d);
  }

  /**
   * When no form is named twice the loop never hits the `continue`: `i`
   * counts every line, and the log gains one row entry per failed line,
   * numbered from 1, in order.
   */
  lemma {:induction false} CognateLinesLog(decide: string -> Decision, path: string, lines: seq<string>,
                                           base: seq<ExceptionEntry>)
    requires UniqueForms(Decisions(decide, lines))
    ensures var st := CognateLines(decide, path, lines, Start(base));
            && st.i == |lines| + 1
            && |base| <= |st.log| && st.log[..|base|] == base
            && ReportsRejected(path, lines, CogVerdicts(Decisions(decide, lines)), st.log[|base|..])
    decreases |lines|
  {
    if |lines| == 0 {
      assert base[|base|..] == [];
    } else {
      var init, last := lines[..|lines| - 1], lines[|lines| - 1];
      var ds0, d := Decisions(decide, init), decide(last);
      assert Decisions(decide, lines) == ds0 + [d] by { DecisionsSnoc(decide, lines); }
      assert UniqueForms(ds0) by { UniquePrefix(ds0, d); }
      CognateLinesLog(decide, path, init, base);
      var st0 := CognateLines(decide, path, init, Start(base));
      assert !(d.Candidate? && d.formId in st0.used) by { NotRepeated(decide, path, init, base, d); }
      CognateLineLog(path, st0, last, d, init, ds0, base);
      assert lines == init + [last];
    }
  }

  /**
   * `readCognateCsv` on a file with a header: the table holds judgement k
   * under id k for the k-th form judged, pointing at that form's dense id and
   * at the cognate set of the first line judging it; no form appears twice.
   */
  lemma ReadCognateCsvTable(path: string, lines: seq<string>, roles: map<string, string>, session: Session)
    requires |lines| > 0
    ensures var r := ReadCognateCsv(path, Lines(lines), roles, session);
            var ps := Firsts(Decisions(line => Decide(LayoutOf(lines[0], roles), session.oldToNew, line), lines[1..]));
            && r.Returned?
            && (forall k :: k in r.table <==> 0 <= k < |ps|)
            && (forall k :: 0 <= k < |ps| ==> r.table[k] == Judgement(k, ps[k].formId, ps[k].cogset))
            && FirstsOf(Decisions(line => Decide(LayoutOf(lines[0], roles), session.oldToNew, line), lines[1..]), ps)
            && (forall a, b :: 0 <= a < b < |ps| ==> ps[a].formId != ps[b].formId)
  {
    var L := LayoutOf(lines[0], roles);
    var decide := line => Decide(L, session.oldToNew, line);
    CognateLinesMatch(decide, path, lines[1..], session.exceptions);
    FirstsSpec(Decisions(decide, lines[1..]));
    FirstsDistinct(Decisions(decide, lines[1..]));
  }

  /**
   * `readCognateCsv` on a file with a header where no form is named twice:
   * the log keeps its entries and gains one row entry per failed data line,
   * numbered from 1, in order.
   */
  lemma ReadCognateCsvLog(path: string, lines: seq<string>, roles: map<string, string>, session: Session)
    requires |lines| > 0
    requires UniqueForms(Decisions(line => Decide(LayoutOf(lines[0], roles), session.oldToNew, line), lines[1..]))
    ensures var r := ReadCognateCsv(path, Lines(lines), roles, session);
            var base := session.exceptions;
            && r.Returned?
            && |base| <= |r.session.exceptions| && r.session.exceptions[..|base|] == base
            && ReportsRejected(path, lines[1..],
                               CogVerdicts(Decisions(line => Decide(LayoutOf(lines[0], roles), session.oldToNew, line), lines[1..])),
                               r.session.exceptions[|base|..])
  {
    var L := LayoutOf(lines[0], roles);
    CognateLinesLog(line => Decide(L, session.oldToNew, line), path, lines[1..], session.exceptions);
  }

  /** Every judged form id is a dense id the form reader handed out. */
  lemma JudgedFormsAreImported(ds: seq<Decision>, oldToNew: map<string, int>)
    requires forall j :: 0 <= j < |ds| && ds[j].Candidate? ==> ds[j].formId in oldToNew.Values
    ensures forall k :: 0 <= k < |Firsts(ds)| ==> Firsts(ds)[k].formId in oldToNew.Values
  {
    FirstsSpec(ds);
  }

  /** A line whose form cell names no imported form changes nothing but the row counter. */
  lemma UnknownFormIgnored(L: Layout, oldToNew: map<string, int>, path: string, st: Reader, line: string)
    requires ValidLayout(L) && L.formIdx != -1
    requires |CsvParser.GetColumns(line)| == |L.columns|
    requires CsvParser.GetColumns(line)[L.formIdx] !in oldToNew
    ensures CognateLine(path, st, line, Decide(L, oldToNew, line)) == st.(i := st.i + 1)
  {
  }

  /** A second judgement of an already judged form is skipped, and `i` is not advanced for it. */
  lemma RepeatedFormSkipped(L: Layout, oldToNew: map<string, int>, path: string, st: Reader, line: string)
    requires ValidLayout(L) && L.formIdx != -1
    requires |CsvParser.GetColumns(line)| == |L.columns|
    requires CsvParser.GetColumns(line)[L.formIdx] in oldToNew
    requires oldToNew[CsvParser.GetColumns(line)[L.formIdx]] in st.used
    ensures CognateLine(path, st, line, Decide(L, oldToNew, line)) == st
  {
  }
}
