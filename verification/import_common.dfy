/**
 * What the table readers of `CLDFImport` share: the exception entries
 * they append to the static `exceptions` list, the static id maps they
 * thread, the resolution of roles to header positions, the
 * `remainedColumns`/`properties` bookkeeping, and the row-by-row storing
 * into a table keyed by the id cell.
 */
module ImportCommon {
  import opened Wrappers
  import opened JavaStrings

  /**
   * An entry of `exceptions`: `["row", path, n, line]` for a rejected data
   * row (n counts data lines from 1), `[message, dir]` for the two errors
   * `loadDatabase` raises itself, and `["else"]` for a null pointer or I/O
   * failure caught there.
   */
  datatype ExceptionEntry =
    | RowError(path: string, n: int, line: string)
    | Fatal(message: string, dir: string)
    | Else

  /** A table file: `Missing` when it cannot be opened, else its lines, the header first. */
  datatype TextFile = Missing | Lines(lines: seq<string>)

  /** The static fields `formsOldToNew`, `formsNewToOld`, `cognateIdMap` and `exceptions`. */
  datatype Session = Session(
    oldToNew: map<string, int>,
    newToOld: map<int, string>,
    cognateIdMap: map<string, int>,
    exceptions: seq<ExceptionEntry>)

  /** The state `loadDatabase` resets before any reader runs. */
  function FreshSession(): (s: Session)
    ensures s.oldToNew == map[] && s.newToOld == map[] && s.cognateIdMap == map[] && s.exceptions == []
  {
    Session(map[], map[], map[], [])
  }

  /**
   * What a reader call ends in: it returns its table, or a
   * `NullPointerException` escapes it (an empty file, whose header line is
   * null) and reaches `loadDatabase`.
   */
  datatype Read<T> = Returned(table: T, session: Session) | Escaped(session: Session)

  /**
   * `columns.indexOf(propertyColumns.get(role))`: -1 when the role is not
   * mapped (`indexOf(null)`) or its column is not in the header.
   */
  function RoleIndex(columns: seq<string>, roles: map<string, string>, role: string): (r: int)
    ensures -1 <= r < |columns|
    ensures r == -1 <==> role !in roles || roles[role] !in columns
    ensures r >= 0 ==> columns[r] == roles[role] && roles[role] !in columns[..r]
  {
    if role in roles then IndexOf(columns, roles[role]) else -1
  }

  /** `remainedColumns`: the header positions, in order, that are not among the resolved indices. */
  function RemainedColumns(n: nat, used: seq<int>): (r: seq<int>)
    ensures forall k :: k in r <==> 0 <= k < n && k !in used
    ensures forall j :: 0 <= j < |r| ==> 0 <= r[j] < n
    ensures forall j, j' :: 0 <= j < j' < |r| ==> r[j] < r[j']
  {
    if n == 0 then []
    else RemainedColumns(n - 1, used) + (if n - 1 in used then [] else [n - 1])
  }

  /** The position in `positions` of the last remained column named `key`, or -1. */
  function LastNamed(columns: seq<string>, positions: seq<int>, key: string): (j: int)
    requires forall j :: 0 <= j < |positions| ==> 0 <= positions[j] < |columns|
    ensures -1 <= j < |positions|
    ensures j >= 0 ==> columns[positions[j]] == key
    ensures forall j' :: j < j' < |positions| ==> columns[positions[j']] != key
  {
    if |positions| == 0 then -1
    else if columns[positions[|positions| - 1]] == key then |positions| - 1
    else LastNamed(columns, positions[..|positions| - 1], key)
  }

  /**
   * The `properties` map of one row: each remained column's header text
   * to its cell, put in column order, so of two columns with the same
   * header text the later one wins.
   */
  function PropertiesOf(columns: seq<string>, fields: seq<string>, positions: seq<int>): (r: map<string, string>)
    requires |fields| == |columns|
    requires forall j :: 0 <= j < |positions| ==> 0 <= positions[j] < |columns|
    ensures forall key :: key in r <==> LastNamed(columns, positions, key) >= 0
    ensures forall key :: key in r ==> r[key] == fields[positions[LastNamed(columns, positions, key)]]
  {
    if |positions| == 0 then map[]
    else
      var p := positions[|positions| - 1];
      PropertiesOf(columns, fields, positions[..|positions| - 1])[columns[p] := fields[p]]
  }

  /** With distinct header texts, every remained column is in `properties` with its own cell. */
  lemma PropertiesOfDistinct(columns: seq<string>, fields: seq<string>, n: nat, used: seq<int>)
    requires |fields| == |columns| == n
    requires forall a, b :: 0 <= a < b < |columns| ==> columns[a] != columns[b]
    ensures var r := PropertiesOf(columns, fields, RemainedColumns(n, used));
            && (forall k :: 0 <= k < n && k !in used ==> columns[k] in r && r[columns[k]] == fields[k])
            && (forall k :: 0 <= k < n && k in used ==> columns[k] !in r)
  {
    var positions := RemainedColumns(n, used);
    var r := PropertiesOf(columns, fields, positions);
    forall k | 0 <= k < n
      ensures k !in used ==> columns[k] in r && r[columns[k]] == fields[k]
      ensures k in used ==> columns[k] !in r
    {
      var last := LastNamed(columns, positions, columns[k]);
      if last >= 0 {
        SameNameSamePosition(columns, positions[last], k);
      }
      if k !in used {
        assert k in positions;
        var j :| 0 <= j < |positions| && positions[j] == k;
        assert last >= j;
      }
    }
  }

  lemma SameNameSamePosition(columns: seq<string>, a: int, b: int)
    requires forall a, b :: 0 <= a < b < |columns| ==> columns[a] != columns[b]
    requires 0 <= a < |columns| && 0 <= b < |columns| && columns[a] == columns[b]
    ensures a == b
  {
  }

  /** What one data row amounts to: stored under a key, or rejected with an exception entry. */
  datatype Outcome<V> = Stored(key: string, value: V) | Rejected

  /** The reader state of a table keyed by its id cell: the table, the counter `i`, `exceptions`. */
  datatype Keyed<V> = Keyed(table: map<string, V>, i: int, exceptions: seq<ExceptionEntry>)

  /** One pass of a reader loop: `table.put(id, entry)`, or the row entry; `i++` either way. */
  function Absorb<V>(st: Keyed<V>, path: string, line: string, o: Outcome<V>): (r: Keyed<V>)
    ensures r.i == st.i + 1
    ensures o.Stored? ==> r.table == st.table[o.key := o.value] && r.exceptions == st.exceptions
    ensures o.Rejected? ==> r.table == st.table && r.exceptions == st.exceptions + [RowError(path, st.i, line)]
  {
    match o
    case Stored(key, value) => st.(table := st.table[key := value], i := st.i + 1)
    case Rejected => st.(exceptions := st.exceptions + [RowError(path, st.i, line)], i := st.i + 1)
  }

  /** The index of the last row stored under `key`, or -1. */
  function LastStored<V>(outcomes: seq<Outcome<V>>, key: string): (j: int)
    ensures -1 <= j < |outcomes|
    ensures j >= 0 ==> outcomes[j].Stored? && outcomes[j].key == key
    ensures forall k :: j < k < |outcomes| ==> !(outcomes[k].Stored? && outcomes[k].key == key)
  {
    if |outcomes| == 0 then -1
    else if outcomes[|outcomes| - 1].Stored? && outcomes[|outcomes| - 1].key == key then |outcomes| - 1
    else LastStored(outcomes[..|outcomes| - 1], key)
  }

  /** The table holds exactly the keys stored by some row, each with the value of the last such row. */
  ghost predicate StoresLast<V>(outcomes: seq<Outcome<V>>, table: map<string, V>) {
    && (forall key :: key in table <==> LastStored(outcomes, key) >= 0)
    && (forall key :: key in table ==> table[key] == outcomes[LastStored(outcomes, key)].value)
  }

  /**
   * `errs` holds one `["row", path, n, line]` entry per rejected row, in
   * file order, with `n` the row's 1-based position and `line` its text,
   * and nothing else.
   */
  ghost predicate ReportsRejected<V>(path: string, lines: seq<string>, outcomes: seq<Outcome<V>>, errs: seq<ExceptionEntry>)
    requires |lines| == |outcomes|
  {
    && (forall j :: 0 <= j < |errs| ==>
          && errs[j].RowError? && 1 <= errs[j].n <= |lines|
          && errs[j] == RowError(path, errs[j].n, lines[errs[j].n - 1])
          && outcomes[errs[j].n - 1].Rejected?)
    && (forall j, j' :: 0 <= j < j' < |errs| ==> InOrder(errs[j], errs[j']))
    && (forall k :: 0 <= k < |lines| && outcomes[k].Rejected? ==> RowError(path, k + 1, lines[k]) in errs)
  }

  /** Two row entries for rows in file order. */
  predicate InOrder(a: ExceptionEntry, b: ExceptionEntry) {
    a.RowError? && b.RowError? && a.n < b.n
  }

  /** The row entries stay exact when one more row is read. */
  lemma ReportsRejectedAppend<V>(path: string, lines: seq<string>, outcomes: seq<Outcome<V>>,
                                 errs: seq<ExceptionEntry>, line: string, o: Outcome<V>)
    requires |lines| == |outcomes|
    requires ReportsRejected(path, lines, outcomes, errs)
    ensures ReportsRejected(path, lines + [line], outcomes + [o],
                            errs + (if o.Rejected? then [RowError(path, |lines| + 1, line)] else []))
  {
    var lines' := lines + [line];
    var outs := outcomes + [o];
    assert forall k :: 0 <= k < |lines| ==> lines'[k] == lines[k] && outs[k] == outcomes[k];
  }

  /** The two properties survive one more row. */
  lemma AbsorbKeeps<V>(st: Keyed<V>, path: string, lines: seq<string>, outcomes: seq<Outcome<V>>,
                       base: seq<ExceptionEntry>, line: string, o: Outcome<V>)
    requires |lines| == |outcomes| && st.i == |lines| + 1
    requires |base| <= |st.exceptions| && st.exceptions[..|base|] == base
    requires StoresLast(outcomes, st.table)
    requires ReportsRejected(path, lines, outcomes, st.exceptions[|base|..])
    ensures var r := Absorb(st, path, line, o);
            && r.i == |lines + [line]| + 1
            && |base| <= |r.exceptions| && r.exceptions[..|base|] == base
            && StoresLast(outcomes + [o], r.table)
            && ReportsRejected(path, lines + [line], outcomes + [o], r.exceptions[|base|..])
  {
    var r := Absorb(st, path, line, o);
    var outs := outcomes + [o];
    assert outs[..|outcomes|] == outcomes;
    forall key
      ensures key in r.table <==> LastStored(outs, key) >= 0
      ensures key in r.table ==> r.table[key] == outs[LastStored(outs, key)].value
    {
    }
    ExceptionsStep(path, lines, outcomes, base, st.exceptions, line, o);
  }

  /** A log that reports the rejected rows after a fixed prefix keeps doing so when one more row is read. */
  lemma ExceptionsStep<V>(path: string, lines: seq<string>, outcomes: seq<Outcome<V>>,
                          base: seq<ExceptionEntry>, log: seq<ExceptionEntry>, line: string, o: Outcome<V>)
    requires |lines| == |outcomes|
    requires |base| <= |log| && log[..|base|] == base
    requires ReportsRejected(path, lines, outcomes, log[|base|..])
    ensures var log' := log + (if o.Rejected? then [RowError(path, |lines| + 1, line)] else []);
            && |base| <= |log'| && log'[..|base|] == base
            && ReportsRejected(path, lines + [line], outcomes + [o], log'[|base|..])
  {
    var errs := log[|base|..];
    ReportsRejectedAppend(path, lines, outcomes, errs, line, o);
    var log' := log + (if o.Rejected? then [RowError(path, |lines| + 1, line)] else []);
    if o.Rejected? {
      assert log'[|base|..] == errs + [RowError(path, |lines| + 1, line)];
    } else {
      assert log'[|base|..] == errs;
    }
  }

  /** The outcome of every row, in file order. */
  function OutcomesOf<V>(row: string -> Outcome<V>, lines: seq<string>): (r: seq<Outcome<V>>)
    ensures |r| == |lines|
    ensures forall k :: 0 <= k < |lines| ==> r[k] == row(lines[k])
  {
    seq(|lines|, k requires 0 <= k < |lines| => row(lines[k]))
  }

  /** The `while ((line = bf.readLine()) != null)` loop of a keyed reader, over the data lines read so far. */
  function Fold<V>(row: string -> Outcome<V>, path: string, lines: seq<string>, st: Keyed<V>): Keyed<V>
    decreases |lines|
  {
    if |lines| == 0 then st
    else Absorb(Fold(row, path, lines[..|lines| - 1], st), path, lines[|lines| - 1], row(lines[|lines| - 1]))
  }

  /**
   * From an empty table and `i = 1`, the loop leaves every key with the
   * last row stored under it, and appends exactly one row entry per
   * rejected row, in order, after the entries already there.
   */
  lemma {:induction false} FoldSpec<V>(row: string -> Outcome<V>, path: string, lines: seq<string>, base: seq<ExceptionEntry>)
    ensures var st := Fold(row, path, lines, Keyed(map[], 1, base));
            && st.i == |lines| + 1
            && |base| <= |st.exceptions| && st.exceptions[..|base|] == base
            && StoresLast(OutcomesOf(row, lines), st.table)
            && ReportsRejected(path, lines, OutcomesOf(row, lines), st.exceptions[|base|..])
    decreases |lines|
  {
    if |lines| == 0 {
      assert base[|base|..] == [];
    } else {
      var init := lines[..|lines| - 1];
      var last := lines[|lines| - 1];
      FoldSpec(row, path, init, base);
      assert lines == init + [last];
      assert OutcomesOf(row, lines) == OutcomesOf(row, init) + [row(last)];
      AbsorbKeeps(Fold(row, path, init, Keyed(map[], 1, base)), path, init, OutcomesOf(row, init), base, last, row(last));
    }
  }
}
