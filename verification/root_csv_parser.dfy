/**
 * The second copy of the row tokenizer, the instance method
 * `getColumns` of the package-level `CSVParser`. Its body is the same
 * state machine as the `io` copy; here it is written as the loop itself,
 * mutating its locals, and the loop invariant ties every iteration to one
 * `Step` of the functional model.
 */
module RootCsvParser {
  import opened JavaStrings
  import opened CsvParser
  import opened CsvParserProperties

  /** The lookahead `CharBuffer.wrap(row, i + 1, i + 3).toString().equals("\"\"")`. */
  lemma LookaheadIsDoubledQuote(row: string, i: int)
    requires 0 <= i && i + 3 < |row|
    ensures row[i + 1..i + 3] == "\"\"" <==> DoubledQuoteAt(row, i + 1)
  {
    if DoubledQuoteAt(row, i + 1) {
      assert row[i + 1..i + 3] == [row[i + 1], row[i + 2]];
    }
  }

  /** The NORMAL_MODE branch of the loop body, the loop's `i++` included. */
  method NormalIteration(row: string, i: nat, begin: int, previous: Mode, columns: seq<string>)
    returns (i': nat, begin': int, current': Mode, previous': Mode, columns': seq<string>)
    requires i < |row| && Inv(row, ScanState(i, begin, Normal, previous, true, columns))
    ensures ScanState(i', begin', current', previous', true, columns')
              == Step(row, ScanState(i, begin, Normal, previous, true, columns))
  {
    i', begin', current', previous', columns' := i, begin, Normal, previous, columns;
    if row[i] == ',' {
      if previous != Quotes {
        columns' := columns' + [Trim(row[begin..i])];
        begin' := i + 1;
        if begin' == |row| {
          columns' := columns' + [""];
        }
      } else {
        previous' := Normal;
      }
    }
    if begin' < |row| && i + 1 == |row| {
      assert row[begin'..i + 1] == row[begin'..];
      columns' := columns' + [Trim(row[begin'..i + 1])];
    }
    if i + 1 < |row| && row[i + 1] == '"' {
      current' := Quotes;
    }
    i' := i + 1;
  }

  /** The lookahead `CharBuffer.wrap(row, i + 1, i + 3).toString().equals("\"\"")`. */
  method DoubledQuoteFollows(row: string, i: nat) returns (b: bool)
    requires i < |row|
    ensures b == (i + 3 < |row| && DoubledQuoteAt(row, i + 1))
  {
    b := i + 3 < |row| && row[i + 1..i + 3] == "\"\"";
    if i + 3 < |row| {
      LookaheadIsDoubledQuote(row, i);
    }
  }

  /** The QUOTES_MODE branch of the loop body, the loop's `i++` included. */
  method QuotesIteration(row: string, i: nat, begin: int, previous: Mode, quotesBegin: bool, columns: seq<string>)
    returns (i': nat, begin': int, current': Mode, previous': Mode, quotesBegin': bool, columns': seq<string>)
    requires i < |row| && Inv(row, ScanState(i, begin, Quotes, previous, quotesBegin, columns))
    ensures ScanState(i', begin', current', previous', quotesBegin', columns')
              == Step(row, ScanState(i, begin, Quotes, previous, quotesBegin, columns))
  {
    i', begin', current', previous', quotesBegin', columns' := i, begin, Quotes, previous, quotesBegin, columns;
    if row[i] == '"' {
      if quotesBegin {
        quotesBegin' := false;
        begin' := i + 1;
      } else {
        columns' := columns + [Trim(CollapseQuotes(row[begin..i]))];
        begin' := i + 2;
        quotesBegin' := true;
        current' := Normal;
        previous' := Quotes;
      }
    }
    var skip := DoubledQuoteFollows(row, i);
    if skip {
      current' := DoubleQuotes;
      i' := i + 3;
    }
    i' := i' + 1;
  }

  /** The DOUBLE_QUOTES_MODE branch of the loop body, the loop's `i++` included. */
  method DoubleQuotesIteration(row: string, i: nat, begin: int, previous: Mode, quotesBegin: bool, columns: seq<string>)
    returns (i': nat, current': Mode)
    requires i < |row| && Inv(row, ScanState(i, begin, DoubleQuotes, previous, quotesBegin, columns))
    ensures ScanState(i', begin, current', previous, quotesBegin, columns)
              == Step(row, ScanState(i, begin, DoubleQuotes, previous, quotesBegin, columns))
  {
    i', current' := i, DoubleQuotes;
    var skip := DoubledQuoteFollows(row, i);
    if skip {
      current' := Quotes;
      i' := i + 2;
    }
    i' := i' + 1;
  }

  /**
   * `CSVParser.getColumns` of the package root. The class keeps no state,
   * so the result is a function of `row` alone: the one the `io` copy
   * computes.
   */
  method GetColumns(row: string) returns (columns: seq<string>)
    ensures columns == CsvParser.GetColumns(row)
    ensures |row| == 0 ==> columns == []
    ensures AllTrimmed(columns)
    ensures |row| > 0 && NoInnerQuote(row) ==> columns == TrimAll(SplitAll(row, ','))
  {
    var current, previous := Normal, Normal;
    columns := [];
    var begin := 0;
    var quotesBegin := true;
    var i := 0;
    while i < |row|
      invariant Inv(row, ScanState(i, begin, current, previous, quotesBegin, columns))
      invariant Scan(row, ScanState(i, begin, current, previous, quotesBegin, columns)) == CsvParser.GetColumns(row)
      decreases |row| - i
    {
      match current {
        case Normal =>
          i, begin, current, previous, columns := NormalIteration(row, i, begin, previous, columns);
        case Quotes =>
          i, begin, current, previous, quotesBegin, columns := QuotesIteration(row, i, begin, previous, quotesBegin, columns);
        case DoubleQuotes =>
          i, current := DoubleQuotesIteration(row, i, begin, previous, quotesBegin, columns);
      }
    }
    if |row| > 0 && NoInnerQuote(row) {
      NoInnerQuoteIsTrimmedSplit(row);
    }
  }
}
