/**
 * The row tokenizer of the importer: `CSVParser.getColumns`, an index-driven
 * three-state machine that turns one CSV line into its field values.
 *
 * The Java loop is modelled one iteration at a time: `Step` is the body of
 * the `for` loop (the `switch` plus the loop's own `i++`) and `Scan` runs it
 * until `i` reaches the end of the row. Index skips `i += 3` and `i += 2`
 * followed by `i++` advance by 4 and 3.
 *
 * Positions count Unicode characters. Java counts UTF-16 code units, and the
 * two agree on rows made of Basic Multilingual Plane characters only.
 */
module CsvParser {
  import opened JavaStrings

  /** `FSAState`. */
  datatype Mode = Normal | Quotes | DoubleQuotes

  /** The loop's local variables (`end` is only ever a copy of `i`). */
  datatype ScanState = ScanState(
    i: nat,
    begin: int,
    current: Mode,
    previous: Mode,
    quotesBegin: bool,
    columns: seq<string>)

  /** The state before the first iteration. */
  function Start(): ScanState {
    ScanState(0, 0, Normal, Normal, true, [])
  }

  /**
   * What every reachable state satisfies. It is what makes every
   * `CharBuffer.wrap(row, begin, end)` of the loop a valid slice, so
   * `getColumns` never throws.
   */
  predicate Inv(row: string, s: ScanState) {
    && s.i <= |row|
    && 0 <= s.begin
    && s.previous != DoubleQuotes
    && (s.current == Normal ==>
          s.quotesBegin && s.begin <= s.i + 1 && (s.previous != Quotes ==> s.begin <= s.i))
    && (s.current != Normal && !s.quotesBegin ==>
          1 <= s.begin <= s.i && row[s.begin - 1] == '"')
  }

  predicate AllTrimmed(fields: seq<string>) {
    forall f :: f in fields ==> IsTrimmed(f)
  }

  /** `row[k..k+2]` equals `""`. */
  predicate DoubledQuoteAt(row: string, k: int)
    requires 0 <= k && k + 2 <= |row|
  {
    row[k] == '"' && row[k + 1] == '"'
  }

  /** The properties every iteration keeps. */
  predicate Advances(row: string, s: ScanState, r: ScanState)
    requires Inv(row, s)
  {
    && Inv(row, r)
    && s.i < r.i
    && s.columns <= r.columns
    && (AllTrimmed(s.columns) ==> AllTrimmed(r.columns))
  }

  /** A comma in NORMAL_MODE after an unquoted field: the field since `begin` is emitted. */
  function EmitAtComma(row: string, s: ScanState): (r: ScanState)
    requires Inv(row, s) && s.i < |row| && s.current == Normal && s.previous != Quotes
    ensures r.i == s.i && r.current == Normal && r.quotesBegin && r.previous == s.previous
    ensures r.begin == s.i + 1
    ensures s.columns <= r.columns
    ensures AllTrimmed(s.columns) ==> AllTrimmed(r.columns)
  {
    var field := Trim(row[s.begin..s.i]);
    // a comma that ends the row also emits the empty last field
    var columns := if s.i + 1 == |row| then s.columns + [field] + [""] else s.columns + [field];
    s.(begin := s.i + 1, columns := columns)
  }

  /** The comma handling of NORMAL_MODE. */
  function NormalComma(row: string, s: ScanState): (r: ScanState)
    requires Inv(row, s) && s.i < |row| && s.current == Normal && row[s.i] == ','
    ensures r.i == s.i && r.current == Normal && r.quotesBegin && r.previous == Normal
    ensures 0 <= r.begin <= s.i + 1
    ensures s.columns <= r.columns
    ensures AllTrimmed(s.columns) ==> AllTrimmed(r.columns)
    ensures s.previous == Quotes ==> r.columns == s.columns && r.begin == s.begin
  {
    if s.previous != Quotes then EmitAtComma(row, s) else s.(previous := Normal)
  }

  /** One NORMAL_MODE iteration. */
  function NormalStep(row: string, s: ScanState): (r: ScanState)
    requires Inv(row, s) && s.i < |row| && s.current == Normal
    ensures Advances(row, s, r)
    // the machine enters QUOTES_MODE only when the next character is a quote
    ensures r.current == Quotes ==> s.i + 1 < |row| && row[s.i + 1] == '"'
    // the comma right after a closing quote emits nothing and only resets the previous state
    ensures s.previous == Quotes && row[s.i] == ',' && s.begin == s.i + 1 ==>
              r.columns == s.columns && r.previous == Normal
  {
    var afterComma := if row[s.i] == ',' then NormalComma(row, s) else s;
    var afterLast :=
      if afterComma.begin < |row| && s.i + 1 == |row|
      then afterComma.(columns := afterComma.columns + [Trim(row[afterComma.begin..])])
      else afterComma;
    afterLast.(i := s.i + 1,
               current := if s.i + 1 < |row| && row[s.i + 1] == '"' then Quotes else Normal)
  }

  /** The quote handling of QUOTES_MODE: an opening quote moves `begin`, a closing one emits the field. */
  function QuoteSeen(row: string, s: ScanState): ScanState
    requires Inv(row, s) && s.i < |row| && s.current == Quotes
  {
    if row[s.i] != '"' then s
    else if s.quotesBegin then s.(quotesBegin := false, begin := s.i + 1)
    else s.(columns := s.columns + [Trim(CollapseQuotes(row[s.begin..s.i]))],
            begin := s.i + 2, quotesBegin := true, current := Normal, previous := Quotes)
  }

  /** One QUOTES_MODE iteration. */
  function QuotesStep(row: string, s: ScanState): (r: ScanState)
    requires Inv(row, s) && s.i < |row| && s.current == Quotes
    ensures Advances(row, s, r)
    // a quote that closes a quoted field emits the trimmed text since the opening quote, doubled quotes collapsed
    ensures !s.quotesBegin && row[s.i] == '"' ==>
              row[s.begin - 1] == '"' && r.columns == s.columns + [Trim(CollapseQuotes(row[s.begin..s.i]))]
  {
    var afterQuote := QuoteSeen(row, s);
    if s.i + 3 < |row| && DoubledQuoteAt(row, s.i + 1)
    then afterQuote.(i := s.i + 4, current := DoubleQuotes)
    else afterQuote.(i := s.i + 1)
  }

  /** One DOUBLE_QUOTES_MODE iteration. */
  function DoubleQuotesStep(row: string, s: ScanState): (r: ScanState)
    requires Inv(row, s) && s.i < |row| && s.current == DoubleQuotes
    ensures Advances(row, s, r)
    ensures r.columns == s.columns
  {
    if s.i + 3 < |row| && DoubledQuoteAt(row, s.i + 1)
    then s.(i := s.i + 3, current := Quotes)
    else s.(i := s.i + 1)
  }

  /** One iteration of the `for` loop, `i++` included. */
  function Step(row: string, s: ScanState): (r: ScanState)
    requires Inv(row, s) && s.i < |row|
    ensures Advances(row, s, r)
  {
    match s.current
    case Normal => NormalStep(row, s)
    case Quotes => QuotesStep(row, s)
    case DoubleQuotes => DoubleQuotesStep(row, s)
  }

  /** The loop from state `s` to the end of the row; the columns it returns. */
  function Scan(row: string, s: ScanState): (r: seq<string>)
    requires Inv(row, s)
    ensures s.columns <= r
    ensures AllTrimmed(s.columns) ==> AllTrimmed(r)
    decreases |row| - s.i
  {
    if s.i >= |row| then s.columns else Scan(row, Step(row, s))
  }

  /** `CSVParser.getColumns`. */
  function GetColumns(row: string): (r: seq<string>)
    ensures |row| == 0 ==> r == []
    ensures AllTrimmed(r)
  {
    Scan(row, Start())
  }
}

/** What `getColumns` computes, stated against independent definitions. */
module CsvParserProperties {
  import opened JavaStrings
  import opened CsvParser

  /** Every piece trimmed. */
  function TrimAll(pieces: seq<string>): (r: seq<string>)
    ensures |r| == |pieces|
    ensures forall k :: 0 <= k < |r| ==> r[k] == Trim(pieces[k])
  {
    seq(|pieces|, k requires 0 <= k < |pieces| => Trim(pieces[k]))
  }

  /** No quote anywhere after the first character. */
  predicate NoInnerQuote(row: string) {
    forall k :: 1 <= k < |row| ==> row[k] != '"'
  }

  /** The fields completed before `begin`: one per comma up to `begin - 1`. */
  function Completed(row: string, begin: int): seq<string>
    requires 0 <= begin <= |row|
    requires begin > 0 ==> row[begin - 1] == ','
  {
    if begin == 0 then [] else TrimAll(SplitAll(row[..begin - 1], ','))
  }

  lemma TrimAllAppend(a: seq<string>, b: seq<string>)
    ensures TrimAll(a + b) == TrimAll(a) + TrimAll(b)
  {
    assert forall k :: 0 <= k < |a + b| ==> TrimAll(a + b)[k] == (TrimAll(a) + TrimAll(b))[k];
  }

  /** The split of a prefix of `row` whose last piece starts at `begin`. */
  lemma SplitPrefix(row: string, begin: int, j: int)
    requires 0 <= begin <= j <= |row|
    requires begin > 0 ==> row[begin - 1] == ','
    requires ',' !in row[begin..j]
    ensures TrimAll(SplitAll(row[..j], ',')) == Completed(row, begin) + [Trim(row[begin..j])]
  {
    var piece := row[begin..j];
    assert SplitAll(piece, ',') == [piece];
    if begin == 0 {
      assert row[..j] == piece;
    } else {
      var head := row[..begin - 1];
      assert row[..j] == head + [','] + piece;
      SplitAllAppend(head, piece, ',');
      TrimAllAppend(SplitAll(head, ','), [piece]);
    }
  }

  /** `SplitPrefix` for the whole row. */
  lemma SplitWhole(row: string, begin: int)
    requires 0 <= begin <= |row|
    requires begin > 0 ==> row[begin - 1] == ','
    requires ',' !in row[begin..|row|]
    ensures TrimAll(SplitAll(row, ',')) == Completed(row, begin) + [Trim(row[begin..])]
  {
    assert row[..|row|] == row;
    assert row[begin..|row|] == row[begin..];
    SplitPrefix(row, begin, |row|);
  }

  /**
   * The loop state while a row without inner quotes is scanned: the fields
   * before `begin` are done, and once the row is consumed the piece from
   * `begin` to the end has been added too.
   */
  predicate PlainInv(row: string, s: ScanState) {
    && s.current == Normal && s.previous == Normal && s.quotesBegin
    && 0 <= s.begin <= s.i <= |row|
    && (s.begin > 0 ==> row[s.begin - 1] == ',')
    && ',' !in row[s.begin..s.i]
    && (s.i < |row| ==> s.columns == Completed(row, s.begin))
    && (s.i == |row| ==> s.columns == Completed(row, s.begin) + [Trim(row[s.begin..])])
  }

  /** In plain Normal mode a comma closes the field and moves `begin` past it. */
  lemma StepAtComma(row: string, s: ScanState)
    requires NoInnerQuote(row) && Inv(row, s)
    requires s.current == Normal && s.previous == Normal && s.begin <= s.i < |row| && row[s.i] == ','
    ensures Step(row, s) == ScanState(s.i + 1, s.i + 1, Normal, Normal, true,
      if s.i + 1 == |row| then s.columns + [Trim(row[s.begin..s.i])] + [""]
      else s.columns + [Trim(row[s.begin..s.i])])
  {
  }

  /** In plain Normal mode any other character extends the field. */
  lemma StepAtOther(row: string, s: ScanState)
    requires NoInnerQuote(row) && Inv(row, s)
    requires s.current == Normal && s.previous == Normal && s.begin <= s.i < |row| && row[s.i] != ','
    ensures Step(row, s) == ScanState(s.i + 1, s.begin, Normal, Normal, true,
      if s.i + 1 == |row| then s.columns + [Trim(row[s.begin..])] else s.columns)
  {
  }

  lemma SliceExtend(row: string, b: int, i: int)
    requires 0 <= b <= i < |row|
    ensures row[b..i + 1] == row[b..i] + [row[i]]
  {
  }

  /** The fields before the comma at `i`: the ones before `begin`, then the piece up to `i`. */
  lemma CommaColumns(row: string, begin: int, i: int)
    requires 0 <= begin <= i < |row| && row[i] == ','
    requires begin > 0 ==> row[begin - 1] == ','
    requires ',' !in row[begin..i]
    ensures Completed(row, begin) + [Trim(row[begin..i])] == Completed(row, i + 1)
  {
    SplitPrefix(row, begin, i);
  }

  /** A comma inside the row ends the current piece. */
  lemma InnerCommaKeeps(row: string, s: ScanState, t: ScanState)
    requires PlainInv(row, s) && s.i + 1 < |row| && row[s.i] == ','
    requires t == ScanState(s.i + 1, s.i + 1, Normal, Normal, true, s.columns + [Trim(row[s.begin..s.i])])
    ensures PlainInv(row, t)
  {
    CommaColumns(row, s.begin, s.i);
    assert row[t.begin..t.i] == "";
  }

  /** The fields before a comma that ends the row, then the empty one after it. */
  lemma LastCommaColumns(row: string, begin: int)
    requires 0 <= begin < |row| && row[|row| - 1] == ','
    requires begin > 0 ==> row[begin - 1] == ','
    requires ',' !in row[begin..|row| - 1]
    ensures Completed(row, begin) + [Trim(row[begin..|row| - 1])] + [""]
         == Completed(row, |row|) + [Trim(row[|row|..])]
  {
    CommaColumns(row, begin, |row| - 1);
    assert row[|row|..] == "";
    assert Trim("") == "";
  }

  /** A comma at the end of the row ends the current piece and adds an empty one. */
  lemma LastCommaKeeps(row: string, s: ScanState, t: ScanState)
    requires PlainInv(row, s) && s.i + 1 == |row| && row[s.i] == ','
    requires t == ScanState(s.i + 1, s.i + 1, Normal, Normal, true, s.columns + [Trim(row[s.begin..s.i])] + [""])
    ensures PlainInv(row, t)
  {
    LastCommaColumns(row, s.begin);
    assert row[t.begin..t.i] == "";
  }

  /** Any other character extends the current piece; the last one completes the row. */
  lemma OtherKeeps(row: string, s: ScanState, t: ScanState)
    requires PlainInv(row, s) && s.i < |row| && row[s.i] != ','
    requires t == ScanState(s.i + 1, s.begin, Normal, Normal, true,
      if s.i + 1 == |row| then s.columns + [Trim(row[s.begin..])] else s.columns)
    ensures PlainInv(row, t)
  {
    assert ',' !in row[t.begin..t.i] by {
      SliceExtend(row, s.begin, s.i);
    }
  }

  /** Once the row is consumed, the fields are the trimmed comma-separated pieces. */
  lemma PlainDone(row: string, s: ScanState)
    requires PlainInv(row, s) && s.i == |row|
    ensures s.columns == TrimAll(SplitAll(row, ','))
  {
    SplitWhole(row, s.begin);
  }

  lemma {:induction false} PlainScan(row: string, s: ScanState)
    requires NoInnerQuote(row)
    requires PlainInv(row, s)
    ensures Inv(row, s) && Scan(row, s) == TrimAll(SplitAll(row, ','))
    decreases |row| - s.i
  {
    if s.i == |row| {
      PlainDone(row, s);
    } else {
      if row[s.i] == ',' {
        StepAtComma(row, s);
        if s.i + 1 < |row| {
          InnerCommaKeeps(row, s, Step(row, s));
        } else {
          LastCommaKeeps(row, s, Step(row, s));
        }
      } else {
        StepAtOther(row, s);
        OtherKeeps(row, s, Step(row, s));
      }
      PlainScan(row, Step(row, s));
    }
  }

  /**
   * A non-empty row with no quote after its first character is split at
   * every comma, each piece trimmed: leading, inner and trailing empty
   * fields included, so there is one field more than there are commas.
   */
  lemma NoInnerQuoteIsTrimmedSplit(row: string)
    requires |row| > 0 && NoInnerQuote(row)
    ensures GetColumns(row) == TrimAll(SplitAll(row, ','))
    ensures |GetColumns(row)| == Count(row, ',') + 1
  {
    assert row[0..0] == "";
    PlainScan(row, Start());
  }

  /** A quote at index 0 is never an opening quote: it stays in the first field. */
  lemma LeadingQuoteIsLiteral(row: string)
    requires |row| > 0 && row[0] == '"' && NoInnerQuote(row)
    ensures |GetColumns(row)| > 0 && |GetColumns(row)[0]| > 0 && GetColumns(row)[0][0] == '"'
  {
    NoInnerQuoteIsTrimmedSplit(row);
    var pieces := SplitAll(row, ',');
    if ',' in row {
      var k := FirstIndex(row, ',');
      assert k > 0;
      assert pieces[0] == row[..k];
    }
    assert pieces[0][0] == '"';
  }

  lemma JoinAvoids(pieces: seq<string>, sep: char, c: char)
    requires c != sep
    requires forall k :: 0 <= k < |pieces| ==> c !in pieces[k]
    ensures c !in Join(pieces, sep)
  {
  }

  /**
   * Tokenizer round trip: trimmed fields free of commas and quotes, joined
   * with commas into a non-empty row, come back unchanged.
   */
  lemma TokenizeJoin(fields: seq<string>)
    requires |fields| > 0 && Join(fields, ',') != ""
    requires forall k :: 0 <= k < |fields| ==> ',' !in fields[k] && '"' !in fields[k] && IsTrimmed(fields[k])
    ensures GetColumns(Join(fields, ',')) == fields
  {
    var row := Join(fields, ',');
    JoinAvoids(fields, ',', '"');
    NoInnerQuoteIsTrimmedSplit(row);
    SplitAllJoin(fields, ',');
  }

  /** Inside the quoted field of `EmbeddedComma` the characters, comma included, change nothing. */
  lemma QuotedYZText(row: string)
    requires row == "x,\"y,z\",w"
    ensures Scan(row, ScanState(3, 3, Quotes, Normal, false, ["x"]))
         == Scan(row, ScanState(6, 3, Quotes, Normal, false, ["x"]))
  {
    var s3 := ScanState(3, 3, Quotes, Normal, false, ["x"]);
    calc {
      Scan(row, s3);
      { assert Step(row, s3) == s3.(i := 4); }
      Scan(row, s3.(i := 4));
      { assert Step(row, s3.(i := 4)) == s3.(i := 5); }
      Scan(row, s3.(i := 5));
      { assert Step(row, s3.(i := 5)) == s3.(i := 6); }
      Scan(row, s3.(i := 6));
    }
  }

  /** The closing quote of that field emits it. */
  lemma QuotedYZClose(row: string)
    requires row == "x,\"y,z\",w"
    ensures Scan(row, ScanState(6, 3, Quotes, Normal, false, ["x"]))
         == Scan(row, ScanState(7, 8, Normal, Quotes, true, ["x", "y,z"]))
  {
    var s6 := ScanState(6, 3, Quotes, Normal, false, ["x"]);
    assert row[3..6] == "y,z";
    assert CollapseQuotes("y,z") == "y,z";
    assert Trim("y,z") == "y,z";
    assert Step(row, s6) == ScanState(7, 8, Normal, Quotes, true, ["x", "y,z"]);
  }

  /** Commas inside a quoted field do not split it. */
  lemma EmbeddedComma(row: string)
    requires row == "x,\"y,z\",w"
    ensures GetColumns(row) == ["x", "y,z", "w"]
  {
    var s1 := ScanState(1, 0, Normal, Normal, true, []);
    var s2 := ScanState(2, 2, Quotes, Normal, true, ["x"]);
    var s3 := ScanState(3, 3, Quotes, Normal, false, ["x"]);
    var s7 := ScanState(7, 8, Normal, Quotes, true, ["x", "y,z"]);
    var s8 := ScanState(8, 8, Normal, Normal, true, ["x", "y,z"]);
    var s9 := ScanState(9, 8, Normal, Normal, true, ["x", "y,z", "w"]);
    calc {
      GetColumns(row);
      { assert Step(row, Start()) == s1; }
      Scan(row, s1);
      { assert row[0..1] == "x"; assert Trim("x") == "x"; assert Step(row, s1) == s2; }
      Scan(row, s2);
      { assert Step(row, s2) == s3; }
      Scan(row, s3);
      { QuotedYZText(row); QuotedYZClose(row); }
      Scan(row, s7);
      { assert Step(row, s7) == s8; }
      Scan(row, s8);
      { assert row[8..] == "w"; assert Trim("w") == "w"; assert Step(row, s8) == s9; }
      Scan(row, s9);
    }
  }

  /**
   * In the row `a,"b""c",d` the doubled quote sends the machine into
   * DOUBLE_QUOTES_MODE past `c`. No `""` follows in the rest of this row,
   * so nothing after it is emitted and only the first field is returned.
   * A row with a second `""` after the skip, such as `x,"a""bc""d",e`,
   * goes back to QUOTES_MODE instead.
   */
  lemma DoubledQuoteSwallowsRest(row: string)
    requires row == "a,\"b\"\"c\",d"
    ensures GetColumns(row) == ["a"]
  {
    var s1 := ScanState(1, 0, Normal, Normal, true, []);
    var s2 := ScanState(2, 2, Quotes, Normal, true, ["a"]);
    var s3 := ScanState(3, 3, Quotes, Normal, false, ["a"]);
    var s4 := ScanState(7, 3, DoubleQuotes, Normal, false, ["a"]);
    calc {
      GetColumns(row);
      { assert Step(row, Start()) == s1; }
      Scan(row, s1);
      { assert row[0..1] == "a"; assert Trim("a") == "a"; assert Step(row, s1) == s2; }
      Scan(row, s2);
      { assert Step(row, s2) == s3; }
      Scan(row, s3);
      { assert Step(row, s3) == s4; }
      Scan(row, s4);
      { assert Step(row, s4) == s4.(i := 8); }
      Scan(row, s4.(i := 8));
      { assert Step(row, s4.(i := 8)) == s4.(i := 9); }
      Scan(row, s4.(i := 9));
      { assert Step(row, s4.(i := 9)) == s4.(i := 10); }
      Scan(row, s4.(i := 10));
    }
  }
}
