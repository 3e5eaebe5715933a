/** Chargeback: spend per cost centre, largest first, and its export for a spreadsheet. */
module Chargeback {
  import opened Csv
  import opened Decimal
  import opened Sequences
  import opened Wrappers

  datatype Entry = Entry(center: Option<string>, requests: int, spend: int, savings: int, fee: int)

  datatype Line = Line(center: string, requests: int, spend: int, savings: int, fee: int, share: real)

  datatype Report = Report(lines: seq<Line>, total: int, unattributed: int)

  function TotalSpend(entries: seq<Entry>): int {
    if entries == [] then 0 else TotalSpend(entries[..|entries| - 1]) + entries[|entries| - 1].spend
  }

  function UnattributedSpend(entries: seq<Entry>): int {
    if entries == [] then 0
    else
      var last := entries[|entries| - 1];
      UnattributedSpend(entries[..|entries| - 1]) + if last.center.None? then last.spend else 0
  }

  function Share(spend: int, total: int): real {
    if total > 0 then spend as real / total as real * 100.0 else 0.0
  }

  /** The entries that name a cost centre, in the order given. */
  function Attributed(entries: seq<Entry>, total: int): seq<Line> {
    if entries == [] then []
    else
      var last := entries[|entries| - 1];
      Attributed(entries[..|entries| - 1], total) +
      if last.center.Some?
      then [Line(last.center.value, last.requests, last.spend, last.savings, last.fee, Share(last.spend, total))]
      else []
  }

  /** `line` after everything in `lines` that spent at least as much. */
  function Insert(lines: seq<Line>, line: Line): seq<Line> {
    if lines == [] || lines[|lines| - 1].spend >= line.spend then lines + [line]
    else Insert(lines[..|lines| - 1], line) + [lines[|lines| - 1]]
  }

  /** A stable sort by descending spend. */
  function LargestFirst(lines: seq<Line>): seq<Line> {
    if lines == [] then [] else Insert(LargestFirst(lines[..|lines| - 1]), lines[|lines| - 1])
  }

  function Build(entries: seq<Entry>): Report {
    var total := TotalSpend(entries);
    Report(LargestFirst(Attributed(entries, total)), total, UnattributedSpend(entries))
  }

  // ---------------------------------------------------------------------------------------
  // Export
  // ---------------------------------------------------------------------------------------

  /** Hundredths, rounded to the nearest and half to even. */
  function Hundredths(x: real): nat
    requires x >= 0.0
  {
    var h := (x * 100.0).Floor;
    var rest := x * 100.0 - h as real;
    if rest > 0.5 || (rest == 0.5 && h % 2 == 1) then h + 1 else h
  }

  function ShareText(share: real): string {
    var h := Hundredths(if share < 0.0 then -share else share);
    (if share < 0.0 then "-" else "") + Dec(h / 100) + "." + Padded(2, h % 100)
  }

  function Fields(line: Line): (r: seq<string>)
    ensures |r| == 6
  {
    [line.center, IntText(line.requests), MillionthsText(line.spend), MillionthsText(line.savings),
     MillionthsText(line.fee), ShareText(line.share)]
  }

  function HeaderFields(): seq<string> {
    ["cost_center", "requests", "spend_usd", "savings_usd", "aegis_fee_usd", "share_percent"]
  }

  function UnattributedFields(spend: int): seq<string> {
    ["(unattributed)", "0", MillionthsText(spend), "0.000000", "0.000000", "0.00"]
  }

  function LineRows(lines: seq<Line>): (rows: seq<seq<string>>)
    ensures |rows| == |lines| && NoneEmpty(rows)
  {
    if lines == [] then [] else LineRows(lines[..|lines| - 1]) + [Fields(lines[|lines| - 1])]
  }

  /** The header and the rows of some lines. */
  function Headed(lines: seq<Line>): (rows: seq<seq<string>>)
    ensures NoneEmpty(rows)
  {
    [HeaderFields()] + LineRows(lines)
  }

  /** The table a report is exported as. */
  function Rows(report: Report): (rows: seq<seq<string>>)
    ensures NoneEmpty(rows)
  {
    Headed(report.lines) + if report.unattributed > 0 then [UnattributedFields(report.unattributed)] else []
  }

  function Then(field: string, rest: string): string { field + [','] + rest }

  /** Six texts on one line, as the format strings lay them out. */
  function Laid(a: string, b: string, c: string, d: string, e: string, f: string): string {
    Then(a, Then(b, Then(c, Then(d, Then(e, f + ['\n'])))))
  }

  lemma RecordStep(fields: seq<string>, rest: seq<string>)
    requires |fields| > 1 && rest == fields[1..]
    ensures Record(fields) == Then(Escape(fields[0]), Record(rest))
  {
  }

  lemma LaidIsRecord(a: string, b: string, c: string, d: string, e: string, f: string)
    requires !NeedsQuotes(b) && !NeedsQuotes(c) && !NeedsQuotes(d) && !NeedsQuotes(e) && !NeedsQuotes(f)
    ensures Laid(Escape(a), b, c, d, e, f) == Record([a, b, c, d, e, f])
  {
    RecordStep([a, b, c, d, e, f], [b, c, d, e, f]);
    RecordStep([b, c, d, e, f], [c, d, e, f]);
    RecordStep([c, d, e, f], [d, e, f]);
    RecordStep([d, e, f], [e, f]);
    RecordStep([e, f], [f]);
  }

  predicate Numeric(s: string) { forall i :: 0 <= i < |s| ==> IsDigit(s[i]) || s[i] == '-' || s[i] == '.' }

  lemma NumbersAreNumeric(line: Line)
    ensures Numeric(IntText(line.requests)) && Numeric(ShareText(line.share))
    ensures Numeric(MillionthsText(line.spend)) && Numeric(MillionthsText(line.savings))
    ensures Numeric(MillionthsText(line.fee))
  {
  }

  lemma LineIsRecord(line: Line)
    ensures Laid(Escape(line.center), IntText(line.requests), MillionthsText(line.spend),
                 MillionthsText(line.savings), MillionthsText(line.fee), ShareText(line.share)) ==
            Record(Fields(line))
  {
    NumbersAreNumeric(line);
    LaidIsRecord(line.center, IntText(line.requests), MillionthsText(line.spend),
                 MillionthsText(line.savings), MillionthsText(line.fee), ShareText(line.share));
  }

  lemma PlainIsRecord(a: string, b: string, c: string, d: string, e: string, f: string)
    requires !NeedsQuotes(a) && !NeedsQuotes(b) && !NeedsQuotes(c)
    requires !NeedsQuotes(d) && !NeedsQuotes(e) && !NeedsQuotes(f)
    ensures Laid(a, b, c, d, e, f) == Record([a, b, c, d, e, f])
  {
    LaidIsRecord(a, b, c, d, e, f);
  }

  lemma NamesArePlain()
    ensures !NeedsQuotes("cost_center") && !NeedsQuotes("requests") && !NeedsQuotes("spend_usd")
  {
  }

  lemma MoreNamesArePlain()
    ensures !NeedsQuotes("savings_usd") && !NeedsQuotes("aegis_fee_usd") && !NeedsQuotes("share_percent")
  {
  }

  lemma FillersArePlain()
    ensures !NeedsQuotes("(unattributed)") && !NeedsQuotes("0") && !NeedsQuotes("0.000000") && !NeedsQuotes("0.00")
  {
  }

  lemma HeaderIsRecord()
    ensures Laid("cost_center", "requests", "spend_usd", "savings_usd", "aegis_fee_usd", "share_percent") ==
            Record(HeaderFields())
  {
    NamesArePlain();
    MoreNamesArePlain();
    PlainIsRecord("cost_center", "requests", "spend_usd", "savings_usd", "aegis_fee_usd", "share_percent");
  }

  lemma MillionthsArePlain(amount: int)
    ensures !NeedsQuotes(MillionthsText(amount))
  {
    NumbersAreNumeric(Line("", 0, amount, 0, 0, 0.0));
  }

  lemma UnattributedIsRecord(spend: int)
    ensures Laid("(unattributed)", "0", MillionthsText(spend), "0.000000", "0.000000", "0.00") ==
            Record(UnattributedFields(spend))
  {
    FillersArePlain();
    MillionthsArePlain(spend);
    PlainIsRecord("(unattributed)", "0", MillionthsText(spend), "0.000000", "0.000000", "0.00");
  }

  /** One more line keeps the text that of the table so far. */
  lemma LineAppended(lines: seq<Line>, i: nat)
    requires i < |lines|
    ensures var line := lines[i];
            Records(Headed(lines[..i + 1])) ==
            Records(Headed(lines[..i])) +
            Laid(Escape(line.center), IntText(line.requests), MillionthsText(line.spend),
                 MillionthsText(line.savings), MillionthsText(line.fee), ShareText(line.share))
  {
    assert lines[..i + 1][..i] == lines[..i];
    LineIsRecord(lines[i]);
    RecordsSnoc(Headed(lines[..i]), Fields(lines[i]));
    Assoc([HeaderFields()], LineRows(lines[..i]), [Fields(lines[i])]);
  }

  lemma HeaderComesFirst()
    ensures Records(Headed([])) ==
            Laid("cost_center", "requests", "spend_usd", "savings_usd", "aegis_fee_usd", "share_percent")
  {
    HeaderIsRecord();
    RecordsSnoc([], HeaderFields());
    assert Headed([]) == [] + [HeaderFields()];
  }

  lemma UnattributedComesLast(report: Report)
    requires report.unattributed > 0
    ensures Records(Rows(report)) ==
            Records(Headed(report.lines)) +
            Laid("(unattributed)", "0", MillionthsText(report.unattributed), "0.000000", "0.000000", "0.00")
  {
    UnattributedIsRecord(report.unattributed);
    RecordsSnoc(Headed(report.lines), UnattributedFields(report.unattributed));
  }

  lemma NothingUnattributed(report: Report)
    requires report.unattributed <= 0
    ensures Rows(report) == Headed(report.lines)
  {
  }

  /** The export is the text of the report's table. */
  method ToCsv(report: Report) returns (csv: string)
    ensures csv == Records(Rows(report))
  {
    csv := Laid("cost_center", "requests", "spend_usd", "savings_usd", "aegis_fee_usd", "share_percent");
    HeaderComesFirst();
    for i := 0 to |report.lines|
      invariant csv == Records(Headed(report.lines[..i]))
    {
      var line := report.lines[i];
      LineAppended(report.lines, i);
      csv := csv + Laid(Escape(line.center), IntText(line.requests), MillionthsText(line.spend),
                        MillionthsText(line.savings), MillionthsText(line.fee), ShareText(line.share));
    }
    assert report.lines[..|report.lines|] == report.lines;
    if report.unattributed > 0 {
      UnattributedComesLast(report);
      csv := csv + Laid("(unattributed)", "0", MillionthsText(report.unattributed), "0.000000", "0.000000", "0.00");
    } else {
      NothingUnattributed(report);
    }
  }

  // ---------------------------------------------------------------------------------------
  // Laws
  // ---------------------------------------------------------------------------------------

  /** The lines that spent exactly `spend`, in order. */
  function WithSpend(lines: seq<Line>, spend: int): (r: seq<Line>)
    ensures forall line :: line in r ==> line in lines && line.spend == spend
  {
    if lines == [] then []
    else WithSpend(lines[..|lines| - 1], spend) +
         if lines[|lines| - 1].spend == spend then [lines[|lines| - 1]] else []
  }

  predicate Descending(lines: seq<Line>) {
    forall i, j :: 0 <= i < j < |lines| ==> lines[i].spend >= lines[j].spend
  }

  lemma Snoc(lines: seq<Line>)
    requires lines != []
    ensures multiset(lines) == multiset(lines[..|lines| - 1]) + multiset{lines[|lines| - 1]}
  {
    assert lines == lines[..|lines| - 1] + [lines[|lines| - 1]];
  }

  lemma {:induction false} InsertKeeps(lines: seq<Line>, line: Line)
    ensures multiset(Insert(lines, line)) == multiset(lines) + multiset{line}
  {
    if !(lines == [] || lines[|lines| - 1].spend >= line.spend) {
      InsertKeeps(lines[..|lines| - 1], line);
      Snoc(lines);
    }
  }

  lemma {:induction false} InsertPlaces(lines: seq<Line>, line: Line, bound: int)
    requires Descending(lines) && line.spend >= bound && forall i :: 0 <= i < |lines| ==> lines[i].spend >= bound
    ensures Descending(Insert(lines, line))
    ensures forall i :: 0 <= i < |Insert(lines, line)| ==> Insert(lines, line)[i].spend >= bound
  {
    if !(lines == [] || lines[|lines| - 1].spend >= line.spend) {
      InsertPlaces(lines[..|lines| - 1], line, lines[|lines| - 1].spend);
    }
  }

  function Matching(line: Line, spend: int): seq<Line> { if line.spend == spend then [line] else [] }

  lemma WithSpendSnoc(lines: seq<Line>, line: Line, spend: int)
    ensures WithSpend(lines + [line], spend) == WithSpend(lines, spend) + Matching(line, spend)
  {
    assert (lines + [line])[..|lines|] == lines;
  }

  lemma {:induction false} InsertIsStable(lines: seq<Line>, line: Line, spend: int)
    ensures WithSpend(Insert(lines, line), spend) == WithSpend(lines, spend) + Matching(line, spend)
  {
    if lines == [] || lines[|lines| - 1].spend >= line.spend {
      WithSpendSnoc(lines, line, spend);
    } else {
      var front, last := lines[..|lines| - 1], lines[|lines| - 1];
      InsertIsStable(front, line, spend);
      WithSpendSnoc(Insert(front, line), last, spend);
      Swap(WithSpend(front, spend), Matching(line, spend), Matching(last, spend));
    }
  }

  lemma Swap(front: seq<Line>, x: seq<Line>, y: seq<Line>)
    requires x == [] || y == []
    ensures front + x + y == front + y + x
  {
  }

  lemma {:induction false} LargestFirstDescends(lines: seq<Line>)
    ensures Descending(LargestFirst(lines))
  {
    if lines != [] {
      var sorted, line := LargestFirst(lines[..|lines| - 1]), lines[|lines| - 1];
      LargestFirstDescends(lines[..|lines| - 1]);
      var lowest := if sorted == [] then line.spend else sorted[|sorted| - 1].spend;
      InsertPlaces(sorted, line, if lowest < line.spend then lowest else line.spend);
    }
  }

  lemma {:induction false} LargestFirstPermutes(lines: seq<Line>)
    ensures multiset(LargestFirst(lines)) == multiset(lines)
  {
    if lines != [] {
      LargestFirstPermutes(lines[..|lines| - 1]);
      InsertKeeps(LargestFirst(lines[..|lines| - 1]), lines[|lines| - 1]);
      Snoc(lines);
    }
  }

  /** Lines of equal spend stay in the order they came in. */
  lemma {:induction false} LargestFirstIsStable(lines: seq<Line>, spend: int)
    ensures WithSpend(LargestFirst(lines), spend) == WithSpend(lines, spend)
  {
    if lines != [] {
      LargestFirstIsStable(lines[..|lines| - 1], spend);
      InsertIsStable(LargestFirst(lines[..|lines| - 1]), lines[|lines| - 1], spend);
    }
  }

  lemma {:induction false} LastIsLeast(lines: seq<Line>, spend: int)
    requires Descending(lines) && lines != []
    ensures WithSpend(lines, spend) != [] ==> lines[|lines| - 1].spend <= spend
    ensures WithSpend(lines, lines[|lines| - 1].spend) != []
  {
    if WithSpend(lines, spend) != [] {
      assert WithSpend(lines, spend)[0] in lines;
    }
  }

  /** Two descending orders that agree on each spend end in the same line. */
  lemma SameLast(a: seq<Line>, b: seq<Line>)
    requires Descending(a) && Descending(b) && a != [] && b != []
    requires forall spend :: WithSpend(a, spend) == WithSpend(b, spend)
    ensures a[|a| - 1] == b[|b| - 1]
  {
    var x, y := a[|a| - 1], b[|b| - 1];
    LastIsLeast(a, y.spend);
    LastIsLeast(b, x.spend);
    assert x.spend == y.spend;
    var w := WithSpend(a, x.spend);
    assert w[|w| - 1] == x && WithSpend(b, x.spend)[|w| - 1] == y;
  }

  /** There is only one way to put lines largest first and keep equal ones in order. */
  lemma {:induction false} StableOrderIsUnique(a: seq<Line>, b: seq<Line>)
    requires Descending(a) && Descending(b)
    requires forall spend :: WithSpend(a, spend) == WithSpend(b, spend)
    ensures a == b
  {
    if a != [] && b != [] {
      var m, n := |a| - 1, |b| - 1;
      SameLast(a, b);
      forall spend
        ensures WithSpend(a[..m], spend) == WithSpend(b[..n], spend)
      {
        assert WithSpend(a, spend) == WithSpend(b, spend);
        SameFronts(WithSpend(a[..m], spend), WithSpend(b[..n], spend), Matching(a[m], spend));
      }
      StableOrderIsUnique(a[..m], b[..n]);
      assert a == a[..m] + [a[m]] && b == b[..n] + [b[n]];
    } else if a != [] {
      LastIsLeast(a, 0);
    } else if b != [] {
      LastIsLeast(b, 0);
    }
  }

  lemma SameFronts(x: seq<Line>, y: seq<Line>, tail: seq<Line>)
    requires x + tail == y + tail
    ensures x == y
  {
    assert x == (x + tail)[..|x|] && y == (y + tail)[..|y|];
  }

  function LineSpend(lines: seq<Line>): int {
    if lines == [] then 0 else LineSpend(lines[..|lines| - 1]) + lines[|lines| - 1].spend
  }

  lemma {:induction false} InsertAdds(lines: seq<Line>, line: Line)
    ensures LineSpend(Insert(lines, line)) == LineSpend(lines) + line.spend
  {
    if !(lines == [] || lines[|lines| - 1].spend >= line.spend) {
      InsertAdds(lines[..|lines| - 1], line);
    }
  }

  lemma {:induction false} SortKeepsSpend(lines: seq<Line>)
    ensures LineSpend(LargestFirst(lines)) == LineSpend(lines)
  {
    if lines != [] {
      SortKeepsSpend(lines[..|lines| - 1]);
      InsertAdds(LargestFirst(lines[..|lines| - 1]), lines[|lines| - 1]);
    }
  }

  lemma {:induction false} SpendIsAttributedOrNot(entries: seq<Entry>, total: int)
    ensures LineSpend(Attributed(entries, total)) + UnattributedSpend(entries) == TotalSpend(entries)
  {
    if entries != [] {
      var front, last := entries[..|entries| - 1], entries[|entries| - 1];
      SpendIsAttributedOrNot(front, total);
      var before, added := Attributed(front, total), Attributed(entries, total);
      assert added[..|before|] == before;
      assert last.center.None? ==> added == before;
    }
  }

  /** No spend is lost or absorbed: the lines and what names no cost centre come to the total. */
  lemma SpendIsConserved(entries: seq<Entry>)
    ensures var report := Build(entries); LineSpend(report.lines) + report.unattributed == report.total
  {
    var total := TotalSpend(entries);
    SortKeepsSpend(Attributed(entries, total));
    SpendIsAttributedOrNot(entries, total);
    assert Build(entries).lines == LargestFirst(Attributed(entries, total));
  }

  function ShareSum(lines: seq<Line>): real {
    if lines == [] then 0.0 else ShareSum(lines[..|lines| - 1]) + lines[|lines| - 1].share
  }

  lemma {:induction false} InsertAddsShare(lines: seq<Line>, line: Line)
    ensures ShareSum(Insert(lines, line)) == ShareSum(lines) + line.share
  {
    if !(lines == [] || lines[|lines| - 1].spend >= line.spend) {
      InsertAddsShare(lines[..|lines| - 1], line);
    }
  }

  lemma {:induction false} SortKeepsShares(lines: seq<Line>)
    ensures ShareSum(LargestFirst(lines)) == ShareSum(lines)
  {
    if lines != [] {
      SortKeepsShares(lines[..|lines| - 1]);
      InsertAddsShare(LargestFirst(lines[..|lines| - 1]), lines[|lines| - 1]);
    }
  }

  lemma AddShares(a: int, b: int, total: int)
    requires total > 0
    ensures Share(a, total) + Share(b, total) == Share(a + b, total)
  {
    var x, y, z := a as real / total as real, b as real / total as real, (a + b) as real / total as real;
    assert x * total as real == a as real && y * total as real == b as real && z * total as real == (a + b) as real;
    assert (x + y - z) * total as real == 0.0;
  }

  lemma {:induction false} AttributedShares(entries: seq<Entry>, total: int)
    requires total > 0
    ensures ShareSum(Attributed(entries, total)) == Share(LineSpend(Attributed(entries, total)), total)
  {
    if entries != [] {
      var front, last := entries[..|entries| - 1], entries[|entries| - 1];
      var before, added := Attributed(front, total), Attributed(entries, total);
      AttributedShares(front, total);
      AddShares(LineSpend(before), last.spend, total);
      assert added[..|before|] == before;
      assert last.center.None? ==> added == before;
    }
  }

  /** The shares of the lines add up to the share of all that is attributed. */
  lemma SharesAddUp(entries: seq<Entry>)
    requires TotalSpend(entries) > 0
    ensures var report := Build(entries); ShareSum(report.lines) == Share(report.total - report.unattributed, report.total)
  {
    var total := TotalSpend(entries);
    SpendIsConserved(entries);
    SortKeepsSpend(Attributed(entries, total));
    SortKeepsShares(Attributed(entries, total));
    AttributedShares(entries, total);
    assert Build(entries).lines == LargestFirst(Attributed(entries, total));
  }

  /** The report's lines are descending, and for each spend they are the entries with that spend
      that name a cost centre, in the order given. */
  lemma LinesAreStableOrder(entries: seq<Entry>, spend: int)
    ensures var lines, attributed := Build(entries).lines, Attributed(entries, TotalSpend(entries));
            && Descending(lines) && multiset(lines) == multiset(attributed)
            && WithSpend(lines, spend) == WithSpend(attributed, spend)
  {
    var attributed := Attributed(entries, TotalSpend(entries));
    LargestFirstDescends(attributed);
    LargestFirstPermutes(attributed);
    LargestFirstIsStable(attributed, spend);
  }

  /** A row determines its line, up to the rounding of the share. */
  lemma FieldsAreUnique(a: Line, b: Line)
    requires Fields(a) == Fields(b)
    ensures a.(share := b.share) == b
  {
    assert Fields(a)[0] == Fields(b)[0] && Fields(a)[1] == Fields(b)[1] && Fields(a)[2] == Fields(b)[2];
    assert Fields(a)[3] == Fields(b)[3] && Fields(a)[4] == Fields(b)[4];
    IntTextInjective(a.requests, b.requests);
    MillionthsTextInjective(a.spend, b.spend);
    MillionthsTextInjective(a.savings, b.savings);
    MillionthsTextInjective(a.fee, b.fee);
  }

  lemma {:induction false} LineRowsAt(lines: seq<Line>, i: nat)
    requires i < |lines|
    ensures LineRows(lines)[i] == Fields(lines[i])
  {
    if i < |lines| - 1 {
      LineRowsAt(lines[..|lines| - 1], i);
    }
  }

  lemma HeaderIsReadable()
    ensures Readable(HeaderFields())
  {
    assert '\r' !in "cost_center" && '\r' !in "requests" && '\r' !in "spend_usd";
    assert '\r' !in "savings_usd" && '\r' !in "aegis_fee_usd" && '\r' !in "share_percent";
  }

  lemma UnattributedIsReadable(spend: int)
    ensures Readable(UnattributedFields(spend))
  {
    NumbersAreNumeric(Line("", 0, spend, 0, 0, 0.0));
    assert '\r' !in "(unattributed)" && '\r' !in "0" && '\r' !in "0.000000" && '\r' !in "0.00";
  }

  lemma LineIsReadable(line: Line)
    ensures Readable(Fields(line)) <==> !BareReturn(line.center)
  {
    NumbersAreNumeric(line);
    assert Fields(line)[0] == line.center;
  }

  /** Reading an exported report recovers its table, exactly when every name with a carriage return is
      quoted for another reason; a reader that allows bare ones recovers every table. */
  lemma ExportReadsBack(report: Report, bareReturns: bool)
    ensures ReadRecords(Records(Rows(report)), bareReturns) ==
            if bareReturns || (forall i :: 0 <= i < |report.lines| ==> !BareReturn(report.lines[i].center))
            then Some(Rows(report)) else None
  {
    var rows, lines := Rows(report), report.lines;
    RecordsRead(rows, bareReturns);
    forall i | 0 <= i < |rows|
      ensures Readable(rows[i]) <==> !(1 <= i <= |lines| && BareReturn(lines[i - 1].center))
    {
      RowIsReadable(report, i);
    }
    assert |rows| >= |lines| + 1;
    assert forall i :: 0 <= i < |lines| ==> (Readable(rows[i + 1]) <==> !BareReturn(lines[i].center));
  }

  lemma RowIsReadable(report: Report, i: nat)
    requires i < |Rows(report)|
    ensures Readable(Rows(report)[i]) <==> !(1 <= i <= |report.lines| && BareReturn(report.lines[i - 1].center))
  {
    if i == 0 {
      FirstRowIsReadable(report);
    } else if i <= |report.lines| {
      RowOfLine(report, i - 1);
      LineIsReadable(report.lines[i - 1]);
    } else {
      LastRowIsReadable(report, i);
    }
  }

  lemma FirstRowIsReadable(report: Report)
    ensures Readable(Rows(report)[0])
  {
    HeaderIsReadable();
    assert Rows(report)[0] == HeaderFields();
  }

  lemma LastRowIsReadable(report: Report, i: nat)
    requires |report.lines| < i < |Rows(report)|
    ensures Readable(Rows(report)[i])
  {
    UnattributedIsReadable(report.unattributed);
    assert Rows(report)[i] == UnattributedFields(report.unattributed);
  }

  lemma RowOfLine(report: Report, i: nat)
    requires i < |report.lines|
    ensures |Rows(report)| > i + 1 && Rows(report)[i + 1] == Fields(report.lines[i])
  {
    LineRowsAt(report.lines, i);
    assert Headed(report.lines)[i + 1] == LineRows(report.lines)[i];
  }

  lemma SameExportSameRows(a: Report, b: Report)
    requires Records(Rows(a)) == Records(Rows(b))
    ensures Rows(a) == Rows(b)
  {
    ExportReadsBack(a, true);
    ExportReadsBack(b, true);
  }

  lemma ExportDeterminesLine(a: Report, b: Report, i: nat)
    requires Rows(a) == Rows(b) && i < |a.lines| && i < |b.lines|
    ensures a.lines[i].(share := b.lines[i].share) == b.lines[i]
  {
    RowOfLine(a, i);
    RowOfLine(b, i);
    FieldsAreUnique(a.lines[i], b.lines[i]);
  }

  /** Every cost centre has made a request, as the query that groups the records has it. */
  predicate HasRequests(report: Report) {
    forall i :: 0 <= i < |report.lines| ==> report.lines[i].requests >= 1
  }

  /** What a reader of the export learns: all lines up to the rounding of their shares, and the
      unattributed spend when it is positive. */
  lemma ExportDeterminesReport(a: Report, b: Report)
    requires HasRequests(a) && HasRequests(b) && Records(Rows(a)) == Records(Rows(b))
    ensures |a.lines| == |b.lines|
    ensures forall i :: 0 <= i < |a.lines| ==> a.lines[i].(share := b.lines[i].share) == b.lines[i]
    ensures a.unattributed == b.unattributed || (a.unattributed <= 0 && b.unattributed <= 0)
  {
    SameExportSameRows(a, b);
    SameLineCount(a, b);
    SameLineCount(b, a);
    forall i | 0 <= i < |a.lines|
      ensures a.lines[i].(share := b.lines[i].share) == b.lines[i]
    {
      ExportDeterminesLine(a, b, i);
    }
    SameUnattributed(a, b);
  }

  /** What a reader of the export of a built report learns: everything. Conservation fixes the total, and
      the total fixes every share beyond the two decimals of the text. */
  lemma ExportDeterminesBuilt(ea: seq<Entry>, eb: seq<Entry>)
    requires HasRequests(Build(ea)) && HasRequests(Build(eb))
    requires Build(ea).unattributed >= 0 && Build(eb).unattributed >= 0
    requires Records(Rows(Build(ea))) == Records(Rows(Build(eb)))
    ensures Build(ea) == Build(eb)
  {
    ExportDeterminesReport(Build(ea), Build(eb));
    BuiltIsCoherent(ea);
    BuiltIsCoherent(eb);
    SameReport(Build(ea), Build(eb));
  }

  /** The total is what the lines and the rest come to, and each share is the line's part of it. */
  predicate Coherent(report: Report) {
    && LineSpend(report.lines) + report.unattributed == report.total
    && forall i :: 0 <= i < |report.lines| ==> report.lines[i].share == Share(report.lines[i].spend, report.total)
  }

  lemma BuiltIsCoherent(entries: seq<Entry>)
    ensures Coherent(Build(entries))
  {
    SpendIsConserved(entries);
    forall i | 0 <= i < |Build(entries).lines|
      ensures Build(entries).lines[i].share == Share(Build(entries).lines[i].spend, Build(entries).total)
    {
      ShareFollowsSpend(entries, i);
    }
  }

  lemma SameReport(a: Report, b: Report)
    requires Coherent(a) && Coherent(b) && |a.lines| == |b.lines| && a.unattributed == b.unattributed
    requires forall i :: 0 <= i < |a.lines| ==> a.lines[i].(share := b.lines[i].share) == b.lines[i]
    ensures a == b
  {
    SameLinesSameSpend(a.lines, b.lines);
    forall i | 0 <= i < |a.lines|
      ensures a.lines[i] == b.lines[i]
    {
      assert a.lines[i].(share := b.lines[i].share) == b.lines[i];
    }
    assert a.lines == b.lines;
  }

  lemma {:induction false} SameLinesSameSpend(a: seq<Line>, b: seq<Line>)
    requires |a| == |b| && forall i :: 0 <= i < |a| ==> a[i].(share := b[i].share) == b[i]
    ensures LineSpend(a) == LineSpend(b)
  {
    if a != [] {
      SameLinesSameSpend(a[..|a| - 1], b[..|b| - 1]);
    }
  }

  lemma ShareFollowsSpend(entries: seq<Entry>, i: nat)
    requires i < |Build(entries).lines|
    ensures var report := Build(entries); report.lines[i].share == Share(report.lines[i].spend, report.total)
  {
    var total := TotalSpend(entries);
    var attributed, line := Attributed(entries, total), Build(entries).lines[i];
    LargestFirstPermutes(attributed);
    assert line in multiset(attributed);
    AttributedShare(entries, total, line);
  }

  lemma {:induction false} AttributedShare(entries: seq<Entry>, total: int, line: Line)
    requires line in Attributed(entries, total)
    ensures line.share == Share(line.spend, total)
  {
    if line in Attributed(entries[..|entries| - 1], total) {
      AttributedShare(entries[..|entries| - 1], total, line);
    }
  }

  lemma SameUnattributed(a: Report, b: Report)
    requires Rows(a) == Rows(b) && |a.lines| == |b.lines|
    ensures a.unattributed == b.unattributed || (a.unattributed <= 0 && b.unattributed <= 0)
  {
    var last := |a.lines| + 1;
    assert |Rows(a)| > last <==> a.unattributed > 0;
    assert |Rows(b)| > last <==> b.unattributed > 0;
    if a.unattributed > 0 {
      assert Rows(a)[last] == UnattributedFields(a.unattributed) && Rows(b)[last] == UnattributedFields(b.unattributed);
      assert UnattributedFields(a.unattributed)[2] == UnattributedFields(b.unattributed)[2];
      MillionthsTextInjective(a.unattributed, b.unattributed);
    }
  }

  lemma SameLineCount(a: Report, b: Report)
    requires HasRequests(a) && Rows(a) == Rows(b)
    ensures |a.lines| <= |b.lines|
  {
    assert |Rows(a)| >= |a.lines| + 1 && |Rows(b)| <= |b.lines| + 2;
    if |a.lines| > |b.lines| {
      var i := |b.lines|;
      RowOfLine(a, i);
      assert Rows(b)[i + 1] == UnattributedFields(b.unattributed);
      LooksUnattributed(a.lines[i], b.unattributed);
    }
  }

  /** A line's row is that of unattributed spend exactly when the cost centre has its name, made no
      requests, saved and paid nothing, and has so small a share that it prints as zero. */
  lemma LooksUnattributed(line: Line, spend: int)
    ensures Fields(line) == UnattributedFields(spend) <==>
            line.center == "(unattributed)" && line.requests == 0 && line.spend == spend &&
            line.savings == 0 && line.fee == 0 && 0.0 <= line.share <= 0.005
  {
    ZeroTexts();
    ZeroShare(line.share);
    var r, u := Fields(line), UnattributedFields(spend);
    if r == u {
      assert r[0] == u[0] && r[1] == u[1] && r[2] == u[2] && r[3] == u[3] && r[4] == u[4] && r[5] == u[5];
      IntTextInjective(line.requests, 0);
      MillionthsTextInjective(line.spend, spend);
      MillionthsTextInjective(line.savings, 0);
      MillionthsTextInjective(line.fee, 0);
    }
  }

  lemma ZeroShare(share: real)
    ensures ShareText(share) == "0.00" <==> 0.0 <= share <= 0.005
  {
    if share < 0.0 {
      assert ShareText(share)[0] == '-';
    } else {
      var h := Hundredths(share);
      assert ShareText(share) == "" + Dec(h / 100) + "." + Padded(2, h % 100);
      ZeroHundredths(h);
      FewHundredths(share);
    }
  }

  lemma FewHundredths(share: real)
    requires share >= 0.0
    ensures Hundredths(share) == 0 <==> share <= 0.005
  {
  }

  lemma ZeroHundredths(h: nat)
    ensures "" + Dec(h / 100) + "." + Padded(2, h % 100) == "0.00" <==> h == 0
  {
    ZeroPadding();
    assert Dec(0) == "0";
    if "" + Dec(h / 100) + "." + Padded(2, h % 100) == "0.00" {
      assert !IsDigit('.');
      assert "" + Dec(h / 100) + "." + Padded(2, h % 100) == Dec(h / 100) + ['.'] + Padded(2, h % 100);
      assert Dec(0) + ['.'] + Padded(2, 0) == "0.00";
      FieldUnique(Dec(h / 100), Padded(2, h % 100), Dec(0), Padded(2, 0), '.');
      DecInjective(h / 100, 0);
      assert Pow10(2) == 100;
      ValueOfPadded(2, h % 100);
      ValueOfPadded(2, 0);
    }
  }

  /** Such a line comes out of `Build` only for an entry without requests. Here one does, and the export
      is the same as that of a report in which its spend is unattributed. */
  lemma UnattributedCanBeMistaken(center: string)
    ensures var large := Entry(Some(center), 1, 100_000, 0, 0);
            var named, nameless := Entry(Some("(unattributed)"), 0, 1, 0, 0), Entry(None, 1, 1, 0, 0);
            && Rows(Build([large, named])) == Rows(Build([large, nameless]))
            && Build([large, named]).unattributed == 0 && Build([large, nameless]).unattributed == 1
  {
    var large := Entry(Some(center), 1, 100_000, 0, 0);
    var named, nameless := Entry(Some("(unattributed)"), 0, 1, 0, 0), Entry(None, 1, 1, 0, 0);
    var line := Line(center, 1, 100_000, 0, 0, Share(100_000, 100_001));
    var second := Line("(unattributed)", 0, 1, 0, 0, Share(1, 100_001));
    BuildPair(large, named, line, [second]);
    BuildPair(large, nameless, line, []);
    LooksUnattributed(second, 1);
    RowsOfPair(line, second);
    assert [line] + [second] == [line, second] && [line] + [] == [line];
    assert Rows(Build([large, named])) == Headed([line, second]);
    assert Rows(Build([large, nameless])) == Headed([line]) + [UnattributedFields(1)];
  }

  lemma RowsOfPair(first: Line, second: Line)
    ensures Headed([first, second]) == Headed([first]) + [Fields(second)]
  {
    assert [first, second][..1] == [first];
  }

  /** A report of two entries, the larger first. */
  lemma BuildPair(large: Entry, small: Entry, line: Line, rest: seq<Line>)
    requires large.center.Some? && large.spend > small.spend
    requires line == Line(large.center.value, large.requests, large.spend, large.savings, large.fee,
                          Share(large.spend, large.spend + small.spend))
    requires rest == if small.center.None? then []
                     else [Line(small.center.value, small.requests, small.spend, small.savings, small.fee,
                                Share(small.spend, large.spend + small.spend))]
    ensures Build([large, small]) ==
            Report([line] + rest, large.spend + small.spend, if small.center.None? then small.spend else 0)
  {
    var entries, total := [large, small], large.spend + small.spend;
    assert entries[..1] == [large] && [large][..0] == [];
    assert TotalSpend([large]) == large.spend && UnattributedSpend([large]) == 0;
    assert TotalSpend(entries) == total;
    assert Attributed([large], total) == [] + [line] == [line];
    assert Attributed(entries, total) == [line] + rest;
    assert [line][..0] == [] && LargestFirst([]) == [];
    assert LargestFirst([line]) == Insert([], line) == [] + [line] == [line];
    if rest != [] {
      assert ([line] + rest)[..1] == [line];
      assert LargestFirst([line] + rest) == Insert([line], rest[0]);
    } else {
      assert [line] + rest == [line];
    }
  }

  lemma ZeroTexts()
    ensures IntText(0) == "0" && MillionthsText(0) == "0.000000" && ShareText(0.0) == "0.00"
  {
    assert Dec(0) == "0";
    ZeroPadding();
    assert Hundredths(0.0) == 0;
  }

  lemma ZeroPadding()
    ensures Padded(2, 0) == "00" && Padded(6, 0) == "000000"
  {
    assert Padded(1, 0) == "" + "0" && Padded(2, 0) == Padded(1, 0) + "0" && Padded(3, 0) == Padded(2, 0) + "0";
    assert Padded(4, 0) == Padded(3, 0) + "0" && Padded(5, 0) == Padded(4, 0) + "0" && Padded(6, 0) == Padded(5, 0) + "0";
  }
}
