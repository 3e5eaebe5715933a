/** What the figures of a chargeback report and of its export mean. */
module ChargebackLaws {
  import opened Chargeback
  import opened Decimal
  import opened Reals
  import opened Wrappers

  /** The entry is of this line's cost centre and has its figures. */
  predicate IsOf(entry: Entry, line: Line) {
    && entry.center == Some(line.center) && entry.requests == line.requests && entry.spend == line.spend
    && entry.savings == line.savings && entry.fee == line.fee
  }

  lemma {:induction false} AttributedAreEntries(entries: seq<Entry>, total: int)
    ensures forall line :: line in Attributed(entries, total) ==> exists entry :: entry in entries && IsOf(entry, line)
    ensures forall entry :: entry in entries && entry.center.Some? ==>
              exists line :: line in Attributed(entries, total) && IsOf(entry, line)
  {
    if entries != [] {
      var front, last := entries[..|entries| - 1], entries[|entries| - 1];
      var before, after := Attributed(front, total), Attributed(entries, total);
      AttributedAreEntries(front, total);
      assert forall line :: line in before ==> line in after;
      forall line | line in after
        ensures exists entry :: entry in entries && IsOf(entry, line)
      {
        if line in before {
          var entry :| entry in front && IsOf(entry, line);
          assert entry in entries;
        } else {
          assert last in entries && IsOf(last, line);
        }
      }
      forall entry | entry in entries && entry.center.Some?
        ensures exists line :: line in after && IsOf(entry, line)
      {
        if entry in front {
          var line :| line in before && IsOf(entry, line);
          assert line in after;
        } else {
          var line := after[|after| - 1];
          assert line in after && IsOf(last, line);
        }
      }
    }
  }

  function Named(entries: seq<Entry>): nat {
    if entries == [] then 0
    else Named(entries[..|entries| - 1]) + if entries[|entries| - 1].center.Some? then 1 else 0
  }

  lemma {:induction false} AttributedCount(entries: seq<Entry>, total: int)
    ensures |Attributed(entries, total)| == Named(entries)
  {
    if entries != [] {
      AttributedCount(entries[..|entries| - 1], total);
    }
  }

  lemma SameMembers(a: seq<Line>, b: seq<Line>)
    requires multiset(a) == multiset(b)
    ensures |a| == |b| && forall line :: line in a <==> line in b
  {
    assert |multiset(a)| == |multiset(b)|;
    assert forall line :: line in a <==> line in multiset(a);
    assert forall line :: line in b <==> line in multiset(b);
  }

  /** A built report has a line for each entry that names a cost centre, with its figures, and no others. */
  lemma LinesAreEntries(entries: seq<Entry>)
    ensures var lines := Build(entries).lines;
            && |lines| == Named(entries)
            && (forall line :: line in lines ==> exists entry :: entry in entries && IsOf(entry, line))
            && (forall entry :: entry in entries && entry.center.Some? ==>
                  exists line :: line in lines && IsOf(entry, line))
  {
    var attributed := Attributed(entries, TotalSpend(entries));
    AttributedAreEntries(entries, TotalSpend(entries));
    AttributedCount(entries, TotalSpend(entries));
    LargestFirstPermutes(attributed);
    SameMembers(Build(entries).lines, attributed);
    forall entry | entry in entries && entry.center.Some?
      ensures exists line :: line in Build(entries).lines && IsOf(entry, line)
    {
      var line :| line in attributed && IsOf(entry, line);
      assert line in Build(entries).lines;
    }
  }

  /** The share of a line is its part of the total in hundredths; nothing when there is no total to take it of. */
  lemma ShareIsPercent(entries: seq<Entry>, line: Line)
    requires line in Build(entries).lines
    ensures var total := Build(entries).total;
            if total > 0 then line.share * total as real == 100.0 * line.spend as real else line.share == 0.0
  {
    var lines, total := Build(entries).lines, Build(entries).total;
    var i :| 0 <= i < |lines| && lines[i] == line;
    ShareFollowsSpend(entries, i);
    if total > 0 {
      Quotient(line.spend as real, total as real);
      PercentOf(line.spend as real, total as real);
    }
  }

  lemma PercentOf(spend: real, total: real)
    requires total > 0.0
    ensures spend / total * 100.0 * total == 100.0 * spend
  {
    Quotient(spend, total);
    assert spend / total * 100.0 * total == spend / total * total * 100.0;
  }

  function Distance(x: real, y: real): real { if x < y then y - x else x - y }

  /** A share prints as its sign and the whole number of hundredths nearest to its size, the even one of two that are
      equally near, two of its digits after the point. */
  lemma ShareIsRounded(share: real)
    ensures var size := if share < 0.0 then -share else share;
            var h := Hundredths(size);
            && 2.0 * Distance(h as real, size * 100.0) <= 1.0
            && (2.0 * Distance(h as real, size * 100.0) == 1.0 ==> h % 2 == 0)
            && ShareText(share) == (if share < 0.0 then "-" else "") + Dec(h / 100) + "." + Padded(2, h % 100)
  {
  }

  /** The columns hold what the header calls them. */
  lemma ColumnsAreNamed(line: Line, k: nat)
    requires k < 6
    ensures var name, field := HeaderFields()[k], Fields(line)[k];
            && (name == "cost_center" ==> field == line.center)
            && (name == "requests" ==> field == IntText(line.requests))
            && (name == "spend_usd" ==> field == MillionthsText(line.spend))
            && (name == "savings_usd" ==> field == MillionthsText(line.savings))
            && (name == "aegis_fee_usd" ==> field == MillionthsText(line.fee))
            && (name == "share_percent" ==> field == ShareText(line.share))
  {
    NamesDiffer();
  }

  lemma NamesDiffer()
    ensures HeaderFields() ==
            ["cost_center", "requests", "spend_usd", "savings_usd", "aegis_fee_usd", "share_percent"]
    ensures |"cost_center"| == 11 && |"requests"| == 8 && |"spend_usd"| == 9 && |"savings_usd"| == 11
    ensures |"aegis_fee_usd"| == 13 && |"share_percent"| == 13
    ensures "cost_center"[0] == 'c' && "savings_usd"[0] == 's' && "aegis_fee_usd"[0] == 'a' && "share_percent"[0] == 's'
  {
  }
}
