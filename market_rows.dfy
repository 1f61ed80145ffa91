/** The daily price rows the stock-market scripts pass around, and the two steps
    several of them share: sorting a symbol's rows by date and grouping rows by
    symbol in order of first appearance. */
module MarketRows {
  import opened Common

  /** One row of the market CSV: its "Symbol" and "Date" columns and its numeric
      columns ("Open", "High", "Low", "Close", "Volume", "Amount", indicators). */
  datatype Row = Row(symbol: string, date: string, fields: map<string, real>)

  /** The tokenizer's feature names, and the column each one reads
      (`feature.capitalize()`). */
  const FeatureNames: seq<string> := ["open", "high", "low", "close", "volume", "amount"]
  const FeatureKeys: seq<string> := ["Open", "High", "Low", "Close", "Volume", "Amount"]

  lemma FeatureNamesDistinct()
    ensures Distinct(FeatureNames)
  {
  }

  /** ASCII `str.capitalize()`: first letter upper-cased, the rest lower-cased. */
  function Capitalize(s: string): (r: string)
    ensures |r| == |s|
  {
    if |s| == 0 then "" else [Upper(s[0])] + seq(|s| - 1, i requires 0 <= i < |s| - 1 => Lower(s[i + 1]))
  }

  function Upper(c: char): char
  {
    if 'a' <= c <= 'z' then (c as int - 32) as char else c
  }

  function Lower(c: char): char
  {
    if 'A' <= c <= 'Z' then (c as int + 32) as char else c
  }

  lemma CapitalizedAs(s: string, t: string)
    requires |s| == |t| > 0 && t[0] == Upper(s[0])
    requires forall i :: 0 < i < |s| ==> t[i] == Lower(s[i])
    ensures Capitalize(s) == t
  {
  }

  /** Each feature name capitalizes to the column it reads. */
  lemma FeatureKeysAreCapitalized(f: nat)
    requires f < |FeatureNames|
    ensures Capitalize(FeatureNames[f]) == FeatureKeys[f]
  {
    if f == 0 {
      CapitalizedAs("open", "Open");
    } else if f == 1 {
      CapitalizedAs("high", "High");
    } else if f == 2 {
      CapitalizedAs("low", "Low");
    } else if f == 3 {
      CapitalizedAs("close", "Close");
    } else if f == 4 {
      CapitalizedAs("volume", "Volume");
    } else {
      CapitalizedAs("amount", "Amount");
    }
  }

  // ---------------------------------------------------------------------------
  // `rows.sort(key=lambda x: x["Date"])`: Python's stable sort on the date string.

  predicate ByDate(s: seq<Row>)
  {
    forall i, j :: 0 <= i < j < |s| ==> !LexLess(s[j].date, s[i].date)
  }

  lemma ConsByDate(h: Row, rest: seq<Row>)
    requires ByDate(rest)
    requires forall j :: 0 <= j < |rest| ==> !LexLess(rest[j].date, h.date)
    ensures ByDate([h] + rest)
  {
    var r := [h] + rest;
    assert forall i :: 0 < i < |r| ==> r[i] == rest[i - 1];
  }

  /** Insert before the first row with a strictly later date, so that a row
      inserted last goes after the rows with the same date. */
  function InsertByDate(x: Row, s: seq<Row>): (r: seq<Row>)
    ensures |r| == |s| + 1
  {
    if |s| == 0 then [x]
    else if LexLess(x.date, s[0].date) then [x] + s
    else [s[0]] + InsertByDate(x, s[1..])
  }

  lemma {:induction false} InsertByDateCounts(x: Row, s: seq<Row>)
    ensures multiset(InsertByDate(x, s)) == multiset(s) + multiset{x}
  {
    if |s| > 0 && !LexLess(x.date, s[0].date) {
      InsertByDateCounts(x, s[1..]);
      assert s == [s[0]] + s[1..];
    }
  }

  lemma {:induction false} InsertByDateSorts(x: Row, s: seq<Row>)
    requires ByDate(s)
    ensures ByDate(InsertByDate(x, s))
  {
    if |s| > 0 && !LexLess(x.date, s[0].date) {
      var tail := s[1..];
      InsertByDateSorts(x, tail);
      InsertByDateCounts(x, tail);
      var rest := InsertByDate(x, tail);
      forall j | 0 <= j < |rest| ensures !LexLess(rest[j].date, s[0].date) {
        assert rest[j] in multiset(tail) + multiset{x};
        if rest[j] != x {
          var k :| 0 <= k < |tail| && tail[k] == rest[j];
          assert s[k + 1] == rest[j];
        }
      }
      ConsByDate(s[0], rest);
    } else if |s| > 0 {
      forall j | 0 <= j < |s| ensures !LexLess(s[j].date, x.date) {
        if LexLess(s[j].date, x.date) {
          LexLessTransitive(s[j].date, x.date, s[0].date);
          if j == 0 { LexLessIrreflexive(s[0].date); }
        }
      }
      ConsByDate(x, s);
    }
  }

  /** A stable sort by date, built by inserting the rows one at a time. */
  function SortByDate(s: seq<Row>): (r: seq<Row>)
    ensures |r| == |s|
  {
    if |s| == 0 then [] else InsertByDate(s[|s| - 1], SortByDate(s[..|s| - 1]))
  }

  lemma {:induction false} SortByDateOrders(s: seq<Row>)
    ensures ByDate(SortByDate(s))
  {
    if |s| > 0 {
      var init, last := s[..|s| - 1], s[|s| - 1];
      SortByDateOrders(init);
      InsertByDateSorts(last, SortByDate(init));
    }
  }

  lemma {:induction false} SortByDateKeepsRows(s: seq<Row>)
    ensures multiset(SortByDate(s)) == multiset(s)
  {
    if |s| > 0 {
      var init, last := s[..|s| - 1], s[|s| - 1];
      var sortedInit := SortByDate(init);
      assert SortByDate(s) == InsertByDate(last, sortedInit);
      SortByDateKeepsRows(init);
      InsertByDateCounts(last, sortedInit);
      assert s == init + [last];
      assert multiset(s) == multiset(init) + multiset{last};
    }
  }

  /** The rows of `s` dated `d`, in their order in `s`. */
  function DatedOn(s: seq<Row>, d: string): (r: seq<Row>)
    ensures |r| <= |s|
    ensures forall j :: 0 <= j < |r| ==> r[j].date == d
  {
    if |s| == 0 then []
    else (if s[0].date == d then [s[0]] else []) + DatedOn(s[1..], d)
  }

  lemma {:induction false} DatedOnSnoc(s: seq<Row>, x: Row, d: string)
    ensures DatedOn(s + [x], d) == DatedOn(s, d) + (if x.date == d then [x] else [])
  {
    if |s| > 0 {
      assert (s + [x])[1..] == s[1..] + [x];
      DatedOnSnoc(s[1..], x, d);
    }
  }

  lemma {:induction false} DatedOnNone(s: seq<Row>, d: string)
    requires forall j :: 0 <= j < |s| ==> s[j].date != d
    ensures DatedOn(s, d) == []
  {
    if |s| > 0 {
      DatedOnNone(s[1..], d);
    }
  }

  /** A date before the first of a date-sorted list is no row's date. */
  lemma EarlierDateUnused(x: Row, s: seq<Row>)
    requires ByDate(s) && |s| > 0 && LexLess(x.date, s[0].date)
    ensures forall j :: 0 <= j < |s| ==> s[j].date != x.date
  {
    LexLessIrreflexive(x.date);
    forall j | 0 < j < |s| ensures s[j].date != x.date {
      assert !LexLess(s[j].date, s[0].date);
    }
  }

  /** Inserting `x` into a date-sorted list puts it after every row with its date:
      for each date the rows keep their order, `x` last among them. */
  lemma {:induction false} InsertByDateStable(x: Row, s: seq<Row>, d: string)
    requires ByDate(s)
    ensures DatedOn(InsertByDate(x, s), d) == DatedOn(s, d) + (if x.date == d then [x] else [])
  {
    if |s| == 0 {
    } else if LexLess(x.date, s[0].date) {
      if x.date == d {
        EarlierDateUnused(x, s);
        DatedOnNone(s, d);
      }
      assert ([x] + s)[1..] == s;
    } else {
      var tail := s[1..];
      assert ByDate(tail) by {
        assert forall j :: 0 <= j < |tail| ==> tail[j] == s[j + 1];
      }
      InsertByDateStable(x, tail, d);
      var ins := InsertByDate(x, tail);
      var head := if s[0].date == d then [s[0]] else [];
      assert InsertByDate(x, s) == [s[0]] + ins;
      assert ([s[0]] + ins)[1..] == ins;
      assert DatedOn([s[0]] + ins, d) == head + DatedOn(ins, d);
      assert DatedOn(s, d) == head + DatedOn(tail, d);
    }
  }

  /** Python's sort is stable: rows with the same date keep their input order. */
  lemma {:induction false} SortByDateStable(s: seq<Row>, d: string)
    ensures DatedOn(SortByDate(s), d) == DatedOn(s, d)
  {
    if |s| > 0 {
      var init, last := s[..|s| - 1], s[|s| - 1];
      SortByDateStable(init, d);
      SortByDateOrders(init);
      InsertByDateStable(last, SortByDate(init), d);
      assert s == init + [last];
      DatedOnSnoc(init, last, d);
    }
  }

  /** Dates never decrease, the rows are the ones given, and rows with the same
      date keep their input order. */
  lemma SortByDateSorts(s: seq<Row>)
    ensures ByDate(SortByDate(s))
    ensures multiset(SortByDate(s)) == multiset(s)
    ensures forall d :: DatedOn(SortByDate(s), d) == DatedOn(s, d)
  {
    SortByDateOrders(s);
    SortByDateKeepsRows(s);
    forall d ensures DatedOn(SortByDate(s), d) == DatedOn(s, d) {
      SortByDateStable(s, d);
    }
  }

  // ---------------------------------------------------------------------------
  // Grouping by symbol into a dict: keys in order of first appearance.

  /** The symbols of `data`, each once, in order of first appearance (the key
      order of a dict filled row by row). */
  function Symbols(data: seq<Row>): (r: seq<string>)
    ensures Distinct(r)
    ensures forall x :: x in r <==> exists i :: 0 <= i < |data| && data[i].symbol == x
  {
    if |data| == 0 then []
    else
      var init := Symbols(data[..|data| - 1]);
      var last := data[|data| - 1];
      assert forall i :: 0 <= i < |data| - 1 ==> data[..|data| - 1][i] == data[i];
      if last.symbol in init then init else init + [last.symbol]
  }

  /** The rows of `data` with symbol `symbol`, in their original order (the list a
      dict entry collects by appending). */
  function RowsOf(data: seq<Row>, symbol: string): (r: seq<Row>)
    ensures forall i :: 0 <= i < |r| ==> r[i].symbol == symbol && r[i] in data
    ensures |r| <= |data|
  {
    if |data| == 0 then []
    else
      var init := RowsOf(data[..|data| - 1], symbol);
      var last := data[|data| - 1];
      if last.symbol == symbol then init + [last] else init
  }

  /** Every row with the symbol is collected, as often as it occurs. */
  lemma {:induction false} RowsOfCounts(data: seq<Row>, symbol: string, row: Row)
    requires row.symbol == symbol
    ensures multiset(RowsOf(data, symbol))[row] == multiset(data)[row]
  {
    if |data| > 0 {
      var init := data[..|data| - 1];
      RowsOfCounts(init, symbol, row);
      assert data == init + [data[|data| - 1]];
    }
  }

  /** The per-symbol lists, each sorted by date, in the dict's key order. */
  function Groups(data: seq<Row>): (r: seq<seq<Row>>)
    ensures |r| == |Symbols(data)|
  {
    var symbols := Symbols(data);
    seq(|symbols|, g requires 0 <= g < |symbols| => SortByDate(RowsOf(data, symbols[g])))
  }

  /** Each group holds one symbol, is sorted by date, and holds every row of that
      symbol; each row of the input lies in the group of its symbol. */
  lemma GroupsPartition(data: seq<Row>)
    ensures forall g :: 0 <= g < |Groups(data)| ==>
      ByDate(Groups(data)[g]) &&
      (forall k :: 0 <= k < |Groups(data)[g]| ==> Groups(data)[g][k].symbol == Symbols(data)[g]) &&
      (forall row: Row :: row.symbol == Symbols(data)[g] ==> multiset(Groups(data)[g])[row] == multiset(data)[row])
    ensures forall i :: 0 <= i < |data| ==> data[i].symbol in Symbols(data)
  {
    var symbols := Symbols(data);
    forall g | 0 <= g < |symbols|
      ensures ByDate(Groups(data)[g])
      ensures forall k :: 0 <= k < |Groups(data)[g]| ==> Groups(data)[g][k].symbol == symbols[g]
      ensures forall row: Row :: row.symbol == symbols[g] ==> multiset(Groups(data)[g])[row] == multiset(data)[row]
    {
      var rows := RowsOf(data, symbols[g]);
      SortByDateSorts(rows);
      forall k | 0 <= k < |Groups(data)[g]| ensures Groups(data)[g][k].symbol == symbols[g] {
        assert Groups(data)[g][k] in multiset(rows);
      }
      forall row: Row | row.symbol == symbols[g] ensures multiset(Groups(data)[g])[row] == multiset(data)[row] {
        RowsOfCounts(data, symbols[g], row);
      }
    }
  }
}
