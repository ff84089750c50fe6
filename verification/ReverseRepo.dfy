/** Refilling the reverse-repo reserve (src/ashare_system/reverse_repo.py). Amounts are yuan. */
module ReverseRepo {
  import Portfolio
  import opened StableSort
  import opened Wrappers

  datatype Instrument = Instrument(symbol: string, days: int, market: string)

  const INSTRUMENTS := [
    Instrument("204004.SH", 4, "SH"),
    Instrument("131809.SZ", 4, "SZ"),
    Instrument("204003.SH", 3, "SH"),
    Instrument("131800.SZ", 3, "SZ")]

  /** Last prices by symbol; a missing quote counts as zero. */
  type Quotes = map<string, real>

  datatype Row = Row(instrument: Instrument, price: real, volume: int, minimum: int, planned: real, eligible: bool)

  /** Every symbol has a lot size. */
  ghost predicate Supported(table: seq<Instrument>) {
    forall i: Instrument :: i in table ==> Portfolio.IsReverseRepo(i.symbol)
  }

  /** The table holds repos only, of three or four days, on both markets. */
  lemma TableIsSupported()
    ensures Supported(INSTRUMENTS) && |INSTRUMENTS| == 4
    ensures forall i: Instrument :: i in INSTRUMENTS ==>
              && (i.days == 3 || i.days == 4)
              && (if i.market == "SH" then "204" <= i.symbol else i.market == "SZ" && "1318" <= i.symbol)
  {
    forall i: Instrument | i in INSTRUMENTS
      ensures Portfolio.IsReverseRepo(i.symbol)
    {
      TableSymbols(i);
      Portfolio.StepIs(i.symbol);
    }
  }

  lemma TableSymbols(i: Instrument)
    requires i in INSTRUMENTS
    ensures "204" <= i.symbol || "1318" <= i.symbol
  {
    assert i == INSTRUMENTS[0] || i == INSTRUMENTS[1] || i == INSTRUMENTS[2] || i == INSTRUMENTS[3];
  }

  // -------------------------------------------------------------- the orders

  /** Comparison of texts character by character. */
  predicate TextAtMost(a: string, b: string) {
    a == "" || (b != "" && (a[0] < b[0] || (a[0] == b[0] && TextAtMost(a[1..], b[1..]))))
  }

  predicate TermFirst(longer: bool, a: int, b: int) {
    if longer then a >= b else a <= b
  }

  predicate InstrumentFirst(longer: bool, a: Instrument, b: Instrument) {
    TermFirst(longer, a.days, b.days) && (a.days == b.days ==> TextAtMost(a.market, b.market))
  }

  function InstrumentOrder(longer: bool): (Instrument, Instrument) -> bool {
    (a: Instrument, b: Instrument) => InstrumentFirst(longer, a, b)
  }

  function RowPrice(): (Row, Row) -> bool {
    (a: Row, b: Row) => a.price >= b.price
  }

  function RowMarket(): (Row, Row) -> bool {
    (a: Row, b: Row) => TextAtMost(a.instrument.market, b.instrument.market)
  }

  /** By term as preferred, then the higher price, then the market. */
  predicate Prefers(longer: bool, a: Row, b: Row) {
    && TermFirst(longer, a.instrument.days, b.instrument.days)
    && (a.instrument.days == b.instrument.days ==>
          a.price >= b.price && (a.price == b.price ==> TextAtMost(a.instrument.market, b.instrument.market)))
  }

  function Preference(longer: bool): (Row, Row) -> bool {
    (a: Row, b: Row) => Prefers(longer, a, b)
  }

  lemma {:induction false} TextIsTotal(a: string, b: string)
    ensures TextAtMost(a, b) || TextAtMost(b, a)
  {
    if a != "" && b != "" && a[0] == b[0] { TextIsTotal(a[1..], b[1..]); }
  }

  lemma {:induction false} TextIsTransitive(a: string, b: string, c: string)
    requires TextAtMost(a, b) && TextAtMost(b, c)
    ensures TextAtMost(a, c)
  {
    if a != "" && a[0] == b[0] == c[0] { TextIsTransitive(a[1..], b[1..], c[1..]); }
  }

  lemma InstrumentOrderIsTotal(longer: bool)
    ensures TotalOrder(InstrumentOrder(longer))
  {
    var le := InstrumentOrder(longer);
    forall a, b
      ensures le(a, b) || le(b, a)
    {
      TextIsTotal(a.market, b.market);
    }
    forall a, b, c | le(a, b) && le(b, c)
      ensures le(a, c)
    {
      if a.days == b.days == c.days { TextIsTransitive(a.market, b.market, c.market); }
    }
  }

  // ---------------------------------------------------------- the candidates

  function RowOf(i: Instrument, quotes: Quotes, affordable: real): Row
    requires Portfolio.IsReverseRepo(i.symbol)
  {
    var price := if i.symbol in quotes then quotes[i.symbol] else 0.0;
    var volume := Portfolio.VolumeForAmount(i.symbol, affordable).value;
    var minimum := Portfolio.VolumeStep(i.symbol).value;
    var planned := if volume > 0 then Portfolio.OrderAmount(volume) else 0.0;
    Row(i, price, volume, minimum, planned, price > 0.0 && volume >= minimum && planned > 0.0)
  }

  function WithinTerm(minDays: int, maxDays: int): Instrument -> bool {
    (i: Instrument) => minDays <= i.days <= maxDays
  }

  function Instruments(table: seq<Instrument>, minDays: int, maxDays: int, longer: bool): seq<Instrument> {
    Sort(Filter(table, WithinTerm(minDays, maxDays)), InstrumentOrder(longer))
  }

  function Rows(instruments: seq<Instrument>, quotes: Quotes, affordable: real): (rows: seq<Row>)
    requires Supported(instruments)
    ensures |rows| == |instruments|
  {
    seq(|instruments|, k requires 0 <= k < |instruments| => RowOf(instruments[k], quotes, affordable))
  }

  /** The distinct terms, in the preferred order. */
  function Days(rows: seq<Row>): seq<int> {
    if rows == [] then []
    else
      var rest := Days(rows[1..]);
      if rows[0].instrument.days in rest then rest else [rows[0].instrument.days] + rest
  }

  function DayOrder(longer: bool): (int, int) -> bool {
    (a: int, b: int) => TermFirst(longer, a, b)
  }

  function OfDay(day: int): Row -> bool {
    (r: Row) => r.instrument.days == day
  }

  function Prioritized(rows: seq<Row>, days: seq<int>): seq<Row> {
    if days == [] then []
    else Prioritized(rows, days[..|days| - 1]) + Sort(Filter(rows, OfDay(days[|days| - 1])), RowPrice())
  }

  function Candidates(
      table: seq<Instrument>, quotes: Quotes, affordable: real, minDays: int, maxDays: int, longer: bool): seq<Row>
    requires Supported(Instruments(table, minDays, maxDays, longer))
  {
    var rows := Rows(Instruments(table, minDays, maxDays, longer), quotes, affordable);
    Prioritized(rows, Sort(Days(rows), DayOrder(longer)))
  }

  lemma PrioritizedOneMore(rows: seq<Row>, days: seq<int>, n: nat)
    requires n < |days|
    ensures Prioritized(rows, days[..n + 1])
         == Prioritized(rows, days[..n]) + Sort(Filter(rows, OfDay(days[n])), RowPrice())
  {
    assert days[..n + 1][..n] == days[..n];
  }

  lemma InstrumentsAre(table: seq<Instrument>, minDays: int, maxDays: int, longer: bool)
    ensures forall i ::
              i in Instruments(table, minDays, maxDays, longer) <==> i in table && minDays <= i.days <= maxDays
    ensures Supported(table) ==> Supported(Instruments(table, minDays, maxDays, longer))
  {
    var kept := Filter(table, WithinTerm(minDays, maxDays));
    SortKeeps(kept, InstrumentOrder(longer));
    forall i
      ensures i in Instruments(table, minDays, maxDays, longer) <==> i in table && minDays <= i.days <= maxDays
    {
      SameElements(Instruments(table, minDays, maxDays, longer), kept, i);
      FilterIn(table, WithinTerm(minDays, maxDays), i);
    }
  }

  /** `_build_candidate_quotes`. */
  method BuildCandidateQuotes(
      table: seq<Instrument>, quotes: Quotes, affordable: real, minDays: int, maxDays: int, longer: bool)
    returns (prioritized: seq<Row>)
    requires Supported(table)
    ensures Supported(Instruments(table, minDays, maxDays, longer))
    ensures prioritized == Candidates(table, quotes, affordable, minDays, maxDays, longer)
  {
    InstrumentsAre(table, minDays, maxDays, longer);
    var instruments := Instruments(table, minDays, maxDays, longer);
    var rows: seq<Row> := [];
    for n := 0 to |instruments|
      invariant |rows| == n && forall k :: 0 <= k < n ==> rows[k] == RowOf(instruments[k], quotes, affordable)
    {
      rows := rows + [RowOf(instruments[n], quotes, affordable)];
    }
    assert rows == Rows(instruments, quotes, affordable);
    var days := Sort(Days(rows), DayOrder(longer));
    assert Candidates(table, quotes, affordable, minDays, maxDays, longer) == Prioritized(rows, days);
    assert Prioritized(rows, []) == [];
    hide *;
    prioritized := [];
    for n := 0 to |days|
      invariant prioritized == Prioritized(rows, days[..n])
    {
      PrioritizedOneMore(rows, days, n);
      prioritized := prioritized + Sort(Filter(rows, OfDay(days[n])), RowPrice());
    }
    assert days[..|days|] == days;
  }

  // ------------------------------------------------- order of the candidates

  /** The terms are distinct, and are those of the rows. */
  lemma {:induction false} DaysAre(rows: seq<Row>)
    ensures forall d :: d in Days(rows) <==> exists k :: 0 <= k < |rows| && rows[k].instrument.days == d
    ensures forall i, j :: 0 <= i < j < |Days(rows)| ==> Days(rows)[i] != Days(rows)[j]
  {
    if rows != [] {
      DaysAre(rows[1..]);
      var rest := Days(rows[1..]);
      forall d
        ensures d in Days(rows) <==> exists k :: 0 <= k < |rows| && rows[k].instrument.days == d
      {
        if d in rest {
          var k :| 0 <= k < |rows[1..]| && rows[1..][k].instrument.days == d;
          assert rows[k + 1].instrument.days == d;
        }
        if k :| 0 <= k < |rows| && rows[k].instrument.days == d {
          assert k > 0 ==> rows[1..][k - 1].instrument.days == d;
        }
      }
    }
  }

  ghost predicate InTermOrder(days: seq<int>, longer: bool) {
    forall i, j :: 0 <= i < j < |days| ==> TermFirst(longer, days[i], days[j]) && days[i] != days[j]
  }

  /** Sorting distinct terms orders them strictly. */
  lemma SortedDays(rows: seq<Row>, longer: bool)
    ensures var days := Sort(Days(rows), DayOrder(longer));
            && InTermOrder(days, longer)
            && forall d :: d in days <==> exists k :: 0 <= k < |rows| && rows[k].instrument.days == d
  {
    var days := Days(rows);
    var sorted := Sort(days, DayOrder(longer));
    DaysAre(rows);
    var any: (int, int) -> bool := (a, b) => true;
    assert TotalOrder(DayOrder(longer)) && Pairwise(days, any);
    SortIsLexicographic(days, DayOrder(longer), any);
    SortKeeps(days, DayOrder(longer));
    forall d
      ensures d in sorted <==> d in days
    {
      SameElements(sorted, days, d);
    }
    forall i, j | 0 <= i < j < |sorted|
      ensures TermFirst(longer, sorted[i], sorted[j]) && sorted[i] != sorted[j]
    {
      assert Then(DayOrder(longer), any)(sorted[i], sorted[j]);
      if sorted[i] == sorted[j] {
        TwiceMeansTwice(sorted, i, j);
        OnceMeansOnce(days, sorted[i]);
      }
    }
  }

  lemma TwiceMeansTwice(s: seq<int>, i: nat, j: nat)
    requires i < j < |s| && s[i] == s[j]
    ensures multiset(s)[s[i]] >= 2
  {
    assert s == s[..j] + s[j..];
    assert s[..j][i] in multiset(s[..j]) && s[j..][0] in multiset(s[j..]);
  }

  lemma {:induction false} OnceMeansOnce(s: seq<int>, x: int)
    requires forall i, j :: 0 <= i < j < |s| ==> s[i] != s[j]
    ensures multiset(s)[x] <= 1
  {
    if s != [] {
      assert s == [s[0]] + s[1..];
      assert forall i, j :: 0 <= i < j < |s[1..]| ==> s[1..][i] != s[1..][j];
      OnceMeansOnce(s[1..], x);
      assert x == s[0] ==> x !in s[1..];
    }
  }

  lemma BucketHas(rows: seq<Row>, day: int, r: Row)
    ensures r in Sort(Filter(rows, OfDay(day)), RowPrice()) <==> r in rows && r.instrument.days == day
  {
    var bucket := Filter(rows, OfDay(day));
    SortKeeps(bucket, RowPrice());
    SameElements(Sort(bucket, RowPrice()), bucket, r);
    FilterIn(rows, OfDay(day), r);
  }

  lemma {:induction false} PrioritizedHas(rows: seq<Row>, days: seq<int>, r: Row)
    ensures r in Prioritized(rows, days) <==> r in rows && r.instrument.days in days
  {
    if days != [] {
      var front, day := days[..|days| - 1], days[|days| - 1];
      PrioritizedHas(rows, front, r);
      BucketHas(rows, day, r);
      assert days == front + [day];
      assert Prioritized(rows, days) == Prioritized(rows, front) + Sort(Filter(rows, OfDay(day)), RowPrice());
      hide *;
    }
  }

  function RowOrder(longer: bool): (Row, Row) -> bool {
    (a: Row, b: Row) => InstrumentFirst(longer, a.instrument, b.instrument)
  }

  lemma BucketByMarket(rows: seq<Row>, day: int, longer: bool)
    requires Pairwise(rows, RowOrder(longer))
    ensures var bucket := Filter(rows, OfDay(day));
            Pairwise(bucket, RowMarket()) && forall r :: r in bucket ==> r.instrument.days == day
  {
    var bucket := Filter(rows, OfDay(day));
    FilterOrdered(rows, OfDay(day), RowOrder(longer));
    forall r | r in bucket
      ensures r.instrument.days == day
    {
      FilterIn(rows, OfDay(day), r);
    }
    forall i, j | 0 <= i < j < |bucket|
      ensures RowMarket()(bucket[i], bucket[j])
    {
      var a, b := bucket[i], bucket[j];
      assert RowOrder(longer)(a, b);
      assert a in bucket && b in bucket;
    }
  }

  /** One term's rows, sorted by price: in order of preference. */
  lemma BucketInOrder(rows: seq<Row>, day: int, longer: bool)
    requires Pairwise(rows, RowOrder(longer))
    ensures Pairwise(Sort(Filter(rows, OfDay(day)), RowPrice()), Preference(longer))
  {
    var bucket := Filter(rows, OfDay(day));
    var sorted := Sort(bucket, RowPrice());
    BucketByMarket(rows, day, longer);
    SortIsLexicographic(bucket, RowPrice(), RowMarket());
    SortKeeps(bucket, RowPrice());
    forall i, j | 0 <= i < j < |sorted|
      ensures Preference(longer)(sorted[i], sorted[j])
    {
      assert Then(RowPrice(), RowMarket())(sorted[i], sorted[j]);
      SameElements(sorted, bucket, sorted[i]);
      SameElements(sorted, bucket, sorted[j]);
    }
  }

  lemma AcrossBuckets(rows: seq<Row>, days: seq<int>, longer: bool, a: Row, b: Row)
    requires days != [] && InTermOrder(days, longer)
    requires a in Prioritized(rows, days[..|days| - 1])
    requires b in Sort(Filter(rows, OfDay(days[|days| - 1])), RowPrice())
    ensures Prefers(longer, a, b)
  {
    var front, day := days[..|days| - 1], days[|days| - 1];
    var bucket := Filter(rows, OfDay(day));
    PrioritizedHas(rows, front, a);
    SortKeeps(bucket, RowPrice());
    SameElements(Sort(bucket, RowPrice()), bucket, b);
    FilterIn(rows, OfDay(day), b);
    var i :| 0 <= i < |front| && front[i] == a.instrument.days;
    assert days[i] == front[i];
  }

  lemma {:induction false} PrioritizedInOrder(rows: seq<Row>, days: seq<int>, longer: bool)
    requires Pairwise(rows, RowOrder(longer))
    requires InTermOrder(days, longer)
    ensures Pairwise(Prioritized(rows, days), Preference(longer))
  {
    if days != [] {
      var front, day := days[..|days| - 1], days[|days| - 1];
      var first, bucket := Prioritized(rows, front), Sort(Filter(rows, OfDay(day)), RowPrice());
      PrioritizedInOrder(rows, front, longer);
      BucketInOrder(rows, day, longer);
      forall a, b | a in first && b in bucket
        ensures Preference(longer)(a, b)
      {
        AcrossBuckets(rows, days, longer, a, b);
      }
    }
  }

  function InDays(days: seq<int>): Row -> bool {
    (r: Row) => r.instrument.days in days
  }

  /** Every row comes once, in the bucket of its term. */
  lemma {:induction false} PrioritizedKeeps(rows: seq<Row>, days: seq<int>, longer: bool)
    requires InTermOrder(days, longer)
    ensures multiset(Prioritized(rows, days)) == multiset(Filter(rows, InDays(days)))
  {
    if days == [] {
      NoneFiltered(rows, InDays(days));
    } else {
      var front, day := days[..|days| - 1], days[|days| - 1];
      assert days == front + [day];
      LastDayIsNew(front, day, longer);
      hide *;
      PrioritizedKeeps(rows, front, longer);
      SortKeeps(Filter(rows, OfDay(day)), RowPrice());
      OneMoreDay(rows, front, day);
      PrioritizedLast(rows, front, day);
    }
  }

  lemma LastDayIsNew(front: seq<int>, day: int, longer: bool)
    requires InTermOrder(front + [day], longer)
    ensures InTermOrder(front, longer) && day !in front
  {
    var days := front + [day];
    assert days[|front|] == day;
    assert forall i :: 0 <= i < |front| ==> days[i] == front[i];
    forall i | 0 <= i < |front|
      ensures front[i] != day
    {
      assert days[i] != days[|front|];
    }
  }

  lemma PrioritizedLast(rows: seq<Row>, front: seq<int>, day: int)
    ensures Prioritized(rows, front + [day])
         == Prioritized(rows, front) + Sort(Filter(rows, OfDay(day)), RowPrice())
  {
    assert (front + [day])[..|front|] == front;
  }

  lemma OneMoreDay(rows: seq<Row>, front: seq<int>, day: int)
    requires day !in front
    ensures multiset(Filter(rows, InDays(front + [day])))
         == multiset(Filter(rows, InDays(front))) + multiset(Filter(rows, OfDay(day)))
  {
    FilterSplits(rows, InDays(front), OfDay(day), InDays(front + [day]));
  }

  lemma {:induction false} NoneFiltered(rows: seq<Row>, p: Row -> bool)
    requires forall r :: r in rows ==> !p(r)
    ensures Filter(rows, p) == []
  {
    if rows != [] { NoneFiltered(rows[1..], p); }
  }

  lemma RowsInOrder(table: seq<Instrument>, quotes: Quotes, affordable: real, minDays: int, maxDays: int, longer: bool)
    requires Supported(Instruments(table, minDays, maxDays, longer))
    ensures Pairwise(Rows(Instruments(table, minDays, maxDays, longer), quotes, affordable), RowOrder(longer))
  {
    var kept := Filter(table, WithinTerm(minDays, maxDays));
    var instruments := Instruments(table, minDays, maxDays, longer);
    var any: (Instrument, Instrument) -> bool := (a, b) => true;
    InstrumentOrderIsTotal(longer);
    SortIsLexicographic(kept, InstrumentOrder(longer), any);
    var rows := Rows(instruments, quotes, affordable);
    forall i, j | 0 <= i < j < |rows|
      ensures RowOrder(longer)(rows[i], rows[j])
    {
      assert Then(InstrumentOrder(longer), any)(instruments[i], instruments[j]);
    }
  }

  /**
   * The candidates are the rows of exactly the instruments within the term bounds, in order of
   * preference: term, then higher price, then market.
   */
  lemma CandidatesInOrder(
      table: seq<Instrument>, quotes: Quotes, affordable: real, minDays: int, maxDays: int, longer: bool)
    requires Supported(table)
    ensures Supported(Instruments(table, minDays, maxDays, longer))
    ensures var rows := Candidates(table, quotes, affordable, minDays, maxDays, longer);
            && Pairwise(rows, Preference(longer))
            && multiset(rows) == multiset(Rows(Instruments(table, minDays, maxDays, longer), quotes, affordable))
            && (forall r :: r in rows <==>
                  r.instrument in table && minDays <= r.instrument.days <= maxDays
                  && r == RowOf(r.instrument, quotes, affordable))
  {
    InstrumentsAre(table, minDays, maxDays, longer);
    var instruments := Instruments(table, minDays, maxDays, longer);
    var rows := Rows(instruments, quotes, affordable);
    var days := Sort(Days(rows), DayOrder(longer));
    RowsInOrder(table, quotes, affordable, minDays, maxDays, longer);
    SortedDays(rows, longer);
    PrioritizedInOrder(rows, days, longer);
    PrioritizedKeeps(rows, days, longer);
    forall r | r in rows
      ensures InDays(days)(r)
    {
      assert r.instrument.days in days;
    }
    FilterAll(rows, InDays(days));
    forall r
      ensures r in Prioritized(rows, days) <==>
              r.instrument in table && minDays <= r.instrument.days <= maxDays
              && r == RowOf(r.instrument, quotes, affordable)
    {
      PrioritizedHas(rows, days, r);
      assert r in rows ==> r.instrument.days in days;
      RowsHave(instruments, quotes, affordable, r);
    }
  }

  lemma RowsHave(instruments: seq<Instrument>, quotes: Quotes, affordable: real, r: Row)
    requires Supported(instruments)
    ensures r in Rows(instruments, quotes, affordable) <==>
            r.instrument in instruments && r == RowOf(r.instrument, quotes, affordable)
  {
    var rows := Rows(instruments, quotes, affordable);
    if r.instrument in instruments && r == RowOf(r.instrument, quotes, affordable) {
      var k :| 0 <= k < |instruments| && instruments[k] == r.instrument;
      assert rows[k] == r;
    }
  }

  // --------------------------------------------------------------- the choice

  function FirstEligible(rows: seq<Row>): Option<Row> {
    if rows == [] then None else if rows[0].eligible then Some(rows[0]) else FirstEligible(rows[1..])
  }

  lemma {:induction false} FirstIsPreferred(rows: seq<Row>, le: (Row, Row) -> bool)
    requires Pairwise(rows, le)
    ensures FirstEligible(rows).None? <==> forall r :: r in rows ==> !r.eligible
    ensures FirstEligible(rows).Some? ==>
              var c := FirstEligible(rows).value;
              c in rows && c.eligible && forall r :: r in rows && r.eligible ==> r == c || le(c, r)
  {
    if rows != [] {
      PairwiseTail(rows, le);
      FirstIsPreferred(rows[1..], le);
      assert forall r :: r in rows <==> r == rows[0] || r in rows[1..];
    }
  }

  function Choose(
      table: seq<Instrument>, quotes: Quotes, affordable: real, minDays: int, maxDays: int, longer: bool): Option<Row>
    requires Supported(Instruments(table, minDays, maxDays, longer))
  {
    FirstEligible(Candidates(table, quotes, affordable, minDays, maxDays, longer))
  }

  ghost predicate NoLargerLot(volume: int, symbol: string, amount: real)
    requires Portfolio.IsReverseRepo(symbol)
  {
    forall w: int ::
      Portfolio.IsLots(w, Portfolio.VolumeStep(symbol).value) && Portfolio.OrderAmount(w) <= amount ==> w <= volume
  }

  /** An instrument that could be bought: within the terms, quoted, and at least one lot affordable. */
  ghost predicate Buyable(
      i: Instrument, table: seq<Instrument>, quotes: Quotes, affordable: real, minDays: int, maxDays: int) {
    && i in table && minDays <= i.days <= maxDays && i.symbol in quotes && quotes[i.symbol] > 0.0
    && Portfolio.VolumeStep(i.symbol).Some? && Portfolio.OrderAmount(Portfolio.VolumeStep(i.symbol).value) <= affordable
  }

  lemma EligibleIsBuyable(i: Instrument, quotes: Quotes, affordable: real)
    requires Portfolio.IsReverseRepo(i.symbol)
    ensures var r := RowOf(i, quotes, affordable); var step := Portfolio.VolumeStep(i.symbol).value;
            && (r.eligible <==>
                  i.symbol in quotes && quotes[i.symbol] > 0.0 && Portfolio.OrderAmount(step) <= affordable)
            && (r.eligible ==>
                  && r.planned == Portfolio.OrderAmount(r.volume) && r.volume >= step
                  && Portfolio.VolumeForAmount(i.symbol, affordable) == Some(r.volume))
  {
    var step := Portfolio.VolumeStep(i.symbol).value;
    var volume := Portfolio.VolumeForAmount(i.symbol, affordable).value;
    Portfolio.VolumeIsLargestLot(i.symbol, affordable, volume);
    assert Portfolio.IsLots(step, step) by { assert step == 1 * step; }
  }

  /**
   * For any quotes, amount and table: a candidate is chosen exactly when some instrument can be bought;
   * it is the best of those by term, price and market; and the order is the largest number of whole lots
   * that the amount pays for.
   */
  lemma ChosenIsBest(table: seq<Instrument>, quotes: Quotes, affordable: real, minDays: int, maxDays: int, longer: bool)
    requires Supported(table)
    ensures Supported(Instruments(table, minDays, maxDays, longer))
    ensures var choice := Choose(table, quotes, affordable, minDays, maxDays, longer);
            && (choice.Some? <==> exists i :: Buyable(i, table, quotes, affordable, minDays, maxDays))
            && (choice.Some? ==>
                  var c := choice.value;
                  && Buyable(c.instrument, table, quotes, affordable, minDays, maxDays)
                  && c.price == quotes[c.instrument.symbol]
                  && (forall i :: Buyable(i, table, quotes, affordable, minDays, maxDays) ==>
                        i == c.instrument || Prefers(longer, c, RowOf(i, quotes, affordable)))
                  && c.planned == Portfolio.OrderAmount(c.volume) && 0.0 < c.planned <= affordable
                  && Portfolio.IsLots(c.volume, Portfolio.VolumeStep(c.instrument.symbol).value)
                  && NoLargerLot(c.volume, c.instrument.symbol, affordable))
  {
    CandidatesInOrder(table, quotes, affordable, minDays, maxDays, longer);
    var rows := Candidates(table, quotes, affordable, minDays, maxDays, longer);
    FirstIsPreferred(rows, Preference(longer));
    forall i | Buyable(i, table, quotes, affordable, minDays, maxDays)
      ensures RowOf(i, quotes, affordable) in rows && RowOf(i, quotes, affordable).eligible
    {
      EligibleIsBuyable(i, quotes, affordable);
    }
    var choice := FirstEligible(rows);
    hide Candidates, Prefers, RowOf;
    if choice.Some? {
      var c := choice.value;
      EligibleIsBuyable(c.instrument, quotes, affordable);
      Portfolio.VolumeIsLargestLot(c.instrument.symbol, affordable, c.volume);
      assert Buyable(c.instrument, table, quotes, affordable, minDays, maxDays);
    }
  }

  // ------------------------------------------------------------- the decision

  datatype Status =
    | Error | Disabled | NoGap | PendingOrderExists | NoCandidate
    | WaitingSession | Blocked | Submitted | SubmitFailed | Planned

  datatype Settings = Settings(
    enabled: bool, autoSubmit: bool, liveMode: bool, liveTradeEnabled: bool, sessionOpen: bool,
    minDays: int, maxDays: int, longer: bool, reserved: real)

  /** What the broker says: the balance and positions, or an exception. */
  datatype Snapshot = Unavailable | Available(cash: real, held: real, pendingOrders: nat)

  function Gap(settings: Settings, held: real): real {
    Portfolio.BuildTestTradingBudget(0.0, 0.0, held, 0.0, settings.reserved, 0.0).repoGap
  }

  /** There is a gap to fill and no order out to fill it. */
  predicate Open(settings: Settings, broker: Snapshot) {
    broker.Available? && settings.enabled && Gap(settings, broker.held) > 0.0 && broker.pendingOrders == 0
  }

  /** The candidate that would fill the gap, as far as the cash goes. */
  function Candidate(table: seq<Instrument>, settings: Settings, quotes: Quotes, broker: Snapshot): Option<Row>
    requires Supported(table) && broker.Available?
  {
    InstrumentsAre(table, settings.minDays, settings.maxDays, settings.longer);
    Choose(table, quotes, Portfolio.Min(broker.cash, Gap(settings, broker.held)),
           settings.minDays, settings.maxDays, settings.longer)
  }

  /** The order that an inspection places, if it gets that far. */
  function Order(table: seq<Instrument>, settings: Settings, quotes: Quotes, broker: Snapshot): Option<Row>
    requires Supported(table)
  {
    if Open(settings, broker)
       && settings.autoSubmit && settings.liveMode && settings.liveTradeEnabled && settings.sessionOpen
    then Candidate(table, settings, quotes, broker)
    else None
  }

  /** `inspect`; `accepted` is what the adapter answers to an order. */
  method Inspect(table: seq<Instrument>, settings: Settings, quotes: Quotes, broker: Snapshot, accepted: bool)
    returns (status: Status, placed: Option<Row>)
    requires Supported(table)
    ensures placed == Order(table, settings, quotes, broker)
    ensures placed.Some? <==> status == Submitted || status == SubmitFailed
    ensures placed.Some? ==> (status == Submitted <==> accepted)
    ensures status == Error <==> broker == Unavailable
    ensures status == Disabled <==> broker.Available? && !settings.enabled
    ensures status == NoGap <==> broker.Available? && settings.enabled && broker.held >= settings.reserved
    ensures status == PendingOrderExists <==>
              broker.Available? && settings.enabled && broker.held < settings.reserved && broker.pendingOrders > 0
    ensures status == NoCandidate <==> Open(settings, broker) && Candidate(table, settings, quotes, broker).None?
    ensures status in {WaitingSession, Blocked, Submitted, SubmitFailed, Planned} <==>
              Open(settings, broker) && Candidate(table, settings, quotes, broker).Some?
    ensures status == WaitingSession ==> settings.autoSubmit && !settings.sessionOpen
    ensures status == Blocked ==>
              settings.autoSubmit && settings.sessionOpen && settings.liveMode && !settings.liveTradeEnabled
    ensures status == Planned ==> !settings.autoSubmit || (settings.sessionOpen && !settings.liveMode)
  {
    placed := None;
    var liveSubmitAllowed :=
      settings.autoSubmit && settings.enabled && settings.liveMode && settings.liveTradeEnabled && settings.sessionOpen;
    if broker.Unavailable? {
      return Error, None;
    }
    var gap := Gap(settings, broker.held);
    var affordable := Portfolio.Min(broker.cash, gap);
    var candidates :=
      BuildCandidateQuotes(table, quotes, affordable, settings.minDays, settings.maxDays, settings.longer);
    var selected := FirstEligible(candidates);
    status := NoGap;
    if !settings.enabled {
      status := Disabled;
    } else if gap <= 0.0 {
      status := NoGap;
    } else if broker.pendingOrders > 0 {
      status := PendingOrderExists;
    } else if selected.None? {
      status := NoCandidate;
    } else if settings.autoSubmit && !settings.sessionOpen {
      status := WaitingSession;
    } else if settings.autoSubmit && settings.liveMode && !settings.liveTradeEnabled {
      status := Blocked;
    } else if liveSubmitAllowed {
      placed := selected;
      status := if accepted then Submitted else SubmitFailed;
    } else {
      status := Planned;
    }
  }

  // -------------------------------------------------------------------- runs

  /** The account as this service changes it: free cash, repo value held, and the open repo orders. */
  datatype Account = Account(cash: real, held: real, open: seq<real>)

  /**
   * An inspection, whose order reaches the broker or not, an order filled in part, an order that ends
   * as it is, or a repo that falls due.
   */
  datatype Event =
    | Inspection(settings: Settings, quotes: Quotes, reaches: bool)
    | Filled(order: nat, amount: real)
    | Closed(order: nat)
    | Due(amount: real)

  /** Fills stay within the order, and what falls due is held. */
  predicate Possible(a: Account, e: Event) {
    match e
    case Inspection(_, _, _) => true
    case Filled(order, amount) => order < |a.open| && 0.0 <= amount <= a.open[order]
    case Closed(order) => order < |a.open|
    case Due(amount) => 0.0 <= amount <= a.held
  }

  function Next(table: seq<Instrument>, a: Account, e: Event): Account
    requires Supported(table) && Possible(a, e)
  {
    match e
    case Inspection(settings, quotes, reaches) =>
      var placed := Order(table, settings, quotes, Available(a.cash, a.held, |a.open|));
      if placed.Some? && reaches then a.(open := a.open + [placed.value.planned]) else a
    case Filled(order, amount) =>
      Account(a.cash - amount, a.held + amount, a.open[order := a.open[order] - amount])
    case Closed(order) => a.(open := a.open[..order] + a.open[order + 1..])
    case Due(amount) => Account(a.cash + amount, a.held - amount, a.open)
  }

  /** The account after a run of possible events. */
  function Run(table: seq<Instrument>, start: Account, events: seq<Event>): Option<Account>
    requires Supported(table)
  {
    if events == [] then Some(start)
    else
      var before := Run(table, start, events[..|events| - 1]);
      if before.Some? && Possible(before.value, events[|events| - 1]) then
        Some(Next(table, before.value, events[|events| - 1]))
      else None
  }

  /** Every inspection of the run aims at no more than this reserve. */
  ghost predicate ReservesUpTo(events: seq<Event>, reserved: real) {
    forall i :: 0 <= i < |events| && events[i].Inspection? ==> events[i].settings.reserved <= reserved
  }

  /** At most one open order, paid for, and within the reserve together with what is held. */
  ghost predicate Prudent(a: Account, reserved: real) {
    && |a.open| <= 1 && 0.0 <= a.cash
    && (a.open != [] ==> 0.0 <= a.open[0] <= a.cash && a.held + a.open[0] <= reserved)
  }

  lemma OrderIsAffordable(table: seq<Instrument>, settings: Settings, quotes: Quotes, broker: Snapshot)
    requires Supported(table)
    ensures var placed := Order(table, settings, quotes, broker);
            placed.Some? ==>
              && broker.Available? && broker.pendingOrders == 0 && 0.0 < placed.value.planned <= broker.cash
              && broker.held + placed.value.planned <= settings.reserved
  {
    if broker.Available? {
      ChosenIsBest(table, quotes, Portfolio.Min(broker.cash, Gap(settings, broker.held)),
                   settings.minDays, settings.maxDays, settings.longer);
    }
  }

  lemma StepIsPrudent(table: seq<Instrument>, a: Account, e: Event, reserved: real)
    requires Supported(table) && Possible(a, e) && Prudent(a, reserved)
    requires e.Inspection? ==> e.settings.reserved <= reserved
    ensures Prudent(Next(table, a, e), reserved)
    ensures a.held <= reserved ==> Next(table, a, e).held <= reserved
  {
    if e.Inspection? {
      OrderIsAffordable(table, e.settings, e.quotes, Available(a.cash, a.held, |a.open|));
    }
  }

  /**
   * Over any run of inspections, partial fills, cancellations and repos falling due, in any order and
   * whether or not orders reach the broker, there is never more than one open order, cash is never
   * overdrawn, and the holding is never lifted above the reserve.
   */
  lemma {:induction false} RunsArePrudent(table: seq<Instrument>, start: Account, events: seq<Event>, reserved: real)
    requires Supported(table)
    requires start.open == [] && 0.0 <= start.cash && start.held <= reserved && ReservesUpTo(events, reserved)
    ensures var end := Run(table, start, events);
            end.Some? ==> Prudent(end.value, reserved) && end.value.held <= reserved
  {
    if events != [] {
      var front, last := events[..|events| - 1], events[|events| - 1];
      RunsArePrudent(table, start, front, reserved);
      var before := Run(table, start, front);
      if before.Some? && Possible(before.value, last) {
        StepIsPrudent(table, before.value, last, reserved);
      }
    }
  }

  // ------------------------------------------------------- what is preferred

  /** The order of the markets that trade repos. */
  lemma MarketOrder()
    ensures TextAtMost("SH", "SZ") && !TextAtMost("SZ", "SH") && TextAtMost("SH", "SH")
  {
    assert "SH"[1..] == "H" && "SZ"[1..] == "Z" && "H"[1..] == "";
  }

  lemma SameHead(a: string, b: string, k: nat)
    requires 0 < k < |a| && k < |b| && a[..k] == b[..k]
    ensures a[0] == b[0]
  {
    assert a[0] == a[..k][0] && b[0] == b[..k][0];
  }

  /** Texts are compared at the first character in which they differ, and a beginning comes first. */
  lemma {:induction false} TextAtMostIs(a: string, b: string)
    ensures TextAtMost(a, b) <==>
            || a <= b
            || exists k: nat :: k < |a| && k < |b| && a[..k] == b[..k] && a[k] < b[k]
  {
    if a != "" && b != "" && a[0] == b[0] {
      TextAtMostIs(a[1..], b[1..]);
      assert a == [a[0]] + a[1..] && b == [b[0]] + b[1..];
      if k: nat :| k < |a[1..]| && k < |b[1..]| && a[1..][..k] == b[1..][..k] && a[1..][k] < b[1..][k] {
        assert a[..k + 1] == [a[0]] + a[1..][..k] && b[..k + 1] == [b[0]] + b[1..][..k];
      }
      if k: nat :| k < |a| && k < |b| && a[..k] == b[..k] && a[k] < b[k] {
        assert k > 0;
        assert a[1..][..k - 1] == a[..k][1..] && b[1..][..k - 1] == b[..k][1..];
        assert a[1..][k - 1] < b[1..][k - 1];
      }
    } else if a != "" && b != "" {
      if a[0] < b[0] { assert a[..0] == b[..0]; }
      if k: nat :| k < |a| && k < |b| && a[..k] == b[..k] && a[k] < b[k] {
        if k > 0 { SameHead(a, b, k); }
      }
    }
  }

  /**
   * The instrument chosen can be bought; none that can be has a better term, the longer or the shorter
   * one as wished; of the same term none has a higher price; and of the same price none comes before it
   * by market.
   */
  lemma ChosenBeatsAll(
      table: seq<Instrument>, quotes: Quotes, affordable: real, minDays: int, maxDays: int, longer: bool, i: Instrument)
    requires Supported(table) && Buyable(i, table, quotes, affordable, minDays, maxDays)
    ensures Supported(Instruments(table, minDays, maxDays, longer))
    ensures var choice := Choose(table, quotes, affordable, minDays, maxDays, longer);
            && choice.Some?
            && var c := choice.value.instrument;
               && Buyable(c, table, quotes, affordable, minDays, maxDays)
               && (longer ==> i.days <= c.days) && (!longer ==> c.days <= i.days)
               && (i.days == c.days ==> quotes[i.symbol] <= quotes[c.symbol])
               && (i.days == c.days && quotes[i.symbol] == quotes[c.symbol] && i != c ==>
                     TextAtMost(c.market, i.market))
  {
    ChosenIsBest(table, quotes, affordable, minDays, maxDays, longer);
    var choice := Choose(table, quotes, affordable, minDays, maxDays, longer);
    hide Choose, Instruments, Buyable;
    if i != choice.value.instrument {
      assert Prefers(longer, choice.value, RowOf(i, quotes, affordable));
    }
  }

  // ---------------------------------------------------- when an order is placed

  /** There is a gap to fill exactly if less than the reserve is held; without an open order it may be filled. */
  lemma OpenIs(settings: Settings, broker: Snapshot)
    ensures Open(settings, broker) <==>
            && broker.Available? && settings.enabled
            && broker.held < settings.reserved && broker.pendingOrders == 0
    ensures Open(settings, broker) ==> Gap(settings, broker.held) == settings.reserved - broker.held
  {
  }

  /**
   * An order is placed exactly if everything allows it: the broker answers, the refill is enabled, less than
   * the reserve is held, no repo order is open, submission is automatic, live, permitted and in session, and
   * some instrument can be bought with the cash and within the gap. It is then the best such instrument.
   */
  lemma OrderIs(table: seq<Instrument>, settings: Settings, quotes: Quotes, broker: Snapshot)
    requires Supported(table)
    ensures var gap := if broker.Available? then settings.reserved - broker.held else 0.0;
            var affordable := if broker.Available? && broker.cash < gap then broker.cash else gap;
            var placed := Order(table, settings, quotes, broker);
            && (placed.Some? <==>
                  && broker.Available? && settings.enabled && 0.0 < gap && broker.pendingOrders == 0
                  && settings.autoSubmit && settings.liveMode && settings.liveTradeEnabled && settings.sessionOpen
                  && exists i :: Buyable(i, table, quotes, affordable, settings.minDays, settings.maxDays))
            && (placed.Some? ==>
                  && Supported(Instruments(table, settings.minDays, settings.maxDays, settings.longer))
                  && placed == Choose(table, quotes, affordable, settings.minDays, settings.maxDays, settings.longer)
                  && placed.value.planned == placed.value.volume as real * 1000.0)
  {
    OpenIs(settings, broker);
    if Open(settings, broker) {
      var affordable := Portfolio.Min(broker.cash, settings.reserved - broker.held);
      ChosenIsBest(table, quotes, affordable, settings.minDays, settings.maxDays, settings.longer);
      assert Candidate(table, settings, quotes, broker) ==
             Choose(table, quotes, affordable, settings.minDays, settings.maxDays, settings.longer);
      hide Choose, Candidate, Open, Gap, Instruments, Buyable, Supported;
    }
  }

  /** An inspection can come at any time; fills stay within an open order, and what falls due is held. */
  lemma PossibleIs(a: Account, settings: Settings, quotes: Quotes, reaches: bool, order: nat, amount: real)
    ensures Possible(a, Inspection(settings, quotes, reaches))
    ensures Possible(a, Filled(order, amount)) <==> order < |a.open| && 0.0 <= amount && amount <= a.open[order]
    ensures Possible(a, Closed(order)) <==> order < |a.open|
    ensures Possible(a, Due(amount)) <==> 0.0 <= amount && amount <= a.held
  {
  }

  /** What each event does to the account. */
  lemma NextIs(table: seq<Instrument>, a: Account, e: Event)
    requires Supported(table) && Possible(a, e)
    ensures var b := Next(table, a, e);
            && (e.Inspection? ==>
                  var placed := Order(table, e.settings, e.quotes, Available(a.cash, a.held, |a.open|));
                  && b.cash == a.cash && b.held == a.held
                  && b.open == if e.reaches && placed.Some? then a.open + [placed.value.planned] else a.open)
            && (e.Filled? ==>
                  && b.cash == a.cash - e.amount && b.held == a.held + e.amount
                  && b.open == a.open[e.order := a.open[e.order] - e.amount])
            && (e.Closed? ==>
                  && b.cash == a.cash && b.held == a.held
                  && a.open == b.open[..e.order] + [a.open[e.order]] + b.open[e.order..])
            && (e.Due? ==> b.cash == a.cash + e.amount && b.held == a.held - e.amount && b.open == a.open)
  {
  }

  /** Over any run the cash and what is held together stay the same. */
  lemma {:induction false} MoneyIsConserved(table: seq<Instrument>, start: Account, events: seq<Event>)
    requires Supported(table)
    ensures var end := Run(table, start, events);
            end.Some? ==> end.value.cash + end.value.held == start.cash + start.held
  {
    if events != [] { MoneyIsConserved(table, start, events[..|events| - 1]); }
  }
}
