/**
 * The deep position scan (src/ashare_system/scheduler.py): it decides as the fast scan does, but what it
 * remembers of earlier sells is the order journal, which only the local planes write.
 */
module DeepPositionWatch {
  import opened BoundedLog
  import opened FastPositionWatch

  const JOURNAL_CAP := 200

  /** A journal entry as far as the scan reads it: for which symbol, whether a sell, whether still pending. */
  datatype Entry = Entry(symbol: string, sells: bool, pending: bool)

  /** How placing an order and the bookkeeping after it end: the journal comes first, the count last. */
  datatype Booking = NotPlaced | LostBeforeJournal | LostBeforeCount | LostAfterCount | Booked

  datatype Holding = Holding(position: Position, booking: Booking)

  datatype DeepScan = DeepScan(
    sells: nat, submitted: nat, queued: nat, preview: nat, errors: nat, journal: seq<Entry>, queue: seq<Queued>)

  function NewDeepScan(journal: seq<Entry>, queue: seq<Queued>): DeepScan {
    DeepScan(0, 0, 0, 0, 0, journal, queue)
  }

  predicate Journals(booking: Booking) {
    booking.LostBeforeCount? || booking.LostAfterCount? || booking.Booked?
  }

  predicate Counts(booking: Booking) {
    booking.LostAfterCount? || booking.Booked?
  }

  /** The symbols with a pending sell in the journal. */
  function OpenSells(journal: seq<Entry>): set<string> {
    set e | e in journal && e.sells && e.pending && e.symbol != "" :: e.symbol
  }

  function DeepScanOne(s: DeepScan, h: Holding, plane: Plane, open: set<string>, now: int): DeepScan {
    var p := h.position;
    match Decide(p, plane, open)
    case Hold => s
    case Queue =>
      s.(sells := s.sells + 1, queued := s.queued + 1, queue := s.queue + [Queued(p.symbol, Planned(p), now)])
    case Submit(_) =>
      s.(sells := s.sells + 1,
         submitted := s.submitted + (if Counts(h.booking) then 1 else 0),
         errors := s.errors + (if h.booking.Booked? then 0 else 1),
         journal := if Journals(h.booking) then Last(s.journal + [Entry(p.symbol, true, true)], JOURNAL_CAP)
                    else s.journal)
    case _ => s.(sells := s.sells + 1, preview := s.preview + 1)
  }

  function DeepScanAll(s: DeepScan, hs: seq<Holding>, plane: Plane, open: set<string>, now: int): DeepScan {
    if hs == [] then s
    else DeepScanOne(DeepScanAll(s, hs[..|hs| - 1], plane, open, now), hs[|hs| - 1], plane, open, now)
  }

  /** Orders counted as submitted whose bookkeeping failed after that. */
  function LateLosses(hs: seq<Holding>, plane: Plane, open: set<string>): nat {
    if hs == [] then 0 else
      var h := hs[|hs| - 1];
      LateLosses(hs[..|hs| - 1], plane, open) +
      if Decide(h.position, plane, open).Submit? && h.booking.LostAfterCount? then 1 else 0
  }

  class DeepStore {
    var journal: seq<Entry>
    var queue: seq<Queued>

    constructor ()
      ensures journal == [] && queue == []
    {
      journal, queue := [], [];
    }
  }

  /** `_ensure_order_context_loaded`, as far as it collects the pending sells. */
  method LoadOpenSells(journal: seq<Entry>) returns (open: set<string>)
    ensures open == OpenSells(journal)
  {
    open := {};
    for n := 0 to |journal|
      invariant open == OpenSells(journal[..n])
    {
      var item := journal[n];
      assert journal[..n + 1] == journal[..n] + [item];
      if item.symbol == "" { continue; }
      if item.sells && item.pending { open := open + {item.symbol}; }
    }
    assert journal[..|journal|] == journal;
  }

  /** A completed deep scan. */
  method RunPositionWatchScan(store: DeepStore, hs: seq<Holding>, plane: Plane, now: int) returns (report: DeepScan)
    modifies store
    ensures var open := OpenSells(old(store.journal));
            report == DeepScanAll(NewDeepScan(old(store.journal), old(store.queue)), hs, plane, open, now)
    ensures store.journal == report.journal && store.queue == report.queue
  {
    var open := LoadOpenSells(store.journal);
    report := NewDeepScan(store.journal, store.queue);
    for n := 0 to |hs|
      invariant report == DeepScanAll(NewDeepScan(old(store.journal), old(store.queue)), hs[..n], plane, open, now)
      invariant store.journal == report.journal && store.queue == report.queue
    {
      assert hs[..n + 1][..n] == hs[..n];
      report := ScanHolding(store, report, hs[n], plane, open, now);
    }
    assert hs[..|hs|] == hs;
  }

  /** One round of the loop; the journal is written before the submission is counted. */
  method ScanHolding(store: DeepStore, before: DeepScan, h: Holding, plane: Plane, open: set<string>, now: int)
    returns (report: DeepScan)
    requires store.journal == before.journal && store.queue == before.queue
    modifies store
    ensures report == DeepScanOne(before, h, plane, open, now)
    ensures store.journal == report.journal && store.queue == report.queue
  {
    report := before;
    var outcome := Decide(h.position, plane, open);
    if outcome.Hold? { return; }
    report := report.(sells := report.sells + 1);
    if outcome.Queue? {
      store.queue := store.queue + [Queued(h.position.symbol, Planned(h.position), now)];
      report := report.(queued := report.queued + 1, queue := store.queue);
    } else if outcome.Submit? {
      if Journals(h.booking) {
        store.journal := Last(store.journal + [Entry(h.position.symbol, true, true)], JOURNAL_CAP);
        report := report.(journal := store.journal);
      }
      if Counts(h.booking) { report := report.(submitted := report.submitted + 1); }
      if !h.booking.Booked? { report := report.(errors := report.errors + 1); }
    } else {
      report := report.(preview := report.preview + 1);
    }
  }

  /** The counters of the deep scan add up as those of the fast scan do. */
  lemma {:induction false} DeepSellsAreAccounted(
      journal: seq<Entry>, queue: seq<Queued>, hs: seq<Holding>, plane: Plane, open: set<string>, now: int)
    ensures var s := DeepScanAll(NewDeepScan(journal, queue), hs, plane, open, now);
            && s.submitted + s.queued + s.preview + s.errors == s.sells + LateLosses(hs, plane, open)
            && |s.queue| == |queue| + s.queued
  {
    if hs != [] {
      DeepSellsAreAccounted(journal, queue, hs[..|hs| - 1], plane, open, now);
    }
  }

  // ----------------------------------------------------- what a scan may sell

  /** The holdings a scan sells, in order. */
  function ChosenOf(hs: seq<Holding>, open: set<string>): seq<Holding> {
    if hs == [] then [] else
      var last := hs[|hs| - 1];
      ChosenOf(hs[..|hs| - 1], open) + if Sellable(last.position, open) then [last] else []
  }

  lemma {:induction false} ChosenOfAre(hs: seq<Holding>, open: set<string>)
    ensures forall h :: h in ChosenOf(hs, open) <==>
              && h in hs && h.position.approved && (h.position.signal.Sell? || h.position.signal.HighSell?)
              && h.position.symbol !in open && Planned(h.position) > 0
  {
    if hs != [] {
      ChosenOfAre(hs[..|hs| - 1], open);
      assert hs == hs[..|hs| - 1] + [hs[|hs| - 1]];
    }
  }

  function DeepRequests(hs: seq<Holding>, now: int): (requests: seq<Queued>)
    ensures |requests| == |hs|
    ensures forall i :: 0 <= i < |hs| ==>
              requests[i] == Queued(hs[i].position.symbol, Planned(hs[i].position), now)
  {
    seq(|hs|, i requires 0 <= i < |hs| => Queued(hs[i].position.symbol, Planned(hs[i].position), now))
  }

  /** The journal entries of the orders that got that far. */
  function Journaled(hs: seq<Holding>): seq<Entry> {
    if hs == [] then [] else
      var last := hs[|hs| - 1];
      Journaled(hs[..|hs| - 1]) +
      if last.booking in {LostBeforeCount, LostAfterCount, Booked} then [Entry(last.position.symbol, true, true)]
      else []
  }

  /** How many orders were counted, and how many were booked to the end. */
  function CountedOf(hs: seq<Holding>): nat {
    if hs == [] then 0 else
      CountedOf(hs[..|hs| - 1]) + if hs[|hs| - 1].booking in {LostAfterCount, Booked} then 1 else 0
  }

  function BookedOf(hs: seq<Holding>): nat {
    if hs == [] then 0 else BookedOf(hs[..|hs| - 1]) + if hs[|hs| - 1].booking == Booked then 1 else 0
  }

  function SignalsOf(hs: seq<Holding>): nat {
    if hs == [] then 0 else
      var last := hs[|hs| - 1].position;
      SignalsOf(hs[..|hs| - 1]) + if last.signal.Sell? || last.signal.HighSell? then 1 else 0
  }

  lemma ChosenOfOneMore(front: seq<Holding>, last: Holding, open: set<string>, now: int)
    ensures ChosenOf(front + [last], open) ==
            if Sellable(last.position, open) then ChosenOf(front, open) + [last] else ChosenOf(front, open)
    ensures SignalsOf(front + [last]) ==
            SignalsOf(front) + if last.position.signal.Sell? || last.position.signal.HighSell? then 1 else 0
    ensures var chosen := ChosenOf(front, open);
            && DeepRequests(chosen + [last], now) ==
               DeepRequests(chosen, now) + [Queued(last.position.symbol, Planned(last.position), now)]
            && CountedOf(chosen + [last]) ==
               CountedOf(chosen) + (if last.booking in {LostAfterCount, Booked} then 1 else 0)
            && BookedOf(chosen + [last]) == BookedOf(chosen) + (if last.booking == Booked then 1 else 0)
            && Journaled(chosen + [last]) ==
               if last.booking in {LostBeforeCount, LostAfterCount, Booked}
               then Journaled(chosen) + [Entry(last.position.symbol, true, true)] else Journaled(chosen)
  {
    assert (front + [last])[..|front|] == front;
    assert (ChosenOf(front, open) + [last])[..|ChosenOf(front, open)|] == ChosenOf(front, open);
  }

  lemma DeepScanOneMore(
      front: seq<Holding>, last: Holding, plane: Plane, open: set<string>, now: int, s: DeepScan)
    ensures DeepScanAll(s, front + [last], plane, open, now)
         == DeepScanOne(DeepScanAll(s, front, plane, open, now), last, plane, open, now)
  {
    assert (front + [last])[..|front|] == front;
  }

  /** One holding: the sale if it is sellable, one preview if it only has a sell signal, and else nothing. */
  lemma DeepScanOneIs(s: DeepScan, h: Holding, plane: Plane, open: set<string>, now: int)
    ensures var p := h.position;
            var sells := p.signal.Sell? || p.signal.HighSell?;
            var sellable := p.approved && sells && p.symbol !in open && Planned(p) > 0;
            var s' := DeepScanOne(s, h, plane, open, now);
            && (!sells ==> s' == s)
            && (sells && !(sellable && (plane.Gateway? || plane.LocalLive?)) ==>
                  s' == s.(sells := s.sells + 1, preview := s.preview + 1))
            && (sellable && plane.Gateway? ==>
                  s' == s.(sells := s.sells + 1, queued := s.queued + 1,
                           queue := s.queue + [Queued(p.symbol, Planned(p), now)]))
            && (sellable && plane.LocalLive? ==>
                  s' == s.(sells := s.sells + 1,
                           submitted := s.submitted + (if h.booking in {LostAfterCount, Booked} then 1 else 0),
                           errors := s.errors + (if h.booking != Booked then 1 else 0),
                           journal := if h.booking in {LostBeforeCount, LostAfterCount, Booked}
                                      then Append(s.journal, [Entry(p.symbol, true, true)], JOURNAL_CAP)
                                      else s.journal))
  {
  }

  /** On the gateway plane a deep scan queues exactly the sellable holdings, in order, and journals nothing. */
  lemma {:induction false} DeepScanQueues(
      hs: seq<Holding>, open: set<string>, now: int, journal: seq<Entry>, queue: seq<Queued>)
    ensures var s := DeepScanAll(NewDeepScan(journal, queue), hs, Gateway, open, now);
            && s.queue == queue + DeepRequests(ChosenOf(hs, open), now) && s.journal == journal
            && s.submitted == 0 && s.errors == 0
  {
    if hs != [] {
      var front, last := hs[..|hs| - 1], hs[|hs| - 1];
      assert hs == front + [last];
      DeepScanQueues(front, open, now, journal, queue);
      DeepScanOneMore(front, last, Gateway, open, now, NewDeepScan(journal, queue));
      ChosenOfOneMore(front, last, open, now);
      assert Sellable(last.position, open) ==> last.position.signal.Sell? || last.position.signal.HighSell?;
      hide DeepScanOne, DeepScanAll, ChosenOf, DeepRequests, Planned;
      DeepScanOneIs(DeepScanAll(NewDeepScan(journal, queue), front, Gateway, open, now), last, Gateway, open, now);
    }
  }

  /** On the live plane it journals exactly the sellable holdings whose order got that far, and queues nothing. */
  lemma {:induction false} DeepScanJournals(
      hs: seq<Holding>, open: set<string>, now: int, journal: seq<Entry>, queue: seq<Queued>)
    ensures var s := DeepScanAll(NewDeepScan(journal, queue), hs, LocalLive, open, now);
            && s.journal == Append(journal, Journaled(ChosenOf(hs, open)), 200)
            && s.queue == queue && s.queued == 0
  {
    if hs != [] {
      var front, last := hs[..|hs| - 1], hs[|hs| - 1];
      assert hs == front + [last];
      DeepScanJournals(front, open, now, journal, queue);
      DeepScanOneMore(front, last, LocalLive, open, now, NewDeepScan(journal, queue));
      ChosenOfOneMore(front, last, open, now);
      assert Sellable(last.position, open) ==> last.position.signal.Sell? || last.position.signal.HighSell?;
      AppendTwice(journal, Journaled(ChosenOf(front, open)), [Entry(last.position.symbol, true, true)], JOURNAL_CAP);
      hide DeepScanOne, DeepScanAll, ChosenOf, Journaled, Planned, Append;
      DeepScanOneIs(DeepScanAll(NewDeepScan(journal, queue), front, LocalLive, open, now), last, LocalLive, open, now);
    }
  }

  lemma ChosenCounts(front: seq<Holding>, last: Holding, open: set<string>)
    ensures var (before, after) := (ChosenOf(front, open), ChosenOf(front + [last], open));
            var sellable := Sellable(last.position, open);
            && |after| == |before| + (if sellable then 1 else 0)
            && CountedOf(after) == CountedOf(before) +
                 (if sellable && last.booking in {LostAfterCount, Booked} then 1 else 0)
            && BookedOf(after) == BookedOf(before) + (if sellable && last.booking == Booked then 1 else 0)
    ensures SignalsOf(front + [last]) ==
            SignalsOf(front) + if last.position.signal.Sell? || last.position.signal.HighSell? then 1 else 0
  {
    ChosenOfOneMore(front, last, open, 0);
  }

  /**
   * Every sell signal that is no sale is one preview; on the live plane the submissions are the sales that
   * were counted, and the errors those not booked to the end.
   */
  lemma {:induction false} DeepScanCounts(
      hs: seq<Holding>, plane: Plane, open: set<string>, now: int, journal: seq<Entry>, queue: seq<Queued>)
    requires plane.Gateway? || plane.LocalLive?
    ensures var s := DeepScanAll(NewDeepScan(journal, queue), hs, plane, open, now);
            var chosen := ChosenOf(hs, open);
            && s.sells == SignalsOf(hs) && s.preview + |chosen| == s.sells
            && s.queued == (if plane.Gateway? then |chosen| else 0)
            && s.submitted == (if plane.Gateway? then 0 else CountedOf(chosen))
            && s.errors + (if plane.Gateway? then 0 else BookedOf(chosen))
            == (if plane.Gateway? then 0 else |chosen|)
  {
    if hs != [] {
      var front, last := hs[..|hs| - 1], hs[|hs| - 1];
      assert hs == front + [last];
      DeepScanCounts(front, plane, open, now, journal, queue);
      DeepScanOneMore(front, last, plane, open, now, NewDeepScan(journal, queue));
      ChosenCounts(front, last, open);
      hide DeepScanOne, DeepScanAll, ChosenOf, SignalsOf, CountedOf, BookedOf, Planned;
      var before := DeepScanAll(NewDeepScan(journal, queue), front, plane, open, now);
      DeepScanOneIs(before, last, plane, open, now);
    }
  }

  /** Without a store, and in a dry run, every sell signal is one preview. */
  lemma {:induction false} OtherDeepScansPreview(
      hs: seq<Holding>, plane: Plane, open: set<string>, now: int, journal: seq<Entry>, queue: seq<Queued>)
    requires plane.GatewayWithoutStore? || plane.LocalDry?
    ensures DeepScanAll(NewDeepScan(journal, queue), hs, plane, open, now)
         == NewDeepScan(journal, queue).(sells := SignalsOf(hs), preview := SignalsOf(hs))
  {
    if hs != [] {
      OtherDeepScansPreview(hs[..|hs| - 1], plane, open, now, journal, queue);
    }
  }

  /** The open sells are the symbols of the entries that sell and are pending. */
  lemma OpenSellsAre(journal: seq<Entry>, symbol: string)
    ensures symbol in OpenSells(journal) <==>
            symbol != "" && exists i :: 0 <= i < |journal| && journal[i] == Entry(symbol, true, true)
  {
    if symbol in OpenSells(journal) {
      var e :| e in journal && e.sells && e.pending && e.symbol == symbol;
      assert e == Entry(symbol, true, true);
    } else if symbol != "" {
      forall i | 0 <= i < |journal|
        ensures journal[i] != Entry(symbol, true, true)
      {
        assert journal[i] in journal;
      }
    }
  }

  // ------------------------------------------------------------ across scans

  /**
   * A deep scan, the broker's answer that an order is no longer pending, or a sell that a fast scan on a
   * local plane appends to the same journal, which it does not read.
   */
  datatype Event = Scanned(hs: seq<Holding>, plane: Plane, at: int) | Closed(entry: nat) | FastSold(symbol: string)

  /** The entries that stay in the journal when one more is appended. */
  function Left(journal: seq<Entry>): seq<Entry> {
    Last(journal, JOURNAL_CAP - 1)
  }

  function React(journal: seq<Entry>, e: Event): seq<Entry> {
    match e
    case Scanned(hs, plane, now) =>
      DeepScanAll(NewDeepScan(journal, []), hs, plane, OpenSells(journal), now).journal
    case Closed(k) => if k < |journal| then journal[k := journal[k].(pending := false)] else journal
    case FastSold(symbol) => Last(journal + [Entry(symbol, true, true)], JOURNAL_CAP)
  }

  function ReactAll(es: seq<Event>): seq<Entry> {
    if es == [] then [] else React(ReactAll(es[..|es| - 1]), es[|es| - 1])
  }

  ghost predicate DistinctHoldings(hs: seq<Holding>) {
    && (forall i :: 0 <= i < |hs| ==> hs[i].position.symbol != "")
    && (forall i, j :: 0 <= i < j < |hs| ==> hs[i].position.symbol != hs[j].position.symbol)
  }

  predicate OpenFor(e: Entry, symbol: string) {
    e.sells && e.pending && e.symbol == symbol
  }

  /** At most one pending sell per symbol. */
  ghost predicate OneOpenSell(journal: seq<Entry>) {
    forall i, j :: 0 <= i < j < |journal| && journal[i].sells && journal[i].pending ==>
      !OpenFor(journal[j], journal[i].symbol)
  }

  /** During a scan: one pending sell per symbol, and those not open before it belong to holdings already seen. */
  ghost predicate During(journal: seq<Entry>, open: set<string>, seen: seq<Holding>) {
    && OneOpenSell(journal)
    && forall i :: 0 <= i < |journal| && journal[i].sells && journal[i].pending && journal[i].symbol != "" ==>
         journal[i].symbol in open || SeenSymbol(seen, journal[i].symbol)
  }

  ghost predicate SeenSymbol(hs: seq<Holding>, symbol: string) {
    exists i :: 0 <= i < |hs| && hs[i].position.symbol == symbol
  }

  lemma {:induction false} ScanKeepsOneOpen(
      journal: seq<Entry>, hs: seq<Holding>, plane: Plane, now: int)
    requires OneOpenSell(journal) && DistinctHoldings(hs)
    ensures var open := OpenSells(journal);
            During(DeepScanAll(NewDeepScan(journal, []), hs, plane, open, now).journal, open, hs)
  {
    var open := OpenSells(journal);
    if hs == [] {
      assert forall i :: 0 <= i < |journal| ==> journal[i] in journal;
    } else {
      var front, h := hs[..|hs| - 1], hs[|hs| - 1];
      var before := DeepScanAll(NewDeepScan(journal, []), front, plane, open, now).journal;
      LastIsNew(hs);
      assert hs == front + [h];
      hide OneOpenSell, DistinctHoldings, OpenSells, During, Planned;
      ScanKeepsOneOpen(journal, front, plane, now);
      if Decide(h.position, plane, open).Submit? && Journals(h.booking) {
        JournalOneMore(before, open, front, h);
      } else {
        SeenMore(before, open, front, h);
      }
    }
  }

  lemma LastIsNew(hs: seq<Holding>)
    requires DistinctHoldings(hs) && hs != []
    ensures DistinctHoldings(hs[..|hs| - 1]) && hs[|hs| - 1].position.symbol != ""
    ensures !SeenSymbol(hs[..|hs| - 1], hs[|hs| - 1].position.symbol)
  {
  }

  lemma SeenOneMore(seen: seq<Holding>, h: Holding)
    ensures forall symbol ::
              SeenSymbol(seen + [h], symbol) <==> SeenSymbol(seen, symbol) || h.position.symbol == symbol
  {
    forall symbol
      ensures SeenSymbol(seen + [h], symbol) <==> SeenSymbol(seen, symbol) || h.position.symbol == symbol
    {
      var all := seen + [h];
      if i :| 0 <= i < |seen| && seen[i].position.symbol == symbol { assert all[i] == seen[i]; }
      assert all[|seen|] == h;
    }
  }

  lemma SeenMore(journal: seq<Entry>, open: set<string>, seen: seq<Holding>, h: Holding)
    requires During(journal, open, seen)
    ensures During(journal, open, seen + [h])
  {
    SeenOneMore(seen, h);
  }

  lemma JournalOneMore(journal: seq<Entry>, open: set<string>, seen: seq<Holding>, h: Holding)
    requires During(journal, open, seen)
    requires h.position.symbol != "" && h.position.symbol !in open && !SeenSymbol(seen, h.position.symbol)
    ensures During(Last(journal + [Entry(h.position.symbol, true, true)], JOURNAL_CAP), open, seen + [h])
  {
    SeenOneMore(seen, h);
    var all := journal + [Entry(h.position.symbol, true, true)];
    var kept := Last(all, JOURNAL_CAP);
    var cut := |all| - |kept|;
    assert forall i :: 0 <= i < |kept| ==> kept[i] == all[i + cut];
    hide SeenSymbol, Last;
    forall i, j | 0 <= i < j < |all| && all[i].sells && all[i].pending
      ensures !OpenFor(all[j], all[i].symbol)
    {
      if j < |journal| { assert !OpenFor(journal[j], journal[i].symbol); }
    }
  }

  ghost predicate Orderly(es: seq<Event>) {
    forall i :: 0 <= i < |es| && es[i].Scanned? ==> DistinctHoldings(es[i].hs)
  }

  /** At most one pending sell per symbol after every event of the run. */
  ghost predicate OneOpenSellThroughout(es: seq<Event>) {
    es == [] || (OneOpenSellThroughout(es[..|es| - 1]) && OneOpenSell(ReactAll(es)))
  }

  ghost predicate PendingFor(journal: seq<Entry>, symbol: string) {
    exists i :: 0 <= i < |journal| && OpenFor(journal[i], symbol)
  }

  /** No fast scan of the run sells what has a pending sell in the journal. */
  ghost predicate NoFastRepeat(es: seq<Event>) {
    es == [] ||
    (var front, last := es[..|es| - 1], es[|es| - 1];
     NoFastRepeat(front) && (last.FastSold? ==> !PendingFor(Left(ReactAll(front)), last.symbol)))
  }

  /**
   * Over any run of deep scans of distinct symbols, orders that stop being pending, and sells of fast
   * scans: the stored journal never has two pending sells for one symbol exactly if no fast scan sells a
   * symbol while the journal has a pending sell for it. The deep scans alone never do.
   */
  lemma {:induction false} OnePendingSellIff(es: seq<Event>)
    requires Orderly(es)
    ensures OneOpenSellThroughout(es) <==> NoFastRepeat(es)
  {
    if es != [] {
      var front, last := es[..|es| - 1], es[|es| - 1];
      assert es[|es| - 1].Scanned? ==> DistinctHoldings(last.hs);
      assert Orderly(front);
      assert ReactAll(es) == React(ReactAll(front), last);
      hide ReactAll, React, OneOpenSell, PendingFor, Left, DistinctHoldings;
      OnePendingSellIff(front);
      if OneOpenSellThroughout(front) {
        IsOpenNow(front);
        ReactKeepsOneOpenIff(ReactAll(front), last);
      }
    }
  }

  lemma IsOpenNow(es: seq<Event>)
    requires OneOpenSellThroughout(es)
    ensures OneOpenSell(ReactAll(es))
  {
  }

  lemma ReactKeepsOneOpenIff(journal: seq<Entry>, e: Event)
    requires OneOpenSell(journal) && (e.Scanned? ==> DistinctHoldings(e.hs))
    ensures OneOpenSell(React(journal, e)) <==> (e.FastSold? ==> !PendingFor(Left(journal), e.symbol))
  {
    match e
    case Scanned(hs, plane, now) => ScanKeepsOneOpen(journal, hs, plane, now);
    case Closed(k) => if k < |journal| { ClosingKeepsOneOpen(journal, k); }
    case FastSold(symbol) =>
      assert React(journal, e) == Left(journal) + [Entry(symbol, true, true)];
      FastSellKeepsOneOpenIff(journal, symbol);
  }

  lemma FastSellKeepsOneOpenIff(journal: seq<Entry>, symbol: string)
    requires OneOpenSell(journal)
    ensures OneOpenSell(Left(journal) + [Entry(symbol, true, true)]) <==> !PendingFor(Left(journal), symbol)
  {
    var left := Left(journal);
    var all, cut := left + [Entry(symbol, true, true)], |journal| - |left|;
    assert forall i :: 0 <= i < |left| ==> left[i] == journal[i + cut] && all[i] == left[i];
    assert all[|left|] == Entry(symbol, true, true);
    hide Left, Last;
    if i :| 0 <= i < |left| && OpenFor(left[i], symbol) {
      assert all[i].sells && all[i].pending && OpenFor(all[|left|], all[i].symbol);
    } else {
      forall i, j | 0 <= i < j < |all| && all[i].sells && all[i].pending
        ensures !OpenFor(all[j], all[i].symbol)
      {
        if j < |left| {
          assert !OpenFor(journal[j + cut], journal[i + cut].symbol);
        } else {
          assert OpenFor(left[i], left[i].symbol);
        }
      }
    }
  }

  lemma ClosingKeepsOneOpen(journal: seq<Entry>, k: nat)
    requires OneOpenSell(journal) && k < |journal|
    ensures OneOpenSell(journal[k := journal[k].(pending := false)])
  {
    var after := journal[k := journal[k].(pending := false)];
    forall i, j | 0 <= i < j < |after| && after[i].sells && after[i].pending
      ensures !OpenFor(after[j], after[i].symbol)
    {
      assert !OpenFor(journal[j], journal[i].symbol);
    }
  }

  /** Once the pending sell of a symbol is closed, the next deep scan on the live plane sells it again. */
  lemma ClosedSellsAgain(journal: seq<Entry>, k: nat, h: Holding, now: int)
    requires OneOpenSell(journal) && k < |journal| && OpenFor(journal[k], h.position.symbol)
    requires Sellable(h.position, {}) && h.booking == Booked
    ensures h.position.symbol !in OpenSells(React(journal, Closed(k)))
    ensures var after := React(React(journal, Closed(k)), Scanned([h], LocalLive, now));
            after != [] && after[|after| - 1] == Entry(h.position.symbol, true, true)
  {
    var closed := React(journal, Closed(k));
    ClosedIsFree(journal, k);
    hide React, OneOpenSell, Planned, OpenSells;
    OpenSellsAre(closed, h.position.symbol);
    OneHolding(h, OpenSells(closed), now);
    DeepScanJournals([h], OpenSells(closed), now, closed, []);
    ScannedIs(closed, [h], now);
  }

  lemma ScannedIs(journal: seq<Entry>, hs: seq<Holding>, now: int)
    ensures React(journal, Scanned(hs, LocalLive, now)) ==
            DeepScanAll(NewDeepScan(journal, []), hs, LocalLive, OpenSells(journal), now).journal
  {
  }

  lemma ClosedIsFree(journal: seq<Entry>, k: nat)
    requires OneOpenSell(journal) && k < |journal| && OpenFor(journal[k], journal[k].symbol)
    ensures var closed := React(journal, Closed(k));
            forall i :: 0 <= i < |closed| ==> closed[i] != Entry(journal[k].symbol, true, true)
  {
    var closed := React(journal, Closed(k));
    forall i | 0 <= i < |closed|
      ensures closed[i] != Entry(journal[k].symbol, true, true)
    {
      if i < k && journal[i].sells && journal[i].pending { assert !OpenFor(journal[k], journal[i].symbol); }
      if k < i { assert !OpenFor(journal[i], journal[k].symbol); }
    }
  }

  lemma OneHolding(h: Holding, open: set<string>, now: int)
    requires Sellable(h.position, {}) && h.position.symbol !in open && h.booking == Booked
    ensures Journaled(ChosenOf([h], open)) == [Entry(h.position.symbol, true, true)]
  {
    ChosenOfOneMore([], h, open, now);
    assert [] + [h] == [h];
  }

  /**
   * On the gateway plane nothing is journaled, so a position that wants to be sold is queued by every
   * scan, however soon it follows; the fast scan's spacing has no counterpart here.
   */
  lemma GatewayScansRepeat(h: Holding, journal: seq<Entry>, queue: seq<Queued>, t0: int, t1: int)
    requires WantsQueue(h.position) && h.position.symbol !in OpenSells(journal)
    ensures var once := DeepScanAll(NewDeepScan(journal, queue), [h], Gateway, OpenSells(journal), t0);
            var twice := DeepScanAll(NewDeepScan(once.journal, once.queue), [h], Gateway, OpenSells(once.journal), t1);
            twice.queue == queue + [Queued(h.position.symbol, Planned(h.position), t0),
                                    Queued(h.position.symbol, Planned(h.position), t1)]
  {
    assert [h][..0] == [];
  }
}
