/**
 * The position scans that turn exit signals into SELL orders or gateway intents, and the fast scan's
 * memory of the sells it has already sent (src/ashare_system/scheduler.py). Times are in microseconds.
 */
module FastPositionWatch {
  import Text
  import opened Wrappers

  /** The `marked_at` text of a tracker entry: an instant, empty, or unreadable. */
  datatype Mark = At(t: int) | Missing | Garbled

  type Tracker = map<string, Mark>

  datatype Signal = NoSignal | Sell(ratio: real) | HighSell(quantity: int) | LowBuy

  /** How the broker call and the bookkeeping after it end. */
  datatype Placing = PlaceFails | FailsBeforeCount | FailsAfterCount(marked: bool) | PlaceOk

  /** Whether the fast scan got as far as marking the symbol. */
  predicate Marks(placing: Placing) {
    placing.PlaceOk? || (placing.FailsAfterCount? && placing.marked)
  }

  datatype Position = Position(symbol: string, available: int, signal: Signal, approved: bool, placing: Placing)

  datatype Plane = Gateway | GatewayWithoutStore | LocalLive | LocalDry

  datatype Queued = Queued(symbol: string, quantity: int, at: int)

  const TTL := 600_000_000

  // ------------------------------------------------------------- sell quantity

  /** Whole lots of `available * ratio`, at least one lot; everything when the ratio is practically one. */
  function NormalizeSellQuantity(available: int, ratio: real): (quantity: int) {
    if available <= 0 || ratio <= 0.0 then 0
    else if ratio >= 0.999 then available
    else
      var desired := Share(available, ratio);
      if available < 100 then 0 else Min(desired / 100 * 100, available / 100 * 100)
  }

  function Share(available: int, ratio: real): int {
    Max((available as real * ratio).Floor, 100)
  }

  function Max(a: int, b: int): int { if a < b then b else a }
  function Min(a: int, b: int): int { if a < b then a else b }

  /**
   * A planned quantity never exceeds what is available; it is everything, nothing, or the largest
   * number of whole lots within the wanted share, but at least one lot; and it is nothing exactly
   * when nothing is available or wanted, or a partial sale is wanted with less than one lot available.
   */
  lemma QuantityIsWholeLots(available: int, ratio: real)
    ensures var q := NormalizeSellQuantity(available, ratio);
            && 0 <= q <= Max(available, 0)
            && (q == available || q % 100 == 0)
            && (q == 0 <==> available <= 0 || ratio <= 0.0 || (ratio < 0.999 && available < 100))
            && (0.0 < ratio < 0.999 && available >= 100 ==>
                  q <= Share(available, ratio) < q + 100)
  {
    if 0.0 < ratio < 0.999 && available >= 100 {
      ShareFits(available, ratio);
      WholeLots(available, Share(available, ratio));
    }
  }

  lemma ShareFits(available: int, ratio: real)
    requires 0.0 < ratio < 1.0 && available >= 100
    ensures 100 <= Share(available, ratio) <= available
  {
    ShareBound(available as real, ratio);
  }

  /** A share that fits is cut to whole lots, and the second bound of the code never binds. */
  lemma WholeLots(available: int, share: int)
    requires 100 <= share <= available
    ensures var q := Min(share / 100 * 100, available / 100 * 100);
            q % 100 == 0 && 100 <= q <= share < q + 100
  {
    assert share / 100 <= available / 100;
    assert share / 100 >= 1;
  }

  lemma ShareBound(a: real, ratio: real)
    requires a >= 0.0 && 0.0 < ratio < 1.0
    ensures a * ratio <= a
  {
  }

  /** The share of the position a signal asks for. */
  function Ratio(p: Position): real {
    match p.signal
    case Sell(ratio) => ratio
    case HighSell(quantity) => if p.available > 0 then quantity as real / p.available as real else 0.0
    case _ => 0.0
  }

  function Planned(p: Position): int {
    NormalizeSellQuantity(p.available, Ratio(p))
  }

  /**
   * An explicit quantity is planned in whole lots, one lot at least: nothing if nothing is wanted or
   * available or less than a lot is available for a part, everything from 99.9% on.
   */
  lemma HighSellIs(p: Position, quantity: int)
    requires p.signal == HighSell(quantity)
    ensures p.available <= 0 || quantity <= 0 ==> Planned(p) == 0
    ensures p.available > 0 && quantity > 0 && quantity as real >= 0.999 * p.available as real ==>
              Planned(p) == p.available
    ensures 0 < quantity && quantity as real < 0.999 * p.available as real ==>
              Planned(p) == if p.available < 100 then 0 else if quantity < 100 then 100 else quantity / 100 * 100
  {
    if p.available > 0 {
      DivideTimes(quantity as real, p.available as real);
      QuantityOf(p.available, quantity, quantity as real / p.available as real);
    }
  }

  lemma QuantityOf(available: int, quantity: int, ratio: real)
    requires available > 0 && available as real * ratio == quantity as real
    requires ratio <= 0.0 <==> quantity <= 0
    requires ratio >= 0.999 <==> quantity as real >= 0.999 * available as real
    ensures NormalizeSellQuantity(available, ratio) ==
            if quantity <= 0 then 0
            else if quantity as real >= 0.999 * available as real then available
            else if available < 100 then 0
            else if quantity < 100 then 100 else quantity / 100 * 100
  {
    if available >= 100 && quantity > 0 && ratio < 0.999 {
      HighSellShare(available, quantity, ratio);
      hide Share;
      WholeLots(available, Max(quantity, 100));
    } else {
      hide Share;
    }
  }

  lemma HighSellShare(available: int, quantity: int, ratio: real)
    requires available >= 100 && 0 < quantity && quantity as real < 0.999 * available as real
    requires available as real * ratio == quantity as real
    ensures Share(available, ratio) == Max(quantity, 100) && 100 <= Max(quantity, 100) <= available
  {
  }

  lemma DivideTimes(q: real, a: real)
    requires a > 0.0
    ensures a * (q / a) == q
    ensures q > 0.0 ==> q / a > 0.0
    ensures q <= 0.0 ==> q / a <= 0.0
    ensures q >= 0.999 * a <==> q / a >= 0.999
  {
  }

  /** A share in percent of a position: at least one lot, in whole lots, of the part rounded down. */
  lemma SellIs(p: Position, ratio: real)
    requires p.signal == Sell(ratio)
    ensures p.available <= 0 || ratio <= 0.0 ==> Planned(p) == 0
    ensures p.available > 0 && ratio >= 0.999 ==> Planned(p) == p.available
    ensures 0 < p.available < 100 && ratio < 0.999 ==> Planned(p) == 0
    ensures p.available >= 100 && 0.0 < ratio < 0.999 ==>
              var part := (p.available as real * ratio).Floor;
              Planned(p) == if part < 100 then 100 else part / 100 * 100
  {
    if p.available >= 100 && 0.0 < ratio < 0.999 {
      var part := (p.available as real * ratio).Floor;
      ShareFits(p.available, ratio);
      assert Share(p.available, ratio) == Max(part, 100);
      assert Planned(p) == NormalizeSellQuantity(p.available, ratio);
      hide Share, Planned;
      WholeLots(p.available, Max(part, 100));
    } else {
      hide Share;
    }
  }

  // ------------------------------------------------------------------ one scan

  datatype Outcome =
    | Hold | PendingSell | BelowMinLot | Blocked | NoStore | Queue | Submit(placing: Placing) | DryRun

  function Decide(p: Position, plane: Plane, open: set<string>): Outcome {
    if p.signal.NoSignal? || p.signal.LowBuy? then Hold
    else if p.symbol in open then PendingSell
    else if Planned(p) <= 0 then BelowMinLot
    else if !p.approved then Blocked
    else match plane
      case Gateway => Queue
      case GatewayWithoutStore => NoStore
      case LocalLive => Submit(p.placing)
      case LocalDry => DryRun
  }

  datatype Scan = Scan(
    sells: nat, submitted: nat, queued: nat, preview: nat, errors: nat, tracker: Tracker, queue: seq<Queued>)

  function NewScan(tracker: Tracker, queue: seq<Queued>): Scan {
    Scan(0, 0, 0, 0, 0, tracker, queue)
  }

  function MarkSymbol(tracker: Tracker, symbol: string, now: int): Tracker {
    if Text.Strip(symbol) == "" then tracker else tracker[Text.Strip(symbol) := At(now)]
  }

  function ScanOne(s: Scan, p: Position, plane: Plane, open: set<string>, now: int): Scan {
    match Decide(p, plane, open)
    case Hold => s
    case Queue =>
      s.(sells := s.sells + 1, queued := s.queued + 1, tracker := MarkSymbol(s.tracker, p.symbol, now),
         queue := s.queue + [Queued(p.symbol, Planned(p), now)])
    case Submit(placing) =>
      var counted := placing.FailsAfterCount? || placing.PlaceOk?;
      s.(sells := s.sells + 1,
         submitted := s.submitted + (if counted then 1 else 0),
         errors := s.errors + (if placing.PlaceOk? then 0 else 1),
         tracker := if Marks(placing) then MarkSymbol(s.tracker, p.symbol, now) else s.tracker)
    case _ => s.(sells := s.sells + 1, preview := s.preview + 1)
  }

  function ScanAll(s: Scan, ps: seq<Position>, plane: Plane, open: set<string>, now: int): Scan {
    if ps == [] then s
    else ScanOne(ScanAll(s, ps[..|ps| - 1], plane, open, now), ps[|ps| - 1], plane, open, now)
  }

  // ----------------------------------------------------- what a scan may sell

  /** Approved, with a sell signal and something to sell, and without a pending sell. */
  predicate Sellable(p: Position, open: set<string>) {
    p.approved && (p.signal.Sell? || p.signal.HighSell?) && p.symbol !in open && Planned(p) > 0
  }

  /** The positions a scan sells, in order. */
  function Chosen(ps: seq<Position>, open: set<string>): seq<Position> {
    if ps == [] then [] else
      var last := ps[|ps| - 1];
      Chosen(ps[..|ps| - 1], open) + if Sellable(last, open) then [last] else []
  }

  function Requests(ps: seq<Position>, now: int): (requests: seq<Queued>)
    ensures |requests| == |ps|
    ensures forall i :: 0 <= i < |ps| ==> requests[i] == Queued(ps[i].symbol, Planned(ps[i]), now)
  {
    seq(|ps|, i requires 0 <= i < |ps| => Queued(ps[i].symbol, Planned(ps[i]), now))
  }

  /** How many of the positions have a sell signal. */
  function SellSignals(ps: seq<Position>): nat {
    if ps == [] then 0 else
      var last := ps[|ps| - 1];
      SellSignals(ps[..|ps| - 1]) + if last.signal.Sell? || last.signal.HighSell? then 1 else 0
  }

  /** How many of the orders are placed and counted, and how many of them fail nowhere. */
  function Placed(ps: seq<Position>): nat {
    if ps == [] then 0 else
      var last := ps[|ps| - 1];
      Placed(ps[..|ps| - 1]) + if last.placing == PlaceOk || last.placing.FailsAfterCount? then 1 else 0
  }

  function Faultless(ps: seq<Position>): nat {
    if ps == [] then 0 else Faultless(ps[..|ps| - 1]) + if ps[|ps| - 1].placing == PlaceOk then 1 else 0
  }

  lemma {:induction false} ChosenAre(ps: seq<Position>, open: set<string>)
    ensures forall p :: p in Chosen(ps, open) <==>
              && p in ps && p.approved && (p.signal.Sell? || p.signal.HighSell?)
              && p.symbol !in open && Planned(p) > 0
  {
    if ps != [] {
      ChosenAre(ps[..|ps| - 1], open);
      assert ps == ps[..|ps| - 1] + [ps[|ps| - 1]];
    }
  }

  /** One position: the sale if it is sellable, one preview if it only has a sell signal, and else nothing. */
  lemma ScanOneIs(s: Scan, p: Position, plane: Plane, open: set<string>, now: int)
    ensures var sells := p.signal.Sell? || p.signal.HighSell?;
            var sellable := p.approved && sells && p.symbol !in open && Planned(p) > 0;
            var s' := ScanOne(s, p, plane, open, now);
            && (!sells ==> s' == s)
            && (sells && !(sellable && (plane.Gateway? || plane.LocalLive?)) ==>
                  s' == s.(sells := s.sells + 1, preview := s.preview + 1))
            && (sellable && plane.Gateway? ==>
                  s' == s.(sells := s.sells + 1, queued := s.queued + 1,
                           queue := s.queue + [Queued(p.symbol, Planned(p), now)],
                           tracker := if Text.Strip(p.symbol) == "" then s.tracker
                                      else s.tracker[Text.Strip(p.symbol) := At(now)]))
            && (sellable && plane.LocalLive? ==>
                  && s'.sells == s.sells + 1 && s'.queued == s.queued && s'.preview == s.preview
                  && s'.queue == s.queue
                  && (p.placing == PlaceOk ==> s'.submitted == s.submitted + 1 && s'.errors == s.errors)
                  && (p.placing.FailsAfterCount? ==>
                        s'.submitted == s.submitted + 1 && s'.errors == s.errors + 1)
                  && (p.placing == PlaceFails || p.placing == FailsBeforeCount ==>
                        s'.submitted == s.submitted && s'.errors == s.errors + 1)
                  && s'.tracker == if (p.placing == PlaceOk || p.placing == FailsAfterCount(true))
                                        && Text.Strip(p.symbol) != ""
                                   then s.tracker[Text.Strip(p.symbol) := At(now)] else s.tracker)
  {
  }

  /** Why a sell signal is only previewed: a pending sell, too little to sell, no approval, no store, or a dry run. */
  lemma PreviewReasons(p: Position, plane: Plane, open: set<string>)
    ensures var sells := p.signal.Sell? || p.signal.HighSell?;
            var d := Decide(p, plane, open);
            && (d == Hold <==> !sells)
            && (d == PendingSell <==> sells && p.symbol in open)
            && (d == BelowMinLot <==> sells && p.symbol !in open && Planned(p) <= 0)
            && (d == Blocked <==> sells && p.symbol !in open && Planned(p) > 0 && !p.approved)
            && (d == NoStore <==> Sellable(p, open) && plane == GatewayWithoutStore)
            && (d == DryRun <==> Sellable(p, open) && plane == LocalDry)
            && (WantsQueue(p) <==> Sellable(p, {}))
  {
  }

  lemma ScanOneMore(front: seq<Position>, last: Position, plane: Plane, open: set<string>, now: int, s: Scan)
    ensures ScanAll(s, front + [last], plane, open, now)
         == ScanOne(ScanAll(s, front, plane, open, now), last, plane, open, now)
  {
    assert (front + [last])[..|front|] == front;
  }

  lemma ChosenOneMore(front: seq<Position>, last: Position, open: set<string>, now: int)
    ensures Chosen(front + [last], open) ==
            if Sellable(last, open) then Chosen(front, open) + [last] else Chosen(front, open)
    ensures Requests(Chosen(front, open) + [last], now) ==
            Requests(Chosen(front, open), now) + [Queued(last.symbol, Planned(last), now)]
  {
    assert (front + [last])[..|front|] == front;
  }

  lemma ChosenCounts(front: seq<Position>, last: Position, open: set<string>)
    ensures var (before, after) := (Chosen(front, open), Chosen(front + [last], open));
            var sellable := Sellable(last, open);
            && |after| == |before| + (if sellable then 1 else 0)
            && Placed(after) == Placed(before) +
                 (if sellable && (last.placing == PlaceOk || last.placing.FailsAfterCount?) then 1 else 0)
            && Faultless(after) == Faultless(before) + (if sellable && last.placing == PlaceOk then 1 else 0)
    ensures SellSignals(front + [last]) ==
            SellSignals(front) + if last.signal.Sell? || last.signal.HighSell? then 1 else 0
  {
    ChosenOneMore(front, last, open, 0);
    assert (front + [last])[..|front|] == front;
    assert (Chosen(front, open) + [last])[..|Chosen(front, open)|] == Chosen(front, open);
  }

  /**
   * On the gateway plane a fast scan queues exactly the sellable positions, in order, with their planned
   * quantities, and submits nothing itself.
   */
  lemma {:induction false} ScanQueues(
      ps: seq<Position>, open: set<string>, now: int, tracker: Tracker, queue: seq<Queued>)
    ensures var s := ScanAll(NewScan(tracker, queue), ps, Gateway, open, now);
            && s.queue == queue + Requests(Chosen(ps, open), now) && s.submitted == 0 && s.errors == 0
  {
    if ps != [] {
      var front, last := ps[..|ps| - 1], ps[|ps| - 1];
      assert ps == front + [last];
      ScanQueues(front, open, now, tracker, queue);
      ScanOneMore(front, last, Gateway, open, now, NewScan(tracker, queue));
      ChosenOneMore(front, last, open, now);
      assert Sellable(last, open) ==> last.signal.Sell? || last.signal.HighSell?;
      hide ScanOne, ScanAll, Chosen, Requests, Planned;
      ScanOneIs(ScanAll(NewScan(tracker, queue), front, Gateway, open, now), last, Gateway, open, now);
    }
  }

  /**
   * Every sell signal that is no sale is one preview; on the live plane the submissions are the sales whose
   * order was placed and counted, the errors those that failed anywhere, and nothing is queued.
   */
  lemma {:induction false} ScanCounts(
      ps: seq<Position>, plane: Plane, open: set<string>, now: int, tracker: Tracker, queue: seq<Queued>)
    requires plane.Gateway? || plane.LocalLive?
    ensures var s := ScanAll(NewScan(tracker, queue), ps, plane, open, now);
            var chosen := Chosen(ps, open);
            && s.sells == SellSignals(ps) && s.preview + |chosen| == s.sells
            && s.queued == (if plane.Gateway? then |chosen| else 0)
            && s.submitted == (if plane.Gateway? then 0 else Placed(chosen))
            && s.errors + (if plane.Gateway? then 0 else Faultless(chosen))
            == (if plane.Gateway? then 0 else |chosen|)
            && (plane.LocalLive? ==> s.queue == queue)
  {
    if ps != [] {
      var front, last := ps[..|ps| - 1], ps[|ps| - 1];
      assert ps == front + [last];
      ScanCounts(front, plane, open, now, tracker, queue);
      ScanOneMore(front, last, plane, open, now, NewScan(tracker, queue));
      ChosenCounts(front, last, open);
      hide ScanOne, ScanAll, Chosen, SellSignals, Placed, Faultless, Planned;
      ScanOneIs(ScanAll(NewScan(tracker, queue), front, plane, open, now), last, plane, open, now);
    }
  }

  /** Without a store, and in a dry run, every sell signal is one preview. */
  lemma {:induction false} OtherScansPreview(
      ps: seq<Position>, plane: Plane, open: set<string>, now: int, tracker: Tracker, queue: seq<Queued>)
    requires plane.GatewayWithoutStore? || plane.LocalDry?
    ensures var s := ScanAll(NewScan(tracker, queue), ps, plane, open, now);
            s == NewScan(tracker, queue).(sells := SellSignals(ps), preview := SellSignals(ps))
  {
    if ps != [] {
      var front, last := ps[..|ps| - 1], ps[|ps| - 1];
      OtherScansPreview(front, plane, open, now, tracker, queue);
      ScanOneIs(ScanAll(NewScan(tracker, queue), front, plane, open, now), last, plane, open, now);
    }
  }

  predicate CountedAndFailed(outcome: Outcome) {
    outcome.Submit? && outcome.placing.FailsAfterCount?
  }

  /** Orders placed whose bookkeeping failed only after they had been counted as submitted. */
  function LateFailures(ps: seq<Position>, plane: Plane, open: set<string>): nat {
    if ps == [] then 0 else
      LateFailures(ps[..|ps| - 1], plane, open) +
      if CountedAndFailed(Decide(ps[|ps| - 1], plane, open)) then 1 else 0
  }

  /**
   * Every sell signal is accounted for once, except that an order whose bookkeeping fails after it was
   * counted is also an error; so the counters add up exactly when there is no such failure.
   */
  lemma {:induction false} SellsAreAccounted(
      ps: seq<Position>, plane: Plane, open: set<string>, now: int, tracker: Tracker, queue: seq<Queued>)
    ensures var s := ScanAll(NewScan(tracker, queue), ps, plane, open, now);
            && s.submitted + s.queued + s.preview + s.errors == s.sells + LateFailures(ps, plane, open)
            && |s.queue| == |queue| + s.queued
  {
    if ps != [] {
      SellsAreAccounted(ps[..|ps| - 1], plane, open, now, tracker, queue);
    }
  }

  // --------------------------------------------------------- the pending tracker

  predicate Expired(mark: Mark, now: int) {
    mark.At? && Max(now - mark.t, 0) > TTL
  }

  /** Keys are written stripped and non-empty by every writer of the tracker. */
  ghost predicate Clean(tracker: Tracker) {
    forall k :: k in tracker ==> k != "" && Text.Strip(k) == k
  }

  function Load(tracker: Tracker, now: int): Tracker {
    map k | k in tracker && !Expired(tracker[k], now) :: if tracker[k].Missing? then At(now) else tracker[k]
  }

  /** What the fast scan keeps between runs, and the SELL intents it has put in the gateway queue. */
  class WatchStore {
    var tracker: Tracker
    var queue: seq<Queued>

    ghost predicate Valid()
      reads this
    {
      Clean(tracker)
    }

    constructor ()
      ensures Valid() && tracker == map[] && queue == []
    {
      tracker, queue := map[], [];
    }
  }

  /** What loading makes of one mark. */
  function Loaded(mark: Mark, now: int): Mark {
    if mark.Missing? then At(now) else mark
  }

  /** The stored key survives loading, under its stripped form. */
  predicate Survives(tracker: Tracker, key: string, now: int) {
    key in tracker && Text.Strip(key) != "" && !Expired(tracker[key], now)
  }

  /** `loaded` holds, under stripped keys, the surviving entries of `tracker` that `done` tells of, one for each key. */
  ghost predicate LoadedFrom(loaded: Tracker, tracker: Tracker, done: set<string>, now: int) {
    && (forall key :: key in done && Survives(tracker, key, now) ==> Text.Strip(key) in loaded)
    && (forall k :: k in loaded ==> exists key ::
          key in done && Survives(tracker, key, now) && Text.Strip(key) == k && loaded[k] == Loaded(tracker[key], now))
  }

  /**
   * Any stored tracker is loaded under stripped keys, without blank and expired entries; where several
   * keys agree when stripped, one of their marks stays. For clean keys that is `Load`.
   */
  method LoadFastPendingSellTracker(tracker: Tracker, now: int) returns (loaded: Tracker, open: set<string>)
    ensures LoadedFrom(loaded, tracker, tracker.Keys, now) && Clean(loaded) && open == loaded.Keys
    ensures Clean(tracker) ==> loaded == Load(tracker, now)
  {
    loaded, open := map[], {};
    var rest := tracker.Keys;
    while rest != {}
      invariant rest <= tracker.Keys
      invariant LoadedFrom(loaded, tracker, tracker.Keys - rest, now)
      invariant open == loaded.Keys
      decreases rest
    {
      var symbol :| symbol in rest;
      rest := rest - {symbol};
      var normalized := Text.Strip(symbol);
      var mark := tracker[symbol];
      ghost var before := loaded;
      if normalized != "" && !(mark.At? && Max(now - mark.t, 0) > TTL) {
        loaded := loaded[normalized := if mark.Missing? then At(now) else mark];
        open := open + {normalized};
      }
      LoadOneMore(before, loaded, tracker, tracker.Keys - rest - {symbol}, symbol, now);
      assert tracker.Keys - rest - {symbol} + {symbol} == tracker.Keys - rest;
    }
    LoadedIsClean(loaded, tracker, now);
  }

  lemma LoadOneMore(before: Tracker, after: Tracker, tracker: Tracker, done: set<string>, key: string, now: int)
    requires LoadedFrom(before, tracker, done, now) && key in tracker
    requires after == if Survives(tracker, key, now) then before[Text.Strip(key) := Loaded(tracker[key], now)]
                      else before
    ensures LoadedFrom(after, tracker, done + {key}, now)
  {
    forall k | k in after
      ensures exists from ::
                from in done + {key} && Survives(tracker, from, now) && Text.Strip(from) == k
                && after[k] == Loaded(tracker[from], now)
    {
      if Survives(tracker, key, now) && k == Text.Strip(key) {
        assert key in done + {key};
      } else {
        var from :| from in done && Survives(tracker, from, now) && Text.Strip(from) == k
                    && before[k] == Loaded(tracker[from], now);
        assert from in done + {key};
      }
    }
  }

  lemma LoadedIsClean(loaded: Tracker, tracker: Tracker, now: int)
    requires LoadedFrom(loaded, tracker, tracker.Keys, now)
    ensures Clean(loaded) && (Clean(tracker) ==> loaded == Load(tracker, now))
  {
    forall k | k in loaded
      ensures k != "" && Text.Strip(k) == k
    {
      var key :| key in tracker && Survives(tracker, key, now) && Text.Strip(key) == k;
      Text.StripShape(key);
      Text.StripShape(k);
    }
    if Clean(tracker) {
      forall k
        ensures k in loaded <==> k in Load(tracker, now)
        ensures k in loaded ==> loaded[k] == Load(tracker, now)[k]
      {
        if k in tracker { assert Text.Strip(k) == k && (Survives(tracker, k, now) <==> k in Load(tracker, now)); }
      }
    }
  }

  /** The positions of one fast scan, or why it stopped early. */
  datatype Fetch = Positions(ps: seq<Position>) | FetchFailed

  /** One round of the scan loop; the counters move before and after the broker call as in the source. */
  method ScanPosition(store: WatchStore, before: Scan, p: Position, plane: Plane, open: set<string>, now: int)
    returns (report: Scan)
    requires store.queue == before.queue && Clean(before.tracker)
    modifies store`queue
    ensures report == ScanOne(before, p, plane, open, now)
    ensures store.queue == report.queue && Clean(report.tracker)
  {
    report := before;
    var outcome := Decide(p, plane, open);
    if outcome.Hold? { return; }
    report := report.(sells := report.sells + 1);
    Text.StripShape(p.symbol);
    Text.StripShape(Text.Strip(p.symbol));
    if outcome.Queue? {
      store.queue := store.queue + [Queued(p.symbol, Planned(p), now)];
      report := report.(queued := report.queued + 1, queue := store.queue,
                        tracker := MarkSymbol(report.tracker, p.symbol, now));
    } else if outcome.Submit? {
      var placing := outcome.placing;
      if placing.FailsAfterCount? || placing.PlaceOk? { report := report.(submitted := report.submitted + 1); }
      if Marks(placing) { report := report.(tracker := MarkSymbol(report.tracker, p.symbol, now)); }
      if !placing.PlaceOk? { report := report.(errors := report.errors + 1); }
    } else {
      report := report.(preview := report.preview + 1);
    }
  }

  /**
   * A completed fast scan: an error or an empty account leaves the stored tracker alone; otherwise
   * the loaded tracker with the new marks is stored. `rebuilt` is the tracker refreshed from the
   * broker's open orders, which only the local planes use.
   */
  method RunFastPositionWatchScan(
      store: WatchStore, fetch: Fetch, plane: Plane, rebuilt: Option<Tracker>, now: int)
    returns (report: Scan)
    requires store.Valid()
    requires rebuilt.Some? ==> (plane.LocalLive? || plane.LocalDry?) && Clean(rebuilt.value)
    modifies store
    ensures store.Valid()
    ensures fetch.FetchFailed? || fetch.ps == [] ==>
              store.tracker == old(store.tracker) && store.queue == old(store.queue)
    ensures fetch.Positions? && fetch.ps != [] ==>
              var loaded := Load(old(store.tracker), now);
              var base := if rebuilt.Some? then rebuilt.value else loaded;
              var open := if rebuilt.Some? && rebuilt.value.Keys != {} then rebuilt.value.Keys else loaded.Keys;
              && report == ScanAll(NewScan(base, old(store.queue)), fetch.ps, plane, open, now)
              && store.tracker == report.tracker && store.queue == report.queue
  {
    hide Load, ScanOne, Clean, LoadedFrom;
    var tracker, open := LoadFastPendingSellTracker(store.tracker, now);
    if rebuilt.Some? {
      tracker := rebuilt.value;
      open := if tracker.Keys != {} then tracker.Keys else open;
    }
    ghost var base := tracker;
    if fetch.FetchFailed? {
      return Scan(0, 0, 0, 0, 1, store.tracker, store.queue);
    }
    var ps := fetch.ps;
    if ps == [] {
      return NewScan(store.tracker, store.queue);
    }
    report := NewScan(tracker, store.queue);
    for n := 0 to |ps|
      invariant report == ScanAll(NewScan(base, old(store.queue)), ps[..n], plane, open, now)
      invariant store.tracker == old(store.tracker) && store.queue == report.queue
      invariant Clean(report.tracker)
    {
      assert ps[..n + 1][..n] == ps[..n];
      report := ScanPosition(store, report, ps[n], plane, open, now);
    }
    assert ps[..|ps|] == ps;
    store.tracker := report.tracker;
  }

  // ------------------------------------------------------- runs on the gateway

  /** One fast scan on the gateway plane; an aborted one raises right after queueing its last position. */
  datatype Event = Completed(ps: seq<Position>, at: int) | Stopped(at: int) | Aborted(ps: seq<Position>, at: int)

  datatype Watch = Watch(tracker: Tracker, queue: seq<Queued>)

  function OnGateway(w: Watch, ps: seq<Position>, now: int): Scan {
    var loaded := Load(w.tracker, now);
    ScanAll(NewScan(loaded, w.queue), ps, Gateway, loaded.Keys, now)
  }

  function React(w: Watch, e: Event): Watch {
    match e
    case Completed(ps, now) =>
      if ps == [] then w else
      var s := OnGateway(w, ps, now);
      Watch(s.tracker, s.queue)
    case Stopped(_) => w
    case Aborted(ps, now) => Watch(w.tracker, OnGateway(w, ps, now).queue)
  }

  function ReactAll(w: Watch, es: seq<Event>): Watch {
    if es == [] then w else React(ReactAll(w, es[..|es| - 1]), es[|es| - 1])
  }

  /** A symbol that the tracker stores under the very text the scan looks up. */
  predicate Tracked(symbol: string) {
    symbol != "" && Text.Strip(symbol) == symbol
  }

  ghost predicate Proper(ps: seq<Position>) {
    && (forall i :: 0 <= i < |ps| ==> Tracked(ps[i].symbol))
    && (forall i, j :: 0 <= i < j < |ps| ==> ps[i].symbol != ps[j].symbol)
  }

  /** Completed or stopped scans of proper positions on a clock that never runs backwards. */
  ghost predicate Orderly(es: seq<Event>) {
    && (forall i, j :: 0 <= i < j < |es| ==> es[i].at <= es[j].at)
    && (forall i :: 0 <= i < |es| ==> !es[i].Aborted? && (es[i].Completed? ==> Proper(es[i].ps)))
  }

  ghost predicate Spaced(queue: seq<Queued>) {
    forall i, j :: 0 <= i < j < |queue| && queue[i].symbol == queue[j].symbol ==>
      queue[j].at - queue[i].at > 600_000_000
  }

  /** Every queued sell is remembered by an equally young mark, or is older than the TTL at `clock`. */
  ghost predicate Remembered(w: Watch, clock: int) {
    forall q :: q in w.queue ==>
      q.at <= clock &&
      (clock - q.at > TTL ||
       (q.symbol in w.tracker && w.tracker[q.symbol].At? && q.at <= w.tracker[q.symbol].t <= clock))
  }

  lemma LoadRemembers(w: Watch, clock: int, now: int)
    requires Remembered(w, clock) && clock <= now
    ensures Remembered(Watch(Load(w.tracker, now), w.queue), now)
  {
  }

  predicate Scanned(ps: seq<Position>, symbol: string) {
    exists i :: 0 <= i < |ps| && ps[i].symbol == symbol
  }

  /** Queueing a symbol whose earlier sells are all older than the TTL. */
  lemma QueueOneMore(s: Scan, q: Queued, tracker: Tracker)
    requires Spaced(s.queue) && Remembered(Watch(s.tracker, s.queue), q.at)
    requires forall i :: 0 <= i < |s.queue| && s.queue[i].symbol == q.symbol ==> q.at - s.queue[i].at > TTL
    requires tracker == s.tracker[q.symbol := At(q.at)]
    ensures Spaced(s.queue + [q]) && Remembered(Watch(tracker, s.queue + [q]), q.at)
  {
  }

  /** In the course of a scan that began in `w`: spacing and memory hold, and only scanned symbols were queued. */
  ghost predicate ScanOk(w: Watch, s: Scan, ps: seq<Position>, now: int) {
    && Spaced(s.queue) && Remembered(Watch(s.tracker, s.queue), now)
    && w.queue <= s.queue
    && (forall k :: |w.queue| <= k < |s.queue| ==> Scanned(ps, s.queue[k].symbol))
  }

  /** On the gateway a scanned position changes nothing, or queues and marks its symbol if that was not open. */
  lemma ScanOneCases(s: Scan, p: Position, open: set<string>, now: int)
    requires Tracked(p.symbol)
    ensures var s' := ScanOne(s, p, Gateway, open, now);
            || (s'.queue == s.queue && s'.tracker == s.tracker)
            || (p.symbol !in open && s'.queue == s.queue + [Queued(p.symbol, Planned(p), now)]
                && s'.tracker == s.tracker[p.symbol := At(now)])
  {
  }

  lemma ScanOneKeepsSpacing(w: Watch, s: Scan, s': Scan, front: seq<Position>, p: Position, quantity: int, now: int)
    requires Remembered(w, now) && ScanOk(w, s, front, now)
    requires Tracked(p.symbol) && !Scanned(front, p.symbol)
    requires || (s'.queue == s.queue && s'.tracker == s.tracker)
             || (p.symbol !in w.tracker && s'.queue == s.queue + [Queued(p.symbol, quantity, now)]
                 && s'.tracker == s.tracker[p.symbol := At(now)])
    ensures ScanOk(w, s', front + [p], now)
  {
    var ps := front + [p];
    assert ps[|front|] == p;
    forall symbol | Scanned(front, symbol)
      ensures Scanned(ps, symbol)
    {
      var i :| 0 <= i < |front| && front[i].symbol == symbol;
      assert ps[i] == front[i];
    }
    if s'.queue != s.queue {
      OldSellsAreOld(w, s.queue, front, p.symbol, now);
      QueueOneMore(s, Queued(p.symbol, quantity, now), s'.tracker);
    }
  }

  lemma {:induction false} ScanKeepsSpacing(w: Watch, ps: seq<Position>, now: int)
    requires Proper(ps) && Spaced(w.queue) && Remembered(w, now)
    ensures ScanOk(w, ScanAll(NewScan(w.tracker, w.queue), ps, Gateway, w.tracker.Keys, now), ps, now)
  {
    if ps != [] {
      var front := ps[..|ps| - 1];
      var p := ps[|ps| - 1];
      assert forall i :: 0 <= i < |front| ==> front[i] == ps[i];
      ScanKeepsSpacing(w, front, now);
      var s := ScanAll(NewScan(w.tracker, w.queue), front, Gateway, w.tracker.Keys, now);
      ScanOneCases(s, p, w.tracker.Keys, now);
      ScanOneKeepsSpacing(w, s, ScanOne(s, p, Gateway, w.tracker.Keys, now), front, p, Planned(p), now);
      assert front + [p] == ps;
    }
  }

  /** The sells of a symbol that is neither open nor scanned yet were all queued more than a TTL ago. */
  lemma OldSellsAreOld(w: Watch, queue: seq<Queued>, front: seq<Position>, symbol: string, now: int)
    requires Remembered(w, now) && symbol !in w.tracker && !Scanned(front, symbol) && w.queue <= queue
    requires forall k :: |w.queue| <= k < |queue| ==> Scanned(front, queue[k].symbol)
    ensures forall i :: 0 <= i < |queue| && queue[i].symbol == symbol ==> now - queue[i].at > TTL
  {
    forall i | 0 <= i < |queue| && queue[i].symbol == symbol
      ensures now - queue[i].at > TTL
    {
      if i < |w.queue| { assert queue[i] == w.queue[i] && w.queue[i] in w.queue; }
    }
  }

  lemma {:induction false} RunsRemember(es: seq<Event>, clock: int)
    requires Orderly(es) && forall i :: 0 <= i < |es| ==> es[i].at <= clock
    ensures var w := ReactAll(Watch(map[], []), es); Spaced(w.queue) && Remembered(w, clock)
  {
    if es != [] {
      var front := es[..|es| - 1];
      var e := es[|es| - 1];
      assert forall i :: 0 <= i < |front| ==> front[i] == es[i];
      RunsRemember(front, e.at);
      var w := ReactAll(Watch(map[], []), front);
      LoadRemembers(w, e.at, e.at);
      if e.Completed? && e.ps != [] {
        ScanKeepsSpacing(Watch(Load(w.tracker, e.at), w.queue), e.ps, e.at);
      }
      assert Remembered(React(w, e), e.at);
      assert Remembered(React(w, e), clock);
    }
  }

  /**
   * On the gateway plane, over any run of completed scans with scans of an empty account and failed
   * scans in between, two SELL intents queued for one symbol are more than ten minutes apart.
   */
  lemma SellsAreSpaced(es: seq<Event>)
    requires Orderly(es)
    ensures Spaced(ReactAll(Watch(map[], []), es).queue)
  {
    if es == [] {
      RunsRemember(es, 0);
    } else {
      RunsRemember(es, es[|es| - 1].at);
    }
  }

  lemma ScanSingle(s: Scan, p: Position, open: set<string>, now: int)
    ensures ScanAll(s, [p], Gateway, open, now) == ScanOne(s, p, Gateway, open, now)
  {
    assert [p][..0] == [];
  }

  /** A position whose signal would be queued if its symbol were not open. */
  predicate WantsQueue(p: Position) {
    Decide(p, Gateway, {}).Queue?
  }

  /**
   * Exactly when one symbol scanned twice is queued twice: after the ten minutes, or at any time if
   * the symbol is blank or carries outer white space, because it is stored stripped and looked up raw.
   */
  lemma QueuedAgainIff(p: Position, t0: int, t1: int)
    requires WantsQueue(p) && t0 <= t1
    ensures |ReactAll(Watch(map[], []), [Completed([p], t0), Completed([p], t1)]).queue| == 2 <==>
            t1 - t0 > 600_000_000 || !Tracked(p.symbol)
  {
    var es := [Completed([p], t0), Completed([p], t1)];
    assert es[..1] == [Completed([p], t0)] && es[..1][..0] == [];
    var w0 := Watch(map[], []);
    assert Load(w0.tracker, t0) == map[] && Load(w0.tracker, t0).Keys == {};
    ScanSingle(NewScan(map[], []), p, {}, t0);
    var s0 := OnGateway(w0, [p], t0);
    assert s0.queue == [Queued(p.symbol, Planned(p), t0)];
    assert s0.tracker == MarkSymbol(map[], p.symbol, t0);
    var w1 := React(w0, es[0]);
    assert ReactAll(w0, es[..1]) == w1;
    var key := Text.Strip(p.symbol);
    var loaded := Load(w1.tracker, t1);
    ScanSingle(NewScan(loaded, w1.queue), p, loaded.Keys, t1);
    assert p.symbol in loaded <==> key != "" && key == p.symbol && t1 - t0 <= TTL;
    assert Decide(p, Gateway, loaded.Keys).Queue? <==> p.symbol !in loaded;
  }

  /** A scan that raises after queueing forgets its mark, so the next scan queues the symbol again at once. */
  lemma AbortedScanForgets(p: Position, t0: int, t1: int)
    requires WantsQueue(p)
    ensures |ReactAll(Watch(map[], []), [Aborted([p], t0), Completed([p], t1)]).queue| == 2
  {
    var es := [Aborted([p], t0), Completed([p], t1)];
    assert es[..1] == [Aborted([p], t0)] && es[..1][..0] == [];
    var w0 := Watch(map[], []);
    var q := Queued(p.symbol, Planned(p), t0);
    assert Load(w0.tracker, t0) == map[] && Load(w0.tracker, t1) == map[];
    assert Load(w0.tracker, t0).Keys == {} && Load(w0.tracker, t1).Keys == {};
    ScanSingle(NewScan(map[], []), p, {}, t0);
    var w1 := React(w0, es[0]);
    assert w1 == Watch(map[], [q]);
    ScanSingle(NewScan(map[], [q]), p, {}, t1);
    assert ReactAll(w0, es[..1]) == w1;
    assert OnGateway(w1, [p], t1).queue == [q, Queued(p.symbol, Planned(p), t1)];
  }
}
