/**
 * Repair of the local order journal from broker snapshots: the start-up recovery
 * (src/ashare_system/startup_recovery.py) and the reconciliation
 * (src/ashare_system/execution_reconciliation.py). Money is in 1/10000 yuan.
 */
module Reconciliation {
  import opened BoundedLog
  import opened Wrappers

  datatype Order = Order(id: string, symbol: string, status: string)
  datatype Trade = Trade(id: string, orderId: string, quantity: int, price: int)

  /** The contents of one journal record; an absent order id is the empty string. */
  datatype OrderRow = OrderRow(
    orderId: string, symbol: string, latestStatus: Option<string>,
    lastCheckedAt: Option<int>, resolvedAt: Option<int>, lastReconciledAt: Option<int>, lastTradeAt: Option<int>,
    filledQuantity: Option<int>, filledValue: int, averagePrice: Option<real>, tradeCount: nat)

  datatype TradeRow = TradeRow(id: string, orderId: string, quantity: int, price: int, at: int, knownOrder: bool)

  const ORDER_CAP := 200
  const TRADE_CAP := 500

  /** A journal record: a dictionary that is shared by the journal and the index and changed in place. */
  class OrderRecord {
    var row: OrderRow

    constructor (row: OrderRow)
      ensures this.row == row
    {
      this.row := row;
    }
  }

  class JournalStore {
    var orders: seq<OrderRecord>
    var trades: seq<TradeRow>

    constructor ()
      ensures orders == [] && trades == []
    {
      orders, trades := [], [];
    }
  }

  ghost predicate DistinctObjects(records: seq<OrderRecord>) {
    forall i, j :: 0 <= i < j < |records| ==> records[i] != records[j]
  }

  ghost function Rows(records: seq<OrderRecord>): (rows: seq<OrderRow>)
    reads records
    ensures |rows| == |records| && forall i :: 0 <= i < |rows| ==> rows[i] == records[i].row
  {
    seq(|records|, i requires 0 <= i < |records| reads records => records[i].row)
  }

  // ---------------------------------------------------------------- recovery

  predicate Final(status: string) {
    status == "FILLED" || status == "CANCELLED" || status == "REJECTED"
  }

  function NewRow(o: Order): OrderRow {
    OrderRow(o.id, o.symbol, None, None, None, None, None, None, 0, None, 0)
  }

  function Checked(row: OrderRow, o: Order, now: int): OrderRow {
    row.(latestStatus := Some(o.status), lastCheckedAt := Some(now),
         resolvedAt := if Final(o.status) then Some(now) else row.resolvedAt)
  }

  /** The journal, its index by order id, and the counters in the course of a recovery. */
  datatype Recovery = Recovery(
    rows: seq<OrderRow>, index: map<string, nat>, orphans: nat, updated: nat, pending: nat, resolved: nat)

  ghost predicate IndexOk(rec: Recovery) {
    && (forall id :: id in rec.index ==> rec.index[id] < |rec.rows| && rec.rows[rec.index[id]].orderId == id)
    && (forall i :: 0 <= i < |rec.rows| && rec.rows[i].orderId != "" ==> rec.rows[i].orderId in rec.index)
  }

  /** Position of the last record of each non-empty order id. */
  function IndexOf(rows: seq<OrderRow>): (index: map<string, nat>)
    ensures forall id :: id in index ==> id != "" && index[id] < |rows| && rows[index[id]].orderId == id
    ensures forall i :: 0 <= i < |rows| && rows[i].orderId != "" ==> rows[i].orderId in index
  {
    if rows == [] then map[] else
      var index := IndexOf(rows[..|rows| - 1]);
      var id := rows[|rows| - 1].orderId;
      if id == "" then index else index[id := |rows| - 1]
  }

  function RecoverOne(rec: Recovery, o: Order, now: int): Recovery
    requires o.id in rec.index ==> rec.index[o.id] < |rec.rows|
  {
    var isNew := o.id !in rec.index;
    var k := if isNew then |rec.rows| else rec.index[o.id];
    var row := if isNew then NewRow(o) else rec.rows[k];
    var row' := Checked(row, o, now);
    Recovery(
      if isNew then rec.rows + [row'] else rec.rows[k := row'],
      rec.index[o.id := k],
      rec.orphans + (if isNew then 1 else 0),
      rec.updated + (if row.latestStatus != Some(o.status) then 1 else 0),
      rec.pending + (if Final(o.status) then 0 else 1),
      rec.resolved + (if Final(o.status) then 1 else 0))
  }

  function Recover(rows: seq<OrderRow>, orders: seq<Order>, now: int): (rec: Recovery)
    ensures IndexOk(rec)
  {
    if orders == [] then Recovery(rows, IndexOf(rows), 0, 0, 0, 0)
    else RecoverOne(Recover(rows, orders[..|orders| - 1], now), orders[|orders| - 1], now)
  }

  ghost predicate UniqueRows(rows: seq<OrderRow>) {
    forall i, j :: 0 <= i < j < |rows| && rows[i].orderId != "" ==> rows[i].orderId != rows[j].orderId
  }

  ghost predicate UniqueOrders(orders: seq<Order>) {
    && (forall i :: 0 <= i < |orders| ==> orders[i].id != "")
    && (forall i, j :: 0 <= i < j < |orders| ==> orders[i].id != orders[j].id)
  }

  predicate HasRow(rows: seq<OrderRow>, id: string) {
    exists i :: 0 <= i < |rows| && rows[i].orderId == id
  }

  function RowOf(rows: seq<OrderRow>, id: string): (k: nat)
    requires HasRow(rows, id)
    ensures k < |rows| && rows[k].orderId == id
  {
    if rows[0].orderId == id then 0 else
      assert HasRow(rows[1..], id) by {
        var i :| 0 <= i < |rows| && rows[i].orderId == id;
        assert rows[1..][i - 1].orderId == id;
      }
      1 + RowOf(rows[1..], id)
  }

  /** Some record carries the order's id and its status at the broker. */
  ghost predicate Shows(rows: seq<OrderRow>, o: Order) {
    exists i :: 0 <= i < |rows| && rows[i].orderId == o.id && rows[i].latestStatus == Some(o.status)
  }

  lemma RecoverOneCounts(rec: Recovery, o: Order, now: int)
    requires o.id in rec.index ==> rec.index[o.id] < |rec.rows|
    ensures var next := RecoverOne(rec, o, now);
            var previous := if o.id in rec.index then rec.rows[rec.index[o.id]].latestStatus else None;
            && next.orphans == rec.orphans + (if o.id in rec.index then 0 else 1)
            && next.updated == rec.updated + (if previous != Some(o.status) then 1 else 0)
            && next.pending == rec.pending + (if Final(o.status) then 0 else 1)
            && next.resolved == rec.resolved + (if Final(o.status) then 1 else 0)
  {
  }

  /** One order changes or appends exactly the record of its own id. */
  lemma RecoverOneShows(rec: Recovery, o: Order, now: int)
    requires IndexOk(rec) && UniqueRows(rec.rows) && o.id != ""
    ensures var rec' := RecoverOne(rec, o, now);
            && IndexOk(rec') && UniqueRows(rec'.rows) && Shows(rec'.rows, o)
            && |rec'.rows| == |rec.rows| + (rec'.orphans - rec.orphans)
            && (forall i :: 0 <= i < |rec.rows| ==> rec'.rows[i].orderId == rec.rows[i].orderId)
            && (forall i :: 0 <= i < |rec'.rows| && rec'.rows[i].orderId != o.id ==>
                  i < |rec.rows| && rec'.rows[i] == rec.rows[i])
  {
    var rec' := RecoverOne(rec, o, now);
    var k := rec'.index[o.id];
    assert rec'.rows[k].orderId == o.id && rec'.rows[k].latestStatus == Some(o.status);
  }

  lemma StillShows(rows: seq<OrderRow>, rows': seq<OrderRow>, o: Order)
    requires Shows(rows, o) && |rows| <= |rows'|
    requires forall i :: 0 <= i < |rows| && rows[i].orderId == o.id ==> rows'[i] == rows[i]
    ensures Shows(rows', o)
  {
    var i :| 0 <= i < |rows| && rows[i].orderId == o.id && rows[i].latestStatus == Some(o.status);
    assert rows'[i] == rows[i];
  }

  /** Every order of the snapshot is shown by some record. */
  ghost predicate AllShown(rows: seq<OrderRow>, orders: seq<Order>) {
    forall k :: 0 <= k < |orders| ==> Shows(rows, orders[k])
  }

  /** Only records of orders in the snapshot differ from before, and nothing else was appended. */
  ghost predicate OthersUntouched(rows: seq<OrderRow>, rows': seq<OrderRow>, orders: seq<Order>) {
    forall i :: 0 <= i < |rows'| ==> (i < |rows| && rows'[i] == rows[i]) || Ordered(orders, rows'[i].orderId)
  }

  /** Records keep their place. */
  ghost predicate InPlace(rows: seq<OrderRow>, rows': seq<OrderRow>) {
    |rows| <= |rows'| && forall i :: 0 <= i < |rows| ==> rows'[i].orderId == rows[i].orderId
  }

  lemma OneMoreShown(rows: seq<OrderRow>, rows': seq<OrderRow>, orders: seq<Order>)
    requires orders != [] && UniqueOrders(orders) && AllShown(rows, orders[..|orders| - 1])
    requires InPlace(rows, rows') && Shows(rows', orders[|orders| - 1])
    requires forall i :: 0 <= i < |rows'| && rows'[i].orderId != orders[|orders| - 1].id ==>
               i < |rows| && rows'[i] == rows[i]
    ensures AllShown(rows', orders)
  {
    var front := orders[..|orders| - 1];
    forall k | 0 <= k < |orders|
      ensures Shows(rows', orders[k])
    {
      if k < |front| {
        assert front[k] == orders[k] && Shows(rows, orders[k]);
        StillShows(rows, rows', orders[k]);
      }
    }
  }

  lemma OneMoreTouched(rows: seq<OrderRow>, before: seq<OrderRow>, after: seq<OrderRow>, orders: seq<Order>)
    requires orders != [] && OthersUntouched(rows, before, orders[..|orders| - 1])
    requires forall i :: 0 <= i < |after| && after[i].orderId != orders[|orders| - 1].id ==>
               i < |before| && after[i] == before[i]
    ensures OthersUntouched(rows, after, orders)
  {
    forall i | 0 <= i < |after|
      ensures (i < |rows| && after[i] == rows[i]) || Ordered(orders, after[i].orderId)
    {
      OrderedSplits(orders, after[i].orderId);
    }
  }

  /**
   * Recovery keeps every record in place, appends one record for each broker order the journal did
   * not know, and leaves exactly one record per broker order, carrying the broker's status; the
   * records of other orders are untouched.
   */
  lemma {:induction false} RecoverMatchesBroker(rows: seq<OrderRow>, orders: seq<Order>, now: int)
    requires UniqueRows(rows) && UniqueOrders(orders)
    ensures var rec := Recover(rows, orders, now);
            && UniqueRows(rec.rows)
            && |rec.rows| == |rows| + rec.orphans && rec.pending + rec.resolved == |orders|
            && InPlace(rows, rec.rows) && AllShown(rec.rows, orders) && OthersUntouched(rows, rec.rows, orders)
  {
    if orders != [] {
      var front := orders[..|orders| - 1];
      var o := orders[|orders| - 1];
      assert UniqueOrders(front);
      RecoverMatchesBroker(rows, front, now);
      var before, rec := Recover(rows, front, now), Recover(rows, orders, now);
      RecoverOneShows(before, o, now);
      RecoverOneCounts(before, o, now);
      OneMoreShown(before.rows, rec.rows, orders);
      OneMoreTouched(rows, before.rows, rec.rows, orders);
      hide RecoverOne, UniqueRows, UniqueOrders, IndexOk, AllShown, OthersUntouched;
    }
  }

  lemma OrderedSplits(orders: seq<Order>, id: string)
    requires orders != []
    ensures Ordered(orders, id) <==> Ordered(orders[..|orders| - 1], id) || orders[|orders| - 1].id == id
  {
    var front := orders[..|orders| - 1];
    assert orders[|orders| - 1].id == id ==> Ordered(orders, id);
    if k :| 0 <= k < |front| && front[k].id == id {
      assert orders[k].id == id;
    }
    if k :| 0 <= k < |orders| && orders[k].id == id {
      assert k < |front| ==> front[k].id == id;
    }
  }

  predicate Ordered(orders: seq<Order>, id: string) {
    exists k :: 0 <= k < |orders| && orders[k].id == id
  }

  // ----------------------------------------------------------- reconciliation

  /** The last order of the snapshot with this id. */
  function OrderFor(orders: seq<Order>, id: string): Option<Order> {
    if orders == [] then None
    else if orders[|orders| - 1].id == id then Some(orders[|orders| - 1])
    else OrderFor(orders[..|orders| - 1], id)
  }

  function TradesFor(trades: seq<Trade>, id: string): seq<Trade> {
    if trades == [] then [] else
      TradesFor(trades[..|trades| - 1], id) +
      if trades[|trades| - 1].orderId == id then [trades[|trades| - 1]] else []
  }

  function Quantity(trades: seq<Trade>): int {
    if trades == [] then 0 else Quantity(trades[..|trades| - 1]) + trades[|trades| - 1].quantity
  }

  function Value(trades: seq<Trade>): int {
    if trades == [] then 0 else
      Value(trades[..|trades| - 1]) + trades[|trades| - 1].quantity * trades[|trades| - 1].price
  }

  /** The average price of the trades, without the rounding. */
  function AveragePrice(trades: seq<Trade>): Option<real> {
    if Quantity(trades) > 0 then Some(Value(trades) as real / Quantity(trades) as real) else None
  }

  function StatusAfter(row: OrderRow, orders: seq<Order>): Option<string> {
    var order := OrderFor(orders, row.orderId);
    if order.Some? then Some(order.value.status) else row.latestStatus
  }

  /** Records without an order id are skipped. */
  function ReconcileRow(row: OrderRow, orders: seq<Order>, trades: seq<Trade>, now: int): OrderRow {
    if row.orderId == "" then row else
    var mine := TradesFor(trades, row.orderId);
    row.(latestStatus := StatusAfter(row, orders), lastReconciledAt := Some(now),
         filledQuantity := Some(Quantity(mine)), filledValue := Value(mine), averagePrice := AveragePrice(mine),
         tradeCount := |mine|,
         lastTradeAt := if mine != [] then Some(now) else row.lastTradeAt)
  }

  function ReconcileRows(rows: seq<OrderRow>, orders: seq<Order>, trades: seq<Trade>, now: int): (r: seq<OrderRow>)
    ensures |r| == |rows|
    ensures forall i :: 0 <= i < |r| ==> r[i] == ReconcileRow(rows[i], orders, trades, now)
  {
    seq(|rows|, i requires 0 <= i < |rows| => ReconcileRow(rows[i], orders, trades, now))
  }

  predicate Stale(row: OrderRow, orders: seq<Order>, trades: seq<Trade>) {
    row.orderId != "" &&
    (row.latestStatus != StatusAfter(row, orders)
     || row.filledQuantity != Some(Quantity(TradesFor(trades, row.orderId))))
  }

  /** The broker lists the order of the row. */
  predicate Matches(row: OrderRow, orders: seq<Order>) {
    row.orderId != "" && OrderFor(orders, row.orderId).Some?
  }

  function MatchedCount(rows: seq<OrderRow>, orders: seq<Order>): nat {
    if rows == [] then 0 else
      MatchedCount(rows[..|rows| - 1], orders) + if Matches(rows[|rows| - 1], orders) then 1 else 0
  }

  function StaleCount(rows: seq<OrderRow>, orders: seq<Order>, trades: seq<Trade>): nat {
    if rows == [] then 0 else
      StaleCount(rows[..|rows| - 1], orders, trades) + if Stale(rows[|rows| - 1], orders, trades) then 1 else 0
  }

  /** Sum of the filled quantities of the records that have an order id. */
  function FilledTotal(rows: seq<OrderRow>): int {
    if rows == [] then 0 else
      var row := rows[|rows| - 1];
      FilledTotal(rows[..|rows| - 1]) +
      if row.orderId != "" && row.filledQuantity.Some? then row.filledQuantity.value else 0
  }

  // Trades -----------------------------------------------------------------

  predicate KnownTrade(journal: seq<TradeRow>, id: string) {
    exists i :: 0 <= i < |journal| && journal[i].id == id
  }

  function TradeRowOf(t: Trade, orders: seq<Order>, now: int): TradeRow {
    TradeRow(t.id, t.orderId, t.quantity, t.price, now, OrderFor(orders, t.orderId).Some?)
  }

  /** Appends the trades whose id is not in the journal yet. */
  function AddTrades(journal: seq<TradeRow>, trades: seq<Trade>, orders: seq<Order>, now: int): seq<TradeRow> {
    if trades == [] then journal else
      var j := AddTrades(journal, trades[..|trades| - 1], orders, now);
      var t := trades[|trades| - 1];
      if KnownTrade(j, t.id) then j else j + [TradeRowOf(t, orders, now)]
  }

  function OrphanCount(
      journal: seq<TradeRow>, trades: seq<Trade>, orders: seq<Order>, rows: seq<OrderRow>, now: int): nat
  {
    if trades == [] then 0 else
      var j := AddTrades(journal, trades[..|trades| - 1], orders, now);
      var t := trades[|trades| - 1];
      OrphanCount(journal, trades[..|trades| - 1], orders, rows, now) +
      if !KnownTrade(j, t.id) && !HasRow(rows, t.orderId) then 1 else 0
  }

  // ------------------------------------------------------------ conservation

  /** Quantity of the trades whose order has a journal record. */
  function Attributed(rows: seq<OrderRow>, trades: seq<Trade>): int {
    if trades == [] then 0 else
      var t := trades[|trades| - 1];
      Attributed(rows, trades[..|trades| - 1]) +
      if t.orderId != "" && HasRow(rows, t.orderId) then t.quantity else 0
  }

  /** Sum of the quantities the reconciliation attributes to the records of `rows`. */
  function Attribution(rows: seq<OrderRow>, trades: seq<Trade>): int {
    if rows == [] then 0 else
      var id := rows[|rows| - 1].orderId;
      Attribution(rows[..|rows| - 1], trades) + if id == "" then 0 else Quantity(TradesFor(trades, id))
  }

  lemma {:induction false} QuantityOfLast(trades: seq<Trade>, id: string)
    requires trades != []
    ensures Quantity(TradesFor(trades, id)) ==
            Quantity(TradesFor(trades[..|trades| - 1], id)) +
            if trades[|trades| - 1].orderId == id then trades[|trades| - 1].quantity else 0
  {
    var front := TradesFor(trades[..|trades| - 1], id);
    var t := trades[|trades| - 1];
    assert (front + [t])[..|front|] == front;
    assert front + [] == front;
  }

  /** One more trade adds its quantity to exactly one record, if its order has one. */
  lemma {:induction false} OneTrade(rows: seq<OrderRow>, trades: seq<Trade>)
    requires UniqueRows(rows) && trades != []
    ensures var t := trades[|trades| - 1];
            Attribution(rows, trades) == Attribution(rows, trades[..|trades| - 1]) +
            if t.orderId != "" && HasRow(rows, t.orderId) then t.quantity else 0
  {
    if rows != [] {
      var front := rows[..|rows| - 1];
      var row := rows[|rows| - 1];
      FrontIsUnique(rows);
      LastRowIsNew(rows, trades[|trades| - 1].orderId);
      QuantityOfLast(trades, row.orderId);
      hide HasRow, UniqueRows, TradesFor, Quantity;
      OneTrade(front, trades);
    }
  }

  lemma FrontIsUnique(rows: seq<OrderRow>)
    requires UniqueRows(rows) && rows != []
    ensures UniqueRows(rows[..|rows| - 1])
  {
  }

  lemma LastRowIsNew(rows: seq<OrderRow>, id: string)
    requires UniqueRows(rows) && rows != []
    ensures HasRow(rows, id) <==> HasRow(rows[..|rows| - 1], id) || rows[|rows| - 1].orderId == id
    ensures id != "" && HasRow(rows[..|rows| - 1], id) ==> rows[|rows| - 1].orderId != id
  {
    var front := rows[..|rows| - 1];
    assert rows[|rows| - 1].orderId == id ==> HasRow(rows, id);
    if i :| 0 <= i < |front| && front[i].orderId == id {
      assert rows[i].orderId == id;
    }
    if i :| 0 <= i < |rows| && rows[i].orderId == id {
      assert i < |front| ==> front[i].orderId == id;
    }
  }

  lemma {:induction false} AttributionIsAttributed(rows: seq<OrderRow>, trades: seq<Trade>)
    requires UniqueRows(rows)
    ensures Attribution(rows, trades) == Attributed(rows, trades)
  {
    if trades == [] {
      NothingAttributed(rows);
    } else {
      OneTrade(rows, trades);
      AttributionIsAttributed(rows, trades[..|trades| - 1]);
    }
  }

  lemma {:induction false} NothingAttributed(rows: seq<OrderRow>)
    ensures Attribution(rows, []) == 0
  {
    if rows != [] { NothingAttributed(rows[..|rows| - 1]); }
  }

  lemma {:induction false} FilledIsAttribution(rows: seq<OrderRow>, orders: seq<Order>, trades: seq<Trade>, now: int)
    ensures FilledTotal(ReconcileRows(rows, orders, trades, now)) == Attribution(rows, trades)
  {
    if rows != [] {
      FilledIsAttribution(rows[..|rows| - 1], orders, trades, now);
      var r := ReconcileRows(rows, orders, trades, now);
      assert r[..|rows| - 1] == ReconcileRows(rows[..|rows| - 1], orders, trades, now);
    }
  }

  lemma {:induction false} AllAttributed(rows: seq<OrderRow>, trades: seq<Trade>)
    requires forall k :: 0 <= k < |trades| ==> trades[k].orderId != "" && HasRow(rows, trades[k].orderId)
    ensures Attributed(rows, trades) == Quantity(trades)
  {
    if trades != [] {
      var front := trades[..|trades| - 1];
      assert forall k :: 0 <= k < |front| ==> front[k] == trades[k];
      AllAttributed(rows, front);
    }
  }

  /** Matched records: counting orders is attributing one unit per order. */
  lemma {:induction false} MatchedIsOrders(rows: seq<OrderRow>, orders: seq<Order>)
    requires UniqueRows(rows) && UniqueOrders(orders)
    requires forall k :: 0 <= k < |orders| ==> HasRow(rows, orders[k].id)
    ensures MatchedCount(rows, orders) == |orders|
  {
    var units := seq(|orders|, k requires 0 <= k < |orders| => Trade("", orders[k].id, 1, 0));
    MatchedIsAttribution(rows, orders, units);
    AttributionIsAttributed(rows, units);
    AllAttributed(rows, units);
    UnitQuantity(units);
  }

  lemma {:induction false} UnitQuantity(trades: seq<Trade>)
    requires forall k :: 0 <= k < |trades| ==> trades[k].quantity == 1
    ensures Quantity(trades) == |trades|
  {
    if trades != [] { UnitQuantity(trades[..|trades| - 1]); }
  }

  lemma LastOrderIsNew(orders: seq<Order>)
    requires UniqueOrders(orders) && orders != []
    ensures UniqueOrders(orders[..|orders| - 1]) && !Ordered(orders[..|orders| - 1], orders[|orders| - 1].id)
  {
    var front := orders[..|orders| - 1];
    assert forall k :: 0 <= k < |front| ==> front[k] == orders[k];
  }

  lemma {:induction false} UnitsFor(orders: seq<Order>, units: seq<Trade>, id: string)
    requires UniqueOrders(orders) && |units| == |orders|
    requires forall k :: 0 <= k < |orders| ==> units[k] == Trade("", orders[k].id, 1, 0)
    ensures Quantity(TradesFor(units, id)) == if OrderFor(orders, id).Some? then 1 else 0
    ensures OrderFor(orders, id).Some? <==> Ordered(orders, id)
  {
    if orders != [] {
      var n := |orders| - 1;
      OrderedSplits(orders, id);
      QuantityOfLast(units, id);
      LastOrderIsNew(orders);
      hide Quantity, TradesFor, Ordered, UniqueOrders;
      UnitsFor(orders[..n], units[..n], id);
    }
  }

  lemma {:induction false} MatchedIsAttribution(rows: seq<OrderRow>, orders: seq<Order>, units: seq<Trade>)
    requires UniqueOrders(orders) && |units| == |orders|
    requires forall k :: 0 <= k < |orders| ==> units[k] == Trade("", orders[k].id, 1, 0)
    ensures MatchedCount(rows, orders) == Attribution(rows, units)
  {
    if rows != [] {
      MatchedIsAttribution(rows[..|rows| - 1], orders, units);
      UnitsFor(orders, units, rows[|rows| - 1].orderId);
    }
  }

  lemma {:induction false} NoOrphans(
      journal: seq<TradeRow>, trades: seq<Trade>, orders: seq<Order>, rows: seq<OrderRow>, now: int)
    requires forall k :: 0 <= k < |trades| ==> HasRow(rows, trades[k].orderId)
    ensures OrphanCount(journal, trades, orders, rows, now) == 0
  {
    if trades != [] {
      var front := trades[..|trades| - 1];
      assert forall k :: 0 <= k < |front| ==> front[k] == trades[k];
      NoOrphans(journal, front, orders, rows, now);
    }
  }

  lemma RecoveredRows(rows: seq<OrderRow>, orders: seq<Order>, trades: seq<Trade>, now: int)
    requires UniqueRows(rows) && UniqueOrders(orders)
    requires forall k :: 0 <= k < |trades| ==> Ordered(orders, trades[k].orderId)
    ensures var repaired := Recover(rows, orders, now).rows;
            && UniqueRows(repaired)
            && (forall k :: 0 <= k < |orders| ==> HasRow(repaired, orders[k].id))
            && (forall k :: 0 <= k < |trades| ==> trades[k].orderId != "" && HasRow(repaired, trades[k].orderId))
  {
    RecoverMatchesBroker(rows, orders, now);
    var repaired := Recover(rows, orders, now).rows;
    forall k | 0 <= k < |orders|
      ensures HasRow(repaired, orders[k].id)
    {
      assert Shows(repaired, orders[k]);
    }
    forall k | 0 <= k < |trades|
      ensures trades[k].orderId != "" && HasRow(repaired, trades[k].orderId)
    {
      var m :| 0 <= m < |orders| && orders[m].id == trades[k].orderId;
    }
  }

  /** With unique ids, looking an order up by its id finds it. */
  lemma {:induction false} OrderForFinds(orders: seq<Order>, k: nat)
    requires UniqueOrders(orders) && k < |orders|
    ensures OrderFor(orders, orders[k].id) == Some(orders[k])
  {
    var front := orders[..|orders| - 1];
    if k < |front| {
      assert front[k] == orders[k] && orders[|orders| - 1].id != orders[k].id;
      OrderForFinds(front, k);
    }
  }

  /** Reconciling on the same snapshot keeps every order shown by its only record. */
  lemma ReconcileKeepsShown(rows: seq<OrderRow>, orders: seq<Order>, trades: seq<Trade>, now: int)
    requires UniqueRows(rows) && UniqueOrders(orders) && AllShown(rows, orders)
    ensures var after := ReconcileRows(rows, orders, trades, now);
            UniqueRows(after) && AllShown(after, orders) && InPlace(rows, after)
  {
    var after := ReconcileRows(rows, orders, trades, now);
    forall i | 0 <= i < |rows|
      ensures after[i].orderId == rows[i].orderId
    {
    }
    forall k | 0 <= k < |orders|
      ensures Shows(after, orders[k])
    {
      assert Shows(rows, orders[k]);
      var i :| 0 <= i < |rows| && rows[i].orderId == orders[k].id && rows[i].latestStatus == Some(orders[k].status);
      OrderForFinds(orders, k);
      assert after[i].orderId == orders[k].id && after[i].latestStatus == Some(orders[k].status);
    }
  }

  /**
   * Recovery followed by reconciliation on one broker snapshot, with the journal under its cap: before
   * and after the reconciliation every broker order has exactly one record, with its status; every
   * order is matched, no trade is an orphan, and the fills in the journal add up to the quantity of
   * all trades.
   */
  lemma RecoverThenReconcile(
      rows: seq<OrderRow>, journal: seq<TradeRow>, orders: seq<Order>, trades: seq<Trade>, t0: int, t1: int)
    requires UniqueRows(rows) && UniqueOrders(orders)
    requires forall k :: 0 <= k < |trades| ==> Ordered(orders, trades[k].orderId)
    requires |Recover(rows, orders, t0).rows| <= 200
    ensures var repaired := Last(Recover(rows, orders, t0).rows, 200);
            var reconciled := Last(ReconcileRows(repaired, orders, trades, t1), 200);
            && UniqueRows(repaired) && AllShown(repaired, orders)
            && UniqueRows(reconciled) && AllShown(reconciled, orders) && InPlace(repaired, reconciled)
            && MatchedCount(repaired, orders) == |orders|
            && OrphanCount(journal, trades, orders, repaired, t1) == 0
            && FilledTotal(reconciled) == Quantity(trades)
  {
    var repaired := Recover(rows, orders, t0).rows;
    RecoverMatchesBroker(rows, orders, t0);
    RecoveredRows(rows, orders, trades, t0);
    hide Recover, UniqueRows, UniqueOrders, AllShown, HasRow;
    ReconcileKeepsShown(repaired, orders, trades, t1);
    MatchedIsOrders(repaired, orders);
    NoOrphans(journal, trades, orders, repaired, t1);
    FilledIsAttribution(repaired, orders, trades, t1);
    AttributionIsAttributed(repaired, trades);
    AllAttributed(repaired, trades);
  }

  /**
   * Without the listing assumption: the fills of any journal whose order ids are unique are exactly
   * the quantity of the trades whose order it records; records without an order id have no part in it.
   */
  lemma FillsAreRecordedTrades(rows: seq<OrderRow>, orders: seq<Order>, trades: seq<Trade>, now: int)
    requires UniqueRows(rows)
    ensures FilledTotal(ReconcileRows(rows, orders, trades, now)) == Attributed(rows, trades)
  {
    FilledIsAttribution(rows, orders, trades, now);
    AttributionIsAttributed(rows, trades);
  }

  // ------------------------------------------------------------- idempotence

  /** A second reconciliation of the same snapshot finds nothing to update, at any cap and any later time. */
  lemma {:induction false} SecondReconcileUpdatesNothing(
      rows: seq<OrderRow>, orders: seq<Order>, trades: seq<Trade>, now: int)
    ensures forall row :: row in rows ==> !Stale(ReconcileRow(row, orders, trades, now), orders, trades)
    ensures StaleCount(Last(ReconcileRows(rows, orders, trades, now), ORDER_CAP), orders, trades) == 0
    ensures ReconcileRows(ReconcileRows(rows, orders, trades, now), orders, trades, now)
         == ReconcileRows(rows, orders, trades, now)
  {
    var once := ReconcileRows(rows, orders, trades, now);
    forall row | row in Last(once, ORDER_CAP)
      ensures !Stale(row, orders, trades)
    {
      assert row in once;
    }
    NoneStale(Last(once, ORDER_CAP), orders, trades);
  }

  lemma {:induction false} NoneStale(rows: seq<OrderRow>, orders: seq<Order>, trades: seq<Trade>)
    requires forall row :: row in rows ==> !Stale(row, orders, trades)
    ensures StaleCount(rows, orders, trades) == 0
  {
    if rows != [] {
      assert forall row :: row in rows[..|rows| - 1] ==> row in rows;
      NoneStale(rows[..|rows| - 1], orders, trades);
    }
  }

  lemma {:induction false} AddTradesKnows(journal: seq<TradeRow>, trades: seq<Trade>, orders: seq<Order>, now: int)
    ensures journal <= AddTrades(journal, trades, orders, now)
    ensures forall k :: 0 <= k < |trades| ==> KnownTrade(AddTrades(journal, trades, orders, now), trades[k].id)
    ensures (forall k :: 0 <= k < |trades| ==> KnownTrade(journal, trades[k].id)) <==>
            AddTrades(journal, trades, orders, now) == journal
  {
    if trades != [] {
      var front := trades[..|trades| - 1];
      AddTradesKnows(journal, front, orders, now);
      var before := AddTrades(journal, front, orders, now);
      var after := AddTrades(journal, trades, orders, now);
      forall k | 0 <= k < |trades|
        ensures KnownTrade(after, trades[k].id)
      {
        if k < |front| {
          assert front[k] == trades[k];
          var i :| 0 <= i < |before| && before[i].id == trades[k].id;
          assert after[i].id == trades[k].id;
        } else if !KnownTrade(before, trades[k].id) {
          assert after[|before|].id == trades[k].id;
        }
      }
      assert forall k :: 0 <= k < |front| ==> front[k] == trades[k];
    }
  }

  /** Under the cap a second reconciliation adds no trade entry. */
  lemma SecondReconcileAddsNoTrade(journal: seq<TradeRow>, trades: seq<Trade>, orders: seq<Order>, t0: int, t1: int)
    requires |AddTrades(journal, trades, orders, t0)| <= 500
    ensures var stored := Last(AddTrades(journal, trades, orders, t0), 500);
            AddTrades(stored, trades, orders, t1) == stored
  {
    AddTradesKnows(journal, trades, orders, t0);
    AddTradesKnows(AddTrades(journal, trades, orders, t0), trades, orders, t1);
  }

  lemma NotKnown(journal: seq<TradeRow>, id: string)
    requires forall i :: 0 <= i < |journal| ==> journal[i].id != id
    ensures !KnownTrade(journal, id)
  {
  }

  lemma {:induction false} AllNewTrades(trades: seq<Trade>, orders: seq<Order>, now: int)
    requires forall i, j :: 0 <= i < j < |trades| ==> trades[i].id != trades[j].id
    ensures |AddTrades([], trades, orders, now)| == |trades|
    ensures forall i :: 0 <= i < |trades| ==> AddTrades([], trades, orders, now)[i].id == trades[i].id
  {
    if trades != [] {
      var front := trades[..|trades| - 1];
      AllNewTrades(front, orders, now);
      var before := AddTrades([], front, orders, now);
      var last := trades[|trades| - 1];
      assert forall i :: 0 <= i < |front| ==> before[i].id == front[i].id == trades[i].id;
      forall i | 0 <= i < |before|
        ensures before[i].id != last.id
      {
        assert before[i].id == trades[i].id;
      }
      hide KnownTrade;
      assert !KnownTrade(before, last.id) by { NotKnown(before, last.id); }
    }
  }

  /** Starting from an empty trade journal, the second run is quiet exactly when the snapshot fits the cap. */
  lemma TradeJournalQuietIffUnderCap(trades: seq<Trade>, orders: seq<Order>, t0: int, t1: int)
    requires forall i, j :: 0 <= i < j < |trades| ==> trades[i].id != trades[j].id
    ensures var stored := Last(AddTrades([], trades, orders, t0), 500);
            AddTrades(stored, trades, orders, t1) == stored <==> |trades| <= 500
  {
    AllNewTrades(trades, orders, t0);
    var all := AddTrades([], trades, orders, t0);
    var stored := Last(all, TRADE_CAP);
    AddTradesKnows(stored, trades, orders, t1);
    if |trades| <= TRADE_CAP {
      SecondReconcileAddsNoTrade([], trades, orders, t0, t1);
    } else {
      var cut := |all| - TRADE_CAP;
      assert forall i :: 0 <= i < |stored| ==> stored[i].id == trades[i + cut].id;
      assert !KnownTrade(stored, trades[0].id);
    }
  }

  // ----------------------------------------------------------------- methods

  datatype RecoveryReport = RecoveryReport(orders: nat, pending: nat, resolved: nat, orphans: nat, updated: nat)

  /** `records` holds `rows`, and `index` points each id at its record. */
  ghost predicate Holds(records: seq<OrderRecord>, index: map<string, OrderRecord>, rec: Recovery)
    reads records
  {
    DistinctObjects(records) && Rows(records) == rec.rows && Points(records, index, rec.index)
  }

  /** The index holds the records at the given positions. */
  ghost predicate Points(records: seq<OrderRecord>, index: map<string, OrderRecord>, positions: map<string, nat>) {
    && index.Keys == positions.Keys
    && (forall id :: id in index ==> positions[id] < |records| && index[id] == records[positions[id]])
  }

  method IndexJournal(records: seq<OrderRecord>) returns (index: map<string, OrderRecord>)
    requires DistinctObjects(records)
    ensures Holds(records, index, Recovery(Rows(records), IndexOf(Rows(records)), 0, 0, 0, 0))
  {
    index := map[];
    ghost var rows := Rows(records);
    for i := 0 to |records|
      invariant index.Keys == IndexOf(rows[..i]).Keys
      invariant forall id :: id in index ==> index[id] == records[IndexOf(rows[..i])[id]]
    {
      assert rows[..i + 1][..i] == rows[..i];
      var record := records[i];
      if record.row.orderId != "" {
        index := index[record.row.orderId := record];
      }
    }
    assert rows[..|records|] == rows;
  }

  /** Changing one of several distinct records changes one row. */
  method SetRow(record: OrderRecord, row: OrderRow, ghost records: seq<OrderRecord>, ghost k: nat)
    requires k < |records| && record == records[k] && DistinctObjects(records)
    modifies record
    ensures record.row == row
    ensures Rows(records) == old(Rows(records))[k := row]
  {
    record.row := row;
  }

  /** Look the order up, or append a record for it. */
  method FindOrAppend(
      records: seq<OrderRecord>, index: map<string, OrderRecord>, order: Order, ghost rec: Recovery)
    returns (journal: seq<OrderRecord>, index': map<string, OrderRecord>, record: OrderRecord, ghost k: nat)
    requires Holds(records, index, rec)
    ensures order.id in index <==> order.id in rec.index
    ensures order.id in index ==> journal == records && k == rec.index[order.id]
    ensures order.id !in index ==> journal == records + [record] && fresh(record) && k == |records|
    ensures k < |journal| && record == journal[k] && DistinctObjects(journal)
    ensures Rows(journal) == if order.id in index then rec.rows else rec.rows + [NewRow(order)]
    ensures Points(journal, index', rec.index[order.id := k])
  {
    journal, index' := records, index;
    if order.id !in index {
      record := new OrderRecord(NewRow(order));
      journal := journal + [record];
      index' := index'[order.id := record];
      k := |records|;
    } else {
      record := index[order.id];
      k := rec.index[order.id];
    }
  }

  /** One round of the recovery loop: find the record of the order, and stamp it. */
  method RecoverRecord(
      records: seq<OrderRecord>, index: map<string, OrderRecord>, order: Order, now: int, ghost rec: Recovery)
    returns (journal: seq<OrderRecord>, index': map<string, OrderRecord>, isNew: bool, previous: Option<string>)
    requires Holds(records, index, rec)
    modifies records
    ensures Holds(journal, index', RecoverOne(rec, order, now))
    ensures forall i :: 0 <= i < |journal| ==> journal[i] in records || fresh(journal[i])
    ensures isNew <==> order.id !in rec.index
    ensures previous == if order.id in rec.index then rec.rows[rec.index[order.id]].latestStatus else None
  {
    hide RecoverOne, Checked, Points, DistinctObjects, Final;
    isNew := order.id !in index;
    var record;
    ghost var k;
    journal, index', record, k := FindOrAppend(records, index, order, rec);
    ghost var rows := Rows(journal);
    assert rows[k] == record.row && record in journal;
    previous := record.row.latestStatus;
    RecoverOneIs(rec, order, now, rows, k);
    SetRow(record, record.row.(
      latestStatus := Some(order.status), lastCheckedAt := Some(now),
      resolvedAt := if Final(order.status) then Some(now) else record.row.resolvedAt), journal, k);
  }

  /** The recovered rows and index, with the record that was looked up or appended stamped. */
  lemma RecoverOneIs(rec: Recovery, o: Order, now: int, rows: seq<OrderRow>, k: nat)
    requires o.id in rec.index ==> rows == rec.rows && k == rec.index[o.id] < |rec.rows|
    requires o.id !in rec.index ==> rows == rec.rows + [NewRow(o)] && k == |rec.rows|
    ensures k < |rows|
    ensures RecoverOne(rec, o, now).rows == rows[k := rows[k].(
              latestStatus := Some(o.status), lastCheckedAt := Some(now),
              resolvedAt := if Final(o.status) then Some(now) else rows[k].resolvedAt)]
    ensures RecoverOne(rec, o, now).index == rec.index[o.id := k]
  {
  }

  lemma HoldsRows(records: seq<OrderRecord>, index: map<string, OrderRecord>, rec: Recovery)
    requires Holds(records, index, rec)
    ensures DistinctObjects(records) && Rows(records) == rec.rows
  {
  }

  /** `recover`: the store's journal becomes the recovered rows, cut to the cap. */
  method RecoverJournal(store: JournalStore, orders: seq<Order>, now: int) returns (report: RecoveryReport)
    requires DistinctObjects(store.orders)
    modifies store, store.orders
    ensures var rec := Recover(old(Rows(store.orders)), orders, now);
            && DistinctObjects(store.orders)
            && Rows(store.orders) == Last(rec.rows, ORDER_CAP)
            && report == RecoveryReport(|orders|, rec.pending, rec.resolved, rec.orphans, rec.updated)
    ensures store.trades == old(store.trades)
  {
    hide RecoverOne, Holds;
    var journal := store.orders;
    ghost var was := Rows(journal);
    var index := IndexJournal(journal);
    var updated, orphans, pending, resolved := 0, 0, 0, 0;
    ghost var rec := Recover(was, [], now);
    for n := 0 to |orders|
      invariant rec == Recover(was, orders[..n], now)
      invariant Holds(journal, index, rec)
      invariant rec.orphans == orphans && rec.updated == updated && rec.pending == pending && rec.resolved == resolved
      invariant forall i :: 0 <= i < |journal| ==> journal[i] in old(store.orders) || fresh(journal[i])
      invariant store.trades == old(store.trades)
    {
      assert orders[..n + 1][..n] == orders[..n];
      var order := orders[n];
      var isNew, previous;
      journal, index, isNew, previous := RecoverRecord(journal, index, order, now, rec);
      RecoverOneCounts(rec, order, now);
      rec := RecoverOne(rec, order, now);
      if isNew { orphans := orphans + 1; }
      if Final(order.status) { resolved := resolved + 1; } else { pending := pending + 1; }
      if previous != Some(order.status) { updated := updated + 1; }
    }
    assert orders[..|orders|] == orders;
    HoldsRows(journal, index, rec);
    ghost var rows := Rows(journal);
    store.orders := Last(journal, ORDER_CAP);
    assert Rows(store.orders) == Last(rows, ORDER_CAP);
    report := RecoveryReport(|orders|, pending, resolved, orphans, updated);
  }

  // Reconciliation ----------------------------------------------------------

  datatype ReconcileReport = ReconcileReport(matched: nat, filled: nat, updated: nat, orphanTrades: nat)

  /** Some quantity of the row's order was traded. */
  predicate Fills(row: OrderRow, trades: seq<Trade>) {
    row.orderId != "" && Quantity(TradesFor(trades, row.orderId)) > 0
  }

  function FilledCount(rows: seq<OrderRow>, trades: seq<Trade>): nat {
    if rows == [] then 0 else
      FilledCount(rows[..|rows| - 1], trades) + if Fills(rows[|rows| - 1], trades) then 1 else 0
  }

  /** One record of the order journal, rewritten in place. */
  method ReconcileRecord(record: OrderRecord, orders: seq<Order>, trades: seq<Trade>, now: int)
    returns (matches: bool, fills: bool, changes: bool)
    modifies record
    ensures record.row == ReconcileRow(old(record.row), orders, trades, now)
    ensures matches <==> Matches(old(record.row), orders)
    ensures fills <==> Fills(old(record.row), trades)
    ensures changes <==> Stale(old(record.row), orders, trades)
  {
    var row := record.row;
    if row.orderId == "" {
      return false, false, false;
    }
    var order := OrderFor(orders, row.orderId);
    var mine := TradesFor(trades, row.orderId);
    var quantity, value := Quantity(mine), Value(mine);
    var averagePrice := if quantity > 0 then Some(value as real / quantity as real) else None;
    var status := if order.Some? then Some(order.value.status) else row.latestStatus;
    changes := row.latestStatus != status || row.filledQuantity != Some(quantity);
    record.row := row.(
      latestStatus := status, lastReconciledAt := Some(now), filledQuantity := Some(quantity),
      filledValue := value, averagePrice := averagePrice, tradeCount := |mine|,
      lastTradeAt := if mine != [] then Some(now) else row.lastTradeAt);
    matches, fills := order.Some?, quantity > 0;
  }

  /** The loop over the order journal. */
  method ReconcileOrders(records: seq<OrderRecord>, orders: seq<Order>, trades: seq<Trade>, now: int)
    returns (matched: nat, filled: nat, updated: nat)
    requires DistinctObjects(records)
    modifies records
    ensures Rows(records) == ReconcileRows(old(Rows(records)), orders, trades, now)
    ensures matched == MatchedCount(old(Rows(records)), orders)
    ensures filled == FilledCount(old(Rows(records)), trades)
    ensures updated == StaleCount(old(Rows(records)), orders, trades)
  {
    hide ReconcileRow, Matches, Fills, Stale;
    matched, filled, updated := 0, 0, 0;
    ghost var was := Rows(records);
    for n := 0 to |records|
      invariant forall i :: 0 <= i < n ==> records[i].row == ReconcileRow(was[i], orders, trades, now)
      invariant forall i :: n <= i < |records| ==> records[i].row == was[i]
      invariant matched == MatchedCount(was[..n], orders)
      invariant filled == FilledCount(was[..n], trades)
      invariant updated == StaleCount(was[..n], orders, trades)
    {
      assert was[..n + 1][..n] == was[..n];
      var record := records[n];
      assert record in records;
      var matches, fills, changes := ReconcileRecord(record, orders, trades, now);
      if matches { matched := matched + 1; }
      if fills { filled := filled + 1; }
      if changes { updated := updated + 1; }
    }
    assert was[..|records|] == was;
  }

  lemma RowsOfLast(records: seq<OrderRecord>)
    requires DistinctObjects(records)
    ensures DistinctObjects(Last(records, ORDER_CAP))
    ensures Rows(Last(records, ORDER_CAP)) == Last(Rows(records), ORDER_CAP)
  {
  }

  /** The loop over the trades, with the growing set of known trade ids. */
  method ReconcileTrades(
      store: JournalStore, orders: seq<Order>, trades: seq<Trade>, now: int, ghost rows: seq<OrderRow>)
    returns (orphans: nat)
    requires rows == Rows(store.orders)
    modifies store
    ensures store.orders == old(store.orders)
    ensures store.trades == AddTrades(old(store.trades), trades, orders, now)
    ensures orphans == OrphanCount(old(store.trades), trades, orders, rows, now)
  {
    orphans := 0;
    var journal := store.trades;
    var known := set i | 0 <= i < |journal| :: journal[i].id;
    var owned := set i | 0 <= i < |store.orders| :: store.orders[i].row.orderId;
    for n := 0 to |trades|
      invariant journal == AddTrades(old(store.trades), trades[..n], orders, now)
      invariant orphans == OrphanCount(old(store.trades), trades[..n], orders, rows, now)
      invariant forall id :: id in known <==> KnownTrade(journal, id)
      invariant store.orders == old(store.orders) && store.trades == old(store.trades)
      invariant forall id :: id in owned <==> HasRow(rows, id)
    {
      assert trades[..n + 1][..n] == trades[..n];
      var t := trades[n];
      if t.id !in known {
        var entry := TradeRowOf(t, orders, now);
        GrowKnown(journal, entry);
        journal := journal + [entry];
        known := known + {t.id};
        if t.orderId !in owned { orphans := orphans + 1; }
      }
    }
    assert trades[..|trades|] == trades;
    store.trades := journal;
  }

  lemma GrowKnown(journal: seq<TradeRow>, entry: TradeRow)
    ensures forall id :: KnownTrade(journal + [entry], id) <==> KnownTrade(journal, id) || id == entry.id
  {
    var more := journal + [entry];
    assert more[|journal|] == entry;
    forall id | KnownTrade(journal, id)
      ensures KnownTrade(more, id)
    {
      var i :| 0 <= i < |journal| && journal[i].id == id;
      assert more[i].id == id;
    }
  }

  /** `reconcile`: the journal records are rewritten, the new trades appended, and both lists cut. */
  method ReconcileJournal(store: JournalStore, orders: seq<Order>, trades: seq<Trade>, now: int)
    returns (report: ReconcileReport)
    requires DistinctObjects(store.orders)
    modifies store, store.orders
    ensures var was := old(Rows(store.orders));
            var rows := ReconcileRows(was, orders, trades, now);
            && DistinctObjects(store.orders)
            && Rows(store.orders) == Last(rows, ORDER_CAP)
            && store.trades == Last(AddTrades(old(store.trades), trades, orders, now), TRADE_CAP)
            && report == ReconcileReport(
                 MatchedCount(was, orders), FilledCount(was, trades), StaleCount(was, orders, trades),
                 OrphanCount(old(store.trades), trades, orders, rows, now))
  {
    hide ReconcileRows, AddTrades, MatchedCount, FilledCount, StaleCount, OrphanCount;
    var matched, filled, updated := ReconcileOrders(store.orders, orders, trades, now);
    ghost var rows := Rows(store.orders);
    var orphans := ReconcileTrades(store, orders, trades, now, rows);
    RowsOfLast(store.orders);
    store.orders := Last(store.orders, ORDER_CAP);
    store.trades := Last(store.trades, TRADE_CAP);
    report := ReconcileReport(matched, filled, updated, orphans);
  }

  // ----------------------------------------------------- fills, trade by trade

  /** The trades of an order in a longer list are those in its two parts, in order. */
  lemma {:induction false} TradesForJoin(a: seq<Trade>, b: seq<Trade>, id: string)
    ensures TradesFor(a + b, id) == TradesFor(a, id) + TradesFor(b, id)
    ensures forall t :: t in TradesFor(b, id) <==> t in b && t.orderId == id
  {
    if b == [] {
      assert a + b == a;
    } else {
      var front, last := b[..|b| - 1], b[|b| - 1];
      TradesForJoin(a, front, id);
      assert (a + b)[..|a + b| - 1] == a + front && b == front + [last];
    }
  }

  /** Quantities and values add up over the parts of a list, each trade with its quantity times its price. */
  lemma {:induction false} FillsAdd(a: seq<Trade>, b: seq<Trade>)
    ensures Quantity(a + b) == Quantity(a) + Quantity(b) && Value(a + b) == Value(a) + Value(b)
    ensures |b| == 1 ==> Quantity(b) == b[0].quantity && Value(b) == b[0].quantity * b[0].price
  {
    if b == [] {
      assert a + b == a;
    } else {
      var front := b[..|b| - 1];
      FillsAdd(a, front);
      assert (a + b)[..|a + b| - 1] == a + front;
    }
  }

  lemma {:induction false} ValueIsBetween(trades: seq<Trade>, lo: int, hi: int)
    requires forall i :: 0 <= i < |trades| ==> trades[i].quantity > 0 && lo <= trades[i].price <= hi
    ensures lo * Quantity(trades) <= Value(trades) <= hi * Quantity(trades)
    ensures Quantity(trades) >= |trades|
  {
    if trades != [] {
      var front, t := trades[..|trades| - 1], trades[|trades| - 1];
      assert forall i :: 0 <= i < |front| ==> front[i] == trades[i];
      ValueIsBetween(front, lo, hi);
      Between(t.quantity, t.price, lo, hi);
      assert lo * Quantity(trades) == lo * Quantity(front) + lo * t.quantity;
      assert hi * Quantity(trades) == hi * Quantity(front) + hi * t.quantity;
    }
  }

  lemma Between(quantity: int, price: int, lo: int, hi: int)
    requires quantity > 0 && lo <= price <= hi
    ensures lo * quantity <= quantity * price <= hi * quantity
  {
  }

  /** The average price lies between the prices paid, and times the quantity it is the value. */
  lemma AverageIsBetween(trades: seq<Trade>, lo: int, hi: int)
    requires trades != []
    requires forall i :: 0 <= i < |trades| ==> trades[i].quantity > 0 && lo <= trades[i].price <= hi
    ensures AveragePrice(trades).Some?
    ensures lo as real <= AveragePrice(trades).value <= hi as real
    ensures AveragePrice(trades).value * Quantity(trades) as real == Value(trades) as real
  {
    ValueIsBetween(trades, lo, hi);
    hide Value, Quantity;
    RatioIsBetween(Value(trades), Quantity(trades), lo, hi);
  }

  lemma RatioIsBetween(value: int, quantity: int, lo: int, hi: int)
    requires quantity > 0 && lo * quantity <= value <= hi * quantity
    ensures lo as real <= value as real / quantity as real <= hi as real
    ensures value as real / quantity as real * quantity as real == value as real
  {
    assert (lo * quantity) as real == lo as real * quantity as real;
    assert (hi * quantity) as real == hi as real * quantity as real;
    var r := value as real / quantity as real;
    assert r * quantity as real == value as real;
    if r < lo as real { Less(r, lo as real, quantity as real); }
    if r > hi as real { Less(hi as real, r, quantity as real); }
  }

  lemma Less(a: real, b: real, q: real)
    requires a < b && q > 0.0
    ensures a * q < b * q
  {
  }

  /** What the reconciliation writes to a record with an order id, field by field. */
  lemma RecordIs(row: OrderRow, orders: seq<Order>, trades: seq<Trade>, now: int)
    ensures var mine := TradesFor(trades, row.orderId);
            var order := OrderFor(orders, row.orderId);
            var row' := ReconcileRow(row, orders, trades, now);
            && (row.orderId == "" ==> row' == row)
            && (row.orderId != "" ==>
                  && row'.orderId == row.orderId && row'.symbol == row.symbol
                  && row'.lastCheckedAt == row.lastCheckedAt && row'.resolvedAt == row.resolvedAt
                  && row'.latestStatus == (if order.Some? then Some(order.value.status) else row.latestStatus)
                  && row'.lastReconciledAt == Some(now)
                  && row'.lastTradeAt == (if mine == [] then row.lastTradeAt else Some(now))
                  && row'.filledQuantity == Some(Quantity(mine)) && row'.filledValue == Value(mine)
                  && row'.tradeCount == |mine|
                  && (row'.averagePrice.Some? <==> Quantity(mine) > 0)
                  && (row'.averagePrice.Some? ==>
                        row'.averagePrice.value * Quantity(mine) as real == Value(mine) as real))
    ensures Stale(row, orders, trades) <==>
            row.orderId != "" &&
            var row' := ReconcileRow(row, orders, trades, now);
            row'.latestStatus != row.latestStatus || row'.filledQuantity != row.filledQuantity
  {
    var mine := TradesFor(trades, row.orderId);
    hide Value, Quantity, TradesFor, OrderFor;
    if Quantity(mine) > 0 { Multiplied(Value(mine) as real, Quantity(mine) as real); }
  }

  lemma Multiplied(value: real, quantity: real)
    requires quantity > 0.0
    ensures value / quantity * quantity == value
  {
  }

  // ------------------------------------------------- recovery, record by record

  /** What a recovery leaves of the record of an order. */
  function AfterCheck(row: OrderRow, o: Order, now: int): OrderRow {
    row.(latestStatus := Some(o.status), lastCheckedAt := Some(now),
         resolvedAt := if o.status in {"FILLED", "CANCELLED", "REJECTED"} then Some(now) else row.resolvedAt)
  }

  /** The record of an order that the journal did not know. */
  function Unknown(o: Order): OrderRow {
    OrderRow(o.id, o.symbol, None, None, None, None, None, None, 0, None, 0)
  }

  lemma CheckedIs(row: OrderRow, o: Order, now: int)
    ensures Checked(row, o, now) == AfterCheck(row, o, now) && NewRow(o) == Unknown(o)
    ensures Final(o.status) <==> o.status in {"FILLED", "CANCELLED", "REJECTED"}
  {
  }

  /** The index before an order is handled tells exactly whether the journal had a record of it. */
  lemma IndexTells(rows: seq<OrderRow>, orders: seq<Order>, now: int, o: Order)
    requires UniqueRows(rows) && UniqueOrders(orders) && !Ordered(orders, o.id) && o.id != ""
    ensures var rec := Recover(rows, orders, now);
            && (o.id in rec.index <==> HasRow(rows, o.id))
            && forall i :: 0 <= i < |rows| && rows[i].orderId == o.id ==>
                 o.id in rec.index && rec.index[o.id] == i && i < |rec.rows| && rec.rows[i] == rows[i]
  {
    RecoverMatchesBroker(rows, orders, now);
    var rec := Recover(rows, orders, now);
    if o.id in rec.index {
      var k := rec.index[o.id];
      assert k < |rows| && rec.rows[k] == rows[k];
    }
    forall i | 0 <= i < |rows| && rows[i].orderId == o.id
      ensures o.id in rec.index && rec.index[o.id] == i && rec.rows[i] == rows[i]
    {
      assert rec.rows[i].orderId == o.id;
    }
  }

  lemma LastIsUnordered(orders: seq<Order>)
    requires UniqueOrders(orders) && orders != []
    ensures UniqueOrders(orders[..|orders| - 1]) && !Ordered(orders[..|orders| - 1], orders[|orders| - 1].id)
    ensures orders[|orders| - 1].id != ""
  {
  }

  /**
   * After a recovery the record of a broker order, at its old place or appended, is the old one or a new one
   * with the broker's status, the time, and the time of its resolution if the status is final.
   */
  lemma {:induction false} RecoveredRecord(rows: seq<OrderRow>, orders: seq<Order>, now: int, k: nat)
    requires UniqueRows(rows) && UniqueOrders(orders) && k < |orders|
    ensures var (o, after) := (orders[k], Recover(rows, orders, now).rows);
            && (forall i :: 0 <= i < |rows| && rows[i].orderId == o.id ==>
                  i < |after| && after[i] == AfterCheck(rows[i], o, now))
            && (!HasRow(rows, o.id) ==>
                  exists i :: |rows| <= i < |after| && after[i] == AfterCheck(Unknown(o), o, now))
  {
    var front, last := orders[..|orders| - 1], orders[|orders| - 1];
    var before, rec := Recover(rows, front, now), Recover(rows, orders, now);
    LastIsUnordered(orders);
    RecoverMatchesBroker(rows, front, now);
    IndexTells(rows, front, now, last);
    forall row { CheckedIs(row, last, now); }
    if k == |front| {
      if !HasRow(rows, last.id) {
        assert rec.rows[|before.rows|] == AfterCheck(Unknown(last), last, now);
      }
    } else {
      RecoveredRecord(rows, front, now, k);
      assert orders[k] == front[k] && orders[k].id != last.id;
      RecoverOneShows(before, last, now);
      hide RecoverOne, Checked, AfterCheck, Unknown, IndexOk, UniqueRows;
      if !HasRow(rows, orders[k].id) {
        var i :| |rows| <= i < |before.rows| && before.rows[i] == AfterCheck(Unknown(orders[k]), orders[k], now);
        KeepsId(orders[k], now);
        assert rec.rows[i] == before.rows[i];
      }
    }
  }

  lemma KeepsId(o: Order, now: int)
    ensures AfterCheck(Unknown(o), o, now).orderId == o.id
  {
  }

  /** How many orders have a final status, and how many a status other than the one the journal shows. */
  function FinalCount(orders: seq<Order>): nat {
    if orders == [] then 0 else
      FinalCount(orders[..|orders| - 1]) +
      if orders[|orders| - 1].status in {"FILLED", "CANCELLED", "REJECTED"} then 1 else 0
  }

  function ChangedCount(rows: seq<OrderRow>, orders: seq<Order>): nat {
    if orders == [] then 0 else
      var o := orders[|orders| - 1];
      ChangedCount(rows, orders[..|orders| - 1]) +
      if HasRow(rows, o.id) && rows[RowOf(rows, o.id)].latestStatus == Some(o.status) then 0 else 1
  }

  function UnknownCount(rows: seq<OrderRow>, orders: seq<Order>): nat {
    if orders == [] then 0 else
      UnknownCount(rows, orders[..|orders| - 1]) + if HasRow(rows, orders[|orders| - 1].id) then 0 else 1
  }

  /** The report counts the final and the other orders, those with another status than shown, and the unknown ones. */
  lemma {:induction false} RecoveryCounts(rows: seq<OrderRow>, orders: seq<Order>, now: int)
    requires UniqueRows(rows) && UniqueOrders(orders)
    ensures var rec := Recover(rows, orders, now);
            && rec.resolved == FinalCount(orders) && rec.pending + rec.resolved == |orders|
            && rec.updated == ChangedCount(rows, orders) && rec.orphans == UnknownCount(rows, orders)
  {
    if orders != [] {
      var front, last := orders[..|orders| - 1], orders[|orders| - 1];
      LastIsUnordered(orders);
      RecoveryCounts(rows, front, now);
      IndexTells(rows, front, now, last);
      RecoverOneCounts(Recover(rows, front, now), last, now);
      CheckedIs(NewRow(last), last, now);
      assert HasRow(rows, last.id) ==> rows[RowOf(rows, last.id)].orderId == last.id;
    }
  }

  // ----------------------------------------------------- the trades, one by one

  lemma {:induction false} ListedIff(orders: seq<Order>, id: string)
    ensures OrderFor(orders, id).Some? <==> exists k :: 0 <= k < |orders| && orders[k].id == id
    ensures OrderFor(orders, id).Some? ==> OrderFor(orders, id).value in orders && OrderFor(orders, id).value.id == id
    ensures orders != [] && orders[|orders| - 1].id == id ==> OrderFor(orders, id) == Some(orders[|orders| - 1])
  {
    if orders != [] {
      ListedIff(orders[..|orders| - 1], id);
      assert orders == orders[..|orders| - 1] + [orders[|orders| - 1]];
    }
  }

  /**
   * One more trade: unless its id is in the journal by then, it is appended with its order, quantity, price
   * and whether the broker lists the order; it is an orphan if the journal has no record of the order.
   */
  lemma OneMoreTrade(
      journal: seq<TradeRow>, trades: seq<Trade>, t: Trade, orders: seq<Order>, rows: seq<OrderRow>, now: int)
    ensures var before := AddTrades(journal, trades, orders, now);
            var known := exists i :: 0 <= i < |before| && before[i].id == t.id;
            var recorded := exists i :: 0 <= i < |rows| && rows[i].orderId == t.orderId;
            var listed := exists k :: 0 <= k < |orders| && orders[k].id == t.orderId;
            && AddTrades(journal, trades + [t], orders, now) ==
               (if known then before else before + [TradeRow(t.id, t.orderId, t.quantity, t.price, now, listed)])
            && OrphanCount(journal, trades + [t], orders, rows, now) ==
               OrphanCount(journal, trades, orders, rows, now) + (if known || recorded then 0 else 1)
    ensures AddTrades(journal, [], orders, now) == journal && OrphanCount(journal, [], orders, rows, now) == 0
  {
    assert (trades + [t])[..|trades|] == trades;
    ListedIff(orders, t.orderId);
  }

  // ------------------------------------------------------------ the counters

  /** How many records have the property. */
  ghost function Among(rows: seq<OrderRow>, has: OrderRow -> bool): nat {
    |set i | 0 <= i < |rows| && has(rows[i])|
  }

  lemma AmongOneMore(front: seq<OrderRow>, last: OrderRow, has: OrderRow -> bool)
    ensures Among(front + [last], has) == Among(front, has) + if has(last) then 1 else 0
    ensures Among([], has) == 0
  {
    var rows := front + [last];
    var before := set i | 0 <= i < |front| && has(front[i]);
    var after := set i | 0 <= i < |rows| && has(rows[i]);
    assert after == before + if has(last) then {|front|} else {};
  }

  lemma FlagsAre(row: OrderRow, orders: seq<Order>, trades: seq<Trade>)
    ensures Matches(row, orders) <==>
            row.orderId != "" && exists k :: 0 <= k < |orders| && orders[k].id == row.orderId
    ensures Fills(row, trades) <==> row.orderId != "" && Quantity(TradesFor(trades, row.orderId)) > 0
  {
    ListedIff(orders, row.orderId);
  }

  /** The report counts the records whose order is listed, those with fills, and those that change. */
  lemma {:induction false} ReportCounts(rows: seq<OrderRow>, orders: seq<Order>, trades: seq<Trade>)
    ensures MatchedCount(rows, orders) == Among(rows, (r: OrderRow) => Matches(r, orders))
    ensures FilledCount(rows, trades) == Among(rows, (r: OrderRow) => Fills(r, trades))
    ensures StaleCount(rows, orders, trades) == Among(rows, (r: OrderRow) => Stale(r, orders, trades))
  {
    if rows == [] {
      AmongOneMore([], OrderRow("", "", None, None, None, None, None, None, 0, None, 0), r => Matches(r, orders));
      AmongOneMore([], OrderRow("", "", None, None, None, None, None, None, 0, None, 0), r => Fills(r, trades));
      AmongOneMore([], OrderRow("", "", None, None, None, None, None, None, 0, None, 0), r => Stale(r, orders, trades));
    } else {
      var front, last := rows[..|rows| - 1], rows[|rows| - 1];
      assert rows == front + [last];
      ReportCounts(front, orders, trades);
      AmongOneMore(front, last, r => Matches(r, orders));
      AmongOneMore(front, last, r => Fills(r, trades));
      AmongOneMore(front, last, r => Stale(r, orders, trades));
      hide Among, Matches, Fills, Stale;
    }
  }
}
