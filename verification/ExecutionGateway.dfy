/** The queue of approved order intents (src/ashare_system/execution_gateway.py). */
module ExecutionGateway {
  import opened BoundedLog
  import opened Wrappers

  datatype Status =
    | Approved | Claimed | Submitted | PartialFilled
    | Filled | Canceled | Rejected | Failed | Expired

  /** A timestamp field: empty text, text that is no timestamp, or an instant in seconds. */
  datatype Stamp = Blank | Garbled | At(t: int)

  /** The claim record; an intent nobody holds has an empty source and a blank time. */
  datatype Claim = Claim(source: string, claimedAt: Stamp)

  const NO_CLAIM := Claim("", Blank)

  /** What a producer enqueues; `tradeDate` is a day number, 0 when the field is empty. */
  datatype Packet = Packet(
    id: string, status: Status, claim: Claim, tradeDate: nat, live: bool, account: string, body: string)

  /** A packet in the pending list together with the fields that later steps add to it. */
  datatype Intent = Intent(
    id: string, status: Status, claim: Claim, tradeDate: nat, live: bool, account: string, body: string,
    retryCount: int, retryAt: Stamp, latestReportedAt: Stamp, latestReceiptId: string, brokerOrderId: string)

  datatype Receipt = Receipt(
    id: string, intentId: string, source: string, status: Status,
    reportedAt: Stamp, submittedAt: Stamp, brokerOrderId: string)

  datatype AuditEvent = AuditEvent(
    intentId: string, previous: Status, next: Status, reason: string,
    reportedAt: Stamp, receiptId: string, brokerOrderId: string)

  datatype RetryItem = RetryItem(id: string, claimedAt: Stamp, retryCount: int)
  datatype RetryReport = RetryReport(checked: nat, retried: nat, items: seq<RetryItem>)

  /** The values stored under the gateway's keys. */
  datatype GatewayState = GatewayState(
    pending: seq<Intent>, history: seq<Intent>, audit: seq<AuditEvent>, receipts: seq<Receipt>,
    latestReceipt: Option<Receipt>)

  /** What one operation does: the new pending list and the entries it appends to the three logs. */
  datatype Effect = Effect(
    pending: seq<Intent>, entries: seq<Intent>, events: seq<AuditEvent>, receipts: seq<Receipt>)

  const HISTORY_CAP := 200
  const RECEIPT_CAP := 500
  const AUDIT_CAP := 1000

  function Apply(st: GatewayState, effect: Effect): GatewayState {
    GatewayState(
      effect.pending,
      Append(st.history, effect.entries, HISTORY_CAP),
      Append(st.audit, effect.events, AUDIT_CAP),
      Append(st.receipts, effect.receipts, RECEIPT_CAP),
      if effect.receipts != [] then Some(effect.receipts[|effect.receipts| - 1]) else st.latestReceipt)
  }

  // ---------------------------------------------------------------- statuses

  /** The transition table. */
  function Allowed(from: Status): set<Status> {
    match from
    case Approved => {Claimed, Expired}
    case Claimed => {Submitted, PartialFilled, Filled, Canceled, Rejected, Failed, Expired}
    case Submitted => {PartialFilled, Filled, Canceled, Rejected, Failed, Expired}
    case PartialFilled => {Filled, Canceled, Failed, Expired}
    case _ => {}
  }

  predicate Terminal(s: Status) {
    s in {Filled, Canceled, Rejected, Failed, Expired}
  }

  /** How far an intent has travelled. */
  function Rank(s: Status): nat {
    match s
    case Approved => 0
    case Claimed => 1
    case Submitted => 2
    case PartialFilled => 3
    case _ => 4
  }

  /** Every table move climbs the rank, and the statuses without a way out are exactly the terminal ones. */
  lemma TableClimbs(from: Status)
    ensures forall to :: to in Allowed(from) ==> Rank(from) < Rank(to)
    ensures Allowed(from) == {} <==> Terminal(from)
  {
    assert Approved !in Allowed(from);
    match from {
      case Approved => assert Claimed in Allowed(from);
      case Claimed => assert Submitted in Allowed(from);
      case Submitted => assert Filled in Allowed(from);
      case PartialFilled => assert Filled in Allowed(from);
      case _ =>
    }
  }

  // ------------------------------------------------------------- transitions

  datatype Moved =
    | Refused(from: Status, to: Status)
    | Same(intent: Intent)
    | Changed(intent: Intent, event: AuditEvent)

  function WithReceipt(intent: Intent, receipt: Receipt, now: int): Intent {
    intent.(
      latestReceiptId := receipt.id,
      latestReportedAt := if receipt.reportedAt != Blank then receipt.reportedAt
                          else if receipt.submittedAt != Blank then receipt.submittedAt
                          else At(now),
      brokerOrderId := if receipt.brokerOrderId != "" then receipt.brokerOrderId else intent.brokerOrderId)
  }

  /** `transition_execution_intent`; a missing target means "stay". */
  function Transition(intent: Intent, next: Option<Status>, reason: string, receipt: Option<Receipt>, now: int): Moved {
    var target := if next.Some? then next.value else intent.status;
    if target == intent.status then Same(intent)
    else if target !in Allowed(intent.status) then Refused(intent.status, target)
    else
      var moved := intent.(status := target);
      var updated := if receipt.Some? then WithReceipt(moved, receipt.value, now) else moved;
      Changed(updated, AuditEvent(
        updated.id, intent.status, target, reason,
        if updated.latestReportedAt != Blank then updated.latestReportedAt else At(now),
        updated.latestReceiptId, updated.brokerOrderId))
  }

  // ---------------------------------------------------------------- enqueue

  function FromPacket(p: Packet): Intent {
    Intent(p.id, p.status, p.claim, p.tradeDate, p.live, p.account, p.body, 0, Blank, Blank, "", "")
  }

  ghost predicate UniqueIds(items: seq<Intent>) {
    forall i, j :: 0 <= i < j < |items| ==> items[i].id != items[j].id
  }

  predicate HasId(items: seq<Intent>, id: string) {
    exists i :: 0 <= i < |items| && items[i].id == id
  }

  /** Position of the first item with this id, or the length when there is none. */
  function FirstIndex(items: seq<Intent>, id: string): (k: nat)
    ensures k <= |items|
    ensures k < |items| ==> items[k].id == id
    ensures forall i :: 0 <= i < k ==> items[i].id != id
  {
    if items == [] || items[0].id == id then 0 else 1 + FirstIndex(items[1..], id)
  }

  function FirstById(items: seq<Intent>, id: string): Option<Intent> {
    var k := FirstIndex(items, id);
    if k < |items| then Some(items[k]) else None
  }

  /** Upsert: replace the first item with the packet's id, or append. */
  function Upsert(pending: seq<Intent>, item: Intent): seq<Intent> {
    var k := FirstIndex(pending, item.id);
    if k < |pending| then pending[k := item] else pending + [item]
  }

  function EnqueueEffect(st: GatewayState, packet: Packet): Effect {
    Effect(Upsert(st.pending, FromPacket(packet)), [FromPacket(packet)], [], [])
  }

  function Enqueue(st: GatewayState, packet: Packet): GatewayState {
    Apply(st, EnqueueEffect(st, packet))
  }

  /** Upserting keeps ids unique, touches no other id, and leaves exactly the packet under its own id. */
  lemma EnqueueIsUpsert(st: GatewayState, packet: Packet)
    requires UniqueIds(st.pending)
    ensures UniqueIds(Enqueue(st, packet).pending)
    ensures FirstById(Enqueue(st, packet).pending, packet.id) == Some(FromPacket(packet))
    ensures forall id | id != packet.id :: FirstById(Enqueue(st, packet).pending, id) == FirstById(st.pending, id)
    ensures |Enqueue(st, packet).pending| == |st.pending| + if HasId(st.pending, packet.id) then 0 else 1
  {
    var p := st.pending;
    var q := Enqueue(st, packet).pending;
    var k := FirstIndex(p, packet.id);
    assert k < |p| <==> HasId(p, packet.id);
    assert q[k] == FromPacket(packet);
    assert FirstIndex(q, packet.id) == k;
    forall id | id != packet.id
      ensures FirstById(q, id) == FirstById(p, id)
    {
      SameLookup(p, q, id);
    }
  }

  /** Lists that agree on where an id occurs, and on what is stored there, agree on its lookup. */
  lemma SameLookup(p: seq<Intent>, q: seq<Intent>, id: string)
    requires |p| <= |q|
    requires forall i :: 0 <= i < |p| ==> (p[i].id == id <==> q[i].id == id)
    requires forall i :: 0 <= i < |p| && p[i].id == id ==> p[i] == q[i]
    requires forall i :: |p| <= i < |q| ==> q[i].id != id
    ensures FirstById(p, id) == FirstById(q, id)
  {
    var k := FirstIndex(p, id);
    var l := FirstIndex(q, id);
    if l < |p| { assert p[l].id == id; }
    if k < |p| { assert q[k].id == id; }
  }

  // ------------------------------------------------------------ stale claims

  function Max(a: int, b: int): int { if a < b then b else a }

  /** The claim's own time, or else the time of the last report. */
  function ClaimTime(item: Intent): Stamp {
    if item.claim.claimedAt != Blank then item.claim.claimedAt else item.latestReportedAt
  }

  predicate IsStale(item: Intent, now: int, staleAfter: int) {
    item.status == Claimed && ClaimTime(item).At? && now - ClaimTime(item).t >= Max(staleAfter, 1)
  }

  function Reset(item: Intent, now: int): Intent {
    item.(status := Approved, retryCount := item.retryCount + 1, retryAt := At(now), claim := NO_CLAIM)
  }

  function Refresh(item: Intent, now: int, staleAfter: int): Intent {
    if IsStale(item, now, staleAfter) then Reset(item, now) else item
  }

  function RefreshAll(pending: seq<Intent>, now: int, staleAfter: int): (r: seq<Intent>)
    ensures |r| == |pending|
  {
    seq(|pending|, i requires 0 <= i < |pending| => Refresh(pending[i], now, staleAfter))
  }

  /** The stale items of a list, in order. */
  function StaleItems(pending: seq<Intent>, now: int, staleAfter: int): seq<Intent> {
    if pending == [] then [] else
      var rest := StaleItems(pending[..|pending| - 1], now, staleAfter);
      var item := pending[|pending| - 1];
      if IsStale(item, now, staleAfter) then rest + [item] else rest
  }

  function ResetEvent(item: Intent, now: int): AuditEvent {
    AuditEvent(item.id, item.status, Approved, "claimed_intent_retry", At(now), "", "")
  }

  function ResetEvents(items: seq<Intent>, now: int): (r: seq<AuditEvent>)
    ensures |r| == |items|
  {
    seq(|items|, i requires 0 <= i < |items| => ResetEvent(items[i], now))
  }

  function ResetItems(items: seq<Intent>): (r: seq<RetryItem>)
    ensures |r| == |items|
  {
    seq(|items|, i requires 0 <= i < |items| => RetryItem(items[i].id, ClaimTime(items[i]), items[i].retryCount + 1))
  }

  /** For each id in turn, the first item of `pending` that carries it. */
  function Lookups(pending: seq<Intent>, items: seq<Intent>): seq<Intent> {
    if items == [] then [] else
      var rest := Lookups(pending, items[..|items| - 1]);
      var found := FirstById(pending, items[|items| - 1].id);
      if found.Some? then rest + [found.value] else rest
  }

  function ClaimedCount(pending: seq<Intent>): nat {
    if pending == [] then 0 else
      ClaimedCount(pending[..|pending| - 1]) + if pending[|pending| - 1].status == Claimed then 1 else 0
  }

  function RetryEffect(st: GatewayState, now: int, staleAfter: int): Effect {
    var stale := StaleItems(st.pending, now, staleAfter);
    var pending := RefreshAll(st.pending, now, staleAfter);
    Effect(pending, Lookups(pending, stale), ResetEvents(stale, now), [])
  }

  function Retry(st: GatewayState, now: int, staleAfter: int): GatewayState {
    Apply(st, RetryEffect(st, now, staleAfter))
  }

  lemma {:induction false} StaleItemsAre(pending: seq<Intent>, now: int, staleAfter: int)
    ensures forall x :: x in StaleItems(pending, now, staleAfter) <==> x in pending && IsStale(x, now, staleAfter)
    ensures StaleItems(pending, now, staleAfter) == [] <==>
            forall i :: 0 <= i < |pending| ==> !IsStale(pending[i], now, staleAfter)
  {
    if pending != [] {
      var front := pending[..|pending| - 1];
      StaleItemsAre(front, now, staleAfter);
      assert pending == front + [pending[|pending| - 1]];
      assert forall i :: 0 <= i < |front| ==> front[i] == pending[i];
    }
  }

  /** With unique ids the history entry written for each retried intent is its reset record. */
  lemma {:induction false} LookupsAreResets(pending: seq<Intent>, items: seq<Intent>, now: int, staleAfter: int)
    requires UniqueIds(pending)
    requires forall i :: 0 <= i < |items| ==> items[i] in pending && IsStale(items[i], now, staleAfter)
    ensures Lookups(RefreshAll(pending, now, staleAfter), items)
         == seq(|items|, i requires 0 <= i < |items| => Reset(items[i], now))
  {
    if items != [] {
      var front := items[..|items| - 1];
      LookupsAreResets(pending, front, now, staleAfter);
      var x := items[|items| - 1];
      var k :| 0 <= k < |pending| && pending[k] == x;
      assert RefreshAll(pending, now, staleAfter)[k].id == x.id;
      assert FirstIndex(RefreshAll(pending, now, staleAfter), x.id) == k;
    }
  }

  /**
   * The stale-claim retry resets exactly the claimed intents whose claim time is at least
   * max(stale, 1) seconds old, in place, writes one audit event and one history entry for
   * each of them, and has nothing left to do at the same instant.
   */
  lemma RetryResetsExactlyStaleClaims(st: GatewayState, now: int, staleAfter: int)
    requires UniqueIds(st.pending)
    ensures var st' := Retry(st, now, staleAfter);
            && |st'.pending| == |st.pending| && UniqueIds(st'.pending) && st'.receipts == st.receipts
            && (forall i :: 0 <= i < |st.pending| ==>
                  var (a, b) := (st.pending[i], st'.pending[i]);
                  && b.id == a.id && b.body == a.body
                  && (b == a <==> !IsStale(a, now, staleAfter))
                  && (b != a ==> a.status == Claimed && b.status == Approved && b.claim == NO_CLAIM
                                 && b.retryCount == a.retryCount + 1))
    ensures var stale := StaleItems(st.pending, now, staleAfter);
            var st' := Retry(st, now, staleAfter);
            && st'.audit == Append(st.audit, ResetEvents(stale, now), AUDIT_CAP)
            && st'.history == Append(
                 st.history, seq(|stale|, i requires 0 <= i < |stale| => Reset(stale[i], now)), HISTORY_CAP)
    ensures Retry(Retry(st, now, staleAfter), now, staleAfter) == Retry(st, now, staleAfter)
  {
    var stale := StaleItems(st.pending, now, staleAfter);
    StaleItemsAre(st.pending, now, staleAfter);
    LookupsAreResets(st.pending, stale, now, staleAfter);
    RetryTwice(st, now, staleAfter);
  }

  lemma RetryTwice(st: GatewayState, now: int, staleAfter: int)
    ensures Retry(Retry(st, now, staleAfter), now, staleAfter)
            == Retry(st, now, staleAfter)
  {
    var once := Retry(st, now, staleAfter);
    StaleItemsAre(once.pending, now, staleAfter);
    assert RefreshAll(once.pending, now, staleAfter) == once.pending;
  }

  // -------------------------------------------------------------- the store

  class GatewayStore {
    var pending: seq<Intent>
    var history: seq<Intent>
    var audit: seq<AuditEvent>
    var receipts: seq<Receipt>
    var latestReceipt: Option<Receipt>

    ghost function State(): GatewayState
      reads this
    {
      GatewayState(pending, history, audit, receipts, latestReceipt)
    }

    constructor ()
      ensures State() == GatewayState([], [], [], [], None)
    {
      pending, history, audit, receipts, latestReceipt := [], [], [], [], None;
    }
  }

  method AppendExecutionIntentHistory(store: GatewayStore?, item: Intent)
    modifies store
    ensures store != null ==>
              store.State() == old(store.State()).(history := Append(old(store.history), [item], HISTORY_CAP))
  {
    if store == null { return; }
    var history := store.history;
    history := history + [item];
    store.history := Last(history, HISTORY_CAP);
  }

  method AppendExecutionGatewayReceipt(store: GatewayStore?, receipt: Receipt)
    modifies store
    ensures store != null ==>
              store.State() == old(store.State()).(
                                 receipts := Append(old(store.receipts), [receipt], RECEIPT_CAP),
                                 latestReceipt := Some(receipt))
  {
    if store == null { return; }
    store.latestReceipt := Some(receipt);
    store.receipts := Last(store.receipts + [receipt], RECEIPT_CAP);
  }

  method AppendReceiptAuditEvent(store: GatewayStore?, event: AuditEvent)
    modifies store
    ensures store != null ==>
              store.State() == old(store.State()).(audit := Append(old(store.audit), [event], AUDIT_CAP))
  {
    if store == null { return; }
    store.audit := Last(store.audit + [event], AUDIT_CAP);
  }

  /** Without a store the enqueue is an error; otherwise it is the upsert. */
  method EnqueueExecutionGatewayIntent(store: GatewayStore?, packet: Packet) returns (stored: Option<Intent>)
    modifies store
    ensures stored == if store == null then None else Some(FromPacket(packet))
    ensures store != null ==> store.State() == Enqueue(old(store.State()), packet)
  {
    if store == null { return None; }
    var item := FromPacket(packet);
    var pending := store.pending;
    var index := 0;
    while index < |pending|
      invariant index <= |pending| && pending == old(store.pending)
      invariant store.State() == old(store.State())
      invariant forall i :: 0 <= i < index ==> pending[i].id != item.id
    {
      if pending[index].id == item.id {
        assert FirstIndex(pending, item.id) == index;
        store.pending := pending[index := item];
        AppendExecutionIntentHistory(store, item);
        return Some(item);
      }
      index := index + 1;
    }
    store.pending := pending + [item];
    AppendExecutionIntentHistory(store, item);
    return Some(item);
  }

  /** The checked transition: only an allowed move writes an audit event, and nothing else is written. */
  method TransitionExecutionIntent(
      store: GatewayStore?, intent: Intent, next: Option<Status>, reason: string, receipt: Option<Receipt>, now: int)
    returns (moved: Moved)
    modifies store
    ensures moved == Transition(intent, next, reason, receipt, now)
    ensures store != null ==>
              store.State() == if moved.Changed?
                               then old(store.State()).(audit := Append(old(store.audit), [moved.event], AUDIT_CAP))
                               else old(store.State())
  {
    moved := Transition(intent, next, reason, receipt, now);
    if moved.Changed? {
      AppendReceiptAuditEvent(store, moved.event);
    }
  }

  /** The loop of the retry: reset the stale claims in a copy of the list, writing one audit event for each. */
  method ResetStaleClaims(store: GatewayStore, now: int, staleAfterSeconds: int)
    returns (pending: seq<Intent>, checked: nat, items: seq<RetryItem>)
    modifies store
    ensures pending == RefreshAll(store.pending, now, staleAfterSeconds)
    ensures checked == ClaimedCount(store.pending)
    ensures items == ResetItems(StaleItems(store.pending, now, staleAfterSeconds))
    ensures store.State() == old(store.State()).(audit := Append(
              old(store.audit), ResetEvents(StaleItems(old(store.pending), now, staleAfterSeconds), now), AUDIT_CAP))
  {
    hide Append, ResetEvent, ResetEvents, ResetItems, RefreshAll, StaleItems, ClaimedCount;
    NoReset(store.audit, now);
    ghost var was := store.pending;
    ghost var stale: seq<Intent> := [];
    pending, checked, items := store.pending, 0, [];
    var index := 0;
    while index < |pending|
      invariant index <= |pending| == |was|
      invariant forall i :: 0 <= i < index ==> pending[i] == Refresh(was[i], now, staleAfterSeconds)
      invariant forall i :: index <= i < |was| ==> pending[i] == was[i]
      invariant stale == StaleItems(was[..index], now, staleAfterSeconds)
      invariant checked == ClaimedCount(was[..index]) && items == ResetItems(stale)
      invariant store.State() == old(store.State()).(
                                   audit := Append(old(store.audit), ResetEvents(stale, now), AUDIT_CAP))
    {
      var item := pending[index];
      OneMoreChecked(was, index, now, staleAfterSeconds);
      if item.status == Claimed {
        checked := checked + 1;
        var claimedAt := ClaimTime(item);
        if claimedAt.At? && !(now - claimedAt.t < Max(staleAfterSeconds, 1)) {
          var reset := Reset(item, now);
          AppendReceiptAuditEvent(store, ResetEvent(item, now));
          OneMoreReset(old(store.audit), stale, item, now);
          pending := pending[index := reset];
          items := items + [RetryItem(reset.id, claimedAt, reset.retryCount)];
          stale := stale + [item];
        }
      }
      index := index + 1;
    }
    assert was[..index] == was;
    RefreshedAll(was, pending, now, staleAfterSeconds);
  }

  method RetryStaleClaimedIntents(store: GatewayStore?, now: int, staleAfterSeconds: int)
    returns (report: RetryReport)
    modifies store
    ensures store == null ==> report == RetryReport(0, 0, [])
    ensures store != null ==>
              && store.State() == Retry(old(store.State()), now, staleAfterSeconds)
              && var stale := StaleItems(old(store.pending), now, staleAfterSeconds);
                 report == RetryReport(ClaimedCount(old(store.pending)), |stale|, ResetItems(stale))
  {
    if store == null { return RetryReport(0, 0, []); }
    hide Append, ResetEvents, ResetItems, Lookups, RefreshAll, Apply, StaleItems, ClaimedCount;
    ghost var stale := StaleItems(store.pending, now, staleAfterSeconds);
    var pending, checked, items := ResetStaleClaims(store, now, staleAfterSeconds);
    if items != [] {
      store.pending := pending;
      RecordRetries(store, pending, items, stale);
    }
    RetryStored(old(store.State()), store.State(), now, staleAfterSeconds);
    return RetryReport(checked, |items|, items);
  }

  lemma NoReset(audit: seq<AuditEvent>, now: int)
    ensures Append(audit, ResetEvents([], now), AUDIT_CAP) == audit && ResetItems([]) == []
    ensures forall staleAfter :: StaleItems([], now, staleAfter) == []
    ensures ClaimedCount([]) == 0
  {
  }

  /** One more item of the list has been looked at. */
  lemma OneMoreChecked(was: seq<Intent>, n: nat, now: int, staleAfter: int)
    requires n < |was|
    ensures StaleItems(was[..n + 1], now, staleAfter) ==
            StaleItems(was[..n], now, staleAfter) + if IsStale(was[n], now, staleAfter) then [was[n]] else []
    ensures ClaimedCount(was[..n + 1]) == ClaimedCount(was[..n]) + if was[n].status == Claimed then 1 else 0
  {
    assert was[..n + 1][..n] == was[..n];
  }

  lemma RefreshedAll(was: seq<Intent>, pending: seq<Intent>, now: int, staleAfter: int)
    requires |pending| == |was| && forall i :: 0 <= i < |was| ==> pending[i] == Refresh(was[i], now, staleAfter)
    ensures pending == RefreshAll(was, now, staleAfter)
  {
  }

  /** Writing the lists only when something was reset makes no difference. */
  lemma RetryStored(st: GatewayState, st': GatewayState, now: int, staleAfter: int)
    requires var stale := StaleItems(st.pending, now, staleAfter);
             var pending := RefreshAll(st.pending, now, staleAfter);
             && st'.receipts == st.receipts && st'.latestReceipt == st.latestReceipt
             && st'.audit == Append(st.audit, ResetEvents(stale, now), AUDIT_CAP)
             && st'.pending == (if stale != [] then pending else st.pending)
             && st'.history ==
                  if stale != [] then Append(st.history, Lookups(pending, stale), HISTORY_CAP) else st.history
    ensures st' == Retry(st, now, staleAfter)
  {
    StaleItemsAre(st.pending, now, staleAfter);
    if StaleItems(st.pending, now, staleAfter) == [] {
      RefreshedAll(st.pending, st.pending, now, staleAfter);
    }
  }

  lemma OneMoreReset(audit: seq<AuditEvent>, stale: seq<Intent>, item: Intent, now: int)
    ensures Append(Append(audit, ResetEvents(stale, now), AUDIT_CAP), [ResetEvent(item, now)], AUDIT_CAP)
         == Append(audit, ResetEvents(stale + [item], now), AUDIT_CAP)
    ensures ResetItems(stale + [item])
         == ResetItems(stale) + [RetryItem(item.id, ClaimTime(item), item.retryCount + 1)]
  {
    AppendTwice(audit, ResetEvents(stale, now), [ResetEvent(item, now)], AUDIT_CAP);
    assert ResetEvents(stale + [item], now) == ResetEvents(stale, now) + [ResetEvent(item, now)];
  }

  /** The closing loop of the retry: one history entry per retried id. */
  method RecordRetries(store: GatewayStore, pending: seq<Intent>, items: seq<RetryItem>, ghost stale: seq<Intent>)
    requires items == ResetItems(stale)
    modifies store
    ensures store.State() == old(store.State()).(
                               history := Append(old(store.history), Lookups(pending, stale), HISTORY_CAP))
  {
    var k := 0;
    while k < |items|
      invariant k <= |items|
      invariant store.State() == old(store.State()).(
                                   history := Append(old(store.history), Lookups(pending, stale[..k]), HISTORY_CAP))
    {
      var matched := FirstById(pending, items[k].id);
      assert stale[..k + 1][..k] == stale[..k];
      if matched.Some? {
        AppendTwice(old(store.history), Lookups(pending, stale[..k]), [matched.value], HISTORY_CAP);
        AppendExecutionIntentHistory(store, matched.value);
      }
      k := k + 1;
    }
    assert stale[..k] == stale;
  }
}
