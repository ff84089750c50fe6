/**
 * What each store operation of the gateway answers and writes, record by record and field by field
 * (src/ashare_system/execution_gateway.py, src/ashare_system/apps/system_api.py).
 */
module GatewayAnswers {
  import opened BoundedLog
  import opened ExecutionGateway
  import opened GatewayHandlers
  import opened GatewayRuns
  import opened Wrappers

  // ------------------------------------------------------------- transitions

  /**
   * The moves of the table are those that climb, except that an approved intent can only be claimed or
   * expire and a partly filled one cannot be rejected.
   */
  lemma TableIs(from: Status, to: Status)
    ensures to in Allowed(from) <==>
            && Rank(from) < Rank(to)
            && (from == Approved ==> to == Claimed || to == Expired)
            && !(from == PartialFilled && to == Rejected)
  {
  }

  /** A move keeps every field it does not name; the receipt, if any, is noted on the record and in the event. */
  lemma TransitionIs(x: Intent, to: Status, reason: string, receipt: Option<Receipt>, now: int)
    ensures Transition(x, None, reason, receipt, now) == Same(x)
    ensures to == x.status ==> Transition(x, Some(to), reason, receipt, now) == Same(x)
    ensures to != x.status && to !in Allowed(x.status) ==>
              Transition(x, Some(to), reason, receipt, now) == Refused(x.status, to)
    ensures to in Allowed(x.status) && receipt.None? ==>
              Transition(x, Some(to), reason, receipt, now) ==
              Changed(x.(status := to),
                      AuditEvent(x.id, x.status, to, reason, Noted(x.latestReportedAt, Blank, now),
                                 x.latestReceiptId, x.brokerOrderId))
    ensures to in Allowed(x.status) && receipt.Some? ==>
              var r := receipt.value;
              var at := Noted(r.reportedAt, r.submittedAt, now);
              var order := if r.brokerOrderId == "" then x.brokerOrderId else r.brokerOrderId;
              Transition(x, Some(to), reason, receipt, now) ==
              Changed(x.(status := to, latestReceiptId := r.id, latestReportedAt := at, brokerOrderId := order),
                      AuditEvent(x.id, x.status, to, reason, at, r.id, order))
  {
    TableIs(x.status, x.status);
  }

  /** The first of two times that is not blank, or else the clock. */
  function Noted(first: Stamp, second: Stamp, now: int): (at: Stamp)
    ensures at != Blank
    ensures first != Blank ==> at == first
    ensures first == Blank && second != Blank ==> at == second
    ensures first == Blank && second == Blank ==> at == At(now)
  {
    if first != Blank then first else if second != Blank then second else At(now)
  }

  /** An enqueued packet becomes a record with its own fields and nothing yet reported. */
  lemma EnqueueStores(st: GatewayState, p: Packet)
    requires UniqueIds(st.pending)
    ensures var st' := Enqueue(st, p);
            exists x :: x in st'.pending && st'.history == Append(st.history, [x], 200)
              && x.id == p.id && x.status == p.status && x.claim == p.claim && x.tradeDate == p.tradeDate
              && x.live == p.live && x.account == p.account && x.body == p.body && x.retryCount == 0
              && x.retryAt == Blank && x.latestReportedAt == Blank && x.latestReceiptId == "" && x.brokerOrderId == ""
    ensures Enqueue(st, p).audit == st.audit && Enqueue(st, p).receipts == st.receipts
  {
    EnqueueIsUpsert(st, p);
    var k := FirstIndex(Enqueue(st, p).pending, p.id);
    assert Enqueue(st, p).pending[k] == FromPacket(p);
  }

  // ----------------------------------------------------------- pruning, poll

  /** Pruning drops the approved, unclaimed intents of an earlier trade date that are not live. */
  lemma DroppedIff(pending: seq<Intent>, today: nat, x: Intent)
    requires x in pending
    ensures x !in Prune(pending, today) <==>
            x.status == Approved && x.claim.source == "" && !x.live && x.tradeDate != 0 && x.tradeDate < today
  {
    PruneKeeps(pending, today);
  }

  /** With a limit that does not bind, a poll offers the approved intents that pruning has left of the account. */
  lemma OfferedIff(pending: seq<Intent>, account: string, x: Intent)
    ensures x in Poll(pending, account, 100) ==> x in pending && x.status == Approved
    ensures |pending| <= 100 && x in pending ==>
              (x in Poll(pending, account, 100) <==>
                 x.status == Approved && (account == "" || x.account == account))
  {
    hide Picks;
    PollOffersFirst(pending, account, 100);
    PollOffersApproved(pending, account, 100);
    ApprovalsHave(pending, account, x);
  }

  lemma {:induction false} ApprovalsHave(pending: seq<Intent>, account: string, x: Intent)
    ensures x in Approvals(pending, account) <==>
            x in pending && x.status == Approved && (account == "" || x.account == account)
    ensures |Approvals(pending, account)| <= |pending|
  {
    if pending != [] {
      ApprovalsHave(pending[..|pending| - 1], account, x);
      assert pending == pending[..|pending| - 1] + [pending[|pending| - 1]];
    }
  }

  /** The limit asked for, but at least one and at most a hundred. */
  lemma LimitIs(limit: int)
    ensures 1 <= PollLimit(limit) <= 100 && (1 <= limit <= 100 ==> PollLimit(limit) == limit)
    ensures (limit < 1 ==> PollLimit(limit) == 1) && (100 < limit ==> PollLimit(limit) == 100)
  {
  }

  // ------------------------------------------------------------------ claims

  /** The record a handler works on: the first of the id among those that pruning leaves. */
  ghost predicate Found(st: GatewayState, id: string, today: nat, k: nat) {
    var p := Prune(st.pending, today);
    k < |p| && p[k].id == id && forall i :: 0 <= i < k ==> p[i].id != id
  }

  lemma FoundIsFirst(st: GatewayState, id: string, today: nat, k: nat)
    requires Found(st, id, today, k)
    ensures FirstIndex(Prune(st.pending, today), id) == k
  {
  }

  /** A fresh grant stores the source and the time of the request, and nothing else changes on the record. */
  lemma ClaimGrants(st: GatewayState, req: ClaimRequest, now: int, today: nat, k: nat)
    requires Found(st, req.id, today, k) && Prune(st.pending, today)[k].status == Approved
    ensures var (p, x) := (Prune(st.pending, today), Prune(st.pending, today)[k]);
            var y := x.(status := Claimed, claim := Claim(req.source, req.claimedAt));
            var event := AuditEvent(x.id, Approved, Claimed, "gateway_claimed", Noted(x.latestReportedAt, Blank, now),
                                    x.latestReceiptId, x.brokerOrderId);
            var (e, reply) := ClaimEffect(st, req, now, today);
            && reply == Granted(y)
            && Apply(st, e) == st.(pending := p[k := y], history := Append(st.history, [y], 200),
                                   audit := Append(st.audit, [event], 1000))
  {
    FoundIsFirst(st, req.id, today, k);
  }

  /** Every other claim changes nothing but the pruning: it repeats a grant to the holder or is turned down. */
  lemma ClaimAnswers(st: GatewayState, req: ClaimRequest, now: int, today: nat, k: nat)
    requires Found(st, req.id, today, k) && Prune(st.pending, today)[k].status != Approved
    ensures var x := Prune(st.pending, today)[k];
            var (e, reply) := ClaimEffect(st, req, now, today);
            && Apply(st, e) == st.(pending := Prune(st.pending, today))
            && (reply == Granted(x) <==> x.status == Claimed && x.claim.source == req.source)
            && (reply == Conflict(x) <==> x.status == Claimed && x.claim.source != req.source)
            && (reply == InvalidStatus(x) <==> x.status != Claimed)
  {
    FoundIsFirst(st, req.id, today, k);
  }

  lemma ClaimOfUnknown(st: GatewayState, req: ClaimRequest, now: int, today: nat)
    requires !HasId(Prune(st.pending, today), req.id)
    ensures var (e, reply) := ClaimEffect(st, req, now, today);
            reply == NotFound && Apply(st, e) == st.(pending := Prune(st.pending, today))
  {
  }

  // ---------------------------------------------------------------- receipts

  lemma {:induction false} SeenIff(receipts: seq<Receipt>, id: string)
    ensures FirstReceipt(receipts, id).Some? <==> exists i :: 0 <= i < |receipts| && receipts[i].id == id
    ensures FirstReceipt(receipts, id).Some? ==>
              FirstReceipt(receipts, id).value in receipts && FirstReceipt(receipts, id).value.id == id
  {
    if receipts != [] {
      SeenIff(receipts[1..], id);
      assert receipts == [receipts[0]] + receipts[1..];
      if i :| 0 <= i < |receipts| && receipts[i].id == id && i > 0 { assert receipts[1..][i - 1].id == id; }
    }
  }

  /** A receipt that was stored before changes nothing and is answered with the stored one. */
  lemma RepeatedReceipt(st: GatewayState, r: Receipt, now: int, today: nat)
    requires exists i :: 0 <= i < |st.receipts| && st.receipts[i].id == r.id
    ensures var (e, reply) := ReceiptEffect(st, r, now, today);
            Apply(st, e) == st && reply.Duplicate? && reply.first in st.receipts && reply.first.id == r.id
  {
    SeenIff(st.receipts, r.id);
  }

  ghost predicate FirstTime(st: GatewayState, r: Receipt) {
    forall i :: 0 <= i < |st.receipts| ==> st.receipts[i].id != r.id
  }

  /** What a first receipt finds: the pending record, or else the newest one of the history. */
  ghost predicate Finds(st: GatewayState, r: Receipt, today: nat, x: Intent) {
    || (exists k: nat :: Found(st, r.intentId, today, k) && Prune(st.pending, today)[k] == x)
    || (!HasId(Prune(st.pending, today), r.intentId) && Newest(st.history, r.intentId) == Some(x))
  }

  /** The record after a receipt with an allowed move. */
  function Reported(x: Intent, r: Receipt, now: int): Intent {
    x.(status := r.status, latestReceiptId := r.id, latestReportedAt := Noted(r.reportedAt, r.submittedAt, now),
       brokerOrderId := if r.brokerOrderId == "" then x.brokerOrderId else r.brokerOrderId)
  }

  /** The list after a stored receipt: a terminal status takes the record off, another one puts `y` in its place. */
  ghost predicate Settled(before: seq<Intent>, after: seq<Intent>, id: string, y: Intent) {
    && (forall other :: other != id ==> FirstById(after, other) == FirstById(before, other))
    && FirstById(after, id) == (if !HasId(before, id) || Terminal(y.status) then None else Some(y))
    && |after| == |before| - (if HasId(before, id) && Terminal(y.status) then 1 else 0)
  }

  lemma SettleIs(pending: seq<Intent>, id: string, y: Intent)
    requires UniqueIds(pending) && y.id == id
    ensures Settled(pending, Settle(pending, FirstIndex(pending, id), y, y.status), id, y)
  {
    var k := FirstIndex(pending, id);
    var after := Settle(pending, k, y, y.status);
    assert k < |pending| <==> HasId(pending, id);
    if k < |pending| && Terminal(y.status) {
      forall other
        ensures FirstById(after, other) == if other == id then None else FirstById(pending, other)
      {
        WithoutLooksUp(pending, k, other);
      }
    } else if k < |pending| {
      SameIndex(pending, after, id);
      forall other | other != id
        ensures FirstById(after, other) == FirstById(pending, other)
      {
        SameLookup(pending, after, other);
      }
    }
  }

  lemma SameIndex(before: seq<Intent>, after: seq<Intent>, id: string)
    requires |before| == |after| && forall i :: 0 <= i < |before| ==> before[i].id == after[i].id
    ensures FirstIndex(before, id) == FirstIndex(after, id)
  {
  }

  lemma WithoutLooksUp(pending: seq<Intent>, k: nat, other: string)
    requires UniqueIds(pending) && k < |pending|
    ensures FirstById(Without(pending, k), other) == if other == pending[k].id then None else FirstById(pending, other)
  {
    var after := Without(pending, k);
    var i, j := FirstIndex(pending, other), FirstIndex(after, other);
    assert forall n :: 0 <= n < |after| ==> after[n] == pending[if n < k then n else n + 1];
    if i < |pending| && i != k {
      assert after[if i < k then i else i - 1] == pending[i];
    }
  }

  lemma FindsIsMatch(st: GatewayState, r: Receipt, today: nat, x: Intent)
    requires Finds(st, r, today, x)
    ensures var p := Prune(st.pending, today);
            var k := FirstIndex(p, r.intentId);
            x.id == r.intentId && Some(x) == if k < |p| then Some(p[k]) else Newest(st.history, r.intentId)
  {
    var p := Prune(st.pending, today);
    if k: nat :| Found(st, r.intentId, today, k) && p[k] == x {
      FoundIsFirst(st, r.intentId, today, k);
    } else {
      NewestHasId(st.history, r.intentId);
      assert FirstIndex(p, r.intentId) < |p| ==> HasId(p, r.intentId);
    }
  }

  /** A first receipt with an allowed move is noted on the record it finds, and stored. */
  lemma ReceiptMoves(st: GatewayState, r: Receipt, now: int, today: nat, x: Intent)
    requires UniqueIds(st.pending) && FirstTime(st, r) && Finds(st, r, today, x)
    requires r.status in Allowed(x.status)
    ensures var (e, reply) := ReceiptEffect(st, r, now, today);
            var (st', y) := (Apply(st, e), Reported(x, r, now));
            var event := AuditEvent(x.id, x.status, r.status, "gateway_receipt_reported",
                                    y.latestReportedAt, r.id, y.brokerOrderId);
            && reply == Stored(r) && Settled(Prune(st.pending, today), st'.pending, r.intentId, y)
            && st' == GatewayState(st'.pending, Append(st.history, [y], 200),
                                   Append(st.audit, [event], 1000),
                                   Append(st.receipts, [r], 500), Some(r))
  {
    SeenIff(st.receipts, r.id);
    FindsIsMatch(st, r, today, x);
    PruneKeeps(st.pending, today);
    SettleIs(Prune(st.pending, today), r.intentId, Reported(x, r, now));
    TransitionIs(x, r.status, "gateway_receipt_reported", Some(r), now);
    TableIs(x.status, x.status);
    hide Transition, Settle, Settled, Prune, Finds, Newest, UniqueIds, Append;
  }

  /** A first receipt with the status the record already has is stored, and the record goes to the history as it is. */
  lemma ReceiptRepeatsStatus(st: GatewayState, r: Receipt, now: int, today: nat, x: Intent)
    requires UniqueIds(st.pending) && FirstTime(st, r) && Finds(st, r, today, x) && r.status == x.status
    ensures var (e, reply) := ReceiptEffect(st, r, now, today);
            var st' := Apply(st, e);
            && reply == Stored(r) && Settled(Prune(st.pending, today), st'.pending, r.intentId, x)
            && st' == GatewayState(st'.pending, Append(st.history, [x], 200), st.audit,
                                   Append(st.receipts, [r], 500), Some(r))
  {
    SeenIff(st.receipts, r.id);
    FindsIsMatch(st, r, today, x);
    PruneKeeps(st.pending, today);
    SettleIs(Prune(st.pending, today), r.intentId, x);
    TransitionIs(x, r.status, "gateway_receipt_reported", Some(r), now);
    hide Transition, Settle, Settled, Prune, Finds, Newest, UniqueIds;
  }

  /** A first receipt with any other status, or for an unknown intent, is turned down. */
  lemma ReceiptTurnedDown(st: GatewayState, r: Receipt, now: int, today: nat)
    requires FirstTime(st, r)
    ensures var (e, reply) := ReceiptEffect(st, r, now, today);
            && (reply == UnknownIntent <==> !exists x :: Finds(st, r, today, x))
            && (forall x :: Finds(st, r, today, x) && r.status != x.status && r.status !in Allowed(x.status) ==>
                  reply == RefusedMove(x.status, r.status))
            && (!reply.Stored? ==> Apply(st, e) == st.(pending := Prune(st.pending, today)))
  {
    SeenIff(st.receipts, r.id);
    var p := Prune(st.pending, today);
    var k := FirstIndex(p, r.intentId);
    forall x | Finds(st, r, today, x)
      ensures Some(x) == if k < |p| then Some(p[k]) else Newest(st.history, r.intentId)
    {
      FindsIsMatch(st, r, today, x);
    }
    if k < |p| {
      assert Found(st, r.intentId, today, k);
      assert Finds(st, r, today, p[k]);
    } else if Newest(st.history, r.intentId).Some? {
      assert Finds(st, r, today, Newest(st.history, r.intentId).value);
    }
  }

  // ------------------------------------------------------------ stale claims

  /** When the claim of a record counts from: its own time, or without one the last report. */
  predicate ClaimedSince(x: Intent, t: int) {
    x.claim.claimedAt == At(t) || (x.claim.claimedAt == Blank && x.latestReportedAt == At(t))
  }

  /** A claimed record with no readable time stays claimed whatever the clock. */
  predicate Timeless(x: Intent) {
    x.claim.claimedAt == Garbled || (x.claim.claimedAt == Blank && (x.latestReportedAt in {Blank, Garbled}))
  }

  /** The record a retry at `now` makes of a claimed one. */
  function Released(x: Intent, now: int): Intent {
    x.(status := Approved, claim := Claim("", Blank), retryCount := x.retryCount + 1, retryAt := At(now))
  }

  /** Due after `staleAfter` seconds, but never in the second of the claim itself. */
  ghost predicate Due(x: Intent, now: int, staleAfter: int) {
    x.status == Claimed && exists t :: ClaimedSince(x, t) && now - t >= staleAfter && now - t >= 1
  }

  lemma DueIsStale(x: Intent, now: int, staleAfter: int)
    ensures IsStale(x, now, staleAfter) <==> Due(x, now, staleAfter)
    ensures IsStale(x, now, staleAfter) ==>
              ResetEvent(x, now) == AuditEvent(x.id, Claimed, Approved, "claimed_intent_retry", At(now), "", "")
    ensures forall t :: ClaimedSince(x, t) ==> ClaimTime(x) == At(t)
  {
    if IsStale(x, now, staleAfter) { assert ClaimedSince(x, ClaimTime(x).t); }
  }

  /** Record by record: a claimed one is released exactly when its time is due, every other one stays as it is. */
  lemma RetryReleasesIff(st: GatewayState, now: int, staleAfter: int, i: nat, t: int)
    requires i < |st.pending|
    ensures var (a, b) := (st.pending[i], Retry(st, now, staleAfter).pending[i]);
            && (a.status == Claimed && ClaimedSince(a, t) ==>
                  b == if now - t >= staleAfter && now - t >= 1 then Released(a, now) else a)
            && (a.status != Claimed || Timeless(a) ==> b == a)
  {
    DueIsStale(st.pending[i], now, staleAfter);
  }

  lemma MaskIsDue(pending: seq<Intent>, now: int, staleAfter: int)
    ensures forall i :: 0 <= i < |pending| ==>
              (DueMask(pending, now, staleAfter)[i] <==> Due(pending[i], now, staleAfter))
  {
    forall i | 0 <= i < |pending|
      ensures DueMask(pending, now, staleAfter)[i] <==> Due(pending[i], now, staleAfter)
    {
      DueIsStale(pending[i], now, staleAfter);
    }
  }

  /** Which records of a list a retry releases. */
  function DueMask(pending: seq<Intent>, now: int, staleAfter: int): (mask: seq<bool>)
    ensures |mask| == |pending|
  {
    seq(|pending|, i requires 0 <= i < |pending| => IsStale(pending[i], now, staleAfter))
  }

  lemma {:induction false} StaleArePicked(pending: seq<Intent>, now: int, staleAfter: int)
    ensures Picks(StaleItems(pending, now, staleAfter), pending, DueMask(pending, now, staleAfter))
  {
    if pending == [] {
      NothingPicked();
      assert DueMask(pending, now, staleAfter) == [];
    } else {
      var front, last := pending[..|pending| - 1], pending[|pending| - 1];
      assert pending == front + [last];
      assert DueMask(pending, now, staleAfter) == DueMask(front, now, staleAfter) + [IsStale(last, now, staleAfter)];
      hide Picks;
      StaleArePicked(front, now, staleAfter);
      PicksOneMore(StaleItems(front, now, staleAfter), front, last, DueMask(front, now, staleAfter),
                   IsStale(last, now, staleAfter));
    }
  }

  /** The retry reports how many records are claimed. */
  lemma {:induction false} ClaimedAreCounted(pending: seq<Intent>)
    ensures ClaimedCount(pending) == |set i | 0 <= i < |pending| && pending[i].status == Claimed|
  {
    if pending != [] {
      var front, last := pending[..|pending| - 1], pending[|pending| - 1];
      assert pending == front + [last];
      ClaimedAreCounted(front);
      ClaimedOneMore(front, last);
    }
  }

  lemma ClaimedOneMore(front: seq<Intent>, last: Intent)
    ensures |set i | 0 <= i < |front + [last]| && (front + [last])[i].status == Claimed|
         == |set i | 0 <= i < |front| && front[i].status == Claimed| + if last.status == Claimed then 1 else 0
  {
    var pending := front + [last];
    var before := set i | 0 <= i < |front| && front[i].status == Claimed;
    var after := set i | 0 <= i < |pending| && pending[i].status == Claimed;
    assert after == before + if last.status == Claimed then {|front|} else {};
  }

  /**
   * The logs and the report of a retry: one event, one history entry and one report item for each due
   * record, in list order, and the number of claimed ones.
   */
  lemma RetryWrites(st: GatewayState, now: int, staleAfter: int, due: seq<Intent>)
    requires UniqueIds(st.pending)
    requires Picks(due, st.pending, DueMask(st.pending, now, staleAfter))
    ensures var st' := Retry(st, now, staleAfter);
            var events := seq(|due|, k requires 0 <= k < |due| =>
                AuditEvent(due[k].id, Claimed, Approved, "claimed_intent_retry", At(now), "", ""));
            var entries := seq(|due|, k requires 0 <= k < |due| => Released(due[k], now));
            && st'.audit == Append(st.audit, events, 1000)
            && st'.history == Append(st.history, entries, 200)
            && st'.receipts == st.receipts && st'.latestReceipt == st.latestReceipt
    ensures var items := ResetItems(StaleItems(st.pending, now, staleAfter));
            && |items| == |due|
            && forall k, t :: 0 <= k < |due| && ClaimedSince(due[k], t) ==>
                 items[k] == RetryItem(due[k].id, At(t), due[k].retryCount + 1)
  {
    StaleArePicked(st.pending, now, staleAfter);
    PickedOnce(due, StaleItems(st.pending, now, staleAfter), st.pending, DueMask(st.pending, now, staleAfter));
    StaleItemsAre(st.pending, now, staleAfter);
    forall k | 0 <= k < |due|
      ensures due[k].status == Claimed
    {
      assert due[k] in StaleItems(st.pending, now, staleAfter);
    }
    hide *;
    RetryResetsExactlyStaleClaims(st, now, staleAfter);
    RetryKeepsReceipts(st, now, staleAfter);
    WrittenFor(due, now, staleAfter);
  }

  lemma PickedOnce(a: seq<Intent>, b: seq<Intent>, items: seq<Intent>, mask: seq<bool>)
    requires Picks(a, items, mask) && Picks(b, items, mask)
    ensures a == b
  {
  }

  lemma RetryKeepsReceipts(st: GatewayState, now: int, staleAfter: int)
    ensures var st' := Retry(st, now, staleAfter);
            st'.receipts == st.receipts && st'.latestReceipt == st.latestReceipt
  {
  }

  lemma WrittenFor(due: seq<Intent>, now: int, staleAfter: int)
    requires forall k :: 0 <= k < |due| ==> due[k].status == Claimed
    ensures ResetEvents(due, now) == seq(|due|, k requires 0 <= k < |due| =>
                AuditEvent(due[k].id, Claimed, Approved, "claimed_intent_retry", At(now), "", ""))
    ensures seq(|due|, k requires 0 <= k < |due| => Reset(due[k], now))
         == seq(|due|, k requires 0 <= k < |due| => Released(due[k], now))
    ensures forall k, t :: 0 <= k < |due| && ClaimedSince(due[k], t) ==>
              ResetItems(due)[k] == RetryItem(due[k].id, At(t), due[k].retryCount + 1)
  {
  }

  // ------------------------------------------------- a claim, then the ticks

  /** The operation says nothing of the intent, and is no tick at which a claim of time `t` is due. */
  predicate Leaves(op: Op, id: string, t: int) {
    match op
    case DoEnqueue(packet) => packet.id != id
    case DoReceipt(r, _, _) => r.intentId != id
    case DoRetry(now, staleAfter) => now - t < staleAfter || now - t < 1
    case _ => true
  }

  lemma StepKeepsHeld(st: GatewayState, op: Op, x: Intent, t: int)
    requires UniqueIds(st.pending) && x in st.pending && x.status == Claimed && x.claim.claimedAt == At(t)
    requires Leaves(op, x.id, t)
    ensures var st' := Apply(st, EffectOf(st, op)); UniqueIds(st'.pending) && x in st'.pending
  {
    match op
    case DoEnqueue(packet) => EnqueueIsUpsert(st, packet); FirstOfUnique(st.pending, x);
    case DoClaim(req, now, today) => ClaimKeepsHeld(st, req, now, today, x);
    case DoReceipt(r, now, today) => ReceiptKeepsHeld(st, r, now, today, x);
    case DoRetry(now, staleAfter) =>
      RetryResetsExactlyStaleClaims(st, now, staleAfter);
      var i :| 0 <= i < |st.pending| && st.pending[i] == x;
      RetryReleasesIff(st, now, staleAfter, i, t);
    case DoPrune(today) => PruneKeeps(st.pending, today);
  }

  lemma FirstOfUnique(pending: seq<Intent>, x: Intent)
    requires UniqueIds(pending) && x in pending
    ensures FirstById(pending, x.id) == Some(x)
  {
  }

  lemma ClaimKeepsHeld(st: GatewayState, req: ClaimRequest, now: int, today: nat, x: Intent)
    requires UniqueIds(st.pending) && x in st.pending && x.status == Claimed
    ensures var st' := Apply(st, ClaimEffect(st, req, now, today).0); UniqueIds(st'.pending) && x in st'.pending
  {
    var p := Prune(st.pending, today);
    PruneKeeps(st.pending, today);
    var k := FirstIndex(p, req.id);
    if k < |p| && p[k].status == Approved {
      ClaimGrants(st, req, now, today, k);
      var i :| 0 <= i < |p| && p[i] == x;
      hide ClaimEffect, Prune, Apply;
      var y := p[k].(status := Claimed, claim := Claim(req.source, req.claimedAt));
      SetAtTouchesOne(p, k, y);
      assert p[k := y][i] == x;
    }
  }

  lemma ReceiptKeepsHeld(st: GatewayState, r: Receipt, now: int, today: nat, x: Intent)
    requires UniqueIds(st.pending) && x in st.pending && x.status == Claimed && r.intentId != x.id
    ensures var st' := Apply(st, ReceiptEffect(st, r, now, today).0); UniqueIds(st'.pending) && x in st'.pending
  {
    var p := Prune(st.pending, today);
    PruneKeeps(st.pending, today);
    var (e, reply) := ReceiptEffect(st, r, now, today);
    if reply.Stored? {
      var k := FirstIndex(p, r.intentId);
      var matched := if k < |p| then Some(p[k]) else Newest(st.history, r.intentId);
      NewestHasId(st.history, r.intentId);
      var y := e.entries[0];
      assert y.id == r.intentId && e.pending == Settle(p, k, y, r.status) && y.status == r.status;
      hide ReceiptEffect, Prune;
      SettleTouchesOne(p, k, y, r.status);
      SettleIs(p, r.intentId, y);
      FirstOfUnique(p, x);
    }
  }

  lemma {:induction false} HeldUntilDue(l: Ledger, ops: seq<Op>, x: Intent, t: int)
    requires UniqueIds(l.st.pending) && x in l.st.pending && x.status == Claimed && x.claim.claimedAt == At(t)
    requires forall k :: 0 <= k < |ops| ==> Leaves(ops[k], x.id, t)
    ensures UniqueIds(Run(l, ops).st.pending) && x in Run(l, ops).st.pending
  {
    if ops != [] {
      HeldUntilDue(l, ops[..|ops| - 1], x, t);
      StepKeepsHeld(Run(l, ops[..|ops| - 1]).st, ops[|ops| - 1], x, t);
    }
  }

  /**
   * A claim granted with the time `t` holds through any run that has no receipt for the intent, does not
   * enqueue it again, and whose ticks are not due; and the first tick that is due puts the intent back to
   * approved, free for the next claim.
   */
  lemma ClaimIsReleased(
      l: Ledger, req: ClaimRequest, claimNow: int, today: nat, k: nat, t: int, ops: seq<Op>, now: int, staleAfter: int)
    requires UniqueIds(l.st.pending) && Found(l.st, req.id, today, k)
    requires Prune(l.st.pending, today)[k].status == Approved
    requires req.claimedAt == At(t) && forall i :: 0 <= i < |ops| ==> Leaves(ops[i], req.id, t)
    ensures var x := Prune(l.st.pending, today)[k];
            var held := x.(status := Claimed, claim := Claim(req.source, At(t)));
            var before := Run(Do(l, DoClaim(req, claimNow, today)), ops);
            && held in before.st.pending
            && (if now - t >= staleAfter && now - t >= 1 then Released(held, now) else held)
                 in Do(before, DoRetry(now, staleAfter)).st.pending
  {
    var held := Prune(l.st.pending, today)[k].(status := Claimed, claim := Claim(req.source, At(t)));
    GrantIsHeld(l, req, claimNow, today, k);
    hide Prune, Do, Run, Found, UniqueIds, Released;
    HeldUntilDue(Do(l, DoClaim(req, claimNow, today)), ops, held, t);
    TickOnHeld(Run(Do(l, DoClaim(req, claimNow, today)), ops), held, t, now, staleAfter);
  }

  lemma GrantIsHeld(l: Ledger, req: ClaimRequest, now: int, today: nat, k: nat)
    requires UniqueIds(l.st.pending) && Found(l.st, req.id, today, k)
    requires Prune(l.st.pending, today)[k].status == Approved
    ensures var held := Prune(l.st.pending, today)[k].(status := Claimed, claim := Claim(req.source, req.claimedAt));
            var l' := Do(l, DoClaim(req, now, today));
            held.id == req.id && UniqueIds(l'.st.pending) && held in l'.st.pending
  {
    var p := Prune(l.st.pending, today);
    var held := p[k].(status := Claimed, claim := Claim(req.source, req.claimedAt));
    PruneKeeps(l.st.pending, today);
    ClaimGrants(l.st, req, now, today, k);
    assert Do(l, DoClaim(req, now, today)).st.pending == p[k := held];
    hide Do, Prune, UniqueIds;
    SetAtTouchesOne(p, k, held);
    assert p[k := held][k] == held;
  }

  lemma TickOnHeld(l: Ledger, held: Intent, t: int, now: int, staleAfter: int)
    requires held in l.st.pending && held.status == Claimed && held.claim.claimedAt == At(t)
    ensures (if now - t >= staleAfter && now - t >= 1 then Released(held, now) else held)
              in Do(l, DoRetry(now, staleAfter)).st.pending
  {
    var i :| 0 <= i < |l.st.pending| && l.st.pending[i] == held;
    RetryReleasesIff(l.st, now, staleAfter, i, t);
    var after := Do(l, DoRetry(now, staleAfter)).st.pending;
    assert after == Retry(l.st, now, staleAfter).pending;
    hide Do, Retry;
    assert after[i] in after;
  }
}
