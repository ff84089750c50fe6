/** The poll, claim and receipt handlers the gateway worker talks to (src/ashare_system/apps/system_api.py). */
module GatewayHandlers {
  import opened BoundedLog
  import opened ExecutionGateway
  import opened Wrappers

  // ----------------------------------------------------------------- pruning

  /** An approved, unclaimed, non-live intent of an earlier trade date. */
  predicate Prunable(item: Intent, today: nat) {
    item.status == Approved && 0 < item.tradeDate < today && !item.live && item.claim.source == ""
  }

  function Prune(pending: seq<Intent>, today: nat): seq<Intent> {
    if pending == [] then [] else
      var rest := Prune(pending[..|pending| - 1], today);
      var item := pending[|pending| - 1];
      if Prunable(item, today) then rest else rest + [item]
  }

  lemma {:induction false} PruneKeeps(pending: seq<Intent>, today: nat)
    ensures forall x :: x in Prune(pending, today) <==> x in pending && !Prunable(x, today)
    ensures UniqueIds(pending) ==> UniqueIds(Prune(pending, today))
  {
    if pending != [] {
      var front := pending[..|pending| - 1];
      PruneKeeps(front, today);
      assert pending == front + [pending[|pending| - 1]];
      assert forall i :: 0 <= i < |front| ==> front[i] == pending[i];
      var kept := Prune(front, today);
      if UniqueIds(pending) {
        forall i | 0 <= i < |kept|
          ensures kept[i].id != pending[|pending| - 1].id
        {
          assert kept[i] in kept;
        }
      }
    }
  }

  /** The positions that a mask marks, in order. */
  function Positions(mask: seq<bool>): seq<nat> {
    if mask == [] then []
    else
      var n := |mask| - 1;
      Positions(mask[..n]) + if mask[n] then [n] else []
  }

  lemma {:induction false} PositionsAre(mask: seq<bool>)
    ensures forall k: nat :: k in Positions(mask) <==> k < |mask| && mask[k]
    ensures Increasing(Positions(mask))
  {
    if mask != [] {
      var n := |mask| - 1;
      var before := Positions(mask[..n]);
      PositionsAre(mask[..n]);
      forall k: nat
        ensures k in Positions(mask) <==> k < |mask| && mask[k]
      {
        assert k < n ==> mask[..n][k] == mask[k];
        assert k in before <==> k < n && mask[k];
      }
      forall i | 0 <= i < |before|
        ensures before[i] < n
      {
        assert before[i] in before;
      }
    }
  }

  ghost predicate Increasing(s: seq<nat>) {
    forall i, j :: 0 <= i < j < |s| ==> s[i] < s[j]
  }

  /** `kept` holds what stands at the marked positions of `items`, one by one and in order. */
  ghost predicate Picks(kept: seq<Intent>, items: seq<Intent>, mask: seq<bool>) {
    && |mask| == |items| && |kept| == |Positions(mask)|
    && forall i :: 0 <= i < |kept| ==> Positions(mask)[i] < |items| && kept[i] == items[Positions(mask)[i]]
  }

  lemma PicksOneMore(kept: seq<Intent>, items: seq<Intent>, last: Intent, mask: seq<bool>, marked: bool)
    requires Picks(kept, items, mask)
    ensures Picks(if marked then kept + [last] else kept, items + [last], mask + [marked])
  {
    assert (mask + [marked])[..|mask|] == mask;
  }

  /** Which items a prune keeps. */
  function KeptMask(pending: seq<Intent>, today: nat): (mask: seq<bool>)
    ensures |mask| == |pending|
  {
    seq(|pending|, i requires 0 <= i < |pending| => !Prunable(pending[i], today))
  }

  lemma PruneOneMore(front: seq<Intent>, last: Intent, today: nat)
    ensures Prune(front + [last], today) ==
            if Prunable(last, today) then Prune(front, today) else Prune(front, today) + [last]
    ensures KeptMask(front + [last], today) == KeptMask(front, today) + [!Prunable(last, today)]
  {
    assert (front + [last])[..|front|] == front;
  }

  lemma NothingPicked()
    ensures Picks([], [], [])
  {
  }

  /** Pruning drops exactly the prunable positions; the others stay, in order. */
  lemma {:induction false} PruneKeepsOrder(pending: seq<Intent>, today: nat)
    ensures Picks(Prune(pending, today), pending, KeptMask(pending, today))
  {
    if pending == [] {
      NothingPicked();
    } else {
      var front, last := pending[..|pending| - 1], pending[|pending| - 1];
      assert pending == front + [last];
      PruneOneMore(front, last, today);
      hide *;
      PruneKeepsOrder(front, today);
      PicksOneMore(Prune(front, today), front, last, KeptMask(front, today), !Prunable(last, today));
    }
  }

  // -------------------------------------------------------------------- poll

  /** Approved, and of the account asked for, if any. */
  predicate Offerable(item: Intent, account: string) {
    item.status == Approved && (account == "" || item.account == account)
  }

  function Approvals(pending: seq<Intent>, account: string): seq<Intent> {
    if pending == [] then [] else
      var rest := Approvals(pending[..|pending| - 1], account);
      var item := pending[|pending| - 1];
      if Offerable(item, account) then rest + [item] else rest
  }

  /** The limit of a poll, kept between 1 and 100. */
  function PollLimit(limit: int): nat {
    if limit < 1 then 1 else if limit > 100 then 100 else limit
  }

  function Poll(pending: seq<Intent>, account: string, limit: int): seq<Intent> {
    var items := Approvals(pending, account);
    if |items| <= PollLimit(limit) then items else items[..PollLimit(limit)]
  }

  /** A poll offers approved intents of the account only, each once. */
  lemma {:induction false} PollOffersApproved(pending: seq<Intent>, account: string, limit: int)
    ensures forall x :: x in Poll(pending, account, limit) ==> x in pending && Offerable(x, account)
    ensures UniqueIds(pending) ==> UniqueIds(Poll(pending, account, limit))
  {
    ApprovalsAre(pending, account);
  }

  /** Which items a poll may offer. */
  function OfferMask(pending: seq<Intent>, account: string): (mask: seq<bool>)
    ensures |mask| == |pending|
  {
    seq(|pending|, i requires 0 <= i < |pending| => Offerable(pending[i], account))
  }

  /**
   * A poll offers the first offerable intents in their order: all of them, or as many as the limit
   * between 1 and 100 allows.
   */
  lemma PollOffersFirst(pending: seq<Intent>, account: string, limit: int)
    ensures var all := Approvals(pending, account);
            var offered := Poll(pending, account, limit);
            && Picks(all, pending, OfferMask(pending, account))
            && offered <= all && |offered| <= PollLimit(limit) <= 100
            && (offered != all ==> |offered| == PollLimit(limit))
  {
    ApprovalsInOrder(pending, account);
  }

  lemma ApprovalsOneMore(front: seq<Intent>, last: Intent, account: string)
    ensures Approvals(front + [last], account) ==
            if Offerable(last, account) then Approvals(front, account) + [last] else Approvals(front, account)
    ensures OfferMask(front + [last], account) == OfferMask(front, account) + [Offerable(last, account)]
  {
    assert (front + [last])[..|front|] == front;
  }

  lemma {:induction false} ApprovalsInOrder(pending: seq<Intent>, account: string)
    ensures Picks(Approvals(pending, account), pending, OfferMask(pending, account))
  {
    if pending == [] {
      NothingPicked();
    } else {
      var front, last := pending[..|pending| - 1], pending[|pending| - 1];
      assert pending == front + [last];
      ApprovalsOneMore(front, last, account);
      hide *;
      ApprovalsInOrder(front, account);
      PicksOneMore(Approvals(front, account), front, last, OfferMask(front, account), Offerable(last, account));
    }
  }

  lemma {:induction false} ApprovalsAre(pending: seq<Intent>, account: string)
    ensures forall x :: x in Approvals(pending, account) ==> x in pending && Offerable(x, account)
    ensures UniqueIds(pending) ==> UniqueIds(Approvals(pending, account))
  {
    if pending != [] {
      var front := pending[..|pending| - 1];
      ApprovalsAre(front, account);
      assert pending == front + [pending[|pending| - 1]];
      assert forall i :: 0 <= i < |front| ==> front[i] == pending[i];
      var kept := Approvals(front, account);
      hide Offerable;
      if UniqueIds(pending) {
        forall i | 0 <= i < |kept|
          ensures kept[i].id != pending[|pending| - 1].id
        {
          assert kept[i] in kept;
        }
      }
    }
  }

  // ------------------------------------------------------------------- claim

  datatype ClaimRequest = ClaimRequest(id: string, source: string, claimedAt: Stamp)

  datatype ClaimReply =
    | Granted(intent: Intent)
    | Conflict(intent: Intent)
    | InvalidStatus(intent: Intent)
    | NotFound

  function Idle(pending: seq<Intent>): Effect {
    Effect(pending, [], [], [])
  }

  /** A claimed intent is handed out again to the source that holds it, without any change. */
  function ClaimEffect(st: GatewayState, req: ClaimRequest, now: int, today: nat): (Effect, ClaimReply) {
    var pending := Prune(st.pending, today);
    var k := FirstIndex(pending, req.id);
    if k == |pending| then (Idle(pending), NotFound)
    else if pending[k].status == Claimed then
      (Idle(pending),
       if pending[k].claim.source == req.source then Granted(pending[k]) else Conflict(pending[k]))
    else if pending[k].status != Approved then (Idle(pending), InvalidStatus(pending[k]))
    else
      var held := pending[k].(claim := Claim(req.source, req.claimedAt));
      var Changed(updated, event) := Transition(held, Some(Claimed), "gateway_claimed", None, now);
      (Effect(pending[k := updated], [updated], [event], []), Granted(updated))
  }

  // ----------------------------------------------------------------- receipt

  datatype ReceiptReply =
    | Duplicate(first: Receipt)
    | Stored(receipt: Receipt)
    | UnknownIntent
    | RefusedMove(from: Status, to: Status)

  function FirstReceipt(receipts: seq<Receipt>, id: string): Option<Receipt> {
    if receipts == [] then None
    else if receipts[0].id == id then Some(receipts[0])
    else FirstReceipt(receipts[1..], id)
  }

  /** The newest entry of a history for this id. */
  function Newest(history: seq<Intent>, id: string): Option<Intent> {
    if history == [] then None
    else if history[|history| - 1].id == id then Some(history[|history| - 1])
    else Newest(history[..|history| - 1], id)
  }

  function Without<T>(s: seq<T>, k: nat): seq<T>
    requires k < |s|
  {
    s[..k] + s[k + 1..]
  }

  /**
   * A receipt moves the pending intent, or the newest history record when the intent has left the
   * pending list; a terminal status removes the intent from the list.
   */
  function ReceiptEffect(st: GatewayState, r: Receipt, now: int, today: nat): (Effect, ReceiptReply) {
    var seen := FirstReceipt(st.receipts, r.id);
    if seen.Some? then (Idle(st.pending), Duplicate(seen.value)) else
    var pending := Prune(st.pending, today);
    var k := FirstIndex(pending, r.intentId);
    var matched := if k < |pending| then Some(pending[k]) else Newest(st.history, r.intentId);
    if matched.None? then (Idle(pending), UnknownIntent) else
    match Transition(matched.value, Some(r.status), "gateway_receipt_reported", Some(r), now)
    case Refused(from, to) => (Idle(pending), RefusedMove(from, to))
    case Same(updated) => (Effect(Settle(pending, k, updated, r.status), [updated], [], [r]), Stored(r))
    case Changed(updated, event) =>
      (Effect(Settle(pending, k, updated, r.status), [updated], [event], [r]), Stored(r))
  }

  function Settle(pending: seq<Intent>, k: nat, updated: Intent, status: Status): seq<Intent>
    requires k <= |pending|
  {
    if k == |pending| then pending
    else if Terminal(status) then Without(pending, k)
    else pending[k := updated]
  }

  // ----------------------------------------------------------------- methods

  method GetPendingExecutionIntents(store: GatewayStore, today: nat) returns (kept: seq<Intent>)
    modifies store
    ensures kept == Prune(old(store.pending), today)
    ensures store.State() == old(store.State()).(pending := kept)
  {
    var items := store.pending;
    var pruned := false;
    kept := [];
    for i := 0 to |items|
      invariant kept == Prune(items[..i], today)
      invariant pruned || kept == items[..i]
      invariant store.State() == old(store.State()) && items == store.pending
    {
      assert items[..i + 1][..i] == items[..i];
      if Prunable(items[i], today) {
        pruned := true;
      } else {
        kept := kept + [items[i]];
      }
    }
    assert items[..|items|] == items;
    if pruned {
      store.pending := kept;
    }
  }

  method ClaimExecutionIntent(store: GatewayStore, req: ClaimRequest, now: int, today: nat)
    returns (reply: ClaimReply)
    modifies store
    ensures reply == ClaimEffect(old(store.State()), req, now, today).1
    ensures store.State() == Apply(old(store.State()), ClaimEffect(old(store.State()), req, now, today).0)
  {
    var pending := GetPendingExecutionIntents(store, today);
    for index := 0 to |pending|
      invariant forall i :: 0 <= i < index ==> pending[i].id != req.id
      invariant pending == Prune(old(store.pending), today)
      invariant store.State() == old(store.State()).(pending := pending)
    {
      var item := pending[index];
      if item.id == req.id {
        assert FirstIndex(pending, req.id) == index;
        if item.status == Claimed {
          return if item.claim.source == req.source then Granted(item) else Conflict(item);
        }
        if item.status != Approved {
          return InvalidStatus(item);
        }
        var moved := TransitionExecutionIntent(
          store, item.(claim := Claim(req.source, req.claimedAt)), Some(Claimed), "gateway_claimed", None, now);
        store.pending := pending[index := moved.intent];
        AppendExecutionIntentHistory(store, moved.intent);
        return Granted(moved.intent);
      }
    }
    return NotFound;
  }

  method StoreExecutionGatewayReceipt(store: GatewayStore, r: Receipt, now: int, today: nat)
    returns (reply: ReceiptReply)
    modifies store
    ensures reply == ReceiptEffect(old(store.State()), r, now, today).1
    ensures store.State() == Apply(old(store.State()), ReceiptEffect(old(store.State()), r, now, today).0)
  {
    var seen := FirstReceipt(store.receipts, r.id);
    if seen.Some? {
      return Duplicate(seen.value);
    }
    var pending := GetPendingExecutionIntents(store, today);
    var index := 0;
    while index < |pending| && pending[index].id != r.intentId
      invariant index <= |pending|
      invariant forall i :: 0 <= i < index ==> pending[i].id != r.intentId
    {
      index := index + 1;
    }
    assert FirstIndex(pending, r.intentId) == index;
    var matched := if index < |pending| then Some(pending[index]) else Newest(store.history, r.intentId);
    if matched.None? {
      return UnknownIntent;
    }
    var moved := TransitionExecutionIntent(
      store, matched.value, Some(r.status), "gateway_receipt_reported", Some(r), now);
    if moved.Refused? {
      return RefusedMove(moved.from, moved.to);
    }
    if index < |pending| {
      if Terminal(r.status) {
        pending := Without(pending, index);
      } else {
        pending := pending[index := moved.intent];
      }
      store.pending := pending;
    }
    AppendExecutionIntentHistory(store, moved.intent);
    AppendExecutionGatewayReceipt(store, r);
    return Stored(r);
  }
}
