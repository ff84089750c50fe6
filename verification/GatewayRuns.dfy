/** Runs of the gateway: any sequence of enqueues, claims, receipts, retry ticks and prunes. */
module GatewayRuns {
  import opened BoundedLog
  import opened ExecutionGateway
  import opened GatewayHandlers
  import opened Wrappers

  datatype Op =
    | DoEnqueue(packet: Packet)
    | DoClaim(req: ClaimRequest, claimNow: int, claimDay: nat)
    | DoReceipt(receipt: Receipt, receiptNow: int, receiptDay: nat)
    | DoRetry(retryNow: int, staleAfter: int)
    | DoPrune(pruneDay: nat)

  /** The stored state next to the logs nobody cut, and the status each id was enqueued with. */
  datatype Ledger = Ledger(
    st: GatewayState, history: seq<Intent>, audit: seq<AuditEvent>, receipts: seq<Receipt>, start: map<string, Status>)

  const EMPTY_LEDGER := Ledger(GatewayState([], [], [], [], None), [], [], [], map[])

  function EffectOf(st: GatewayState, op: Op): Effect {
    match op
    case DoEnqueue(packet) => EnqueueEffect(st, packet)
    case DoClaim(req, now, today) => ClaimEffect(st, req, now, today).0
    case DoReceipt(r, now, today) => ReceiptEffect(st, r, now, today).0
    case DoRetry(now, staleAfter) => RetryEffect(st, now, staleAfter)
    case DoPrune(today) => Idle(Prune(st.pending, today))
  }

  function Do(l: Ledger, op: Op): Ledger {
    var e := EffectOf(l.st, op);
    Ledger(Apply(l.st, e), l.history + e.entries, l.audit + e.events, l.receipts + e.receipts,
           if op.DoEnqueue? then l.start[op.packet.id := op.packet.status] else l.start)
  }

  function Run(l: Ledger, ops: seq<Op>): Ledger {
    if ops == [] then l else Do(Run(l, ops[..|ops| - 1]), ops[|ops| - 1])
  }

  /** No id is enqueued a second time. */
  ghost predicate NoReenqueue(l: Ledger, ops: seq<Op>) {
    forall k :: 0 <= k < |ops| && ops[k].DoEnqueue? ==> ops[k].packet.id !in Run(l, ops[..k]).start
  }

  // ---------------------------------------------------------- the audit chain

  /** A table move, or the one back edge that the stale-claim retry takes. */
  predicate LegalMove(e: AuditEvent) {
    e.next in Allowed(e.previous) || (e.previous == Claimed && e.next == Approved)
  }

  /** Follows the events of one id from status `s`; None when they do not form a chain of legal moves. */
  function Walk(log: seq<AuditEvent>, id: string, s: Status): Option<Status> {
    if log == [] then Some(s) else
      var before := Walk(log[..|log| - 1], id, s);
      var e := log[|log| - 1];
      if e.intentId != id then before
      else if before == Some(e.previous) && LegalMove(e) then Some(e.next)
      else None
  }

  function Moves(log: seq<AuditEvent>, id: string): nat {
    if log == [] then 0 else
      Moves(log[..|log| - 1], id) + if log[|log| - 1].intentId == id then 1 else 0
  }

  /** Events that put a claimed intent back to approved. */
  function Resets(log: seq<AuditEvent>, id: string): nat {
    if log == [] then 0 else
      var e := log[|log| - 1];
      Resets(log[..|log| - 1], id) + if e.intentId == id && e.next == Approved then 1 else 0
  }

  /** Events that hand an approved intent to a gateway. */
  function Claims(log: seq<AuditEvent>, id: string): nat {
    if log == [] then 0 else
      var e := log[|log| - 1];
      Claims(log[..|log| - 1], id) + if e.intentId == id && e.next == Claimed then 1 else 0
  }

  lemma {:induction false} WalkSplits(log: seq<AuditEvent>, more: seq<AuditEvent>, id: string, s: Status)
    ensures Walk(log + more, id, s) ==
            match Walk(log, id, s) { case Some(mid) => Walk(more, id, mid) case None => Walk(log + more, id, s) }
    ensures Walk(log, id, s).None? ==> Walk(log + more, id, s).None?
    ensures Resets(log + more, id) == Resets(log, id) + Resets(more, id)
    ensures Claims(log + more, id) == Claims(log, id) + Claims(more, id)
    ensures Moves(log + more, id) == Moves(log, id) + Moves(more, id)
  {
    if more == [] {
      assert log + more == log;
    } else {
      WalkSplits(log, more[..|more| - 1], id, s);
      assert (log + more)[..|log + more| - 1] == log + more[..|more| - 1];
    }
  }

  /**
   * What every chain obeys: claims outnumber resets by at most one, and by none while the intent
   * is back at approved; the number of moves is bounded by the rank climbed plus two per reset.
   */
  lemma {:induction false} ChainBounds(log: seq<AuditEvent>, id: string, s: Status)
    requires Walk(log, id, s).Some?
    ensures Claims(log, id) + (if Walk(log, id, s).value == Approved then 1 else 0)
         <= Resets(log, id) + (if s == Approved then 1 else 0)
    ensures Moves(log, id) + Rank(s) <= Rank(Walk(log, id, s).value) + 2 * Resets(log, id)
    ensures Terminal(s) ==> Moves(log, id) == 0 && Walk(log, id, s) == Some(s)
  {
    if log != [] {
      var e := log[|log| - 1];
      ChainBounds(log[..|log| - 1], id, s);
      if e.intentId == id {
        TableClimbs(e.previous);
      }
    }
  }

  // ---------------------------------------------------------------- invariant

  /** The status the uncut audit log gives an id. */
  function Current(l: Ledger, id: string): Option<Status> {
    if id in l.start then Walk(l.audit, id, l.start[id]) else None
  }

  ghost predicate Tails(l: Ledger) {
    && l.st.history == Last(l.history, HISTORY_CAP)
    && l.st.audit == Last(l.audit, AUDIT_CAP)
    && l.st.receipts == Last(l.receipts, RECEIPT_CAP)
    && l.st.latestReceipt == if l.receipts == [] then None else Some(l.receipts[|l.receipts| - 1])
  }

  /** Every enqueued id has a chain, and every event belongs to an enqueued id. */
  ghost predicate Chained(l: Ledger) {
    && (forall id :: id in l.start ==> Current(l, id).Some?)
    && (forall e :: e in l.audit ==> e.intentId in l.start)
  }

  /** Pending records carry the status of their chain and count its resets. */
  ghost predicate PendingKnown(l: Ledger) {
    forall x :: x in l.st.pending ==> Current(l, x.id) == Some(x.status) && x.retryCount == Resets(l.audit, x.id)
  }

  /** So does the newest history entry of every id. */
  ghost predicate HistoryKnown(l: Ledger) {
    forall id :: Newest(l.history, id).Some? ==> Current(l, id) == Some(Newest(l.history, id).value.status)
  }

  ghost predicate Good(l: Ledger) {
    Tails(l) && UniqueIds(l.st.pending) && Chained(l) && PendingKnown(l) && HistoryKnown(l)
  }

  // -------------------------------------------------------- one step at a time

  lemma {:induction false} NewestSplits(log: seq<Intent>, more: seq<Intent>, id: string)
    ensures Newest(log + more, id) == if Newest(more, id).Some? then Newest(more, id) else Newest(log, id)
  {
    if more == [] {
      assert log + more == log;
    } else {
      NewestSplits(log, more[..|more| - 1], id);
      assert (log + more)[..|log + more| - 1] == log + more[..|more| - 1];
    }
  }

  lemma {:induction false} NewestHasId(log: seq<Intent>, id: string)
    ensures Newest(log, id).Some? ==> Newest(log, id).value in log && Newest(log, id).value.id == id
    ensures Newest(log, id).None? ==> forall x :: x in log ==> x.id != id
  {
    if log != [] {
      NewestHasId(log[..|log| - 1], id);
      assert log == log[..|log| - 1] + [log[|log| - 1]];
    }
  }

  /** Looking in the cut history either finds nothing or finds what the uncut one holds. */
  lemma NewestInTail(log: seq<Intent>, cap: nat, id: string)
    ensures Newest(Last(log, cap), id).Some? ==> Newest(Last(log, cap), id) == Newest(log, id)
  {
    var cut := |log| - |Last(log, cap)|;
    assert log == log[..cut] + Last(log, cap);
    NewestSplits(log[..cut], Last(log, cap), id);
  }

  lemma {:induction false} NoMovesOf(log: seq<AuditEvent>, id: string, s: Status)
    requires forall e :: e in log ==> e.intentId != id
    ensures Walk(log, id, s) == Some(s) && Resets(log, id) == 0 && Claims(log, id) == 0 && Moves(log, id) == 0
  {
    if log != [] {
      NoMovesOf(log[..|log| - 1], id, s);
    }
  }

  lemma StepKeepsTails(l: Ledger, op: Op)
    requires Tails(l)
    ensures Tails(Do(l, op))
  {
    var e := EffectOf(l.st, op);
    AppendTracksFullLog(l.st.history, l.history, e.entries, HISTORY_CAP);
    AppendTracksFullLog(l.st.audit, l.audit, e.events, AUDIT_CAP);
    AppendTracksFullLog(l.st.receipts, l.receipts, e.receipts, RECEIPT_CAP);
  }

  /** The first enqueue of an id appends its record. */
  lemma FirstEnqueue(l: Ledger, packet: Packet)
    requires Good(l) && packet.id !in l.start
    ensures var l' := Do(l, DoEnqueue(packet));
            && l'.st.pending == l.st.pending + [FromPacket(packet)] && UniqueIds(l'.st.pending)
            && l'.history == l.history + [FromPacket(packet)] && l'.audit == l.audit
            && l'.start == l.start[packet.id := packet.status]
    ensures Walk(l.audit, packet.id, packet.status) == Some(packet.status) && Resets(l.audit, packet.id) == 0
  {
    EnqueueIsUpsert(l.st, packet);
    NoMovesOf(l.audit, packet.id, packet.status);
    var p := l.st.pending;
    assert forall i :: 0 <= i < |p| ==> p[i] in p;
    assert FirstIndex(p, packet.id) == |p|;
    assert l.audit + [] == l.audit;
  }

  lemma EnqueueKeepsGood(l: Ledger, packet: Packet)
    requires Good(l) && packet.id !in l.start
    ensures Good(Do(l, DoEnqueue(packet)))
  {
    var l' := Do(l, DoEnqueue(packet));
    StepKeepsTails(l, DoEnqueue(packet));
    FirstEnqueue(l, packet);
    hide Do, Tails, UniqueIds;
    EnqueueKeepsPending(l, l', packet);
    EnqueueKeepsHistory(l, l', packet);
  }

  lemma EnqueueKeepsPending(l: Ledger, l': Ledger, packet: Packet)
    requires Chained(l) && PendingKnown(l) && packet.id !in l.start
    requires l'.st.pending == l.st.pending + [FromPacket(packet)]
    requires l'.audit == l.audit && l'.start == l.start[packet.id := packet.status]
    requires Walk(l.audit, packet.id, packet.status) == Some(packet.status) && Resets(l.audit, packet.id) == 0
    ensures Chained(l') && PendingKnown(l')
  {
    hide Walk, Resets;
    forall id | id in l'.start
      ensures Current(l', id).Some?
    {
      assert id != packet.id ==> Current(l', id) == Current(l, id);
    }
    forall x | x in l'.st.pending
      ensures Current(l', x.id) == Some(x.status) && x.retryCount == Resets(l'.audit, x.id)
    {
      if x in l.st.pending { assert x.id in l.start; }
    }
  }

  lemma EnqueueKeepsHistory(l: Ledger, l': Ledger, packet: Packet)
    requires HistoryKnown(l) && packet.id !in l.start
    requires l'.history == l.history + [FromPacket(packet)]
    requires l'.audit == l.audit && l'.start == l.start[packet.id := packet.status]
    requires Walk(l.audit, packet.id, packet.status) == Some(packet.status)
    ensures HistoryKnown(l')
  {
    hide Walk, Newest;
    forall other | Newest(l'.history, other).Some?
      ensures Current(l', other) == Some(Newest(l'.history, other).value.status)
    {
      NewestAppend(l.history, FromPacket(packet), other);
    }
  }

  lemma NewestAppend(log: seq<Intent>, x: Intent, id: string)
    ensures Newest(log + [x], id) == if x.id == id then Some(x) else Newest(log, id)
  {
    assert (log + [x])[..|log|] == log;
  }

  lemma PruneKeepsGood(l: Ledger, today: nat)
    requires Good(l)
    ensures Good(Do(l, DoPrune(today)))
  {
    var l' := Do(l, DoPrune(today));
    StepKeepsTails(l, DoPrune(today));
    PruneKeeps(l.st.pending, today);
    assert l'.audit == l.audit && l'.history == l.history;
  }

  lemma OthersUnmoved(l: Ledger, l': Ledger, events: seq<AuditEvent>, other: string)
    requires other in l.start && l'.start == l.start && l'.audit == l.audit + events
    requires forall i :: 0 <= i < |events| ==> events[i].intentId != other
    ensures Current(l', other) == Current(l, other) && Resets(l'.audit, other) == Resets(l.audit, other)
  {
    WalkSplits(l.audit, events, other, l.start[other]);
    NoMovesOf(events, other, l.start[other]);
    NoMovesOf(events, other, Approved);
    if Current(l, other).Some? { NoMovesOf(events, other, Current(l, other).value); }
  }

  /** One intent moves: its record is the new history entry, and its event, if any, leaves its old status. */
  lemma MoveKeepsGood(l: Ledger, l': Ledger, id: string, moved: Intent, events: seq<AuditEvent>)
    requires Good(l) && Tails(l') && l'.start == l.start && id in l.start && moved.id == id
    requires l'.history == l.history + [moved] && l'.audit == l.audit + events
    requires events == [] ==> Current(l, id) == Some(moved.status)
    requires events != [] ==> |events| == 1 && events[0].intentId == id && LegalMove(events[0]) &&
                              Current(l, id) == Some(events[0].previous) && events[0].next == moved.status
                              && moved.status != Approved
    requires UniqueIds(l'.st.pending)
    requires forall x :: x in l'.st.pending ==>
               (x.id != id && x in l.st.pending) || (x == moved && x.retryCount == Resets(l.audit, id))
    ensures Good(l')
  {
    forall other
      ensures other != id ==> Current(l', other) == Current(l, other)
      ensures other in l.start && other != id ==> Resets(l'.audit, other) == Resets(l.audit, other)
    {
      if other in l.start && other != id { OthersUnmoved(l, l', events, other); }
    }
    WalkSplits(l.audit, events, id, l.start[id]);
    if events != [] {
      assert events[..0] == [];
      assert events == [events[0]];
    }
    assert Current(l', id) == Some(moved.status);
    assert Resets(l'.audit, id) == Resets(l.audit, id);
    forall other | Newest(l'.history, other).Some?
      ensures Current(l', other) == Some(Newest(l'.history, other).value.status)
    {
      NewestAppend(l.history, moved, other);
    }
  }

  /** What a good ledger knows of a pending record. */
  lemma PendingIsKnown(l: Ledger, x: Intent)
    requires Good(l) && x in l.st.pending
    ensures x.id in l.start && Current(l, x.id) == Some(x.status) && x.retryCount == Resets(l.audit, x.id)
  {
  }

  /** A claim that hands an approved intent out. */
  lemma FreshClaim(l: Ledger, req: ClaimRequest, now: int, today: nat) returns (moved: Intent, event: AuditEvent)
    requires var pending := Prune(l.st.pending, today); var k := FirstIndex(pending, req.id);
             k < |pending| && pending[k].status == Approved
    ensures var pending := Prune(l.st.pending, today); var k := FirstIndex(pending, req.id);
            var l' := Do(l, DoClaim(req, now, today));
            && l'.start == l.start && l'.history == l.history + [moved] && l'.audit == l.audit + [event]
            && l'.st.pending == pending[k := moved]
            && moved.id == req.id && moved.status == Claimed && moved.claim.source == req.source
            && moved.retryCount == pending[k].retryCount
            && event.intentId == req.id && event.previous == Approved && event.next == Claimed
  {
    var e := ClaimEffect(l.st, req, now, today).0;
    moved, event := e.entries[0], e.events[0];
  }

  lemma OtherClaim(l: Ledger, req: ClaimRequest, now: int, today: nat)
    requires var pending := Prune(l.st.pending, today); var k := FirstIndex(pending, req.id);
             k == |pending| || pending[k].status != Approved
    ensures Do(l, DoClaim(req, now, today)) == Do(l, DoPrune(today))
  {
    IdleOnlyPrunes(l, DoClaim(req, now, today), Prune(l.st.pending, today));
  }

  lemma ClaimKeepsGood(l: Ledger, req: ClaimRequest, now: int, today: nat)
    requires Good(l)
    ensures Good(Do(l, DoClaim(req, now, today)))
  {
    var op := DoClaim(req, now, today);
    StepKeepsTails(l, op);
    PruneKeeps(l.st.pending, today);
    PruneKeepsGood(l, today);
    var pending := Prune(l.st.pending, today);
    var k := FirstIndex(pending, req.id);
    if k < |pending| && pending[k].status == Approved {
      var moved, event := FreshClaim(l, req, now, today);
      assert pending[k] in pending;
      PendingIsKnown(l, pending[k]);
      hide Good, Tails, Current, Do, Prune;
      SetAtTouchesOne(pending, k, moved);
      MoveKeepsGood(l, Do(l, op), req.id, moved, [event]);
    } else {
      OtherClaim(l, req, now, today);
    }
  }

  lemma SetAtTouchesOne(pending: seq<Intent>, k: nat, moved: Intent)
    requires UniqueIds(pending) && k < |pending| && pending[k].id == moved.id
    ensures UniqueIds(pending[k := moved])
    ensures forall x :: x in pending[k := moved] ==> (x.id != moved.id && x in pending) || x == moved
  {
    var after := pending[k := moved];
    forall x | x in after
      ensures (x.id != moved.id && x in pending) || x == moved
    {
      var j :| 0 <= j < |after| && after[j] == x;
      if j != k { assert pending[j] == x; }
    }
  }

  /** Settling a receipt touches only the matched position. */
  lemma SettleTouchesOne(pending: seq<Intent>, k: nat, updated: Intent, status: Status)
    requires UniqueIds(pending) && k <= |pending|
    requires k < |pending| ==> pending[k].id == updated.id
    requires forall i :: 0 <= i < k ==> pending[i].id != updated.id
    ensures UniqueIds(Settle(pending, k, updated, status))
    ensures forall x :: x in Settle(pending, k, updated, status) ==>
              (x.id != updated.id && x in pending) || (x == updated && k < |pending|)
  {
    var settled := Settle(pending, k, updated, status);
    forall x | x in settled
      ensures (x.id != updated.id && x in pending) || (x == updated && k < |pending|)
    {
      var j :| 0 <= j < |settled| && settled[j] == x;
      var i := if k < |pending| && Terminal(status) && k <= j then j + 1 else j;
      assert j == k < |pending| || pending[i] == x;
    }
  }

  /** A receipt that is not stored does what a prune does, or nothing. */
  lemma UnstoredReceipt(l: Ledger, r: Receipt, now: int, today: nat)
    requires !ReceiptEffect(l.st, r, now, today).1.Stored?
    ensures Do(l, DoReceipt(r, now, today)) in {l, Do(l, DoPrune(today))}
  {
    var e := ReceiptEffect(l.st, r, now, today).0;
    IdleOnlyPrunes(l, DoReceipt(r, now, today), l.st.pending);
    IdleOnlyPrunes(l, DoReceipt(r, now, today), Prune(l.st.pending, today));
  }

  lemma IdleOnlyPrunes(l: Ledger, op: Op, pending: seq<Intent>)
    requires !op.DoEnqueue?
    ensures EffectOf(l.st, op) == Idle(pending) ==> Do(l, op) == l.(st := l.st.(pending := pending))
  {
  }

  /** What a stored receipt is matched against: the pending record, or the newest one in the history. */
  function MatchedBy(st: GatewayState, r: Receipt, today: nat): Option<Intent> {
    var pending := Prune(st.pending, today);
    var k := FirstIndex(pending, r.intentId);
    if k < |pending| then Some(pending[k]) else Newest(st.history, r.intentId)
  }

  lemma MatchedIsKnown(l: Ledger, r: Receipt, today: nat)
    requires Good(l) && MatchedBy(l.st, r, today).Some?
    ensures var m := MatchedBy(l.st, r, today).value;
            && m.id == r.intentId && m.id in l.start && Current(l, m.id) == Some(m.status)
            && (HasId(Prune(l.st.pending, today), m.id) ==> m.retryCount == Resets(l.audit, m.id))
  {
    var pending := Prune(l.st.pending, today);
    var k := FirstIndex(pending, r.intentId);
    PruneKeeps(l.st.pending, today);
    NewestInTail(l.history, HISTORY_CAP, r.intentId);
    NewestHasId(l.history, r.intentId);
    NewestHasId(l.st.history, r.intentId);
    if k < |pending| {
      assert pending[k] in pending;
      PendingIsKnown(l, pending[k]);
    }
  }

  /** A stored receipt moves the record it is matched against. */
  lemma StoredReceipt(l: Ledger, r: Receipt, now: int, today: nat) returns (moved: Intent, events: seq<AuditEvent>)
    requires MatchedBy(l.st, r, today).Some? && MatchedBy(l.st, r, today).value.id == r.intentId
    requires ReceiptEffect(l.st, r, now, today).1.Stored?
    ensures var m := MatchedBy(l.st, r, today).value;
            var pending := Prune(l.st.pending, today);
            var l' := Do(l, DoReceipt(r, now, today));
            && l'.start == l.start && l'.history == l.history + [moved] && l'.audit == l.audit + events
            && l'.st.pending == Settle(pending, FirstIndex(pending, r.intentId), moved, r.status)
            && moved.id == m.id && moved.status == r.status && moved.retryCount == m.retryCount
            && (events == [] ==> moved.status == m.status)
            && (events != [] ==>
                  && |events| == 1 && events[0].intentId == m.id && events[0].previous == m.status
                  && events[0].next == moved.status && moved.status in Allowed(m.status))
  {
    var e := ReceiptEffect(l.st, r, now, today).0;
    moved, events := e.entries[0], e.events;
  }

  lemma ReceiptKeepsGood(l: Ledger, r: Receipt, now: int, today: nat)
    requires Good(l)
    ensures Good(Do(l, DoReceipt(r, now, today)))
  {
    var op := DoReceipt(r, now, today);
    StepKeepsTails(l, op);
    PruneKeeps(l.st.pending, today);
    PruneKeepsGood(l, today);
    if !ReceiptEffect(l.st, r, now, today).1.Stored? {
      UnstoredReceipt(l, r, now, today);
    } else {
      MatchedIsKnown(l, r, today);
      var moved, events := StoredReceipt(l, r, now, today);
      var pending := Prune(l.st.pending, today);
      var m := MatchedBy(l.st, r, today).value;
      ApprovedIsNoTarget(m.status);
      SettleTouchesOne(pending, FirstIndex(pending, r.intentId), moved, r.status);
      hide Good, Tails, Current, Do, MatchedBy, Settle, Prune;
      MoveKeepsGood(l, Do(l, op), r.intentId, moved, events);
    }
  }

  lemma ApprovedIsNoTarget(from: Status)
    ensures Approved !in Allowed(from)
  {
  }

  // ---------------------------------------------------------------- retry tick

  /** In a batch of reset events each id occurs once if it is stale, and not at all otherwise. */
  lemma {:induction false} ResetEventsOf(stale: seq<Intent>, now: int, id: string, s: Status)
    requires UniqueIds(stale)
    requires forall x :: x in stale && x.id == id ==> x.status == s && s == Claimed
    ensures Walk(ResetEvents(stale, now), id, s) == Some(if HasId(stale, id) then Approved else s)
    ensures Resets(ResetEvents(stale, now), id) == if HasId(stale, id) then 1 else 0
  {
    if stale != [] {
      var front := stale[..|stale| - 1];
      var x := stale[|stale| - 1];
      ResetEventsOf(front, now, id, s);
      assert ResetEvents(stale, now)[..|stale| - 1] == ResetEvents(front, now);
      assert x in stale;
      assert HasId(stale, id) <==> HasId(front, id) || x.id == id by {
        assert forall i :: 0 <= i < |front| ==> front[i] == stale[i];
      }
    }
  }

  lemma {:induction false} StaleIdsUnique(pending: seq<Intent>, now: int, staleAfter: int)
    requires UniqueIds(pending)
    ensures UniqueIds(StaleItems(pending, now, staleAfter))
  {
    if pending != [] {
      var front := pending[..|pending| - 1];
      StaleIdsUnique(front, now, staleAfter);
      StaleItemsAre(front, now, staleAfter);
      var stale := StaleItems(front, now, staleAfter);
      forall i | 0 <= i < |stale|
        ensures stale[i].id != pending[|pending| - 1].id
      {
        assert stale[i] in front;
      }
    }
  }

  lemma {:induction false} NewestReset(items: seq<Intent>, now: int, id: string)
    ensures var resets := seq(|items|, i requires 0 <= i < |items| => Reset(items[i], now));
            && (Newest(resets, id).Some? <==> HasId(items, id))
            && (Newest(resets, id).Some? ==> Newest(resets, id).value.status == Approved)
  {
    if items != [] {
      var front := items[..|items| - 1];
      NewestReset(front, now, id);
      var resets := seq(|items|, i requires 0 <= i < |items| => Reset(items[i], now));
      assert resets[..|items| - 1] == seq(|front|, i requires 0 <= i < |front| => Reset(front[i], now));
      assert HasId(items, id) <==> HasId(front, id) || items[|items| - 1].id == id by {
        assert forall i :: 0 <= i < |front| ==> front[i] == items[i];
      }
    }
  }

  /** What a tick does to the ledger. */
  lemma RetryDoes(l: Ledger, now: int, staleAfter: int)
    ensures var l' := Do(l, DoRetry(now, staleAfter));
            var stale := StaleItems(l.st.pending, now, staleAfter);
            var pending := RefreshAll(l.st.pending, now, staleAfter);
            && l'.start == l.start && l'.st.pending == pending
            && l'.audit == l.audit + ResetEvents(stale, now)
            && l'.history == l.history + Lookups(pending, stale)
  {
  }

  /** Stale items are claimed, and the ledger knows it. */
  lemma StaleAreClaimed(l: Ledger, now: int, staleAfter: int)
    requires Good(l)
    ensures forall x :: x in StaleItems(l.st.pending, now, staleAfter) ==>
              x.status == Claimed && x.id in l.start && Current(l, x.id) == Some(Claimed)
    ensures UniqueIds(StaleItems(l.st.pending, now, staleAfter))
  {
    StaleItemsAre(l.st.pending, now, staleAfter);
    StaleIdsUnique(l.st.pending, now, staleAfter);
  }

  lemma RetryMoves(l: Ledger, now: int, staleAfter: int, id: string)
    requires Good(l)
    ensures var l' := Do(l, DoRetry(now, staleAfter));
            var hit := HasId(StaleItems(l.st.pending, now, staleAfter), id);
            && (id in l.start ==> Resets(l'.audit, id) == Resets(l.audit, id) + if hit then 1 else 0)
            && (id in l.start ==> Current(l', id) == if hit then Some(Approved) else Current(l, id))
            && (hit ==> id in l.start)
  {
    var stale := StaleItems(l.st.pending, now, staleAfter);
    RetryDoes(l, now, staleAfter);
    StaleAreClaimed(l, now, staleAfter);
    assert id in l.start ==> Current(l, id).Some?;
    hide Good, Do, StaleItems, ResetEvents;
    if HasId(stale, id) {
      var i :| 0 <= i < |stale| && stale[i].id == id;
      assert stale[i] in stale;
    }
    if id in l.start {
      WalkSplits(l.audit, ResetEvents(stale, now), id, l.start[id]);
      ResetEventsOf(stale, now, id, Current(l, id).value);
    }
  }

  /** Among pending items, the ids in the batch of stale items are those of the stale items. */
  lemma StaleIds(p: seq<Intent>, now: int, staleAfter: int, i: nat)
    requires UniqueIds(p) && i < |p|
    ensures HasId(StaleItems(p, now, staleAfter), p[i].id) <==> IsStale(p[i], now, staleAfter)
  {
    var stale := StaleItems(p, now, staleAfter);
    StaleItemsAre(p, now, staleAfter);
    if HasId(stale, p[i].id) {
      var j :| 0 <= j < |stale| && stale[j].id == p[i].id;
      assert stale[j] in stale;
      var m :| 0 <= m < |p| && p[m] == stale[j];
      assert m == i;
    }
    if IsStale(p[i], now, staleAfter) {
      assert p[i] in p;
      var j :| 0 <= j < |stale| && stale[j] == p[i];
    }
  }

  lemma RetryKeepsPending(l: Ledger, now: int, staleAfter: int)
    requires Good(l)
    ensures var l' := Do(l, DoRetry(now, staleAfter));
            && UniqueIds(l'.st.pending)
            && forall x :: x in l'.st.pending ==>
                 Current(l', x.id) == Some(x.status) && x.retryCount == Resets(l'.audit, x.id)
  {
    var l' := Do(l, DoRetry(now, staleAfter));
    var p := l.st.pending;
    assert l'.st.pending == RefreshAll(p, now, staleAfter);
    forall i, j | 0 <= i < j < |p|
      ensures l'.st.pending[i].id != l'.st.pending[j].id
    {
      assert p[i].id != p[j].id;
    }
    forall x | x in l'.st.pending
      ensures Current(l', x.id) == Some(x.status) && x.retryCount == Resets(l'.audit, x.id)
    {
      var i :| 0 <= i < |p| && l'.st.pending[i] == x;
      assert p[i] in p;
      StaleIds(p, now, staleAfter, i);
      RetryMoves(l, now, staleAfter, p[i].id);
    }
  }

  lemma RetryKeepsHistory(l: Ledger, now: int, staleAfter: int, id: string)
    requires Good(l)
    ensures var l' := Do(l, DoRetry(now, staleAfter));
            Newest(l'.history, id).Some? ==> Current(l', id) == Some(Newest(l'.history, id).value.status)
  {
    var stale := StaleItems(l.st.pending, now, staleAfter);
    var pending := RefreshAll(l.st.pending, now, staleAfter);
    assert Newest(l.history, id).Some? ==> id in l.start && Current(l, id) == Some(Newest(l.history, id).value.status);
    StaleItemsAre(l.st.pending, now, staleAfter);
    LookupsAreResets(l.st.pending, stale, now, staleAfter);
    RetryDoes(l, now, staleAfter);
    RetryMoves(l, now, staleAfter, id);
    hide Good, Do, StaleItems, Lookups, RefreshAll, Current, Newest;
    NewestSplits(l.history, Lookups(pending, stale), id);
    NewestReset(stale, now, id);
  }

  lemma RetryAuditsKnown(l: Ledger, now: int, staleAfter: int, e: AuditEvent)
    requires Good(l) && e in l.audit + ResetEvents(StaleItems(l.st.pending, now, staleAfter), now)
    ensures e.intentId in l.start
  {
    var stale := StaleItems(l.st.pending, now, staleAfter);
    if e !in l.audit {
      var j :| 0 <= j < |stale| && e == ResetEvent(stale[j], now);
      StaleAreClaimed(l, now, staleAfter);
      assert stale[j] in stale;
    }
  }

  lemma RetryKeepsGood(l: Ledger, now: int, staleAfter: int)
    requires Good(l)
    ensures Good(Do(l, DoRetry(now, staleAfter)))
  {
    var l' := Do(l, DoRetry(now, staleAfter));
    var stale := StaleItems(l.st.pending, now, staleAfter);
    StepKeepsTails(l, DoRetry(now, staleAfter));
    RetryKeepsPending(l, now, staleAfter);
    RetryDoes(l, now, staleAfter);
    hide Do, Newest, HasId;
    forall id
      ensures id in l.start ==> Current(l', id).Some?
      ensures HasId(stale, id) ==> id in l.start
      ensures Newest(l'.history, id).Some? ==> Current(l', id) == Some(Newest(l'.history, id).value.status)
    {
      RetryKeepsHistory(l, now, staleAfter, id);
      RetryMoves(l, now, staleAfter, id);
    }
    forall e | e in l'.audit
      ensures e.intentId in l'.start
    {
      RetryAuditsKnown(l, now, staleAfter, e);
    }
  }

  lemma StepKeepsGood(l: Ledger, op: Op)
    requires Good(l) && (op.DoEnqueue? ==> op.packet.id !in l.start)
    ensures Good(Do(l, op))
  {
    match op
    case DoEnqueue(packet) => EnqueueKeepsGood(l, packet);
    case DoClaim(req, now, today) => ClaimKeepsGood(l, req, now, today);
    case DoReceipt(r, now, today) => ReceiptKeepsGood(l, r, now, today);
    case DoRetry(now, staleAfter) => RetryKeepsGood(l, now, staleAfter);
    case DoPrune(today) => PruneKeepsGood(l, today);
  }

  // -------------------------------------------------------------- whole runs

  lemma {:induction false} RunsStayGood(ops: seq<Op>)
    requires NoReenqueue(EMPTY_LEDGER, ops)
    ensures Good(Run(EMPTY_LEDGER, ops))
  {
    if ops != [] {
      var front := ops[..|ops| - 1];
      EarlierRunsToo(EMPTY_LEDGER, ops);
      RunsStayGood(front);
      StepKeepsGood(Run(EMPTY_LEDGER, front), ops[|ops| - 1]);
    }
  }

  /**
   * In every run the uncut audit log of each id is one chain of legal moves from the status it was
   * enqueued with to the status it is stored with; claims exceed resets by at most one; moves are
   * bounded by four plus two per reset; a pending record counts its own resets; and the stored
   * trail is the last 1000 events of the uncut log.
   */
  lemma AuditTrailIsAChain(ops: seq<Op>, id: string)
    requires NoReenqueue(EMPTY_LEDGER, ops)
    ensures var l := Run(EMPTY_LEDGER, ops);
            && l.st.audit == Last(l.audit, AUDIT_CAP)
            && (Moves(l.audit, id) > 0 ==> id in l.start)
            && (id in l.start ==>
                  && Walk(l.audit, id, l.start[id]).Some?
                  && Claims(l.audit, id) <= Resets(l.audit, id) + 1
                  && Moves(l.audit, id) <= 4 + 2 * Resets(l.audit, id))
            && (forall x :: x in l.st.pending && x.id == id ==>
                  id in l.start && Walk(l.audit, id, l.start[id]) == Some(x.status)
                  && x.retryCount == Resets(l.audit, id))
  {
    var l := Run(EMPTY_LEDGER, ops);
    RunsStayGood(ops);
    if id in l.start {
      ChainBounds(l.audit, id, l.start[id]);
      TableClimbs(Walk(l.audit, id, l.start[id]).value);
    } else {
      NoMovesOf(l.audit, id, Approved);
    }
  }

  lemma {:induction false} RunSplits(l: Ledger, ops: seq<Op>, more: seq<Op>)
    ensures Run(l, ops + more) == Run(Run(l, ops), more)
    ensures Run(l, ops).audit <= Run(l, ops + more).audit
    ensures forall id :: id in Run(l, ops).start ==> id in Run(l, ops + more).start
  {
    if more == [] {
      assert ops + more == ops;
    } else {
      var front, last := more[..|more| - 1], more[|more| - 1];
      RunSplits(l, ops, front);
      assert (ops + more)[..|ops + more| - 1] == ops + front && (ops + more)[|ops + more| - 1] == last;
      RunLast(l, ops + more);
      RunLast(Run(l, ops), more);
      DoOnlyAdds(Run(l, ops + front), last);
      hide Do, Run;
    }
  }

  lemma DoOnlyAdds(l: Ledger, op: Op)
    ensures l.audit <= Do(l, op).audit
    ensures forall id :: id in l.start ==> id in Do(l, op).start
  {
  }

  /** Without re-enqueue the status an id was enqueued with never changes. */
  lemma {:induction false} StartIsKept(l: Ledger, ops: seq<Op>, n: nat, id: string)
    requires n <= |ops| && NoReenqueue(l, ops) && id in Run(l, ops[..n]).start
    ensures id in Run(l, ops).start && Run(l, ops).start[id] == Run(l, ops[..n]).start[id]
    decreases |ops|
  {
    if n == |ops| {
      assert ops[..n] == ops;
    } else {
      var front := ops[..|ops| - 1];
      assert front[..n] == ops[..n];
      EarlierRunsToo(l, ops);
      RunLast(l, ops);
      hide NoReenqueue, Do, Run;
      StartIsKept(l, front, n, id);
      StartIsKeptOnce(Run(l, front), ops[|ops| - 1], id);
    }
  }

  lemma RunLast(l: Ledger, ops: seq<Op>)
    requires ops != []
    ensures Run(l, ops) == Do(Run(l, ops[..|ops| - 1]), ops[|ops| - 1])
  {
  }

  lemma StartIsKeptOnce(l: Ledger, op: Op, id: string)
    ensures id in l.start && (op.DoEnqueue? ==> op.packet.id !in l.start) ==>
              id in Do(l, op).start && Do(l, op).start[id] == l.start[id]
  {
  }

  lemma EarlierRunsToo(l: Ledger, ops: seq<Op>)
    requires ops != [] && NoReenqueue(l, ops)
    ensures NoReenqueue(l, ops[..|ops| - 1])
    ensures ops[|ops| - 1].DoEnqueue? ==> ops[|ops| - 1].packet.id !in Run(l, ops[..|ops| - 1]).start
  {
    var front := ops[..|ops| - 1];
    forall k | 0 <= k < |front| && front[k].DoEnqueue?
      ensures front[k].packet.id !in Run(l, front[..k]).start
    {
      assert front[..k] == ops[..k] && front[k] == ops[k];
    }
  }

  /**
   * A terminal status is final: whatever late receipts, claims, ticks and prunes follow, no further
   * audit event of that intent is ever written and its status stays.
   */
  lemma TerminalIsAbsorbing(ops: seq<Op>, more: seq<Op>, id: string)
    requires NoReenqueue(EMPTY_LEDGER, ops + more)
    requires Current(Run(EMPTY_LEDGER, ops), id).Some? && Terminal(Current(Run(EMPTY_LEDGER, ops), id).value)
    ensures Current(Run(EMPTY_LEDGER, ops + more), id) == Current(Run(EMPTY_LEDGER, ops), id)
    ensures Moves(Run(EMPTY_LEDGER, ops + more).audit, id) == Moves(Run(EMPTY_LEDGER, ops).audit, id)
  {
    var l, l' := Run(EMPTY_LEDGER, ops), Run(EMPTY_LEDGER, ops + more);
    RunsStayGood(ops + more);
    RunSplits(EMPTY_LEDGER, ops, more);
    assert (ops + more)[..|ops|] == ops;
    StartIsKept(EMPTY_LEDGER, ops + more, |ops|, id);
    assert Current(l', id).Some?;
    assert l.audit <= l'.audit;
    hide Run, Good, NoReenqueue;
    var events := l'.audit[|l.audit|..];
    assert l'.audit == l.audit + events;
    var t := Current(l, id).value;
    WalkSplits(l.audit, events, id, l.start[id]);
    ChainBounds(events, id, t);
  }

  /** A claim or receipt that is turned down writes nothing; it only prunes outdated approvals. */
  lemma TurnedDownWritesNothing(st: GatewayState, req: ClaimRequest, r: Receipt, now: int, today: nat)
    ensures var (e, reply) := ClaimEffect(st, req, now, today);
            !reply.Granted? ==> Apply(st, e) == st.(pending := Prune(st.pending, today))
    ensures var (e, reply) := ReceiptEffect(st, r, now, today);
            !reply.Stored? ==> Apply(st, e) in {st, st.(pending := Prune(st.pending, today))}
  {
  }

  /**
   * Enqueueing a finished id again reopens it: after the enqueue its pending record carries the
   * packet's status and an empty claim history, whatever happened before.
   */
  lemma ReenqueueReopens(l: Ledger, packet: Packet)
    requires UniqueIds(l.st.pending)
    ensures FirstById(Do(l, DoEnqueue(packet)).st.pending, packet.id) == Some(FromPacket(packet))
    ensures Do(l, DoEnqueue(packet)).audit == l.audit
  {
    EnqueueIsUpsert(l.st, packet);
    assert l.audit + [] == l.audit;
  }
}
