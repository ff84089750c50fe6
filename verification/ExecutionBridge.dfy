/**
 * The whole bridge: the gateway store and any number of gateway workers that poll, claim, submit to
 * the broker and report back, interleaved with enqueues, retry ticks and prunes. Any message may be
 * lost and any worker may crash and restart at any point.
 */
module ExecutionBridge {
  import opened ExecutionGateway
  import opened GatewayHandlers
  import opened GatewayRuns
  import opened Wrappers

  /** Where a worker stands inside `process_intent`. */
  datatype Phase = Resting | Holding(id: string) | Reporting(receipt: Receipt)

  /** The polled ids a worker still has to process, and what it is doing now. */
  datatype Worker = Worker(inbox: seq<string>, phase: Phase)

  const RESTARTED := Worker([], Resting)

  /** Worker number to the gateway source id it is configured with. */
  type Fleet = map<int, string>

  /** `grants` counts the claim calls answered with "claimed", `submits` the calls of the broker submitter. */
  datatype Bridge = Bridge(
    ledger: Ledger, workers: map<int, Worker>, grants: multiset<string>, submits: multiset<string>)

  datatype Step =
    | Control(op: Op)
    | PollStep(w: int, account: string, limit: int, today: nat)
    | ClaimStep(w: int, claimedAt: Stamp, now: int, today: nat, answered: bool)
    | SubmitStep(w: int, receipt: Receipt)
    | ReportStep(w: int, now: int, today: nat, arrived: bool)
    | CrashStep(w: int)

  function Start(fleet: Fleet): Bridge {
    Bridge(EMPTY_LEDGER, map w | w in fleet :: RESTARTED, multiset{}, multiset{})
  }

  function Ids(items: seq<Intent>): (ids: seq<string>)
    ensures |ids| == |items| && forall i :: 0 <= i < |ids| ==> ids[i] == items[i].id
  {
    seq(|items|, i requires 0 <= i < |items| => items[i].id)
  }

  /** The statuses a worker may report. */
  predicate Reportable(s: Status) {
    s in {Submitted, PartialFilled, Filled, Canceled, Rejected, Failed}
  }

  predicate Enabled(fleet: Fleet, b: Bridge, step: Step) {
    match step
    case Control(op) => op.DoRetry? || op.DoPrune? || (op.DoEnqueue? && op.packet.id !in b.ledger.start)
    case PollStep(w, _, _, _) => w in b.workers && b.workers[w] == RESTARTED
    case ClaimStep(w, _, _, _, _) =>
      w in b.workers && w in fleet && b.workers[w].phase.Resting? && b.workers[w].inbox != []
    case SubmitStep(w, r) => w in b.workers && b.workers[w].phase == Holding(r.intentId) && Reportable(r.status)
    case ReportStep(w, _, _, _) => w in b.workers && b.workers[w].phase.Reporting?
    case CrashStep(w) => w in b.workers
  }

  /** The store operation a step performs, if any. */
  function StoreOp(fleet: Fleet, b: Bridge, step: Step): Option<Op>
    requires Enabled(fleet, b, step)
  {
    match step
    case Control(op) => Some(op)
    case PollStep(_, _, _, today) => Some(DoPrune(today))
    case ClaimStep(w, claimedAt, now, today, _) =>
      Some(DoClaim(ClaimRequest(b.workers[w].inbox[0], fleet[w], claimedAt), now, today))
    case ReportStep(w, now, today, arrived) =>
      if arrived then Some(DoReceipt(b.workers[w].phase.receipt, now, today)) else None
    case _ => None
  }

  function ClaimAnswer(fleet: Fleet, b: Bridge, step: Step): ClaimReply
    requires Enabled(fleet, b, step) && step.ClaimStep?
  {
    var request := ClaimRequest(b.workers[step.w].inbox[0], fleet[step.w], step.claimedAt);
    ClaimEffect(b.ledger.st, request, step.now, step.today).1
  }

  /** A lost answer raises inside the worker, which abandons the rest of its batch. */
  function WorkerAfter(fleet: Fleet, b: Bridge, step: Step): Worker
    requires Enabled(fleet, b, step) && !step.Control?
  {
    var me := b.workers[step.w];
    match step
    case PollStep(_, account, limit, today) =>
      Worker(Ids(Poll(Prune(b.ledger.st.pending, today), account, limit)), Resting)
    case ClaimStep(_, _, _, _, answered) =>
      if !answered then RESTARTED
      else Worker(me.inbox[1..], if ClaimAnswer(fleet, b, step).Granted? then Holding(me.inbox[0]) else Resting)
    case SubmitStep(_, receipt) => Worker(me.inbox, Reporting(receipt))
    case ReportStep(_, _, _, _) => Worker(me.inbox, Resting)
    case CrashStep(_) => RESTARTED
  }

  function Next(fleet: Fleet, b: Bridge, step: Step): Bridge
    requires Enabled(fleet, b, step)
  {
    var op := StoreOp(fleet, b, step);
    Bridge(
      if op.Some? then Do(b.ledger, op.value) else b.ledger,
      if step.Control? then b.workers else b.workers[step.w := WorkerAfter(fleet, b, step)],
      if step.ClaimStep? && ClaimAnswer(fleet, b, step).Granted?
      then b.grants + multiset{b.workers[step.w].inbox[0]} else b.grants,
      if step.SubmitStep? then b.submits + multiset{step.receipt.intentId} else b.submits)
  }

  predicate Legal(fleet: Fleet, b: Bridge, steps: seq<Step>)
    decreases |steps|, 0
  {
    steps == [] ||
    (Legal(fleet, b, steps[..|steps| - 1]) &&
     Enabled(fleet, After(fleet, b, steps[..|steps| - 1]), steps[|steps| - 1]))
  }

  function After(fleet: Fleet, b: Bridge, steps: seq<Step>): Bridge
    requires Legal(fleet, b, steps)
    decreases |steps|, 1
  {
    if steps == [] then b
    else Next(fleet, After(fleet, b, steps[..|steps| - 1]), steps[|steps| - 1])
  }

  // --------------------------------------------------------------- invariant

  ghost predicate DistinctSources(fleet: Fleet) {
    forall v, w :: v in fleet && w in fleet && v != w ==> fleet[v] != fleet[w]
  }

  predicate HeldBy(x: Intent, source: string) {
    x.status == Claimed && x.claim.source == source
  }

  /** No polled id a worker has not yet processed is already claimed in that worker's own name. */
  ghost predicate CleanInbox(l: Ledger, inbox: seq<string>, source: string) {
    && (forall i, j :: 0 <= i < j < |inbox| ==> inbox[i] != inbox[j])
    && (forall i :: 0 <= i < |inbox| ==> inbox[i] in l.start)
    && (forall x :: x in l.st.pending && x.id in inbox ==> !HeldBy(x, source))
  }

  ghost function Holders(workers: map<int, Worker>, id: string): set<int> {
    set w | w in workers && workers[w].phase == Holding(id)
  }

  ghost predicate Accounted(b: Bridge) {
    forall id :: b.submits[id] + |Holders(b.workers, id)| <= b.grants[id]
  }

  ghost predicate Safe(fleet: Fleet, b: Bridge) {
    && Good(b.ledger)
    && b.workers.Keys == fleet.Keys
    && (forall w :: w in fleet ==> CleanInbox(b.ledger, b.workers[w].inbox, fleet[w]))
    && (forall w :: w in fleet && b.workers[w].phase.Reporting? ==> Reportable(b.workers[w].phase.receipt.status))
    && (forall id :: b.grants[id] <= Claims(b.ledger.audit, id))
    && Accounted(b)
  }

  // ------------------------------------------------------------ preservation

  lemma HoldersChange(workers: map<int, Worker>, w: int, me: Worker, id: string)
    requires w in workers
    ensures |Holders(workers[w := me], id)| - (if me.phase == Holding(id) then 1 else 0)
         == |Holders(workers, id)| - (if workers[w].phase == Holding(id) then 1 else 0)
  {
    var rest := Holders(workers, id) - {w};
    assert Holders(workers, id) == if workers[w].phase == Holding(id) then rest + {w} else rest;
    assert Holders(workers[w := me], id) == if me.phase == Holding(id) then rest + {w} else rest;
  }

  /** Every legal step counts at most one more grant or submit, in step with the worker's phase. */
  lemma StepKeepsAccounts(fleet: Fleet, b: Bridge, step: Step)
    requires Accounted(b) && Enabled(fleet, b, step)
    ensures Accounted(Next(fleet, b, step))
  {
    var b' := Next(fleet, b, step);
    if !step.Control? {
      forall id
        ensures b'.submits[id] + |Holders(b'.workers, id)| <= b'.grants[id]
      {
        assert b.submits[id] + |Holders(b.workers, id)| <= b.grants[id];
        HoldersChange(b.workers, step.w, WorkerAfter(fleet, b, step), id);
        hide Holders, ClaimEffect, Do, Poll, StoreOp;
      }
    }
  }

  /** Someone of this source already holds the intent. */
  ghost predicate AlreadyHeld(pending: seq<Intent>, id: string, source: string) {
    exists y :: y in pending && y.id == id && HeldBy(y, source)
  }

  /** Apart from a claim by the source itself, no store operation puts an intent in a source's name. */
  lemma NobodyElseClaims(l: Ledger, op: Op, x: Intent, source: string)
    requires Good(l) && x in Do(l, op).st.pending && HeldBy(x, source)
    requires op.DoReceipt? ==> Reportable(op.receipt.status)
    ensures AlreadyHeld(l.st.pending, x.id, source)
         || (op.DoClaim? && op.req.id == x.id && op.req.source == source)
         || (op.DoEnqueue? && op.packet.id == x.id)
  {
    var p := l.st.pending;
    match op {
      case DoEnqueue(packet) =>
        assert Do(l, op).st.pending == Upsert(p, FromPacket(packet));
        assert x == FromPacket(packet) || x in p;
      case DoPrune(today) =>
        PruneKeeps(p, today);
        assert x in p;
      case DoRetry(now, staleAfter) =>
        RetryDoes(l, now, staleAfter);
        var i :| 0 <= i < |p| && RefreshAll(p, now, staleAfter)[i] == x;
        assert p[i] in p && p[i] == x;
      case DoClaim(req, now, today) =>
        ClaimedByCaller(l, req, now, today, x, source);
      case DoReceipt(r, now, today) =>
        NotClaimedByReceipt(l, r, now, today, x, source);
    }
  }

  lemma ClaimedByCaller(l: Ledger, req: ClaimRequest, now: int, today: nat, x: Intent, source: string)
    requires Good(l) && x in Do(l, DoClaim(req, now, today)).st.pending && HeldBy(x, source)
    ensures AlreadyHeld(l.st.pending, x.id, source) || (req.id == x.id && req.source == source)
  {
    PruneKeeps(l.st.pending, today);
    var pruned := Prune(l.st.pending, today);
    var k := FirstIndex(pruned, req.id);
    if k < |pruned| && pruned[k].status == Approved {
      var moved, event := FreshClaim(l, req, now, today);
      SetAtTouchesOne(pruned, k, moved);
      hide Do, Prune, Good;
      assert x == moved || x in pruned;
    } else {
      OtherClaim(l, req, now, today);
      assert x in pruned;
    }
  }

  lemma NotClaimedByReceipt(l: Ledger, r: Receipt, now: int, today: nat, x: Intent, source: string)
    requires Good(l) && x in Do(l, DoReceipt(r, now, today)).st.pending && HeldBy(x, source)
    requires Reportable(r.status)
    ensures AlreadyHeld(l.st.pending, x.id, source)
  {
    PruneKeeps(l.st.pending, today);
    var pruned := Prune(l.st.pending, today);
    if !ReceiptEffect(l.st, r, now, today).1.Stored? {
      UnstoredReceipt(l, r, now, today);
      assert x in l.st.pending;
    } else {
      MatchedIsKnown(l, r, today);
      var moved, events := StoredReceipt(l, r, now, today);
      SettleTouchesOne(pruned, FirstIndex(pruned, r.intentId), moved, r.status);
      hide Do, Prune, Good, Settle;
      assert x in pruned;
    }
  }

  /** A claim answered with "claimed" for an intent not yet in the caller's name is a new audit event. */
  lemma GrantIsNewClaim(l: Ledger, req: ClaimRequest, now: int, today: nat)
    requires Good(l) && ClaimEffect(l.st, req, now, today).1.Granted?
    requires forall x :: x in l.st.pending && x.id == req.id ==> !HeldBy(x, req.source)
    ensures Claims(Do(l, DoClaim(req, now, today)).audit, req.id) == Claims(l.audit, req.id) + 1
  {
    var pending := Prune(l.st.pending, today);
    PruneKeeps(l.st.pending, today);
    var k := FirstIndex(pending, req.id);
    assert pending[k] in pending;
    var events := EffectOf(l.st, DoClaim(req, now, today)).events;
    assert |events| == 1 && events[0].intentId == req.id && events[0].next == Claimed;
    WalkSplits(l.audit, events, req.id, Approved);
    assert events[..0] == [];
  }

  lemma LedgerOnlyGrows(l: Ledger, op: Op, id: string)
    ensures Claims(l.audit, id) <= Claims(Do(l, op).audit, id)
    ensures id in l.start ==> id in Do(l, op).start
  {
    WalkSplits(l.audit, EffectOf(l.st, op).events, id, Approved);
  }

  /** An inbox stays clean under every store operation except a claim of one of its ids in its own name. */
  lemma InboxStaysClean(l: Ledger, op: Op, inbox: seq<string>, source: string)
    requires Good(l) && CleanInbox(l, inbox, source)
    requires op.DoReceipt? ==> Reportable(op.receipt.status)
    requires op.DoEnqueue? ==> op.packet.id !in l.start
    requires op.DoClaim? ==> op.req.source != source || op.req.id !in inbox
    ensures CleanInbox(Do(l, op), inbox, source)
  {
    forall x | x in Do(l, op).st.pending && x.id in inbox
      ensures !HeldBy(x, source)
    {
      if HeldBy(x, source) {
        NobodyElseClaims(l, op, x, source);
      }
    }
    forall i | 0 <= i < |inbox| { LedgerOnlyGrows(l, op, inbox[i]); }
  }

  /** What a poll hands out is clean for whoever asked. */
  lemma PolledInboxIsClean(l: Ledger, account: string, limit: int, today: nat, source: string)
    requires Good(l)
    ensures CleanInbox(Do(l, DoPrune(today)), Ids(Poll(Prune(l.st.pending, today), account, limit)), source)
  {
    var pruned := Prune(l.st.pending, today);
    var items := Poll(pruned, account, limit);
    var l' := Do(l, DoPrune(today));
    PruneKeeps(l.st.pending, today);
    PruneDoes(l, today);
    hide Do, Prune, Poll;
    PollOffersApproved(pruned, account, limit);
    PolledAreApproved(pruned, account, limit);
    hide Good, UniqueIds;
    forall i | 0 <= i < |items|
      ensures items[i].id in l'.start
    {
      assert items[i] in items;
      PendingIsKnown(l, items[i]);
    }
    assert forall x :: x in pruned && x.status == Approved ==> !HeldBy(x, source);
  }

  lemma PruneDoes(l: Ledger, today: nat)
    ensures var l' := Do(l, DoPrune(today)); l'.st.pending == Prune(l.st.pending, today) && l'.start == l.start
  {
  }

  /** With unique ids, whatever carries a polled id is approved. */
  lemma PolledAreApproved(pending: seq<Intent>, account: string, limit: int)
    requires UniqueIds(pending)
    ensures forall x :: x in pending && x.id in Ids(Poll(pending, account, limit)) ==> x.status == Approved
  {
    var items := Poll(pending, account, limit);
    PollOffersApproved(pending, account, limit);
    hide Poll;
    forall x | x in pending && x.id in Ids(items)
      ensures x.status == Approved
    {
      var i :| 0 <= i < |items| && items[i].id == x.id;
      assert items[i] in items;
      var j :| 0 <= j < |pending| && pending[j] == items[i];
      var m :| 0 <= m < |pending| && pending[m] == x;
    }
  }

  lemma StepKeepsInboxes(fleet: Fleet, b: Bridge, step: Step, w: int)
    requires DistinctSources(fleet) && Safe(fleet, b) && Enabled(fleet, b, step) && w in fleet
    ensures CleanInbox(Next(fleet, b, step).ledger, Next(fleet, b, step).workers[w].inbox, fleet[w])
  {
    var inbox := b.workers[w].inbox;
    var inbox' := Next(fleet, b, step).workers[w].inbox;
    var op := StoreOp(fleet, b, step);
    if !step.Control? && step.w == w && step.PollStep? {
      PolledInboxIsClean(b.ledger, step.account, step.limit, step.today, fleet[w]);
    } else {
      if !step.Control? && step.w == w && step.ClaimStep? {
        assert forall id :: id in inbox' ==> id in inbox;
      } else {
        assert inbox' == inbox || inbox' == [];
      }
      if op.Some? {
        InboxStaysClean(b.ledger, op.value, inbox', fleet[w]);
      }
    }
  }

  lemma StepKeepsGrants(fleet: Fleet, b: Bridge, step: Step, id: string)
    requires Safe(fleet, b) && Enabled(fleet, b, step)
    ensures Next(fleet, b, step).grants[id] <= Claims(Next(fleet, b, step).ledger.audit, id)
  {
    var op := StoreOp(fleet, b, step);
    assert b.grants[id] <= Claims(b.ledger.audit, id);
    if op.Some? { LedgerOnlyGrows(b.ledger, op.value, id); }
    if step.ClaimStep? && ClaimAnswer(fleet, b, step).Granted? && id == b.workers[step.w].inbox[0] {
      assert CleanInbox(b.ledger, b.workers[step.w].inbox, fleet[step.w]);
      assert id in b.workers[step.w].inbox;
      GrantIsNewClaim(b.ledger, op.value.req, step.now, step.today);
    }
  }

  lemma StepKeepsLedgerGood(fleet: Fleet, b: Bridge, step: Step)
    requires Safe(fleet, b) && Enabled(fleet, b, step)
    ensures Good(Next(fleet, b, step).ledger)
  {
    var op := StoreOp(fleet, b, step);
    if op.Some? {
      StepKeepsGood(b.ledger, op.value);
    }
  }

  lemma StepKeepsWorkers(fleet: Fleet, b: Bridge, step: Step)
    requires Safe(fleet, b) && Enabled(fleet, b, step)
    ensures var workers := Next(fleet, b, step).workers;
            && workers.Keys == fleet.Keys
            && forall w :: w in fleet && workers[w].phase.Reporting? ==> Reportable(workers[w].phase.receipt.status)
  {
  }

  lemma StepStaysSafe(fleet: Fleet, b: Bridge, step: Step)
    requires DistinctSources(fleet) && Safe(fleet, b) && Enabled(fleet, b, step)
    ensures Safe(fleet, Next(fleet, b, step))
  {
    StepKeepsAccounts(fleet, b, step);
    StepKeepsLedgerGood(fleet, b, step);
    StepKeepsWorkers(fleet, b, step);
    hide Next, Enabled, Good, CleanInbox, Accounted;
    forall w | w in fleet { StepKeepsInboxes(fleet, b, step, w); }
    forall id { StepKeepsGrants(fleet, b, step, id); }
  }

  lemma StartIsSafe(fleet: Fleet)
    ensures Safe(fleet, Start(fleet))
  {
    assert forall id :: Holders(Start(fleet).workers, id) == {};
  }

  lemma {:induction false} RunsStaySafe(fleet: Fleet, steps: seq<Step>)
    requires DistinctSources(fleet) && Legal(fleet, Start(fleet), steps)
    ensures Safe(fleet, After(fleet, Start(fleet), steps))
  {
    if steps == [] {
      StartIsSafe(fleet);
    } else {
      var front := steps[..|steps| - 1];
      RunsStaySafe(fleet, front);
      StepStaysSafe(fleet, After(fleet, Start(fleet), front), steps[|steps| - 1]);
    }
  }

  // ------------------------------------------------------------ main results

  /**
   * Over every interleaving, broker submissions of an intent never exceed the granted claims, and
   * with distinct source ids the granted claims never exceed its stale-claim resets plus one.
   */
  lemma SubmissionsAreBounded(fleet: Fleet, steps: seq<Step>, id: string)
    requires DistinctSources(fleet) && Legal(fleet, Start(fleet), steps)
    ensures var b := After(fleet, Start(fleet), steps);
            && b.submits[id] <= b.grants[id] <= Resets(b.ledger.audit, id) + 1
            && (Resets(b.ledger.audit, id) == 0 ==> b.submits[id] <= 1)
            && (forall x :: x in b.ledger.st.pending && x.id == id ==> b.submits[id] <= x.retryCount + 1)
  {
    RunsStaySafe(fleet, steps);
    var b := After(fleet, Start(fleet), steps);
    assert b.submits[id] + |Holders(b.workers, id)| <= b.grants[id];
    if id in b.ledger.start {
      ChainBounds(b.ledger.audit, id, b.ledger.start[id]);
    } else {
      NoMovesOf(b.ledger.audit, id, Approved);
    }
  }

  /** Submissions stay within granted claims even when workers share a source id. */
  lemma {:induction false} SubmissionsNeedGrants(fleet: Fleet, steps: seq<Step>, id: string)
    requires Legal(fleet, Start(fleet), steps)
    ensures After(fleet, Start(fleet), steps).submits[id] <= After(fleet, Start(fleet), steps).grants[id]
  {
    AccountsHold(fleet, steps);
    var b := After(fleet, Start(fleet), steps);
    assert b.submits[id] + |Holders(b.workers, id)| <= b.grants[id];
  }

  lemma {:induction false} AccountsHold(fleet: Fleet, steps: seq<Step>)
    requires Legal(fleet, Start(fleet), steps)
    ensures Accounted(After(fleet, Start(fleet), steps))
  {
    if steps == [] {
      StartIsSafe(fleet);
    } else {
      AccountsHold(fleet, steps[..|steps| - 1]);
      StepKeepsAccounts(fleet, After(fleet, Start(fleet), steps[..|steps| - 1]), steps[|steps| - 1]);
    }
  }

  /** At most one submission per release of the intent, in every run of this fleet. */
  ghost predicate OncePerRelease(fleet: Fleet) {
    forall steps, id :: Legal(fleet, Start(fleet), steps) ==>
      var b := After(fleet, Start(fleet), steps);
      b.submits[id] <= Resets(b.ledger.audit, id) + 1
  }

  // -------------------------------------------- two workers under one source

  const TWIN_PACKET := Packet("i", Approved, NO_CLAIM, 0, false, "", "")
  const TWIN_RECEIPT := Receipt("r", "i", "", Submitted, Blank, Blank, "")

  /** Both twins poll, then both claim, then both submit. */
  function TwinRun(v: int, w: int): seq<Step> {
    [Control(DoEnqueue(TWIN_PACKET)),
     PollStep(v, "", 20, 0), PollStep(w, "", 20, 0),
     ClaimStep(v, Blank, 0, 0, true), ClaimStep(w, Blank, 0, 0, true),
     SubmitStep(v, TWIN_RECEIPT), SubmitStep(w, TWIN_RECEIPT)]
  }

  lemma OnePending(x: Intent)
    requires x.tradeDate == 0
    ensures Prune([x], 0) == [x]
    ensures x.status == Approved ==> Ids(Poll([x], "", 20)) == [x.id]
    ensures FirstIndex([x], x.id) == 0
  {
    assert [x][..0] == [];
    assert Prune([x][..0], 0) == [] && Approvals([x][..0], "") == [];
  }

  lemma Extend(fleet: Fleet, b: Bridge, steps: seq<Step>, step: Step)
    requires Legal(fleet, b, steps) && Enabled(fleet, After(fleet, b, steps), step)
    ensures Legal(fleet, b, steps + [step])
    ensures After(fleet, b, steps + [step]) == Next(fleet, After(fleet, b, steps), step)
  {
    assert (steps + [step])[..|steps + [step]| - 1] == steps;
  }

  /** Twin run, first stage: the packet is pending and approved; `polled` workers have it in their inbox. */
  ghost predicate Polled(fleet: Fleet, b: Bridge, polled: set<int>) {
    && b.ledger.st.pending == [FromPacket(TWIN_PACKET)] && b.ledger.audit == [] && b.submits == multiset{}
    && b.workers.Keys == fleet.Keys
    && forall w :: w in fleet ==> b.workers[w] == if w in polled then Worker(["i"], Resting) else RESTARTED
  }

  lemma TwinEnqueues(fleet: Fleet)
    ensures Polled(fleet, Next(fleet, Start(fleet), Control(DoEnqueue(TWIN_PACKET))), {})
  {
  }

  lemma TwinPolls(fleet: Fleet, steps: seq<Step>, polled: set<int>, w: int)
    requires Legal(fleet, Start(fleet), steps) && Polled(fleet, After(fleet, Start(fleet), steps), polled)
    requires w in fleet && w !in polled
    ensures Legal(fleet, Start(fleet), steps + [PollStep(w, "", 20, 0)])
    ensures Polled(fleet, After(fleet, Start(fleet), steps + [PollStep(w, "", 20, 0)]), polled + {w})
  {
    var b := After(fleet, Start(fleet), steps);
    Extend(fleet, Start(fleet), steps, PollStep(w, "", 20, 0));
    hide Legal, After;
    TwinPollsOnce(fleet, b, polled, w);
  }

  lemma TwinPollsOnce(fleet: Fleet, b: Bridge, polled: set<int>, w: int)
    requires Polled(fleet, b, polled) && w in fleet && w !in polled
    ensures Polled(fleet, Next(fleet, b, PollStep(w, "", 20, 0)), polled + {w})
  {
    OnePending(FromPacket(TWIN_PACKET));
    IdlePrune(b.ledger);
    assert FromPacket(TWIN_PACKET).id == "i";
    hide Poll, Prune, Ids, Do, FromPacket;
  }

  lemma IdlePrune(l: Ledger)
    requires Prune(l.st.pending, 0) == l.st.pending
    ensures Do(l, DoPrune(0)) == l
  {
  }

  /** Second stage: the packet is claimed under `source` and `holding` workers were granted it. */
  ghost predicate Granting(fleet: Fleet, b: Bridge, source: string, polled: set<int>, holding: set<int>) {
    && |b.ledger.st.pending| == 1 && HeldBy(b.ledger.st.pending[0], source)
    && b.ledger.st.pending[0].id == "i" && b.ledger.st.pending[0].tradeDate == 0
    && |b.ledger.audit| == 1 && b.ledger.audit[0].next == Claimed && b.submits == multiset{}
    && b.workers.Keys == fleet.Keys
    && (forall w :: w in polled && w in fleet ==> b.workers[w] == Worker(["i"], Resting))
    && (forall w :: w in holding && w in fleet ==> b.workers[w] == Worker([], Holding("i")))
  }

  /** Claiming the only pending intent. */
  lemma OnlyClaim(st: GatewayState, source: string)
    requires st.pending == [FromPacket(TWIN_PACKET)]
    ensures var (e, reply) := ClaimEffect(st, ClaimRequest("i", source, Blank), 0, 0);
            && reply.Granted? && |e.pending| == 1 && HeldBy(e.pending[0], source)
            && e.pending[0].id == "i" && e.pending[0].tradeDate == 0
            && |e.events| == 1 && e.events[0].next == Claimed
  {
    OnePending(FromPacket(TWIN_PACKET));
  }

  lemma TwinClaims(fleet: Fleet, b: Bridge, v: int, w: int)
    requires v in fleet && w in fleet && v != w && fleet[v] == fleet[w] && Polled(fleet, b, {v, w})
    ensures Enabled(fleet, b, ClaimStep(v, Blank, 0, 0, true))
    ensures Granting(fleet, Next(fleet, b, ClaimStep(v, Blank, 0, 0, true)), fleet[v], {w}, {v})
  {
    OnlyClaim(b.ledger.st, fleet[v]);
    hide ClaimEffect;
  }

  lemma TwinClaimsAgain(fleet: Fleet, b: Bridge, v: int, w: int)
    requires v in fleet && w in fleet && v != w && fleet[v] == fleet[w] && Granting(fleet, b, fleet[v], {w}, {v})
    ensures Enabled(fleet, b, ClaimStep(w, Blank, 0, 0, true))
    ensures Granting(fleet, Next(fleet, b, ClaimStep(w, Blank, 0, 0, true)), fleet[v], {}, {v, w})
  {
    var x := b.ledger.st.pending[0];
    assert b.ledger.st.pending == [x];
    OnePending(x);
  }

  lemma TwinPrefix(v: int, w: int, k: nat)
    requires k < 7
    ensures |TwinRun(v, w)| == 7 && TwinRun(v, w)[..k + 1] == TwinRun(v, w)[..k] + [TwinRun(v, w)[k]]
    ensures TwinRun(v, w)[..0] == [] && TwinRun(v, w)[..7] == TwinRun(v, w)
  {
  }

  lemma EmptyRun(fleet: Fleet, b: Bridge)
    ensures Legal(fleet, b, []) && After(fleet, b, []) == b
  {
  }

  lemma TwinsPoll(fleet: Fleet, v: int, w: int)
    requires v in fleet && w in fleet && v != w
    ensures |TwinRun(v, w)| == 7
    ensures Legal(fleet, Start(fleet), TwinRun(v, w)[..3])
    ensures Polled(fleet, After(fleet, Start(fleet), TwinRun(v, w)[..3]), {v, w})
  {
    var run := TwinRun(v, w);
    TwinEnqueues(fleet);
    EmptyRun(fleet, Start(fleet));
    hide Legal, After, Next, Polled;
    Extend(fleet, Start(fleet), [], run[0]);
    TwinPrefix(v, w, 0);
    TwinPrefix(v, w, 1);
    TwinPrefix(v, w, 2);
    TwinPolls(fleet, run[..1], {}, v);
    TwinPolls(fleet, run[..2], {} + {v}, w);
    assert {} + {v} + {w} == {v, w};
  }

  lemma TwinsClaim(fleet: Fleet, v: int, w: int)
    requires v in fleet && w in fleet && v != w && fleet[v] == fleet[w]
    ensures |TwinRun(v, w)| == 7
    ensures Legal(fleet, Start(fleet), TwinRun(v, w)[..5])
    ensures Granting(fleet, After(fleet, Start(fleet), TwinRun(v, w)[..5]), fleet[v], {}, {v, w})
  {
    var run := TwinRun(v, w);
    hide Legal, After, Next, Polled, Granting;
    TwinsPoll(fleet, v, w);
    TwinPrefix(v, w, 3);
    TwinPrefix(v, w, 4);
    TwinClaims(fleet, After(fleet, Start(fleet), run[..3]), v, w);
    Extend(fleet, Start(fleet), run[..3], run[3]);
    TwinClaimsAgain(fleet, After(fleet, Start(fleet), run[..4]), v, w);
    Extend(fleet, Start(fleet), run[..4], run[4]);
  }

  /** Third stage: both submit what they were granted. */
  lemma TwinsSubmit(fleet: Fleet, b: Bridge, v: int, w: int)
    requires v in fleet && w in fleet && v != w && Granting(fleet, b, fleet[v], {}, {v, w})
    ensures Enabled(fleet, b, SubmitStep(v, TWIN_RECEIPT))
    ensures var b' := Next(fleet, b, SubmitStep(v, TWIN_RECEIPT));
            && Enabled(fleet, b', SubmitStep(w, TWIN_RECEIPT))
            && var b'' := Next(fleet, b', SubmitStep(w, TWIN_RECEIPT));
               b''.submits["i"] == 2 && Resets(b''.ledger.audit, "i") == 0
  {
    var audit := b.ledger.audit;
    assert audit[..0] == [] && Resets(audit, "i") == 0;
  }

  /** Two workers configured with one source id can both submit an intent that was never reset. */
  lemma SharedSourceSubmitsTwice(fleet: Fleet, v: int, w: int)
    requires v in fleet && w in fleet && v != w && fleet[v] == fleet[w]
    ensures Legal(fleet, Start(fleet), TwinRun(v, w))
    ensures var b := After(fleet, Start(fleet), TwinRun(v, w));
            b.submits["i"] == 2 && Resets(b.ledger.audit, "i") == 0
  {
    var run := TwinRun(v, w);
    hide Legal, After, Next, Granting, Resets;
    TwinsClaim(fleet, v, w);
    TwinPrefix(v, w, 5);
    TwinPrefix(v, w, 6);
    TwinsSubmit(fleet, After(fleet, Start(fleet), run[..5]), v, w);
    Extend(fleet, Start(fleet), run[..5], run[5]);
    Extend(fleet, Start(fleet), run[..6], run[6]);
  }

  /** A fleet submits at most once per release exactly when its source ids are pairwise distinct. */
  lemma OncePerReleaseIffDistinctSources(fleet: Fleet)
    ensures OncePerRelease(fleet) <==> DistinctSources(fleet)
  {
    if DistinctSources(fleet) {
      forall steps, id | Legal(fleet, Start(fleet), steps)
        ensures var b := After(fleet, Start(fleet), steps); b.submits[id] <= Resets(b.ledger.audit, id) + 1
      {
        SubmissionsAreBounded(fleet, steps, id);
      }
    } else {
      var v, w :| v in fleet && w in fleet && v != w && fleet[v] == fleet[w];
      SharedSourceSubmitsTwice(fleet, v, w);
      assert Legal(fleet, Start(fleet), TwinRun(v, w));
    }
  }

  // -------------------------------------------------------- the steps, one by one

  /**
   * Ticks and prunes can come at any time, an enqueue with a new id; a worker polls when it has nothing in
   * hand, claims the next polled id when it rests, submits what it holds, reports what it submitted, and
   * can crash at any time.
   */
  lemma StepsAre(fleet: Fleet, b: Bridge, step: Step)
    requires b.workers.Keys == fleet.Keys
    ensures match step
            case Control(op) =>
              Enabled(fleet, b, step) <==>
                op.DoRetry? || op.DoPrune? || (op.DoEnqueue? && op.packet.id !in b.ledger.start)
            case PollStep(w, _, _, _) =>
              Enabled(fleet, b, step) <==> w in fleet && b.workers[w] == Worker([], Resting)
            case ClaimStep(w, _, _, _, _) =>
              Enabled(fleet, b, step) <==> w in fleet && b.workers[w].phase == Resting && b.workers[w].inbox != []
            case SubmitStep(w, r) =>
              Enabled(fleet, b, step) <==>
                w in fleet && b.workers[w].phase == Holding(r.intentId)
                && r.status in {Submitted, PartialFilled, Filled, Canceled, Rejected, Failed}
            case ReportStep(w, _, _, _) =>
              Enabled(fleet, b, step) <==> w in fleet && b.workers[w].phase.Reporting?
            case CrashStep(w) => Enabled(fleet, b, step) <==> w in fleet
  {
  }

  /** What each step writes to the store and leaves of the worker. */
  lemma StepDoes(fleet: Fleet, b: Bridge, step: Step)
    requires Enabled(fleet, b, step)
    ensures var b' := Next(fleet, b, step);
            match step
            case Control(op) => b' == b.(ledger := Do(b.ledger, op))
            case PollStep(w, account, limit, today) =>
              var polled := Poll(Prune(b.ledger.st.pending, today), account, limit);
              b' == b.(ledger := Do(b.ledger, DoPrune(today)), workers := b.workers[w := Worker(Ids(polled), Resting)])
            case ClaimStep(w, at, now, today, answered) =>
              var me := b.workers[w];
              var request := ClaimRequest(me.inbox[0], fleet[w], at);
              var granted := ClaimEffect(b.ledger.st, request, now, today).1.Granted?;
              && b'.ledger == Do(b.ledger, DoClaim(request, now, today)) && b'.submits == b.submits
              && b'.grants == (if granted then b.grants + multiset{me.inbox[0]} else b.grants)
              && b'.workers == b.workers[w :=
                   if !answered then Worker([], Resting)
                   else Worker(me.inbox[1..], if granted then Holding(me.inbox[0]) else Resting)]
            case SubmitStep(w, r) =>
              b' == b.(workers := b.workers[w := Worker(b.workers[w].inbox, Reporting(r))],
                       submits := b.submits + multiset{r.intentId})
            case ReportStep(w, now, today, arrived) =>
              b' == b.(ledger := if arrived then Do(b.ledger, DoReceipt(b.workers[w].phase.receipt, now, today))
                                 else b.ledger,
                       workers := b.workers[w := Worker(b.workers[w].inbox, Resting)])
            case CrashStep(w) => b' == b.(workers := b.workers[w := Worker([], Resting)])
  {
  }
}
