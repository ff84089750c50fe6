/** The Windows side of the bridge (src/ashare_system/windows_execution_gateway_worker.py). */
module GatewayWorker {
  import Bridge = ExecutionBridge
  import opened ExecutionGateway
  import Handlers = GatewayHandlers
  import Runs = GatewayRuns
  import Text
  import opened Wrappers

  /** What the network, the submitter and the control plane do for one intent. */
  datatype ClaimOutcome = ClaimRaised | ClaimAnswered(ok: bool, status: string)
  datatype SubmitOutcome = SubmitRaised | SubmitReturned(status: string, details: Details) | SubmitReturnedNoDictionary
  datatype PostOutcome = PostRaised | PostAnswered(ok: bool, stored: bool)
  datatype World = World(claim: ClaimOutcome, submit: SubmitOutcome, post: PostOutcome)

  /** Whether each further field of a submit result, where it is present, is of a kind the receipt takes. */
  datatype Details = Details(order: bool, fills: bool, latency: bool, rawPayload: bool, summaryLines: bool)

  const ALL_FIT := Details(true, true, true, true, true)

  datatype Phase = AtPoll | AtClaim | AtSubmit | AtReceipt
  datatype Result = Result(id: string, phase: Phase, ok: bool, claimStatus: string, stored: bool)
  datatype Post = Post(id: string, status: Status)

  datatype Report = Report(ok: bool, polled: nat, claimed: nat, stored: nat, failed: nat, results: seq<Result>)

  /** A claim call that raises is not caught anywhere in the run. */
  datatype Outcome<T> = Raised | Done(value: T)

  /** A submit result's status text as the worker reads it; a missing one counts as "submitted". */
  function StatusText(raw: string): string {
    Text.Replace(Text.Lower(Text.Strip(if raw == "" then "submitted" else raw)), ' ', '_')
  }

  /** The status text of a submit result; None stands for the ValueError of an unsupported one. */
  function NormalizeReceiptStatus(raw: string): (s: Option<Status>)
    ensures s.Some? ==> Bridge.Reportable(s.value)
  {
    var text := StatusText(raw);
    if text == "accepted" || text == "submitted" then Some(Submitted)
    else if text == "partial-filled" || text == "partial_filled" then Some(PartialFilled)
    else if text == "cancelled" || text == "canceled" then Some(Canceled)
    else if text == "filled" then Some(Filled)
    else if text == "rejected" then Some(Rejected)
    else if text == "failed" then Some(Failed)
    else None
  }

  /** The texts under which each status is known. */
  function TextsOf(s: Status): set<string> {
    match s
    case Submitted => {"submitted", "accepted"}
    case PartialFilled => {"partial_filled", "partial-filled"}
    case Filled => {"filled"}
    case Canceled => {"canceled", "cancelled"}
    case Rejected => {"rejected"}
    case Failed => {"failed"}
    case _ => {}
  }

  /** Each text belongs to at most one status, and that is the status it is read as; any other text raises. */
  lemma TextsNameStatuses(raw: string, s: Status)
    ensures NormalizeReceiptStatus(raw) == Some(s) <==> StatusText(raw) in TextsOf(s)
    ensures NormalizeReceiptStatus(raw) == None <==> forall t :: StatusText(raw) !in TextsOf(t)
  {
    if NormalizeReceiptStatus(raw).Some? {
      var t := NormalizeReceiptStatus(raw).value;
      assert StatusText(raw) in TextsOf(t);
    }
    assert |"submitted"| == 9 && |"accepted"| == 8 && |"partial_filled"| == 14 && |"filled"| == 6;
    assert |"canceled"| == 8 && |"cancelled"| == 9 && |"rejected"| == 8 && |"failed"| == 6;
    assert "accepted"[0] == 'a' && "canceled"[0] == 'c' && "rejected"[0] == 'r';
    assert "partial_filled"[7] == '_' && "partial-filled"[7] == '-' && "filled"[1] == 'i' && "failed"[1] == 'a';
    assert "submitted"[0] == 's' && "cancelled"[0] == 'c';
  }

  predicate Granted(w: World) {
    w.claim.ClaimAnswered? && w.claim.ok && w.claim.status == "claimed"
  }

  /** A receipt can be built of a submit result whose status is supported and whose other fields fit. */
  predicate SubmitOk(w: World) {
    w.submit.SubmitReturned? && NormalizeReceiptStatus(w.submit.status).Some? && w.submit.details == ALL_FIT
  }

  /** A receipt that cannot be built raises inside the same `try` as the submit call, so it reports a failure too. */
  function Reported(w: World): Status {
    if SubmitOk(w) then NormalizeReceiptStatus(w.submit.status).value else Failed
  }

  /** The submitter has returned, so the broker may have been called, but its result makes no receipt. */
  predicate Unreadable(w: World) {
    !w.submit.SubmitRaised? && !SubmitOk(w)
  }

  /**
   * When the submitter has returned, the worker reports a failure exactly if the result is no dictionary,
   * its status text says "failed" or names no status, or some other field does not fit the receipt.
   */
  lemma ReturnedSubmitFailsIff(w: World)
    requires !w.submit.SubmitRaised?
    ensures Reported(w) == Failed <==>
            || w.submit.SubmitReturnedNoDictionary?
            || StatusText(w.submit.status) == "failed"
            || (forall s :: StatusText(w.submit.status) !in TextsOf(s))
            || !w.submit.details.order || !w.submit.details.fills || !w.submit.details.latency
            || !w.submit.details.rawPayload || !w.submit.details.summaryLines
  {
    if w.submit.SubmitReturned? { TextsNameStatuses(w.submit.status, Failed); }
  }

  /** Two such results: the status every new order has at the broker, and a latency that is no number. */
  lemma PendingIsUnsupported(w: World)
    ensures w.submit == SubmitReturned("PENDING", ALL_FIT) ==> Unreadable(w) && Reported(w) == Failed
    ensures w.submit == SubmitReturned("submitted", ALL_FIT.(latency := false)) ==>
              Unreadable(w) && Reported(w) == Failed
  {
    Text.StripShape("PENDING");
    assert Text.Lower("PENDING") == "pending";
    assert Text.Replace("pending", ' ', '_') == "pending";
    assert |"pending"| == 7;
    assert StatusText("PENDING") == "pending";
  }

  /**
   * Then the receipt of that failure ends the claimed intent in the store, although the broker was
   * called: its record leaves the pending list, and its chain of moves stands at a terminal status.
   */
  lemma UnreadableResultEndsIntent(l: Runs.Ledger, w: World, x: Intent, r: Receipt, now: int, today: nat)
    requires Runs.Good(l) && x in l.st.pending && x.status == Claimed
    requires Granted(w) && Unreadable(w)
    requires r.intentId == x.id && r.status == Reported(w) && Handlers.FirstReceipt(l.st.receipts, r.id).None?
    ensures var l' := Runs.Do(l, Runs.DoReceipt(r, now, today));
            && Handlers.ReceiptEffect(l.st, r, now, today).1 == Handlers.Stored(r)
            && Runs.Current(l', x.id) == Some(Failed) && Terminal(Failed)
            && !HasId(l'.st.pending, x.id)
  {
    FailedReceiptEnds(l, x, r, now, today);
  }

  lemma FailedReceiptEnds(l: Runs.Ledger, x: Intent, r: Receipt, now: int, today: nat)
    requires Runs.Good(l) && x in l.st.pending && x.status == Claimed
    requires r.intentId == x.id && r.status == Failed && Handlers.FirstReceipt(l.st.receipts, r.id).None?
    ensures var l' := Runs.Do(l, Runs.DoReceipt(r, now, today));
            && Handlers.ReceiptEffect(l.st, r, now, today).1 == Handlers.Stored(r)
            && Runs.Current(l', x.id) == Some(Failed) && !HasId(l'.st.pending, x.id)
  {
    Runs.PendingIsKnown(l, x);
    FailedReceiptIsStored(l.st, x, r, now, today);
    var moved, events := Runs.StoredReceipt(l, r, now, today);
    var l' := Runs.Do(l, Runs.DoReceipt(r, now, today));
    var pending := Handlers.Prune(l.st.pending, today);
    WithoutIsGone(pending, FirstIndex(pending, x.id));
    hide Runs.Good, Runs.Do, Handlers.ReceiptEffect, Handlers.Prune;
    Runs.WalkSplits(l.audit, events, x.id, l.start[x.id]);
    assert events[..0] == [];
  }

  /** The record a failure report finds is the pending one, and the report moves it. */
  lemma FailedReceiptIsStored(st: GatewayState, x: Intent, r: Receipt, now: int, today: nat)
    requires UniqueIds(st.pending) && x in st.pending && x.status == Claimed
    requires r.intentId == x.id && r.status == Failed && Handlers.FirstReceipt(st.receipts, r.id).None?
    ensures var pending := Handlers.Prune(st.pending, today);
            UniqueIds(pending) && FirstIndex(pending, x.id) < |pending| && pending[FirstIndex(pending, x.id)] == x
    ensures Runs.MatchedBy(st, r, today) == Some(x)
    ensures Handlers.ReceiptEffect(st, r, now, today).1 == Handlers.Stored(r)
    ensures Handlers.ReceiptEffect(st, r, now, today).0.events != []
  {
    var pending := Handlers.Prune(st.pending, today);
    Handlers.PruneKeeps(st.pending, today);
    var i :| 0 <= i < |pending| && pending[i] == x;
    assert FirstIndex(pending, x.id) == i;
    hide Handlers.Prune, UniqueIds;
  }

  lemma WithoutIsGone(pending: seq<Intent>, k: nat)
    requires UniqueIds(pending) && k < |pending|
    ensures !HasId(Handlers.Without(pending, k), pending[k].id)
  {
    var rest := Handlers.Without(pending, k);
    forall j | 0 <= j < |rest|
      ensures rest[j].id != pending[k].id
    {
      assert rest[j] == pending[if j < k then j else j + 1];
    }
  }

  function ResultOf(id: string, w: World): Result
    requires w.claim.ClaimAnswered?
  {
    if !Granted(w) then
      Result(id, AtClaim, false, if w.claim.status == "" then "failed" else w.claim.status, false)
    else if w.post.PostRaised? then Result(id, AtReceipt, false, "claimed", false)
    else Result(id, if SubmitOk(w) then AtReceipt else AtSubmit, w.post.ok, "claimed", w.post.stored)
  }

  /** A status text is read without outer white space, with small letters, and with underscores for blanks. */
  lemma StatusTextIs(raw: string, i: nat)
    requires raw != "" && Text.Stripped(raw) && i < |raw|
    ensures |StatusText(raw)| == |raw|
    ensures StatusText(raw)[i] == if raw[i] == ' ' then '_' else Text.Lower(raw)[i]
    ensures ' ' !in StatusText(raw)
    ensures StatusText("") == "submitted"
  {
    Text.StripShape(raw);
    Text.StripShape("submitted");
    Text.LowerIs(raw, i);
    assert Text.Lower("submitted") == "submitted";
    assert Text.Replace("submitted", ' ', '_') == "submitted";
  }

  /** An intent goes to the submitter exactly if the control plane answers that it is claimed, and answers ok. */
  lemma SubmittedIff(ids: seq<string>, ws: seq<World>, id: string, w: World)
    requires |ids| == |ws|
    ensures SubmittedIds(ids + [id], ws + [w]) ==
            if w.claim.ClaimAnswered? && w.claim.status == "claimed" && w.claim.ok then SubmittedIds(ids, ws) + [id]
            else SubmittedIds(ids, ws)
    ensures SubmittedIds([], []) == []
  {
    assert (ids + [id])[..|ids|] == ids && (ws + [w])[..|ws|] == ws;
  }

  /** What the worker reports of one intent. */
  lemma ResultIs(id: string, w: World)
    requires w.claim.ClaimAnswered?
    ensures var granted := w.claim.ok && w.claim.status == "claimed";
            var r := ResultOf(id, w);
            && r.id == id
            && r.claimStatus == (if w.claim.status == "" then "failed" else w.claim.status)
            && (r.phase == AtClaim <==> !granted)
            && (r.phase == AtReceipt <==> granted && (w.post.PostRaised? || SubmitOk(w)))
            && (r.phase == AtSubmit <==> granted && w.post.PostAnswered? && !SubmitOk(w))
            && (r.ok <==> granted && w.post.PostAnswered? && w.post.ok)
            && (r.stored <==> granted && w.post.PostAnswered? && w.post.stored)
    ensures SubmitOk(w) <==>
            && w.submit.SubmitReturned? && (exists s :: StatusText(w.submit.status) in TextsOf(s))
            && w.submit.details == Details(true, true, true, true, true)
    ensures Unreadable(w) <==> !w.submit.SubmitRaised? && !SubmitOk(w)
  {
    if w.submit.SubmitReturned? { TextsNameStatuses(w.submit.status, Failed); }
  }

  /** The ids handed to the submitter, in order. */
  function SubmittedIds(ids: seq<string>, ws: seq<World>): seq<string>
    requires |ids| == |ws|
  {
    if ids == [] then [] else
      var n := |ids| - 1;
      SubmittedIds(ids[..n], ws[..n]) + if Granted(ws[n]) then [ids[n]] else []
  }

  /** The receipts posted, in order. */
  function Posted(ids: seq<string>, ws: seq<World>): seq<Post>
    requires |ids| == |ws|
  {
    if ids == [] then [] else
      var n := |ids| - 1;
      Posted(ids[..n], ws[..n]) + if Granted(ws[n]) then [Post(ids[n], Reported(ws[n]))] else []
  }

  function CountClaimed(rs: seq<Result>): nat {
    if rs == [] then 0 else
      CountClaimed(rs[..|rs| - 1]) + if rs[|rs| - 1].claimStatus == "claimed" then 1 else 0
  }

  function CountOk(rs: seq<Result>): nat {
    if rs == [] then 0 else CountOk(rs[..|rs| - 1]) + if rs[|rs| - 1].ok then 1 else 0
  }

  /** Every id handed to the submitter gets exactly one receipt attempt, in the same order, with a reportable status. */
  lemma {:induction false} OneReceiptPerSubmit(ids: seq<string>, ws: seq<World>)
    requires |ids| == |ws|
    ensures |Posted(ids, ws)| == |SubmittedIds(ids, ws)|
    ensures forall k :: 0 <= k < |Posted(ids, ws)| ==>
              Posted(ids, ws)[k].id == SubmittedIds(ids, ws)[k] && Bridge.Reportable(Posted(ids, ws)[k].status)
  {
    if ids != [] {
      OneReceiptPerSubmit(ids[..|ids| - 1], ws[..|ws| - 1]);
    }
  }

  /** The reported claim count is the number of submissions exactly when no reply says both "not ok" and "claimed". */
  lemma {:induction false} ClaimedCountIsSubmissions(ids: seq<string>, ws: seq<World>, rs: seq<Result>)
    requires |ids| == |ws| == |rs|
    requires forall k :: 0 <= k < |ws| ==> ws[k].claim.ClaimAnswered? && rs[k] == ResultOf(ids[k], ws[k])
    ensures CountClaimed(rs) >= |SubmittedIds(ids, ws)|
    ensures CountClaimed(rs) == |SubmittedIds(ids, ws)| <==>
            forall k :: 0 <= k < |ws| ==> !(ws[k].claim.status == "claimed" && !ws[k].claim.ok)
  {
    if ids != [] {
      ClaimedCountIsSubmissions(ids[..|ids| - 1], ws[..|ws| - 1], rs[..|rs| - 1]);
    }
  }

  lemma {:induction false} AllOkIff(rs: seq<Result>)
    ensures CountOk(rs) <= |rs|
    ensures CountOk(rs) == |rs| <==> forall k :: 0 <= k < |rs| ==> rs[k].ok
  {
    if rs != [] {
      AllOkIff(rs[..|rs| - 1]);
    }
  }

  lemma NoneYet()
    ensures SubmittedIds([], []) == [] && Posted([], []) == [] && CountClaimed([]) == 0 && CountOk([]) == 0
  {
  }

  lemma OneMore(ids: seq<string>, ws: seq<World>, k: nat)
    requires k < |ids| == |ws|
    ensures SubmittedIds(ids[..k + 1], ws[..k + 1]) ==
            SubmittedIds(ids[..k], ws[..k]) + if Granted(ws[k]) then [ids[k]] else []
    ensures Posted(ids[..k + 1], ws[..k + 1]) ==
            Posted(ids[..k], ws[..k]) + if Granted(ws[k]) then [Post(ids[k], Reported(ws[k]))] else []
  {
    assert ids[..k + 1][..k] == ids[..k] && ws[..k + 1][..k] == ws[..k];
  }

  lemma CountOneMore(rs: seq<Result>, r: Result)
    ensures CountClaimed(rs + [r]) == CountClaimed(rs) + if r.claimStatus == "claimed" then 1 else 0
    ensures CountOk(rs + [r]) == CountOk(rs) + if r.ok then 1 else 0
  {
    assert (rs + [r])[..|rs|] == rs;
  }

  class ExecutionGatewayWorker {
    var submits: seq<string>
    var posts: seq<Post>

    constructor ()
      ensures submits == [] && posts == []
    {
      submits, posts := [], [];
    }

    method ProcessIntent(id: string, w: World) returns (r: Outcome<Result>)
      modifies this
      ensures r == if w.claim.ClaimRaised? then Raised else Done(ResultOf(id, w))
      ensures submits == old(submits) + if Granted(w) then [id] else []
      ensures posts == old(posts) + if Granted(w) then [Post(id, Reported(w))] else []
    {
      if w.claim.ClaimRaised? { return Raised; }
      var claimStatus := w.claim.status;
      if !w.claim.ok || claimStatus != "claimed" {
        return Done(Result(id, AtClaim, false, if claimStatus == "" then "failed" else claimStatus, false));
      }
      var submitOk := true;
      var status := Failed;
      submits := submits + [id];
      if w.submit.SubmitReturned? {
        var normalized := NormalizeReceiptStatus(w.submit.status);
        if normalized.Some? && w.submit.details == ALL_FIT {
          status := normalized.value;
        } else {
          submitOk := false;
        }
      } else {
        submitOk := false;
      }
      posts := posts + [Post(id, status)];
      if w.post.PostRaised? {
        return Done(Result(id, AtReceipt, false, claimStatus, false));
      }
      return Done(Result(id, if submitOk then AtReceipt else AtSubmit, w.post.ok, claimStatus, w.post.stored));
    }

    /**
     * One run over the polled ids (None when the poll raised). A run that ends reports one result
     * per id, `stored + failed` of them, and is ok exactly when every result is; a run whose k-th
     * claim raises has submitted for the ids before it and for no later one.
     */
    method RunOnce(polled: Option<seq<string>>, ws: seq<World>) returns (r: Outcome<Report>, k: nat)
      requires polled.Some? ==> |polled.value| == |ws|
      modifies this
      ensures polled.None? ==>
                r == Done(Report(false, 0, 0, 0, 1, [Result("", AtPoll, false, "", false)]))
                && submits == old(submits) && posts == old(posts)
      ensures polled.Some? ==>
                && k <= |ws|
                && submits == old(submits) + SubmittedIds(polled.value[..k], ws[..k])
                && posts == old(posts) + Posted(polled.value[..k], ws[..k])
                && (forall j :: 0 <= j < k ==> ws[j].claim.ClaimAnswered?)
                && (r.Raised? <==> k < |ws|)
                && (k < |ws| ==> ws[k].claim.ClaimRaised?)
      ensures polled.Some? && r.Done? ==>
                && |r.value.results| == r.value.polled == |ws|
                && (forall j :: 0 <= j < |ws| ==> r.value.results[j] == ResultOf(polled.value[j], ws[j]))
                && r.value.stored + r.value.failed == r.value.polled
                && r.value.claimed == CountClaimed(r.value.results)
                && (r.value.ok <==> forall j :: 0 <= j < |ws| ==> r.value.results[j].ok)
    {
      hide Reported, ResultOf, SubmittedIds, Posted, CountClaimed, CountOk;
      NoneYet();
      k := 0;
      if polled.None? {
        return Done(Report(false, 0, 0, 0, 1, [Result("", AtPoll, false, "", false)])), 0;
      }
      var ids := polled.value;
      var results, claimed, stored, failed := [], 0, 0, 0;
      while k < |ids|
        invariant k <= |ids| && |results| == k
        invariant submits == old(submits) + SubmittedIds(ids[..k], ws[..k])
        invariant posts == old(posts) + Posted(ids[..k], ws[..k])
        invariant forall j :: 0 <= j < k ==> ws[j].claim.ClaimAnswered? && results[j] == ResultOf(ids[j], ws[j])
        invariant claimed == CountClaimed(results) && stored == CountOk(results) && stored + failed == k
      {
        OneMore(ids, ws, k);
        var result := ProcessIntent(ids[k], ws[k]);
        if result.Raised? {
          return Raised, k;
        }
        CountOneMore(results, result.value);
        results := results + [result.value];
        if result.value.claimStatus == "claimed" { claimed := claimed + 1; }
        if result.value.ok { stored := stored + 1; } else { failed := failed + 1; }
        k := k + 1;
      }
      assert ids[..k] == ids && ws[..k] == ws;
      AllOkIff(results);
      r := Done(Report(failed == 0, |ids|, claimed, stored, failed, results));
    }
  }
}
