/** Confirmation of a market regime change over several trade dates (src/ashare_system/scheduler.py). */
module RegimeGuard {
  import opened Wrappers

  datatype Transition = Transition(from: string, to: string, detectedAt: string)

  /** One sync: the trade date, the detected regime label, and the transition the detector reports, if any. */
  datatype Sync = Sync(today: int, regime: string, transition: Option<Transition>)

  /**
   * The stored guard record; `required` is 0 and the texts are empty where the record has no such
   * field, and `present` is false when there is no record at all.
   */
  datatype Guard = Guard(
    present: bool, available: bool, active: bool, key: string, toRegime: string,
    required: int, confirmedDays: nat, remaining: nat, dates: seq<int>)

  const NO_GUARD := Guard(false, false, false, "", "", 0, 0, 0, [])
  const CONFIRMATION_DAYS := 3

  function Key(t: Transition): string {
    t.from + "->" + t.to + "@" + t.detectedAt
  }

  function Required(g: Guard): (n: nat)
    ensures n >= 1
  {
    var stored := if g.required == 0 then CONFIRMATION_DAYS else g.required;
    if stored < 1 then 1 else stored
  }

  /** `list(dict.fromkeys(dates))`: the first occurrence of each date. */
  function Dedup(dates: seq<int>): seq<int> {
    if dates == [] then [] else
      var rest := Dedup(dates[..|dates| - 1]);
      if dates[|dates| - 1] in rest then rest else rest + [dates[|dates| - 1]]
  }

  function LastDates(dates: seq<int>, n: nat): seq<int> {
    if |dates| <= n then dates else dates[|dates| - n..]
  }

  /** The window after seeing `today`: appended if new, deduplicated, cut to the required length. */
  function Window(dates: seq<int>, today: int, required: nat): seq<int> {
    LastDates(Dedup(if today in dates then dates else dates + [today]), required)
  }

  function WithDates(g: Guard, dates: seq<int>, required: nat): Guard {
    g.(present := true, available := true, active := |dates| < required, confirmedDays := |dates|,
       remaining := if |dates| < required then required - |dates| else 0, dates := dates)
  }

  /** The sync carries on the confirmation the guard is in. */
  predicate Continues(g: Guard, s: Sync) {
    if s.transition.Some? then Key(s.transition.value) == g.key else g.present && g.toRegime == s.regime
  }

  function Next(g: Guard, s: Sync): Guard {
    var required := Required(g);
    if s.transition.Some? then
      var t := s.transition.value;
      var dates := if Key(t) == g.key then Window(g.dates, s.today, required)
                   else LastDates(Dedup([s.today]), required);
      WithDates(g.(key := Key(t), toRegime := t.to, required := required), dates, required)
    else if g.present && g.toRegime == s.regime then
      WithDates(g, Window(g.dates, s.today, required), required)
    else
      Guard(true, false, false, "", "", required, 0, 0, [])
  }

  function NextAll(g: Guard, ss: seq<Sync>): Guard {
    if ss == [] then g else Next(NextAll(g, ss[..|ss| - 1]), ss[|ss| - 1])
  }

  class RegimeStore {
    var guard: Guard

    constructor ()
      ensures guard == NO_GUARD
    {
      guard := NO_GUARD;
    }

    /** `_sync_market_regime_guard`; without a detected regime nothing is written. */
    method SyncMarketRegimeGuard(detected: Option<Sync>) returns (result: Option<Guard>)
      modifies this
      ensures guard == if detected.Some? then Next(old(guard), detected.value) else old(guard)
      ensures result == if detected.Some? then Some(guard) else None
    {
      if detected.None? { return None; }
      var s := detected.value;
      var existing := guard;
      var required := Required(existing);
      if s.transition.Some? {
        var key := Key(s.transition.value);
        var dates := existing.dates;
        if existing.key != key {
          dates := [s.today];
        } else if s.today !in dates {
          dates := dates + [s.today];
        }
        dates := LastDates(Dedup(dates), required);
        guard :=
          WithDates(existing.(key := key, toRegime := s.transition.value.to, required := required), dates, required);
      } else if existing.present && existing.toRegime == s.regime {
        var dates := existing.dates;
        if s.today !in dates {
          dates := dates + [s.today];
        }
        dates := LastDates(Dedup(dates), required);
        guard := WithDates(existing, dates, required);
      } else {
        guard := Guard(true, false, false, "", "", required, 0, 0, []);
      }
      return Some(guard);
    }
  }

  // ------------------------------------------------------------ the window

  ghost predicate NoRepeats(dates: seq<int>) {
    forall i, j :: 0 <= i < j < |dates| ==> dates[i] != dates[j]
  }

  ghost function Dates(dates: seq<int>): set<int> {
    set d | d in dates
  }

  lemma {:induction false} DedupKeepsDistinct(dates: seq<int>)
    requires NoRepeats(dates)
    ensures Dedup(dates) == dates
  {
    if dates != [] {
      var front := dates[..|dates| - 1];
      DedupKeepsDistinct(front);
      assert dates[|dates| - 1] !in front;
    }
  }

  lemma {:induction false} CountDates(dates: seq<int>)
    requires NoRepeats(dates)
    ensures |Dates(dates)| == |dates|
  {
    if dates != [] {
      var front := dates[..|dates| - 1];
      CountDates(front);
      assert dates == front + [dates[|dates| - 1]];
      assert Dates(dates) == Dates(front) + {dates[|dates| - 1]};
      assert dates[|dates| - 1] !in front;
    }
  }

  function Min(a: nat, b: nat): nat { if a < b then a else b }

  /**
   * The window remembers enough of the dates seen: all of them while it is not full, and when it is
   * full it stays full.
   */
  ghost predicate Remembers(dates: seq<int>, seen: set<int>, required: nat) {
    && NoRepeats(dates) && Dates(dates) <= seen
    && |dates| == Min(required, |seen|)
    && (|dates| < required ==> Dates(dates) == seen)
  }

  lemma OpenWindowRemembers(dates: seq<int>, seen: set<int>, today: int, required: nat)
    requires Remembers(dates, seen, required) && |dates| < required
    ensures Remembers(Window(dates, today, required), seen + {today}, required)
  {
    var more := if today in dates then dates else dates + [today];
    DedupKeepsDistinct(more);
    CountDates(more);
    assert today in dates <==> today in Dates(dates);
    assert Dates(more) == seen + {today};
    assert Window(dates, today, required) == more;
  }

  lemma FullWindowRemembers(dates: seq<int>, seen: set<int>, today: int, required: nat)
    requires Remembers(dates, seen, required) && |dates| == required >= 1
    ensures Remembers(Window(dates, today, required), seen + {today}, required)
  {
    var more := if today in dates then dates else dates + [today];
    DedupKeepsDistinct(more);
    FullStaysFull(|seen|, seen, today);
    var window := Window(dates, today, required);
    SuffixKeeps(more, |more| - required);
    assert window == more[|more| - required..] && |window| == required;
    assert Dates(more) <= Dates(dates) + {today};
  }

  lemma SuffixKeeps(dates: seq<int>, k: nat)
    requires k <= |dates| && NoRepeats(dates)
    ensures NoRepeats(dates[k..]) && Dates(dates[k..]) <= Dates(dates)
  {
  }

  lemma WindowRemembers(dates: seq<int>, seen: set<int>, today: int, required: nat)
    requires Remembers(dates, seen, required) && required >= 1
    ensures Remembers(Window(dates, today, required), seen + {today}, required)
  {
    if |dates| < required {
      OpenWindowRemembers(dates, seen, today, required);
    } else {
      FullWindowRemembers(dates, seen, today, required);
    }
  }

  lemma FullStaysFull(n: nat, seen: set<int>, today: int)
    requires |seen| == n
    ensures |seen + {today}| >= n
  {
    if today !in seen { assert |seen + {today}| == n + 1; } else { assert seen + {today} == seen; }
  }

  // ----------------------------------------------------------- main results

  /** The trade dates from `first` on. */
  ghost function SeenDates(first: int, ss: seq<Sync>): set<int> {
    if ss == [] then {first} else SeenDates(first, ss[..|ss| - 1]) + {ss[|ss| - 1].today}
  }

  ghost predicate AllContinue(g: Guard, ss: seq<Sync>) {
    ss == [] ||
    (AllContinue(g, ss[..|ss| - 1]) && Continues(NextAll(g, ss[..|ss| - 1]), ss[|ss| - 1]))
  }

  lemma {:induction false} ConfirmationInvariant(g: Guard, first: int, ss: seq<Sync>)
    requires g.present && Remembers(g.dates, {first}, Required(g)) && AllContinue(g, ss)
    ensures var g' := NextAll(g, ss);
            g'.present && Required(g') == Required(g) && Remembers(g'.dates, SeenDates(first, ss), Required(g))
            && g'.key == g.key
  {
    if ss != [] {
      var front := ss[..|ss| - 1];
      ConfirmationInvariant(g, first, front);
      WindowRemembers(NextAll(g, front).dates, SeenDates(first, front), ss[|ss| - 1].today, Required(g));
    }
  }

  /**
   * From the sync that starts a confirmation on, as long as every sync carries it on, the confirmed
   * days are the distinct trade dates seen so far, up to the required number, although only that many
   * dates are stored; the guard is active exactly while the number is not reached.
   */
  lemma ConfirmedDaysCountDates(g: Guard, start: Sync, ss: seq<Sync>)
    requires start.transition.Some? && Key(start.transition.value) != g.key
    requires AllContinue(Next(g, start), ss)
    ensures var g' := NextAll(Next(g, start), ss);
            var seen := SeenDates(start.today, ss);
            && Required(g') == Required(g)
            && |g'.dates| == Min(Required(g), |seen|) && g'.confirmedDays == |g'.dates|
            && (g'.active <==> |seen| < Required(g)) && g'.available
            && g'.remaining == Required(g) - g'.confirmedDays
  {
    var h := Next(g, start);
    assert [start.today][..0] == [];
    assert Dedup([start.today]) == [start.today];
    assert Dates(h.dates) == {start.today};
    ConfirmationInvariant(h, start.today, ss);
    CountersFollowDates(h, ss);
  }

  /** The stored counters are those of the stored window. */
  lemma {:induction false} CountersFollowDates(g: Guard, ss: seq<Sync>)
    requires Counted(g) && AllContinue(g, ss)
    ensures Counted(NextAll(g, ss))
  {
    if ss != [] {
      CountersFollowDates(g, ss[..|ss| - 1]);
    }
  }

  ghost predicate Counted(g: Guard) {
    && g.present && g.available && g.confirmedDays == |g.dates|
    && (g.active <==> |g.dates| < Required(g))
    && g.remaining == if |g.dates| < Required(g) then Required(g) - |g.dates| else 0
  }

  /** More syncs never take a confirmation back, and a repeated trade date does not advance it. */
  lemma ConfirmationIsMonotone(g: Guard, start: Sync, ss: seq<Sync>, s: Sync)
    requires start.transition.Some? && Key(start.transition.value) != g.key
    requires AllContinue(Next(g, start), ss + [s])
    ensures var before := NextAll(Next(g, start), ss);
            var after := NextAll(Next(g, start), ss + [s]);
            && before.confirmedDays <= after.confirmedDays
            && (!before.active ==> !after.active)
            && (s.today in SeenDates(start.today, ss) ==> after.confirmedDays == before.confirmedDays)
  {
    assert (ss + [s])[..|ss + [s]| - 1] == ss;
    ConfirmedDaysCountDates(g, start, ss);
    ConfirmedDaysCountDates(g, start, ss + [s]);
    var seen := SeenDates(start.today, ss);
    assert SeenDates(start.today, ss + [s]) == seen + {s.today};
    FullStaysFull(|seen|, seen, s.today);
    assert s.today in seen ==> seen + {s.today} == seen;
  }

  // --------------------------------------------------- from the inputs alone

  /** The sync reports the transition, or no transition and the label it leads to. */
  predicate Carries(t: Transition, s: Sync) {
    s.transition == Some(t) || (s.transition.None? && s.regime == t.to)
  }

  lemma {:induction false} CarriedSyncsContinue(g: Guard, start: Sync, ss: seq<Sync>)
    requires start.transition.Some? && forall k :: 0 <= k < |ss| ==> Carries(start.transition.value, ss[k])
    ensures var g' := NextAll(Next(g, start), ss);
            && AllContinue(Next(g, start), ss)
            && g'.present && g'.toRegime == start.transition.value.to && g'.key == Key(start.transition.value)
            && g'.required == Required(g)
  {
    if ss != [] {
      var front := ss[..|ss| - 1];
      CarriedSyncsContinue(g, start, front);
    }
  }

  lemma {:induction false} SeenDatesAre(first: int, ss: seq<Sync>)
    ensures SeenDates(first, ss) == {first} + set k | 0 <= k < |ss| :: ss[k].today
  {
    if ss != [] {
      var front, n := ss[..|ss| - 1], |ss| - 1;
      SeenDatesAre(first, front);
      assert forall k :: 0 <= k < n ==> front[k] == ss[k];
      assert (set k | 0 <= k < |ss| :: ss[k].today) == (set k | 0 <= k < n :: ss[k].today) + {ss[n].today};
    }
  }

  /** What a stored record asks for; three days where it says nothing. */
  lemma RequiredIs(g: Guard)
    ensures Required(g) == if g.required == 0 then 3 else if g.required < 0 then 1 else g.required
  {
  }

  /**
   * From a sync with a new transition on, for any syncs that report it again or report no transition and
   * its target label: the confirmed days are the distinct trade dates among them, up to the required
   * number, and the guard is active exactly below it.
   */
  lemma TransitionConfirms(g: Guard, start: Sync, ss: seq<Sync>)
    requires start.transition.Some? && Key(start.transition.value) != g.key
    requires forall k :: 0 <= k < |ss| ==> Carries(start.transition.value, ss[k])
    ensures var g' := NextAll(Next(g, start), ss);
            var required := if g.required == 0 then 3 else if g.required < 0 then 1 else g.required;
            var days := |{start.today} + set k | 0 <= k < |ss| :: ss[k].today|;
            && g'.available && g'.required == required
            && g'.confirmedDays == (if days < required then days else required)
            && g'.remaining == required - g'.confirmedDays
            && (g'.active <==> days < required)
            && (if ss == [] then start else ss[|ss| - 1]).today in g'.dates
  {
    CarriedSyncsContinue(g, start, ss);
    ConfirmedDaysCountDates(g, start, ss);
    SeenDatesAre(start.today, ss);
    RequiredIs(g);
    LastDateIsStored(g, start, ss);
    hide NextAll, Next, Key, AllContinue;
  }

  lemma LastDateIsStored(g: Guard, start: Sync, ss: seq<Sync>)
    requires start.transition.Some? && Key(start.transition.value) != g.key && AllContinue(Next(g, start), ss)
    ensures (if ss == [] then start else ss[|ss| - 1]).today in NextAll(Next(g, start), ss).dates
  {
    var h := Next(g, start);
    FirstDate(g, start);
    if ss != [] {
      var front, last := ss[..|ss| - 1], ss[|ss| - 1];
      assert Dates([start.today]) == {start.today};
      assert Required(h) == Required(g);
      ConfirmationInvariant(h, start.today, front);
      assert Continues(NextAll(h, front), last);
      assert NextAll(h, ss).dates == Window(NextAll(h, front).dates, last.today, Required(g));
      hide *;
      RememberedFits(NextAll(h, front).dates, SeenDates(start.today, front), Required(g));
      TodayStays(NextAll(h, front).dates, last.today, Required(g));
    }
  }

  lemma RememberedFits(dates: seq<int>, seen: set<int>, required: nat)
    requires Remembers(dates, seen, required)
    ensures NoRepeats(dates) && |dates| <= required
  {
  }

  /** The window always holds the date just seen. */
  lemma TodayStays(dates: seq<int>, today: int, required: nat)
    requires NoRepeats(dates) && |dates| <= required && required >= 1
    ensures today in Window(dates, today, required)
  {
    var more := if today in dates then dates else dates + [today];
    DedupKeepsDistinct(more);
    if today !in dates { assert more[|more| - 1] == today; }
  }

  /**
   * The first sync after that with no transition and another label resets the guard; and it stays
   * inactive for any further syncs without a transition, as long as their labels are not blank.
   */
  lemma {:induction false} OtherLabelResets(g: Guard, start: Sync, ss: seq<Sync>, other: Sync, more: seq<Sync>)
    requires start.transition.Some?
    requires forall k :: 0 <= k < |ss| ==> Carries(start.transition.value, ss[k])
    requires other.transition.None? && other.regime != start.transition.value.to
    requires forall k :: 0 <= k < |more| ==> more[k].transition.None? && more[k].regime != ""
    ensures var g' := NextAll(Next(NextAll(Next(g, start), ss), other), more);
            && g'.present && !g'.available && !g'.active && g'.confirmedDays == 0 && g'.remaining == 0
            && g'.dates == [] && g'.key == "" && g'.toRegime == "" && g'.required == Required(g)
  {
    if more == [] {
      CarriedSyncsContinue(g, start, ss);
    } else {
      OtherLabelResets(g, start, ss, other, more[..|more| - 1]);
    }
  }

  lemma SameSuffixCancels(a: string, b: string, suffix: string)
    requires a + suffix == b + suffix
    ensures a == b
  {
    assert a == (a + suffix)[..|a|] && b == (b + suffix)[..|b|];
  }

  /** Transitions that differ in one of origin, target and time of detection have different keys. */
  lemma KeysDiffer(t: Transition, u: Transition)
    ensures t.to == u.to && t.detectedAt == u.detectedAt ==> (Key(t) == Key(u) <==> t.from == u.from)
    ensures t.from == u.from && t.detectedAt == u.detectedAt ==> (Key(t) == Key(u) <==> t.to == u.to)
    ensures t.from == u.from && t.to == u.to ==> (Key(t) == Key(u) <==> t.detectedAt == u.detectedAt)
  {
    if Key(t) == Key(u) {
      if t.to == u.to && t.detectedAt == u.detectedAt {
        var end := "->" + t.to + "@" + t.detectedAt;
        assert Key(t) == t.from + end && Key(u) == u.from + end;
        SameSuffixCancels(t.from, u.from, end);
      }
      if t.from == u.from && t.detectedAt == u.detectedAt {
        var front, end := t.from + "->", "@" + t.detectedAt;
        assert Key(t) == front + t.to + end && Key(u) == front + u.to + end;
        SameSuffixCancels(front + t.to, front + u.to, end);
        assert t.to == (front + t.to)[|front|..] && u.to == (front + u.to)[|front|..];
      }
      if t.from == u.from && t.to == u.to {
        var front := t.from + "->" + t.to + "@";
        assert t.detectedAt == Key(t)[|front|..] && u.detectedAt == Key(u)[|front|..];
      }
    }
  }

  lemma KeyExample()
    ensures Key(Transition("bull", "bear", "t1")) == "bull->bear@t1"
  {
  }

  /** So the same change detected at another time starts the confirmation over, and counts from that date. */
  lemma NewDetectionStartsOver(g: Guard, start: Sync, ss: seq<Sync>, again: Sync)
    requires start.transition.Some? && again.transition.Some?
    requires forall k :: 0 <= k < |ss| ==> Carries(start.transition.value, ss[k])
    requires again.transition.value.(detectedAt := "") == start.transition.value.(detectedAt := "")
    requires again.transition.value.detectedAt != start.transition.value.detectedAt
    ensures var g' := Next(NextAll(Next(g, start), ss), again);
            g'.confirmedDays == 1 && g'.dates == [again.today] && (g'.active <==> Required(g) > 1)
  {
    CarriedSyncsContinue(g, start, ss);
    KeysDiffer(start.transition.value, again.transition.value);
    FirstDate(NextAll(Next(g, start), ss), again);
    hide Next, NextAll, Key;
  }

  lemma FirstDate(g: Guard, start: Sync)
    requires start.transition.Some? && Key(start.transition.value) != g.key
    ensures Next(g, start).dates == [start.today] && Next(g, start).confirmedDays == 1
    ensures Next(g, start).active <==> Required(g) > 1
  {
    assert [start.today][..0] == [];
    assert Dedup([start.today]) == [start.today];
  }

  /**
   * A guard without any transition: starting with no record, it shows up as available exactly when
   * the last of at least two syncs has a blank label, because the inactive record's missing target
   * regime reads as that blank.
   */
  lemma {:induction false} GuardWithoutTransitionIff(ss: seq<Sync>)
    requires forall k :: 0 <= k < |ss| ==> ss[k].transition.None?
    ensures var g := NextAll(NO_GUARD, ss);
            && g.toRegime == "" && (g.present <==> ss != [])
            && (g.available <==> |ss| >= 2 && ss[|ss| - 1].regime == "")
  {
    if ss != [] {
      var front := ss[..|ss| - 1];
      assert forall k :: 0 <= k < |front| ==> front[k] == ss[k];
      GuardWithoutTransitionIff(front);
    }
  }
}
