/** When the dossier pack of the candidates is rebuilt (src/ashare_system/precompute.py). Times are microseconds. */
module DossierRefresh {
  import Text
  import opened Wrappers

  const SECOND := 1_000_000

  /** The stored pack; either time may be missing from it. */
  datatype Pack = Pack(signature: string, generatedAt: Option<int>, expiresAt: Option<int>)

  datatype Reason = NoCandidates | Missing | SignatureChanged | Expired | PollInterval | Fresh

  datatype Decision = Decision(refresh: bool, reason: Reason, symbols: seq<string>)

  /** What one unforced `refresh_if_due` returns; `Failed` stands for an exception on the way. */
  datatype Outcome = Skipped(reason: Reason) | Failed(reason: Reason) | Refreshed(reason: Reason, reused: bool)

  /**
   * One call: the candidates of the day, the arguments, the configuration it reads, the clock when it
   * decides and when it rebuilds, and whether the fetches of the rebuild succeed.
   */
  datatype Call = Call(
    candidates: seq<string>, tradeDate: string, source: string, asOf: string, limit: int,
    interval: int, ttl: int, decidesAt: int, rebuildsAt: int, fetches: bool)

  /** The slice `s[:limit]`, which counts a negative limit from the end. */
  function Slice<T>(s: seq<T>, limit: int): (r: seq<T>)
    ensures r <= s && (0 <= limit ==> |r| <= limit)
  {
    if limit < 0 then (if -limit <= |s| then s[..|s| + limit] else [])
    else if limit <= |s| then s[..limit] else s
  }

  function Join(symbols: seq<string>): string {
    if symbols == [] then ""
    else if |symbols| == 1 then symbols[0]
    else symbols[0] + "," + Join(symbols[1..])
  }

  function Signature(tradeDate: string, symbols: seq<string>, source: string, asOf: string): string {
    tradeDate + ":" + source + ":" + Join(symbols) + (if asOf == "" then "" else ":" + asOf)
  }

  predicate IsFresh(pack: Pack, now: int) {
    pack.expiresAt.Some? && now <= pack.expiresAt.value
  }

  /** Whole seconds since the dossier was generated, never negative. */
  function Elapsed(pack: Pack, now: int): Option<int> {
    if pack.generatedAt.None? then None
    else Some(if now < pack.generatedAt.value then 0 else (now - pack.generatedAt.value) / SECOND)
  }

  function Decide(latest: Option<Pack>, c: Call): Decision {
    var symbols := Slice(c.candidates, c.limit);
    if symbols == [] then Decision(false, NoCandidates, [])
    else if latest.None? then Decision(true, Missing, symbols)
    else
      var changed := latest.value.signature != Signature(c.tradeDate, symbols, c.source, Text.Strip(c.asOf));
      var elapsed := Elapsed(latest.value, c.decidesAt);
      if !changed && IsFresh(latest.value, c.decidesAt) then Decision(false, Fresh, symbols)
      else if elapsed.None? || elapsed.value >= c.interval then
        Decision(true, if changed then SignatureChanged else Expired, symbols)
      else Decision(false, PollInterval, symbols)
  }

  /** The signature that the rebuild asks for: it slices the symbols again and strips the time again. */
  function Wanted(c: Call, symbols: seq<string>): string {
    Signature(c.tradeDate, Slice(symbols, c.limit), c.source, Text.Strip(Text.Strip(c.asOf)))
  }

  function Built(c: Call, symbols: seq<string>): Pack {
    Pack(Wanted(c, symbols), Some(c.rebuildsAt), Some(c.rebuildsAt + c.ttl * SECOND))
  }

  /** The outcome of a call, and the dossier it adds, if any. */
  function Refresh(latest: Option<Pack>, c: Call): (Outcome, Option<Pack>) {
    var d := Decide(latest, c);
    if !d.refresh then (Skipped(d.reason), None)
    else if Slice(d.symbols, c.limit) == [] then (Failed(d.reason), None)
    else if latest.Some? && latest.value.signature == Wanted(c, d.symbols) && IsFresh(latest.value, c.rebuildsAt) then
      (Refreshed(d.reason, true), None)
    else if !c.fetches then (Failed(d.reason), None)
    else (Refreshed(d.reason, false), Some(Built(c, d.symbols)))
  }

  class DossierStore {
    var latest: Option<Pack>
    var history: seq<Pack>

    constructor ()
      ensures latest == None && history == []
    {
      latest, history := None, [];
    }

    /** `should_refresh_candidates`. */
    method ShouldRefreshCandidates(c: Call) returns (decision: Decision)
      ensures decision == Decide(latest, c)
    {
      var symbols := Slice(c.candidates, c.limit);
      if |symbols| == 0 {
        return Decision(false, NoCandidates, []);
      }
      var signature := Signature(c.tradeDate, symbols, c.source, Text.Strip(c.asOf));
      if latest.None? {
        return Decision(true, Missing, symbols);
      }
      var pack := latest.value;
      var elapsed: Option<int> := None;
      if pack.generatedAt.Some? {
        var micros := c.decidesAt - pack.generatedAt.value;
        elapsed := Some(if micros < 0 then 0 else micros / SECOND);
      }
      var isFresh := IsFresh(pack, c.decidesAt);
      var changed := pack.signature != signature;
      if changed || !isFresh {
        if elapsed.None? || elapsed.value >= c.interval {
          return Decision(true, if changed then SignatureChanged else Expired, symbols);
        }
        return Decision(false, PollInterval, symbols);
      }
      return Decision(false, Fresh, symbols);
    }

    /** `refresh_if_due` without `force`, with the reuse path of `precompute` and its `_persist`. */
    method RefreshIfDue(c: Call) returns (outcome: Outcome)
      modifies this
      ensures outcome == Refresh(old(latest), c).0
      ensures var added := Refresh(old(latest), c).1;
              if added.Some? then latest == added && history == old(history) + [added.value]
              else latest == old(latest) && history == old(history)
    {
      var decision := ShouldRefreshCandidates(c);
      if !decision.refresh {
        return Skipped(decision.reason);
      }
      var symbols := Slice(decision.symbols, c.limit);
      if symbols == [] {
        return Failed(decision.reason);
      }
      var wanted := Signature(c.tradeDate, symbols, c.source, Text.Strip(Text.Strip(c.asOf)));
      if latest.Some? && latest.value.signature == wanted && IsFresh(latest.value, c.rebuildsAt) {
        return Refreshed(decision.reason, true);
      }
      if !c.fetches {
        return Failed(decision.reason);
      }
      var pack := Pack(wanted, Some(c.rebuildsAt), Some(c.rebuildsAt + c.ttl * SECOND));
      latest, history := Some(pack), history + [pack];
      return Refreshed(decision.reason, false);
    }
  }

  // -------------------------------------------------------------------- runs

  /** The store after a run from `start`, the packs the run built and what its calls returned. */
  datatype Trace = Trace(latest: Option<Pack>, built: seq<Pack>, outcomes: seq<Outcome>)

  function Run(start: Option<Pack>, calls: seq<Call>): (t: Trace)
    ensures |t.outcomes| == |calls|
  {
    if calls == [] then Trace(start, [], []) else
      var before := Run(start, calls[..|calls| - 1]);
      var (outcome, added) := Refresh(before.latest, calls[|calls| - 1]);
      Trace(if added.Some? then added else before.latest,
            if added.Some? then before.built + [added.value] else before.built,
            before.outcomes + [outcome])
  }

  /** The clock never goes back, within a call or from one call to the next. */
  ghost predicate Monotone(calls: seq<Call>) {
    && (forall i :: 0 <= i < |calls| ==> calls[i].decidesAt <= calls[i].rebuildsAt)
    && (forall i, j :: 0 <= i < j < |calls| ==> calls[i].rebuildsAt <= calls[j].decidesAt)
  }

  ghost predicate PolledAtLeast(calls: seq<Call>, interval: int) {
    forall i :: 0 <= i < |calls| ==> calls[i].interval >= interval
  }

  /** Packs are built when the clock says, and are spaced. */
  ghost predicate Spaced(built: seq<Pack>, interval: int) {
    && (forall i :: 0 <= i < |built| ==> built[i].generatedAt.Some?)
    && (forall i :: 0 <= i < |built| - 1 ==>
          built[i + 1].generatedAt.value - built[i].generatedAt.value >= interval * SECOND)
  }

  /** The last dossier built is the one stored, and it is not newer than the run. */
  ghost predicate Tracks(t: Trace, start: Option<Pack>, calls: seq<Call>) {
    if t.built == [] then t.latest == start
    else
      && t.latest == Some(t.built[|t.built| - 1]) && t.latest.value.generatedAt.Some?
      && calls != [] && t.latest.value.generatedAt.value <= calls[|calls| - 1].rebuildsAt
  }

  /** Over any run of unforced calls, successive packs are at least the poll interval apart, whatever the limit. */
  lemma {:induction false} PacksAreSpaced(start: Option<Pack>, calls: seq<Call>, interval: int)
    requires Monotone(calls) && PolledAtLeast(calls, interval)
    ensures Spaced(Run(start, calls).built, interval)
  {
    if calls != [] {
      var front := calls[..|calls| - 1];
      PacksAreSpaced(start, front, interval);
      RunTracks(start, front);
      OneMorePack(Run(start, front), start, calls, interval);
    }
  }

  lemma OneMorePack(before: Trace, start: Option<Pack>, calls: seq<Call>, interval: int)
    requires calls != [] && Monotone(calls) && PolledAtLeast(calls, interval)
    requires Spaced(before.built, interval) && Tracks(before, start, calls[..|calls| - 1])
    ensures var added := Refresh(before.latest, calls[|calls| - 1]).1;
            added.Some? ==> Spaced(before.built + [added.value], interval)
  {
    var last := calls[|calls| - 1];
    var added := Refresh(before.latest, last).1;
    if added.Some? && before.built != [] {
      var pack := before.latest.value;
      assert pack.generatedAt.value <= last.decidesAt;
      AddedIsDue(pack, last);
      hide Refresh, Decide;
      var built := before.built + [added.value];
      assert built[|built| - 2] == pack;
    }
  }

  lemma AddedIsDue(pack: Pack, c: Call)
    requires pack.generatedAt.Some? && pack.generatedAt.value <= c.decidesAt <= c.rebuildsAt
    requires Refresh(Some(pack), c).1.Some?
    ensures Refresh(Some(pack), c).1.value.generatedAt == Some(c.rebuildsAt)
    ensures c.rebuildsAt - pack.generatedAt.value >= c.interval * SECOND
  {
    assert Elapsed(pack, c.decidesAt).value >= c.interval;
  }

  lemma {:induction false} RunTracks(start: Option<Pack>, calls: seq<Call>)
    requires Monotone(calls)
    ensures Tracks(Run(start, calls), start, calls)
  {
    if calls != [] {
      var front := calls[..|calls| - 1];
      RunTracks(start, front);
      OneCallTracks(Run(start, front), start, calls);
    }
  }

  lemma OneCallTracks(before: Trace, start: Option<Pack>, calls: seq<Call>)
    requires calls != [] && Monotone(calls) && Tracks(before, start, calls[..|calls| - 1])
    ensures var added := Refresh(before.latest, calls[|calls| - 1]).1;
            if added.Some? then added.value.generatedAt == Some(calls[|calls| - 1].rebuildsAt)
            else Tracks(before, start, calls)
  {
    var last := calls[|calls| - 1];
    if before.built != [] {
      var front := calls[..|calls| - 1];
      assert calls[|front| - 1].rebuildsAt <= last.decidesAt <= last.rebuildsAt;
    }
  }

  // ------------------------------------------- the decision and the rebuild agree

  lemma SameSignature(c: Call)
    requires c.limit >= 0
    ensures var symbols := Slice(c.candidates, c.limit);
            && Slice(symbols, c.limit) == symbols
            && Wanted(c, symbols) == Signature(c.tradeDate, symbols, c.source, Text.Strip(c.asOf))
  {
    Text.StripShape(c.asOf);
    Text.StripShape(Text.Strip(c.asOf));
  }

  /** With a limit that is not negative, whatever is stored, a call that reports a refresh has rebuilt. */
  lemma RefreshedIsRebuilt(latest: Option<Pack>, c: Call)
    requires c.decidesAt <= c.rebuildsAt && c.limit >= 0
    ensures Refresh(latest, c).0.Refreshed? ==> !Refresh(latest, c).0.reused && Refresh(latest, c).1.Some?
    ensures Refresh(latest, c).0.Failed? ==> !c.fetches
  {
    SameSignature(c);
  }

  /** After a call that did not fail, the stored pack serves the candidates, or is younger than the poll interval. */
  lemma StoredServesOrIsYoung(latest: Option<Pack>, c: Call)
    requires c.decidesAt <= c.rebuildsAt && c.limit >= 0 && c.ttl >= 0
    requires !Refresh(latest, c).0.Failed? && Slice(c.candidates, c.limit) != []
    ensures var added := Refresh(latest, c).1;
            var pack := if added.Some? then added else latest;
            && pack.Some?
            && (|| (&& pack.value.signature
                       == Signature(c.tradeDate, Slice(c.candidates, c.limit), c.source, Text.Strip(c.asOf))
                    && IsFresh(pack.value, c.decidesAt))
                || (pack.value.generatedAt.Some? && c.decidesAt - pack.value.generatedAt.value < c.interval * SECOND))
  {
    SameSignature(c);
  }

  ghost predicate Fixed(calls: seq<Call>, limit: int, interval: int, ttl: int) {
    forall i :: 0 <= i < |calls| ==> calls[i].limit == limit && calls[i].interval == interval && calls[i].ttl == ttl
  }

  ghost predicate NothingReused(outcomes: seq<Outcome>) {
    forall i :: 0 <= i < |outcomes| && outcomes[i].Refreshed? ==> !outcomes[i].reused
  }

  /** Every run from an empty store under this configuration. */
  ghost predicate NeverReuses(limit: int, interval: int, ttl: int) {
    forall calls :: Monotone(calls) && Fixed(calls, limit, interval, ttl) ==> NothingReused(Run(None, calls).outcomes)
  }

  /**
   * "Refreshed" never comes back with "reused" if and only if the limit is not negative or packs
   * expire before the poll interval has passed.
   */
  lemma NeverReusesIff(limit: int, interval: int, ttl: int)
    ensures NeverReuses(limit, interval, ttl) <==> limit >= 0 || ttl < 0 || ttl < interval
  {
    if limit >= 0 || ttl < 0 || ttl < interval {
      forall calls | Monotone(calls) && Fixed(calls, limit, interval, ttl)
        ensures NothingReused(Run(None, calls).outcomes)
      {
        RunReusesNothing(calls, limit, interval, ttl);
      }
    } else {
      NegativeLimitReuses(limit, interval, ttl);
      assert Run(None, NegativeLimitCalls(limit, interval, ttl)).outcomes[1].reused;
    }
  }

  lemma {:induction false} RunReusesNothing(calls: seq<Call>, limit: int, interval: int, ttl: int)
    requires limit >= 0 || ttl < 0 || ttl < interval
    requires Monotone(calls) && Fixed(calls, limit, interval, ttl)
    ensures NothingReused(Run(None, calls).outcomes)
    ensures LivesFor(Run(None, calls).latest, ttl)
  {
    if calls != [] {
      var front := calls[..|calls| - 1];
      RunReusesNothing(front, limit, interval, ttl);
      RunTracks(None, front);
      var before := Run(None, front);
      assert before.latest.Some? ==> before.built != [];
      OneCallReusesNothing(before.latest, calls[|calls| - 1]);
    }
  }

  ghost predicate LivesFor(latest: Option<Pack>, ttl: int) {
    latest.Some? ==>
      && latest.value.generatedAt.Some?
      && latest.value.expiresAt == Some(latest.value.generatedAt.value + ttl * SECOND)
  }

  lemma OneCallReusesNothing(latest: Option<Pack>, c: Call)
    requires c.limit >= 0 || c.ttl < 0 || c.ttl < c.interval
    requires c.decidesAt <= c.rebuildsAt
    requires LivesFor(latest, c.ttl) && (latest.Some? ==> latest.value.generatedAt.value <= c.decidesAt)
    ensures Refresh(latest, c).0.Refreshed? ==> !Refresh(latest, c).0.reused
    ensures Refresh(latest, c).1.Some? ==> LivesFor(Refresh(latest, c).1, c.ttl)
  {
    if c.limit >= 0 {
      RefreshedIsRebuilt(latest, c);
    } else if latest.Some? && Decide(latest, c).refresh {
      assert Elapsed(latest.value, c.decidesAt).value >= c.interval;
    }
  }

  /** Two calls with 2n + 1 candidates and limit -n, one poll interval apart. */
  function NegativeLimitCalls(limit: int, interval: int, ttl: int): seq<Call>
    requires limit < 0
  {
    var candidates: seq<string> := seq(1 - 2 * limit, _ => "A");
    var wait := if interval < 0 then 0 else interval;
    [Call(candidates, "", "", "", limit, interval, ttl, 0, 0, true),
     Call(candidates, "", "", "", limit, interval, ttl, wait * SECOND, wait * SECOND, true)]
  }

  /** The decision sees n + 1 of the candidates and the rebuild only one, which is the one stored. */
  lemma NegativeLimitReuses(limit: int, interval: int, ttl: int)
    requires limit < 0 <= ttl && interval <= ttl
    ensures var calls := NegativeLimitCalls(limit, interval, ttl);
            && Monotone(calls) && Fixed(calls, limit, interval, ttl)
            && Run(None, calls).outcomes == [Refreshed(Missing, false), Refreshed(SignatureChanged, true)]
  {
    var calls := NegativeLimitCalls(limit, interval, ttl);
    var first, second := calls[0], calls[1];
    var decided := Slice(first.candidates, limit);
    assert |decided| == 1 - limit && decided[0] == "A";
    assert Slice(decided, limit) == ["A"];
    var pack := Pack(Wanted(first, decided), Some(0), Some(ttl * SECOND));
    assert Refresh(None, first) == (Refreshed(Missing, false), Some(pack));

    assert Join(decided) == "A" + "," + Join(decided[1..]);
    assert Text.Strip("") == "";
    assert |pack.signature| < |Signature("", decided, "", "")|;
    assert Refresh(Some(pack), second) == (Refreshed(SignatureChanged, true), None);

    assert calls[..1] == [first] && calls[..1][..0] == [];
    assert Run(None, calls[..1]) == Trace(Some(pack), [pack], [Refreshed(Missing, false)]);
  }

  // ------------------------------------------------- decisions and signatures

  /** The first `limit` symbols, or for a negative limit all but the last `-limit`. */
  lemma SliceIs(s: seq<string>, limit: int)
    ensures 0 <= limit ==> |Slice(s, limit)| == if |s| <= limit then |s| else limit
    ensures limit < 0 ==> |Slice(s, limit)| == if |s| <= -limit then 0 else |s| + limit
    ensures forall i :: 0 <= i < |Slice(s, limit)| ==> Slice(s, limit)[i] == s[i]
  {
  }

  /**
   * A stored pack of the same signature that has not expired is kept; any other is rebuilt once the poll
   * interval has passed since it was generated, or at once if that is unknown.
   */
  lemma DecisionIs(latest: Option<Pack>, c: Call)
    ensures var symbols := Slice(c.candidates, c.limit);
            var d := Decide(latest, c);
            && (symbols == [] ==> d == Decision(false, NoCandidates, []))
            && (symbols != [] && latest.None? ==> d == Decision(true, Missing, symbols))
            && (symbols != [] && latest.Some? ==>
                  var pack := latest.value;
                  var same := pack.signature == Signature(c.tradeDate, symbols, c.source, Text.Strip(c.asOf));
                  var unexpired := pack.expiresAt.Some? && c.decidesAt <= pack.expiresAt.value;
                  var due := pack.generatedAt.None? || c.interval <= 0
                             || c.decidesAt - pack.generatedAt.value >= c.interval * 1_000_000;
                  d == if same && unexpired then Decision(false, Fresh, symbols)
                       else if !due then Decision(false, PollInterval, symbols)
                       else Decision(true, if same then Expired else SignatureChanged, symbols))
  {
    var symbols := Slice(c.candidates, c.limit);
    if symbols != [] && latest.Some? && latest.value.generatedAt.Some? {
      WholeSeconds(c.decidesAt - latest.value.generatedAt.value, c.interval);
    }
  }

  lemma WholeSeconds(micros: int, seconds: int)
    ensures (if micros < 0 then 0 else micros / 1_000_000) >= seconds <==>
            seconds <= 0 || micros >= seconds * 1_000_000
  {
  }

  /** A new pack is stored with the signature asked for, and expires its life time after it was built. */
  lemma NewPackIs(latest: Option<Pack>, c: Call)
    ensures var added := Refresh(latest, c).1;
            added.Some? ==>
              && added.value.generatedAt == Some(c.rebuildsAt)
              && added.value.expiresAt == Some(c.rebuildsAt + c.ttl * 1_000_000)
              && c.fetches && Refresh(latest, c).0 == Refreshed(Decide(latest, c).reason, false)
              && (0 <= c.limit ==>
                    added.value.signature ==
                    Signature(c.tradeDate, Slice(c.candidates, c.limit), c.source, Text.Strip(c.asOf)))
  {
    if c.limit >= 0 { SameSignature(c); }
  }

  ghost predicate CommaFree(symbols: seq<string>) {
    forall i :: 0 <= i < |symbols| ==> ',' !in symbols[i]
  }

  lemma JoinHead(a: string, rest: seq<string>)
    ensures Join([a] + rest) == if rest == [] then a else a + "," + Join(rest)
  {
    assert ([a] + rest)[1..] == rest;
  }

  lemma CommaSplits(a: string, x: string, b: string, y: string)
    requires ',' !in a && ',' !in b && a + "," + x == b + "," + y
    ensures a == b && x == y
  {
    var left, right := a + "," + x, b + "," + y;
    assert left[|a|] == ',' && right[|b|] == ',';
    assert forall k :: 0 <= k < |a| ==> left[k] == a[k] && left[k] != ',';
    assert forall k :: 0 <= k < |b| ==> right[k] == b[k] && right[k] != ',';
    assert |a| == |b|;
    assert a == left[..|a|] && b == right[..|b|];
    assert x == left[|a| + 1..] && y == right[|b| + 1..];
  }

  lemma CommaIff(symbols: seq<string>)
    requires symbols != [] && CommaFree(symbols)
    ensures ',' in Join(symbols) <==> |symbols| > 1
  {
    if |symbols| > 1 { assert Join(symbols)[|symbols[0]|] == ','; }
  }

  /** Lists of symbols without commas are joined to different texts. */
  lemma {:induction false} JoinIsInjective(a: seq<string>, b: seq<string>)
    requires a != [] && b != [] && CommaFree(a) && CommaFree(b) && Join(a) == Join(b)
    ensures a == b
    decreases |a|
  {
    assert a == [a[0]] + a[1..] && b == [b[0]] + b[1..];
    JoinHead(a[0], a[1..]);
    JoinHead(b[0], b[1..]);
    CommaIff(a);
    CommaIff(b);
    hide Join;
    if |a| > 1 {
      CommaSplits(a[0], Join(a[1..]), b[0], Join(b[1..]));
      JoinIsInjective(a[1..], b[1..]);
    }
  }

  lemma SameEnds(front: string, a: string, b: string, end: string)
    requires front + a + end == front + b + end
    ensures a == b
  {
    assert a == (front + a + end)[|front|..|front + a|] && b == (front + b + end)[|front|..|front + b|];
  }

  function TimeSuffix(asOf: string): string {
    if asOf == "" then "" else ":" + asOf
  }

  lemma SignatureOf(d: string, symbols: seq<string>, source: string, asOf: string)
    ensures var (list, at) := (Join(symbols), TimeSuffix(asOf));
            var text := Signature(d, symbols, source, asOf);
            && text == "" + d + (":" + source + ":" + list + at)
            && text == (d + ":") + source + (":" + list + at)
            && text == (d + ":" + source + ":") + list + at
            && text == (d + ":" + source + ":" + list) + at + ""
  {
  }

  /**
   * Signatures that agree in all but one component agree in that one too: another trade date, source, time
   * or list of candidates is another signature.
   */
  lemma SignatureTells(
      d: string, symbols: seq<string>, source: string, asOf: string,
      d': string, symbols': seq<string>, source': string, asOf': string)
    requires symbols != [] && symbols' != [] && CommaFree(symbols) && CommaFree(symbols')
    ensures Signature(d, symbols, source, asOf) == Signature(d', symbols, source, asOf) ==> d == d'
    ensures Signature(d, symbols, source, asOf) == Signature(d, symbols, source', asOf) ==> source == source'
    ensures Signature(d, symbols, source, asOf) == Signature(d, symbols', source, asOf) ==> symbols == symbols'
    ensures Signature(d, symbols, source, asOf) == Signature(d, symbols, source, asOf') ==> asOf == asOf'
  {
    var (list, list', at, at') := (Join(symbols), Join(symbols'), TimeSuffix(asOf), TimeSuffix(asOf'));
    SignatureOf(d, symbols, source, asOf);
    SignatureOf(d', symbols, source, asOf);
    SignatureOf(d, symbols, source', asOf);
    SignatureOf(d, symbols', source, asOf);
    SignatureOf(d, symbols, source, asOf');
    TimeSuffixTells(asOf, asOf');
    hide Signature, Join, TimeSuffix, CommaFree;
    if Signature(d, symbols, source, asOf) == Signature(d', symbols, source, asOf) {
      SameEnds("", d, d', ":" + source + ":" + list + at);
    }
    if Signature(d, symbols, source, asOf) == Signature(d, symbols, source', asOf) {
      SameEnds(d + ":", source, source', ":" + list + at);
    }
    if Signature(d, symbols, source, asOf) == Signature(d, symbols', source, asOf) {
      SameEnds(d + ":" + source + ":", list, list', at);
      JoinIsInjective(symbols, symbols');
    }
    if Signature(d, symbols, source, asOf) == Signature(d, symbols, source, asOf') {
      SameEnds(d + ":" + source + ":" + list, at, at', "");
    }
  }

  lemma TimeSuffixTells(a: string, b: string)
    ensures TimeSuffix(a) == TimeSuffix(b) ==> a == b
  {
    assert a != "" ==> a == TimeSuffix(a)[1..];
    assert b != "" ==> b == TimeSuffix(b)[1..];
  }

  /** So a pack built for one trade date is never fresh for another: it is rebuilt once the interval is over. */
  lemma OtherDateRebuilds(latest: Option<Pack>, first: Call, second: Call)
    requires Refresh(latest, first).1.Some? && 0 <= first.limit
    requires second.candidates == first.candidates && second.limit == first.limit && second.source == first.source
    requires Text.Strip(second.asOf) == Text.Strip(first.asOf) && CommaFree(first.candidates)
    requires second.tradeDate != first.tradeDate
    ensures var d := Decide(Refresh(latest, first).1, second);
            && d.reason in {SignatureChanged, PollInterval}
            && (d.refresh <==> second.interval <= 0
                               || second.decidesAt - first.rebuildsAt >= second.interval * 1_000_000)
  {
    var symbols := Slice(first.candidates, first.limit);
    NewPackIs(latest, first);
    DecisionIs(latest, first);
    DecisionIs(Refresh(latest, first).1, second);
    assert symbols != [];
    hide Signature, Refresh, Decide;
    SignatureTells(first.tradeDate, symbols, first.source, Text.Strip(first.asOf),
                   second.tradeDate, symbols, first.source, Text.Strip(first.asOf));
  }

  /**
   * How a call that decided to refresh ends: a stored pack of the wanted signature that has not expired by
   * then is reused; otherwise a new one is built, unless the candidates or the fetches fail.
   */
  lemma RefreshIs(latest: Option<Pack>, c: Call)
    ensures var d := Decide(latest, c);
            var (outcome, added) := Refresh(latest, c);
            var serves := latest.Some? && latest.value.signature == Wanted(c, d.symbols)
                          && latest.value.expiresAt.Some? && c.rebuildsAt <= latest.value.expiresAt.value;
            var none := Slice(d.symbols, c.limit) == [];
            && (outcome == Skipped(d.reason) <==> !d.refresh)
            && (outcome == Refreshed(d.reason, true) <==> d.refresh && !none && serves)
            && (outcome == Refreshed(d.reason, false) <==> d.refresh && !none && !serves && c.fetches)
            && (outcome == Failed(d.reason) <==> d.refresh && (none || (!serves && !c.fetches)))
            && (added.Some? <==> outcome == Refreshed(d.reason, false))
  {
  }
}
