/** The daily artifact of stock behaviour profiles and its lookup (src/ashare_system/precompute.py). */
module BehaviorProfiles {
  import Retention
  import opened Wrappers

  /** A profile record; empty texts are "", the trade date 0 and `generatedAt` 0 stand for missing fields. */
  datatype Record = Record(symbol: string, profileDate: nat, source: string, generatedAt: nat, profile: Option<int>)

  /** One persisted artifact: the trade date it is for and its records by symbol. */
  datatype Artifact = Artifact(tradeDate: nat, items: map<string, Record>)

  // --------------------------------------------------------------- the merge

  /** The ranking of a record: of this date, then computed, then generated later. */
  datatype Score = Score(current: int, computed: int, generatedAt: nat)

  function ScoreOf(r: Record, date: nat): Score {
    Score(if r.profileDate == date then 1 else 0, if r.source == "computed" then 1 else 0, r.generatedAt)
  }

  predicate AtMost(a: Score, b: Score) {
    a.current < b.current || (a.current == b.current &&
    (a.computed < b.computed || (a.computed == b.computed && a.generatedAt <= b.generatedAt)))
  }

  /** A record the next merge on the same date will still read back. */
  predicate Readable(r: Record) {
    r.symbol != "" && r.profile.Some?
  }

  /** What the stored artifact contributes on this date, keyed by the symbol in the record. */
  function Carried(stored: Artifact, date: nat): map<string, Record> {
    if stored.tradeDate != date then map[]
    else map k | k in stored.items && Readable(stored.items[k]) :: stored.items[k]
  }

  function Better(current: Record, incoming: Record, date: nat): Record {
    if AtMost(ScoreOf(current, date), ScoreOf(incoming, date)) then incoming else current
  }

  function Merge(current: map<string, Record>, incoming: map<string, Record>, date: nat): map<string, Record> {
    map k | k in current.Keys + incoming.Keys ::
      if k !in incoming then current[k]
      else if k !in current then incoming[k]
      else Better(current[k], incoming[k], date)
  }

  function Persist(stored: Artifact, date: nat, records: map<string, Record>): Artifact {
    Artifact(date, Merge(Carried(stored, date), records, date))
  }

  /** Records are filed under their own symbol. */
  ghost predicate Filed(items: map<string, Record>) {
    forall k :: k in items ==> items[k].symbol == k
  }

  class ResearchStore {
    var latest: Artifact
    var history: seq<Artifact>

    constructor ()
      ensures latest == Artifact(0, map[]) && history == []
    {
      latest, history := Artifact(0, map[]), [];
    }
  }

  function Only(records: map<string, Record>, done: set<string>): map<string, Record> {
    map k | k in records && k in done :: records[k]
  }

  /** Merging in one more symbol touches that symbol only. */
  lemma MergeOne(
      carried: map<string, Record>, records: map<string, Record>, done: set<string>, symbol: string, date: nat)
    requires symbol in records && symbol !in done
    ensures var m := Merge(carried, Only(records, done), date);
            && (symbol in m <==> symbol in carried)
            && Merge(carried, Only(records, done + {symbol}), date) ==
                 m[symbol := if symbol in m then Better(m[symbol], records[symbol], date) else records[symbol]]
  {
  }

  /** The loop of `_persist_behavior_profile_artifact`: the newcomers replace what they outrank or tie with. */
  method MergeRecords(carried: map<string, Record>, records: map<string, Record>, date: nat)
    returns (merged: map<string, Record>)
    ensures merged == Merge(carried, records, date)
  {
    merged := carried;
    ghost var done: set<string> := {};
    var rest := records.Keys;
    while rest != {}
      invariant done == records.Keys - rest && rest <= records.Keys
      invariant merged == Merge(carried, Only(records, done), date)
      decreases rest
    {
      var symbol :| symbol in rest;
      MergeOne(carried, records, done, symbol, date);
      rest, done := rest - {symbol}, done + {symbol};
      var record := records[symbol];
      if symbol !in merged || AtMost(ScoreOf(merged[symbol], date), ScoreOf(record, date)) {
        merged := merged[symbol := record];
      }
    }
    assert Only(records, done) == records;
  }

  /** The history as the retention by trade date sees it. */
  function Entries(history: seq<Artifact>): (entries: seq<Retention.Entry<Artifact>>)
    ensures |entries| == |history|
  {
    seq(|history|, i requires 0 <= i < |history| => Retention.Entry(Some(history[i].tradeDate), history[i]))
  }

  /** `kept` is what the retention leaves of `history`. */
  ghost predicate Retained(kept: seq<Artifact>, history: seq<Artifact>, retainDays: int) {
    Retention.LongestSuffix(Entries(kept), Entries(history), if retainDays < 0 then 0 else retainDays)
  }

  method RetainArtifacts(history: seq<Artifact>, retainDays: int) returns (kept: seq<Artifact>)
    ensures Retained(kept, history, retainDays)
    ensures retainDays >= 1 && history != [] ==> kept != [] && kept[|kept| - 1] == history[|history| - 1]
  {
    var entries := Retention.RetainTradeDates(Entries(history), retainDays);
    kept := seq(|entries|, i requires 0 <= i < |entries| => entries[i].body);
    ghost var cut := |history| - |entries|;
    assert forall i :: 0 <= i < |entries| ==> entries[i] == Entries(history)[i + cut];
    assert Entries(kept) == entries;
    if retainDays >= 1 && history != [] {
      var n := |history| - 1;
      Retention.OneMoreDate(Entries(history), n);
      Retention.NoDates(Entries(history));
    }
  }

  /** `_persist_behavior_profile_artifact`, without the file it also writes. */
  method PersistBehaviorProfileArtifact(
      store: ResearchStore, date: nat, records: map<string, Record>, retainDays: int)
    requires Filed(store.latest.items)
    modifies store
    ensures store.latest == Persist(old(store.latest), date, records)
    ensures Retained(store.history, old(store.history) + [store.latest], retainDays)
    ensures retainDays >= 1 ==> store.history != [] && store.history[|store.history| - 1] == store.latest
  {
    var carried: map<string, Record> := map[];
    if store.latest.tradeDate == date {
      var items := store.latest.items;
      carried := map k | k in items && items[k].symbol != "" && items[k].profile.Some? :: items[k];
    }
    assert carried == Carried(store.latest, date);
    var merged := MergeRecords(carried, records, date);
    assert Artifact(date, merged) == Persist(store.latest, date, records);
    hide *;
    var kept := RetainArtifacts(store.history + [Artifact(date, merged)], retainDays);
    store.latest, store.history := Artifact(date, merged), kept;
  }

  // ---------------------------------------------------------- a day of merges

  function PersistAll(stored: Artifact, date: nat, offers: seq<map<string, Record>>): Artifact {
    if offers == [] then stored
    else Persist(PersistAll(stored, date, offers[..|offers| - 1]), date, offers[|offers| - 1])
  }

  predicate Offered(offers: seq<map<string, Record>>, symbol: string) {
    exists i :: 0 <= i < |offers| && symbol in offers[i]
  }

  /** `best` is offered, beats or ties everything offered, and strictly beats everything offered after it. */
  ghost predicate LatestMaximum(best: Record, offers: seq<map<string, Record>>, symbol: string, date: nat) {
    exists i :: 0 <= i < |offers| && symbol in offers[i] && offers[i][symbol] == best
      && (forall j :: 0 <= j < |offers| && symbol in offers[j] ==>
            AtMost(ScoreOf(offers[j][symbol], date), ScoreOf(best, date)))
      && (forall j :: i < j < |offers| && symbol in offers[j] ==>
            !AtMost(ScoreOf(best, date), ScoreOf(offers[j][symbol], date)))
  }

  ghost predicate AllReadable(offers: seq<map<string, Record>>) {
    forall i, k :: 0 <= i < |offers| && k in offers[i] ==> Readable(offers[i][k])
  }

  lemma ScoreTransitive(a: Score, b: Score, c: Score)
    requires AtMost(a, b) && AtMost(b, c)
    ensures AtMost(a, c)
  {
  }

  lemma ScoreTotal(a: Score, b: Score)
    ensures AtMost(a, b) || AtMost(b, a)
  {
  }

  /** Offering one more map keeps, or hands over, the latest maximum. */
  lemma NextOffer(best: Record, offers: seq<map<string, Record>>, next: map<string, Record>, symbol: string, date: nat)
    requires LatestMaximum(best, offers, symbol, date)
    ensures var better := if symbol in next then Better(best, next[symbol], date) else best;
            LatestMaximum(better, offers + [next], symbol, date)
  {
    var all := offers + [next];
    var i :| 0 <= i < |offers| && symbol in offers[i] && offers[i][symbol] == best
      && (forall j :: 0 <= j < |offers| && symbol in offers[j] ==>
            AtMost(ScoreOf(offers[j][symbol], date), ScoreOf(best, date)))
      && (forall j :: i < j < |offers| && symbol in offers[j] ==>
            !AtMost(ScoreOf(best, date), ScoreOf(offers[j][symbol], date)));
    assert forall j :: 0 <= j < |offers| ==> all[j] == offers[j];
    if symbol in next && AtMost(ScoreOf(best, date), ScoreOf(next[symbol], date)) {
      assert all[|offers|] == next;
      forall j | 0 <= j < |all| && symbol in all[j]
        ensures AtMost(ScoreOf(all[j][symbol], date), ScoreOf(next[symbol], date))
      {
        if j < |offers| {
          ScoreTransitive(ScoreOf(offers[j][symbol], date), ScoreOf(best, date), ScoreOf(next[symbol], date));
        }
      }
    } else {
      if symbol in next { ScoreTotal(ScoreOf(best, date), ScoreOf(next[symbol], date)); }
      assert all[i][symbol] == best;
    }
  }

  lemma OfferedSplits(front: seq<map<string, Record>>, last: map<string, Record>, symbol: string)
    ensures Offered(front + [last], symbol) <==> Offered(front, symbol) || symbol in last
  {
    var all := front + [last];
    if i :| 0 <= i < |front| && symbol in front[i] { assert symbol in all[i]; }
    if symbol in last { assert symbol in all[|front|]; }
  }

  lemma NewlyOffered(front: seq<map<string, Record>>, last: map<string, Record>, symbol: string, date: nat)
    requires !Offered(front, symbol) && symbol in last
    ensures LatestMaximum(last[symbol], front + [last], symbol, date)
  {
    var all := front + [last];
    assert all[|front|][symbol] == last[symbol];
    assert forall j :: 0 <= j < |front| ==> all[j] == front[j];
  }

  lemma FirstOffer(stored: Artifact, date: nat, offers: seq<map<string, Record>>, symbol: string)
    requires stored.tradeDate != date && |offers| == 1
    ensures PersistAll(stored, date, offers) == Artifact(date, offers[0])
    ensures Offered(offers, symbol) <==> symbol in offers[0]
    ensures symbol in offers[0] ==> LatestMaximum(offers[0][symbol], offers, symbol, date)
  {
    assert offers[..0] == [];
    assert Merge(map[], offers[0], date) == offers[0];
    if symbol in offers[0] { NewlyOffered([], offers[0], symbol, date); assert [] + [offers[0]] == offers; }
  }

  /**
   * Over any sequence of persists on one trade date that starts a fresh day, the stored record of a
   * symbol is the maximum of every record offered that day, ties going to the latest, provided every
   * record carries its symbol and a profile.
   */
  lemma {:induction false} StoredIsDaysMaximum(
      stored: Artifact, date: nat, offers: seq<map<string, Record>>, symbol: string)
    requires stored.tradeDate != date && AllReadable(offers) && offers != []
    ensures var day := PersistAll(stored, date, offers);
            && day.tradeDate == date
            && (forall k :: k in day.items ==> Readable(day.items[k]))
            && (symbol in day.items <==> Offered(offers, symbol))
            && (symbol in day.items ==> LatestMaximum(day.items[symbol], offers, symbol, date))
  {
    var front := offers[..|offers| - 1];
    var last := offers[|offers| - 1];
    assert offers == front + [last];
    assert AllReadable(front);
    if front == [] {
      FirstOffer(stored, date, offers, symbol);
    } else {
      StoredIsDaysMaximum(stored, date, front, symbol);
      var before := PersistAll(stored, date, front);
      assert Carried(before, date) == before.items;
      assert forall k :: k in last ==> Readable(offers[|front|][k]);
      OfferedSplits(front, last, symbol);
      if symbol in before.items {
        NextOffer(before.items[symbol], front, last, symbol, date);
      } else if symbol in last {
        NewlyOffered(front, last, symbol, date);
      }
    }
  }

  /**
   * A record without a profile is stored but not read back by the next merge of the day; so the better
   * of two offers is lost exactly when it came first, was strictly better, and had no profile. The two
   * callers in the service build every record with a profile.
   */
  lemma ProfilelessRecordIsLostIff(stored: Artifact, date: nat, first: Record, second: Record)
    requires stored.tradeDate != date && first.symbol == second.symbol != "" && second.profile.Some?
    ensures var k := first.symbol;
            var day := PersistAll(stored, date, [map[k := first], map[k := second]]);
            && k in day.items
            && (day.items[k] != Better(first, second, date) <==>
                  !AtMost(ScoreOf(first, date), ScoreOf(second, date)) && first.profile.None?)
  {
    var k := first.symbol;
    var offers := [map[k := first], map[k := second]];
    assert offers[..1] == [map[k := first]] && offers[..1][..0] == [];
    var one := PersistAll(stored, date, offers[..1]);
    assert PersistAll(stored, date, offers[..1][..0]) == stored;
    assert Merge(map[], map[k := first], date) == map[k := first];
    assert one.items == map[k := first];
    assert k in Carried(one, date) <==> first.profile.Some?;
    assert first != second || AtMost(ScoreOf(first, date), ScoreOf(second, date));
  }

  // --------------------------------------------------------------- the lookup

  /** A stored item as the lookup reads it. */
  function Normalized(r: Record, packDate: nat): Option<Record> {
    if r.symbol == "" || r.profile.None? then None
    else Some(r.(profileDate := if r.profileDate != 0 then r.profileDate else packDate,
                 source := if r.source != "" then r.source else "history_cache"))
  }

  /** The newest pack that has a readable record for the symbol. */
  function Newest(packs: seq<Artifact>, symbol: string): Option<Record> {
    if packs == [] then None else
      var pack := packs[|packs| - 1];
      if symbol in pack.items && Normalized(pack.items[symbol], pack.tradeDate).Some?
      then Normalized(pack.items[symbol], pack.tradeDate)
      else Newest(packs[..|packs| - 1], symbol)
  }

  function FullScan(packs: seq<Artifact>, allowed: set<string>): map<string, Record> {
    map s | s in allowed && Newest(packs, s).Some? :: Newest(packs, s).value
  }

  lemma {:induction false} NewestFromSuffix(packs: seq<Artifact>, k: nat, symbol: string)
    requires k <= |packs|
    ensures Newest(packs, symbol) ==
            if Newest(packs[k..], symbol).Some? then Newest(packs[k..], symbol) else Newest(packs[..k], symbol)
  {
    if k == |packs| {
      assert packs[..k] == packs;
    } else {
      var front := packs[..|packs| - 1];
      NewestFromSuffix(front, k, symbol);
      assert packs[k..][..|packs[k..]| - 1] == front[k..];
      assert front[..k] == packs[..k];
    }
  }

  lemma SubsetOfEqualSize<X>(a: set<X>, b: set<X>)
    requires a <= b && |a| >= |b|
    ensures a == b
  {
    assert b == a + (b - a);
  }

  /** The newest-first lookup with its early exit finds what a scan of all packs would find. */
  method LoadBehaviorProfileRecords(packs: seq<Artifact>, allowed: set<string>) returns (records: map<string, Record>)
    requires forall i :: 0 <= i < |packs| ==> Filed(packs[i].items)
    ensures records == FullScan(packs, allowed)
  {
    records := map[];
    var n := |packs|;
    assert packs[n..] == [];
    while n > 0
      invariant 0 <= n <= |packs|
      invariant records == FullScan(packs[n..], allowed)
      invariant records.Keys <= allowed
    {
      n := n - 1;
      ghost var before := records;
      forall s { AddPack(packs, n, s); }
      records := ScanPack(packs[n], allowed, records);
      assert records == FullScan(packs[n..], allowed);
      if |records.Keys| >= |allowed| {
        SubsetOfEqualSize(records.Keys, allowed);
        forall s { NewestFromSuffix(packs, n, s); }
        return;
      }
    }
    assert packs[0..] == packs;
  }

  lemma AddPack(packs: seq<Artifact>, n: nat, symbol: string)
    requires n < |packs|
    ensures Newest(packs[n..], symbol) ==
            if Newest(packs[n + 1..], symbol).Some? then Newest(packs[n + 1..], symbol) else Newest([packs[n]], symbol)
  {
    NewestFromSuffix(packs[n..], 1, symbol);
    assert packs[n..][1..] == packs[n + 1..];
    assert packs[n..][..1] == [packs[n]];
  }

  /** The inner loop over one pack's items. */
  method ScanPack(pack: Artifact, allowed: set<string>, found: map<string, Record>)
    returns (records: map<string, Record>)
    requires Filed(pack.items) && found.Keys <= allowed
    ensures records == map s | s in allowed && (s in found || Newest([pack], s).Some?) ::
                         if s in found then found[s] else Newest([pack], s).value
  {
    records := found;
    assert [pack][..0] == [];
    var rest := pack.items.Keys;
    while rest != {}
      invariant rest <= pack.items.Keys
      invariant records == map s | s in allowed && (s in found || (s !in rest && Newest([pack], s).Some?)) ::
                             if s in found then found[s] else Newest([pack], s).value
      decreases rest
    {
      var key :| key in rest;
      rest := rest - {key};
      var normalized := Normalized(pack.items[key], pack.tradeDate);
      assert normalized.Some? ==> normalized.value.symbol == key && Newest([pack], key) == normalized;
      if normalized.Some? && key !in records && key in allowed {
        records := records[key := normalized.value];
      }
    }
  }

  /** What was persisted last is what the lookup returns for its symbols. */
  lemma LookupReturnsPersisted(
      history: seq<Artifact>, stored: Artifact, date: nat, offers: seq<map<string, Record>>, symbol: string)
    requires stored.tradeDate != date && AllReadable(offers) && Offered(offers, symbol)
    requires history != [] && history[|history| - 1] == PersistAll(stored, date, offers)
    ensures var day := PersistAll(stored, date, offers);
            && symbol in day.items && LatestMaximum(day.items[symbol], offers, symbol, date)
            && Newest(history, symbol) == Normalized(day.items[symbol], date) && Newest(history, symbol).Some?
  {
    StoredIsDaysMaximum(stored, date, offers, symbol);
  }

  // ---------------------------------------------------------- what outranks

  /** For the date `date`: of that date before any other, then computed, then generated later. */
  predicate Outranks(a: Record, b: Record, date: nat) {
    || (a.profileDate == date != b.profileDate)
    || ((a.profileDate == date <==> b.profileDate == date) &&
        (|| (a.source == "computed" != b.source)
         || ((a.source == "computed" <==> b.source == "computed") && a.generatedAt > b.generatedAt)))
  }

  /** Of a stored and a new record the stored one stays exactly if it outranks the new one. */
  lemma BetterIs(current: Record, incoming: Record, date: nat)
    ensures Better(current, incoming, date) == if Outranks(current, incoming, date) then current else incoming
    ensures AtMost(ScoreOf(current, date), ScoreOf(incoming, date)) <==> !Outranks(current, incoming, date)
  {
  }

  /**
   * Over a day's persists: what is stored for a symbol was offered, no other offer outranks it, and it
   * outranks every offer that came after it.
   */
  lemma NothingOutranksStored(stored: Artifact, date: nat, offers: seq<map<string, Record>>, symbol: string)
    requires stored.tradeDate != date && AllReadable(offers) && offers != []
    ensures var day := PersistAll(stored, date, offers);
            && day.tradeDate == date
            && (symbol in day.items <==> exists i :: 0 <= i < |offers| && symbol in offers[i])
            && (symbol in day.items ==>
                  exists i :: 0 <= i < |offers| && symbol in offers[i] && offers[i][symbol] == day.items[symbol]
                    && (forall j :: 0 <= j < |offers| && symbol in offers[j] ==>
                          !Outranks(offers[j][symbol], day.items[symbol], date))
                    && (forall j :: i < j < |offers| && symbol in offers[j] ==>
                          Outranks(day.items[symbol], offers[j][symbol], date)))
  {
    StoredIsDaysMaximum(stored, date, offers, symbol);
    var day := PersistAll(stored, date, offers);
    if symbol in day.items {
      var best := day.items[symbol];
      forall r: Record
        ensures AtMost(ScoreOf(r, date), ScoreOf(best, date)) <==> !Outranks(r, best, date)
        ensures AtMost(ScoreOf(best, date), ScoreOf(r, date)) <==> !Outranks(best, r, date)
      {
        BetterIs(r, best, date);
        BetterIs(best, r, date);
      }
      hide PersistAll, Outranks, AtMost, ScoreOf;
      var i :| 0 <= i < |offers| && symbol in offers[i] && offers[i][symbol] == best
               && (forall j :: 0 <= j < |offers| && symbol in offers[j] ==>
                     AtMost(ScoreOf(offers[j][symbol], date), ScoreOf(best, date)))
               && (forall j :: i < j < |offers| && symbol in offers[j] ==>
                     !AtMost(ScoreOf(best, date), ScoreOf(offers[j][symbol], date)));
    }
  }

  /** A stored item is looked up with its date and source, or else with the date of its pack and "history_cache". */
  lemma LookedUpIs(pack: Artifact, symbol: string)
    requires symbol in pack.items
    ensures var r := pack.items[symbol];
            var found := Newest([pack], symbol);
            && (found.Some? <==> r.symbol != "" && r.profile.Some?)
            && (found.Some? ==>
                  && found.value.symbol == r.symbol && found.value.profile == r.profile
                  && found.value.generatedAt == r.generatedAt
                  && found.value.profileDate == (if r.profileDate == 0 then pack.tradeDate else r.profileDate)
                  && found.value.source == (if r.source == "" then "history_cache" else r.source))
  {
    assert [pack][..0] == [];
  }

  /** A newer pack answers first; one without a readable record of the symbol leaves the answer to the older ones. */
  lemma NewerAnswersFirst(packs: seq<Artifact>, pack: Artifact, symbol: string)
    ensures Newest(packs + [pack], symbol) ==
            if Newest([pack], symbol).Some? then Newest([pack], symbol) else Newest(packs, symbol)
    ensures symbol !in pack.items ==> Newest([pack], symbol) == None
  {
    assert (packs + [pack])[..|packs|] == packs && [pack][..0] == [];
  }
}
