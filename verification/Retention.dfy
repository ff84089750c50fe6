/** Retention of history by trade date (src/ashare_system/precompute.py). */
module Retention {
  import opened Wrappers

  /** A history entry; a missing trade date is a date like any other. */
  datatype Entry<+T> = Entry(tradeDate: Option<int>, body: T)

  ghost function Dates<T>(history: seq<Entry<T>>): set<Option<int>> {
    if history == [] then {} else {history[0].tradeDate} + Dates(history[1..])
  }

  /** `kept` is the longest suffix of `history` with at most `days` distinct trade dates. */
  ghost predicate LongestSuffix<T>(kept: seq<Entry<T>>, history: seq<Entry<T>>, days: nat) {
    && |kept| <= |history| && kept == history[|history| - |kept|..]
    && |Dates(kept)| <= days
    && forall i :: 0 <= i < |history| - |kept| ==> |Dates(history[i..])| > days
  }

  lemma SmallerSet<X>(a: set<X>, b: set<X>)
    requires a <= b
    ensures |a| <= |b|
  {
    assert b == a + (b - a);
  }

  lemma {:induction false} SuffixHasFewerDates<T>(history: seq<Entry<T>>, i: nat, j: nat)
    requires i <= j <= |history|
    ensures Dates(history[j..]) <= Dates(history[i..]) && |Dates(history[j..])| <= |Dates(history[i..])|
    decreases j - i
  {
    if i < j {
      SuffixHasFewerDates(history, i + 1, j);
      assert history[i..][1..] == history[i + 1..];
    }
    SmallerSet(Dates(history[j..]), Dates(history[i..]));
  }

  lemma {:induction false} PrefixHasFewerDates<T>(history: seq<Entry<T>>, more: seq<Entry<T>>)
    ensures |Dates(history)| <= |Dates(history + more)| && Dates(history) <= Dates(history + more)
  {
    if history != [] {
      PrefixHasFewerDates(history[1..], more);
      assert (history + more)[1..] == history[1..] + more;
    }
    SmallerSet(Dates(history), Dates(history + more));
  }

  /** The reverse loop: collect entries until one more date than allowed has been seen, then skip the rest. */
  method RetainTradeDates<T>(history: seq<Entry<T>>, retainDays: int) returns (kept: seq<Entry<T>>)
    ensures LongestSuffix(kept, history, if retainDays < 0 then 0 else retainDays)
  {
    hide Dates;
    ghost var days: nat := if retainDays < 0 then 0 else retainDays;
    ghost var cut := |history|;
    var seen: set<Option<int>> := {};
    kept := [];
    var n := |history|;
    NoDates(history);
    while n > 0
      invariant 0 <= n <= cut <= |history|
      invariant seen == Dates(history[n..])
      invariant kept == history[cut..] && |Dates(history[cut..])| <= days
      invariant |seen| <= days ==> cut == n
      invariant forall i :: n <= i < cut ==> |Dates(history[i..])| > days
    {
      n := n - 1;
      var item := history[n];
      OneMoreDate(history, n);
      if item.tradeDate !in seen {
        seen := seen + {item.tradeDate};
      }
      assert seen == Dates(history[n..]);
      if |seen| <= retainDays {
        kept := [item] + kept;
        cut := n;
      }
    }
  }

  lemma NoDates<T>(history: seq<Entry<T>>)
    ensures history[|history|..] == [] && Dates(history[|history|..]) == {}
  {
  }

  lemma OneMoreDate<T>(history: seq<Entry<T>>, n: nat)
    requires n < |history|
    ensures history[n..] == [history[n]] + history[n + 1..]
    ensures Dates(history[n..]) == Dates(history[n + 1..]) + {history[n].tradeDate}
    ensures |Dates(history[n + 1..])| <= |Dates(history[n..])|
  {
    assert history[n..][1..] == history[n + 1..];
    SuffixHasFewerDates(history, n, n + 1);
  }

  /** There is only one longest suffix. */
  lemma LongestSuffixIsUnique<T>(a: seq<Entry<T>>, b: seq<Entry<T>>, history: seq<Entry<T>>, days: nat)
    requires LongestSuffix(a, history, days) && LongestSuffix(b, history, days)
    ensures a == b
  {
  }

  /**
   * Trimming on every append keeps exactly what trimming the whole untrimmed history once keeps, also
   * when the retention is shortened on the way.
   */
  lemma TrimEachAppend<T>(
      history: seq<Entry<T>>, more: seq<Entry<T>>, stored: seq<Entry<T>>, kept: seq<Entry<T>>, days: nat, fewer: nat)
    requires fewer <= days && LongestSuffix(stored, history, days)
    ensures LongestSuffix(kept, stored + more, fewer) <==> LongestSuffix(kept, history + more, fewer)
  {
    var all := history + more;
    var cut := |history| - |stored|;
    assert all[cut..] == stored + more;
    forall i | 0 <= i < cut
      ensures |Dates(all[i..])| > fewer
    {
      assert |Dates(history[i..])| > days;
      assert all[i..] == history[i..] + more;
      PrefixHasFewerDates(history[i..], more);
    }
    LongestInSuffix(kept, all, cut, fewer);
  }

  /** Entries that no admissible suffix reaches can be dropped beforehand. */
  lemma LongestInSuffix<T>(kept: seq<Entry<T>>, whole: seq<Entry<T>>, cut: nat, days: nat)
    requires cut <= |whole| && forall i :: 0 <= i < cut ==> |Dates(whole[i..])| > days
    ensures LongestSuffix(kept, whole[cut..], days) <==> LongestSuffix(kept, whole, days)
  {
    var part := whole[cut..];
    if LongestSuffix(kept, part, days) {
      assert kept == whole[|whole| - |kept|..];
      forall i | 0 <= i < |whole| - |kept|
        ensures |Dates(whole[i..])| > days
      {
        if i >= cut {
          assert part[i - cut..] == whole[i..];
          assert |Dates(part[i - cut..])| > days;
        }
      }
    }
    if LongestSuffix(kept, whole, days) {
      assert |kept| <= |part|;
      assert kept == part[|part| - |kept|..];
      forall i | 0 <= i < |part| - |kept|
        ensures |Dates(part[i..])| > days
      {
        assert part[i..] == whole[i + cut..];
      }
    }
  }
}
