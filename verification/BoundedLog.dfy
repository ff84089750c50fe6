/** Lists that the system keeps by appending and then cutting to the last `cap` entries. */
module BoundedLog {

  /** The slice `log[-cap:]` for a positive cap. */
  function Last<T>(log: seq<T>, cap: nat): (kept: seq<T>)
    ensures |log| <= cap ==> kept == log
    ensures |kept| == if |log| <= cap then |log| else cap
  {
    if |log| <= cap then log else log[|log| - cap..]
  }

  /** The stored list after appending `more` entries one at a time, cutting at each append. */
  function Append<T>(log: seq<T>, more: seq<T>, cap: nat): (stored: seq<T>)
    ensures more != [] ==> |stored| <= cap
  {
    if more == [] then log else Last(log + more, cap)
  }

  /** Cutting after every append keeps exactly what cutting the whole uncut log once would keep. */
  lemma CutEachAppend<T>(full: seq<T>, more: seq<T>, cap: nat)
    ensures Last(Last(full, cap) + more, cap) == Last(full + more, cap)
  {
    var stored := Last(full, cap);
    var cut := |full| - |stored|;
    assert full[cut..] == stored;
    assert (full + more)[cut..] == stored + more;
    if |stored + more| <= cap {
      assert |full + more| <= cap ==> cut == 0;
    } else {
      var drop := |stored + more| - cap;
      assert (stored + more)[drop..] == (full + more)[cut + drop..];
    }
  }

  /** Two rounds of appends are one round. */
  lemma AppendTwice<T>(log: seq<T>, first: seq<T>, second: seq<T>, cap: nat)
    ensures Append(Append(log, first, cap), second, cap) == Append(log, first + second, cap)
  {
    if first == [] {
      assert first + second == second;
    } else if second == [] {
      assert first + second == first;
    } else {
      CutEachAppend(log + first, second, cap);
      assert log + first + second == log + (first + second);
    }
  }

  /** A stored list that is the tail of an uncut log stays the tail of it under appends. */
  lemma AppendTracksFullLog<T>(stored: seq<T>, full: seq<T>, more: seq<T>, cap: nat)
    requires stored == Last(full, cap)
    ensures Append(stored, more, cap) == Last(full + more, cap)
  {
    CutEachAppend(full, more, cap);
    assert more == [] ==> full + more == full;
  }
}
