/**
 * Translation of the weekday field of a crontab line to APScheduler's numbering
 * (src/ashare_system/scheduler.py). A weekday is counted from Monday, 0 to 6.
 */
module CrontabWeekdays {
  import Text
  import opened Wrappers

  // ---------------------------------------------------------- the translation

  /** Index of the first `c`, or the length when there is none. */
  function Find(s: string, c: char): (k: nat)
    ensures k <= |s| && (k < |s| ==> s[k] == c) && (k < |s| <==> c in s)
    ensures forall i :: 0 <= i < k ==> s[i] != c
  {
    if s == [] || s[0] == c then 0 else 1 + Find(s[1..], c)
  }

  predicate IsDigit(c: char) { '0' <= c <= '9' }

  /** Value of a decimal text; None stands for the ValueError of other texts. */
  function ToInt(s: string): Option<nat> {
    if s == [] || !IsDigit(s[|s| - 1]) then None
    else
      var last := (s[|s| - 1] - '0') as nat;
      if |s| == 1 then Some(last)
      else
        var front := ToInt(s[..|s| - 1]);
        if front.None? then None else Some(10 * front.value + last)
  }

  function Digit(d: nat): char
    requires d <= 9
  {
    '0' + d as char
  }

  /** Crontab 0 and 7 are Sunday, 1 is Monday; APScheduler counts from Monday. */
  function ToAps(d: nat): nat {
    if d == 0 || d == 7 then 6 else d - 1
  }

  function Join(a: Option<string>, sep: string, b: Option<string>): Option<string> {
    if a.Some? && b.Some? then Some(a.value + sep + b.value) else None
  }

  /** `map_token`: a step is split off before a list, and what follows the first slash is copied. */
  function MapToken(token: string): Option<string>
    decreases |token|
  {
    var slash, comma, dash := Find(token, '/'), Find(token, ','), Find(token, '-');
    if token == "*" then Some(token)
    else if slash < |token| then Join(MapToken(token[..slash]), "/", Some(token[slash + 1..]))
    else if comma < |token| then Join(MapToken(token[..comma]), ",", MapToken(token[comma + 1..]))
    else if dash < |token| then Join(MapToken(token[..dash]), "-", MapToken(token[dash + 1..]))
    else
      var value := ToInt(token);
      if value.None? then None
      else if value.value <= 7 then Some([Digit(ToAps(value.value))])
      else Some(token)
  }

  predicate IsAlpha(c: char) { 'a' <= c <= 'z' || 'A' <= c <= 'Z' }

  function Normalize(expr: string): Option<string> {
    var text := Text.Strip(expr);
    if text == "" || exists i :: 0 <= i < |text| && IsAlpha(text[i]) then Some(text) else MapToken(text)
  }

  // ------------------------------------------------------------ the notation

  datatype Item = Day(d: nat) | Range(lo: nat, hi: nat)

  predicate CronItem(item: Item) {
    match item
    case Day(d) => d <= 7
    case Range(lo, hi) => lo <= hi <= 7
  }

  function Render(item: Item): string
    requires CronItem(item) || (item.Range? && item.lo <= 7 && item.hi <= 7)
  {
    match item
    case Day(d) => [Digit(d)]
    case Range(lo, hi) => [Digit(lo)] + "-" + [Digit(hi)]
  }

  predicate Writable(items: seq<Item>) {
    items != [] && forall i :: 0 <= i < |items| ==> CronItem(items[i])
  }

  function RenderList(items: seq<Item>): string
    requires Writable(items)
  {
    if |items| == 1 then Render(items[0]) else Render(items[0]) + "," + RenderList(items[1..])
  }

  predicate Between(lo: nat, x: nat, hi: nat) { lo <= x <= hi }

  /** The weekdays a crontab item stands for. */
  function CronDays(item: Item): set<nat> {
    match item
    case Day(d) => {ToAps(d)}
    case Range(lo, hi) => set x: nat | x <= hi && Between(lo, x, hi) :: ToAps(x)
  }

  /** The weekdays the same notation stands for in APScheduler; None for what it rejects. */
  function ApsDays(item: Item): Option<set<nat>> {
    match item
    case Day(d) => if d <= 6 then Some({d}) else None
    case Range(lo, hi) => if lo <= hi <= 6 then Some(set x: nat | x <= hi && Between(lo, x, hi)) else None
  }

  function Shift(item: Item): Item {
    match item
    case Day(d) => Day(ToAps(d))
    case Range(lo, hi) => Range(ToAps(lo), ToAps(hi))
  }

  function CronList(items: seq<Item>): set<nat> {
    if items == [] then {} else CronDays(items[0]) + CronList(items[1..])
  }

  function ApsList(items: seq<Item>): Option<set<nat>> {
    if items == [] then Some({}) else
      var (first, rest) := (ApsDays(items[0]), ApsList(items[1..]));
      if first.Some? && rest.Some? then Some(first.value + rest.value) else None
  }

  function ShiftAll(items: seq<Item>): seq<Item> {
    if items == [] then [] else [Shift(items[0])] + ShiftAll(items[1..])
  }

  // ------------------------------------------------------------------- lemmas

  lemma {:induction false} FindPast(a: string, b: string, c: char)
    requires c !in a
    ensures Find(a + b, c) == |a| + Find(b, c)
  {
    if a == [] {
      assert a + b == b;
    } else {
      FindPast(a[1..], b, c);
      assert (a + b)[1..] == a[1..] + b;
    }
  }

  lemma DigitIsItself(d: nat)
    requires d <= 9
    ensures IsDigit(Digit(d)) && ToInt([Digit(d)]) == Some(d)
  {
  }

  lemma MapDigit(d: nat)
    requires d <= 7
    ensures MapToken([Digit(d)]) == Some([Digit(ToAps(d))])
  {
    DigitIsItself(d);
    assert Digit(d) != '/' && Digit(d) != ',' && Digit(d) != '-' && [Digit(d)] != "*";
  }

  /** An item of single-digit days has one digit, or two around a dash, and no other mark. */
  lemma RenderMarks(item: Item)
    requires CronItem(item)
    ensures '/' !in Render(item) && ',' !in Render(item) && Render(item) != "*"
    ensures |Render(item)| > 0 && IsDigit(Render(item)[0]) && IsDigit(Render(item)[|Render(item)| - 1])
    ensures forall i :: 0 <= i < |Render(item)| ==> IsDigit(Render(item)[i]) || Render(item)[i] == '-'
  {
  }

  lemma MapItem(item: Item)
    requires CronItem(item)
    ensures MapToken(Render(item)) == Some(Render(Shift(item)))
  {
    match item
    case Day(d) => MapDigit(d);
    case Range(lo, hi) =>
      var text := Render(item);
      RenderMarks(item);
      MapDigit(lo);
      MapDigit(hi);
      assert Find(text, '-') == 1 by {
        assert text == [Digit(lo)] + ("-" + [Digit(hi)]);
        FindPast([Digit(lo)], "-" + [Digit(hi)], '-');
      }
      assert text[..1] == [Digit(lo)] && text[2..] == [Digit(hi)];
  }

  /** A range whose low end is not Sunday keeps its weekdays. */
  predicate Translatable(item: Item) {
    CronItem(item) && (item.Range? ==> item.lo >= 1)
  }

  lemma ShiftKeepsDays(item: Item)
    requires Translatable(item)
    ensures CronItem(Shift(item)) && ApsDays(Shift(item)) == Some(CronDays(item))
  {
    if item.Range? {
      forall x: nat | Between(ToAps(item.lo), x, ToAps(item.hi))
        ensures x in CronDays(item)
      {
        assert Between(item.lo, x + 1, item.hi) && ToAps(x + 1) == x;
      }
      assert ApsDays(Shift(item)).value == CronDays(item);
    }
  }

  lemma MarksJoin(head: string, rest: string)
    requires '/' !in head && '/' !in rest && head != "" && rest != ""
    requires Text.Stripped(head) && Text.Stripped(rest)
    requires forall i :: 0 <= i < |head| ==> !IsAlpha(head[i])
    requires forall i :: 0 <= i < |rest| ==> !IsAlpha(rest[i])
    ensures var s := head + "," + rest;
            '/' !in s && |s| > 1 && Text.Stripped(s) && forall i :: 0 <= i < |s| ==> !IsAlpha(s[i])
  {
  }

  lemma RenderListMarks(items: seq<Item>)
    requires Writable(items)
    ensures '/' !in RenderList(items) && RenderList(items) != "*"
    ensures Text.Stripped(RenderList(items)) && RenderList(items) != ""
    ensures forall i :: 0 <= i < |RenderList(items)| ==> !IsAlpha(RenderList(items)[i])
  {
    RenderMarks(items[0]);
    if |items| > 1 {
      RenderListMarks(items[1..]);
      MarksJoin(Render(items[0]), RenderList(items[1..]));
      assert RenderList(items) == Render(items[0]) + "," + RenderList(items[1..]);
      hide RenderList, Render;
    }
  }

  ghost predicate AllTranslatable(items: seq<Item>) {
    forall i :: 0 <= i < |items| ==> Translatable(items[i])
  }

  lemma {:induction false} ShiftedIsWritable(items: seq<Item>)
    requires Writable(items) && AllTranslatable(items)
    ensures |ShiftAll(items)| == |items| && Writable(ShiftAll(items))
  {
    ShiftKeepsDays(items[0]);
    if |items| > 1 {
      ShiftedIsWritable(items[1..]);
    } else {
      assert ShiftAll(items[1..]) == [];
    }
  }

  lemma {:induction false} MapList(items: seq<Item>)
    requires Writable(items) && AllTranslatable(items)
    ensures Writable(ShiftAll(items)) && MapToken(RenderList(items)) == Some(RenderList(ShiftAll(items)))
  {
    ShiftedIsWritable(items);
    MapItem(items[0]);
    if |items| > 1 {
      var rest := items[1..];
      ShiftedIsWritable(rest);
      MapList(rest);
      RenderListMarks(rest);
      RenderMarks(items[0]);
      MapBeforeComma(Render(items[0]), RenderList(rest));
      hide MapToken, Render;
      assert ShiftAll(items)[1..] == ShiftAll(rest);
    }
  }

  lemma {:induction false} ListKeepsDays(items: seq<Item>)
    requires AllTranslatable(items)
    ensures ApsList(ShiftAll(items)) == Some(CronList(items))
  {
    if items != [] {
      ShiftKeepsDays(items[0]);
      ListKeepsDays(items[1..]);
      assert ShiftAll(items)[1..] == ShiftAll(items[1..]);
    }
  }

  lemma MapBeforeComma(head: string, rest: string)
    requires '/' !in head && ',' !in head && '/' !in rest
    ensures MapToken(head + "," + rest) == Join(MapToken(head), ",", MapToken(rest))
  {
    var text := head + "," + rest;
    assert text == head + ("," + rest);
    FindPast(head, "," + rest, ',');
    assert text[..|head|] == head && text[|head| + 1..] == rest;
    assert '/' !in text && text != "*";
  }

  /**
   * For every comma list of single days and of ranges from 1 to 7, the translated text denotes in
   * APScheduler the weekdays that the crontab text denotes.
   */
  lemma TranslationKeepsWeekdays(items: seq<Item>)
    requires Writable(items) && AllTranslatable(items)
    ensures exists aps: seq<Item> ::
              && Writable(aps)
              && Normalize(RenderList(items)) == Some(RenderList(aps))
              && ApsList(aps) == Some(CronList(items))
  {
    MapList(items);
    ListKeepsDays(items);
    RenderListMarks(items);
    Text.StripShape(RenderList(items));
    assert Normalize(RenderList(items)) == Some(RenderList(ShiftAll(items)));
  }

  /** A single range keeps its weekdays exactly when it starts after Sunday or is Sunday alone. */
  lemma RangeKeepsWeekdaysIff(lo: nat, hi: nat)
    requires lo <= hi <= 7
    ensures var item := Range(lo, hi);
            && MapToken(Render(item)) == Some(Render(Shift(item)))
            && (ApsDays(Shift(item)) == Some(CronDays(item)) <==> lo >= 1 || hi == 0)
  {
    var item := Range(lo, hi);
    MapItem(item);
    if lo >= 1 {
      ShiftKeepsDays(item);
    } else if hi == 7 {
      assert Between(0, 1, 7) && ToAps(1) in CronDays(item);
    } else if hi == 0 {
      assert Between(0, 0, 0) && CronDays(item) == {6};
      assert Between(6, 6, 6) && ApsDays(Shift(item)).value == {6};
    }
  }

  // -------------------------------------------------------------------- steps

  function RenderNat(n: nat): string {
    if n < 10 then [Digit(n)] else RenderNat(n / 10) + [Digit(n % 10)]
  }

  predicate OnStep(lo: nat, x: nat, hi: nat, step: nat)
    requires step >= 1
  {
    lo <= x <= hi && (x - lo) % step == 0
  }

  /** Every `step`-th day of lo..hi, in crontab numbers. */
  function CronSteps(lo: nat, hi: nat, step: nat): set<nat>
    requires step >= 1
  {
    set x: nat | x <= hi && OnStep(lo, x, hi, step) :: ToAps(x)
  }

  function ApsSteps(lo: nat, hi: nat, step: nat): set<nat>
    requires step >= 1
  {
    set x: nat | x <= hi && OnStep(lo, x, hi, step)
  }

  lemma MapBeforeSlash(base: string, tail: string)
    requires '/' !in base
    ensures MapToken(base + "/" + tail) == Join(MapToken(base), "/", Some(tail))
  {
    var text := base + "/" + tail;
    assert text == base + ("/" + tail);
    FindPast(base, "/" + tail, '/');
    assert text[..|base|] == base && text[|base| + 1..] == tail;
    assert text != "*";
  }

  /** One range with a step keeps its weekdays when it starts after Sunday. */
  lemma SteppedRangeKeepsWeekdays(lo: nat, hi: nat, step: nat)
    requires 1 <= lo <= hi <= 7 && step >= 1
    ensures MapToken(Render(Range(lo, hi)) + "/" + RenderNat(step))
         == Some(Render(Range(lo - 1, hi - 1)) + "/" + RenderNat(step))
    ensures ApsSteps(lo - 1, hi - 1, step) == CronSteps(lo, hi, step)
  {
    MapStepped(lo, hi, RenderNat(step));
    StepsShift(lo, hi, step);
  }

  lemma MapStepped(lo: nat, hi: nat, tail: string)
    requires 1 <= lo <= hi <= 7
    ensures MapToken(Render(Range(lo, hi)) + "/" + tail) == Some(Render(Range(lo - 1, hi - 1)) + "/" + tail)
  {
    RenderMarks(Range(lo, hi));
    MapItem(Range(lo, hi));
    MapBeforeSlash(Render(Range(lo, hi)), tail);
  }

  lemma StepsShift(lo: nat, hi: nat, step: nat)
    requires 1 <= lo <= hi <= 7 && step >= 1
    ensures ApsSteps(lo - 1, hi - 1, step) == CronSteps(lo, hi, step)
  {
    forall x: nat | OnStep(lo - 1, x, hi - 1, step)
      ensures x in CronSteps(lo, hi, step)
    {
      assert OnStep(lo, x + 1, hi, step) && ToAps(x + 1) == x;
    }
    forall x: nat | OnStep(lo, x, hi, step)
      ensures ToAps(x) in ApsSteps(lo - 1, hi - 1, step)
    {
      assert OnStep(lo - 1, x - 1, hi - 1, step);
    }
  }

  /** A stepped star is copied unchanged, and keeps its weekdays exactly when the step is one. */
  lemma SteppedStarKeepsWeekdaysIff(step: nat)
    requires step >= 1
    ensures MapToken("*" + "/" + RenderNat(step)) == Some("*" + "/" + RenderNat(step))
    ensures ApsSteps(0, 6, step) == CronSteps(0, 7, step) <==> step == 1
  {
    MapBeforeSlash("*", RenderNat(step));
    if step == 1 {
      EveryDay();
    } else {
      NoMonday(step);
    }
  }

  lemma EveryDay()
    ensures ApsSteps(0, 6, 1) == CronSteps(0, 7, 1)
  {
    forall x: nat | x <= 6
      ensures x in CronSteps(0, 7, 1) && x in ApsSteps(0, 6, 1)
    {
      assert OnStep(0, x + 1, 7, 1) && ToAps(x + 1) == x && OnStep(0, x, 6, 1);
    }
  }

  /** Counted from Sunday in larger steps Monday is left out, but counted from Monday it never is. */
  lemma NoMonday(step: nat)
    requires step >= 2
    ensures 0 in ApsSteps(0, 6, step) && 0 !in CronSteps(0, 7, step)
  {
    assert OnStep(0, 0, 6, step);
    assert !OnStep(0, 1, 7, step);
  }

  // -------------------------------------------------- lists with a stepped range

  /** A list, a stepped range, and more: `before,lo-hi/step,rest` with either list possibly empty. */
  function RenderStepped(before: seq<Item>, range: Item, step: nat, rest: seq<Item>): string
    requires Writable(before + [range]) && (rest == [] || Writable(rest))
  {
    RenderList(before + [range]) + "/" + Tail(step, rest)
  }

  function Tail(step: nat, rest: seq<Item>): string
    requires rest == [] || Writable(rest)
  {
    RenderNat(step) + if rest == [] then "" else "," + RenderList(rest)
  }

  /** A range within 1 to 7 after items that translate. */
  predicate Stepped(before: seq<Item>, lo: nat, hi: nat) {
    1 <= lo <= hi <= 7 && forall i :: 0 <= i < |before| ==> CronItem(before[i]) && Translatable(before[i])
  }

  /** The characters of the notation. */
  predicate IsMark(c: char) {
    IsDigit(c) || c == ',' || c == '-' || c == '/'
  }

  predicate AllMarks(s: string) {
    s != "" && forall i :: 0 <= i < |s| ==> IsMark(s[i])
  }

  lemma {:induction false} NatMarks(n: nat)
    ensures AllMarks(RenderNat(n))
  {
    if n >= 10 { NatMarks(n / 10); }
  }

  lemma {:induction false} ListMarks(items: seq<Item>)
    requires Writable(items)
    ensures AllMarks(RenderList(items))
  {
    RenderMarks(items[0]);
    if |items| > 1 { ListMarks(items[1..]); }
  }

  lemma MarksAreMapped(text: string)
    requires AllMarks(text)
    ensures Normalize(text) == MapToken(text)
  {
    assert !Text.IsSpace(text[0]) && !Text.IsSpace(text[|text| - 1]) by {
      assert IsMark(text[0]) && IsMark(text[|text| - 1]);
    }
    Text.StripShape(text);
    forall i | 0 <= i < |text|
      ensures !IsAlpha(text[i])
    {
      assert IsMark(text[i]);
    }
  }

  lemma SteppedBase(before: seq<Item>, lo: nat, hi: nat)
    requires Stepped(before, lo, hi)
    ensures Writable(before + [Range(lo, hi)]) && AllTranslatable(before + [Range(lo, hi)]) && AllTranslatable(before)
    ensures ShiftAll(before + [Range(lo, hi)]) == ShiftAll(before) + [Range(lo - 1, hi - 1)]
    ensures Writable(ShiftAll(before) + [Range(lo - 1, hi - 1)])
  {
    var base := before + [Range(lo, hi)];
    assert forall i :: 0 <= i < |base| ==> base[i] == if i < |before| then before[i] else Range(lo, hi);
    ShiftAppend(before, Range(lo, hi));
    ShiftedIsWritable(base);
  }

  lemma SteppedIsMarks(base: seq<Item>, step: nat, rest: seq<Item>)
    requires Writable(base) && (rest == [] || Writable(rest))
    ensures Normalize(RenderList(base) + "/" + Tail(step, rest)) == MapToken(RenderList(base) + "/" + Tail(step, rest))
  {
    ListMarks(base);
    NatMarks(step);
    if rest != [] { ListMarks(rest); }
    hide RenderList, RenderNat, Normalize, MapToken;
    assert AllMarks(Tail(step, rest));
    MarksAreMapped(RenderList(base) + "/" + Tail(step, rest));
  }

  /** Everything before the first slash is translated, everything after it is copied. */
  lemma SteppedListMaps(before: seq<Item>, lo: nat, hi: nat, step: nat, rest: seq<Item>)
    requires Stepped(before, lo, hi)
    requires rest == [] || Writable(rest)
    ensures Writable(before + [Range(lo, hi)]) && Writable(ShiftAll(before) + [Range(lo - 1, hi - 1)])
    ensures Normalize(RenderStepped(before, Range(lo, hi), step, rest))
         == Some(RenderStepped(ShiftAll(before), Range(lo - 1, hi - 1), step, rest))
  {
    var base := before + [Range(lo, hi)];
    SteppedBase(before, lo, hi);
    MapList(base);
    RenderListMarks(base);
    SteppedIsMarks(base, step, rest);
    hide RenderList, ShiftAll, Normalize, MapToken, Writable, AllTranslatable, Tail, Text.Stripped, IsAlpha;
    MapBeforeSlash(RenderList(base), Tail(step, rest));
  }

  lemma {:induction false} ShiftAppend(items: seq<Item>, last: Item)
    ensures ShiftAll(items + [last]) == ShiftAll(items) + [Shift(last)]
  {
    if items == [] {
      assert [last][1..] == [];
    } else {
      ShiftAppend(items[1..], last);
      assert (items + [last])[1..] == items[1..] + [last];
    }
  }

  /** The numbers a list names, as APScheduler reads them if none is 7. */
  function Numbers(items: seq<Item>): set<nat> {
    if items == [] then {} else NumbersOf(items[0]) + Numbers(items[1..])
  }

  function NumbersOf(item: Item): set<nat> {
    match item
    case Day(d) => {d}
    case Range(lo, hi) => set x: nat | x <= hi && Between(lo, x, hi)
  }

  lemma {:induction false} ApsReadsNumbers(items: seq<Item>)
    requires items == [] || Writable(items)
    ensures ApsList(items) == if 7 in Numbers(items) then None else Some(Numbers(items))
  {
    if items != [] {
      ApsReadsNumbers(items[1..]);
      var item := items[0];
      assert CronItem(item);
      assert item.Range? ==> (7 in NumbersOf(item) <==> Between(item.lo, 7, item.hi));
    }
  }

  /**
   * A list that goes on after a stepped range keeps its weekdays exactly if the rest does not name day
   * 7, and every weekday that only one of the two readings of the rest contains is named before it.
   */
  lemma ListAfterStepKeepsWeekdaysIff(before: seq<Item>, lo: nat, hi: nat, step: nat, rest: seq<Item>)
    requires Stepped(before, lo, hi) && step >= 1
    requires rest == [] || Writable(rest)
    ensures Writable(before + [Range(lo, hi)]) && Writable(ShiftAll(before) + [Range(lo - 1, hi - 1)])
    ensures Normalize(RenderStepped(before, Range(lo, hi), step, rest))
         == Some(RenderStepped(ShiftAll(before), Range(lo - 1, hi - 1), step, rest))
    ensures var named := CronList(before) + CronSteps(lo, hi, step);
            var read := ApsList(ShiftAll(before));
            && read.Some?
            && ((ApsList(rest).Some? &&
                 read.value + ApsSteps(lo - 1, hi - 1, step) + ApsList(rest).value == named + CronList(rest))
                <==> 7 !in Numbers(rest) && forall w: nat :: OnlyOnce(rest, w) ==> w in named)
  {
    SteppedBase(before, lo, hi);
    SteppedListMaps(before, lo, hi, step, rest);
    ListKeepsDays(before);
    StepsShift(lo, hi, step);
    ApsReadsNumbers(rest);
    SameUnionIff(CronList(before) + CronSteps(lo, hi, step), rest);
  }

  /** The weekday is in one reading of the list only. */
  predicate OnlyOnce(items: seq<Item>, w: nat) {
    (w in Numbers(items)) != (w in CronList(items))
  }

  lemma SameUnionIff(named: set<nat>, rest: seq<Item>)
    ensures named + Numbers(rest) == named + CronList(rest) <==> forall w: nat :: OnlyOnce(rest, w) ==> w in named
  {
    if named + Numbers(rest) == named + CronList(rest) {
      forall w: nat | OnlyOnce(rest, w)
        ensures w in named
      {
        assert w in named + Numbers(rest) <==> w in named + CronList(rest);
      }
    } else {
      var w: nat :| (w in named + Numbers(rest)) != (w in named + CronList(rest));
      assert OnlyOnce(rest, w) && w !in named;
    }
  }

  /** So a comma list whose only step is on its last item keeps its weekdays. */
  lemma StepOnLastKeepsWeekdays(before: seq<Item>, lo: nat, hi: nat, step: nat)
    requires Stepped(before, lo, hi) && step >= 1
    ensures Writable(before + [Range(lo, hi)]) && Writable(ShiftAll(before) + [Range(lo - 1, hi - 1)])
    ensures Normalize(RenderStepped(before, Range(lo, hi), step, []))
         == Some(RenderStepped(ShiftAll(before), Range(lo - 1, hi - 1), step, []))
    ensures ApsList(ShiftAll(before)).Some?
    ensures ApsList(ShiftAll(before)).value + ApsSteps(lo - 1, hi - 1, step)
         == CronList(before) + CronSteps(lo, hi, step)
  {
    ListAfterStepKeepsWeekdaysIff(before, lo, hi, step, []);
    assert forall w: nat :: !OnlyOnce([], w);
    assert ApsList([]) == Some({}) && CronList([]) == {};
  }

  /** A single day after a stepped range keeps its weekdays exactly when the range names both its readings. */
  lemma DayAfterStepKeepsWeekdaysIff(lo: nat, hi: nat, step: nat, d: nat)
    requires 1 <= lo <= hi <= 7 && step >= 1 && d <= 7
    ensures Normalize(RenderStepped([], Range(lo, hi), step, [Day(d)]))
         == Some(RenderStepped([], Range(lo - 1, hi - 1), step, [Day(d)]))
    ensures var steps := CronSteps(lo, hi, step);
            (&& ApsDays(Day(d)).Some?
             && ApsSteps(lo - 1, hi - 1, step) + ApsDays(Day(d)).value == steps + CronDays(Day(d)))
            <==> d <= 6 && d in steps && ToAps(d) in steps
  {
    var rest := [Day(d)];
    SteppedBase([], lo, hi);
    ListAfterStepKeepsWeekdaysIff([], lo, hi, step, rest);
    OneDay(d);
    var steps := CronSteps(lo, hi, step);
    hide Normalize, RenderStepped, CronSteps, ApsSteps, CronList, ApsList, Numbers, ShiftAll, Writable;
    assert {} + steps == steps && {} + ApsSteps(lo - 1, hi - 1, step) == ApsSteps(lo - 1, hi - 1, step);
    assert d <= 6 ==> OnlyOnce(rest, d) && OnlyOnce(rest, ToAps(d));
  }

  lemma OneDay(d: nat)
    requires d <= 7
    ensures Numbers([Day(d)]) == {d} && CronList([Day(d)]) == {ToAps(d)} && ApsList([Day(d)]) == ApsDays(Day(d))
    ensures Writable([Day(d)]) && ShiftAll([]) == [] && CronList([]) == {} && ApsList([]) == Some({})
  {
    assert [Day(d)][1..] == [];
  }

  // ------------------------------------------------------------ other fields

  lemma {:induction false} NumberIsRead(n: nat)
    ensures ToInt(RenderNat(n)) == Some(n)
  {
    if n >= 10 {
      NumberIsRead(n / 10);
      assert RenderNat(n)[..|RenderNat(n)| - 1] == RenderNat(n / 10);
    }
  }

  /** A number that is no weekday is left as it is, and text that is no number is an error. */
  lemma OtherTokens(token: string)
    requires '/' !in token && ',' !in token && '-' !in token && token != "*"
    ensures ToInt(token).Some? && ToInt(token).value > 7 ==> MapToken(token) == Some(token)
    ensures ToInt(token).None? ==> MapToken(token) == None
    ensures ToInt(token) == Some(0) || ToInt(token) == Some(7) ==> MapToken(token) == Some("6")
    ensures ToInt(token).Some? && 1 <= ToInt(token).value <= 6 ==>
              MapToken(token) == Some([Digit(ToInt(token).value - 1)])
  {
    assert Digit(6) == '6';
  }

  /** A blank field, and one that names weekdays with letters, is only stripped. */
  lemma NamesStay(expr: string)
    ensures var text := Text.Strip(expr);
            (text == "" || exists i :: 0 <= i < |text| && ('a' <= text[i] <= 'z' || 'A' <= text[i] <= 'Z')) ==>
              Normalize(expr) == Some(text)
    ensures var text := Text.Strip(expr);
            text != "" && (forall c :: c in text ==> !('a' <= c <= 'z') && !('A' <= c <= 'Z')) ==>
              Normalize(expr) == MapToken(text)
  {
    var text := Text.Strip(expr);
    if i :| 0 <= i < |text| && ('a' <= text[i] <= 'z' || 'A' <= text[i] <= 'Z') {
      assert IsAlpha(text[i]);
    }
    if j :| 0 <= j < |text| && IsAlpha(text[j]) { assert text[j] in text; }
  }
}
