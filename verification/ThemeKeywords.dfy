/** Theme keywords that exclude a stock (src/ashare_system/selection_preferences.py). */
module ThemeKeywords {
  import Text
  import opened Wrappers

  /** Endings that carry no meaning, in the order they are tried. */
  const TRIM_SUFFIXES: seq<string> :=
    ["概念股", "行业股", "板块股", "题材股", "概念", "行业", "板块", "题材", "个股", "股票", "股"]

  // ---------------------------------------------------------------- trimming

  predicate EndsWith(text: string, suffix: string) {
    |suffix| <= |text| && text[|text| - |suffix|..] == suffix
  }

  /** The suffix can be taken off and leaves something. */
  predicate Applies(text: string, suffix: string) {
    EndsWith(text, suffix) && |suffix| < |text|
  }

  function TakeOff(text: string, suffix: string): string {
    if Applies(text, suffix) then Text.Strip(text[..|text| - |suffix|]) else text
  }

  /** One round over the first `n` suffixes. */
  function Round(suffixes: seq<string>, text: string, n: nat): string
    requires n <= |suffixes|
  {
    if n == 0 then text else TakeOff(Round(suffixes, text, n - 1), suffixes[n - 1])
  }

  /** A word that starts and ends with visible characters. */
  predicate Word(text: string) {
    text != "" && Text.Stripped(text)
  }

  ghost predicate NoneEmpty(suffixes: seq<string>) {
    forall k :: 0 <= k < |suffixes| ==> suffixes[k] != ""
  }

  /** No suffix applies any more. */
  ghost predicate Bare(suffixes: seq<string>, text: string) {
    forall k :: 0 <= k < |suffixes| ==> !Applies(text, suffixes[k])
  }

  /** One suffix or one space. */
  predicate Piece(suffixes: seq<string>, part: string) {
    part != "" && (part in suffixes || (|part| == 1 && Text.IsSpace(part[0])))
  }

  /** Nothing but suffixes and spaces. */
  ghost predicate Removable(suffixes: seq<string>, tail: string) {
    tail == "" || exists n :: 0 <= n < |tail| && Piece(suffixes, tail[n..]) && Removable(suffixes, tail[..n])
  }

  /** What `text` loses to become its prefix `kept` is removable. */
  ghost predicate Loses(suffixes: seq<string>, text: string, kept: string) {
    kept <= text && Removable(suffixes, text[|kept|..])
  }

  lemma OnePieceMore(suffixes: seq<string>, tail: string, n: nat)
    requires n < |tail| && Piece(suffixes, tail[n..]) && Removable(suffixes, tail[..n])
    ensures Removable(suffixes, tail)
  {
  }

  lemma {:induction false} RemovableJoins(suffixes: seq<string>, a: string, b: string)
    requires Removable(suffixes, a) && Removable(suffixes, b)
    ensures Removable(suffixes, a + b)
    decreases |b|
  {
    if b == "" {
      assert a + b == a;
    } else {
      var n :| 0 <= n < |b| && Piece(suffixes, b[n..]) && Removable(suffixes, b[..n]);
      hide Removable, Piece;
      RemovableJoins(suffixes, a, b[..n]);
      assert (a + b)[..|a| + n] == a + b[..n] && (a + b)[|a| + n..] == b[n..];
      OnePieceMore(suffixes, a + b, |a| + n);
    }
  }

  lemma PieceIsRemovable(suffixes: seq<string>, part: string)
    requires Piece(suffixes, part)
    ensures Removable(suffixes, part)
  {
    assert part[0..] == part && part[..0] == "";
  }

  lemma LosesTwice(suffixes: seq<string>, text: string, kept: string, less: string)
    requires Loses(suffixes, text, kept) && Loses(suffixes, kept, less)
    ensures Loses(suffixes, text, less)
  {
    RemovableJoins(suffixes, kept[|less|..], text[|kept|..]);
    assert text[|less|..] == kept[|less|..] + text[|kept|..];
  }

  lemma {:induction false} StripRightLoses(suffixes: seq<string>, text: string)
    ensures Loses(suffixes, text, Text.StripRight(text))
  {
    if text != "" && Text.IsSpace(text[|text| - 1]) {
      var front := text[..|text| - 1];
      StripRightLoses(suffixes, front);
      PieceIsRemovable(suffixes, text[|front|..]);
      LosesTwice(suffixes, text, front, Text.StripRight(text));
    } else {
      assert text[|text|..] == "";
    }
  }

  /** Taking a suffix off a word leaves a word, which lost only that suffix and spaces. */
  lemma TakeOffKeepsWord(suffixes: seq<string>, text: string, k: nat)
    requires NoneEmpty(suffixes) && Word(text) && k < |suffixes|
    ensures var r := TakeOff(text, suffixes[k]);
            Word(r) && Loses(suffixes, text, r) && (if Applies(text, suffixes[k]) then |r| < |text| else r == text)
  {
    var suffix := suffixes[k];
    if Applies(text, suffix) {
      var front := text[..|text| - |suffix|];
      StripKeepsStart(front);
      StripRightLoses(suffixes, front);
      assert text[|front|..] == suffix;
      PieceIsRemovable(suffixes, suffix);
      LosesTwice(suffixes, text, front, Text.Strip(front));
    } else {
      NothingLost(suffixes, text);
    }
  }

  lemma StripKeepsStart(text: string)
    requires text != "" && !Text.IsSpace(text[0])
    ensures Word(Text.Strip(text)) && Text.Strip(text) == Text.StripRight(text) && |Text.Strip(text)| <= |text|
  {
    Text.StripShape(text);
    Text.StripLeftShape(text);
  }

  lemma NothingLost(suffixes: seq<string>, text: string)
    ensures Loses(suffixes, text, text)
  {
    assert text[|text|..] == "";
  }

  /** A round keeps a word a word; it changes nothing exactly when no suffix applies, and else shortens it. */
  lemma {:induction false} RoundKeepsWord(suffixes: seq<string>, text: string, n: nat)
    requires NoneEmpty(suffixes) && Word(text) && n <= |suffixes|
    ensures Word(Round(suffixes, text, n)) && Loses(suffixes, text, Round(suffixes, text, n))
    ensures |Round(suffixes, text, n)| <= |text|
    ensures Round(suffixes, text, n) == text <==> forall k :: 0 <= k < n ==> !Applies(text, suffixes[k])
  {
    hide TakeOff, Applies, Word, Removable;
    if n == 0 {
      NothingLost(suffixes, text);
    } else {
      var before := Round(suffixes, text, n - 1);
      RoundKeepsWord(suffixes, text, n - 1);
      TakeOffKeepsWord(suffixes, before, n - 1);
      LosesTwice(suffixes, text, before, Round(suffixes, text, n));
    }
  }

  /** `_trim_theme_token`: rounds until nothing changes. */
  method TrimThemeToken(suffixes: seq<string>, value: string) returns (text: string)
    requires NoneEmpty(suffixes)
    ensures text == Trim(suffixes, value)
  {
    text := Text.Strip(value);
    StripIsWord(value);
    assert TrimWord(suffixes, text) == Trim(suffixes, value);
    hide *;
    while true
      invariant text == "" || Word(text)
      invariant TrimWord(suffixes, text) == Trim(suffixes, value)
      decreases |text|
    {
      var next := text;
      RoundStarts(suffixes, text);
      for n := 0 to |suffixes|
        invariant next == Round(suffixes, text, n)
      {
        RoundOneMore(suffixes, text, n);
        if EndsWith(next, suffixes[n]) && |next| > |suffixes[n]| {
          next := Text.Strip(next[..|next| - |suffixes[n]|]);
        }
      }
      TrimOneMore(suffixes, text);
      if next == text {
        return;
      }
      text := next;
    }
  }

  lemma RoundStarts(suffixes: seq<string>, text: string)
    ensures Round(suffixes, text, 0) == text
  {
  }

  lemma RoundOneMore(suffixes: seq<string>, text: string, n: nat)
    requires n < |suffixes|
    ensures var before, suffix := Round(suffixes, text, n), suffixes[n];
            Round(suffixes, text, n + 1) ==
              if Applies(before, suffix) then Text.Strip(before[..|before| - |suffix|]) else before
    ensures var before, suffix := Round(suffixes, text, n), suffixes[n];
            Applies(before, suffix) <==> EndsWith(before, suffix) && |before| > |suffix|
  {
  }

  lemma StripIsWord(value: string)
    ensures Text.Strip(value) == "" || Word(Text.Strip(value))
  {
    Text.StripShape(value);
  }

  lemma {:induction false} EmptyRound(suffixes: seq<string>, n: nat)
    requires n <= |suffixes|
    ensures Round(suffixes, "", n) == ""
  {
    if n > 0 { EmptyRound(suffixes, n - 1); }
  }

  lemma RoundShortens(suffixes: seq<string>, text: string)
    requires NoneEmpty(suffixes) && Word(text)
    ensures var r := Round(suffixes, text, |suffixes|); Word(r) && (r == text || |r| < |text|)
  {
    RoundKeepsWord(suffixes, text, |suffixes|);
    var r := Round(suffixes, text, |suffixes|);
    assert |r| == |text| ==> r == text;
  }

  function TrimWord(suffixes: seq<string>, text: string): string
    requires NoneEmpty(suffixes) && (text == "" || Word(text))
    decreases |text|
  {
    if text == "" then ""
    else
      RoundShortens(suffixes, text);
      var next := Round(suffixes, text, |suffixes|);
      if next == text then text else TrimWord(suffixes, next)
  }

  /** What one more round means for the loop. */
  lemma TrimOneMore(suffixes: seq<string>, text: string)
    requires NoneEmpty(suffixes) && (text == "" || Word(text))
    ensures var next := Round(suffixes, text, |suffixes|);
            (next == "" || Word(next)) && TrimWord(suffixes, next) == TrimWord(suffixes, text)
            && (if next == text then TrimWord(suffixes, text) == text else |next| < |text|)
  {
    if text == "" { EmptyRound(suffixes, |suffixes|); } else { RoundShortens(suffixes, text); }
  }

  function Trim(suffixes: seq<string>, value: string): string
    requires NoneEmpty(suffixes)
  {
    StripIsWord(value);
    TrimWord(suffixes, Text.Strip(value))
  }

  lemma {:induction false} TrimWordStops(suffixes: seq<string>, text: string)
    requires NoneEmpty(suffixes) && Word(text)
    ensures Word(TrimWord(suffixes, text)) && Bare(suffixes, TrimWord(suffixes, text))
    ensures Loses(suffixes, text, TrimWord(suffixes, text))
    ensures Bare(suffixes, text) ==> TrimWord(suffixes, text) == text
    decreases |text|
  {
    RoundKeepsWord(suffixes, text, |suffixes|);
    RoundShortens(suffixes, text);
    var next := Round(suffixes, text, |suffixes|);
    if next != text {
      TrimWordStops(suffixes, next);
      LosesTwice(suffixes, text, next, TrimWord(suffixes, next));
    }
  }

  /**
   * Trimming ends where no suffix applies; it takes nothing but suffixes and spaces off the end of the
   * stripped text and never erases it.
   */
  lemma TrimEndsBare(suffixes: seq<string>, value: string)
    requires NoneEmpty(suffixes)
    ensures var text := Text.Strip(value);
            if text == "" then Trim(suffixes, value) == ""
            else && Word(Trim(suffixes, value)) && Bare(suffixes, Trim(suffixes, value))
                 && Loses(suffixes, text, Trim(suffixes, value))
    ensures Trim(suffixes, Trim(suffixes, value)) == Trim(suffixes, value)
  {
    StripIsWord(value);
    if Text.Strip(value) != "" {
      TrimWordStops(suffixes, Text.Strip(value));
      Text.StripShape(Trim(suffixes, value));
      TrimWordStops(suffixes, Trim(suffixes, value));
    } else {
      assert Text.Strip("") == "";
    }
  }

  lemma TableHasNoEmpty()
    ensures NoneEmpty(TRIM_SUFFIXES)
  {
  }

  // ----------------------------------------------------------- normalization

  predicate IsSeparator(c: char) {
    c in "，,、；;|/"
  }

  /** Splitting at runs of separators. */
  function SplitThemes(text: string): (parts: seq<string>)
    ensures parts != []
  {
    if text == "" then [""]
    else if IsSeparator(text[0]) then
      if |text| > 1 && IsSeparator(text[1]) then SplitThemes(text[1..]) else [""] + SplitThemes(text[1..])
    else
      var rest := SplitThemes(text[1..]);
      [[text[0]] + rest[0]] + rest[1..]
  }

  /** The configured value: nothing, one text, or a list of texts. */
  datatype Raw = Absent | Joined(text: string) | Listed(items: seq<string>)

  function PartsOf(raw: Raw): seq<string> {
    match raw
    case Absent => []
    case Joined(text) => SplitThemes(text)
    case Listed(items) => items
  }

  /** The tokens of the parts that are long enough, each at its first occurrence. */
  function Normalize(suffixes: seq<string>, parts: seq<string>): seq<string>
    requires NoneEmpty(suffixes)
  {
    if parts == [] then []
    else
      var before := Normalize(suffixes, parts[..|parts| - 1]);
      var token := Trim(suffixes, Text.Strip(parts[|parts| - 1]));
      if |token| < 2 || token in before then before else before + [token]
  }

  method NormalizeExcludedThemeKeywords(suffixes: seq<string>, raw: Raw) returns (normalized: seq<string>)
    requires NoneEmpty(suffixes)
    ensures normalized == Normalize(suffixes, PartsOf(raw))
  {
    if raw.Absent? {
      return [];
    }
    var parts := if raw.Joined? then SplitThemes(raw.text) else raw.items;
    normalized := [];
    var seen: set<string> := {};
    for n := 0 to |parts|
      invariant normalized == Normalize(suffixes, parts[..n])
      invariant forall t :: t in seen <==> t in normalized
    {
      assert parts[..n + 1][..n] == parts[..n];
      var token := TrimThemeToken(suffixes, Text.Strip(parts[n]));
      if |token| < 2 || token in seen {
        continue;
      }
      seen := seen + {token};
      normalized := normalized + [token];
    }
    assert parts[..|parts|] == parts;
  }

  ghost predicate Distinct(s: seq<string>) {
    forall i, j :: 0 <= i < j < |s| ==> s[i] != s[j]
  }

  /** A keyword that normalization leaves as it is. */
  ghost predicate Keyword(suffixes: seq<string>, t: string) {
    |t| >= 2 && Word(t) && Bare(suffixes, t)
  }

  lemma StripTwice(value: string)
    ensures Text.Strip(Text.Strip(value)) == Text.Strip(value)
  {
    Text.StripShape(value);
    Text.StripShape(Text.Strip(value));
  }

  /** `t` is what some part trims to. */
  ghost predicate TrimmedFrom(suffixes: seq<string>, parts: seq<string>, t: string)
    requires NoneEmpty(suffixes)
  {
    exists i :: 0 <= i < |parts| && Trim(suffixes, parts[i]) == t
  }

  lemma {:induction false} NormalizedHas(suffixes: seq<string>, parts: seq<string>, t: string)
    requires NoneEmpty(suffixes)
    ensures t in Normalize(suffixes, parts) <==> |t| >= 2 && TrimmedFrom(suffixes, parts, t)
  {
    if parts != [] {
      var front, last := parts[..|parts| - 1], parts[|parts| - 1];
      NormalizedHas(suffixes, front, t);
      TokenOf(suffixes, last);
      assert parts == front + [last];
      PartsSplit(suffixes, front, last, t);
    }
  }

  lemma {:induction false} NormalizedAreKeywords(suffixes: seq<string>, parts: seq<string>)
    requires NoneEmpty(suffixes)
    ensures Distinct(Normalize(suffixes, parts))
    ensures forall t :: t in Normalize(suffixes, parts) ==> Keyword(suffixes, t)
  {
    hide NoneEmpty, Keyword;
    if parts != [] {
      NormalizedAreKeywords(suffixes, parts[..|parts| - 1]);
      TokenOf(suffixes, parts[|parts| - 1]);
    }
  }

  /**
   * The normalized list has no duplicates and only finished keywords; a keyword is in it exactly when it
   * is the trimmed form of some part.
   */
  lemma NormalizedIs(suffixes: seq<string>, parts: seq<string>)
    requires NoneEmpty(suffixes)
    ensures Distinct(Normalize(suffixes, parts))
    ensures forall t :: t in Normalize(suffixes, parts) ==> Keyword(suffixes, t)
    ensures forall t :: t in Normalize(suffixes, parts) <==> |t| >= 2 && TrimmedFrom(suffixes, parts, t)
  {
    NormalizedAreKeywords(suffixes, parts);
    forall t
      ensures t in Normalize(suffixes, parts) <==> |t| >= 2 && TrimmedFrom(suffixes, parts, t)
    {
      NormalizedHas(suffixes, parts, t);
    }
  }

  lemma TokenOf(suffixes: seq<string>, part: string)
    requires NoneEmpty(suffixes)
    ensures Trim(suffixes, Text.Strip(part)) == Trim(suffixes, part)
    ensures |Trim(suffixes, part)| >= 2 ==> Keyword(suffixes, Trim(suffixes, part))
  {
    TrimEndsBare(suffixes, part);
    StripTwice(part);
  }

  lemma PartsSplit(suffixes: seq<string>, front: seq<string>, last: string, t: string)
    requires NoneEmpty(suffixes)
    ensures TrimmedFrom(suffixes, front + [last], t) <==> TrimmedFrom(suffixes, front, t) || Trim(suffixes, last) == t
  {
    var parts := front + [last];
    if i :| 0 <= i < |front| && Trim(suffixes, front[i]) == t {
      assert parts[i] == front[i];
    }
    assert parts[|front|] == last;
  }

  /** A list of distinct finished keywords is left as it is. */
  lemma {:induction false} KeywordsStay(suffixes: seq<string>, keywords: seq<string>)
    requires NoneEmpty(suffixes) && Distinct(keywords)
    requires forall t :: t in keywords ==> Keyword(suffixes, t)
    ensures Normalize(suffixes, keywords) == keywords
  {
    hide Keyword, NoneEmpty;
    if keywords != [] {
      var front, last := keywords[..|keywords| - 1], keywords[|keywords| - 1];
      KeywordsStay(suffixes, front);
      assert keywords == front + [last] && last !in front;
      AddKeyword(suffixes, front, last);
    }
  }

  lemma AddKeyword(suffixes: seq<string>, keywords: seq<string>, last: string)
    requires NoneEmpty(suffixes) && Normalize(suffixes, keywords) == keywords
    requires Keyword(suffixes, last) && last !in keywords
    ensures Normalize(suffixes, keywords + [last]) == keywords + [last]
  {
    KeywordTrims(suffixes, last);
    assert (keywords + [last])[..|keywords|] == keywords;
  }

  lemma KeywordTrims(suffixes: seq<string>, t: string)
    requires NoneEmpty(suffixes) && Keyword(suffixes, t)
    ensures Text.Strip(t) == t && Trim(suffixes, t) == t
  {
    Text.StripShape(t);
    TrimWordStops(suffixes, t);
  }

  /** For the suffixes of the system, whatever the configured list: normalizing twice is normalizing once. */
  lemma SystemKeywordsStay(parts: seq<string>)
    ensures var keywords := Normalize(TRIM_SUFFIXES, parts);
            && Normalize(TRIM_SUFFIXES, keywords) == keywords
            && forall t :: t in keywords ==> |t| >= 2 && Bare(TRIM_SUFFIXES, t)
  {
    TableHasNoEmpty();
    hide TRIM_SUFFIXES;
    NormalizeIsIdempotent(TRIM_SUFFIXES, parts);
    NormalizedIs(TRIM_SUFFIXES, parts);
  }

  lemma NormalizeIsIdempotent(suffixes: seq<string>, parts: seq<string>)
    requires NoneEmpty(suffixes)
    ensures Normalize(suffixes, Normalize(suffixes, parts)) == Normalize(suffixes, parts)
  {
    NormalizedIs(suffixes, parts);
    KeywordsStay(suffixes, Normalize(suffixes, parts));
  }

  // ---------------------------------------------------------------- matching

  datatype Field = Field(name: string, text: string)
  datatype Hit = Hit(keyword: string, field: string, matchedText: string)

  predicate Contains(text: string, part: string) {
    exists i :: 0 <= i <= |text| - |part| && StartsAt(text, part, i)
  }

  predicate StartsAt(text: string, part: string, i: nat) {
    i + |part| <= |text| && text[i..i + |part|] == part
  }

  predicate Matches(keyword: string, field: Field) {
    keyword != "" && field.text != "" && Contains(field.text, keyword)
  }

  /** The name, the sector, and every further text that is not blank, all stripped. */
  function Fields(name: string, sector: string, extra: seq<string>): seq<Field> {
    [Field("name", Text.Strip(name)), Field("sector", Text.Strip(sector))] + Contexts(extra)
  }

  function Contexts(extra: seq<string>): seq<Field> {
    if extra == [] then []
    else
      var text := Text.Strip(extra[|extra| - 1]);
      Contexts(extra[..|extra| - 1]) + (if text != "" then [Field("context", text)] else [])
  }

  /** The first keyword that matches any field, with the first field it matches. */
  ghost predicate FirstHit(hit: Option<Hit>, keywords: seq<string>, fields: seq<Field>) {
    match hit
    case None => forall i, j :: 0 <= i < |keywords| && 0 <= j < |fields| ==> !Matches(keywords[i], fields[j])
    case Some(h) => exists i, j :: 0 <= i < |keywords| && 0 <= j < |fields| && HitAt(h, keywords, fields, i, j)
  }

  ghost predicate HitAt(h: Hit, keywords: seq<string>, fields: seq<Field>, i: nat, j: nat)
    requires i < |keywords| && j < |fields|
  {
    && h == Hit(keywords[i], fields[j].name, fields[j].text) && Matches(keywords[i], fields[j])
    && (forall k, l :: 0 <= k < i && 0 <= l < |fields| ==> !Matches(keywords[k], fields[l]))
    && (forall l :: 0 <= l < j ==> !Matches(keywords[i], fields[l]))
  }

  /** The nested search loops of `match_excluded_theme`. */
  method FindFirstHit(keywords: seq<string>, fields: seq<Field>) returns (hit: Option<Hit>)
    ensures FirstHit(hit, keywords, fields)
  {
    for i := 0 to |keywords|
      invariant forall k, l :: 0 <= k < i && 0 <= l < |fields| ==> !Matches(keywords[k], fields[l])
    {
      for j := 0 to |fields|
        invariant forall l :: 0 <= l < j ==> !Matches(keywords[i], fields[l])
      {
        if keywords[i] != "" && fields[j].text != "" && Contains(fields[j].text, keywords[i]) {
          hit := Some(Hit(keywords[i], fields[j].name, fields[j].text));
          assert HitAt(hit.value, keywords, fields, i, j);
          return;
        }
      }
    }
    return None;
  }

  /** `match_excluded_theme`. */
  method MatchExcludedTheme(
      suffixes: seq<string>, keywords: seq<string>, name: string, sector: string, extra: seq<string>)
    returns (hit: Option<Hit>)
    requires NoneEmpty(suffixes)
    ensures FirstHit(hit, Normalize(suffixes, keywords), Fields(name, sector, extra))
  {
    var fields := [Field("name", Text.Strip(name)), Field("sector", Text.Strip(sector))];
    for n := 0 to |extra|
      invariant fields == Fields(name, sector, extra[..n])
    {
      assert extra[..n + 1][..n] == extra[..n];
      var value := Text.Strip(extra[n]);
      if value != "" {
        fields := fields + [Field("context", value)];
      }
    }
    assert extra[..|extra|] == extra;
    var normalized := NormalizeExcludedThemeKeywords(suffixes, Listed(keywords));
    hit := FindFirstHit(normalized, fields);
  }

  lemma FirstHitIsUnique(a: Option<Hit>, b: Option<Hit>, keywords: seq<string>, fields: seq<Field>)
    requires FirstHit(a, keywords, fields) && FirstHit(b, keywords, fields)
    ensures a == b
  {
    if a.Some? && b.Some? {
      var i, j: int :| 0 <= i < |keywords| && 0 <= j < |fields| && HitAt(a.value, keywords, fields, i, j);
      var k, l: int :| 0 <= k < |keywords| && 0 <= l < |fields| && HitAt(b.value, keywords, fields, k, l);
    }
  }

  /** The answer is the same for the configured list and for its normalized form. */
  lemma SameAnswerNormalized(
      suffixes: seq<string>, keywords: seq<string>, fields: seq<Field>, a: Option<Hit>, b: Option<Hit>)
    requires NoneEmpty(suffixes)
    requires FirstHit(a, Normalize(suffixes, keywords), fields)
    requires FirstHit(b, Normalize(suffixes, Normalize(suffixes, keywords)), fields)
    ensures a == b
  {
    NormalizeIsIdempotent(suffixes, keywords);
    FirstHitIsUnique(a, b, Normalize(suffixes, keywords), fields);
  }

  /** A configured text given where a list is expected is read character by character, and then nothing matches. */
  lemma CharactersNeverMatch(suffixes: seq<string>, keywords: seq<string>, fields: seq<Field>, hit: Option<Hit>)
    requires NoneEmpty(suffixes) && forall i :: 0 <= i < |keywords| ==> |keywords[i]| == 1
    requires FirstHit(hit, Normalize(suffixes, keywords), fields)
    ensures hit == None
  {
    NormalizedIs(suffixes, keywords);
    forall t | t in Normalize(suffixes, keywords)
      ensures false
    {
      var i :| 0 <= i < |keywords| && Trim(suffixes, keywords[i]) == t;
      TrimEndsBare(suffixes, keywords[i]);
      Text.StripShape(keywords[i]);
    }
  }

  /** A text contains another one that stands somewhere inside it. */
  lemma ContainsIff(text: string, part: string)
    ensures Contains(text, part) <==> exists before, after :: text == before + part + after
  {
    if Contains(text, part) {
      var i :| 0 <= i <= |text| - |part| && StartsAt(text, part, i);
      assert text == text[..i] + part + text[i + |part|..];
    }
    if before, after :| text == before + part + after {
      assert text[|before|..|before| + |part|] == part;
      assert StartsAt(text, part, |before|);
    }
  }

  /** A keyword matches a field whose text contains it; blank keywords and fields match nothing. */
  lemma MatchesIff(keyword: string, field: Field)
    ensures Matches(keyword, field) <==>
            keyword != "" && exists before, after :: field.text == before + keyword + after
  {
    ContainsIff(field.text, keyword);
    if keyword != "" && Contains(field.text, keyword) {
      var before, after :| field.text == before + keyword + after;
      assert |field.text| >= |keyword|;
    }
  }

  /** The fields searched: the name, the sector, and every further text that is not blank, in order. */
  lemma FieldsAre(name: string, sector: string, extra: seq<string>, next: string)
    ensures Fields(name, sector, []) == [Field("name", Text.Strip(name)), Field("sector", Text.Strip(sector))]
    ensures Fields(name, sector, extra + [next]) ==
            if Text.Strip(next) == "" then Fields(name, sector, extra)
            else Fields(name, sector, extra) + [Field("context", Text.Strip(next))]
  {
    assert (extra + [next])[..|extra|] == extra;
  }

  /** One more part adds its trimmed form at the end, unless it is too short or already there. */
  lemma OneMorePart(suffixes: seq<string>, parts: seq<string>, part: string)
    requires NoneEmpty(suffixes)
    ensures var (before, token) := (Normalize(suffixes, parts), Trim(suffixes, part));
            && Normalize(suffixes, []) == []
            && Normalize(suffixes, parts + [part]) ==
               if |token| >= 2 && token !in before then before + [token] else before
  {
    assert (parts + [part])[..|parts|] == parts;
    TokenOf(suffixes, part);
  }

  // ------------------------------------------------------ splitting a list text

  /** The parts with a run of separators between each two. */
  function Rejoined(parts: seq<string>, runs: seq<string>): string
    requires |parts| == |runs| + 1
  {
    if runs == [] then parts[0] else parts[0] + runs[0] + Rejoined(parts[1..], runs[1..])
  }

  predicate AllSeparators(run: string) {
    run != "" && forall i :: 0 <= i < |run| ==> run[i] in "，,、；;|/"
  }

  ghost predicate SplitInto(text: string, parts: seq<string>, runs: seq<string>) {
    && |parts| == |runs| + 1 && Rejoined(parts, runs) == text
    && (forall i :: 0 <= i < |runs| ==> AllSeparators(runs[i]))
    && (forall i, k :: 0 <= i < |parts| && 0 <= k < |parts[i]| ==> parts[i][k] !in "，,、；;|/")
    && (forall i :: 0 < i < |parts| - 1 ==> parts[i] != "")
  }

  lemma LongerPart(c: char, text: string, parts: seq<string>, runs: seq<string>)
    requires SplitInto(text, parts, runs) && c !in "，,、；;|/"
    ensures SplitInto([c] + text, [[c] + parts[0]] + parts[1..], runs)
  {
    var longer := [[c] + parts[0]] + parts[1..];
    assert longer[1..] == parts[1..];
    assert Rejoined(longer, runs) == [c] + Rejoined(parts, runs);
  }

  lemma LongerRun(c: char, text: string, parts: seq<string>, runs: seq<string>)
    requires SplitInto(text, parts, runs) && c in "，,、；;|/" && runs != [] && parts[0] == ""
    ensures SplitInto([c] + text, parts, [[c] + runs[0]] + runs[1..])
  {
    var longer := [[c] + runs[0]] + runs[1..];
    assert longer[1..] == runs[1..];
    assert Rejoined(parts, longer) == [c] + Rejoined(parts, runs);
  }

  lemma NewRun(c: char, text: string, parts: seq<string>, runs: seq<string>)
    requires SplitInto(text, parts, runs) && c in "，,、；;|/" && (parts[0] != "" || runs == [])
    ensures SplitInto([c] + text, [""] + parts, [[c]] + runs)
  {
    assert ([""] + parts)[1..] == parts && ([[c]] + runs)[1..] == runs;
    assert Rejoined([""] + parts, [[c]] + runs) == [c] + Rejoined(parts, runs);
  }

  /**
   * The text is its parts with runs of separators between them; no part has a separator, and only the
   * first and the last part can be empty.
   */
  lemma {:induction false} SplitThemesIs(text: string) returns (runs: seq<string>)
    ensures SplitInto(text, SplitThemes(text), runs)
    ensures text != "" && IsSeparator(text[0]) <==> runs != [] && SplitThemes(text)[0] == ""
  {
    if text == "" {
      runs := [];
    } else {
      var (c, below) := (text[0], SplitThemes(text[1..]));
      assert text == [c] + text[1..];
      var rest := SplitThemesIs(text[1..]);
      hide SplitInto;
      if !IsSeparator(c) {
        runs := rest;
        LongerPart(c, text[1..], below, rest);
      } else if |text| > 1 && IsSeparator(text[1]) {
        runs := [[c] + rest[0]] + rest[1..];
        LongerRun(c, text[1..], below, rest);
      } else {
        runs := [[c]] + rest;
        NewRun(c, text[1..], below, rest);
      }
    }
  }
}
