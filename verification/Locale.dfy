/**
 Choosing the dashboard's language from an Accept-Language header (sections
 12.4.2 and 12.5.4 of RFC 9110). Qualities are counted in thousandths.
 */
module Locale {
  import opened Wrappers
  import opened Text

  const SUPPORTED_LOCALES: seq<string> := ["en", "es", "ja"]

  predicate IsSupportedLocale(value: string) {
    value in SUPPORTED_LOCALES
  }

  datatype WeightedTag = WeightedTag(tag: string, quality: nat)

  predicate IsDigit(c: char) {
    '0' <= c <= '9'
  }

  function DigitOf(c: char): nat
    requires IsDigit(c)
  {
    c as int - '0' as int
  }

  /** One to three decimals, in thousandths; None for anything else. */
  function Decimals(s: string): Option<nat> {
    if !(1 <= |s| <= 3) || (exists i :: 0 <= i < |s| && !IsDigit(s[i])) then None
    else
      Some(DigitOf(s[0]) * 100 + (if |s| > 1 then DigitOf(s[1]) * 10 else 0) + if |s| > 2 then DigitOf(s[2]) else 0)
  }

  /** The quality a parameter gives: q, =, 0 or 1, and possibly a point and decimals. */
  function QualityParam(param: string): Option<nat> {
    if |param| < 3 || (param[0] != 'q' && param[0] != 'Q') || param[1] != '=' || (param[2] != '0' && param[2] != '1') then None
    else if |param| == 3 then Some(DigitOf(param[2]) * 1000)
    else if param[3] != '.' || Decimals(param[4..]).None? then None
    else Some(DigitOf(param[2]) * 1000 + Decimals(param[4..]).value)
  }

  function Digit(n: nat): char
    requires n <= 9
  {
    (n + '0' as int) as char
  }

  /** A quality is read in thousandths, however many of its decimals are written out. */
  lemma {:induction false} QualityReadsThousandths(unit: nat, tenths: nat, hundredths: nat, thousandths: nat)
    requires unit <= 1 && tenths <= 9 && hundredths <= 9 && thousandths <= 9
    ensures QualityParam(['q', '=', Digit(unit), '.', Digit(tenths), Digit(hundredths), Digit(thousandths)])
         == Some(1000 * unit + 100 * tenths + 10 * hundredths + thousandths)
    ensures QualityParam(['q', '=', Digit(unit), '.', Digit(tenths), Digit(hundredths)])
         == Some(1000 * unit + 100 * tenths + 10 * hundredths)
    ensures QualityParam(['q', '=', Digit(unit), '.', Digit(tenths)]) == Some(1000 * unit + 100 * tenths)
    ensures QualityParam(['Q', '=', Digit(unit)]) == Some(1000 * unit)
  {
    var a, b, c := Digit(tenths), Digit(hundredths), Digit(thousandths);
    assert ['q', '=', Digit(unit), '.', a, b, c][4..] == [a, b, c];
    assert ['q', '=', Digit(unit), '.', a, b][4..] == [a, b];
    assert ['q', '=', Digit(unit), '.', a][4..] == [a];
  }

  /** The last parameter that gives a quality decides; without one it is 1. */
  function QualityOf(params: seq<string>): nat {
    if params == [] then 1000
    else
      var last := QualityParam(Trim(params[|params| - 1]));
      if last.Some? then last.value else QualityOf(params[..|params| - 1])
  }

  function ParsePart(rawPart: string): Option<WeightedTag> {
    var part := Trim(rawPart);
    if part == "" then None
    else
      var segments := Split(part, ';');
      var tag := Trim(segments[0]);
      if tag == "" then None else Some(WeightedTag(tag, QualityOf(segments[1..])))
  }

  function ParseParts(parts: seq<string>): seq<WeightedTag> {
    if parts == [] then []
    else
      var last := ParsePart(parts[|parts| - 1]);
      ParseParts(parts[..|parts| - 1]) + if last.Some? then [last.value] else []
  }

  /** The header's tags, in header order. */
  function Tags(header: string): seq<WeightedTag> {
    ParseParts(Split(header, ','))
  }

  // ---- what a header says ----

  function Value(c: char): int {
    c as int - 48
  }

  predicate IsNumeral(c: char) {
    48 <= c as int <= 57
  }

  /** A parameter gives a quality exactly when it has one of these shapes, and then this many thousandths. */
  lemma {:induction false} QualityParamIff(param: string)
    ensures QualityParam(param).Some? <==>
              && |param| in {3, 5, 6, 7} && param[0] in {'q', 'Q'} && param[1] == '=' && param[2] in {'0', '1'}
              && (|param| > 3 ==> param[3] == '.') && (forall i | 4 <= i < |param| :: IsNumeral(param[i]))
    ensures QualityParam(param).Some? ==>
              QualityParam(param).value ==
                1000 * Value(param[2]) + (if |param| > 4 then 100 * Value(param[4]) else 0)
                + (if |param| > 5 then 10 * Value(param[5]) else 0) + if |param| > 6 then Value(param[6]) else 0
  {
    if |param| > 4 {
      assert forall i | 4 <= i < |param| :: param[4..][i - 4] == param[i];
    }
  }

  /** A part of a header: a tag and its parameters, none of them holding a separator. */
  datatype Part = Part(tag: string, params: seq<string>)

  function PartText(p: Part): string {
    Join([p.tag] + p.params, ';')
  }

  function PartTexts(ps: seq<Part>): seq<string> {
    seq(|ps|, i requires 0 <= i < |ps| => PartText(ps[i]))
  }

  function HeaderText(ps: seq<Part>): string {
    Join(PartTexts(ps), ',')
  }

  ghost predicate WellSeparated(p: Part) {
    Free([p.tag] + p.params, ';') && Free([p.tag] + p.params, ',')
  }

  /** The last parameter that gives a quality gives this one; without any it is 1. */
  ghost predicate GivesQuality(params: seq<string>, quality: nat) {
    || (quality == 1000 && forall i | 0 <= i < |params| :: QualityParam(Trim(params[i])).None?)
    || exists i :: DecidesQuality(params, i, quality)
  }

  predicate DecidesQuality(params: seq<string>, i: int, quality: nat) {
    && 0 <= i < |params| && QualityParam(Trim(params[i])) == Some(quality)
    && forall j | i < j < |params| :: QualityParam(Trim(params[j])).None?
  }

  /** What a part stands for: nothing without a tag, otherwise the trimmed tag with its quality. */
  ghost predicate Means(p: Part, t: Option<WeightedTag>) {
    match t
    case None => Trim(p.tag) == ""
    case Some(w) => Trim(p.tag) != "" && w.tag == Trim(p.tag) && GivesQuality(p.params, w.quality)
  }

  function Present(ts: seq<Option<WeightedTag>>): seq<WeightedTag> {
    if ts == [] then [] else Present(ts[..|ts| - 1]) + if ts[|ts| - 1].Some? then [ts[|ts| - 1].value] else []
  }

  lemma {:induction false} QualityIsGiven(params: seq<string>, quality: nat)
    requires GivesQuality(params, quality)
    ensures QualityOf(params) == quality
  {
    if params != [] {
      var init, last := params[..|params| - 1], QualityParam(Trim(params[|params| - 1]));
      if last.None? {
        if exists i :: DecidesQuality(params, i, quality) {
          var i :| DecidesQuality(params, i, quality);
          assert DecidesQuality(init, i, quality);
        }
        QualityIsGiven(init, quality);
      }
    }
  }

  lemma {:induction false} QualityOfTrimmed(a: seq<string>, b: seq<string>)
    requires TrimAll(a) == TrimAll(b)
    ensures QualityOf(a) == QualityOf(b)
  {
    assert |a| == |TrimAll(a)| == |b|;
    if a != [] {
      var n := |a| - 1;
      assert Trim(a[n]) == TrimAll(a)[n] == Trim(b[n]);
      assert TrimAll(a[..n]) == TrimAll(a)[..n] == TrimAll(b)[..n] == TrimAll(b[..n]);
      QualityOfTrimmed(a[..n], b[..n]);
    }
  }

  lemma PartIsParsed(p: Part, t: Option<WeightedTag>)
    requires WellSeparated(p) && Means(p, t)
    ensures ParsePart(PartText(p)) == t
  {
    var text, whole := PartText(p), [p.tag] + p.params;
    var segments := Split(Trim(text), ';');
    SplitInvertsJoin(whole, ';');
    SplitOfTrimmed(text, ';');
    assert |segments| == |TrimAll(segments)| == |whole|;
    assert Trim(segments[0]) == TrimAll(segments)[0] == Trim(p.tag);
    assert TrimAll(segments[1..]) == TrimAll(segments)[1..] == TrimAll(whole)[1..] == TrimAll(p.params);
    QualityOfTrimmed(segments[1..], p.params);
    if t.Some? {
      QualityIsGiven(p.params, t.value.quality);
    }
  }

  lemma {:induction false} PartsOfTrimmed(a: seq<string>, b: seq<string>)
    requires TrimAll(a) == TrimAll(b)
    ensures ParseParts(a) == ParseParts(b)
  {
    assert |a| == |TrimAll(a)| == |b|;
    if a != [] {
      var n := |a| - 1;
      assert Trim(a[n]) == TrimAll(a)[n] == Trim(b[n]);
      assert TrimAll(a[..n]) == TrimAll(a)[..n] == TrimAll(b)[..n] == TrimAll(b[..n]);
      PartsOfTrimmed(a[..n], b[..n]);
    }
  }

  lemma {:induction false} PartsAreParsed(ps: seq<Part>, ts: seq<Option<WeightedTag>>)
    requires |ps| == |ts| && forall i | 0 <= i < |ps| :: WellSeparated(ps[i]) && Means(ps[i], ts[i])
    ensures ParseParts(PartTexts(ps)) == Present(ts)
  {
    if ps != [] {
      var n := |ps| - 1;
      assert PartTexts(ps)[..n] == PartTexts(ps[..n]);
      PartsAreParsed(ps[..n], ts[..n]);
      PartIsParsed(ps[n], ts[n]);
    }
  }

  /**
   A header's tags are what its parts mean, in their order, parts without a tag
   left out: a tag without a quality weighs 1, and of several qualities the last
   counts, whatever parameters of another kind stand around it.
   */
  lemma TagsOfHeader(ps: seq<Part>, ts: seq<Option<WeightedTag>>)
    requires ps != [] && |ps| == |ts| && forall i | 0 <= i < |ps| :: WellSeparated(ps[i]) && Means(ps[i], ts[i])
    ensures Tags(Trim(HeaderText(ps))) == Present(ts)
  {
    forall i | 0 <= i < |ps|
      ensures ',' !in PartTexts(ps)[i]
    {
      JoinIsFree([ps[i].tag] + ps[i].params, ';', ',');
    }
    SplitInvertsJoin(PartTexts(ps), ',');
    SplitOfTrimmed(HeaderText(ps), ',');
    PartsOfTrimmed(Split(Trim(HeaderText(ps)), ','), PartTexts(ps));
    PartsAreParsed(ps, ts);
  }

  /** A part without parameters: its trimmed text is the tag, and the quality 1. */
  lemma PlainPart(text: string)
    requires ';' !in text && ',' !in text
    ensures ParsePart(text) == if Trim(text) == "" then None else Some(WeightedTag(Trim(text), 1000))
  {
    PartIsParsed(Part(text, []), if Trim(text) == "" then None else Some(WeightedTag(Trim(text), 1000)));
  }

  method ParseQuality(params: seq<string>) returns (quality: nat)
    ensures quality == QualityOf(params)
  {
    quality := 1000;
    for i := 0 to |params|
      invariant quality == QualityOf(params[..i])
    {
      assert params[..i + 1][..i] == params[..i];
      var value := QualityParam(Trim(params[i]));
      if value.Some? {
        quality := value.value;
      }
    }
    assert params[..|params|] == params;
  }

  method ParseWeightedTags(header: string) returns (entries: seq<WeightedTag>)
    ensures entries == Tags(header)
  {
    entries := [];
    var parts := Split(header, ',');
    for i := 0 to |parts|
      invariant entries == ParseParts(parts[..i])
    {
      assert parts[..i + 1][..i] == parts[..i];
      var part := Trim(parts[i]);
      if part != "" {
        var segments := Split(part, ';');
        var tag := Trim(segments[0]);
        if tag != "" {
          var quality := ParseQuality(segments[1..]);
          entries := entries + [WeightedTag(tag, quality)];
        }
      }
    }
    assert parts[..|parts|] == parts;
  }

  function ToLower(s: string): string {
    if s == "" then ""
    else [if 'A' <= s[0] <= 'Z' then (s[0] as int + 32) as char else s[0]] + ToLower(s[1..])
  }

  function PrimarySubtag(tag: string): string {
    ToLower(Split(tag, '-')[0])
  }

  lemma {:induction false} ToLowerIs(s: string)
    ensures |ToLower(s)| == |s|
    ensures forall i | 0 <= i < |s| ::
              ToLower(s)[i] as int == if 65 <= s[i] as int <= 90 then s[i] as int + 32 else s[i] as int
  {
    if s != "" {
      ToLowerIs(s[1..]);
    }
  }

  /** What stands before the first hyphen, in lower case. */
  lemma PrimarySubtagIs(head: string, rest: string)
    requires '-' !in head
    ensures PrimarySubtag(head) == ToLower(head) && PrimarySubtag(head + "-" + rest) == ToLower(head)
  {
    SplitFree(head, '-');
    SplitFirst(head, rest, '-');
  }

  // ---- the preferred tag ----

  /** A tag with its place among the acceptable ones. */
  datatype Ranked = Ranked(tag: string, quality: nat, index: nat)

  /** The comparison the sort uses: higher quality first, then earlier. */
  predicate Before(a: Ranked, b: Ranked) {
    a.quality > b.quality || (a.quality == b.quality && a.index < b.index)
  }

  ghost predicate Sorted(s: seq<Ranked>) {
    forall i, j | 0 <= i < j < |s| :: Before(s[i], s[j])
  }

  /** filter, then number what is left. */
  function Acceptable(tags: seq<WeightedTag>): (s: seq<Ranked>)
    ensures forall i | 0 <= i < |s| :: s[i].index == i
  {
    if tags == [] then []
    else
      var earlier, last := Acceptable(tags[..|tags| - 1]), tags[|tags| - 1];
      earlier + if last.quality > 0 then [Ranked(last.tag, last.quality, |earlier|)] else []
  }

  function Insert(x: Ranked, s: seq<Ranked>): seq<Ranked> {
    if s == [] || Before(x, s[0]) then [x] + s else [s[0]] + Insert(x, s[1..])
  }

  function Sort(s: seq<Ranked>): seq<Ranked> {
    if s == [] then [] else Insert(s[0], Sort(s[1..]))
  }

  lemma {:induction false} InsertMembers(x: Ranked, s: seq<Ranked>)
    ensures forall y :: y in Insert(x, s) <==> y == x || y in s
  {
    if s != [] && !Before(x, s[0]) {
      InsertMembers(x, s[1..]);
    }
  }

  lemma {:induction false} InsertSorted(x: Ranked, s: seq<Ranked>)
    requires Sorted(s) && forall y | y in s :: y.index != x.index
    ensures Sorted(Insert(x, s))
  {
    if s != [] {
      if Before(x, s[0]) {
        assert forall y | y in s :: y == s[0] || Before(s[0], y);
      } else {
        assert Before(s[0], x) by { assert s[0] in s; }
        InsertSorted(x, s[1..]);
        InsertMembers(x, s[1..]);
        forall y | y in Insert(x, s[1..])
          ensures Before(s[0], y)
        {}
      }
    }
  }

  ghost predicate DistinctIndices(s: seq<Ranked>) {
    forall i, j | 0 <= i < j < |s| :: s[i].index != s[j].index
  }

  lemma {:induction false} SortSorts(s: seq<Ranked>)
    requires DistinctIndices(s)
    ensures Sorted(Sort(s))
    ensures forall y :: y in Sort(s) <==> y in s
  {
    if s != [] {
      SortSorts(s[1..]);
      InsertMembers(s[0], Sort(s[1..]));
      InsertSorted(s[0], Sort(s[1..]));
    }
  }

  /** The tag names a supported language that the client accepts. */
  predicate Usable(t: WeightedTag) {
    t.quality > 0 && IsSupportedLocale(PrimarySubtag(t.tag))
  }

  /** tags[i] is usable, none has a greater quality, and none of the same quality stands earlier. */
  ghost predicate IsPreferred(tags: seq<WeightedTag>, i: int) {
    && 0 <= i < |tags| && Usable(tags[i])
    && (forall j | 0 <= j < |tags| && Usable(tags[j]) :: tags[j].quality <= tags[i].quality)
    && (forall j | 0 <= j < i && Usable(tags[j]) :: tags[j].quality < tags[i].quality)
  }

  lemma {:induction false} PreferredIsUnique(tags: seq<WeightedTag>, i: int, j: int)
    requires IsPreferred(tags, i) && IsPreferred(tags, j)
    ensures i == j
  {}

  /** Ranks follow header positions. */
  ghost predicate Stands(tags: seq<WeightedTag>, s: seq<Ranked>, n: nat, i: int) {
    && 0 <= i < |tags| && n < |s| && tags[i].tag == s[n].tag && tags[i].quality == s[n].quality > 0
    && n == |Acceptable(tags[..i])|
  }

  lemma {:induction false} AcceptableGrows(tags: seq<WeightedTag>, i: nat, j: nat)
    requires i <= j <= |tags|
    ensures Acceptable(tags[..i]) <= Acceptable(tags[..j])
    ensures i < j && tags[i].quality > 0 ==>
              var n := |Acceptable(tags[..i])|;
              n < |Acceptable(tags[..j])| && Acceptable(tags[..j])[n] == Ranked(tags[i].tag, tags[i].quality, n)
    decreases j - i
  {
    if i < j {
      AcceptableGrows(tags, i, j - 1);
      assert tags[..j][..j - 1] == tags[..j - 1];
    }
  }

  /** Every acceptable tag has a rank ... */
  lemma {:induction false} TagHasRank(tags: seq<WeightedTag>, i: int)
    requires 0 <= i < |tags| && tags[i].quality > 0
    ensures Stands(tags, Acceptable(tags), |Acceptable(tags[..i])|, i)
  {
    AcceptableGrows(tags, i, |tags|);
    assert tags[..|tags|] == tags;
  }

  /** ... and every rank a tag. */
  lemma {:induction false} RankHasTag(tags: seq<WeightedTag>, n: nat) returns (i: nat)
    requires n < |Acceptable(tags)|
    ensures Stands(tags, Acceptable(tags), n, i)
  {
    var k := |tags| - 1;
    if n < |Acceptable(tags[..k])| {
      i := RankHasTag(tags[..k], n);
      assert tags[..k][..i] == tags[..i];
    } else {
      i := k;
    }
  }

  /** Two tags in header order have ranks in that order. */
  lemma {:induction false} RanksInOrder(tags: seq<WeightedTag>, i: int, j: int)
    requires 0 <= i < j < |tags| && tags[i].quality > 0
    ensures |Acceptable(tags[..i])| < |Acceptable(tags[..j])|
  {
    AcceptableGrows(tags, i, j);
  }

  predicate UsableRank(r: Ranked) {
    IsSupportedLocale(PrimarySubtag(r.tag))
  }

  /** The first usable entry of the sorted list is the preferred tag. */
  lemma {:induction false} FirstUsableIsPreferred(tags: seq<WeightedTag>, sorted: seq<Ranked>, m: nat) returns (i: nat)
    requires sorted == Sort(Acceptable(tags)) && m < |sorted|
    requires UsableRank(sorted[m]) && forall k | 0 <= k < m :: !UsableRank(sorted[k])
    ensures IsPreferred(tags, i) && PrimarySubtag(tags[i].tag) == PrimarySubtag(sorted[m].tag)
  {
    var ranked := Acceptable(tags);
    SortSorts(ranked);
    assert sorted[m] in ranked;
    i := RankHasTag(tags, sorted[m].index);
    forall j | 0 <= j < |tags| && Usable(tags[j])
      ensures tags[j].quality <= tags[i].quality
      ensures j < i ==> tags[j].quality < tags[i].quality
    {
      if j != i {
        PreferredOver(tags, sorted, m, i, j);
      }
    }
  }

  lemma {:induction false} PreferredOver(tags: seq<WeightedTag>, sorted: seq<Ranked>, m: nat, i: nat, j: nat)
    requires sorted == Sort(Acceptable(tags)) && m < |sorted|
    requires forall k | 0 <= k < m :: !UsableRank(sorted[k])
    requires Stands(tags, Acceptable(tags), sorted[m].index, i) && sorted[m] in Acceptable(tags)
    requires j < |tags| && j != i && Usable(tags[j])
    ensures tags[j].quality <= tags[i].quality
    ensures j < i ==> tags[j].quality < tags[i].quality
  {
    var ranked := Acceptable(tags);
    SortSorts(ranked);
    TagHasRank(tags, j);
    var n := |Acceptable(tags[..j])|;
    var other := ranked[n];
    assert other in sorted;
    var k :| 0 <= k < |sorted| && sorted[k] == other;
    if j < i {
      RanksInOrder(tags, j, i);
    } else {
      RanksInOrder(tags, i, j);
    }
    assert k > m;
    assert Before(sorted[m], other);
  }

  lemma {:induction false} NoneUsable(tags: seq<WeightedTag>, sorted: seq<Ranked>)
    requires sorted == Sort(Acceptable(tags))
    requires forall k | 0 <= k < |sorted| :: !UsableRank(sorted[k])
    ensures forall i | 0 <= i < |tags| :: !Usable(tags[i])
  {
    SortSorts(Acceptable(tags));
    forall i | 0 <= i < |tags|
      ensures !Usable(tags[i])
    {
      if tags[i].quality > 0 {
        TagHasRank(tags, i);
        var other := Acceptable(tags)[|Acceptable(tags[..i])|];
        assert other in Sort(Acceptable(tags));
      }
    }
  }

  /** The language of the preferred tag; nothing exactly when no supported tag has positive quality. */
  ghost predicate Chooses(tags: seq<WeightedTag>, language: Option<string>) {
    match language
    case Some(l) => exists i :: IsPreferred(tags, i) && l == PrimarySubtag(tags[i].tag)
    case None => forall i | 0 <= i < |tags| :: !Usable(tags[i])
  }

  lemma {:induction false} EmptyHeaderHasNoTags()
    ensures Tags("") == []
  {
    assert Split("", ',') == [""];
    OnePart("");
  }

  lemma {:induction false} OnePart(part: string)
    requires Trim(part) == ""
    ensures ParseParts([part]) == []
  {
    assert [part][..0] == [];
  }

  lemma {:induction false} ChoiceIsUnique(tags: seq<WeightedTag>, a: Option<string>, b: Option<string>)
    requires Chooses(tags, a) && Chooses(tags, b)
    ensures a == b
  {
    if a.Some? && b.Some? {
      var i :| IsPreferred(tags, i) && a.value == PrimarySubtag(tags[i].tag);
      var j :| IsPreferred(tags, j) && b.value == PrimarySubtag(tags[j].tag);
      PreferredIsUnique(tags, i, j);
    }
  }

  lemma SupportedLanguages(value: string)
    ensures IsSupportedLocale(value) <==> value == "en" || value == "es" || value == "ja"
  {
    assert SUPPORTED_LOCALES[0] == "en" && SUPPORTED_LOCALES[1] == "es" && SUPPORTED_LOCALES[2] == "ja";
  }

  lemma HeavierFirst(first: WeightedTag, second: WeightedTag, language: Option<string>)
    requires Usable(first) && first.quality > second.quality && Chooses([first, second], language)
    ensures language == Some(PrimarySubtag(first.tag))
  {
    assert IsPreferred([first, second], 0);
    ChoiceIsUnique([first, second], language, Some(PrimarySubtag(first.tag)));
  }

  lemma LowerCaseTag(tag: string)
    requires '-' !in tag && forall c | c in tag :: 'a' <= c <= 'z'
    ensures PrimarySubtag(tag) == tag
  {
    PrimarySubtagIs(tag, "");
    ToLowerIs(tag);
    forall i | 0 <= i < |tag|
      ensures ToLower(tag)[i] == tag[i]
    {
      assert tag[i] in tag;
    }
  }

  /** An example: Spanish without a quality comes before English with one half. */
  lemma SpanishBeforeHalfEnglish(header: string, language: Option<string>, spanish: string)
    requires header == "es, en;q=0.5" && spanish == "es" && Chooses(Tags(Trim(header)), language)
    ensures language == Some(spanish)
  {
    var es, en := WeightedTag(spanish, 1000), WeightedTag("en", 500);
    ExampleTags(header, es, en);
    LowerCaseTag(spanish);
    SupportedLanguages(spanish);
    HeavierFirst(es, en, language);
  }

  lemma ExampleTags(header: string, es: WeightedTag, en: WeightedTag)
    requires header == "es, en;q=0.5" && es == WeightedTag("es", 1000) && en == WeightedTag("en", 500)
    ensures Tags(Trim(header)) == [es, en]
  {
    var a, b := Part("es", []), Part(" en", ["q=0.5"]);
    SpanishPart(a);
    EnglishPart(b);
    assert "es" + [','] + " en;q=0.5" == header;
    TagsOfTwo(header, a, b, es, en);
  }

  lemma TagsOfTwo(header: string, a: Part, b: Part, first: WeightedTag, second: WeightedTag)
    requires header == PartText(a) + [','] + PartText(b)
    requires WellSeparated(a) && WellSeparated(b) && Means(a, Some(first)) && Means(b, Some(second))
    ensures Tags(Trim(header)) == [first, second]
  {
    assert PartTexts([a, b]) == [PartText(a), PartText(b)];
    JoinOfTwo(PartText(a), PartText(b), ',');
    var tags := [Some(first), Some(second)];
    TagsOfHeader([a, b], tags);
    assert tags[..1] == [Some(first)] && tags[..1][..0] == [];
    assert Present(tags[..1]) == [first];
  }

  lemma SpanishPart(part: Part)
    requires part == Part("es", [])
    ensures PartText(part) == "es" && WellSeparated(part) && Means(part, Some(WeightedTag("es", 1000)))
  {
    assert ["es"] + [] == ["es"] && Trim("es") == "es";
  }

  lemma EnglishPart(part: Part)
    requires part == Part(" en", ["q=0.5"])
    ensures PartText(part) == " en;q=0.5" && WellSeparated(part) && Means(part, Some(WeightedTag("en", 500)))
  {
    JoinOfTwo(" en", "q=0.5", ';');
    assert [" en"] + ["q=0.5"] == [" en", "q=0.5"] && " en" + [';'] + "q=0.5" == " en;q=0.5";
    assert Trim(" en") == "en" && Trim("q=0.5") == "q=0.5";
    QualityReadsThousandths(0, 5, 0, 0);
    assert "q=0.5" == ['q', '=', Digit(0), '.', Digit(5)];
    assert DecidesQuality(["q=0.5"], 0, 500);
  }

  ghost predicate IsFirstUsable(sorted: seq<Ranked>, m: int) {
    0 <= m < |sorted| && UsableRank(sorted[m]) && forall k | 0 <= k < m :: !UsableRank(sorted[k])
  }

  /** The loop over the sorted entries. */
  method Scan(sorted: seq<Ranked>) returns (language: Option<string>)
    ensures match language
            case Some(l) => exists m :: IsFirstUsable(sorted, m) && l == PrimarySubtag(sorted[m].tag)
            case None => forall k | 0 <= k < |sorted| :: !UsableRank(sorted[k])
  {
    for m := 0 to |sorted|
      invariant forall k | 0 <= k < m :: !UsableRank(sorted[k])
    {
      var primarySubtag := ToLower(Split(sorted[m].tag, '-')[0]);
      if IsSupportedLocale(primarySubtag) {
        assert IsFirstUsable(sorted, m);
        return Some(primarySubtag);
      }
    }
    language := None;
  }

  lemma {:induction false} ScanChooses(tags: seq<WeightedTag>, sorted: seq<Ranked>, language: Option<string>)
    requires sorted == Sort(Acceptable(tags))
    requires match language
             case Some(l) => exists m :: IsFirstUsable(sorted, m) && l == PrimarySubtag(sorted[m].tag)
             case None => forall k | 0 <= k < |sorted| :: !UsableRank(sorted[k])
    ensures Chooses(tags, language)
  {
    match language
    case Some(l) =>
      var m :| IsFirstUsable(sorted, m) && l == PrimarySubtag(sorted[m].tag);
      var i := FirstUsableIsPreferred(tags, sorted, m);
    case None => NoneUsable(tags, sorted);
  }

  lemma {:induction false} ChosenIsSupported(tags: seq<WeightedTag>, language: Option<string>)
    requires Chooses(tags, language) && language.Some?
    ensures IsSupportedLocale(language.value)
  {}

  method NegotiateAcceptLanguage(header: Option<string>) returns (language: Option<string>)
    ensures header.None? ==> language.None?
    ensures header.Some? ==> Chooses(Tags(Trim(header.value)), language)
    ensures language.Some? ==> IsSupportedLocale(language.value)
  {
    if header.None? {
      return None;
    }
    var trimmed := Trim(header.value);
    if trimmed == "" {
      EmptyHeaderHasNoTags();
      return None;
    }
    var weighted := ParseWeightedTags(trimmed);
    var sorted := Sort(Acceptable(weighted));
    language := Scan(sorted);
    ScanChooses(weighted, sorted, language);
    if language.Some? {
      ChosenIsSupported(weighted, language);
    }
  }
}
