/** HTML escaping, and the template tag that escapes every interpolated value. */
module EscapeHtml {
  import opened Counting

  /** value.replace(/c/g, entity). */
  function ReplaceAll(s: string, c: char, entity: string): string {
    if s == "" then "" else (if s[0] == c then entity else [s[0]]) + ReplaceAll(s[1..], c, entity)
  }

  const AMP := "&amp;"
  const LT := "&lt;"
  const GT := "&gt;"
  const QUOT := "&quot;"
  const APOS := "&#39;"

  /** The five replacements, one after the other, the ampersand first. */
  function EscapeHtml(value: string): string {
    var amp := ReplaceAll(value, '&', AMP);
    var lt := ReplaceAll(amp, '<', LT);
    var gt := ReplaceAll(lt, '>', GT);
    var quot := ReplaceAll(gt, '"', QUOT);
    ReplaceAll(quot, '\'', APOS)
  }

  /** The reference: each character on its own. */
  function EscapeChar(c: char): string {
    match c
    case '&' => AMP
    case '<' => LT
    case '>' => GT
    case '"' => QUOT
    case '\'' => APOS
    case _ => [c]
  }

  function Escaped(s: string): string {
    if s == "" then "" else EscapeChar(s[0]) + Escaped(s[1..])
  }

  lemma {:induction false} ReplaceConcat(a: string, b: string, c: char, entity: string)
    ensures ReplaceAll(a + b, c, entity) == ReplaceAll(a, c, entity) + ReplaceAll(b, c, entity)
  {
    if a == "" {
      assert a + b == b;
    } else {
      assert (a + b)[1..] == a[1..] + b;
      ReplaceConcat(a[1..], b, c, entity);
    }
  }

  lemma {:induction false} ReplaceAbsent(s: string, c: char, entity: string)
    requires c !in s
    ensures ReplaceAll(s, c, entity) == s
  {
    if s != "" {
      assert s[0] in s && forall x | x in s[1..] :: x in s;
      ReplaceAbsent(s[1..], c, entity);
      assert [s[0]] + s[1..] == s;
    }
  }

  lemma ReplaceOne(c: char, entity: string)
    ensures ReplaceAll([c], c, entity) == entity
  {
    assert [c][1..] == "" && entity + "" == entity;
  }

  lemma EscapeDistributes(a: string, b: string)
    ensures EscapeHtml(a + b) == EscapeHtml(a) + EscapeHtml(b)
  {
    var a1, b1 := ReplaceAll(a, '&', AMP), ReplaceAll(b, '&', AMP);
    ReplaceConcat(a, b, '&', AMP);
    var a2, b2 := ReplaceAll(a1, '<', LT), ReplaceAll(b1, '<', LT);
    ReplaceConcat(a1, b1, '<', LT);
    var a3, b3 := ReplaceAll(a2, '>', GT), ReplaceAll(b2, '>', GT);
    ReplaceConcat(a2, b2, '>', GT);
    ReplaceConcat(a3, b3, '"', QUOT);
    ReplaceConcat(ReplaceAll(a3, '"', QUOT), ReplaceAll(b3, '"', QUOT), '\'', APOS);
  }

  /** Later passes leave a string alone that holds none of their characters. */
  lemma LaterPasses(s: string)
    requires '<' !in s && '>' !in s && '"' !in s && '\'' !in s
    ensures ReplaceAll(ReplaceAll(ReplaceAll(ReplaceAll(s, '<', LT), '>', GT), '"', QUOT), '\'', APOS) == s
  {
    ReplaceAbsent(s, '<', LT);
    ReplaceAbsent(s, '>', GT);
    ReplaceAbsent(s, '"', QUOT);
    ReplaceAbsent(s, '\'', APOS);
  }

  /** Only a character's own pass changes it. */
  lemma OnlyOwnPass(c: char)
    requires c != '&'
    ensures ReplaceAll([c], '&', AMP) == [c]
    ensures c != '<' ==> ReplaceAll([c], '<', LT) == [c]
    ensures c != '>' ==> ReplaceAll([c], '>', GT) == [c]
    ensures c != '"' ==> ReplaceAll([c], '"', QUOT) == [c]
    ensures c != '\'' ==> ReplaceAll([c], '\'', APOS) == [c]
  {
    ReplaceAbsent([c], '&', AMP);
    if c != '<' { ReplaceAbsent([c], '<', LT); }
    if c != '>' { ReplaceAbsent([c], '>', GT); }
    if c != '"' { ReplaceAbsent([c], '"', QUOT); }
    if c != '\'' { ReplaceAbsent([c], '\'', APOS); }
  }

  lemma EntityPasses(entity: string)
    requires '>' !in entity && '"' !in entity && '\'' !in entity
    ensures ReplaceAll(entity, '>', GT) == entity
    ensures ReplaceAll(entity, '"', QUOT) == entity
    ensures ReplaceAll(entity, '\'', APOS) == entity
  {
    ReplaceAbsent(entity, '>', GT);
    ReplaceAbsent(entity, '"', QUOT);
    ReplaceAbsent(entity, '\'', APOS);
  }

  lemma EscapeOne(c: char)
    ensures EscapeHtml([c]) == EscapeChar(c)
  {
    if c == '&' {
      ReplaceOne(c, AMP);
      LaterPasses(AMP);
    } else {
      OnlyOwnPass(c);
      ReplaceOne(c, EscapeChar(c));
      if c == '<' || c == '>' || c == '"' {
        EntityPasses(EscapeChar(c));
      }
    }
  }

  /** The five passes are one simultaneous substitution. */
  lemma {:induction false} FivePassesAreOne(s: string)
    ensures EscapeHtml(s) == Escaped(s)
  {
    if s != "" {
      assert s == [s[0]] + s[1..];
      EscapeDistributes([s[0]], s[1..]);
      EscapeOne(s[0]);
      FivePassesAreOne(s[1..]);
    }
  }

  // ---- decoding ----

  /** The character reference a string begins with, read as a browser does: its character and its length, 0 for none. */
  function EntityAt(t: string): (char, nat) {
    if "&amp;" <= t then ('&', 5)
    else if "&lt;" <= t then ('<', 4)
    else if "&gt;" <= t then ('>', 4)
    else if "&quot;" <= t then ('"', 6)
    else if "&#39;" <= t then ('\'', 5)
    else (' ', 0)
  }

  predicate IsMarkup(c: char) {
    c == '<' || c == '>' || c == '"' || c == '\''
  }

  /** An escaping of characters, and the entities it writes. */
  datatype Codec = Codec(escape: char -> string, entity: string -> (char, nat), special: char -> bool)

  function HtmlCodec(): Codec {
    Codec(c => EscapeChar(c), t => EntityAt(t), c => IsMarkup(c) || c == '&')
  }

  /** A special character becomes an entity that is recognised whatever follows. */
  ghost predicate WritesEntities(codec: Codec) {
    forall c, t {:trigger codec.entity(codec.escape(c) + t)} | codec.special(c) ::
      codec.escape(c) != "" && codec.entity(codec.escape(c) + t) == (c, |codec.escape(c)|)
  }

  ghost predicate KeepsTheRest(codec: Codec) {
    forall c | !codec.special(c) :: codec.escape(c) == [c]
  }

  /** Only what some special character becomes is recognised, and it begins with a special character. */
  ghost predicate ReadsEntities(codec: Codec) {
    forall t | codec.entity(t).1 > 0 ::
      && codec.entity(t).1 <= |t| && codec.special(codec.entity(t).0) && codec.special(t[0])
      && codec.escape(codec.entity(t).0) == t[..codec.entity(t).1]
  }

  ghost predicate Matching(codec: Codec) {
    WritesEntities(codec) && KeepsTheRest(codec) && ReadsEntities(codec)
  }

  lemma HtmlEntities(c: char, t: string)
    requires IsMarkup(c) || c == '&'
    ensures EntityAt(EscapeChar(c) + t) == (c, |EscapeChar(c)|)
  {
    var s := EscapeChar(c) + t;
    assert s[0] == EscapeChar(c)[0] && s[1] == EscapeChar(c)[1];
    assert s[..|EscapeChar(c)|] == EscapeChar(c);
  }

  lemma EntityIsEscaped(t: string)
    requires EntityAt(t).1 > 0
    ensures EntityAt(t).1 <= |t| && t[0] == '&'
    ensures IsMarkup(EntityAt(t).0) || EntityAt(t).0 == '&'
    ensures EscapeChar(EntityAt(t).0) == t[..EntityAt(t).1]
  {}

  lemma HtmlWritesEntities(codec: Codec)
    requires codec == HtmlCodec()
    ensures WritesEntities(codec)
  {
    forall c, t: string | codec.special(c)
      ensures codec.escape(c) != "" && codec.entity(codec.escape(c) + t) == (c, |codec.escape(c)|)
    {
      HtmlEntities(c, t);
    }
  }

  lemma HtmlReadsEntities(codec: Codec)
    requires codec == HtmlCodec()
    ensures ReadsEntities(codec)
  {
    forall t | codec.entity(t).1 > 0
      ensures codec.entity(t).1 <= |t| && codec.special(codec.entity(t).0) && codec.special(t[0])
      ensures codec.escape(codec.entity(t).0) == t[..codec.entity(t).1]
    {
      EntityIsEscaped(t);
    }
  }

  lemma HtmlCodecMatches()
    ensures Matching(HtmlCodec())
  {
    HtmlWritesEntities(HtmlCodec());
    HtmlReadsEntities(HtmlCodec());
  }

  function Unescape(codec: Codec, t: string): string
    decreases |t|
  {
    if t == "" then ""
    else
      var n := codec.entity(t).1;
      if 0 < n <= |t| then [codec.entity(t).0] + Unescape(codec, t[n..]) else [t[0]] + Unescape(codec, t[1..])
  }

  /** No bare special character: every one begins an entity. */
  predicate WellEscaped(codec: Codec, t: string)
    decreases |t|
  {
    if t == "" then true
    else
      var n := codec.entity(t).1;
      if 0 < n <= |t| then WellEscaped(codec, t[n..]) else !codec.special(t[0]) && WellEscaped(codec, t[1..])
  }

  function EscapedBy(codec: Codec, s: string): string {
    if s == "" then "" else codec.escape(s[0]) + EscapedBy(codec, s[1..])
  }

  lemma {:induction false} HtmlEscapes(s: string)
    ensures EscapedBy(HtmlCodec(), s) == Escaped(s)
  {
    if s != "" {
      HtmlEscapes(s[1..]);
    }
  }

  lemma {:induction false} UnescapeInverts(codec: Codec, s: string)
    requires Matching(codec)
    ensures Unescape(codec, EscapedBy(codec, s)) == s
    ensures WellEscaped(codec, EscapedBy(codec, s))
  {
    if s != "" {
      var c, rest := s[0], EscapedBy(codec, s[1..]);
      var t := codec.escape(c) + rest;
      UnescapeInverts(codec, s[1..]);
      assert t[|codec.escape(c)|..] == rest;
      assert [c] + s[1..] == s;
      if codec.special(c) {
        assert codec.entity(codec.escape(c) + rest) == (c, |codec.escape(c)|);
      } else {
        assert t[0] == c && !(codec.entity(t).1 > 0);
      }
    }
  }

  lemma {:induction false} EscapeInverts(codec: Codec, t: string)
    requires Matching(codec) && WellEscaped(codec, t)
    ensures EscapedBy(codec, Unescape(codec, t)) == t
    decreases |t|
  {
    if t != "" {
      var (c, n) := codec.entity(t);
      if n > 0 {
        EscapeInverts(codec, t[n..]);
        EscapeOneMore(codec, c, Unescape(codec, t[n..]));
        assert t[..n] + t[n..] == t;
      } else {
        EscapeInverts(codec, t[1..]);
        EscapeOneMore(codec, t[0], Unescape(codec, t[1..]));
        assert [t[0]] + t[1..] == t;
      }
    }
  }

  lemma EscapeOneMore(codec: Codec, c: char, s: string)
    ensures EscapedBy(codec, [c] + s) == codec.escape(c) + EscapedBy(codec, s)
  {
    assert ([c] + s)[1..] == s;
  }

  /** Decoding recovers every value, so different values never look alike, and nothing is left bare. */
  lemma DecoderInvertsEscapeHtml(s: string)
    ensures Unescape(HtmlCodec(), EscapeHtml(s)) == s
    ensures WellEscaped(HtmlCodec(), EscapeHtml(s))
  {
    FivePassesAreOne(s);
    HtmlEscapes(s);
    HtmlCodecMatches();
    UnescapeInverts(HtmlCodec(), s);
  }

  /** The escaped strings are exactly those without a bare special character. */
  lemma EscapedIff(t: string)
    ensures WellEscaped(HtmlCodec(), t) <==> exists s :: EscapeHtml(s) == t
  {
    if WellEscaped(HtmlCodec(), t) {
      var s := Unescape(HtmlCodec(), t);
      HtmlCodecMatches();
      EscapeInverts(HtmlCodec(), t);
      FivePassesAreOne(s);
      HtmlEscapes(s);
      assert EscapeHtml(s) == t;
    }
    if exists s :: EscapeHtml(s) == t {
      var s :| EscapeHtml(s) == t;
      DecoderInvertsEscapeHtml(s);
    }
  }

  // ---- the template tag ----

  /** An interpolated value: text that will be escaped, or markup that is already safe. */
  datatype Item = Plain(text: string) | SafeHtml(value: string)

  datatype Value = One(item: Item) | Many(items: seq<Item>)

  function RenderValue(item: Item): string {
    match item
    case Plain(text) => EscapeHtml(text)
    case SafeHtml(value) => value
  }

  function RenderItems(items: seq<Item>): string {
    if items == [] then "" else RenderItems(items[..|items| - 1]) + RenderValue(items[|items| - 1])
  }

  function Rendered(value: Value): string {
    match value
    case One(item) => RenderValue(item)
    case Many(items) => RenderItems(items)
  }

  /** strings[i] ?? ''. */
  function Fragment(strings: seq<string>, i: nat): string {
    if i < |strings| then strings[i] else ""
  }

  /** The first fragment and then n values, each with the fragment after it. */
  function Interleaved(strings: seq<string>, values: seq<Value>, n: nat): string
    requires n <= |values|
  {
    if n == 0 then Fragment(strings, 0)
    else Interleaved(strings, values, n - 1) + Rendered(values[n - 1]) + Fragment(strings, n)
  }

  method JoinItems(items: seq<Item>) returns (joined: string)
    ensures joined == RenderItems(items)
  {
    joined := "";
    for k := 0 to |items|
      invariant joined == RenderItems(items[..k])
    {
      assert items[..k + 1][..k] == items[..k];
      joined := joined + RenderValue(items[k]);
    }
    assert items[..|items|] == items;
  }

  method Html(strings: seq<string>, values: seq<Value>) returns (result: Item)
    ensures result == SafeHtml(Interleaved(strings, values, |values|))
  {
    var text := Fragment(strings, 0);
    for i := 0 to |values|
      invariant text == Interleaved(strings, values, i)
    {
      match values[i] {
        case Many(items) =>
          var joined := JoinItems(items);
          text := text + joined;
        case One(item) =>
          text := text + RenderValue(item);
      }
      text := text + Fragment(strings, i + 1);
    }
    result := SafeHtml(text);
  }

  // ---- nested templates ----

  datatype Template = Template(strings: seq<string>, holes: seq<Hole>)

  /** A hole holds one part or a list of parts; a part is text, a fragment trusted as it is, or another template. */
  datatype Hole = Single(part: Part) | List(parts: seq<Part>)

  datatype Part = Text(text: string) | Trusted(markup: string) | Nested(template: Template)

  /** `raw`: the one way past the escaping. */
  function Raw(markup: string): Item {
    SafeHtml(markup)
  }

  /** The values the holes pass to the tag: a nested template has been rendered first. */
  function ItemOf(part: Part): Item
    decreases part, 0
  {
    match part
    case Text(text) => Plain(text)
    case Trusted(markup) => Raw(markup)
    case Nested(template) => SafeHtml(Render(template))
  }

  function ItemsOf(parts: seq<Part>): seq<Item>
    decreases parts, 0
  {
    if parts == [] then [] else ItemsOf(parts[..|parts| - 1]) + [ItemOf(parts[|parts| - 1])]
  }

  function ValueOf(hole: Hole): Value
    decreases hole, 0
  {
    match hole
    case Single(part) => One(ItemOf(part))
    case List(parts) => Many(ItemsOf(parts))
  }

  function ValuesOf(holes: seq<Hole>): (values: seq<Value>)
    ensures |values| == |holes|
    decreases holes, 0
  {
    if holes == [] then [] else ValuesOf(holes[..|holes| - 1]) + [ValueOf(holes[|holes| - 1])]
  }

  function Render(t: Template): string
    decreases t, 0
  {
    Interleaved(t.strings, ValuesOf(t.holes), |t.holes|)
  }

  /** The leaves of a template in document order: literal fragments, trusted fragments and plain values. */
  datatype Piece = Literal(markup: string) | TrustedMarkup(markup: string) | PlainText(text: string)

  function PartPieces(part: Part): seq<Piece>
    decreases part, 0
  {
    match part
    case Text(text) => [PlainText(text)]
    case Trusted(markup) => [TrustedMarkup(markup)]
    case Nested(template) => Pieces(template.strings, template.holes)
  }

  function PartsPieces(parts: seq<Part>): seq<Piece>
    decreases parts, 0
  {
    if parts == [] then [] else PartsPieces(parts[..|parts| - 1]) + PartPieces(parts[|parts| - 1])
  }

  function HolePieces(hole: Hole): seq<Piece>
    decreases hole, 0
  {
    match hole
    case Single(part) => PartPieces(part)
    case List(parts) => PartsPieces(parts)
  }

  function Pieces(strings: seq<string>, holes: seq<Hole>): seq<Piece>
    decreases holes, 0
  {
    if holes == [] then LiteralAt(strings, 0)
    else
      var n := |holes| - 1;
      Pieces(strings, holes[..n]) + HolePieces(holes[n]) + LiteralAt(strings, n + 1)
  }

  function LiteralAt(strings: seq<string>, i: nat): seq<Piece> {
    if i < |strings| then [Literal(strings[i])] else []
  }

  function PieceText(piece: Piece): string {
    match piece
    case Literal(markup) => markup
    case TrustedMarkup(markup) => markup
    case PlainText(text) => Escaped(text)
  }

  /** Literals and trusted fragments verbatim, each plain value escaped once. */
  function Printed(pieces: seq<Piece>): string {
    if pieces == [] then "" else Printed(pieces[..|pieces| - 1]) + PieceText(pieces[|pieces| - 1])
  }

  lemma Regroup(a: string, b: string, c: string)
    ensures a + b + c == a + (b + c)
  {}

  lemma {:induction false} PrintedConcat(a: seq<Piece>, b: seq<Piece>)
    ensures Printed(a + b) == Printed(a) + Printed(b)
  {
    if b == [] {
      assert a + b == a;
    } else {
      var init, last := b[..|b| - 1], b[|b| - 1];
      PrintedConcat(a, init);
      assert (a + b)[..|a + b| - 1] == a + init && (a + b)[|a + b| - 1] == last;
      Regroup(Printed(a), Printed(init), PieceText(last));
    }
  }

  lemma PrintedOne(piece: Piece)
    ensures Printed([piece]) == PieceText(piece)
  {
    assert [piece][..0] == [];
  }

  lemma LiteralIsPrinted(strings: seq<string>, i: nat)
    ensures Printed(LiteralAt(strings, i)) == Fragment(strings, i)
  {
    if i < |strings| {
      PrintedOne(Literal(strings[i]));
    }
  }

  lemma {:induction false} PartIsPrinted(part: Part)
    ensures RenderValue(ItemOf(part)) == Printed(PartPieces(part))
    decreases part, 0
  {
    match part
    case Text(text) =>
      FivePassesAreOne(text);
      PrintedOne(PlainText(text));
    case Trusted(markup) => PrintedOne(TrustedMarkup(markup));
    case Nested(template) => HolesArePrinted(template.strings, template.holes);
  }

  lemma {:induction false} PartsArePrinted(parts: seq<Part>)
    ensures RenderItems(ItemsOf(parts)) == Printed(PartsPieces(parts))
    decreases parts, 0
  {
    if parts != [] {
      var init, last := parts[..|parts| - 1], parts[|parts| - 1];
      PartsArePrinted(init);
      PartIsPrinted(last);
      PrintedConcat(PartsPieces(init), PartPieces(last));
      assert ItemsOf(parts)[..|ItemsOf(parts)| - 1] == ItemsOf(init);
    }
  }

  lemma {:induction false} HoleIsPrinted(hole: Hole)
    ensures Rendered(ValueOf(hole)) == Printed(HolePieces(hole))
    decreases hole, 0
  {
    match hole
    case Single(part) => PartIsPrinted(part);
    case List(parts) => PartsArePrinted(parts);
  }

  lemma {:induction false} InterleavedPrefix(strings: seq<string>, values: seq<Value>, more: seq<Value>, n: nat)
    requires n <= |values|
    ensures Interleaved(strings, values + more, n) == Interleaved(strings, values, n)
  {
    if n > 0 {
      InterleavedPrefix(strings, values, more, n - 1);
    }
  }

  lemma {:induction false} HolesArePrinted(strings: seq<string>, holes: seq<Hole>)
    ensures Interleaved(strings, ValuesOf(holes), |holes|) == Printed(Pieces(strings, holes))
    decreases holes, 0
  {
    if holes == [] {
      LiteralIsPrinted(strings, 0);
    } else {
      var n := |holes| - 1;
      var init, last := holes[..n], holes[n];
      HolesArePrinted(strings, init);
      HoleIsPrinted(last);
      InterleavedPrefix(strings, ValuesOf(init), [ValueOf(last)], n);
      PrintedConcat(Pieces(strings, init), HolePieces(last));
      PrintedConcat(Pieces(strings, init) + HolePieces(last), LiteralAt(strings, n + 1));
      LiteralIsPrinted(strings, n + 1);
    }
  }

  /**
   However templates are nested, the page is its leaves in document order: every
   literal and every trusted fragment verbatim, every plain value escaped exactly
   once.
   */
  lemma TemplateIsPrinted(t: Template)
    ensures Render(t) == Printed(Pieces(t.strings, t.holes))
  {
    HolesArePrinted(t.strings, t.holes);
  }

  // ---- where a page's markup comes from ----

  function MarkupChars(): char -> bool {
    c => IsMarkup(c)
  }

  lemma EscapedCharHasNoMarkup(c: char)
    ensures Filter(EscapeChar(c), MarkupChars()) == []
  {
    FilterNone(EscapeChar(c), MarkupChars());
  }

  lemma {:induction false} EscapedHasNoMarkup(s: string)
    ensures Filter(Escaped(s), MarkupChars()) == []
  {
    if s != "" {
      EscapedHasNoMarkup(s[1..]);
      EscapedCharHasNoMarkup(s[0]);
      FilterConcat(EscapeChar(s[0]), Escaped(s[1..]), MarkupChars());
    }
  }

  /** The fragments a developer wrote: literals and trusted ones, without the plain values. */
  function Authored(pieces: seq<Piece>): string {
    if pieces == [] then ""
    else
      var last := pieces[|pieces| - 1];
      Authored(pieces[..|pieces| - 1]) + if last.PlainText? then "" else last.markup
  }

  lemma {:induction false} PrintedMarkup(pieces: seq<Piece>)
    ensures Filter(Printed(pieces), MarkupChars()) == Filter(Authored(pieces), MarkupChars())
  {
    if pieces != [] {
      var init, last := pieces[..|pieces| - 1], pieces[|pieces| - 1];
      var authored := if last.PlainText? then "" else last.markup;
      PrintedMarkup(init);
      if last.PlainText? {
        EscapedHasNoMarkup(last.text);
      }
      FilterConcat(Printed(init), PieceText(last), MarkupChars());
      FilterConcat(Authored(init), authored, MarkupChars());
    }
  }

  /**
   No plain value adds an angle bracket or a quote: a page's are those of its
   literal and its trusted fragments, in order.
   */
  lemma MarkupComesFromAuthors(t: Template)
    ensures Filter(Render(t), MarkupChars()) == Filter(Authored(Pieces(t.strings, t.holes)), MarkupChars())
  {
    TemplateIsPrinted(t);
    PrintedMarkup(Pieces(t.strings, t.holes));
  }
}
