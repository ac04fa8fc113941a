/** The string operations the text transformations are built from. */
module Text {

  /** String.prototype.split on one character: always at least one part. */
  function Split(s: string, sep: char): (parts: seq<string>)
    ensures parts != []
  {
    if s == "" then [""]
    else
      var rest := Split(s[1..], sep);
      if s[0] == sep then [""] + rest else [[s[0]] + rest[0]] + rest[1..]
  }

  /** Array.prototype.join. */
  function Join(parts: seq<string>, sep: char): string {
    if parts == [] then ""
    else if |parts| == 1 then parts[0]
    else parts[0] + [sep] + Join(parts[1..], sep)
  }

  ghost predicate Free(parts: seq<string>, sep: char) {
    forall i | 0 <= i < |parts| :: sep !in parts[i]
  }

  lemma {:induction false} PartsAreFree(s: string, sep: char)
    ensures Free(Split(s, sep), sep)
  {
    if s != "" {
      PartsAreFree(s[1..], sep);
    }
  }

  lemma {:induction false} JoinInvertsSplit(s: string, sep: char)
    ensures Join(Split(s, sep), sep) == s
  {
    if s != "" {
      JoinInvertsSplit(s[1..], sep);
      var rest := Split(s[1..], sep);
      if s[0] == sep {
        assert ([""] + rest)[1..] == rest;
      } else if |rest| > 1 {
        assert Join(rest, sep) == rest[0] + [sep] + Join(rest[1..], sep);
        assert ([[s[0]] + rest[0]] + rest[1..])[1..] == rest[1..];
      }
    }
  }

  lemma {:induction false} SplitFree(part: string, sep: char)
    requires sep !in part
    ensures Split(part, sep) == [part]
  {
    if part != "" {
      assert part[0] in part && forall c | c in part[1..] :: c in part;
      SplitFree(part[1..], sep);
      assert [part[0]] + part[1..] == part && [part[1..]][1..] == [];
    }
  }

  lemma {:induction false} SplitFirst(part: string, rest: string, sep: char)
    requires sep !in part
    ensures Split(part + [sep] + rest, sep) == [part] + Split(rest, sep)
  {
    var s := part + [sep] + rest;
    if part == "" {
      assert s[0] == sep && s[1..] == rest;
    } else {
      assert part[0] in part && forall c | c in part[1..] :: c in part;
      assert s[0] == part[0] && s[1..] == part[1..] + [sep] + rest;
      SplitFirst(part[1..], rest, sep);
      assert [part[0]] + part[1..] == part;
      assert ([part[1..]] + Split(rest, sep))[1..] == Split(rest, sep);
    }
  }

  lemma {:induction false} SplitInvertsJoin(parts: seq<string>, sep: char)
    requires parts != [] && Free(parts, sep)
    ensures Split(Join(parts, sep), sep) == parts
  {
    if |parts| == 1 {
      SplitFree(parts[0], sep);
    } else {
      SplitInvertsJoin(parts[1..], sep);
      SplitFirst(parts[0], Join(parts[1..], sep), sep);
    }
  }

  lemma {:induction false} JoinOneMore(parts: seq<string>, last: string, sep: char)
    requires parts != []
    ensures Join(parts + [last], sep) == Join(parts, sep) + [sep] + last
  {
    if |parts| > 1 {
      JoinOneMore(parts[1..], last, sep);
      assert (parts + [last])[1..] == parts[1..] + [last];
      assert Join(parts + [last], sep) == parts[0] + [sep] + Join(parts[1..] + [last], sep);
    }
  }

  /** What String.prototype.trim removes: white space and line terminators of ECMA-262, sections 12.2 and 12.3. */
  predicate IsWhitespace(c: char) {
    || '\t' <= c <= '\r' || c == ' ' || c == '\U{00A0}' || c == '\U{1680}' || '\U{2000}' <= c <= '\U{200A}'
    || c == '\U{2028}' || c == '\U{2029}' || c == '\U{202F}' || c == '\U{205F}' || c == '\U{3000}' || c == '\U{FEFF}'
  }

  function TrimStart(s: string): string {
    if s != "" && IsWhitespace(s[0]) then TrimStart(s[1..]) else s
  }

  function TrimEnd(s: string): string {
    if s != "" && IsWhitespace(s[|s| - 1]) then TrimEnd(s[..|s| - 1]) else s
  }

  function Trim(s: string): string {
    TrimEnd(TrimStart(s))
  }

  /** By code point, as the standard lists them. */
  lemma WhitespaceCodes(c: char)
    ensures IsWhitespace(c) <==>
              var n := c as int;
              9 <= n <= 13 || n == 32 || n == 160 || n == 5760 || 8192 <= n <= 8202 || n == 8232 || n == 8233 || n == 8239
              || n == 8287 || n == 12288 || n == 65279
  {}

  ghost predicate AllWhitespace(s: string) {
    forall i | 0 <= i < |s| :: IsWhitespace(s[i])
  }

  lemma {:induction false} TrimStartIs(s: string) returns (front: string)
    ensures s == front + TrimStart(s) && AllWhitespace(front)
    ensures TrimStart(s) != "" ==> !IsWhitespace(TrimStart(s)[0])
  {
    if s != "" && IsWhitespace(s[0]) {
      var rest := TrimStartIs(s[1..]);
      front := [s[0]] + rest;
      assert s == [s[0]] + s[1..];
    } else {
      front := "";
    }
  }

  lemma {:induction false} TrimEndIs(s: string) returns (back: string)
    ensures s == TrimEnd(s) + back && AllWhitespace(back)
    ensures TrimEnd(s) != "" ==> !IsWhitespace(TrimEnd(s)[|TrimEnd(s)| - 1])
  {
    if s != "" && IsWhitespace(s[|s| - 1]) {
      var rest := TrimEndIs(s[..|s| - 1]);
      back := rest + [s[|s| - 1]];
      assert s == s[..|s| - 1] + [s[|s| - 1]];
    } else {
      back := "";
    }
  }

  /** Trimming takes whitespace off both ends and stops at the first character that is none. */
  lemma TrimIs(s: string) returns (front: string, back: string)
    ensures s == front + Trim(s) + back && AllWhitespace(front) && AllWhitespace(back)
    ensures Trim(s) != "" ==> !IsWhitespace(Trim(s)[0]) && !IsWhitespace(Trim(s)[|Trim(s)| - 1])
  {
    front := TrimStartIs(s);
    back := TrimEndIs(TrimStart(s));
    assert s == front + (Trim(s) + back);
  }

  lemma {:induction false} TrimStartOneMore(s: string, c: char)
    requires IsWhitespace(c)
    ensures TrimStart(s + [c]) == if TrimStart(s) == "" then "" else TrimStart(s) + [c]
  {
    if s == "" {
      assert s + [c] == [c] && [c][1..] == "";
    } else {
      assert (s + [c])[1..] == s[1..] + [c];
      TrimStartOneMore(s[1..], c);
    }
  }

  /** Whitespace at either end makes no difference to what is left. */
  lemma TrimIgnoresEnds(c: char, s: string)
    requires IsWhitespace(c)
    ensures Trim([c] + s) == Trim(s) && Trim(s + [c]) == Trim(s)
  {
    assert ([c] + s)[1..] == s;
    TrimStartOneMore(s, c);
    assert (TrimStart(s) + [c])[..|TrimStart(s)|] == TrimStart(s);
  }

  function TrimAll(parts: seq<string>): seq<string> {
    seq(|parts|, i requires 0 <= i < |parts| => Trim(parts[i]))
  }

  lemma {:induction false} SplitOneMore(s: string, c: char, sep: char)
    requires c != sep
    ensures var parts := Split(s, sep);
            Split(s + [c], sep) == parts[..|parts| - 1] + [parts[|parts| - 1] + [c]]
  {
    if s == "" {
      assert s + [c] == [c] && [c][1..] == "";
      assert Split("", sep) == [""] && [""][1..] == [];
      assert Split([c], sep) == [[c] + ""] + [] && [c] + "" == "" + [c];
    } else {
      assert (s + [c])[0] == s[0] && (s + [c])[1..] == s[1..] + [c];
      SplitOneMore(s[1..], c, sep);
      var rest := Split(s[1..], sep);
      var init, last := rest[..|rest| - 1], rest[|rest| - 1];
      assert rest == init + [last] && Split(s[1..] + [c], sep) == init + [last + [c]];
      if s[0] == sep {
        assert [""] + (init + [last + [c]]) == ([""] + init) + [last + [c]];
      } else if init == [] {
        assert [s[0]] + (last + [c]) == ([s[0]] + last) + [c];
      } else {
        assert (init + [last + [c]])[1..] == init[1..] + [last + [c]] && rest[1..] == init[1..] + [last];
      }
    }
  }

  lemma SplitTrimsFirst(c: char, s: string, sep: char)
    requires IsWhitespace(c) && c != sep
    ensures TrimAll(Split([c] + s, sep)) == TrimAll(Split(s, sep))
  {
    assert ([c] + s)[1..] == s;
    TrimIgnoresEnds(c, Split(s, sep)[0]);
  }

  lemma SplitTrimsLast(s: string, c: char, sep: char)
    requires IsWhitespace(c) && c != sep
    ensures TrimAll(Split(s + [c], sep)) == TrimAll(Split(s, sep))
  {
    SplitOneMore(s, c, sep);
    var parts := Split(s, sep);
    TrimIgnoresEnds(c, parts[|parts| - 1]);
  }

  lemma {:induction false} SplitTrimStart(s: string, sep: char)
    requires !IsWhitespace(sep)
    ensures TrimAll(Split(TrimStart(s), sep)) == TrimAll(Split(s, sep))
  {
    if s != "" && IsWhitespace(s[0]) {
      SplitTrimStart(s[1..], sep);
      SplitTrimsFirst(s[0], s[1..], sep);
      assert [s[0]] + s[1..] == s;
    }
  }

  lemma {:induction false} SplitTrimEnd(s: string, sep: char)
    requires !IsWhitespace(sep)
    ensures TrimAll(Split(TrimEnd(s), sep)) == TrimAll(Split(s, sep))
  {
    if s != "" && IsWhitespace(s[|s| - 1]) {
      SplitTrimEnd(s[..|s| - 1], sep);
      SplitTrimsLast(s[..|s| - 1], s[|s| - 1], sep);
      assert s[..|s| - 1] + [s[|s| - 1]] == s;
    }
  }

  /** Trimming before a split changes nothing that trimming the parts would not. */
  lemma SplitOfTrimmed(s: string, sep: char)
    requires !IsWhitespace(sep)
    ensures TrimAll(Split(Trim(s), sep)) == TrimAll(Split(s, sep))
  {
    SplitTrimStart(s, sep);
    SplitTrimEnd(TrimStart(s), sep);
  }

  lemma JoinOfTwo(a: string, b: string, sep: char)
    ensures Join([a, b], sep) == a + [sep] + b
  {
    assert [a, b][1..] == [b];
  }

  lemma {:induction false} JoinIsFree(parts: seq<string>, sep: char, c: char)
    requires c != sep && Free(parts, c)
    ensures c !in Join(parts, sep)
  {
    if |parts| > 1 {
      JoinIsFree(parts[1..], sep, c);
    }
  }
}
