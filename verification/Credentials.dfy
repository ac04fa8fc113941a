/** Rewriting the credential lines of the environment file, everything else untouched. */
module Credentials {
  import opened Counting
  import opened Text

  const HASH_PREFIX := "TADORU_ADMIN_PASSWORD_HASH="
  const SALT_PREFIX := "TADORU_ADMIN_PASSWORD_SALT="
  const PLAINTEXT_PREFIX := "TADORU_ADMIN_PASSWORD="

  datatype Kind = HashKind | SaltKind | PlaintextKind | OtherKind

  /** Which pattern a line matches, tried in this order. */
  function KindOf(line: string): Kind {
    if HASH_PREFIX <= line then HashKind
    else if SALT_PREFIX <= line then SaltKind
    else if PLAINTEXT_PREFIX <= line then PlaintextKind
    else OtherKind
  }

  type Kinds = string -> Kind

  function EnvKinds(): Kinds {
    line => KindOf(line)
  }

  datatype Pair = Pair(hashLine: string, saltLine: string)

  function PairOf(passwordHash: string, passwordSalt: string): Pair {
    Pair(HASH_PREFIX + passwordHash, SALT_PREFIX + passwordSalt)
  }

  /** The pair's lines match their own patterns, and an empty line none. */
  predicate ValidPair(kind: Kinds, p: Pair) {
    kind(p.hashLine) == HashKind && kind(p.saltLine) == SaltKind && kind("") == OtherKind
  }

  lemma PairsAreValid(passwordHash: string, passwordSalt: string)
    ensures ValidPair(EnvKinds(), PairOf(passwordHash, passwordSalt))
  {
    var at := |PLAINTEXT_PREFIX| - 1;
    assert HASH_PREFIX[at + 1] == 'H' && SALT_PREFIX[at + 1] == 'S';
  }

  function Unless(inserted: bool, line: string): seq<string> {
    if inserted then [] else [line]
  }

  /** The rewritten lines, given what has been inserted before them. */
  function NewLines(kind: Kinds, lines: seq<string>, p: Pair, hashInserted: bool, saltInserted: bool): seq<string> {
    if lines == [] then Unless(hashInserted, p.hashLine) + Unless(saltInserted, p.saltLine)
    else
      match kind(lines[0])
      case HashKind => Unless(hashInserted, p.hashLine) + NewLines(kind, lines[1..], p, true, saltInserted)
      case SaltKind => Unless(saltInserted, p.saltLine) + NewLines(kind, lines[1..], p, hashInserted, true)
      case PlaintextKind =>
        Unless(hashInserted, p.hashLine) + Unless(saltInserted, p.saltLine) + NewLines(kind, lines[1..], p, true, true)
      case OtherKind => [lines[0]] + NewLines(kind, lines[1..], p, hashInserted, saltInserted)
  }

  predicate EndsWithNewline(content: string) {
    content != "" && content[|content| - 1] == '\n'
  }

  /** The file's lines, without the empty one after a final newline. */
  function Lines(content: string): seq<string> {
    var lines := Split(content, '\n');
    if EndsWithNewline(content) then lines[..|lines| - 1] else lines
  }

  function Ending(content: string): string {
    if EndsWithNewline(content) then "\n" else ""
  }

  function Rewritten(kind: Kinds, content: string, p: Pair): string {
    Join(NewLines(kind, Lines(content), p, false, false), '\n') + Ending(content)
  }

  lemma Regroup(a: seq<string>, b: seq<string>, c: seq<string>)
    ensures a + b + c == a + (b + c)
  {}

  method RewriteLines(kind: Kinds, lines: seq<string>, hashLine: string, saltLine: string) returns (result: seq<string>)
    ensures result == NewLines(kind, lines, Pair(hashLine, saltLine), false, false)
  {
    ghost var p := Pair(hashLine, saltLine);
    var hashInserted, saltInserted := false, false;
    result := [];
    for i := 0 to |lines|
      invariant result + NewLines(kind, lines[i..], p, hashInserted, saltInserted) == NewLines(kind, lines, p, false, false)
    {
      var line := lines[i];
      assert lines[i..][0] == line && lines[i..][1..] == lines[i + 1..];
      ghost var before, hadHash, hadSalt := result, hashInserted, saltInserted;
      ghost var added: seq<string>;
      if kind(line).HashKind? {
        added := Unless(hadHash, hashLine);
        if !hashInserted {
          result := result + [hashLine];
          hashInserted := true;
        }
      } else if kind(line).SaltKind? {
        added := Unless(hadSalt, saltLine);
        if !saltInserted {
          result := result + [saltLine];
          saltInserted := true;
        }
      } else if kind(line).PlaintextKind? {
        added := Unless(hadHash, hashLine) + Unless(hadSalt, saltLine);
        if !hashInserted {
          result := result + [hashLine];
          hashInserted := true;
        }
        if !saltInserted {
          result := result + [saltLine];
          saltInserted := true;
        }
      } else {
        added := [line];
        result := result + [line];
      }
      assert result == before + added;
      Regroup(before, added, NewLines(kind, lines[i + 1..], p, hashInserted, saltInserted));
    }
    if !hashInserted {
      result := result + [hashLine];
    }
    if !saltInserted {
      result := result + [saltLine];
    }
  }

  method RewriteCredentialLines(content: string, passwordHash: string, passwordSalt: string) returns (rewritten: string)
    ensures rewritten == Rewritten(EnvKinds(), content, PairOf(passwordHash, passwordSalt))
  {
    var hasTrailingNewline := EndsWithNewline(content);
    var lines := Split(content, '\n');
    if hasTrailingNewline {
      lines := lines[..|lines| - 1];
    }
    var result := RewriteLines(EnvKinds(), lines, HASH_PREFIX + passwordHash, SALT_PREFIX + passwordSalt);
    rewritten := Join(result, '\n') + if hasTrailingNewline then "\n" else "";
  }

  // ---- on lines ----

  lemma HashOverwritten(kind: Kinds, rest: seq<string>, first: Pair, second: Pair, hashInserted: bool, saltInserted: bool)
    requires ValidPair(kind, first)
    ensures NewLines(kind, Unless(hashInserted, first.hashLine) + rest, second, hashInserted, saltInserted)
         == Unless(hashInserted, second.hashLine) + NewLines(kind, rest, second, true, saltInserted)
  {
    var lines := Unless(hashInserted, first.hashLine) + rest;
    assert hashInserted ==> lines == rest;
    assert !hashInserted ==> lines[1..] == rest;
  }

  lemma SaltOverwritten(kind: Kinds, rest: seq<string>, first: Pair, second: Pair, hashInserted: bool, saltInserted: bool)
    requires ValidPair(kind, first)
    ensures NewLines(kind, Unless(saltInserted, first.saltLine) + rest, second, hashInserted, saltInserted)
         == Unless(saltInserted, second.saltLine) + NewLines(kind, rest, second, hashInserted, true)
  {
    var lines := Unless(saltInserted, first.saltLine) + rest;
    assert saltInserted ==> lines == rest;
    assert !saltInserted ==> lines[1..] == rest;
  }

  lemma PairOverwritten(kind: Kinds, rest: seq<string>, first: Pair, second: Pair, hashInserted: bool, saltInserted: bool)
    requires ValidPair(kind, first)
    ensures NewLines(kind, Unless(hashInserted, first.hashLine) + Unless(saltInserted, first.saltLine) + rest, second,
                     hashInserted, saltInserted)
         == Unless(hashInserted, second.hashLine) + Unless(saltInserted, second.saltLine) + NewLines(kind, rest, second, true, true)
  {
    var tail := Unless(saltInserted, first.saltLine) + rest;
    assert Unless(hashInserted, first.hashLine) + Unless(saltInserted, first.saltLine) + rest
        == Unless(hashInserted, first.hashLine) + tail;
    HashOverwritten(kind, tail, first, second, hashInserted, saltInserted);
    SaltOverwritten(kind, rest, first, second, true, saltInserted);
  }

  /** On lines, the second rewrite wins. */
  lemma {:induction false} LinesOverwritten(
      kind: Kinds, lines: seq<string>, first: Pair, second: Pair, hashInserted: bool, saltInserted: bool)
    requires ValidPair(kind, first)
    ensures NewLines(kind, NewLines(kind, lines, first, hashInserted, saltInserted), second, hashInserted, saltInserted)
         == NewLines(kind, lines, second, hashInserted, saltInserted)
  {
    if lines == [] {
      PairOverwritten(kind, [], first, second, hashInserted, saltInserted);
      var both := Unless(hashInserted, first.hashLine) + Unless(saltInserted, first.saltLine);
      assert both + [] == both && NewLines(kind, [], second, true, true) == [];
    } else {
      var rest := lines[1..];
      match kind(lines[0])
      case HashKind =>
        LinesOverwritten(kind, rest, first, second, true, saltInserted);
        HashOverwritten(kind, NewLines(kind, rest, first, true, saltInserted), first, second, hashInserted, saltInserted);
      case SaltKind =>
        LinesOverwritten(kind, rest, first, second, hashInserted, true);
        SaltOverwritten(kind, NewLines(kind, rest, first, hashInserted, true), first, second, hashInserted, saltInserted);
      case PlaintextKind =>
        LinesOverwritten(kind, rest, first, second, true, true);
        PairOverwritten(kind, NewLines(kind, rest, first, true, true), first, second, hashInserted, saltInserted);
      case OtherKind =>
        LinesOverwritten(kind, rest, first, second, hashInserted, saltInserted);
        var after := NewLines(kind, rest, first, hashInserted, saltInserted);
        assert ([lines[0]] + after)[1..] == after;
    }
  }

  function OfKind(kind: Kinds, k: Kind): string -> bool {
    line => kind(line) == k
  }

  /** The lines of one kind, in order. */
  function Only(kind: Kinds, k: Kind, lines: seq<string>): seq<string> {
    Filter(lines, OfKind(kind, k))
  }

  lemma OnlyConcat(kind: Kinds, k: Kind, a: seq<string>, b: seq<string>)
    ensures Only(kind, k, a + b) == Only(kind, k, a) + Only(kind, k, b)
  {
    FilterConcat(a, b, OfKind(kind, k));
  }

  lemma OnlyUnless(kind: Kinds, k: Kind, inserted: bool, line: string, rest: seq<string>)
    ensures Only(kind, k, Unless(inserted, line) + rest)
         == (if kind(line) == k then Unless(inserted, line) else []) + Only(kind, k, rest)
  {
    OnlyConcat(kind, k, Unless(inserted, line), rest);
  }

  /** What a rewrite leaves of each kind. */
  function Expected(kind: Kinds, k: Kind, lines: seq<string>, p: Pair, hashInserted: bool, saltInserted: bool): seq<string> {
    match k
    case HashKind => Unless(hashInserted, p.hashLine)
    case SaltKind => Unless(saltInserted, p.saltLine)
    case PlaintextKind => []
    case OtherKind => Only(kind, OtherKind, lines)
  }

  lemma OnlyPair(kind: Kinds, k: Kind, p: Pair, hashInserted: bool, saltInserted: bool, rest: seq<string>)
    requires ValidPair(kind, p)
    ensures Only(kind, k, Unless(hashInserted, p.hashLine) + Unless(saltInserted, p.saltLine) + rest)
         == (if k == HashKind then Unless(hashInserted, p.hashLine)
             else if k == SaltKind then Unless(saltInserted, p.saltLine) else []) + Only(kind, k, rest)
  {
    var hash, salt := Unless(hashInserted, p.hashLine), Unless(saltInserted, p.saltLine);
    Regroup(hash, salt, rest);
    OnlyUnless(kind, k, hashInserted, p.hashLine, salt + rest);
    OnlyUnless(kind, k, saltInserted, p.saltLine, rest);
  }

  lemma OnlyRest(kind: Kinds, lines: seq<string>)
    requires lines != []
    ensures Only(kind, OtherKind, lines) == Unless(kind(lines[0]) != OtherKind, lines[0]) + Only(kind, OtherKind, lines[1..])
  {}

  /** Kind by kind, a rewrite leaves the new pair, no plaintext password, and the other lines untouched. */
  lemma {:induction false} LinesRewritten(kind: Kinds, k: Kind, lines: seq<string>, p: Pair, hashInserted: bool, saltInserted: bool)
    requires ValidPair(kind, p)
    ensures Only(kind, k, NewLines(kind, lines, p, hashInserted, saltInserted))
         == Expected(kind, k, lines, p, hashInserted, saltInserted)
  {
    if lines == [] {
      OnlyPair(kind, k, p, hashInserted, saltInserted, []);
      var both := Unless(hashInserted, p.hashLine) + Unless(saltInserted, p.saltLine);
      assert both + [] == both;
    } else {
      var rest := lines[1..];
      OnlyRest(kind, lines);
      match kind(lines[0])
      case HashKind =>
        LinesRewritten(kind, k, rest, p, true, saltInserted);
        OnlyUnless(kind, k, hashInserted, p.hashLine, NewLines(kind, rest, p, true, saltInserted));
      case SaltKind =>
        LinesRewritten(kind, k, rest, p, hashInserted, true);
        OnlyUnless(kind, k, saltInserted, p.saltLine, NewLines(kind, rest, p, hashInserted, true));
      case PlaintextKind =>
        LinesRewritten(kind, k, rest, p, true, true);
        OnlyPair(kind, k, p, hashInserted, saltInserted, NewLines(kind, rest, p, true, true));
      case OtherKind =>
        LinesRewritten(kind, k, rest, p, hashInserted, saltInserted);
        OnlyUnless(kind, k, false, lines[0], NewLines(kind, rest, p, hashInserted, saltInserted));
    }
  }

  /** What the first credential line of a file becomes. */
  function Replacement(kind: Kinds, line: string, p: Pair): seq<string> {
    match kind(line)
    case HashKind => [p.hashLine]
    case SaltKind => [p.saltLine]
    case PlaintextKind => [p.hashLine, p.saltLine]
    case OtherKind => [line]
  }

  /** The first credential line is replaced where it stands; without one, the pair goes to the end. */
  lemma {:induction false} ReplacedInPlace(kind: Kinds, before: seq<string>, after: seq<string>, p: Pair)
    requires forall i | 0 <= i < |before| :: kind(before[i]) == OtherKind
    requires after != [] ==> kind(after[0]) != OtherKind
    ensures after == [] ==> NewLines(kind, before + after, p, false, false) == before + [p.hashLine, p.saltLine]
    ensures after != [] ==> before + Replacement(kind, after[0], p) <= NewLines(kind, before + after, p, false, false)
  {
    if before == [] {
      assert before + after == after;
    } else {
      ReplacedInPlace(kind, before[1..], after, p);
      assert (before + after)[1..] == before[1..] + after;
      assert before == [before[0]] + before[1..];
    }
  }

  // ---- on files ----

  ghost predicate NewlineFree(p: Pair) {
    '\n' !in p.hashLine && '\n' !in p.saltLine
  }

  lemma {:induction false} NewLinesAreFree(kind: Kinds, lines: seq<string>, p: Pair, hashInserted: bool, saltInserted: bool)
    requires NewlineFree(p) && Free(lines, '\n')
    ensures Free(NewLines(kind, lines, p, hashInserted, saltInserted), '\n')
  {
    if lines != [] {
      match kind(lines[0])
      case HashKind => NewLinesAreFree(kind, lines[1..], p, true, saltInserted);
      case SaltKind => NewLinesAreFree(kind, lines[1..], p, hashInserted, true);
      case PlaintextKind => NewLinesAreFree(kind, lines[1..], p, true, true);
      case OtherKind => NewLinesAreFree(kind, lines[1..], p, hashInserted, saltInserted);
    }
  }

  lemma LastOfJoined(lines: seq<string>)
    requires lines != []
    ensures |lines| > 1 || lines[0] != "" ==>
              var joined := Join(lines, '\n');
              joined != "" && joined[|joined| - 1] == if lines[|lines| - 1] == "" then '\n' else Last(lines[|lines| - 1])
  {
    if |lines| > 1 {
      var last := lines[|lines| - 1];
      JoinOneMore(lines[..|lines| - 1], last, '\n');
      assert lines == lines[..|lines| - 1] + [last];
    }
  }

  function Last(line: string): char
    requires line != ""
  {
    line[|line| - 1]
  }

  lemma LinesWithEnding(lines: seq<string>)
    requires lines != [] && Free(lines, '\n')
    ensures Lines(Join(lines, '\n') + "\n") == lines && EndsWithNewline(Join(lines, '\n') + "\n")
  {
    JoinOneMore(lines, "", '\n');
    SplitInvertsJoin(lines + [""], '\n');
    assert Join(lines, '\n') + ['\n'] + "" == Join(lines, '\n') + "\n";
  }

  lemma LinesWithoutEnding(lines: seq<string>)
    requires |lines| > 1 && Free(lines, '\n')
    ensures var last := lines[|lines| - 1];
            && EndsWithNewline(Join(lines, '\n')) == (last == "")
            && Lines(Join(lines, '\n')) == if last == "" then lines[..|lines| - 1] else lines
  {
    SplitInvertsJoin(lines, '\n');
    LastOfJoined(lines);
    var last := lines[|lines| - 1];
    if last != "" {
      assert Last(last) in last;
    }
  }

  /** Both lines are somewhere among the rewritten ones. */
  lemma PairIsThere(kind: Kinds, lines: seq<string>, p: Pair)
    requires ValidPair(kind, p)
    ensures var after := NewLines(kind, lines, p, false, false);
            p.hashLine in after && p.saltLine in after && |after| > 1
  {
    var after := NewLines(kind, lines, p, false, false);
    LinesRewritten(kind, HashKind, lines, p, false, false);
    LinesRewritten(kind, SaltKind, lines, p, false, false);
    assert p.hashLine in Only(kind, HashKind, after) && p.saltLine in Only(kind, SaltKind, after);
    var i :| 0 <= i < |after| && after[i] == p.hashLine;
    var j :| 0 <= j < |after| && after[j] == p.saltLine;
    assert i != j;
  }

  ghost predicate Inserted(kind: Kinds, k: Kind, lines: seq<string>, already: bool) {
    already || exists i :: 0 <= i < |lines| && kind(lines[i]) == k
  }

  lemma InsertedInRest(kind: Kinds, k: Kind, lines: seq<string>, already: bool)
    requires lines != [] && Inserted(kind, k, lines, already)
    ensures Inserted(kind, k, lines[1..], already || kind(lines[0]) == k)
  {
    if !already && kind(lines[0]) != k {
      var i :| 0 <= i < |lines| && kind(lines[i]) == k;
      assert lines[1..][i - 1] == lines[i];
    }
  }

  /** With both lines in place, an empty last line is just carried along. */
  lemma {:induction false} TrailingEmptyLine(kind: Kinds, lines: seq<string>, p: Pair, hashInserted: bool, saltInserted: bool)
    requires kind("") == OtherKind
    requires Inserted(kind, HashKind, lines, hashInserted) && Inserted(kind, SaltKind, lines, saltInserted)
    ensures NewLines(kind, lines + [""], p, hashInserted, saltInserted)
         == NewLines(kind, lines, p, hashInserted, saltInserted) + [""]
  {
    if lines == [] {
      assert ([] + [""])[1..] == [] && NewLines(kind, [], p, true, true) == [];
    } else {
      var head, rest := lines[0], lines[1..];
      assert (lines + [""])[0] == head && (lines + [""])[1..] == rest + [""];
      InsertedInRest(kind, HashKind, lines, hashInserted);
      InsertedInRest(kind, SaltKind, lines, saltInserted);
      var hash, salt := Unless(hashInserted, p.hashLine), Unless(saltInserted, p.saltLine);
      match kind(head)
      case HashKind =>
        TrailingEmptyLine(kind, rest, p, true, saltInserted);
        Regroup(hash, NewLines(kind, rest, p, true, saltInserted), [""]);
      case SaltKind =>
        TrailingEmptyLine(kind, rest, p, hashInserted, true);
        Regroup(salt, NewLines(kind, rest, p, hashInserted, true), [""]);
      case PlaintextKind =>
        TrailingEmptyLine(kind, rest, p, true, true);
        Regroup(hash + salt, NewLines(kind, rest, p, true, true), [""]);
      case OtherKind =>
        TrailingEmptyLine(kind, rest, p, hashInserted, saltInserted);
        Regroup([head], NewLines(kind, rest, p, hashInserted, saltInserted), [""]);
    }
  }

  /** A file of these lines, terminated or not: an empty last line of an unterminated file becomes its final newline. */
  lemma LinesOfFile(lines: seq<string>, ending: string)
    requires |lines| > 1 && Free(lines, '\n') && (ending == "" || ending == "\n")
    ensures var file := Join(lines, '\n') + ending;
            if ending == "" && lines[|lines| - 1] == "" then
              Lines(file) + [""] == lines && EndsWithNewline(file)
            else
              Lines(file) == lines && EndsWithNewline(file) == (ending == "\n")
  {
    var joined := Join(lines, '\n');
    if ending == "" {
      assert joined + ending == joined;
      LinesWithoutEnding(lines);
      assert EndsWithNewline(joined + ending) == EndsWithNewline(joined);
    } else {
      assert joined + ending == joined + "\n";
      LinesWithEnding(lines);
    }
  }

  predicate LosesEmptyLast(kind: Kinds, content: string, p: Pair) {
    var after := NewLines(kind, Lines(content), p, false, false);
    !EndsWithNewline(content) && after != [] && after[|after| - 1] == ""
  }

  /** The lines of the rewritten file, and how it ends. */
  lemma RewrittenLines(kind: Kinds, content: string, p: Pair)
    requires ValidPair(kind, p) && NewlineFree(p)
    ensures var after := NewLines(kind, Lines(content), p, false, false);
            var rewritten := Rewritten(kind, content, p);
            if LosesEmptyLast(kind, content, p) then
              Lines(rewritten) + [""] == after && EndsWithNewline(rewritten)
            else
              Lines(rewritten) == after && EndsWithNewline(rewritten) == EndsWithNewline(content)
  {
    PartsAreFree(content, '\n');
    NewLinesAreFree(kind, Lines(content), p, false, false);
    PairIsThere(kind, Lines(content), p);
    LinesOfFile(NewLines(kind, Lines(content), p, false, false), Ending(content));
  }

  lemma EmptyLastIsAnEnding(kind: Kinds, lines: seq<string>, p: Pair)
    requires kind("") == OtherKind && Inserted(kind, HashKind, lines, false) && Inserted(kind, SaltKind, lines, false)
    requires ValidPair(kind, p)
    ensures Join(NewLines(kind, lines + [""], p, false, false), '\n') == Join(NewLines(kind, lines, p, false, false), '\n') + "\n"
  {
    var after := NewLines(kind, lines, p, false, false);
    TrailingEmptyLine(kind, lines, p, false, false);
    PairIsThere(kind, lines, p);
    JoinOneMore(after, "", '\n');
    assert Join(after, '\n') + ['\n'] + "" == Join(after, '\n') + "\n";
  }

  lemma PairInFront(kind: Kinds, kept: seq<string>, p: Pair)
    requires ValidPair(kind, p) && p.hashLine in kept + [""] && p.saltLine in kept + [""]
    ensures Inserted(kind, HashKind, kept, false) && Inserted(kind, SaltKind, kept, false)
  {
    var i :| 0 <= i < |kept + [""]| && (kept + [""])[i] == p.hashLine;
    var j :| 0 <= j < |kept + [""]| && (kept + [""])[j] == p.saltLine;
    assert kept[i] == p.hashLine && kept[j] == p.saltLine;
  }

  /** Rewriting with one pair and then another leaves the file that rewriting with the second alone leaves. */
  lemma OverwriteLaw(kind: Kinds, content: string, first: Pair, second: Pair)
    requires ValidPair(kind, first) && NewlineFree(first) && ValidPair(kind, second)
    ensures Rewritten(kind, Rewritten(kind, content, first), second) == Rewritten(kind, content, second)
  {
    var lines, once := Lines(content), Rewritten(kind, content, first);
    RewrittenLines(kind, content, first);
    LinesOverwritten(kind, lines, first, second, false, false);
    if LosesEmptyLast(kind, content, first) {
      PairIsThere(kind, lines, first);
      PairInFront(kind, Lines(once), first);
      EmptyLastIsAnEnding(kind, Lines(once), second);
      assert Join(NewLines(kind, lines, second, false, false), '\n') + "" == Join(NewLines(kind, lines, second, false, false), '\n');
    }
  }

  /** For the environment file's own patterns and any newline-free values. */
  lemma CredentialsAreOverwritten(content: string, hash1: string, salt1: string, hash2: string, salt2: string)
    requires NewlineFree(PairOf(hash1, salt1))
    ensures Rewritten(EnvKinds(), Rewritten(EnvKinds(), content, PairOf(hash1, salt1)), PairOf(hash2, salt2))
         == Rewritten(EnvKinds(), content, PairOf(hash2, salt2))
  {
    PairsAreValid(hash1, salt1);
    PairsAreValid(hash2, salt2);
    OverwriteLaw(EnvKinds(), content, PairOf(hash1, salt1), PairOf(hash2, salt2));
  }

  /**
   The rewritten file's own lines: the new pair once, no plaintext password, and
   the other lines as they were, an empty last one now standing for the final newline.
   */
  lemma RewrittenFileHolds(kind: Kinds, k: Kind, content: string, p: Pair)
    requires ValidPair(kind, p) && NewlineFree(p)
    ensures Only(kind, k, Lines(Rewritten(kind, content, p)))
            + (if k == OtherKind && LosesEmptyLast(kind, content, p) then [""] else [])
         == Expected(kind, k, Lines(content), p, false, false)
  {
    RewrittenLines(kind, content, p);
    LinesRewritten(kind, k, Lines(content), p, false, false);
    if LosesEmptyLast(kind, content, p) {
      OnlyButEmptyLast(kind, k, Lines(Rewritten(kind, content, p)));
    }
  }

  lemma OnlyButEmptyLast(kind: Kinds, k: Kind, kept: seq<string>)
    requires kind("") == OtherKind
    ensures Only(kind, k, kept + [""]) == Only(kind, k, kept) + if k == OtherKind then [""] else []
  {
    OnlyConcat(kind, k, kept, [""]);
    OnlyUnless(kind, k, false, "", []);
  }

  // ---- in the file's own words ----

  /** Splitting a file into its lines loses nothing. */
  lemma LinesOfContent(content: string)
    ensures Join(Lines(content), '\n') + Ending(content) == content
    ensures Ending(content) == if content != "" && content[|content| - 1] == '\n' then "\n" else ""
  {
    JoinInvertsSplit(content, '\n');
    if EndsWithNewline(content) {
      LastPartIsEmpty(content);
      var lines := Split(content, '\n');
      var init := lines[..|lines| - 1];
      assert lines == init + [""];
      assert init != [] by {
        assert Join([""], '\n') == "";
      }
      JoinOneMore(init, "", '\n');
      assert Join(init, '\n') + ['\n'] + "" == Join(init, '\n') + "\n";
    }
  }

  lemma {:induction false} LastPartIsEmpty(s: string)
    requires EndsWithNewline(s)
    ensures var parts := Split(s, '\n'); parts[|parts| - 1] == ""
  {
    if |s| > 1 {
      LastPartIsEmpty(s[1..]);
    } else {
      assert s == "\n" && s[1..] == "";
      assert Split("", '\n') == [""];
    }
  }

  predicate IsHashLine(line: string) { "TADORU_ADMIN_PASSWORD_HASH=" <= line }

  predicate IsSaltLine(line: string) { "TADORU_ADMIN_PASSWORD_SALT=" <= line }

  predicate IsPlaintextLine(line: string) { "TADORU_ADMIN_PASSWORD=" <= line }

  predicate IsOtherLine(line: string) { !IsHashLine(line) && !IsSaltLine(line) && !IsPlaintextLine(line) }

  lemma EnvKindIs(line: string)
    ensures KindOf(line) == HashKind <==> IsHashLine(line)
    ensures KindOf(line) == SaltKind <==> IsSaltLine(line)
    ensures KindOf(line) == PlaintextKind <==> IsPlaintextLine(line)
    ensures KindOf(line) == OtherKind <==> IsOtherLine(line)
  {
    var at := |"TADORU_ADMIN_PASSWORD"|;
    assert IsHashLine(line) ==> line[at] == '_' && line[at + 1] == 'H';
    assert IsSaltLine(line) ==> line[at] == '_' && line[at + 1] == 'S';
    assert IsPlaintextLine(line) ==> line[at] == '=';
  }

  /** The pair in full. */
  lemma PairIs(hash: string, salt: string)
    ensures PairOf(hash, salt) == Pair("TADORU_ADMIN_PASSWORD_HASH=" + hash, "TADORU_ADMIN_PASSWORD_SALT=" + salt)
  {}

  lemma PairHasNoNewline(hash: string, salt: string)
    requires '\n' !in hash && '\n' !in salt
    ensures NewlineFree(PairOf(hash, salt))
  {}

  lemma OnlyIs(k: Kind, lines: seq<string>, p: string -> bool)
    requires forall line :: (KindOf(line) == k) == p(line)
    ensures Only(EnvKinds(), k, lines) == Filter(lines, p)
  {
    FilterAgree(lines, OfKind(EnvKinds(), k), p);
  }

  /** The lines of each kind, picked by how they begin. */
  function Picked(k: Kind): string -> bool {
    match k
    case HashKind => line => IsHashLine(line)
    case SaltKind => line => IsSaltLine(line)
    case PlaintextKind => line => IsPlaintextLine(line)
    case OtherKind => line => IsOtherLine(line)
  }

  lemma OnlyIsPicked(k: Kind, lines: seq<string>)
    ensures Only(EnvKinds(), k, lines) == Filter(lines, Picked(k))
  {
    forall line: string
      ensures (KindOf(line) == k) == Picked(k)(line)
    {
      EnvKindIs(line);
    }
    OnlyIs(k, lines, Picked(k));
  }

  /**
   The environment file after a rewrite: one hash line and one salt line, those of
   the new pair, no plaintext password, and every other line as it was, in order,
   but for an empty last line that now stands for the final newline.
   */
  lemma EnvFileHolds(content: string, p: Pair, before: seq<string>, after: seq<string>)
    requires ValidPair(EnvKinds(), p) && NewlineFree(p)
    requires before == Lines(content) && after == Lines(Rewritten(EnvKinds(), content, p))
    ensures Filter(after, Picked(HashKind)) == [p.hashLine] && Filter(after, Picked(SaltKind)) == [p.saltLine]
    ensures Filter(after, Picked(PlaintextKind)) == []
    ensures || Filter(before, Picked(OtherKind)) == Filter(after, Picked(OtherKind))
            || Filter(before, Picked(OtherKind)) == Filter(after, Picked(OtherKind)) + [""]
  {
    forall k: Kind
      ensures Only(EnvKinds(), k, before) == Filter(before, Picked(k)) && Only(EnvKinds(), k, after) == Filter(after, Picked(k))
    {
      OnlyIsPicked(k, before);
      OnlyIsPicked(k, after);
    }
    RewrittenFileHolds(EnvKinds(), HashKind, content, p);
    RewrittenFileHolds(EnvKinds(), SaltKind, content, p);
    RewrittenFileHolds(EnvKinds(), PlaintextKind, content, p);
    RewrittenFileHolds(EnvKinds(), OtherKind, content, p);
  }
}
