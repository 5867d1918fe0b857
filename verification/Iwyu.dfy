/** cpp/scripts/parse_iwyu_output.py: a line state machine, the post-processing of what it collects, and
    a printer. What was printed comes back from the parser exactly when no printed line is a header. */
module Iwyu {
  import opened IwyuLines
  import opened Sequences

  const ADD_SUFFIX := " should add these lines:"
  const REMOVE_SUFFIX := " should remove these lines:"
  const FULL_PREFIX := "The full include-list for "
  const END_MARK := "---"

  datatype Mode = NORMAL | ADD | REMOVE | FULL_INCLUDE_LIST

  datatype Mods = Mods(add: seq<string>, remove: seq<string>, full: seq<string>)

  /** The dictionary with its insertion order, and the variables of the loop. */
  datatype State = State(order: seq<string>, mods: map<string, Mods>, current: Option<string>, mode: Mode,
                         echoed: seq<string>)

  // ----- lines -----

  /** What the loop sees of a line: a header, the end mark, or a text with a flag that says whether it
      is passed on outside the sections. */
  datatype Token = AddHeader(path: string) | RemoveHeader | FullHeader | End | Plain(line: string, text: string,
      echoes: bool)

  function TokenOf(line: string): Token {
    var path := PathBefore(line, ADD_SUFFIX);
    if path.Some? then AddHeader(path.value)
    else if PathBefore(line, REMOVE_SUFFIX).Some? then RemoveHeader
    else if PathAfter(line, FULL_PREFIX) then FullHeader
    else if Strip(line) == END_MARK then End
    else Plain(line, Strip(line), Echoes(line))
  }

  predicate Occurs(word: string, line: string) {
    exists i :: 0 <= i <= |line| && word <= line[i..]
  }

  /** Lines outside a file's sections that are passed on. */
  predicate Echoes(line: string) {
    && Strip(line) != "" && !Occurs("include-what-you-use reported diagnostics", line)
    && !Occurs("In file included from", line) && !Occurs("has correct #includes/fwd-decls", line)
  }

  lemma OccursMeans(word: string, line: string)
    ensures Occurs(word, line) <==> exists before, after :: line == before + word + after
  {
    if i :| 0 <= i <= |line| && word <= line[i..] {
      assert line == line[..i] + word + line[i + |word|..];
    }
    if before, after :| line == before + word + after {
      assert line[|before|..] == word + after;
    }
  }

  /** The line begins with a path and the text. */
  ghost predicate Heads(line: string, text: string) {
    exists path :: IsPath(path) && path + text <= line
  }

  /** What kind of line it is, as the script's patterns say in their order. */
  ghost predicate IsToken(line: string, t: Token) {
    match t
    case AddHeader(path) => IsPath(path) && path + " should add these lines:" <= line
    case RemoveHeader => !Heads(line, " should add these lines:") && Heads(line, " should remove these lines:")
    case FullHeader => IsIncludeList(line) && !Heads(line, " should add these lines:")
                       && !Heads(line, " should remove these lines:")
    case End => IsText(line) && IsStripped(line, "---")
    case Plain(whole, text, echoes) =>
      && IsText(line) && whole == line && text != "---" && IsStripped(line, text)
      && (echoes <==> text != "" && !Noise(line))
  }

  ghost predicate IsIncludeList(line: string) {
    exists path :: IsPath(path) && "The full include-list for " + path + ":" <= line
  }

  ghost predicate IsText(line: string) {
    && !Heads(line, " should add these lines:") && !Heads(line, " should remove these lines:")
    && !IsIncludeList(line)
  }

  /** The text is the line without the white space around it. */
  ghost predicate IsStripped(line: string, text: string) {
    Trimmed(text) && exists left, right :: AllSpace(left) && AllSpace(right) && line == left + text + right
  }

  /** The line holds one of the messages that are not passed on. */
  ghost predicate Noise(line: string) {
    exists before, after ::
      || line == before + "include-what-you-use reported diagnostics" + after
      || line == before + "In file included from" + after
      || line == before + "has correct #includes/fwd-decls" + after
  }

  lemma HeadsMeans(line: string, suffix: string)
    requires suffix != [] && IsSpace(suffix[0])
    ensures PathBefore(line, suffix).Some? <==> Heads(line, suffix)
  {
    if PathBefore(line, suffix).Some? {
      PathBeforeMeans(line, suffix, PathBefore(line, suffix).value);
    }
    if path :| IsPath(path) && path + suffix <= line {
      PathBeforeMeans(line, suffix, path);
    }
  }

  lemma EchoesMeans(line: string)
    ensures Echoes(line) <==> Strip(line) != "" && !Noise(line)
  {
    OccursMeans("include-what-you-use reported diagnostics", line);
    OccursMeans("In file included from", line);
    OccursMeans("has correct #includes/fwd-decls", line);
  }

  /** Every line is read as exactly one kind. */
  lemma TokenMeans(line: string, t: Token)
    ensures TokenOf(line) == t <==> IsToken(line, t)
  {
    HeadsMeans(line, ADD_SUFFIX);
    HeadsMeans(line, REMOVE_SUFFIX);
    PathAfterMeans(line, FULL_PREFIX);
    StripMeans(line, "---");
    EchoesMeans(line);
    if t.AddHeader? {
      PathBeforeMeans(line, ADD_SUFFIX, t.path);
    }
    if t.Plain? {
      StripMeans(line, t.text);
    }
  }

  // ----- the state machine -----

  function Enter(s: State, path: string): State {
    var known := path in s.mods;
    State(if known then s.order else s.order + [path], if known then s.mods else s.mods[path := Mods([], [], [])],
          Some(path), ADD, s.echoed)
  }

  /** Adds lines to the list that the mode selects. */
  function Extended(m: Mods, mode: Mode, lines: seq<string>): Mods {
    match mode
    case NORMAL => m
    case ADD => m.(add := m.add + lines)
    case REMOVE => m.(remove := m.remove + lines)
    case FULL_INCLUDE_LIST => m.(full := m.full + lines)
  }

  function Collect(s: State, t: Token): State
    requires t.Plain?
  {
    if s.current.None? then s.(echoed := s.echoed + if t.echoes then [t.line] else [])
    else if s.current.value in s.mods then
      s.(mods := s.mods[s.current.value := Extended(s.mods[s.current.value], s.mode, [t.text])])
    else s
  }

  /** One turn of the loop. */
  function Step(s: State, t: Token): State {
    match t
    case AddHeader(path) => Enter(s, path)
    case RemoveHeader => s.(mode := REMOVE)
    case FullHeader => s.(mode := FULL_INCLUDE_LIST)
    case End => s.(current := None, mode := NORMAL)
    case Plain(_, _, _) => Collect(s, t)
  }

  function Run(s: State, tokens: seq<Token>): State {
    if tokens == [] then s else Step(Run(s, tokens[..|tokens| - 1]), tokens[|tokens| - 1])
  }

  const START := State([], map[], None, NORMAL, [])

  /** What the loop has found in the lines. */
  function Parse(lines: seq<string>): State {
    Run(START, Map(TokenOf, lines))
  }

  ghost predicate WellFormed(s: State) {
    && Distinct(s.order) && (forall path :: path in s.order <==> path in s.mods)
    && (s.current.Some? ==> s.current.value in s.mods)
    && forall path :: path in s.mods ==> IsPath(path)
  }

  lemma TokenPaths(line: string)
    ensures TokenOf(line).AddHeader? ==> IsPath(TokenOf(line).path)
  {
  }

  lemma {:induction false} RunWellFormed(s: State, tokens: seq<Token>)
    requires WellFormed(s) && forall i :: 0 <= i < |tokens| && tokens[i].AddHeader? ==> IsPath(tokens[i].path)
    ensures WellFormed(Run(s, tokens))
  {
    if tokens != [] {
      RunWellFormed(s, tokens[..|tokens| - 1]);
    }
  }

  lemma ParseWellFormed(lines: seq<string>)
    ensures WellFormed(Parse(lines))
  {
    var tokens := Map(TokenOf, lines);
    forall i | 0 <= i < |tokens| ensures tokens[i].AddHeader? ==> IsPath(tokens[i].path) {
      TokenPaths(lines[i]);
    }
    RunWellFormed(START, tokens);
  }

  // ----- output -----

  /** The add header, a blank line and the remove header. */
  function HeadLines(path: string): seq<string> {
    [path + ADD_SUFFIX, "", path + REMOVE_SUFFIX]
  }

  /** What is written for one file. */
  function Block(path: string, m: Mods): seq<string> {
    HeadLines(path) + m.remove + ["", FULL_PREFIX + path + ":"] + m.full + [END_MARK]
  }

  function Output(order: seq<string>, mods: map<string, Mods>): seq<string>
    requires forall path :: path in order ==> path in mods
  {
    if order == [] then []
    else
      var last := order[|order| - 1];
      Output(order[..|order| - 1], mods) + if mods[last].remove != [] then Block(last, mods[last]) else []
  }

  // ----- post-processing -----

  function Files(lines: seq<string>): set<Option<string>> {
    set line | line in lines :: ExtractIncludeFile(line)
  }

  function NotIn(files: set<Option<string>>): string -> bool {
    line => ExtractIncludeFile(line) !in files
  }

  /** The post-processing of one file: additions and removals without duplicates, in any order, and
      without the files that occur in both; the include list without the files that are added. Lines
      without an include count as one file. */
  ghost predicate Processed(before: Mods, after: Mods) {
    var common := Files(before.add) * Files(before.remove);
    && Distinct(after.add) && (forall line :: line in after.add <==> line in before.add && NotIn(common)(line))
    && Distinct(after.remove) && (forall line :: line in after.remove <==> line in before.remove && NotIn(common)(line))
    && after.full == Filter(NotIn(Files(before.add)), before.full)
  }

  /** `list(set(lines))`. */
  method Deduplicate(lines: seq<string>) returns (out: seq<string>)
    ensures Distinct(out) && forall line :: line in out <==> line in lines
  {
    out := [];
    var rest := set line | line in lines;
    while rest != {}
      invariant Distinct(out)
      invariant forall line :: line in out <==> line in lines && line !in rest
      invariant forall line :: line in rest ==> line in lines
      decreases |rest|
    {
      var line :| line in rest;
      rest := rest - {line};
      out := out + [line];
    }
  }

  lemma {:induction false} FilterDistinct(p: string -> bool, s: seq<string>)
    requires Distinct(s)
    ensures Distinct(Filter(p, s))
  {
    if s != [] {
      FilterDistinct(p, s[1..]);
      assert s[0] !in s[1..];
    }
  }

  lemma FilesOfSame(a: seq<string>, b: seq<string>)
    requires forall line :: line in a <==> line in b
    ensures Files(a) == Files(b)
  {
  }

  /** Some line of the list has the same include. */
  ghost predicate AmongIncludes(line: string, lines: seq<string>) {
    exists other :: other in lines && SameInclude(line, other)
  }

  /** A line goes from the additions, or from the removals, exactly when the other list has its include, and
      from the include list exactly when the additions have it. */
  ghost predicate DropsShared(before: Mods, after: Mods) {
    && (forall line :: line in after.add <==> line in before.add && !AmongIncludes(line, before.remove))
    && (forall line :: line in after.remove <==> line in before.remove && !AmongIncludes(line, before.add))
    && (forall line :: line in after.full <==> line in before.full && !AmongIncludes(line, before.add))
  }

  lemma AmongMeans(line: string, lines: seq<string>)
    ensures AmongIncludes(line, lines) <==> ExtractIncludeFile(line) in Files(lines)
  {
    forall other | other in lines
      ensures SameInclude(line, other) <==> ExtractIncludeFile(line) == ExtractIncludeFile(other)
    {
      SameIncludeMeans(line, other);
    }
  }

  lemma ProcessedMeans(before: Mods, after: Mods)
    requires Processed(before, after)
    ensures DropsShared(before, after)
  {
    forall line: string
      ensures AmongIncludes(line, before.add) <==> ExtractIncludeFile(line) in Files(before.add)
      ensures AmongIncludes(line, before.remove) <==> ExtractIncludeFile(line) in Files(before.remove)
    {
      AmongMeans(line, before.add);
      AmongMeans(line, before.remove);
    }
  }

  method PostProcessOne(before: Mods) returns (after: Mods)
    ensures Processed(before, after) && DropsShared(before, after)
  {
    var add := Deduplicate(before.add);
    var remove := Deduplicate(before.remove);
    FilesOfSame(add, before.add);
    FilesOfSame(remove, before.remove);
    var addFiles, removeFiles := Files(add), Files(remove);
    var common := addFiles * removeFiles;
    FilterDistinct(NotIn(common), add);
    FilterDistinct(NotIn(common), remove);
    after := Mods(Filter(NotIn(common), add), Filter(NotIn(common), remove), Filter(NotIn(addFiles), before.full));
    ProcessedMeans(before, after);
  }

  /** No file name is left in both lists. */
  lemma NothingInBoth(before: Mods, after: Mods)
    requires Processed(before, after)
    ensures Files(after.add) !! Files(after.remove)
    ensures Files(after.add) !! Files(after.full)
    ensures forall line :: line in after.add ==>
              !AmongIncludes(line, after.remove) && !AmongIncludes(line, after.full)
  {
    var common := Files(before.add) * Files(before.remove);
    forall x ensures x in Files(after.add) ==> x in Files(before.add) && x !in common {
    }
    forall x ensures x in Files(after.remove) ==> x in Files(before.remove) && x !in common {
    }
    forall x ensures x in Files(after.full) ==> x !in Files(before.add) {
    }
    forall line | line in after.add ensures !AmongIncludes(line, after.remove) && !AmongIncludes(line, after.full) {
      AmongMeans(line, after.remove);
      AmongMeans(line, after.full);
      assert ExtractIncludeFile(line) in Files(after.add);
    }
  }

  /** include_modifications: updated line by line, then rewritten in place. */
  class IncludeModifications {
    var order: seq<string>
    var mods: map<string, Mods>

    constructor ()
      ensures order == [] && mods == map[]
    {
      order, mods := [], map[];
    }

    ghost predicate Valid()
      reads this
    {
      && Distinct(order) && (forall path :: path in order <==> path in mods)
      && forall path :: path in mods ==> IsPath(path)
    }

    /** The body of the loop in parse_output. */
    method Take(token: Token, current: Option<string>, mode: Mode, echoed: seq<string>)
      returns (current': Option<string>, mode': Mode, echoed': seq<string>)
      requires current.Some? ==> current.value in mods
      modifies this
      ensures State(order, mods, current', mode', echoed')
           == Step(State(old(order), old(mods), current, mode, echoed), token)
      ensures current'.Some? ==> current'.value in mods
    {
      current', mode', echoed' := current, mode, echoed;
      match token
      case AddHeader(path) =>
        if path !in mods {
          order := order + [path];
          mods := mods[path := Mods([], [], [])];
        }
        current', mode' := Some(path), ADD;
      case RemoveHeader => mode' := REMOVE;
      case FullHeader => mode' := FULL_INCLUDE_LIST;
      case End => current', mode' := None, NORMAL;
      case Plain(line, text, echoes) =>
        if current.Some? {
          mods := mods[current.value := Extended(mods[current.value], mode, [text])];
        } else if echoes {
          echoed' := echoed + [line];
        }
    }

    /** `parse_output`. */
    method ParseOutput(lines: seq<string>) returns (echoed: seq<string>)
      requires order == [] && mods == map[]
      modifies this
      ensures Valid()
      ensures order == Parse(lines).order && mods == Parse(lines).mods && echoed == Parse(lines).echoed
    {
      var current: Option<string>, mode := None, NORMAL;
      echoed := [];
      ghost var tokens := Map(TokenOf, lines);
      for i := 0 to |lines|
        invariant State(order, mods, current, mode, echoed) == Run(START, tokens[..i])
        invariant current.Some? ==> current.value in mods
      {
        assert tokens[..i + 1][..i] == tokens[..i];
        current, mode, echoed := Take(TokenOf(lines[i]), current, mode, echoed);
      }
      assert tokens[..|lines|] == tokens;
      ParseWellFormed(lines);
    }

    /** `post_process_includes`. */
    method PostProcess()
      requires Valid()
      modifies this
      ensures Valid() && order == old(order)
      ensures forall path :: path in mods ==>
                Processed(old(mods)[path], mods[path]) && DropsShared(old(mods)[path], mods[path])
    {
      ghost var before, related := mods, Relation();
      for i := 0 to |order|
        invariant order == old(order) && mods.Keys == before.Keys
        invariant RelatedUpTo(related, before, mods, order, i)
      {
        var after := PostProcessOne(mods[order[i]]);
        assert related(before[order[i]], after);
        RelateNext(related, before, mods, order, i, after);
        mods := mods[order[i] := after];
      }
      forall path | path in mods ensures Processed(before[path], mods[path]) && DropsShared(before[path], mods[path]) {
        assert path in order;
        assert related(before[path], mods[path]);
        ProcessedMeans(before[path], mods[path]);
      }
    }

    /** `write_output`. */
    method WriteOutput() returns (output: seq<string>)
      requires Valid()
      ensures output == Output(order, mods)
    {
      output := [];
      for i := 0 to |order|
        invariant output == Output(order[..i], mods)
      {
        assert order[..i + 1][..i] == order[..i];
        if mods[order[i]].remove != [] {
          var block := WriteBlock(order[i], mods[order[i]]);
          output := output + block;
        }
      }
      assert order[..|order|] == order;
    }
  }

  /** The body of the loop in write_output. */
  method WriteBlock(path: string, m: Mods) returns (output: seq<string>)
    ensures output == Block(path, m)
  {
    output := [path + ADD_SUFFIX, ""];
    output := output + [path + REMOVE_SUFFIX];
    ghost var head := output;
    for k := 0 to |m.remove|
      invariant output == head + m.remove[..k]
    {
      output := output + [m.remove[k]];
    }
    output := output + [""];
    output := output + [FULL_PREFIX + path + ":"];
    ghost var middle := output;
    for k := 0 to |m.full|
      invariant output == middle + m.full[..k]
    {
      output := output + [m.full[k]];
    }
    output := output + [END_MARK];
  }

  ghost function Relation(): (Mods, Mods) -> bool {
    (before, after) => Processed(before, after)
  }

  /** The first `i` files are rewritten, and the others as they were. */
  ghost predicate RelatedUpTo(related: (Mods, Mods) -> bool, before: map<string, Mods>, mods: map<string, Mods>,
                              order: seq<string>, i: nat)
  {
    && mods.Keys == before.Keys && i <= |order| && (forall k :: 0 <= k < |order| ==> order[k] in mods)
    && (forall k :: 0 <= k < i ==> related(before[order[k]], mods[order[k]]))
    && (forall k :: i <= k < |order| ==> mods[order[k]] == before[order[k]])
  }

  lemma RelateNext(related: (Mods, Mods) -> bool, before: map<string, Mods>, mods: map<string, Mods>,
                   order: seq<string>, i: nat, after: Mods)
    requires i < |order| && Distinct(order) && RelatedUpTo(related, before, mods, order, i)
    requires related(before[order[i]], after)
    ensures RelatedUpTo(related, before, mods[order[i] := after], order, i + 1)
  {
  }

  // ----- round trip -----

  /** A stripped line that is not a header: what printing keeps apart from headers. */
  predicate IsPlain(line: string) {
    TokenOf(line).Plain? && Strip(line) == line
  }

  ghost predicate AllPlain(lines: seq<string>) {
    forall i :: 0 <= i < |lines| ==> IsPlain(lines[i])
  }

  /** The tokens stand for the lines, as they are. */
  ghost predicate Verbatim(tokens: seq<Token>, lines: seq<string>) {
    |tokens| == |lines| && forall i :: 0 <= i < |lines| ==> tokens[i].Plain? && tokens[i].text == lines[i]
  }

  lemma {:induction false} RunConcat(s: State, a: seq<Token>, b: seq<Token>)
    ensures Run(s, a + b) == Run(Run(s, a), b)
  {
    if b == [] {
      assert a + b == a;
    } else {
      var n := |b| - 1;
      assert (a + b)[..|a + b| - 1] == a + b[..n];
      RunConcat(s, a, b[..n]);
    }
  }

  /** The token's step, as a run of length one. */
  lemma RunOne(s: State, t: Token)
    ensures Run(s, [t]) == Step(s, t)
  {
    assert [t][..0] == [];
  }

  /** Plain lines end up in the current list, unchanged. */
  lemma {:induction false} RunPlain(s: State, path: string, tokens: seq<Token>, lines: seq<string>)
    requires s.current == Some(path) && path in s.mods && Verbatim(tokens, lines)
    ensures Run(s, tokens) == s.(mods := s.mods[path := Extended(s.mods[path], s.mode, lines)])
  {
    var m := s.mods[path];
    if tokens == [] {
      assert Extended(m, s.mode, []) == m;
      assert s.mods[path := m] == s.mods;
    } else {
      var n := |tokens| - 1;
      RunPlain(s, path, tokens[..n], lines[..n]);
      assert lines == lines[..n] + [lines[n]];
      assert Extended(Extended(m, s.mode, lines[..n]), s.mode, [lines[n]]) == Extended(m, s.mode, lines);
      assert s.mods[path := Extended(m, s.mode, lines[..n])][path := Extended(m, s.mode, lines)]
          == s.mods[path := Extended(m, s.mode, lines)];
    }
  }

  lemma HeadersWritten(path: string)
    requires IsPath(path)
    ensures TokenOf(path + ADD_SUFFIX) == AddHeader(path)
    ensures TokenOf(path + REMOVE_SUFFIX) == RemoveHeader
    ensures TokenOf(FULL_PREFIX + path + ":") == FullHeader
  {
    PathBeforeWritten(path, ADD_SUFFIX);
    assert ADD_SUFFIX[8] == 'a' && REMOVE_SUFFIX[8] == 'r';
    PathBeforeOther(path, REMOVE_SUFFIX, ADD_SUFFIX, 8);
    PathBeforeWritten(path, REMOVE_SUFFIX);
    PathAfterWritten(FULL_PREFIX, path);
  }

  lemma MarksWritten()
    ensures TokenOf(END_MARK) == End
    ensures IsPlain("")
  {
    assert END_MARK[0] == '-' && FULL_PREFIX[0] == 'T';
    assert Strip("") == "";
  }

  /** The tokens of one file's block. */
  ghost predicate BlockTokens(tokens: seq<Token>, path: string, m: Mods) {
    exists removed, full :: tokens == HeadTokens(path) + removed + [FullHeader] + full + [End]
                            && Verbatim(removed, m.remove + [""]) && Verbatim(full, m.full)
  }

  function HeadTokens(path: string): seq<Token> {
    [AddHeader(path)] + [Plain("", "", false)] + [RemoveHeader]
  }

  lemma PlainTokens(lines: seq<string>)
    requires AllPlain(lines)
    ensures Verbatim(Map(TokenOf, lines), lines)
  {
  }

  lemma HeadReads(path: string)
    requires IsPath(path)
    ensures Map(TokenOf, HeadLines(path)) == HeadTokens(path)
  {
    HeadersWritten(path);
    BlankReads();
    MapThree(TokenOf, path + ADD_SUFFIX, "", path + REMOVE_SUFFIX);
  }

  lemma MapThree<T, R>(f: T -> R, a: T, b: T, c: T)
    ensures Map(f, [a, b, c]) == [f(a)] + [f(b)] + [f(c)]
  {
  }

  lemma BlankReads()
    ensures TokenOf("") == Plain("", "", false)
  {
    MarksWritten();
  }

  /** A block reads as its headers and its lines. */
  lemma BlockReads(path: string, m: Mods)
    requires IsPath(path) && AllPlain(m.remove) && AllPlain(m.full)
    ensures BlockTokens(Map(TokenOf, Block(path, m)), path, m)
  {
    HeadReads(path);
    HeadersWritten(path);
    MarksWritten();
    var head, fullHead := HeadLines(path), FULL_PREFIX + path + ":";
    var removed, full := Map(TokenOf, m.remove + [""]), Map(TokenOf, m.full);
    PlainTokens(m.remove + [""]);
    PlainTokens(m.full);
    BlockJoins(head, m.remove, fullHead, m.full, END_MARK);
    assert Map(TokenOf, Block(path, m)) == HeadTokens(path) + removed + [FullHeader] + full + [End];
  }

  lemma BlockJoins(head: seq<string>, remove: seq<string>, fullHead: string, full: seq<string>, end: string)
    ensures Map(TokenOf, head + remove + ["", fullHead] + full + [end])
         == Map(TokenOf, head) + Map(TokenOf, remove + [""]) + [TokenOf(fullHead)] + Map(TokenOf, full) + [TokenOf(end)]
  {
    assert head + remove + ["", fullHead] + full + [end] == head + (remove + [""]) + [fullHead] + full + [end];
    MapConcat(TokenOf, head + (remove + [""]) + [fullHead] + full, [end]);
    MapConcat(TokenOf, head + (remove + [""]) + [fullHead], full);
    MapConcat(TokenOf, head + (remove + [""]), [fullHead]);
    MapConcat(TokenOf, head, remove + [""]);
  }

  lemma SetTwice(mods: map<string, Mods>, path: string, a: Mods, b: Mods)
    ensures mods[path := a][path := b] == mods[path := b]
  {
  }

  lemma ReadHead(s: State, path: string)
    requires path !in s.mods
    ensures Run(s, HeadTokens(path))
         == State(s.order + [path], s.mods[path := Mods([""], [], [])], Some(path), REMOVE, s.echoed)
  {
    var blank := Plain("", "", false);
    RunConcat(s, [AddHeader(path)] + [blank], [RemoveHeader]);
    RunConcat(s, [AddHeader(path)], [blank]);
    RunOne(s, AddHeader(path));
    RunOne(Enter(s, path), blank);
    var s2 := Collect(Enter(s, path), blank);
    assert [] + [""] == [""];
    SetTwice(s.mods, path, Mods([], [], []), Mods([""], [], []));
    RunOne(s2, RemoveHeader);
  }

  lemma ReadSections(s: State, path: string, removed: seq<Token>, remove: seq<string>, fullTokens: seq<Token>,
      full: seq<string>)
    requires s.current == Some(path) && path in s.mods && s.mode.REMOVE?
    requires Verbatim(removed, remove) && Verbatim(fullTokens, full)
    ensures var m := s.mods[path];
            Run(s, removed + [FullHeader] + fullTokens + [End])
              == s.(mods := s.mods[path := Mods(m.add, m.remove + remove, m.full + full)],
                    current := None, mode := NORMAL)
  {
    var m := s.mods[path];
    RunPlain(s, path, removed, remove);
    var s1 := Run(s, removed);
    RunOne(s1, FullHeader);
    var s2 := s1.(mode := FULL_INCLUDE_LIST);
    RunPlain(s2, path, fullTokens, full);
    var s3 := Run(s2, fullTokens);
    RunOne(s3, End);
    RunConcat(s, removed + [FullHeader] + fullTokens, [End]);
    RunConcat(s, removed + [FullHeader], fullTokens);
    RunConcat(s, removed, [FullHeader]);
    SetTwice(s.mods, path, Mods(m.add, m.remove + remove, m.full), Mods(m.add, m.remove + remove, m.full + full));
  }

  lemma ReadParts(s: State, path: string, removed: seq<Token>, remove: seq<string>, fullTokens: seq<Token>,
      full: seq<string>)
    requires path !in s.mods && Verbatim(removed, remove) && Verbatim(fullTokens, full)
    ensures Run(s, HeadTokens(path) + (removed + [FullHeader] + fullTokens + [End]))
         == State(s.order + [path], s.mods[path := Mods([""], remove, full)], None, NORMAL, s.echoed)
  {
    ReadHead(s, path);
    var s1 := Run(s, HeadTokens(path));
    ReadSections(s1, path, removed, remove, fullTokens, full);
    RunConcat(s, HeadTokens(path), removed + [FullHeader] + fullTokens + [End]);
    assert [] + remove == remove && [] + full == full;
    SetTwice(s.mods, path, Mods([""], [], []), Mods([""], remove, full));
  }

  lemma Regroup<T>(a: seq<T>, b: seq<T>, c: seq<T>, d: seq<T>, e: seq<T>)
    ensures a + b + c + d + e == a + (b + c + d + e)
  {
  }

  /** Reading one file's block back, when nothing is known of the file yet. */
  lemma ReadBlock(s: State, path: string, m: Mods, tokens: seq<Token>)
    requires path !in s.mods && BlockTokens(tokens, path, m)
    ensures Run(s, tokens) == State(s.order + [path], s.mods[path := Reread(m)], None, NORMAL, s.echoed)
  {
    var removed, full :| tokens == HeadTokens(path) + removed + [FullHeader] + full + [End]
                         && Verbatim(removed, m.remove + [""]) && Verbatim(full, m.full);
    Regroup(HeadTokens(path), removed, [FullHeader], full, [End]);
    ReadParts(s, path, removed, m.remove + [""], full, m.full);
  }

  function WithRemovals(order: seq<string>, mods: map<string, Mods>): seq<string>
    requires forall path :: path in order ==> path in mods
  {
    if order == [] then []
    else
      var last := order[|order| - 1];
      WithRemovals(order[..|order| - 1], mods) + if mods[last].remove != [] then [last] else []
  }

  /** What comes back for one file: a blank line joins the additions and the removals. */
  function Reread(m: Mods): Mods {
    Mods([""], m.remove + [""], m.full)
  }

  predicate AllStripped(lines: seq<string>) {
    forall line :: line in lines ==> Strip(line) == line
  }

  /** What the parser collects: files with paths, each once, and lines without white space around them. */
  ghost predicate Collected(order: seq<string>, mods: map<string, Mods>) {
    && Distinct(order)
    && forall path :: path in order ==>
         path in mods && IsPath(path) && AllStripped(mods[path].remove) && AllStripped(mods[path].full)
  }

  /** No line is a header or the end mark. */
  ghost predicate AllTexts(lines: seq<string>) {
    forall line :: line in lines ==> TokenOf(line).Plain?
  }

  /** None of the lines that are printed is a header or the end mark. */
  ghost predicate TextsOnly(order: seq<string>, mods: map<string, Mods>)
    requires forall path :: path in order ==> path in mods
  {
    forall path :: path in order && mods[path].remove != [] ==> AllTexts(mods[path].remove) && AllTexts(mods[path].full)
  }

  /** The files with removals are there, in their order, with their lines. */
  ghost predicate FilesComeBack(order: seq<string>, mods: map<string, Mods>, s: State)
    requires forall path :: path in order ==> path in mods
  {
    && s.order == WithRemovals(order, mods)
    && forall path :: path in order && mods[path].remove != [] ==> path in s.mods && s.mods[path] == Reread(mods[path])
  }

  lemma TextsArePlain(lines: seq<string>)
    requires AllStripped(lines) && AllTexts(lines)
    ensures AllPlain(lines)
  {
  }

  /** Parsing what was printed returns the files with removals if no printed line is a header. */
  lemma {:induction false} TextsComeBack(order: seq<string>, mods: map<string, Mods>)
    requires Collected(order, mods) && TextsOnly(order, mods)
    ensures var s := Parse(Output(order, mods));
            && s.current.None? && s.mode.NORMAL? && s.echoed == [] && FilesComeBack(order, mods, s)
            && forall path :: path in s.mods <==> path in order && mods[path].remove != []
  {
    if order != [] {
      var init, last := order[..|order| - 1], order[|order| - 1];
      assert last in order && last !in init && order == init + [last];
      TextsComeBack(init, mods);
      if mods[last].remove != [] {
        var block := Block(last, mods[last]);
        TextsArePlain(mods[last].remove);
        TextsArePlain(mods[last].full);
        BlockReads(last, mods[last]);
        ReadBlock(Parse(Output(init, mods)), last, mods[last], Map(TokenOf, block));
        RunConcat(START, Map(TokenOf, Output(init, mods)), Map(TokenOf, block));
        MapConcat(TokenOf, Output(init, mods), block);
      } else {
        assert Output(order, mods) == Output(init, mods);
        assert WithRemovals(order, mods) == WithRemovals(init, mods);
      }
    }
  }

  // ----- how many lines come back -----

  function Size(m: Mods): nat {
    |m.add| + |m.remove| + |m.full|
  }

  /** The lines collected for the listed files. */
  function Weight(order: seq<string>, mods: map<string, Mods>): nat
    requires forall path :: path in order ==> path in mods
  {
    if order == [] then 0 else Weight(order[..|order| - 1], mods) + Size(mods[order[|order| - 1]])
  }

  lemma {:induction false} WeightSet(order: seq<string>, mods: map<string, Mods>, path: string, m: Mods)
    requires Distinct(order) && forall p :: p in order ==> p in mods
    ensures Weight(order, mods[path := m])
         == Weight(order, mods) + if path in order then Size(m) - Size(mods[path]) else 0
  {
    if order != [] {
      var init, last := order[..|order| - 1], order[|order| - 1];
      assert order == init + [last] && last !in init;
      WeightSet(init, mods, path, m);
    }
  }

  function Plains(tokens: seq<Token>): nat {
    if tokens == [] then 0
    else Plains(tokens[..|tokens| - 1]) + if tokens[|tokens| - 1].Plain? then 1 else 0
  }

  lemma {:induction false} PlainsConcat(a: seq<Token>, b: seq<Token>)
    ensures Plains(a + b) == Plains(a) + Plains(b)
  {
    if b == [] {
      assert a + b == a;
    } else {
      assert (a + b)[..|a + b| - 1] == a + b[..|b| - 1];
      PlainsConcat(a, b[..|b| - 1]);
    }
  }

  lemma StepWeight(s: State, t: Token)
    requires WellFormed(s) && WellFormed(Step(s, t))
    ensures Weight(Step(s, t).order, Step(s, t).mods) <= Weight(s.order, s.mods) + if t.Plain? then 1 else 0
  {
    match t
    case AddHeader(path) =>
      if path !in s.mods {
        var after := Step(s, t);
        assert after.order[..|after.order| - 1] == s.order;
        WeightSet(s.order, s.mods, path, Mods([], [], []));
      }
    case RemoveHeader =>
    case FullHeader =>
    case End =>
    case Plain(_, text, _) =>
      if s.current.Some? {
        var path := s.current.value;
        WeightSet(s.order, s.mods, path, Extended(s.mods[path], s.mode, [text]));
      }
  }

  /** A run collects at most as many lines as there are plain lines. */
  lemma {:induction false} RunWeight(tokens: seq<Token>)
    requires forall i :: 0 <= i < |tokens| && tokens[i].AddHeader? ==> IsPath(tokens[i].path)
    ensures WellFormed(Run(START, tokens))
    ensures Weight(Run(START, tokens).order, Run(START, tokens).mods) <= Plains(tokens)
  {
    RunWellFormed(START, tokens);
    if tokens != [] {
      var init, last := tokens[..|tokens| - 1], tokens[|tokens| - 1];
      RunWeight(init);
      StepWeight(Run(START, init), last);
    }
  }

  lemma {:induction false} PlainsAll(tokens: seq<Token>)
    ensures Plains(tokens) <= |tokens|
    ensures Plains(tokens) == |tokens| <==> forall i :: 0 <= i < |tokens| ==> tokens[i].Plain?
  {
    if tokens != [] {
      PlainsAll(tokens[..|tokens| - 1]);
    }
  }

  lemma TextPlains(lines: seq<string>)
    ensures Plains(Map(TokenOf, lines)) <= |lines|
    ensures Plains(Map(TokenOf, lines)) == |lines| <==> AllTexts(lines)
  {
    var tokens := Map(TokenOf, lines);
    PlainsAll(tokens);
    if AllTexts(lines) {
      forall i | 0 <= i < |tokens| ensures tokens[i].Plain? {
        assert lines[i] in lines;
      }
    }
    if forall i :: 0 <= i < |tokens| ==> tokens[i].Plain? {
      forall line | line in lines ensures TokenOf(line).Plain? {
        var i :| 0 <= i < |lines| && lines[i] == line;
        assert tokens[i].Plain?;
      }
    }
  }

  /** How many lines one file's block has to give back. */
  function Expected(m: Mods): nat {
    if m.remove != [] then Size(Reread(m)) else 0
  }

  lemma BlockPlains(path: string, m: Mods)
    requires IsPath(path) && m.remove != []
    ensures Plains(Map(TokenOf, Block(path, m))) <= Expected(m)
    ensures Plains(Map(TokenOf, Block(path, m))) == Expected(m) <==> AllTexts(m.remove) && AllTexts(m.full)
  {
    HeadReads(path);
    HeadersWritten(path);
    MarksWritten();
    BlockJoins(HeadLines(path), m.remove, FULL_PREFIX + path + ":", m.full, END_MARK);
    var removed, full := Map(TokenOf, m.remove + [""]), Map(TokenOf, m.full);
    PlainsOfParts(path, removed, full);
    MapConcat(TokenOf, m.remove, [""]);
    PlainsConcat(Map(TokenOf, m.remove), Map(TokenOf, [""]));
    BlankReads();
    PlainsOne(TokenOf(""));
    assert Map(TokenOf, [""]) == [TokenOf("")];
    TextPlains(m.remove);
    TextPlains(m.full);
  }

  lemma PlainsOne(t: Token)
    ensures Plains([t]) == if t.Plain? then 1 else 0
  {
    assert [t][..0] == [];
  }

  lemma PlainsOfParts(path: string, removed: seq<Token>, full: seq<Token>)
    ensures Plains(HeadTokens(path) + removed + [FullHeader] + full + [End]) == 1 + Plains(removed) + Plains(full)
  {
    PlainsConcat(HeadTokens(path) + removed + [FullHeader] + full, [End]);
    PlainsConcat(HeadTokens(path) + removed + [FullHeader], full);
    PlainsConcat(HeadTokens(path) + removed, [FullHeader]);
    PlainsConcat(HeadTokens(path), removed);
    PlainsConcat([AddHeader(path)] + [Plain("", "", false)], [RemoveHeader]);
    PlainsConcat([AddHeader(path)], [Plain("", "", false)]);
    PlainsOne(End);
    PlainsOne(FullHeader);
    PlainsOne(AddHeader(path));
    PlainsOne(RemoveHeader);
    PlainsOne(Plain("", "", false));
  }

  function ExpectedAll(order: seq<string>, mods: map<string, Mods>): nat
    requires forall path :: path in order ==> path in mods
  {
    if order == [] then 0 else ExpectedAll(order[..|order| - 1], mods) + Expected(mods[order[|order| - 1]])
  }

  lemma TextsStep(order: seq<string>, mods: map<string, Mods>)
    requires order != [] && forall path :: path in order ==> path in mods
    ensures var last := order[|order| - 1];
            TextsOnly(order, mods) <==>
              && TextsOnly(order[..|order| - 1], mods)
              && (mods[last].remove != [] ==> AllTexts(mods[last].remove) && AllTexts(mods[last].full))
  {
    assert order == order[..|order| - 1] + [order[|order| - 1]];
  }

  /** One more file's block, or none if it has no removals. */
  lemma LastPlains(order: seq<string>, mods: map<string, Mods>)
    requires order != [] && forall path :: path in order ==> path in mods && IsPath(path)
    ensures var init, last := order[..|order| - 1], order[|order| - 1];
            Plains(Map(TokenOf, Output(order, mods)))
              == Plains(Map(TokenOf, Output(init, mods)))
                 + if mods[last].remove != [] then Plains(Map(TokenOf, Block(last, mods[last]))) else 0
  {
    var init, last := order[..|order| - 1], order[|order| - 1];
    if mods[last].remove != [] {
      MapConcat(TokenOf, Output(init, mods), Block(last, mods[last]));
      PlainsConcat(Map(TokenOf, Output(init, mods)), Map(TokenOf, Block(last, mods[last])));
    } else {
      assert Output(order, mods) == Output(init, mods);
    }
  }

  /** The output has as many plain lines as have to come back exactly when no printed line is a header. */
  lemma {:induction false} OutputPlains(order: seq<string>, mods: map<string, Mods>)
    requires forall path :: path in order ==> path in mods && IsPath(path)
    ensures Plains(Map(TokenOf, Output(order, mods))) <= ExpectedAll(order, mods)
    ensures Plains(Map(TokenOf, Output(order, mods))) == ExpectedAll(order, mods) <==> TextsOnly(order, mods)
  {
    if order != [] {
      var init, last := order[..|order| - 1], order[|order| - 1];
      assert forall path :: path in init ==> path in order;
      OutputPlains(init, mods);
      LastPlains(order, mods);
      TextsStep(order, mods);
      if mods[last].remove != [] {
        BlockPlains(last, mods[last]);
      }
    }
  }

  /** Files that come back hold all the lines that have to. */
  lemma {:induction false} WeightBack(order: seq<string>, mods: map<string, Mods>, back: map<string, Mods>)
    requires forall path :: path in order ==> path in mods
    requires forall path :: path in order && mods[path].remove != [] ==>
               path in back && back[path] == Reread(mods[path])
    ensures forall path :: path in WithRemovals(order, mods) ==> path in back
    ensures Weight(WithRemovals(order, mods), back) == ExpectedAll(order, mods)
  {
    if order != [] {
      var init, last := order[..|order| - 1], order[|order| - 1];
      assert order == init + [last];
      WeightBack(init, mods, back);
      if mods[last].remove != [] {
        var listed := WithRemovals(order, mods);
        assert listed[..|listed| - 1] == WithRemovals(init, mods);
      } else {
        assert WithRemovals(order, mods) == WithRemovals(init, mods);
      }
    }
  }

  lemma OnlyTextsComeBack(order: seq<string>, mods: map<string, Mods>)
    requires Collected(order, mods) && FilesComeBack(order, mods, Parse(Output(order, mods)))
    ensures TextsOnly(order, mods)
  {
    var lines := Output(order, mods);
    var tokens := Map(TokenOf, lines);
    forall i | 0 <= i < |tokens| ensures tokens[i].AddHeader? ==> IsPath(tokens[i].path) {
      TokenPaths(lines[i]);
    }
    RunWeight(tokens);
    WeightBack(order, mods, Parse(lines).mods);
    OutputPlains(order, mods);
  }

  /** Parsing what was printed returns exactly the files with removals, in their order and with their lines,
      if and only if none of their lines is a header or the end mark. */
  lemma ParseOfOutput(order: seq<string>, mods: map<string, Mods>)
    requires Collected(order, mods)
    ensures FilesComeBack(order, mods, Parse(Output(order, mods))) <==> TextsOnly(order, mods)
  {
    if TextsOnly(order, mods) {
      TextsComeBack(order, mods);
    }
    if FilesComeBack(order, mods, Parse(Output(order, mods))) {
      OnlyTextsComeBack(order, mods);
    }
  }

  function Carries(): string -> bool {
    line => ExtractIncludeFile(line).Some?
  }

  /** A line carries an include exactly when the pattern finds a name in it. */
  lemma CarriesMeans(line: string)
    ensures Carries()(line) <==> exists name :: Includes(line, name)
  {
    if Carries()(line) {
      IncludeMeans(line, ExtractIncludeFile(line).value);
    }
    if name :| Includes(line, name) {
      IncludeMeans(line, name);
    }
  }

  ghost predicate AllCarry(lines: seq<string>) {
    forall line :: line in lines ==> ExtractIncludeFile(line).Some?
  }

  /** What printing, parsing and post-processing leave of one file: no additions, and the removals and the
      include list without the lines that carry no include. */
  ghost predicate ComesBack(m: Mods, after: Mods) {
    && after.add == [] && Elements(after.remove) == Elements(Filter(Carries(), m.remove))
    && after.full == Filter(Carries(), m.full)
    && (Elements(after.remove) == Elements(m.remove) <==> AllCarry(m.remove))
    && (after.full == m.full <==> AllCarry(m.full))
  }

  lemma HasMember(s: seq<string>)
    ensures s != [] ==> exists x :: x in s
  {
    if s != [] {
      assert s[0] in s;
    }
  }

  /** Printing, parsing and post-processing again: the removals and the include list come back without
      the lines that carry no include, and without additions. So they come back as they were exactly
      when all their lines carry an include. */
  lemma RoundTrip(m: Mods, after: Mods)
    requires Processed(Reread(m), after)
    ensures ComesBack(m, after)
  {
    var before := Reread(m);
    assert Files(before.add) == {None} by {
      assert "" in before.add;
    }
    assert None in Files(before.remove) by {
      assert before.remove[|m.remove|] == "";
      assert "" in before.remove;
    }
    var common := Files(before.add) * Files(before.remove);
    assert common == {None};
    assert forall line :: line in before.add ==> !NotIn(common)(line);
    HasMember(after.add);
    forall line ensures line in after.remove <==> line in m.remove && Carries()(line) {
    }
    FilterSame(NotIn(Files(before.add)), Carries(), m.full);
    FilterAll(Carries(), m.full);
    if Elements(after.remove) == Elements(m.remove) {
      forall line | line in m.remove ensures ExtractIncludeFile(line).Some? {
        assert line in Elements(m.remove);
      }
    }
  }

  /** The whole round trip, file by file, for everything the parser can have collected. */
  method PrintAndReparse(before: IncludeModifications) returns (after: IncludeModifications, echoed: seq<string>)
    requires before.Valid() && Collected(before.order, before.mods)
    ensures fresh(after) && after.Valid()
    ensures var read := Parse(Output(before.order, before.mods));
            && after.order == read.order && echoed == read.echoed
            && (forall path :: path in after.mods ==> path in read.mods && Processed(read.mods[path], after.mods[path]))
            && (FilesComeBack(before.order, before.mods, read) <==> TextsOnly(before.order, before.mods))
    ensures TextsOnly(before.order, before.mods) ==>
              && echoed == [] && after.order == WithRemovals(before.order, before.mods)
              && (forall path :: path in after.mods <==> path in before.order && before.mods[path].remove != [])
              && forall path :: path in after.mods ==> ComesBack(before.mods[path], after.mods[path])
  {
    var output := before.WriteOutput();
    ParseOfOutput(before.order, before.mods);
    after := new IncludeModifications();
    echoed := after.ParseOutput(output);
    after.PostProcess();
    if TextsOnly(before.order, before.mods) {
      TextsComeBack(before.order, before.mods);
      forall path | path in after.mods ensures ComesBack(before.mods[path], after.mods[path]) {
        RoundTrip(before.mods[path], after.mods[path]);
      }
    }
  }

  // ----- the script on any log -----

  ghost predicate StrippedMods(mods: map<string, Mods>) {
    forall path :: path in mods ==> AllStripped(mods[path].remove) && AllStripped(mods[path].full)
  }

  lemma {:induction false} CollectsStripped(tokens: seq<Token>)
    requires forall i :: 0 <= i < |tokens| && tokens[i].Plain? ==> Strip(tokens[i].text) == tokens[i].text
    ensures StrippedMods(Run(START, tokens).mods)
  {
    if tokens != [] {
      CollectsStripped(tokens[..|tokens| - 1]);
    }
  }

  /** Whatever the log, the collected lines have no white space around them. */
  lemma LogIsStripped(lines: seq<string>)
    ensures StrippedMods(Parse(lines).mods)
  {
    var tokens := Map(TokenOf, lines);
    forall i | 0 <= i < |tokens| && tokens[i].Plain? ensures Strip(tokens[i].text) == tokens[i].text {
      StripTwice(lines[i]);
    }
    CollectsStripped(tokens);
  }

  /** Every line that is left carries an include exactly when the additions had one that does not, or the
      list had none. */
  lemma CarryIff(before: Mods, after: Mods)
    requires Processed(before, after)
    ensures AllCarry(after.remove) <==> None in Files(before.add) || None !in Files(before.remove)
    ensures AllCarry(after.full) <==> None in Files(before.add) || None !in Files(before.full)
  {
    if None in Files(before.remove) && None !in Files(before.add) {
      var line :| line in before.remove && ExtractIncludeFile(line).None?;
      assert line in after.remove;
    }
    if None in Files(before.full) && None !in Files(before.add) {
      var line :| line in before.full && ExtractIncludeFile(line).None?;
      assert line in after.full;
    }
  }

  /** When the lists of one file are the same after the second run, by what the log said of it. */
  ghost predicate Keeps(parsed: Mods, first: Mods, again: Mods) {
    var blankAdded := None in Files(parsed.add);
    && (Elements(again.remove) == Elements(first.remove) <==> blankAdded || None !in Files(parsed.remove))
    && (again.full == first.full <==> blankAdded || None !in Files(parsed.full))
  }

  /** The script on any log, and again on what it wrote. The second run reads the files with removals back
      exactly when none of the lines that the first one printed for them is a header; then a file keeps its
      removals, and its include list, exactly when its additions had a line without an include or the
      list had none. */
  method ProcessTwice(lines: seq<string>)
    returns (first: IncludeModifications, again: IncludeModifications)
    ensures first.Valid() && again.Valid() && first.order == Parse(lines).order
    ensures forall path :: path in first.mods <==> path in Parse(lines).mods
    ensures forall path :: path in first.mods ==> Processed(Parse(lines).mods[path], first.mods[path])
    ensures var read := Parse(Output(first.order, first.mods));
            && again.order == read.order
            && (forall path :: path in again.mods ==> path in read.mods && Processed(read.mods[path], again.mods[path]))
            && (FilesComeBack(first.order, first.mods, read) <==> TextsOnly(first.order, first.mods))
    ensures TextsOnly(first.order, first.mods) ==>
              && again.order == WithRemovals(first.order, first.mods)
              && forall path :: path in again.mods ==>
                   && path in first.mods && ComesBack(first.mods[path], again.mods[path])
                   && Keeps(Parse(lines).mods[path], first.mods[path], again.mods[path])
  {
    first := new IncludeModifications();
    var printed := first.ParseOutput(lines);
    ghost var parsed := first.mods;
    first.PostProcess();
    LogIsStripped(lines);
    forall path | path in first.mods
      ensures AllStripped(first.mods[path].remove) && AllStripped(first.mods[path].full)
    {
      assert Processed(parsed[path], first.mods[path]);
    }
    var echoed;
    again, echoed := PrintAndReparse(first);
    if TextsOnly(first.order, first.mods) {
      forall path | path in again.mods ensures Keeps(parsed[path], first.mods[path], again.mods[path]) {
        CarryIff(parsed[path], first.mods[path]);
      }
    }
  }

  // ----- a log whose files do not come back -----

  /** A removal that is an add header behind a space. */
  function HiddenHeaderLog(path: string): seq<string> {
    [path + ADD_SUFFIX] + [path + REMOVE_SUFFIX] + [" " + path + ADD_SUFFIX]
  }

  lemma HiddenToken(path: string)
    requires IsPath(path)
    ensures var line := " " + path + ADD_SUFFIX;
            TokenOf(line) == Plain(line, path + ADD_SUFFIX, Echoes(line))
  {
    var line, text := " " + path + ADD_SUFFIX, path + ADD_SUFFIX;
    assert line[0] == ' ' && FULL_PREFIX[0] == 'T' && line[1..] == text && text[0] == '/';
    assert FirstSpace(line) == 0;
    assert StripLeft(line) == StripLeft(text) == text;
    assert text[|text| - 1] == ADD_SUFFIX[|ADD_SUFFIX| - 1] == ':';
    assert END_MARK[0] == '-';
  }

  lemma HiddenTokens(path: string)
    requires IsPath(path)
    ensures Map(TokenOf, HiddenHeaderLog(path))
         == [AddHeader(path)] + [RemoveHeader] + [TokenOf(" " + path + ADD_SUFFIX)]
  {
    HeadersWritten(path);
    var add, remove, hidden := path + ADD_SUFFIX, path + REMOVE_SUFFIX, " " + path + ADD_SUFFIX;
    assert HiddenHeaderLog(path) == [add, remove, hidden];
    MapThree(TokenOf, add, remove, hidden);
  }

  /** One plain line in the removals of a new file. */
  lemma OneRemoval(path: string, t: Token)
    requires t.Plain?
    ensures var s := Run(START, [AddHeader(path)] + [RemoveHeader] + [t]);
            s.order == [path] && s.mods == map[path := Mods([], [t.text], [])]
  {
    RunConcat(START, [AddHeader(path)] + [RemoveHeader], [t]);
    RunConcat(START, [AddHeader(path)], [RemoveHeader]);
    RunOne(START, AddHeader(path));
    var s1 := Step(START, AddHeader(path));
    assert [] + [path] == [path];
    RunOne(s1, RemoveHeader);
    RunOne(Step(s1, RemoveHeader), t);
    assert [] + [t.text] == [t.text];
    SetTwice(map[], path, Mods([], [], []), Mods([], [t.text], []));
  }

  lemma HiddenHeaderParses(path: string)
    requires IsPath(path)
    ensures Parse(HiddenHeaderLog(path)).order == [path]
    ensures Parse(HiddenHeaderLog(path)).mods == map[path := Mods([], [path + ADD_SUFFIX], [])]
  {
    HiddenToken(path);
    HiddenTokens(path);
    OneRemoval(path, TokenOf(" " + path + ADD_SUFFIX));
  }

  lemma OnlyLine(lines: seq<string>, line: string)
    requires Distinct(lines) && forall l :: l in lines <==> l == line
    ensures lines == [line]
  {
    assert Elements(lines) == {line};
    DistinctSize(lines);
    assert lines[0] in lines;
  }

  lemma HeaderIsStripped(path: string)
    requires IsPath(path)
    ensures Strip(path + ADD_SUFFIX) == path + ADD_SUFFIX
  {
    HiddenToken(path);
    StripTwice(" " + path + ADD_SUFFIX);
  }

  /** For every path this log's file does not come back: the first run prints its removal as a header. */
  lemma HiddenHeaderLoses(path: string, after: Mods)
    requires IsPath(path) && Processed(Mods([], [path + ADD_SUFFIX], []), after)
    ensures after.remove == [path + ADD_SUFFIX] && !TextsOnly([path], map[path := after])
    ensures !FilesComeBack([path], map[path := after], Parse(Output([path], map[path := after])))
  {
    var line := path + ADD_SUFFIX;
    OnlyLine(after.remove, line);
    HeadersWritten(path);
    HeaderIsStripped(path);
    var mods := map[path := after];
    assert path in [path] && line in mods[path].remove && !TokenOf(line).Plain?;
    ParseOfOutput([path], mods);
  }
}
