/** The line patterns of cpp/scripts/parse_iwyu_output.py, written out as searches over characters. */
module IwyuLines {
  import opened Sequences

  /** White space as Python's `str.strip` and `\s` see it. */
  predicate IsSpace(c: char) {
    var n := c as int;
    || 9 <= n <= 13 || 28 <= n <= 32 || n == 0x85 || n == 0xA0 || n == 0x1680 || 0x2000 <= n <= 0x200A
    || n == 0x2028 || n == 0x2029 || n == 0x202F || n == 0x205F || n == 0x3000
  }

  function FirstSpace(s: string): (k: nat)
    ensures k <= |s|
    ensures k < |s| ==> IsSpace(s[k])
    ensures forall i :: 0 <= i < k ==> !IsSpace(s[i])
  {
    if s == [] || IsSpace(s[0]) then 0 else 1 + FirstSpace(s[1..])
  }

  function StripLeft(s: string): string {
    if s != [] && IsSpace(s[0]) then StripLeft(s[1..]) else s
  }

  function StripRight(s: string): string {
    if s != [] && IsSpace(s[|s| - 1]) then StripRight(s[..|s| - 1]) else s
  }

  /** `str.strip`. */
  function Strip(s: string): string {
    StripRight(StripLeft(s))
  }

  lemma {:induction false} StripLeftFirst(s: string)
    ensures StripLeft(s) != [] ==> !IsSpace(StripLeft(s)[0])
  {
    if s != [] && IsSpace(s[0]) {
      StripLeftFirst(s[1..]);
    }
  }

  lemma {:induction false} StripRightEnds(s: string)
    ensures StripRight(s) <= s
    ensures StripRight(s) != [] ==> !IsSpace(StripRight(s)[|StripRight(s)| - 1])
  {
    if s != [] && IsSpace(s[|s| - 1]) {
      StripRightEnds(s[..|s| - 1]);
    }
  }

  /** What is stripped once is stripped. */
  lemma StripTwice(s: string)
    ensures Strip(Strip(s)) == Strip(s)
  {
    StripLeftFirst(s);
    StripRightEnds(StripLeft(s));
    assert StripLeft(Strip(s)) == Strip(s);
  }

  predicate AllSpace(s: string) {
    forall i :: 0 <= i < |s| ==> IsSpace(s[i])
  }

  /** No white space at either end. */
  predicate Trimmed(s: string) {
    s != [] ==> !IsSpace(s[0]) && !IsSpace(s[|s| - 1])
  }

  lemma {:induction false} StripLeftSplits(s: string) returns (left: string)
    ensures s == left + StripLeft(s) && AllSpace(left)
  {
    left := [];
    if s != [] && IsSpace(s[0]) {
      var rest := StripLeftSplits(s[1..]);
      left := [s[0]] + rest;
      assert s == [s[0]] + s[1..];
    }
  }

  lemma {:induction false} StripRightSplits(s: string) returns (right: string)
    ensures s == StripRight(s) + right && AllSpace(right)
  {
    right := [];
    if s != [] && IsSpace(s[|s| - 1]) {
      var rest := StripRightSplits(s[..|s| - 1]);
      right := rest + [s[|s| - 1]];
      assert s == s[..|s| - 1] + [s[|s| - 1]];
    }
  }

  lemma {:induction false} StripLeftDrops(left: string, s: string)
    requires AllSpace(left) && (s != [] ==> !IsSpace(s[0]))
    ensures StripLeft(left + s) == s
  {
    if left == [] {
      assert left + s == s;
    } else {
      assert (left + s)[1..] == left[1..] + s;
      StripLeftDrops(left[1..], s);
    }
  }

  lemma {:induction false} StripRightDrops(s: string, right: string)
    requires AllSpace(right) && (s != [] ==> !IsSpace(s[|s| - 1]))
    ensures StripRight(s + right) == s
  {
    if right == [] {
      assert s + right == s;
    } else {
      assert (s + right)[..|s + right| - 1] == s + right[..|right| - 1];
      StripRightDrops(s, right[..|right| - 1]);
    }
  }

  /** Stripping takes the white space away from both ends, and nothing else. */
  lemma StripMeans(s: string, t: string)
    ensures Strip(s) == t
       <==> Trimmed(t) && exists left, right :: AllSpace(left) && AllSpace(right) && s == left + t + right
  {
    if Strip(s) == t {
      var left := StripLeftSplits(s);
      var right := StripRightSplits(StripLeft(s));
      StripLeftFirst(s);
      StripRightEnds(StripLeft(s));
      assert s == left + t + right;
    }
    if left, right :| Trimmed(t) && AllSpace(left) && AllSpace(right) && s == left + t + right {
      StripParts(left, t, right);
    }
  }

  lemma StripParts(left: string, t: string, right: string)
    requires Trimmed(t) && AllSpace(left) && AllSpace(right)
    ensures Strip(left + t + right) == t
  {
    if t == [] {
      StripLeftDrops(left + right, []);
      assert left + t + right == (left + right) + [];
    } else {
      assert left + t + right == left + (t + right);
      StripLeftDrops(left, t + right);
      StripRightDrops(t, right);
    }
  }

  /** A path: a slash and at least one more character, no white space. */
  predicate IsPath(s: string) {
    |s| >= 2 && s[0] == '/' && forall i :: 0 <= i < |s| ==> !IsSpace(s[i])
  }

  /** `re.match(r"(\/\S+)" + suffix, line)`: the path in front of a suffix that starts with a space. */
  function PathBefore(line: string, suffix: string): (path: Option<string>)
    ensures path.Some? ==> IsPath(path.value)
  {
    var k := FirstSpace(line);
    if k >= 2 && line[0] == '/' && suffix <= line[k..] then Some(line[..k]) else None
  }

  /** `re.match(prefix + r"(\/\S+):", line)`. */
  predicate PathAfter(line: string, prefix: string) {
    && prefix <= line
    && var rest := line[|prefix|..];
       var k := FirstSpace(rest);
       k >= 1 && rest[0] == '/' && exists j :: 2 <= j < k && rest[j] == ':'
  }

  lemma FirstSpaceAt(path: string, rest: string)
    requires forall i :: 0 <= i < |path| ==> !IsSpace(path[i])
    requires rest == [] || IsSpace(rest[0])
    ensures FirstSpace(path + rest) == |path|
  {
    var line, k := path + rest, FirstSpace(path + rest);
    assert forall i :: 0 <= i < |path| ==> line[i] == path[i];
    assert |path| < |line| ==> line[|path|] == rest[0];
  }

  /** The pattern of an add or remove header matches exactly the lines that begin with a path and the suffix. */
  lemma PathBeforeMeans(line: string, suffix: string, path: string)
    requires suffix != [] && IsSpace(suffix[0])
    ensures PathBefore(line, suffix) == Some(path) <==> IsPath(path) && path + suffix <= line
  {
    var k := FirstSpace(line);
    if PathBefore(line, suffix) == Some(path) {
      assert line == line[..k] + line[k..];
    }
    if IsPath(path) && path + suffix <= line {
      assert line[|path|] == (path + suffix)[|path|] == suffix[0];
      assert forall i :: 0 <= i < |path| ==> line[i] == (path + suffix)[i] == path[i];
      assert k == |path|;
      assert line[..k] == (path + suffix)[..k] == path;
      assert line[k..|path + suffix|] == (path + suffix)[k..] == suffix;
    }
  }

  /** The pattern of an include-list header matches exactly the lines that begin with the prefix, a path and a
      colon. */
  lemma PathAfterMeans(line: string, prefix: string)
    ensures PathAfter(line, prefix) <==> exists path :: IsPath(path) && prefix + path + ":" <= line
  {
    if PathAfter(line, prefix) {
      var rest := line[|prefix|..];
      var j :| 2 <= j < FirstSpace(rest) && rest[j] == ':';
      assert line == prefix + rest && rest == rest[..j] + ":" + rest[j + 1..];
      assert IsPath(rest[..j]);
      assert prefix + rest[..j] + ":" <= line;
    }
    if path :| IsPath(path) && prefix + path + ":" <= line {
      var head, j := prefix + path + ":", |path|;
      assert head <= line && prefix <= head;
      var rest := line[|prefix|..];
      assert forall i :: 0 <= i <= j ==> rest[i] == head[|prefix| + i];
      assert rest[j] == ':' && forall i :: 0 <= i < j ==> rest[i] == path[i];
      assert !IsSpace(':');
      assert j < FirstSpace(rest);
    }
  }

  /** A header that was written is recognised, with its path. */
  lemma PathBeforeWritten(path: string, suffix: string)
    requires IsPath(path) && suffix != [] && IsSpace(suffix[0])
    ensures PathBefore(path + suffix, suffix) == Some(path)
  {
    FirstSpaceAt(path, suffix);
    assert (path + suffix)[|path|..] == suffix && (path + suffix)[..|path|] == path;
  }

  lemma PathBeforeOther(path: string, suffix: string, other: string, i: nat)
    requires IsPath(path) && suffix != [] && IsSpace(suffix[0])
    requires i < |suffix| && i < |other| && suffix[i] != other[i]
    ensures PathBefore(path + suffix, other).None?
  {
    FirstSpaceAt(path, suffix);
    assert (path + suffix)[|path|..] == suffix;
  }

  lemma PathAfterWritten(prefix: string, path: string)
    requires IsPath(path)
    ensures PathAfter(prefix + path + ":", prefix)
  {
    var line := prefix + path + ":";
    var rest := line[|prefix|..];
    assert rest == path + ":";
    assert line[..|prefix|] == prefix;
    FirstSpaceAt(path + ":", []);
    assert path + ":" + [] == rest;
    assert rest[|path|] == ':';
  }

  // ----- include directives -----

  function SkipSpaces(s: string, k: nat): (r: nat)
    requires k <= |s|
    ensures k <= r <= |s|
    ensures forall i :: k <= i < r ==> IsSpace(s[i])
    ensures r < |s| ==> !IsSpace(s[r])
    decreases |s| - k
  {
    if k < |s| && IsSpace(s[k]) then SkipSpaces(s, k + 1) else k
  }

  function FirstDelimiter(s: string, k: nat): (r: nat)
    requires k <= |s|
    ensures k <= r <= |s|
    ensures forall i :: k <= i < r ==> s[i] != '"' && s[i] != '>'
    ensures r < |s| ==> s[r] == '"' || s[r] == '>'
    decreases |s| - k
  {
    if k == |s| || s[k] == '"' || s[k] == '>' then k else FirstDelimiter(s, k + 1)
  }

  /** The pattern `#include\s+[<"]([^">]+)[">]` at one position. */
  function IncludeAt(line: string, p: nat): Option<string>
    requires p <= |line|
  {
    if !("#include" <= line[p..]) then None
    else
      var a := p + 8;
      var b := SkipSpaces(line, a);
      if b == a || b == |line| || (line[b] != '<' && line[b] != '"') then None
      else
        var c := FirstDelimiter(line, b + 1);
        if c == |line| || c == b + 1 then None else Some(line[b + 1..c])
  }

  /** `re.search` of the pattern from a position on. */
  function SearchInclude(line: string, p: nat): Option<string>
    requires p <= |line|
    decreases |line| - p
  {
    var here := IncludeAt(line, p);
    if here.Some? || p == |line| then here else SearchInclude(line, p + 1)
  }

  /** `extract_include_file`. */
  function ExtractIncludeFile(line: string): Option<string> {
    SearchInclude(line, 0)
  }

  /** What the pattern matches: the directive, white space, a delimiter, the name and a closing delimiter. */
  ghost predicate Reads(text: string, name: string) {
    exists spaces, opening, closing, rest :: ReadsAs(text, name, spaces, opening, closing, rest)
  }

  predicate ReadsAs(text: string, name: string, spaces: string, opening: char, closing: char, rest: string) {
    && text == "#include" + spaces + [opening] + name + [closing] + rest
    && spaces != [] && AllSpace(spaces) && opening in {'<', '"'} && closing in {'"', '>'}
    && name != [] && '"' !in name && '>' !in name
  }

  lemma IncludeReads(line: string, p: nat)
    requires p <= |line| && IncludeAt(line, p).Some?
    ensures Reads(line[p..], IncludeAt(line, p).value)
  {
    var a, text := p + 8, line[p..];
    var b := SkipSpaces(line, a);
    var c := FirstDelimiter(line, b + 1);
    assert text[..8] == "#include";
    assert text == text[..8] + line[a..b] + [line[b]] + line[b + 1..c] + [line[c]] + line[c + 1..];
    assert ReadsAs(text, line[b + 1..c], line[a..b], line[b], line[c], line[c + 1..]);
  }

  lemma PartsOf(text: string, spaces: string, opening: char, name: string, closing: char, rest: string)
    requires text == "#include" + spaces + [opening] + name + [closing] + rest
    ensures var b := 8 + |spaces|;
            var c := b + 1 + |name|;
            && c < |text| && text[..8] == "#include" && text[8..b] == spaces && text[b] == opening
            && text[b + 1..c] == name && text[c] == closing
  {
  }

  lemma ReadsIncluded(line: string, p: nat, name: string, spaces: string, opening: char, closing: char, rest: string)
    requires p <= |line| && ReadsAs(line[p..], name, spaces, opening, closing, rest)
    ensures IncludeAt(line, p) == Some(name)
  {
    var a := p + 8;
    var b := a + |spaces|;
    var c := b + 1 + |name|;
    PartsInLine(line, p, name, spaces, opening, closing, rest);
    SkipsTo(line, a, b);
    DelimitsAt(line, b + 1, c);
  }

  lemma PartsInLine(line: string, p: nat, name: string, spaces: string, opening: char, closing: char, rest: string)
    requires p <= |line| && line[p..] == "#include" + spaces + [opening] + name + [closing] + rest
    ensures var b := p + 8 + |spaces|;
            var c := b + 1 + |name|;
            && c < |line| && "#include" <= line[p..] && line[p + 8..b] == spaces && line[b] == opening
            && line[b + 1..c] == name && line[c] == closing
  {
    var i, j := 8 + |spaces|, 9 + |spaces| + |name|;
    PartsOf(line[p..], spaces, opening, name, closing, rest);
    SliceOfRest(line, p, 8, i);
    SliceOfRest(line, p, i + 1, j);
    assert line[p..][i] == line[p + i] && line[p..][j] == line[p + j];
  }

  lemma SliceOfRest(line: string, p: nat, i: nat, j: nat)
    requires p <= |line| && i <= j <= |line| - p
    ensures line[p..][i..j] == line[p + i..p + j]
  {
  }

  lemma SkipsTo(line: string, a: nat, b: nat)
    requires a <= b < |line| && AllSpace(line[a..b]) && !IsSpace(line[b])
    ensures SkipSpaces(line, a) == b
  {
    assert forall i :: a <= i < b ==> line[i] == line[a..b][i - a];
  }

  lemma DelimitsAt(line: string, b: nat, c: nat)
    requires b <= c < |line| && '"' !in line[b..c] && '>' !in line[b..c] && (line[c] == '"' || line[c] == '>')
    ensures FirstDelimiter(line, b) == c
  {
    assert forall i :: b <= i < c ==> line[i] == line[b..c][i - b];
  }

  lemma IncludeAtMeans(line: string, p: nat, name: string)
    requires p <= |line|
    ensures IncludeAt(line, p) == Some(name) <==> Reads(line[p..], name)
  {
    if IncludeAt(line, p) == Some(name) {
      IncludeReads(line, p);
    }
    if spaces, opening, closing, rest :| ReadsAs(line[p..], name, spaces, opening, closing, rest) {
      ReadsIncluded(line, p, name, spaces, opening, closing, rest);
    }
  }

  /** The name that the line includes first. */
  ghost predicate Includes(line: string, name: string) {
    exists p :: FirstAt(line, name, p)
  }

  ghost predicate FirstAt(line: string, name: string, p: int) {
    0 <= p <= |line| && Reads(line[p..], name) && forall q, other :: 0 <= q < p ==> !Reads(line[q..], other)
  }

  /** Where the search stops: at the first match, or at the end of the line. */
  lemma {:induction false} SearchFinds(line: string, p: nat) returns (q: nat)
    requires p <= |line|
    ensures p <= q <= |line| && IncludeAt(line, q) == SearchInclude(line, p)
    ensures SearchInclude(line, p).None? ==> q == |line|
    ensures forall i: nat :: p <= i < q ==> IncludeAt(line, i).None?
    decreases |line| - p
  {
    var here := IncludeAt(line, p);
    if here.Some? || p == |line| {
      q := p;
    } else {
      q := SearchFinds(line, p + 1);
      assert SearchInclude(line, p) == SearchInclude(line, p + 1);
    }
  }

  lemma FoundIsFirst(line: string, name: string)
    requires ExtractIncludeFile(line) == Some(name)
    ensures Includes(line, name)
  {
    var q := SearchFinds(line, 0);
    IncludeAtMeans(line, q, name);
    forall i, other | 0 <= i < q ensures !Reads(line[i..], other) {
      IncludeAtMeans(line, i, other);
    }
    assert FirstAt(line, name, q);
  }

  lemma FirstIsFound(line: string, name: string, p: int)
    requires FirstAt(line, name, p)
    ensures ExtractIncludeFile(line) == Some(name)
  {
    var q := SearchFinds(line, 0);
    IncludeAtMeans(line, p, name);
    if q < p {
      assert IncludeAt(line, q).Some?;
      IncludeAtMeans(line, q, IncludeAt(line, q).value);
    }
  }

  /** The search returns the first included name. */
  lemma IncludeMeans(line: string, name: string)
    ensures ExtractIncludeFile(line) == Some(name) <==> Includes(line, name)
  {
    if ExtractIncludeFile(line) == Some(name) {
      FoundIsFirst(line, name);
    }
    if p :| FirstAt(line, name, p) {
      FirstIsFound(line, name, p);
    }
  }

  /** Both lines include the same name, or neither includes any. */
  ghost predicate SameInclude(x: string, y: string) {
    forall name :: Includes(x, name) <==> Includes(y, name)
  }

  lemma SameIncludeMeans(x: string, y: string)
    ensures SameInclude(x, y) <==> ExtractIncludeFile(x) == ExtractIncludeFile(y)
  {
    forall name: string
      ensures ExtractIncludeFile(x) == Some(name) <==> Includes(x, name)
      ensures ExtractIncludeFile(y) == Some(name) <==> Includes(y, name)
    {
      IncludeMeans(x, name);
      IncludeMeans(y, name);
    }
    if SameInclude(x, y) && ExtractIncludeFile(x).Some? {
      assert Includes(y, ExtractIncludeFile(x).value);
    }
    if SameInclude(x, y) && ExtractIncludeFile(y).Some? {
      assert Includes(x, ExtractIncludeFile(y).value);
    }
  }
}
