/** Maps, filters, permutations and stable sorting of sequences, shared by the other modules. */
module Sequences {

  datatype Option<+T> = None | Some(value: T)

  function Map<T, R>(f: T -> R, s: seq<T>): (r: seq<R>)
    ensures |r| == |s|
    ensures forall i :: 0 <= i < |s| ==> r[i] == f(s[i])
  {
    seq(|s|, i requires 0 <= i < |s| => f(s[i]))
  }

  function Filter<T(!new)>(p: T -> bool, s: seq<T>): (r: seq<T>)
    ensures |r| <= |s|
    ensures forall x :: x in r <==> x in s && p(x)
  {
    if s == [] then [] else (if p(s[0]) then [s[0]] else []) + Filter(p, s[1..])
  }

  ghost predicate Distinct<T>(s: seq<T>) {
    forall i, j :: 0 <= i < j < |s| ==> s[i] != s[j]
  }

  /** The elements of a sequence. */
  function Elements<T>(s: seq<T>): set<T> {
    set x | x in s
  }

  predicate WordAt(text: string, word: string, i: nat) {
    i + |word| <= |text| && text[i..i + |word|] == word
  }

  predicate ContainsWord(text: string, word: string) {
    exists i: nat :: i <= |text| && WordAt(text, word, i)
  }

  /** The word stands somewhere in the text. */
  lemma ContainsMeans(text: string, word: string)
    ensures ContainsWord(text, word) <==> exists before, after :: text == before + word + after
  {
    if ContainsWord(text, word) {
      var i: nat :| i <= |text| && WordAt(text, word, i);
      assert text == text[..i] + word + text[i + |word|..];
    }
    if before, after :| text == before + word + after {
      assert WordAt(text, word, |before|);
    }
  }

  lemma {:induction false} FilterCount<T(!new)>(p: T -> bool, s: seq<T>, x: T)
    ensures multiset(Filter(p, s))[x] == if p(x) then multiset(s)[x] else 0
  {
    if s != [] {
      assert s == [s[0]] + s[1..];
      FilterCount(p, s[1..], x);
    }
  }

  lemma FilterPermutes<T(!new)>(p: T -> bool, s: seq<T>, t: seq<T>)
    requires multiset(s) == multiset(t)
    ensures multiset(Filter(p, s)) == multiset(Filter(p, t))
  {
    forall x ensures multiset(Filter(p, s))[x] == multiset(Filter(p, t))[x] {
      FilterCount(p, s, x);
      FilterCount(p, t, x);
    }
  }

  /** Where a value that a permutation moved has gone. */
  lemma RemoveHead<T>(s: seq<T>, t: seq<T>) returns (j: nat)
    requires s != [] && multiset(s) == multiset(t)
    ensures j < |t| && t[j] == s[0]
    ensures t == t[..j] + [t[j]] + t[j + 1..]
    ensures multiset(s[1..]) == multiset(t[..j] + t[j + 1..])
  {
    assert s == [s[0]] + s[1..];
    assert s[0] in multiset(t);
    j :| 0 <= j < |t| && t[j] == s[0];
    assert t == t[..j] + [t[j]] + t[j + 1..];
    calc {
      multiset(t[..j] + t[j + 1..]);
      multiset(t[..j]) + multiset(t[j + 1..]);
      multiset(t) - multiset{t[j]};
      multiset(s) - multiset{s[0]};
      multiset(s[1..]);
    }
  }

  lemma {:induction false} MapConcat<T, R>(f: T -> R, s: seq<T>, t: seq<T>)
    ensures Map(f, s + t) == Map(f, s) + Map(f, t)
  {
  }

  lemma MapRemove<T, R>(f: T -> R, t: seq<T>, j: nat)
    requires j < |t|
    ensures multiset(Map(f, t)) == multiset(Map(f, t[..j] + t[j + 1..])) + multiset{f(t[j])}
  {
    var image, rest := Map(f, t), Map(f, t[..j] + t[j + 1..]);
    assert image == image[..j] + [f(t[j])] + image[j + 1..];
    assert rest == image[..j] + image[j + 1..];
  }

  lemma {:induction false} MapPermutes<T, R>(f: T -> R, s: seq<T>, t: seq<T>)
    requires multiset(s) == multiset(t)
    ensures multiset(Map(f, s)) == multiset(Map(f, t))
    decreases |s|
  {
    if s == [] {
      assert |t| == |multiset(t)| == 0;
    } else {
      var j := RemoveHead(s, t);
      var rest := t[..j] + t[j + 1..];
      assert s[..0] + s[1..] == s[1..];
      calc {
        multiset(Map(f, s));
        { MapRemove(f, s, 0); }
        multiset(Map(f, s[1..])) + multiset{f(s[0])};
        { MapPermutes(f, s[1..], rest); }
        multiset(Map(f, rest)) + multiset{f(t[j])};
        { MapRemove(f, t, j); }
        multiset(Map(f, t));
      }
    }
  }

  lemma {:induction false} FilterConcat<T(!new)>(p: T -> bool, s: seq<T>, t: seq<T>)
    ensures Filter(p, s + t) == Filter(p, s) + Filter(p, t)
  {
    if s == [] {
      assert s + t == t;
    } else {
      assert (s + t)[1..] == s[1..] + t;
      FilterConcat(p, s[1..], t);
    }
  }

  /** Only the elements of the sequence matter to a filter. */
  lemma {:induction false} FilterSame<T(!new)>(p: T -> bool, q: T -> bool, s: seq<T>)
    requires forall x :: x in s ==> p(x) == q(x)
    ensures Filter(p, s) == Filter(q, s)
  {
    if s != [] {
      assert s[0] in s;
      FilterSame(p, q, s[1..]);
    }
  }

  lemma {:induction false} FilterAll<T(!new)>(p: T -> bool, s: seq<T>)
    ensures Filter(p, s) == s <==> forall x :: x in s ==> p(x)
  {
    if s != [] {
      FilterAll(p, s[1..]);
      assert s == [s[0]] + s[1..];
      if !p(s[0]) {
        assert |Filter(p, s)| <= |s[1..]|;
      }
    }
  }

  lemma FilterAppend<T(!new)>(p: T -> bool, s: seq<T>, i: nat)
    requires i < |s|
    ensures Filter(p, s[..i + 1]) == Filter(p, s[..i]) + if p(s[i]) then [s[i]] else []
  {
    assert s[..i + 1] == s[..i] + [s[i]];
    FilterConcat(p, s[..i], [s[i]]);
  }

  /** The pieces, one after another. */
  function Flatten<T>(pieces: seq<seq<T>>): seq<T> {
    if pieces == [] then [] else Flatten(pieces[..|pieces| - 1]) + pieces[|pieces| - 1]
  }

  lemma SubsetSize<T>(a: set<T>, b: set<T>)
    requires a <= b
    ensures |a| <= |b|
  {
    assert b == a + (b - a);
    assert |b| == |a| + |b - a|;
  }

  /** A duplicate-free sequence has as many entries as it has elements. */
  lemma {:induction false} DistinctSize<T>(s: seq<T>)
    ensures |Elements(s)| <= |s|
    ensures Distinct(s) <==> |Elements(s)| == |s|
  {
    if s != [] {
      var init, x := s[..|s| - 1], s[|s| - 1];
      DistinctSize(init);
      DistinctLast(s);
      assert Elements(s) == Elements(init) + {x};
      assert x in init <==> x in Elements(init);
    }
  }

  lemma DistinctLast<T>(s: seq<T>)
    requires s != []
    ensures Distinct(s) <==> Distinct(s[..|s| - 1]) && s[|s| - 1] !in s[..|s| - 1]
  {
    var init, x := s[..|s| - 1], s[|s| - 1];
    assert forall i :: 0 <= i < |init| ==> init[i] == s[i];
    if Distinct(init) && x !in init {
      forall i, j | 0 <= i < j < |s| ensures s[i] != s[j] {
        if j == |s| - 1 {
          assert init[i] in init;
        }
      }
    }
  }

  /** A permutation of a duplicate-free sequence has the same elements and no duplicates. */
  lemma SameElements<T>(s: seq<T>, t: seq<T>)
    requires multiset(s) == multiset(t)
    ensures Elements(s) == Elements(t)
    ensures Distinct(s) ==> Distinct(t)
  {
    forall x | x in Elements(s) ensures x in Elements(t) {
      assert x in multiset(t);
    }
    forall x | x in Elements(t) ensures x in Elements(s) {
      assert x in multiset(s);
    }
    assert |s| == |multiset(s)| == |t|;
    DistinctSize(s);
    DistinctSize(t);
  }

  lemma {:induction false} DistinctCount<T>(s: seq<T>, x: T)
    requires Distinct(s)
    ensures multiset(s)[x] == if x in s then 1 else 0
  {
    if s != [] {
      assert s == [s[0]] + s[1..];
      DistinctCount(s[1..], x);
      assert s[0] !in s[1..];
    }
  }

  /** Two duplicate-free sequences of the same elements are permutations of each other. */
  lemma DistinctPermutation<T(!new)>(s: seq<T>, t: seq<T>)
    requires Distinct(s) && Distinct(t) && forall x :: x in s <==> x in t
    ensures multiset(s) == multiset(t)
  {
    forall x ensures multiset(s)[x] == multiset(t)[x] {
      DistinctCount(s, x);
      DistinctCount(t, x);
    }
  }

  /** All entries give one value. */
  ghost predicate Uniform<T(!new), U>(f: T -> U, s: seq<T>) {
    forall a, b :: a in s && b in s ==> f(a) == f(b)
  }

  lemma OneValue<T(!new), U>(f: T -> U, s: seq<T>)
    ensures |Elements(Map(f, s))| == 1 <==> s != [] && Uniform(f, s)
  {
    var values := Elements(Map(f, s));
    if s != [] {
      assert Map(f, s)[0] in values;
      if Uniform(f, s) {
        assert values == {f(s[0])};
      }
      if |values| == 1 {
        forall a, b | a in s && b in s ensures f(a) == f(b) {
          var i :| 0 <= i < |s| && s[i] == a;
          var j :| 0 <= j < |s| && s[j] == b;
          assert Map(f, s)[i] in values && Map(f, s)[j] in values;
          OnlyElement(values, f(a), f(b));
        }
      }
    } else {
      assert values == {};
    }
  }

  lemma OnlyElement<U>(values: set<U>, a: U, b: U)
    requires |values| == 1 && a in values && b in values
    ensures a == b
  {
    assert |values - {a}| == 0;
    assert b !in values - {a};
  }

  lemma ConcatAssociates<T>(a: seq<T>, b: seq<T>, c: seq<T>)
    ensures (a + b) + c == a + (b + c)
  {
  }

  /** An injection into `n` holes. */
  lemma {:induction false} Pigeonhole<T>(s: set<T>, hole: map<T, nat>, n: nat)
    requires forall x :: x in s ==> x in hole && hole[x] < n
    requires forall x, y :: x in s && y in s && hole[x] == hole[y] ==> x == y
    ensures |s| <= n
  {
    if n == 0 {
      assert s == {};
    } else if exists x :: x in s && hole[x] == n - 1 {
      var x :| x in s && hole[x] == n - 1;
      Pigeonhole(s - {x}, hole, n - 1);
    } else {
      Pigeonhole(s, hole, n - 1);
    }
  }

  lemma SameMap<K, V>(a: map<K, V>, b: map<K, V>)
    requires forall k :: k in a <==> k in b
    requires forall k :: k in a ==> a[k] == b[k]
    ensures a == b
  {
  }

  // ----- stable sorting -----

  ghost predicate TotalPreorder<T(!new)>(le: (T, T) -> bool) {
    && (forall x, y :: le(x, y) || le(y, x))
    && (forall x, y, z :: le(x, y) && le(y, z) ==> le(x, z))
  }

  ghost predicate Sorted<T>(s: seq<T>, le: (T, T) -> bool) {
    forall i, j :: 0 <= i < j < |s| ==> le(s[i], s[j])
  }

  /** Inserts before the first larger element, so that equal elements keep their order. */
  function Insert<T>(x: T, s: seq<T>, le: (T, T) -> bool): seq<T> {
    if s == [] || le(x, s[0]) then [x] + s else [s[0]] + Insert(x, s[1..], le)
  }

  /** A stable sort. */
  function Sort<T>(s: seq<T>, le: (T, T) -> bool): seq<T> {
    if s == [] then [] else Insert(s[0], Sort(s[1..], le), le)
  }

  lemma {:induction false} InsertAdds<T>(x: T, s: seq<T>, le: (T, T) -> bool)
    ensures multiset(Insert(x, s, le)) == multiset(s) + multiset{x}
  {
    if s == [] || le(x, s[0]) {
    } else {
      InsertAdds(x, s[1..], le);
      assert s == [s[0]] + s[1..];
    }
  }

  lemma ConsSorts<T>(x: T, s: seq<T>, le: (T, T) -> bool)
    requires Sorted(s, le) && forall y :: y in s ==> le(x, y)
    ensures Sorted([x] + s, le)
  {
    forall i, j | 0 <= i < j < |[x] + s| ensures le(([x] + s)[i], ([x] + s)[j]) {
      assert ([x] + s)[j] == s[j - 1] && s[j - 1] in s;
    }
  }

  lemma {:induction false} InsertSorts<T(!new)>(x: T, s: seq<T>, le: (T, T) -> bool)
    requires TotalPreorder(le) && Sorted(s, le)
    ensures multiset(Insert(x, s, le)) == multiset(s) + multiset{x}
    ensures Sorted(Insert(x, s, le), le)
  {
    InsertAdds(x, s, le);
    if s == [] {
    } else if le(x, s[0]) {
      ConsSorts(x, s, le);
    } else {
      var rest := Insert(x, s[1..], le);
      InsertSorts(x, s[1..], le);
      forall y | y in rest ensures le(s[0], y) {
        assert y in multiset(rest);
        assert y == x || y in s[1..];
      }
      ConsSorts(s[0], rest, le);
    }
  }

  lemma {:induction false} SortSorts<T(!new)>(s: seq<T>, le: (T, T) -> bool)
    requires TotalPreorder(le)
    ensures multiset(Sort(s, le)) == multiset(s)
    ensures Sorted(Sort(s, le), le)
  {
    if s != [] {
      SortSorts(s[1..], le);
      InsertSorts(s[0], Sort(s[1..], le), le);
      assert s == [s[0]] + s[1..];
    }
  }
}
