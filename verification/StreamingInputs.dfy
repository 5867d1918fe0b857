/** Inputs and capacities of the streaming group-by benchmarks
    (cpp/benchmarks/groupby/streaming_groupby.cpp). The object under test throws when a batch or the
    number of distinct keys exceeds its capacity; with the computed capacities it never does. */
module StreamingInputs {
  import opened Numbers
  import opened Sequences

  // ----- the object under test, as its documentation describes it -----

  datatype Outcome = Done | InvalidCapacity | BatchTooLarge | TooManyKeys | NoData

  class StreamingGroupby<K(==)> {
    const maxDistinctKeys: int
    var keys: set<K>
    var initialized: bool

    constructor (maxDistinctKeys: int)
      ensures this.maxDistinctKeys == maxDistinctKeys && keys == {} && !initialized
    {
      this.maxDistinctKeys := maxDistinctKeys;
      keys, initialized := {}, false;
    }

    /** One batch of key rows; an empty one is skipped. */
    method Aggregate(batch: seq<K>) returns (r: Outcome)
      modifies this
      ensures r == if batch == [] then Done else if |batch| > maxDistinctKeys then BatchTooLarge
                   else if |old(keys) + Elements(batch)| > maxDistinctKeys then TooManyKeys else Done
      ensures keys == if r.Done? then old(keys) + Elements(batch) else old(keys)
      ensures r.Done? ==> (initialized <==> old(initialized) || batch != [])
    {
      if batch == [] {
        return Done;
      }
      if |batch| > maxDistinctKeys {
        return BatchTooLarge;
      }
      if |keys + Elements(batch)| > maxDistinctKeys {
        return TooManyKeys;
      }
      keys, initialized := keys + Elements(batch), true;
      r := Done;
    }

    /** The final results, which need data. */
    method Finalize() returns (r: Outcome, groups: set<K>)
      ensures r == if initialized then Done else NoData
      ensures groups == if initialized then keys else {}
    {
      if !initialized {
        return NoData, {};
      }
      return Done, keys;
    }
  }

  lemma FlattenElements<T>(batches: seq<seq<T>>)
    requires batches != []
    ensures Elements(Flatten(batches)) == Elements(Flatten(batches[..|batches| - 1])) + Elements(batches[|batches| - 1])
  {
  }

  lemma {:induction false} PrefixElements<T>(batches: seq<seq<T>>, i: nat)
    requires i <= |batches|
    ensures Elements(Flatten(batches[..i])) <= Elements(Flatten(batches))
    decreases |batches| - i
  {
    if i == |batches| {
      assert batches[..i] == batches;
    } else {
      PrefixElements(batches, i + 1);
      FlattenElements(batches[..i + 1]);
      assert batches[..i + 1][..i] == batches[..i];
    }
  }

  /** `run_streaming_groupby`: it succeeds exactly when there is data, no batch is larger than the capacity
      and there are no more distinct keys in all than the capacity. */
  method RunStreamingGroupby<K(==)>(batches: seq<seq<K>>, capacity: int) returns (r: Outcome, keys: set<K>)
    ensures r.Done? <==> && capacity > 0 && (forall b :: b in batches ==> |b| <= capacity)
                         && |Elements(Flatten(batches))| <= capacity && Flatten(batches) != []
    ensures r.Done? ==> keys == Elements(Flatten(batches))
  {
    keys := {};
    if capacity <= 0 {
      return InvalidCapacity, {};
    }
    var streaming := new StreamingGroupby<K>(capacity);
    for i := 0 to |batches|
      invariant streaming.keys == Elements(Flatten(batches[..i])) && |streaming.keys| <= capacity
      invariant streaming.initialized <==> Flatten(batches[..i]) != []
      invariant forall k :: 0 <= k < i ==> |batches[k]| <= capacity
    {
      assert batches[..i + 1][..i] == batches[..i];
      FlattenElements(batches[..i + 1]);
      PrefixElements(batches, i + 1);
      SubsetSize(Elements(Flatten(batches[..i + 1])), Elements(Flatten(batches)));
      r := streaming.Aggregate(batches[i]);
      if !r.Done? {
        return r, {};
      }
    }
    assert batches[..|batches|] == batches;
    r, keys := streaming.Finalize();
  }

  // ----- batches -----

  lemma NextBatch<T>(input: seq<T>, batches: seq<seq<T>>, start: nat, end: nat)
    requires start <= end <= |input| && Flatten(batches) == input[..start]
    ensures Flatten(batches + [input[start..end]]) == input[..end]
  {
    assert (batches + [input[start..end]])[..|batches|] == batches;
  }

  /** `make_batches`. The batches are the input in pieces of the batch size, except for the last. */
  method MakeBatches<T>(input: seq<T>, batchSize: int) returns (batches: seq<seq<T>>)
    requires batchSize > 0
    ensures Flatten(batches) == input
    ensures forall b :: b in batches ==> 0 < |b| <= Min(batchSize, |input|)
    ensures forall k :: 0 <= k < |batches| - 1 ==> |batches[k]| == batchSize
  {
    batches := [];
    var start := 0;
    while start < |input|
      invariant 0 <= start
      invariant Flatten(batches) == input[..Min(start, |input|)]
      invariant forall k :: 0 <= k < |batches| ==> 0 < |batches[k]| <= Min(batchSize, |input|)
      invariant forall k :: 0 <= k < |batches| ==> (start <= |input| || k < |batches| - 1 ==> |batches[k]| == batchSize)
      decreases |input| - start
    {
      var end := Min(start + batchSize, |input|);
      NextBatch(input, batches, start, end);
      batches := batches + [input[start..end]];
      start := start + batchSize;
    }
    assert input[..|input|] == input;
  }

  // ----- composite keys -----

  datatype Cell = Null | Code(code: nat)

  /** The codes that one row can have: the group's quotient and remainder, each valid or null. */
  predicate Fits(cardinality: nat, modulus: nat, nulls: bool, key: (Cell, Cell), g: nat)
    requires modulus > 0
  {
    && g < cardinality
    && (key.0 == Code(g / modulus) || (nulls && key.0.Null?))
    && (key.1 == Code(g % modulus) || (nulls && key.1.Null?))
  }

  /** All keys that can occur. */
  function Admissible(cardinality: nat, modulus: nat, nulls: bool): set<(Cell, Cell)>
    requires modulus > 0
  {
    BothValid(cardinality, modulus)
    + if nulls then QuotientOnly(cardinality, modulus) + RemainderOnly(cardinality, modulus)
        + BothNull(cardinality) else {}
  }

  function BothValid(cardinality: nat, modulus: nat): set<(Cell, Cell)>
    requires modulus > 0
  {
    set g | 0 <= g < cardinality :: (Code(g / modulus), Code(g % modulus))
  }

  function QuotientOnly(cardinality: nat, modulus: nat): set<(Cell, Cell)>
    requires modulus > 0
  {
    set q | 0 <= q < CeilDiv(cardinality, modulus) :: (Code(q), Null)
  }

  function RemainderOnly(cardinality: nat, modulus: nat): set<(Cell, Cell)>
    requires modulus > 0
  {
    set r | 0 <= r < Min(cardinality, modulus) :: (Null, Code(r))
  }

  function BothNull(cardinality: nat): set<(Cell, Cell)> {
    if cardinality > 0 then {(Null, Null)} else {}
  }

  /** The bound that the benchmark computes. */
  function GroupBound(cardinality: nat, modulus: nat, nulls: bool): int
    requires modulus > 0
  {
    cardinality + if nulls then CeilDiv(cardinality, modulus) + Min(cardinality, modulus) + 1 else 0
  }

  /** The quotients of the groups are those below the number of quotient groups. */
  lemma QuotientBelow(g: nat, cardinality: nat, modulus: nat)
    requires modulus > 0
    ensures g < cardinality ==> g / modulus < CeilDiv(cardinality, modulus)
    ensures g < CeilDiv(cardinality, modulus) ==> g * modulus < cardinality
  {
    CeilDivIsLeast(cardinality, modulus, g);
    CeilDivIsLeast(cardinality, modulus, g / modulus);
    Divides(g, modulus);
  }

  lemma FitsAdmissible(cardinality: nat, modulus: nat, nulls: bool, key: (Cell, Cell), g: nat)
    requires modulus > 0 && Fits(cardinality, modulus, nulls, key, g)
    ensures key in Admissible(cardinality, modulus, nulls)
  {
    QuotientBelow(g, cardinality, modulus);
    Divides(g, modulus);
    MulMonotone(0, g / modulus, modulus);
    if key.0.Code? && key.1.Code? {
      assert key in BothValid(cardinality, modulus);
    } else if key.0.Code? {
      assert key in QuotientOnly(cardinality, modulus);
    } else if key.1.Code? {
      assert key in RemainderOnly(cardinality, modulus);
    } else {
      assert key in BothNull(cardinality);
    }
  }

  lemma QuotientFits(cardinality: nat, modulus: nat, q: nat)
    requires modulus > 0 && q < CeilDiv(cardinality, modulus)
    ensures Fits(cardinality, modulus, true, (Code(q), Null), q * modulus)
  {
    QuotientBelow(q, cardinality, modulus);
    MulMonotone(0, q, modulus);
    DivisionUnique(q * modulus, modulus, q, 0);
  }

  lemma RemainderFits(cardinality: nat, modulus: nat, r: nat)
    requires modulus > 0 && r < Min(cardinality, modulus)
    ensures Fits(cardinality, modulus, true, (Null, Code(r)), r)
  {
    DivisionUnique(r, modulus, 0, r);
  }

  lemma AdmissibleFits(cardinality: nat, modulus: nat, nulls: bool, key: (Cell, Cell)) returns (g: nat)
    requires modulus > 0 && key in Admissible(cardinality, modulus, nulls)
    ensures Fits(cardinality, modulus, nulls, key, g)
  {
    if key in BothValid(cardinality, modulus) {
      g :| 0 <= g < cardinality && key == (Code(g / modulus), Code(g % modulus));
    } else if key in QuotientOnly(cardinality, modulus) {
      QuotientFits(cardinality, modulus, key.0.code);
      MulMonotone(0, key.0.code, modulus);
      g := key.0.code * modulus;
    } else if key in RemainderOnly(cardinality, modulus) {
      RemainderFits(cardinality, modulus, key.1.code);
      g := key.1.code;
    } else {
      g := 0;
    }
  }

  /** Exactly the admissible keys can occur. */
  lemma AdmissibleMeans(cardinality: nat, modulus: nat, nulls: bool, key: (Cell, Cell))
    requires modulus > 0
    ensures key in Admissible(cardinality, modulus, nulls)
       <==> exists g: nat :: Fits(cardinality, modulus, nulls, key, g)
  {
    if key in Admissible(cardinality, modulus, nulls) {
      var g := AdmissibleFits(cardinality, modulus, nulls, key);
    } else {
      forall g: nat ensures !Fits(cardinality, modulus, nulls, key, g) {
        if Fits(cardinality, modulus, nulls, key, g) {
          FitsAdmissible(cardinality, modulus, nulls, key, g);
        }
      }
    }
  }

  lemma QuotientAndRemainder(i: nat, j: nat, modulus: nat)
    requires modulus > 0
    ensures i / modulus == j / modulus && i % modulus == j % modulus ==> i == j
  {
    Divides(i, modulus);
    Divides(j, modulus);
  }

  lemma BothValidSize(cardinality: nat, modulus: nat)
    requires modulus > 0
    ensures |BothValid(cardinality, modulus)| == cardinality
  {
    var keys := BothCodes(cardinality, modulus);
    forall i, j | 0 <= i < j < cardinality ensures keys[i] != keys[j] {
      QuotientAndRemainder(i, j, modulus);
    }
    DistinctSize(keys);
    forall key ensures key in BothValid(cardinality, modulus) <==> key in keys {
      BothValidListed(cardinality, modulus, key);
    }
    assert Elements(keys) == BothValid(cardinality, modulus);
  }

  lemma BothValidListed(cardinality: nat, modulus: nat, key: (Cell, Cell))
    requires modulus > 0
    ensures key in BothValid(cardinality, modulus) <==> key in BothCodes(cardinality, modulus)
  {
    var keys := BothCodes(cardinality, modulus);
    if key in BothValid(cardinality, modulus) {
      var g :| 0 <= g < cardinality && key == (Code(g / modulus), Code(g % modulus));
      assert keys[g] == key;
    }
    if key in keys {
      var g :| 0 <= g < cardinality && keys[g] == key;
    }
  }

  function BothCodes(cardinality: nat, modulus: nat): (keys: seq<(Cell, Cell)>)
    requires modulus > 0
    ensures |keys| == cardinality
    ensures forall g :: 0 <= g < cardinality ==> keys[g] == (Code(g / modulus), Code(g % modulus))
  {
    seq(cardinality, g requires 0 <= g < cardinality && modulus > 0 => (Code(g / modulus), Code(g % modulus)))
  }

  lemma QuotientOnlySize(cardinality: nat, modulus: nat)
    requires modulus > 0
    ensures |QuotientOnly(cardinality, modulus)| == CeilDiv(cardinality, modulus)
  {
    var n := CeilDiv(cardinality, modulus);
    var keys := seq(n, q requires 0 <= q < n => (Code(q), Null));
    DistinctSize(keys);
    forall q | 0 <= q < n ensures (Code(q), Null) in Elements(keys) {
      assert keys[q] == (Code(q), Null);
    }
    assert Elements(keys) == QuotientOnly(cardinality, modulus);
  }

  lemma RemainderOnlySize(cardinality: nat, modulus: nat)
    requires modulus > 0
    ensures |RemainderOnly(cardinality, modulus)| == Min(cardinality, modulus)
  {
    var n := Min(cardinality, modulus);
    var keys := seq(n, r requires 0 <= r < n => (Null, Code(r)));
    DistinctSize(keys);
    forall r | 0 <= r < n ensures (Null, Code(r)) in Elements(keys) {
      assert keys[r] == (Null, Code(r));
    }
    assert Elements(keys) == RemainderOnly(cardinality, modulus);
  }

  /** The bound is exact: it is the number of keys that can occur. */
  lemma BoundIsExact(cardinality: nat, modulus: nat, nulls: bool)
    requires modulus > 0 && cardinality > 0
    ensures |Admissible(cardinality, modulus, nulls)| == GroupBound(cardinality, modulus, nulls)
  {
    BothValidSize(cardinality, modulus);
    var a := BothValid(cardinality, modulus);
    if nulls {
      QuotientOnlySize(cardinality, modulus);
      RemainderOnlySize(cardinality, modulus);
      var b, c, d := QuotientOnly(cardinality, modulus), RemainderOnly(cardinality, modulus), BothNull(cardinality);
    } else {
      assert a + {} == a;
    }
  }

  datatype KeyFormat = INT32 | STRING | DATE_STRING

  /** A key element after the optional conversion of its column. */
  datatype Value = NullValue | Int(i: nat) | Text(s: string) | Days(d: nat)

  function Convert(format: KeyFormat, column: nat, cell: Cell): Value {
    if cell.Null? then NullValue
    else if format.STRING? || (format.DATE_STRING? && column == 1) then Text(Decimal(cell.code))
    else if format.DATE_STRING? then Days(cell.code)
    else Int(cell.code)
  }

  function ConvertKey(format: KeyFormat, key: (Cell, Cell)): (Value, Value) {
    (Convert(format, 0, key.0), Convert(format, 1, key.1))
  }

  /** Every format keeps distinct keys distinct. */
  lemma ConvertInjective(format: KeyFormat, a: (Cell, Cell), b: (Cell, Cell))
    requires ConvertKey(format, a) == ConvertKey(format, b)
    ensures a == b
  {
    if a.0.Code? && b.0.Code? {
      DecimalInjective(a.0.code, b.0.code);
    }
    if a.1.Code? && b.1.Code? {
      DecimalInjective(a.1.code, b.1.code);
    }
  }

  /** Quotient and remainder of a group, each valid or null. */
  function CodeOf(group: nat, modulus: nat, valid: (bool, bool)): (Cell, Cell)
    requires modulus > 0
  {
    (if valid.0 then Code(group / modulus) else Null, if valid.1 then Code(group % modulus) else Null)
  }

  /** A key element: null where the mask says so, and otherwise the code as a number, as a day in the first
      column of dates and strings, or in decimal digits. */
  ghost predicate IsElement(format: KeyFormat, second: bool, valid: bool, code: nat, v: Value) {
    && (v.NullValue? <==> !valid)
    && match v
       case NullValue => true
       case Int(i) => format == INT32 && i == code
       case Days(d) => format == DATE_STRING && !second && d == code
       case Text(s) => (format == STRING || (format == DATE_STRING && second)) && Prints(s, code)
  }

  lemma ConvertMeans(format: KeyFormat, group: nat, modulus: nat, valid: (bool, bool))
    requires modulus > 0
    ensures var key := ConvertKey(format, CodeOf(group, modulus, valid));
            && IsElement(format, false, valid.0, group / modulus, key.0)
            && IsElement(format, true, valid.1, group % modulus, key.1)
  {
    DecimalPrints(group / modulus);
    DecimalPrints(group % modulus);
  }

  /** `make_cardinality_inputs`: the key columns of random groups, under random masks that are all
      valid when there are to be no nulls. */
  method MakeCardinalityInputs(groups: seq<nat>, valid: seq<(bool, bool)>, modulus: nat, format: KeyFormat)
    returns (keys: seq<(Value, Value)>)
    requires modulus > 0 && |valid| == |groups|
    ensures |keys| == |groups|
    ensures forall i :: 0 <= i < |keys| ==> keys[i] == ConvertKey(format, CodeOf(groups[i], modulus, valid[i]))
    ensures forall i :: 0 <= i < |keys| ==>
              && IsElement(format, false, valid[i].0, groups[i] / modulus, keys[i].0)
              && IsElement(format, true, valid[i].1, groups[i] % modulus, keys[i].1)
  {
    keys := [];
    for i := 0 to |groups|
      invariant |keys| == i
      invariant forall k :: 0 <= k < i ==> keys[k] == ConvertKey(format, CodeOf(groups[k], modulus, valid[k]))
    {
      keys := keys + [ConvertKey(format, CodeOf(groups[i], modulus, valid[i]))];
    }
    forall i | 0 <= i < |keys|
      ensures && IsElement(format, false, valid[i].0, groups[i] / modulus, keys[i].0)
              && IsElement(format, true, valid[i].1, groups[i] % modulus, keys[i].1)
    {
      ConvertMeans(format, groups[i], modulus, valid[i]);
    }
  }

  lemma ElementsOfLast<T>(s: seq<T>)
    requires s != []
    ensures var init := s[..|s| - 1]; |Elements(s)| == |Elements(init)| + if s[|s| - 1] in init then 0 else 1
  {
    var init, x := s[..|s| - 1], s[|s| - 1];
    assert Elements(s) == Elements(init) + {x};
    assert x in init <==> x in Elements(init);
  }

  /** A key was seen before exactly when its code was. */
  lemma SeenBefore(format: KeyFormat, keys: seq<(Value, Value)>, codes: seq<(Cell, Cell)>, n: nat)
    requires n < |keys| == |codes| && forall i :: 0 <= i < |keys| ==> keys[i] == ConvertKey(format, codes[i])
    ensures keys[n] in keys[..n] <==> codes[n] in codes[..n]
  {
    forall i | 0 <= i < n ensures keys[i] == keys[n] <==> codes[i] == codes[n] {
      if keys[i] == keys[n] {
        ConvertInjective(format, codes[i], codes[n]);
      }
    }
  }

  /** Conversion does not change the number of distinct keys. */
  lemma {:induction false} ConvertedCount(format: KeyFormat, keys: seq<(Value, Value)>, codes: seq<(Cell, Cell)>)
    requires |keys| == |codes| && forall i :: 0 <= i < |keys| ==> keys[i] == ConvertKey(format, codes[i])
    ensures |Elements(keys)| == |Elements(codes)|
  {
    if keys == [] {
      assert Elements(keys) == {} && Elements(codes) == {};
    } else {
      var n := |keys| - 1;
      ConvertedCount(format, keys[..n], codes[..n]);
      SeenBefore(format, keys, codes, n);
      ElementsOfLast(keys);
      ElementsOfLast(codes);
    }
  }

  /** No more distinct keys than the bound. */
  lemma KeysBounded(groups: seq<nat>, valid: seq<(bool, bool)>, cardinality: nat, modulus: nat, nulls: bool,
                    format: KeyFormat, keys: seq<(Value, Value)>, codes: seq<(Cell, Cell)>)
    requires modulus > 0 && cardinality > 0 && |keys| == |codes| == |groups| == |valid|
    requires forall i :: 0 <= i < |groups| ==> groups[i] < cardinality
    requires !nulls ==> forall i :: 0 <= i < |valid| ==> valid[i] == (true, true)
    requires forall i :: 0 <= i < |keys| ==> keys[i] == ConvertKey(format, codes[i])
    requires forall i :: 0 <= i < |codes| ==> codes[i] == CodeOf(groups[i], modulus, valid[i])
    ensures |Elements(keys)| <= GroupBound(cardinality, modulus, nulls)
  {
    forall code | code in Elements(codes) ensures code in Admissible(cardinality, modulus, nulls) {
      var i :| 0 <= i < |codes| && codes[i] == code;
      assert Fits(cardinality, modulus, nulls, codes[i], groups[i]);
      AdmissibleMeans(cardinality, modulus, nulls, codes[i]);
    }
    SubsetSize(Elements(codes), Admissible(cardinality, modulus, nulls));
    ConvertedCount(format, keys, codes);
    BoundIsExact(cardinality, modulus, nulls);
  }

  /** `bench_streaming_groupby_cardinality`: skipped for parameters that are not positive, and otherwise
      the object accepts every batch, whatever groups and nulls were drawn. */
  method BenchCardinality(numRows: int, batchSize: int, cardinality: int, keyModulus: int, format: KeyFormat,
                          nulls: bool, groups: seq<nat>, valid: seq<(bool, bool)>)
    returns (skipped: bool, r: Outcome)
    requires |groups| == |valid| && (numRows > 0 ==> |groups| == numRows)
    requires forall i :: 0 <= i < |groups| ==> groups[i] < cardinality
    requires !nulls ==> forall i :: 0 <= i < |valid| ==> valid[i] == (true, true)
    ensures skipped <==> numRows <= 0 || batchSize <= 0 || cardinality <= 0 || keyModulus <= 0
    ensures !skipped ==> r.Done?
  {
    if numRows <= 0 || batchSize <= 0 || cardinality <= 0 || keyModulus <= 0 {
      return true, Done;
    }
    var groupBound := GroupBound(cardinality, keyModulus, nulls);
    var largestBatch := Min(batchSize, numRows);
    var capacity := Max(largestBatch, Min(numRows, groupBound));
    var keys := MakeCardinalityInputs(groups, valid, keyModulus, format);
    ghost var codes := seq(|groups|, i requires 0 <= i < |groups| => CodeOf(groups[i], keyModulus, valid[i]));
    KeysBounded(groups, valid, cardinality, keyModulus, nulls, format, keys, codes);
    DistinctSize(keys);
    var batches := MakeBatches(keys, batchSize);
    ghost var seen;
    r, seen := RunStreamingGroupby(batches, capacity);
    skipped := false;
  }

  // ----- long string keys -----

  function Repeat(c: char, n: nat): (s: string)
    ensures |s| == n && forall i :: 0 <= i < n ==> s[i] == c
  {
    seq(n, _ => c)
  }

  /** `cudf::strings::pad` on the right with '#'. */
  function PadRight(s: string, width: nat): string {
    if |s| >= width then s else s + Repeat('#', width - |s|)
  }

  function Digits(s: string): (n: nat)
    ensures n <= |s| && (n < |s| ==> !IsDigit(s[n]))
    ensures forall i :: 0 <= i < n ==> IsDigit(s[i])
  {
    if s == [] || !IsDigit(s[0]) then 0 else 1 + Digits(s[1..])
  }

  /** The digits of a padded number end where the padding begins. */
  lemma PaddedDigits(a: nat, width: nat)
    ensures var s, p := Decimal(a), PadRight(Decimal(a), width); Digits(p) == |s| && p[..|s|] == s
  {
    var s, p := Decimal(a), PadRight(Decimal(a), width);
    assert forall i :: 0 <= i < |s| ==> p[i] == s[i];
    assert |s| < |p| ==> p[|s|] == '#';
  }

  /** Padding does not merge keys, whatever the width, because no digit is '#'. */
  lemma PaddedInjective(a: nat, b: nat, width: nat)
    requires PadRight(Decimal(a), width) == PadRight(Decimal(b), width)
    ensures a == b
  {
    PaddedDigits(a, width);
    PaddedDigits(b, width);
    DecimalInjective(a, b);
  }

  datatype KeyMode = ALL_DISTINCT | REPEATED_BATCH

  /** A padded decimal, alone or in a struct beside the number. */
  datatype LongKey = StringKey(s: string) | StructKey(s: string, i: nat)

  function LongKeyOf(structs: bool, keyBytes: nat, i: nat): LongKey {
    if structs then StructKey(PadRight(Decimal(i), keyBytes), i) else StringKey(PadRight(Decimal(i), keyBytes))
  }

  lemma LongKeyInjective(structs: bool, keyBytes: nat, a: nat, b: nat)
    requires LongKeyOf(structs, keyBytes, a) == LongKeyOf(structs, keyBytes, b)
    ensures a == b
  {
    PaddedInjective(a, b, keyBytes);
  }

  /** The number in decimal digits, filled up with '#' on the right to the width, and in a struct the number
      itself beside it. */
  ghost predicate IsLongKey(structs: bool, width: nat, i: nat, key: LongKey) {
    && key.StructKey? == structs && (structs ==> key.i == i)
    && exists digits, fill :: && key.s == digits + fill && Prints(digits, i)
                              && (forall k :: 0 <= k < |fill| ==> fill[k] == '#')
                              && (fill == [] || |key.s| == width) && |key.s| >= width
  }

  lemma LongKeyMeans(structs: bool, keyBytes: nat, i: nat, key: LongKey)
    ensures LongKeyOf(structs, keyBytes, i) == key <==> IsLongKey(structs, keyBytes, i, key)
  {
    var s := Decimal(i);
    DecimalPrints(i);
    if LongKeyOf(structs, keyBytes, i) == key {
      var fill := if |s| >= keyBytes then [] else Repeat('#', keyBytes - |s|);
      assert key.s == s + fill;
    }
    if digits, fill :| && IsLongKey(structs, keyBytes, i, key) && key.s == digits + fill && Prints(digits, i)
                       && (forall k :: 0 <= k < |fill| ==> fill[k] == '#')
                       && (fill == [] || |key.s| == keyBytes) && |key.s| >= keyBytes
    {
      DecimalMeans(i, digits);
      if fill != [] {
        assert fill == Repeat('#', keyBytes - |s|);
      }
    }
  }

  /** The integer keys: every row its own, or the first batch's again and again. */
  function IntegerKey(mode: KeyMode, batchSize: nat, i: nat): nat
    requires batchSize > 0
  {
    if mode.REPEATED_BATCH? then i % batchSize else i
  }

  /** As many distinct keys as rows, or as the first batch has rows. */
  lemma LongKeyCount(keys: seq<LongKey>, mode: KeyMode, batchSize: nat, structs: bool, keyBytes: nat)
    requires batchSize > 0
    requires forall i :: 0 <= i < |keys| ==> keys[i] == LongKeyOf(structs, keyBytes, IntegerKey(mode, batchSize, i))
    ensures |Elements(keys)| == if mode.ALL_DISTINCT? then |keys| else Min(batchSize, |keys|)
  {
    var n := if mode.ALL_DISTINCT? then |keys| else Min(batchSize, |keys|);
    var first := keys[..n];
    forall i | 0 <= i < n ensures IntegerKey(mode, batchSize, i) == i {
      DivisionUnique(i, if i < batchSize then batchSize else i + 1, 0, i);
    }
    forall i, j | 0 <= i < j < n ensures first[i] != first[j] {
      if first[i] == first[j] {
        LongKeyInjective(structs, keyBytes, i, j);
      }
    }
    DistinctSize(first);
    forall x | x in Elements(keys) ensures x in Elements(first) {
      var i :| 0 <= i < |keys| && keys[i] == x;
      assert first[IntegerKey(mode, batchSize, i)] == x;
    }
    assert Elements(keys) == Elements(first);
  }

  /** `bench_streaming_groupby_long_string`: every batch is accepted, and there are exactly as many
      groups as the benchmark's name for the mode says. */
  method BenchLongString(numRows: int, batchSize: int, keyBytes: nat, mode: KeyMode, structs: bool)
    returns (r: Outcome, keys: set<LongKey>)
    requires numRows > 0 && batchSize > 0
    ensures r.Done?
    ensures |keys| == if mode.ALL_DISTINCT? then numRows else Min(batchSize, numRows)
    ensures forall key :: key in keys <==> IsLongKeyBelow(
              if mode.ALL_DISTINCT? then numRows else Min(batchSize, numRows), structs, keyBytes, key)
  {
    var groups := if mode.ALL_DISTINCT? then numRows else Min(batchSize, numRows);
    var capacity := Max(groups, Min(batchSize, numRows));
    var input := seq(numRows, i requires 0 <= i < numRows && batchSize > 0 =>
      LongKeyOf(structs, keyBytes, IntegerKey(mode, batchSize, i)));
    LongKeyCount(input, mode, batchSize, structs, keyBytes);
    var batches := MakeBatches(input, batchSize);
    r, keys := RunStreamingGroupby(batches, capacity);
    forall key ensures key in keys <==> IsLongKeyBelow(if mode.ALL_DISTINCT? then numRows else Min(batchSize, numRows),
                                                     structs, keyBytes, key)
    {
      LongKeysAre(input, mode, batchSize, structs, keyBytes, key);
    }
  }

  ghost predicate IsLongKeyBelow(n: nat, structs: bool, keyBytes: nat, key: LongKey) {
    exists i: nat :: i < n && IsLongKey(structs, keyBytes, i, key)
  }

  lemma IntegerKeyBelow(mode: KeyMode, batchSize: nat, i: nat, n: nat)
    requires batchSize > 0 && i < n
    ensures IntegerKey(mode, batchSize, i) < if mode.ALL_DISTINCT? then n else Min(batchSize, n)
    ensures i < (if mode.ALL_DISTINCT? then n else Min(batchSize, n)) ==> IntegerKey(mode, batchSize, i) == i
  {
    Divides(i, batchSize);
    MulMonotone(0, i / batchSize, batchSize);
    if i < batchSize {
      DivisionUnique(i, batchSize, 0, i);
    }
  }

  lemma LongKeysAre(input: seq<LongKey>, mode: KeyMode, batchSize: nat, structs: bool, keyBytes: nat, key: LongKey)
    requires batchSize > 0
    requires forall i :: 0 <= i < |input| ==> input[i] == LongKeyOf(structs, keyBytes, IntegerKey(mode, batchSize, i))
    ensures key in Elements(input)
       <==> IsLongKeyBelow(if mode.ALL_DISTINCT? then |input| else Min(batchSize, |input|), structs, keyBytes, key)
  {
    var n := if mode.ALL_DISTINCT? then |input| else Min(batchSize, |input|);
    if key in Elements(input) {
      var k :| 0 <= k < |input| && input[k] == key;
      IntegerKeyBelow(mode, batchSize, k, |input|);
      LongKeyMeans(structs, keyBytes, IntegerKey(mode, batchSize, k), key);
    }
    if IsLongKeyBelow(n, structs, keyBytes, key) {
      var i: nat :| i < n && IsLongKey(structs, keyBytes, i, key);
      IntegerKeyBelow(mode, batchSize, i, |input|);
      LongKeyMeans(structs, keyBytes, i, key);
      assert input[i] == key;
    }
  }
}
