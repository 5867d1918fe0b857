/** Skewed string columns (cpp/benchmarks/common/generate_skewed_data.cpp): exactly how many rows contain
    the target and how many are short. Strings are sequences of bytes. */
module SkewedStrings {
  import opened Numbers
  import opened Sequences

  const TARGET := "0987 5W43"
  const TEMPLATE_LENGTH := 16

  const TEMPLATES: seq<string> := [
    "123abc 0987 5W43", "012345 6789 0123", "abc 4567890 DEFG", "01234abcdefghijk", "sksksksksksksksk",
    "Abc\U{C3}\U{A9}DEFGHIJKLMN", "9876543210,abcde", "                ", "123 \U{C3}\U{A9}df 4567890",
    "1111111111111111"]

  /** Every template has the one length, the target ends the first, and no other has the target's 'W'. */
  lemma TemplatesShape(k: nat)
    requires k < |TEMPLATES|
    ensures |TEMPLATES| == 10 && |TEMPLATES[k]| == TEMPLATE_LENGTH
    ensures k == 0 ==> TEMPLATES[k][7..16] == TARGET
    ensures k > 0 ==> 'W' !in TEMPLATES[k]
  {
    assert "123abc 0987 5W43"[7..16] == TARGET;
  }

  // ----- repeat_to_width -----

  /** The string over and over, cut at the width. */
  ghost predicate Repeats(result: string, str: string, width: nat)
    requires str != ""
  {
    |result| == width && forall i :: 0 <= i < width ==> result[i] == str[i % |str|]
  }

  /** `repeat_to_width`. */
  method RepeatToWidth(str: string, width: nat) returns (r: Option<string>)
    ensures r.Some? <==> |str| == TEMPLATE_LENGTH && width % TEMPLATE_LENGTH == 0
    ensures r.Some? ==> Repeats(r.value, str, width)
  {
    if str == "" || |str| != TEMPLATE_LENGTH || width % |str| != 0 {
      return None;
    }
    var result, rounds := "", 0;
    while |result| < width
      invariant |result| <= width && (|result| == rounds * |str| || |result| == width)
      invariant forall i :: 0 <= i < |result| ==> result[i] == str[i % |str|]
      decreases width - |result|
    {
      var piece := str[..if width - |result| < |str| then width - |result| else |str|];
      forall i | 0 <= i < |piece| ensures str[(|result| + i) % |str|] == piece[i] {
        DivisionUnique(|result| + i, |str|, rounds, i);
      }
      result := result + piece;
      rounds := rounds + 1;
    }
    return Some(result);
  }

  /** A repeated template that holds the target's 'W' nowhere does not contain the target. */
  lemma RepeatedWithout(result: string, str: string, width: nat)
    requires str != "" && Repeats(result, str, width) && 'W' !in str
    ensures !ContainsWord(result, TARGET)
  {
    assert TARGET[6] == 'W';
    forall i: nat ensures !WordAt(result, TARGET, i) {
      if i + |TARGET| <= |result| {
        assert result[i..i + |TARGET|][6] == result[i + 6] == str[(i + 6) % |str|];
      }
    }
  }

  /** The first template contains the target as soon as it is repeated once in full. */
  lemma RepeatedFirst(result: string, width: nat)
    requires width >= TEMPLATE_LENGTH && |TEMPLATES[0]| == TEMPLATE_LENGTH && Repeats(result, TEMPLATES[0], width)
    ensures ContainsWord(result, TARGET)
  {
    TemplatesShape(0);
    forall i | 7 <= i < 16 ensures result[i] == TEMPLATES[0][i] {
      DivisionUnique(i, TEMPLATE_LENGTH, 0, i);
    }
    assert result[7..16] == TEMPLATES[0][7..16];
    assert WordAt(result, TARGET, 7);
  }

  // ----- strided scatter -----

  /** `count` indexes, a fixed stride apart. */
  function Strided(count: nat, stride: nat): (s: seq<int>)
    ensures |s| == count && forall i :: 0 <= i < count ==> s[i] == i * stride
  {
    seq(count, i => i * stride)
  }

  /** `cudf::scatter` of one scalar: the target with the scalar at the listed indexes. */
  method Scatter(target: seq<int>, indexes: seq<int>, value: int) returns (out: seq<int>)
    requires forall k :: 0 <= k < |indexes| ==> 0 <= indexes[k] < |target|
    ensures |out| == |target|
    ensures forall i :: 0 <= i < |out| ==> out[i] == if i in indexes then value else target[i]
  {
    out := target;
    for k := 0 to |indexes|
      invariant |out| == |target|
      invariant forall i :: 0 <= i < |out| ==> out[i] == if i in indexes[..k] then value else target[i]
    {
      assert indexes[..k + 1] == indexes[..k] + [indexes[k]];
      out := out[indexes[k] := value];
    }
    assert indexes[..|indexes|] == indexes;
  }

  lemma StrideGrows(i: nat, j: nat, stride: nat)
    requires i < j && stride > 0
    ensures i * stride < j * stride
  {
    MulMonotone(i + 1, j, stride);
  }

  lemma StrideFits(k: nat, count: nat, rows: nat)
    requires k < count <= rows
    ensures 0 <= k * (rows / count) < rows
  {
    Divides(rows, count);
    var stride := rows / count;
    MulMonotone(0, k, stride);
    MulMonotone(k + 1, count, stride);
    assert count * stride == stride * count;
    DivisionPositive(rows, count);
  }

  lemma DivisionPositive(rows: nat, count: nat)
    requires 0 < count <= rows
    ensures rows / count > 0
  {
    Divides(rows, count);
  }

  /** The strided indexes are distinct and within the table. */
  lemma StridedInRange(rows: nat, count: nat)
    requires 0 < count <= rows
    ensures var s := Strided(count, rows / count); Distinct(s) && forall k :: 0 <= k < count ==> 0 <= s[k] < rows
  {
    var s := Strided(count, rows / count);
    DivisionPositive(rows, count);
    forall i, j | 0 <= i < j < count ensures s[i] < s[j] {
      StrideGrows(i, j, rows / count);
    }
    forall k | 0 <= k < count ensures 0 <= s[k] < rows {
      StrideFits(k, count, rows);
    }
  }

  function Zeros(s: seq<int>): set<int> {
    set i | 0 <= i < |s| && s[i] == 0
  }

  lemma ZerosScattered(table: seq<int>, indexes: seq<int>, out: seq<int>)
    requires |out| == |table| && Distinct(indexes)
    requires forall k :: 0 <= k < |indexes| ==> 0 <= indexes[k] < |table|
    requires forall i :: 0 <= i < |table| ==> table[i] != 0
    requires forall i :: 0 <= i < |out| ==> out[i] == if i in indexes then 0 else table[i]
    ensures |Zeros(out)| == |indexes|
  {
    DistinctSize(indexes);
    assert Zeros(out) == Elements(indexes);
  }

  /** Scatters zeros into a table without zeros: as many rows as the percentage says, rounded down,
      become zero. */
  method ScatterZeros(table: seq<int>, percent: nat) returns (out: seq<int>)
    requires percent <= 100 && forall i :: 0 <= i < |table| ==> table[i] != 0
    ensures |out| == |table| && |Zeros(out)| == |table| * percent / 100
    ensures forall i :: 0 <= i < |out| && out[i] != 0 ==> out[i] == table[i]
  {
    var count := |table| * percent / 100;
    out := table;
    if count > 0 {
      var indexes := Strided(count, |table| / count);
      StridedInRange(|table|, count);
      out := Scatter(table, indexes, 0);
      ZerosScattered(table, indexes, out);
    } else {
      assert Zeros(out) == {};
    }
  }

  /** `make_gather_map`, for any random table of template numbers other than the first. */
  method MakeGatherMap(random: seq<int>, numTemplates: nat, hitRate: nat) returns (gatherMap: seq<int>)
    requires hitRate <= 100 && forall i :: 0 <= i < |random| ==> 1 <= random[i] < numTemplates
    ensures |gatherMap| == |random| && |Zeros(gatherMap)| == |random| * hitRate / 100
    ensures forall i :: 0 <= i < |gatherMap| ==> gatherMap[i] == 0 || 1 <= gatherMap[i] < numTemplates
  {
    gatherMap := ScatterZeros(random, hitRate);
  }

  /** `make_short_row_mask`. */
  method MakeShortRowMask(numRows: nat, shortStringPct: nat) returns (mask: seq<bool>)
    requires shortStringPct <= 100
    ensures |mask| == numRows && |set i | 0 <= i < numRows && mask[i]| == numRows * shortStringPct / 100
  {
    var ones := seq(numRows, _ => 1);
    var types := ScatterZeros(ones, shortStringPct);
    mask := seq(numRows, i requires 0 <= i < numRows && |types| == numRows => types[i] == 0);
    assert (set i | 0 <= i < numRows && mask[i]) == Zeros(types);
  }

  // ----- the column -----

  /** Every template, repeated to the width. */
  ghost predicate IsTemplateColumn(column: seq<string>, width: nat) {
    |column| == |TEMPLATES| && forall k :: 0 <= k < |TEMPLATES| ==>
      TEMPLATES[k] != "" && Repeats(column[k], TEMPLATES[k], width)
  }

  /** `make_template_column`. */
  method MakeTemplateColumn(width: nat) returns (r: Option<seq<string>>)
    ensures r.Some? <==> width % TEMPLATE_LENGTH == 0
    ensures r.Some? ==> IsTemplateColumn(r.value, width)
  {
    TemplatesShape(0);
    var column := [];
    for k := 0 to |TEMPLATES|
      invariant |column| == k
      invariant k > 0 ==> width % TEMPLATE_LENGTH == 0
      invariant forall j :: 0 <= j < k ==> TEMPLATES[j] != "" && Repeats(column[j], TEMPLATES[j], width)
    {
      TemplatesShape(k);
      var repeated := RepeatToWidth(TEMPLATES[k], width);
      if repeated.None? {
        return None;
      }
      column := column + [repeated.value];
    }
    return Some(column);
  }

  /** The arguments the function insists on. */
  predicate Accepted(numRows: int, shortLength: int, longTailLength: int, shortStringPct: int, hitRate: int) {
    && numRows >= 0 && shortLength >= 16 && longTailLength >= 1024 && 0 <= shortStringPct <= 100 && 0 <= hitRate <= 100
    && longTailLength > shortLength && shortLength % 16 == 0 && longTailLength % 16 == 0
  }

  function Hits(column: seq<string>): set<int> {
    set i | 0 <= i < |column| && ContainsWord(column[i], TARGET)
  }

  function OfLength(column: seq<string>, length: int): set<int> {
    set i | 0 <= i < |column| && |column[i]| == length
  }

  /** A template repeated to a width of at least one length contains the target exactly if it is the first. */
  lemma HitsAreFirst(column: seq<string>, width: nat, k: nat)
    requires IsTemplateColumn(column, width) && width >= TEMPLATE_LENGTH && k < |TEMPLATES|
    ensures ContainsWord(column[k], TARGET) <==> k == 0
    ensures |column[k]| == width
  {
    TemplatesShape(k);
    if k == 0 {
      RepeatedFirst(column[k], width);
    } else {
      RepeatedWithout(column[k], TEMPLATES[k], width);
    }
  }

  /** `create_skewed_string_column`, for any random choice of the other templates. */
  method CreateSkewedStringColumn(random: seq<int>, numRows: int, shortLength: int, longTailLength: int,
                                  shortStringPct: int, hitRate: int)
    returns (r: Option<seq<string>>)
    requires numRows >= 0 ==> |random| == numRows
    requires forall i :: 0 <= i < |random| ==> 1 <= random[i] < |TEMPLATES|
    ensures r.Some? <==> Accepted(numRows, shortLength, longTailLength, shortStringPct, hitRate)
    ensures r.Some? ==> |r.value| == |random|
    ensures r.Some? ==> |Hits(r.value)| == |random| * hitRate / 100
    ensures r.Some? ==> |OfLength(r.value, shortLength)| == |random| * shortStringPct / 100
    ensures r.Some? ==> forall i :: 0 <= i < |random| ==> |r.value[i]| == shortLength || |r.value[i]| == longTailLength
  {
    if numRows < 0 || shortLength < 16 || longTailLength < 1024 || shortStringPct < 0 || shortStringPct > 100
       || hitRate < 0 || hitRate > 100 || longTailLength <= shortLength
       || shortLength % TEMPLATE_LENGTH != 0 || longTailLength % TEMPLATE_LENGTH != 0
    {
      return None;
    }
    var shortTemplates := MakeTemplateColumn(shortLength);
    var longTemplates := MakeTemplateColumn(longTailLength);
    var short_, long_ := shortTemplates.value, longTemplates.value;
    var gatherMap := MakeGatherMap(random, |TEMPLATES|, hitRate);
    var mask := MakeShortRowMask(|random|, shortStringPct);
    var column := Choose(short_, long_, gatherMap, mask, shortLength, longTailLength);
    assert Hits(column) == Zeros(gatherMap);
    assert OfLength(column, shortLength) == set i | 0 <= i < |random| && mask[i];
    return Some(column);
  }

  /** `gather_templates` of both widths and `cudf::copy_if_else`. */
  method Choose(shortTemplates: seq<string>, longTemplates: seq<string>, gatherMap: seq<int>, mask: seq<bool>,
                ghost shortLength: nat, ghost longLength: nat)
    returns (column: seq<string>)
    requires IsTemplateColumn(shortTemplates, shortLength) && IsTemplateColumn(longTemplates, longLength)
    requires TEMPLATE_LENGTH <= shortLength < longLength && |mask| == |gatherMap|
    requires forall i :: 0 <= i < |gatherMap| ==> 0 <= gatherMap[i] < |TEMPLATES|
    ensures |column| == |gatherMap|
    ensures forall i :: 0 <= i < |column| ==> (ContainsWord(column[i], TARGET) <==> gatherMap[i] == 0)
    ensures forall i :: 0 <= i < |column| ==> |column[i]| == if mask[i] then shortLength else longLength
  {
    column := [];
    for i := 0 to |gatherMap|
      invariant |column| == i
      invariant forall k :: 0 <= k < i ==> (ContainsWord(column[k], TARGET) <==> gatherMap[k] == 0)
      invariant forall k :: 0 <= k < i ==> |column[k]| == if mask[k] then shortLength else longLength
    {
      HitsAreFirst(shortTemplates, shortLength, gatherMap[i]);
      HitsAreFirst(longTemplates, longLength, gatherMap[i]);
      column := column + [if mask[i] then shortTemplates[gatherMap[i]] else longTemplates[gatherMap[i]]];
    }
  }
}
