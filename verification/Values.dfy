/** Column elements, the element-wise operators and the aggregations the benchmarks use. */
module Values {
  import opened Sequences

  /** One element of a column. `Null` is an element whose validity bit is off. */
  datatype Value =
    | Null
    | Num(num: real)
    | Text(text: string)
    | Day(day: int)
    | Bool(truth: bool)

  datatype Operator = ADD | SUB | MUL | EQUAL | GREATER_EQUAL | LESS | LOGICAL_AND

  /** `cudf::binary_operation` and a binary AST node on one row: a null operand gives null. */
  function Apply(op: Operator, a: Value, b: Value): Value {
    if a.Null? || b.Null? then Null
    else match op
      case ADD => if a.Num? && b.Num? then Num(a.num + b.num) else Null
      case SUB => if a.Num? && b.Num? then Num(a.num - b.num) else Null
      case MUL => if a.Num? && b.Num? then Num(a.num * b.num) else Null
      case EQUAL => Bool(a == b)
      case GREATER_EQUAL => if a.Day? && b.Day? then Bool(a.day >= b.day) else Null
      case LESS => if a.Day? && b.Day? then Bool(a.day < b.day) else Null
      case LOGICAL_AND => if a.Bool? && b.Bool? then Bool(a.truth && b.truth) else Null
  }

  /** `cudf::binary_operation` on two columns. */
  function BinaryOperation(op: Operator, a: seq<Value>, b: seq<Value>): (out: seq<Value>)
    requires |a| == |b|
    ensures |out| == |a|
    ensures forall r :: 0 <= r < |a| ==> out[r] == Apply(op, a[r], b[r])
  {
    seq(|a|, r requires 0 <= r < |a| => Apply(op, a[r], b[r]))
  }

  /** `cudf::binary_operation` with a scalar on the right. */
  function ColumnScalar(op: Operator, a: seq<Value>, s: Value): (out: seq<Value>)
    ensures |out| == |a|
    ensures forall r :: 0 <= r < |a| ==> out[r] == Apply(op, a[r], s)
  {
    seq(|a|, r requires 0 <= r < |a| => Apply(op, a[r], s))
  }

  /** `cudf::binary_operation` with a scalar on the left. */
  function ScalarColumn(op: Operator, s: Value, a: seq<Value>): (out: seq<Value>)
    ensures |out| == |a|
    ensures forall r :: 0 <= r < |a| ==> out[r] == Apply(op, s, a[r])
  {
    seq(|a|, r requires 0 <= r < |a| => Apply(op, s, a[r]))
  }

  // ----- aggregations -----

  /** The aggregation kinds; `OTHER` stands for all those that apply_groupby refuses. */
  datatype Kind = SUM | MEAN | COUNT_ALL | OTHER

  function Total(f: Value -> real, s: seq<Value>): real {
    if s == [] then 0.0 else f(s[0]) + Total(f, s[1..])
  }

  function Amount(v: Value): real {
    if v.Num? then v.num else 0.0
  }

  function IsNumber(v: Value): real {
    if v.Num? then 1.0 else 0.0
  }

  function IsValid(v: Value): real {
    if v.Null? then 0.0 else 1.0
  }

  /** What cudf computes for one group. SUM and MEAN skip nulls and are null on a group without
      numbers; the default count aggregation, which COUNT_ALL is mapped to, counts valid elements. */
  function Aggregate(kind: Kind, s: seq<Value>): Value {
    match kind
    case SUM => if Total(IsNumber, s) == 0.0 then Null else Num(Total(Amount, s))
    case MEAN => if Total(IsNumber, s) == 0.0 then Null else Num(Total(Amount, s) / Total(IsNumber, s))
    case COUNT_ALL => Num(Total(IsValid, s))
    case OTHER => Null
  }

  lemma {:induction false} TotalConcat(f: Value -> real, s: seq<Value>, t: seq<Value>)
    ensures Total(f, s + t) == Total(f, s) + Total(f, t)
  {
    if s == [] {
      assert s + t == t;
    } else {
      assert (s + t)[1..] == s[1..] + t;
      TotalConcat(f, s[1..], t);
    }
  }

  lemma {:induction false} TotalPermutes(f: Value -> real, s: seq<Value>, t: seq<Value>)
    requires multiset(s) == multiset(t)
    ensures Total(f, s) == Total(f, t)
    decreases |s|
  {
    if s == [] {
      assert |t| == |multiset(t)| == 0;
    } else {
      var j := RemoveHead(s, t);
      TotalPermutes(f, s[1..], t[..j] + t[j + 1..]);
      TotalConcat(f, t[..j], t[j + 1..]);
      TotalConcat(f, t[..j], [t[j]] + t[j + 1..]);
      assert t == t[..j] + ([t[j]] + t[j + 1..]);
    }
  }

  /** The order in which a join or a gather delivers a group's rows does not change an aggregate. */
  lemma AggregatePermutes(kind: Kind, s: seq<Value>, t: seq<Value>)
    requires multiset(s) == multiset(t)
    ensures Aggregate(kind, s) == Aggregate(kind, t)
  {
    TotalPermutes(Amount, s, t);
    TotalPermutes(IsNumber, s, t);
    TotalPermutes(IsValid, s, t);
  }

  lemma {:induction false} ValidCountBound(s: seq<Value>)
    ensures Total(IsValid, s) <= |s| as real
    ensures Total(IsValid, s) == |s| as real <==> Null !in s
  {
    if s != [] {
      ValidCountBound(s[1..]);
      assert s == [s[0]] + s[1..];
    }
  }

  /** The numbers among the values. */
  function Numbers(s: seq<Value>): (r: seq<real>)
    ensures |r| <= |s|
  {
    if s == [] then [] else (if s[0].Num? then [s[0].num] else []) + Numbers(s[1..])
  }

  function Sum(s: seq<real>): real {
    if s == [] then 0.0 else Sum(s[..|s| - 1]) + s[|s| - 1]
  }

  lemma {:induction false} SumFromLeft(x: real, s: seq<real>)
    ensures Sum([x] + s) == x + Sum(s)
  {
    if s == [] {
      assert ([x] + s)[..0] == [];
    } else {
      assert ([x] + s)[..|s|] == [x] + s[..|s| - 1];
      SumFromLeft(x, s[..|s| - 1]);
    }
  }

  lemma {:induction false} TotalsAreSums(s: seq<Value>)
    ensures Total(Amount, s) == Sum(Numbers(s)) && Total(IsNumber, s) == |Numbers(s)| as real
  {
    if s != [] {
      TotalsAreSums(s[1..]);
      if s[0].Num? {
        SumFromLeft(s[0].num, Numbers(s[1..]));
      } else {
        assert [] + Numbers(s[1..]) == Numbers(s[1..]);
      }
    }
  }

  /** SUM is the sum of the numbers and MEAN their average; both are null when there are none. */
  lemma SumAndMean(s: seq<Value>)
    ensures Numbers(s) == [] ==> Aggregate(SUM, s) == Aggregate(MEAN, s) == Null
    ensures Numbers(s) != [] ==>
              && Aggregate(SUM, s) == Num(Sum(Numbers(s)))
              && Aggregate(MEAN, s) == Num(Sum(Numbers(s)) / |Numbers(s)| as real)
  {
    TotalsAreSums(s);
  }

  /** COUNT(*) counts rows. The count that apply_groupby requests for COUNT_ALL leaves out nulls, so
      the two agree exactly on the groups whose counted column has no null. */
  lemma CountAllIsRowCount(s: seq<Value>)
    ensures Aggregate(COUNT_ALL, s) == Num(|s| as real) <==> Null !in s
  {
    ValidCountBound(s);
  }

  /** A group of two rows whose counted column has one null: the program counts one. */
  lemma CountAllMissesNull()
    ensures Aggregate(COUNT_ALL, [Null, Num(7.0)]) == Num(1.0)
  {
    assert [Null, Num(7.0)][1..] == [Num(7.0)];
    assert Total(IsValid, [Num(7.0)]) == 1.0 + Total(IsValid, [Num(7.0)][1..]);
  }

  // ----- the order used by sort_by_key -----

  function Rank(v: Value): nat {
    match v case Null => 0 case Num(_) => 1 case Text(_) => 2 case Day(_) => 3 case Bool(_) => 4
  }

  predicate TextLe(a: string, b: string) {
    a == [] || (b != [] && (a[0] < b[0] || (a[0] == b[0] && TextLe(a[1..], b[1..]))))
  }

  /** Nulls first, then the natural order; columns hold one type each. */
  predicate ValueLe(a: Value, b: Value) {
    if Rank(a) != Rank(b) then Rank(a) < Rank(b)
    else match a
      case Null => true
      case Num(x) => x <= b.num
      case Text(x) => TextLe(x, b.text)
      case Day(x) => x <= b.day
      case Bool(x) => x ==> b.truth
  }

  /** Strictly before, written out: nulls come first, numbers and days by size, texts by the first character
      that differs or by the end of the shorter one. */
  ghost predicate Below(a: Value, b: Value) {
    match (a, b)
    case (Num(x), Num(y)) => x < y
    case (Day(x), Day(y)) => x < y
    case (Bool(x), Bool(y)) => !x && y
    case (Text(x), Text(y)) => exists k: nat :: TextBelow(x, y, k)
    case _ => if a.Null? || b.Null? then !b.Null? else Rank(a) < Rank(b)
  }

  /** The texts agree up to `k`, where the first one ends or has the smaller character. */
  predicate TextBelow(a: string, b: string, k: nat) {
    k <= |a| && k < |b| && a[..k] == b[..k] && (k < |a| ==> a[k] < b[k])
  }

  lemma TextBelowRest(a: string, b: string, k: nat)
    requires a != [] && b != [] && a[0] == b[0]
    ensures TextBelow(a, b, k + 1) <==> TextBelow(a[1..], b[1..], k)
  {
    if k + 1 <= |a| && k + 1 <= |b| {
      assert a[..k + 1] == [a[0]] + a[1..][..k] && b[..k + 1] == [b[0]] + b[1..][..k];
      assert a[1..][..k] == a[..k + 1][1..] && b[1..][..k] == b[..k + 1][1..];
    }
  }

  lemma {:induction false} TextLeMeans(a: string, b: string)
    ensures TextLe(a, b) <==> a == b || exists k: nat :: TextBelow(a, b, k)
    ensures TextLe(a, b) && TextLe(b, a) ==> a == b
  {
    if a == [] {
      assert b != [] ==> TextBelow(a, b, 0);
    } else if b != [] {
      TextLeMeans(a[1..], b[1..]);
      assert a == [a[0]] + a[1..] && b == [b[0]] + b[1..];
      if a[0] < b[0] {
        assert TextBelow(a, b, 0);
      } else if a[0] == b[0] {
        if k: nat :| TextBelow(a, b, k) {
          TextBelowRest(a, b, k - 1);
        }
        if k: nat :| TextBelow(a[1..], b[1..], k) {
          TextBelowRest(a, b, k);
        }
      } else {
        assert forall k: nat :: TextBelow(a, b, k) ==> k == 0 || a[..k][0] == b[..k][0];
      }
    }
  }

  /** The order of the sort is the strict one or equality. */
  lemma ValueLeMeans(a: Value, b: Value)
    ensures ValueLe(a, b) <==> a == b || Below(a, b)
    ensures ValueLe(a, b) && ValueLe(b, a) ==> a == b
    ensures !(Below(a, b) && a == b)
  {
    if a.Text? && b.Text? {
      TextLeMeans(a.text, b.text);
    }
  }

  lemma {:induction false} TextLeOrder(a: string, b: string, c: string)
    ensures TextLe(a, b) || TextLe(b, a)
    ensures TextLe(a, b) && TextLe(b, c) ==> TextLe(a, c)
  {
    if a != [] && b != [] {
      TextLeOrder(a[1..], b[1..], if c == [] then [] else c[1..]);
    }
  }

  lemma ValueLeOrder(a: Value, b: Value, c: Value)
    ensures ValueLe(a, b) || ValueLe(b, a)
    ensures ValueLe(a, b) && ValueLe(b, c) ==> ValueLe(a, c)
  {
    if a.Text? && b.Text? {
      TextLeOrder(a.text, b.text, if c.Text? then c.text else []);
    }
  }
}
